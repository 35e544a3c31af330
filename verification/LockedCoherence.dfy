/** The two orchestrators over one L1 and one L2 store, any number of clients, and the striped locks around every
    operation. One step is one call to a handler, or the taking or releasing of a lock. */
module LockedCoherence {
  import opened Bytes
  import opened Memcached

  datatype Entry = Entry(data: bytes, flags: uint32)

  type Store = map<bytes, Entry>

  datatype Orca = L1L2 | L1L2Batch

  /** A get is for one key: the locking wrapper splits gets. */
  datatype Op =
    | StoreOp(kind: SetKind, key: bytes, entry: Entry)
    | JoinOp(atEnd: bool, key: bytes, data: bytes)
    | DeleteOp(key: bytes)
    | TouchOp(key: bytes)
    | GetOp(key: bytes)
    | GatOp(key: bytes)

  datatype Answer = Ok | Refused | Found(entry: Entry) | NotThere | Trampled | Inconsistent

  /** What has been done so far. */
  datatype Progress =
    | Begun                      // nothing
    | L2Done                     // the L2 half of a write
    | L1Missed                   // a read found nothing in L1
    | L1Touched(entry: Entry)    // a get-and-touch hit in L1
    | Fetched(entry: Entry)      // a read found this in L2

  datatype Thread =
    | Waiting(orca: Orca, op: Op)
    | Running(orca: Orca, op: Op, progress: Progress)
    | Finished(orca: Orca, op: Op, answer: Answer)  // still holding the lock
    | Done(op: Op, answer: Answer)

  /** A sync.RWMutex, with the names of its holders. */
  datatype Lock = Lock(writer: Option<nat>, readers: set<nat>)

  /** Which lock set an orchestrator uses, and which lock in it. */
  datatype LockName = LockName(lockSet: nat, bucket: nat)

  /** How the locks are set up. The hash is any function; `shared` says that the second orchestrator was given
      the lock set of the first. */
  datatype Config = Config(bucket: bytes -> nat, multipleReaders: bool, shared: bool) {
    function LockFor(orca: Orca, key: bytes): LockName {
      LockName(if orca.L1L2Batch? && !shared then 1 else 0, bucket(key))
    }
  }

  /** An operation, with the answer that one single store gives it. */
  datatype Event = Event(id: nat, op: Op, answer: Answer)

  /** The log is not part of the system. It grows whenever an operation takes effect. */
  datatype State = State(l1: Store, l2: Store, locks: map<LockName, Lock>, threads: map<nat, Thread>, log: seq<Event>)

  datatype Action =
    | Begin(id: nat, orca: Orca, op: Op)
    | Advance(id: nat)
    | EvictL1(key: bytes)

  function Initial(): State {
    State(map[], map[], map[], map[], [])
  }

  // ----- Commands of one store -----

  predicate Accepts(m: Store, kind: SetKind, key: bytes) {
    match kind
    case KindSet => true
    case KindAdd => key !in m
    case KindReplace => key in m
  }

  function Put(m: Store, kind: SetKind, key: bytes, e: Entry): Store {
    if Accepts(m, kind, key) then m[key := e] else m
  }

  function Join(m: Store, atEnd: bool, key: bytes, data: bytes): Store {
    if key in m then m[key := m[key].(data := Joined(atEnd, m[key].data, data))] else m
  }

  // ----- Operations, call by call -----

  datatype After = After(l1: Store, l2: Store, next: Next)

  datatype Next = Continue(progress: Progress) | Answered(answer: Answer)

  function Begins(l1: Store, l2: Store, orca: Orca, op: Op): After {
    match op
    case StoreOp(kind, key, e) =>
      After(l1, Put(l2, kind, key, e), if Accepts(l2, kind, key) then Continue(L2Done) else Answered(Refused))
    case JoinOp(atEnd, key, data) =>
      After(l1, Join(l2, atEnd, key, data), if key in l2 then Continue(L2Done) else Answered(Refused))
    case DeleteOp(key) => After(l1, l2 - {key}, if key in l2 then Continue(L2Done) else Answered(NotThere))
    case TouchOp(key) => After(l1, l2, if key in l2 then Continue(L2Done) else Answered(NotThere))
    case GetOp(key) => After(l1, l2, if key in l1 then Answered(Found(l1[key])) else Continue(L1Missed))
    case GatOp(key) =>
      if orca.L1L2? then
        After(l1, l2, if key in l1 then Continue(L1Touched(l1[key])) else Continue(L1Missed))
      else FetchL2(l1, l2, key)
  }

  function FetchL2(l1: Store, l2: Store, key: bytes): After {
    After(l1, l2, if key in l2 then Continue(Fetched(l2[key])) else Answered(NotThere))
  }

  /** The L1 half of a write. */
  function WritesL1(l1: Store, l2: Store, orca: Orca, op: Op): After {
    match op
    case StoreOp(kind, key, e) =>
      var k := if orca.L1L2Batch? then KindReplace else kind;
      After(Put(l1, k, key, e), l2, Answered(if k.KindAdd? && key in l1 then Trampled else Ok))
    case JoinOp(atEnd, key, data) => After(Join(l1, atEnd, key, data), l2, Answered(Ok))
    case DeleteOp(key) => After(l1 - {key}, l2, Answered(Ok))
    case _ => After(l1, l2, Answered(Ok))
  }

  /** What a read does in L1 with an entry it has from L2. The batch orchestrator leaves L1 alone; a get sets; a
      get-and-touch adds, and does not mind being refused. */
  function Refills(l1: Store, l2: Store, orca: Orca, op: Op, e: Entry): After {
    var filled := if orca.L1L2Batch? then l1
                  else Put(l1, if op.GetOp? then KindSet else KindAdd, op.key, e);
    After(filled, l2, Answered(Found(e)))
  }

  function Proceeds(l1: Store, l2: Store, orca: Orca, op: Op, progress: Progress): After {
    match progress
    case Begun => Begins(l1, l2, orca, op)
    case L2Done => WritesL1(l1, l2, orca, op)
    case L1Missed => FetchL2(l1, l2, op.key)
    case L1Touched(e) => After(l1, l2, Answered(if op.key in l2 then Found(e) else Inconsistent))
    case Fetched(e) => Refills(l1, l2, orca, op, e)
  }

  function NextThread(orca: Orca, op: Op, next: Next): Thread {
    match next
    case Continue(p) => Running(orca, op, p)
    case Answered(answer) => Finished(orca, op, answer)
  }

  /** The same operation on one store alone, in one step. */
  function Alone(m: Store, op: Op): (Store, Answer) {
    match op
    case StoreOp(kind, key, e) => (Put(m, kind, key, e), if Accepts(m, kind, key) then Ok else Refused)
    case JoinOp(atEnd, key, data) => (Join(m, atEnd, key, data), if key in m then Ok else Refused)
    case DeleteOp(key) => (m - {key}, if key in m then Ok else NotThere)
    case TouchOp(key) => (m, if key in m then Ok else NotThere)
    case GetOp(key) => (m, if key in m then Found(m[key]) else NotThere)
    case GatOp(key) => (m, if key in m then Found(m[key]) else NotThere)
  }

  /** The first call: a write goes to L2, and stops there with the answer of L2 unless that is success; a get, and a
      get-and-touch of the first orchestrator, look into L1 and go on to L2 only if it is not there. */
  lemma FirstHalf(l1: Store, l2: Store, orca: Orca, op: Op)
    ensures var r := Proceeds(l1, l2, orca, op, Begun); var hot := op.key in l1;
      && r.l1 == l1 && r.l2 == Alone(l2, op).0
      && match op
         case GetOp(key) => r.next == if hot then Answered(Found(l1[key])) else Continue(L1Missed)
         case GatOp(key) =>
           if orca.L1L2? then r.next == if hot then Continue(L1Touched(l1[key])) else Continue(L1Missed)
           else r.next == if key in l2 then Continue(Fetched(l2[key])) else Answered(NotThere)
         case _ => r.next == if Alone(l2, op).1 == Ok then Continue(L2Done) else Answered(Alone(l2, op).1)
  {
  }

  /** What becomes of the key in L1 by the second half of a write: a set or an add of the first orchestrator brings it
      there, a delete removes it, and everything else changes what is there and no more. */
  lemma SecondHalf(l1: Store, l2: Store, orca: Orca, op: Op)
    ensures var r := Proceeds(l1, l2, orca, op, L2Done); var hot := op.key in l1;
      && r.l2 == l2 && r.next.Answered?
      && match op
         case StoreOp(kind, key, e) =>
           if orca.L1L2? && (kind.KindSet? || (kind.KindAdd? && !hot)) then key in r.l1 && r.l1[key] == e
           else if orca.L1L2? && kind.KindAdd? then r.l1 == l1
           else (key in r.l1 <==> hot) && (hot ==> r.l1[key] == e)
         case JoinOp(atEnd, key, data) =>
           && (key in r.l1 <==> hot)
           && (hot ==> r.l1[key] == Entry(if atEnd then l1[key].data + data else data + l1[key].data, l1[key].flags))
         case DeleteOp(key) => key !in r.l1
         case _ => r.l1 == l1
  {
  }

  /** What a read does with what it found in L2: the first orchestrator puts it into L1, if only where a get-and-touch
      finds nothing there; the other leaves L1 as it is. */
  lemma ReadFills(l1: Store, l2: Store, orca: Orca, op: Op, e: Entry)
    ensures var r := Proceeds(l1, l2, orca, op, Fetched(e));
      && r.l2 == l2 && r.next == Answered(Found(e)) && (orca.L1L2Batch? ==> r.l1 == l1)
      && (orca.L1L2? ==> op.key in r.l1 && (op.GetOp? || op.key !in l1 ==> r.l1[op.key] == e))
  {
  }

  /** What the operations do to one store, in terms of what a get then finds. */
  lemma AloneStores(m: Store, kind: SetKind, key: bytes, e: Entry)
    ensures var (m1, a) := Alone(m, StoreOp(kind, key, e)); var was := Alone(m, GetOp(key)).1;
      && (a == Refused <==> (kind.KindAdd? && was != NotThere) || (kind.KindReplace? && was == NotThere))
      && (a == Ok || a == Refused) && Alone(m1, GetOp(key)).1 == if a == Ok then Found(e) else was
  {
  }

  lemma AloneJoins(m: Store, atEnd: bool, key: bytes, data: bytes)
    ensures var (m1, a) := Alone(m, JoinOp(atEnd, key, data)); var was := Alone(m, GetOp(key)).1;
      && a == (if was == NotThere then Refused else Ok)
      && Alone(m1, GetOp(key)).1
         == match was
            case Found(e) => Found(Entry(if atEnd then e.data + data else data + e.data, e.flags))
            case other => other
  {
  }

  lemma AloneDeletes(m: Store, key: bytes)
    ensures var (m1, a) := Alone(m, DeleteOp(key)); var was := Alone(m, GetOp(key)).1;
      a == (if was == NotThere then NotThere else Ok) && Alone(m1, GetOp(key)).1 == NotThere
  {
  }

  lemma AloneReads(m: Store, key: bytes)
    ensures Alone(m, GetOp(key)) == (m, if key in m then Found(m[key]) else NotThere)
    ensures Alone(m, GatOp(key)) == Alone(m, GetOp(key))
    ensures Alone(m, TouchOp(key)) == (m, if key in m then Ok else NotThere)
  {
  }

  lemma AloneKeepsOthers(m: Store, op: Op, other: bytes)
    requires other != op.key
    ensures Alone(Alone(m, op).0, GetOp(other)).1 == Alone(m, GetOp(other)).1
  {
  }

  /** The call that decides the outcome: the first one, or for a read that misses in L1 the second. */
  predicate TakesEffect(progress: Progress, next: Next) {
    (progress.Begun? || progress.L1Missed?) && next != Continue(L1Missed)
  }

  // ----- Locks -----

  function LockAt(s: State, name: LockName): Lock {
    if name in s.locks then s.locks[name] else Lock(None, {})
  }

  /** Without multiple readers there is one kind of lock. */
  predicate Shares(cfg: Config, op: Op) {
    op.GetOp? && cfg.multipleReaders
  }

  predicate Available(cfg: Config, s: State, orca: Orca, op: Op) {
    var l := LockAt(s, cfg.LockFor(orca, op.key));
    l.writer.None? && (Shares(cfg, op) || l.readers == {})
  }

  function Acquire(cfg: Config, s: State, id: nat, orca: Orca, op: Op): State {
    var name := cfg.LockFor(orca, op.key);
    var l := LockAt(s, name);
    var taken := if Shares(cfg, op) then Lock(l.writer, l.readers + {id}) else Lock(Some(id), l.readers);
    s.(locks := s.locks[name := taken],
       threads := s.threads[id := Running(orca, op, Begun)])
  }

  function Release(cfg: Config, s: State, id: nat, orca: Orca, op: Op, answer: Answer): State {
    var name := cfg.LockFor(orca, op.key);
    var l := LockAt(s, name);
    s.(locks := s.locks[name := if Shares(cfg, op) then Lock(l.writer, l.readers - {id}) else Lock(None, l.readers)],
       threads := s.threads[id := Done(op, answer)])
  }

  /** One step. A thread whose lock is taken stays where it is. */
  function Step(cfg: Config, s: State, a: Action): State {
    match a
    case EvictL1(key) => s.(l1 := s.l1 - {key})
    case Begin(id, orca, op) => if id in s.threads then s else s.(threads := s.threads[id := Waiting(orca, op)])
    case Advance(id) =>
      if id !in s.threads then s
      else
        match s.threads[id]
        case Waiting(orca, op) => if Available(cfg, s, orca, op) then Acquire(cfg, s, id, orca, op) else s
        case Running(orca, op, progress) =>
          var after := Proceeds(s.l1, s.l2, orca, op, progress);
          State(after.l1, after.l2, s.locks, s.threads[id := NextThread(orca, op, after.next)],
                if TakesEffect(progress, after.next) then s.log + [Event(id, op, Alone(s.l2, op).1)] else s.log)
        case Finished(orca, op, answer) => Release(cfg, s, id, orca, op, answer)
        case Done(_, _) => s
  }

  function Run(cfg: Config, s: State, actions: seq<Action>): State
    decreases |actions|
  {
    if actions == [] then s else Run(cfg, Step(cfg, s, actions[0]), actions[1..])
  }

  // ----- The invariant -----

  /** What L1 holds under the key is what L2 holds. */
  predicate Agrees(l1: Store, l2: Store, key: bytes) {
    key in l1 ==> key in l2 && l1[key] == l2[key]
  }

  predicate Holding(t: Thread) {
    t.Running? || t.Finished?
  }

  /** Between the two halves of a write of exactly this key. */
  predicate Writing(t: Thread, key: bytes) {
    t.Running? && t.progress.L2Done? && t.op.key == key
  }

  ghost predicate LockHeld(cfg: Config, s: State, id: nat) {
    id in s.threads && Holding(s.threads[id]) ==>
      var t := s.threads[id];
      var l := LockAt(s, cfg.LockFor(t.orca, t.op.key));
      if Shares(cfg, t.op) then id in l.readers && l.writer.None? else l.writer == Some(id) && l.readers == {}
  }

  /** What a thread knows of the stores while it holds the lock of its key. */
  ghost predicate Knows(l1: Store, l2: Store, t: Thread) {
    match t
    case Running(orca, op, progress) =>
      (match progress
       case Begun => true
       case L2Done => WriteHalfDone(l1, l2, orca, op)
       case L1Missed => op.GetOp? || (op.GatOp? && orca.L1L2?)
       case L1Touched(e) => op.GatOp? && op.key in l2 && l2[op.key] == e
       case Fetched(e) => (op.GetOp? || op.GatOp?) && op.key in l2 && l2[op.key] == e)
    case Finished(_, op, answer) =>
      && !answer.Trampled? && !answer.Inconsistent?
      && (op.GetOp? || op.GatOp? ==>
            answer == if op.key in l2 then Found(l2[op.key]) else NotThere)
    case Done(_, answer) => !answer.Trampled? && !answer.Inconsistent?
    case Waiting(_, _) => true
  }

  /** L2 has been written, and what L1 still holds is what its own half of the write will bring into line. */
  ghost predicate WriteHalfDone(l1: Store, l2: Store, orca: Orca, op: Op) {
    match op
    case StoreOp(kind, key, e) => key in l2 && l2[key] == e && (kind.KindAdd? ==> key !in l1)
    case JoinOp(atEnd, key, data) =>
      key in l1 ==> key in l2 && l2[key] == l1[key].(data := Joined(atEnd, l1[key].data, data))
    case DeleteOp(key) => key !in l2
    case TouchOp(key) => Agrees(l1, l2, key)
    case _ => false
  }

  /** Every key that is not between the halves of a write agrees. */
  ghost predicate Coherent(s: State) {
    forall key: bytes :: (forall id :: id in s.threads ==> !Writing(s.threads[id], key)) ==> Agrees(s.l1, s.l2, key)
  }

  ghost predicate Inv(cfg: Config, s: State) {
    && (forall id :: id in s.threads ==> LockHeld(cfg, s, id))
    && (forall id :: id in s.threads ==> Knows(s.l1, s.l2, s.threads[id]))
    && Coherent(s)
  }

  // ----- Every step keeps it -----

  /** Two holders of locks for one key are both reading. */
  lemma HoldersOfOneKeyRead(cfg: Config, s: State, i: nat, j: nat)
    requires cfg.shared && LockHeld(cfg, s, i) && LockHeld(cfg, s, j) && i != j
    requires i in s.threads && j in s.threads && Holding(s.threads[i]) && Holding(s.threads[j])
    requires s.threads[i].op.key == s.threads[j].op.key
    ensures s.threads[i].op.GetOp? && s.threads[j].op.GetOp?
  {
  }

  /** Who holds the lock and is not half through a write finds the stores in agreement. */
  lemma HolderFindsAgreement(cfg: Config, s: State, id: nat)
    requires cfg.shared && Inv(cfg, s) && id in s.threads && Holding(s.threads[id])
    requires !Writing(s.threads[id], s.threads[id].op.key)
    ensures Agrees(s.l1, s.l2, s.threads[id].op.key)
  {
    var key := s.threads[id].op.key;
    forall j | j in s.threads
      ensures !Writing(s.threads[j], key)
    {
      if Writing(s.threads[j], key) {
        assert LockHeld(cfg, s, id) && LockHeld(cfg, s, j) && Knows(s.l1, s.l2, s.threads[j]);
        HoldersOfOneKeyRead(cfg, s, id, j);
      }
    }
  }

  /** One handler call, as its thread sees it. */
  lemma ProceedsKnowingly(l1: Store, l2: Store, orca: Orca, op: Op, progress: Progress)
    requires Knows(l1, l2, Running(orca, op, progress))
    requires !progress.L2Done? ==> Agrees(l1, l2, op.key)
    ensures var a := Proceeds(l1, l2, orca, op, progress); var t := NextThread(orca, op, a.next);
      && Knows(a.l1, a.l2, t)
      && (!Writing(t, op.key) ==> Agrees(a.l1, a.l2, op.key))
  {
  }

  /** The two stores are the same under every other key. */
  ghost predicate OthersKept(a: Store, b: Store, key: bytes) {
    forall k: bytes :: k != key ==> (k in a <==> k in b) && (k in a ==> a[k] == b[k])
  }

  lemma ProceedsOnItsKey(l1: Store, l2: Store, orca: Orca, op: Op, progress: Progress)
    requires op.GetOp? ==> !progress.L2Done?
    ensures var a := Proceeds(l1, l2, orca, op, progress);
      OthersKept(l1, a.l1, op.key) && OthersKept(l2, a.l2, op.key) && (op.GetOp? ==> a.l2 == l2)
  {
  }

  /** What happens under another key, or in L1 during a read, is nothing to a thread. */
  lemma OthersStillKnow(l1: Store, l2: Store, l1': Store, l2': Store, key: bytes, t: Thread)
    requires Knows(l1, l2, t) && OthersKept(l1, l1', key) && OthersKept(l2, l2', key)
    requires Holding(t) && t.op.key == key ==> t.op.GetOp? && l2' == l2
    ensures Knows(l1', l2', t)
  {
  }

  lemma RunningKeepsInv(cfg: Config, s: State, id: nat)
    requires cfg.shared && Inv(cfg, s) && id in s.threads && s.threads[id].Running?
    ensures Inv(cfg, Step(cfg, s, Advance(id)))
  {
    var Running(orca, op, progress) := s.threads[id];
    assert LockHeld(cfg, s, id) && Knows(s.l1, s.l2, s.threads[id]);
    if !progress.L2Done? { HolderFindsAgreement(cfg, s, id); }
    ProceedsKnowingly(s.l1, s.l2, orca, op, progress);
    ProceedsOnItsKey(s.l1, s.l2, orca, op, progress);
    var a := Proceeds(s.l1, s.l2, orca, op, progress);
    var r := Step(cfg, s, Advance(id));
    assert r.l1 == a.l1 && r.l2 == a.l2 && r.locks == s.locks;
    assert r.threads == s.threads[id := NextThread(orca, op, a.next)];
    forall j | j in r.threads
      ensures LockHeld(cfg, r, j) && Knows(r.l1, r.l2, r.threads[j])
    {
      assert LockHeld(cfg, s, j) && Knows(s.l1, s.l2, s.threads[j]);
      if j != id {
        if Holding(s.threads[j]) && s.threads[j].op.key == op.key { HoldersOfOneKeyRead(cfg, s, id, j); }
        OthersStillKnow(s.l1, s.l2, a.l1, a.l2, op.key, s.threads[j]);
      }
    }
    CoherentAfter(s, r, id);
  }

  /** A call for one key leaves the others coherent. */
  lemma CoherentAfter(s: State, r: State, id: nat)
    requires Coherent(s) && id in s.threads && s.threads[id].Running?
    requires id in r.threads && Holding(r.threads[id]) && r.threads[id].op == s.threads[id].op
    requires r.threads == s.threads[id := r.threads[id]]
    requires var key := s.threads[id].op.key;
      && OthersKept(s.l1, r.l1, key) && OthersKept(s.l2, r.l2, key)
      && (!Writing(r.threads[id], key) ==> Agrees(r.l1, r.l2, key))
    ensures Coherent(r)
  {
    forall key: bytes | forall j :: j in r.threads ==> !Writing(r.threads[j], key)
      ensures Agrees(r.l1, r.l2, key)
    {
      assert !Writing(r.threads[id], key);
      if key != s.threads[id].op.key {
        forall j | j in s.threads
          ensures !Writing(s.threads[j], key)
        {
          assert j != id ==> !Writing(r.threads[j], key);
        }
        assert Agrees(s.l1, s.l2, key);
      }
    }
  }

  lemma EvictKeepsInv(cfg: Config, s: State, key: bytes)
    requires Inv(cfg, s)
    ensures Inv(cfg, s.(l1 := s.l1 - {key}))
  {
    var r := s.(l1 := s.l1 - {key});
    forall j | j in r.threads
      ensures LockHeld(cfg, r, j) && Knows(r.l1, r.l2, r.threads[j])
    {
      assert LockHeld(cfg, s, j) && Knows(s.l1, s.l2, s.threads[j]);
    }
    forall k: bytes | forall j :: j in r.threads ==> !Writing(r.threads[j], k)
      ensures Agrees(r.l1, r.l2, k)
    {
      assert Agrees(s.l1, s.l2, k);
    }
  }

  /** Taking or releasing a lock, and arriving, do not touch the stores; nor do they start or end a write half. */
  lemma MovesKeepStores(cfg: Config, s: State, r: State, id: nat, t: Thread)
    requires Inv(cfg, s) && r.l1 == s.l1 && r.l2 == s.l2 && r.threads == s.threads[id := t]
    requires Knows(s.l1, s.l2, t) && forall key: bytes :: !Writing(t, key)
    requires id in s.threads ==> !s.threads[id].Running?
    ensures forall j :: j in r.threads ==> Knows(r.l1, r.l2, r.threads[j])
    ensures Coherent(r)
  {
    forall key: bytes | forall j :: j in r.threads ==> !Writing(r.threads[j], key)
      ensures Agrees(r.l1, r.l2, key)
    {
      forall j | j in s.threads
        ensures !Writing(s.threads[j], key)
      {
        assert j != id ==> !Writing(r.threads[j], key);
      }
      assert Agrees(s.l1, s.l2, key);
    }
  }

  lemma AcquireKeepsInv(cfg: Config, s: State, id: nat, orca: Orca, op: Op)
    requires Inv(cfg, s) && id in s.threads && s.threads[id] == Waiting(orca, op) && Available(cfg, s, orca, op)
    ensures Inv(cfg, Acquire(cfg, s, id, orca, op))
  {
    var r := Acquire(cfg, s, id, orca, op);
    MovesKeepStores(cfg, s, r, id, Running(orca, op, Begun));
    forall j | j in r.threads
      ensures LockHeld(cfg, r, j)
    {
      if j != id { assert LockHeld(cfg, s, j); }
    }
  }

  lemma ReleaseKeepsInv(cfg: Config, s: State, id: nat, orca: Orca, op: Op, answer: Answer)
    requires Inv(cfg, s) && id in s.threads && s.threads[id] == Finished(orca, op, answer)
    ensures Inv(cfg, Release(cfg, s, id, orca, op, answer))
  {
    var r := Release(cfg, s, id, orca, op, answer);
    assert LockHeld(cfg, s, id) && Knows(s.l1, s.l2, s.threads[id]);
    MovesKeepStores(cfg, s, r, id, Done(op, answer));
    forall j | j in r.threads
      ensures LockHeld(cfg, r, j)
    {
      if j != id { assert LockHeld(cfg, s, j); }
    }
  }

  lemma BeginKeepsInv(cfg: Config, s: State, id: nat, orca: Orca, op: Op)
    requires Inv(cfg, s) && id !in s.threads
    ensures Inv(cfg, s.(threads := s.threads[id := Waiting(orca, op)]))
  {
    var r := s.(threads := s.threads[id := Waiting(orca, op)]);
    MovesKeepStores(cfg, s, r, id, Waiting(orca, op));
    forall j | j in r.threads
      ensures LockHeld(cfg, r, j)
    {
      if j != id { assert LockHeld(cfg, s, j); }
    }
  }

  lemma StepKeepsInv(cfg: Config, s: State, a: Action)
    requires cfg.shared && Inv(cfg, s)
    ensures Inv(cfg, Step(cfg, s, a))
  {
    match a
    case EvictL1(key) => EvictKeepsInv(cfg, s, key);
    case Begin(id, orca, op) => if id !in s.threads { BeginKeepsInv(cfg, s, id, orca, op); }
    case Advance(id) =>
      if id in s.threads {
        match s.threads[id]
        case Waiting(orca, op) => if Available(cfg, s, orca, op) { AcquireKeepsInv(cfg, s, id, orca, op); }
        case Running(_, _, _) => RunningKeepsInv(cfg, s, id);
        case Finished(orca, op, answer) => ReleaseKeepsInv(cfg, s, id, orca, op, answer);
        case Done(_, _) =>
      }
  }

  lemma {:induction false} RunKeepsInv(cfg: Config, s: State, actions: seq<Action>)
    requires cfg.shared && Inv(cfg, s)
    ensures Inv(cfg, Run(cfg, s, actions))
    decreases |actions|
  {
    if actions != [] {
      StepKeepsInv(cfg, s, actions[0]);
      RunKeepsInv(cfg, Step(cfg, s, actions[0]), actions[1..]);
    }
  }

  // ----- What every run keeps -----

  /** While no writer holds the lock of a key, the key is absent from L1 or has the same data and flags in both
      stores; and a get whose answer is out, but whose lock is not yet released, has answered what L2 holds. No
      operation ever finds the stores inconsistent or its own write trampled. */
  lemma StaysCoherent(cfg: Config, actions: seq<Action>, key: bytes, id: nat)
    requires cfg.shared
    ensures var s := Run(cfg, Initial(), actions);
      && (LockAt(s, cfg.LockFor(L1L2, key)).writer.None? ==> Agrees(s.l1, s.l2, key))
      && (id in s.threads && s.threads[id].Finished? && s.threads[id].op == GetOp(key) ==>
            s.threads[id].answer == if key in s.l2 then Found(s.l2[key]) else NotThere)
      && (id in s.threads && (s.threads[id].Finished? || s.threads[id].Done?) ==>
            !s.threads[id].answer.Inconsistent? && !s.threads[id].answer.Trampled?)
  {
    RunKeepsInv(cfg, Initial(), actions);
    var s := Run(cfg, Initial(), actions);
    if LockAt(s, cfg.LockFor(L1L2, key)).writer.None? {
      forall j | j in s.threads
        ensures !Writing(s.threads[j], key)
      {
        assert LockHeld(cfg, s, j) && Knows(s.l1, s.l2, s.threads[j]);
      }
    }
    if id in s.threads { assert Knows(s.l1, s.l2, s.threads[id]); }
  }

  // ----- The answers are those of one store -----

  /** The operation has taken effect. */
  predicate Past(t: Thread) {
    t.Finished? || t.Done? || (t.Running? && !t.progress.Begun? && !t.progress.L1Missed?)
  }

  /** The answer it then gives, or is about to give. */
  function Due(t: Thread): Answer
    requires Past(t)
  {
    match t
    case Running(_, _, L2Done) => Ok
    case Running(_, _, L1Touched(e)) => Found(e)
    case Running(_, _, Fetched(e)) => Found(e)
    case _ => t.answer
  }

  /** One store after all these operations, one at a time. */
  function Replay(log: seq<Event>): Store
    decreases |log|
  {
    if log == [] then map[] else Alone(Replay(log[..|log| - 1]), log[|log| - 1].op).0
  }

  /** Every answer in the log is the one that a single store gives at that point. */
  ghost predicate Sequential(log: seq<Event>) {
    forall i :: 0 <= i < |log| ==> log[i].answer == Alone(Replay(log[..i]), log[i].op).1
  }

  /** The log lists exactly the operations that have taken effect, each once, with the answer it gives. */
  ghost predicate Lists(log: seq<Event>, threads: map<nat, Thread>) {
    && (forall i :: 0 <= i < |log| ==> Listed(log[i], threads))
    && (forall i, j :: 0 <= i < j < |log| ==> log[i].id != log[j].id)
    && (forall id :: id in threads && Past(threads[id]) ==> exists i :: 0 <= i < |log| && log[i].id == id)
  }

  ghost predicate Listed(e: Event, threads: map<nat, Thread>) {
    e.id in threads && Past(threads[e.id]) && threads[e.id].op == e.op && Due(threads[e.id]) == e.answer
  }

  ghost predicate LinearLog(log: seq<Event>, l2: Store, threads: map<nat, Thread>) {
    Sequential(log) && Replay(log) == l2 && Lists(log, threads)
  }

  ghost predicate Linear(s: State) {
    LinearLog(s.log, s.l2, s.threads)
  }

  /** One handler call, seen from outside: it is the one that takes effect, and does to L2 what the operation does
      to a store; or it leaves L2 and the outcome alone. */
  lemma ProceedsAtOnce(l1: Store, l2: Store, orca: Orca, op: Op, progress: Progress)
    requires Knows(l1, l2, Running(orca, op, progress))
    requires !progress.L2Done? ==> Agrees(l1, l2, op.key)
    ensures var t := Running(orca, op, progress); var a := Proceeds(l1, l2, orca, op, progress);
      var t' := NextThread(orca, op, a.next);
      if TakesEffect(progress, a.next) then !Past(t) && Past(t') && (a.l2, Due(t')) == Alone(l2, op)
      else a.l2 == l2 && (Past(t) <==> Past(t')) && (Past(t) ==> Due(t) == Due(t'))
  {
  }

  lemma LogGrows(log: seq<Event>, e: Event, m: Store)
    requires Sequential(log) && Replay(log) == m && e.answer == Alone(m, e.op).1
    ensures Sequential(log + [e]) && Replay(log + [e]) == Alone(m, e.op).0
  {
    var longer := log + [e];
    assert longer[..|log|] == log;
    forall i | 0 <= i < |longer|
      ensures longer[i].answer == Alone(Replay(longer[..i]), longer[i].op).1
    {
      if i < |log| { assert longer[..i] == log[..i]; }
    }
  }

  /** A thread moves on without its operation taking effect, or after it has. */
  lemma ListsUnchanged(log: seq<Event>, threads: map<nat, Thread>, id: nat, t: Thread)
    requires Lists(log, threads)
    requires if id in threads then (Past(threads[id]) <==> Past(t)) && threads[id].op == t.op
             else !Past(t)
    requires id in threads && Past(t) ==> Due(threads[id]) == Due(t)
    ensures Lists(log, threads[id := t])
  {
    forall i | 0 <= i < |log|
      ensures Listed(log[i], threads[id := t])
    {
      assert Listed(log[i], threads);
    }
  }

  /** A thread's operation takes effect. */
  lemma ListsOneMore(log: seq<Event>, threads: map<nat, Thread>, id: nat, t: Thread)
    requires Lists(log, threads) && id in threads && !Past(threads[id]) && Past(t)
    ensures Lists(log + [Event(id, t.op, Due(t))], threads[id := t])
  {
    var longer, more := log + [Event(id, t.op, Due(t))], threads[id := t];
    forall i | 0 <= i < |longer|
      ensures Listed(longer[i], more) && (i < |log| ==> longer[i].id != id)
    {
      if i < |log| { assert Listed(log[i], threads) && longer[i] == log[i]; }
    }
    forall j | j in more && Past(more[j])
      ensures exists i :: 0 <= i < |longer| && longer[i].id == j
    {
      if j == id {
        assert longer[|log|].id == j;
      } else {
        var i :| 0 <= i < |log| && log[i].id == j;
        assert longer[i].id == j;
      }
    }
  }

  lemma StepKeepsLinear(cfg: Config, s: State, a: Action)
    requires cfg.shared && Inv(cfg, s) && Linear(s)
    ensures Linear(Step(cfg, s, a))
  {
    match a
    case EvictL1(key) =>
    case Begin(id, orca, op) => if id !in s.threads { ListsUnchanged(s.log, s.threads, id, Waiting(orca, op)); }
    case Advance(id) =>
      if id in s.threads {
        match s.threads[id]
        case Waiting(orca, op) => ListsUnchanged(s.log, s.threads, id, Running(orca, op, Begun));
        case Running(_, _, _) => RunningKeepsLinear(cfg, s, id);
        case Finished(_, op, answer) => ListsUnchanged(s.log, s.threads, id, Done(op, answer));
        case Done(_, _) =>
      }
  }

  lemma RunningKeepsLinear(cfg: Config, s: State, id: nat)
    requires cfg.shared && Inv(cfg, s) && Linear(s) && id in s.threads && s.threads[id].Running?
    ensures Linear(Step(cfg, s, Advance(id)))
  {
    var Running(orca, op, progress) := s.threads[id];
    assert Knows(s.l1, s.l2, s.threads[id]);
    if !progress.L2Done? { HolderFindsAgreement(cfg, s, id); }
    CallKeepsLinear(s.log, s.l1, s.l2, s.threads, id, orca, op, progress);
  }

  lemma CallKeepsLinear(log: seq<Event>, l1: Store, l2: Store, threads: map<nat, Thread>, id: nat, orca: Orca, op: Op,
                        progress: Progress)
    requires LinearLog(log, l2, threads) && id in threads && threads[id] == Running(orca, op, progress)
    requires Knows(l1, l2, Running(orca, op, progress)) && (!progress.L2Done? ==> Agrees(l1, l2, op.key))
    ensures var a := Proceeds(l1, l2, orca, op, progress);
      LinearLog(if TakesEffect(progress, a.next) then log + [Event(id, op, Alone(l2, op).1)] else log,
                a.l2, threads[id := NextThread(orca, op, a.next)])
  {
    ProceedsAtOnce(l1, l2, orca, op, progress);
    var a := Proceeds(l1, l2, orca, op, progress);
    var t := NextThread(orca, op, a.next);
    if TakesEffect(progress, a.next) {
      EffectKeepsLinear(log, l2, threads, id, t);
    } else {
      ListsUnchanged(log, threads, id, t);
    }
  }

  lemma EffectKeepsLinear(log: seq<Event>, l2: Store, threads: map<nat, Thread>, id: nat, t: Thread)
    requires LinearLog(log, l2, threads) && id in threads && !Past(threads[id])
    requires Past(t) && Due(t) == Alone(l2, t.op).1
    ensures LinearLog(log + [Event(id, t.op, Due(t))], Alone(l2, t.op).0, threads[id := t])
  {
    LogGrows(log, Event(id, t.op, Due(t)), l2);
    ListsOneMore(log, threads, id, t);
  }

  lemma {:induction false} RunKeepsLinear(cfg: Config, s: State, actions: seq<Action>)
    requires cfg.shared && Inv(cfg, s) && Linear(s)
    ensures Linear(Run(cfg, s, actions))
    decreases |actions|
  {
    if actions != [] {
      StepKeepsInv(cfg, s, actions[0]);
      StepKeepsLinear(cfg, s, actions[0]);
      RunKeepsLinear(cfg, Step(cfg, s, actions[0]), actions[1..]);
    }
  }

  /** Two levels, two orchestrators, any interleaving and any evictions from L1: every answer that is out is the
      answer of one store on which the operations ran one at a time, and L2 is what that store holds. The operations
      that have taken effect are in the log, each once, and no others. */
  lemma AnswersOfOneStore(cfg: Config, actions: seq<Action>)
    requires cfg.shared
    ensures var s := Run(cfg, Initial(), actions);
      && Replay(s.log) == s.l2 && Sequential(s.log) && Lists(s.log, s.threads)
      && forall id :: id in s.threads && s.threads[id].Done? ==>
           exists i :: 0 <= i < |s.log| && s.log[i] == Event(id, s.threads[id].op, s.threads[id].answer)
  {
    RunKeepsLinear(cfg, Initial(), actions);
    var s := Run(cfg, Initial(), actions);
    forall id | id in s.threads && s.threads[id].Done?
      ensures exists i :: 0 <= i < |s.log| && s.log[i] == Event(id, s.threads[id].op, s.threads[id].answer)
    {
      var i :| 0 <= i < |s.log| && s.log[i].id == id;
      assert Listed(s.log[i], s.threads);
    }
  }

  lemma StepKeepsLog(cfg: Config, s: State, a: Action)
    ensures s.log <= Step(cfg, s, a).log
  {
  }

  /** What has taken effect stays where it is in the log. */
  lemma {:induction false} RunKeepsLog(cfg: Config, s: State, actions: seq<Action>)
    ensures s.log <= Run(cfg, s, actions).log
    decreases |actions|
  {
    if actions != [] {
      StepKeepsLog(cfg, s, actions[0]);
      RunKeepsLog(cfg, Step(cfg, s, actions[0]), actions[1..]);
    }
  }

  lemma {:induction false} RunAppends(cfg: Config, s: State, a: seq<Action>, b: seq<Action>)
    ensures Run(cfg, s, a + b) == Run(cfg, Run(cfg, s, a), b)
    decreases |a|
  {
    if a == [] {
      assert a + b == b;
    } else {
      assert (a + b)[0] == a[0] && (a + b)[1..] == a[1..] + b;
      RunAppends(cfg, Step(cfg, s, a[0]), a[1..], b);
    }
  }

  /** The operation has not begun, or waits for its lock. */
  predicate NotStarted(threads: map<nat, Thread>, id: nat) {
    id in threads ==> threads[id].Waiting?
  }

  /** An operation that has its answer before another one has its lock comes before it in the log, whatever follows. */
  lemma LogKeepsOrder(cfg: Config, before: seq<Action>, after: seq<Action>, first: nat, second: nat, i: nat, j: nat)
    requires cfg.shared
    requires var s := Run(cfg, Initial(), before);
      first in s.threads && (s.threads[first].Finished? || s.threads[first].Done?) && NotStarted(s.threads, second)
    requires var r := Run(cfg, Initial(), before + after);
      i < |r.log| && j < |r.log| && r.log[i].id == first && r.log[j].id == second
    ensures i < j
  {
    var s, r := Run(cfg, Initial(), before), Run(cfg, Initial(), before + after);
    RunKeepsLinear(cfg, Initial(), before);
    RunKeepsLinear(cfg, Initial(), before + after);
    RunAppends(cfg, Initial(), before, after);
    RunKeepsLog(cfg, s, after);
    LoggedEarlier(s.log, s.threads, r.log, first, second, i, j);
  }

  lemma LoggedEarlier(log: seq<Event>, threads: map<nat, Thread>, later: seq<Event>, first: nat, second: nat, i: nat,
                      j: nat)
    requires Lists(log, threads) && log <= later
    requires forall m, n :: 0 <= m < n < |later| ==> later[m].id != later[n].id
    requires first in threads && Past(threads[first]) && NotStarted(threads, second)
    requires i < |later| && j < |later| && later[i].id == first && later[j].id == second
    ensures i < j
  {
    var k :| 0 <= k < |log| && log[k].id == first;
    assert later[k] == log[k];
    forall n | 0 <= n < |log|
      ensures later[n].id != second
    {
      assert Listed(log[n], threads) && later[n] == log[n];
    }
  }

  // ----- Locks are held by those who hold them -----

  /** This operation is between taking and releasing that lock, in that mode. */
  predicate HoldsLock(cfg: Config, t: Thread, name: LockName, sharing: bool) {
    Holding(t) && cfg.LockFor(t.orca, t.op.key) == name && (Shares(cfg, t.op) <==> sharing)
  }

  predicate ThreadHoldsLock(cfg: Config, s: State, id: nat, name: LockName, sharing: bool) {
    id in s.threads && HoldsLock(cfg, s.threads[id], name, sharing)
  }

  /** The lock names those who hold it and nobody else; and a writer is alone. */
  ghost predicate LockExact(cfg: Config, s: State, name: LockName) {
    var l := LockAt(s, name);
    && (forall id: nat :: l.writer == Some(id) <==> ThreadHoldsLock(cfg, s, id, name, false))
    && (forall id: nat :: id in l.readers <==> ThreadHoldsLock(cfg, s, id, name, true))
    && (l.writer.Some? ==> l.readers == {})
  }

  ghost predicate LocksExact(cfg: Config, s: State) {
    forall name: LockName :: LockExact(cfg, s, name)
  }

  /** A thread that changes without coming to hold or ceasing to hold a lock. */
  lemma SameHolders(cfg: Config, s: State, r: State, id: nat, t: Thread)
    requires LocksExact(cfg, s) && r.locks == s.locks && r.threads == s.threads[id := t]
    requires forall name: LockName, sharing: bool ::
      HoldsLock(cfg, t, name, sharing) <==> ThreadHoldsLock(cfg, s, id, name, sharing)
    ensures LocksExact(cfg, r)
  {
    forall name: LockName
      ensures LockExact(cfg, r, name)
    {
      assert LockExact(cfg, s, name) && LockAt(r, name) == LockAt(s, name);
      forall j: nat, sharing: bool
        ensures ThreadHoldsLock(cfg, r, j, name, sharing) <==> ThreadHoldsLock(cfg, s, j, name, sharing)
      {
      }
    }
  }

  lemma AcquireKeepsExact(cfg: Config, s: State, id: nat, orca: Orca, op: Op)
    requires LocksExact(cfg, s) && id in s.threads && s.threads[id] == Waiting(orca, op) && Available(cfg, s, orca, op)
    ensures LocksExact(cfg, Acquire(cfg, s, id, orca, op))
  {
    var r, own := Acquire(cfg, s, id, orca, op), cfg.LockFor(orca, op.key);
    forall name: LockName
      ensures LockExact(cfg, r, name)
    {
      assert LockExact(cfg, s, name);
      forall j: nat, sharing: bool | j != id || name != own
        ensures ThreadHoldsLock(cfg, r, j, name, sharing) <==> ThreadHoldsLock(cfg, s, j, name, sharing)
      {
      }
      assert forall sharing: bool :: ThreadHoldsLock(cfg, r, id, own, sharing) <==> (Shares(cfg, op) <==> sharing);
      assert forall sharing: bool :: !ThreadHoldsLock(cfg, s, id, own, sharing);
    }
  }

  lemma ReleaseKeepsExact(cfg: Config, s: State, id: nat, orca: Orca, op: Op, answer: Answer)
    requires LocksExact(cfg, s) && id in s.threads && s.threads[id] == Finished(orca, op, answer)
    ensures LocksExact(cfg, Release(cfg, s, id, orca, op, answer))
  {
    var r, own := Release(cfg, s, id, orca, op, answer), cfg.LockFor(orca, op.key);
    assert LockExact(cfg, s, own) && ThreadHoldsLock(cfg, s, id, own, Shares(cfg, op));
    forall name: LockName
      ensures LockExact(cfg, r, name)
    {
      assert LockExact(cfg, s, name);
      forall j: nat, sharing: bool | j != id || name != own
        ensures ThreadHoldsLock(cfg, r, j, name, sharing) <==> ThreadHoldsLock(cfg, s, j, name, sharing)
      {
      }
      assert forall sharing: bool :: !ThreadHoldsLock(cfg, r, id, own, sharing);
    }
  }

  lemma StepKeepsExact(cfg: Config, s: State, a: Action)
    requires LocksExact(cfg, s)
    ensures LocksExact(cfg, Step(cfg, s, a))
  {
    match a
    case EvictL1(key) =>
      forall name: LockName
        ensures LockExact(cfg, Step(cfg, s, a), name)
      {
        assert LockExact(cfg, s, name);
      }
    case Begin(id, orca, op) =>
      if id !in s.threads { SameHolders(cfg, s, Step(cfg, s, a), id, Waiting(orca, op)); }
    case Advance(id) =>
      if id in s.threads {
        match s.threads[id]
        case Waiting(orca, op) => if Available(cfg, s, orca, op) { AcquireKeepsExact(cfg, s, id, orca, op); }
        case Running(_, _, _) => SameHolders(cfg, s, Step(cfg, s, a), id, Step(cfg, s, a).threads[id]);
        case Finished(orca, op, answer) => ReleaseKeepsExact(cfg, s, id, orca, op, answer);
        case Done(_, _) =>
      }
  }

  lemma {:induction false} RunKeepsExact(cfg: Config, s: State, actions: seq<Action>)
    requires LocksExact(cfg, s)
    ensures LocksExact(cfg, Run(cfg, s, actions))
    decreases |actions|
  {
    if actions != [] {
      StepKeepsExact(cfg, s, actions[0]);
      RunKeepsExact(cfg, Step(cfg, s, actions[0]), actions[1..]);
    }
  }

  /** In every run, with one lock set or two: a lock names as its writer or among its readers exactly the operations
      that hold it so, and a writer is alone. */
  lemma LocksNameTheirHolders(cfg: Config, actions: seq<Action>)
    ensures LocksExact(cfg, Run(cfg, Initial(), actions))
  {
    RunKeepsExact(cfg, Initial(), actions);
  }

  /** This operation holds the lock of that one: the keys fall into one bucket and the lock set is the same. Two gets
      do not mind each other where there may be many readers. */
  predicate Blocks(cfg: Config, t: Thread, orca: Orca, op: Op) {
    && Holding(t) && cfg.bucket(t.op.key) == cfg.bucket(op.key) && (cfg.shared || t.orca == orca)
    && !(cfg.multipleReaders && t.op.GetOp? && op.GetOp?)
  }

  /** A waiting operation gets its lock at its next turn if and only if nobody is in its way. */
  lemma WaitingGetsItsLock(cfg: Config, s: State, id: nat)
    requires LocksExact(cfg, s) && id in s.threads && s.threads[id].Waiting?
    ensures var t := s.threads[id];
      Step(cfg, s, Advance(id)).threads[id] == Running(t.orca, t.op, Begun)
      <==> forall j :: j in s.threads ==> !Blocks(cfg, s.threads[j], t.orca, t.op)
  {
    var t := s.threads[id];
    var name := cfg.LockFor(t.orca, t.op.key);
    var l := LockAt(s, name);
    assert LockExact(cfg, s, name);
    if !Available(cfg, s, t.orca, t.op) {
      var j: nat := if l.writer.Some? then l.writer.value else AnyOf(l.readers);
      assert ThreadHoldsLock(cfg, s, j, name, false) || ThreadHoldsLock(cfg, s, j, name, true);
      assert Blocks(cfg, s.threads[j], t.orca, t.op);
    } else {
      forall j | j in s.threads
        ensures !Blocks(cfg, s.threads[j], t.orca, t.op)
      {
        if Blocks(cfg, s.threads[j], t.orca, t.op) {
          assert ThreadHoldsLock(cfg, s, j, name, Shares(cfg, s.threads[j].op));
        }
      }
    }
  }

  ghost function AnyOf(ids: set<nat>): (id: nat)
    requires ids != {}
    ensures id in ids
  {
    var i :| i in ids; i
  }

  /** When nobody holds a lock, every lock is free, and whoever waits gets his at the next turn. */
  lemma QuietLocksAreFree(cfg: Config, actions: seq<Action>, name: LockName)
    requires forall j :: j in Run(cfg, Initial(), actions).threads ==> !Holding(Run(cfg, Initial(), actions).threads[j])
    ensures var s := Run(cfg, Initial(), actions);
      && LockAt(s, name) == Lock(None, {})
      && forall id :: id in s.threads && s.threads[id].Waiting? ==>
           Step(cfg, s, Advance(id)).threads[id] == Running(s.threads[id].orca, s.threads[id].op, Begun)
  {
    var s := Run(cfg, Initial(), actions);
    LocksNameTheirHolders(cfg, actions);
    assert LockExact(cfg, s, name);
    forall j: nat
      ensures LockAt(s, name).writer != Some(j) && j !in LockAt(s, name).readers
    {
      assert !ThreadHoldsLock(cfg, s, j, name, false) && !ThreadHoldsLock(cfg, s, j, name, true);
    }
    var l := LockAt(s, name);
    assert l.readers == {} && (l.writer.None? || exists j: nat :: l.writer == Some(j));
    forall id | id in s.threads && s.threads[id].Waiting?
      ensures Step(cfg, s, Advance(id)).threads[id] == Running(s.threads[id].orca, s.threads[id].op, Begun)
    {
      WaitingGetsItsLock(cfg, s, id);
    }
  }

  // ----- Every operation can be finished -----

  /** How many more turns the holder of a lock takes. */
  function TurnsLeft(t: Thread): nat {
    match t
    case Running(_, _, Begun) => 4
    case Running(_, _, L1Missed) => 3
    case Running(_, _, _) => 2
    case Finished(_, _, _) => 1
    case _ => 0
  }

  function Turns(id: nat, n: nat): seq<Action> {
    if n == 0 then [] else [Advance(id)] + Turns(id, n - 1)
  }

  lemma HolderMovesOn(cfg: Config, s: State, id: nat)
    requires id in s.threads && Holding(s.threads[id])
    ensures var r := Step(cfg, s, Advance(id));
      && r.threads.Keys == s.threads.Keys && (Holding(r.threads[id]) || r.threads[id].Done?)
      && TurnsLeft(r.threads[id]) < TurnsLeft(s.threads[id])
      && forall j :: j in s.threads && j != id ==> r.threads[j] == s.threads[j]
  {
  }

  /** The holder of a lock is never in anybody's way for more than four of its own turns. */
  lemma {:induction false} HolderFinishes(cfg: Config, s: State, id: nat, n: nat)
    requires id in s.threads && (Holding(s.threads[id]) || s.threads[id].Done?) && TurnsLeft(s.threads[id]) <= n
    ensures var r := Run(cfg, s, Turns(id, n));
      && r.threads.Keys == s.threads.Keys && r.threads[id].Done?
      && forall j :: j in s.threads && j != id ==> r.threads[j] == s.threads[j]
    decreases n
  {
    if n > 0 {
      if Holding(s.threads[id]) { HolderMovesOn(cfg, s, id); }
      assert Turns(id, n)[1..] == Turns(id, n - 1);
      HolderFinishes(cfg, Step(cfg, s, Advance(id)), id, n - 1);
    }
  }

  /** Those who hold locks. */
  function Holders(s: State): set<nat> {
    set id | id in s.threads && Holding(s.threads[id])
  }

  /** There is a way to go on in which everybody who holds a lock is done. */
  lemma {:induction false} HoldersCanFinish(cfg: Config, s: State) returns (more: seq<Action>)
    requires LocksExact(cfg, s)
    ensures var r := Run(cfg, s, more);
      && LocksExact(cfg, r) && r.threads.Keys == s.threads.Keys && Holders(r) == {}
      && forall j :: j in s.threads && s.threads[j].Waiting? ==> r.threads[j] == s.threads[j]
    decreases |Holders(s)|
  {
    if Holders(s) == {} {
      more := [];
    } else {
      var id := AnyOf(Holders(s));
      HolderFinishes(cfg, s, id, 4);
      RunKeepsExact(cfg, s, Turns(id, 4));
      var r := Run(cfg, s, Turns(id, 4));
      assert Holders(r) == Holders(s) - {id};
      var rest := HoldersCanFinish(cfg, r);
      more := Turns(id, 4) + rest;
      RunAppends(cfg, s, Turns(id, 4), rest);
    }
  }

  /** No run gets stuck: from wherever it is, any operation that has begun can be brought to its end. */
  lemma NoDeadlock(cfg: Config, actions: seq<Action>, id: nat) returns (more: seq<Action>)
    requires id in Run(cfg, Initial(), actions).threads
    ensures var r := Run(cfg, Initial(), actions + more); id in r.threads && r.threads[id].Done?
  {
    var s := Run(cfg, Initial(), actions);
    LocksNameTheirHolders(cfg, actions);
    if s.threads[id].Waiting? {
      var first := HoldersCanFinish(cfg, s);
      var r := Run(cfg, s, first);
      assert forall j :: j in r.threads ==> j !in Holders(r);
      WaitingGetsItsLock(cfg, r, id);
      var turns := Turns(id, 4);
      HolderFinishes(cfg, Step(cfg, r, Advance(id)), id, 4);
      RunAppends(cfg, r, [Advance(id)], turns);
      assert Run(cfg, r, [Advance(id)]) == Step(cfg, r, Advance(id));
      RunAppends(cfg, s, first, [Advance(id)] + turns);
      more := first + ([Advance(id)] + turns);
    } else {
      HolderFinishes(cfg, s, id, 4);
      more := Turns(id, 4);
    }
    RunAppends(cfg, Initial(), actions, more);
  }

  // ----- Without one lock set for both -----

  /** If no writer holds a lock for the key, in either lock set, L1 agrees with L2 about it. */
  ghost predicate QuietIsCoherent(cfg: Config, actions: seq<Action>, key: bytes) {
    var s := Run(cfg, Initial(), actions);
    LockAt(s, cfg.LockFor(L1L2, key)).writer.None? && LockAt(s, cfg.LockFor(L1L2Batch, key)).writer.None?
    ==> Agrees(s.l1, s.l2, key)
  }

  ghost predicate AlwaysCoherent(cfg: Config) {
    forall actions: seq<Action>, key: bytes :: QuietIsCoherent(cfg, actions, key)
  }

  /** An add by the one orchestrator, and a delete by the other between its halves. */
  function AddAndDelete(key: bytes, e: Entry): seq<Action> {
    [Begin(0, L1L2, StoreOp(KindAdd, key, e)), Advance(0), Advance(0),
     Begin(1, L1L2Batch, DeleteOp(key)), Advance(1), Advance(1), Advance(1), Advance(1),
     Advance(0), Advance(0)]
  }

  const LAST_OF_ADD_AND_DELETE := 10

  /** The states that run goes through when each orchestrator has locks of its own. */
  function AddAndDeleteState(cfg: Config, key: bytes, e: Entry, i: nat): State
    requires i <= LAST_OF_ADD_AND_DELETE
  {
    var add, delete := StoreOp(KindAdd, key, e), DeleteOp(key);
    var n0, n1 := LockName(0, cfg.bucket(key)), LockName(1, cfg.bucket(key));
    var locks0 := map[n0 := Lock(Some(0), {})];
    var locks1 := locks0[n1 := Lock(Some(1), {})];
    var locks2 := locks0[n1 := Lock(None, {})];
    var half := Running(L1L2, add, L2Done);
    var log := [Event(0, add, Ok), Event(1, delete, Ok)];
    if i == 0 then Initial()
    else if i == 1 then State(map[], map[], map[], map[0 := Waiting(L1L2, add)], [])
    else if i == 2 then State(map[], map[], locks0, map[0 := Running(L1L2, add, Begun)], [])
    else if i == 3 then State(map[], map[key := e], locks0, map[0 := half], [log[0]])
    else if i == 4 then State(map[], map[key := e], locks0, map[0 := half, 1 := Waiting(L1L2Batch, delete)], [log[0]])
    else if i == 5 then
      State(map[], map[key := e], locks1, map[0 := half, 1 := Running(L1L2Batch, delete, Begun)], [log[0]])
    else if i == 6 then State(map[], map[], locks1, map[0 := half, 1 := Running(L1L2Batch, delete, L2Done)], log)
    else if i == 7 then State(map[], map[], locks1, map[0 := half, 1 := Finished(L1L2Batch, delete, Ok)], log)
    else if i == 8 then State(map[], map[], locks2, map[0 := half, 1 := Done(delete, Ok)], log)
    else if i == 9 then
      State(map[key := e], map[], locks2, map[0 := Finished(L1L2, add, Ok), 1 := Done(delete, Ok)], log)
    else
      State(map[key := e], map[], locks2[n0 := Lock(None, {})], map[0 := Done(add, Ok), 1 := Done(delete, Ok)], log)
  }

  /** Step i of that run. */
  ghost predicate Reaches(cfg: Config, key: bytes, e: Entry, i: nat)
    requires i < LAST_OF_ADD_AND_DELETE
  {
    Step(cfg, AddAndDeleteState(cfg, key, e, i), AddAndDelete(key, e)[i]) == AddAndDeleteState(cfg, key, e, i + 1)
  }

  lemma AddBegins(cfg: Config, key: bytes, e: Entry, i: nat)
    requires !cfg.shared && i < 2
    ensures Reaches(cfg, key, e, i)
  {
  }

  lemma AddWritesL2(cfg: Config, key: bytes, e: Entry, i: nat)
    requires !cfg.shared && i == 2
    ensures Reaches(cfg, key, e, i)
  {
  }

  lemma DeleteBegins(cfg: Config, key: bytes, e: Entry, i: nat)
    requires !cfg.shared && 3 <= i < 5
    ensures Reaches(cfg, key, e, i)
  {
  }

  lemma DeleteWritesL2(cfg: Config, key: bytes, e: Entry, i: nat)
    requires !cfg.shared && i == 5
    ensures Reaches(cfg, key, e, i)
  {
  }

  lemma DeleteWritesL1(cfg: Config, key: bytes, e: Entry, i: nat)
    requires !cfg.shared && i == 6
    ensures Reaches(cfg, key, e, i)
  {
  }

  lemma DeleteEnds(cfg: Config, key: bytes, e: Entry, i: nat)
    requires !cfg.shared && i == 7
    ensures Reaches(cfg, key, e, i)
  {
  }

  lemma AddWritesL1(cfg: Config, key: bytes, e: Entry, i: nat)
    requires !cfg.shared && i == 8
    ensures Reaches(cfg, key, e, i)
  {
  }

  lemma AddEnds(cfg: Config, key: bytes, e: Entry, i: nat)
    requires !cfg.shared && i == 9
    ensures Reaches(cfg, key, e, i)
  {
  }

  lemma AddAndDeleteStep(cfg: Config, key: bytes, e: Entry, i: nat)
    requires !cfg.shared && i < LAST_OF_ADD_AND_DELETE
    ensures Reaches(cfg, key, e, i)
  {
    if i < 2 { AddBegins(cfg, key, e, i); }
    else if i == 2 { AddWritesL2(cfg, key, e, i); }
    else if i < 5 { DeleteBegins(cfg, key, e, i); }
    else if i == 5 { DeleteWritesL2(cfg, key, e, i); }
    else if i == 6 { DeleteWritesL1(cfg, key, e, i); }
    else if i == 7 { DeleteEnds(cfg, key, e, i); }
    else if i == 8 { AddWritesL1(cfg, key, e, i); }
    else { AddEnds(cfg, key, e, i); }
  }

  lemma {:induction false} AddAndDeleteRun(cfg: Config, key: bytes, e: Entry, i: nat)
    requires !cfg.shared && i <= LAST_OF_ADD_AND_DELETE
    ensures Run(cfg, AddAndDeleteState(cfg, key, e, i), AddAndDelete(key, e)[i..])
         == AddAndDeleteState(cfg, key, e, LAST_OF_ADD_AND_DELETE)
    decreases LAST_OF_ADD_AND_DELETE - i
  {
    if i < LAST_OF_ADD_AND_DELETE {
      AddAndDeleteStep(cfg, key, e, i);
      assert AddAndDelete(key, e)[i..][1..] == AddAndDelete(key, e)[i + 1..];
      AddAndDeleteRun(cfg, key, e, i + 1);
    }
  }

  lemma AddAndDeleteBreaks(cfg: Config, key: bytes, e: Entry)
    requires !cfg.shared
    ensures !QuietIsCoherent(cfg, AddAndDelete(key, e), key)
  {
    AddAndDeleteRun(cfg, key, e, 0);
    assert AddAndDelete(key, e)[0..] == AddAndDelete(key, e);
    AddAndDeleteOutcome(cfg, key, e);
  }

  lemma AddAndDeleteOutcome(cfg: Config, key: bytes, e: Entry)
    requires !cfg.shared
    ensures var s := AddAndDeleteState(cfg, key, e, LAST_OF_ADD_AND_DELETE);
      && LockAt(s, cfg.LockFor(L1L2, key)).writer.None? && LockAt(s, cfg.LockFor(L1L2Batch, key)).writer.None?
      && !Agrees(s.l1, s.l2, key)
  {
  }

  /** The levels agree in every run if and only if the second orchestrator is given the locks of the first. */
  lemma CoherentIffShared(cfg: Config)
    ensures AlwaysCoherent(cfg) <==> cfg.shared
  {
    if cfg.shared {
      forall actions: seq<Action>, key: bytes
        ensures QuietIsCoherent(cfg, actions, key)
      {
        StaysCoherent(cfg, actions, key, 0);
      }
    } else {
      AddAndDeleteBreaks(cfg, [], Entry([], 0));
    }
  }
}
