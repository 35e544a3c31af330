/** The plain key-value store that the chunked handler is to look like, and what it does look like. */
module PlainStore {
  import opened Bytes
  import opened Memcached

  /** exptime in the chunked handler: the expiry in 32 bits, and whether it is over already. */
  function Exptime(ttl: uint32, now: uint32): (uint32, bool) {
    if ttl == 0 then (0, false)
    else if ttl > REAL_TIME_MAX_DELTA then (ttl, ttl < now)
    else (Wrap32(now + ttl), false)
  }

  /** A time to live over 30 days is a moment, and over already if that is past; any other is never over already. */
  lemma ExptimeIs(ttl: uint32, now: uint32)
    ensures Exptime(ttl, now).1 <==> 30 * 24 * 60 * 60 < ttl < now
    ensures ttl > 30 * 24 * 60 * 60 || ttl == 0 ==> Exptime(ttl, now).0 == ttl
    ensures 0 < ttl <= 30 * 24 * 60 * 60 && now + ttl < TWO_TO_THE_32 ==> Exptime(ttl, now).0 == now + ttl
  {
  }

  /** What exptime returns can be used as the next request's time to live, at any later clock: it is kept, if
      and only if it reads as never or as a moment in time. */
  lemma ExptimeIsFixed(ttl: uint32, now: uint32, later: uint32)
    requires later != 0
    ensures var e := Exptime(ttl, now).0;
      Exptime(e, later).0 == e <==> e == 0 || e > REAL_TIME_MAX_DELTA
    ensures Clock(now) ==> var e := Exptime(ttl, now).0;
      e == Deadline(ttl, now) && (e == 0 || e > REAL_TIME_MAX_DELTA) && Deadline(e, later) == e
  {
    var e := Exptime(ttl, now).0;
    if 0 < e <= REAL_TIME_MAX_DELTA && later + e >= TWO_TO_THE_32 {
      assert Wrap32(later + e) == later + e - TWO_TO_THE_32;
    }
  }

  /** A stored value. `recorded` is the expiry written inside the value's metadata record, which only the
      chunked handler has; `expiry` is the one the backend goes by. */
  datatype Stored = Stored(data: bytes, flags: uint32, expiry: nat, recorded: uint32)

  datatype Op =
    | StoreOp(kind: SetKind, key: bytes, data: bytes, flags: uint32, ttl: uint32)
    | ConcatOp(atEnd: bool, key: bytes, data: bytes)
    | GetOp(key: bytes)
    | GatOp(key: bytes, ttl: uint32)
    | TouchOp(key: bytes, ttl: uint32)
    | DeleteOp(key: bytes)

  datatype Answer = Ok | Refused(error: Error) | Found(data: bytes, flags: uint32) | NotThere

  type Contents = map<bytes, Stored>

  /** Why a store command is refused. */
  function Refusal(c: Contents, kind: SetKind, key: bytes): Option<Error> {
    match kind
    case KindSet => None
    case KindAdd => if key in c then Some(ErrKeyExists) else None
    case KindReplace => if key in c then None else Some(ErrKeyNotFound)
  }

  /** The commands as memcached performs them: one value per key, every expiry where it belongs. An append to a
      missing key is refused with the error the handler in front makes of it. */
  function Command(c: Contents, now: nat, op: Op, notStored: Error): (Contents, Answer) {
    match op
    case StoreOp(kind, key, data, flags, ttl) =>
      (match Refusal(c, kind, key)
       case Some(e) => (c, Refused(e))
       case None => (c[key := Stored(data, flags, Deadline(ttl, now), 0)], Ok))
    case ConcatOp(atEnd, key, data) =>
      if key !in c then (c, Refused(notStored))
      else (c[key := c[key].(data := Joined(atEnd, c[key].data, data))], Ok)
    case GetOp(key) => (c, if key in c then Found(c[key].data, c[key].flags) else NotThere)
    case GatOp(key, ttl) =>
      if key !in c then (c, NotThere)
      else (c[key := c[key].(expiry := Deadline(ttl, now))], Found(c[key].data, c[key].flags))
    case TouchOp(key, ttl) =>
      if key !in c then (c, Refused(ErrKeyNotFound)) else (c[key := c[key].(expiry := Deadline(ttl, now))], Ok)
    case DeleteOp(key) => if key !in c then (c, Refused(ErrKeyNotFound)) else (c - {key}, Ok)
  }

  // ----- Time -----

  predicate Alive(s: Stored, now: nat) {
    s.expiry == 0 || now < s.expiry
  }

  /** What a store still shows at this time. */
  function LiveOnly(c: Contents, now: nat): Contents {
    map k | k in c && Alive(c[k], now) :: c[k]
  }

  /** A command on a store whose values expire. */
  function TimedCommand(c: Contents, now: nat, op: Op, notStored: Error): (Contents, Answer) {
    Command(LiveOnly(c, now), now, op, notStored)
  }

  /** The plain store as the chunked handler should look. */
  function PlainStep(c: Contents, now: nat, op: Op): (Contents, Answer) {
    TimedCommand(c, now, op, ErrKeyNotFound)
  }

  // ----- What the commands of memcached come to, in what a get shows -----

  function Shown(c: Contents, now: nat, key: bytes): Answer {
    PlainStep(c, now, GetOp(key)).1
  }

  /** The time to live is not over: 30 days and less are seconds from the store on, more is a moment. */
  predicate StillTime(ttl: uint32, stored: nat, now: nat) {
    ttl == 0 || now < (if ttl <= 30 * 24 * 60 * 60 then stored + ttl else ttl)
  }

  lemma GetShows(c: Contents, now: nat, key: bytes)
    ensures Shown(c, now, key)
         == if key in c && (c[key].expiry == 0 || now < c[key].expiry)
            then Found(c[key].data, c[key].flags)
            else NotThere
    ensures PlainStep(c, now, GetOp(key)).0 == LiveOnly(c, now)
  {
  }

  /** An add is refused for a key that is shown and a replace for one that is not; what is stored is shown until its
      time is over, and a refused command changes nothing. */
  lemma StoreShows(c: Contents, now: nat, kind: SetKind, key: bytes, data: bytes, flags: uint32, ttl: uint32,
                   later: nat)
    requires now <= later
    ensures var (c1, a) := PlainStep(c, now, StoreOp(kind, key, data, flags, ttl));
      && (a == Refused(ErrKeyExists) <==> kind.KindAdd? && Shown(c, now, key).Found?)
      && (a == Refused(ErrKeyNotFound) <==> kind.KindReplace? && Shown(c, now, key).NotThere?)
      && (a == Ok || a == Refused(ErrKeyExists) || a == Refused(ErrKeyNotFound))
      && (a == Ok ==> Shown(c1, later, key) == if StillTime(ttl, now, later) then Found(data, flags) else NotThere)
      && (a != Ok ==> Shown(c1, later, key) == Shown(c, later, key))
  {
    GetShows(c, now, key);
    GetShows(c, later, key);
    GetShows(PlainStep(c, now, StoreOp(kind, key, data, flags, ttl)).0, later, key);
  }

  /** An append puts its data behind what was there, a prepend in front of it. */
  lemma ConcatShows(c: Contents, now: nat, atEnd: bool, key: bytes, data: bytes, later: nat)
    requires now <= later
    ensures var (c1, a) := PlainStep(c, now, ConcatOp(atEnd, key, data));
      && a == (if Shown(c, now, key).Found? then Ok else Refused(ErrKeyNotFound))
      && Shown(c1, later, key)
         == match Shown(c, later, key)
            case Found(was, flags) => Found(if atEnd then was + data else data + was, flags)
            case other => other
  {
    GetShows(c, now, key);
    GetShows(c, later, key);
    GetShows(PlainStep(c, now, ConcatOp(atEnd, key, data)).0, later, key);
  }

  /** Both kinds of touch give what is shown a new time; a get-and-touch also answers with it. */
  lemma TouchShows(c: Contents, now: nat, key: bytes, ttl: uint32, later: nat)
    requires now <= later
    ensures var (c1, a) := PlainStep(c, now, TouchOp(key, ttl));
      && a == (if Shown(c, now, key).Found? then Ok else Refused(ErrKeyNotFound))
      && Shown(c1, later, key) == if StillTime(ttl, now, later) then Shown(c, now, key) else NotThere
    ensures PlainStep(c, now, GatOp(key, ttl)) == (PlainStep(c, now, TouchOp(key, ttl)).0, Shown(c, now, key))
  {
    GetShows(c, now, key);
    GetShows(PlainStep(c, now, TouchOp(key, ttl)).0, later, key);
  }

  lemma DeleteShows(c: Contents, now: nat, key: bytes, later: nat)
    requires now <= later
    ensures var (c1, a) := PlainStep(c, now, DeleteOp(key));
      && a == (if Shown(c, now, key).Found? then Ok else Refused(ErrKeyNotFound))
      && Shown(c1, later, key) == NotThere
  {
    GetShows(c, now, key);
    GetShows(PlainStep(c, now, DeleteOp(key)).0, later, key);
  }

  /** Whatever the command, another key is shown as before. */
  lemma OthersShown(c: Contents, now: nat, op: Op, other: bytes, later: nat)
    requires now <= later && other != op.key
    ensures Shown(PlainStep(c, now, op).0, later, other) == Shown(c, later, other)
  {
    GetShows(c, later, other);
    GetShows(PlainStep(c, now, op).0, later, other);
  }

  // ----- The chunked handler -----

  /** A store by the chunked handler: one that is over already is reported done without being done. */
  function ChunkedStore(c: Contents, now: uint32, kind: SetKind, key: bytes, data: bytes, flags: uint32, ttl: uint32)
    : (Contents, Answer)
  {
    var (exp, expired) := Exptime(ttl, now);
    if expired then (c, Ok)
    else
      match Refusal(c, kind, key)
      case Some(e) => (c, Refused(e))
      case None => (c[key := Stored(data, flags, Deadline(ttl, now), exp)], Ok)
  }

  /** The commands as the chunked handler performs them. An append stores anew with the recorded expiry. */
  function ChunkedCommand(c: Contents, now: uint32, op: Op): (Contents, Answer) {
    match op
    case StoreOp(kind, key, data, flags, ttl) => ChunkedStore(c, now, kind, key, data, flags, ttl)
    case ConcatOp(atEnd, key, data) =>
      if key !in c then (c, Refused(ErrKeyNotFound))
      else ChunkedStore(c, now, KindSet, key, Joined(atEnd, c[key].data, data), c[key].flags, c[key].recorded)
    case TouchOp(key, ttl) =>
      if key !in c then (c, Refused(ErrKeyNotFound))
      else (c[key := c[key].(expiry := Deadline(ttl, now), recorded := Exptime(ttl, now).0)], Ok)
    case _ => Command(c, now, op, ErrKeyNotFound)
  }

  /** The same on a backend whose items expire. */
  function ChunkedStep(c: Contents, now: uint32, op: Op): (Contents, Answer) {
    ChunkedCommand(LiveOnly(c, now), now, op)
  }

  // ----- Where the two agree -----

  /** The same values, whatever their metadata records say. */
  ghost predicate SameValues(a: Contents, b: Contents) {
    && a.Keys == b.Keys
    && forall k :: k in a ==> a[k].data == b[k].data && a[k].flags == b[k].flags && a[k].expiry == b[k].expiry
  }

  /** The same values are shown at this time, and for as long. */
  ghost predicate SameShown(a: Contents, b: Contents, now: nat) {
    SameValues(LiveOnly(a, now), LiveOnly(b, now))
  }

  /** Every recorded expiry is one that exptime can have returned. */
  ghost predicate ProperRecords(c: Contents) {
    forall k :: k in c ==> c[k].recorded == 0 || c[k].recorded > REAL_TIME_MAX_DELTA
  }

  /** Where the chunked handler and memcached agree: a store that is over already must meet nothing that it would
      have to take away or be refused for; and a value appended to must have its own expiry on record, unless the
      append is both empty and dropped. */
  predicate Faithful(c: Contents, now: uint32, op: Op) {
    var live := LiveOnly(c, now);
    match op
    case StoreOp(kind, key, _, _, ttl) => !Exptime(ttl, now).1 || (!kind.KindReplace? && key !in live)
    case ConcatOp(_, key, data) =>
      key in live ==> live[key].recorded == live[key].expiry || (data == [] && Exptime(live[key].recorded, now).1)
    case _ => true
  }

  lemma StoreIsPlain(c: Contents, now: uint32, kind: SetKind, key: bytes, data: bytes, flags: uint32, ttl: uint32)
    requires Clock(now)
    ensures var op := StoreOp(kind, key, data, flags, ttl);
      var (c1, a1) := ChunkedStep(c, now, op);
      var (c2, a2) := PlainStep(c, now, op);
      (SameShown(c1, c2, now) && a1 == a2) <==> Faithful(c, now, op)
  {
    var op := StoreOp(kind, key, data, flags, ttl);
    var live, c1, c2 := LiveOnly(c, now), ChunkedStep(c, now, op).0, PlainStep(c, now, op).0;
    if Exptime(ttl, now).1 {
      assert Deadline(ttl, now) == ttl < now;
      if Refusal(live, kind, key).None? {
        assert key !in LiveOnly(c2, now);
        assert key in live ==> key in LiveOnly(c1, now);
      }
    }
  }

  lemma ConcatIsPlain(c: Contents, now: uint32, atEnd: bool, key: bytes, data: bytes)
    requires Clock(now) && ProperRecords(c)
    ensures var op := ConcatOp(atEnd, key, data);
      var (c1, a1) := ChunkedStep(c, now, op);
      var (c2, a2) := PlainStep(c, now, op);
      (SameShown(c1, c2, now) && a1 == a2) <==> Faithful(c, now, op)
  {
    var live, op := LiveOnly(c, now), ConcatOp(atEnd, key, data);
    if key in live {
      var s := live[key];
      var joined := Joined(atEnd, s.data, data);
      assert |joined| == |s.data| + |data| && (data == [] ==> joined == s.data);
      var c1, c2 := ChunkedStep(c, now, op).0, PlainStep(c, now, op).0;
      assert key in c1 && key in c2 && c2[key] == s.(data := joined);
      assert Exptime(s.recorded, now) == (s.recorded, s.recorded != 0 && s.recorded < now);
      assert key in LiveOnly(c2, now);
      assert key in LiveOnly(c1, now) ==> LiveOnly(c1, now)[key] == c1[key];
    }
  }

  /** The chunked handler shows the values that memcached would show, and answers the same, exactly under that
      condition. */
  lemma ChunkedIsPlain(c: Contents, now: uint32, op: Op)
    requires Clock(now) && ProperRecords(c)
    ensures var (c1, a1) := ChunkedStep(c, now, op);
      var (c2, a2) := PlainStep(c, now, op);
      (SameShown(c1, c2, now) && a1 == a2) <==> Faithful(c, now, op)
  {
    match op
    case StoreOp(kind, key, data, flags, ttl) => StoreIsPlain(c, now, kind, key, data, flags, ttl);
    case ConcatOp(atEnd, key, data) => ConcatIsPlain(c, now, atEnd, key, data);
    case _ =>
  }

  /** A set to a moment that is past leaves the old value to be shown, where memcached would show none. */
  lemma ExpiredSetKeepsOldValue(key: bytes, data: bytes, now: uint32)
    requires Clock(now) && now > REAL_TIME_MAX_DELTA + 1
    ensures var c := map[key := Stored([1], 0, 0, 0)];
      var op := StoreOp(KindSet, key, data, 0, REAL_TIME_MAX_DELTA + 1);
      key in LiveOnly(ChunkedStep(c, now, op).0, now) && key !in LiveOnly(PlainStep(c, now, op).0, now)
  {
  }

  /** What an append or prepend through the chunked handler leaves behind: the old data with the new behind or in
      front of it, unless the expiry on record is past. */
  lemma ChunkedConcatJoins(c: Contents, now: uint32, atEnd: bool, key: bytes, data: bytes)
    requires key in LiveOnly(c, now)
    ensures var (c1, a) := ChunkedStep(c, now, ConcatOp(atEnd, key, data));
      && a == Ok && key in c1 && c1[key].flags == c[key].flags
      && c1[key].data == if Exptime(c[key].recorded, now).1 then c[key].data
                         else if atEnd then c[key].data + data
                         else data + c[key].data
  {
  }

  /** Every value has its own expiry on record. */
  ghost predicate OnRecord(c: Contents) {
    forall k :: k in c ==> c[k].recorded == c[k].expiry
  }

  /** Every operation of the chunked handler keeps the records right but one: a get-and-touch, which changes
      the expiry and leaves the record as it was, unless that happens to be the same. */
  lemma RecordsKept(c: Contents, now: uint32, op: Op)
    requires Clock(now) && OnRecord(c)
    ensures OnRecord(ChunkedStep(c, now, op).0)
       <==> !(op.GatOp? && op.key in LiveOnly(c, now) && c[op.key].expiry != Deadline(op.ttl, now))
  {
    var c1 := ChunkedStep(c, now, op).0;
    match op
    case GatOp(key, ttl) =>
      if key in LiveOnly(c, now) { assert key in c1 && c1[key].recorded == c[key].expiry; }
    case StoreOp(_, _, _, _, ttl) => ExptimeIsFixed(ttl, now, now);
    case TouchOp(_, ttl) => ExptimeIsFixed(ttl, now, now);
    case ConcatOp(_, key, _) =>
      if key in LiveOnly(c, now) { ExptimeIsFixed(c[key].recorded, now, now); }
    case _ =>
  }

  lemma ProperRecordsKept(c: Contents, now: uint32, op: Op)
    requires Clock(now) && ProperRecords(c)
    ensures ProperRecords(ChunkedStep(c, now, op).0)
  {
    match op
    case StoreOp(_, _, _, _, ttl) => ExptimeIsFixed(ttl, now, now);
    case TouchOp(_, ttl) => ExptimeIsFixed(ttl, now, now);
    case ConcatOp(_, key, _) =>
      if key in LiveOnly(c, now) { ExptimeIsFixed(c[key].recorded, now, now); }
    case _ =>
  }

  // ----- Runs -----

  datatype Timed = Timed(now: uint32, op: Op)

  function ChunkedRun(c: Contents, steps: seq<Timed>): (Contents, seq<Answer>)
    decreases |steps|
  {
    if steps == [] then (c, [])
    else
      var (c1, a) := ChunkedStep(c, steps[0].now, steps[0].op);
      var (c2, rest) := ChunkedRun(c1, steps[1..]);
      (c2, [a] + rest)
  }

  function PlainRun(c: Contents, steps: seq<Timed>): (Contents, seq<Answer>)
    decreases |steps|
  {
    if steps == [] then (c, [])
    else
      var (c1, a) := PlainStep(c, steps[0].now, steps[0].op);
      var (c2, rest) := PlainRun(c1, steps[1..]);
      (c2, [a] + rest)
  }

  /** The clock does not go back. */
  predicate InTime(steps: seq<Timed>, from: nat)
    decreases |steps|
  {
    steps != [] ==> from <= steps[0].now && InTime(steps[1..], steps[0].now)
  }

  predicate AllClocks(steps: seq<Timed>) {
    forall i :: 0 <= i < |steps| ==> Clock(steps[i].now)
  }

  function LastTime(steps: seq<Timed>, from: nat): nat {
    if steps == [] then from else steps[|steps| - 1].now
  }

  /** A run in which every operation meets the condition. */
  ghost predicate Undisturbed(c: Contents, steps: seq<Timed>)
    decreases |steps|
  {
    steps != [] ==>
      && Faithful(c, steps[0].now, steps[0].op)
      && Undisturbed(ChunkedStep(c, steps[0].now, steps[0].op).0, steps[1..])
  }

  lemma LiveIsLive(c: Contents, now: nat)
    ensures LiveOnly(LiveOnly(c, now), now) == LiveOnly(c, now)
  {
  }

  lemma SameShownLater(a: Contents, b: Contents, now: nat, later: nat)
    requires SameShown(a, b, now) && now <= later
    ensures SameShown(a, b, later)
  {
    forall k
      ensures k in LiveOnly(a, later) <==> k in LiveOnly(b, later)
      ensures k in LiveOnly(a, later) ==>
        a[k].data == b[k].data && a[k].flags == b[k].flags && a[k].expiry == b[k].expiry
    {
      assert k in LiveOnly(a, now).Keys <==> k in LiveOnly(b, now).Keys;
      if k in LiveOnly(a, now) {
        assert LiveOnly(a, now)[k] == a[k] && LiveOnly(b, now)[k] == b[k];
      }
    }
  }

  lemma CommandSameValues(a: Contents, b: Contents, now: uint32, op: Op)
    requires SameValues(a, b)
    ensures SameValues(Command(a, now, op, ErrKeyNotFound).0, Command(b, now, op, ErrKeyNotFound).0)
    ensures Command(a, now, op, ErrKeyNotFound).1 == Command(b, now, op, ErrKeyNotFound).1
  {
  }

  lemma SameValuesShown(a: Contents, b: Contents, now: nat)
    requires SameValues(a, b)
    ensures SameShown(a, b, now)
  {
  }

  lemma PlainStepSameShown(a: Contents, b: Contents, now: uint32, op: Op)
    requires SameShown(a, b, now)
    ensures SameShown(PlainStep(a, now, op).0, PlainStep(b, now, op).0, now)
    ensures PlainStep(a, now, op).1 == PlainStep(b, now, op).1
  {
    CommandSameValues(LiveOnly(a, now), LiveOnly(b, now), now, op);
    SameValuesShown(PlainStep(a, now, op).0, PlainStep(b, now, op).0, now);
  }

  lemma SameShownTransitive(a: Contents, b: Contents, c: Contents, now: nat)
    requires SameShown(a, b, now) && SameShown(b, c, now)
    ensures SameShown(a, c, now)
  {
  }

  /** Over any such run, with values running out as the clock moves, the chunked handler shows what the plain store
      shows, and gives its answers. */
  lemma {:induction false} RunIsPlain(a: Contents, b: Contents, steps: seq<Timed>, from: nat)
    requires SameShown(a, b, from) && ProperRecords(a) && InTime(steps, from) && AllClocks(steps)
    requires Undisturbed(a, steps)
    ensures SameShown(ChunkedRun(a, steps).0, PlainRun(b, steps).0, LastTime(steps, from))
    ensures ChunkedRun(a, steps).1 == PlainRun(b, steps).1
    decreases |steps|
  {
    if steps != [] {
      var now, op := steps[0].now, steps[0].op;
      var a', b' := ChunkedStep(a, now, op).0, PlainStep(b, now, op).0;
      SameShownLater(a, b, from, now);
      ChunkedIsPlain(a, now, op);
      PlainStepSameShown(a, b, now, op);
      SameShownTransitive(a', PlainStep(a, now, op).0, b', now);
      ProperRecordsKept(a, now, op);
      RunIsPlain(a', b', steps[1..], now);
    }
  }

  /** After every step both show the same values, and both have given the same answer. */
  ghost predicate AgreeThroughout(a: Contents, b: Contents, steps: seq<Timed>)
    decreases |steps|
  {
    steps != [] ==>
      var (a1, r1) := ChunkedStep(a, steps[0].now, steps[0].op);
      var (b1, r2) := PlainStep(b, steps[0].now, steps[0].op);
      SameShown(a1, b1, steps[0].now) && r1 == r2 && AgreeThroughout(a1, b1, steps[1..])
  }

  /** And nothing less than such a run will do. */
  lemma {:induction false} AgreeIffUndisturbed(a: Contents, b: Contents, steps: seq<Timed>, from: nat)
    requires SameShown(a, b, from) && ProperRecords(a) && InTime(steps, from) && AllClocks(steps)
    ensures AgreeThroughout(a, b, steps) <==> Undisturbed(a, steps)
    decreases |steps|
  {
    if steps != [] {
      var now, op := steps[0].now, steps[0].op;
      var a', b' := ChunkedStep(a, now, op).0, PlainStep(b, now, op).0;
      SameShownLater(a, b, from, now);
      StepAgreesIffFaithful(a, b, now, op);
      ProperRecordsKept(a, now, op);
      if SameShown(a', b', now) {
        AgreeIffUndisturbed(a', b', steps[1..], now);
      }
    }
  }

  lemma StepAgreesIffFaithful(a: Contents, b: Contents, now: uint32, op: Op)
    requires Clock(now) && SameShown(a, b, now) && ProperRecords(a)
    ensures var (a1, r1) := ChunkedStep(a, now, op);
      var (b1, r2) := PlainStep(b, now, op);
      (SameShown(a1, b1, now) && r1 == r2) <==> Faithful(a, now, op)
  {
    var p := PlainStep(a, now, op).0;
    ChunkedIsPlain(a, now, op);
    PlainStepSameShown(a, b, now, op);
    if SameShown(ChunkedStep(a, now, op).0, PlainStep(b, now, op).0, now) {
      SameShownTransitive(ChunkedStep(a, now, op).0, PlainStep(b, now, op).0, p, now);
    }
    if SameShown(ChunkedStep(a, now, op).0, p, now) {
      SameShownTransitive(ChunkedStep(a, now, op).0, p, PlainStep(b, now, op).0, now);
    }
  }

  /** No get-and-touch, and no store that is over already. */
  predicate IsCalm(steps: seq<Timed>) {
    forall i :: 0 <= i < |steps| ==>
      !steps[i].op.GatOp? && (steps[i].op.StoreOp? ==> !Exptime(steps[i].op.ttl, steps[i].now).1)
  }

  /** Nothing else can disturb a run. */
  lemma {:induction false} CalmIsUndisturbed(c: Contents, steps: seq<Timed>)
    requires OnRecord(c) && AllClocks(steps) && IsCalm(steps)
    ensures Undisturbed(c, steps)
    decreases |steps|
  {
    if steps != [] {
      RecordsKept(c, steps[0].now, steps[0].op);
      CalmIsUndisturbed(ChunkedStep(c, steps[0].now, steps[0].op).0, steps[1..]);
    }
  }

  lemma ConcatKeepsExpiry(c: Contents, key: bytes, st: Timed)
    requires key in c && c[key].recorded == c[key].expiry
    requires c[key].recorded == 0 || (c[key].recorded > REAL_TIME_MAX_DELTA && st.now < c[key].recorded)
    requires st.op.ConcatOp? && st.op.key == key
    ensures var (c1, a) := ChunkedStep(c, st.now, st.op);
      && a == Ok && key in c1 && c1[key].expiry == c[key].expiry && c1[key].recorded == c[key].recorded
      && c1[key].flags == c[key].flags
      && c1[key].data == if st.op.atEnd then c[key].data + st.op.data else st.op.data + c[key].data
  {
    assert key in LiveOnly(c, st.now);
    ChunkedConcatJoins(c, st.now, st.op.atEnd, key, st.op.data);
  }

  /** What the appends of a chain add behind a value: the first one's data first. */
  function Behind(steps: seq<Timed>): bytes
    requires forall i :: 0 <= i < |steps| ==> steps[i].op.ConcatOp?
  {
    if steps == [] then [] else (if steps[0].op.atEnd then steps[0].op.data else []) + Behind(steps[1..])
  }

  /** What its prepends add in front: the last one's data first. */
  function InFront(steps: seq<Timed>): bytes
    requires forall i :: 0 <= i < |steps| ==> steps[i].op.ConcatOp?
  {
    if steps == [] then [] else InFront(steps[1..]) + if steps[0].op.atEnd then [] else steps[0].op.data
  }

  lemma OneMoreJoined(front: bytes, was: bytes, behind: bytes, atEnd: bool, data: bytes)
    ensures front + (if atEnd then was + data else data + was) + behind
         == (front + if atEnd then [] else data) + was + ((if atEnd then data else []) + behind)
  {
  }

  /** Any chain of appends and prepends to a value whose expiry is on record and not over keeps that expiry,
      however the clock moves; and the value is then the prepended data, the last first, the data it had, and the
      appended data, the first first. */
  lemma {:induction false} ConcatsKeepExpiry(c: Contents, key: bytes, steps: seq<Timed>)
    requires key in c && c[key].recorded == c[key].expiry
    requires c[key].recorded == 0 || c[key].recorded > REAL_TIME_MAX_DELTA
    requires forall i :: 0 <= i < |steps| ==>
      steps[i].op.ConcatOp? && steps[i].op.key == key && Alive(c[key], steps[i].now)
    ensures var c1 := ChunkedRun(c, steps).0;
      && key in c1 && c1[key].expiry == c[key].expiry && c1[key].recorded == c[key].recorded
      && c1[key].flags == c[key].flags && c1[key].data == InFront(steps) + c[key].data + Behind(steps)
    ensures ChunkedRun(c, steps).1 == seq(|steps|, _ => Ok)
    decreases |steps|
  {
    if steps != [] {
      ConcatKeepsExpiry(c, key, steps[0]);
      var c1 := ChunkedStep(c, steps[0].now, steps[0].op).0;
      ConcatsKeepExpiry(c1, key, steps[1..]);
      OneMoreJoined(InFront(steps[1..]), c[key].data, Behind(steps[1..]), steps[0].op.atEnd, steps[0].op.data);
      assert seq(|steps|, _ => Ok) == [Ok] + seq(|steps[1..]|, _ => Ok);
    }
  }

  /** A get-and-touch in between is forgotten: a value stored for ever, given 100 seconds by a get-and-touch
      and then appended to, is kept for ever again. */
  lemma GatThenAppendForgets(key: bytes, data: bytes, now: uint32)
    requires Clock(now)
    ensures var steps := [Timed(now, StoreOp(KindSet, key, data, 0, 0)), Timed(now, GatOp(key, 100)),
                          Timed(now, ConcatOp(true, key, data))];
      && key in ChunkedRun(map[], steps).0 && ChunkedRun(map[], steps).0[key].expiry == 0
      && key in PlainRun(map[], steps).0 && PlainRun(map[], steps).0[key].expiry == now + 100
  {
    var s0, s1, s2 := Timed(now, StoreOp(KindSet, key, data, 0, 0)), Timed(now, GatOp(key, 100)),
                      Timed(now, ConcatOp(true, key, data));
    var steps := [s0, s1, s2];
    assert steps[1..] == [s1, s2] && [s1, s2][1..] == [s2] && [s2][1..] == [];
    var a := ChunkedStep(map[], now, s0.op).0;
    var b := ChunkedStep(a, now, s1.op).0;
    assert ChunkedRun(b, [s2]).0 == ChunkedStep(b, now, s2.op).0;
    assert ChunkedRun(a, [s1, s2]).0 == ChunkedRun(b, [s2]).0;
    var p := PlainStep(map[], now, s0.op).0;
    var q := PlainStep(p, now, s1.op).0;
    assert PlainRun(q, [s2]).0 == PlainStep(q, now, s2.op).0;
    assert PlainRun(p, [s1, s2]).0 == PlainRun(q, [s2]).0;
  }
}
