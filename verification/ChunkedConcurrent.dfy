/** The chunked handler with any number of connections at work on one memcached: every command is one step, and
    the steps of all operations, and evictions, come in any order. */
module ChunkedConcurrent {
  import opened Bytes
  import opened Chunking
  import opened ChunkReads
  import opened ChunkedHandler
  import opened Keys
  import opened Memcached

  /** Where the bytes of a stored value came from. */
  datatype Origin = Client | Joining(atEnd: bool, base: Token, added: bytes)

  /** One store of a value. Its token is its place in the history. `whole` is false for a value made by an append
      that had read fewer chunks than it asked for. */
  datatype Version = Version(key: bytes, data: bytes, flags: uint32, origin: Origin, whole: bool)

  datatype Purpose = ForGet | ForConcat(atEnd: bool, added: bytes)

  datatype Result = Served(key: bytes, data: bytes, flags: uint32, token: Token, whole: bool) | NoValue

  /** An operation in progress: what it will send next, and its local variables. An operation that fails at some
      command is one that makes no further step. */
  datatype Thread =
    | SendMeta(token: Token, kind: SetKind)
    | SendChunk(token: Token, next: nat)
    | WantMeta(key: bytes, purpose: Purpose)
    | Reading(key: bytes, purpose: Purpose, meta: Metadata<Token>, next: nat, loop: Loop<Token>)
    | TouchWantMeta(key: bytes)
    | TouchChunk(key: bytes, meta: Metadata<Token>, next: nat, miss: bool)
    | DeleteWantMeta(key: bytes)
    | DeleteMeta(key: bytes, count: nat)
    | DeleteChunk(key: bytes, count: nat, next: nat)
    | Done(result: Result)

  datatype State = State(items: map<BackendKey, Body>, history: seq<Version>, threads: map<nat, Thread>)

  datatype Request =
    | SetRequest(kind: SetKind, key: bytes, data: bytes, flags: uint32)
    | ReadRequest(key: bytes, purpose: Purpose)
    | TouchRequest(key: bytes)
    | DeleteRequest(key: bytes)

  /** How a get for a chunk that is not there, or one that goes wrong, is answered. */
  datatype Absence = Silence | SaysNotFound | Errs(error: Error)

  datatype Action =
    | Begin(id: nat, request: Request)
    | Advance(id: nat, absence: Absence, exptime: uint32)
    | Evict(key: BackendKey)

  function Initial(): (s: State)
    ensures Inv(s)
  {
    State(map[], [], map[])
  }

  /** A new operation. A store draws its token at once. */
  function BeginThread(s: State, id: nat, r: Request): State {
    match r
    case SetRequest(kind, key, data, flags) =>
      State(s.items, s.history + [Version(key, data, flags, Client, true)],
            s.threads[id := SendMeta(|s.history|, kind)])
    case ReadRequest(key, purpose) => s.(threads := s.threads[id := WantMeta(key, purpose)])
    case TouchRequest(key) => s.(threads := s.threads[id := TouchWantMeta(key)])
    case DeleteRequest(key) => s.(threads := s.threads[id := DeleteWantMeta(key)])
  }

  function RecordOf(v: Version, token: Token): Metadata<Token>
    requires KeyFits(v.key)
  {
    Metadata(|v.data|, v.flags, ChunkCount(|v.data|, DataSize(v.key)), DataSize(v.key), 0, 0, token)
  }

  /** handleSetCommon, one command. */
  function StoreStep(s: State, id: nat): State
    requires Inv(s) && id in s.threads && (s.threads[id].SendMeta? || s.threads[id].SendChunk?)
  {
    assert ThreadInv(s.history, s.threads[id]);
    match s.threads[id]
    case SendMeta(token, kind) =>
      var v := s.history[token];
      if (kind.KindAdd? && Meta(v.key) in s.items) || (kind.KindReplace? && Meta(v.key) !in s.items) then
        s.(threads := s.threads[id := Done(NoValue)])
      else
        s.(items := s.items[Meta(v.key) := MetaBody(RecordOf(v, token))],
           threads := s.threads[id := SendChunk(token, 0)])
    case SendChunk(token, next) =>
      var v := s.history[token];
      if next == ChunkCount(|v.data|, DataSize(v.key)) then s.(threads := s.threads[id := Done(NoValue)])
      else
        ChunkStarts(|v.data|, DataSize(v.key), next);
        s.(items := s.items[Chunk(v.key, next) := ChunkBody(token, Padded(v.data, DataSize(v.key), next))],
           threads := s.threads[id := SendChunk(token, next + 1)])
  }

  /** What a quiet get for a chunk brings back; None is silence. */
  function ReplyTo(items: map<BackendKey, Body>, k: BackendKey, absence: Absence): Option<Reply<Token>> {
    if absence.Errs? then Some(Failure(absence.error))
    else if k in items && items[k].ChunkBody? then Some(Hit(items[k].token, items[k].chunk))
    else if absence.Silence? then None
    else Some(NotFound)
  }

  /** realHandleGet and the reading half of append and prepend, one command. (GAT is the same with touches.) */
  function ReadStep(s: State, id: nat, absence: Absence, counts: bool): State
    requires Inv(s) && id in s.threads && (s.threads[id].WantMeta? || s.threads[id].Reading?)
  {
    assert ThreadInv(s.history, s.threads[id]);
    match s.threads[id]
    case WantMeta(key, purpose) =>
      if Meta(key) !in s.items then s.(threads := s.threads[id := Done(NoValue)])
      else
        var meta := s.items[Meta(key)].meta;
        s.(threads := s.threads[id := Reading(key, purpose, meta, 0, Start(meta, |s.history|))])
    case Reading(key, purpose, meta, next, loop) =>
      if next == meta.numChunks then FinishReading(s, id, counts)
      else
        var after := AfterReply(s, key, meta, next, loop, absence);
        s.(threads := s.threads[id := Reading(key, purpose, meta, next + 1, after)])
  }

  /** The loop after one get for a chunk; silence leaves it as it is. */
  function AfterReply(s: State, key: bytes, meta: Metadata<Token>, next: nat, loop: Loop<Token>, absence: Absence)
    : Loop<Token>
    requires Inv(s) && ReadInv(s.history, key, meta, next, loop) && next < meta.numChunks
  {
    var reply := ReplyTo(s.items, Chunk(key, next), absence);
    ReplyFits(s, key, next, absence);
    if reply.None? then loop else Absorb(meta, loop, reply.value)
  }

  /** After the noop: an answer for a get, a new store for an append. The code does not look at the number of
      chunks it has read (`counts` is false); a variant of it would, and take too few for a miss. */
  function FinishReading(s: State, id: nat, counts: bool): State
    requires id in s.threads && s.threads[id].Reading?
  {
    var Reading(key, purpose, meta, next, loop) := s.threads[id];
    var whole := loop.chunk == meta.numChunks;
    var outcome := Finish(loop);
    if !outcome.Value? || (counts && !whole) then s.(threads := s.threads[id := Done(NoValue)])
    else
      match purpose
      case ForGet =>
        s.(threads := s.threads[id := Done(Served(key, outcome.data, meta.origFlags, meta.token, whole))])
      case ForConcat(atEnd, added) =>
        var origin := Joining(atEnd, meta.token, added);
        State(s.items, s.history + [Version(key, Joined(atEnd, outcome.data, added), meta.origFlags, origin, whole)],
              s.threads[id := SendMeta(|s.history|, KindSet)])
  }

  /** Touch, one command. The record that was read is written back, however old it is by then. */
  function TouchStep(s: State, id: nat, absence: Absence, exptime: uint32): State
    requires Inv(s) && id in s.threads && (s.threads[id].TouchWantMeta? || s.threads[id].TouchChunk?)
  {
    match s.threads[id]
    case TouchWantMeta(key) =>
      s.(threads := s.threads[id := if Meta(key) !in s.items then Done(NoValue)
                                    else TouchChunk(key, s.items[Meta(key)].meta, 0, false)])
    case TouchChunk(key, meta, next, miss) =>
      if next < meta.numChunks then
        var missing := Chunk(key, next) !in s.items && !absence.Errs?;
        s.(threads := s.threads[id := TouchChunk(key, meta, next + 1, miss || missing)])
      else if miss then s.(threads := s.threads[id := Done(NoValue)])
      else
        s.(items := s.items[Meta(key) := MetaBody(meta.(exptime := exptime))],
           threads := s.threads[id := Done(NoValue)])
  }

  /** Delete, one command. */
  function DeleteStep(s: State, id: nat): State
    requires Inv(s) && id in s.threads
    requires s.threads[id].DeleteWantMeta? || s.threads[id].DeleteMeta? || s.threads[id].DeleteChunk?
  {
    match s.threads[id]
    case DeleteWantMeta(key) =>
      s.(threads := s.threads[id := if Meta(key) !in s.items then Done(NoValue)
                                    else DeleteMeta(key, s.items[Meta(key)].meta.numChunks)])
    case DeleteMeta(key, count) =>
      s.(items := s.items - {Meta(key)},
         threads := s.threads[id := if Meta(key) in s.items then DeleteChunk(key, count, 0) else Done(NoValue)])
    case DeleteChunk(key, count, next) =>
      if next < count then
        s.(items := s.items - {Chunk(key, next)}, threads := s.threads[id := DeleteChunk(key, count, next + 1)])
      else s.(threads := s.threads[id := Done(NoValue)])
  }

  /** One step of the system. Anything that cannot happen leaves the state as it is. */
  function Step(s: State, a: Action, counts: bool): State
    requires Inv(s)
  {
    match a
    case Evict(key) => s.(items := s.items - {key})
    case Begin(id, r) => if id in s.threads || !KeyFits(r.key) then s else BeginThread(s, id, r)
    case Advance(id, absence, exptime) =>
      if id !in s.threads then s
      else
        match s.threads[id]
        case Done(_) => s
        case SendMeta(_, _) => StoreStep(s, id)
        case SendChunk(_, _) => StoreStep(s, id)
        case WantMeta(_, _) => ReadStep(s, id, absence, counts)
        case Reading(_, _, _, _, _) => ReadStep(s, id, absence, counts)
        case TouchWantMeta(_) => TouchStep(s, id, absence, exptime)
        case TouchChunk(_, _, _, _) => TouchStep(s, id, absence, exptime)
        case _ => DeleteStep(s, id)
  }

  // ----- The invariant -----

  /** The record belongs to the store that drew its token. */
  ghost predicate RecordInv(history: seq<Version>, key: bytes, m: Metadata<Token>) {
    && m.token < |history| && KeyFits(key)
    && var v := history[m.token];
    && v.key == key && m.length == |v.data| && m.origFlags == v.flags
    && m.chunkSize == DataSize(key) && m.numChunks == ChunkCount(|v.data|, DataSize(key))
  }

  /** What lies under a backend name was put there by one store, whose token it carries, and is what that store's
      data has in that place. */
  ghost predicate ItemInv(history: seq<Version>, k: BackendKey, body: Body) {
    match k
    case Meta(key) => body.MetaBody? && RecordInv(history, key, body.meta)
    case Chunk(key, i) =>
      && body.ChunkBody? && KeyFits(key) && body.token < |history| && history[body.token].key == key
      && SliceStart(DataSize(key), i) <= |history[body.token].data|
      && body.chunk == Padded(history[body.token].data, DataSize(key), i)
  }

  /** A read that has had an answer to every get so far, all with the right token, has the value so far. */
  ghost predicate ReadInv(history: seq<Version>, key: bytes, meta: Metadata<Token>, next: nat, loop: Loop<Token>) {
    && RecordInv(history, key, meta) && next <= meta.numChunks && loop.chunk <= next && |loop.buf| == meta.length
    && (!loop.miss && loop.lastErr.None? && loop.chunk == next ==>
          Filled(loop.buf, history[meta.token].data, meta.chunkSize, next))
  }

  ghost predicate ThreadInv(history: seq<Version>, t: Thread) {
    match t
    case SendMeta(token, _) => token < |history| && KeyFits(history[token].key)
    case SendChunk(token, next) =>
      && token < |history| && KeyFits(history[token].key)
      && next <= ChunkCount(|history[token].data|, DataSize(history[token].key))
    case Reading(key, _, meta, next, loop) => ReadInv(history, key, meta, next, loop)
    case TouchChunk(key, meta, _, _) => RecordInv(history, key, meta)
    case Done(Served(key, data, flags, token, whole)) =>
      && token < |history| && history[token].key == key && history[token].flags == flags
      && (whole ==> data == history[token].data)
    case _ => true
  }

  /** A whole value made by an append is an earlier value of the same key with the bytes added. */
  ghost predicate VersionInv(history: seq<Version>, token: Token)
    requires token < |history|
  {
    var v := history[token];
    v.origin.Joining? ==>
      && v.origin.base < token && history[v.origin.base].key == v.key && history[v.origin.base].flags == v.flags
      && (v.whole ==> v.data == Joined(v.origin.atEnd, history[v.origin.base].data, v.origin.added))
  }

  ghost predicate Inv(s: State) {
    && (forall k :: k in s.items ==> ItemInv(s.history, k, s.items[k]))
    && (forall id :: id in s.threads ==> ThreadInv(s.history, s.threads[id]))
    && (forall t :: 0 <= t < |s.history| ==> VersionInv(s.history, t))
  }

  lemma ReplyFits(s: State, key: bytes, next: nat, absence: Absence)
    requires Inv(s)
    ensures var r := ReplyTo(s.items, Chunk(key, next), absence);
      r.Some? && r.value.Hit? ==> KeyFits(key) && |r.value.chunk| == DataSize(key)
  {
  }

  // ----- Every step keeps it -----

  lemma RecordKeepsInv(s: State, v: Version)
    requires Inv(s) && VersionInv(s.history + [v], |s.history|)
    ensures Inv(s.(history := s.history + [v]))
  {
    var longer := s.history + [v];
    assert forall t :: 0 <= t < |s.history| ==> longer[t] == s.history[t];
    forall id | id in s.threads
      ensures ThreadInv(longer, s.threads[id])
    {
      assert ThreadInv(s.history, s.threads[id]);
    }
    forall t | 0 <= t < |longer|
      ensures VersionInv(longer, t)
    {
      if t < |s.history| { assert VersionInv(s.history, t); }
    }
  }

  lemma MoveKeepsInv(s: State, id: nat, t: Thread)
    requires Inv(s) && ThreadInv(s.history, t)
    ensures Inv(s.(threads := s.threads[id := t]))
  {
  }

  lemma PutKeepsInv(s: State, k: BackendKey, body: Body)
    requires Inv(s) && ItemInv(s.history, k, body)
    ensures Inv(s.(items := s.items[k := body]))
  {
  }

  lemma RemoveKeepsInv(s: State, k: BackendKey)
    requires Inv(s)
    ensures Inv(s.(items := s.items - {k}))
  {
  }

  lemma BeginKeepsInv(s: State, id: nat, r: Request)
    requires Inv(s) && KeyFits(r.key)
    ensures Inv(BeginThread(s, id, r))
  {
    if r.SetRequest? {
      var v := Version(r.key, r.data, r.flags, Client, true);
      RecordKeepsInv(s, v);
      MoveKeepsInv(s.(history := s.history + [v]), id, SendMeta(|s.history|, r.kind));
    }
  }

  lemma StoreKeepsInv(s: State, id: nat)
    requires Inv(s) && id in s.threads && (s.threads[id].SendMeta? || s.threads[id].SendChunk?)
    ensures Inv(StoreStep(s, id))
  {
    assert ThreadInv(s.history, s.threads[id]);
    var t := s.threads[id];
    var v := s.history[t.token];
    if t.SendMeta? {
      PutKeepsInv(s, Meta(v.key), MetaBody(RecordOf(v, t.token)));
      MoveKeepsInv(s.(items := s.items[Meta(v.key) := MetaBody(RecordOf(v, t.token))]), id, SendChunk(t.token, 0));
    } else if t.next < ChunkCount(|v.data|, DataSize(v.key)) {
      ChunkStarts(|v.data|, DataSize(v.key), t.next);
      var body := ChunkBody(t.token, Padded(v.data, DataSize(v.key), t.next));
      PutKeepsInv(s, Chunk(v.key, t.next), body);
      MoveKeepsInv(s.(items := s.items[Chunk(v.key, t.next) := body]), id, SendChunk(t.token, t.next + 1));
    }
  }

  /** One chunk reply: a chunk with the token of the record is the chunk that store made. */
  lemma AfterReplyKeepsInv(s: State, key: bytes, meta: Metadata<Token>, next: nat, loop: Loop<Token>, absence: Absence)
    requires Inv(s) && ReadInv(s.history, key, meta, next, loop) && next < meta.numChunks
    ensures ReadInv(s.history, key, meta, next + 1, AfterReply(s, key, meta, next, loop, absence))
  {
    ReplyFits(s, key, next, absence);
    var reply := ReplyTo(s.items, Chunk(key, next), absence);
    if reply.Some? && reply.value.Hit? && reply.value.token == meta.token && loop.chunk == next {
      assert ItemInv(s.history, Chunk(key, next), s.items[Chunk(key, next)]);
      if !loop.miss && loop.lastErr.None? {
        FilledStep(loop.buf, s.history[meta.token].data, meta.chunkSize, next);
      }
    }
  }

  lemma FinishKeepsInv(s: State, id: nat, counts: bool)
    requires Inv(s) && id in s.threads && s.threads[id].Reading? && s.threads[id].next == s.threads[id].meta.numChunks
    ensures Inv(FinishReading(s, id, counts))
  {
    assert ThreadInv(s.history, s.threads[id]);
    var Reading(key, purpose, meta, next, loop) := s.threads[id];
    var outcome, whole := Finish(loop), loop.chunk == meta.numChunks;
    var base := s.history[meta.token];
    if outcome.Value? && whole {
      FilledIsWhole(loop.buf, base.data, meta.chunkSize);
    }
    if outcome.Value? && purpose.ForConcat? {
      var v := Version(key, Joined(purpose.atEnd, outcome.data, purpose.added), meta.origFlags,
                       Joining(purpose.atEnd, meta.token, purpose.added), whole);
      assert (s.history + [v])[meta.token] == base;
      RecordKeepsInv(s, v);
      MoveKeepsInv(s.(history := s.history + [v]), id, SendMeta(|s.history|, KindSet));
    }
  }

  lemma StartKeepsInv(s: State, key: bytes, meta: Metadata<Token>)
    requires Inv(s) && Meta(key) in s.items && s.items[Meta(key)] == MetaBody(meta)
    ensures ReadInv(s.history, key, meta, 0, Start(meta, |s.history|))
  {
    assert ItemInv(s.history, Meta(key), s.items[Meta(key)]);
    assert Filled(Zeros(meta.length), s.history[meta.token].data, meta.chunkSize, 0);
  }

  lemma NextReplyKeepsInv(s: State, id: nat, absence: Absence, counts: bool)
    requires Inv(s) && id in s.threads && s.threads[id].Reading? && s.threads[id].next != s.threads[id].meta.numChunks
    ensures Inv(ReadStep(s, id, absence, counts))
  {
    assert ThreadInv(s.history, s.threads[id]);
    var Reading(key, purpose, meta, next, loop) := s.threads[id];
    AfterReplyKeepsInv(s, key, meta, next, loop, absence);
    var t := Reading(key, purpose, meta, next + 1, AfterReply(s, key, meta, next, loop, absence));
    assert ReadStep(s, id, absence, counts) == s.(threads := s.threads[id := t]);
    MoveKeepsInv(s, id, t);
  }

  lemma ReadKeepsInv(s: State, id: nat, absence: Absence, counts: bool)
    requires Inv(s) && id in s.threads && (s.threads[id].WantMeta? || s.threads[id].Reading?)
    ensures Inv(ReadStep(s, id, absence, counts))
  {
    var t := s.threads[id];
    if t.WantMeta? {
      if Meta(t.key) in s.items {
        assert ItemInv(s.history, Meta(t.key), s.items[Meta(t.key)]);
        var meta := s.items[Meta(t.key)].meta;
        StartKeepsInv(s, t.key, meta);
        MoveKeepsInv(s, id, Reading(t.key, t.purpose, meta, 0, Start(meta, |s.history|)));
      }
    } else if t.next == t.meta.numChunks {
      FinishKeepsInv(s, id, counts);
    } else {
      NextReplyKeepsInv(s, id, absence, counts);
    }
  }

  lemma TouchKeepsInv(s: State, id: nat, absence: Absence, exptime: uint32)
    requires Inv(s) && id in s.threads && (s.threads[id].TouchWantMeta? || s.threads[id].TouchChunk?)
    ensures Inv(TouchStep(s, id, absence, exptime))
  {
    var t := s.threads[id];
    assert ThreadInv(s.history, t);
    var r := TouchStep(s, id, absence, exptime);
    if t.TouchWantMeta? {
      if Meta(t.key) in s.items { assert ItemInv(s.history, Meta(t.key), s.items[Meta(t.key)]); }
      MoveKeepsInv(s, id, r.threads[id]);
    } else if t.next >= t.meta.numChunks && !t.miss {
      PutKeepsInv(s, Meta(t.key), MetaBody(t.meta.(exptime := exptime)));
      MoveKeepsInv(s.(items := r.items), id, Done(NoValue));
    } else {
      MoveKeepsInv(s, id, r.threads[id]);
    }
  }

  lemma DeleteKeepsInv(s: State, id: nat)
    requires Inv(s) && id in s.threads
    requires s.threads[id].DeleteWantMeta? || s.threads[id].DeleteMeta? || s.threads[id].DeleteChunk?
    ensures Inv(DeleteStep(s, id))
  {
    var t := s.threads[id];
    if t.DeleteWantMeta? && Meta(t.key) in s.items {
      assert ItemInv(s.history, Meta(t.key), s.items[Meta(t.key)]);
    }
  }

  lemma StepKeepsInv(s: State, a: Action, counts: bool)
    requires Inv(s)
    ensures Inv(Step(s, a, counts))
  {
    match a
    case Evict(key) => RemoveKeepsInv(s, key);
    case Begin(id, r) => if KeyFits(r.key) { BeginKeepsInv(s, id, r); }
    case Advance(id, absence, exptime) =>
      if id in s.threads {
        match s.threads[id]
        case Done(_) =>
        case SendMeta(_, _) => StoreKeepsInv(s, id);
        case SendChunk(_, _) => StoreKeepsInv(s, id);
        case WantMeta(_, _) => ReadKeepsInv(s, id, absence, counts);
        case Reading(_, _, _, _, _) => ReadKeepsInv(s, id, absence, counts);
        case TouchWantMeta(_) => TouchKeepsInv(s, id, absence, exptime);
        case TouchChunk(_, _, _, _) => TouchKeepsInv(s, id, absence, exptime);
        case _ => DeleteKeepsInv(s, id);
      }
  }

  // ----- Runs -----

  function Next(s: State, a: Action, counts: bool): (r: State)
    requires Inv(s)
    ensures Inv(r)
  {
    StepKeepsInv(s, a, counts);
    Step(s, a, counts)
  }

  /** Any steps of any operations, in any order. */
  function Run(s: State, actions: seq<Action>, counts: bool): (r: State)
    requires Inv(s)
    ensures Inv(r)
    decreases |actions|
  {
    if actions == [] then s else Run(Next(s, actions[0], counts), actions[1..], counts)
  }

  /** In every run, a get that has counted all the chunks serves the key, bytes and flags of one store. */
  lemma WholeHitIsOneVersion(actions: seq<Action>, counts: bool, id: nat)
    requires var s := Run(Initial(), actions, counts);
      id in s.threads && s.threads[id].Done? && s.threads[id].result.Served?
    ensures var s := Run(Initial(), actions, counts); var hit := s.threads[id].result;
      && hit.token < |s.history|
      && var v := s.history[hit.token];
      && hit.key == v.key && hit.flags == v.flags && (hit.whole ==> hit.data == v.data)
  {
    var s := Run(Initial(), actions, counts);
    assert ThreadInv(s.history, s.threads[id]);
  }

  /** No get for a chunk goes without an answer. */
  predicate Answered(a: Action) {
    a.Advance? ==> !a.absence.Silence?
  }

  /** Nothing has been handed out, or stored again, from a value with chunks missing. */
  ghost predicate Complete(s: State, counts: bool) {
    && (forall t :: 0 <= t < |s.history| ==> s.history[t].whole)
    && (forall id :: id in s.threads ==> ThreadComplete(s.threads[id], counts))
  }

  ghost predicate ThreadComplete(t: Thread, counts: bool) {
    match t
    case Reading(_, _, meta, next, loop) => counts || loop.miss || loop.lastErr.Some? || loop.chunk == next
    case Done(Served(_, _, _, _, whole)) => whole
    case _ => true
  }

  lemma FinishStaysComplete(s: State, id: nat, counts: bool)
    requires Complete(s, counts) && id in s.threads && s.threads[id].Reading?
    requires s.threads[id].next == s.threads[id].meta.numChunks
    ensures Complete(FinishReading(s, id, counts), counts)
  {
    assert ThreadComplete(s.threads[id], counts);
  }

  lemma AfterReplyStaysComplete(s: State, key: bytes, meta: Metadata<Token>, next: nat, loop: Loop<Token>,
                                absence: Absence)
    requires Inv(s) && ReadInv(s.history, key, meta, next, loop) && next < meta.numChunks && !absence.Silence?
    requires loop.miss || loop.lastErr.Some? || loop.chunk == next
    ensures var after := AfterReply(s, key, meta, next, loop, absence);
      after.miss || after.lastErr.Some? || after.chunk == next + 1
  {
    ReplyFits(s, key, next, absence);
  }

  lemma ReadStaysComplete(s: State, id: nat, absence: Absence, counts: bool)
    requires Inv(s) && id in s.threads && (s.threads[id].WantMeta? || s.threads[id].Reading?)
    requires Complete(s, counts) && (counts || !absence.Silence?)
    ensures Complete(ReadStep(s, id, absence, counts), counts)
  {
    var t := s.threads[id];
    assert ThreadInv(s.history, t) && ThreadComplete(t, counts);
    if t.Reading? {
      if t.next == t.meta.numChunks {
        FinishStaysComplete(s, id, counts);
      } else if !counts {
        AfterReplyStaysComplete(s, t.key, t.meta, t.next, t.loop, absence);
      }
    }
  }

  lemma BeginStaysComplete(s: State, id: nat, r: Request, counts: bool)
    requires Complete(s, counts)
    ensures Complete(BeginThread(s, id, r), counts)
  {
  }

  lemma StoreStaysComplete(s: State, id: nat, counts: bool)
    requires Inv(s) && id in s.threads && (s.threads[id].SendMeta? || s.threads[id].SendChunk?) && Complete(s, counts)
    ensures Complete(StoreStep(s, id), counts)
  {
  }

  lemma TouchStaysComplete(s: State, id: nat, absence: Absence, exptime: uint32, counts: bool)
    requires Inv(s) && id in s.threads && (s.threads[id].TouchWantMeta? || s.threads[id].TouchChunk?)
    requires Complete(s, counts)
    ensures Complete(TouchStep(s, id, absence, exptime), counts)
  {
  }

  lemma DeleteStaysComplete(s: State, id: nat, counts: bool)
    requires Inv(s) && id in s.threads && Complete(s, counts)
    requires s.threads[id].DeleteWantMeta? || s.threads[id].DeleteMeta? || s.threads[id].DeleteChunk?
    ensures Complete(DeleteStep(s, id), counts)
  {
  }

  lemma StepStaysComplete(s: State, a: Action, counts: bool)
    requires Inv(s) && Complete(s, counts) && (counts || Answered(a))
    ensures Complete(Step(s, a, counts), counts)
  {
    if a.Begin? {
      BeginStaysComplete(s, a.id, a.request, counts);
    } else if a.Advance? && a.id in s.threads {
      match s.threads[a.id]
      case Done(_) =>
      case SendMeta(_, _) => StoreStaysComplete(s, a.id, counts);
      case SendChunk(_, _) => StoreStaysComplete(s, a.id, counts);
      case WantMeta(_, _) => ReadStaysComplete(s, a.id, a.absence, counts);
      case Reading(_, _, _, _, _) => ReadStaysComplete(s, a.id, a.absence, counts);
      case TouchWantMeta(_) => TouchStaysComplete(s, a.id, a.absence, a.exptime, counts);
      case TouchChunk(_, _, _, _) => TouchStaysComplete(s, a.id, a.absence, a.exptime, counts);
      case _ => DeleteStaysComplete(s, a.id, counts);
    }
  }

  lemma {:induction false} RunStaysComplete(s: State, actions: seq<Action>, counts: bool)
    requires Inv(s) && Complete(s, counts)
    requires counts || forall i :: 0 <= i < |actions| ==> Answered(actions[i])
    ensures Complete(Run(s, actions, counts), counts)
    decreases |actions|
  {
    if actions != [] {
      StepStaysComplete(s, actions[0], counts);
      RunStaysComplete(Next(s, actions[0], counts), actions[1..], counts);
    }
  }

  /** What a store put there, told by what clients sent: the bytes of a set, or those of an earlier store with
      an append's or prepend's bytes joined on. */
  function Content(history: seq<Version>, token: Token): bytes
    requires token < |history|
  {
    var v := history[token];
    if v.origin.Joining? && v.origin.base < token then
      Joined(v.origin.atEnd, Content(history, v.origin.base), v.origin.added)
    else v.data
  }

  /** An append's bytes are behind those of the store it was made from, a prepend's in front. */
  lemma ContentJoins(s: State, token: Token)
    requires Inv(s) && token < |s.history| && s.history[token].origin.Joining?
    ensures var o := s.history[token].origin;
      && o.base < token
      && Content(s.history, token) == if o.atEnd then Content(s.history, o.base) + o.added
                                      else o.added + Content(s.history, o.base)
  {
    assert VersionInv(s.history, token);
  }

  lemma {:induction false} ContentIsData(s: State, token: Token)
    requires Inv(s) && token < |s.history| && forall t :: 0 <= t < |s.history| ==> s.history[t].whole
    ensures Content(s.history, token) == s.history[token].data
    decreases token
  {
    assert VersionInv(s.history, token);
    if s.history[token].origin.Joining? {
      ContentIsData(s, s.history[token].origin.base);
    }
  }

  // ----- What is served was accepted -----

  predicate HasRecord(s: State, key: bytes, token: Token) {
    Meta(key) in s.items && s.items[Meta(key)].MetaBody? && s.items[Meta(key)].meta.token == token
  }

  predicate ThreadHas(t: Thread, key: bytes, token: Token) {
    match t
    case Reading(k, _, meta, _, _) => k == key && meta.token == token
    case TouchChunk(k, meta, _, _) => k == key && meta.token == token
    case Done(Served(k, _, _, tok, _)) => k == key && tok == token
    case _ => false
  }

  predicate VersionHas(v: Version, key: bytes, token: Token) {
    v.key == key && v.origin.Joining? && v.origin.base == token
  }

  /** The token is in use for this key: in the backend, by an operation, or as the base of an append. */
  ghost predicate Carries(s: State, key: bytes, token: Token) {
    || HasRecord(s, key, token)
    || (exists id :: id in s.threads && ThreadHas(s.threads[id], key, token))
    || (exists i :: 0 <= i < |s.history| && VersionHas(s.history[i], key, token))
  }

  /** In this step the backend accepts the metadata record of that store. */
  predicate Accepts(s: State, a: Action, key: bytes, token: Token) {
    && a.Advance? && a.id in s.threads && s.threads[a.id].SendMeta? && s.threads[a.id].token == token
    && token < |s.history| && s.history[token].key == key
    && (s.threads[a.id].kind.KindAdd? ==> Meta(key) !in s.items)
    && (s.threads[a.id].kind.KindReplace? ==> Meta(key) in s.items)
  }

  /** And then it is there. */
  lemma AcceptedIsThere(s: State, a: Action, counts: bool, key: bytes, token: Token)
    requires Inv(s) && Accepts(s, a, key, token)
    ensures HasRecord(Next(s, a, counts), key, token)
  {
  }

  /** What one operation's step can bring into use it had in use before. */
  lemma CarriedBefore(s: State, r: State, id: nat, key: bytes, token: Token)
    requires id in s.threads && r.threads.Keys == s.threads.Keys && Carries(r, key, token)
    requires forall j :: j in s.threads && j != id ==> r.threads[j] == s.threads[j]
    requires HasRecord(r, key, token) || ThreadHas(r.threads[id], key, token) ==>
      HasRecord(s, key, token) || ThreadHas(s.threads[id], key, token)
    requires |s.history| <= |r.history| <= |s.history| + 1 && s.history <= r.history
    requires |r.history| > |s.history| && VersionHas(r.history[|s.history|], key, token) ==>
      ThreadHas(s.threads[id], key, token)
    ensures Carries(s, key, token)
  {
    if i :| 0 <= i < |r.history| && VersionHas(r.history[i], key, token) {
      if i < |s.history| { assert VersionHas(s.history[i], key, token); }
    }
  }

  lemma StoreCarries(s: State, a: Action, key: bytes, token: Token)
    requires Inv(s) && a.Advance? && a.id in s.threads && (s.threads[a.id].SendMeta? || s.threads[a.id].SendChunk?)
    requires Carries(StoreStep(s, a.id), key, token)
    ensures Carries(s, key, token) || Accepts(s, a, key, token)
  {
    assert ThreadInv(s.history, s.threads[a.id]);
    if !Accepts(s, a, key, token) {
      CarriedBefore(s, StoreStep(s, a.id), a.id, key, token);
    }
  }

  lemma FinishCarries(s: State, id: nat, counts: bool, key: bytes, token: Token)
    requires id in s.threads && s.threads[id].Reading? && Carries(FinishReading(s, id, counts), key, token)
    ensures Carries(s, key, token)
  {
    CarriedBefore(s, FinishReading(s, id, counts), id, key, token);
  }

  lemma ReadCarries(s: State, id: nat, absence: Absence, counts: bool, key: bytes, token: Token)
    requires Inv(s) && id in s.threads && (s.threads[id].WantMeta? || s.threads[id].Reading?)
    requires Carries(ReadStep(s, id, absence, counts), key, token)
    ensures Carries(s, key, token)
  {
    assert ThreadInv(s.history, s.threads[id]);
    if s.threads[id].Reading? && s.threads[id].next == s.threads[id].meta.numChunks {
      FinishCarries(s, id, counts, key, token);
    } else {
      CarriedBefore(s, ReadStep(s, id, absence, counts), id, key, token);
    }
  }

  lemma TouchCarries(s: State, id: nat, absence: Absence, exptime: uint32, key: bytes, token: Token)
    requires Inv(s) && id in s.threads && (s.threads[id].TouchWantMeta? || s.threads[id].TouchChunk?)
    requires Carries(TouchStep(s, id, absence, exptime), key, token)
    ensures Carries(s, key, token)
  {
    CarriedBefore(s, TouchStep(s, id, absence, exptime), id, key, token);
  }

  lemma DeleteCarries(s: State, id: nat, key: bytes, token: Token)
    requires Inv(s) && id in s.threads
    requires s.threads[id].DeleteWantMeta? || s.threads[id].DeleteMeta? || s.threads[id].DeleteChunk?
    requires Carries(DeleteStep(s, id), key, token)
    ensures Carries(s, key, token)
  {
    CarriedBefore(s, DeleteStep(s, id), id, key, token);
  }

  lemma BeginCarries(s: State, id: nat, r: Request, key: bytes, token: Token)
    requires Inv(s) && id !in s.threads && Carries(BeginThread(s, id, r), key, token)
    ensures Carries(s, key, token)
  {
    var b := BeginThread(s, id, r);
    if j :| j in b.threads && ThreadHas(b.threads[j], key, token) {
      assert j in s.threads && ThreadHas(s.threads[j], key, token);
    } else if i :| 0 <= i < |b.history| && VersionHas(b.history[i], key, token) {
      assert i < |s.history| && VersionHas(s.history[i], key, token);
    }
  }

  lemma StepCarries(s: State, a: Action, counts: bool, key: bytes, token: Token)
    requires Inv(s) && Carries(Next(s, a, counts), key, token)
    ensures Carries(s, key, token) || Accepts(s, a, key, token)
  {
    if a.Begin? {
      if a.id !in s.threads && KeyFits(a.request.key) { BeginCarries(s, a.id, a.request, key, token); }
    } else if a.Advance? && a.id in s.threads {
      match s.threads[a.id]
      case Done(_) =>
      case SendMeta(_, _) => StoreCarries(s, a, key, token);
      case SendChunk(_, _) => StoreCarries(s, a, key, token);
      case WantMeta(_, _) => ReadCarries(s, a.id, a.absence, counts, key, token);
      case Reading(_, _, _, _, _) => ReadCarries(s, a.id, a.absence, counts, key, token);
      case TouchWantMeta(_) => TouchCarries(s, a.id, a.absence, a.exptime, key, token);
      case TouchChunk(_, _, _, _) => TouchCarries(s, a.id, a.absence, a.exptime, key, token);
      case _ => DeleteCarries(s, a.id, key, token);
    }
  }

  /** Some step of the run is the one in which the backend accepts that store. */
  ghost predicate AcceptedIn(s: State, actions: seq<Action>, counts: bool, key: bytes, token: Token)
    requires Inv(s)
    decreases |actions|
  {
    actions != [] &&
    (Accepts(s, actions[0], key, token) || AcceptedIn(Next(s, actions[0], counts), actions[1..], counts, key, token))
  }

  lemma {:induction false} CarriedWasAccepted(s: State, actions: seq<Action>, counts: bool, key: bytes, token: Token)
    requires Inv(s) && Carries(Run(s, actions, counts), key, token)
    ensures Carries(s, key, token) || AcceptedIn(s, actions, counts, key, token)
    decreases |actions|
  {
    if actions != [] {
      var next := Next(s, actions[0], counts);
      CarriedWasAccepted(next, actions[1..], counts, key, token);
      if Carries(next, key, token) { StepCarries(s, actions[0], counts, key, token); }
    }
  }

  /** What an append or prepend was joined on to had been accepted by the backend too. */
  lemma BaseWasAccepted(actions: seq<Action>, counts: bool, token: Token)
    requires var s := Run(Initial(), actions, counts); token < |s.history| && s.history[token].origin.Joining?
    ensures var v := Run(Initial(), actions, counts).history[token];
      AcceptedIn(Initial(), actions, counts, v.key, v.origin.base)
  {
    var v := Run(Initial(), actions, counts).history[token];
    assert VersionHas(v, v.key, v.origin.base);
    CarriedWasAccepted(Initial(), actions, counts, v.key, v.origin.base);
  }

  lemma ServedWasAccepted(actions: seq<Action>, counts: bool, id: nat)
    requires var s := Run(Initial(), actions, counts);
      id in s.threads && s.threads[id].Done? && s.threads[id].result.Served?
    ensures var hit := Run(Initial(), actions, counts).threads[id].result;
      AcceptedIn(Initial(), actions, counts, hit.key, hit.token)
  {
    var s := Run(Initial(), actions, counts);
    var hit := s.threads[id].result;
    assert ThreadHas(s.threads[id], hit.key, hit.token);
    CarriedWasAccepted(Initial(), actions, counts, hit.key, hit.token);
  }

  // ----- One version -----

  /** One version or a miss. Whatever sets, appends, prepends, touches, deletes and evictions run between the
      commands of a get, a hit is exactly the content and flags of one store under its key, which the backend had
      accepted, if every chunk that is not there is answered as such; or if the number of chunks were checked, as the
      code's comment says. */
  lemma HitIsOneVersion(actions: seq<Action>, counts: bool, id: nat)
    requires counts || forall i :: 0 <= i < |actions| ==> Answered(actions[i])
    requires var s := Run(Initial(), actions, counts);
      id in s.threads && s.threads[id].Done? && s.threads[id].result.Served?
    ensures var s := Run(Initial(), actions, counts); var hit := s.threads[id].result;
      && hit.token < |s.history|
      && hit.key == s.history[hit.token].key && hit.flags == s.history[hit.token].flags
      && hit.data == Content(s.history, hit.token)
      && AcceptedIn(Initial(), actions, counts, hit.key, hit.token)
  {
    var s := Run(Initial(), actions, counts);
    RunStaysComplete(Initial(), actions, counts);
    assert ThreadInv(s.history, s.threads[id]) && ThreadComplete(s.threads[id], counts);
    ContentIsData(s, s.threads[id].result.token);
    ServedWasAccepted(actions, counts, id);
  }

  predicate Sends(a: Action, v: Version) {
    && a.Begin? && a.request.SetRequest?
    && a.request.key == v.key && a.request.data == v.data && a.request.flags == v.flags
  }

  /** At most one version more, which this action sends or which an append made. */
  predicate AddsTo(history: seq<Version>, history': seq<Version>, a: Action) {
    history' == history
    || (|history'| == |history| + 1 && history <= history'
        && var v := history'[|history|]; v.origin.Joining? || Sends(a, v))
  }

  lemma ReadAddsToHistory(s: State, id: nat, a: Action, absence: Absence, counts: bool)
    requires Inv(s) && id in s.threads && (s.threads[id].WantMeta? || s.threads[id].Reading?)
    ensures AddsTo(s.history, ReadStep(s, id, absence, counts).history, a)
  {
  }

  lemma StepAddsToHistory(s: State, a: Action, counts: bool)
    requires Inv(s)
    ensures AddsTo(s.history, Next(s, a, counts).history, a)
  {
    if a.Advance? && a.id in s.threads && (s.threads[a.id].WantMeta? || s.threads[a.id].Reading?) {
      ReadAddsToHistory(s, a.id, a, a.absence, counts);
    }
  }

  /** History is only ever added to. */
  lemma {:induction false} HistoryGrows(s: State, actions: seq<Action>, counts: bool)
    requires Inv(s)
    ensures s.history <= Run(s, actions, counts).history
    decreases |actions|
  {
    if actions != [] {
      StepAddsToHistory(s, actions[0], counts);
      HistoryGrows(Next(s, actions[0], counts), actions[1..], counts);
    }
  }

  ghost predicate SentBy(actions: seq<Action>, v: Version) {
    exists i :: 0 <= i < |actions| && Sends(actions[i], v)
  }

  lemma SentByRest(actions: seq<Action>, v: Version)
    requires actions != [] && (Sends(actions[0], v) || SentBy(actions[1..], v))
    ensures SentBy(actions, v)
  {
    if !Sends(actions[0], v) {
      var i :| 0 <= i < |actions[1..]| && Sends(actions[1..][i], v);
      assert Sends(actions[i + 1], v);
    }
  }

  /** Every store that is not an append or prepend is one that a client asked for, byte for byte. */
  lemma {:induction false} SetsComeFromClients(s: State, actions: seq<Action>, counts: bool, token: Token)
    requires Inv(s)
    requires var r := Run(s, actions, counts); |s.history| <= token < |r.history| && r.history[token].origin.Client?
    ensures SentBy(actions, Run(s, actions, counts).history[token])
    decreases |actions|
  {
    var a, r, rest := actions[0], Run(s, actions, counts), actions[1..];
    var next := Next(s, a, counts);
    StepAddsToHistory(s, a, counts);
    HistoryGrows(next, rest, counts);
    if token < |next.history| {
      assert next.history[token] == r.history[token];
    } else {
      SetsComeFromClients(next, rest, counts, token);
    }
    SentByRest(actions, r.history[token]);
  }

  // ----- Operations that nobody disturbs -----

  /** So many commands of one operation, every chunk that is missing answered as such. */
  function Turns(id: nat, n: nat): seq<Action> {
    if n == 0 then [] else [Advance(id, SaysNotFound, 0)] + Turns(id, n - 1)
  }

  lemma {:induction false} RunAppends(s: State, a: seq<Action>, b: seq<Action>, counts: bool)
    requires Inv(s)
    ensures Run(s, a + b, counts) == Run(Run(s, a, counts), b, counts)
    decreases |a|
  {
    if a == [] {
      assert a + b == b;
    } else {
      assert (a + b)[0] == a[0] && (a + b)[1..] == a[1..] + b;
      RunAppends(Next(s, a[0], counts), a[1..], b, counts);
    }
  }

  /** One such command. */
  function Go(s: State, id: nat, counts: bool): (r: State)
    requires Inv(s)
    ensures Inv(r)
  {
    Next(s, Advance(id, SaysNotFound, 0), counts)
  }

  /** So many such commands. */
  function GoOn(s: State, id: nat, n: nat, counts: bool): (r: State)
    requires Inv(s)
    ensures Inv(r)
    decreases n
  {
    if n == 0 then s else GoOn(Go(s, id, counts), id, n - 1, counts)
  }

  lemma {:induction false} TurnsGoOn(s: State, id: nat, n: nat, counts: bool)
    requires Inv(s)
    ensures Run(s, Turns(id, n), counts) == GoOn(s, id, n, counts)
    decreases n
  {
    if n > 0 {
      assert Turns(id, n)[1..] == Turns(id, n - 1);
      TurnsGoOn(Go(s, id, counts), id, n - 1, counts);
    }
  }

  /** The first n chunks of that store lie under their names. */
  ghost predicate ChunksIn(s: State, key: bytes, token: Token, n: nat) {
    forall i: nat :: i < n ==> Chunk(key, i) in s.items && s.items[Chunk(key, i)].ChunkBody?
                               && s.items[Chunk(key, i)].token == token
  }

  /** The whole of that store lies in the backend. */
  ghost predicate IsThere(s: State, key: bytes, token: Token) {
    && HasRecord(s, key, token) && ChunksIn(s, key, token, s.items[Meta(key)].meta.numChunks)
  }

  /** The operation is at this point of sending its chunks, and the record is in front of them. */
  ghost predicate SentSoFar(s: State, id: nat, token: Token, next: nat) {
    && id in s.threads && s.threads[id] == SendChunk(token, next) && token < |s.history|
    && HasRecord(s, s.history[token].key, token) && ChunksIn(s, s.history[token].key, token, next)
  }

  /** That store is of this key and makes so many chunks. */
  ghost predicate MakesChunks(history: seq<Version>, token: Token, key: bytes, count: nat) {
    && token < |history| && history[token].key == key && KeyFits(key)
    && ChunkCount(|history[token].data|, DataSize(key)) == count
  }

  lemma SendsNext(s: State, id: nat, key: bytes, token: Token, next: nat, count: nat, counts: bool)
    requires Inv(s) && SentSoFar(s, id, token, next) && MakesChunks(s.history, token, key, count) && next < count
    ensures var r := Go(s, id, counts);
      && SentSoFar(r, id, token, next + 1) && r.history == s.history
      && r.threads == s.threads[id := SendChunk(token, next + 1)]
  {
    ChunkStarts(|s.history[token].data|, DataSize(key), next);
  }

  /** The operation is done, the history is as it was, and the whole of that store lies in the backend. */
  ghost predicate HasStored(s: State, r: State, id: nat, key: bytes, token: Token) {
    r.history == s.history && r.threads == s.threads[id := Done(NoValue)] && IsThere(r, key, token)
  }

  lemma SendsEnd(s: State, id: nat, key: bytes, token: Token, count: nat, counts: bool)
    requires Inv(s) && SentSoFar(s, id, token, count) && MakesChunks(s.history, token, key, count)
    ensures HasStored(s, Go(s, id, counts), id, key, token)
  {
    assert ItemInv(s.history, Meta(key), s.items[Meta(key)]);
  }

  lemma HasStoredFrom(s: State, s1: State, r: State, id: nat, t: Thread, key: bytes, token: Token)
    requires HasStored(s1, r, id, key, token) && s1.history == s.history && s1.threads == s.threads[id := t]
    ensures HasStored(s, r, id, key, token)
  {
  }

  lemma {:induction false} SendsAll(s: State, id: nat, key: bytes, token: Token, next: nat, n: nat, counts: bool)
    requires Inv(s) && SentSoFar(s, id, token, next) && MakesChunks(s.history, token, key, next + n)
    ensures HasStored(s, GoOn(s, id, n + 1, counts), id, key, token)
    decreases n
  {
    if n > 0 {
      SendsNext(s, id, key, token, next, next + n, counts);
      var s1 := Go(s, id, counts);
      SendsAll(s1, id, key, token, next + 1, n - 1, counts);
      HasStoredFrom(s, s1, GoOn(s1, id, n, counts), id, SendChunk(token, next + 1), key, token);
    } else {
      SendsEnd(s, id, key, token, next, counts);
    }
  }

  lemma SendsRecord(s: State, id: nat, token: Token, kind: SetKind, counts: bool)
    requires Inv(s) && id in s.threads && s.threads[id] == SendMeta(token, kind) && token < |s.history|
    requires KeyFits(s.history[token].key) && Accepts(s, Advance(id, SaysNotFound, 0), s.history[token].key, token)
    ensures var r := Go(s, id, counts);
      && SentSoFar(r, id, token, 0) && r.history == s.history && r.threads == s.threads[id := SendChunk(token, 0)]
  {
  }

  /** A store that is accepted and that nobody disturbs ends with the record and all the chunks in the backend. */
  lemma StoreAlone(s: State, id: nat, token: Token, kind: SetKind, counts: bool) returns (turns: seq<Action>)
    requires Inv(s) && id in s.threads && s.threads[id] == SendMeta(token, kind) && token < |s.history|
    requires Accepts(s, Advance(id, SaysNotFound, 0), s.history[token].key, token)
    ensures HasStored(s, Run(s, turns, counts), id, s.history[token].key, token)
  {
    assert ThreadInv(s.history, s.threads[id]);
    var key := s.history[token].key;
    var n := ChunkCount(|s.history[token].data|, DataSize(key));
    turns := Turns(id, n + 2);
    TurnsGoOn(s, id, n + 2, counts);
    SendsRecord(s, id, token, kind, counts);
    var s1 := Go(s, id, counts);
    SendsAll(s1, id, key, token, 0, n, counts);
    HasStoredFrom(s, s1, GoOn(s1, id, n + 1, counts), id, SendChunk(token, 0), key, token);
  }

  /** The operation has read every chunk so far, and they were all the right ones. */
  ghost predicate ReadSoFar(s: State, id: nat, key: bytes, purpose: Purpose, token: Token, next: nat) {
    && id in s.threads && s.threads[id].Reading? && IsThere(s, key, token)
    && s.threads[id].key == key && s.threads[id].purpose == purpose
    && s.threads[id].meta == s.items[Meta(key)].meta && s.threads[id].next == next
    && var loop := s.threads[id].loop; !loop.miss && loop.lastErr.None? && loop.chunk == next
  }

  /** Nothing but this operation has moved. */
  ghost predicate OnlyReads(s: State, r: State, id: nat) {
    r.items == s.items && r.history == s.history && id in r.threads && r.threads == s.threads[id := r.threads[id]]
  }

  lemma ReadsNext(s: State, id: nat, key: bytes, purpose: Purpose, token: Token, next: nat, counts: bool)
    requires Inv(s) && ReadSoFar(s, id, key, purpose, token, next) && next < s.items[Meta(key)].meta.numChunks
    ensures ReadSoFar(Go(s, id, counts), id, key, purpose, token, next + 1) && OnlyReads(s, Go(s, id, counts), id)
  {
    assert ThreadInv(s.history, s.threads[id]);
    ReplyFits(s, key, next, SaysNotFound);
  }

  lemma OnlyReadsFurther(s: State, s1: State, r: State, id: nat)
    requires OnlyReads(s, s1, id) && OnlyReads(s1, r, id)
    ensures OnlyReads(s, r, id)
  {
  }

  lemma {:induction false} ReadsAll(s: State, id: nat, key: bytes, purpose: Purpose, token: Token, next: nat, n: nat,
                                    counts: bool)
    requires Inv(s) && ReadSoFar(s, id, key, purpose, token, next) && next + n == s.items[Meta(key)].meta.numChunks
    ensures ReadSoFar(GoOn(s, id, n, counts), id, key, purpose, token, next + n)
    ensures OnlyReads(s, GoOn(s, id, n, counts), id)
    decreases n
  {
    if n > 0 {
      ReadsNext(s, id, key, purpose, token, next, counts);
      var s1 := Go(s, id, counts);
      ReadsAll(s1, id, key, purpose, token, next + 1, n - 1, counts);
      OnlyReadsFurther(s, s1, GoOn(s1, id, n - 1, counts), id);
    }
  }

  lemma FindsRecord(s: State, id: nat, key: bytes, purpose: Purpose, token: Token, counts: bool)
    requires Inv(s) && id in s.threads && s.threads[id] == WantMeta(key, purpose) && IsThere(s, key, token)
    ensures ReadSoFar(Go(s, id, counts), id, key, purpose, token, 0) && OnlyReads(s, Go(s, id, counts), id)
  {
  }

  /** The value with the new bytes behind it after an append, and in front of it after a prepend. */
  function Lengthened(v: Version, token: Token, atEnd: bool, added: bytes): Version {
    Version(v.key, if atEnd then v.data + added else added + v.data, v.flags, Joining(atEnd, token, added), true)
  }

  /** A get has served the data of the store, and an append or prepend goes on to store the joined data. */
  ghost predicate HasRead(s: State, r: State, id: nat, key: bytes, purpose: Purpose, token: Token) {
    && r.items == s.items && token < |s.history|
    && var v := s.history[token];
    match purpose
    case ForGet =>
      && r.history == s.history
      && r.threads == s.threads[id := Done(Served(key, v.data, v.flags, token, true))]
    case ForConcat(atEnd, added) =>
      && r.history == s.history + [Lengthened(v, token, atEnd, added)]
      && r.threads == s.threads[id := SendMeta(|s.history|, KindSet)]
  }

  lemma EndsRead(s: State, id: nat, key: bytes, purpose: Purpose, token: Token, n: nat, counts: bool)
    requires Inv(s) && ReadSoFar(s, id, key, purpose, token, n) && n == s.items[Meta(key)].meta.numChunks
    ensures HasRead(s, Go(s, id, counts), id, key, purpose, token)
  {
    assert ThreadInv(s.history, s.threads[id]);
    var t := s.threads[id];
    FilledIsWhole(t.loop.buf, s.history[token].data, t.meta.chunkSize);
    assert Go(s, id, counts) == FinishReading(s, id, counts);
  }

  lemma HasReadFrom(s: State, s1: State, r: State, id: nat, key: bytes, purpose: Purpose, token: Token)
    requires HasRead(s1, r, id, key, purpose, token) && OnlyReads(s, s1, id)
    ensures HasRead(s, r, id, key, purpose, token)
  {
  }

  lemma ReadsToTheEnd(s: State, id: nat, key: bytes, purpose: Purpose, token: Token, n: nat, counts: bool)
    requires Inv(s) && ReadSoFar(s, id, key, purpose, token, 0) && n == s.items[Meta(key)].meta.numChunks
    ensures HasRead(s, Run(s, Turns(id, n) + Turns(id, 1), counts), id, key, purpose, token)
  {
    ReadsAll(s, id, key, purpose, token, 0, n, counts);
    var r := GoOn(s, id, n, counts);
    TurnsGoOn(s, id, n, counts);
    EndsRead(r, id, key, purpose, token, n, counts);
    TurnsGoOn(r, id, 1, counts);
    assert GoOn(r, id, 1, counts) == Go(r, id, counts);
    RunAppends(s, Turns(id, n), Turns(id, 1), counts);
    HasReadFrom(s, r, Run(r, Turns(id, 1), counts), id, key, purpose, token);
  }

  lemma ReadAlone(s: State, id: nat, key: bytes, purpose: Purpose, token: Token, counts: bool)
    returns (turns: seq<Action>)
    requires Inv(s) && id in s.threads && s.threads[id] == WantMeta(key, purpose) && IsThere(s, key, token)
    ensures HasRead(s, Run(s, turns, counts), id, key, purpose, token)
  {
    var n := s.items[Meta(key)].meta.numChunks;
    FindsRecord(s, id, key, purpose, token, counts);
    var s1 := Go(s, id, counts);
    ReadsToTheEnd(s1, id, key, purpose, token, n, counts);
    turns := Turns(id, 1) + (Turns(id, n) + Turns(id, 1));
    TurnsGoOn(s, id, 1, counts);
    assert GoOn(s, id, 1, counts) == s1;
    RunAppends(s, Turns(id, 1), Turns(id, n) + Turns(id, 1), counts);
    HasReadFrom(s, s1, Run(s, turns, counts), id, key, purpose, token);
  }

  /** A get of what is there serves it. */
  lemma GetAlone(s: State, g: nat, key: bytes, token: Token, counts: bool) returns (actions: seq<Action>)
    requires Inv(s) && KeyFits(key) && g !in s.threads && IsThere(s, key, token)
    ensures token < |s.history|
    ensures var r, v := Run(s, actions, counts), s.history[token];
      g in r.threads && r.threads[g] == Done(Served(key, v.data, v.flags, token, true))
  {
    var want := Begin(g, ReadRequest(key, ForGet));
    var s1 := Next(s, want, counts);
    var read := ReadAlone(s1, g, key, ForGet, token, counts);
    actions := [want] + read;
    RunAppends(s, [want], read, counts);
    assert Run(s, [want], counts) == s1;
  }

  lemma BeginsToRead(s: State, id: nat, key: bytes, purpose: Purpose, counts: bool)
    requires Inv(s) && KeyFits(key) && id !in s.threads
    ensures var begin := Begin(id, ReadRequest(key, purpose));
      && Run(s, [begin], counts) == Next(s, begin, counts)
      && Next(s, begin, counts) == s.(threads := s.threads[id := WantMeta(key, purpose)])
  {
    assert [Begin(id, ReadRequest(key, purpose))][1..] == [];
  }

  lemma BeginsToStore(s: State, id: nat, kind: SetKind, key: bytes, data: bytes, flags: uint32, counts: bool)
    requires Inv(s) && KeyFits(key) && id !in s.threads
    ensures var begin := Begin(id, SetRequest(kind, key, data, flags));
      && Run(s, [begin], counts) == Next(s, begin, counts)
      && Next(s, begin, counts) == State(s.items, s.history + [Version(key, data, flags, Client, true)],
                                         s.threads[id := SendMeta(|s.history|, kind)])
  {
    assert [Begin(id, SetRequest(kind, key, data, flags))][1..] == [];
  }

  /** The operation is done, and has made one new store, the whole of which lies in the backend. */
  ghost predicate HasAdded(s: State, r: State, id: nat, v: Version) {
    && r.history == s.history + [v] && r.threads == s.threads[id := Done(NoValue)] && IsThere(r, v.key, |s.history|)
  }

  /** A set is always accepted, an add where there is no record, a replace where there is one. */
  predicate Accepted(s: State, kind: SetKind, key: bytes) {
    match kind case KindSet => true case KindAdd => Meta(key) !in s.items case KindReplace => Meta(key) in s.items
  }

  /** From the point where the new store has its token. */
  lemma StoresNew(s: State, s1: State, id: nat, kind: SetKind, v: Version, counts: bool) returns (turns: seq<Action>)
    requires Inv(s1) && s1.history == s.history + [v] && s1.threads == s.threads[id := SendMeta(|s.history|, kind)]
    requires Accepted(s1, kind, v.key)
    ensures HasAdded(s, Run(s1, turns, counts), id, v)
  {
    assert s1.history[|s.history|] == v && s1.threads[id] == SendMeta(|s.history|, kind);
    turns := StoreAlone(s1, id, |s.history|, kind, counts);
  }

  lemma SetAlone(s: State, w: nat, kind: SetKind, key: bytes, data: bytes, flags: uint32, counts: bool)
    returns (actions: seq<Action>)
    requires Inv(s) && KeyFits(key) && w !in s.threads && Accepted(s, kind, key)
    ensures HasAdded(s, Run(s, actions, counts), w, Version(key, data, flags, Client, true))
  {
    var put := Begin(w, SetRequest(kind, key, data, flags));
    BeginsToStore(s, w, kind, key, data, flags, counts);
    var store := StoresNew(s, Next(s, put, counts), w, kind, Version(key, data, flags, Client, true), counts);
    actions := [put] + store;
    RunAppends(s, [put], store, counts);
  }

  lemma JoinsAndStores(s: State, w: nat, key: bytes, token: Token, atEnd: bool, added: bytes, counts: bool)
    returns (turns: seq<Action>)
    requires Inv(s) && w in s.threads && s.threads[w] == WantMeta(key, ForConcat(atEnd, added))
    requires IsThere(s, key, token) && token < |s.history| && s.history[token].key == key
    ensures HasAdded(s, Run(s, turns, counts), w, Lengthened(s.history[token], token, atEnd, added))
  {
    var get := ReadAlone(s, w, key, ForConcat(atEnd, added), token, counts);
    var s1 := Run(s, get, counts);
    var store := StoresNew(s, s1, w, KindSet, Lengthened(s.history[token], token, atEnd, added), counts);
    turns := get + store;
    RunAppends(s, get, store, counts);
  }

  lemma HasAddedFrom(s: State, s1: State, r: State, id: nat, t: Thread, v: Version)
    requires HasAdded(s1, r, id, v) && s1 == s.(threads := s.threads[id := t])
    ensures HasAdded(s, r, id, v)
  {
  }

  /** The record there is one of the history. */
  lemma IsOfHistory(s: State, key: bytes, token: Token)
    requires Inv(s) && IsThere(s, key, token)
    ensures token < |s.history| && s.history[token].key == key
  {
    assert ItemInv(s.history, Meta(key), s.items[Meta(key)]);
  }

  lemma ConcatAlone(s: State, w: nat, key: bytes, token: Token, atEnd: bool, added: bytes, counts: bool)
    returns (actions: seq<Action>)
    requires Inv(s) && KeyFits(key) && w !in s.threads && IsThere(s, key, token)
    ensures token < |s.history|
    ensures HasAdded(s, Run(s, actions, counts), w, Lengthened(s.history[token], token, atEnd, added))
  {
    var want := WantMeta(key, ForConcat(atEnd, added));
    var join := Begin(w, ReadRequest(key, ForConcat(atEnd, added)));
    BeginsToRead(s, w, key, ForConcat(atEnd, added), counts);
    IsOfHistory(s, key, token);
    var s1 := Next(s, join, counts);
    var turns := JoinsAndStores(s1, w, key, token, atEnd, added, counts);
    actions := [join] + turns;
    RunAppends(s, [join], turns, counts);
    HasAddedFrom(s, s1, Run(s1, turns, counts), w, want, Lengthened(s.history[token], token, atEnd, added));
  }

  /** A store that is accepted and that nobody disturbs, and a get after it: the get serves exactly what was stored. */
  lemma SetThenGet(s: State, w: nat, g: nat, kind: SetKind, key: bytes, data: bytes, flags: uint32, counts: bool)
    returns (actions: seq<Action>)
    requires Inv(s) && KeyFits(key) && w != g && w !in s.threads && g !in s.threads && Accepted(s, kind, key)
    ensures var r := Run(s, actions, counts);
      g in r.threads && r.threads[g] == Done(Served(key, data, flags, |s.history|, true))
  {
    var put := SetAlone(s, w, kind, key, data, flags, counts);
    var get := GetAlone(Run(s, put, counts), g, key, |s.history|, counts);
    actions := put + get;
    RunAppends(s, put, get, counts);
  }

  /** An append or prepend that nobody disturbs, to a value that is there, and a get after it. */
  lemma ConcatThenGet(s: State, w: nat, g: nat, key: bytes, token: Token, atEnd: bool, added: bytes, counts: bool)
    returns (actions: seq<Action>)
    requires Inv(s) && KeyFits(key) && w != g && w !in s.threads && g !in s.threads && IsThere(s, key, token)
    ensures token < |s.history|
    ensures var r, v := Run(s, actions, counts), s.history[token];
      && g in r.threads
      && r.threads[g] == Done(Served(key, if atEnd then v.data + added else added + v.data, v.flags, |s.history|, true))
  {
    var join := ConcatAlone(s, w, key, token, atEnd, added, counts);
    var get := GetAlone(Run(s, join, counts), g, key, |s.history|, counts);
    actions := join + get;
    RunAppends(s, join, get, counts);
  }

  /** A new operation and its first command. */
  function Opens(s: State, id: nat, request: Request, counts: bool): State
    requires Inv(s)
  {
    Run(s, [Begin(id, request)] + Turns(id, 1), counts)
  }

  lemma OpensWith(s: State, id: nat, request: Request, counts: bool)
    requires Inv(s)
    ensures Run(s, [Begin(id, request)], counts) == Next(s, Begin(id, request), counts)
    ensures Opens(s, id, request, counts) == Go(Next(s, Begin(id, request), counts), id, counts)
  {
    var begin := Begin(id, request);
    RunAppends(s, [begin], Turns(id, 1), counts);
    assert [begin][1..] == [];
    TurnsGoOn(Next(s, begin, counts), id, 1, counts);
    assert GoOn(Next(s, begin, counts), id, 1, counts) == Go(Next(s, begin, counts), id, counts);
  }

  /** A new operation, its first command, and so many more. */
  function Opening(id: nat, request: Request, n: nat): seq<Action> {
    ([Begin(id, request)] + Turns(id, 1)) + Turns(id, n)
  }

  lemma OpeningGoesOn(s: State, id: nat, request: Request, n: nat, counts: bool)
    requires Inv(s)
    ensures Run(s, Opening(id, request, n), counts) == GoOn(Opens(s, id, request, counts), id, n, counts)
  {
    RunAppends(s, [Begin(id, request)] + Turns(id, 1), Turns(id, n), counts);
    TurnsGoOn(Opens(s, id, request, counts), id, n, counts);
  }

  /** The first command of this operation looks for a record, and would not make one. */
  ghost predicate LooksFor(s: State, t: Thread, key: bytes) {
    match t
    case WantMeta(k, _) => k == key
    case TouchWantMeta(k) => k == key
    case DeleteWantMeta(k) => k == key
    case SendMeta(token, kind) => token < |s.history| && s.history[token].key == key && kind.KindReplace?
    case _ => false
  }

  lemma FindsNothing(s: State, id: nat, key: bytes, counts: bool)
    requires Inv(s) && id in s.threads && LooksFor(s, s.threads[id], key) && Meta(key) !in s.items
    ensures Go(s, id, counts) == s.(threads := s.threads[id := Done(NoValue)])
  {
  }

  /** An operation that finds no record, unless it is a set or an add, ends there, and no item has changed. */
  lemma NothingToFind(s: State, id: nat, request: Request, counts: bool)
    requires Inv(s) && KeyFits(request.key) && id !in s.threads && Meta(request.key) !in s.items
    requires request.SetRequest? ==> request.kind.KindReplace?
    ensures var r := Opens(s, id, request, counts);
      r.items == s.items && r.threads == s.threads[id := Done(NoValue)]
  {
    OpensWith(s, id, request, counts);
    FindsNothing(Next(s, Begin(id, request), counts), id, request.key, counts);
  }

  /** And so does an add that finds one. */
  lemma AddRefused(s: State, id: nat, key: bytes, data: bytes, flags: uint32, counts: bool)
    requires Inv(s) && KeyFits(key) && id !in s.threads && Meta(key) in s.items
    ensures var r := Opens(s, id, SetRequest(KindAdd, key, data, flags), counts);
      r.items == s.items && r.threads == s.threads[id := Done(NoValue)]
  {
    OpensWith(s, id, SetRequest(KindAdd, key, data, flags), counts);
  }

  /** The operation has deleted the record and the first n chunks. */
  ghost predicate DeletedSoFar(s: State, id: nat, key: bytes, count: nat, n: nat) {
    && id in s.threads && s.threads[id] == DeleteChunk(key, count, n) && n <= count && Meta(key) !in s.items
    && forall i: nat :: i < n ==> Chunk(key, i) !in s.items
  }

  /** The operation is done, and the record and the first n chunks are gone. */
  ghost predicate HasDeleted(s: State, r: State, id: nat, key: bytes, n: nat) {
    && r.history == s.history && r.threads == s.threads[id := Done(NoValue)] && Meta(key) !in r.items
    && forall i: nat :: i < n ==> Chunk(key, i) !in r.items
  }

  lemma DeletesNext(s: State, id: nat, key: bytes, count: nat, n: nat, counts: bool)
    requires Inv(s) && DeletedSoFar(s, id, key, count, n)
    ensures var r := Go(s, id, counts);
      if n < count then
        && DeletedSoFar(r, id, key, count, n + 1) && r.history == s.history
        && r.threads == s.threads[id := DeleteChunk(key, count, n + 1)]
      else HasDeleted(s, r, id, key, count)
  {
  }

  lemma HasDeletedFrom(s: State, s1: State, r: State, id: nat, t: Thread, key: bytes, n: nat)
    requires HasDeleted(s1, r, id, key, n) && s1.history == s.history && s1.threads == s.threads[id := t]
    ensures HasDeleted(s, r, id, key, n)
  {
  }

  lemma {:induction false} DeletesAll(s: State, id: nat, key: bytes, count: nat, n: nat, m: nat, counts: bool)
    requires Inv(s) && DeletedSoFar(s, id, key, count, n) && n + m == count
    ensures HasDeleted(s, GoOn(s, id, m + 1, counts), id, key, count)
    decreases m
  {
    DeletesNext(s, id, key, count, n, counts);
    if m > 0 {
      var s1 := Go(s, id, counts);
      DeletesAll(s1, id, key, count, n + 1, m - 1, counts);
      HasDeletedFrom(s, s1, GoOn(s1, id, m, counts), id, DeleteChunk(key, count, n + 1), key, count);
    }
  }

  lemma DeleteStarts(s: State, id: nat, key: bytes, counts: bool)
    requires Inv(s) && KeyFits(key) && id !in s.threads && HasMeta(s, key)
    ensures Opens(s, id, DeleteRequest(key), counts)
         == s.(threads := s.threads[id := DeleteMeta(key, s.items[Meta(key)].meta.numChunks)])
  {
    OpensWith(s, id, DeleteRequest(key), counts);
  }

  /** A record that goes between the two commands of a delete leaves the delete nothing to do. */
  lemma DeleteFindsItGone(s: State, id: nat, key: bytes, count: nat, counts: bool)
    requires Inv(s) && id in s.threads && s.threads[id] == DeleteMeta(key, count) && Meta(key) !in s.items
    ensures Go(s, id, counts).items == s.items && Go(s, id, counts).threads == s.threads[id := Done(NoValue)]
  {
  }

  predicate HasMeta(s: State, key: bytes) {
    Meta(key) in s.items && s.items[Meta(key)].MetaBody?
  }

  lemma DeletesRecord(s: State, id: nat, key: bytes, count: nat, counts: bool)
    requires Inv(s) && id in s.threads && s.threads[id] == DeleteMeta(key, count) && HasMeta(s, key)
    ensures var r := Go(s, id, counts);
      && DeletedSoFar(r, id, key, count, 0) && r.history == s.history
      && r.threads == s.threads[id := DeleteChunk(key, count, 0)]
  {
  }

  lemma DeletesFromRecord(s: State, id: nat, key: bytes, count: nat, counts: bool)
    requires Inv(s) && id in s.threads && s.threads[id] == DeleteMeta(key, count) && HasMeta(s, key)
    ensures HasDeleted(s, GoOn(s, id, count + 2, counts), id, key, count)
  {
    DeletesRecord(s, id, key, count, counts);
    var s1 := Go(s, id, counts);
    DeletesAll(s1, id, key, count, 0, count, counts);
    HasDeletedFrom(s, s1, GoOn(s1, id, count + 1, counts), id, DeleteChunk(key, count, 0), key, count);
  }

  /** A delete that nobody disturbs takes away the record and as many chunks as that counts. */
  lemma DeleteAlone(s: State, id: nat, key: bytes, counts: bool) returns (actions: seq<Action>)
    requires Inv(s) && KeyFits(key) && id !in s.threads && HasMeta(s, key)
    ensures HasDeleted(s, Run(s, actions, counts), id, key, s.items[Meta(key)].meta.numChunks)
  {
    var count := s.items[Meta(key)].meta.numChunks;
    DeleteStarts(s, id, key, counts);
    var s1 := Opens(s, id, DeleteRequest(key), counts);
    DeletesFromRecord(s1, id, key, count, counts);
    actions := Opening(id, DeleteRequest(key), count + 2);
    OpeningGoesOn(s, id, DeleteRequest(key), count + 2, counts);
    HasDeletedFrom(s, s1, GoOn(s1, id, count + 2, counts), id, DeleteMeta(key, count), key, count);
  }

  ghost predicate AllThere(items: map<BackendKey, Body>, key: bytes, n: nat) {
    forall i: nat :: i < n ==> Chunk(key, i) in items
  }

  /** The operation has touched the first n chunks, and knows whether they were all there. */
  ghost predicate TouchedSoFar(s: State, id: nat, key: bytes, meta: Metadata<Token>, n: nat) {
    && id in s.threads && n <= meta.numChunks
    && s.threads[id] == TouchChunk(key, meta, n, !AllThere(s.items, key, n))
  }

  lemma TouchesNext(s: State, id: nat, key: bytes, meta: Metadata<Token>, n: nat, counts: bool)
    requires Inv(s) && TouchedSoFar(s, id, key, meta, n) && n < meta.numChunks
    ensures TouchedSoFar(Go(s, id, counts), id, key, meta, n + 1) && OnlyReads(s, Go(s, id, counts), id)
  {
    assert AllThere(s.items, key, n + 1) <==> AllThere(s.items, key, n) && Chunk(key, n) in s.items;
  }

  /** The operation is done. If all the chunks were there it has written the record back with a new expiry, and
      otherwise nothing. */
  ghost predicate HasTouched(s: State, r: State, id: nat, key: bytes, meta: Metadata<Token>) {
    && r.history == s.history && r.threads == s.threads[id := Done(NoValue)]
    && r.items == if AllThere(s.items, key, meta.numChunks) then s.items[Meta(key) := MetaBody(meta.(exptime := 0))]
                  else s.items
  }

  lemma TouchesEnd(s: State, id: nat, key: bytes, meta: Metadata<Token>, n: nat, counts: bool)
    requires Inv(s) && TouchedSoFar(s, id, key, meta, n) && n == meta.numChunks
    ensures HasTouched(s, Go(s, id, counts), id, key, meta)
  {
  }

  lemma HasTouchedAfter(s: State, s1: State, r: State, id: nat, key: bytes, meta: Metadata<Token>)
    requires HasTouched(s1, r, id, key, meta) && OnlyReads(s, s1, id)
    ensures HasTouched(s, r, id, key, meta)
  {
  }

  lemma {:induction false} TouchesAll(s: State, id: nat, key: bytes, meta: Metadata<Token>, n: nat, m: nat,
                                      counts: bool)
    requires Inv(s) && TouchedSoFar(s, id, key, meta, n) && n + m == meta.numChunks
    ensures HasTouched(s, GoOn(s, id, m + 1, counts), id, key, meta)
    decreases m
  {
    if m > 0 {
      TouchesNext(s, id, key, meta, n, counts);
      var s1 := Go(s, id, counts);
      TouchesAll(s1, id, key, meta, n + 1, m - 1, counts);
      HasTouchedAfter(s, s1, GoOn(s1, id, m, counts), id, key, meta);
    } else {
      TouchesEnd(s, id, key, meta, n, counts);
    }
  }

  lemma TouchStarts(s: State, id: nat, key: bytes, counts: bool)
    requires Inv(s) && KeyFits(key) && id !in s.threads && HasMeta(s, key)
    ensures var s1 := Opens(s, id, TouchRequest(key), counts);
      TouchedSoFar(s1, id, key, s.items[Meta(key)].meta, 0) && OnlyReads(s, s1, id)
  {
    OpensWith(s, id, TouchRequest(key), counts);
    assert AllThere(s.items, key, 0);
  }

  /** A touch that nobody disturbs gives the record its new expiry, exactly if every chunk is there; it leaves
      everything else where it is. */
  lemma TouchAlone(s: State, id: nat, key: bytes, counts: bool) returns (actions: seq<Action>)
    requires Inv(s) && KeyFits(key) && id !in s.threads && HasMeta(s, key)
    ensures HasTouched(s, Run(s, actions, counts), id, key, s.items[Meta(key)].meta)
  {
    var meta := s.items[Meta(key)].meta;
    TouchStarts(s, id, key, counts);
    var s1 := Opens(s, id, TouchRequest(key), counts);
    TouchesAll(s1, id, key, meta, 0, meta.numChunks, counts);
    actions := Opening(id, TouchRequest(key), meta.numChunks + 1);
    OpeningGoesOn(s, id, TouchRequest(key), meta.numChunks + 1, counts);
    HasTouchedAfter(s, s1, GoOn(s1, id, meta.numChunks + 1, counts), id, key, meta);
  }

  /** A read that meets an error goes on to its end, and then has no value, whatever else it reads. */
  lemma ErrorEndsRead(s: State, id: nat, absence: Absence, exptime: uint32, counts: bool)
    requires Inv(s) && id in s.threads && s.threads[id].Reading?
    requires var t := s.threads[id]; t.loop.lastErr.Some? || (absence.Errs? && t.next < t.meta.numChunks)
    ensures var t, r := s.threads[id], Next(s, Advance(id, absence, exptime), counts);
      && id in r.threads && r.items == s.items && r.history == s.history
      && if t.next == t.meta.numChunks then r.threads[id] == Done(NoValue)
         else r.threads[id].Reading? && r.threads[id].next == t.next + 1 && r.threads[id].loop.lastErr.Some?
  {
    assert ThreadInv(s.history, s.threads[id]);
  }

  /** To a touch an error does not count as a missing chunk. */
  lemma TouchGoesOn(s: State, id: nat, e: Error, exptime: uint32, counts: bool)
    requires Inv(s) && id in s.threads && s.threads[id].TouchChunk?
    requires s.threads[id].next < s.threads[id].meta.numChunks
    ensures var t, r := s.threads[id], Next(s, Advance(id, Errs(e), exptime), counts);
      id in r.threads && r.threads[id] == TouchChunk(t.key, t.meta, t.next + 1, t.miss) && r.items == s.items
  {
  }

  /** This operation is about this key. */
  ghost predicate About(s: State, t: Thread, key: bytes) {
    match t
    case SendMeta(token, _) => token < |s.history| && s.history[token].key == key
    case SendChunk(token, _) => token < |s.history| && s.history[token].key == key
    case WantMeta(k, _) => k == key
    case Reading(k, _, _, _, _) => k == key
    case TouchWantMeta(k) => k == key
    case TouchChunk(k, _, _, _) => k == key
    case DeleteWantMeta(k) => k == key
    case DeleteMeta(k, _) => k == key
    case DeleteChunk(k, _, _) => k == key
    case Done(_) => false
  }

  /** An operation that is not about this item's key has left it as it was, and the other operation where it was. */
  ghost predicate OthersStay(s: State, r: State, id: nat, k: BackendKey, other: nat)
    requires id in s.threads
  {
    && (!About(s, s.threads[id], k.key) ==>
          (k in r.items <==> k in s.items) && (k in s.items ==> r.items[k] == s.items[k]))
    && (other != id ==>
          (other in r.threads <==> other in s.threads) && (other in s.threads ==> r.threads[other] == s.threads[other]))
  }

  lemma StoreKeepsOthers(s: State, id: nat, k: BackendKey, other: nat)
    requires Inv(s) && id in s.threads && (s.threads[id].SendMeta? || s.threads[id].SendChunk?)
    ensures OthersStay(s, StoreStep(s, id), id, k, other)
  {
    assert ThreadInv(s.history, s.threads[id]);
  }

  lemma ReadKeepsOthers(s: State, id: nat, absence: Absence, counts: bool, k: BackendKey, other: nat)
    requires Inv(s) && id in s.threads && (s.threads[id].WantMeta? || s.threads[id].Reading?)
    ensures OthersStay(s, ReadStep(s, id, absence, counts), id, k, other)
  {
  }

  /** At its last command a touch that has missed nothing writes the expiry it was asked for. */
  lemma TouchKeepsOthers(s: State, id: nat, absence: Absence, exptime: uint32, k: BackendKey, other: nat)
    requires Inv(s) && id in s.threads && (s.threads[id].TouchWantMeta? || s.threads[id].TouchChunk?)
    ensures OthersStay(s, TouchStep(s, id, absence, exptime), id, k, other)
    ensures var t := s.threads[id];
      t.TouchChunk? && t.next >= t.meta.numChunks && !t.miss ==>
        && Meta(t.key) in TouchStep(s, id, absence, exptime).items
        && TouchStep(s, id, absence, exptime).items[Meta(t.key)] == MetaBody(t.meta.(exptime := exptime))
  {
  }

  lemma DeleteKeepsOthers(s: State, id: nat, k: BackendKey, other: nat)
    requires Inv(s) && id in s.threads
    requires s.threads[id].DeleteWantMeta? || s.threads[id].DeleteMeta? || s.threads[id].DeleteChunk?
    ensures OthersStay(s, DeleteStep(s, id), id, k, other)
  {
  }

  /** Every command of an operation leaves the items of other keys as they are, and other operations where they are. */
  lemma StepKeepsOthers(s: State, id: nat, absence: Absence, exptime: uint32, counts: bool, k: BackendKey, other: nat)
    requires Inv(s) && id in s.threads
    ensures OthersStay(s, Next(s, Advance(id, absence, exptime), counts), id, k, other)
  {
    match s.threads[id]
    case Done(_) =>
    case SendMeta(_, _) => StoreKeepsOthers(s, id, k, other);
    case SendChunk(_, _) => StoreKeepsOthers(s, id, k, other);
    case WantMeta(_, _) => ReadKeepsOthers(s, id, absence, counts, k, other);
    case Reading(_, _, _, _, _) => ReadKeepsOthers(s, id, absence, counts, k, other);
    case TouchWantMeta(_) => TouchKeepsOthers(s, id, absence, exptime, k, other);
    case TouchChunk(_, _, _, _) => TouchKeepsOthers(s, id, absence, exptime, k, other);
    case _ => DeleteKeepsOthers(s, id, k, other);
  }

  // ----- A run that goes wrong -----

  /** A set of one byte, the loss of its only chunk, and a get. */
  function LostChunk(key: bytes): seq<Action> {
    var go := Advance(0, Silence, 0);
    var read := Advance(1, Silence, 0);
    [Begin(0, SetRequest(KindSet, key, [1], 0)), go, go, Evict(Chunk(key, 0)),
     Begin(1, ReadRequest(key, ForGet)), read, read, read]
  }

  const LAST_OF_LOST_CHUNK := 8

  /** The states that run goes through. */
  function LostChunkState(key: bytes, i: nat): State
    requires KeyFits(key) && i <= LAST_OF_LOST_CHUNK
  {
    var v := Version(key, [1], 0, Client, true);
    var meta := Metadata(1, 0, 1, DataSize(key), 0, 0, 0);
    var items := map[Meta(key) := MetaBody(meta)];
    var sent := map[0 := SendChunk(0, 1)];
    if i == 0 then Initial()
    else if i == 1 then State(map[], [v], map[0 := SendMeta(0, KindSet)])
    else if i == 2 then State(items, [v], map[0 := SendChunk(0, 0)])
    else if i == 3 then State(items[Chunk(key, 0) := ChunkBody(0, Padded([1], DataSize(key), 0))], [v], sent)
    else if i == 4 then State(items, [v], sent)
    else if i == 5 then State(items, [v], sent[1 := WantMeta(key, ForGet)])
    else if i == 6 then State(items, [v], sent[1 := Reading(key, ForGet, meta, 0, Start(meta, 1))])
    else if i == 7 then State(items, [v], sent[1 := Reading(key, ForGet, meta, 1, Start(meta, 1))])
    else State(items, [v], sent[1 := Done(Served(key, [0], 0, 0, false))])
  }

  lemma LostChunkBegins(key: bytes, i: nat)
    requires KeyFits(key) && (i == 0 || i == 4) && Inv(LostChunkState(key, i))
    ensures Next(LostChunkState(key, i), LostChunk(key)[i], false) == LostChunkState(key, i + 1)
  {
  }

  lemma LostChunkStoresRecord(key: bytes)
    requires KeyFits(key) && Inv(LostChunkState(key, 1))
    ensures StoreStep(LostChunkState(key, 1), 0) == LostChunkState(key, 2)
  {
  }

  lemma LostChunkStoresChunk(key: bytes)
    requires KeyFits(key) && Inv(LostChunkState(key, 2))
    ensures StoreStep(LostChunkState(key, 2), 0) == LostChunkState(key, 3)
  {
  }

  lemma RemoveAdded<K, V>(m: map<K, V>, k: K, v: V)
    requires k !in m
    ensures m[k := v] - {k} == m
  {
  }

  lemma LostChunkIsLost(key: bytes)
    requires KeyFits(key) && Inv(LostChunkState(key, 3))
    ensures Next(LostChunkState(key, 3), LostChunk(key)[3], false) == LostChunkState(key, 4)
  {
    var s := LostChunkState(key, 4);
    RemoveAdded(s.items, Chunk(key, 0), ChunkBody(0, Padded([1], DataSize(key), 0)));
  }

  lemma LostChunkFindsRecord(key: bytes)
    requires KeyFits(key) && Inv(LostChunkState(key, 5))
    ensures ReadStep(LostChunkState(key, 5), 1, Silence, false) == LostChunkState(key, 6)
  {
  }

  lemma LostChunkMisses(key: bytes)
    requires KeyFits(key) && Inv(LostChunkState(key, 6))
    ensures ReadStep(LostChunkState(key, 6), 1, Silence, false) == LostChunkState(key, 7)
  {
  }

  lemma LostChunkServes(key: bytes)
    requires KeyFits(key) && Inv(LostChunkState(key, 7))
    ensures ReadStep(LostChunkState(key, 7), 1, Silence, false) == LostChunkState(key, 8)
  {
    assert Zeros(1) == [0];
  }

  lemma LostChunkReads(key: bytes, i: nat)
    requires KeyFits(key) && 5 <= i < LAST_OF_LOST_CHUNK && Inv(LostChunkState(key, i))
    ensures Next(LostChunkState(key, i), LostChunk(key)[i], false) == LostChunkState(key, i + 1)
  {
    if i == 5 { LostChunkFindsRecord(key); } else if i == 6 { LostChunkMisses(key); } else { LostChunkServes(key); }
  }

  lemma LostChunkStep(key: bytes, i: nat)
    requires KeyFits(key) && i < LAST_OF_LOST_CHUNK && Inv(LostChunkState(key, i))
    ensures Next(LostChunkState(key, i), LostChunk(key)[i], false) == LostChunkState(key, i + 1)
  {
    if i == 0 || i == 4 { LostChunkBegins(key, i); }
    else if i == 1 { LostChunkStoresRecord(key); }
    else if i == 2 { LostChunkStoresChunk(key); }
    else if i == 3 { LostChunkIsLost(key); }
    else { LostChunkReads(key, i); }
  }

  lemma {:induction false} LostChunkRun(key: bytes, i: nat)
    requires KeyFits(key) && i <= LAST_OF_LOST_CHUNK && Inv(LostChunkState(key, i))
    ensures Run(LostChunkState(key, i), LostChunk(key)[i..], false) == LostChunkState(key, LAST_OF_LOST_CHUNK)
    decreases LAST_OF_LOST_CHUNK - i
  {
    if i < LAST_OF_LOST_CHUNK {
      LostChunkStep(key, i);
      assert LostChunk(key)[i..][1..] == LostChunk(key)[i + 1..];
      LostChunkRun(key, i + 1);
    }
  }

  /** Without answers for missing chunks, the code serves a zero byte that nobody stored. */
  lemma SilenceServesWhatWasNeverStored(key: bytes)
    requires KeyFits(key)
    ensures var s := Run(Initial(), LostChunk(key), false);
      && 1 in s.threads && s.threads[1] == Done(Served(key, [0], 0, 0, false))
      && s.history == [Version(key, [1], 0, Client, true)]
  {
    LostChunkRun(key, 0);
    assert LostChunk(key)[0..] == LostChunk(key);
  }

  // ----- When every hit is one version -----

  /** If this operation has served a value, it is the content and flags of one store under its key. */
  ghost predicate ServesOneVersion(s: State, id: nat) {
    id in s.threads && s.threads[id].Done? && s.threads[id].result.Served? ==>
      var hit := s.threads[id].result;
      && hit.token < |s.history|
      && hit.key == s.history[hit.token].key && hit.flags == s.history[hit.token].flags
      && hit.data == Content(s.history, hit.token)
  }

  /** Chunks that are not there are answered in one of these ways only. */
  ghost predicate AbsencesIn(actions: seq<Action>, allowed: iset<Absence>) {
    forall i :: 0 <= i < |actions| && actions[i].Advance? ==> actions[i].absence in allowed
  }

  ghost predicate AlwaysOneVersion(allowed: iset<Absence>, counts: bool) {
    forall actions: seq<Action>, id: nat :: AbsencesIn(actions, allowed) ==>
      ServesOneVersion(Run(Initial(), actions, counts), id)
  }

  lemma ZeroForOne(s: State, key: bytes)
    requires s.history == [Version(key, [1], 0, Client, true)]
    requires 1 in s.threads && s.threads[1] == Done(Served(key, [0], 0, 0, false))
    ensures !ServesOneVersion(s, 1)
  {
    assert Content(s.history, 0) == [1];
  }

  lemma LostChunkIsSilent(key: bytes, allowed: iset<Absence>)
    requires Silence in allowed
    ensures AbsencesIn(LostChunk(key), allowed)
  {
  }

  lemma SilentRunBreaks(key: bytes, allowed: iset<Absence>)
    requires KeyFits(key) && Silence in allowed
    ensures !AlwaysOneVersion(allowed, false)
  {
    LostChunkIsSilent(key, allowed);
    SilenceServesWhatWasNeverStored(key);
    ZeroForOne(Run(Initial(), LostChunk(key), false), key);
  }

  /** Every hit of every run is one version if and only if no get for a chunk can go without an answer, or the chunks
      are counted. */
  lemma OneVersionIffAnswered(allowed: iset<Absence>, counts: bool)
    ensures AlwaysOneVersion(allowed, counts) <==> Silence !in allowed || counts
  {
    if Silence !in allowed || counts {
      forall actions: seq<Action>, id: nat | AbsencesIn(actions, allowed)
        ensures ServesOneVersion(Run(Initial(), actions, counts), id)
      {
        var s := Run(Initial(), actions, counts);
        if id in s.threads && s.threads[id].Done? && s.threads[id].result.Served? {
          HitIsOneVersion(actions, counts, id);
        }
      }
    } else {
      SilentRunBreaks([], allowed);
    }
  }
}
