/** The chunked handler on a backend that nothing else touches: it behaves as a store of whole values. */
module ChunkedHandler {
  import opened Bytes
  import opened Chunking
  import opened ChunkReads
  import opened Keys
  import opened Memcached
  import opened PlainStore

  const CHUNK_MAX_SIZE := 1184
  const CHUNK_OVERHEAD := 71

  /** Tokens are random and taken to be distinct: the number of the store that drew it stands for a token. */
  type Token = nat

  /** Keys short enough for a chunk to have room. (memcached itself stops at 250 bytes.) */
  predicate KeyFits(key: bytes) {
    |key| < CHUNK_MAX_SIZE - CHUNK_OVERHEAD - TOKEN_SIZE
  }

  /** chunkSize: the room for data in one chunk of this key. */
  function DataSize(key: bytes): (n: nat)
    requires KeyFits(key)
    ensures n > 0
  {
    CHUNK_MAX_SIZE - CHUNK_OVERHEAD - |key| - TOKEN_SIZE
  }

  /** The parts of an item of 1184 bytes: overhead, key, token and data. */
  lemma PartsOfItem(key: bytes)
    ensures KeyFits(key) <==> |key| < 1097
    ensures KeyFits(key) ==> 71 + |key| + 16 + DataSize(key) == 1184
  {
  }

  datatype Body = MetaBody(meta: Metadata<Token>) | ChunkBody(token: Token, chunk: bytes)

  datatype Item = Item(flags: uint32, expiry: nat, body: Body)

  /** The item is there and has not run out. */
  predicate Shows(items: map<BackendKey, Item>, k: BackendKey, now: nat) {
    k in items && Lives(items[k].expiry, now)
  }

  predicate Lives(expiry: nat, now: nat) {
    expiry == 0 || now < expiry
  }

  /** A memcached server: each method is one of its commands. An item that has run out lies there unseen until
      something takes its place. */
  class Backend {
    var items: map<BackendKey, Item>
    var now: uint32

    constructor (now: uint32)
      ensures items == map[] && this.now == now
    {
      items := map[];
      this.now := now;
    }

    method Store(kind: SetKind, k: BackendKey, flags: uint32, ttl: uint32, body: Body) returns (err: Option<Error>)
      modifies this`items
      ensures err == match kind
                     case KindSet => None
                     case KindAdd => if Shows(old(items), k, now) then Some(ErrKeyExists) else None
                     case KindReplace => if Shows(old(items), k, now) then None else Some(ErrKeyNotFound)
      ensures items == if err.Some? then old(items) else old(items)[k := Item(flags, Deadline(ttl, now), body)]
    {
      if kind.KindAdd? && Shows(items, k, now) { return Some(ErrKeyExists); }
      if kind.KindReplace? && !Shows(items, k, now) { return Some(ErrKeyNotFound); }
      items := items[k := Item(flags, Deadline(ttl, now), body)];
      err := None;
    }

    method Get(k: BackendKey) returns (item: Option<Item>)
      ensures item == if Shows(items, k, now) then Some(items[k]) else None
    {
      item := if Shows(items, k, now) then Some(items[k]) else None;
    }

    method Touch(k: BackendKey, ttl: uint32) returns (item: Option<Item>)
      modifies this`items
      ensures item == if Shows(old(items), k, now) then Some(old(items)[k]) else None
      ensures items == if item.Some? then old(items)[k := old(items)[k].(expiry := Deadline(ttl, now))] else old(items)
    {
      item := None;
      if Shows(items, k, now) {
        item := Some(items[k]);
        items := items[k := items[k].(expiry := Deadline(ttl, now))];
      }
    }

    method Delete(k: BackendKey) returns (hit: bool)
      modifies this`items
      ensures hit <==> Shows(old(items), k, now)
      ensures items == if hit then old(items) - {k} else old(items)
    {
      hit := Shows(items, k, now);
      if hit {
        items := items - {k};
      }
    }
  }

  /** The chunks of a value, from the first to the n-th, lie in the backend with this expiry. */
  ghost predicate ChunksThere(items: map<BackendKey, Item>, key: bytes, token: Token, data: bytes, expiry: nat, n: nat)
    requires KeyFits(key) && n <= ChunkCount(|data|, DataSize(key))
  {
    forall i :: 0 <= i < n ==>
      && Chunk(key, i) in items && items[Chunk(key, i)].expiry == expiry
      && SliceStart(DataSize(key), i) <= |data|
      && items[Chunk(key, i)].body == ChunkBody(token, Padded(data, DataSize(key), i))
  }

  /** The backend holds this value under this key: a metadata record and its chunks. Chunks of an older and
      longer value may lie beside them. */
  ghost predicate Holds(items: map<BackendKey, Item>, key: bytes, s: Stored) {
    && KeyFits(key) && Meta(key) in items && items[Meta(key)].expiry == s.expiry
    && items[Meta(key)].body.MetaBody?
    && var m := items[Meta(key)].body.meta;
    && m.length == |s.data| && m.origFlags == s.flags && m.exptime == s.recorded
    && m.chunkSize == DataSize(key) && m.numChunks == ChunkCount(|s.data|, DataSize(key))
    && ChunksThere(items, key, m.token, s.data, s.expiry, m.numChunks)
  }

  /** Only this key's items differ. */
  ghost predicate OthersKept(a: map<BackendKey, Item>, b: map<BackendKey, Item>, key: bytes) {
    forall k: BackendKey :: k.key != key ==> (k in a <==> k in b) && (k in a ==> a[k] == b[k])
  }

  /** No metadata record differs. */
  ghost predicate MetaKept(a: map<BackendKey, Item>, b: map<BackendKey, Item>) {
    forall key: bytes :: (Meta(key) in a <==> Meta(key) in b) && (Meta(key) in a ==> a[Meta(key)] == b[Meta(key)])
  }

  lemma PutChunkKeeps(before: map<BackendKey, Item>, items: map<BackendKey, Item>, key: bytes, i: nat, item: Item)
    requires OthersKept(before, items, key) && MetaKept(before, items)
    ensures OthersKept(before, items[Chunk(key, i) := item], key) && MetaKept(before, items[Chunk(key, i) := item])
  {
  }

  /** One more chunk of the value is in the backend. */
  lemma ChunksThereStep(items: map<BackendKey, Item>, key: bytes, token: Token, data: bytes, i: nat, item: Item)
    requires KeyFits(key) && i < ChunkCount(|data|, DataSize(key))
    requires ChunksThere(items, key, token, data, item.expiry, i)
    requires SliceStart(DataSize(key), i) <= |data|
    requires item.body == ChunkBody(token, Padded(data, DataSize(key), i))
    ensures ChunksThere(items[Chunk(key, i) := item], key, token, data, item.expiry, i + 1)
  {
  }

  /** The first i of a value's n chunks have the new expiry and nothing else has changed. */
  ghost predicate Partway(before: map<BackendKey, Item>, items: map<BackendKey, Item>, key: bytes, token: Token,
                          data: bytes, expiry: nat, i: nat, n: nat)
    requires KeyFits(key) && i <= n <= ChunkCount(|data|, DataSize(key))
  {
    && ChunksThere(items, key, token, data, expiry, i)
    && (forall j :: i <= j < n ==>
          && Chunk(key, j) in items && Chunk(key, j) in before
          && items[Chunk(key, j)] == before[Chunk(key, j)])
    && OthersKept(before, items, key) && MetaKept(before, items)
  }

  /** The loop has put this many chunks of the value in their places. */
  ghost predicate HasRead(st: Loop<Token>, data: bytes, chunkSize: nat, i: nat) {
    st.chunk == i && !st.miss && st.lastErr.None? && Filled(st.buf, data, chunkSize, i)
  }

  lemma PartwayStep(before: map<BackendKey, Item>, items: map<BackendKey, Item>, key: bytes, token: Token,
                    data: bytes, expiry: nat, i: nat, n: nat)
    requires KeyFits(key) && i < n <= ChunkCount(|data|, DataSize(key))
    requires Partway(before, items, key, token, data, expiry, i, n)
    requires SliceStart(DataSize(key), i) <= |data|
    requires before[Chunk(key, i)].body == ChunkBody(token, Padded(data, DataSize(key), i))
    ensures var k := Chunk(key, i);
      && Partway(before, items[k := items[k].(expiry := expiry)], key, token, data, expiry, i + 1, n)
      && (items[k].expiry == expiry ==> items[k := items[k].(expiry := expiry)] == items)
  {
    var item := items[Chunk(key, i)].(expiry := expiry);
    ChunksThereStep(items, key, token, data, i, item);
    PutChunkKeeps(before, items, key, i, item);
  }

  /** The items represent the values that have not run out, and nothing else is reachable through a metadata
      record. */
  ghost predicate Represents(items: map<BackendKey, Item>, c: Contents, now: nat) {
    && (forall key: bytes :: Shows(items, Meta(key), now) <==> key in LiveOnly(c, now))
    && (forall key: bytes :: key in LiveOnly(c, now) ==> Holds(items, key, c[key]))
  }

  /** They go on doing so: a value and its record run out together. */
  lemma RepresentsLater(items: map<BackendKey, Item>, c: Contents, now: nat, later: nat)
    requires Represents(items, c, now) && now <= later
    ensures Represents(items, c, later)
  {
    forall key: bytes
      ensures Shows(items, Meta(key), later) <==> key in LiveOnly(c, later)
      ensures key in LiveOnly(c, later) ==> Holds(items, key, c[key])
    {
      assert Shows(items, Meta(key), now) <==> key in LiveOnly(c, now);
    }
  }

  lemma RepresentsLive(items: map<BackendKey, Item>, c: Contents, now: nat)
    requires Represents(items, c, now)
    ensures Represents(items, LiveOnly(c, now), now)
  {
    LiveIsLive(c, now);
  }

  lemma OthersStillHeld(a: map<BackendKey, Item>, b: map<BackendKey, Item>, c: Contents, key: bytes, now: nat,
                        other: bytes)
    requires Represents(a, c, now) && OthersKept(a, b, key) && other != key
    ensures Shows(b, Meta(other), now) <==> other in LiveOnly(c, now)
    ensures other in LiveOnly(c, now) ==> Holds(b, other, c[other])
  {
    assert Meta(other).key != key;
    assert forall i: nat :: Chunk(other, i).key != key;
    assert Shows(a, Meta(other), now) <==> other in LiveOnly(c, now);
    if other in LiveOnly(c, now) { assert Holds(a, other, c[other]); }
  }

  lemma RepresentsPut(a: map<BackendKey, Item>, b: map<BackendKey, Item>, c: Contents, key: bytes, s: Stored, now: nat)
    requires Represents(a, c, now) && OthersKept(a, b, key) && Holds(b, key, s)
    ensures Represents(b, c[key := s], now)
  {
    forall k: bytes
      ensures Shows(b, Meta(k), now) <==> k in LiveOnly(c[key := s], now)
      ensures k in LiveOnly(c[key := s], now) ==> Holds(b, k, c[key := s][k])
    {
      if k != key { OthersStillHeld(a, b, c, key, now, k); }
    }
  }

  lemma RepresentsRemoved(a: map<BackendKey, Item>, b: map<BackendKey, Item>, c: Contents, key: bytes, now: nat)
    requires Represents(a, c, now) && OthersKept(a, b, key) && !Shows(b, Meta(key), now)
    ensures Represents(b, c - {key}, now)
  {
    forall k: bytes
      ensures Shows(b, Meta(k), now) <==> k in LiveOnly(c - {key}, now)
      ensures k in LiveOnly(c - {key}, now) ==> Holds(b, k, (c - {key})[k])
    {
      if k != key { OthersStillHeld(a, b, c, key, now, k); }
    }
  }

  lemma ChunkIsThere(items: map<BackendKey, Item>, key: bytes, token: Token, data: bytes, expiry: nat, n: nat, i: nat)
    requires KeyFits(key) && i < n <= ChunkCount(|data|, DataSize(key))
    requires ChunksThere(items, key, token, data, expiry, n)
    ensures Chunk(key, i) in items && items[Chunk(key, i)].expiry == expiry && SliceStart(DataSize(key), i) <= |data|
    ensures items[Chunk(key, i)].body == ChunkBody(token, Padded(data, DataSize(key), i))
  {
  }

  class Handler {
    const backend: Backend
    ghost var contents: Contents
    var drawn: Token

    ghost predicate Valid()
      reads this, backend
    {
      Represents(backend.items, contents, backend.now)
    }

    constructor (backend: Backend)
      requires backend.items == map[]
      ensures Valid() && this.backend == backend && contents == map[]
    {
      this.backend := backend;
      contents := map[];
      drawn := 0;
    }

    /** What has run out is forgotten. */
    ghost method Settle()
      requires Valid()
      modifies this`contents
      ensures Valid() && contents == LiveOnly(old(contents), backend.now) && LiveOnly(contents, backend.now) == contents
    {
      RepresentsLive(backend.items, contents, backend.now);
      LiveIsLive(contents, backend.now);
      contents := LiveOnly(contents, backend.now);
    }

    /** handleSetCommon: metadata first, under the command that was asked for, then every chunk. */
    method Store(kind: SetKind, key: bytes, data: bytes, flags: uint32, ttl: uint32) returns (err: Option<Error>)
      requires Valid() && KeyFits(key)
      modifies this, backend`items
      ensures Valid()
      ensures var live := LiveOnly(old(contents), backend.now);
        var (c, a) := ChunkedStore(live, backend.now, kind, key, data, flags, ttl);
        contents == c && a == if err.Some? then Refused(err.value) else Ok
      ensures err.None? && !Exptime(ttl, backend.now).1 ==>
        && Meta(key) in backend.items && backend.items[Meta(key)].body.MetaBody?
        && var m := backend.items[Meta(key)].body.meta;
        m.token == old(drawn) < drawn && m.instime == backend.now
    {
      Settle();
      var (exp, expired) := Exptime(ttl, backend.now);
      if expired {
        return None;
      }
      var token := drawn;
      drawn := drawn + 1;
      var numChunks := ChunkCount(|data|, DataSize(key));
      var meta := Metadata(|data|, flags, numChunks, DataSize(key), backend.now, exp, token);
      ghost var before := backend.items;
      err := backend.Store(kind, Meta(key), flags, ttl, MetaBody(meta));
      if err.Some? {
        return;
      }
      StoreChunks(key, data, flags, ttl, token);
      ghost var s := Stored(data, flags, Deadline(ttl, backend.now), exp);
      assert Holds(backend.items, key, s);
      RepresentsPut(before, backend.items, contents, key, s, backend.now);
      contents := contents[key := s];
    }

    /** The loop over the chunks of a value, which come out of the chunk reader one by one. */
    method StoreChunks(key: bytes, data: bytes, flags: uint32, ttl: uint32, token: Token)
      requires KeyFits(key)
      modifies backend`items
      ensures ChunksThere(backend.items, key, token, data, Deadline(ttl, backend.now),
                          ChunkCount(|data|, DataSize(key)))
      ensures OthersKept(old(backend.items), backend.items, key)
      ensures MetaKept(old(backend.items), backend.items)
    {
      var p := new byte[4096];
      ghost var before := backend.items;
      var chunks := SplitThroughReader(data, DataSize(key), p);
      for chunkNum := 0 to |chunks|
        invariant ChunksThere(backend.items, key, token, data, Deadline(ttl, backend.now), chunkNum)
        invariant OthersKept(before, backend.items, key) && MetaKept(before, backend.items)
        modifies backend`items
      {
        ChunkStarts(|data|, DataSize(key), chunkNum);
        assert chunks[chunkNum] == Padded(data, DataSize(key), chunkNum);
        ghost var item := Item(flags, Deadline(ttl, backend.now), ChunkBody(token, chunks[chunkNum]));
        ChunksThereStep(backend.items, key, token, data, chunkNum, item);
        PutChunkKeeps(before, backend.items, key, chunkNum, item);
        var err := backend.Store(KindSet, Chunk(key, chunkNum), flags, ttl, ChunkBody(token, chunks[chunkNum]));
      }
    }

    /** The quiet gets for all chunks, and the loop over the replies; with a time to live, quiet get-and-touch. */
    method ReadValue(key: bytes, meta: Metadata<Token>, ttl: Option<uint32>, ghost s: Stored, ghost expiry: nat)
      returns (outcome: Outcome)
      requires KeyFits(key) && meta.chunkSize == DataSize(key) && meta.length == |s.data|
      requires meta.numChunks == ChunkCount(|s.data|, DataSize(key))
      requires ChunksThere(backend.items, key, meta.token, s.data, expiry, meta.numChunks) && Lives(expiry, backend.now)
      modifies backend`items
      ensures outcome == Value(s.data)
      ensures ChunksThere(backend.items, key, meta.token, s.data,
                          if ttl.Some? then Deadline(ttl.value, backend.now) else expiry, meta.numChunks)
      ensures OthersKept(old(backend.items), backend.items, key)
      ensures MetaKept(old(backend.items), backend.items)
      ensures ttl.None? ==> backend.items == old(backend.items)
    {
      var st := Start(meta, 0);
      ghost var after := if ttl.Some? then Deadline(ttl.value, backend.now) else expiry;
      ghost var before := backend.items;
      for i := 0 to meta.numChunks
        invariant HasRead(st, s.data, meta.chunkSize, i)
        invariant Partway(before, backend.items, key, meta.token, s.data, after, i, meta.numChunks)
        invariant ttl.None? ==> backend.items == before
        modifies backend`items
      {
        st := ReadOne(key, i, meta, ttl, st, before, s.data, expiry, after);
      }
      FilledIsWhole(st.buf, s.data, meta.chunkSize);
      outcome := Finish(st);
    }

    /** One turn of that loop. */
    method ReadOne(key: bytes, i: nat, meta: Metadata<Token>, ttl: Option<uint32>, st: Loop<Token>,
                   ghost before: map<BackendKey, Item>, ghost data: bytes, ghost was: nat, ghost expiry: nat)
      returns (next: Loop<Token>)
      requires KeyFits(key) && meta.chunkSize == DataSize(key) && meta.length == |data|
      requires i < meta.numChunks && meta.numChunks == ChunkCount(|data|, DataSize(key))
      requires Partway(before, backend.items, key, meta.token, data, expiry, i, meta.numChunks)
      requires ChunksThere(before, key, meta.token, data, was, meta.numChunks) && Lives(was, backend.now)
      requires expiry == if ttl.Some? then Deadline(ttl.value, backend.now) else was
      requires HasRead(st, data, meta.chunkSize, i)
      modifies backend`items
      ensures HasRead(next, data, meta.chunkSize, i + 1)
      ensures Partway(before, backend.items, key, meta.token, data, expiry, i + 1, meta.numChunks)
      ensures ttl.None? ==> backend.items == old(backend.items)
    {
      ChunkIsThere(before, key, meta.token, data, was, meta.numChunks, i);
      PartwayStep(before, backend.items, key, meta.token, data, expiry, i, meta.numChunks);
      var item := FetchChunk(key, i, ttl);
      next := st;
      if item.Some? && item.value.body.ChunkBody? && |item.value.body.chunk| == meta.chunkSize {
        FilledStep(st.buf, data, meta.chunkSize, i);
        next := Absorb(meta, st, Hit(item.value.body.token, item.value.body.chunk));
      }
    }

    /** One chunk: a get, or a get that touches. */
    method FetchChunk(key: bytes, i: nat, ttl: Option<uint32>) returns (item: Option<Item>)
      modifies backend`items
      ensures var was, k := old(backend.items), Chunk(key, i);
        && item == (if Shows(was, k, backend.now) then Some(was[k]) else None)
        && backend.items == if ttl.Some? && item.Some? then
                              was[k := was[k].(expiry := Deadline(ttl.value, backend.now))]
                            else was
    {
      if ttl.Some? {
        item := backend.Touch(Chunk(key, i), ttl.value);
      } else {
        item := backend.Get(Chunk(key, i));
      }
    }

    /** getMetadata, which tells a value that is there from one that is not. */
    method GetMetadata(key: bytes) returns (meta: Option<Metadata<Token>>)
      requires Valid()
      ensures meta.Some? <==> key in LiveOnly(contents, backend.now)
      ensures meta.Some? ==>
        Holds(backend.items, key, contents[key]) && meta.value == backend.items[Meta(key)].body.meta
    {
      var item := backend.Get(Meta(key));
      meta := if item.Some? then Some(item.value.body.meta) else None;
    }

    /** The answer to one key of a get: its own value, whatever chunks of older values lie around. */
    method Get(key: bytes) returns (a: Answer)
      requires Valid()
      modifies backend`items
      ensures Valid() && backend.items == old(backend.items)
      ensures a == ChunkedStep(contents, backend.now, GetOp(key)).1
    {
      var meta := GetMetadata(key);
      if meta.None? {
        return NotThere;
      }
      var outcome := ReadValue(key, meta.value, None, contents[key], contents[key].expiry);
      a := Found(outcome.data, meta.value.origFlags);
    }

    /** A whole get: one answer for each key, in order, and the store as it was. */
    method GetMany(keys: seq<bytes>) returns (answers: seq<Answer>)
      requires Valid()
      modifies backend`items
      ensures Valid() && backend.items == old(backend.items) && |answers| == |keys|
      ensures forall i :: 0 <= i < |keys| ==>
        answers[i] == ChunkedStep(contents, backend.now, GetOp(keys[i])).1
    {
      answers := [];
      for i := 0 to |keys|
        invariant Valid() && backend.items == old(backend.items) && |answers| == i
        invariant forall j :: 0 <= j < i ==> answers[j] == ChunkedStep(contents, backend.now, GetOp(keys[j])).1
      {
        var a := Get(keys[i]);
        answers := answers + [a];
      }
    }

    /** GAT: the metadata record keeps the expiry it was written with. */
    method Gat(key: bytes, ttl: uint32) returns (a: Answer)
      requires Valid()
      modifies this, backend`items
      ensures Valid()
      ensures (contents, a) == ChunkedStep(old(contents), backend.now, GatOp(key, ttl))
    {
      Settle();
      ghost var before := backend.items;
      var item := backend.Touch(Meta(key), ttl);
      if item.None? {
        return NotThere;
      }
      var meta := item.value.body.meta;
      ghost var s := contents[key];
      var outcome := ReadValue(key, meta, Some(ttl), s, s.expiry);
      ghost var s' := s.(expiry := Deadline(ttl, backend.now));
      assert Holds(backend.items, key, s');
      RepresentsPut(before, backend.items, contents, key, s', backend.now);
      contents := contents[key := s'];
      a := Found(outcome.data, meta.origFlags);
    }

    /** Touch: the chunks first, then a new metadata record. */
    method Touch(key: bytes, ttl: uint32) returns (err: Option<Error>)
      requires Valid()
      modifies this, backend`items
      ensures Valid()
      ensures (contents, if err.Some? then Refused(err.value) else Ok)
           == ChunkedStep(old(contents), backend.now, TouchOp(key, ttl))
    {
      Settle();
      var meta := GetMetadata(key);
      if meta.None? {
        return Some(ErrKeyNotFound);
      }
      ghost var before, s := backend.items, contents[key];
      var miss := TouchChunks(key, meta.value, ttl, s);
      if miss {
        return Some(ErrKeyNotFound);
      }
      var m := meta.value.(exptime := Exptime(ttl, backend.now).0);
      err := backend.Store(KindSet, Meta(key), m.origFlags, ttl, MetaBody(m));
      ghost var s' := s.(expiry := Deadline(ttl, backend.now), recorded := m.exptime);
      assert Holds(backend.items, key, s');
      RepresentsPut(before, backend.items, contents, key, s', backend.now);
      contents := contents[key := s'];
    }

    method TouchChunks(key: bytes, meta: Metadata<Token>, ttl: uint32, ghost s: Stored) returns (miss: bool)
      requires Holds(backend.items, key, s) && Lives(s.expiry, backend.now)
      requires meta == backend.items[Meta(key)].body.meta
      modifies backend`items
      ensures !miss && OthersKept(old(backend.items), backend.items, key)
      ensures ChunksThere(backend.items, key, meta.token, s.data, Deadline(ttl, backend.now), meta.numChunks)
    {
      miss := false;
      for i := 0 to meta.numChunks
        invariant !miss && OthersKept(old(backend.items), backend.items, key)
        invariant ChunksThere(backend.items, key, meta.token, s.data, Deadline(ttl, backend.now), i)
        invariant forall j :: i <= j < meta.numChunks ==>
          Chunk(key, j) in backend.items && backend.items[Chunk(key, j)] == old(backend.items)[Chunk(key, j)]
        modifies backend`items
      {
        assert Chunk(key, i) in old(backend.items);
        var item := backend.Touch(Chunk(key, i), ttl);
        if item.None? {
          miss := true;
        }
      }
    }

    /** Delete: the metadata record first, then the chunks. */
    method Delete(key: bytes) returns (err: Option<Error>)
      requires Valid()
      modifies this, backend`items
      ensures Valid()
      ensures (contents, if err.Some? then Refused(err.value) else Ok)
           == ChunkedStep(old(contents), backend.now, DeleteOp(key))
    {
      Settle();
      var meta := GetMetadata(key);
      if meta.None? {
        return Some(ErrKeyNotFound);
      }
      ghost var before := backend.items;
      var hit := backend.Delete(Meta(key));
      if !hit {
        return Some(ErrKeyNotFound);
      }
      var miss := DeleteChunks(key, meta.value.numChunks);
      RepresentsRemoved(before, backend.items, contents, key, backend.now);
      contents := contents - {key};
      err := if miss then Some(ErrKeyNotFound) else None;
    }

    method DeleteChunks(key: bytes, numChunks: nat) returns (miss: bool)
      requires forall j :: 0 <= j < numChunks ==> Shows(backend.items, Chunk(key, j), backend.now)
      modifies backend`items
      ensures !miss && OthersKept(old(backend.items), backend.items, key)
      ensures MetaKept(old(backend.items), backend.items)
    {
      miss := false;
      for i := 0 to numChunks
        invariant !miss && OthersKept(old(backend.items), backend.items, key)
        invariant MetaKept(old(backend.items), backend.items)
        invariant forall j :: i <= j < numChunks ==> Shows(backend.items, Chunk(key, j), backend.now)
        modifies backend`items
      {
        var hit := backend.Delete(Chunk(key, i));
        if !hit {
          miss := true;
        }
      }
    }

    /** Append and prepend: read the value, and store it anew with the recorded expiry. */
    method Concat(atEnd: bool, key: bytes, data: bytes) returns (err: Option<Error>)
      requires Valid()
      modifies this, backend`items
      ensures Valid()
      ensures (contents, if err.Some? then Refused(err.value) else Ok)
           == ChunkedStep(old(contents), backend.now, ConcatOp(atEnd, key, data))
      ensures var live := LiveOnly(old(contents), backend.now);
        key in live && !Exptime(live[key].recorded, backend.now).1 ==>
          && err.None? && key in contents
          && contents[key].data == if atEnd then live[key].data + data else data + live[key].data
    {
      Settle();
      var meta := GetMetadata(key);
      if meta.None? {
        return Some(ErrKeyNotFound);
      }
      var outcome := ReadValue(key, meta.value, None, contents[key], contents[key].expiry);
      err := Store(KindSet, key, Joined(atEnd, outcome.data, data), meta.value.origFlags, meta.value.exptime);
    }

    /** Any command. */
    method Perform(op: Op) returns (a: Answer)
      requires Valid() && KeyFits(op.key)
      modifies this, backend`items
      ensures Valid() && (contents, a) == ChunkedStep(old(contents), backend.now, op)
    {
      var err: Option<Error>;
      match op {
        case GetOp(key) =>
          a := Get(key);
          Settle();
          return;
        case GatOp(key, ttl) => a := Gat(key, ttl); return;
        case StoreOp(kind, key, data, flags, ttl) => err := Store(kind, key, data, flags, ttl);
        case ConcatOp(atEnd, key, data) => err := Concat(atEnd, key, data);
        case TouchOp(key, ttl) => err := Touch(key, ttl);
        case DeleteOp(key) => err := Delete(key);
      }
      a := if err.Some? then Refused(err.value) else Ok;
    }

    /** Any run of commands, each at its own time, with values running out in between. */
    method Run(steps: seq<Timed>) returns (answers: seq<Answer>)
      requires Valid() && InTime(steps, backend.now) && forall i :: 0 <= i < |steps| ==> KeyFits(steps[i].op.key)
      modifies this, backend
      ensures Valid() && backend.now == LastTime(steps, old(backend.now))
      ensures (contents, answers) == ChunkedRun(old(contents), steps)
    {
      answers := [];
      var left := steps;
      ghost var all := ChunkedRun(contents, steps);
      assert [] + all.1 == all.1;
      while left != []
        invariant Valid() && InTime(left, backend.now) && forall i :: 0 <= i < |left| ==> KeyFits(left[i].op.key)
        invariant LastTime(left, backend.now) == LastTime(steps, old(backend.now))
        invariant all == (ChunkedRun(contents, left).0, answers + ChunkedRun(contents, left).1)
        decreases |left|
      {
        ghost var c := contents;
        var a := PerformAt(left[0]);
        Associate(answers, [a], ChunkedRun(contents, left[1..]).1);
        answers := answers + [a];
        left := left[1..];
      }
      assert answers + [] == answers;
    }

    method PerformAt(st: Timed) returns (a: Answer)
      requires Valid() && backend.now <= st.now && KeyFits(st.op.key)
      modifies this, backend
      ensures Valid() && backend.now == st.now && (contents, a) == ChunkedStep(old(contents), st.now, st.op)
    {
      RepresentsLater(backend.items, contents, backend.now, st.now);
      backend.now := st.now;
      a := Perform(st.op);
    }
  }

  /** From an empty backend, any run in which no operation is disturbed is answered as the plain store would. */
  method RunFromEmpty(now: uint32, steps: seq<Timed>) returns (answers: seq<Answer>)
    requires InTime(steps, now) && AllClocks(steps) && forall i :: 0 <= i < |steps| ==> KeyFits(steps[i].op.key)
    ensures Undisturbed(map[], steps) ==> answers == PlainRun(map[], steps).1
  {
    var backend := new Backend(now);
    var handler := new Handler(backend);
    answers := handler.Run(steps);
    if Undisturbed(map[], steps) {
      RunIsPlain(map[], map[], steps, now);
    }
  }

  /** A command has no effect on any other key. */
  lemma OtherKeysUnchanged(c: Contents, now: uint32, op: Op, other: bytes)
    requires other != op.key
    ensures var c1 := ChunkedStep(c, now, op).0;
      && (other in LiveOnly(c1, now) <==> other in LiveOnly(c, now))
      && (other in LiveOnly(c, now) ==> c1[other] == c[other])
  {
  }
}
