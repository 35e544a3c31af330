/** The two orchestrators over an L1 and an L2 store, one operation after the other: they look like L2 alone. */
module Orchestrators {
  import opened Bytes
  import opened Memcached
  import opened Sequences
  import opened PlainStore
  import opened Headers
  import opened Responses
  import opened TwoLevel

  // ----- Stores -----

  /** A memcached server and the handler in front of it. */
  class Server {
    var items: Contents
    const notStored: Error

    constructor (notStored: Error)
      ensures items == map[] && this.notStored == notStored
    {
      items := map[];
      this.notStored := notStored;
    }

    method Do(now: uint32, op: Op) returns (a: Answer)
      modifies this
      ensures (items, a) == TimedCommand(old(items), now, op, notStored)
    {
      var r := TimedCommand(items, now, op, notStored);
      items := r.0;
      a := r.1;
    }

    /** The answers to a get or a gete, in any order. */
    method Get(now: uint32, req: GetRequest, withExpiry: bool) returns (rs: seq<Response>)
      requires req.WellFormed()
      ensures multiset(rs) == multiset(ResponsesTo(items, now, req, withExpiry))
    {
      rs := ResponsesTo(items, now, req, withExpiry);
    }
  }

  // ----- The orchestrators -----

  method Send(res: BinaryResponder, r: Response, ghost before: bytes, ghost sent: seq<Response>)
    requires res.pooled.Length == HEADER_LEN && res.writer.out == before + Frames(sent)
    modifies res.writer, res.pooled
    ensures res.writer.out == before + Frames(sent + [r])
  {
    res.Answer(ForGet, r);
    OneMoreFrame(sent, r);
    Associate(before, Frames(sent), Frame(ForGet, r));
  }

  method SendAll(res: BinaryResponder, rs: seq<Response>)
    requires res.pooled.Length == HEADER_LEN
    modifies res.writer, res.pooled
    ensures res.writer.out == old(res.writer.out) + Frames(rs)
  {
    assert old(res.writer.out) + [] == old(res.writer.out);
    for i := 0 to |rs|
      invariant res.writer.out == old(res.writer.out) + Frames(rs[..i])
      modifies res.writer, res.pooled
    {
      Send(res, rs[i], old(res.writer.out), rs[..i]);
      assert rs[..i + 1] == rs[..i] + [rs[i]];
    }
    assert rs[..|rs|] == rs;
  }

  /** The first loop of a get: hits in L1 go out, misses are collected for L2. */
  method SendHits(res: BinaryResponder, l1res: seq<Response>, req: GetRequest, ghost c2: Contents, ghost now: nat)
    returns (l2req: GetRequest, ghost sent: seq<Response>)
    requires res.pooled.Length == HEADER_LEN
    requires forall i :: 0 <= i < |l1res| && !l1res[i].miss ==> l1res[i] == Resolve(c2, now)(l1res[i])
    modifies res.writer, res.pooled
    ensures l2req.WellFormed() && l2req.noopOpaque == req.noopOpaque && l2req.noopEnd == req.noopEnd
    ensures res.writer.out == old(res.writer.out) + Frames(sent)
    ensures Accounted(sent, l2req, c2, now, l1res)
  {
    l2req := GetRequest([], [], [], req.noopOpaque, req.noopEnd);
    sent := [];
    assert old(res.writer.out) + [] == old(res.writer.out);
    for i := 0 to |l1res|
      invariant l2req.WellFormed() && l2req.noopOpaque == req.noopOpaque && l2req.noopEnd == req.noopEnd
      invariant res.writer.out == old(res.writer.out) + Frames(sent)
      invariant Accounted(sent, l2req, c2, now, l1res[..i])
      modifies res.writer, res.pooled
    {
      assert l1res[..i + 1] == l1res[..i] + [l1res[i]];
      l2req, sent := SendOrAsk(res, l1res[i], l2req, old(res.writer.out), sent, c2, now, l1res[..i]);
    }
    assert l1res[..|l1res|] == l1res;
  }

  method SendOrAsk(res: BinaryResponder, r: Response, asked: GetRequest, ghost before: bytes, ghost sent: seq<Response>,
                   ghost c2: Contents, ghost now: nat, ghost seen: seq<Response>)
    returns (l2req: GetRequest, ghost sent': seq<Response>)
    requires res.pooled.Length == HEADER_LEN && res.writer.out == before + Frames(sent)
    requires asked.WellFormed() && Accounted(sent, asked, c2, now, seen)
    requires !r.miss ==> r == Resolve(c2, now)(r)
    modifies res.writer, res.pooled
    ensures l2req.WellFormed() && l2req.noopOpaque == asked.noopOpaque && l2req.noopEnd == asked.noopEnd
    ensures res.writer.out == before + Frames(sent') && Accounted(sent', l2req, c2, now, seen + [r])
  {
    l2req, sent' := asked, sent;
    if r.miss {
      AccountedMiss(sent, asked, c2, now, seen, r);
      l2req := asked.(keys := asked.keys + [r.key], opaques := asked.opaques + [r.opaqueToken],
                      quiet := asked.quiet + [r.quiet]);
    } else {
      AccountedHit(sent, asked, c2, now, seen, r);
      Send(res, r, before, sent);
      sent' := sent + [r];
    }
  }

  /** Two levels that agree; if `until` is given then in expiry only as far as that. */
  ghost predicate Agree(l1: Server, l2: Server, res: BinaryResponder, now: nat, until: Option<nat>)
    reads l1, l2
  {
    && l1 != l2 && l1.notStored in {ErrItemNotStored, ErrKeyNotFound} && res.pooled.Length == HEADER_LEN
    && Included(l1.items, l2.items, now, until) && Before(now, until) && AllPresentable(l2.items)
  }

  class L1L2Orca {
    const l1: Server
    const l2: Server
    const res: BinaryResponder

    constructor (l1: Server, l2: Server, res: BinaryResponder)
      ensures this.l1 == l1 && this.l2 == l2 && this.res == res
    {
      this.l1 := l1;
      this.l2 := l2;
      this.res := res;
    }

    /** L2 first; then L1, whose answer is the answer. */
    method Set(now: uint32, key: bytes, data: bytes, flags: uint32, ttl: uint32, ghost until: Option<nat>)
      returns (a: Answer)
      requires Agree(l1, l2, res, now, until) && Clock(now)
      modifies l1, l2
      ensures Agree(l1, l2, res, now, until)
      ensures (l2.items, a) == TimedCommand(old(l2.items), now, StoreOp(KindSet, key, data, flags, ttl), l2.notStored)
      ensures a == Ok ==>
        Follows(old(l1.items), l1.items, l2.items, now, StoreOp(KindSet, key, data, flags, ttl), until)
    {
      var op := StoreOp(KindSet, key, data, flags, ttl);
      CommandKeepsPresentable(l2.items, now, op, l2.notStored);
      BothLevels(l1.items, l2.items, now, op, op, l1.notStored, l2.notStored, until);
      a := l2.Do(now, op);
      if !a.Refused? {
        a := l1.Do(now, op);
      }
    }

    /** The add to L1 cannot be refused: what is not in L2 is not in L1. */
    method Add(now: uint32, key: bytes, data: bytes, flags: uint32, ttl: uint32, ghost until: Option<nat>)
      returns (a: Answer)
      requires Agree(l1, l2, res, now, until) && Clock(now)
      modifies l1, l2
      ensures Agree(l1, l2, res, now, until)
      ensures (l2.items, a) == TimedCommand(old(l2.items), now, StoreOp(KindAdd, key, data, flags, ttl), l2.notStored)
      ensures a == Ok ==>
        Follows(old(l1.items), l1.items, l2.items, now, StoreOp(KindAdd, key, data, flags, ttl), until)
    {
      var op := StoreOp(KindAdd, key, data, flags, ttl);
      ghost var c1, c2 := l1.items, l2.items;
      CommandKeepsPresentable(c2, now, op, l2.notStored);
      a := l2.Do(now, op);
      if a.Refused? {
        RefusalKeeps(c1, c2, now, op, l2.notStored, until);
        return;
      }
      BothLevels(c1, c2, now, op, op, l1.notStored, l2.notStored, until);
      a := l1.Do(now, op);
    }

    /** L1 may have nothing to replace. */
    method Replace(now: uint32, key: bytes, data: bytes, flags: uint32, ttl: uint32, ghost until: Option<nat>)
      returns (a: Answer)
      requires Agree(l1, l2, res, now, until) && Clock(now)
      modifies l1, l2
      ensures Agree(l1, l2, res, now, until)
      ensures (l2.items, a)
           == TimedCommand(old(l2.items), now, StoreOp(KindReplace, key, data, flags, ttl), l2.notStored)
      ensures a == Ok ==>
        Follows(old(l1.items), l1.items, l2.items, now, StoreOp(KindReplace, key, data, flags, ttl), until)
    {
      var op := StoreOp(KindReplace, key, data, flags, ttl);
      ghost var c1, c2 := l1.items, l2.items;
      CommandKeepsPresentable(c2, now, op, l2.notStored);
      a := l2.Do(now, op);
      if a.Refused? {
        RefusalKeeps(c1, c2, now, op, l2.notStored, until);
        return;
      }
      BothLevels(c1, c2, now, op, op, l1.notStored, l2.notStored, until);
      a := l1.Do(now, op);
      if a == Refused(ErrKeyNotFound) {
        a := Ok;
      }
    }

    /** Append and prepend. */
    method Concat(now: uint32, atEnd: bool, key: bytes, data: bytes, ghost until: Option<nat>) returns (a: Answer)
      requires Agree(l1, l2, res, now, until) && Clock(now)
      modifies l1, l2
      ensures Agree(l1, l2, res, now, until)
      ensures (l2.items, a) == TimedCommand(old(l2.items), now, ConcatOp(atEnd, key, data), l2.notStored)
      ensures a == Ok ==> Follows(old(l1.items), l1.items, l2.items, now, ConcatOp(atEnd, key, data), until)
      ensures a == Ok ==>
        && key in LiveOnly(old(l2.items), now) && key in l2.items
        && l2.items[key].data == if atEnd then old(l2.items)[key].data + data else data + old(l2.items)[key].data
    {
      var op := ConcatOp(atEnd, key, data);
      ghost var c1, c2 := l1.items, l2.items;
      CommandKeepsPresentable(c2, now, op, l2.notStored);
      a := l2.Do(now, op);
      if a.Refused? {
        RefusalKeeps(c1, c2, now, op, l2.notStored, until);
        return;
      }
      BothLevels(c1, c2, now, op, op, l1.notStored, l2.notStored, until);
      a := l1.Do(now, op);
      if a == Refused(ErrItemNotStored) || a == Refused(ErrKeyNotFound) {
        a := Ok;
      }
    }

    /** A key that is only in L2 is deleted all the same. */
    method Delete(now: uint32, key: bytes, ghost until: Option<nat>) returns (a: Answer)
      requires Agree(l1, l2, res, now, until) && Clock(now)
      modifies l1, l2
      ensures Agree(l1, l2, res, now, until)
      ensures (l2.items, a) == TimedCommand(old(l2.items), now, DeleteOp(key), l2.notStored)
      ensures a == Ok ==> Follows(old(l1.items), l1.items, l2.items, now, DeleteOp(key), until)
    {
      var op := DeleteOp(key);
      ghost var c1, c2 := l1.items, l2.items;
      CommandKeepsPresentable(c2, now, op, l2.notStored);
      a := l2.Do(now, op);
      if a.Refused? {
        RefusalKeeps(c1, c2, now, op, l2.notStored, until);
        return;
      }
      BothLevels(c1, c2, now, op, op, l1.notStored, l2.notStored, until);
      a := l1.Do(now, op);
      if a == Refused(ErrKeyNotFound) {
        a := Ok;
      }
    }

    /** A touch does not bring a value into L1. */
    method Touch(now: uint32, key: bytes, ttl: uint32, ghost until: Option<nat>) returns (a: Answer)
      requires Agree(l1, l2, res, now, until) && Clock(now)
      modifies l1, l2
      ensures Agree(l1, l2, res, now, until)
      ensures (l2.items, a) == TimedCommand(old(l2.items), now, TouchOp(key, ttl), l2.notStored)
      ensures a == Ok ==> Follows(old(l1.items), l1.items, l2.items, now, TouchOp(key, ttl), until)
    {
      var op := TouchOp(key, ttl);
      ghost var c1, c2 := l1.items, l2.items;
      CommandKeepsPresentable(c2, now, op, l2.notStored);
      a := l2.Do(now, op);
      if a.Refused? {
        RefusalKeeps(c1, c2, now, op, l2.notStored, until);
        return;
      }
      BothLevels(c1, c2, now, op, op, l1.notStored, l2.notStored, until);
      a := l1.Do(now, op);
      if a == Refused(ErrKeyNotFound) {
        a := Ok;
      }
    }

    /** L1 is touched first. If it has the value then L2 must be touched too, and L2 not having it would be the
        inconsistency that is reported as not found; the contract says that this does not happen. */
    method Gat(now: uint32, key: bytes, ttl: uint32, ghost until: Option<nat>) returns (a: Answer)
      requires Agree(l1, l2, res, now, until) && Clock(now)
      modifies l1, l2
      ensures Agree(l1, l2, res, now, until)
      ensures (l2.items, a) == TimedCommand(old(l2.items), now, GatOp(key, ttl), l2.notStored)
      ensures !a.Refused? && (a.Found? ==> Follows(old(l1.items), l1.items, l2.items, now, GatOp(key, ttl), until))
    {
      ghost var c1, c2 := l1.items, l2.items;
      CommandKeepsPresentable(c2, now, GatOp(key, ttl), l2.notStored);
      if key in LiveOnly(c1, now) {
        GatHits(c1, c2, now, key, ttl, l1.notStored, l2.notStored, until);
      } else {
        GatMisses(c1, c2, now, key, ttl, l1.notStored, l2.notStored, until);
      }
      a := l1.Do(now, GatOp(key, ttl));
      if a.NotThere? {
        a := l2.Do(now, GatOp(key, ttl));
        if a.NotThere? {
          return;
        }
        var added := l1.Do(now, StoreOp(KindAdd, key, a.data, a.flags, ttl));
      } else {
        var touched := l2.Do(now, TouchOp(key, ttl));
        if touched.Refused? {
          a := touched;
        }
      }
    }

    /** Every requested key gets one answer with its own opaque and quiet flag, in some order, and the answers
        are the ones L2 alone would give. What was found is in L1 afterwards. */
    method Get(now: uint32, req: GetRequest, ghost until: Option<nat>) returns (ghost sent: seq<Response>)
      requires Agree(l1, l2, res, now, until) && Clock(now) && req.WellFormed()
      modifies l1, res.writer, res.pooled
      ensures Agree(l1, l2, res, now, until)
      ensures multiset(sent) == multiset(ResponsesTo(l2.items, now, req, false))
      ensures res.writer.out == old(res.writer.out) + Frames(sent) + EndFrame(req)
      ensures forall key :: key in req.keys && key in LiveOnly(l2.items, now) ==> key in LiveOnly(l1.items, now)
    {
      var l1res := l1.Get(now, req, false);
      FirstLevelAnswers(l1.items, l2.items, now, req, l1res, until);
      var l2req;
      l2req, sent := SendHits(res, l1res, req, l2.items, now);
      HotOrAsked(l1.items, now, req, l1res, l2req.keys);
      if |l2req.keys| > 0 {
        var l2res := l2.Get(now, l2req, true);
        SecondLevelAnswers(l2.items, now, l2req, l2res);
        AskedAreAnswered(l2.items, now, l2req, l2res);
        ghost var more := Refill(now, l2res, until);
        FramesJoin(sent, more);
        Associate(old(res.writer.out), Frames(sent), Frames(more));
        sent := sent + more;
      }
      res.GetEnd(l2req.noopOpaque, l2req.noopEnd);
    }

    method RefillOne(now: uint32, r: Response, ghost until: Option<nat>)
      requires Agree(l1, l2, res, now, until) && Clock(now) && (!r.miss ==> IsShown(l2.items, now, r))
      modifies l1
      ensures Agree(l1, l2, res, now, until)
      ensures !r.miss ==> r.key in LiveOnly(l1.items, now)
      ensures StillThere(old(l1.items), l1.items, now)
    {
      if !r.miss {
        RefillKeepsIncluded(l1.items, l2.items, r, now, now, l1.notStored, until);
        var stored := l1.Do(now, StoreOp(KindSet, r.key, r.data, r.flags, r.exptime));
      }
    }

    /** The second loop of a get: a hit in L2 is put into L1 with the expiry L2 gave, then goes out. */
    method Refill(now: uint32, l2res: seq<Response>, ghost until: Option<nat>) returns (ghost sent: seq<Response>)
      requires Agree(l1, l2, res, now, until) && Clock(now)
      requires forall i :: 0 <= i < |l2res| && !l2res[i].miss ==> IsShown(l2.items, now, l2res[i])
      modifies l1, res.writer, res.pooled
      ensures Agree(l1, l2, res, now, until)
      ensures sent == Map(Plain(), l2res)
      ensures res.writer.out == old(res.writer.out) + Frames(sent)
      ensures Warmed(l2res, |l2res|, l1.items, now) && StillThere(old(l1.items), l1.items, now)
    {
      sent := [];
      assert old(res.writer.out) + [] == old(res.writer.out);
      for i := 0 to |l2res|
        invariant Agree(l1, l2, res, now, until)
        invariant Warmed(l2res, i, l1.items, now) && StillThere(old(l1.items), l1.items, now)
        invariant sent == PlainFirst(l2res, i)
        invariant res.writer.out == old(res.writer.out) + Frames(sent)
        modifies l1, res.writer, res.pooled
      {
        RefillNext(now, l2res, i, old(l1.items), old(res.writer.out), sent, until);
        sent := PlainFirst(l2res, i + 1);
      }
      PlainFirstIsMap(l2res, |l2res|);
      assert l2res[..|l2res|] == l2res;
    }

    /** The body of that loop. */
    method RefillNext(now: uint32, l2res: seq<Response>, i: nat, ghost c0: Contents, ghost before: bytes,
                      ghost sent: seq<Response>, ghost until: Option<nat>)
      requires Agree(l1, l2, res, now, until) && Clock(now) && i < |l2res|
      requires !l2res[i].miss ==> IsShown(l2.items, now, l2res[i])
      requires Warmed(l2res, i, l1.items, now) && StillThere(c0, l1.items, now)
      requires res.writer.out == before + Frames(sent)
      modifies l1, res.writer, res.pooled
      ensures Agree(l1, l2, res, now, until)
      ensures Warmed(l2res, i + 1, l1.items, now) && StillThere(c0, l1.items, now)
      ensures res.writer.out == before + Frames(sent + [l2res[i].(exptime := 0)])
    {
      var r := l2res[i];
      ghost var c1 := l1.items;
      RefillOne(now, r, until);
      WarmedStep(l2res, i, c0, c1, l1.items, now);
      Send(res, r.(exptime := 0), before, sent);
    }
  }

  /** A requested key is in L1 or among the keys that L2 is asked for. */
  lemma HotOrAsked(c1: Contents, now: nat, req: GetRequest, l1res: seq<Response>, asked: seq<bytes>)
    requires req.WellFormed() && multiset(l1res) == multiset(ResponsesTo(c1, now, req, false))
    requires MissesIn(l1res, asked)
    ensures forall key :: key in req.keys ==> key in LiveOnly(c1, now) || key in asked
  {
    forall key | key in req.keys
      ensures key in LiveOnly(c1, now) || key in asked
    {
      var i :| 0 <= i < |req.keys| && req.keys[i] == key;
      var j := EveryKeyAnswered(c1, now, req, false, l1res, i);
    }
  }

  lemma AskedAreAnswered(c2: Contents, now: nat, req: GetRequest, l2res: seq<Response>)
    requires req.WellFormed() && multiset(l2res) == multiset(ResponsesTo(c2, now, req, true))
    ensures forall key :: key in req.keys && key in LiveOnly(c2, now) ==>
      exists j :: 0 <= j < |l2res| && l2res[j].key == key && !l2res[j].miss
  {
    forall key | key in req.keys && key in LiveOnly(c2, now)
      ensures exists j :: 0 <= j < |l2res| && l2res[j].key == key && !l2res[j].miss
    {
      var i :| 0 <= i < |req.keys| && req.keys[i] == key;
      var j := EveryKeyAnswered(c2, now, req, true, l2res, i);
    }
  }

  class L1L2BatchOrca {
    const l1: Server
    const l2: Server
    const res: BinaryResponder

    constructor (l1: Server, l2: Server, res: BinaryResponder)
      ensures this.l1 == l1 && this.l2 == l2 && this.res == res
    {
      this.l1 := l1;
      this.l2 := l2;
      this.res := res;
    }

    /** L1 gets the value only if it has one for the key already. */
    method Set(now: uint32, key: bytes, data: bytes, flags: uint32, ttl: uint32, ghost until: Option<nat>)
      returns (a: Answer)
      requires Agree(l1, l2, res, now, until) && Clock(now)
      modifies l1, l2
      ensures Agree(l1, l2, res, now, until)
      ensures (l2.items, a) == TimedCommand(old(l2.items), now, StoreOp(KindSet, key, data, flags, ttl), l2.notStored)
      ensures a == Ok ==>
        Follows(old(l1.items), l1.items, l2.items, now, StoreOp(KindReplace, key, data, flags, ttl), until)
    {
      var op, op1 := StoreOp(KindSet, key, data, flags, ttl), StoreOp(KindReplace, key, data, flags, ttl);
      CommandKeepsPresentable(l2.items, now, op, l2.notStored);
      BothLevels(l1.items, l2.items, now, op, op1, l1.notStored, l2.notStored, until);
      a := l2.Do(now, op);
      if !a.Refused? {
        a := l1.Do(now, op1);
        if a == Refused(ErrKeyNotFound) {
          a := Ok;
        }
      }
    }

    /** An add to L2 and a replace in L1. */
    method Add(now: uint32, key: bytes, data: bytes, flags: uint32, ttl: uint32, ghost until: Option<nat>)
      returns (a: Answer)
      requires Agree(l1, l2, res, now, until) && Clock(now)
      modifies l1, l2
      ensures Agree(l1, l2, res, now, until)
      ensures (l2.items, a) == TimedCommand(old(l2.items), now, StoreOp(KindAdd, key, data, flags, ttl), l2.notStored)
      ensures a == Ok ==>
        Follows(old(l1.items), l1.items, l2.items, now, StoreOp(KindReplace, key, data, flags, ttl), until)
    {
      var op := StoreOp(KindAdd, key, data, flags, ttl);
      ghost var c1, c2 := l1.items, l2.items;
      CommandKeepsPresentable(c2, now, op, l2.notStored);
      a := l2.Do(now, op);
      if a.Refused? {
        RefusalKeeps(c1, c2, now, op, l2.notStored, until);
        return;
      }
      var op1 := StoreOp(KindReplace, key, data, flags, ttl);
      BothLevels(c1, c2, now, op, op1, l1.notStored, l2.notStored, until);
      a := l1.Do(now, op1);
      if a == Refused(ErrKeyNotFound) {
        a := Ok;
      }
    }

    /** L1 may have nothing to replace. */
    method Replace(now: uint32, key: bytes, data: bytes, flags: uint32, ttl: uint32, ghost until: Option<nat>)
      returns (a: Answer)
      requires Agree(l1, l2, res, now, until) && Clock(now)
      modifies l1, l2
      ensures Agree(l1, l2, res, now, until)
      ensures (l2.items, a)
           == TimedCommand(old(l2.items), now, StoreOp(KindReplace, key, data, flags, ttl), l2.notStored)
      ensures a == Ok ==>
        Follows(old(l1.items), l1.items, l2.items, now, StoreOp(KindReplace, key, data, flags, ttl), until)
    {
      var op := StoreOp(KindReplace, key, data, flags, ttl);
      ghost var c1, c2 := l1.items, l2.items;
      CommandKeepsPresentable(c2, now, op, l2.notStored);
      a := l2.Do(now, op);
      if a.Refused? {
        RefusalKeeps(c1, c2, now, op, l2.notStored, until);
        return;
      }
      BothLevels(c1, c2, now, op, op, l1.notStored, l2.notStored, until);
      a := l1.Do(now, op);
      if a == Refused(ErrKeyNotFound) {
        a := Ok;
      }
    }

    /** Append and prepend. */
    method Concat(now: uint32, atEnd: bool, key: bytes, data: bytes, ghost until: Option<nat>) returns (a: Answer)
      requires Agree(l1, l2, res, now, until) && Clock(now)
      modifies l1, l2
      ensures Agree(l1, l2, res, now, until)
      ensures (l2.items, a) == TimedCommand(old(l2.items), now, ConcatOp(atEnd, key, data), l2.notStored)
      ensures a == Ok ==> Follows(old(l1.items), l1.items, l2.items, now, ConcatOp(atEnd, key, data), until)
      ensures a == Ok ==>
        && key in LiveOnly(old(l2.items), now) && key in l2.items
        && l2.items[key].data == if atEnd then old(l2.items)[key].data + data else data + old(l2.items)[key].data
    {
      var op := ConcatOp(atEnd, key, data);
      ghost var c1, c2 := l1.items, l2.items;
      CommandKeepsPresentable(c2, now, op, l2.notStored);
      a := l2.Do(now, op);
      if a.Refused? {
        RefusalKeeps(c1, c2, now, op, l2.notStored, until);
        return;
      }
      BothLevels(c1, c2, now, op, op, l1.notStored, l2.notStored, until);
      a := l1.Do(now, op);
      if a == Refused(ErrItemNotStored) || a == Refused(ErrKeyNotFound) {
        a := Ok;
      }
    }

    /** A key that is only in L2 is deleted all the same. */
    method Delete(now: uint32, key: bytes, ghost until: Option<nat>) returns (a: Answer)
      requires Agree(l1, l2, res, now, until) && Clock(now)
      modifies l1, l2
      ensures Agree(l1, l2, res, now, until)
      ensures (l2.items, a) == TimedCommand(old(l2.items), now, DeleteOp(key), l2.notStored)
      ensures a == Ok ==> Follows(old(l1.items), l1.items, l2.items, now, DeleteOp(key), until)
    {
      var op := DeleteOp(key);
      ghost var c1, c2 := l1.items, l2.items;
      CommandKeepsPresentable(c2, now, op, l2.notStored);
      a := l2.Do(now, op);
      if a.Refused? {
        RefusalKeeps(c1, c2, now, op, l2.notStored, until);
        return;
      }
      BothLevels(c1, c2, now, op, op, l1.notStored, l2.notStored, until);
      a := l1.Do(now, op);
      if a == Refused(ErrKeyNotFound) {
        a := Ok;
      }
    }

    /** A touch does not bring a value into L1. */
    method Touch(now: uint32, key: bytes, ttl: uint32, ghost until: Option<nat>) returns (a: Answer)
      requires Agree(l1, l2, res, now, until) && Clock(now)
      modifies l1, l2
      ensures Agree(l1, l2, res, now, until)
      ensures (l2.items, a) == TimedCommand(old(l2.items), now, TouchOp(key, ttl), l2.notStored)
      ensures a == Ok ==> Follows(old(l1.items), l1.items, l2.items, now, TouchOp(key, ttl), until)
    {
      var op := TouchOp(key, ttl);
      ghost var c1, c2 := l1.items, l2.items;
      CommandKeepsPresentable(c2, now, op, l2.notStored);
      a := l2.Do(now, op);
      if a.Refused? {
        RefusalKeeps(c1, c2, now, op, l2.notStored, until);
        return;
      }
      BothLevels(c1, c2, now, op, op, l1.notStored, l2.notStored, until);
      a := l1.Do(now, op);
      if a == Refused(ErrKeyNotFound) {
        a := Ok;
      }
    }

    /** L2 answers. The touch of L1 carries no time to live, so that afterwards the levels agree in expiry, or as far
        as the given moment, if and only if the value is to be kept for ever, or until then, or L1 does not have it.
        And L1 goes on showing what L2 shows, at any later time, if and only if the time to live is not over by then
        or L1 does not have the value. */
    method Gat(now: uint32, key: bytes, ttl: uint32, ghost until: Option<nat>) returns (a: Answer)
      requires Agree(l1, l2, res, now, until) && Clock(now)
      modifies l1, l2
      ensures (l2.items, a) == TimedCommand(old(l2.items), now, GatOp(key, ttl), l2.notStored)
      ensures Agree(l1, l2, res, now, until) <==> KeepsUntil(ttl, now, until) || key !in LiveOnly(old(l1.items), now)
      ensures forall later: nat :: now <= later && Before(later, until) ==>
        (SameDataAndFlags(l1.items, l2.items, later)
         <==> Lasts(ttl, now, later) || key !in LiveOnly(old(l1.items), now))
    {
      ghost var c1, c2 := l1.items, l2.items;
      CommandKeepsPresentable(c2, now, GatOp(key, ttl), l2.notStored);
      BatchGatAtAnyTime(c1, c2, now, key, ttl, l1.notStored, l2.notStored, until);
      a := l2.Do(now, GatOp(key, ttl));
      if !a.NotThere? {
        var touched := l1.Do(now, TouchOp(key, 0));
      }
      assert (l1.items, l2.items) == AfterBatchGat(c1, c2, now, key, ttl, l1.notStored, l2.notStored);
    }

    /** As with the other orchestrator, but L1 is left alone. */
    method Get(now: uint32, req: GetRequest, ghost until: Option<nat>) returns (ghost sent: seq<Response>)
      requires Agree(l1, l2, res, now, until) && req.WellFormed()
      modifies res.writer, res.pooled
      ensures multiset(sent) == multiset(ResponsesTo(l2.items, now, req, false))
      ensures res.writer.out == old(res.writer.out) + Frames(sent) + EndFrame(req)
    {
      var l1res := l1.Get(now, req, false);
      FirstLevelAnswers(l1.items, l2.items, now, req, l1res, until);
      var l2req;
      l2req, sent := SendHits(res, l1res, req, l2.items, now);
      if |l2req.keys| > 0 {
        var l2res := l2.Get(now, l2req, false);
        SendAll(res, l2res);
        FramesJoin(sent, l2res);
        Associate(old(res.writer.out), Frames(sent), Frames(l2res));
        sent := sent + l2res;
      }
      res.GetEnd(l2req.noopOpaque, l2req.noopEnd);
    }
  }

  // ----- Gets split by key -----

  function GetFrame(): Response -> bytes {
    (r: Response) => Frame(ForGet, r)
  }

  /** The locking wrapper's get: one get for each key, the last of them with the closing noop. It writes the
      same answers as the get it wraps, in some order. */
  method LockedGet(wrapped: L1L2Orca, now: uint32, req: GetRequest, ghost until: Option<nat>)
    returns (ghost sent: seq<Response>)
    requires Agree(wrapped.l1, wrapped.l2, wrapped.res, now, until) && Clock(now) && req.WellFormed()
    modifies wrapped.l1, wrapped.res.writer, wrapped.res.pooled
    ensures Agree(wrapped.l1, wrapped.l2, wrapped.res, now, until)
    ensures multiset(sent) == multiset(ResponsesTo(wrapped.l2.items, now, req, false))
    ensures multiset(Map(GetFrame(), sent)) == multiset(Map(GetFrame(), ResponsesTo(wrapped.l2.items, now, req, false)))
    ensures wrapped.res.writer.out == old(wrapped.res.writer.out) + Frames(sent) + LockedEnd(req)
  {
    sent := [];
    ghost var all, before := ResponsesTo(wrapped.l2.items, now, req, false), wrapped.res.writer.out;
    NothingSent(before);
    for idx := 0 to |req.keys|
      invariant Agree(wrapped.l1, wrapped.l2, wrapped.res, now, until)
      invariant multiset(sent) == multiset(all[..idx])
      invariant wrapped.res.writer.out == before + Frames(sent) + EndAfter(req, idx)
      modifies wrapped.l1, wrapped.res.writer, wrapped.res.pooled
    {
      OneMoreElement(all, idx);
      ghost var one := LockedGetOne(wrapped, now, req, idx, before, sent, until);
      sent := sent + one;
    }
    assert all[..|req.keys|] == all;
    PermutationMaps(GetFrame(), sent, all);
  }

  lemma NothingSent(before: bytes)
    ensures before + Frames([]) + [] == before
  {
  }

  lemma OneMoreElement<T>(s: seq<T>, i: nat)
    requires i < |s|
    ensures multiset(s[..i + 1]) == multiset(s[..i]) + multiset{s[i]}
  {
    assert s[..i + 1] == s[..i] + [s[i]];
  }

  /** The noop that goes out with the last of the single gets. */
  function EndAfter(req: GetRequest, n: nat): bytes {
    if 0 < n == |req.keys| then EndFrame(req) else []
  }

  /** The request for one key; only the last one asks for the noop. */
  function SingleGet(req: GetRequest, idx: nat): GetRequest
    requires req.WellFormed() && idx < |req.keys|
  {
    var last := idx == |req.keys| - 1;
    GetRequest([req.keys[idx]], [req.opaques[idx]], [req.quiet[idx]],
               if last then req.noopOpaque else 0, last && req.noopEnd)
  }

  /** The get for one key, between taking the lock and releasing it. */
  method LockedGetOne(wrapped: L1L2Orca, now: uint32, req: GetRequest, idx: nat, ghost before: bytes,
                      ghost sent: seq<Response>, ghost until: Option<nat>)
    returns (ghost one: seq<Response>)
    requires Agree(wrapped.l1, wrapped.l2, wrapped.res, now, until) && Clock(now)
    requires req.WellFormed() && idx < |req.keys|
    requires wrapped.res.writer.out == before + Frames(sent) + EndAfter(req, idx)
    modifies wrapped.l1, wrapped.res.writer, wrapped.res.pooled
    ensures Agree(wrapped.l1, wrapped.l2, wrapped.res, now, until)
    ensures multiset(one) == multiset{ResponsesTo(wrapped.l2.items, now, req, false)[idx]}
    ensures wrapped.res.writer.out == before + Frames(sent + one) + EndAfter(req, idx + 1)
  {
    var subreq := SingleGet(req, idx);
    one := wrapped.Get(now, subreq, until);
    OneResponse(wrapped.l2.items, now, req, idx, subreq);
    OneMoreGet(before, sent, one, EndFrame(subreq));
  }

  lemma OneResponse(c: Contents, now: nat, req: GetRequest, idx: nat, subreq: GetRequest)
    requires req.WellFormed() && idx < |req.keys|
    requires subreq.keys == [req.keys[idx]] && subreq.opaques == [req.opaques[idx]] && subreq.quiet == [req.quiet[idx]]
    ensures ResponsesTo(c, now, subreq, false) == [ResponsesTo(c, now, req, false)[idx]]
    ensures multiset(ResponsesTo(c, now, subreq, false)) == multiset{ResponsesTo(c, now, req, false)[idx]}
  {
  }

  lemma OneMoreGet(before: bytes, sent: seq<Response>, one: seq<Response>, end: bytes)
    ensures before + Frames(sent) + [] + Frames(one) + end == before + Frames(sent + one) + end
  {
    FramesJoin(sent, one);
    Associate(before, Frames(sent), Frames(one));
    assert before + Frames(sent) + [] == before + Frames(sent);
  }

  /** The same around the batch orchestrator. */
  method LockedBatchGet(wrapped: L1L2BatchOrca, now: uint32, req: GetRequest, ghost until: Option<nat>)
    returns (ghost sent: seq<Response>)
    requires Agree(wrapped.l1, wrapped.l2, wrapped.res, now, until) && req.WellFormed()
    modifies wrapped.res.writer, wrapped.res.pooled
    ensures multiset(sent) == multiset(ResponsesTo(wrapped.l2.items, now, req, false))
    ensures multiset(Map(GetFrame(), sent)) == multiset(Map(GetFrame(), ResponsesTo(wrapped.l2.items, now, req, false)))
    ensures wrapped.res.writer.out == old(wrapped.res.writer.out) + Frames(sent) + LockedEnd(req)
  {
    sent := [];
    ghost var all, before := ResponsesTo(wrapped.l2.items, now, req, false), wrapped.res.writer.out;
    NothingSent(before);
    for idx := 0 to |req.keys|
      invariant multiset(sent) == multiset(all[..idx])
      invariant wrapped.res.writer.out == before + Frames(sent) + EndAfter(req, idx)
      modifies wrapped.res.writer, wrapped.res.pooled
    {
      OneMoreElement(all, idx);
      ghost var one := LockedBatchGetOne(wrapped, now, req, idx, before, sent, until);
      sent := sent + one;
    }
    assert all[..|req.keys|] == all;
    PermutationMaps(GetFrame(), sent, all);
  }

  method LockedBatchGetOne(wrapped: L1L2BatchOrca, now: uint32, req: GetRequest, idx: nat, ghost before: bytes,
                           ghost sent: seq<Response>, ghost until: Option<nat>)
    returns (ghost one: seq<Response>)
    requires Agree(wrapped.l1, wrapped.l2, wrapped.res, now, until) && req.WellFormed() && idx < |req.keys|
    requires wrapped.res.writer.out == before + Frames(sent) + EndAfter(req, idx)
    modifies wrapped.res.writer, wrapped.res.pooled
    ensures multiset(one) == multiset{ResponsesTo(wrapped.l2.items, now, req, false)[idx]}
    ensures wrapped.res.writer.out == before + Frames(sent + one) + EndAfter(req, idx + 1)
  {
    var subreq := SingleGet(req, idx);
    one := wrapped.Get(now, subreq, until);
    OneResponse(wrapped.l2.items, now, req, idx, subreq);
    OneMoreGet(before, sent, one, EndFrame(subreq));
  }

  function LockedEnd(req: GetRequest): bytes {
    if req.keys != [] then EndFrame(req) else []
  }

  /** The closing noop is there if and only if there are keys, or none is asked for. */
  lemma LockedEndIsEnd(req: GetRequest)
    ensures LockedEnd(req) == EndFrame(req) <==> req.keys != [] || !req.noopEnd
  {
    assert |NoopFrame(req.noopOpaque)| == HEADER_LEN;
  }

  // ----- Runs -----

  datatype What = Write(op: Op) | Read(req: GetRequest)

  /** An operation by one of the orchestrators at some time, after some evictions from L1. */
  datatype Step = Step(now: uint32, evicted: set<bytes>, batch: bool, what: What)

  datatype Outcome = Answered(answer: Answer) | Sent(responses: multiset<Response>)

  /** The operation on one store alone. */
  ghost function AloneStep(c: Contents, st: Step, notStored: Error): (Contents, Outcome)
    requires Proper(st)
  {
    match st.what
    case Write(op) => var (c', a) := TimedCommand(c, st.now, op, notStored); (c', Answered(a))
    case Read(req) => (c, Sent(multiset(ResponsesTo(c, st.now, req, false))))
  }

  /** A clock that does not go back and stays before the moment given, and no get-and-touch through the batch
      orchestrator whose time to live is over by then. */
  ghost predicate Script(steps: seq<Step>, from: nat, until: Option<nat>)
    decreases |steps|
  {
    steps != [] ==>
      && from <= steps[0].now && Clock(steps[0].now) && Before(steps[0].now, until) && Proper(steps[0])
      && (steps[0].batch && steps[0].what.Write? && steps[0].what.op.GatOp? ==>
            KeepsUntil(steps[0].what.op.ttl, steps[0].now, until))
      && Script(steps[1..], steps[0].now, until)
  }

  predicate Proper(st: Step) {
    match st.what case Read(req) => req.WellFormed() case Write(op) => !op.GetOp?
  }

  ghost predicate AllProper(steps: seq<Step>) {
    forall i :: 0 <= i < |steps| ==> Proper(steps[i])
  }

  lemma {:induction false} ScriptIsProper(steps: seq<Step>, from: nat, until: Option<nat>)
    requires Script(steps, from, until)
    ensures AllProper(steps)
    decreases |steps|
  {
    if steps != [] {
      ScriptIsProper(steps[1..], steps[0].now, until);
      assert forall i :: 1 <= i < |steps| ==> steps[i] == steps[1..][i - 1];
    }
  }

  /** The earliest deadline set by a get-and-touch through the batch orchestrator. */
  function Earliest(steps: seq<Step>): Option<nat> {
    if steps == [] then None
    else
      var rest := Earliest(steps[1..]);
      match steps[0].what
      case Write(GatOp(_, ttl)) =>
        if !steps[0].batch || ttl == 0 then rest
        else
          var d := Deadline(ttl, steps[0].now);
          Some(if rest.Some? then Min(d, rest.value) else d)
      case _ => rest
  }

  ghost predicate InOrder(steps: seq<Step>, from: nat)
    decreases |steps|
  {
    steps != [] ==>
      && from <= steps[0].now && Clock(steps[0].now) && Proper(steps[0]) && InOrder(steps[1..], steps[0].now)
  }

  /** Steps in order that all come before the earliest of those deadlines are such a script. */
  lemma {:induction false} ScriptUntilEarliest(steps: seq<Step>, from: nat, until: Option<nat>)
    requires InOrder(steps, from) && forall i :: 0 <= i < |steps| ==> Before(steps[i].now, until)
    requires Earliest(steps).Some? ==> until.Some? && until.value <= Earliest(steps).value
    ensures Script(steps, from, until)
    decreases |steps|
  {
    if steps != [] {
      ScriptUntilEarliest(steps[1..], steps[0].now, until);
    }
  }

  ghost function AloneRun(c: Contents, steps: seq<Step>, notStored: Error): (Contents, seq<Outcome>)
    requires AllProper(steps)
    decreases |steps|
  {
    if steps == [] then (c, [])
    else
      assert Proper(steps[0]);
      var (c1, o) := AloneStep(c, steps[0], notStored);
      var (c2, rest) := AloneRun(c1, steps[1..], notStored);
      (c2, [o] + rest)
  }

  method PerformWrite(o: L1L2Orca, now: uint32, op: Op, ghost until: Option<nat>) returns (a: Answer)
    requires Agree(o.l1, o.l2, o.res, now, until) && Clock(now) && !op.GetOp?
    modifies o.l1, o.l2
    ensures Agree(o.l1, o.l2, o.res, now, until)
    ensures (o.l2.items, a) == TimedCommand(old(o.l2.items), now, op, o.l2.notStored)
  {
    match op {
      case StoreOp(KindSet, key, data, flags, ttl) => a := o.Set(now, key, data, flags, ttl, until);
      case StoreOp(KindAdd, key, data, flags, ttl) => a := o.Add(now, key, data, flags, ttl, until);
      case StoreOp(KindReplace, key, data, flags, ttl) => a := o.Replace(now, key, data, flags, ttl, until);
      case ConcatOp(atEnd, key, data) => a := o.Concat(now, atEnd, key, data, until);
      case DeleteOp(key) => a := o.Delete(now, key, until);
      case TouchOp(key, ttl) => a := o.Touch(now, key, ttl, until);
      case GatOp(key, ttl) => a := o.Gat(now, key, ttl, until);
    }
  }

  method PerformBatchWrite(o: L1L2BatchOrca, now: uint32, op: Op, ghost until: Option<nat>) returns (a: Answer)
    requires Agree(o.l1, o.l2, o.res, now, until) && Clock(now)
    requires !op.GetOp? && (op.GatOp? ==> KeepsUntil(op.ttl, now, until))
    modifies o.l1, o.l2
    ensures Agree(o.l1, o.l2, o.res, now, until)
    ensures (o.l2.items, a) == TimedCommand(old(o.l2.items), now, op, o.l2.notStored)
  {
    match op {
      case StoreOp(KindSet, key, data, flags, ttl) => a := o.Set(now, key, data, flags, ttl, until);
      case StoreOp(KindAdd, key, data, flags, ttl) => a := o.Add(now, key, data, flags, ttl, until);
      case StoreOp(KindReplace, key, data, flags, ttl) => a := o.Replace(now, key, data, flags, ttl, until);
      case ConcatOp(atEnd, key, data) => a := o.Concat(now, atEnd, key, data, until);
      case DeleteOp(key) => a := o.Delete(now, key, until);
      case TouchOp(key, ttl) => a := o.Touch(now, key, ttl, until);
      case GatOp(key, ttl) => a := o.Gat(now, key, ttl, until);
    }
  }

  /** The two orchestrators work on the same stores. */
  ghost predicate Paired(o: L1L2Orca, b: L1L2BatchOrca) {
    o.l1 == b.l1 && o.l2 == b.l2 && o.res == b.res
  }

  method Perform(o: L1L2Orca, b: L1L2BatchOrca, st: Step, ghost from: nat, ghost until: Option<nat>)
    returns (ghost outcome: Outcome)
    requires Paired(o, b) && Agree(o.l1, o.l2, o.res, from, until) && Script([st], from, until)
    modifies o.l1, o.l2, o.res.writer, o.res.pooled
    ensures Agree(o.l1, o.l2, o.res, st.now, until)
    ensures (o.l2.items, outcome) == AloneStep(old(o.l2.items), st, o.l2.notStored)
  {
    IncludedLater(o.l1.items, o.l2.items, from, st.now, until);
    IncludedAfterEviction(o.l1.items, o.l2.items, st.now, st.evicted, until);
    o.l1.items := o.l1.items - st.evicted;
    match st.what {
      case Write(op) =>
        var a;
        if st.batch {
          a := PerformBatchWrite(b, st.now, op, until);
        } else {
          a := PerformWrite(o, st.now, op, until);
        }
        outcome := Answered(a);
      case Read(req) =>
        ghost var sent;
        if st.batch {
          sent := b.Get(st.now, req, until);
        } else {
          sent := o.Get(st.now, req, until);
        }
        outcome := Sent(multiset(sent));
    }
  }

  /** Over any run of both orchestrators, with any evictions from L1, every answer and the contents of L2 are those of
      one store alone, up to the earliest deadline set by a get-and-touch through the batch orchestrator. If there is
      none the levels go on agreeing in data, flags and expiry; else in data and flags until then. */
  method Run(o: L1L2Orca, b: L1L2BatchOrca, steps: seq<Step>, ghost from: nat, ghost until: Option<nat>)
    returns (ghost outcomes: seq<Outcome>)
    requires Paired(o, b) && Agree(o.l1, o.l2, o.res, from, until) && Script(steps, from, until) && AllProper(steps)
    modifies o.l1, o.l2, o.res.writer, o.res.pooled
    ensures Agree(o.l1, o.l2, o.res, if steps == [] then from else steps[|steps| - 1].now, until)
    ensures (o.l2.items, outcomes) == AloneRun(old(o.l2.items), steps, o.l2.notStored)
  {
    outcomes := [];
    var left := steps;
    ghost var at: nat, all := from, AloneRun(o.l2.items, steps, o.l2.notStored);
    assert [] + all.1 == all.1;
    while left != []
      invariant Agree(o.l1, o.l2, o.res, at, until) && Script(left, at, until) && AllProper(left)
      invariant left == [] ==> at == if steps == [] then from else steps[|steps| - 1].now
      invariant left != [] ==> steps != [] && left[|left| - 1] == steps[|steps| - 1]
      invariant all == (AloneRun(o.l2.items, left, o.l2.notStored).0,
                        outcomes + AloneRun(o.l2.items, left, o.l2.notStored).1)
      decreases |left|
    {
      assert Proper(left[0]);
      ghost var outcome := Perform(o, b, left[0], at, until);
      Associate(outcomes, [outcome], AloneRun(o.l2.items, left[1..], o.l2.notStored).1);
      outcomes := outcomes + [outcome];
      at := left[0].now;
      left := left[1..];
    }
    assert outcomes + [] == outcomes;
  }
}
