/** Two levels of storage: what it means that they agree, and why the commands of the orchestrators keep it so. */
module TwoLevel {
  import opened Bytes
  import opened Headers
  import opened Memcached
  import opened Sequences
  import opened PlainStore
  import opened Responses

  /** The expiry can be handed out by a get and used again as a time to live, and means the same. */
  predicate Presentable(s: Stored) {
    (s.expiry == 0 || REAL_TIME_MAX_DELTA < s.expiry < TWO_TO_THE_32) && s.recorded == 0
  }

  // ----- Many gets at once -----

  datatype GetRequest = GetRequest(keys: seq<bytes>, opaques: seq<uint32>, quiet: seq<bool>,
                                   noopOpaque: uint32, noopEnd: bool)
  {
    predicate WellFormed() {
      |keys| == |opaques| == |quiet|
    }
  }

  /** The answer to one get by this store. */
  function ResponseTo(c: Contents, now: nat, key: bytes, opaqueToken: uint32, quiet: bool, withExpiry: bool): Response {
    if key in c && Alive(c[key], now) then
      Response(key, c[key].data, opaqueToken, c[key].flags, if withExpiry then Wrap32(c[key].expiry) else 0, false,
               quiet)
    else Response(key, [], opaqueToken, 0, 0, true, quiet)
  }

  /** One answer for each requested key, in the order of the request. */
  function ResponsesTo(c: Contents, now: nat, req: GetRequest, withExpiry: bool): (rs: seq<Response>)
    requires req.WellFormed()
    ensures |rs| == |req.keys|
  {
    seq(|req.keys|, i requires 0 <= i < |req.keys| =>
      ResponseTo(c, now, req.keys[i], req.opaques[i], req.quiet[i], withExpiry))
  }

  /** Each answer is under the key, opaque and quiet flag that were asked with, and shows what is there at that time. */
  lemma AnswerShows(c: Contents, now: nat, req: GetRequest, withExpiry: bool, i: nat)
    requires req.WellFormed() && i < |req.keys|
    ensures var r := ResponsesTo(c, now, req, withExpiry)[i];
      && r.key == req.keys[i] && r.opaqueToken == req.opaques[i] && r.quiet == req.quiet[i]
      && (if r.miss then NotThere else Found(r.data, r.flags)) == Shown(c, now, req.keys[i])
      && (!r.miss && withExpiry ==> r.exptime == Wrap32(c[r.key].expiry))
  {
    GetShows(c, now, req.keys[i]);
  }

  /** On the wire: silence exactly for what is not there and was asked for quietly; else a frame with the opaque that
      was asked with, which reads as what is there, or as not found. */
  lemma AnswerOnWire(c: Contents, now: nat, req: GetRequest, i: nat, tail: bytes)
    requires req.WellFormed() && i < |req.keys|
    ensures var shown := Shown(c, now, req.keys[i]); var frame := Frame(ForGet, ResponsesTo(c, now, req, false)[i]);
      && (frame == [] <==> shown.NotThere? && req.quiet[i])
      && (frame != [] ==>
            var h := TakeHeader(frame + tail, 0x81);
            h.Got? && h.value.opcode == 0x00 && h.value.opaqueToken == req.opaques[i])
      && (shown.Found? && |shown.data| < TWO_TO_THE_32 ==>
            GetLocal(frame + tail, false) == Got(Local(shown.data, shown.flags, 0), tail))
      && (shown.NotThere? && !req.quiet[i] ==> GetLocal(frame + tail, false) == Fail(ErrKeyNotFound, tail))
  {
    var r := ResponsesTo(c, now, req, false)[i];
    AnswerShows(c, now, req, false, i);
    SilentIffQuietMiss(ForGet, r);
    if !(r.miss && r.quiet) {
      AnswerHeader(ForGet, r, tail);
      if |r.data| < TWO_TO_THE_32 { AnswerReadBack(ForGet, r, tail); }
    }
  }

  function Frames(rs: seq<Response>): bytes {
    if rs == [] then [] else Frames(rs[..|rs| - 1]) + Frame(ForGet, rs[|rs| - 1])
  }

  function EndFrame(req: GetRequest): bytes {
    if req.noopEnd then NoopFrame(req.noopOpaque) else []
  }

  /** What ends a get on the wire: a noop with the opaque of the client's, if there was one. */
  lemma EndOnWire(req: GetRequest, tail: bytes)
    ensures req.noopEnd ==>
      TakeHeader(EndFrame(req) + tail, 0x81) == Got(Header(0x0a, 0, 0, 0, 0, req.noopOpaque), tail)
    ensures !req.noopEnd ==> EndFrame(req) == []
  {
    NoopReadBack(req.noopOpaque, tail);
  }

  // ----- Agreement of the levels -----

  /** The same value with the same expiry; or, if agreement is asked for only until some moment, one that L2 keeps
      until then. */
  predicate Matches(s1: Stored, s2: Stored, until: Option<nat>) {
    s1 == s2 || (until.Some? && s1.(expiry := s2.expiry) == s2 && (s2.expiry == 0 || until.value <= s2.expiry))
  }

  predicate Before(now: nat, until: Option<nat>) {
    until.Some? ==> now < until.value
  }

  /** What L1 shows at this time is, in data, flags and expiry, what L2 shows; or in data and flags, until then. */
  ghost predicate Included(c1: Contents, c2: Contents, now: nat, until: Option<nat> := None) {
    forall k :: k in c1 && Alive(c1[k], now) ==> k in c2 && Matches(c1[k], c2[k], until)
  }

  ghost predicate AllPresentable(c: Contents) {
    forall k :: k in c ==> Presentable(c[k])
  }

  /** Agreement lasts: the two copies run out together. */
  lemma IncludedLater(c1: Contents, c2: Contents, now: nat, later: nat, until: Option<nat>)
    requires Included(c1, c2, now, until) && now <= later
    ensures Included(c1, c2, later, until)
  {
  }

  /** Evictions from L1 are harmless. */
  lemma IncludedAfterEviction(c1: Contents, c2: Contents, now: nat, evicted: set<bytes>, until: Option<nat>)
    requires Included(c1, c2, now, until)
    ensures Included(c1 - evicted, c2, now, until)
  {
  }

  lemma CommandKeepsPresentable(c: Contents, now: uint32, op: Op, notStored: Error)
    requires Clock(now) && AllPresentable(c)
    ensures AllPresentable(TimedCommand(c, now, op, notStored).0)
  {
  }

  /** What becomes of the key in L1: a set or an add brings it there, a delete removes it, and everything else
      changes what is there and no more. */
  ghost predicate Follows(c1: Contents, c1': Contents, c2': Contents, now: nat, op1: Op, until: Option<nat>) {
    var key := op1.key;
    match op1
    case StoreOp(kind, _, _, _, _) =>
      if kind.KindReplace? then StaysHot(c1, c1', c2', now, key, None)
      else key in c1' && key in c2' && c1'[key] == c2'[key]
    case DeleteOp(_) => key !in c1'
    case GatOp(_, _) => key in c1' && key in c2' && c1'[key] == c2'[key]
    case TouchOp(_, _) => StaysHot(c1, c1', c2', now, key, None)
    case _ => StaysHot(c1, c1', c2', now, key, until)
  }

  ghost predicate StaysHot(c1: Contents, c1': Contents, c2': Contents, now: nat, key: bytes, until: Option<nat>) {
    (key in c1' <==> key in LiveOnly(c1, now)) && (key in c1' ==> key in c2' && Matches(c1'[key], c2'[key], until))
  }

  ghost predicate OnlyAt(a: Contents, b: Contents, key: bytes) {
    forall k :: k != key ==> (k in a <==> k in b) && (k in a ==> a[k] == b[k])
  }

  lemma CommandOnlyAt(c: Contents, now: uint32, op: Op, notStored: Error)
    ensures OnlyAt(LiveOnly(c, now), TimedCommand(c, now, op, notStored).0, op.key)
  {
  }

  /** Agreement about the one key that has changed is enough. */
  lemma IncludedAtKey(c1: Contents, c2: Contents, a: Contents, b: Contents, key: bytes, now: nat, until: Option<nat>)
    requires Included(c1, c2, now, until) && Before(now, until)
    requires OnlyAt(LiveOnly(c1, now), a, key) && OnlyAt(LiveOnly(c2, now), b, key)
    requires key in a && Alive(a[key], now) ==> key in b && Matches(a[key], b[key], until)
    ensures Included(a, b, now, until)
  {
  }

  /** What L1 shows under this key L2 shows too. */
  lemma ShownInBoth(c1: Contents, c2: Contents, now: nat, key: bytes, until: Option<nat>)
    requires Included(c1, c2, now, until) && Before(now, until) && key in LiveOnly(c1, now)
    ensures key in LiveOnly(c2, now) && Matches(c1[key], c2[key], until)
  {
  }

  lemma StoreHalves(c1: Contents, c2: Contents, now: uint32, op: Op, op1: Op, e1: Error, e2: Error, until: Option<nat>)
    requires Included(c1, c2, now, until) && Before(now, until)
    requires op.StoreOp? && !TimedCommand(c2, now, op, e2).1.Refused?
    requires op1 == op || op1 == op.(kind := KindReplace)
    ensures Follows(c1, TimedCommand(c1, now, op1, e1).0, TimedCommand(c2, now, op, e2).0, now, op1, until)
    ensures op1 == op && !op.kind.KindReplace? ==> TimedCommand(c1, now, op1, e1).1 == Ok
    ensures TimedCommand(c1, now, op1, e1).1 in {Ok, Refused(ErrKeyNotFound), Refused(e1)}
  {
    var c1', c2' := TimedCommand(c1, now, op1, e1).0, TimedCommand(c2, now, op, e2).0;
    if op.key in LiveOnly(c1, now) { ShownInBoth(c1, c2, now, op.key, until); }
    assert op.key in c2' && c2'[op.key] == Stored(op.data, op.flags, Deadline(op.ttl, now), 0);
  }

  lemma OtherHalves(c1: Contents, c2: Contents, now: uint32, op: Op, e1: Error, e2: Error, until: Option<nat>)
    requires Included(c1, c2, now, until) && Before(now, until)
    requires (op.ConcatOp? || op.TouchOp? || op.DeleteOp?) && !TimedCommand(c2, now, op, e2).1.Refused?
    ensures Follows(c1, TimedCommand(c1, now, op, e1).0, TimedCommand(c2, now, op, e2).0, now, op, until)
    ensures TimedCommand(c1, now, op, e1).1 in {Ok, Refused(ErrKeyNotFound), Refused(e1)}
  {
    if op.key in LiveOnly(c1, now) { ShownInBoth(c1, c2, now, op.key, until); }
  }

  lemma BothHalves(c1: Contents, c2: Contents, now: uint32, op: Op, op1: Op, e1: Error, e2: Error, until: Option<nat>)
    requires Included(c1, c2, now, until) && Before(now, until)
    requires !op.GetOp? && !op.GatOp? && !TimedCommand(c2, now, op, e2).1.Refused?
    requires op1 == op || (op.StoreOp? && op1 == op.(kind := KindReplace))
    ensures Follows(c1, TimedCommand(c1, now, op1, e1).0, TimedCommand(c2, now, op, e2).0, now, op1, until)
    ensures op1 == op && op.StoreOp? && !op.kind.KindReplace? ==> TimedCommand(c1, now, op1, e1).1 == Ok
    ensures TimedCommand(c1, now, op1, e1).1 in {Ok, Refused(ErrKeyNotFound), Refused(e1)}
  {
    if op.StoreOp? {
      StoreHalves(c1, c2, now, op, op1, e1, e2, until);
    } else {
      OtherHalves(c1, c2, now, op, e1, e2, until);
    }
  }

  /** Then L2 has whatever L1 has under the key. */
  lemma FollowedMatches(c1: Contents, c1': Contents, c2': Contents, now: nat, op1: Op, until: Option<nat>)
    requires Follows(c1, c1', c2', now, op1, until) && op1.key in c1'
    ensures op1.key in c2' && Matches(c1'[op1.key], c2'[op1.key], until)
  {
  }

  /** The command on L2 was not refused, and the matching command follows on L1. */
  lemma BothLevels(c1: Contents, c2: Contents, now: uint32, op: Op, op1: Op, e1: Error, e2: Error, until: Option<nat>)
    requires Included(c1, c2, now, until) && Before(now, until)
    requires !op.GetOp? && !op.GatOp? && !TimedCommand(c2, now, op, e2).1.Refused?
    requires op1 == op || (op.StoreOp? && op1 == op.(kind := KindReplace))
    ensures Included(TimedCommand(c1, now, op1, e1).0, TimedCommand(c2, now, op, e2).0, now, until)
    ensures Follows(c1, TimedCommand(c1, now, op1, e1).0, TimedCommand(c2, now, op, e2).0, now, op1, until)
    ensures op1 == op && op.StoreOp? && !op.kind.KindReplace? ==> TimedCommand(c1, now, op1, e1).1 == Ok
    ensures TimedCommand(c1, now, op1, e1).1 in {Ok, Refused(ErrKeyNotFound), Refused(e1)}
  {
    var c1', c2' := TimedCommand(c1, now, op1, e1).0, TimedCommand(c2, now, op, e2).0;
    BothHalves(c1, c2, now, op, op1, e1, e2, until);
    if op.key in c1' { FollowedMatches(c1, c1', c2', now, op1, until); }
    CommandOnlyAt(c1, now, op1, e1);
    CommandOnlyAt(c2, now, op, e2);
    IncludedAtKey(c1, c2, TimedCommand(c1, now, op1, e1).0, TimedCommand(c2, now, op, e2).0, op.key, now, until);
  }

  // ----- A get over two levels -----

  /** The answer that L2 gives to the get that this is the answer to. */
  function Resolve(c2: Contents, now: nat): Response -> Response {
    (r: Response) => ResponseTo(c2, now, r.key, r.opaqueToken, r.quiet, false)
  }

  /** A gete answer as a get answer. */
  function Plain(): Response -> Response {
    (r: Response) => r.(exptime := 0)
  }

  /** The first n answers as get answers. */
  function PlainFirst(rs: seq<Response>, n: nat): seq<Response>
    requires n <= |rs|
  {
    if n == 0 then [] else PlainFirst(rs, n - 1) + [rs[n - 1].(exptime := 0)]
  }

  lemma {:induction false} PlainFirstIsMap(rs: seq<Response>, n: nat)
    requires n <= |rs|
    ensures PlainFirst(rs, n) == Map(Plain(), rs[..n])
    decreases n
  {
    if n > 0 {
      PlainFirstIsMap(rs, n - 1);
      assert rs[..n] == rs[..n - 1] + [rs[n - 1]];
      MapAppends(Plain(), rs[..n - 1], rs[n - 1]);
    }
  }

  lemma ResolvedResponses(c1: Contents, c2: Contents, now: nat, req: GetRequest, until: Option<nat>)
    requires req.WellFormed() && Included(c1, c2, now, until) && Before(now, until)
    ensures Map(Resolve(c2, now), ResponsesTo(c1, now, req, false)) == ResponsesTo(c2, now, req, false)
    ensures forall r :: r in ResponsesTo(c1, now, req, false) && !r.miss ==> r == Resolve(c2, now)(r)
  {
  }

  lemma PlainResponses(c: Contents, now: nat, req: GetRequest)
    requires req.WellFormed()
    ensures Map(Plain(), ResponsesTo(c, now, req, true)) == ResponsesTo(c, now, req, false)
  {
  }

  lemma OneMoreKey(c: Contents, now: nat, req: GetRequest, key: bytes, opaqueToken: uint32, quiet: bool)
    requires req.WellFormed()
    ensures var more := GetRequest(req.keys + [key], req.opaques + [opaqueToken], req.quiet + [quiet],
                                   req.noopOpaque, req.noopEnd);
      ResponsesTo(c, now, more, false)
      == ResponsesTo(c, now, req, false) + [ResponseTo(c, now, key, opaqueToken, quiet, false)]
  {
  }

  lemma OneMoreFrame(rs: seq<Response>, r: Response)
    ensures Frames(rs + [r]) == Frames(rs) + Frame(ForGet, r)
  {
    assert (rs + [r])[..|rs|] == rs;
  }

  /** What has been sent and what is left to ask L2 are together what L2 would answer to all these, and every miss
      is left to ask. */
  ghost predicate Accounted(sent: seq<Response>, l2req: GetRequest, c2: Contents, now: nat, l1res: seq<Response>)
    requires l2req.WellFormed()
  {
    && multiset(sent) + multiset(ResponsesTo(c2, now, l2req, false)) == multiset(Map(Resolve(c2, now), l1res))
    && MissesIn(l1res, l2req.keys)
  }

  ghost predicate MissesIn(rs: seq<Response>, keys: seq<bytes>) {
    forall j :: 0 <= j < |rs| && rs[j].miss ==> rs[j].key in keys
  }

  lemma MissesInMore(rs: seq<Response>, keys: seq<bytes>, r: Response)
    requires MissesIn(rs, keys)
    ensures MissesIn(rs + [r], keys + [r.key])
    ensures !r.miss ==> MissesIn(rs + [r], keys)
  {
    assert forall key :: key in keys ==> key in keys + [r.key];
    assert (keys + [r.key])[|keys|] == r.key;
  }

  lemma AccountedHit(sent: seq<Response>, l2req: GetRequest, c2: Contents, now: nat, l1res: seq<Response>, r: Response)
    requires l2req.WellFormed() && Accounted(sent, l2req, c2, now, l1res) && r == Resolve(c2, now)(r) && !r.miss
    ensures Accounted(sent + [r], l2req, c2, now, l1res + [r])
  {
    MapAppends(Resolve(c2, now), l1res, r);
    MissesInMore(l1res, l2req.keys, r);
  }

  lemma AccountedMiss(sent: seq<Response>, l2req: GetRequest, c2: Contents, now: nat, l1res: seq<Response>, r: Response)
    requires l2req.WellFormed() && Accounted(sent, l2req, c2, now, l1res)
    ensures Accounted(sent, l2req.(keys := l2req.keys + [r.key], opaques := l2req.opaques + [r.opaqueToken],
                                   quiet := l2req.quiet + [r.quiet]), c2, now, l1res + [r])
  {
    MapAppends(Resolve(c2, now), l1res, r);
    OneMoreKey(c2, now, l2req, r.key, r.opaqueToken, r.quiet);
    MissesInMore(l1res, l2req.keys, r);
  }

  /** The hits among the first n answers are in L1. */
  ghost predicate Warmed(rs: seq<Response>, n: nat, c1: Contents, now: nat)
    requires n <= |rs|
  {
    forall j :: 0 <= j < n && !rs[j].miss ==> rs[j].key in LiveOnly(c1, now)
  }

  /** Nothing that L1 showed has gone. */
  ghost predicate StillThere(c1: Contents, c1': Contents, now: nat) {
    forall key :: key in LiveOnly(c1, now) ==> key in LiveOnly(c1', now)
  }

  lemma WarmedStep(rs: seq<Response>, n: nat, c0: Contents, c1: Contents, c1': Contents, now: nat)
    requires n < |rs| && Warmed(rs, n, c1, now) && StillThere(c0, c1, now) && StillThere(c1, c1', now)
    requires !rs[n].miss ==> rs[n].key in LiveOnly(c1', now)
    ensures Warmed(rs, n + 1, c1', now) && StillThere(c0, c1', now)
  {
  }

  /** A refused command changes nothing that shows. */
  lemma RefusalKeeps(c1: Contents, c2: Contents, now: uint32, op: Op, e2: Error, until: Option<nat>)
    requires Included(c1, c2, now, until) && Before(now, until)
    ensures TimedCommand(c2, now, op, e2).1.Refused? || TimedCommand(c2, now, op, e2).1.NotThere? ==>
      Included(c1, TimedCommand(c2, now, op, e2).0, now, until)
  {
  }

  /** A get-and-touch that hits in L1 hits in L2, where a touch does the same. */
  lemma GatHits(c1: Contents, c2: Contents, now: uint32, key: bytes, ttl: uint32, e1: Error, e2: Error,
                until: Option<nat>)
    requires Clock(now) && Included(c1, c2, now, until) && Before(now, until) && key in LiveOnly(c1, now)
    ensures var (c1', a1) := TimedCommand(c1, now, GatOp(key, ttl), e1);
      var (c2', a2) := TimedCommand(c2, now, GatOp(key, ttl), e2);
      && a1.Found? && a2 == a1 && TimedCommand(c2, now, TouchOp(key, ttl), e2) == (c2', Ok)
      && Included(c1', c2', now, until) && Follows(c1, c1', c2', now, GatOp(key, ttl), until)
  {
  }

  /** One that misses in L1 is answered by L2, and what that finds is added to L1. */
  lemma GatMisses(c1: Contents, c2: Contents, now: uint32, key: bytes, ttl: uint32, e1: Error, e2: Error,
                  until: Option<nat>)
    requires Clock(now) && Included(c1, c2, now, until) && Before(now, until) && AllPresentable(c2)
    requires key !in LiveOnly(c1, now)
    ensures var (c1', a1) := TimedCommand(c1, now, GatOp(key, ttl), e1);
      var (c2', a2) := TimedCommand(c2, now, GatOp(key, ttl), e2);
      && a1.NotThere? && !a2.Refused?
      && (a2.NotThere? ==> Included(c1', c2', now, until))
      && (a2.Found? ==>
            var added := TimedCommand(c1', now, StoreOp(KindAdd, key, a2.data, a2.flags, ttl), e1).0;
            Included(added, c2', now, until) && Follows(c1, added, c2', now, GatOp(key, ttl), until))
  {
    var (c2', a2) := TimedCommand(c2, now, GatOp(key, ttl), e2);
    CommandOnlyAt(c2, now, GatOp(key, ttl), e2);
    LiveIsLive(c1, now);
    IncludedAtKey(c1, c2, LiveOnly(c1, now), c2', key, now, until);
    if a2.Found? {
      AddedMatches(c1, c2, now, key, ttl, a2, e1, e2);
      var add := StoreOp(KindAdd, key, a2.data, a2.flags, ttl);
      CommandOnlyAt(c1, now, add, e1);
      IncludedAtKey(c1, c2, TimedCommand(c1, now, add, e1).0, c2', key, now, until);
    }
  }

  lemma AddedMatches(c1: Contents, c2: Contents, now: uint32, key: bytes, ttl: uint32, a2: Answer, e1: Error, e2: Error)
    requires Clock(now) && AllPresentable(c2) && key !in LiveOnly(c1, now)
    requires a2.Found? && a2 == TimedCommand(c2, now, GatOp(key, ttl), e2).1
    ensures var added := TimedCommand(c1, now, StoreOp(KindAdd, key, a2.data, a2.flags, ttl), e1).0;
      var c2' := TimedCommand(c2, now, GatOp(key, ttl), e2).0;
      key in added && key in c2' && added[key] == c2'[key]
  {
    assert Presentable(c2[key]);
  }

  /** A gete answer that shows what is stored. */
  predicate IsShown(c: Contents, now: nat, r: Response) {
    r.key in c && Alive(c[r.key], now) && r.data == c[r.key].data && r.flags == c[r.key].flags
    && r.exptime == Wrap32(c[r.key].expiry)
  }

  /** The back-fill of a get keeps the levels in agreement, even when the clock moves, because L2 gives a moment. */
  lemma RefillKeepsIncluded(c1: Contents, c2: Contents, r: Response, t2: uint32, t1: uint32, e1: Error,
                            until: Option<nat>)
    requires Clock(t1) && Clock(t2) && t2 <= t1 && Included(c1, c2, t2, until)
    requires AllPresentable(c2) && IsShown(c2, t2, r)
    ensures Included(TimedCommand(c1, t1, StoreOp(KindSet, r.key, r.data, r.flags, r.exptime), e1).0, c2, t1, until)
  {
  }

  /** Hits from L1, in any order, are what L2 would have answered. */
  lemma FirstLevelAnswers(c1: Contents, c2: Contents, now: nat, req: GetRequest, l1res: seq<Response>,
                          until: Option<nat>)
    requires req.WellFormed() && Included(c1, c2, now, until) && Before(now, until)
    requires multiset(l1res) == multiset(ResponsesTo(c1, now, req, false))
    ensures forall i :: 0 <= i < |l1res| && !l1res[i].miss ==> l1res[i] == Resolve(c2, now)(l1res[i])
    ensures multiset(Map(Resolve(c2, now), l1res)) == multiset(ResponsesTo(c2, now, req, false))
  {
    var inOrder := ResponsesTo(c1, now, req, false);
    ResolvedResponses(c1, c2, now, req, until);
    PermutationMaps(Resolve(c2, now), l1res, inOrder);
    forall i | 0 <= i < |l1res| && !l1res[i].miss
      ensures l1res[i] == Resolve(c2, now)(l1res[i])
    {
      assert l1res[i] in multiset(l1res);
      assert l1res[i] in inOrder;
    }
  }

  /** An answer from L2 that is not a miss shows what it holds. */
  lemma AnswerIsShown(c2: Contents, now: nat, req: GetRequest, l2res: seq<Response>, i: nat)
    requires req.WellFormed() && multiset(l2res) == multiset(ResponsesTo(c2, now, req, true))
    requires i < |l2res| && !l2res[i].miss
    ensures IsShown(c2, now, l2res[i])
  {
    assert l2res[i] in multiset(l2res);
    var j :| 0 <= j < |req.keys| && ResponsesTo(c2, now, req, true)[j] == l2res[i];
  }

  /** Answers from L2, in any order, show what it holds. */
  lemma SecondLevelAnswers(c2: Contents, now: nat, req: GetRequest, l2res: seq<Response>)
    requires req.WellFormed() && multiset(l2res) == multiset(ResponsesTo(c2, now, req, true))
    ensures forall i :: 0 <= i < |l2res| && !l2res[i].miss ==> IsShown(c2, now, l2res[i])
    ensures multiset(Map(Plain(), l2res)) == multiset(ResponsesTo(c2, now, req, false))
  {
    PermutationMaps(Plain(), l2res, ResponsesTo(c2, now, req, true));
    PlainResponses(c2, now, req);
    forall i | 0 <= i < |l2res| && !l2res[i].miss
      ensures IsShown(c2, now, l2res[i])
    {
      AnswerIsShown(c2, now, req, l2res, i);
    }
  }

  /** Every requested key has its answer among these, in whatever order they come. */
  lemma EveryKeyAnswered(c: Contents, now: nat, req: GetRequest, withExpiry: bool, rs: seq<Response>, i: nat)
    returns (j: nat)
    requires req.WellFormed() && multiset(rs) == multiset(ResponsesTo(c, now, req, withExpiry)) && i < |req.keys|
    ensures j < |rs| && rs[j].key == req.keys[i] && (rs[j].miss <==> req.keys[i] !in LiveOnly(c, now))
  {
    var inOrder := ResponsesTo(c, now, req, withExpiry);
    assert inOrder[i] in multiset(inOrder);
    assert inOrder[i] in multiset(rs);
    j :| 0 <= j < |rs| && rs[j] == inOrder[i];
  }

  lemma Regroup<T>(a: seq<T>, b: seq<T>)
    requires b != []
    ensures a + b == (a + b[..|b| - 1]) + [b[|b| - 1]]
  {
  }

  lemma {:induction false} FramesJoin(a: seq<Response>, b: seq<Response>)
    ensures Frames(a + b) == Frames(a) + Frames(b)
    decreases |b|
  {
    if b == [] {
      assert a + b == a && Frames(a) + [] == Frames(a);
    } else {
      var b', r := b[..|b| - 1], b[|b| - 1];
      FramesJoin(a, b');
      Regroup(a, b);
      OneMoreFrame(a + b', r);
      Associate(Frames(a), Frames(b'), Frame(ForGet, r));
    }
  }

  /** What L1 shows at this time L2 shows too, with the same data and flags, if not the same expiry. */
  ghost predicate SameDataAndFlags(c1: Contents, c2: Contents, now: nat) {
    forall k :: k in c1 && Alive(c1[k], now) ==>
      k in c2 && Alive(c2[k], now) && c1[k].data == c2[k].data && c1[k].flags == c2[k].flags
  }

  /** Both levels after a get-and-touch through the batch orchestrator. */
  function AfterBatchGat(c1: Contents, c2: Contents, now: uint32, key: bytes, ttl: uint32, e1: Error, e2: Error)
    : (Contents, Contents)
  {
    var (c2', a2) := TimedCommand(c2, now, GatOp(key, ttl), e2);
    (if a2.Found? then TimedCommand(c1, now, TouchOp(key, 0), e1).0 else c1, c2')
  }

  /** A value stored now with this time to live is still shown at that time. */
  predicate Lasts(ttl: uint32, now: nat, later: nat) {
    ttl == 0 || later < Deadline(ttl, now)
  }

  /** After such a get-and-touch the levels agree in expiry, or until then, if and only if the value is to be kept for
      ever, or until then, or is not in L1; and in data and flags, at once or later, if and only if it is still to be
      shown or is not in L1. */
  lemma BatchGatBothLevels(c1: Contents, c2: Contents, now: uint32, later: nat, key: bytes, ttl: uint32, e1: Error,
                           e2: Error, until: Option<nat>)
    requires Clock(now) && now <= later && Included(c1, c2, now, until) && Before(later, until)
    ensures var (c1', c2') := AfterBatchGat(c1, c2, now, key, ttl, e1, e2);
      && (Included(c1', c2', now, until) <==> KeepsUntil(ttl, now, until) || key !in LiveOnly(c1, now))
      && (SameDataAndFlags(c1', c2', later) <==> Lasts(ttl, now, later) || key !in LiveOnly(c1, now))
  {
    if key in LiveOnly(c1, now) {
      BatchGatMakesEternal(c1, c2, now, later, key, ttl, e1, e2, until);
    } else {
      BatchGatLeavesL1(c1, c2, now, later, key, ttl, e1, e2, until);
    }
  }

  /** A value stored now with this time to live is kept for ever, or at least until then. */
  predicate KeepsUntil(ttl: uint32, now: nat, until: Option<nat>) {
    ttl == 0 || (until.Some? && until.value <= Deadline(ttl, now))
  }

  lemma BatchGatMakesEternal(c1: Contents, c2: Contents, now: uint32, later: nat, key: bytes, ttl: uint32, e1: Error,
                             e2: Error, until: Option<nat>)
    requires Clock(now) && now <= later && Included(c1, c2, now, until) && Before(later, until)
    requires key in LiveOnly(c1, now)
    ensures var (c1', c2') := AfterBatchGat(c1, c2, now, key, ttl, e1, e2);
      && (Included(c1', c2', now, until) <==> KeepsUntil(ttl, now, until))
      && (SameDataAndFlags(c1', c2', later) <==> Lasts(ttl, now, later))
  {
    var (c1', c2') := AfterBatchGat(c1, c2, now, key, ttl, e1, e2);
    CommandOnlyAt(c1, now, TouchOp(key, 0), e1);
    CommandOnlyAt(c2, now, GatOp(key, ttl), e2);
    assert key in c1' && c1'[key] == c1[key].(expiry := 0);
    assert key in c2' && c2'[key] == c2[key].(expiry := Deadline(ttl, now)) && Matches(c1[key], c2[key], until);
    EternalIncluded(c1, c2, c1', c2', now, key, ttl, until);
    EternalShown(c1, c2, c1', c2', now, later, key, ttl, until);
  }

  lemma EternalIncluded(c1: Contents, c2: Contents, c1': Contents, c2': Contents, now: uint32, key: bytes, ttl: uint32,
                        until: Option<nat>)
    requires Clock(now) && Included(c1, c2, now, until) && Before(now, until)
    requires OnlyAt(LiveOnly(c1, now), c1', key) && OnlyAt(LiveOnly(c2, now), c2', key)
    requires key in c1 && key in c2 && Matches(c1[key], c2[key], until)
    requires key in c1' && c1'[key] == c1[key].(expiry := 0)
    requires key in c2' && c2'[key] == c2[key].(expiry := Deadline(ttl, now))
    ensures Included(c1', c2', now, until) <==> KeepsUntil(ttl, now, until)
  {
    assert Alive(c1'[key], now);
    if KeepsUntil(ttl, now, until) {
      IncludedAtKey(c1, c2, c1', c2', key, now, until);
    }
  }

  lemma EternalShown(c1: Contents, c2: Contents, c1': Contents, c2': Contents, now: uint32, later: nat, key: bytes,
                     ttl: uint32, until: Option<nat>)
    requires Clock(now) && now <= later && Included(c1, c2, now, until) && Before(later, until)
    requires OnlyAt(LiveOnly(c1, now), c1', key) && OnlyAt(LiveOnly(c2, now), c2', key)
    requires key in c1 && key in c2 && Matches(c1[key], c2[key], until)
    requires key in c1' && c1'[key] == c1[key].(expiry := 0)
    requires key in c2' && c2'[key] == c2[key].(expiry := Deadline(ttl, now))
    ensures SameDataAndFlags(c1', c2', later) <==> Lasts(ttl, now, later)
  {
    assert Alive(c1'[key], later);
    forall k | k != key && k in c1' && Alive(c1'[k], later)
      ensures k in c2' && Alive(c2'[k], later) && c1'[k].data == c2'[k].data && c1'[k].flags == c2'[k].flags
    {
      assert k in LiveOnly(c1, now) && Matches(c1[k], c2[k], until);
      assert k in LiveOnly(c2, now);
    }
  }

  lemma BatchGatLeavesL1(c1: Contents, c2: Contents, now: uint32, later: nat, key: bytes, ttl: uint32, e1: Error,
                         e2: Error, until: Option<nat>)
    requires Clock(now) && now <= later && Included(c1, c2, now, until) && Before(later, until)
    requires key !in LiveOnly(c1, now)
    ensures var (c1', c2') := AfterBatchGat(c1, c2, now, key, ttl, e1, e2);
      Included(c1', c2', now, until) && SameDataAndFlags(c1', c2', later)
  {
    var (c1', c2') := AfterBatchGat(c1, c2, now, key, ttl, e1, e2);
    CommandOnlyAt(c2, now, GatOp(key, ttl), e2);
    forall k | k in c1' && Alive(c1'[k], now)
      ensures k in LiveOnly(c1, now) && k != key && c1'[k] == c1[k]
    {
    }
    OthersIncluded(c1, c2, c1', c2', now, later, key, until);
  }

  lemma OthersIncluded(c1: Contents, c2: Contents, c1': Contents, c2': Contents, now: nat, later: nat, key: bytes,
                       until: Option<nat>)
    requires now <= later && Included(c1, c2, now, until) && Before(later, until)
    requires forall k :: k in c1' && Alive(c1'[k], now) ==> k in LiveOnly(c1, now) && k != key && c1'[k] == c1[k]
    requires OnlyAt(LiveOnly(c2, now), c2', key)
    ensures Included(c1', c2', now, until) && SameDataAndFlags(c1', c2', later)
  {
    forall k | k in c1' && Alive(c1'[k], now)
      ensures k in c2' && c2'[k] == c2[k] && Matches(c1'[k], c2'[k], until)
    {
      ShownInBoth(c1, c2, now, k, until);
    }
  }

  lemma BatchGatAtAnyTime(c1: Contents, c2: Contents, now: uint32, key: bytes, ttl: uint32, e1: Error, e2: Error,
                          until: Option<nat>)
    requires Clock(now) && Included(c1, c2, now, until) && Before(now, until)
    ensures var (c1', c2') := AfterBatchGat(c1, c2, now, key, ttl, e1, e2);
      && (Included(c1', c2', now, until) <==> KeepsUntil(ttl, now, until) || key !in LiveOnly(c1, now))
      && forall later: nat :: now <= later && Before(later, until) ==>
           (SameDataAndFlags(c1', c2', later) <==> Lasts(ttl, now, later) || key !in LiveOnly(c1, now))
  {
    BatchGatBothLevels(c1, c2, now, now, key, ttl, e1, e2, until);
    forall later: nat | now <= later && Before(later, until)
      ensures var (c1', c2') := AfterBatchGat(c1, c2, now, key, ttl, e1, e2);
        SameDataAndFlags(c1', c2', later) <==> Lasts(ttl, now, later) || key !in LiveOnly(c1, now)
    {
      BatchGatBothLevels(c1, c2, now, later, key, ttl, e1, e2, until);
    }
  }

  /** Such a get-and-touch to a moment that is past leaves L1 showing a value that L2 no longer shows. */
  lemma BatchGatToThePast(now: uint32)
    requires Clock(now)
    ensures var c := map[[1] := Stored([2], 0, 0, 0)];
      var (c1', c2') := AfterBatchGat(c, c, now, [1], REAL_TIME_MAX_DELTA + 1, ErrItemNotStored, ErrItemNotStored);
      [1] in LiveOnly(c1', now) && [1] !in LiveOnly(c2', now)
  {
  }

  /** What the handler in front makes of a refused append is the only thing that differs from one store to another. */
  lemma NotStoredIsForConcat(c: Contents, now: nat, op: Op, notStored: Error)
    ensures op.ConcatOp? && Shown(c, now, op.key).NotThere? ==>
      TimedCommand(c, now, op, notStored) == (LiveOnly(c, now), Refused(notStored))
    ensures !(op.ConcatOp? && Shown(c, now, op.key).NotThere?) ==>
      TimedCommand(c, now, op, notStored) == PlainStep(c, now, op)
  {
  }

  // ----- When the clock moves between the two levels -----

  /** The time to live is no number of seconds from now, or now is the same for both levels. */
  predicate SameDeadline(ttl: uint32, t: nat, t': nat) {
    ttl == 0 || ttl > REAL_TIME_MAX_DELTA || t == t'
  }

  /** The command writes an expiry to L1. */
  predicate WritesExpiry(c1: Contents, t1: nat, op1: Op) {
    match op1
    case StoreOp(kind, key, _, _, _) => kind.KindReplace? ==> key in LiveOnly(c1, t1)
    case TouchOp(key, _) => key in LiveOnly(c1, t1)
    case _ => false
  }

  /** The write of L2 that op is, and the write of L1 that belongs to it in either orchestrator. */
  predicate AreHalves(c2: Contents, t2: nat, op: Op, op1: Op, e2: Error) {
    && !op.GetOp? && !op.GatOp? && !TimedCommand(c2, t2, op, e2).1.Refused?
    && (op1 == op || (op.StoreOp? && op1 == op.(kind := KindReplace)))
  }

  lemma TickBreaksAgreement(c1: Contents, c2: Contents, op: Op, op1: Op, t2: uint32, t1: uint32, e1: Error, e2: Error)
    requires Clock(t1) && Clock(t2) && t2 <= t1 && Included(c1, c2, t2) && AreHalves(c2, t2, op, op1, e2)
    requires WritesExpiry(c1, t1, op1) && !SameDeadline(op1.ttl, t2, t1)
    ensures !Included(TimedCommand(c1, t1, op1, e1).0, TimedCommand(c2, t2, op, e2).0, t1)
  {
    var c1', c2' := TimedCommand(c1, t1, op1, e1).0, TimedCommand(c2, t2, op, e2).0;
    assert op.key in c1' && c1'[op.key].expiry == Deadline(op1.ttl, t1);
    assert op.key in c2' && c2'[op.key].expiry == Deadline(op1.ttl, t2);
    assert Alive(c1'[op.key], t1);
  }

  lemma TickKeepsStore(c1: Contents, c2: Contents, op: Op, op1: Op, t2: uint32, t1: uint32, e1: Error, e2: Error)
    requires Clock(t1) && Clock(t2) && t2 <= t1 && Included(c1, c2, t2) && AreHalves(c2, t2, op, op1, e2)
    requires op.StoreOp? && (!WritesExpiry(c1, t1, op1) || SameDeadline(op1.ttl, t2, t1))
    ensures Included(TimedCommand(c1, t1, op1, e1).0, TimedCommand(c2, t2, op, e2).0, t1)
  {
  }

  lemma TickKeepsAgreement(c1: Contents, c2: Contents, op: Op, op1: Op, t2: uint32, t1: uint32, e1: Error, e2: Error)
    requires Clock(t1) && Clock(t2) && t2 <= t1 && Included(c1, c2, t2) && AreHalves(c2, t2, op, op1, e2)
    requires !WritesExpiry(c1, t1, op1) || SameDeadline(op1.ttl, t2, t1)
    ensures Included(TimedCommand(c1, t1, op1, e1).0, TimedCommand(c2, t2, op, e2).0, t1)
  {
    if op.StoreOp? { TickKeepsStore(c1, c2, op, op1, t2, t1, e1, e2); }
  }

  /** A write of either orchestrator that reaches L2 at one time and L1 at a later one leaves the levels in agreement
      if and only if its time to live is not relative, or the times are the same, or L1 has nothing to write to. */
  lemma TickBetweenLevels(c1: Contents, c2: Contents, op: Op, op1: Op, t2: uint32, t1: uint32, e1: Error, e2: Error)
    requires Clock(t1) && Clock(t2) && t2 <= t1 && Included(c1, c2, t2) && AreHalves(c2, t2, op, op1, e2)
    ensures Included(TimedCommand(c1, t1, op1, e1).0, TimedCommand(c2, t2, op, e2).0, t1)
       <==> !WritesExpiry(c1, t1, op1) || SameDeadline(op1.ttl, t2, t1)
  {
    if WritesExpiry(c1, t1, op1) && !SameDeadline(op1.ttl, t2, t1) {
      TickBreaksAgreement(c1, c2, op, op1, t2, t1, e1, e2);
    } else {
      TickKeepsAgreement(c1, c2, op, op1, t2, t1, e1, e2);
    }
  }

  /** A get-and-touch that hits in L1, and touches L2 later. What is reported as an inconsistency is a value that ran
      out in between; and agreement depends on the time to live as it does for a write. */
  lemma TickInGatHit(c1: Contents, c2: Contents, key: bytes, ttl: uint32, t1: uint32, t2: uint32, e1: Error, e2: Error)
    requires Clock(t1) && Clock(t2) && t1 <= t2 && Included(c1, c2, t1) && key in LiveOnly(c1, t1)
    ensures var c1' := TimedCommand(c1, t1, GatOp(key, ttl), e1).0;
      var (c2', a2) := TimedCommand(c2, t2, TouchOp(key, ttl), e2);
      && (a2.Refused? <==> !Alive(c1[key], t2))
      && (Included(c1', c2', t2) <==> !Lasts(ttl, t1, t2) || (Alive(c1[key], t2) && SameDeadline(ttl, t1, t2)))
  {
    var c1' := TimedCommand(c1, t1, GatOp(key, ttl), e1).0;
    assert key in c1' && c1'[key].expiry == Deadline(ttl, t1);
  }

  /** One that misses in L1, is answered by L2 later, and adds to L1 later still. */
  lemma TickInGatMiss(c1: Contents, c2: Contents, key: bytes, ttl: uint32, t1: uint32, t2: uint32, t3: uint32,
                      e1: Error, e2: Error)
    requires Clock(t1) && Clock(t2) && Clock(t3) && t1 <= t2 <= t3 && Included(c1, c2, t1) && AllPresentable(c2)
    requires key !in LiveOnly(c1, t1) && key in LiveOnly(c2, t2)
    ensures var (c2', a2) := TimedCommand(c2, t2, GatOp(key, ttl), e2);
      var added := TimedCommand(LiveOnly(c1, t1), t3, StoreOp(KindAdd, key, a2.data, a2.flags, ttl), e1).0;
      Included(added, c2', t3) <==> SameDeadline(ttl, t2, t3)
  {
    var (c2', a2) := TimedCommand(c2, t2, GatOp(key, ttl), e2);
    var added := TimedCommand(LiveOnly(c1, t1), t3, StoreOp(KindAdd, key, a2.data, a2.flags, ttl), e1).0;
    assert key in added && added[key].expiry == Deadline(ttl, t3);
    if !SameDeadline(ttl, t2, t3) { assert Alive(added[key], t3) && added[key].expiry != c2'[key].expiry; }
  }

  lemma TickBreaksBatchGat(c1: Contents, c2: Contents, key: bytes, ttl: uint32, t2: uint32, t1: uint32, e1: Error,
                           e2: Error)
    requires Clock(t2) && key in LiveOnly(c2, t2) && key in LiveOnly(c1, t1) && ttl != 0
    ensures !Included(TimedCommand(c1, t1, TouchOp(key, 0), e1).0, TimedCommand(c2, t2, GatOp(key, ttl), e2).0, t1)
  {
    var c1', c2' := TimedCommand(c1, t1, TouchOp(key, 0), e1).0, TimedCommand(c2, t2, GatOp(key, ttl), e2).0;
    assert key in c1' && c1'[key].expiry == 0;
    assert key in c2' && c2'[key].expiry == Deadline(ttl, t2);
    assert Alive(c1'[key], t1);
  }

  lemma TickKeepsBatchGat(c1: Contents, c2: Contents, key: bytes, ttl: uint32, t2: uint32, t1: uint32, e1: Error,
                          e2: Error)
    requires Clock(t1) && Clock(t2) && t2 <= t1 && Included(c1, c2, t2) && key in LiveOnly(c2, t2)
    requires ttl == 0 || key !in LiveOnly(c1, t1)
    ensures Included(TimedCommand(c1, t1, TouchOp(key, 0), e1).0, TimedCommand(c2, t2, GatOp(key, ttl), e2).0, t1)
  {
  }

  /** A get-and-touch through the batch orchestrator: L2 first, L1 later. */
  lemma TickInBatchGat(c1: Contents, c2: Contents, key: bytes, ttl: uint32, t2: uint32, t1: uint32, e1: Error,
                       e2: Error)
    requires Clock(t1) && Clock(t2) && t2 <= t1 && Included(c1, c2, t2) && key in LiveOnly(c2, t2)
    ensures Included(TimedCommand(c1, t1, TouchOp(key, 0), e1).0, TimedCommand(c2, t2, GatOp(key, ttl), e2).0, t1)
       <==> ttl == 0 || key !in LiveOnly(c1, t1)
  {
    if ttl != 0 && key in LiveOnly(c1, t1) {
      TickBreaksBatchGat(c1, c2, key, ttl, t2, t1, e1, e2);
    } else {
      TickKeepsBatchGat(c1, c2, key, ttl, t2, t1, e1, e2);
    }
  }
}
