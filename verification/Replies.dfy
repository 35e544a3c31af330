/** The batching connection: the replies to a batch, in any order, are handed back to the channels they belong to. */
module Replies {
  import opened Bytes
  import opened Demux
  import opened Headers
  import opened Requests
  import Responses
  import opened Sequences

  predicate CarriesValue(opcode: byte) {
    opcode in {OPCODE_GET, OPCODE_GETQ, OPCODE_GAT, OPCODE_GETE, OPCODE_GETEQ}
  }

  predicate CarriesExpiry(opcode: byte) {
    opcode in {OPCODE_GETE, OPCODE_GETEQ}
  }

  /** A reply of the server. In a reply without a value `data` is its message, which nobody looks at. */
  datatype Reply = Reply(opcode: byte, status: uint16, token: uint32, flags: uint32, exptime: uint32, data: bytes)
  {
    predicate HasValue() {
      DecodeError(status).None? && CarriesValue(opcode)
    }

    predicate Fits() {
      |data| + 8 < TWO_TO_THE_32
    }

    function Extras(): (b: bytes)
      ensures |b| <= 8
    {
      if !HasValue() then [] else PutUint32(flags) + if CarriesExpiry(opcode) then PutUint32(exptime) else []
    }

    function Head(): Header {
      Header(opcode, 0, |Extras()|, status, Wrap32(|Extras()| + |data|), token)
    }

    function Wire(): bytes {
      Head().Encode(MAGIC_RESPONSE) + (Extras() + data)
    }
  }

  /** A reply that carries a value is, byte for byte, what the responder of the protocol writes for a hit. */
  lemma HitOnWire(kind: Responses.Kind, r: Responses.Response)
    requires |r.data| + 8 < TWO_TO_THE_32
    ensures var reply := Reply(Responses.AnswerOpcode(kind), STATUS_SUCCESS, r.opaqueToken, r.flags, r.exptime, r.data);
      reply.Wire() == Responses.HitFrame(kind, r)
  {
    var exp := if kind.ForGetE? then PutUint32(r.exptime) else [];
    Associate(PutUint32(r.flags), exp, r.data);
  }

  /** And one with an error status is what it writes for an error. */
  lemma ErrorOnWire(opcode: byte, e: Error, opaqueToken: uint32)
    requires IsAppError(e)
    ensures Reply(opcode, ErrorToCode(e), opaqueToken, 0, 0, []).Wire() == Responses.ErrorFrame(opcode, e, opaqueToken)
  {
    Responses.ErrorCodes(e);
  }

  function WireAll(replies: seq<Reply>): bytes {
    if replies == [] then [] else replies[0].Wire() + WireAll(replies[1..])
  }

  /** What is put on a channel. A reply with an error status becomes a miss without an error, whatever the error. */
  datatype Answer =
    | Ack
    | Miss(key: bytes, opaqueToken: uint32, quiet: bool)
    | Hit(key: bytes, data: bytes, flags: uint32, exptime: uint32, opaqueToken: uint32, quiet: bool)

  /** What happens on the channels. */
  datatype Act = Sends(chan: Channel, answer: Answer) | Closes(chan: Channel)

  function AnswerFor(h: Handle, r: Reply): Answer {
    if DecodeError(r.status).Some? then Miss(h.key, h.opaqueToken, h.quiet)
    else if CarriesValue(r.opcode) then
      Hit(h.key, r.data, r.flags, if CarriesExpiry(r.opcode) then r.exptime else 0, h.opaqueToken, h.quiet)
    else Ack
  }

  /** The handle under a token; the default is never used. */
  function HandleUnder(table: map<uint32, Handle>, token: uint32): Handle {
    if token in table then table[token] else Handle([], 0, false, 0)
  }

  function DeliveryFor(table: map<uint32, Handle>): Reply -> Act {
    (r: Reply) => var h := HandleUnder(table, r.token); Sends(h.chan, AnswerFor(h, r))
  }

  /** What these replies lead to, in their order. */
  function Deliveries(table: map<uint32, Handle>, replies: seq<Reply>): seq<Act> {
    Map(DeliveryFor(table), replies)
  }

  function ToClose(): Channel -> Act {
    (c: Channel) => Closes(c)
  }

  function Closings(channels: seq<Channel>): seq<Act> {
    Map(ToClose(), channels)
  }

  // ----- Replies that match a batch -----

  ghost predicate TokensDiffer(replies: seq<Reply>) {
    forall i, j :: 0 <= i < j < |replies| ==> replies[i].token != replies[j].token
  }

  /** Replies that can be read against this table: one for each entry, each of a size that its header can say. */
  ghost predicate Fitting(table: map<uint32, Handle>, replies: seq<Reply>) {
    && |table| == |replies| && TokensDiffer(replies)
    && forall i :: 0 <= i < |replies| ==> replies[i].token in table && replies[i].Fits()
  }

  function TokenOf(): Reply -> uint32 {
    (r: Reply) => r.token
  }

  function SlotToken(): Slot -> uint32 {
    (s: Slot) => s.token
  }

  /** One reply for each command, in any order. */
  ghost predicate Answers(replies: seq<Reply>, ss: seq<Slot>) {
    && multiset(Map(TokenOf(), replies)) == multiset(Map(SlotToken(), ss))
    && forall i :: 0 <= i < |replies| ==> replies[i].Fits()
  }

  /** In a sequence of different elements each occurs once. */
  lemma {:induction false} OccursOnce<T>(s: seq<T>, x: T)
    requires forall i, j :: 0 <= i < j < |s| ==> s[i] != s[j]
    ensures multiset(s)[x] <= 1
    decreases |s|
  {
    if s != [] {
      OccursOnce(s[..|s| - 1], x);
      assert s == s[..|s| - 1] + [s[|s| - 1]];
      if s[|s| - 1] == x { assert x !in s[..|s| - 1]; }
    }
  }

  lemma OccursTwice<T>(s: seq<T>, i: nat, j: nat)
    requires i < j < |s| && s[i] == s[j]
    ensures multiset(s)[s[i]] >= 2
  {
    assert s == s[..j] + s[j..] && s[i] == s[..j][i] && s[j] == s[j..][0];
  }

  /** Then every reply finds its handle, and no two the same. */
  lemma RepliesFit(replies: seq<Reply>, ss: seq<Slot>)
    requires Distinct(ss) && Answers(replies, ss)
    ensures Fitting(Table(ss), replies)
  {
    var rs, ts := Map(TokenOf(), replies), Map(SlotToken(), ss);
    assert |multiset(rs)| == |rs| && |multiset(ts)| == |ts|;
    TableHolds(ss);
    forall i | 0 <= i < |replies|
      ensures replies[i].token in Table(ss)
    {
      assert rs[i] in multiset(rs);
      assert rs[i] in ts;
    }
    forall i, j | 0 <= i < j < |replies|
      ensures replies[i].token != replies[j].token
    {
      OccursOnce(ts, rs[i]);
      if rs[i] == rs[j] { OccursTwice(rs, i, j); }
    }
  }

  // ----- The reader -----

  /** The next header on the stream and what is behind it. */
  lemma ReplyHead(r: Reply, rest: bytes)
    ensures TakeHeader(r.Wire() + rest, MAGIC_RESPONSE) == Got(r.Head(), r.Extras() + (r.data + rest))
  {
    Associate(r.Head().Encode(MAGIC_RESPONSE), r.Extras() + r.data, rest);
    Associate(r.Extras(), r.data, rest);
    HeaderRoundTrip(r.Head(), MAGIC_RESPONSE, r.Extras() + (r.data + rest));
  }

  lemma WireFront(replies: seq<Reply>, rest: bytes)
    requires replies != []
    ensures WireAll(replies) + rest == replies[0].Wire() + (WireAll(replies[1..]) + rest)
  {
    Associate(replies[0].Wire(), WireAll(replies[1..]), rest);
  }

  /** Takes the value of a reply off the stream: flags, for some opcodes the expiry, and as many bytes as the
      header leaves. */
  method TakeValue(r: Reader, h: Header, ghost reply: Reply, ghost rest: bytes)
    returns (flags: uint32, exptime: uint32, data: bytes)
    requires reply.Fits() && reply.HasValue() && h == reply.Head()
    requires r.rest == reply.Extras() + (reply.data + rest)
    modifies r
    ensures r.rest == rest && flags == reply.flags && data == reply.data
    ensures exptime == if CarriesExpiry(reply.opcode) then reply.exptime else 0
  {
    var wantsExpiry := CarriesExpiry(h.opcode);
    ghost var exp := if wantsExpiry then PutUint32(reply.exptime) else [];
    Associate(PutUint32(reply.flags), exp, reply.data + rest);
    TakeUint32Concat(reply.flags, exp + (reply.data + rest));
    var f := r.ReadUint32();
    flags, exptime := f.value, 0;
    if wantsExpiry {
      TakeUint32Concat(reply.exptime, reply.data + rest);
      var e := r.ReadUint32();
      exptime := e.value;
    } else {
      assert exp + (reply.data + rest) == reply.data + rest;
    }
    TakeConcat(reply.data, rest);
    var d := r.ReadFull(Wrap32(h.totalBodyLength - h.keyLength - h.extraLength));
    data := d.value;
  }

  datatype Batch = Batch(responses: map<uint32, Handle>, channels: seq<Channel>)

  class Conn {
    const reader: Reader
    var log: seq<Act>

    constructor (reader: Reader)
      ensures this.reader == reader && log == []
    {
      this.reader := reader;
      log := [];
    }

    /** One reply. A token that is not expected is the panic "Batch out of sync". */
    method Dispatch(responses: map<uint32, Handle>, ghost reply: Reply, ghost rest: bytes)
      returns (left: map<uint32, Handle>, outOfSync: bool)
      requires reply.Fits() && reader.rest == reply.Wire() + rest
      modifies this, reader
      ensures reader.rest == rest
      ensures outOfSync <==> reply.token !in responses
      ensures outOfSync ==> log == old(log) && left == responses
      ensures !outOfSync ==>
        && log == old(log) + [DeliveryFor(responses)(reply)]
        && left == responses - {reply.token} && |left| == |responses| - 1
    {
      ReplyHead(reply, rest);
      var hr := ReadResponseHeader(reader);
      var h := hr.value;
      var answer;
      var rh := HandleUnder(responses, h.opaqueToken);
      if DecodeError(h.status).Some? {
        Discard(h, reply, rest);
        answer := Miss(rh.key, rh.opaqueToken, rh.quiet);
      } else if CarriesValue(h.opcode) {
        var flags, exptime, data := TakeValue(reader, h, reply, rest);
        answer := Hit(rh.key, data, flags, exptime, rh.opaqueToken, rh.quiet);
      } else {
        Discard(h, reply, rest);
        answer := Ack;
      }
      if h.opaqueToken !in responses {
        return responses, true;
      }
      log := log + [Sends(rh.chan, answer)];
      left, outOfSync := responses - {h.opaqueToken}, false;
      SmallerTable(responses, h.opaqueToken);
    }

    method Discard(h: Header, ghost reply: Reply, ghost rest: bytes)
      requires reply.Fits() && !reply.HasValue() && h == reply.Head()
      requires reader.rest == reply.Extras() + (reply.data + rest)
      modifies reader
      ensures reader.rest == rest
    {
      assert reply.Extras() + (reply.data + rest) == reply.data + rest;
      TakeConcat(reply.data, rest);
      var message := reader.Discard(h.totalBodyLength);
    }

    /** reader, for one batch. It takes exactly the bytes of the replies to this batch, never finds itself out of
        sync, hands every reply to the channel of its request, and then closes every channel of the batch. */
    method ReadBatch(batch: Batch, ghost replies: seq<Reply>, ghost rest: bytes) returns (outOfSync: bool)
      requires reader.rest == WireAll(replies) + rest && Fitting(batch.responses, replies)
      modifies this, reader
      ensures !outOfSync && reader.rest == rest
      ensures log == old(log) + Deliveries(batch.responses, replies) + Closings(batch.channels)
    {
      var responses := batch.responses;
      ghost var i, left := 0, replies;
      outOfSync := false;
      StartOfBatch(log, batch.responses, replies);
      while |responses| > 0 && !outOfSync
        invariant i <= |replies| && left == replies[i..] && !outOfSync
        invariant reader.rest == WireAll(left) + rest && Remaining(batch.responses, responses, replies, i)
        invariant log == old(log) + Deliveries(batch.responses, replies[..i])
        modifies this, reader
        decreases |responses|
      {
        responses, outOfSync := ReadReply(batch.responses, responses, replies, i, rest, old(log));
        i, left := i + 1, left[1..];
      }
      EndOfBatch(replies, i, rest);
      log := log + Closings(batch.channels);
    }

    /** One turn of that loop. */
    method ReadReply(ghost table: map<uint32, Handle>, responses: map<uint32, Handle>, ghost replies: seq<Reply>,
                     ghost i: nat, ghost rest: bytes, ghost before: seq<Act>)
      returns (left: map<uint32, Handle>, outOfSync: bool)
      requires Fitting(table, replies) && i < |replies| && Remaining(table, responses, replies, i)
      requires reader.rest == WireAll(replies[i..]) + rest
      requires log == before + Deliveries(table, replies[..i])
      modifies this, reader
      ensures !outOfSync && Remaining(table, left, replies, i + 1) && |left| == |responses| - 1
      ensures reader.rest == WireAll(replies[i + 1..]) + rest
      ensures log == before + Deliveries(table, replies[..i + 1])
    {
      assert replies[i..][1..] == replies[i + 1..];
      WireFront(replies[i..], rest);
      RemainingStep(table, responses, replies, i);
      Associate(before, Deliveries(table, replies[..i]), [DeliveryFor(table)(replies[i])]);
      left, outOfSync := Dispatch(responses, replies[i], WireAll(replies[i + 1..]) + rest);
    }

    /** reader, for batches that come one after the other. */
    method ReadAll(batches: seq<Batch>, ghost replies: seq<seq<Reply>>, ghost rest: bytes) returns (outOfSync: bool)
      requires |replies| == |batches| && reader.rest == WireFlat(replies) + rest
      requires forall i :: 0 <= i < |batches| ==> Fitting(batches[i].responses, replies[i])
      modifies this, reader
      ensures !outOfSync && reader.rest == rest
      ensures log == old(log) + AllActs(batches, replies, |batches|)
    {
      outOfSync := false;
      assert log + [] == log && replies[0..] == replies;
      for i := 0 to |batches|
        invariant !outOfSync && reader.rest == WireFlat(replies[i..]) + rest
        invariant log == old(log) + AllActs(batches, replies, i)
        modifies this, reader
      {
        outOfSync := ReadNext(batches, replies, i, rest, old(log));
      }
      assert WireFlat(replies[|batches|..]) == [] && [] + rest == rest;
    }

    /** One turn of that loop. */
    method ReadNext(batches: seq<Batch>, ghost replies: seq<seq<Reply>>, i: nat, ghost rest: bytes,
                    ghost before: seq<Act>)
      returns (outOfSync: bool)
      requires i < |batches| == |replies| && Fitting(batches[i].responses, replies[i])
      requires reader.rest == WireFlat(replies[i..]) + rest && log == before + AllActs(batches, replies, i)
      modifies this, reader
      ensures !outOfSync && reader.rest == WireFlat(replies[i + 1..]) + rest
      ensures log == before + AllActs(batches, replies, i + 1)
    {
      assert replies[i..][1..] == replies[i + 1..];
      Associate(WireAll(replies[i]), WireFlat(replies[i + 1..]), rest);
      ActsAppend(before, batches, replies, i);
      outOfSync := ReadBatch(batches[i], replies[i], WireFlat(replies[i + 1..]) + rest);
    }
  }

  lemma ActsAppend(before: seq<Act>, batches: seq<Batch>, replies: seq<seq<Reply>>, i: nat)
    requires i < |batches| == |replies|
    ensures before + AllActs(batches, replies, i + 1)
         == before + AllActs(batches, replies, i) + Deliveries(batches[i].responses, replies[i])
            + Closings(batches[i].channels)
  {
    var acts, ds, cs := AllActs(batches, replies, i), Deliveries(batches[i].responses, replies[i]),
                        Closings(batches[i].channels);
    Associate(before, acts, ds + cs);
    Associate(before + acts, ds, cs);
  }

  /** What is left of the table after the first i replies. */
  ghost predicate Remaining(table: map<uint32, Handle>, responses: map<uint32, Handle>, replies: seq<Reply>, i: nat)
    requires i <= |replies|
  {
    && |responses| == |replies| - i
    && (forall j :: i <= j < |replies| ==> replies[j].token in responses)
    && (forall t :: t in responses ==> t in table && responses[t] == table[t])
  }

  lemma RemainingStep(table: map<uint32, Handle>, responses: map<uint32, Handle>, replies: seq<Reply>, i: nat)
    requires i < |replies| && Remaining(table, responses, replies, i) && TokensDiffer(replies)
    ensures Remaining(table, responses - {replies[i].token}, replies, i + 1)
    ensures DeliveryFor(responses)(replies[i]) == DeliveryFor(table)(replies[i])
    ensures Deliveries(table, replies[..i + 1]) == Deliveries(table, replies[..i]) + [DeliveryFor(table)(replies[i])]
  {
    SmallerTable(responses, replies[i].token);
    assert replies[..i + 1] == replies[..i] + [replies[i]];
    MapAppends(DeliveryFor(table), replies[..i], replies[i]);
  }

  lemma StartOfBatch(log: seq<Act>, table: map<uint32, Handle>, replies: seq<Reply>)
    ensures log == log + Deliveries(table, replies[..0]) && replies[0..] == replies
  {
  }

  lemma EndOfBatch(replies: seq<Reply>, i: nat, rest: bytes)
    requires i == |replies|
    ensures replies[..i] == replies && replies[i..] == [] && WireAll(replies[i..]) + rest == rest
  {
  }

  lemma SmallerTable(m: map<uint32, Handle>, t: uint32)
    requires t in m
    ensures |m - {t}| == |m| - 1
  {
    assert m == (m - {t})[t := m[t]];
  }

  function WireFlat(replies: seq<seq<Reply>>): bytes {
    if replies == [] then [] else WireAll(replies[0]) + WireFlat(replies[1..])
  }

  function AllActs(batches: seq<Batch>, replies: seq<seq<Reply>>, n: nat): seq<Act>
    requires n <= |batches| == |replies|
  {
    if n == 0 then []
    else
      AllActs(batches, replies, n - 1)
      + (Deliveries(batches[n - 1].responses, replies[n - 1]) + Closings(batches[n - 1].channels))
  }

  // ----- Who gets which reply -----

  /** What the server answers to each command, as a function of the command, which carries its opaque. */
  ghost predicate AnsweredBy(f: Command -> Reply, replies: seq<Reply>, ss: seq<Slot>) {
    && multiset(replies) == multiset(Map(ReplyTo(f), ss))
    && forall i :: 0 <= i < |ss| ==> f(ss[i].command).token == ss[i].token && f(ss[i].command).Fits()
  }

  function ReplyTo(f: Command -> Reply): Slot -> Reply {
    (s: Slot) => f(s.command)
  }

  function DeliveryOf(f: Command -> Reply): Slot -> Act {
    (s: Slot) => Sends(s.handle.chan, AnswerFor(s.handle, f(s.command)))
  }

  /** A server that answers every command once, in any order, with the command's opaque. */
  lemma AnsweredByAnswers(f: Command -> Reply, replies: seq<Reply>, ss: seq<Slot>)
    requires AnsweredBy(f, replies, ss)
    ensures Answers(replies, ss)
  {
    PermutationMaps(TokenOf(), replies, Map(ReplyTo(f), ss));
    assert Map(TokenOf(), Map(ReplyTo(f), ss)) == Map(SlotToken(), ss);
    forall i | 0 <= i < |replies|
      ensures replies[i].Fits()
    {
      assert replies[i] in multiset(replies);
      assert replies[i] in Map(ReplyTo(f), ss);
    }
  }

  /** Whatever the order of the replies, what goes out on the channels is, for every command, the server's reply to
      that command, under the command's own key, opaque and quiet flag, on the channel of its request. */
  lemma RepliesReachTheirRequests(f: Command -> Reply, replies: seq<Reply>, ss: seq<Slot>)
    requires Distinct(ss) && AnsweredBy(f, replies, ss)
    ensures Fitting(Table(ss), replies)
    ensures multiset(Deliveries(Table(ss), replies)) == multiset(Map(DeliveryOf(f), ss))
  {
    AnsweredByAnswers(f, replies, ss);
    RepliesFit(replies, ss);
    TableHolds(ss);
    PermutationMaps(DeliveryFor(Table(ss)), replies, Map(ReplyTo(f), ss));
    assert Map(DeliveryFor(Table(ss)), Map(ReplyTo(f), ss)) == Map(DeliveryOf(f), ss);
  }

  /** What happens on one channel. */
  function OnChannel(chan: Channel, acts: seq<Act>): seq<Act> {
    if acts == [] then []
    else OnChannel(chan, acts[..|acts| - 1]) + if acts[|acts| - 1].chan == chan then [acts[|acts| - 1]] else []
  }

  lemma OnChannelAppends(chan: Channel, acts: seq<Act>, a: Act)
    ensures OnChannel(chan, acts + [a]) == if a.chan == chan then OnChannel(chan, acts) + [a] else OnChannel(chan, acts)
  {
    assert (acts + [a])[..|acts|] == acts;
    assert OnChannel(chan, acts) + [] == OnChannel(chan, acts);
  }

  lemma {:induction false} OnChannelCounts(chan: Channel, acts: seq<Act>, a: Act)
    ensures multiset(OnChannel(chan, acts))[a] == if a.chan == chan then multiset(acts)[a] else 0
    decreases |acts|
  {
    if acts != [] {
      OnChannelCounts(chan, acts[..|acts| - 1], a);
      assert acts == acts[..|acts| - 1] + [acts[|acts| - 1]];
    }
  }

  lemma OnChannelPermutation(chan: Channel, a: seq<Act>, b: seq<Act>)
    requires multiset(a) == multiset(b)
    ensures multiset(OnChannel(chan, a)) == multiset(OnChannel(chan, b))
  {
    forall x: Act
      ensures multiset(OnChannel(chan, a))[x] == multiset(OnChannel(chan, b))[x]
    {
      OnChannelCounts(chan, a, x);
      OnChannelCounts(chan, b, x);
    }
  }

  /** The commands whose replies go to this channel. */
  function SlotsOn(chan: Channel, ss: seq<Slot>): seq<Slot> {
    if ss == [] then []
    else SlotsOn(chan, ss[..|ss| - 1]) + if ss[|ss| - 1].handle.chan == chan then [ss[|ss| - 1]] else []
  }

  lemma SlotsOnAppends(chan: Channel, ss: seq<Slot>, s: Slot)
    ensures SlotsOn(chan, ss + [s]) == if s.handle.chan == chan then SlotsOn(chan, ss) + [s] else SlotsOn(chan, ss)
  {
    assert (ss + [s])[..|ss|] == ss;
    assert SlotsOn(chan, ss) + [] == SlotsOn(chan, ss);
  }

  /** What is delivered on a channel is delivered for the commands of that channel. */
  lemma {:induction false} DeliveredOnChannel(chan: Channel, f: Command -> Reply, ss: seq<Slot>)
    ensures OnChannel(chan, Map(DeliveryOf(f), ss)) == Map(DeliveryOf(f), SlotsOn(chan, ss))
    decreases |ss|
  {
    if ss != [] {
      var init, last := ss[..|ss| - 1], ss[|ss| - 1];
      DeliveredOnChannel(chan, f, init);
      assert ss == init + [last];
      MapAppends(DeliveryOf(f), init, last);
      OnChannelAppends(chan, Map(DeliveryOf(f), init), DeliveryOf(f)(last));
      SlotsOnAppends(chan, init, last);
      MapAppends(DeliveryOf(f), SlotsOn(chan, init), last);
    }
  }

  /** A request adds nothing to what another channel has. */
  lemma {:induction false} SlotsOnOther(chan: Channel, ss: seq<Slot>, ask: Ask, base: uint32, at: nat, n: nat)
    requires ask.Valid() && n <= Size(ask) && ask.chan != chan
    ensures SlotsOn(chan, AddSlots(ss, ask, base, at, n)) == SlotsOn(chan, ss)
    decreases n
  {
    if n > 0 {
      SlotsOnOther(chan, ss, ask, base, at, n - 1);
      SlotsOnAppends(chan, AddSlots(ss, ask, base, at, n - 1), SlotOf(ask, base, at, n - 1));
    }
  }

  /** And it adds all its commands to its own. */
  lemma {:induction false} SlotsOnOwn(ss: seq<Slot>, ask: Ask, base: uint32, at: nat, n: nat)
    requires ask.Valid() && n <= Size(ask) && SlotsOn(ask.chan, ss) == []
    ensures SlotsOn(ask.chan, AddSlots(ss, ask, base, at, n)) == AddSlots([], ask, base, at, n)
    decreases n
  {
    if n > 0 {
      SlotsOnOwn(ss, ask, base, at, n - 1);
      SlotsOnAppends(ask.chan, AddSlots(ss, ask, base, at, n - 1), SlotOf(ask, base, at, n - 1));
    }
  }

  ghost predicate ChannelsDiffer(asks: seq<Ask>) {
    forall i, j :: 0 <= i < j < |asks| ==> asks[i].chan != asks[j].chan
  }

  lemma OneChannelEach(asks: seq<Ask>, i: nat, k: nat)
    requires ChannelsDiffer(asks) && i < |asks| && k < |asks|
    ensures asks[i].chan == asks[k].chan <==> i == k
  {
  }

  /** The commands of request k. */
  function OwnSlots(asks: seq<Ask>, base: uint32, k: nat): seq<Slot>
    requires k < |asks| && asks[k].Valid()
  {
    AddSlots([], asks[k], base, Span(asks, k) + 1, Size(asks[k]))
  }

  /** On this channel there are these commands, or none yet. */
  ghost predicate HasSlots(chan: Channel, ss: seq<Slot>, own: seq<Slot>, there: bool) {
    SlotsOn(chan, ss) == if there then own else []
  }

  lemma HasSlotsStep(chan: Channel, ss: seq<Slot>, ask: Ask, base: uint32, at: nat, own: seq<Slot>, there: bool)
    requires ask.Valid() && HasSlots(chan, ss, own, there)
    requires ask.chan == chan ==> !there && own == AddSlots([], ask, base, at, Size(ask))
    ensures HasSlots(chan, AddSlots(ss, ask, base, at, Size(ask)), own, there || ask.chan == chan)
  {
    if ask.chan == chan {
      SlotsOnOwn(ss, ask, base, at, Size(ask));
    } else {
      SlotsOnOther(chan, ss, ask, base, at, Size(ask));
    }
  }

  lemma {:induction false} SlotsOfOwnChannel(asks: seq<Ask>, base: uint32, k: nat, n: nat)
    requires AllValid(asks) && ChannelsDiffer(asks) && k < |asks| && n <= |asks|
    ensures HasSlots(asks[k].chan, Slots(asks, base, n), OwnSlots(asks, base, k), k < n)
    decreases n
  {
    if n > 0 {
      SlotsOfOwnChannel(asks, base, k, n - 1);
      OneChannelEach(asks, n - 1, k);
      if k == n - 1 {
        HasSlotsStep(asks[k].chan, Slots(asks, base, k), asks[k], base, Span(asks, k) + 1, OwnSlots(asks, base, k),
                     false);
      } else {
        HasSlotsStep(asks[k].chan, Slots(asks, base, n - 1), asks[n - 1], base, Span(asks, n - 1) + 1,
                     OwnSlots(asks, base, k), k < n - 1);
      }
    }
  }

  lemma {:induction false} AddedSlot(ask: Ask, base: uint32, at: nat, n: nat, i: nat)
    requires ask.Valid() && i < n <= Size(ask)
    ensures AddSlots([], ask, base, at, n)[i] == SlotOf(ask, base, at, i)
    decreases n
  {
    if i < n - 1 {
      AddedSlot(ask, base, at, n - 1, i);
    }
  }

  /** The i-th command of request k: with the key, opaque and quiet flag that the client gave it kept aside. */
  lemma OwnSlot(asks: seq<Ask>, base: uint32, k: nat, i: nat)
    requires AllValid(asks) && k < |asks| && i < Size(asks[k])
    ensures |OwnSlots(asks, base, k)| == if asks[k].One? then 1 else |asks[k].keys|
    ensures var s, ask := OwnSlots(asks, base, k)[i], asks[k];
      match ask
      case One(command, quiet, chan) =>
        && s.handle == Handle(command.key, command.opaqueToken, quiet, chan)
        && s.command == command.(opaqueToken := TokenAt(asks, base, k, i))
      case Many(withExpiry, keys, quiets, chan) =>
        && s.handle == Handle(keys[i].key, keys[i].opaqueToken, quiets[i], chan)
        && s.command == GetBatch(withExpiry, [], CloseGet(Named(keys[i].key, TokenAt(asks, base, k, i))))
  {
    AddedSlot(asks[k], base, Span(asks, k) + 1, Size(asks[k]), i);
    OpaqueWraps(base, Span(asks, k) + 1 + i);
  }

  /** What the client of a get of many keys is sent for its i-th key: the server's reply to a get of that key, as a
      miss if it is an error and else with the reply's own data, flags and, for a gete, expiry; and always under the
      key, opaque and quiet flag that came with it. */
  lemma OwnAnswer(asks: seq<Ask>, base: uint32, f: Command -> Reply, k: nat, i: nat)
    requires AllValid(asks) && k < |asks| && asks[k].Many? && i < |asks[k].keys|
    ensures var q, quiet := asks[k].keys[i], asks[k].quiets[i];
      var r := f(GetBatch(asks[k].withExpiry, [], CloseGet(Named(q.key, TokenAt(asks, base, k, i)))));
      |OwnSlots(asks, base, k)| == |asks[k].keys| &&
      DeliveryOf(f)(OwnSlots(asks, base, k)[i])
      == Sends(asks[k].chan,
               if DecodeError(r.status).Some? then Miss(q.key, q.opaqueToken, quiet)
               else if r.opcode in {0x40, 0x41} then Hit(q.key, r.data, r.flags, r.exptime, q.opaqueToken, quiet)
               else if r.opcode in {0x00, 0x09, 0x1d} then Hit(q.key, r.data, r.flags, 0, q.opaqueToken, quiet)
               else Ack)
  {
    OwnSlot(asks, base, k, i);
  }

  /** What the client of any other request is sent. */
  lemma OwnAcknowledgement(asks: seq<Ask>, base: uint32, f: Command -> Reply, k: nat)
    requires AllValid(asks) && k < |asks| && asks[k].One?
    ensures var own, quiet := asks[k].command, asks[k].quiet;
      var r := f(own.(opaqueToken := TokenAt(asks, base, k, 0)));
      |OwnSlots(asks, base, k)| == 1 &&
      DeliveryOf(f)(OwnSlots(asks, base, k)[0])
      == Sends(asks[k].chan,
               if DecodeError(r.status).Some? then Miss(own.key, own.opaqueToken, quiet)
               else if r.opcode in {0x40, 0x41} then Hit(own.key, r.data, r.flags, r.exptime, own.opaqueToken, quiet)
               else if r.opcode in {0x00, 0x09, 0x1d} then Hit(own.key, r.data, r.flags, 0, own.opaqueToken, quiet)
               else Ack)
  {
    OwnSlot(asks, base, k, 0);
  }

  /** The channel of each request of a batch gets the server's replies to that request's own commands, each once,
      with its data and with the command's own key, opaque and quiet flag, and nothing else. */
  lemma ChannelsGetTheirOwn(asks: seq<Ask>, base: uint32, f: Command -> Reply, replies: seq<Reply>, k: nat)
    requires AllValid(asks) && ChannelsDiffer(asks) && k < |asks| && Span(asks, |asks|) <= TWO_TO_THE_32
    requires AnsweredBy(f, replies, AllSlots(asks, base))
    ensures var table := Table(AllSlots(asks, base));
      && Fitting(table, replies)
      && multiset(OnChannel(asks[k].chan, Deliveries(table, replies)))
         == multiset(Map(DeliveryOf(f), OwnSlots(asks, base, k)))
  {
    var ss := AllSlots(asks, base);
    OpaquesDistinct(asks, base);
    RepliesReachTheirRequests(f, replies, ss);
    SlotsOfOwnChannel(asks, base, k, |asks|);
    DeliveredOnChannel(asks[k].chan, f, ss);
    OnChannelPermutation(asks[k].chan, Deliveries(Table(ss), replies), Map(DeliveryOf(f), ss));
  }

  // ----- Closing -----

  /** A channel is closed at most once, and nothing is sent on it afterwards. */
  ghost predicate ClosedForGood(acts: seq<Act>) {
    forall i, j :: 0 <= i < j < |acts| && acts[i].Closes? ==> acts[j].chan != acts[i].chan
  }

  /** The handles of a batch are for channels of the batch, which are all different. */
  ghost predicate OwnChannels(b: Batch) {
    && (forall t :: t in b.responses ==> b.responses[t].chan in b.channels)
    && (forall i, j :: 0 <= i < j < |b.channels| ==> b.channels[i] != b.channels[j])
  }

  /** No two batches share a channel. */
  ghost predicate ChannelsApart(batches: seq<Batch>) {
    forall i, j :: 0 <= i < j < |batches| ==> forall c :: c in batches[i].channels ==> c !in batches[j].channels
  }

  ghost predicate HandlesIn(ss: seq<Slot>, chans: set<Channel>) {
    forall j :: 0 <= j < |ss| ==> ss[j].handle.chan in chans
  }

  lemma {:induction false} AddedChannels(ss: seq<Slot>, ask: Ask, base: uint32, at: nat, n: nat, chans: set<Channel>)
    requires ask.Valid() && n <= Size(ask) && ask.chan in chans && HandlesIn(ss, chans)
    ensures HandlesIn(AddSlots(ss, ask, base, at, n), chans)
    decreases n
  {
    if n > 0 {
      AddedChannels(ss, ask, base, at, n - 1, chans);
    }
  }

  lemma {:induction false} SlotChannels(asks: seq<Ask>, base: uint32, n: nat, chans: set<Channel>)
    requires AllValid(asks) && n <= |asks| && forall i :: 0 <= i < |asks| ==> asks[i].chan in chans
    ensures HandlesIn(Slots(asks, base, n), chans)
    decreases n
  {
    if n > 0 {
      SlotChannels(asks, base, n - 1, chans);
      AddedChannels(Slots(asks, base, n - 1), asks[n - 1], base, Span(asks, n - 1) + 1, Size(asks[n - 1]), chans);
    }
  }

  /** A batch as it is written has the channels of its requests and no other. */
  lemma WrittenBatch(asks: seq<Ask>, base: uint32, channels: seq<Channel>)
    requires AllValid(asks) && ChannelsDiffer(asks) && Span(asks, |asks|) <= TWO_TO_THE_32
    requires |channels| == |asks| && forall i :: 0 <= i < |asks| ==> channels[i] == asks[i].chan
    ensures OwnChannels(Batch(Table(AllSlots(asks, base)), channels))
  {
    var chans := set c | c in channels;
    forall i | 0 <= i < |asks|
      ensures asks[i].chan in chans
    {
      assert channels[i] in channels;
    }
    SlotChannels(asks, base, |asks|, chans);
    OpaquesDistinct(asks, base);
    TableHolds(AllSlots(asks, base));
  }

  /** All this happens on channels of the first n batches. */
  ghost predicate ActsWithin(acts: seq<Act>, batches: seq<Batch>, n: nat)
    requires n <= |batches|
  {
    forall j :: 0 <= j < |acts| ==> UsedIn(acts[j].chan, batches, n)
  }

  ghost predicate UsedIn(chan: Channel, batches: seq<Batch>, n: nat)
    requires n <= |batches|
  {
    exists i :: 0 <= i < n && chan in batches[i].channels
  }

  lemma BatchClosesForGood(b: Batch, replies: seq<Reply>)
    requires OwnChannels(b) && Fitting(b.responses, replies)
    ensures var acts := Deliveries(b.responses, replies) + Closings(b.channels);
      ClosedForGood(acts) && forall i :: 0 <= i < |acts| ==> acts[i].chan in b.channels
  {
  }

  lemma UsedEarlier(chan: Channel, batches: seq<Batch>, n: nat)
    requires n < |batches| && UsedIn(chan, batches, n)
    ensures UsedIn(chan, batches, n + 1)
    ensures ChannelsApart(batches) ==> chan !in batches[n].channels
  {
    var i :| 0 <= i < n && chan in batches[i].channels;
  }

  lemma ClosedApart(a: seq<Act>, b: seq<Act>, batches: seq<Batch>, n: nat)
    requires 0 < n <= |batches| && ChannelsApart(batches)
    requires ClosedForGood(a) && ActsWithin(a, batches, n - 1)
    requires ClosedForGood(b) && forall j :: 0 <= j < |b| ==> b[j].chan in batches[n - 1].channels
    ensures ClosedForGood(a + b) && ActsWithin(a + b, batches, n)
  {
    forall i | 0 <= i < |a|
      ensures UsedIn(a[i].chan, batches, n) && a[i].chan !in batches[n - 1].channels
    {
      UsedEarlier(a[i].chan, batches, n - 1);
    }
    forall j | 0 <= j < |b|
      ensures UsedIn(b[j].chan, batches, n)
    {
      assert b[j].chan in batches[n - 1].channels;
    }
  }

  ghost predicate Answerable(b: Batch, replies: seq<Reply>) {
    OwnChannels(b) && Fitting(b.responses, replies)
  }

  ghost predicate AllAnswerable(batches: seq<Batch>, replies: seq<seq<Reply>>) {
    |batches| == |replies| && forall i :: 0 <= i < |batches| ==> Answerable(batches[i], replies[i])
  }

  lemma NextBatchCloses(batches: seq<Batch>, replies: seq<seq<Reply>>, n: nat, before: seq<Act>)
    requires AllAnswerable(batches, replies) && 0 < n <= |batches| && ChannelsApart(batches)
    requires before == AllActs(batches, replies, n - 1) && ClosedForGood(before) && ActsWithin(before, batches, n - 1)
    ensures ClosedForGood(AllActs(batches, replies, n)) && ActsWithin(AllActs(batches, replies, n), batches, n)
  {
    var b, rs := batches[n - 1], replies[n - 1];
    var acts := Deliveries(b.responses, rs) + Closings(b.channels);
    assert Answerable(b, rs) && AllActs(batches, replies, n) == before + acts;
    BatchClosesForGood(b, rs);
    ClosedApart(before, acts, batches, n);
  }

  /** Over any batches one behind the other, no channel is closed twice and nothing is sent on a closed one. */
  lemma {:induction false} NothingAfterClose(batches: seq<Batch>, replies: seq<seq<Reply>>, n: nat)
    requires AllAnswerable(batches, replies) && n <= |batches| && ChannelsApart(batches)
    ensures ClosedForGood(AllActs(batches, replies, n)) && ActsWithin(AllActs(batches, replies, n), batches, n)
    decreases n
  {
    if n > 0 {
      NothingAfterClose(batches, replies, n - 1);
      NextBatchCloses(batches, replies, n, AllActs(batches, replies, n - 1));
    }
  }

  /** And every channel of each of them is closed. */
  lemma {:induction false} EveryChannelCloses(batches: seq<Batch>, replies: seq<seq<Reply>>, n: nat, k: nat, c: Channel)
    requires k < n <= |batches| == |replies| && c in batches[k].channels
    ensures Closes(c) in AllActs(batches, replies, n)
    decreases n
  {
    if k < n - 1 {
      EveryChannelCloses(batches, replies, n - 1, k, c);
    } else {
      var i :| 0 <= i < |batches[k].channels| && batches[k].channels[i] == c;
      assert Closings(batches[k].channels)[i] == Closes(c);
    }
  }
}
