/** The batching connection: requests of many clients are renumbered and written as one batch. */
module Demux {
  import opened Bytes
  import opened Headers
  import opened Requests

  type Channel = nat

  /** A request with the channel its replies go to. A get has any number of keys. */
  datatype Ask =
    | One(command: Command, quiet: bool, chan: Channel)
    | Many(withExpiry: bool, keys: seq<Named>, quiets: seq<bool>, chan: Channel)
  {
    predicate Valid() {
      if One? then !command.GetBatch? && !command.Noop? else |keys| == |quiets|
    }
  }

  /** What is kept aside about a request: reshandle. */
  datatype Handle = Handle(key: bytes, opaqueToken: uint32, quiet: bool, chan: Channel)

  /** A command as it is sent: how many opaques before it the batch has used, its own, and its handle. */
  datatype Slot = Slot(at: nat, token: uint32, handle: Handle, command: Command)

  /** opaque++ on 32 bits. */
  function Increment(token: uint32): uint32 {
    if token == TWO_TO_THE_32 - 1 then 0 else token + 1
  }

  function OpaqueAt(base: uint32, n: nat): uint32 {
    if n == 0 then base else Increment(OpaqueAt(base, n - 1))
  }

  lemma {:induction false} OpaqueWraps(base: uint32, n: nat)
    ensures OpaqueAt(base, n) == Wrap32(base + n)
  {
    if n > 0 {
      OpaqueWraps(base, n - 1);
    }
  }

  function Size(ask: Ask): nat {
    if ask.One? then 1 else |ask.keys|
  }

  /** The opaques used up: a get uses one more than it has keys. */
  function Width(ask: Ask): nat {
    if ask.One? then 1 else 1 + |ask.keys|
  }

  function HandleOf(ask: Ask, i: nat): Handle
    requires ask.Valid() && i < Size(ask)
  {
    match ask
    case One(command, quiet, chan) => Handle(command.key, command.opaqueToken, quiet, chan)
    case Many(_, keys, quiets, chan) => Handle(keys[i].key, keys[i].opaqueToken, quiets[i], chan)
  }

  function CommandOf(ask: Ask, i: nat, token: uint32): Command
    requires ask.Valid() && i < Size(ask)
  {
    match ask
    case One(command, _, _) => command.(opaqueToken := token)
    case Many(withExpiry, keys, _, _) => GetBatch(withExpiry, [], CloseGet(Named(keys[i].key, token)))
  }

  function SlotOf(ask: Ask, base: uint32, at: nat, i: nat): Slot
    requires ask.Valid() && i < Size(ask)
  {
    var token := OpaqueAt(base, at + i);
    Slot(at + i, token, HandleOf(ask, i), CommandOf(ask, i, token))
  }

  /** These commands, and behind them the first n of a request that starts at this place. */
  function AddSlots(ss: seq<Slot>, ask: Ask, base: uint32, at: nat, n: nat): (more: seq<Slot>)
    requires ask.Valid() && n <= Size(ask)
    ensures |more| == |ss| + n
  {
    if n == 0 then ss else AddSlots(ss, ask, base, at, n - 1) + [SlotOf(ask, base, at, n - 1)]
  }

  /** The opaques used up by the first n requests. */
  function Span(asks: seq<Ask>, n: nat): nat
    requires n <= |asks|
  {
    if n == 0 then 0 else Span(asks, n - 1) + Width(asks[n - 1])
  }

  ghost predicate AllValid(asks: seq<Ask>) {
    forall i :: 0 <= i < |asks| ==> asks[i].Valid()
  }

  /** The commands of the first n requests. `base` is the opaque before the first one. */
  ghost function Slots(asks: seq<Ask>, base: uint32, n: nat): seq<Slot>
    requires AllValid(asks) && n <= |asks|
  {
    if n == 0 then []
    else AddSlots(Slots(asks, base, n - 1), asks[n - 1], base, Span(asks, n - 1) + 1, Size(asks[n - 1]))
  }

  lemma NextSlots(asks: seq<Ask>, base: uint32, i: nat)
    requires AllValid(asks) && i < |asks|
    ensures asks[i].Valid() && Span(asks, i + 1) == Span(asks, i) + Width(asks[i])
    ensures Slots(asks, base, i + 1)
         == AddSlots(Slots(asks, base, i), asks[i], base, Span(asks, i) + 1, Size(asks[i]))
  {
  }

  ghost function AllSlots(asks: seq<Ask>, base: uint32): seq<Slot>
    requires AllValid(asks)
  {
    Slots(asks, base, |asks|)
  }

  function Commands(ss: seq<Slot>): seq<Command> {
    if ss == [] then [] else Commands(ss[..|ss| - 1]) + [ss[|ss| - 1].command]
  }

  /** The map of handles by opaque; a second use of an opaque would hide the first. */
  function Table(ss: seq<Slot>): map<uint32, Handle> {
    if ss == [] then map[] else Table(ss[..|ss| - 1])[ss[|ss| - 1].token := ss[|ss| - 1].handle]
  }

  lemma OneMoreSlot(ss: seq<Slot>, s: Slot)
    ensures Commands(ss + [s]) == Commands(ss) + [s.command]
    ensures Table(ss + [s]) == Table(ss)[s.token := s.handle]
  {
    assert (ss + [s])[..|ss|] == ss;
  }

  /** The channels of the first n requests. */
  function Channels(asks: seq<Ask>, n: nat): (cs: seq<Channel>)
    requires n <= |asks|
    ensures |cs| == n && forall i :: 0 <= i < n ==> cs[i] == asks[i].chan
  {
    if n == 0 then [] else Channels(asks, n - 1) + [asks[n - 1].chan]
  }

  // ----- Writing a batch -----

  /** batchIntoBuffer. The buffer, here a list of commands, holds the commands of the batch in order, with their
      new opaques. */
  method BatchIntoBuffer(asks: seq<Ask>, base: uint32)
    returns (buf: seq<Command>, responses: map<uint32, Handle>, channels: seq<Channel>)
    requires AllValid(asks)
    ensures buf == Commands(AllSlots(asks, base)) && responses == Table(AllSlots(asks, base))
    ensures |channels| == |asks| && forall i :: 0 <= i < |asks| ==> channels[i] == asks[i].chan
  {
    var current := base;
    buf, responses, channels := [], map[], [];
    for i := 0 to |asks|
      invariant current == OpaqueAt(base, Span(asks, i))
      invariant buf == Commands(Slots(asks, base, i)) && responses == Table(Slots(asks, base, i))
      invariant channels == Channels(asks, i)
    {
      channels := channels + [asks[i].chan];
      current, buf, responses := AddNext(asks, i, base, current, buf, responses);
    }
  }

  method AddNext(asks: seq<Ask>, i: nat, ghost base: uint32, current0: uint32, buf0: seq<Command>,
                 responses0: map<uint32, Handle>)
    returns (current: uint32, buf: seq<Command>, responses: map<uint32, Handle>)
    requires AllValid(asks) && i < |asks| && current0 == OpaqueAt(base, Span(asks, i))
    requires buf0 == Commands(Slots(asks, base, i)) && responses0 == Table(Slots(asks, base, i))
    ensures current == OpaqueAt(base, Span(asks, i + 1))
    ensures buf == Commands(Slots(asks, base, i + 1)) && responses == Table(Slots(asks, base, i + 1))
  {
    NextSlots(asks, base, i);
    current, buf, responses := AddAsk(asks[i], base, Span(asks, i), current0, buf0, responses0, Slots(asks, base, i));
  }

  /** One request of the batch: its first opaque, then its commands. A get leaves the opaque one further on. */
  method AddAsk(ask: Ask, ghost base: uint32, ghost at: nat, current0: uint32, buf0: seq<Command>,
                responses0: map<uint32, Handle>, ghost ss: seq<Slot>)
    returns (current: uint32, buf: seq<Command>, responses: map<uint32, Handle>)
    requires ask.Valid() && current0 == OpaqueAt(base, at) && buf0 == Commands(ss) && responses0 == Table(ss)
    ensures current == OpaqueAt(base, at + Width(ask))
    ensures var more := AddSlots(ss, ask, base, at + 1, Size(ask)); buf == Commands(more) && responses == Table(more)
  {
    current := Increment(current0);
    if ask.One? {
      buf, responses := AddCommand(ask, 0, base, at + 1, current, buf0, responses0, ss);
    } else {
      current, buf, responses := AddKeys(ask, base, at + 1, current, buf0, responses0, ss);
    }
  }

  /** The loop over the keys of a get. */
  method AddKeys(ask: Ask, ghost base: uint32, ghost at: nat, current0: uint32, buf0: seq<Command>,
                 responses0: map<uint32, Handle>, ghost ss: seq<Slot>)
    returns (current: uint32, buf: seq<Command>, responses: map<uint32, Handle>)
    requires ask.Valid() && ask.Many? && current0 == OpaqueAt(base, at)
    requires buf0 == Commands(ss) && responses0 == Table(ss)
    ensures current == OpaqueAt(base, at + |ask.keys|)
    ensures var more := AddSlots(ss, ask, base, at, |ask.keys|); buf == Commands(more) && responses == Table(more)
  {
    current, buf, responses := current0, buf0, responses0;
    for idx := 0 to |ask.keys|
      invariant current == OpaqueAt(base, at + idx)
      invariant buf == Commands(AddSlots(ss, ask, base, at, idx))
      invariant responses == Table(AddSlots(ss, ask, base, at, idx))
    {
      current, buf, responses := AddKey(ask, idx, base, at, current, buf, responses, ss);
    }
  }

  method AddKey(ask: Ask, i: nat, ghost base: uint32, ghost at: nat, current0: uint32, buf0: seq<Command>,
                responses0: map<uint32, Handle>, ghost ss: seq<Slot>)
    returns (current: uint32, buf: seq<Command>, responses: map<uint32, Handle>)
    requires ask.Valid() && i < Size(ask) && current0 == OpaqueAt(base, at + i)
    requires var before := AddSlots(ss, ask, base, at, i); buf0 == Commands(before) && responses0 == Table(before)
    ensures current == OpaqueAt(base, at + i + 1)
    ensures var more := AddSlots(ss, ask, base, at, i + 1); buf == Commands(more) && responses == Table(more)
  {
    buf, responses := AddCommand(ask, i, base, at, current0, buf0, responses0, ss);
    current := Increment(current0);
  }

  /** Writes one command and keeps its handle. */
  method AddCommand(ask: Ask, i: nat, ghost base: uint32, ghost at: nat, current: uint32, buf0: seq<Command>,
                    responses0: map<uint32, Handle>, ghost ss: seq<Slot>)
    returns (buf: seq<Command>, responses: map<uint32, Handle>)
    requires ask.Valid() && i < Size(ask) && current == OpaqueAt(base, at + i)
    requires var before := AddSlots(ss, ask, base, at, i); buf0 == Commands(before) && responses0 == Table(before)
    ensures var more := AddSlots(ss, ask, base, at, i + 1); buf == Commands(more) && responses == Table(more)
  {
    buf := buf0 + [CommandOf(ask, i, current)];
    responses := responses0[current := HandleOf(ask, i)];
    OneMoreSlot(AddSlots(ss, ask, base, at, i), SlotOf(ask, base, at, i));
  }

  /** Writing the buffer out: the bytes of its commands, one behind the other. */
  method WriteBuffer(buf: seq<Command>, pooled: array<byte>, w: Writer)
    requires pooled.Length == HEADER_LEN
    modifies pooled, w
    ensures w.out == old(w.out) + EncodeAll(buf)
  {
    var left := buf;
    while left != []
      invariant w.out + EncodeAll(left) == old(w.out) + EncodeAll(buf)
      decreases |left|
    {
      Associate(w.out, Encode(left[0]), EncodeAll(left[1..]));
      WriteCommand(pooled, w, left[0]);
      left := left[1..];
    }
    assert w.out + [] == w.out;
  }

  // ----- The opaques of a batch are different -----

  lemma SameRemainder(x: int, y: int)
    ensures x % TWO_TO_THE_32 == y % TWO_TO_THE_32 <==> (x - y) % TWO_TO_THE_32 == 0
  {
  }

  /** Two places in the sequence get the same opaque if and only if they are a multiple of 2^32 apart. */
  lemma SameOpaque(base: uint32, a: nat, b: nat)
    ensures OpaqueAt(base, a) == OpaqueAt(base, b) <==> (a - b) % TWO_TO_THE_32 == 0
  {
    var x, y := base + a, base + b;
    OpaqueWraps(base, a);
    OpaqueWraps(base, b);
    SameRemainder(x, y);
    assert x - y == a - b;
  }

  lemma OpaquesDiffer(base: uint32, a: nat, b: nat)
    requires a < b < a + TWO_TO_THE_32
    ensures OpaqueAt(base, a) != OpaqueAt(base, b)
  {
    SameOpaque(base, b, a);
    assert (b - a) % TWO_TO_THE_32 == b - a;
  }

  /** These commands have used places up to `hi`, each a later one than the one before. */
  ghost predicate InOrder(ss: seq<Slot>, base: uint32, hi: nat) {
    && (forall k :: 0 <= k < |ss| ==> ss[k].token == OpaqueAt(base, ss[k].at) && 0 < ss[k].at <= hi)
    && (forall j, k :: 0 <= j < k < |ss| ==> ss[j].at < ss[k].at)
  }

  lemma {:induction false} AddSlotsInOrder(ss: seq<Slot>, ask: Ask, base: uint32, at: nat, n: nat)
    requires ask.Valid() && n <= Size(ask) && InOrder(ss, base, at)
    ensures InOrder(AddSlots(ss, ask, base, at + 1, n), base, at + n)
    decreases n
  {
    if n > 0 {
      AddSlotsInOrder(ss, ask, base, at, n - 1);
    }
  }

  lemma {:induction false} SlotsInOrder(asks: seq<Ask>, base: uint32, n: nat)
    requires AllValid(asks) && n <= |asks|
    ensures InOrder(Slots(asks, base, n), base, Span(asks, n))
    decreases n
  {
    if n > 0 {
      SlotsInOrder(asks, base, n - 1);
      AddSlotsInOrder(Slots(asks, base, n - 1), asks[n - 1], base, Span(asks, n - 1), Size(asks[n - 1]));
    }
  }

  ghost predicate Distinct(ss: seq<Slot>) {
    forall j, k :: 0 <= j < k < |ss| ==> ss[j].token != ss[k].token
  }

  /** No two commands of a batch share an opaque, unless it uses more than there are. */
  lemma OpaquesDistinct(asks: seq<Ask>, base: uint32)
    requires AllValid(asks) && Span(asks, |asks|) <= TWO_TO_THE_32
    ensures Distinct(AllSlots(asks, base))
  {
    var ss := AllSlots(asks, base);
    SlotsInOrder(asks, base, |asks|);
    forall j, k | 0 <= j < k < |ss|
      ensures ss[j].token != ss[k].token
    {
      OpaquesDiffer(base, ss[j].at, ss[k].at);
    }
  }

  lemma {:induction false} TableHolds(ss: seq<Slot>)
    requires Distinct(ss)
    ensures |Table(ss)| == |ss|
    ensures forall k :: 0 <= k < |ss| ==> ss[k].token in Table(ss) && Table(ss)[ss[k].token] == ss[k].handle
    ensures forall t :: t in Table(ss) ==> exists k :: 0 <= k < |ss| && ss[k].token == t
    decreases |ss|
  {
    if ss != [] {
      var init, last := ss[..|ss| - 1], ss[|ss| - 1];
      TableHolds(init);
      forall k | 0 <= k < |ss|
        ensures ss[k].token in Table(ss) && Table(ss)[ss[k].token] == ss[k].handle
      {
        if k < |init| { assert init[k] == ss[k]; }
      }
      assert last.token !in Table(init);
      forall t | t in Table(ss)
        ensures exists k :: 0 <= k < |ss| && ss[k].token == t
      {
        if t == last.token {
          assert ss[|ss| - 1].token == t;
        } else {
          var k :| 0 <= k < |init| && init[k].token == t;
          assert ss[k].token == t;
        }
      }
    }
  }

  // ----- What is in the buffer and in the map -----

  /** How many commands the first n requests make. */
  function Offset(asks: seq<Ask>, n: nat): nat
    requires n <= |asks|
  {
    if n == 0 then 0 else Offset(asks, n - 1) + if asks[n - 1].One? then 1 else |asks[n - 1].keys|
  }

  lemma {:induction false} AddedAt(ss: seq<Slot>, ask: Ask, base: uint32, at: nat, n: nat, m: nat)
    requires ask.Valid() && n <= Size(ask) && m < |ss| + n
    ensures AddSlots(ss, ask, base, at, n)[m] == if m < |ss| then ss[m] else SlotOf(ask, base, at, m - |ss|)
    decreases n
  {
    if n > 0 && m < |ss| + n - 1 {
      AddedAt(ss, ask, base, at, n - 1, m);
    }
  }

  lemma {:induction false} PlaceOf(asks: seq<Ask>, base: uint32, n: nat, k: nat, i: nat)
    requires AllValid(asks) && k < n <= |asks| && i < Size(asks[k])
    ensures |Slots(asks, base, n)| == Offset(asks, n) && Offset(asks, k) + i < Offset(asks, n)
    ensures Slots(asks, base, n)[Offset(asks, k) + i] == SlotOf(asks[k], base, Span(asks, k) + 1, i)
    decreases n
  {
    SlotsAreAsMany(asks, base, n);
    SlotsAreAsMany(asks, base, n - 1);
    if k < n - 1 {
      PlaceOf(asks, base, n - 1, k, i);
    }
    AddedAt(Slots(asks, base, n - 1), asks[n - 1], base, Span(asks, n - 1) + 1, Size(asks[n - 1]), Offset(asks, k) + i);
  }

  lemma {:induction false} SlotsAreAsMany(asks: seq<Ask>, base: uint32, n: nat)
    requires AllValid(asks) && n <= |asks|
    ensures |Slots(asks, base, n)| == Offset(asks, n)
    decreases n
  {
    if n > 0 {
      SlotsAreAsMany(asks, base, n - 1);
    }
  }

  lemma {:induction false} CommandAt(ss: seq<Slot>, m: nat)
    requires m < |ss|
    ensures |Commands(ss)| == |ss| && Commands(ss)[m] == ss[m].command
    decreases |ss|
  {
    if |ss| > 1 {
      CommandAt(ss[..|ss| - 1], if m < |ss| - 1 then m else 0);
    }
  }

  /** The opaque of the i-th command of request k. */
  function TokenAt(asks: seq<Ask>, base: uint32, k: nat, i: nat): uint32
    requires k < |asks|
  {
    Wrap32(base + Span(asks, k) + 1 + i)
  }

  lemma InBoth(ss: seq<Slot>, m: nat, slot: Slot)
    requires Distinct(ss) && m < |ss| && ss[m] == slot
    ensures |Commands(ss)| == |ss| && Commands(ss)[m] == slot.command
    ensures slot.token in Table(ss) && Table(ss)[slot.token] == slot.handle
  {
    CommandAt(ss, m);
    TableHolds(ss);
  }

  /** The place of a command in the buffer, and of its handle in the map. */
  lemma InBufferAndMap(asks: seq<Ask>, base: uint32, k: nat, i: nat)
    requires AllValid(asks) && Span(asks, |asks|) <= TWO_TO_THE_32 && k < |asks| && i < Size(asks[k])
    ensures var ss := AllSlots(asks, base); var token := TokenAt(asks, base, k, i);
      && |Commands(ss)| == Offset(asks, |asks|) && Offset(asks, k) + i < |Commands(ss)|
      && Commands(ss)[Offset(asks, k) + i] == CommandOf(asks[k], i, token)
      && token in Table(ss) && Table(ss)[token] == HandleOf(asks[k], i)
  {
    PlaceOf(asks, base, |asks|, k, i);
    OpaqueWraps(base, Span(asks, k) + 1 + i);
    OpaquesDistinct(asks, base);
    InBoth(AllSlots(asks, base), Offset(asks, k) + i, SlotOf(asks[k], base, Span(asks, k) + 1, i));
  }

  /** The i-th command that a get of many keys puts into the buffer asks, by its bytes, for exactly the i-th key of
      that get; and the map has that key, the client's own opaque and quiet flag for it, and the client's channel. */
  lemma GetAsksForItsKey(asks: seq<Ask>, base: uint32, k: nat, i: nat, tail: bytes)
    requires AllValid(asks) && Span(asks, |asks|) <= TWO_TO_THE_32
    requires k < |asks| && asks[k].Many? && i < |asks[k].keys| && |asks[k].keys[i].key| < TWO_TO_THE_16
    ensures var buf, map' := Commands(AllSlots(asks, base)), Table(AllSlots(asks, base));
      var n, token := Offset(asks, k) + i, TokenAt(asks, base, k, i);
      && n < |buf|
      && ParseOne(Encode(buf[n]) + tail)
         == Got(GetRequest(if asks[k].withExpiry then RequestGetE else RequestGet, [asks[k].keys[i].key], [token],
                           [false], 0, false), tail)
      && token in map'
      && map'[token] == Handle(asks[k].keys[i].key, asks[k].keys[i].opaqueToken, asks[k].quiets[i], asks[k].chan)
  {
    InBufferAndMap(asks, base, k, i);
    SingleGetIsParsed(asks[k].withExpiry, Named(asks[k].keys[i].key, TokenAt(asks, base, k, i)), tail);
  }

  /** Any other request puts its own command into the buffer, with nothing but a new opaque; and the map has its key,
      opaque and quiet flag and the client's channel. */
  lemma CommandIsItsOwn(asks: seq<Ask>, base: uint32, k: nat)
    requires AllValid(asks) && Span(asks, |asks|) <= TWO_TO_THE_32 && k < |asks| && asks[k].One?
    ensures var buf, map' := Commands(AllSlots(asks, base)), Table(AllSlots(asks, base));
      var n, token, own := Offset(asks, k), TokenAt(asks, base, k, 0), asks[k].command;
      && n < |buf| && buf[n] == own.(opaqueToken := token)
      && token in map' && map'[token] == Handle(own.key, own.opaqueToken, asks[k].quiet, asks[k].chan)
  {
    InBufferAndMap(asks, base, k, 0);
  }
}
