/** The batching goroutine: requests are queued until there are enough of them or enough time has passed. */
module Batcher {
  import opened Bytes
  import opened Sequences

  datatype Event<T> = Arrives(req: T) | TimesOut

  /** After a timeout the goroutine waits for the next request without a timer. */
  datatype State<T> = State(reqs: seq<T>, waiting: bool, sent: seq<seq<T>>)

  function Start<T>(): State<T> {
    State([], false, [])
  }

  function Flush<T>(s: State<T>): State<T> {
    State([], s.waiting, s.sent + [s.reqs])
  }

  /** One turn of the loop, up to where it waits next. */
  function Turn<T>(batchSize: nat, s: State<T>, e: Event<T>): State<T> {
    match e
    case Arrives(req) =>
      var s1 := s.(reqs := s.reqs + [req]);
      if s.waiting then s1.(waiting := false)
      else if |s1.reqs| >= batchSize then Flush(s1)
      else s1
    case TimesOut =>
      if s.waiting then s
      else if |s.reqs| > 0 || |s.reqs| >= batchSize then Flush(s).(waiting := true)
      else s.(waiting := true)
  }

  function Run<T>(batchSize: nat, events: seq<Event<T>>): State<T>
    decreases |events|
  {
    if events == [] then Start()
    else Turn(batchSize, Run(batchSize, events[..|events| - 1]), events[|events| - 1])
  }

  function Accepted<T>(events: seq<Event<T>>): seq<T> {
    if events == [] then []
    else
      var last := events[|events| - 1];
      Accepted(events[..|events| - 1]) + if last.Arrives? then [last.req] else []
  }

  /** No request is lost, doubled or overtaken: the batches sent and the queue are the requests in order. */
  lemma {:induction false} NothingLost<T>(batchSize: nat, events: seq<Event<T>>)
    ensures var s := Run(batchSize, events); Flat(s.sent) + s.reqs == Accepted(events)
    decreases |events|
  {
    if events != [] {
      var init, e := events[..|events| - 1], events[|events| - 1];
      NothingLost(batchSize, init);
      TurnKeepsOrder(batchSize, Run(batchSize, init), e);
    }
  }

  lemma TurnKeepsOrder<T>(batchSize: nat, s: State<T>, e: Event<T>)
    ensures var s1 := Turn(batchSize, s, e);
      Flat(s1.sent) + s1.reqs == Flat(s.sent) + s.reqs + if e.Arrives? then [e.req] else []
  {
    var reqs := if e.Arrives? then s.reqs + [e.req] else s.reqs;
    FlatAppends(s.sent, reqs);
    assert Flat(s.sent) + s.reqs + (if e.Arrives? then [e.req] else []) == Flat(s.sent) + reqs;
    assert (Flat(s.sent) + reqs) + [] == Flat(s.sent) + reqs;
  }

  /** A request that arrives sends the queue, itself at the end of it, if that is then full, or else nothing; and never
      anything when it is the one that ends a wait. */
  lemma ArrivalSends<T>(batchSize: nat, events: seq<Event<T>>, req: T)
    ensures var s, s1 := Run(batchSize, events), Run(batchSize, events + [Arrives(req)]);
      s1.sent == if !s.waiting && |s.reqs| + 1 >= batchSize then s.sent + [s.reqs + [req]] else s.sent
  {
    assert (events + [Arrives(req)])[..|events|] == events;
  }

  /** When the time is up the queue is sent, unless there is nothing in it. */
  lemma TimeoutSends<T>(batchSize: nat, events: seq<Event<T>>)
    requires batchSize > 0
    ensures var s, s1 := Run(batchSize, events), Run(batchSize, events + [TimesOut]);
      && s1.sent == (if s.reqs != [] then s.sent + [s.reqs] else s.sent) && s1.reqs == [] && s1.waiting
  {
    assert (events + [TimesOut])[..|events|] == events;
    NothingWaits(batchSize, events);
  }

  ghost predicate GoodSizes<T>(batchSize: nat, sent: seq<seq<T>>) {
    forall i :: 0 <= i < |sent| ==> 1 <= |sent[i]| <= batchSize
  }

  lemma {:induction false} SizesKept<T>(batchSize: nat, events: seq<Event<T>>)
    requires batchSize >= 2
    ensures var s := Run(batchSize, events);
      GoodSizes(batchSize, s.sent) && |s.reqs| < batchSize && (s.waiting ==> s.reqs == [])
    decreases |events|
  {
    if events != [] {
      SizesKept(batchSize, events[..|events| - 1]);
    }
  }

  /** Whatever the batch size, nothing is left in the queue while the goroutine waits without a timer. */
  lemma {:induction false} NothingWaits<T>(batchSize: nat, events: seq<Event<T>>)
    ensures var s := Run(batchSize, events); s.waiting ==> s.reqs == []
    decreases |events|
  {
    if events != [] {
      NothingWaits(batchSize, events[..|events| - 1]);
    }
  }

  /** When the time is up, every request accepted so far has been sent. */
  lemma TimeoutSendsAll<T>(batchSize: nat, events: seq<Event<T>>)
    ensures Flat(Run(batchSize, events + [TimesOut]).sent) == Accepted(events)
  {
    var more := events + [TimesOut];
    assert more[..|events|] == events;
    NothingWaits(batchSize, more);
    NothingLost(batchSize, more);
    var s := Run(batchSize, more);
    assert Flat(s.sent) + [] == Flat(s.sent) && Accepted(events) + [] == Accepted(events);
  }

  ghost predicate AlwaysGoodSizes<T(!new)>(batchSize: nat) {
    forall events: seq<Event<T>> :: GoodSizes(batchSize, Run(batchSize, events).sent)
  }

  lemma TwoTurns<T>(batchSize: nat, a: Event<T>, b: Event<T>)
    ensures Run(batchSize, [a]) == Turn(batchSize, Start(), a)
    ensures Run(batchSize, [a, b]) == Turn(batchSize, Turn(batchSize, Start(), a), b)
  {
    assert [a][..0] == [] && [a, b][..1] == [a];
  }

  /** Every batch has at least one request and at most batchSize of them, on every schedule, if and only if
      batchSize is at least two. With one, the request that ends the wait after a timeout is not looked at until
      the next one is there too; with zero, a timeout sends an empty batch. */
  lemma BatchesAreGoodSizes<T(!new)>(batchSize: nat, req: T)
    ensures AlwaysGoodSizes<T>(batchSize) <==> batchSize >= 2
  {
    if batchSize >= 2 {
      forall events: seq<Event<T>>
        ensures GoodSizes(batchSize, Run(batchSize, events).sent)
      {
        SizesKept(batchSize, events);
      }
    } else {
      var out, arrive: Event<T> := TimesOut, Arrives(req);
      TwoTurns(batchSize, out, arrive);
      var events := [out, arrive, arrive];
      assert events[..2] == [out, arrive];
      var s := Run(batchSize, events);
      assert |s.sent[0]| == if batchSize == 0 then 0 else 2;
      assert !GoodSizes(batchSize, s.sent);
    }
  }

  // ----- The packed average -----

  /** One batch added to the packed counters: its number in the high half, its commands in the low half. */
  function AddBatch(packed: nat, size: nat): nat {
    (packed + (TWO_TO_THE_32 + size % TWO_TO_THE_32)) % TWO_TO_THE_64
  }

  function Packed(sizes: seq<nat>): nat {
    if sizes == [] then 0 else AddBatch(Packed(sizes[..|sizes| - 1]), sizes[|sizes| - 1])
  }

  function Sum(sizes: seq<nat>): nat {
    if sizes == [] then 0 else Sum(sizes[..|sizes| - 1]) + sizes[|sizes| - 1]
  }

  lemma {:induction false} PackedIsExact(sizes: seq<nat>)
    requires |sizes| < TWO_TO_THE_32 && Sum(sizes) < TWO_TO_THE_32
    ensures Packed(sizes) == |sizes| * TWO_TO_THE_32 + Sum(sizes)
    decreases |sizes|
  {
    if sizes != [] {
      PackedIsExact(sizes[..|sizes| - 1]);
    }
  }

  lemma Unpack(high: nat, low: nat)
    requires low < TWO_TO_THE_32
    ensures (high * TWO_TO_THE_32 + low) / TWO_TO_THE_32 == high
    ensures (high * TWO_TO_THE_32 + low) % TWO_TO_THE_32 == low
  {
  }

  /** The monitor reads the number of batches and of commands exactly, with no carry between the halves, if and
      only if both fit 32 bits. */
  lemma {:induction false} AveragesAreExact(sizes: seq<nat>)
    ensures (Packed(sizes) / TWO_TO_THE_32 == |sizes| && Packed(sizes) % TWO_TO_THE_32 == Sum(sizes))
       <==> (|sizes| < TWO_TO_THE_32 && Sum(sizes) < TWO_TO_THE_32)
  {
    PackedFits(sizes);
    if |sizes| < TWO_TO_THE_32 && Sum(sizes) < TWO_TO_THE_32 {
      PackedIsExact(sizes);
      Unpack(|sizes|, Sum(sizes));
    }
  }

  lemma PackedFits(sizes: seq<nat>)
    ensures Packed(sizes) / TWO_TO_THE_32 < TWO_TO_THE_32
    ensures Packed(sizes) % TWO_TO_THE_32 < TWO_TO_THE_32
  {
    assert Packed(sizes) < TWO_TO_THE_64;
  }

  // ----- The goroutine -----

  class Batching<T> {
    const batchSize: nat
    var reqs: seq<T>
    var timedout: bool
    var sent: seq<seq<T>>     // what `do` has been called with
    var avgBatchData: nat
    ghost var sizes: seq<nat> // of the batches since the monitor last looked

    ghost function Now(): State<T>
      reads this
    {
      State(reqs, timedout, sent)
    }

    ghost predicate Valid()
      reads this
    {
      avgBatchData == Packed(sizes)
    }

    constructor (batchSize: nat)
      ensures Valid() && Now() == Start() && this.batchSize == batchSize && sizes == []
    {
      this.batchSize := batchSize;
      reqs, timedout, sent, avgBatchData, sizes := [], false, [], 0, [];
    }

    method Do()
      requires Valid()
      modifies this
      ensures Valid() && Now() == Flush(old(Now())) && sizes == old(sizes) + [|old(reqs)|]
    {
      avgBatchData := AddBatch(avgBatchData, |reqs|);
      sizes := sizes + [|reqs|];
      assert sizes[..|sizes| - 1] == old(sizes);
      sent := sent + [reqs];
      reqs := [];
    }

    /** The loop of batcher over everything that happens. A timer that is not being waited for does not fire. */
    method Loop(events: seq<Event<T>>)
      requires Valid() && Now() == Start()
      modifies this
      ensures Valid() && Now() == Run(batchSize, events)
    {
      for i := 0 to |events|
        invariant Valid() && Now() == Run(batchSize, events[..i])
        modifies this
      {
        assert events[..i + 1][..i] == events[..i];
        Handle(events[i]);
      }
      assert events[..|events|] == events;
    }

    method Handle(e: Event<T>)
      requires Valid()
      modifies this
      ensures Valid() && Now() == Turn(batchSize, old(Now()), e)
    {
      if timedout {
        if e.Arrives? {
          reqs := reqs + [e.req];
          timedout := false;
        }
        return;
      }
      match e {
        case Arrives(req) => reqs := reqs + [req];
        case TimesOut => timedout := true;
      }
      if (timedout && |reqs| > 0) || |reqs| >= batchSize {
        Do();
      }
    }

    /** The monitor's look at the counters, which it resets. */
    method TakeAverage() returns (numBatches: nat, numCmds: nat)
      requires Valid()
      modifies this
      ensures Valid() && sizes == [] && Now() == old(Now())
      ensures (numBatches == |old(sizes)| && numCmds == Sum(old(sizes)))
         <==> (|old(sizes)| < TWO_TO_THE_32 && Sum(old(sizes)) < TWO_TO_THE_32)
    {
      AveragesAreExact(sizes);
      numBatches, numCmds := avgBatchData / TWO_TO_THE_32, avgBatchData % TWO_TO_THE_32;
      avgBatchData := 0;
      sizes := [];
    }
  }
}
