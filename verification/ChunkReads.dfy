/** Reading a chunked value: what the loop over chunk replies does with each of them, and when the value it
    hands out is the value that was stored. The token type is left open. */
module ChunkReads {
  import opened Bytes
  import opened Chunking

  const TOKEN_SIZE := 16

  datatype Metadata<T> = Metadata(length: nat, origFlags: uint32, numChunks: nat, chunkSize: nat,
                                  instime: uint32, exptime: uint32, token: T)
  {
    ghost predicate Consistent() {
      chunkSize > 0 && numChunks == ChunkCount(length, chunkSize)
    }
  }

  /** A reply to one quiet get. Memcached sends no reply at all to a quiet get that misses. */
  datatype Reply<T> = Hit(token: T, chunk: bytes) | NotFound | Failure(error: Error)

  /** The variables of the loop: chunk, miss, lastErr, tokenBuf and dataBuf. */
  datatype Loop<T> = Loop(chunk: nat, miss: bool, lastErr: Option<Error>, token: T, buf: bytes)

  datatype Outcome = Value(data: bytes) | Miss | Failed(error: Error)

  function Start<T>(meta: Metadata<T>, blank: T): Loop<T> {
    Loop(0, false, None, blank, Zeros(meta.length))
  }

  /** One turn of the loop. A not-found reply does not move on to the next chunk number; an unexpected error
      does, and is compared by the token left over from the chunk before. */
  function Absorb<T(==)>(meta: Metadata<T>, st: Loop<T>, reply: Reply<T>): (r: Loop<T>)
    requires meta.Consistent() && |st.buf| == meta.length && st.chunk < meta.numChunks
    requires reply.Hit? ==> |reply.chunk| == meta.chunkSize
    ensures |r.buf| == meta.length && st.chunk <= r.chunk <= st.chunk + 1
  {
    ChunkStarts(meta.length, meta.chunkSize, st.chunk);
    match reply
    case Hit(token, chunk) =>
      st.(chunk := st.chunk + 1, miss := st.miss || token != meta.token, token := token,
          buf := Place(st.buf, meta.chunkSize, st.chunk, chunk))
    case NotFound => st.(miss := true)
    case Failure(e) => st.(chunk := st.chunk + 1, miss := st.miss || st.token != meta.token, lastErr := Some(e))
  }

  /** After the loop. The number of chunks read is not looked at. */
  function Finish<T>(st: Loop<T>): Outcome {
    if st.lastErr.Some? then Failed(st.lastErr.value)
    else if st.miss then Miss
    else Value(st.buf)
  }

  /** A whole run of the loop over the replies in front of the closing noop. */
  function AbsorbAll<T(==)>(meta: Metadata<T>, st: Loop<T>, replies: seq<Reply<T>>): (r: Loop<T>)
    requires meta.Consistent() && |st.buf| == meta.length && st.chunk + |replies| <= meta.numChunks
    requires forall i :: 0 <= i < |replies| && replies[i].Hit? ==> |replies[i].chunk| == meta.chunkSize
    ensures |r.buf| == meta.length && st.chunk <= r.chunk <= st.chunk + |replies|
    decreases |replies|
  {
    if replies == [] then st
    else AbsorbAll(meta, Absorb(meta, st, replies[0]), replies[1..])
  }

  /** The last unexpected error among the replies. */
  function LastFailure<T>(replies: seq<Reply<T>>): Option<Error> {
    if replies == [] then None
    else
      var last := replies[|replies| - 1];
      if last.Failure? then Some(last.error) else LastFailure(replies[..|replies| - 1])
  }

  lemma {:induction false} LastFailureFront<T>(replies: seq<Reply<T>>)
    requires replies != []
    ensures LastFailure(replies) == if LastFailure(replies[1..]).Some? then LastFailure(replies[1..])
                                    else if replies[0].Failure? then Some(replies[0].error)
                                    else None
    decreases |replies|
  {
    if |replies| > 1 {
      LastFailureFront(replies[..|replies| - 1]);
      assert replies[..|replies| - 1][1..] == replies[1..][..|replies| - 2];
    }
  }

  /** A reply that says that a chunk is missing or of another value. */
  predicate IsMark<T(==)>(meta: Metadata<T>, reply: Reply<T>) {
    reply.NotFound? || (reply.Hit? && reply.token != meta.token)
  }

  lemma {:induction false} LoopEndsWith<T>(meta: Metadata<T>, st: Loop<T>, replies: seq<Reply<T>>)
    requires meta.Consistent() && |st.buf| == meta.length && st.chunk + |replies| <= meta.numChunks
    requires forall i :: 0 <= i < |replies| && replies[i].Hit? ==> |replies[i].chunk| == meta.chunkSize
    ensures var end := AbsorbAll(meta, st, replies);
      && end.lastErr == (if LastFailure(replies).Some? then LastFailure(replies) else st.lastErr)
      && (LastFailure(replies).None? ==>
            (end.miss <==> st.miss || exists i :: 0 <= i < |replies| && IsMark(meta, replies[i])))
    decreases |replies|
  {
    if replies != [] {
      LastFailureFront(replies);
      LoopEndsWith(meta, Absorb(meta, st, replies[0]), replies[1..]);
      if i :| 0 <= i < |replies| && IsMark(meta, replies[i]) {
        if i > 0 { assert IsMark(meta, replies[1..][i - 1]); }
      }
      if i :| 0 <= i < |replies[1..]| && IsMark(meta, replies[1..][i]) {
        assert IsMark(meta, replies[i + 1]);
      }
    }
  }

  /** What the replies come to: the last unexpected error if there is one, whatever else there is; then a miss if some
      reply says so; and only then a value. */
  lemma OutcomeIs<T>(meta: Metadata<T>, blank: T, replies: seq<Reply<T>>)
    requires meta.Consistent() && |replies| <= meta.numChunks
    requires forall i :: 0 <= i < |replies| && replies[i].Hit? ==> |replies[i].chunk| == meta.chunkSize
    ensures var out := Finish(AbsorbAll(meta, Start(meta, blank), replies)); var failure := LastFailure(replies);
      && (failure.Some? ==> out == Failed(failure.value))
      && (failure.None? ==>
            if exists i :: 0 <= i < |replies| && IsMark(meta, replies[i]) then out == Miss else out.Value?)
  {
    LoopEndsWith(meta, Start(meta, blank), replies);
  }

  /** What the backend holds under one chunk name when the get for it arrives: the chunk of this very value,
      some other chunk, or nothing; and nothing is answered by a not-found reply or by silence. */
  datatype Found<T> = Own | Foreign(token: T, chunk: bytes) | NotFoundReply | Silent

  ghost predicate Pattern<T>(meta: Metadata<T>, p: seq<Found<T>>) {
    && meta.Consistent() && |p| == meta.numChunks
    && forall i :: 0 <= i < |p| && p[i].Foreign? ==> p[i].token != meta.token && |p[i].chunk| == meta.chunkSize
  }

  function RepliesFrom<T>(meta: Metadata<T>, data: bytes, p: seq<Found<T>>, from: nat): (rs: seq<Reply<T>>)
    requires meta.Consistent() && |data| == meta.length && |p| == meta.numChunks && from <= |p|
    requires forall i :: 0 <= i < |p| && p[i].Foreign? ==> |p[i].chunk| == meta.chunkSize
    ensures |rs| <= |p| - from
    ensures forall i :: 0 <= i < |rs| && rs[i].Hit? ==> |rs[i].chunk| == meta.chunkSize
    decreases |p| - from
  {
    if from == |p| then []
    else
      ChunkStarts(meta.length, meta.chunkSize, from);
      (match p[from]
       case Own => [Hit(meta.token, Padded(data, meta.chunkSize, from))]
       case Foreign(token, chunk) => [Hit(token, chunk)]
       case NotFoundReply => [NotFound]
       case Silent => [])
      + RepliesFrom(meta, data, p, from + 1)
  }

  /** The answer to a get of a value with this data when the backend is in this state. */
  function Answer<T(==)>(meta: Metadata<T>, blank: T, data: bytes, p: seq<Found<T>>): Outcome
    requires meta.Consistent() && |data| == meta.length && |p| == meta.numChunks
    requires forall i :: 0 <= i < |p| && p[i].Foreign? ==> |p[i].chunk| == meta.chunkSize
  {
    Finish(AbsorbAll(meta, Start(meta, blank), RepliesFrom(meta, data, p, 0)))
  }

  /** Some reply shows that the value is not all there. */
  predicate Marked<T>(p: seq<Found<T>>) {
    exists i :: 0 <= i < |p| && (p[i].Foreign? || p[i].NotFoundReply?)
  }

  /** The loop over all own chunks from one point on. */
  lemma {:induction false} OwnChunksFill<T>(meta: Metadata<T>, st: Loop<T>, data: bytes, p: seq<Found<T>>, from: nat)
    requires Pattern(meta, p) && |data| == meta.length && from <= |p|
    requires forall i :: from <= i < |p| ==> p[i].Own?
    requires st.chunk == from && !st.miss && st.lastErr.None? && Filled(st.buf, data, meta.chunkSize, from)
    ensures Finish(AbsorbAll(meta, st, RepliesFrom(meta, data, p, from))) == Value(data)
    decreases |p| - from
  {
    if from == |p| {
      FilledIsWhole(st.buf, data, meta.chunkSize);
    } else {
      ChunkStarts(meta.length, meta.chunkSize, from);
      FilledStep(st.buf, data, meta.chunkSize, from);
      var rs := RepliesFrom(meta, data, p, from);
      assert rs[1..] == RepliesFrom(meta, data, p, from + 1);
      OwnChunksFill(meta, Absorb(meta, st, rs[0]), data, p, from + 1);
    }
  }

  lemma MarkedStep<T>(p: seq<Found<T>>, from: nat)
    requires from < |p|
    ensures Marked(p[from..]) <==> p[from].Foreign? || p[from].NotFoundReply? || Marked(p[from + 1..])
  {
    var here, later := p[from..], p[from + 1..];
    assert here[0] == p[from];
    if i :| 0 <= i < |later| && (later[i].Foreign? || later[i].NotFoundReply?) {
      assert here[i + 1] == later[i];
    }
    if i :| 0 <= i < |here| && (here[i].Foreign? || here[i].NotFoundReply?) {
      assert i > 0 ==> later[i - 1] == here[i];
    }
  }

  /** Once a miss, always a miss; and a mark in what is left makes one. */
  lemma {:induction false} MarksMiss<T>(meta: Metadata<T>, st: Loop<T>, data: bytes, p: seq<Found<T>>, from: nat)
    requires Pattern(meta, p) && |data| == meta.length && from <= |p|
    requires st.chunk <= from && st.lastErr.None? && |st.buf| == meta.length
    ensures var e := AbsorbAll(meta, st, RepliesFrom(meta, data, p, from));
      e.lastErr.None? && (e.miss <==> st.miss || Marked(p[from..]))
    decreases |p| - from
  {
    if from < |p| {
      var rs := RepliesFrom(meta, data, p, from);
      if p[from].Silent? {
        assert rs == RepliesFrom(meta, data, p, from + 1);
        MarksMiss(meta, st, data, p, from + 1);
      } else {
        assert rs[1..] == RepliesFrom(meta, data, p, from + 1);
        MarksMiss(meta, Absorb(meta, st, rs[0]), data, p, from + 1);
      }
      MarkedStep(p, from);
    }
  }

  /** Slots the loop never reached still hold zeros. */
  lemma {:induction false} UnreachedStaysZero<T>(meta: Metadata<T>, st: Loop<T>, replies: seq<Reply<T>>)
    requires meta.Consistent() && |st.buf| == meta.length && st.chunk + |replies| <= meta.numChunks
    requires forall i :: 0 <= i < |replies| && replies[i].Hit? ==> |replies[i].chunk| == meta.chunkSize
    requires BlankFrom(st.buf, SliceStart(meta.chunkSize, st.chunk))
    ensures var e := AbsorbAll(meta, st, replies); BlankFrom(e.buf, SliceStart(meta.chunkSize, e.chunk))
    decreases |replies|
  {
    if replies != [] {
      AbsorbKeepsBlank(meta, st, replies[0]);
      UnreachedStaysZero(meta, Absorb(meta, st, replies[0]), replies[1..]);
    }
  }

  ghost predicate BlankFrom(buf: bytes, at: nat) {
    forall k :: at <= k < |buf| ==> buf[k] == 0
  }

  lemma AbsorbKeepsBlank<T>(meta: Metadata<T>, st: Loop<T>, reply: Reply<T>)
    requires meta.Consistent() && |st.buf| == meta.length && st.chunk < meta.numChunks
    requires reply.Hit? ==> |reply.chunk| == meta.chunkSize
    requires BlankFrom(st.buf, SliceStart(meta.chunkSize, st.chunk))
    ensures var r := Absorb(meta, st, reply); BlankFrom(r.buf, SliceStart(meta.chunkSize, r.chunk))
  {
  }

  lemma {:induction false} SilenceShortens<T>(meta: Metadata<T>, data: bytes, p: seq<Found<T>>, from: nat, at: nat)
    requires Pattern(meta, p) && |data| == meta.length && from <= at < |p| && p[at].Silent?
    ensures |RepliesFrom(meta, data, p, from)| < |p| - from
    decreases at - from
  {
    if from < at {
      SilenceShortens(meta, data, p, from + 1, at);
    }
  }

  /** A silent miss that nothing else marks makes the loop hand out a wrong value: the chunks behind it slide
      forward and the end of the buffer stays blank. A value of ones shows it. */
  lemma SilentMissCorrupts<T>(meta: Metadata<T>, blank: T, p: seq<Found<T>>, at: nat)
    requires Pattern(meta, p) && at < |p| && p[at].Silent? && !Marked(p)
    ensures var ones := seq(meta.length, _ => 1);
      Answer(meta, blank, ones, p).Value? && Answer(meta, blank, ones, p) != Value(ones)
  {
    var ones: bytes := seq(meta.length, _ => 1);
    var st, rs := Start(meta, blank), RepliesFrom(meta, ones, p, 0);
    var e := AbsorbAll(meta, st, rs);
    MarksMiss(meta, st, ones, p, 0);
    assert p[0..] == p;
    SilenceShortens(meta, ones, p, 0, at);
    UnreachedStaysZero(meta, st, rs);
    ChunkStarts(meta.length, meta.chunkSize, e.chunk);
    assert e.buf[SliceStart(meta.chunkSize, e.chunk)] == 0;
  }

  lemma AnsweredIsSound<T>(meta: Metadata<T>, blank: T, data: bytes, p: seq<Found<T>>)
    requires Pattern(meta, p) && |data| == meta.length
    requires Marked(p) || forall i :: 0 <= i < |p| ==> !p[i].Silent?
    ensures Answer(meta, blank, data, p) == if Marked(p) then Miss else Value(data)
  {
    assert p[0..] == p;
    MarksMiss(meta, Start(meta, blank), data, p, 0);
    if !Marked(p) {
      assert Filled(Zeros(|data|), data, meta.chunkSize, 0);
      OwnChunksFill(meta, Start(meta, blank), data, p, 0);
    }
  }

  ghost predicate Sound<T>(meta: Metadata<T>, blank: T, data: bytes, p: seq<Found<T>>)
    requires Pattern(meta, p) && |data| == meta.length
  {
    Answer(meta, blank, data, p) == Miss || Answer(meta, blank, data, p) == Value(data)
  }

  /** Whatever the value is, the answer is that value or a miss. */
  ghost predicate AlwaysSound<T>(meta: Metadata<T>, blank: T, p: seq<Found<T>>)
    requires Pattern(meta, p)
  {
    forall data: bytes | |data| == meta.length :: Sound(meta, blank, data, p)
  }

  lemma SilenceIsUnsound<T>(meta: Metadata<T>, blank: T, p: seq<Found<T>>, at: nat)
    requires Pattern(meta, p) && at < |p| && p[at].Silent? && !Marked(p)
    ensures !AlwaysSound(meta, blank, p)
  {
    SilentMissCorrupts(meta, blank, p, at);
    var ones: bytes := seq(meta.length, _ => 1);
    assert !Sound(meta, blank, ones, p);
  }

  /** When a get can be trusted: if and only if every get for a chunk was answered or some answer marks a gap. */
  lemma AnswerIsSound<T>(meta: Metadata<T>, blank: T, p: seq<Found<T>>)
    requires Pattern(meta, p)
    ensures AlwaysSound(meta, blank, p) <==> (Marked(p) || forall i :: 0 <= i < |p| ==> !p[i].Silent?)
  {
    if Marked(p) || forall i :: 0 <= i < |p| ==> !p[i].Silent? {
      forall data: bytes | |data| == meta.length
        ensures Sound(meta, blank, data, p)
      {
        AnsweredIsSound(meta, blank, data, p);
      }
    } else {
      var at :| 0 <= at < |p| && p[at].Silent?;
      SilenceIsUnsound(meta, blank, p, at);
    }
  }
}
