/** The bytes behind a chunk read: the metadata record, and the loop over reply frames up to the noop. */
module ChunkFrames {
  import opened Bytes
  import opened Headers
  import opened Chunking
  import opened ChunkReads

  const METADATA_SIZE := 40

  type Token = bytes  // of TOKEN_SIZE bytes
  type Record = Metadata<Token>

  const EMPTY_META: Record := Metadata(0, 0, 0, 0, 0, 0, Zeros(TOKEN_SIZE))

  /** The record's numbers fit their 32-bit fields, and its token is one. */
  predicate Storable(m: Record) {
    |m.token| == TOKEN_SIZE && m.length < TWO_TO_THE_32 && m.numChunks < TWO_TO_THE_32 && m.chunkSize < TWO_TO_THE_32
  }

  function EncodeNumbers(m: Record): (b: bytes)
    requires Storable(m)
    ensures |b| == METADATA_SIZE - TOKEN_SIZE
  {
    PutUint32(m.length) + PutUint32(m.origFlags) + PutUint32(m.numChunks) + PutUint32(m.chunkSize)
    + PutUint32(m.instime) + PutUint32(m.exptime)
  }

  /** writeMetadata. */
  function EncodeRecord(m: Record): (b: bytes)
    requires Storable(m)
    ensures |b| == METADATA_SIZE
  {
    EncodeNumbers(m) + m.token
  }

  /** readMetadata on a whole record. */
  function DecodeRecord(b: bytes): Record
    requires |b| == METADATA_SIZE
  {
    Metadata(Uint32(b[0..4]), Uint32(b[4..8]), Uint32(b[8..12]), Uint32(b[12..16]), Uint32(b[16..20]),
             Uint32(b[20..24]), b[24..])
  }

  /** Where each field of a record lies among its 40 bytes. */
  lemma RecordLayout(m: Record)
    requires Storable(m)
    ensures var b := EncodeRecord(m);
      && |b| == 40 && b[0..4] == PutUint32(m.length) && b[4..8] == PutUint32(m.origFlags)
      && b[8..12] == PutUint32(m.numChunks) && b[12..16] == PutUint32(m.chunkSize)
      && b[16..20] == PutUint32(m.instime) && b[20..24] == PutUint32(m.exptime) && b[24..40] == m.token
  {
  }

  lemma RecordRoundTrip(m: Record)
    requires Storable(m)
    ensures DecodeRecord(EncodeRecord(m)) == m
  {
    var b := EncodeRecord(m);
    assert b[0..4] == PutUint32(m.length);
    assert b[4..8] == PutUint32(m.origFlags);
    assert b[8..12] == PutUint32(m.numChunks);
    assert b[12..16] == PutUint32(m.chunkSize);
    assert b[16..20] == PutUint32(m.instime);
    assert b[20..24] == PutUint32(m.exptime);
    assert b[24..] == m.token;
  }

  /** The buffer of numbers, filled in place. */
  method RecordNumbers(m: Record) returns (b: bytes)
    requires Storable(m)
    ensures b == EncodeNumbers(m)
  {
    var buf := new byte[METADATA_SIZE - TOKEN_SIZE];
    PutUint32At(buf, 0, m.length);
    PutUint32At(buf, 4, m.origFlags);
    PutUint32At(buf, 8, m.numChunks);
    assert buf[..12] == PutUint32(m.length) + PutUint32(m.origFlags) + PutUint32(m.numChunks);
    PutUint32At(buf, 12, m.chunkSize);
    PutUint32At(buf, 16, m.instime);
    PutUint32At(buf, 20, m.exptime);
    b := buf[..];
  }

  method WriteRecord(w: Writer, m: Record)
    requires Storable(m)
    modifies w
    ensures w.out == old(w.out) + EncodeRecord(m)
  {
    var buf := RecordNumbers(m);
    w.Write(buf);
    w.Write(m.token);
    Associate(old(w.out), buf, m.token);
  }

  /** readMetadata: a record cut short by the end of the stream is taken for an empty one, without an error. */
  function TakeRecord(s: bytes): (Record, bytes) {
    match Take(s, METADATA_SIZE)
    case Got(b, rest) => (DecodeRecord(b), rest)
    case Fail(_, rest) => (EMPTY_META, rest)
  }

  /** getMetadataCommon: a decoded error drops its message; the flags in front of a record are dropped too, and
      nobody asks whether they were there. */
  function TakeMetadata(s: bytes): Read<Record> {
    var (h, rest) :- TakeHeader(s, MAGIC_RESPONSE);
    match DecodeError(h.status)
    case Some(e) =>
      var (_, s1) :- Skip(rest, h.totalBodyLength);
      Fail(e, s1)
    case None =>
      var (m, s1) := TakeRecord(Skip(rest, 4).rest);
      Got(m, s1)
  }

  method ReadRecord(r: Reader) returns (m: Record)
    modifies r
    ensures (m, r.rest) == TakeRecord(old(r.rest))
  {
    var got := r.ReadFull(METADATA_SIZE);
    m := if got.Fail? then EMPTY_META else DecodeRecord(got.value);
  }

  method GetMetadataCommon(r: Reader) returns (m: Read<Record>)
    modifies r
    ensures m == TakeMetadata(old(r.rest)) && r.rest == m.rest
  {
    var hr := ReadResponseHeader(r);
    if hr.Fail? { return Fail(hr.error, hr.rest); }
    var err := DecodeError(hr.value.status);
    if err.Some? {
      var message := r.Discard(hr.value.totalBodyLength);
      return Fail(if message.Fail? then message.error else err.value, message.rest);
    }
    var flags := r.Discard(4);
    var record := ReadRecord(r);
    m := Got(record, r.rest);
  }

  /** The backend's answer to a get for a metadata record. */
  function MetadataFrame(h: Header, flags: uint32, m: Record): bytes
    requires Storable(m)
  {
    h.Encode(MAGIC_RESPONSE) + (PutUint32(flags) + EncodeRecord(m))
  }

  /** Such an answer in front of anything is read back to the record, and exactly used up. */
  lemma MetadataRoundTrip(h: Header, flags: uint32, m: Record, tail: bytes)
    requires Storable(m) && DecodeError(h.status).None?
    ensures TakeMetadata(MetadataFrame(h, flags, m) + tail) == Got(m, tail)
  {
    var head, f, b := h.Encode(MAGIC_RESPONSE), PutUint32(flags), EncodeRecord(m);
    Associate(head, f + b, tail);
    Associate(f, b, tail);
    HeaderRoundTrip(h, MAGIC_RESPONSE, f + (b + tail));
    TakeConcat(f, b + tail);
    TakeConcat(b, tail);
    RecordRoundTrip(m);
  }

  /** An answer that is an error is read back to that error, and exactly used up with its message. */
  lemma MetadataErrorRoundTrip(h: Header, message: bytes, tail: bytes)
    requires DecodeError(h.status).Some? && h.totalBodyLength == |message|
    ensures TakeMetadata(h.Encode(MAGIC_RESPONSE) + (message + tail)) == Fail(DecodeError(h.status).value, tail)
  {
    HeaderRoundTrip(h, MAGIC_RESPONSE, message + tail);
    TakeConcat(message, tail);
  }

  /** An answer of which any byte of the record is missing is taken for an empty record, without an error. */
  lemma MetadataCutShort(h: Header, part: bytes)
    requires DecodeError(h.status).None? && |part| < 4 + METADATA_SIZE
    ensures TakeMetadata(h.Encode(MAGIC_RESPONSE) + part) == Got(EMPTY_META, [])
  {
    HeaderRoundTrip(h, MAGIC_RESPONSE, part);
  }

  /** One reply frame of the backend: a stored chunk, with its flags and token in front, or an error with its
      message. The length field of a chunk frame is free because the reader does not look at it. */
  datatype Frame =
    | ChunkFrame(opcode: byte, total: uint32, opaqueToken: uint32, flags: uint32, token: Token, chunk: bytes)
    | ErrorFrame(opcode: byte, status: uint16, opaqueToken: uint32, message: bytes)
  {
    predicate WellFormed(chunkSize: nat) {
      opcode != OPCODE_NOOP
      && match this
         case ChunkFrame(_, _, _, _, token, chunk) => |token| == TOKEN_SIZE && |chunk| == chunkSize
         case ErrorFrame(_, status, _, message) => DecodeError(status).Some? && |message| < TWO_TO_THE_32
    }

    function Head(): Header {
      match this
      case ChunkFrame(op, total, o, _, _, _) => Header(op, 0, 4, STATUS_SUCCESS, total, o)
      case ErrorFrame(op, status, o, message) => Header(op, 0, 0, status, Wrap32(|message|), o)
    }

    function Body(): bytes {
      match this
      case ChunkFrame(_, _, _, flags, token, chunk) => PutUint32(flags) + (token + chunk)
      case ErrorFrame(_, _, _, message) => message
    }

    function Reply(): ChunkReads.Reply<Token>
      requires ErrorFrame? ==> DecodeError(status).Some?
    {
      match this
      case ChunkFrame(_, _, _, _, token, chunk) => Hit(token, chunk)
      case ErrorFrame(_, status, _, _) =>
        var e := DecodeError(status).value;
        if e == ErrKeyNotFound then NotFound else Failure(e)
    }
  }

  function EncodeFrames(fs: seq<Frame>): bytes {
    if fs == [] then [] else fs[0].Head().Encode(MAGIC_RESPONSE) + (fs[0].Body() + EncodeFrames(fs[1..]))
  }

  function Replies(fs: seq<Frame>, chunkSize: nat): (rs: seq<ChunkReads.Reply<Token>>)
    requires forall i :: 0 <= i < |fs| ==> fs[i].WellFormed(chunkSize)
    ensures |rs| == |fs|
    ensures forall i :: 0 <= i < |rs| && rs[i].Hit? ==> |rs[i].chunk| == chunkSize
  {
    if fs == [] then []
    else
      assert fs[0].WellFormed(chunkSize);
      [fs[0].Reply()] + Replies(fs[1..], chunkSize)
  }

  method ReadInto(r: Reader, buf: array<byte>, from: nat, to: nat)
    requires from <= to <= buf.Length && to - from <= |r.rest|
    modifies r, buf
    ensures r.rest == old(r.rest)[to - from..]
    ensures buf[..] == old(buf[..from]) + old(r.rest)[..to - from] + old(buf[to..])
  {
    var got := r.ReadFull(to - from);
    var b := got.value;
    for i := 0 to |b|
      invariant forall j :: 0 <= j < i ==> buf[from + j] == b[j]
      invariant forall j :: 0 <= j < buf.Length && !(from <= j < from + i) ==> buf[j] == old(buf[j])
      modifies buf
    {
      buf[from + i] := b[i];
    }
  }

  /** The part of getLocalIntoBuf after the flags of a chunk frame: token, value, padding. */
  method ReadChunk(r: Reader, meta: Record, tokenBuf: array<byte>, dataBuf: array<byte>, chunkNum: nat,
                   ghost token: Token, ghost chunk: bytes, ghost rest: bytes)
    requires meta.Consistent() && chunkNum < meta.numChunks && dataBuf.Length == meta.length
    requires tokenBuf.Length == TOKEN_SIZE && tokenBuf != dataBuf && |token| == TOKEN_SIZE && |chunk| == meta.chunkSize
    requires r.rest == token + (chunk + rest)
    modifies r, tokenBuf, dataBuf
    ensures r.rest == rest && tokenBuf[..] == token
    ensures SliceStart(meta.chunkSize, chunkNum) <= meta.length
    ensures dataBuf[..] == Place(old(dataBuf[..]), meta.chunkSize, chunkNum, chunk)
  {
    TakeConcat(token, chunk + rest);
    ReadInto(r, tokenBuf, 0, TOKEN_SIZE);
    assert r.rest == chunk + rest;
    ReadSlice(r, meta, dataBuf, chunkNum, chunk, rest);
  }

  method ReadSlice(r: Reader, meta: Record, dataBuf: array<byte>, chunkNum: nat, ghost chunk: bytes, ghost rest: bytes)
    requires meta.Consistent() && chunkNum < meta.numChunks && dataBuf.Length == meta.length
    requires |chunk| == meta.chunkSize && r.rest == chunk + rest
    modifies r, dataBuf
    ensures r.rest == rest
    ensures SliceStart(meta.chunkSize, chunkNum) <= meta.length
    ensures dataBuf[..] == Place(old(dataBuf[..]), meta.chunkSize, chunkNum, chunk)
  {
    ChunkStarts(meta.length, meta.chunkSize, chunkNum);
    var start, end := SliceStart(meta.chunkSize, chunkNum), SliceEnd(meta.chunkSize, chunkNum, meta.length);
    ghost var value, padding := chunk[..end - start], chunk[end - start..];
    assert chunk == value + padding;
    Associate(value, padding, rest);
    TakeConcat(value, padding + rest);
    ReadInto(r, dataBuf, start, end);
    SkipPadding(r, meta.chunkSize - (end - start), padding, rest);
  }

  method SkipPadding(r: Reader, n: nat, ghost padding: bytes, ghost rest: bytes)
    requires |padding| == n && r.rest == padding + rest
    modifies r
    ensures r.rest == rest
  {
    TakeConcat(padding, rest);
    if n > 0 {
      var skipped := r.Discard(n);
    }
  }

  /** A stream of replies closed by a noop, with whatever the connection carries next behind it. */
  ghost function Stream(fs: seq<Frame>, noopToken: uint32, rest: bytes): bytes {
    EncodeFrames(fs) + (NoopHead(noopToken).Encode(MAGIC_RESPONSE) + rest)
  }

  /** getLocalIntoBuf on such a stream: it takes one frame off it. */
  method GetLocalIntoBuf(r: Reader, meta: Record, tokenBuf: array<byte>, dataBuf: array<byte>, chunkNum: nat,
                         ghost fs: seq<Frame>, ghost noopToken: uint32, ghost rest: bytes)
    returns (noop: bool, err: Option<Error>)
    requires meta.Consistent() && chunkNum + |fs| <= meta.numChunks && dataBuf.Length == meta.length
    requires tokenBuf.Length == TOKEN_SIZE && tokenBuf != dataBuf
    requires fs != [] ==> fs[0].WellFormed(meta.chunkSize)
    requires r.rest == Stream(fs, noopToken, rest)
    modifies r, tokenBuf, dataBuf
    ensures noop <==> fs == []
    ensures r.rest == if fs == [] then rest else Stream(fs[1..], noopToken, rest)
    ensures noop || err.Some? ==> tokenBuf[..] == old(tokenBuf[..]) && dataBuf[..] == old(dataBuf[..])
    ensures err == if fs != [] && fs[0].ErrorFrame? then DecodeError(fs[0].status) else None
    ensures fs != [] && fs[0].ChunkFrame? ==>
      && tokenBuf[..] == fs[0].token && SliceStart(meta.chunkSize, chunkNum) <= meta.length
      && dataBuf[..] == Place(old(dataBuf[..]), meta.chunkSize, chunkNum, fs[0].chunk)
  {
    StreamHead(fs, noopToken, rest);
    var hr := ReadResponseHeader(r);
    var h := hr.value;
    if h.opcode == OPCODE_NOOP {
      return true, None;
    }
    err := ReadBody(r, meta, tokenBuf, dataBuf, chunkNum, h, fs[0], Stream(fs[1..], noopToken, rest));
    noop := false;
  }

  /** The part of getLocalIntoBuf after the header. */
  method ReadBody(r: Reader, meta: Record, tokenBuf: array<byte>, dataBuf: array<byte>, chunkNum: nat, h: Header,
                  ghost f: Frame, ghost more: bytes)
    returns (err: Option<Error>)
    requires meta.Consistent() && chunkNum < meta.numChunks && dataBuf.Length == meta.length
    requires tokenBuf.Length == TOKEN_SIZE && tokenBuf != dataBuf
    requires f.WellFormed(meta.chunkSize) && h == f.Head() && r.rest == f.Body() + more
    modifies r, tokenBuf, dataBuf
    ensures r.rest == more
    ensures err.Some? ==> tokenBuf[..] == old(tokenBuf[..]) && dataBuf[..] == old(dataBuf[..])
    ensures err == if f.ErrorFrame? then DecodeError(f.status) else None
    ensures f.ChunkFrame? ==>
      && tokenBuf[..] == f.token && SliceStart(meta.chunkSize, chunkNum) <= meta.length
      && dataBuf[..] == Place(old(dataBuf[..]), meta.chunkSize, chunkNum, f.chunk)
  {
    err := DecodeError(h.status);
    if err.Some? {
      TakeConcat(f.Body(), more);
      var message := r.Discard(h.totalBodyLength);
      return;
    }
    Associate(PutUint32(f.flags), f.token + f.chunk, more);
    Associate(f.token, f.chunk, more);
    TakeConcat(PutUint32(f.flags), f.token + (f.chunk + more));
    var flags := r.Discard(4);
    ReadChunk(r, meta, tokenBuf, dataBuf, chunkNum, f.token, f.chunk, more);
  }

  /** The next header on a stream, and what is behind it. */
  lemma StreamHead(fs: seq<Frame>, noopToken: uint32, rest: bytes)
    ensures fs == [] ==> TakeHeader(Stream(fs, noopToken, rest), MAGIC_RESPONSE) == Got(NoopHead(noopToken), rest)
    ensures fs != [] ==>
      TakeHeader(Stream(fs, noopToken, rest), MAGIC_RESPONSE)
      == Got(fs[0].Head(), fs[0].Body() + Stream(fs[1..], noopToken, rest))
  {
    var noop := NoopHead(noopToken).Encode(MAGIC_RESPONSE) + rest;
    if fs == [] {
      assert [] + noop == noop;
      HeaderRoundTrip(NoopHead(noopToken), MAGIC_RESPONSE, rest);
    } else {
      Associate(fs[0].Head().Encode(MAGIC_RESPONSE), fs[0].Body() + EncodeFrames(fs[1..]), noop);
      Associate(fs[0].Body(), EncodeFrames(fs[1..]), noop);
      HeaderRoundTrip(fs[0].Head(), MAGIC_RESPONSE, fs[0].Body() + Stream(fs[1..], noopToken, rest));
    }
  }

  /** What the body of the loop does to its variables, once getLocalIntoBuf has returned this. */
  function Turn(meta: Record, st: Loop<Token>, err: Option<Error>, token: Token, buf: bytes): Loop<Token> {
    if err == Some(ErrKeyNotFound) then Loop(st.chunk, true, st.lastErr, token, buf)
    else
      Loop(st.chunk + 1, st.miss || meta.token != token, if err.Some? then err else st.lastErr, token, buf)
  }

  lemma OneFrame(meta: Record, st: Loop<Token>, fs: seq<Frame>, err: Option<Error>, token: Token, buf: bytes)
    requires meta.Consistent() && |st.buf| == meta.length && st.chunk + |fs| <= meta.numChunks && fs != []
    requires fs[0].WellFormed(meta.chunkSize) && forall i :: 0 <= i < |fs| ==> fs[i].WellFormed(meta.chunkSize)
    requires err == if fs[0].ErrorFrame? then DecodeError(fs[0].status) else None
    requires err.Some? ==> token == st.token && buf == st.buf
    requires fs[0].ChunkFrame? ==>
      && token == fs[0].token && SliceStart(meta.chunkSize, st.chunk) <= meta.length
      && buf == Place(st.buf, meta.chunkSize, st.chunk, fs[0].chunk)
    ensures var t := Turn(meta, st, err, token, buf);
      && |t.buf| == meta.length && t.chunk + |fs[1..]| <= meta.numChunks
      && AbsorbFrames(meta, st, fs) == AbsorbFrames(meta, t, fs[1..])
  {
    assert Absorb(meta, st, fs[0].Reply()) == Turn(meta, st, err, token, buf);
  }

  /** The body of that loop. */
  method ReadReply(r: Reader, meta: Record, tokenBuf: array<byte>, dataBuf: array<byte>, chunk: nat, miss: bool,
                   lastErr: Option<Error>, ghost fs: seq<Frame>, ghost noopToken: uint32, ghost rest: bytes)
    returns (noop: bool, chunk': nat, miss': bool, lastErr': Option<Error>)
    requires meta.Consistent() && chunk + |fs| <= meta.numChunks && dataBuf.Length == meta.length
    requires tokenBuf.Length == TOKEN_SIZE && tokenBuf != dataBuf
    requires forall i :: 0 <= i < |fs| ==> fs[i].WellFormed(meta.chunkSize)
    requires r.rest == Stream(fs, noopToken, rest)
    modifies r, tokenBuf, dataBuf
    ensures noop <==> fs == []
    ensures r.rest == if noop then rest else Stream(fs[1..], noopToken, rest)
    ensures chunk' + (if noop then 0 else |fs| - 1) <= meta.numChunks
    ensures AbsorbFrames(meta, Loop(chunk, miss, lastErr, old(tokenBuf[..]), old(dataBuf[..])), fs)
         == AbsorbFrames(meta, Loop(chunk', miss', lastErr', tokenBuf[..], dataBuf[..]), if noop then [] else fs[1..])
  {
    ghost var st := Loop(chunk, miss, lastErr, tokenBuf[..], dataBuf[..]);
    chunk', miss', lastErr' := chunk, miss, lastErr;
    var err;
    noop, err := GetLocalIntoBuf(r, meta, tokenBuf, dataBuf, chunk, fs, noopToken, rest);
    if !noop {
      OneFrame(meta, st, fs, err, tokenBuf[..], dataBuf[..]);
      chunk', miss', lastErr' := CountReply(meta, chunk, miss, lastErr, err, tokenBuf, st, dataBuf[..]);
    }
  }

  /** The rest of the loop's body: its counters. */
  method CountReply(meta: Record, chunk: nat, miss: bool, lastErr: Option<Error>, err: Option<Error>,
                    tokenBuf: array<byte>, ghost st: Loop<Token>, ghost buf: bytes)
    returns (chunk': nat, miss': bool, lastErr': Option<Error>)
    requires st.chunk == chunk && st.miss == miss && st.lastErr == lastErr
    ensures Loop(chunk', miss', lastErr', tokenBuf[..], buf) == Turn(meta, st, err, tokenBuf[..], buf)
  {
    chunk', miss', lastErr' := chunk, miss, lastErr;
    if err == Some(ErrKeyNotFound) {
      miss' := true;
    } else {
      if err.Some? {
        lastErr' := err;
      }
      if meta.token != tokenBuf[..] {
        miss' := true;
      }
      chunk' := chunk + 1;
    }
  }

  /** The loop of realHandleGet, of GAT and of append and prepend. Whatever the replies are, as many as the
      chunks asked for or fewer, it stops having read exactly through the noop frame, so that the next command
      on the connection starts on a frame boundary; and it has done to the buffer what Absorb says. */
  method ReadChunks(r: Reader, meta: Record, ghost fs: seq<Frame>, ghost noopToken: uint32, ghost rest: bytes)
    returns (outcome: Outcome)
    requires meta.Consistent() && |fs| <= meta.numChunks
    requires forall i :: 0 <= i < |fs| ==> fs[i].WellFormed(meta.chunkSize)
    requires r.rest == Stream(fs, noopToken, rest)
    modifies r
    ensures r.rest == rest
    ensures outcome == Finish(AbsorbFrames(meta, Start(meta, Zeros(TOKEN_SIZE)), fs))
  {
    var dataBuf, tokenBuf := new byte[meta.length](_ => 0), new byte[TOKEN_SIZE](_ => 0);
    assert dataBuf[..] == Zeros(meta.length) && tokenBuf[..] == Zeros(TOKEN_SIZE);
    var chunk: nat, miss, lastErr := 0, false, None;
    var opcodeNoop := false;
    ghost var left := fs;
    while !opcodeNoop
      invariant r.rest == if opcodeNoop then rest else Stream(left, noopToken, rest)
      invariant chunk + |left| <= meta.numChunks && (opcodeNoop ==> left == [])
      invariant forall i :: 0 <= i < |left| ==> left[i].WellFormed(meta.chunkSize)
      invariant AbsorbFrames(meta, Start(meta, Zeros(TOKEN_SIZE)), fs)
             == AbsorbFrames(meta, Loop(chunk, miss, lastErr, tokenBuf[..], dataBuf[..]), left)
      modifies r, tokenBuf, dataBuf
      decreases |left|, !opcodeNoop
    {
      opcodeNoop, chunk, miss, lastErr :=
        ReadReply(r, meta, tokenBuf, dataBuf, chunk, miss, lastErr, left, noopToken, rest);
      left := if opcodeNoop then [] else left[1..];
    }
    outcome := if lastErr.Some? then Failed(lastErr.value) else if miss then Miss else Value(dataBuf[..]);
  }

  /** The loop's effect, frame by frame. */
  function AbsorbFrames(meta: Record, st: Loop<Token>, fs: seq<Frame>): Loop<Token>
    requires meta.Consistent() && |st.buf| == meta.length && st.chunk + |fs| <= meta.numChunks
    requires forall i :: 0 <= i < |fs| ==> fs[i].WellFormed(meta.chunkSize)
    decreases |fs|
  {
    if fs == [] then st
    else
      assert fs[0].WellFormed(meta.chunkSize);
      AbsorbFrames(meta, Absorb(meta, st, fs[0].Reply()), fs[1..])
  }

  /** Bytes do not matter to the outcome beyond the replies they carry. */
  lemma {:induction false} FramesAreReplies(meta: Record, st: Loop<Token>, fs: seq<Frame>)
    requires meta.Consistent() && |st.buf| == meta.length && st.chunk + |fs| <= meta.numChunks
    requires forall i :: 0 <= i < |fs| ==> fs[i].WellFormed(meta.chunkSize)
    ensures AbsorbFrames(meta, st, fs) == AbsorbAll(meta, st, Replies(fs, meta.chunkSize))
    decreases |fs|
  {
    if fs != [] {
      assert Replies(fs, meta.chunkSize)[1..] == Replies(fs[1..], meta.chunkSize);
      FramesAreReplies(meta, Absorb(meta, st, fs[0].Reply()), fs[1..]);
    }
  }

  /** Status 1 says that a chunk is not there; every other error is a failure. */
  lemma FrameSays(f: Frame, chunkSize: nat)
    requires f.WellFormed(chunkSize)
    ensures f.ErrorFrame? ==> (f.Reply().NotFound? <==> f.status == 1)
    ensures f.ErrorFrame? && f.status != 1 ==> f.Reply() == Failure(DecodeError(f.status).value)
    ensures f.ChunkFrame? ==> f.Reply() == Hit(f.token, f.chunk)
  {
  }

  function NoopHead(opaqueToken: uint32): Header {
    Header(OPCODE_NOOP, 0, 0, STATUS_SUCCESS, 0, opaqueToken)
  }
}
