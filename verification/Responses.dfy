/** Replies as the binary responder writes them, and the backend handler that reads such replies. */
module Responses {
  import opened Bytes
  import opened Headers

  /** GetResponse and GetEResponse; a plain get leaves exptime at zero. */
  datatype Response = Response(key: bytes, data: bytes, opaqueToken: uint32, flags: uint32, exptime: uint32,
                               miss: bool, quiet: bool)

  /** Which of the three value-carrying replies is meant. */
  datatype Kind = ForGet | ForGat | ForGetE

  function KindOpcode(kind: Kind): byte {
    match kind case ForGet => OPCODE_GET case ForGat => OPCODE_GAT case ForGetE => OPCODE_GETE
  }

  function SuccessHeader(opcode: byte, extraLength: byte, totalBodyLength: nat, opaqueToken: uint32): Header {
    Header(opcode, 0, extraLength, STATUS_SUCCESS, Wrap32(totalBodyLength), opaqueToken)
  }

  function ErrorFrame(opcode: byte, e: Error, opaqueToken: uint32): bytes {
    Header(opcode, 0, 0, ErrorToCode(e), 0, opaqueToken).Encode(MAGIC_RESPONSE)
  }

  function HitHeader(kind: Kind, dataLength: nat, opaqueToken: uint32): Header {
    var extras := if kind.ForGetE? then 8 else 4;
    SuccessHeader(KindOpcode(kind), extras, dataLength + extras, opaqueToken)
  }

  function HitFrame(kind: Kind, r: Response): bytes {
    HitHeader(kind, |r.data|, r.opaqueToken).Encode(MAGIC_RESPONSE)
    + (PutUint32(r.flags) + ((if kind.ForGetE? then PutUint32(r.exptime) else []) + r.data))
  }

  /** What one answer puts on the wire: nothing at all for a quiet miss. */
  function Frame(kind: Kind, r: Response): bytes {
    if !r.miss then HitFrame(kind, r)
    else if r.quiet then []
    else ErrorFrame(KindOpcode(kind), ErrKeyNotFound, r.opaqueToken)
  }

  function NoopFrame(opaqueToken: uint32): bytes {
    SuccessHeader(OPCODE_NOOP, 0, 0, opaqueToken).Encode(MAGIC_RESPONSE)
  }

  class BinaryResponder {
    const writer: Writer
    const pooled: array<byte>

    constructor (writer: Writer)
      ensures this.writer == writer && fresh(pooled) && pooled.Length == HEADER_LEN
    {
      this.writer := writer;
      this.pooled := new byte[HEADER_LEN];
    }

    /** Get, GAT and GetE. */
    method Answer(kind: Kind, r: Response)
      requires pooled.Length == HEADER_LEN
      modifies writer, pooled
      ensures writer.out == old(writer.out) + Frame(kind, r)
    {
      if r.miss {
        if !r.quiet {
          WriteError(KindOpcode(kind), ErrKeyNotFound, r.opaqueToken);
        }
        assert Frame(kind, r) == [] ==> old(writer.out) + [] == old(writer.out);
        return;
      }
      var h := HitHeader(kind, |r.data|, r.opaqueToken);
      WriteHeader(pooled, writer, MAGIC_RESPONSE, h);
      writer.Write(PutUint32(r.flags));
      if kind.ForGetE? {
        writer.Write(PutUint32(r.exptime));
      }
      writer.Write(r.data);
      HitFrameForm(old(writer.out), h, r.flags, if kind.ForGetE? then PutUint32(r.exptime) else [], r.data);
    }

    method GetEnd(opaqueToken: uint32, noopEnd: bool)
      requires pooled.Length == HEADER_LEN
      modifies writer, pooled
      ensures writer.out == old(writer.out) + if noopEnd then NoopFrame(opaqueToken) else []
    {
      if noopEnd {
        WriteHeader(pooled, writer, MAGIC_RESPONSE, SuccessHeader(OPCODE_NOOP, 0, 0, opaqueToken));
      }
    }

    method WriteError(opcode: byte, e: Error, opaqueToken: uint32)
      requires pooled.Length == HEADER_LEN
      modifies writer, pooled
      ensures writer.out == old(writer.out) + ErrorFrame(opcode, e, opaqueToken)
    {
      WriteHeader(pooled, writer, MAGIC_RESPONSE, Header(opcode, 0, 0, ErrorToCode(e), 0, opaqueToken));
    }
  }

  lemma HitFrameForm(sent: bytes, h: Header, flags: uint32, exp: bytes, data: bytes)
    ensures sent + h.Encode(MAGIC_RESPONSE) + PutUint32(flags) + exp + data
         == sent + (h.Encode(MAGIC_RESPONSE) + (PutUint32(flags) + (exp + data)))
    ensures exp == [] ==>
      sent + h.Encode(MAGIC_RESPONSE) + PutUint32(flags) + data
      == sent + (h.Encode(MAGIC_RESPONSE) + (PutUint32(flags) + (exp + data)))
  {
    var hb, f := h.Encode(MAGIC_RESPONSE), PutUint32(flags);
    Associate(sent, hb, f + (exp + data));
    Associate(sent + hb, f, exp + data);
    Associate(sent + hb + f, exp, data);
    assert exp == [] ==> exp + data == data;
  }

  // ----- Reading replies -----

  datatype Local = Local(data: bytes, flags: uint32, exptime: uint32)

  /** binary.Read into a number that starts at zero, its error ignored. */
  function Uint32OrZero(s: bytes): (uint32, bytes) {
    match TakeUint32(s) case Got(v, rest) => (v, rest) case Fail(_, rest) => (0, rest)
  }

  /** std.getLocal: a decoded error drops the body, anything else is taken for a value. */
  function GetLocal(s: bytes, readExp: bool): Read<Local> {
    var (h, rest) :- TakeHeader(s, MAGIC_RESPONSE);
    match DecodeError(h.status)
    case Some(e) =>
      var (_, s2) :- Skip(rest, h.totalBodyLength);
      Fail(e, s2)
    case None => GetValue(rest, h, readExp)
  }

  function GetValue(s: bytes, h: Header, readExp: bool): Read<Local> {
    var (flags, s1) := Uint32OrZero(s);
    var (exptime, s2) := if readExp then Uint32OrZero(s1) else (0, s1);
    var (data, s3) :- Take(s2, Wrap32(h.totalBodyLength - h.keyLength as int - h.extraLength as int));
    Got(Local(data, flags, exptime), s3)
  }

  method ReadLocal(r: Reader, readExp: bool) returns (v: Read<Local>)
    modifies r
    ensures v == GetLocal(old(r.rest), readExp) && r.rest == v.rest
  {
    var hr := ReadResponseHeader(r);
    if hr.Fail? { return Fail(hr.error, hr.rest); }
    var h := hr.value;
    var err := DecodeError(h.status);
    if err.Some? {
      var body := r.Discard(h.totalBodyLength);
      if body.Fail? { return Fail(body.error, body.rest); }
      return Fail(err.value, body.rest);
    }
    v := ReadValue(r, h, readExp);
  }

  /** getLocal after the status. */
  method ReadValue(r: Reader, h: Header, readExp: bool) returns (v: Read<Local>)
    modifies r
    ensures v == GetValue(old(r.rest), h, readExp) && r.rest == v.rest
  {
    var flags, exptime := 0, 0;
    var f := r.ReadUint32();
    if f.Got? { flags := f.value; }
    if readExp {
      var e := r.ReadUint32();
      if e.Got? { exptime := e.value; }
    }
    var data := r.ReadFull(Wrap32(h.totalBodyLength - h.keyLength as int - h.extraLength as int));
    if data.Fail? { return Fail(data.error, data.rest); }
    v := Got(Local(data.value, flags, exptime), data.rest);
  }

  /** The data length the reader computes from the header the responder wrote. */
  lemma HitLength(kind: Kind, n: nat, opaqueToken: uint32)
    ensures var h := HitHeader(kind, n, opaqueToken);
      Wrap32(h.totalBodyLength - h.keyLength as int - h.extraLength as int) == n % TWO_TO_THE_32
  {
    var extras := if kind.ForGetE? then 8 else 4;
    var total := n + extras;
    assert total - Wrap32(total) == total / TWO_TO_THE_32 * TWO_TO_THE_32;
    assert n - (Wrap32(total) - extras) == total / TWO_TO_THE_32 * TWO_TO_THE_32;
  }

  lemma NumberReadBack(v: uint32, s: bytes)
    ensures Uint32OrZero(PutUint32(v) + s) == (v, s)
  {
    TakeUint32Concat(v, s);
  }

  lemma ValueReadBack(kind: Kind, r: Response, tail: bytes)
    requires |r.data| < TWO_TO_THE_32
    ensures var exp := if kind.ForGetE? then PutUint32(r.exptime) else [];
      GetValue(PutUint32(r.flags) + (exp + (r.data + tail)), HitHeader(kind, |r.data|, r.opaqueToken), kind.ForGetE?)
      == Got(Local(r.data, r.flags, if kind.ForGetE? then r.exptime else 0), tail)
  {
    var exp := if kind.ForGetE? then PutUint32(r.exptime) else [];
    NumberReadBack(r.flags, exp + (r.data + tail));
    if kind.ForGetE? {
      NumberReadBack(r.exptime, r.data + tail);
    } else {
      assert exp + (r.data + tail) == r.data + tail;
    }
    HitLength(kind, |r.data|, r.opaqueToken);
    TakeConcat(r.data, tail);
  }

  lemma FrameIsValue(h: Header, s: bytes, readExp: bool)
    requires DecodeError(h.status).None?
    ensures GetLocal(h.Encode(MAGIC_RESPONSE) + s, readExp) == GetValue(s, h, readExp)
  {
    HeaderRoundTrip(h, MAGIC_RESPONSE, s);
  }

  lemma HitReadBack(kind: Kind, r: Response, tail: bytes)
    requires |r.data| < TWO_TO_THE_32
    ensures GetLocal(HitFrame(kind, r) + tail, kind.ForGetE?)
         == Got(Local(r.data, r.flags, if kind.ForGetE? then r.exptime else 0), tail)
  {
    var h := HitHeader(kind, |r.data|, r.opaqueToken);
    var exp := if kind.ForGetE? then PutUint32(r.exptime) else [];
    HitTail(h, r.flags, exp, r.data, tail);
    FrameIsValue(h, PutUint32(r.flags) + (exp + (r.data + tail)), kind.ForGetE?);
    ValueReadBack(kind, r, tail);
  }

  lemma HitTail(h: Header, flags: uint32, exp: bytes, data: bytes, tail: bytes)
    ensures h.Encode(MAGIC_RESPONSE) + (PutUint32(flags) + (exp + data)) + tail
         == h.Encode(MAGIC_RESPONSE) + (PutUint32(flags) + (exp + (data + tail)))
  {
    var f := PutUint32(flags);
    Associate(h.Encode(MAGIC_RESPONSE), f + (exp + data), tail);
    Associate(f, exp + data, tail);
    Associate(exp, data, tail);
  }

  lemma LocalDataShort(s: bytes, readExp: bool)
    ensures GetLocal(s, readExp).Got? ==> |GetLocal(s, readExp).value.data| < TWO_TO_THE_32
  {
  }

  /** A hit in front of any later frames is decoded to the same data, flags and, for a get with expiry, the
      same expiry, using up its own bytes only; exactly when the value fits the 32-bit length. */
  lemma HitRoundTrip(kind: Kind, r: Response, tail: bytes)
    ensures GetLocal(HitFrame(kind, r) + tail, kind.ForGetE?)
         == Got(Local(r.data, r.flags, if kind.ForGetE? then r.exptime else 0), tail)
         <==> |r.data| < TWO_TO_THE_32
  {
    if |r.data| < TWO_TO_THE_32 {
      HitReadBack(kind, r, tail);
    } else {
      LocalDataShort(HitFrame(kind, r) + tail, kind.ForGetE?);
    }
  }

  /** A frame cut off in its flags, or behind them in its expiry, reads as zeros there; an error only if there is data
      to come. */
  lemma CutShort(h: Header, part: bytes, readExp: bool)
    requires DecodeError(h.status).None? && h.keyLength == 0 && h.extraLength as int <= h.totalBodyLength
    requires |part| < if readExp then 8 else 4
    ensures var flags := if |part| < 4 then 0 else Uint32(part[..4]);
      GetLocal(h.Encode(MAGIC_RESPONSE) + part, readExp)
      == if h.totalBodyLength == h.extraLength as int then Got(Local([], flags, 0), []) else Fail(EOF, [])
  {
    HeaderRoundTrip(h, MAGIC_RESPONSE, part);
  }

  /** An error frame is decoded to the error it was made from for exactly the errors IsAppError accepts;
      every other error reads as an empty value taken out of the frames behind it. */
  lemma ErrorRoundTrip(opcode: byte, e: Error, opaqueToken: uint32, tail: bytes, readExp: bool)
    ensures GetLocal(ErrorFrame(opcode, e, opaqueToken) + tail, readExp) == Fail(e, tail) <==> IsAppError(e)
    ensures !IsAppError(e) ==> GetLocal(ErrorFrame(opcode, e, opaqueToken) + tail, readExp).Got?
  {
    var h := Header(opcode, 0, 0, ErrorToCode(e), 0, opaqueToken);
    HeaderRoundTrip(h, MAGIC_RESPONSE, tail);
    ErrorCodes(e);
    TakeConcat([], tail);
    assert [] + tail == tail;
  }

  // ----- What a client reads -----

  /** The opcode of an answer on the wire. */
  function AnswerOpcode(kind: Kind): byte {
    match kind case ForGet => 0x00 case ForGat => 0x1d case ForGetE => 0x40
  }

  /** Only the miss of a quiet get goes without an answer. */
  lemma SilentIffQuietMiss(kind: Kind, r: Response)
    ensures Frame(kind, r) == [] <==> r.miss && r.quiet
  {
  }

  /** Any other answer starts with a header that has the opcode of the kind and the opaque of the request. */
  lemma AnswerHeader(kind: Kind, r: Response, tail: bytes)
    requires !(r.miss && r.quiet)
    ensures var h := TakeHeader(Frame(kind, r) + tail, 0x81);
      h.Got? && h.value.opcode == AnswerOpcode(kind) && h.value.opaqueToken == r.opaqueToken && h.value.keyLength == 0
  {
    if r.miss {
      var h := Header(KindOpcode(kind), 0, 0, ErrorToCode(ErrKeyNotFound), 0, r.opaqueToken);
      HeaderRoundTrip(h, MAGIC_RESPONSE, tail);
    } else {
      var h := HitHeader(kind, |r.data|, r.opaqueToken);
      var exp := if kind.ForGetE? then PutUint32(r.exptime) else [];
      HitTail(h, r.flags, exp, r.data, tail);
      HeaderRoundTrip(h, MAGIC_RESPONSE, PutUint32(r.flags) + (exp + (r.data + tail)));
    }
  }

  /** What lies behind the header of a hit: flags, for a get with expiry the expiry, and the data. */
  lemma HitLayout(kind: Kind, r: Response)
    ensures var b := HitFrame(kind, r);
      && b[24..28] == PutUint32(r.flags) && b[4] == (if kind.ForGetE? then 8 else 4)
      && (if kind.ForGetE? then b[28..32] == PutUint32(r.exptime) && b[32..] == r.data else b[28..] == r.data)
  {
    var exp := if kind.ForGetE? then PutUint32(r.exptime) else [];
    var h := HitHeader(kind, |r.data|, r.opaqueToken).Encode(MAGIC_RESPONSE);
    assert HitFrame(kind, r) == h + PutUint32(r.flags) + exp + r.data;
  }

  /** And read as a whole it gives the data, flags and expiry of a hit, or not-found for a miss. */
  lemma AnswerReadBack(kind: Kind, r: Response, tail: bytes)
    requires !(r.miss && r.quiet) && |r.data| < TWO_TO_THE_32
    ensures GetLocal(Frame(kind, r) + tail, kind.ForGetE?)
         == if r.miss then Fail(ErrKeyNotFound, tail)
            else Got(Local(r.data, r.flags, if kind.ForGetE? then r.exptime else 0), tail)
  {
    if r.miss {
      ErrorRoundTrip(KindOpcode(kind), ErrKeyNotFound, r.opaqueToken, tail, kind.ForGetE?);
    } else {
      HitReadBack(kind, r, tail);
    }
  }

  /** The frame that ends a batch of gets: a noop with no body. */
  lemma NoopReadBack(opaqueToken: uint32, tail: bytes)
    ensures TakeHeader(NoopFrame(opaqueToken) + tail, 0x81) == Got(Header(0x0a, 0, 0, 0, 0, opaqueToken), tail)
  {
    HeaderRoundTrip(SuccessHeader(OPCODE_NOOP, 0, 0, opaqueToken), MAGIC_RESPONSE, tail);
  }

  lemma ErrorCodes(e: Error)
    ensures IsAppError(e) ==> DecodeError(ErrorToCode(e)) == Some(e)
    ensures !IsAppError(e) ==> DecodeError(ErrorToCode(e)) == None
  {
  }
}
