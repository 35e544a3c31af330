/** The 24-byte request and response headers of the memcached binary protocol (BinaryProtocolRevamped,
    "Packet Structure"). */
module Headers {
  import opened Bytes

  const MAGIC_REQUEST: byte := 0x80
  const MAGIC_RESPONSE: byte := 0x81
  const HEADER_LEN := 24

  const OPCODE_GET: byte := 0x00
  const OPCODE_SET: byte := 0x01
  const OPCODE_ADD: byte := 0x02
  const OPCODE_REPLACE: byte := 0x03
  const OPCODE_DELETE: byte := 0x04
  const OPCODE_GETQ: byte := 0x09
  const OPCODE_NOOP: byte := 0x0a
  const OPCODE_APPEND: byte := 0x0e
  const OPCODE_PREPEND: byte := 0x0f
  const OPCODE_TOUCH: byte := 0x1c
  const OPCODE_GAT: byte := 0x1d
  const OPCODE_GATQ: byte := 0x1e
  const OPCODE_GETE: byte := 0x40
  const OPCODE_GETEQ: byte := 0x41

  const STATUS_SUCCESS: uint16 := 0x00
  const STATUS_INVALID: uint16 := 0xffff

  /** The fields of a header that are not constant. `status` is the VBucket field of a request, which is
      written as zero and not read. */
  datatype Header = Header(opcode: byte, keyLength: uint16, extraLength: byte, status: uint16,
                           totalBodyLength: uint32, opaqueToken: uint32)
  {
    function Encode(magic: byte): (b: bytes)
      ensures |b| == HEADER_LEN
    {
      [magic, opcode] + PutUint16(keyLength) + [extraLength, 0] + PutUint16(status)
      + PutUint32(totalBodyLength) + PutUint32(opaqueToken) + Zeros(8)
    }
  }

  /** Where each field lies among the 24 bytes. The data type and the CAS value are always zero. */
  lemma HeaderLayout(h: Header, magic: byte)
    ensures var b := h.Encode(magic);
      && b[0] == magic && b[1] == h.opcode && b[2..4] == PutUint16(h.keyLength) && b[4] == h.extraLength && b[5] == 0
      && b[6..8] == PutUint16(h.status) && b[8..12] == PutUint32(h.totalBodyLength)
      && b[12..16] == PutUint32(h.opaqueToken) && b[16..24] == [0, 0, 0, 0, 0, 0, 0, 0]
  {
  }

  /** Go's makeRequestHeader: each length is cut down to the width of its field. */
  function RequestHeader(opcode: byte, keyLength: nat, extraLength: byte, totalBodyLength: nat, opaqueToken: uint32)
    : Header
  {
    Header(opcode, Wrap16(keyLength), extraLength, 0, Wrap32(totalBodyLength), opaqueToken)
  }

  function Decode(b: bytes): Header
    requires |b| == HEADER_LEN
  {
    Header(b[1], Uint16(b[2..4]), b[4], Uint16(b[6..8]), Uint32(b[8..12]), Uint32(b[12..16]))
  }

  /** ReadResponseHeader, and readRequestHeader up to the VBucket field. */
  function TakeHeader(s: bytes, magic: byte): (r: Read<Header>)
    ensures r.Got? ==> HEADER_LEN <= |s| && r.rest == s[HEADER_LEN..]
  {
    var (b, rest) :- Take(s, HEADER_LEN);
    if b[0] != magic then Fail(ErrBadMagic, rest) else Got(Decode(b), rest)
  }

  function TakeRequestHeader(s: bytes): (r: Read<Header>)
    ensures r.Got? ==> HEADER_LEN <= |s| && r.rest == s[HEADER_LEN..]
  {
    var (h, rest) :- TakeHeader(s, MAGIC_REQUEST);
    Got(h.(status := 0), rest)
  }

  lemma DecodeEncode(h: Header, magic: byte)
    ensures Decode(h.Encode(magic)) == h
  {
    var b := h.Encode(magic);
    assert b[2..4] == PutUint16(h.keyLength);
    assert b[6..8] == PutUint16(h.status);
    assert b[8..12] == PutUint32(h.totalBodyLength);
    assert b[12..16] == PutUint32(h.opaqueToken);
  }

  /** A header in front of anything is read back as it was written. */
  lemma HeaderRoundTrip(h: Header, magic: byte, rest: bytes)
    ensures TakeHeader(h.Encode(magic) + rest, magic) == Got(h, rest)
    ensures magic == MAGIC_REQUEST && h.status == 0 ==> TakeRequestHeader(h.Encode(magic) + rest) == Got(h, rest)
  {
    TakeConcat(h.Encode(magic), rest);
    DecodeEncode(h, magic);
  }

  /** What is refused: a stream that ends inside the header, and a first byte that is not the magic. */
  lemma HeaderRefused(s: bytes, magic: byte)
    ensures |s| < 24 ==> TakeHeader(s, magic) == Fail(if s == [] then EOF else ErrUnexpectedEOF, [])
    ensures |s| >= 24 && s[0] != magic ==> TakeHeader(s, magic) == Fail(ErrBadMagic, s[24..])
    ensures TakeRequestHeader(s).Fail? <==> TakeHeader(s, 0x80).Fail?
    ensures TakeRequestHeader(s).Fail? ==> TakeRequestHeader(s) == TakeHeader(s, 0x80)
  {
  }

  method PutUint16At(buf: array<byte>, at: nat, v: uint16)
    requires at + 2 <= buf.Length
    modifies buf
    ensures buf[..] == old(buf[..at]) + PutUint16(v) + old(buf[at + 2..])
  {
    var b := PutUint16(v);
    buf[at], buf[at + 1] := b[0], b[1];
  }

  method PutUint32At(buf: array<byte>, at: nat, v: uint32)
    requires at + 4 <= buf.Length
    modifies buf
    ensures buf[..] == old(buf[..at]) + PutUint32(v) + old(buf[at + 4..])
  {
    var b := PutUint32(v);
    buf[at], buf[at + 1], buf[at + 2], buf[at + 3] := b[0], b[1], b[2], b[3];
  }

  /** writeRequestHeader and writeResponseHeader: the pooled buffer holds the bytes of an earlier header,
      and none of them reaches the wire. */
  method WriteHeader(buf: array<byte>, w: Writer, magic: byte, h: Header)
    requires buf.Length == HEADER_LEN
    modifies buf, w
    ensures w.out == old(w.out) + h.Encode(magic)
  {
    buf[0] := magic;
    buf[1] := h.opcode;
    PutUint16At(buf, 2, h.keyLength);
    buf[4] := h.extraLength;
    buf[5] := 0;
    PutUint16At(buf, 6, h.status);
    assert buf[..8] == h.Encode(magic)[..8];
    PutUint32At(buf, 8, h.totalBodyLength);
    PutUint32At(buf, 12, h.opaqueToken);
    assert buf[..16] == h.Encode(magic)[..16];
    for i := 16 to 24
      invariant buf[..16] == h.Encode(magic)[..16]
      invariant forall j :: 16 <= j < i ==> buf[j] == 0
      modifies buf
    {
      buf[i] := 0;
    }
    assert buf[..] == h.Encode(magic);
    w.Write(buf[..]);
  }

  method ReadResponseHeader(r: Reader) returns (h: Read<Header>)
    modifies r
    ensures h == TakeHeader(old(r.rest), MAGIC_RESPONSE) && r.rest == h.rest
  {
    var b := r.ReadFull(HEADER_LEN);
    match b
    case Fail(e, s) => h := Fail(e, s);
    case Got(v, s) => h := if v[0] != MAGIC_RESPONSE then Fail(ErrBadMagic, s) else Got(Decode(v), s);
  }

  method ReadRequestHeader(r: Reader) returns (h: Read<Header>)
    modifies r
    ensures h == TakeRequestHeader(old(r.rest)) && r.rest == h.rest
  {
    var b := r.ReadFull(HEADER_LEN);
    match b
    case Fail(e, s) => h := Fail(e, s);
    case Got(v, s) => h := if v[0] != MAGIC_REQUEST then Fail(ErrBadMagic, s) else Got(Decode(v).(status := 0), s);
  }

  /** binprot.DecodeError: None is Go's nil. */
  function DecodeError(status: uint16): Option<Error> {
    match status
    case 0x01 => Some(ErrKeyNotFound)
    case 0x02 => Some(ErrKeyExists)
    case 0x03 => Some(ErrValueTooBig)
    case 0x04 => Some(ErrInvalidArgs)
    case 0x05 => Some(ErrItemNotStored)
    case 0x06 => Some(ErrBadIncDecValue)
    case 0x20 => Some(ErrAuth)
    case 0x81 => Some(ErrUnknownCmd)
    case 0x82 => Some(ErrNoMem)
    case 0x83 => Some(ErrNotSupported)
    case 0x84 => Some(ErrInternal)
    case 0x85 => Some(ErrBusy)
    case 0x86 => Some(ErrTempFailure)
    case _ => None
  }

  function ErrorToCode(e: Error): uint16 {
    match e
    case ErrKeyNotFound => 0x01
    case ErrKeyExists => 0x02
    case ErrValueTooBig => 0x03
    case ErrInvalidArgs => 0x04
    case ErrItemNotStored => 0x05
    case ErrBadIncDecValue => 0x06
    case ErrAuth => 0x20
    case ErrUnknownCmd => 0x81
    case ErrNoMem => 0x82
    case ErrNotSupported => 0x83
    case ErrInternal => 0x84
    case ErrBusy => 0x85
    case ErrTempFailure => 0x86
    case _ => STATUS_INVALID
  }

  /** The status codes of memcached's binary protocol. */
  lemma StatusCodes()
    ensures DecodeError(0x00) == None
    ensures DecodeError(0x01) == Some(ErrKeyNotFound) && DecodeError(0x02) == Some(ErrKeyExists)
    ensures DecodeError(0x03) == Some(ErrValueTooBig) && DecodeError(0x04) == Some(ErrInvalidArgs)
    ensures DecodeError(0x05) == Some(ErrItemNotStored) && DecodeError(0x06) == Some(ErrBadIncDecValue)
    ensures DecodeError(0x20) == Some(ErrAuth) && DecodeError(0x81) == Some(ErrUnknownCmd)
    ensures DecodeError(0x82) == Some(ErrNoMem) && DecodeError(0x83) == Some(ErrNotSupported)
    ensures DecodeError(0x84) == Some(ErrInternal) && DecodeError(0x85) == Some(ErrBusy)
    ensures DecodeError(0x86) == Some(ErrTempFailure)
  {
  }

  /** common.IsAppError. */
  predicate IsAppError(e: Error) {
    || e == ErrKeyNotFound || e == ErrKeyExists || e == ErrValueTooBig || e == ErrInvalidArgs
    || e == ErrItemNotStored || e == ErrBadIncDecValue || e == ErrAuth || e == ErrUnknownCmd
    || e == ErrNoMem || e == ErrNotSupported || e == ErrInternal || e == ErrBusy || e == ErrTempFailure
  }
}
