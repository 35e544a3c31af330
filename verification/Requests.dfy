/** Commands as they are written to a backend, and the parser that reads them from a client. */
module Requests {
  import opened Bytes
  import opened Headers
  import opened Memcached

  datatype ConcatKind = KAppend | KPrepend
  datatype Named = Named(key: bytes, opaqueToken: uint32)
  datatype Close = CloseGet(last: Named) | CloseNoop(noopToken: uint32)

  /** What commands.go can write. A get batch is a run of quiet gets ended by a get or a noop; with
      `withExpiry` it is made of GetEQ and GetE. A plain get is a batch with no quiet gets. */
  datatype Command =
    | Store(kind: SetKind, key: bytes, flags: uint32, exptime: uint32, data: bytes, opaqueToken: uint32)
    | Concat(op: ConcatKind, key: bytes, data: bytes, opaqueToken: uint32)
    | GetBatch(withExpiry: bool, quiets: seq<Named>, close: Close)
    | Delete(key: bytes, opaqueToken: uint32)
    | Touch(key: bytes, exptime: uint32, opaqueToken: uint32)
    | Gat(key: bytes, exptime: uint32, opaqueToken: uint32)
    | GatQ(key: bytes, exptime: uint32, opaqueToken: uint32)
    | Noop(opaqueToken: uint32)

  datatype RequestType =
    | RequestSet | RequestAdd | RequestReplace | RequestAppend | RequestPrepend | RequestGet | RequestGetE

  /** The requests of common/datatypes.go that the parser produces. */
  datatype Request =
    | SetRequest(reqType: RequestType, key: bytes, data: bytes, flags: uint32, exptime: uint32,
                 opaqueToken: uint32, quiet: bool)
    | GetRequest(reqType: RequestType, keys: seq<bytes>, opaqueTokens: seq<uint32>, quiets: seq<bool>,
                 noopToken: uint32, noopEnd: bool)
    | DeleteRequest(key: bytes, opaqueToken: uint32)
    | TouchRequest(key: bytes, exptime: uint32, opaqueToken: uint32)
    | GatRequest(key: bytes, exptime: uint32, opaqueToken: uint32)
    | NoopRequest(opaqueToken: uint32)
    | QuitRequest(opaqueToken: uint32, quiet: bool)
    | VersionRequest(opaqueToken: uint32)

  // ----- Writing -----

  function StoreOpcode(kind: SetKind): byte {
    match kind case KindSet => OPCODE_SET case KindAdd => OPCODE_ADD case KindReplace => OPCODE_REPLACE
  }

  function ConcatOpcode(op: ConcatKind): byte {
    match op case KAppend => OPCODE_APPEND case KPrepend => OPCODE_PREPEND
  }

  function GetOpcode(withExpiry: bool): byte {
    if withExpiry then OPCODE_GETE else OPCODE_GET
  }

  function GetQOpcode(withExpiry: bool): byte {
    if withExpiry then OPCODE_GETEQ else OPCODE_GETQ
  }

  function DataHeader(opcode: byte, keyLength: nat, dataSize: uint32, opaqueToken: uint32): Header {
    RequestHeader(opcode, keyLength, 8, keyLength + 8 + dataSize, opaqueToken)
  }

  function DataCmd(opcode: byte, key: bytes, flags: uint32, exptime: uint32, dataSize: uint32, opaqueToken: uint32)
    : bytes
  {
    DataHeader(opcode, |key|, dataSize, opaqueToken).Encode(MAGIC_REQUEST)
    + (PutUint32(flags) + (PutUint32(exptime) + key))
  }

  function ConcatCmd(opcode: byte, key: bytes, dataSize: uint32, opaqueToken: uint32): bytes {
    RequestHeader(opcode, |key|, 0, |key| + dataSize, opaqueToken).Encode(MAGIC_REQUEST) + key
  }

  function KeyCmd(opcode: byte, key: bytes, opaqueToken: uint32): bytes {
    RequestHeader(opcode, |key|, 0, |key|, opaqueToken).Encode(MAGIC_REQUEST) + key
  }

  function KeyExptimeCmd(opcode: byte, key: bytes, exptime: uint32, opaqueToken: uint32): bytes {
    RequestHeader(opcode, |key|, 4, |key| + 4, opaqueToken).Encode(MAGIC_REQUEST) + (PutUint32(exptime) + key)
  }

  function NoopCmd(opaqueToken: uint32): bytes {
    RequestHeader(OPCODE_NOOP, 0, 0, 0, opaqueToken).Encode(MAGIC_REQUEST)
  }

  function EncodeQuiets(withExpiry: bool, quiets: seq<Named>): bytes {
    if quiets == [] then []
    else KeyCmd(GetQOpcode(withExpiry), quiets[0].key, quiets[0].opaqueToken) + EncodeQuiets(withExpiry, quiets[1..])
  }

  function EncodeClose(withExpiry: bool, close: Close): bytes {
    match close
    case CloseGet(last) => KeyCmd(GetOpcode(withExpiry), last.key, last.opaqueToken)
    case CloseNoop(token) => NoopCmd(token)
  }

  /** A command and the data its caller writes after it. */
  function Encode(c: Command): bytes {
    match c
    case Store(kind, key, flags, exptime, data, token) =>
      DataCmd(StoreOpcode(kind), key, flags, exptime, Wrap32(|data|), token) + data
    case Concat(op, key, data, token) => ConcatCmd(ConcatOpcode(op), key, Wrap32(|data|), token) + data
    case GetBatch(withExpiry, quiets, close) => EncodeQuiets(withExpiry, quiets) + EncodeClose(withExpiry, close)
    case Delete(key, token) => KeyCmd(OPCODE_DELETE, key, token)
    case Touch(key, exptime, token) => KeyExptimeCmd(OPCODE_TOUCH, key, exptime, token)
    case Gat(key, exptime, token) => KeyExptimeCmd(OPCODE_GAT, key, exptime, token)
    case GatQ(key, exptime, token) => KeyExptimeCmd(OPCODE_GATQ, key, exptime, token)
    case Noop(token) => NoopCmd(token)
  }

  /** writeDataCmdCommon. */
  method WriteDataCmd(pooled: array<byte>, w: Writer, opcode: byte, key: bytes, flags: uint32, exptime: uint32,
                      dataSize: uint32, opaqueToken: uint32)
    requires pooled.Length == HEADER_LEN
    modifies pooled, w
    ensures w.out == old(w.out) + DataCmd(opcode, key, flags, exptime, dataSize, opaqueToken)
  {
    WriteHeader(pooled, w, MAGIC_REQUEST, DataHeader(opcode, |key|, dataSize, opaqueToken));
    var body := DataBody(flags, exptime, key);
    w.Write(body);
    Associate(old(w.out), DataHeader(opcode, |key|, dataSize, opaqueToken).Encode(MAGIC_REQUEST), body);
  }

  /** The buffer of extras and key, filled in place. */
  method DataBody(flags: uint32, exptime: uint32, key: bytes) returns (b: bytes)
    ensures b == PutUint32(flags) + (PutUint32(exptime) + key)
  {
    var buf := new byte[|key| + 8];
    PutUint32At(buf, 0, flags);
    PutUint32At(buf, 4, exptime);
    CopyInto(buf, 8, key);
    b := buf[..];
  }

  /** writeKeyExptimeCmd. */
  method WriteKeyExptimeCmd(pooled: array<byte>, w: Writer, opcode: byte, key: bytes, exptime: uint32,
                            opaqueToken: uint32)
    requires pooled.Length == HEADER_LEN
    modifies pooled, w
    ensures w.out == old(w.out) + KeyExptimeCmd(opcode, key, exptime, opaqueToken)
  {
    WriteHeader(pooled, w, MAGIC_REQUEST, RequestHeader(opcode, |key|, 4, |key| + 4, opaqueToken));
    var body := KeyExptimeBody(exptime, key);
    w.Write(body);
    Associate(old(w.out), RequestHeader(opcode, |key|, 4, |key| + 4, opaqueToken).Encode(MAGIC_REQUEST), body);
  }

  method KeyExptimeBody(exptime: uint32, key: bytes) returns (b: bytes)
    ensures b == PutUint32(exptime) + key
  {
    var buf := new byte[|key| + 4];
    PutUint32At(buf, 0, exptime);
    CopyInto(buf, 4, key);
    b := buf[..];
  }

  /** writeKeyCmd. */
  method WriteKeyCmd(pooled: array<byte>, w: Writer, opcode: byte, key: bytes, opaqueToken: uint32)
    requires pooled.Length == HEADER_LEN
    modifies pooled, w
    ensures w.out == old(w.out) + KeyCmd(opcode, key, opaqueToken)
  {
    var h := RequestHeader(opcode, |key|, 0, |key|, opaqueToken);
    WriteHeader(pooled, w, MAGIC_REQUEST, h);
    w.Write(key);
    Associate(old(w.out), h.Encode(MAGIC_REQUEST), key);
  }

  /** writeAppendPrependCmdCommon. */
  method WriteConcatCmd(pooled: array<byte>, w: Writer, opcode: byte, key: bytes, dataSize: uint32, opaqueToken: uint32)
    requires pooled.Length == HEADER_LEN
    modifies pooled, w
    ensures w.out == old(w.out) + ConcatCmd(opcode, key, dataSize, opaqueToken)
  {
    var h := RequestHeader(opcode, |key|, 0, |key| + dataSize, opaqueToken);
    WriteHeader(pooled, w, MAGIC_REQUEST, h);
    w.Write(key);
    Associate(old(w.out), h.Encode(MAGIC_REQUEST), key);
  }

  /** Writes a whole command the way the handlers do, header by header and with its data behind it. */
  method WriteCommand(pooled: array<byte>, w: Writer, c: Command)
    requires pooled.Length == HEADER_LEN
    modifies pooled, w
    ensures w.out == old(w.out) + Encode(c)
  {
    match c
    case Store(kind, key, flags, exptime, data, token) =>
      WriteDataCmd(pooled, w, StoreOpcode(kind), key, flags, exptime, Wrap32(|data|), token);
      w.Write(data);
      Associate(old(w.out), DataCmd(StoreOpcode(kind), key, flags, exptime, Wrap32(|data|), token), data);
    case Concat(op, key, data, token) =>
      WriteConcatCmd(pooled, w, ConcatOpcode(op), key, Wrap32(|data|), token);
      w.Write(data);
      Associate(old(w.out), ConcatCmd(ConcatOpcode(op), key, Wrap32(|data|), token), data);
    case GetBatch(withExpiry, quiets, close) => WriteGetBatch(pooled, w, withExpiry, quiets, close);
    case Delete(key, token) => WriteKeyCmd(pooled, w, OPCODE_DELETE, key, token);
    case Touch(key, exptime, token) => WriteKeyExptimeCmd(pooled, w, OPCODE_TOUCH, key, exptime, token);
    case Gat(key, exptime, token) => WriteKeyExptimeCmd(pooled, w, OPCODE_GAT, key, exptime, token);
    case GatQ(key, exptime, token) => WriteKeyExptimeCmd(pooled, w, OPCODE_GATQ, key, exptime, token);
    case Noop(token) => WriteHeader(pooled, w, MAGIC_REQUEST, RequestHeader(OPCODE_NOOP, 0, 0, 0, token));
  }

  method WriteGetBatch(pooled: array<byte>, w: Writer, withExpiry: bool, quiets: seq<Named>, close: Close)
    requires pooled.Length == HEADER_LEN
    modifies pooled, w
    ensures w.out == old(w.out) + (EncodeQuiets(withExpiry, quiets) + EncodeClose(withExpiry, close))
  {
    var left := quiets;
    while left != []
      invariant w.out + EncodeQuiets(withExpiry, left) == old(w.out) + EncodeQuiets(withExpiry, quiets)
      decreases |left|
    {
      ghost var sent := w.out;
      WriteKeyCmd(pooled, w, GetQOpcode(withExpiry), left[0].key, left[0].opaqueToken);
      Associate(sent, KeyCmd(GetQOpcode(withExpiry), left[0].key, left[0].opaqueToken),
                EncodeQuiets(withExpiry, left[1..]));
      left := left[1..];
    }
    assert w.out == old(w.out) + EncodeQuiets(withExpiry, quiets);
    match close {
      case CloseGet(last) => WriteKeyCmd(pooled, w, GetOpcode(withExpiry), last.key, last.opaqueToken);
      case CloseNoop(token) => WriteHeader(pooled, w, MAGIC_REQUEST, RequestHeader(OPCODE_NOOP, 0, 0, 0, token));
    }
    Associate(old(w.out), EncodeQuiets(withExpiry, quiets), EncodeClose(withExpiry, close));
  }

  method CopyInto(buf: array<byte>, at: nat, s: bytes)
    requires at + |s| <= buf.Length
    modifies buf
    ensures buf[..] == old(buf[..at]) + s + old(buf[at + |s|..])
  {
    for i := 0 to |s|
      invariant forall j :: 0 <= j < i ==> buf[at + j] == s[j]
      invariant forall j :: 0 <= j < buf.Length && !(at <= j < at + i) ==> buf[j] == old(buf[j])
    {
      buf[at + i] := s[i];
    }
  }

  // ----- Parsing -----

  /** setRequest: the data length is a 32-bit subtraction of the header's fields. */
  function ParseSet(s: bytes, h: Header, reqType: RequestType, quiet: bool): Read<Request> {
    var (flags, s1) :- TakeUint32(s);
    var (exptime, s2) :- TakeUint32(s1);
    var (key, s3) :- Take(s2, h.keyLength);
    var (data, s4) :- Take(s3, Wrap32(h.totalBodyLength - h.extraLength as int - h.keyLength as int));
    Got(SetRequest(reqType, key, data, flags, exptime, h.opaqueToken, quiet), s4)
  }

  function ParseConcat(s: bytes, h: Header, reqType: RequestType, quiet: bool): Read<Request> {
    var (key, s1) :- Take(s, h.keyLength);
    var (data, s2) :- Take(s1, Wrap32(h.totalBodyLength - h.keyLength as int));
    Got(SetRequest(reqType, key, data, 0, 0, h.opaqueToken, quiet), s2)
  }

  /** readBatchGet and readBatchGetE, with the header of the next command already read and the names
      gathered so far. A header that neither continues nor ends the batch is dropped. */
  function ParseBatch(s: bytes, h: Header, withExpiry: bool, seen: seq<Named>): Read<Request>
    decreases |s|
  {
    if h.opcode == GetQOpcode(withExpiry) then
      var (key, s1) :- Take(s, h.keyLength);
      var (next, s2) :- TakeRequestHeader(s1);
      ParseBatch(s2, next, withExpiry, seen + [Named(key, h.opaqueToken)])
    else if h.opcode == GetOpcode(withExpiry) then
      var (key, s1) :- Take(s, h.keyLength);
      Got(BatchRequest(withExpiry, seen, Some(Named(key, h.opaqueToken)), None), s1)
    else if h.opcode == OPCODE_NOOP then
      Got(BatchRequest(withExpiry, seen, None, Some(h.opaqueToken)), s)
    else
      Got(BatchRequest(withExpiry, seen, None, None), s)
  }

  function BatchRequest(withExpiry: bool, quiets: seq<Named>, last: Option<Named>, noop: Option<uint32>): Request {
    var all := quiets + if last.Some? then [last.value] else [];
    GetRequest(if withExpiry then RequestGetE else RequestGet,
      seq(|all|, i requires 0 <= i < |all| => all[i].key),
      seq(|all|, i requires 0 <= i < |all| => all[i].opaqueToken),
      seq(|all|, i requires 0 <= i < |all| => i < |quiets|),
      if noop.Some? then noop.value else 0, noop.Some?)
  }

  /** What the body of a request looks like, by opcode. */
  datatype Shape =
    | DataShape(reqType: RequestType, quiet: bool)
    | ConcatShape(reqType: RequestType, quiet: bool)
    | BatchShape(withExpiry: bool)
    | ExptimeShape(get: bool)
    | DeleteShape
    | NoopShape
    | QuitShape(quiet: bool)
    | VersionShape
    | UnknownShape

  /** The switch of BinaryParser.Parse. */
  function ShapeOf(opcode: byte): Shape {
    match opcode
    case 0x01 => DataShape(RequestSet, false)
    case 0x11 => DataShape(RequestSet, true)
    case 0x02 => DataShape(RequestAdd, false)
    case 0x12 => DataShape(RequestAdd, true)
    case 0x03 => DataShape(RequestReplace, false)
    case 0x13 => DataShape(RequestReplace, true)
    case 0x0e => ConcatShape(RequestAppend, false)
    case 0x19 => ConcatShape(RequestAppend, true)
    case 0x0f => ConcatShape(RequestPrepend, false)
    case 0x1a => ConcatShape(RequestPrepend, true)
    case 0x09 => BatchShape(false)
    case 0x00 => BatchShape(false)
    case 0x41 => BatchShape(true)
    case 0x40 => BatchShape(true)
    case 0x1d => ExptimeShape(true)
    case 0x1c => ExptimeShape(false)
    case 0x04 => DeleteShape
    case 0x0a => NoopShape
    case 0x07 => QuitShape(false)
    case 0x17 => QuitShape(true)
    case 0x0b => VersionShape
    case _ => UnknownShape
  }

  function ParseExptime(s: bytes, h: Header, get: bool): Read<Request> {
    var (exptime, s1) :- TakeUint32(s);
    var (key, s2) :- Take(s1, h.keyLength);
    Got(if get then GatRequest(key, exptime, h.opaqueToken) else TouchRequest(key, exptime, h.opaqueToken), s2)
  }

  function ParseDelete(s: bytes, h: Header): Read<Request> {
    var (key, s1) :- Take(s, h.keyLength);
    Got(DeleteRequest(key, h.opaqueToken), s1)
  }

  /** BinaryParser.Parse after the header. */
  function ParseBody(s: bytes, h: Header): Read<Request> {
    match ShapeOf(h.opcode)
    case DataShape(reqType, quiet) => ParseSet(s, h, reqType, quiet)
    case ConcatShape(reqType, quiet) => ParseConcat(s, h, reqType, quiet)
    case BatchShape(withExpiry) => ParseBatch(s, h, withExpiry, [])
    case ExptimeShape(get) => ParseExptime(s, h, get)
    case DeleteShape => ParseDelete(s, h)
    case NoopShape => Got(NoopRequest(h.opaqueToken), s)
    case QuitShape(quiet) => Got(QuitRequest(h.opaqueToken, quiet), s)
    case VersionShape => Got(VersionRequest(h.opaqueToken), s)
    case UnknownShape => Fail(ErrUnknownCmd, s)
  }

  function ParseOne(s: bytes): Read<Request> {
    var (h, rest) :- TakeRequestHeader(s);
    ParseBody(rest, h)
  }

  class BinaryParser {
    const reader: Reader

    constructor (reader: Reader)
      ensures this.reader == reader
    {
      this.reader := reader;
    }

    method Parse() returns (r: Read<Request>)
      modifies reader
      ensures r == ParseOne(old(reader.rest)) && reader.rest == r.rest
    {
      var hr := ReadRequestHeader(reader);
      if hr.Fail? {
        return Fail(hr.error, hr.rest);
      }
      var h := hr.value;
      match ShapeOf(h.opcode)
      case DataShape(reqType, quiet) => r := ReadSet(h, reqType, quiet);
      case ConcatShape(reqType, quiet) => r := ReadConcat(h, reqType, quiet);
      case BatchShape(withExpiry) => r := ReadBatch(h, withExpiry);
      case ExptimeShape(get) =>
        var exptime := reader.ReadUint32();
        if exptime.Fail? { return Fail(exptime.error, exptime.rest); }
        var key := reader.ReadFull(h.keyLength);
        if key.Fail? { return Fail(key.error, key.rest); }
        r := Got(if get then GatRequest(key.value, exptime.value, h.opaqueToken)
                 else TouchRequest(key.value, exptime.value, h.opaqueToken), key.rest);
      case DeleteShape =>
        var key := reader.ReadFull(h.keyLength);
        if key.Fail? { return Fail(key.error, key.rest); }
        r := Got(DeleteRequest(key.value, h.opaqueToken), key.rest);
      case NoopShape => r := Got(NoopRequest(h.opaqueToken), hr.rest);
      case QuitShape(quiet) => r := Got(QuitRequest(h.opaqueToken, quiet), hr.rest);
      case VersionShape => r := Got(VersionRequest(h.opaqueToken), hr.rest);
      case UnknownShape => r := Fail(ErrUnknownCmd, hr.rest);
    }

    method ReadSet(h: Header, reqType: RequestType, quiet: bool) returns (r: Read<Request>)
      modifies reader
      ensures r == ParseSet(old(reader.rest), h, reqType, quiet) && reader.rest == r.rest
    {
      var flags := reader.ReadUint32();
      if flags.Fail? { return Fail(flags.error, flags.rest); }
      var exptime := reader.ReadUint32();
      if exptime.Fail? { return Fail(exptime.error, exptime.rest); }
      var key := reader.ReadFull(h.keyLength);
      if key.Fail? { return Fail(key.error, key.rest); }
      var realLength := Wrap32(h.totalBodyLength - h.extraLength as int - h.keyLength as int);
      var data := reader.ReadFull(realLength);
      if data.Fail? { return Fail(data.error, data.rest); }
      r := Got(SetRequest(reqType, key.value, data.value, flags.value, exptime.value, h.opaqueToken, quiet), data.rest);
    }

    method ReadConcat(h: Header, reqType: RequestType, quiet: bool) returns (r: Read<Request>)
      modifies reader
      ensures r == ParseConcat(old(reader.rest), h, reqType, quiet) && reader.rest == r.rest
    {
      var key := reader.ReadFull(h.keyLength);
      if key.Fail? { return Fail(key.error, key.rest); }
      var data := reader.ReadFull(Wrap32(h.totalBodyLength - h.keyLength as int));
      if data.Fail? { return Fail(data.error, data.rest); }
      r := Got(SetRequest(reqType, key.value, data.value, 0, 0, h.opaqueToken, quiet), data.rest);
    }

    /** The loop over quiet gets, then the three ways a batch can end. */
    method ReadBatch(first: Header, withExpiry: bool) returns (r: Read<Request>)
      modifies reader
      ensures r == ParseBatch(old(reader.rest), first, withExpiry, []) && reader.rest == r.rest
    {
      var header, seen := first, [];
      while header.opcode == GetQOpcode(withExpiry)
        invariant ParseBatch(old(reader.rest), first, withExpiry, [])
               == ParseBatch(reader.rest, header, withExpiry, seen)
        decreases |reader.rest|, header.opcode == GetQOpcode(withExpiry)
      {
        var key := reader.ReadFull(header.keyLength);
        if key.Fail? { return Fail(key.error, key.rest); }
        var next := ReadRequestHeader(reader);
        if next.Fail? { return Fail(next.error, next.rest); }
        seen := seen + [Named(key.value, header.opaqueToken)];
        header := next.value;
      }
      if header.opcode == GetOpcode(withExpiry) {
        var key := reader.ReadFull(header.keyLength);
        if key.Fail? { return Fail(key.error, key.rest); }
        r := Got(BatchRequest(withExpiry, seen, Some(Named(key.value, header.opaqueToken)), None), key.rest);
      } else if header.opcode == OPCODE_NOOP {
        r := Got(BatchRequest(withExpiry, seen, None, Some(header.opaqueToken)), reader.rest);
      } else {
        r := Got(BatchRequest(withExpiry, seen, None, None), reader.rest);
      }
    }
  }

  // ----- Round trip -----

  function SetType(kind: SetKind): RequestType {
    match kind case KindSet => RequestSet case KindAdd => RequestAdd case KindReplace => RequestReplace
  }

  function ConcatType(op: ConcatKind): RequestType {
    match op case KAppend => RequestAppend case KPrepend => RequestPrepend
  }

  /** What the far side should receive. Append and prepend carry no flags and no expiry. */
  function Expected(c: Command): Request {
    match c
    case Store(kind, key, flags, exptime, data, token) =>
      SetRequest(SetType(kind), key, data, flags, exptime, token, false)
    case Concat(op, key, data, token) => SetRequest(ConcatType(op), key, data, 0, 0, token, false)
    case GetBatch(withExpiry, quiets, CloseGet(last)) => BatchRequest(withExpiry, quiets, Some(last), None)
    case GetBatch(withExpiry, quiets, CloseNoop(token)) => BatchRequest(withExpiry, quiets, None, Some(token))
    case Delete(key, token) => DeleteRequest(key, token)
    case Touch(key, exptime, token) => TouchRequest(key, exptime, token)
    case Gat(key, exptime, token) => GatRequest(key, exptime, token)
    case GatQ(key, exptime, token) => GatRequest(key, exptime, token)
    case Noop(token) => NoopRequest(token)
  }

  /** Keys fit the 16-bit length field, data the 32-bit one, and a batch ended by a noop is not empty. A quiet
      get-and-touch can be written, but the parser has no case for it. */
  predicate Fits(c: Command) {
    match c
    case Store(_, key, _, _, data, _) => |key| < TWO_TO_THE_16 && |data| < TWO_TO_THE_32
    case Concat(_, key, data, _) => |key| < TWO_TO_THE_16 && |data| < TWO_TO_THE_32
    case GetBatch(_, quiets, close) =>
      && (forall i :: 0 <= i < |quiets| ==> |quiets[i].key| < TWO_TO_THE_16)
      && (match close case CloseGet(last) => |last.key| < TWO_TO_THE_16 case CloseNoop(_) => quiets != [])
    case Delete(key, _) => |key| < TWO_TO_THE_16
    case Touch(key, _, _) => |key| < TWO_TO_THE_16
    case Gat(key, _, _) => |key| < TWO_TO_THE_16
    case GatQ(_, _, _) => false
    case Noop(_) => true
  }

  /** Fields the parser can produce always fit. */
  predicate WithinWidths(r: Request) {
    match r
    case SetRequest(_, key, data, _, _, _, _) => |key| < TWO_TO_THE_16 && |data| < TWO_TO_THE_32
    case GetRequest(_, keys, _, _, _, _) => forall i :: 0 <= i < |keys| ==> |keys[i]| < TWO_TO_THE_16
    case DeleteRequest(key, _) => |key| < TWO_TO_THE_16
    case TouchRequest(key, _, _) => |key| < TWO_TO_THE_16
    case GatRequest(key, _, _) => |key| < TWO_TO_THE_16
    case _ => true
  }

  lemma {:induction false} BatchWithinWidths(s: bytes, h: Header, withExpiry: bool, seen: seq<Named>)
    requires forall i :: 0 <= i < |seen| ==> |seen[i].key| < TWO_TO_THE_16
    ensures var r := ParseBatch(s, h, withExpiry, seen); r.Got? ==> r.value.GetRequest? && WithinWidths(r.value)
    decreases |s|
  {
    if h.opcode == GetQOpcode(withExpiry) && Take(s, h.keyLength).Got? {
      var k := Take(s, h.keyLength);
      var next := TakeRequestHeader(k.rest);
      if next.Got? {
        BatchWithinWidths(next.rest, next.value, withExpiry, seen + [Named(k.value, h.opaqueToken)]);
      }
    }
  }

  lemma BodyWithinWidths(s: bytes, h: Header)
    ensures var r := ParseBody(s, h); r.Got? ==> WithinWidths(r.value)
  {
    match ShapeOf(h.opcode)
    case BatchShape(withExpiry) => BatchWithinWidths(s, h, withExpiry, []);
    case _ =>
  }

  lemma ParsedWithinWidths(s: bytes)
    ensures ParseOne(s).Got? ==> WithinWidths(ParseOne(s).value)
  {
    var h := TakeRequestHeader(s);
    if h.Got? {
      BodyWithinWidths(h.rest, h.value);
    }
  }

  /** The lengths cancel in 32-bit arithmetic, so a body length that wraps around does no harm. */
  lemma RealLength(fixed: nat, dataSize: uint32)
    ensures Wrap32(Wrap32(fixed + dataSize) - fixed) == dataSize
  {
    var total := fixed + dataSize;
    assert total - Wrap32(total) == total / TWO_TO_THE_32 * TWO_TO_THE_32;
    assert Wrap32(total) - fixed == dataSize - total / TWO_TO_THE_32 * TWO_TO_THE_32;
  }

  lemma SetBodyRoundTrip(h: Header, flags: uint32, exptime: uint32, key: bytes, data: bytes, tail: bytes,
                         reqType: RequestType, quiet: bool)
    requires h.keyLength == |key| && h.extraLength == 8
    requires |data| < TWO_TO_THE_32 && h.totalBodyLength == Wrap32(|key| + 8 + |data|)
    ensures ParseSet(PutUint32(flags) + (PutUint32(exptime) + (key + (data + tail))), h, reqType, quiet)
         == Got(SetRequest(reqType, key, data, flags, exptime, h.opaqueToken, quiet), tail)
  {
    TakeUint32Concat(flags, PutUint32(exptime) + (key + (data + tail)));
    TakeUint32Concat(exptime, key + (data + tail));
    TakeConcat(key, data + tail);
    RealLength(|key| + 8, |data|);
    TakeConcat(data, tail);
  }

  lemma DataCmdForm(opcode: byte, key: bytes, flags: uint32, exptime: uint32, dataSize: uint32, opaqueToken: uint32,
                    rest: bytes)
    ensures DataCmd(opcode, key, flags, exptime, dataSize, opaqueToken) + rest
         == DataHeader(opcode, |key|, dataSize, opaqueToken).Encode(MAGIC_REQUEST)
            + (PutUint32(flags) + (PutUint32(exptime) + (key + rest)))
  {
    var f, e := PutUint32(flags), PutUint32(exptime);
    Associate(DataHeader(opcode, |key|, dataSize, opaqueToken).Encode(MAGIC_REQUEST), f + (e + key), rest);
    Associate(f, e + key, rest);
    Associate(e, key, rest);
  }

  lemma HeaderFields(opcode: byte, n: nat, extraLength: byte, total: nat, opaqueToken: uint32)
    requires n < TWO_TO_THE_16
    ensures RequestHeader(opcode, n, extraLength, total, opaqueToken)
         == Header(opcode, n, extraLength, 0, Wrap32(total), opaqueToken)
  {
  }

  lemma HeaderThenBody(h: Header, s: bytes)
    requires h.status == 0
    ensures ParseOne(h.Encode(MAGIC_REQUEST) + s) == ParseBody(s, h)
  {
    HeaderRoundTrip(h, MAGIC_REQUEST, s);
  }

  lemma DataShapes(h: Header, kind: SetKind, quiet: bool, s: bytes)
    requires h.opcode == match kind
                         case KindSet => if quiet then 0x11 else 0x01
                         case KindAdd => if quiet then 0x12 else 0x02
                         case KindReplace => if quiet then 0x13 else 0x03
    ensures ParseBody(s, h) == ParseSet(s, h, SetType(kind), quiet)
  {
  }

  lemma StoreRoundTrip(kind: SetKind, key: bytes, flags: uint32, exptime: uint32, data: bytes, opaqueToken: uint32,
                       tail: bytes)
    requires |key| < TWO_TO_THE_16 && |data| < TWO_TO_THE_32
    ensures var c := Store(kind, key, flags, exptime, data, opaqueToken);
      ParseOne(Encode(c) + tail) == Got(Expected(c), tail)
  {
    var opcode := StoreOpcode(kind);
    HeaderFields(opcode, |key|, 8, |key| + 8 + |data|, opaqueToken);
    var h := DataHeader(opcode, |key|, |data|, opaqueToken);
    var s := PutUint32(flags) + (PutUint32(exptime) + (key + (data + tail)));
    Associate(DataCmd(opcode, key, flags, exptime, |data|, opaqueToken), data, tail);
    DataCmdForm(opcode, key, flags, exptime, |data|, opaqueToken, data + tail);
    HeaderThenBody(h, s);
    DataShapes(h, kind, false, s);
    SetBodyRoundTrip(h, flags, exptime, key, data, tail, SetType(kind), false);
  }

  lemma ConcatBodyRoundTrip(h: Header, key: bytes, data: bytes, tail: bytes, reqType: RequestType, quiet: bool)
    requires h.keyLength == |key| && |data| < TWO_TO_THE_32 && h.totalBodyLength == Wrap32(|key| + |data|)
    ensures ParseConcat(key + (data + tail), h, reqType, quiet)
         == Got(SetRequest(reqType, key, data, 0, 0, h.opaqueToken, quiet), tail)
  {
    TakeConcat(key, data + tail);
    RealLength(|key|, |data|);
    TakeConcat(data, tail);
  }

  lemma ConcatCmdForm(opcode: byte, key: bytes, data: bytes, opaqueToken: uint32, tail: bytes)
    requires |data| < TWO_TO_THE_32
    ensures ConcatCmd(opcode, key, |data|, opaqueToken) + data + tail
         == RequestHeader(opcode, |key|, 0, |key| + |data|, opaqueToken).Encode(MAGIC_REQUEST) + (key + (data + tail))
  {
    Associate(ConcatCmd(opcode, key, |data|, opaqueToken), data, tail);
    Associate(RequestHeader(opcode, |key|, 0, |key| + |data|, opaqueToken).Encode(MAGIC_REQUEST), key, data + tail);
  }

  lemma ConcatShapes(h: Header, op: ConcatKind, quiet: bool, s: bytes)
    requires h.opcode == match op
                         case KAppend => if quiet then 0x19 else 0x0e
                         case KPrepend => if quiet then 0x1a else 0x0f
    ensures ParseBody(s, h) == ParseConcat(s, h, ConcatType(op), quiet)
  {
  }

  lemma ConcatRoundTrip(op: ConcatKind, key: bytes, data: bytes, opaqueToken: uint32, tail: bytes)
    requires |key| < TWO_TO_THE_16 && |data| < TWO_TO_THE_32
    ensures var c := Concat(op, key, data, opaqueToken);
      ParseOne(Encode(c) + tail) == Got(Expected(c), tail)
  {
    HeaderFields(ConcatOpcode(op), |key|, 0, |key| + |data|, opaqueToken);
    var h := RequestHeader(ConcatOpcode(op), |key|, 0, |key| + |data|, opaqueToken);
    ConcatCmdForm(ConcatOpcode(op), key, data, opaqueToken, tail);
    HeaderThenBody(h, key + (data + tail));
    ConcatShapes(h, op, false, key + (data + tail));
    ConcatBodyRoundTrip(h, key, data, tail, ConcatType(op), false);
  }

  lemma KeyCmdRoundTrip(opcode: byte, key: bytes, opaqueToken: uint32, tail: bytes)
    requires |key| < TWO_TO_THE_16
    ensures var h := RequestHeader(opcode, |key|, 0, |key|, opaqueToken);
      && TakeRequestHeader(KeyCmd(opcode, key, opaqueToken) + tail) == Got(h, key + tail)
      && Take(key + tail, h.keyLength) == Got(key, tail)
  {
    var h := RequestHeader(opcode, |key|, 0, |key|, opaqueToken);
    Associate(h.Encode(MAGIC_REQUEST), key, tail);
    HeaderRoundTrip(h, MAGIC_REQUEST, key + tail);
    TakeConcat(key, tail);
  }

  lemma KeyExptimeForm(opcode: byte, key: bytes, exptime: uint32, opaqueToken: uint32, tail: bytes)
    ensures KeyExptimeCmd(opcode, key, exptime, opaqueToken) + tail
         == RequestHeader(opcode, |key|, 4, |key| + 4, opaqueToken).Encode(MAGIC_REQUEST)
            + (PutUint32(exptime) + (key + tail))
  {
    var h := RequestHeader(opcode, |key|, 4, |key| + 4, opaqueToken);
    Associate(h.Encode(MAGIC_REQUEST), PutUint32(exptime) + key, tail);
    Associate(PutUint32(exptime), key, tail);
  }

  lemma KeyExptimeRoundTrip(opcode: byte, key: bytes, exptime: uint32, opaqueToken: uint32, tail: bytes)
    requires |key| < TWO_TO_THE_16
    ensures var h := RequestHeader(opcode, |key|, 4, |key| + 4, opaqueToken);
      && TakeRequestHeader(KeyExptimeCmd(opcode, key, exptime, opaqueToken) + tail)
         == Got(h, PutUint32(exptime) + (key + tail))
      && TakeUint32(PutUint32(exptime) + (key + tail)) == Got(exptime, key + tail)
      && Take(key + tail, h.keyLength) == Got(key, tail)
  {
    var h := RequestHeader(opcode, |key|, 4, |key| + 4, opaqueToken);
    var s := PutUint32(exptime) + (key + tail);
    KeyExptimeForm(opcode, key, exptime, opaqueToken, tail);
    HeaderRoundTrip(h, MAGIC_REQUEST, s);
    TakeUint32Concat(exptime, key + tail);
    TakeConcat(key, tail);
  }

  lemma NoopRoundTrip(opaqueToken: uint32, tail: bytes)
    ensures TakeRequestHeader(NoopCmd(opaqueToken) + tail)
         == Got(RequestHeader(OPCODE_NOOP, 0, 0, 0, opaqueToken), tail)
  {
    HeaderRoundTrip(RequestHeader(OPCODE_NOOP, 0, 0, 0, opaqueToken), MAGIC_REQUEST, tail);
  }

  /** Reading a header, then the batch that starts with it. */
  function ParseBatchFrom(s: bytes, withExpiry: bool, seen: seq<Named>): Read<Request> {
    var (h, rest) :- TakeRequestHeader(s);
    ParseBatch(rest, h, withExpiry, seen)
  }

  lemma QuietStep(withExpiry: bool, q: Named, seen: seq<Named>, more: bytes)
    requires |q.key| < TWO_TO_THE_16
    ensures ParseBatchFrom(KeyCmd(GetQOpcode(withExpiry), q.key, q.opaqueToken) + more, withExpiry, seen)
         == ParseBatchFrom(more, withExpiry, seen + [q])
  {
    KeyCmdRoundTrip(GetQOpcode(withExpiry), q.key, q.opaqueToken, more);
  }

  lemma {:induction false} QuietsRoundTrip(withExpiry: bool, quiets: seq<Named>, seen: seq<Named>, tail: bytes)
    requires forall i :: 0 <= i < |quiets| ==> |quiets[i].key| < TWO_TO_THE_16
    ensures ParseBatchFrom(EncodeQuiets(withExpiry, quiets) + tail, withExpiry, seen)
         == ParseBatchFrom(tail, withExpiry, seen + quiets)
    decreases |quiets|
  {
    if quiets == [] {
      assert EncodeQuiets(withExpiry, quiets) + tail == tail && seen + quiets == seen;
    } else {
      QuietsAssociate(withExpiry, quiets, tail);
      QuietStep(withExpiry, quiets[0], seen, EncodeQuiets(withExpiry, quiets[1..]) + tail);
      QuietsRoundTrip(withExpiry, quiets[1..], seen + [quiets[0]], tail);
      MoveOne(seen, quiets);
    }
  }

  lemma MoveOne(seen: seq<Named>, quiets: seq<Named>)
    requires quiets != []
    ensures seen + [quiets[0]] + quiets[1..] == seen + quiets
  {
  }

  lemma QuietsAssociate(withExpiry: bool, quiets: seq<Named>, tail: bytes)
    requires quiets != []
    ensures EncodeQuiets(withExpiry, quiets) + tail
         == KeyCmd(GetQOpcode(withExpiry), quiets[0].key, quiets[0].opaqueToken)
            + (EncodeQuiets(withExpiry, quiets[1..]) + tail)
  {
    var cmd := KeyCmd(GetQOpcode(withExpiry), quiets[0].key, quiets[0].opaqueToken);
    var more := EncodeQuiets(withExpiry, quiets[1..]);
    Associate(cmd, more, tail);
  }

  lemma GetStartsBatch(s: bytes, withExpiry: bool)
    requires var h := TakeRequestHeader(s);
      h.Got? && h.value.opcode in {GetOpcode(withExpiry), GetQOpcode(withExpiry)}
    ensures ParseOne(s) == ParseBatchFrom(s, withExpiry, [])
  {
    assert ShapeOf(TakeRequestHeader(s).value.opcode) == BatchShape(withExpiry);
  }

  /** A stream that starts with a get of either family is parsed as a batch. */
  lemma BatchDispatch(withExpiry: bool, quiets: seq<Named>, tail: bytes)
    requires forall i :: 0 <= i < |quiets| ==> |quiets[i].key| < TWO_TO_THE_16
    requires quiets == [] ==>
      var h := TakeRequestHeader(tail); h.Got? && h.value.opcode == GetOpcode(withExpiry)
    ensures ParseOne(EncodeQuiets(withExpiry, quiets) + tail) == ParseBatchFrom(tail, withExpiry, quiets)
  {
    if quiets == [] {
      assert EncodeQuiets(withExpiry, quiets) + tail == tail;
    } else {
      QuietsAssociate(withExpiry, quiets, tail);
      KeyCmdRoundTrip(GetQOpcode(withExpiry), quiets[0].key, quiets[0].opaqueToken,
        EncodeQuiets(withExpiry, quiets[1..]) + tail);
    }
    GetStartsBatch(EncodeQuiets(withExpiry, quiets) + tail, withExpiry);
    QuietsRoundTrip(withExpiry, quiets, [], tail);
    assert [] + quiets == quiets;
  }

  lemma CloseRoundTrip(withExpiry: bool, quiets: seq<Named>, close: Close, tail: bytes)
    requires close.CloseGet? ==> |close.last.key| < TWO_TO_THE_16
    ensures ParseBatchFrom(EncodeClose(withExpiry, close) + tail, withExpiry, quiets)
         == Got(BatchRequest(withExpiry, quiets, if close.CloseGet? then Some(close.last) else None,
                             if close.CloseNoop? then Some(close.noopToken) else None), tail)
    ensures close.CloseGet? ==> var h := TakeRequestHeader(EncodeClose(withExpiry, close) + tail);
      h.Got? && h.value.opcode == GetOpcode(withExpiry)
  {
    match close
    case CloseGet(last) => KeyCmdRoundTrip(GetOpcode(withExpiry), last.key, last.opaqueToken, tail);
    case CloseNoop(token) => NoopRoundTrip(token, tail);
  }

  lemma GetBatchRoundTrip(withExpiry: bool, quiets: seq<Named>, close: Close, tail: bytes)
    requires Fits(GetBatch(withExpiry, quiets, close))
    ensures var c := GetBatch(withExpiry, quiets, close);
      ParseOne(Encode(c) + tail) == Got(Expected(c), tail)
  {
    var a, b := EncodeQuiets(withExpiry, quiets), EncodeClose(withExpiry, close);
    Associate(a, b, tail);
    CloseRoundTrip(withExpiry, quiets, close, tail);
    BatchDispatch(withExpiry, quiets, b + tail);
  }

  lemma ExptimeCmdRoundTrip(get: bool, key: bytes, exptime: uint32, opaqueToken: uint32, tail: bytes)
    requires |key| < TWO_TO_THE_16
    ensures ParseOne(KeyExptimeCmd(if get then OPCODE_GAT else OPCODE_TOUCH, key, exptime, opaqueToken) + tail)
         == Got(if get then GatRequest(key, exptime, opaqueToken) else TouchRequest(key, exptime, opaqueToken), tail)
  {
    var opcode := if get then OPCODE_GAT else OPCODE_TOUCH;
    KeyExptimeRoundTrip(opcode, key, exptime, opaqueToken, tail);
    assert ShapeOf(opcode) == ExptimeShape(get);
  }

  lemma KeyedRoundTrip(c: Command, tail: bytes)
    requires Fits(c) && (c.Delete? || c.Touch? || c.Gat? || c.Noop?)
    ensures ParseOne(Encode(c) + tail) == Got(Expected(c), tail)
  {
    match c
    case Delete(key, token) => DeleteCmdRoundTrip(key, token, tail);
    case Touch(key, exptime, token) => ExptimeCmdRoundTrip(false, key, exptime, token, tail);
    case Gat(key, exptime, token) => ExptimeCmdRoundTrip(true, key, exptime, token, tail);
    case Noop(token) => NoopCmdRoundTrip(token, tail);
  }

  lemma NoopCmdRoundTrip(opaqueToken: uint32, tail: bytes)
    ensures ParseOne(NoopCmd(opaqueToken) + tail) == Got(NoopRequest(opaqueToken), tail)
  {
    HeaderThenBody(RequestHeader(OPCODE_NOOP, 0, 0, 0, opaqueToken), tail);
    assert ShapeOf(OPCODE_NOOP) == NoopShape;
  }

  lemma DeleteCmdRoundTrip(key: bytes, opaqueToken: uint32, tail: bytes)
    requires |key| < TWO_TO_THE_16
    ensures ParseOne(KeyCmd(OPCODE_DELETE, key, opaqueToken) + tail) == Got(DeleteRequest(key, opaqueToken), tail)
  {
    KeyCmdRoundTrip(OPCODE_DELETE, key, opaqueToken, tail);
    assert ShapeOf(OPCODE_DELETE) == DeleteShape;
  }

  lemma QuietGatHasNoShape(h: Header, s: bytes)
    requires h.opcode == OPCODE_GATQ
    ensures ParseBody(s, h) == Fail(ErrUnknownCmd, s)
  {
  }

  /** A quiet get-and-touch is an unknown command, and its body is left on the stream. */
  lemma QuietGatIsUnknown(key: bytes, exptime: uint32, opaqueToken: uint32, tail: bytes)
    ensures ParseOne(KeyExptimeCmd(OPCODE_GATQ, key, exptime, opaqueToken) + tail)
         == Fail(ErrUnknownCmd, PutUint32(exptime) + (key + tail))
  {
    var h := RequestHeader(OPCODE_GATQ, |key|, 4, |key| + 4, opaqueToken);
    KeyExptimeForm(OPCODE_GATQ, key, exptime, opaqueToken, tail);
    HeaderThenBody(h, PutUint32(exptime) + (key + tail));
    QuietGatHasNoShape(h, PutUint32(exptime) + (key + tail));
  }

  lemma FittingRoundTrip(c: Command, tail: bytes)
    requires Fits(c)
    ensures ParseOne(Encode(c) + tail) == Got(Expected(c), tail)
  {
    match c
    case Store(kind, key, flags, exptime, data, token) => StoreRoundTrip(kind, key, flags, exptime, data, token, tail);
    case Concat(op, key, data, token) => ConcatRoundTrip(op, key, data, token, tail);
    case GetBatch(withExpiry, quiets, close) => GetBatchRoundTrip(withExpiry, quiets, close, tail);
    case _ => KeyedRoundTrip(c, tail);
  }

  // ----- What exactly is parsed -----

  /** What a batch request holds, entry by entry. */
  lemma BatchEntries(withExpiry: bool, quiets: seq<Named>, last: Option<Named>, noop: Option<uint32>)
    ensures var r := BatchRequest(withExpiry, quiets, last, noop); var n := |quiets|;
      && r.reqType == (if withExpiry then RequestGetE else RequestGet)
      && |r.keys| == |r.opaqueTokens| == |r.quiets| == n + (if last.Some? then 1 else 0)
      && (forall i :: 0 <= i < n ==>
            r.keys[i] == quiets[i].key && r.opaqueTokens[i] == quiets[i].opaqueToken && r.quiets[i])
      && (last.Some? ==> r.keys[n] == last.value.key && r.opaqueTokens[n] == last.value.opaqueToken && !r.quiets[n])
      && (r.noopEnd <==> noop.Some?) && r.noopToken == (if noop.Some? then noop.value else 0)
  {
  }

  /** A run of quiet gets and what closes it is parsed to one request: every quiet get in its place and quiet, the
      closing get behind them and not quiet, and the closing noop's opaque exactly if a noop it was. */
  lemma BatchIsParsed(c: Command, tail: bytes)
    requires c.GetBatch? && Fits(c)
    ensures var p := ParseOne(Encode(c) + tail); var n := |c.quiets|;
      && p.Got? && p.rest == tail && p.value.GetRequest?
      && p.value.reqType == (if c.withExpiry then RequestGetE else RequestGet)
      && |p.value.keys| == |p.value.opaqueTokens| == |p.value.quiets| == n + (if c.close.CloseGet? then 1 else 0)
      && (forall i :: 0 <= i < n ==>
            && p.value.keys[i] == c.quiets[i].key && p.value.opaqueTokens[i] == c.quiets[i].opaqueToken
            && p.value.quiets[i])
      && (c.close.CloseGet? ==>
            && p.value.keys[n] == c.close.last.key && p.value.opaqueTokens[n] == c.close.last.opaqueToken
            && !p.value.quiets[n] && !p.value.noopEnd)
      && (c.close.CloseNoop? ==> p.value.noopEnd && p.value.noopToken == c.close.noopToken)
  {
    FittingRoundTrip(c, tail);
    match c.close
    case CloseGet(last) => BatchEntries(c.withExpiry, c.quiets, Some(last), None);
    case CloseNoop(token) => BatchEntries(c.withExpiry, c.quiets, None, Some(token));
  }

  lemma SingleGetIsParsed(withExpiry: bool, q: Named, tail: bytes)
    requires |q.key| < TWO_TO_THE_16
    ensures ParseOne(Encode(GetBatch(withExpiry, [], CloseGet(q))) + tail)
         == Got(GetRequest(if withExpiry then RequestGetE else RequestGet, [q.key], [q.opaqueToken], [false], 0, false),
                tail)
  {
    var r := BatchRequest(withExpiry, [], Some(q), None);
    FittingRoundTrip(GetBatch(withExpiry, [], CloseGet(q)), tail);
    BatchEntries(withExpiry, [], Some(q), None);
    assert r.keys == [q.key] && r.opaqueTokens == [q.opaqueToken] && r.quiets == [false];
  }

  /** The six store opcodes: which command each of them is, and whether it is quiet. */
  lemma StoreIsParsed(kind: SetKind, quiet: bool, key: bytes, flags: uint32, exptime: uint32, data: bytes,
                      opaqueToken: uint32, tail: bytes)
    requires |key| < TWO_TO_THE_16 && |data| < TWO_TO_THE_32
    ensures var opcode := match kind
                          case KindSet => if quiet then 0x11 else 0x01
                          case KindAdd => if quiet then 0x12 else 0x02
                          case KindReplace => if quiet then 0x13 else 0x03;
      var reqType := match kind
                     case KindSet => RequestSet
                     case KindAdd => RequestAdd
                     case KindReplace => RequestReplace;
      ParseOne(DataCmd(opcode, key, flags, exptime, |data|, opaqueToken) + (data + tail))
      == Got(SetRequest(reqType, key, data, flags, exptime, opaqueToken, quiet), tail)
  {
    var opcode: byte := match kind
                        case KindSet => if quiet then 0x11 else 0x01
                        case KindAdd => if quiet then 0x12 else 0x02
                        case KindReplace => if quiet then 0x13 else 0x03;
    HeaderFields(opcode, |key|, 8, |key| + 8 + |data|, opaqueToken);
    var h := DataHeader(opcode, |key|, |data|, opaqueToken);
    var s := PutUint32(flags) + (PutUint32(exptime) + (key + (data + tail)));
    DataCmdForm(opcode, key, flags, exptime, |data|, opaqueToken, data + tail);
    HeaderThenBody(h, s);
    DataShapes(h, kind, quiet, s);
    SetBodyRoundTrip(h, flags, exptime, key, data, tail, SetType(kind), quiet);
  }

  /** The four append and prepend opcodes. */
  lemma ConcatIsParsed(op: ConcatKind, quiet: bool, key: bytes, data: bytes, opaqueToken: uint32, tail: bytes)
    requires |key| < TWO_TO_THE_16 && |data| < TWO_TO_THE_32
    ensures var opcode := match op
                          case KAppend => if quiet then 0x19 else 0x0e
                          case KPrepend => if quiet then 0x1a else 0x0f;
      ParseOne(ConcatCmd(opcode, key, |data|, opaqueToken) + data + tail)
      == Got(SetRequest(match op case KAppend => RequestAppend case KPrepend => RequestPrepend, key, data, 0, 0,
                        opaqueToken, quiet), tail)
  {
    var opcode: byte := match op
                        case KAppend => if quiet then 0x19 else 0x0e
                        case KPrepend => if quiet then 0x1a else 0x0f;
    HeaderFields(opcode, |key|, 0, |key| + |data|, opaqueToken);
    var h := RequestHeader(opcode, |key|, 0, |key| + |data|, opaqueToken);
    ConcatCmdForm(opcode, key, data, opaqueToken, tail);
    HeaderThenBody(h, key + (data + tail));
    ConcatShapes(h, op, quiet, key + (data + tail));
    ConcatBodyRoundTrip(h, key, data, tail, ConcatType(op), quiet);
  }

  /** The requests that are a header and nothing else, and every opcode that is none. */
  lemma BareIsParsed(h: Header, s: bytes)
    requires h.status == 0
    ensures var p := ParseOne(h.Encode(MAGIC_REQUEST) + s);
      && (h.opcode == 0x0a ==> p == Got(NoopRequest(h.opaqueToken), s))
      && (h.opcode == 0x07 ==> p == Got(QuitRequest(h.opaqueToken, false), s))
      && (h.opcode == 0x17 ==> p == Got(QuitRequest(h.opaqueToken, true), s))
      && (h.opcode == 0x0b ==> p == Got(VersionRequest(h.opaqueToken), s))
      && (p == Fail(ErrUnknownCmd, s) <==>
            h.opcode !in {0x00, 0x01, 0x02, 0x03, 0x04, 0x07, 0x09, 0x0a, 0x0b, 0x0e, 0x0f, 0x11, 0x12, 0x13, 0x17,
                          0x19, 0x1a, 0x1c, 0x1d, 0x40, 0x41})
  {
    HeaderThenBody(h, s);
    BodyNotUnknown(s, h);
  }

  lemma {:induction false} BatchNotUnknown(s: bytes, h: Header, withExpiry: bool, seen: seq<Named>)
    ensures var p := ParseBatch(s, h, withExpiry, seen); p.Fail? ==> p.error != ErrUnknownCmd
    decreases |s|
  {
    if h.opcode == GetQOpcode(withExpiry) && Take(s, h.keyLength).Got? {
      var k := Take(s, h.keyLength);
      var next := TakeRequestHeader(k.rest);
      if next.Got? {
        BatchNotUnknown(next.rest, next.value, withExpiry, seen + [Named(k.value, h.opaqueToken)]);
      }
    }
  }

  lemma BodyNotUnknown(s: bytes, h: Header)
    ensures var p := ParseBody(s, h); p.Fail? && !ShapeOf(h.opcode).UnknownShape? ==> p.error != ErrUnknownCmd
  {
    match ShapeOf(h.opcode)
    case BatchShape(withExpiry) => BatchNotUnknown(s, h, withExpiry, []);
    case _ =>
  }

  /** What the first two bytes of a command are on the wire. */
  lemma CommandStarts(c: Command)
    requires !c.GetBatch?
    ensures |Encode(c)| >= 24 && Encode(c)[0] == 0x80
    ensures Encode(c)[1]
         == match c
            case Store(KindSet, _, _, _, _, _) => 0x01
            case Store(KindAdd, _, _, _, _, _) => 0x02
            case Store(KindReplace, _, _, _, _, _) => 0x03
            case Concat(KAppend, _, _, _) => 0x0e
            case Concat(KPrepend, _, _, _) => 0x0f
            case Delete(_, _) => 0x04
            case Touch(_, _, _) => 0x1c
            case Gat(_, _, _) => 0x1d
            case GatQ(_, _, _) => 0x1e
            case _ => 0x0a
  {
  }

  /** What lies behind the header: flags, expiry and key of a store; the key of an append, prepend, get or delete;
      expiry and key of a touch. */
  lemma CommandLayout(opcode: byte, key: bytes, flags: uint32, exptime: uint32, size: uint32, opaqueToken: uint32)
    ensures var b := DataCmd(opcode, key, flags, exptime, size, opaqueToken);
      && |b| == 32 + |key| && b[24..28] == PutUint32(flags) && b[28..32] == PutUint32(exptime)
      && b[32..] == key && b[4] == 8
    ensures var b := ConcatCmd(opcode, key, size, opaqueToken); b[24..] == key && b[4] == 0
    ensures var b := KeyCmd(opcode, key, opaqueToken); b[24..] == key && b[4] == 0
    ensures var b := KeyExptimeCmd(opcode, key, exptime, opaqueToken);
      b[24..28] == PutUint32(exptime) && b[28..] == key && b[4] == 4
  {
  }

  /** The four opcodes of gets. */
  lemma GetStarts(withExpiry: bool, q: Named)
    ensures KeyCmd(GetOpcode(withExpiry), q.key, q.opaqueToken)[1] == if withExpiry then 0x40 else 0x00
    ensures KeyCmd(GetQOpcode(withExpiry), q.key, q.opaqueToken)[1] == if withExpiry then 0x41 else 0x09
  {
  }

  /** In front of anything, a command comes back whole and leaves the rest untouched exactly when its
      parts fit the header's fields. */
  lemma CommandRoundTrip(c: Command, tail: bytes)
    ensures ParseOne(Encode(c) + tail) == Got(Expected(c), tail) <==> Fits(c)
  {
    if Fits(c) {
      FittingRoundTrip(c, tail);
    } else if ParseOne(Encode(c) + tail) == Got(Expected(c), tail) {
      ParsedWithinWidths(Encode(c) + tail);
      if c.GetBatch? {
        BatchKeysTooWide(c, tail);
      } else if c.GatQ? {
        QuietGatIsUnknown(c.key, c.exptime, c.opaqueToken, tail);
      }
    }
  }

  /** A batch that does not fit is not what the parser returns. */
  lemma BatchKeysTooWide(c: Command, tail: bytes)
    requires c.GetBatch? && !Fits(c)
    ensures ParseOne(Encode(c) + tail) != Got(Expected(c), tail)
  {
    if c.quiets == [] && c.close.CloseNoop? {
      assert Encode(c) == NoopCmd(c.close.noopToken);
      NoopCmdRoundTrip(c.close.noopToken, tail);
    } else {
      ParsedWithinWidths(Encode(c) + tail);
      ExpectedTooWide(c);
    }
  }

  lemma ExpectedTooWide(c: Command)
    requires c.GetBatch? && !Fits(c) && (c.quiets != [] || c.close.CloseGet?)
    ensures !WithinWidths(Expected(c))
  {
    var keys := Expected(c).keys;
    if i :| 0 <= i < |c.quiets| && |c.quiets[i].key| >= TWO_TO_THE_16 {
      assert keys[i] == c.quiets[i].key;
    } else {
      assert keys[|c.quiets|] == c.close.last.key;
    }
  }

  function EncodeAll(cs: seq<Command>): bytes {
    if cs == [] then [] else Encode(cs[0]) + EncodeAll(cs[1..])
  }

  function ExpectedAll(cs: seq<Command>): seq<Request> {
    if cs == [] then [] else [Expected(cs[0])] + ExpectedAll(cs[1..])
  }

  /** Parsing until the first error: the requests, and what stopped it. */
  function ParseAll(s: bytes): (seq<Request>, Error)
    decreases |s|
  {
    match ParseOne(s)
    case Fail(e, _) => ([], e)
    case Got(r, rest) =>
      ParseConsumes(s);
      var (rs, e) := ParseAll(rest);
      ([r] + rs, e)
  }

  lemma {:induction false} BatchConsumes(s: bytes, h: Header, withExpiry: bool, seen: seq<Named>)
    ensures |ParseBatch(s, h, withExpiry, seen).rest| <= |s|
    decreases |s|
  {
    if h.opcode == GetQOpcode(withExpiry) && Take(s, h.keyLength).Got? {
      var k := Take(s, h.keyLength);
      var next := TakeRequestHeader(k.rest);
      if next.Got? {
        BatchConsumes(next.rest, next.value, withExpiry, seen + [Named(k.value, h.opaqueToken)]);
      }
    }
  }

  lemma BodyConsumes(s: bytes, h: Header)
    ensures |ParseBody(s, h).rest| <= |s|
  {
    match ShapeOf(h.opcode)
    case BatchShape(withExpiry) => BatchConsumes(s, h, withExpiry, []);
    case _ =>
  }

  /** Every request uses up at least a header. */
  lemma ParseConsumes(s: bytes)
    ensures var r := ParseOne(s); r.Got? ==> |r.rest| + HEADER_LEN <= |s|
  {
    var h := TakeRequestHeader(s);
    if h.Got? {
      BodyConsumes(h.rest, h.value);
    }
  }

  /** Any list of commands written back to back is parsed into the same list, with nothing left over: the
      parser stops only because the stream is at its end. */
  lemma {:induction false} StreamRoundTrip(cs: seq<Command>)
    requires forall i :: 0 <= i < |cs| ==> Fits(cs[i])
    ensures ParseAll(EncodeAll(cs)) == (ExpectedAll(cs), EOF)
    decreases |cs|
  {
    if cs != [] {
      FittingRoundTrip(cs[0], EncodeAll(cs[1..]));
      StreamRoundTrip(cs[1..]);
    }
  }

  /** A run of quiet gets followed by some other command: the parser drops that command's header and
      answers the gets, so it is on a command boundary only if the dropped command had no body. */
  lemma UnclosedBatch(withExpiry: bool, quiets: seq<Named>, h: Header, body: bytes, tail: bytes)
    requires quiets != [] && forall i :: 0 <= i < |quiets| ==> |quiets[i].key| < TWO_TO_THE_16
    requires h.opcode !in {GetQOpcode(withExpiry), GetOpcode(withExpiry), OPCODE_NOOP} && h.status == 0
    ensures var r := ParseOne(EncodeQuiets(withExpiry, quiets) + (h.Encode(MAGIC_REQUEST) + (body + tail)));
      && r == Got(BatchRequest(withExpiry, quiets, None, None), body + tail)
      && (r.rest == tail <==> body == [])
  {
    var s := h.Encode(MAGIC_REQUEST) + (body + tail);
    HeaderRoundTrip(h, MAGIC_REQUEST, body + tail);
    BatchDispatch(withExpiry, quiets, s);
    assert body == [] ==> body + tail == tail;
    assert |body + tail| == |body| + |tail|;
  }
}
