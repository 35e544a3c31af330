/** Fixed-width integers, their big-endian wire form, and the errors the protocol layers exchange. */
module Bytes {

  type byte = x: int | 0 <= x < 0x100
  type uint16 = x: int | 0 <= x < 0x1_0000
  type uint32 = x: int | 0 <= x < 0x1_0000_0000
  type bytes = seq<byte>

  const TWO_TO_THE_16 := 0x1_0000
  const TWO_TO_THE_32 := 0x1_0000_0000
  const TWO_TO_THE_64 := 0x1_0000_0000_0000_0000

  /** Go's conversions to narrower integers, which drop the high bits. */
  function Wrap32(x: int): (r: uint32)
    ensures 0 <= x < TWO_TO_THE_32 ==> r == x
  {
    x % TWO_TO_THE_32
  }

  function Wrap16(x: nat): (r: uint16)
    ensures x < TWO_TO_THE_16 ==> r == x
  {
    x % TWO_TO_THE_16
  }

  function PutUint16(v: uint16): (b: bytes)
    ensures |b| == 2 && Uint16(b) == v
  {
    [v / 0x100, v % 0x100]
  }

  function Uint16(b: bytes): uint16
    requires |b| == 2
  {
    b[0] as int * 0x100 + b[1] as int
  }

  function PutUint32(v: uint32): (b: bytes)
    ensures |b| == 4 && Uint32(b) == v
  {
    PutUint16(v / 0x1_0000) + PutUint16(v % 0x1_0000)
  }

  function Uint32(b: bytes): uint32
    requires |b| == 4
  {
    Uint16(b[..2]) as int * 0x1_0000 + Uint16(b[2..]) as int
  }

  /** The wire form has the highest byte first. */
  lemma BigEndian(v: uint32)
    ensures var b := PutUint32(v);
      v == b[0] as int * 0x100_0000 + b[1] as int * 0x1_0000 + b[2] as int * 0x100 + b[3] as int
    ensures v < TWO_TO_THE_16 ==> var b := PutUint16(v); v == b[0] as int * 0x100 + b[1] as int
  {
  }

  function Zeros(n: nat): (z: bytes)
    ensures |z| == n && forall i :: 0 <= i < n ==> z[i] == 0
  {
    seq(n, _ => 0)
  }

  function Min(a: int, b: int): int {
    if a <= b then a else b
  }

  /** The errors of common/datatypes.go, then those of the transport and the header check. */
  datatype Error =
    | ErrBadRequest | ErrBadLength | ErrBadFlags | ErrBadExptime | ErrNoError
    | ErrKeyNotFound | ErrKeyExists | ErrValueTooBig | ErrInvalidArgs | ErrItemNotStored
    | ErrBadIncDecValue | ErrAuth | ErrUnknownCmd | ErrNoMem | ErrNotSupported | ErrInternal
    | ErrBusy | ErrTempFailure
    | ErrBadMagic | EOF | ErrUnexpectedEOF

  datatype Option<+T> = None | Some(value: T)

  /** The outcome of consuming part of a byte stream: a value, or an error, and what is left. */
  datatype Read<+T> = Got(value: T, rest: bytes) | Fail(error: Error, rest: bytes) {
    predicate IsFailure() {
      Fail?
    }

    function PropagateFailure<U>(): Read<U>
      requires Fail?
    {
      Fail(error, rest)
    }

    function Extract(): (T, bytes)
      requires Got?
    {
      (value, rest)
    }
  }

  /** io.ReadAtLeast into a buffer of exactly n bytes: a short stream is used up by the attempt. */
  function Take(s: bytes, n: nat): (r: Read<bytes>)
    ensures r.Got? <==> n <= |s|
    ensures r.Got? ==> |r.value| == n && s == r.value + r.rest
  {
    if n <= |s| then Got(s[..n], s[n..])
    else Fail(if s == [] then EOF else ErrUnexpectedEOF, [])
  }

  /** A read that asks for more than there is fails: with EOF if there is nothing, as io.ReadAtLeast has it. */
  lemma TakeShort(s: bytes, n: nat)
    requires n > |s|
    ensures Take(s, n) == Fail(if |s| == 0 then EOF else ErrUnexpectedEOF, []) && Skip(s, n) == Fail(EOF, [])
  {
  }

  /** bufio's Discard: whatever a short stream still has goes too, and the error is EOF. */
  function Skip(s: bytes, n: nat): (r: Read<bytes>)
    ensures n <= |s| ==> r == Take(s, n)
  {
    if n <= |s| then Take(s, n) else Fail(EOF, [])
  }

  function TakeUint32(s: bytes): (r: Read<uint32>)
    ensures r.Got? <==> 4 <= |s|
    ensures r.Got? ==> r.rest == s[4..]
  {
    var (b, rest) :- Take(s, 4);
    Got(Uint32(b), rest)
  }

  lemma Monotone(d: nat, a: nat, b: nat)
    requires a <= b
    ensures d * a <= d * b
  {
  }

  lemma QuotientIs(x: nat, d: nat, q: nat)
    requires d > 0 && d * q <= x < d * q + d
    ensures x / d == q
  {
    var k := x / d;
    assert x == d * k + x % d;
    if q < k {
      Monotone(d, q + 1, k);
    } else if k < q {
      Monotone(d, k + 1, q);
    }
  }

  lemma Associate<T>(a: seq<T>, b: seq<T>, c: seq<T>)
    ensures a + b + c == a + (b + c)
  {
  }

  lemma TakeConcat(a: bytes, b: bytes)
    ensures Take(a + b, |a|) == Got(a, b)
  {
    assert (a + b)[..|a|] == a && (a + b)[|a|..] == b;
  }

  lemma TakeUint32Concat(v: uint32, b: bytes)
    ensures TakeUint32(PutUint32(v) + b) == Got(v, b)
  {
    TakeConcat(PutUint32(v), b);
  }

  /** The buffered connection a client or a backend writes its bytes into. */
  class Reader {
    var rest: bytes

    constructor (s: bytes)
      ensures rest == s
    {
      rest := s;
    }

    /** io.ReadAtLeast with a buffer of n bytes. */
    method ReadFull(n: nat) returns (r: Read<bytes>)
      modifies this
      ensures r == Take(old(rest), n) && rest == r.rest
    {
      r := Take(rest, n);
      rest := r.rest;
    }

    method Discard(n: nat) returns (r: Read<bytes>)
      modifies this
      ensures r == Skip(old(rest), n) && rest == r.rest
    {
      r := Skip(rest, n);
      rest := r.rest;
    }

    method ReadUint32() returns (r: Read<uint32>)
      modifies this
      ensures r == TakeUint32(old(rest)) && rest == r.rest
    {
      var b := ReadFull(4);
      r := match b case Got(v, s) => Got(Uint32(v), s) case Fail(e, s) => Fail(e, s);
    }
  }

  /** The buffered connection, or byte buffer, that commands are written to. */
  class Writer {
    var out: bytes

    constructor ()
      ensures out == []
    {
      out := [];
    }

    method Write(p: bytes)
      modifies this
      ensures out == old(out) + p
    {
      out := out + p;
    }
  }
}
