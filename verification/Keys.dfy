/** The names under which the chunked handler stores one user key in the backend. */
module Keys {
  import opened Bytes

  const HYPHEN: byte := 45
  const ZERO: byte := 48
  const META_SUFFIX: bytes := [45, 109, 101, 116, 97]  // "-meta"

  /** Decimal digits of n, most significant first. */
  function Digits(n: nat): (d: bytes)
    ensures d != [] && forall i :: 0 <= i < |d| ==> ZERO <= d[i] < ZERO + 10
    decreases n
  {
    if n < 10 then [n + 48] else Digits(n / 10) + [n % 10 + 48]
  }

  /** strconv.AppendInt in base 10. */
  function AppendInt(dst: bytes, i: int): bytes {
    if i < 0 then dst + [HYPHEN] + Digits(-i) else dst + Digits(i)
  }

  function MetaKey(key: bytes): bytes {
    key + META_SUFFIX
  }

  function ChunkKey(key: bytes, chunk: nat): bytes {
    AppendInt(if chunk == 0 then key + [HYPHEN] else key, -(chunk as int))
  }

  /** Every name the chunked handler can use in the backend. */
  datatype BackendKey = Meta(key: bytes) | Chunk(key: bytes, index: nat) {
    function Encode(): bytes {
      match this
      case Meta(key) => MetaKey(key)
      case Chunk(key, index) => ChunkKey(key, index)
    }
  }

  /** The number that decimal digits stand for. */
  function Number(d: bytes): int {
    if d == [] then 0 else 10 * Number(d[..|d| - 1]) + (d[|d| - 1] as int - '0' as int)
  }

  lemma {:induction false} DigitsAreNumber(n: nat)
    ensures Number(Digits(n)) == n
    decreases n
  {
    if n >= 10 {
      DigitsAreNumber(n / 10);
      assert Digits(n)[..|Digits(n)| - 1] == Digits(n / 10);
    } else {
      assert Digits(n)[..0] == [];
    }
  }

  /** The two forms of names, letter by letter. */
  lemma NamesAre(key: bytes, chunk: nat)
    ensures |MetaKey(key)| == |key| + 5 && MetaKey(key)[..|key|] == key
    ensures forall i :: 0 <= i < 5 ==> MetaKey(key)[|key| + i] == "-meta"[i] as int
    ensures ChunkKey(key, chunk)[..|key|] == key && ChunkKey(key, chunk)[|key|] == '-' as int
    ensures Number(ChunkKey(key, chunk)[|key| + 1..]) == chunk
  {
    ChunkKeyForm(key, chunk);
    DigitsAreNumber(chunk);
    assert ChunkKey(key, chunk)[|key| + 1..] == Digits(chunk);
  }

  lemma {:induction false} DigitsInjective(m: nat, n: nat)
    requires Digits(m) == Digits(n)
    ensures m == n
    decreases m
  {
    var a, b := Digits(m), Digits(n);
    assert a[|a| - 1] == b[|b| - 1];
    if m >= 10 && n >= 10 {
      assert Digits(m / 10) == a[..|a| - 1] == b[..|b| - 1] == Digits(n / 10);
      DigitsInjective(m / 10, n / 10);
    }
  }

  /** A chunk name is the user key, a hyphen, and the digits of the chunk number: the special case for
      chunk 0 makes up for AppendInt writing no sign there. */
  lemma ChunkKeyForm(key: bytes, chunk: nat)
    ensures ChunkKey(key, chunk) == key + [HYPHEN] + Digits(chunk)
  {
  }

  /** The last hyphen splits a chunk name in one way only, whatever the user key holds. */
  lemma LastHyphenSplits(k1: bytes, d1: bytes, k2: bytes, d2: bytes)
    requires k1 + [HYPHEN] + d1 == k2 + [HYPHEN] + d2
    requires HYPHEN !in d1 && HYPHEN !in d2
    ensures k1 == k2 && d1 == d2
  {
    var s := k1 + [HYPHEN] + d1;
    assert s[|k1|] == HYPHEN && s[|k2|] == HYPHEN;
    assert !(|k1| < |k2|);
    assert !(|k2| < |k1|);
    assert k1 == s[..|k1|] == k2;
    assert d1 == s[|k1| + 1..] == d2;
  }

  /** No two backend names collide: different user keys, different chunk numbers, and data against
      metadata, for user keys of any content. */
  lemma EncodeInjective(a: BackendKey, b: BackendKey)
    ensures a.Encode() == b.Encode() <==> a == b
  {
    if a.Encode() == b.Encode() {
      match (a, b)
      case (Meta(k1), Meta(k2)) =>
        assert k1 == MetaKey(k1)[..|k1|] && k2 == MetaKey(k2)[..|k2|];
      case (Chunk(k1, i1), Chunk(k2, i2)) =>
        ChunkKeyForm(k1, i1);
        ChunkKeyForm(k2, i2);
        LastHyphenSplits(k1, Digits(i1), k2, Digits(i2));
        DigitsInjective(i1, i2);
      case (Meta(k1), Chunk(k2, i2)) => NoChunkKeyIsMetaKey(k1, k2, i2);
      case (Chunk(k1, i1), Meta(k2)) => NoChunkKeyIsMetaKey(k2, k1, i1);
    }
  }

  lemma NoChunkKeyIsMetaKey(k1: bytes, k2: bytes, chunk: nat)
    ensures MetaKey(k1) != ChunkKey(k2, chunk)
  {
    ChunkKeyForm(k2, chunk);
    var m, c := MetaKey(k1), ChunkKey(k2, chunk);
    assert m[|m| - 1] == 97;
    assert c[|c| - 1] == Digits(chunk)[|Digits(chunk)| - 1];
  }
}
