/** Logarithmic buckets for 64-bit values, and the table of thresholds they are to agree with. */
module Histogram {
  import opened Bytes

  type uint64 = x: int | 0 <= x < TWO_TO_THE_64

  // ----- Powers -----

  function Pow2(e: nat): (p: nat)
    ensures p > 0
  {
    if e == 0 then 1 else 2 * Pow2(e - 1)
  }

  function Pow4(k: nat): (p: nat)
    ensures p > 0
  {
    if k == 0 then 1 else 4 * Pow4(k - 1)
  }

  /** x doubled s times. */
  function Scaled(x: nat, s: nat): nat {
    if s == 0 then x else 2 * Scaled(x, s - 1)
  }

  lemma {:induction false} ScaledTwice(x: nat, s: nat, t: nat)
    ensures Scaled(x, s + t) == Scaled(Scaled(x, s), t)
  {
    if t > 0 {
      ScaledTwice(x, s, t - 1);
    }
  }

  lemma ScaledSmall(x: nat)
    ensures Scaled(x, 1) == x * 2 && Scaled(x, 2) == x * 4 && Scaled(x, 4) == x * 0x10
  {
    assert Scaled(x, 0) == x;
    assert Scaled(x, 1) == 2 * x;
    assert Scaled(x, 2) == 2 * Scaled(x, 1);
    ScaledTwice(x, 2, 2);
    assert Scaled(x * 4, 2) == 2 * Scaled(x * 4, 1) && Scaled(x * 4, 1) == 2 * Scaled(x * 4, 0);
  }

  /** Shifts by these widths, as products. */
  lemma ScaledBy(x: nat)
    ensures Scaled(x, 2) == x * 4 && Scaled(x, 4) == x * 0x10 && Scaled(x, 8) == x * 0x100
    ensures Scaled(x, 16) == x * 0x1_0000 && Scaled(x, 32) == x * 0x1_0000_0000
  {
    ScaledSmall(x);
    ScaledTwice(x, 4, 4);
    ScaledSmall(x * 0x10);
    ScaledTwice(x, 8, 8);
    ScaledTwice(x * 0x100, 4, 4);
    ScaledSmall(x * 0x100);
    ScaledSmall(x * 0x1000);
    ScaledTwice(x, 16, 16);
    Scaled16(x * 0x1_0000);
  }

  lemma Scaled16(x: nat)
    ensures Scaled(x, 16) == x * 0x1_0000
  {
    ScaledTwice(x, 4, 4);
    ScaledTwice(x, 8, 4);
    ScaledTwice(x, 12, 4);
    ScaledSmall(x);
    ScaledSmall(x * 0x10);
    ScaledSmall(x * 0x100);
    ScaledSmall(x * 0x1000);
  }

  lemma {:induction false} ScaledCompares(x: nat, e: nat, s: nat)
    ensures Pow2(e + s) <= Scaled(x, s) <==> Pow2(e) <= x
    decreases s
  {
    if s > 0 {
      ScaledCompares(x, e, s - 1);
    }
  }

  lemma {:induction false} Pow2IsScaled(e: nat)
    ensures Pow2(e) == Scaled(1, e)
  {
    if e > 0 {
      Pow2IsScaled(e - 1);
    }
  }

  lemma Pow2Values()
    ensures Pow2(62) == 0x4000_0000_0000_0000 && Pow2(63) == 0x8000_0000_0000_0000 && Pow2(64) == TWO_TO_THE_64
  {
    Pow2IsScaled(64);
    ScaledBy(1);
    ScaledTwice(1, 32, 32);
    ScaledBy(0x1_0000_0000);
    assert Pow2(64) == 2 * Pow2(63) && Pow2(63) == 2 * Pow2(62);
  }

  lemma {:induction false} Pow2IsPow4(k: nat)
    ensures Pow2(2 * k) == Pow4(k)
  {
    if k > 0 {
      Pow2IsPow4(k - 1);
    }
  }

  // ----- Leading zeros -----

  /** lz is the number of leading zero bits. */
  ghost predicate Leads(x: uint64, lz: nat) {
    lz <= 63 && Pow2(63 - lz) <= x < Pow2(64 - lz)
  }

  /** Where the conditionals of lzcnt have got to: the first one bit is in the `width` highest places, and n - 1
      places have been shifted out. */
  ghost predicate Narrowed(x0: uint64, x: int, n: int, least: nat, most: nat) {
    && 1 <= n <= most && 0 <= x < TWO_TO_THE_64 && x == Scaled(x0, n - 1)
    && (x0 > 0 ==> least <= x) && (x0 == 0 ==> x == 0 && n == most)
  }

  /** lzcnt: halving the width that the first one bit can be in. (Of zero it makes 63.) */
  method Lzcnt(x0: uint64) returns (n: nat)
    ensures x0 > 0 ==> Leads(x0, n)
    ensures x0 == 0 ==> n == 63
  {
    var x;
    n, x := HalveTwice(x0);
    if x / 0x100_0000_0000_0000 == 0 {
      Shifted(x0, x, n - 1);
      n, x := n + 8, x * 0x100;
    }
    n, x := HalveLast(x0, n, x);
    if x0 > 0 {
      Brackets(x0, x, n - 1);
    }
    n := n - x / 0x8000_0000_0000_0000;
  }

  /** The first two conditionals. */
  method HalveTwice(x0: uint64) returns (n: nat, x: uint64)
    ensures Narrowed(x0, x, n, 0x1_0000_0000_0000, 49)
  {
    x := x0;
    n := 1;
    if x / 0x1_0000_0000 == 0 {
      Shifted(x0, x, 0);
      n, x := n + 32, x * 0x1_0000_0000;
    }
    if x / 0x1_0000_0000_0000 == 0 {
      Shifted(x0, x, n - 1);
      n, x := n + 16, x * 0x1_0000;
    }
  }

  /** The last two. */
  method HalveLast(ghost x0: uint64, n0: nat, y: uint64) returns (n: nat, x: uint64)
    requires Narrowed(x0, y, n0, 0x100_0000_0000_0000, 57)
    ensures Narrowed(x0, x, n, 0x4000_0000_0000_0000, 63)
  {
    n, x := n0, y;
    if x / 0x1000_0000_0000_0000 == 0 {
      Shifted(x0, x, n - 1);
      n, x := n + 4, x * 0x10;
    }
    if x / 0x4000_0000_0000_0000 == 0 {
      Shifted(x0, x, n - 1);
      n, x := n + 2, x * 0x4;
    }
  }

  lemma Shifted(x0: nat, x: nat, s: nat)
    requires x == Scaled(x0, s)
    ensures Scaled(x0, s + 2) == x * 4 && Scaled(x0, s + 4) == x * 0x10 && Scaled(x0, s + 8) == x * 0x100
    ensures Scaled(x0, s + 16) == x * 0x1_0000 && Scaled(x0, s + 32) == x * 0x1_0000_0000
  {
    ScaledBy(x);
    ScaledTwice(x0, s, 2);
    ScaledTwice(x0, s, 4);
    ScaledTwice(x0, s, 8);
    ScaledTwice(x0, s, 16);
    ScaledTwice(x0, s, 32);
  }

  lemma Brackets(x0: uint64, x: nat, s: nat)
    requires x == Scaled(x0, s) && s <= 62 && 0x4000_0000_0000_0000 <= x < TWO_TO_THE_64
    ensures x < 0x8000_0000_0000_0000 ==> Leads(x0, s + 1)
    ensures x >= 0x8000_0000_0000_0000 ==> Leads(x0, s)
  {
    Pow2Values();
    ScaledCompares(x0, 62 - s, s);
    ScaledCompares(x0, 63 - s, s);
    ScaledCompares(x0, 64 - s, s);
  }

  // ----- The table -----

  const NUM_ATLAS_BUCKETS := 276
  const MAX_VALUE := 9223372036854775807

  const POWER_OF_4_INDEX: seq<nat> := [
    0, 3, 14, 23, 32, 41, 50, 59, 68, 77, 86, 95, 104, 113, 122, 131,
    140, 149, 158, 167, 176, 185, 194, 203, 212, 221, 230, 239, 248, 257, 266, 275]

  /** bucketValues, the nine entries from 4^k on, for k from 2 to 30. */
  function Row(k: nat): seq<nat> {
    match k
    case 2 => [16, 21, 26, 31, 36, 41, 46, 51, 56]
    case 3 => [64, 85, 106, 127, 148, 169, 190, 211, 232]
    case 4 => [256, 341, 426, 511, 596, 681, 766, 851, 936]
    case 5 => [1024, 1365, 1706, 2047, 2388, 2729, 3070, 3411, 3752]
    case 6 => [4096, 5461, 6826, 8191, 9556, 10921, 12286, 13651, 15016]
    case 7 => [16384, 21845, 27306, 32767, 38228, 43689, 49150, 54611, 60072]
    case 8 => [65536, 87381, 109226, 131071, 152916, 174761, 196606, 218451, 240296]
    case 9 => [262144, 349525, 436906, 524287, 611668, 699049, 786430, 873811, 961192]
    case 10 => [1048576, 1398101, 1747626, 2097151, 2446676, 2796201, 3145726, 3495251, 3844776]
    case 11 => [4194304, 5592405, 6990506, 8388607, 9786708, 11184809, 12582910, 13981011, 15379112]
    case 12 => [16777216, 22369621, 27962026, 33554431, 39146836, 44739241, 50331646, 55924051, 61516456]
    case 13 => [67108864, 89478485, 111848106, 134217727, 156587348, 178956969, 201326590, 223696211, 246065832]
    case 14 => [268435456, 357913941, 447392426, 536870911, 626349396, 715827881, 805306366, 894784851, 984263336]
    case 15 => [1073741824, 1431655765, 1789569706, 2147483647,
      2505397588, 2863311529, 3221225470, 3579139411, 3937053352]
    case 16 => [4294967296, 5726623061, 7158278826, 8589934591,
      10021590356, 11453246121, 12884901886, 14316557651, 15748213416]
    case 17 => [17179869184, 22906492245, 28633115306, 34359738367,
      40086361428, 45812984489, 51539607550, 57266230611, 62992853672]
    case 18 => [68719476736, 91625968981, 114532461226, 137438953471,
      160345445716, 183251937961, 206158430206, 229064922451, 251971414696]
    case 19 => [274877906944, 366503875925, 458129844906, 549755813887,
      641381782868, 733007751849, 824633720830, 916259689811, 1007885658792]
    case 20 => [1099511627776, 1466015503701, 1832519379626, 2199023255551,
      2565527131476, 2932031007401, 3298534883326, 3665038759251, 4031542635176]
    case 21 => [4398046511104, 5864062014805, 7330077518506, 8796093022207,
      10262108525908, 11728124029609, 13194139533310, 14660155037011, 16126170540712]
    case 22 => [17592186044416, 23456248059221, 29320310074026, 35184372088831,
      41048434103636, 46912496118441, 52776558133246, 58640620148051, 64504682162856]
    case 23 => [70368744177664, 93824992236885, 117281240296106, 140737488355327,
      164193736414548, 187649984473769, 211106232532990, 234562480592211, 258018728651432]
    case 24 => [281474976710656, 375299968947541, 469124961184426, 562949953421311,
      656774945658196, 750599937895081, 844424930131966, 938249922368851, 1032074914605736]
    case 25 => [1125899906842624, 1501199875790165, 1876499844737706, 2251799813685247,
      2627099782632788, 3002399751580329, 3377699720527870, 3752999689475411, 4128299658422952]
    case 26 => [4503599627370496, 6004799503160661, 7505999378950826, 9007199254740991,
      10508399130531156, 12009599006321321, 13510798882111486, 15011998757901651, 16513198633691816]
    case 27 => [18014398509481984, 24019198012642645, 30023997515803306, 36028797018963967,
      42033596522124628, 48038396025285289, 54043195528445950, 60047995031606611, 66052794534767272]
    case 28 => [72057594037927936, 96076792050570581, 120095990063213226, 144115188075855871,
      168134386088498516, 192153584101141161, 216172782113783806, 240191980126426451, 264211178139069096]
    case 29 => [288230376151711744, 384307168202282325, 480383960252852906, 576460752303423487,
      672537544353994068, 768614336404564649, 864691128455135230, 960767920505705811, 1056844712556276392]
    case _ => [1152921504606846976, 1537228672809129301, 1921535841011411626, 2305843009213693951,
      2690150177415976276, 3074457345618258601, 3458764513820540926, 3843071682022823251, 4227378850225105576]
  }

  /** bucketValues: 1 to 14, the rows, and the greatest int64. */
  function BucketValue(i: nat): nat
    requires i < NUM_ATLAS_BUCKETS
  {
    if i < 14 then i + 1
    else if i == NUM_ATLAS_BUCKETS - 1 then MAX_VALUE
    else
      RowIs((i + 4) / 9);
      Row((i + 4) / 9)[(i + 4) % 9]
  }

  function Table(): (t: seq<nat>)
    ensures |t| == NUM_ATLAS_BUCKETS
  {
    seq(NUM_ATLAS_BUCKETS, i requires 0 <= i < NUM_ATLAS_BUCKETS => BucketValue(i))
  }

  function Literal4(k: nat): nat
    requires k <= 31
  {
    match k
    case 0 => 1
    case 1 => 4
    case 2 => 16
    case 3 => 64
    case 4 => 256
    case 5 => 1024
    case 6 => 4096
    case 7 => 16384
    case 8 => 65536
    case 9 => 262144
    case 10 => 1048576
    case 11 => 4194304
    case 12 => 16777216
    case 13 => 67108864
    case 14 => 268435456
    case 15 => 1073741824
    case 16 => 4294967296
    case 17 => 17179869184
    case 18 => 68719476736
    case 19 => 274877906944
    case 20 => 1099511627776
    case 21 => 4398046511104
    case 22 => 17592186044416
    case 23 => 70368744177664
    case 24 => 281474976710656
    case 25 => 1125899906842624
    case 26 => 4503599627370496
    case 27 => 18014398509481984
    case 28 => 72057594037927936
    case 29 => 288230376151711744
    case 30 => 1152921504606846976
    case _ => 4611686018427387904
  }

  lemma {:induction false} Pow4IsLiteral(k: nat)
    requires k <= 31
    ensures Pow4(k) == Literal4(k)
  {
    if k > 0 {
      Pow4IsLiteral(k - 1);
    }
  }

  /** What a row holds: a power of four, and the steps of a third of it up to the next. */
  ghost predicate IsRow(r: seq<nat>, p: nat) {
    var d := p / 3;
    && |r| == 9 && r[0] == p && r[1] == p + d && r[2] == p + 2 * d && r[3] == p + 3 * d && r[4] == p + 4 * d
    && r[5] == p + 5 * d && r[6] == p + 6 * d && r[7] == p + 7 * d && r[8] == p + 8 * d
  }

  lemma RowIs(k: nat)
    requires 2 <= k <= 30
    ensures IsRow(Row(k), Pow4(k))
  {
    Pow4IsLiteral(k);
    if k < 12 { RowsBelow12(k); } else if k < 22 { RowsBelow22(k); } else { RowsFrom22(k); }
  }

  lemma RowsBelow12(k: nat)
    requires 2 <= k < 12
    ensures IsRow(Row(k), Literal4(k))
  {
    if k == 2 { RowIs2(); }
    else if k == 3 { RowIs3(); }
    else if k == 4 { RowIs4(); }
    else if k == 5 { RowIs5(); }
    else if k == 6 { RowIs6(); }
    else if k == 7 { RowIs7(); }
    else if k == 8 { RowIs8(); }
    else if k == 9 { RowIs9(); }
    else if k == 10 { RowIs10(); }
    else { RowIs11(); }
  }

  lemma RowsBelow22(k: nat)
    requires 12 <= k < 22
    ensures IsRow(Row(k), Literal4(k))
  {
    if k == 12 { RowIs12(); }
    else if k == 13 { RowIs13(); }
    else if k == 14 { RowIs14(); }
    else if k == 15 { RowIs15(); }
    else if k == 16 { RowIs16(); }
    else if k == 17 { RowIs17(); }
    else if k == 18 { RowIs18(); }
    else if k == 19 { RowIs19(); }
    else if k == 20 { RowIs20(); }
    else { RowIs21(); }
  }

  lemma RowsFrom22(k: nat)
    requires 22 <= k < 31
    ensures IsRow(Row(k), Literal4(k))
  {
    if k == 22 { RowIs22(); }
    else if k == 23 { RowIs23(); }
    else if k == 24 { RowIs24(); }
    else if k == 25 { RowIs25(); }
    else if k == 26 { RowIs26(); }
    else if k == 27 { RowIs27(); }
    else if k == 28 { RowIs28(); }
    else if k == 29 { RowIs29(); }
    else { RowIs30(); }
  }

  lemma RowIs2()
    ensures IsRow(Row(2), Literal4(2))
  {
  }

  lemma RowIs3()
    ensures IsRow(Row(3), Literal4(3))
  {
  }

  lemma RowIs4()
    ensures IsRow(Row(4), Literal4(4))
  {
  }

  lemma RowIs5()
    ensures IsRow(Row(5), Literal4(5))
  {
  }

  lemma RowIs6()
    ensures IsRow(Row(6), Literal4(6))
  {
  }

  lemma RowIs7()
    ensures IsRow(Row(7), Literal4(7))
  {
  }

  lemma RowIs8()
    ensures IsRow(Row(8), Literal4(8))
  {
  }

  lemma RowIs9()
    ensures IsRow(Row(9), Literal4(9))
  {
  }

  lemma RowIs10()
    ensures IsRow(Row(10), Literal4(10))
  {
  }

  lemma RowIs11()
    ensures IsRow(Row(11), Literal4(11))
  {
  }

  lemma RowIs12()
    ensures IsRow(Row(12), Literal4(12))
  {
  }

  lemma RowIs13()
    ensures IsRow(Row(13), Literal4(13))
  {
  }

  lemma RowIs14()
    ensures IsRow(Row(14), Literal4(14))
  {
  }

  lemma RowIs15()
    ensures IsRow(Row(15), Literal4(15))
  {
  }

  lemma RowIs16()
    ensures IsRow(Row(16), Literal4(16))
  {
  }

  lemma RowIs17()
    ensures IsRow(Row(17), Literal4(17))
  {
  }

  lemma RowIs18()
    ensures IsRow(Row(18), Literal4(18))
  {
  }

  lemma RowIs19()
    ensures IsRow(Row(19), Literal4(19))
  {
  }

  lemma RowIs20()
    ensures IsRow(Row(20), Literal4(20))
  {
  }

  lemma RowIs21()
    ensures IsRow(Row(21), Literal4(21))
  {
  }

  lemma RowIs22()
    ensures IsRow(Row(22), Literal4(22))
  {
  }

  lemma RowIs23()
    ensures IsRow(Row(23), Literal4(23))
  {
  }

  lemma RowIs24()
    ensures IsRow(Row(24), Literal4(24))
  {
  }

  lemma RowIs25()
    ensures IsRow(Row(25), Literal4(25))
  {
  }

  lemma RowIs26()
    ensures IsRow(Row(26), Literal4(26))
  {
  }

  lemma RowIs27()
    ensures IsRow(Row(27), Literal4(27))
  {
  }

  lemma RowIs28()
    ensures IsRow(Row(28), Literal4(28))
  {
  }

  lemma RowIs29()
    ensures IsRow(Row(29), Literal4(29))
  {
  }

  lemma RowIs30()
    ensures IsRow(Row(30), Literal4(30))
  {
  }

  lemma PowerOf4IndexIs(k: nat)
    requires 2 <= k <= 31
    ensures POWER_OF_4_INDEX[k] == 9 * k - 4
  {
  }

  lemma {:induction false} Pow4Thirds(k: nat)
    ensures Pow4(k) == 3 * (Pow4(k) / 3) + 1
  {
    if k > 0 {
      Pow4Thirds(k - 1);
      var third := Pow4(k - 1) / 3;
      assert Pow4(k) == 3 * (4 * third + 1) + 1;
    }
  }

  // ----- Buckets -----

  function Log4(n: nat): nat
    requires n > 0
  {
    if n < 4 then 0 else 1 + Log4(n / 4)
  }

  lemma {:induction false} Log4Brackets(n: nat)
    requires n > 0
    ensures Pow4(Log4(n)) <= n < Pow4(Log4(n) + 1)
  {
    if n >= 4 {
      Log4Brackets(n / 4);
    }
  }

  lemma {:induction false} Pow4Grows(j: nat, k: nat)
    requires j <= k
    ensures Pow4(j) <= Pow4(k)
    decreases k - j
  {
    if j < k {
      Pow4Grows(j, k - 1);
    }
  }

  lemma Log4Is(n: nat, k: nat)
    requires Pow4(k) <= n < Pow4(k + 1)
    ensures Log4(n) == k
  {
    var l := Log4(n);
    Log4Brackets(n);
    if l < k { Pow4Grows(l + 1, k); }
    if k < l { Pow4Grows(k + 1, l); }
  }

  /** The bucket in the row of 4^k. */
  function RowBucket(k: nat, n: nat): nat
    requires k >= 2 && Pow4(k) <= n && Pow4(k) >= 3
  {
    var pos := Step(n, Pow4(k)) + (9 * k - 4);
    if pos >= NUM_ATLAS_BUCKETS - 1 then NUM_ATLAS_BUCKETS - 1 else pos + 1
  }

  function Bucket(n: uint64): nat {
    if n <= 15 then n
    else
      RowOf(n);
      RowBucket(Log4(n), n)
  }

  lemma RowOf(n: uint64)
    requires n > 15
    ensures var k := Log4(n); 2 <= k <= 31 && Pow4(k) >= 16 && Pow4(k) <= n < 4 * Pow4(k)
  {
    var k := Log4(n);
    Log4Brackets(n);
    Pow4IsLiteral(2);
    Pow4IsLiteral(31);
    if k < 2 { Pow4Grows(k + 1, 2); }
    if k > 31 { Pow4Grows(32, k); }
    Pow4Grows(2, k);
  }

  /** getBucket. */
  method GetBucket(n: uint64) returns (b: nat)
    ensures b == Bucket(n)
  {
    if n <= 15 {
      return n;
    }
    RowOf(n);
    var lz := Lzcnt(n);
    var rshift := 64 - lz - 1;
    var lshift := rshift;
    if lshift % 2 == 1 {
      lshift := lshift - 1;
    }
    ghost var k := lshift / 2;
    PreviousPower(n, rshift, lshift);
    PowerOf4IndexIs(k);
    var prevPowerOf4 := Scaled(Shr(n, rshift), lshift);
    b := PlaceInRow(n, prevPowerOf4, POWER_OF_4_INDEX[lshift / 2], k);
  }

  /** The end of getBucket. */
  method PlaceInRow(n: uint64, prevPowerOf4: nat, index: nat, ghost k: nat) returns (b: nat)
    requires k >= 2 && prevPowerOf4 == Pow4(k) && 16 <= prevPowerOf4 <= n && index == 9 * k - 4
    ensures b == RowBucket(k, n)
  {
    var delta := prevPowerOf4 / 3;
    var offset := (n - prevPowerOf4) / delta;
    var pos := offset + index;
    if pos >= NUM_ATLAS_BUCKETS - 1 {
      return NUM_ATLAS_BUCKETS - 1;
    }
    b := pos + 1;
  }

  /** x >> s. */
  function Shr(x: nat, s: nat): nat {
    if s == 0 then x else Shr(x / 2, s - 1)
  }

  lemma {:induction false} ShrLeavesOne(x: nat, s: nat)
    requires Pow2(s) <= x < Pow2(s + 1)
    ensures Shr(x, s) == 1
    decreases s
  {
    if s > 0 {
      ShrLeavesOne(x / 2, s - 1);
    }
  }

  /** The shifts leave the greatest power of four that is not above n. */
  lemma PreviousPower(n: uint64, rshift: nat, lshift: nat)
    requires n > 15 && Pow2(rshift) <= n < Pow2(rshift + 1)
    requires lshift == rshift - rshift % 2
    ensures Scaled(Shr(n, rshift), lshift) == Pow4(lshift / 2) && Log4(n) == lshift / 2
  {
    var k := lshift / 2;
    ShrLeavesOne(n, rshift);
    Pow2IsScaled(lshift);
    Pow2IsPow4(k);
    assert rshift == 2 * k || rshift == 2 * k + 1;
    assert Pow2(2 * k + 1) == 2 * Pow2(2 * k) && Pow2(2 * k + 2) == 2 * Pow2(2 * k + 1);
    Log4Is(n, k);
  }

  // ----- Buckets and the table -----

  lemma StepOf(x: nat, d: nat)
    requires d >= 5 && x < 9 * d + 3
    ensures var o := x / d; o <= 9 && d * o <= x < d * o + d
  {
    var o := x / d;
    assert x == d * o + x % d;
    if o >= 10 { Monotone(d, 10, o); }
  }

  /** Where n lies from p on, in thirds of p. The last step before the next power is a little short. */
  function Step(n: nat, p: nat): (o: nat)
    requires n >= p >= 3
  {
    (n - p) / (p / 3)
  }

  lemma StepIs(n: nat, p: nat)
    requires 16 <= p <= n < 4 * p && p == 3 * (p / 3) + 1
    ensures var d, o := p / 3, Step(n, p); o <= 9 && d >= 5 && d * o <= n - p < d * o + d
  {
    StepOf(n - p, p / 3);
  }

  lemma BucketIs(n: uint64)
    requires n > 15
    ensures var k := Log4(n);
      && 2 <= k <= 31 && 16 <= Pow4(k) <= n < 4 * Pow4(k)
      && Bucket(n) == Min(Step(n, Pow4(k)) + 9 * k - 3, 275)
  {
    RowOf(n);
  }

  lemma Offset(n: uint64, k: nat) returns (o: nat)
    requires n > 15 && k == Log4(n)
    ensures var d := Pow4(k) / 3;
      && o <= 9 && d >= 5 && Pow4(k) == 3 * d + 1
      && d * o <= n - Pow4(k) < d * o + d
      && Bucket(n) == Min(o + 9 * k - 3, 275)
  {
    BucketIs(n);
    Pow4Thirds(k);
    StepIs(n, Pow4(k));
    o := Step(n, Pow4(k));
  }

  /** A value just below a power of four, where the short last step makes an extra one. */
  predicate Early(n: uint64) {
    n == 15 || (n > 15 && Log4(n) < 30 && n + 3 >= 4 * Pow4(Log4(n)))
  }

  /** What the table holds: 1 to 14, then from each power of four on in steps of a third of it. */
  ghost predicate IsTable(t: seq<nat>) {
    && |t| == NUM_ATLAS_BUCKETS && t[NUM_ATLAS_BUCKETS - 1] == MAX_VALUE
    && (forall i :: 0 <= i < 14 ==> t[i] == i + 1)
    && (forall k, j :: 2 <= k <= 30 && 0 <= j < 9 ==> t[Index(k, j)] == Entry(Pow4(k), j))
  }

  function Index(k: nat, j: nat): (i: nat)
    requires 2 <= k <= 30 && j < 9
    ensures i < NUM_ATLAS_BUCKETS - 1
  {
    9 * k - 4 + j
  }

  function Entry(p: nat, j: nat): nat {
    p + p / 3 * j
  }

  lemma TableIs()
    ensures IsTable(Table())
  {
    forall k, j | 2 <= k <= 30 && 0 <= j < 9
      ensures Table()[Index(k, j)] == Entry(Pow4(k), j)
    {
      assert (Index(k, j) + 4) / 9 == k && (Index(k, j) + 4) % 9 == j;
      RowIs(k);
      RowEntry(Row(k), Pow4(k), j);
    }
  }

  lemma RowEntry(r: seq<nat>, p: nat, j: nat)
    requires IsRow(r, p) && j < 9
    ensures r[j] == Entry(p, j)
  {
    if j == 0 {} else if j == 1 {} else if j == 2 {} else if j == 3 {} else if j == 4 {} else if j == 5 {}
    else if j == 6 {} else if j == 7 {} else {}
  }

  /** A bucket between its thresholds in the table. */
  ghost predicate Agrees(t: seq<nat>, n: uint64, b: nat)
    requires |t| == NUM_ATLAS_BUCKETS
  {
    && b < NUM_ATLAS_BUCKETS
    && (n < MAX_VALUE ==> n < t[b])
    && (b > 0 ==> t[b - 1] <= n + 3)
    && (b > 0 ==> (t[b - 1] <= n <==> !Early(n)))
  }

  /** getBucket and the table: the threshold of the bucket is above the value; the one before it is not, except
      for the values just below a power of four, and there by no more than 3. */
  lemma BucketAgreesWithTable(n: uint64)
    ensures Agrees(Table(), n, Bucket(n))
  {
    TableIs();
    AgreesWithAnyTable(Table(), n);
  }

  lemma AgreesWithAnyTable(t: seq<nat>, n: uint64)
    requires IsTable(t)
    ensures Agrees(t, n, Bucket(n))
  {
    if n <= 15 {
      SmallBuckets(t, n);
    } else {
      RowOf(n);
      if Log4(n) == 31 { LastBucket(t, n); } else { RowAgrees(t, n, Log4(n)); }
    }
  }

  lemma SmallBuckets(t: seq<nat>, n: nat)
    requires IsTable(t) && n <= 15
    ensures n < t[n] && (n > 0 ==> t[n - 1] == if n == 15 then 16 else n)
  {
    assert t[Index(2, 0)] == Entry(Pow4(2), 0) && t[Index(2, 1)] == Entry(Pow4(2), 1);
    Pow4IsLiteral(2);
  }

  lemma LastBucket(t: seq<nat>, n: uint64)
    requires IsTable(t) && n > 15 && Log4(n) == 31
    ensures Bucket(n) == 275 && t[274] <= n
  {
    var o := Offset(n, 31);
    RowOf(n);
    assert t[Index(30, 8)] == Entry(Pow4(30), 8);
    Pow4IsLiteral(30);
    Pow4IsLiteral(31);
  }

  lemma RowAgrees(t: seq<nat>, n: uint64, k: nat)
    requires IsTable(t) && 2 <= k <= 30 && n > 15 && k == Log4(n)
    ensures Agrees(t, n, Bucket(n))
  {
    var o := Offset(n, k);
    RowOf(n);
    Thresholds(t, k, o);
    Pow4Grows(k, 30);
    Pow4IsLiteral(30);
    var b := Min(o + 9 * k - 3, 275);
    ThresholdNumbers(n, k, o, Pow4(k), t[b - 1], t[b]);
  }

  /** The thresholds around step o of a row. */
  lemma Thresholds(t: seq<nat>, k: nat, o: nat)
    requires IsTable(t) && 2 <= k <= 30 && o <= 9
    ensures var b := Min(o + 9 * k - 3, 275); AreThresholds(k, o, Pow4(k), t[b - 1], t[b])
  {
    var b := Min(o + 9 * k - 3, 275);
    if o < 8 {
      assert b == 9 * k - 3 + o;
      ThresholdsInside(t, k, o);
    } else if k == 30 {
      assert b == 275;
      ThresholdsAtTheEnd(t, o);
    } else if o == 8 {
      assert b == 9 * k + 5;
      ThresholdsOfLastStep(t, k);
    } else {
      assert b == 9 * k + 6;
      ThresholdsOfExtraStep(t, k);
    }
  }

  lemma ThresholdsInside(t: seq<nat>, k: nat, o: nat)
    requires IsTable(t) && 2 <= k <= 30 && o < 8
    ensures AreThresholds(k, o, Pow4(k), t[9 * k - 4 + o], t[9 * k - 3 + o])
  {
    TableEntry(t, k, o);
    TableEntry(t, k, o + 1);
  }

  lemma ThresholdsOfLastStep(t: seq<nat>, k: nat)
    requires IsTable(t) && 2 <= k < 30
    ensures AreThresholds(k, 8, Pow4(k), t[9 * k + 4], t[9 * k + 5])
  {
    TableEntry(t, k, 8);
    TableEntry(t, k + 1, 0);
  }

  lemma ThresholdsOfExtraStep(t: seq<nat>, k: nat)
    requires IsTable(t) && 2 <= k < 30
    ensures AreThresholds(k, 9, Pow4(k), t[9 * k + 5], t[9 * k + 6])
  {
    TableEntry(t, k + 1, 0);
    TableEntry(t, k + 1, 1);
    Pow4Grows(2, k + 1);
    Pow4IsLiteral(2);
  }

  lemma ThresholdsAtTheEnd(t: seq<nat>, o: nat)
    requires IsTable(t) && 8 <= o <= 9
    ensures AreThresholds(30, o, Pow4(30), t[274], t[275])
  {
    TableEntry(t, 30, 8);
  }

  lemma TableEntry(t: seq<nat>, k: nat, j: nat)
    requires IsTable(t) && 2 <= k <= 30 && j < 9
    ensures t[9 * k - 4 + j] == Entry(Pow4(k), j)
  {
    assert t[Index(k, j)] == Entry(Pow4(k), j);
  }

  ghost predicate AreThresholds(k: nat, o: nat, p: nat, below: nat, above: nat) {
    && (o < 9 ==> below == Entry(p, o)) && (o < 8 ==> above == Entry(p, o + 1))
    && (o == 8 ==> above == if k == 30 then MAX_VALUE else 4 * p)
    && (o == 9 ==> if k == 30 then below == Entry(p, 8) && above == MAX_VALUE else below == 4 * p && above > 4 * p)
  }

  lemma ThresholdNumbers(n: nat, k: nat, o: nat, p: nat, below: nat, above: nat)
    requires AreThresholds(k, o, p, below, above) && o <= 9 && k <= 30 && p <= 0x1000_0000_0000_0000
    requires var d := p / 3; d >= 5 && p == 3 * d + 1 && d * o <= n - p < d * o + d && n < 4 * p
    ensures n < above && below <= n + 3
    ensures below <= n <==> !(k < 30 && n + 3 >= 4 * p)
  {
    var d := p / 3;
    if o < 8 {
      Monotone(d, o + 1, 8);
      assert d * (o + 1) == d * o + d;
    } else if o == 8 {
      assert d * o == 8 * d;
    } else {
      assert d * o == 9 * d;
    }
  }

  // ----- Order -----

  /** A greater value never goes into a lower bucket. */
  lemma BucketsAreMonotone(m: uint64, n: uint64)
    requires m <= n
    ensures Bucket(m) <= Bucket(n)
  {
    if m > 15 {
      var j, k := Log4(m), Log4(n);
      var o := Offset(m, j);
      var o' := Offset(n, k);
      RowOf(m);
      RowOf(n);
      if j == k {
        SameRow(m, n, Pow4(k), Pow4(k) / 3, o, o');
      } else if j > k {
        Pow4Grows(k + 1, j);
      }
    } else if n > 15 {
      var o' := Offset(n, Log4(n));
      RowOf(n);
    }
  }

  lemma SameRow(m: nat, n: nat, p: nat, d: nat, o: nat, o': nat)
    requires m <= n && d > 0 && d * o <= m - p && n - p < d * o' + d
    ensures o <= o'
  {
    if o' < o { MonotoneStep(d, o', o); }
  }

  lemma MonotoneStep(d: nat, a: nat, b: nat)
    requires a < b
    ensures d * a + d <= d * b
  {
    Monotone(d, a + 1, b);
    assert d * (a + 1) == d * a + d;
  }
}
