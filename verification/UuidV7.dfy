/** UUIDv7 packing of chat-svc and media-svc, on Python's unbounded integers: shifts, bitwise or and
    bitwise and, checked against the layout of section 5.7 of RFC 9562. */
module UuidV7 {
  import opened Basics

  // ---------- Bits ----------

  function Shl(x: nat, n: nat): (r: nat)
    ensures x <= r
  {
    if n == 0 then x else 2 * Shl(x, n - 1)
  }

  function Shr(x: nat, n: nat): nat {
    if n == 0 then x else Shr(x / 2, n - 1)
  }

  /** Bitwise or, bit by bit from the lowest. */
  function Or(x: nat, y: nat): nat {
    if x == 0 then y
    else if y == 0 then x
    else 2 * Or(x / 2, y / 2) + (if x % 2 == 1 || y % 2 == 1 then 1 else 0)
  }

  /** Bitwise and, bit by bit from the lowest. */
  function And(x: nat, y: nat): nat {
    if x == 0 || y == 0 then 0
    else 2 * And(x / 2, y / 2) + (if x % 2 == 1 && y % 2 == 1 then 1 else 0)
  }

  const TWO_48: nat := 0x1_0000_0000_0000
  const TWO_62: nat := 0x4000_0000_0000_0000
  const TWO_64: nat := 0x1_0000_0000_0000_0000
  const TWO_76: nat := 0x1000_0000_0000_0000_0000
  const TWO_80: nat := 0x1_0000_0000_0000_0000_0000
  const TWO_128: nat := 0x1_0000_0000_0000_0000_0000_0000_0000_0000

  // ---------- The generator ----------

  datatype Fields = Fields(ts: nat, version: nat, randA: nat, variant: nat, randB: nat)

  /** The packed integer for a timestamp and the two random draws of 16 and 64 bits. */
  function Pack(ts: nat, draw16: nat, draw64: nat): nat {
    var randA := And(draw16, 0xFFF);
    var randB := And(draw64, 0x3FFF_FFFF_FFFF_FFFF);
    Or(Or(Or(Or(Shl(ts, 80), Shl(7, 76)), Shl(randA, 64)), Shl(2, 62)), randB)
  }

  /** uuid.UUID(int=...) refuses what does not fit in 128 bits. */
  function Generate(ts: nat, draw16: nat, draw64: nat): Option<nat> {
    var value := Pack(ts, draw16, draw64);
    if value < TWO_128 then Some(value) else None
  }

  /** The fields of a 128-bit value as the standard lays them out: 48, 4, 12, 2 and 62 bits. */
  function Unpack(value: nat): Fields {
    Fields(value / TWO_80, value / TWO_76 % 16, value / TWO_64 % 4096, value / TWO_62 % 4, value % TWO_62)
  }

  /** The n low-order bytes of a value, most significant first. */
  function BigEndian(value: nat, n: nat): (bytes: seq<nat>)
    ensures |bytes| == n
  {
    if n == 0 then [] else BigEndian(value / 256, n - 1) + [value % 256]
  }

  /** How many values n bytes can hold. */
  function Capacity(n: nat): nat {
    if n == 0 then 1 else 256 * Capacity(n - 1)
  }

  /** Comparison of byte strings of equal length, byte by byte from the front. */
  predicate LexLess(a: seq<nat>, b: seq<nat>)
    requires |a| == |b|
  {
    a != [] && (a[0] < b[0] || (a[0] == b[0] && LexLess(a[1..], b[1..])))
  }

  // ---------- Bit arithmetic ----------

  lemma {:induction false} ShlSplits(x: nat, a: nat, b: nat)
    ensures Shl(x, a + b) == Shl(Shl(x, a), b)
  {
    if b > 0 { ShlSplits(x, a, b - 1); }
  }

  lemma {:induction false} Shl4(x: nat)
    ensures Shl(x, 4) == 16 * x
  {
    assert Shl(x, 1) == 2 * x;
    assert Shl(x, 2) == 2 * Shl(x, 1);
    assert Shl(x, 3) == 2 * Shl(x, 2);
  }

  lemma {:induction false} Shl12(x: nat)
    ensures Shl(x, 12) == 4096 * x
  {
    Shl4(x);
    ShlSplits(x, 4, 4);
    Shl4(Shl(x, 4));
    ShlSplits(x, 8, 4);
    Shl4(Shl(x, 8));
  }

  lemma {:induction false} Shl60(x: nat)
    ensures Shl(x, 60) == 0x1000_0000_0000_0000 * x
  {
    Shl12(x);
    Shl12(Shl(x, 12)); ShlSplits(x, 12, 12);
    Shl12(Shl(x, 24)); ShlSplits(x, 24, 12);
    Shl12(Shl(x, 36)); ShlSplits(x, 36, 12);
    Shl12(Shl(x, 48)); ShlSplits(x, 48, 12);
  }

  /** The shifts used, as products. */
  lemma {:induction false} ShiftsAreProducts(x: nat)
    ensures Shl(x, 12) == 0x1000 * x && Shl(x, 62) == TWO_62 * x && Shl(x, 64) == TWO_64 * x
    ensures Shl(x, 76) == TWO_76 * x && Shl(x, 80) == TWO_80 * x
  {
    Shl12(x);
    Shl60(x);
    Shl4(Shl(x, 60)); ShlSplits(x, 60, 4);
    Shl12(Shl(x, 64)); ShlSplits(x, 64, 12);
    Shl4(Shl(x, 76)); ShlSplits(x, 76, 4);
    assert Shl(x, 62) == 2 * Shl(x, 61) == 4 * Shl(x, 60);
  }

  /** Or of a value shifted up and one that fits below it is their sum. */
  lemma {:induction false} OrOfDisjoint(high: nat, low: nat, n: nat)
    requires low < Shl(1, n)
    ensures Or(Shl(high, n), low) == Shl(high, n) + low
  {
    if n > 0 && Shl(high, n) > 0 && low > 0 {
      OrOfDisjoint(high, low / 2, n - 1);
    }
  }

  lemma {:induction false} ShlOfZero(n: nat)
    ensures Shl(0, n) == 0
  {
    if n > 0 { ShlOfZero(n - 1); }
  }

  lemma {:induction false} ShrOfZero(n: nat)
    ensures Shr(0, n) == 0
  {
    if n > 0 { ShrOfZero(n - 1); }
  }

  /** And with a mask of n ones splits off the n low bits. */
  lemma {:induction false} AndSplitsLowBits(x: nat, n: nat)
    ensures x == Shl(Shr(x, n), n) + And(x, Shl(1, n) - 1) && And(x, Shl(1, n) - 1) < Shl(1, n)
  {
    if n > 0 {
      AndSplitsLowBits(x / 2, n - 1);
      var mask := Shl(1, n) - 1;
      assert mask / 2 == Shl(1, n - 1) - 1 && mask % 2 == 1;
      if x == 0 { ShrOfZero(n); ShlOfZero(n); }
    }
  }

  lemma {:induction false} Split12(x: nat, high: nat, low: nat)
    requires x == 4096 * high + low && low < 4096
    ensures x / 4096 == high && x % 4096 == low
  {
  }

  lemma {:induction false} Mask12IsRemainder(draw: nat)
    ensures And(draw, 0xFFF) == draw % 4096
  {
    assert Shl(1, 12) == 4096 by { ShiftsAreProducts(1); }
    AndSplitsLowBits(draw, 12);
    var high := Shr(draw, 12);
    assert Shl(high, 12) == 4096 * high by { ShiftsAreProducts(high); }
    Split12(draw, high, And(draw, 0xFFF));
  }

  lemma {:induction false} Split62(x: nat, high: nat, low: nat)
    requires x == TWO_62 * high + low && low < TWO_62
    ensures x / TWO_62 == high && x % TWO_62 == low
  {
  }

  lemma {:induction false} Mask62IsRemainder(draw: nat)
    ensures And(draw, 0x3FFF_FFFF_FFFF_FFFF) == draw % TWO_62
  {
    assert Shl(1, 62) == TWO_62 by { ShiftsAreProducts(1); }
    AndSplitsLowBits(draw, 62);
    var high := Shr(draw, 62);
    assert Shl(high, 62) == TWO_62 * high by { ShiftsAreProducts(high); }
    Split62(draw, high, And(draw, 0x3FFF_FFFF_FFFF_FFFF));
  }

  // Quotient and remainder by each width of the layout.

  lemma {:induction false} Split64(x: nat, high: nat, low: nat)
    requires x == TWO_64 * high + low && low < TWO_64
    ensures x / TWO_64 == high
  {
  }

  lemma {:induction false} Split76(x: nat, high: nat, low: nat)
    requires x == TWO_76 * high + low && low < TWO_76
    ensures x / TWO_76 == high
  {
  }

  lemma {:induction false} Split80(x: nat, high: nat, low: nat)
    requires x == TWO_80 * high + low && low < TWO_80
    ensures x / TWO_80 == high
  {
  }

  // ---------- Packing ----------

  lemma {:induction false} OrAt80(ts: nat, version: nat)
    requires version < 16
    ensures Or(Shl(ts, 80), Shl(version, 76)) == Shl(16 * ts + version, 76)
  {
    ShiftsAreProducts(1);
    ShiftsAreProducts(version);
    ShiftsAreProducts(ts);
    ShiftsAreProducts(16 * ts + version);
    OrOfDisjoint(ts, Shl(version, 76), 80);
  }

  lemma {:induction false} OrAt76(v: nat, a: nat)
    requires a < 4096
    ensures Or(Shl(v, 76), Shl(a, 64)) == Shl(4096 * v + a, 64)
  {
    ShiftsAreProducts(1);
    ShiftsAreProducts(a);
    ShiftsAreProducts(v);
    ShiftsAreProducts(4096 * v + a);
    OrOfDisjoint(v, Shl(a, 64), 76);
  }

  lemma {:induction false} UpperOrsAddFields(ts: nat, version: nat, a: nat)
    requires version < 16 && a < 4096
    ensures Or(Or(Shl(ts, 80), Shl(version, 76)), Shl(a, 64)) == Shl(4096 * (16 * ts + version) + a, 64)
  {
    OrAt80(ts, version);
    OrAt76(16 * ts + version, a);
  }

  lemma {:induction false} OrAt64(v: nat, variant: nat)
    requires variant < 4
    ensures Or(Shl(v, 64), Shl(variant, 62)) == Shl(4 * v + variant, 62)
  {
    ShiftsAreProducts(1);
    ShiftsAreProducts(variant);
    ShiftsAreProducts(v);
    ShiftsAreProducts(4 * v + variant);
    OrOfDisjoint(v, Shl(variant, 62), 64);
  }

  lemma {:induction false} OrAt62(v: nat, b: nat)
    requires b < TWO_62
    ensures Or(Shl(v, 62), b) == TWO_62 * v + b
  {
    ShiftsAreProducts(1);
    ShiftsAreProducts(v);
    OrOfDisjoint(v, b, 62);
  }

  lemma {:induction false} LowerOrsAddFields(v: nat, variant: nat, b: nat)
    requires variant < 4 && b < TWO_62
    ensures Or(Or(Shl(v, 64), Shl(variant, 62)), b) == TWO_62 * (4 * v + variant) + b
  {
    OrAt64(v, variant);
    OrAt62(4 * v + variant, b);
  }

  /** Each or of the packing adds one more field below those already there. */
  lemma {:induction false} OrsAddFields(ts: nat, version: nat, a: nat, variant: nat, b: nat)
    requires version < 16 && a < 4096 && variant < 4 && b < TWO_62
    ensures Or(Or(Or(Or(Shl(ts, 80), Shl(version, 76)), Shl(a, 64)), Shl(variant, 62)), b)
            == TWO_62 * (4 * (4096 * (16 * ts + version) + a) + variant) + b
  {
    UpperOrsAddFields(ts, version, a);
    LowerOrsAddFields(4096 * (16 * ts + version) + a, variant, b);
  }

  lemma {:induction false} FieldsNest(ts: nat, a: nat)
    ensures TWO_62 * (4 * (4096 * (16 * ts + 7) + a) + 2) == TWO_80 * ts + TWO_76 * 7 + TWO_64 * a + TWO_62 * 2
  {
  }

  /** The packed value is the sum of its fields, each in its place. */
  lemma {:induction false} PackIsSum(ts: nat, draw16: nat, draw64: nat)
    ensures Pack(ts, draw16, draw64) ==
            0x1_0000_0000_0000_0000_0000 * ts + 0x1000_0000_0000_0000_0000 * 7
            + 0x1_0000_0000_0000_0000 * (draw16 % 4096) + 0x4000_0000_0000_0000 * 2 + draw64 % 0x4000_0000_0000_0000
  {
    Mask12IsRemainder(draw16);
    Mask62IsRemainder(draw64);
    OrsAddFields(ts, 7, draw16 % 4096, 2, draw64 % TWO_62);
    FieldsNest(ts, draw16 % 4096);
  }

  /** Taking a sum of fields apart, each field being below its width. */
  lemma {:induction false} UnpackSum(value: nat, ts: nat, a: nat, b: nat)
    requires a < 4096 && b < TWO_62
    requires value == TWO_80 * ts + TWO_76 * 7 + TWO_64 * a + TWO_62 * 2 + b
    ensures Unpack(value) == Fields(ts, 7, a, 2, b)
  {
    var v76 := 16 * ts + 7;
    var v64 := 4096 * v76 + a;
    var v62 := 4 * v64 + 2;
    Split62(value, v62, b);
    Split64(value, v64, TWO_62 * 2 + b);
    Split76(value, v76, TWO_64 * a + TWO_62 * 2 + b);
    Split80(value, ts, TWO_76 * 7 + TWO_64 * a + TWO_62 * 2 + b);
    Split12(v64, v76, a);
  }

  /** Unpacking gives back the timestamp, version 7, the low 12 bits of the first draw, variant 10b
      and the low 62 bits of the second. */
  lemma {:induction false} UnpackInvertsPack(ts: nat, draw16: nat, draw64: nat)
    ensures Unpack(Pack(ts, draw16, draw64)) == Fields(ts, 7, draw16 % 4096, 2, draw64 % 0x4000_0000_0000_0000)
  {
    PackIsSum(ts, draw16, draw64);
    UnpackSum(Pack(ts, draw16, draw64), ts, draw16 % 4096, draw64 % TWO_62);
  }

  /** A UUID is produced exactly for timestamps below 2^48 milliseconds. */
  lemma {:induction false} GeneratesIffTimestampFits(ts: nat, draw16: nat, draw64: nat)
    ensures Generate(ts, draw16, draw64).Some? <==> ts < 0x1_0000_0000_0000
  {
    PackIsSum(ts, draw16, draw64);
  }

  /** Two packed values are equal only if timestamp and the random bits used are. */
  lemma {:induction false} PackIsInjective(ts: nat, a: nat, b: nat, ts': nat, a': nat, b': nat)
    ensures Pack(ts, a, b) == Pack(ts', a', b') <==>
            ts == ts' && a % 4096 == a' % 4096 && b % 0x4000_0000_0000_0000 == b' % 0x4000_0000_0000_0000
  {
    UnpackInvertsPack(ts, a, b);
    UnpackInvertsPack(ts', a', b');
    PackIsSum(ts, a, b);
    PackIsSum(ts', a', b');
  }

  // ---------- Order ----------

  /** The number that bytes stand for, most significant first. */
  function FromBytes(bytes: seq<nat>): nat {
    if bytes == [] then 0 else 256 * FromBytes(bytes[..|bytes| - 1]) + bytes[|bytes| - 1]
  }

  /** The bytes of a value that fits are bytes and stand for it. */
  lemma {:induction false} BytesStandForValue(x: nat, n: nat)
    requires x < Capacity(n)
    ensures FromBytes(BigEndian(x, n)) == x && forall i :: 0 <= i < n ==> BigEndian(x, n)[i] < 256
  {
    if n > 0 {
      BytesStandForValue(x / 256, n - 1);
      assert BigEndian(x, n)[..n - 1] == BigEndian(x / 256, n - 1);
    }
  }

  lemma {:induction false} LexOfAppend(a: seq<nat>, b: seq<nat>, x: nat, y: nat)
    requires |a| == |b|
    ensures LexLess(a + [x], b + [y]) <==> LexLess(a, b) || (a == b && x < y)
  {
    if a == [] {
      assert a + [x] == [x] && b + [y] == [y] && !LexLess([x][1..], [y][1..]);
    } else {
      assert (a + [x])[1..] == a[1..] + [x] && (b + [y])[1..] == b[1..] + [y];
      LexOfAppend(a[1..], b[1..], x, y);
      assert a == [a[0]] + a[1..] && b == [b[0]] + b[1..];
    }
  }

  /** Big-endian bytes compare as the values do. */
  lemma {:induction false} BytesFollowValues(x: nat, y: nat, n: nat)
    requires x < Capacity(n) && y < Capacity(n)
    ensures LexLess(BigEndian(x, n), BigEndian(y, n)) <==> x < y
    ensures BigEndian(x, n) == BigEndian(y, n) <==> x == y
  {
    if n > 0 {
      var xs, ys := BigEndian(x / 256, n - 1), BigEndian(y / 256, n - 1);
      BytesFollowValues(x / 256, y / 256, n - 1);
      LexOfAppend(xs, ys, x % 256, y % 256);
      assert BigEndian(x, n)[..n - 1] == xs && BigEndian(y, n)[..n - 1] == ys;
      assert BigEndian(x, n)[n - 1] == x % 256 && BigEndian(y, n)[n - 1] == y % 256;
    }
  }

  /** The sixteen bytes of UUIDs made at different milliseconds sort by time. */
  lemma {:induction false} BytesSortByTime(ts: nat, a: nat, b: nat, ts': nat, a': nat, b': nat)
    requires ts < ts' < 0x1_0000_0000_0000
    ensures Generate(ts, a, b).Some? && Generate(ts', a', b').Some?
    ensures LexLess(BigEndian(Generate(ts, a, b).value, 16), BigEndian(Generate(ts', a', b').value, 16))
  {
    PackIsSum(ts, a, b);
    PackIsSum(ts', a', b');
    assert Capacity(2) == 65536;
    assert Capacity(4) == 0x1_0000_0000;
    assert Capacity(6) == TWO_48;
    assert Capacity(8) == TWO_64;
    assert Capacity(10) == TWO_80;
    assert Capacity(12) == 0x1_0000 * TWO_80;
    assert Capacity(14) == 0x1_0000_0000 * TWO_80;
    assert Capacity(16) == TWO_128;
    BytesFollowValues(Pack(ts, a, b), Pack(ts', a', b'), 16);
  }
}
