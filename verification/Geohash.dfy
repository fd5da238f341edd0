/**
 * Geohash encoding (src/shared/geo.ts, geohashEncode). The bisection is proved equal to the base-32
 * spelling of a closed-form grid cell. Coordinates are exact reals; any real is encoded, as the source
 * does not check ranges.
 */
module Geohash {

  const BASE32 := "0123456789bcdefghjkmnpqrstuvwxyz"

  function Pow2(n: nat): (p: nat)
    ensures 0 < p
  {
    if n == 0 then 1 else 2 * Pow2(n - 1)
  }

  // ---------------------------------------------------------------- the grid

  function Share(x: real, lo: real, width: real): real
    requires 0.0 < width
  {
    (x - lo) / width
  }

  /** The column of x when [lo, lo + width) is cut into 2^n equal ones; beyond either end, the last column there. */
  function Cell(x: real, lo: real, width: real, n: nat): (i: nat)
    requires 0.0 < width
    ensures i < Pow2(n)
  {
    Clamped(Scaled(Share(x, lo, width), Pow2(n)).Floor, Pow2(n))
  }

  function Scaled(u: real, p: nat): real {
    u * p as real
  }

  function Clamped(f: int, p: nat): (i: nat)
    requires 0 < p
    ensures i < p
  {
    if f < 0 then 0 else if f >= p then p - 1 else f
  }

  /** The lower edge of column i of 2^n. */
  function Edge(lo: real, width: real, i: int, n: nat): real {
    Point(lo, width, i as real, Pow2(n) as real)
  }

  function Point(lo: real, width: real, q: real, p: real): real
    requires p != 0.0
  {
    lo + width * q / p
  }

  function LngCell(lng: real, n: nat): nat { Cell(lng, -180.0, 360.0, n) }

  function LatCell(lat: real, n: nat): nat { Cell(lat, -90.0, 180.0, n) }

  function LngBits(precision: nat): nat { (5 * precision + 1) / 2 }

  function LatBits(precision: nat): nat { 5 * precision / 2 }

  // ---------------------------------------------------------------- spelling a cell

  /** Bit i of an n-bit index, counted from the top. */
  function BitOf(index: nat, n: nat, i: nat): nat
    requires i < n
  {
    index / Pow2(n - 1 - i) % 2
  }

  /** Bit k of the two indices interleaved, longitude first. */
  function Interleaved(x: nat, y: nat, precision: nat, k: nat): (b: nat)
    requires k < 5 * precision
    ensures b < 2
  {
    if k % 2 == 0 then BitOf(x, LngBits(precision), k / 2) else BitOf(y, LatBits(precision), k / 2)
  }

  function FromBits(a: nat, b: nat, c: nat, d: nat, e: nat): nat {
    16 * a + 8 * b + 4 * c + 2 * d + e
  }

  function CharValue(x: nat, y: nat, precision: nat, c: nat): (v: nat)
    requires c < precision
    ensures v < 32
  {
    FromBits(Interleaved(x, y, precision, 5 * c), Interleaved(x, y, precision, 5 * c + 1),
             Interleaved(x, y, precision, 5 * c + 2), Interleaved(x, y, precision, 5 * c + 3),
             Interleaved(x, y, precision, 5 * c + 4))
  }

  function Spelled(x: nat, y: nat, precision: nat): (s: string)
    ensures |s| == precision
    ensures forall c :: 0 <= c < precision ==> s[c] == BASE32[CharValue(x, y, precision, c)]
  {
    seq(precision, c requires 0 <= c < precision => BASE32[CharValue(x, y, precision, c)])
  }

  function GeohashOf(lng: real, lat: real, precision: int): string {
    if precision <= 0 then ""
    else Spelled(LngCell(lng, LngBits(precision)), LatCell(lat, LatBits(precision)), precision)
  }

  // ---------------------------------------------------------------- halving

  lemma EdgeCompare(x: real, lo: real, width: real, q: real, p: real)
    requires 0.0 < width && 0.0 < p
    ensures x >= Point(lo, width, q, p) <==> Share(x, lo, width) * p >= q
  {
    var u := Share(x, lo, width);
    assert u * width == x - lo;
    var r := q / p;
    assert r * p == q;
    assert width * q / p == width * r;
    if u >= r {
      ProductOrder(u - r, width);
      ProductOrder(u - r, p);
    } else {
      ProductStrict(r - u, width);
      ProductStrict(r - u, p);
    }
  }

  lemma ProductOrder(a: real, b: real)
    requires 0.0 <= a && 0.0 < b
    ensures 0.0 <= a * b
  {
  }

  lemma ProductStrict(a: real, b: real)
    requires 0.0 < a && 0.0 < b
    ensures 0.0 < a * b
  {
  }

  lemma HalfOverHalf(w: real, q: real, p: real)
    requires 0.0 < p
    ensures w * (2.0 * q) / (2.0 * p) == w * q / p
  {
    var r, s := w * q / p, w * (2.0 * q) / (2.0 * p);
    assert r * p == w * q;
    assert s * (2.0 * p) == w * (2.0 * q);
    assert (s - r) * p == 0.0;
    if s != r {
      ProductStrict(if s > r then s - r else r - s, p);
    }
  }

  lemma EdgeHalves(lo: real, width: real, i: int, n: nat)
    ensures Edge(lo, width, i, n) == Edge(lo, width, 2 * i, n + 1)
  {
    var q, p := i as real, Pow2(n) as real;
    HalfOverHalf(width, q, p);
    assert Pow2(n + 1) == 2 * Pow2(n);
    assert (2 * i) as real == 2.0 * q && Pow2(n + 1) as real == 2.0 * p;
    assert Edge(lo, width, 2 * i, n + 1) == Point(lo, width, 2.0 * q, 2.0 * p);
  }

  lemma SumOfQuotients(w: real, q: real, p: real)
    requires 0.0 < p
    ensures w * (q - 1.0) / p + w * (q + 1.0) / p == 2.0 * (w * q / p)
  {
    var a, b, c := w * (q - 1.0) / p, w * (q + 1.0) / p, w * q / p;
    assert a * p == w * (q - 1.0) && b * p == w * (q + 1.0) && c * p == w * q;
    assert (a + b - 2.0 * c) * p == 0.0;
    var d := a + b - 2.0 * c;
    if d != 0.0 {
      ProductStrict(if d > 0.0 then d else -d, p);
    }
  }

  lemma MidEdge(lo: real, width: real, i: int, n: nat)
    ensures (Edge(lo, width, i, n) + Edge(lo, width, i + 1, n)) / 2.0 == Edge(lo, width, 2 * i + 1, n + 1)
  {
    EdgeHalves(lo, width, i, n);
    EdgeHalves(lo, width, i + 1, n);
    SumOfQuotients(width, (2 * i + 1) as real, Pow2(n + 1) as real);
    assert (2 * i + 1) as real - 1.0 == (2 * i) as real && (2 * i + 1) as real + 1.0 == (2 * (i + 1)) as real;
  }

  lemma FloorHalves(t: real, p: nat)
    requires 0 < p
    ensures var i := Clamped(t.Floor, p);
      Clamped((2.0 * t).Floor, 2 * p) == 2 * i + if 2.0 * t >= (2 * i + 1) as real then 1 else 0
  {
    assert t.Floor as real <= t < (t.Floor + 1) as real;
    assert (2.0 * t).Floor == 2 * t.Floor || (2.0 * t).Floor == 2 * t.Floor + 1;
  }

  /** One bisection step finds the next bit of the column. */
  lemma CellHalves(x: real, lo: real, width: real, n: nat)
    requires 0.0 < width
    ensures var i := Cell(x, lo, width, n);
      Cell(x, lo, width, n + 1) == 2 * i + if x >= Edge(lo, width, 2 * i + 1, n + 1) then 1 else 0
  {
    var i, u, p := Cell(x, lo, width, n), Share(x, lo, width), Pow2(n);
    assert Pow2(n + 1) == 2 * p;
    EdgeCompare(x, lo, width, (2 * i + 1) as real, (2 * p) as real);
    FloorHalves(Scaled(u, p), p);
    Doubled(u, p);
    assert x >= Edge(lo, width, 2 * i + 1, n + 1) <==> Scaled(u, 2 * p) >= (2 * i + 1) as real;
    assert Cell(x, lo, width, n + 1) == Clamped(Scaled(u, 2 * p).Floor, 2 * p);
  }

  lemma Doubled(u: real, p: nat)
    ensures Scaled(u, 2 * p) == 2.0 * Scaled(u, p)
  {
    assert (2 * p) as real == 2.0 * p as real;
  }

  // ---------------------------------------------------------------- bisection, step by step

  datatype Interval = Interval(min: real, max: real) {
    function Mid(): real { (min + max) / 2.0 }

    function Half(x: real): Interval {
      if x >= Mid() then Interval(Mid(), max) else Interval(min, Mid())
    }
  }

  /** The interval left after halving [lo, hi] n times towards x; x at the middle goes up. */
  function Bisect(x: real, lo: real, hi: real, n: nat): Interval {
    if n == 0 then Interval(lo, hi) else Bisect(x, lo, hi, n - 1).Half(x)
  }

  lemma BisectNext(x: real, lo: real, hi: real, n: nat)
    ensures Bisect(x, lo, hi, n + 1) == Bisect(x, lo, hi, n).Half(x)
  {
  }

  /** Which half was taken in halving number n. */
  function Side(x: real, lo: real, hi: real, n: nat): (b: nat)
    ensures b < 2
  {
    if x >= Bisect(x, lo, hi, n).Mid() then 1 else 0
  }

  /** Bit k of the encoding: longitude and latitude take turns. */
  function Bit(lng: real, lat: real, k: nat): (b: nat)
    ensures b < 2
  {
    if k % 2 == 0 then Side(lng, -180.0, 180.0, k / 2) else Side(lat, -90.0, 90.0, k / 2)
  }

  /** `bits` bits from number `from` on, read as a number. */
  function Accumulated(lng: real, lat: real, from: nat, bits: nat): nat {
    if bits == 0 then 0 else 2 * Accumulated(lng, lat, from, bits - 1) + Bit(lng, lat, from + bits - 1)
  }

  lemma AccumulatedNext(lng: real, lat: real, from: nat, bits: nat)
    ensures Accumulated(lng, lat, from, 0) == 0
    ensures Accumulated(lng, lat, from, bits + 1) == 2 * Accumulated(lng, lat, from, bits) + Bit(lng, lat, from + bits)
  {
  }

  lemma FiveBits(lng: real, lat: real, from: nat, b0: nat, b1: nat, b2: nat, b3: nat, b4: nat)
    requires b0 == Bit(lng, lat, from) && b1 == Bit(lng, lat, from + 1) && b2 == Bit(lng, lat, from + 2)
    requires b3 == Bit(lng, lat, from + 3) && b4 == Bit(lng, lat, from + 4)
    ensures Accumulated(lng, lat, from, 5) == FromBits(b0, b1, b2, b3, b4)
  {
    AccumulatedNext(lng, lat, from, 0);
    AccumulatedNext(lng, lat, from, 1);
    AccumulatedNext(lng, lat, from, 2);
    AccumulatedNext(lng, lat, from, 3);
    AccumulatedNext(lng, lat, from, 4);
  }

  lemma {:induction false} FiveBitsSmall(lng: real, lat: real, from: nat)
    ensures Accumulated(lng, lat, from, 5) < 32
  {
    FiveBits(lng, lat, from, Bit(lng, lat, from), Bit(lng, lat, from + 1), Bit(lng, lat, from + 2),
             Bit(lng, lat, from + 3), Bit(lng, lat, from + 4));
  }

  /** n characters of five bits each. */
  function Bisected(lng: real, lat: real, n: nat): (s: string)
    ensures |s| == n
  {
    if n == 0 then ""
    else
      FiveBitsSmall(lng, lat, 5 * (n - 1));
      Bisected(lng, lat, n - 1) + [BASE32[Accumulated(lng, lat, 5 * (n - 1), 5)]]
  }

  /** The bit after a longitude and b latitude bits. */
  lemma NextBit(lng: real, lat: real, a: nat, b: nat, from: nat, bits: nat)
    requires a + b == from + bits && (a == b || a == b + 1)
    ensures Accumulated(lng, lat, from, bits + 1)
         == 2 * Accumulated(lng, lat, from, bits) + if a == b then Side(lng, -180.0, 180.0, a) else Side(lat, -90.0, 90.0, b)
  {
    Doubles(b);
    AccumulatedNext(lng, lat, from, bits);
    assert from + bits == if a == b then b + b else b + 1 + b;
  }

  lemma NextChar(lng: real, lat: real, n: nat, from: nat, bits: nat, bit: nat)
    requires from == 5 * n && bits == 5 && bit == Accumulated(lng, lat, from, bits)
    ensures bit < 32 && Bisected(lng, lat, n + 1) == Bisected(lng, lat, n) + [BASE32[bit]]
  {
    FiveBitsSmall(lng, lat, 5 * n);
  }

  lemma Doubles(a: nat)
    ensures (a + a) % 2 == 0 && (a + a) / 2 == a && (a + 1 + a) % 2 == 1 && (a + 1 + a) / 2 == a
  {
  }

  /** One halving: the half that x is in, and its bounds. */
  method Halve(x: real, min: real, max: real, ghost lo: real, ghost hi: real, ghost n: nat)
    returns (upper: nat, newMin: real, newMax: real)
    requires Interval(min, max) == Bisect(x, lo, hi, n)
    ensures upper == Side(x, lo, hi, n) && Interval(newMin, newMax) == Bisect(x, lo, hi, n + 1)
  {
    BisectNext(x, lo, hi, n);
    var mid := (min + max) / 2.0;
    if x >= mid {
      return 1, mid, max;
    }
    return 0, min, mid;
  }

  method GeohashEncode(lng: real, lat: real, precision: int) returns (hash: string)
    ensures hash == GeohashOf(lng, lat, precision)
  {
    var latMin, latMax := -90.0, 90.0;
    var lngMin, lngMax := -180.0, 180.0;
    var bits, bit, even := 0, 0, true;
    hash := "";
    ghost var a, b, from := 0, 0, 0;
    while |hash| < precision
      invariant |hash| <= precision || hash == ""
      invariant from == 5 * |hash| && a + b == from + bits && 0 <= bits < 5 && a == if even then b else b + 1
      invariant Interval(lngMin, lngMax) == Bisect(lng, -180.0, 180.0, a) && Interval(latMin, latMax) == Bisect(lat, -90.0, 90.0, b)
      invariant bit == Accumulated(lng, lat, from, bits)
      invariant hash == Bisected(lng, lat, |hash|)
      decreases 5 * (precision - |hash|) - bits
    {
      NextBit(lng, lat, a, b, from, bits);
      var upper;
      if even {
        upper, lngMin, lngMax := Halve(lng, lngMin, lngMax, -180.0, 180.0, a);
        a := a + 1;
      } else {
        upper, latMin, latMax := Halve(lat, latMin, latMax, -90.0, 90.0, b);
        b := b + 1;
      }
      bit := 2 * bit + upper;
      assert bit == Accumulated(lng, lat, from, bits + 1);
      even := !even;
      bits := bits + 1;
      if bits == 5 {
        NextChar(lng, lat, |hash|, from, bits, bit);
        hash := hash + [BASE32[bit]];
        bits, bit := 0, 0;
        from := from + 5;
      }
    }
    BisectedIsGeohash(lng, lat, precision, hash);
  }

  // ---------------------------------------------------------------- bisection finds the cell

  lemma {:induction false} CellNests(x: real, lo: real, width: real, n: nat, m: nat)
    requires 0.0 < width
    ensures Cell(x, lo, width, n + m) / Pow2(m) == Cell(x, lo, width, n)
  {
    if m > 0 {
      CellHalves(x, lo, width, n + m - 1);
      CellNests(x, lo, width, n, m - 1);
      var i, j := Cell(x, lo, width, n + m - 1), Cell(x, lo, width, n + m);
      assert j / 2 == i;
      DivTwice(j, 2, Pow2(m - 1));
    }
  }

  lemma DivTwice(a: nat, b: nat, c: nat)
    requires 0 < b && 0 < c
    ensures 0 < b * c && a / (b * c) == a / b / c
  {
    PositiveProduct(b, c);
    var q, r := a / b / c, a / b % c;
    Remainder(a / b, c);
    Remainder(a, b);
    SmallRest(r, b, c, a % b);
    assert a == (q * c + r) * b + a % b;
    assert (q * c + r) * b == q * (b * c) + r * b;
    QuotientIs(a, b * c, q, r * b + a % b);
  }

  lemma PositiveProduct(b: nat, c: nat)
    requires 0 < b && 0 < c
    ensures 0 < b * c
  {
  }

  lemma Remainder(a: nat, d: nat)
    requires 0 < d
    ensures 0 <= a / d && a == a / d * d + a % d && 0 <= a % d < d
  {
  }

  lemma SmallRest(r: nat, b: nat, c: nat, s: nat)
    requires r < c && s < b
    ensures r * b + s < b * c
  {
    assert (c - 1 - r) * b >= 0;
    assert (c - 1 - r) * b == c * b - b - r * b;
  }

  lemma QuotientIs(a: nat, d: nat, q: nat, r: nat)
    requires a == q * d + r && r < d
    ensures a / d == q
  {
    Remainder(a, d);
    SameMultiple(a / d, q, d, a % d, r);
  }

  lemma SameMultiple(p: int, q: int, d: nat, r: nat, s: nat)
    requires p * d + r == q * d + s && r < d && s < d
    ensures p == q
  {
    assert (p - q) * d == s - r;
    BetweenMultiples(p - q, d);
  }

  lemma BetweenMultiples(m: int, d: nat)
    requires -(d as int) < m * d < d
    ensures m == 0
  {
    if m >= 1 {
      PositiveProductInt(m, d);
    } else if m <= -1 {
      PositiveProductInt(-m, d);
    }
  }

  lemma PositiveProductInt(m: int, d: nat)
    requires 1 <= m
    ensures d <= m * d
  {
  }

  /** After n halvings the interval is column Cell(n), and the half taken next is the lowest bit of Cell(n + 1). */
  lemma BisectFindsCell(x: real, lo: real, width: real, n: nat)
    requires 0.0 < width
    ensures var i := Cell(x, lo, width, n);
      Bisect(x, lo, lo + width, n) == Interval(Edge(lo, width, i, n), Edge(lo, width, i + 1, n))
    ensures Side(x, lo, lo + width, n) == Cell(x, lo, width, n + 1) % 2
  {
    if n > 0 {
      BisectFindsCell(x, lo, width, n - 1);
      BoundsHalve(x, lo, width, n - 1);
    }
    BoundsHalve(x, lo, width, n);
  }

  lemma BoundsHalve(x: real, lo: real, width: real, n: nat)
    requires 0.0 < width
    ensures var i, j := Cell(x, lo, width, n), Cell(x, lo, width, n + 1);
      var column := Interval(Edge(lo, width, i, n), Edge(lo, width, i + 1, n));
      && column.Half(x) == Interval(Edge(lo, width, j, n + 1), Edge(lo, width, j + 1, n + 1))
      && j % 2 == if x >= column.Mid() then 1 else 0
  {
    var i := Cell(x, lo, width, n);
    MidEdge(lo, width, i, n);
    EdgeHalves(lo, width, i, n);
    EdgeHalves(lo, width, i + 1, n);
    CellHalves(x, lo, width, n);
  }

  lemma InterleavedIsBit(lng: real, lat: real, precision: nat, k: nat)
    requires k < 5 * precision
    ensures Interleaved(LngCell(lng, LngBits(precision)), LatCell(lat, LatBits(precision)), precision, k) == Bit(lng, lat, k)
  {
    var i := k / 2;
    if k % 2 == 0 {
      BisectFindsCell(lng, -180.0, 360.0, i);
      CellNests(lng, -180.0, 360.0, i + 1, LngBits(precision) - 1 - i);
    } else {
      BisectFindsCell(lat, -90.0, 180.0, i);
      CellNests(lat, -90.0, 180.0, i + 1, LatBits(precision) - 1 - i);
    }
  }

  lemma {:induction false} CharIsAccumulated(lng: real, lat: real, precision: nat, c: nat)
    requires c < precision
    ensures Accumulated(lng, lat, 5 * c, 5)
         == CharValue(LngCell(lng, LngBits(precision)), LatCell(lat, LatBits(precision)), precision, c)
  {
    var from, x, y := 5 * c, LngCell(lng, LngBits(precision)), LatCell(lat, LatBits(precision));
    var b0 := InterleavedIs(lng, lat, x, y, precision, from);
    var b1 := InterleavedIs(lng, lat, x, y, precision, from + 1);
    var b2 := InterleavedIs(lng, lat, x, y, precision, from + 2);
    var b3 := InterleavedIs(lng, lat, x, y, precision, from + 3);
    var b4 := InterleavedIs(lng, lat, x, y, precision, from + 4);
    CharOfBits(x, y, precision, c, b0, b1, b2, b3, b4);
    FiveBits(lng, lat, from, b0, b1, b2, b3, b4);
  }

  lemma InterleavedIs(lng: real, lat: real, x: nat, y: nat, precision: nat, k: nat) returns (b: nat)
    requires k < 5 * precision && x == LngCell(lng, LngBits(precision)) && y == LatCell(lat, LatBits(precision))
    ensures b == Bit(lng, lat, k) == Interleaved(x, y, precision, k)
  {
    b := Bit(lng, lat, k);
    InterleavedIsBit(lng, lat, precision, k);
  }

  lemma CharOfBits(x: nat, y: nat, precision: nat, c: nat, b0: nat, b1: nat, b2: nat, b3: nat, b4: nat)
    requires c < precision
    requires b0 == Interleaved(x, y, precision, 5 * c) && b1 == Interleaved(x, y, precision, 5 * c + 1)
    requires b2 == Interleaved(x, y, precision, 5 * c + 2) && b3 == Interleaved(x, y, precision, 5 * c + 3)
    requires b4 == Interleaved(x, y, precision, 5 * c + 4)
    ensures CharValue(x, y, precision, c) == FromBits(b0, b1, b2, b3, b4)
  {
  }

  lemma {:induction false} CharAt(lng: real, lat: real, precision: nat, c: nat)
    requires c < precision
    ensures |GeohashOf(lng, lat, precision)| == precision && Accumulated(lng, lat, 5 * c, 5) < 32
    ensures GeohashOf(lng, lat, precision)[c] == BASE32[Accumulated(lng, lat, 5 * c, 5)]
  {
    CharIsAccumulated(lng, lat, precision, c);
  }

  /** The bisection spells the cell, at any precision. */
  lemma {:induction false} BisectedPrefix(lng: real, lat: real, precision: nat, n: nat)
    requires n <= precision && 0 < precision
    ensures Bisected(lng, lat, n) == GeohashOf(lng, lat, precision)[..n]
  {
    if n > 0 {
      var m, hash := n - 1, GeohashOf(lng, lat, precision);
      BisectedPrefix(lng, lat, precision, m);
      CharAt(lng, lat, precision, m);
      NextChar(lng, lat, m, 5 * m, 5, Accumulated(lng, lat, 5 * m, 5));
      Extended(hash, m);
    }
  }

  lemma Extended(s: string, m: nat)
    requires m < |s|
    ensures s[..m] + [s[m]] == s[..m + 1]
  {
  }

  /** Once as many characters as asked for have been bisected, they are the geohash. */
  lemma {:induction false} BisectedIsGeohash(lng: real, lat: real, precision: int, hash: string)
    requires hash == Bisected(lng, lat, |hash|) && |hash| >= precision && (|hash| <= precision || hash == "")
    ensures hash == GeohashOf(lng, lat, precision)
  {
    if 0 < precision {
      BisectedPrefix(lng, lat, precision, precision);
    }
  }

  // ---------------------------------------------------------------- what the hash tells

  /** The final column contains the point: half open, but for the last one. */
  lemma {:induction false} CellContains(x: real, lo: real, width: real, n: nat)
    requires 0.0 < width && lo <= x <= lo + width
    ensures var i := Cell(x, lo, width, n);
      Edge(lo, width, i, n) <= x <= Edge(lo, width, i + 1, n)
      && (x == Edge(lo, width, i + 1, n) ==> x == lo + width && i + 1 == Pow2(n))
  {
    var i, p, u := Cell(x, lo, width, n), Pow2(n), Share(x, lo, width);
    EdgeReached(x, lo, width, i, n);
    EdgeReached(x, lo, width, i + 1, n);
    ShareInRange(x, lo, width);
    ScaledInRange(u, p);
    FloorContains(Scaled(u, p), p);
    TopEdge(lo, width, n);
  }

  lemma {:induction false} EdgeReached(x: real, lo: real, width: real, i: int, n: nat)
    requires 0.0 < width
    ensures x >= Edge(lo, width, i, n) <==> Scaled(Share(x, lo, width), Pow2(n)) >= i as real
  {
    EdgeCompare(x, lo, width, i as real, Pow2(n) as real);
  }

  lemma {:induction false} TopEdge(lo: real, width: real, n: nat)
    ensures Edge(lo, width, Pow2(n), n) == lo + width
  {
    LastEdge(width, Pow2(n) as real);
  }

  lemma ShareInRange(x: real, lo: real, width: real)
    requires 0.0 < width && lo <= x <= lo + width
    ensures 0.0 <= Share(x, lo, width) <= 1.0
    ensures Share(x, lo, width) == 1.0 <==> x == lo + width
  {
    ShareScaled(x, lo, width);
    QuotientInRange(Share(x, lo, width), width, x - lo);
  }

  lemma ShareScaled(x: real, lo: real, width: real)
    requires 0.0 < width
    ensures Share(x, lo, width) * width == x - lo
  {
  }

  lemma QuotientInRange(u: real, width: real, product: real)
    requires u * width == product && 0.0 <= product <= width && 0.0 < width
    ensures 0.0 <= u <= 1.0 && (u == 1.0 <==> product == width)
  {
    QuotientOrder(u, 0.0, width);
    QuotientOrder(u, 1.0, width);
  }

  lemma QuotientOrder(u: real, bound: real, width: real)
    requires 0.0 < width
    ensures u < bound ==> u * width < bound * width
    ensures u > bound ==> u * width > bound * width
  {
    if u < bound {
      ProductStrict(bound - u, width);
    } else if u > bound {
      ProductStrict(u - bound, width);
    }
  }

  lemma ScaledInRange(u: real, p: nat)
    requires 0.0 <= u <= 1.0 && 0 < p
    ensures 0.0 <= Scaled(u, p) <= p as real && (Scaled(u, p) == p as real <==> u == 1.0)
  {
    ProductOrder(u, p as real);
    if u < 1.0 {
      ProductStrict(1.0 - u, p as real);
    }
  }

  lemma LastEdge(width: real, p: real)
    requires 0.0 < p
    ensures width * p / p == width
  {
  }

  lemma FloorContains(t: real, p: nat)
    requires 0.0 <= t <= p as real && 0 < p
    ensures var i := Clamped(t.Floor, p);
      i as real <= t <= (i + 1) as real && (t >= (i + 1) as real ==> t == p as real && i + 1 == p)
  {
    assert t.Floor as real <= t < (t.Floor + 1) as real;
  }

  lemma {:induction false} BitsDetermine(x: nat, y: nat, n: nat)
    requires x < Pow2(n) && y < Pow2(n)
    requires forall i :: 0 <= i < n ==> BitOf(x, n, i) == BitOf(y, n, i)
    ensures x == y
  {
    if n > 0 {
      var a, b, m := x / 2, y / 2, n - 1;
      forall i | 0 <= i < m ensures BitOf(a, m, i) == BitOf(b, m, i) {
        HalvedBit(x, n, i);
        HalvedBit(y, n, i);
        assert BitOf(x, n, i) == BitOf(y, n, i);
      }
      BitsDetermine(a, b, m);
      LastBit(x, n);
      LastBit(y, n);
    }
  }

  lemma LastBit(x: nat, n: nat)
    requires 0 < n
    ensures BitOf(x, n, n - 1) == x % 2
  {
    assert Pow2(0) == 1;
  }

  lemma HalvedBit(x: nat, n: nat, i: nat)
    requires i + 1 < n
    ensures BitOf(x / 2, n - 1, i) == BitOf(x, n, i)
  {
    assert Pow2(n - 1 - i) == 2 * Pow2(n - 2 - i);
    DivTwice(x, 2, Pow2(n - 2 - i));
  }

  function DigitOf(c: char): nat {
    if '0' <= c <= '9' then c as int - '0' as int
    else if 'b' <= c <= 'h' then c as int - 'b' as int + 10
    else if 'j' <= c <= 'k' then c as int - 'j' as int + 17
    else if 'm' <= c <= 'n' then c as int - 'm' as int + 19
    else if 'p' <= c <= 'z' then c as int - 'p' as int + 21
    else 0
  }

  lemma DigitInverts(v: nat)
    requires v < 32
    ensures DigitOf(BASE32[v]) == v
  {
  }

  lemma SameDigits(a4: nat, a3: nat, a2: nat, a1: nat, a0: nat, b4: nat, b3: nat, b2: nat, b1: nat, b0: nat)
    requires a4 < 2 && a3 < 2 && a2 < 2 && a1 < 2 && a0 < 2 && b4 < 2 && b3 < 2 && b2 < 2 && b1 < 2 && b0 < 2
    requires 16 * a4 + 8 * a3 + 4 * a2 + 2 * a1 + a0 == 16 * b4 + 8 * b3 + 4 * b2 + 2 * b1 + b0
    ensures a4 == b4 && a3 == b3 && a2 == b2 && a1 == b1 && a0 == b0
  {
  }

  lemma CharsGiveBits(x: nat, y: nat, x': nat, y': nat, precision: nat, c: nat)
    requires c < precision && Spelled(x, y, precision) == Spelled(x', y', precision)
    ensures forall k :: 5 * c <= k < 5 * c + 5 ==> Interleaved(x, y, precision, k) == Interleaved(x', y', precision, k)
  {
    assert Spelled(x, y, precision)[c] == Spelled(x', y', precision)[c];
    DigitInverts(CharValue(x, y, precision, c));
    DigitInverts(CharValue(x', y', precision, c));
    SameDigits(Interleaved(x, y, precision, 5 * c), Interleaved(x, y, precision, 5 * c + 1), Interleaved(x, y, precision, 5 * c + 2),
               Interleaved(x, y, precision, 5 * c + 3), Interleaved(x, y, precision, 5 * c + 4),
               Interleaved(x', y', precision, 5 * c), Interleaved(x', y', precision, 5 * c + 1), Interleaved(x', y', precision, 5 * c + 2),
               Interleaved(x', y', precision, 5 * c + 3), Interleaved(x', y', precision, 5 * c + 4));
  }

  /** The spelling of a cell names no other cell. */
  lemma SpellingIsInjective(x: nat, y: nat, x': nat, y': nat, precision: nat)
    requires x < Pow2(LngBits(precision)) && x' < Pow2(LngBits(precision))
    requires y < Pow2(LatBits(precision)) && y' < Pow2(LatBits(precision))
    requires Spelled(x, y, precision) == Spelled(x', y', precision)
    ensures x == x' && y == y'
  {
    forall c | 0 <= c < precision
      ensures forall k :: 5 * c <= k < 5 * c + 5 ==> Interleaved(x, y, precision, k) == Interleaved(x', y', precision, k)
    {
      CharsGiveBits(x, y, x', y', precision, c);
    }
    forall k | 0 <= k < 5 * precision ensures Interleaved(x, y, precision, k) == Interleaved(x', y', precision, k) {
      var c := k / 5;
      assert 5 * c <= k < 5 * c + 5;
    }
    InterleavingDetermines(x, y, x', y', precision);
  }

  lemma InterleavingDetermines(x: nat, y: nat, x': nat, y': nat, precision: nat)
    requires x < Pow2(LngBits(precision)) && x' < Pow2(LngBits(precision))
    requires y < Pow2(LatBits(precision)) && y' < Pow2(LatBits(precision))
    requires forall k :: 0 <= k < 5 * precision ==> Interleaved(x, y, precision, k) == Interleaved(x', y', precision, k)
    ensures x == x' && y == y'
  {
    var a, b := LngBits(precision), LatBits(precision);
    forall i | 0 <= i < a ensures BitOf(x, a, i) == BitOf(x', a, i) {
      var k := 2 * i;
      assert k / 2 == i && k % 2 == 0;
      assert Interleaved(x, y, precision, k) == Interleaved(x', y', precision, k);
    }
    forall i | 0 <= i < b ensures BitOf(y, b, i) == BitOf(y', b, i) {
      var k := 2 * i + 1;
      assert k / 2 == i && k % 2 == 1;
      assert Interleaved(x, y, precision, k) == Interleaved(x', y', precision, k);
    }
    BitsDetermine(x, x', a);
    BitsDetermine(y, y', b);
  }

  /** Two points share a hash exactly when they share a cell. */
  lemma SameHashIffSameCell(lng: real, lat: real, lng': real, lat': real, precision: nat)
    requires 0 < precision
    ensures GeohashOf(lng, lat, precision) == GeohashOf(lng', lat', precision) <==>
            (LngCell(lng, LngBits(precision)) == LngCell(lng', LngBits(precision))
             && LatCell(lat, LatBits(precision)) == LatCell(lat', LatBits(precision)))
  {
    var a, b := LngBits(precision), LatBits(precision);
    if GeohashOf(lng, lat, precision) == GeohashOf(lng', lat', precision) {
      SpellingIsInjective(LngCell(lng, a), LatCell(lat, b), LngCell(lng', a), LatCell(lat', b), precision);
    }
  }

  /** A coarser hash is a prefix of a finer one. */
  lemma CoarserIsPrefix(lng: real, lat: real, precision: nat, finer: nat)
    requires precision <= finer
    ensures GeohashOf(lng, lat, precision) <= GeohashOf(lng, lat, finer)
  {
    forall c | 0 <= c < precision ensures GeohashOf(lng, lat, precision)[c] == GeohashOf(lng, lat, finer)[c] {
      CharIsAccumulated(lng, lat, precision, c);
      CharIsAccumulated(lng, lat, finer, c);
    }
  }
}
