/**
 UUID version 7: 48 bits of milliseconds, a 12-bit counter, 62 random bits, printed in hexadecimal.

 The generator is a logical clock. Its last millisecond and counter, read as one number, is the
 stamp of the last id; each call takes the larger of the next stamp and the clock's own.
 */
module Uuid {

  type Byte = b: int | 0 <= b < 256

  const COUNTER_SPAN := 0x1000
  const TIME_SPAN := 0x1_0000_0000_0000
  const STAMP_SPAN := 0x1000_0000_0000_0000

  // ----- the generator -----

  datatype State = State(lastMs: nat, counter: nat)

  const Fresh := State(0, 0)

  predicate Ok(s: State) {
    s.counter < COUNTER_SPAN
  }

  function Stamp(s: State): nat {
    s.lastMs * COUNTER_SPAN + s.counter
  }

  /** The stamp of the next id. */
  function NextStamp(stamp: nat, clock: int): nat {
    if clock * COUNTER_SPAN > stamp then clock * COUNTER_SPAN else stamp + 1
  }

  function FromStamp(stamp: nat): State {
    State(stamp / COUNTER_SPAN, stamp % COUNTER_SPAN)
  }

  /** The stamp after the calls that read `clocks`. */
  function StampAfter(clocks: seq<int>): nat {
    if clocks == [] then 0 else NextStamp(StampAfter(clocks[..|clocks| - 1]), clocks[|clocks| - 1])
  }

  // ----- bytes -----

  /** The low `w` bytes of `n`, most significant first. */
  function BigEndian(n: nat, w: nat): (r: seq<Byte>)
    ensures |r| == w
  {
    if w == 0 then [] else BigEndian(n / 256, w - 1) + [n % 256]
  }

  function Tail(random: seq<Byte>): seq<Byte>
    requires |random| == 8
  {
    [0x80 + random[0] % 64] + random[1..]
  }

  /** The sixteen bytes: time, version and counter, variant and random bits. */
  function Layout(s: State, random: seq<Byte>): (r: seq<Byte>)
    requires Ok(s) && |random| == 8
    ensures |r| == 16
  {
    BigEndian(s.lastMs, 6) + [0x70 + s.counter / 256, s.counter % 256] + Tail(random)
  }

  // ----- text -----

  function Digit(n: int): (c: char)
    requires 0 <= n < 16
  {
    if n < 10 then (48 + n) as char else (87 + n) as char
  }

  function Hex(b: Byte): string {
    [Digit(b / 16), Digit(b % 16)]
  }

  function Dash(i: int): string {
    if i == 4 || i == 6 || i == 8 || i == 10 then "-" else ""
  }

  function Render(bytes: seq<Byte>): string {
    if bytes == [] then ""
    else
      var n := |bytes| - 1;
      Render(bytes[..n]) + Dash(n) + Hex(bytes[n])
  }

  function Id(s: State, random: seq<Byte>): string
    requires Ok(s) && |random| == 8
  {
    Render(Layout(s, random))
  }

  /** The order of strings, by code unit. */
  ghost predicate Less(s: string, t: string) {
    exists k: nat :: LessAt(s, t, k)
  }

  predicate LessAt(s: string, t: string, k: nat) {
    k <= |s| && k < |t| && s[..k] == t[..k] && (k == |s| || s[k] < t[k])
  }

  /** The id of call `i` when call `i` read `clocks[i]` and drew `draws[i]`. */
  function IdAt(clocks: seq<int>, draws: seq<seq<Byte>>, i: nat): string
    requires i < |clocks| == |draws| && forall k :: 0 <= k < |draws| ==> |draws[k]| == 8
  {
    Id(FromStamp(StampAfter(clocks[..i + 1])), draws[i])
  }

  // ----- stamps grow -----

  lemma {:induction false} StampsGrow(clocks: seq<int>, i: nat, j: nat)
    requires i < j <= |clocks|
    ensures StampAfter(clocks[..i]) < StampAfter(clocks[..j])
    decreases j
  {
    assert clocks[..j][..j - 1] == clocks[..j - 1];
    if i < j - 1 { StampsGrow(clocks, i, j - 1); }
  }

  /** The stamp outruns the latest clock reading by no more than one count per call. */
  lemma {:induction false} StampBound(clocks: seq<int>, latest: nat)
    requires forall k :: 0 <= k < |clocks| ==> clocks[k] <= latest
    ensures StampAfter(clocks) <= latest * COUNTER_SPAN + |clocks|
  {
    if clocks != [] { StampBound(clocks[..|clocks| - 1], latest); }
  }

  // ----- order of bytes and of text -----

  /** The two byte strings first differ at `k`, and there `a` is smaller. */
  predicate FirstLess(a: seq<Byte>, b: seq<Byte>, k: nat) {
    k < |a| && k < |b| && a[..k] == b[..k] && a[k] < b[k]
  }

  function Power256(w: nat): nat {
    if w == 0 then 1 else 256 * Power256(w - 1)
  }

  lemma {:induction false} BigEndianOrder(n: nat, m: nat, w: nat) returns (k: nat)
    requires n < m < Power256(w)
    ensures k < w && FirstLess(BigEndian(n, w), BigEndian(m, w), k)
  {
    if n / 256 < m / 256 {
      k := BigEndianOrder(n / 256, m / 256, w - 1);
      Extend(BigEndian(n / 256, w - 1), [n % 256], BigEndian(m / 256, w - 1), [m % 256], k);
    } else {
      k := w - 1;
    }
  }

  lemma Extend(a: seq<Byte>, x: seq<Byte>, b: seq<Byte>, y: seq<Byte>, k: nat)
    requires FirstLess(a, b, k)
    ensures FirstLess(a + x, b + y, k)
  {
    assert (a + x)[..k] == a[..k] && (b + y)[..k] == b[..k];
  }

  /** The byte of weight `d`. */
  function ByteAt(n: nat, d: nat): Byte
    requires d > 0
  {
    n / d % 256
  }

  lemma BytesOf(n: nat)
    ensures BigEndian(n, 6) == [ByteAt(n, 0x100_0000_0000), ByteAt(n, 0x1_0000_0000), ByteAt(n, 0x100_0000),
                                ByteAt(n, 0x1_0000), ByteAt(n, 0x100), ByteAt(n, 1)]
  {
    assert BigEndian(n / 0x1_0000_0000_0000, 0) == [];
    assert BigEndian(n / 0x100_0000_0000, 1) == [ByteAt(n, 0x100_0000_0000)];
    assert BigEndian(n / 0x1_0000_0000, 2) == [ByteAt(n, 0x100_0000_0000), ByteAt(n, 0x1_0000_0000)];
    assert BigEndian(n / 0x100_0000, 3) == [ByteAt(n, 0x100_0000_0000), ByteAt(n, 0x1_0000_0000), ByteAt(n, 0x100_0000)];
    assert BigEndian(n / 0x1_0000, 4)
      == [ByteAt(n, 0x100_0000_0000), ByteAt(n, 0x1_0000_0000), ByteAt(n, 0x100_0000), ByteAt(n, 0x1_0000)];
    assert BigEndian(n / 0x100, 5) == [ByteAt(n, 0x100_0000_0000), ByteAt(n, 0x1_0000_0000), ByteAt(n, 0x100_0000),
                                       ByteAt(n, 0x1_0000), ByteAt(n, 0x100)];
  }

  /** Only the low 48 bits of the time are written. */
  lemma BigEndianWraps(n: nat)
    ensures BigEndian(n, 6) == BigEndian(n % TIME_SPAN, 6)
  {
    BytesOf(n);
    BytesOf(n % TIME_SPAN);
    LowByte(n, 0x100_0000_0000, 1);
    LowByte(n, 0x1_0000_0000, 0x100);
    LowByte(n, 0x100_0000, 0x1_0000);
    LowByte(n, 0x1_0000, 0x100_0000);
    LowByte(n, 0x100, 0x1_0000_0000);
    LowByte(n, 1, 0x100_0000_0000);
  }

  /** A multiple of 2^48 adds nothing to the bytes of lower weight. */
  lemma LowByte(n: nat, d: nat, e: nat)
    requires d > 0 && e * 256 * d == TIME_SPAN
    ensures ByteAt(n, d) == ByteAt(n % TIME_SPAN, d)
  {
    var q := n / TIME_SPAN;
    Regroup(q, e, d);
    Shifted(q * e * 256, n % TIME_SPAN, d);
    MoreMultiples(q * e, n % TIME_SPAN / d);
  }

  lemma Regroup(q: nat, e: nat, d: nat)
    ensures q * (e * 256 * d) == q * e * 256 * d
  {
  }

  lemma MoreMultiples(x: nat, y: nat)
    ensures (x * 256 + y) % 256 == y % 256
  {
  }

  lemma Shifted(x: nat, r: nat, d: nat)
    requires d > 0
    ensures (x * d + r) / d == x + r / d
  {
    var z := (x * d + r) / d;
    var e := z - x - r / d;
    assert x * d + r == z * d + (x * d + r) % d;
    assert r == r / d * d + r % d;
    assert e * d == r % d - (x * d + r) % d;
    Multiples(e, d);
  }

  lemma Multiples(e: int, d: int)
    requires -d < e * d < d
    ensures e == 0
  {
    assert e >= 1 ==> (e - 1) * d >= 0;
    assert e <= -1 ==> (e + 1) * d <= 0;
  }

  /** Two texts that differ by their last bytes' digits keep the order of what stands before. */
  lemma RenderKeepsLess(p: string, q: string, dash: string, x: Byte, y: Byte)
    requires |p| == |q| && Less(p, q)
    ensures Less(p + dash + Hex(x), q + dash + Hex(y))
  {
    AppendKeepsLess(p, dash, q, dash);
    AppendKeepsLess(p + dash, Hex(x), q + dash, Hex(y));
  }

  lemma {:induction false} RenderLength(a: seq<Byte>, b: seq<Byte>)
    requires |a| == |b|
    ensures |Render(a)| == |Render(b)|
  {
    if a != [] { RenderLength(a[..|a| - 1], b[..|b| - 1]); }
  }

  lemma {:induction false} RenderOrder(a: seq<Byte>, b: seq<Byte>, k: nat)
    requires |a| == |b| && FirstLess(a, b, k)
    ensures Less(Render(a), Render(b))
  {
    var n := |a| - 1;
    if k < n {
      assert a[..n][..k] == a[..k] && b[..n][..k] == b[..k];
      RenderOrder(a[..n], b[..n], k);
      RenderLength(a[..n], b[..n]);
      RenderKeepsLess(Render(a[..n]), Render(b[..n]), Dash(n), a[n], b[n]);
    } else {
      assert a[..n] == b[..n];
      HexOrder(Render(a[..n]) + Dash(n), a[n], b[n]);
    }
  }

  lemma HexOrder(p: string, a: Byte, b: Byte)
    requires a < b
    ensures Less(p + Hex(a), p + Hex(b))
  {
    var k := if a / 16 < b / 16 then |p| else |p| + 1;
    assert LessAt(p + Hex(a), p + Hex(b), k);
  }

  lemma AppendKeepsLess(s: string, x: string, t: string, y: string)
    requires |s| == |t| && Less(s, t)
    ensures Less(s + x, t + y)
  {
    var k: nat :| LessAt(s, t, k);
    assert (s + x)[..k] == s[..k] && (t + y)[..k] == t[..k];
    assert LessAt(s + x, t + y, k);
  }

  // ----- main results -----

  lemma LowerStampLowerId(s: State, x: seq<Byte>, t: State, y: seq<Byte>)
    requires Ok(s) && Ok(t) && |x| == 8 && |y| == 8
    requires Stamp(s) % STAMP_SPAN < Stamp(t) % STAMP_SPAN
    ensures Less(Id(s, x), Id(t, y))
  {
    BigEndianWraps(s.lastMs);
    BigEndianWraps(t.lastMs);
    LowBits(s);
    LowBits(t);
    var n, m := s.lastMs % TIME_SPAN, t.lastMs % TIME_SPAN;
    var k;
    if n < m {
      assert Power256(6) == TIME_SPAN by { PowerOf6(); }
      k := BigEndianOrder(n, m, 6);
      Extend(BigEndian(n, 6), Layout(s, x)[6..], BigEndian(m, 6), Layout(t, y)[6..], k);
      assert Layout(s, x) == BigEndian(n, 6) + Layout(s, x)[6..];
      assert Layout(t, y) == BigEndian(m, 6) + Layout(t, y)[6..];
    } else {
      assert n == m && s.counter < t.counter;
      k := if s.counter / 256 < t.counter / 256 then 6 else 7;
      assert FirstLess(Layout(s, x), Layout(t, y), k);
    }
    RenderOrder(Layout(s, x), Layout(t, y), k);
  }

  lemma LessIsAsymmetric(s: string, t: string)
    requires Less(s, t)
    ensures !Less(t, s)
  {
    var k: nat :| LessAt(s, t, k);
    forall m: nat ensures !LessAt(t, s, m) { NotBoth(s, t, k, m); }
  }

  lemma NotBoth(s: string, t: string, k: nat, m: nat)
    requires LessAt(s, t, k)
    ensures !LessAt(t, s, m)
  {
    if m < k { assert s[..k][m] == s[m] && t[..k][m] == t[m]; }
    if k < m <= |s| && m <= |t| { assert s[..m][k] == s[k] && t[..m][k] == t[k]; }
  }

  /** Ids with distinct stamps are ordered exactly as the low 60 bits of those stamps, whatever was drawn. */
  lemma IdOrderIsStampOrder(s: State, x: seq<Byte>, t: State, y: seq<Byte>)
    requires Ok(s) && Ok(t) && |x| == 8 && |y| == 8
    requires Stamp(s) % STAMP_SPAN != Stamp(t) % STAMP_SPAN
    ensures Less(Id(s, x), Id(t, y)) <==> Stamp(s) % STAMP_SPAN < Stamp(t) % STAMP_SPAN
  {
    if Stamp(s) % STAMP_SPAN < Stamp(t) % STAMP_SPAN {
      LowerStampLowerId(s, x, t, y);
    } else {
      LowerStampLowerId(t, y, s, x);
      LessIsAsymmetric(Id(t, y), Id(s, x));
    }
  }

  lemma PowerOf6()
    ensures Power256(6) == TIME_SPAN
  {
    assert Power256(3) == 0x100_0000;
  }

  lemma LowBits(s: State)
    requires Ok(s)
    ensures Stamp(s) % STAMP_SPAN == s.lastMs % TIME_SPAN * COUNTER_SPAN + s.counter
  {
    var q, r := s.lastMs / 0x1_0000_0000_0000, s.lastMs % 0x1_0000_0000_0000;
    assert Stamp(s) == q * 0x1000_0000_0000_0000 + (r * 0x1000 + s.counter);
  }

  lemma Fits(stamp: nat)
    requires stamp < STAMP_SPAN
    ensures stamp % STAMP_SPAN == stamp
  {
  }

  lemma StampOfState(stamp: nat)
    ensures Ok(FromStamp(stamp)) && Stamp(FromStamp(stamp)) == stamp
  {
  }

  /**
   Over any clock readings, backward jumps and exhausted counters included, ids grow strictly
   as long as the stamps fit 60 bits.
   */
  lemma IdsIncrease(clocks: seq<int>, draws: seq<seq<Byte>>, i: nat, j: nat)
    requires i < j < |clocks| == |draws| && forall k :: 0 <= k < |draws| ==> |draws[k]| == 8
    requires StampAfter(clocks[..j + 1]) < STAMP_SPAN
    ensures Less(IdAt(clocks, draws, i), IdAt(clocks, draws, j))
  {
    StampsGrow(clocks, i + 1, j + 1);
    StampOfState(StampAfter(clocks[..i + 1]));
    StampOfState(StampAfter(clocks[..j + 1]));
    Fits(StampAfter(clocks[..i + 1]));
    Fits(StampAfter(clocks[..j + 1]));
    LowerStampLowerId(FromStamp(StampAfter(clocks[..i + 1])), draws[i], FromStamp(StampAfter(clocks[..j + 1])), draws[j]);
  }

  /** What a caller can check: no reading past `latest`, and few enough calls. */
  lemma IdsIncreaseBelow(clocks: seq<int>, draws: seq<seq<Byte>>, latest: nat, i: nat, j: nat)
    requires i < j < |clocks| == |draws| && forall k :: 0 <= k < |draws| ==> |draws[k]| == 8
    requires forall k :: 0 <= k < |clocks| ==> clocks[k] <= latest
    requires latest * COUNTER_SPAN + |clocks| < STAMP_SPAN
    ensures Less(IdAt(clocks, draws, i), IdAt(clocks, draws, j))
  {
    StampBound(clocks[..j + 1], latest);
    IdsIncrease(clocks, draws, i, j);
  }

  /** Past 48 bits of time the order breaks: the id made at 2^48 sorts before the one made just earlier. */
  lemma TimeWrapBreaksOrder(x: seq<Byte>, y: seq<Byte>)
    requires |x| == 8 && |y| == 8
    ensures Less(IdAt([TIME_SPAN - 1, TIME_SPAN], [x, y], 1), IdAt([TIME_SPAN - 1, TIME_SPAN], [x, y], 0))
  {
    var clocks := [TIME_SPAN - 1, TIME_SPAN];
    assert clocks[..1] == [TIME_SPAN - 1] && clocks[..2] == clocks && clocks[..1][..0] == [];
    assert StampAfter(clocks[..1]) == (TIME_SPAN - 1) * COUNTER_SPAN;
    assert StampAfter(clocks[..2]) == TIME_SPAN * COUNTER_SPAN;
    IdOrderIsStampOrder(FromStamp(StampAfter(clocks[..2])), y, FromStamp(StampAfter(clocks[..1])), x);
  }

  // ----- reading the time back -----

  predicate IsDigit(c: char) {
    '0' <= c <= '9' || 'a' <= c <= 'f'
  }

  function DigitValue(c: char): nat
    requires IsDigit(c)
  {
    if c <= '9' then c as int - 48 else c as int - 87
  }

  function ParseHex(s: string): nat
    requires forall i :: 0 <= i < |s| ==> IsDigit(s[i])
  {
    if s == [] then 0 else 16 * ParseHex(s[..|s| - 1]) + DigitValue(s[|s| - 1])
  }

  predicate TimeReadable(id: string) {
    |id| >= 13 && forall i :: 0 <= i < 13 && i != 8 ==> IsDigit(id[i])
  }

  function Timestamp(id: string): nat
    requires TimeReadable(id)
  {
    ParseHex(id[0..2]) * 0x100_0000_0000 + ParseHex(id[2..4]) * 0x1_0000_0000
    + ParseHex(id[4..6] + id[6..8]) * 0x1_0000 + ParseHex(id[9..13])
  }

  lemma ParseByte(b: Byte)
    ensures ParseHex(Hex(b)) == b
  {
    assert Hex(b)[..1] == [Digit(b / 16)] && Hex(b)[..1][..0] == [];
    assert ParseHex(Hex(b)[..1]) == b / 16;
  }

  lemma ParseTwoBytes(b: Byte, c: Byte)
    ensures ParseHex(Hex(b) + Hex(c)) == 256 * b + c
  {
    var s := Hex(b) + Hex(c);
    assert s[..3][..2] == Hex(b) && s[..3] == Hex(b) + [Digit(c / 16)];
    ParseByte(b);
    assert ParseHex(s[..3]) == 16 * b + c / 16;
  }

  /** The first six bytes as they appear in the text. */
  lemma {:induction false} RenderStart(bytes: seq<Byte>)
    requires |bytes| >= 6
    ensures Hex(bytes[0]) + Hex(bytes[1]) + Hex(bytes[2]) + Hex(bytes[3]) + "-" + Hex(bytes[4]) + Hex(bytes[5]) <= Render(bytes)
  {
    if |bytes| > 6 {
      RenderStart(bytes[..|bytes| - 1]);
    } else {
      RenderFour(bytes[..4]);
      assert bytes[..5][..4] == bytes[..4];
      assert Render(bytes[..5]) == Render(bytes[..4]) + "-" + Hex(bytes[4]);
      assert Render(bytes) == Render(bytes[..5]) + "" + Hex(bytes[5]);
    }
  }

  lemma RenderFour(bytes: seq<Byte>)
    requires |bytes| == 4
    ensures Render(bytes) == Hex(bytes[0]) + Hex(bytes[1]) + Hex(bytes[2]) + Hex(bytes[3])
  {
    assert bytes[..3][..2] == bytes[..2] && bytes[..2][..1] == bytes[..1] && bytes[..1][..0] == [];
    assert Render(bytes[..1]) == Hex(bytes[0]);
    assert Render(bytes[..2]) == Hex(bytes[0]) + Hex(bytes[1]);
    assert Render(bytes[..3]) == Hex(bytes[0]) + Hex(bytes[1]) + Hex(bytes[2]);
  }

  lemma SlicesOf(a: string, b: string, c: string, d: string, e: string, f: string, id: string)
    requires |a| == |b| == |c| == |d| == |e| == |f| == 2
    requires a + b + c + d + "-" + e + f <= id
    ensures |id| >= 13 && id[0..2] == a && id[2..4] == b && id[4..6] == c && id[6..8] == d && id[9..13] == e + f
  {
    var p := a + b + c + d + "-" + e + f;
    assert p[0..2] == a && p[2..4] == b && p[4..6] == c && p[6..8] == d && p[9..13] == e + f;
    SliceOfPrefix(p, id, 0, 2);
    SliceOfPrefix(p, id, 2, 4);
    SliceOfPrefix(p, id, 4, 6);
    SliceOfPrefix(p, id, 6, 8);
    SliceOfPrefix(p, id, 9, 13);
  }

  lemma SliceOfPrefix(p: string, s: string, i: nat, j: nat)
    requires p <= s && i <= j <= |p|
    ensures s[i..j] == p[i..j]
  {
  }

  /** What the slices of the text hold. */
  lemma Slices(bytes: seq<Byte>, id: string)
    requires |bytes| >= 6 && id == Render(bytes)
    ensures |id| >= 13 && id[0..2] == Hex(bytes[0]) && id[2..4] == Hex(bytes[1])
    ensures id[4..6] == Hex(bytes[2]) && id[6..8] == Hex(bytes[3]) && id[9..13] == Hex(bytes[4]) + Hex(bytes[5])
  {
    RenderStart(bytes);
    SlicesOf(Hex(bytes[0]), Hex(bytes[1]), Hex(bytes[2]), Hex(bytes[3]), Hex(bytes[4]), Hex(bytes[5]), id);
  }

  function Join(a: int, b: int, c: int, d: int, e: int, f: int): int {
    a * 0x100_0000_0000 + b * 0x1_0000_0000 + (256 * c + d) * 0x1_0000 + (256 * e + f)
  }

  /** The number the slices spell. */
  lemma SlicesSpell(bytes: seq<Byte>, id: string)
    requires |bytes| >= 6 && id == Render(bytes)
    ensures TimeReadable(id)
    ensures Timestamp(id) == Join(bytes[0], bytes[1], bytes[2], bytes[3], bytes[4], bytes[5])
  {
    Slices(bytes, id);
    SlicesReadable(bytes, id);
    ParseByte(bytes[0]);
    ParseByte(bytes[1]);
    ParseTwoBytes(bytes[2], bytes[3]);
    ParseTwoBytes(bytes[4], bytes[5]);
  }

  lemma SlicesReadable(bytes: seq<Byte>, id: string)
    requires |bytes| >= 6 && |id| >= 13 && id[0..2] == Hex(bytes[0]) && id[2..4] == Hex(bytes[1])
    requires id[4..6] == Hex(bytes[2]) && id[6..8] == Hex(bytes[3]) && id[9..13] == Hex(bytes[4]) + Hex(bytes[5])
    ensures TimeReadable(id)
  {
    assert id[0] == id[0..2][0] && id[1] == id[0..2][1] && id[2] == id[2..4][0] && id[3] == id[2..4][1];
    assert id[4] == id[4..6][0] && id[5] == id[4..6][1] && id[6] == id[6..8][0] && id[7] == id[6..8][1];
    assert id[9] == id[9..13][0] && id[10] == id[9..13][1] && id[11] == id[9..13][2] && id[12] == id[9..13][3];
  }

  lemma BytesSum(n: nat)
    ensures n % TIME_SPAN == Join(ByteAt(n, 0x100_0000_0000), ByteAt(n, 0x1_0000_0000), ByteAt(n, 0x100_0000),
                                  ByteAt(n, 0x1_0000), ByteAt(n, 0x100), ByteAt(n, 1))
  {
    var n1 := n / 0x100;
    var n2 := n / 0x1_0000;
    var n3 := n / 0x100_0000;
    var n4 := n / 0x1_0000_0000;
    var n5 := n / 0x100_0000_0000;
    assert n1 / 256 == n2 && n2 / 256 == n3 && n3 / 256 == n4 && n4 / 256 == n5;
    Carry(n, n1, n2, n3, n4, n5, n5 / 256);
  }

  lemma Carry(n0: nat, n1: nat, n2: nat, n3: nat, n4: nat, n5: nat, n6: nat)
    requires n1 == n0 / 256 && n2 == n1 / 256 && n3 == n2 / 256 && n4 == n3 / 256 && n5 == n4 / 256 && n6 == n5 / 256
    ensures n0 % TIME_SPAN == Join(n5 % 256, n4 % 256, n3 % 256, n2 % 256, n1 % 256, n0 % 256)
  {
    var low := Join(n5 % 256, n4 % 256, n3 % 256, n2 % 256, n1 % 256, n0 % 256);
    assert n0 == n6 * TIME_SPAN + low;
    assert 0 <= low < TIME_SPAN;
    Remainder(n6, low);
  }

  lemma Remainder(q: nat, low: nat)
    requires low < TIME_SPAN
    ensures (q * TIME_SPAN + low) % TIME_SPAN == low
  {
  }

  /** The time read back from an id is the generator's, modulo 2^48. */
  lemma TimestampRoundTrip(s: State, random: seq<Byte>)
    requires Ok(s) && |random| == 8
    ensures TimeReadable(Id(s, random))
    ensures Timestamp(Id(s, random)) == s.lastMs % TIME_SPAN
  {
    var b := Layout(s, random);
    assert b[..6] == BigEndian(s.lastMs, 6);
    BytesOf(s.lastMs);
    SlicesSpell(b, Id(s, random));
    BytesSum(s.lastMs);
  }

  // ----- the code -----

  /** The text is sixteen pairs of digits with four dashes. */
  lemma Spelled(b: seq<Byte>)
    requires |b| == 16
    ensures Render(b) == Hex(b[0]) + Hex(b[1]) + Hex(b[2]) + Hex(b[3]) + "-" + Hex(b[4]) + Hex(b[5])
                         + "-" + Hex(b[6]) + Hex(b[7]) + "-" + Hex(b[8]) + Hex(b[9])
                         + "-" + Hex(b[10]) + Hex(b[11]) + Hex(b[12]) + Hex(b[13]) + Hex(b[14]) + Hex(b[15])
  {
    RenderFour(b[..4]);
    DashedPair(b, 4);
    DashedPair(b, 6);
    DashedPair(b, 8);
    DashedPair(b, 10);
    PlainPair(b, 12);
    PlainPair(b, 14);
    assert b[..16] == b;
  }

  lemma DashedPair(b: seq<Byte>, i: nat)
    requires i in {4, 6, 8, 10} && i + 2 <= |b|
    ensures Render(b[..i + 2]) == Render(b[..i]) + "-" + Hex(b[i]) + Hex(b[i + 1])
  {
    assert b[..i + 2][..i + 1] == b[..i + 1] && b[..i + 1][..i] == b[..i];
    assert Render(b[..i + 1]) == Render(b[..i]) + "-" + Hex(b[i]);
  }

  lemma PlainPair(b: seq<Byte>, i: nat)
    requires i in {12, 14} && i + 2 <= |b|
    ensures Render(b[..i + 2]) == Render(b[..i]) + Hex(b[i]) + Hex(b[i + 1])
  {
    assert b[..i + 2][..i + 1] == b[..i + 1] && b[..i + 1][..i] == b[..i];
    assert Render(b[..i + 1]) == Render(b[..i]) + Hex(b[i]);
  }

  /** Every id is laid out as the standard asks: five dashed groups, version 7, variant 10. */
  lemma IdFormat(s: State, random: seq<Byte>)
    requires Ok(s) && |random| == 8
    ensures var id := Id(s, random);
            && |id| == 36 && id[8] == id[13] == id[18] == id[23] == '-'
            && id[14] == '7' && id[19] in {'8', '9', 'a', 'b'}
  {
    var b, id := Layout(s, random), Id(s, random);
    Spelled(b);
    assert b[6] / 16 == 7 && 8 <= b[8] / 16 <= 11;
    assert Hex(b[6])[0] == '7' && Hex(b[8])[0] in {'8', '9', 'a', 'b'};
  }

  class Generator {
    var lastMs: nat
    var monotonicCounter: nat

    ghost predicate Valid()
      reads this
    {
      monotonicCounter < COUNTER_SPAN
    }

    ghost function View(): State
      reads this
    {
      State(lastMs, monotonicCounter)
    }

    constructor ()
      ensures Valid() && View() == Fresh
    {
      lastMs, monotonicCounter := 0, 0;
    }

    /** Advances the logical clock past the wall clock's reading. */
    method Tick(clock: int)
      requires Valid()
      modifies this
      ensures Valid() && Stamp(View()) == NextStamp(old(Stamp(View())), clock)
      ensures View() == FromStamp(Stamp(View()))
    {
      var ms: nat := if clock < lastMs then lastMs else clock;
      if ms == lastMs {
        monotonicCounter := (monotonicCounter + 1) % 0x1000;
        if monotonicCounter == 0 { ms := lastMs + 1; }
      } else {
        monotonicCounter := 0;
      }
      lastMs := ms;
    }

    /** One id, from the clock's reading and eight random bytes. */
    method Next(clock: int, random: seq<Byte>) returns (id: string)
      requires Valid() && |random| == 8
      modifies this
      ensures Valid() && Stamp(View()) == NextStamp(old(Stamp(View())), clock)
      ensures id == Id(FromStamp(Stamp(View())), random)
    {
      Tick(clock);
      var buf := Fill(lastMs, monotonicCounter, random);
      Spelled(buf[..]);
      id := Hex(buf[0]) + Hex(buf[1]) + Hex(buf[2]) + Hex(buf[3]) + "-" + Hex(buf[4]) + Hex(buf[5])
      + "-" + Hex(buf[6]) + Hex(buf[7]) + "-" + Hex(buf[8]) + Hex(buf[9])
      + "-" + Hex(buf[10]) + Hex(buf[11]) + Hex(buf[12]) + Hex(buf[13]) + Hex(buf[14]) + Hex(buf[15]);
    }
  }

  /** The buffer, byte by byte. */
  method Fill(ms: nat, counter: nat, random: seq<Byte>) returns (buf: array<Byte>)
    requires Ok(State(ms, counter)) && |random| == 8
    ensures fresh(buf) && buf[..] == Layout(State(ms, counter), random)
  {
    buf := new Byte[16](_ => 0);
    buf[0] := ms / 0x100_0000_0000 % 256;
    buf[1] := ms / 0x1_0000_0000 % 256;
    buf[2] := ms / 0x100_0000 % 256;
    buf[3] := ms / 0x1_0000 % 256;
    buf[4] := ms / 0x100 % 256;
    buf[5] := ms % 256;
    buf[6] := 0x70 + counter / 256 % 16;
    buf[7] := counter % 256;
    forall i | 0 <= i < 8 { buf[8 + i] := random[i]; }
    buf[8] := 0x80 + buf[8] % 64;
    Filled(buf[..], ms, counter, random);
  }

  lemma Filled(b: seq<Byte>, ms: nat, counter: nat, random: seq<Byte>)
    requires Ok(State(ms, counter)) && |random| == 8 && |b| == 16
    requires b[0] == ByteAt(ms, 0x100_0000_0000) && b[1] == ByteAt(ms, 0x1_0000_0000) && b[2] == ByteAt(ms, 0x100_0000)
    requires b[3] == ByteAt(ms, 0x1_0000) && b[4] == ByteAt(ms, 0x100) && b[5] == ByteAt(ms, 1)
    requires b[6] == 0x70 + counter / 256 && b[7] == counter % 256
    requires b[8] == 0x80 + random[0] % 64 && forall i :: 1 <= i < 8 ==> b[8 + i] == random[i]
    ensures b == Layout(State(ms, counter), random)
  {
    BytesOf(ms);
    assert b[..6] == BigEndian(ms, 6);
    assert b[8..] == Tail(random);
    assert b == b[..6] + [b[6], b[7]] + b[8..];
  }
}
