/**
 128-bit address arithmetic in 64-bit halves, `plugins/allocators/ipcalc.go`. Every
 operation on a half is written out modulo 2^64, as the source's unsigned words wrap.
 */
module IpCalc {
  import opened Arith

  const WORD: int := 0x1_0000_0000_0000_0000
  type u64 = x: int | 0 <= x < WORD

  datatype Ip = Ip(h: u64, l: u64)
  datatype Failure = OutOfRange | Overflow
  datatype Result<+T> = Ok(value: T) | Err(error: Failure)

  function Value(ip: Ip): nat {
    ip.h * WORD + ip.l
  }

  function Pow2(k: nat): (r: nat)
    ensures r >= 1
  {
    if k == 0 then 1 else 2 * Pow2(k - 1)
  }

  // ----- the words of math/bits ---------------------------------------------------------

  function Sub64(x: u64, y: u64, borrow: u64): (u64, u64) {
    ((x - y - borrow) % WORD, if x < y + borrow then 1 else 0)
  }

  function Add64(x: u64, y: u64, carry: u64): (u64, u64) {
    ((x + y + carry) % WORD, if x + y + carry >= WORD then 1 else 0)
  }

  function Mul64(x: u64, y: u64): (r: (u64, u64)) {
    ProductBelow(x, y);
    (x * y / WORD, x * y % WORD)
  }

  lemma ProductBelow(x: u64, y: u64)
    ensures 0 <= x * y / WORD < WORD
  {
    var p := x * y;
    Scaled(x, 0, y);
    Scaled(x, y, WORD - 1);
    assert 0 <= p <= x * (WORD - 1) <= (WORD - 1) * (WORD - 1);
    WordQuotient(p);
  }

  lemma WordQuotient(p: nat)
    requires p <= (WORD - 1) * (WORD - 1)
    ensures 0 <= p / WORD < WORD
  {
  }

  /** x << n, dropping what leaves the word. */
  function Shl(x: u64, n: nat): u64 {
    (x * Pow2(n)) % WORD
  }

  function Shr(x: u64, n: nat): (r: u64) {
    Quotient(x, Pow2(n));
    ShrinksBelow(x, Pow2(n));
    x / Pow2(n)
  }

  lemma ShrinksBelow(x: nat, n: nat)
    requires n >= 1
    ensures 0 <= x / n <= x
  {
    Quotient(x, n);
    if x / n >= 0 {
      Scaled(x / n, 1, n);
    }
  }

  // ----- Offset and AddPrefixes -----------------------------------------------------------

  predicate Less(a: Ip, b: Ip) {
    a.h < b.h || (a.h == b.h && a.l < b.l)
  }

  function Offset(x: Ip, y: Ip, len: int): Result<u64> {
    if len > 128 || len < 0 then Err(OutOfRange)
    else if x == y then Ok(0)
    else
      var (a, b) := if Less(x, y) then (y, x) else (x, y);
      if len <= 64 then Ok(Shr((a.h - b.h) % WORD, 64 - len))
      else
        var (low, borrow) := Sub64(a.l, b.l, 0);
        var (high, _) := Sub64(a.h, b.h, borrow);
        Cut(high, low, len)
  }

  /** The two halves of a distance, cut at a bit of the low one. */
  function Cut(high: u64, low: u64, len: nat): Result<u64>
    requires 65 <= len <= 128
  {
    if high >= Pow2(128 - len) then Err(Overflow)
    else Ok((Shl(high, len - 64) + Shr(low, 128 - len)) % WORD)
  }

  function AddPrefixes(ip: Ip, n: u64, unit: u64): Result<Ip> {
    if unit == 0 && n != 0 then Err(Overflow)
    else if n == 0 then Ok(ip)
    else
      var (offh, offl) := if unit <= 64 then (Shl(n, 64 - unit), 0) else Mul64(n, UnitWord(unit));
      var (l, carry) := Add64(offl, ip.l, 0);
      var (h, over) := Add64(offh, ip.h, carry);
      if over != 0 then Err(Overflow) else Ok(Ip(h, l))
  }

  /** 1 << (128 - unit) in a word, the shift count itself being a word. */
  function UnitWord(unit: u64): u64 {
    Shl(1, (128 - unit) % WORD)
  }

  // ----- powers of two ----------------------------------------------------------------------

  lemma Doubled(x: nat, y: nat)
    ensures (2 * x) * y == 2 * (x * y)
  {
  }

  lemma {:induction false} Pow2Adds(a: nat, b: nat)
    ensures Pow2(a + b) == Pow2(a) * Pow2(b)
  {
    if a > 0 {
      Pow2Adds(a - 1, b);
      assert Pow2(a + b) == 2 * Pow2(a - 1 + b);
      Doubled(Pow2(a - 1), Pow2(b));
    }
  }

  lemma Pow2Four()
    ensures Pow2(2) == 4
  {
  }

  lemma Pow2Word()
    ensures Pow2(64) == WORD
  {
    hide Pow2;
    Pow2Four();
    Pow2Adds(2, 2);
    Pow2Adds(4, 4);
    Pow2Adds(8, 8);
    Pow2Adds(16, 16);
    Pow2Adds(32, 32);
  }

  /** A word splits at any bit. */
  lemma Pow2Split(k: nat)
    requires k <= 64
    ensures Pow2(k) * Pow2(64 - k) == WORD
  {
    Pow2Adds(k, 64 - k);
    Pow2Word();
  }

  lemma SmallPow2(k: nat)
    requires k < 64
    ensures Pow2(k) < WORD
  {
    Pow2Split(k);
    assert Pow2(64 - k) == 2 * Pow2(63 - k);
    Scaled(Pow2(k), 2, Pow2(64 - k));
  }

  // ----- Offset --------------------------------------------------------------------------------

  function Distance(x: Ip, y: Ip): nat {
    if Value(x) < Value(y) then Value(y) - Value(x) else Value(x) - Value(y)
  }

  lemma LessIs(x: Ip, y: Ip)
    ensures Less(x, y) <==> Value(x) < Value(y)
    ensures x == y <==> Value(x) == Value(y)
  {
  }

  /** Subtracting halves with a borrow is subtracting addresses. */
  lemma HalvesSubtract(a: Ip, b: Ip)
    requires Value(b) <= Value(a)
    ensures var (low, borrow) := Sub64(a.l, b.l, 0);
      var (high, _) := Sub64(a.h, b.h, borrow);
      high * WORD + low == Value(a) - Value(b)
  {
    var (low, borrow) := Sub64(a.l, b.l, 0);
    assert low == a.l - b.l + borrow * WORD;
    assert a.h - b.h - borrow >= 0;
  }

  /** Where a distance is cut k bits up, its high and low halves meet. */
  lemma CutAt(high: nat, low: nat, k: nat)
    requires k <= 64 && low < WORD
    ensures (high * WORD + low) / Pow2(k) == high * Pow2(64 - k) + low / Pow2(k)
    ensures low / Pow2(k) < Pow2(64 - k)
  {
    hide Pow2;
    var p, q := Pow2(k), Pow2(64 - k);
    Pow2Split(k);
    Quotient(low, p);
    var m := low / p;
    Rearranged(high, p, q, m);
    QuotientIs(high * WORD + low, p, high * q + m);
    Between(p, m, q);
  }

  lemma Rearranged(high: nat, p: nat, q: nat, m: int)
    requires p * q == WORD
    ensures p * (high * q + m) == high * WORD + p * m
    ensures p * (high * q + m + 1) == high * WORD + p * (m + 1)
  {
    assert p * (high * q) == high * (p * q);
    assert p * (high * q + m) == p * (high * q) + p * m;
    assert p * (high * q + m + 1) == p * (high * q) + p * (m + 1);
  }

  /** The high half either fits above the cut or puts the whole past a word. */
  lemma HighFits(high: nat, m: nat, k: nat)
    requires k < 64 && m < Pow2(64 - k)
    ensures high < Pow2(k) ==> high * Pow2(64 - k) + m < WORD
    ensures high >= Pow2(k) ==> high * Pow2(64 - k) + m >= WORD
  {
    hide Pow2;
    var p, q := Pow2(k), Pow2(64 - k);
    Pow2Split(k);
    if high < p {
      Scaled(q, high + 1, p);
      assert q * (high + 1) == high * q + q;
    } else {
      Scaled(q, p, high);
    }
  }

  lemma NoWrap(a: nat, b: nat)
    requires a + b < WORD
    ensures (a % WORD + b) % WORD == a + b
  {
  }

  /** A distance in whole units of /len. */
  function Units(d: nat, len: nat): nat
    requires len <= 128
  {
    Quotient(d, Pow2(128 - len));
    ShrinksBelow(d, Pow2(128 - len));
    d / Pow2(128 - len)
  }

  lemma CutIs(high: u64, low: u64, len: nat)
    requires 65 <= len <= 128
    ensures var units := Units(high * WORD + low, len);
      Cut(high, low, len) == if units < WORD then Ok(units) else Err(Overflow)
  {
    hide Pow2;
    var k := 128 - len;
    CutAt(high, low, k);
    ShrinksBelow(low, Pow2(k));
    HighFits(high, low / Pow2(k), k);
    if high < Pow2(k) {
      Scaled(Pow2(64 - k), 0, high);
      NoWrap(high * Pow2(64 - k), low / Pow2(k));
    }
  }

  /** Past bit 64, Offset is the distance in units, rounded down, and overflows exactly when that needs a 65th bit. */
  lemma OffsetFloors(x: Ip, y: Ip, len: int)
    requires 65 <= len <= 128
    ensures var units := Units(Distance(x, y), len);
      Offset(x, y, len) == if units < WORD then Ok(units) else Err(Overflow)
  {
    hide Pow2, Sub64, Cut, Units;
    LessIs(x, y);
    if x == y {
      ZeroUnits(len);
    } else {
      var (a, b) := if Less(x, y) then (y, x) else (x, y);
      LessIs(b, a);
      HalvesSubtract(a, b);
      var (low, borrow) := Sub64(a.l, b.l, 0);
      var (high, _) := Sub64(a.h, b.h, borrow);
      CutIs(high, low, len);
    }
  }

  lemma ZeroUnits(len: nat)
    requires len <= 128
    ensures Units(0, len) == 0
  {
  }

  lemma ZeroQuotient(p: nat)
    requires p >= 1
    ensures 0 / p == 0
  {
  }

  /** Up to bit 64 only the high halves are looked at. */
  lemma OffsetOfHighHalves(x: Ip, y: Ip, len: int)
    requires 0 <= len <= 64
    ensures var d := if x.h < y.h then y.h - x.h else x.h - y.h;
      Offset(x, y, len) == Ok(d / Pow2(64 - len))
  {
    hide Pow2;
    ZeroQuotient(Pow2(64 - len));
  }

  // ----- the masked difference ---------------------------------------------------------------------

  /** The distance between the /len subnets two addresses are in. */
  function Masked(x: Ip, y: Ip, len: nat): nat
    requires len <= 128
  {
    var a, b := Value(x) / Pow2(128 - len), Value(y) / Pow2(128 - len);
    if a < b then b - a else a - b
  }

  /** The remainders that decide whether a borrow crosses the cut. */
  function Tail(x: Ip, len: nat): nat
    requires len <= 128
  {
    if len <= 64 then x.h % Pow2(64 - len) else Value(x) % Pow2(128 - len)
  }

  lemma QuotientDifference(a: nat, b: nat, p: nat)
    requires p >= 1 && b <= a
    ensures (a - b) / p == a / p - b / p - (if a % p < b % p then 1 else 0)
  {
    var t := if a % p < b % p then 1 else 0;
    var q := a / p - b / p;
    assert a == p * (a / p) + a % p && b == p * (b / p) + b % p;
    assert p * (a / p) - p * (b / p) == p * q;
    assert a - b == p * q + (a % p - b % p);
    assert p * (q - t) == p * q - p * t;
    assert p * (q - t + 1) == p * (q - t) + p;
    QuotientIs(a - b, p, q - t);
  }

  lemma HighQuotient(x: Ip, len: nat)
    requires len <= 64
    ensures Value(x) / Pow2(128 - len) == x.h / Pow2(64 - len)
  {
    hide Pow2;
    var q := Pow2(64 - len);
    Pow2Adds(64 - len, 64);
    Pow2Word();
    assert Pow2(128 - len) == q * WORD;
    var m := x.h / q;
    Quotient(x.h, q);
    assert (q * WORD) * m == (q * m) * WORD;
    assert (q * WORD) * (m + 1) == (q * (m + 1)) * WORD;
    Scaled(WORD, q * m, x.h);
    Scaled(WORD, x.h + 1, q * (m + 1));
    QuotientIs(Value(x), q * WORD, m);
  }

  /**
   What the documentation of Offset promises, that both addresses are masked first,
   holds exactly when the higher address does not fall short of the lower one below
   the cut; the units must also fit a word.
   */
  lemma MaskedExactlyWhen(x: Ip, y: Ip, len: nat)
    requires len <= 128 && Value(y) < Value(x)
    ensures Offset(x, y, len) == Ok(Masked(x, y, len)) <==>
      Tail(x, len) >= Tail(y, len) && (len <= 64 || Units(Distance(x, y), len) < WORD)
  {
    hide Pow2, Offset;
    var p := Pow2(128 - len);
    LessIs(y, x);
    QuotientOrder(Value(y), Value(x), p);
    if len <= 64 {
      OffsetOfHighHalves(x, y, len);
      HighQuotient(x, len);
      HighQuotient(y, len);
      QuotientDifference(x.h, y.h, Pow2(64 - len));
    } else {
      OffsetFloors(x, y, len);
      QuotientDifference(Value(x), Value(y), p);
    }
  }

  lemma QuotientOrder(a: nat, b: nat, p: nat)
    requires p >= 1 && a <= b
    ensures a / p <= b / p
  {
    Quotient(a, p);
    Quotient(b, p);
    Between(p, a / p, b / p + 1);
  }

  /** With the lower address aligned, as a pool's base is, Offset is the masked difference. */
  lemma OffsetFromAligned(x: Ip, y: Ip, len: nat)
    requires len <= 128 && Value(y) <= Value(x) && Value(y) % Pow2(128 - len) == 0
    ensures var units := Masked(x, y, len);
      && units == Units(Distance(x, y), len)
      && Offset(x, y, len) == if units < WORD then Ok(units) else Err(Overflow)
  {
    hide Pow2;
    var p := Pow2(128 - len);
    LessIs(y, x);
    QuotientOrder(Value(y), Value(x), p);
    QuotientDifference(Value(x), Value(y), p);
    if len > 64 {
      OffsetFloors(x, y, len);
    } else {
      AlignedHigh(y, len);
      HighQuotient(x, len);
      HighQuotient(y, len);
      OffsetOfHighHalves(x, y, len);
      QuotientDifference(x.h, y.h, Pow2(64 - len));
      ShrinksBelow(x.h, Pow2(64 - len));
      ShrinksBelow(y.h, Pow2(64 - len));
    }
  }

  lemma AlignedHigh(y: Ip, len: nat)
    requires len <= 64 && Value(y) % Pow2(128 - len) == 0
    ensures y.h % Pow2(64 - len) == 0
  {
    hide Pow2;
    var q := Pow2(64 - len);
    Pow2Adds(64 - len, 64);
    Pow2Word();
    HighQuotient(y, len);
    var m := y.h / q;
    assert Value(y) == (q * WORD) * m;
    assert (q * WORD) * m == (q * m) * WORD;
    assert y.h == q * m;
  }

  /** Without alignment the promise can fail: two neighbouring /127s at distance nought. */
  lemma MaskedCanFail()
    ensures Offset(Ip(0, 2), Ip(0, 1), 127) == Ok(0) && Masked(Ip(0, 2), Ip(0, 1), 127) == 1
  {
    assert Pow2(1) == 2;
    OffsetFloors(Ip(0, 2), Ip(0, 1), 127);
  }

  // ----- AddPrefixes ----------------------------------------------------------------------------------

  /** Adding halves with a carry is adding addresses. */
  lemma HalvesAdd(ip: Ip, offh: u64, offl: u64)
    ensures var (l, carry) := Add64(offl, ip.l, 0);
      var (h, over) := Add64(offh, ip.h, carry);
      var sum := Value(ip) + offh * WORD + offl;
      (over != 0 <==> sum >= WORD * WORD) && (over == 0 ==> Value(Ip(h, l)) == sum)
  {
    var (l, carry) := Add64(offl, ip.l, 0);
    assert l == offl + ip.l - carry * WORD;
  }

  /** How far AddPrefixes moves: past its own width a count wraps, as the shift drops its high bits. */
  function Move(n: u64, unit: nat): nat
    requires 1 <= unit <= 128
  {
    (if unit <= 64 then n % Pow2(unit) else n) * Pow2(128 - unit)
  }

  lemma ProductSplits(p: nat, m: nat, r: nat, q: nat)
    ensures (p * m + r) * q == m * (p * q) + r * q
  {
    assert (p * m + r) * q == (p * m) * q + r * q;
    assert (p * m) * q == m * (p * q);
  }

  lemma RemainderFits(r: nat, p: nat, q: nat)
    requires r < p && q >= 1
    ensures 0 <= r * q < p * q
  {
    Scaled(q, r + 1, p);
    Scaled(q, 0, r);
    assert q * (r + 1) == r * q + q;
  }

  lemma Regrouped(r: nat, q: nat)
    ensures (r * q) * WORD == r * (q * WORD)
  {
  }

  lemma ShlWraps(n: u64, unit: nat)
    requires 1 <= unit <= 64
    ensures Shl(n, 64 - unit) * WORD == Move(n, unit)
  {
    hide Pow2;
    var p, q := Pow2(unit), Pow2(64 - unit);
    Pow2Split(unit);
    Pow2Adds(64 - unit, 64);
    Pow2Word();
    var m, r := n / p, n % p;
    ProductSplits(p, m, r, q);
    RemainderFits(r, p, q);
    WordRemainder(m, r * q);
    Regrouped(r, q);
    Recomposed(n, p);
  }

  lemma Recomposed(n: nat, p: nat)
    requires p >= 1
    ensures n == p * (n / p) + n % p && 0 <= n % p < p && n / p >= 0
  {
  }

  lemma WordRemainder(m: nat, r: nat)
    requires r < WORD
    ensures (m * WORD + r) % WORD == r
  {
  }

  lemma MulMoves(n: u64, unit: nat)
    requires 65 <= unit <= 128
    ensures var (h, l) := Mul64(n, UnitWord(unit)); h * WORD + l == Move(n, unit)
  {
    hide Pow2;
    var k := 128 - unit;
    SmallPow2(k);
    assert k % WORD == k;
    assert UnitWord(unit) == Pow2(k);
    assert n * Pow2(k) == WORD * (n * Pow2(k) / WORD) + n * Pow2(k) % WORD;
  }

  /** AddPrefixes moves by its units exactly, and overflows exactly past the last address. */
  lemma AddPrefixesAdds(ip: Ip, n: u64, unit: u64)
    requires 1 <= unit <= 128
    ensures var sum := Value(ip) + Move(n, unit);
      match AddPrefixes(ip, n, unit)
      case Ok(r) => Value(r) == sum
      case Err(e) => e == Overflow && sum >= WORD * WORD
  {
    hide Pow2, Add64, Mul64, Shl;
    if n == 0 {
      NoMove(unit);
    } else if unit <= 64 {
      ShlWraps(n, unit);
      HalvesAdd(ip, Shl(n, 64 - unit), 0);
    } else {
      MulMoves(n, unit);
      var (h, l) := Mul64(n, UnitWord(unit));
      HalvesAdd(ip, h, l);
    }
  }

  lemma NoMove(unit: nat)
    requires 1 <= unit <= 128
    ensures Move(0, unit) == 0
  {
  }

  /** For every count the unit can number, the move is that count of units. */
  lemma MoveIsExact(n: u64, unit: nat)
    requires 1 <= unit <= 128 && n < Pow2(unit)
    ensures Move(n, unit) == n * Pow2(128 - unit)
  {
    hide Pow2;
    Remainder(n, Pow2(unit));
  }

  lemma Remainder(n: nat, p: nat)
    requires n < p
    ensures n % p == n
  {
  }

  /** Offset undoes AddPrefixes. */
  lemma RoundTrip(ip: Ip, n: u64, unit: u64)
    requires 1 <= unit <= 128 && n < Pow2(unit) && AddPrefixes(ip, n, unit).Ok?
    ensures Offset(AddPrefixes(ip, n, unit).value, ip, unit) == Ok(n)
  {
    hide Pow2, AddPrefixes, Offset, Move;
    var p, r := Pow2(128 - unit), AddPrefixes(ip, n, unit).value;
    AddPrefixesAdds(ip, n, unit);
    MoveIsExact(n, unit);
    Scaled(p, 0, n);
    QuotientIs(n * p, p, n);
    if unit > 64 {
      OffsetFloors(r, ip, unit);
    } else {
      OffsetOfHighHalves(r, ip, unit);
      HighMoves(r, ip, n, unit);
    }
  }

  lemma HighMoves(r: Ip, ip: Ip, n: u64, unit: nat)
    requires 1 <= unit <= 64 && Value(r) == Value(ip) + n * Pow2(128 - unit)
    ensures r.h >= ip.h && (r.h - ip.h) / Pow2(64 - unit) == n
  {
    hide Pow2;
    var q := Pow2(64 - unit);
    Pow2Adds(64 - unit, 64);
    Pow2Word();
    assert n * (q * WORD) == (n * q) * WORD;
    assert r.h == ip.h + n * q;
    Scaled(q, 0, n);
    QuotientIs(n * q, q, n);
  }
}
