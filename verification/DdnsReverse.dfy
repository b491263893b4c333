/**
 Reverse names in `plugins/ddns/name.go`: the PTR name of an address, the zone of a
 prefix, and which names fall in which zone.
 */
module DdnsReverse {
  import opened Wrappers
  import opened Octets
  import opened DdnsName
  import IpCalc

  // "in-addr.arpa." and "ip6.arpa."
  const ARPA_V4: seq<Byte> := [105, 110, 45, 97, 100, 100, 114, 46, 97, 114, 112, 97, 46]
  const ARPA_V6: seq<Byte> := [105, 112, 54, 46, 97, 114, 112, 97, 46]

  predicate IsAddress(a: seq<Byte>) {
    |a| == 4 || |a| == 16
  }

  // ----- labels ---------------------------------------------------------------------------

  /** How many bits one reverse label stands for: an octet, or a nibble. */
  function Per(a: seq<Byte>): nat {
    if |a| == 4 then 8 else 4
  }

  /** How many labels an address has. */
  function Count(a: seq<Byte>): nat {
    if |a| == 4 then 4 else 2 * |a|
  }

  /** The k-th unit of an address, most significant first. */
  function Unit(a: seq<Byte>, k: nat): Byte
    requires k < Count(a)
  {
    if |a| == 4 then a[k] else if k % 2 == 0 then a[k / 2] / 16 else a[k / 2] % 16
  }

  function HexDigit(n: Byte): Byte
    requires n < 16
  {
    if n < 10 then 48 + n else 87 + n
  }

  function UnitLabel(a: seq<Byte>, k: nat): seq<Byte>
    requires k < Count(a)
  {
    if |a| == 4 then Decimal(a[k]) else [HexDigit(Unit(a, k))]
  }

  /** arpaLabels: least significant first. */
  function ArpaLabels(a: seq<Byte>): seq<seq<Byte>> {
    seq(Count(a), i requires 0 <= i < Count(a) => UnitLabel(a, Count(a) - 1 - i))
  }

  /** arpaLabels filling its cells octet by octet. */
  method FillArpaLabels(a: seq<Byte>) returns (labels: array<seq<Byte>>)
    requires IsAddress(a)
    ensures labels[..] == ArpaLabels(a)
  {
    labels := new seq<Byte>[Count(a)](_ => []);
    for i := 0 to |a|
      invariant |a| == 4 ==> forall k :: 0 <= k < i ==> labels[3 - k] == UnitLabel(a, k)
      invariant |a| == 16 ==> forall k :: 0 <= k < 2 * i ==> labels[31 - k] == UnitLabel(a, k)
    {
      if |a| == 4 {
        labels[3 - i] := Decimal(a[i]);
      } else {
        labels[31 - 2 * i] := [HexDigit(a[i] / 16)];
        labels[30 - 2 * i] := [HexDigit(a[i] % 16)];
      }
    }
    forall k | 0 <= k < Count(a) ensures labels[k] == UnitLabel(a, Count(a) - 1 - k) {
      assert labels[Count(a) - 1 - (Count(a) - 1 - k)] == UnitLabel(a, Count(a) - 1 - k);
    }
  }

  function Suffix(a: seq<Byte>): seq<Byte> {
    if |a| == 4 then ARPA_V4 else ARPA_V6
  }

  /** ptrName and joinName. */
  function PtrName(a: seq<Byte>): seq<Byte> {
    Dotted(ArpaLabels(a)) + Suffix(a)
  }

  /** The PTR name of an IPv4 address: its octets in decimal, last first, under in-addr.arpa. */
  lemma PtrNameV4(a: seq<Byte>)
    requires |a| == 4
    ensures PtrName(a) == Decimal(a[3]) + [46] + Decimal(a[2]) + [46] + Decimal(a[1]) + [46] + Decimal(a[0]) + [46]
      + [105, 110, 45, 97, 100, 100, 114, 46, 97, 114, 112, 97, 46]
  {
    hide Decimal;
    var l := ArpaLabels(a);
    assert l[0] == UnitLabel(a, 3) && l[1] == UnitLabel(a, 2) && l[2] == UnitLabel(a, 1) && l[3] == UnitLabel(a, 0);
    assert l == [Decimal(a[3]), Decimal(a[2]), Decimal(a[1]), Decimal(a[0])];
    var l1 := l[1..];
    var l2 := l1[1..];
    var l3 := l2[1..];
    assert Dotted(l) == l[0] + [46] + Dotted(l1) && Dotted(l1) == l[1] + [46] + Dotted(l2);
    assert Dotted(l2) == l[2] + [46] + Dotted(l3) && l3 == [l[3]] && l3[1..] == [];
    assert Dotted(l3) == l[3] + [46];
  }

  /** One hexadecimal digit in lowercase. */
  function Hex(n: nat): seq<Byte>
    requires n < 16
  {
    [[48, 49, 50, 51, 52, 53, 54, 55, 56, 57, 97, 98, 99, 100, 101, 102][n]]
  }

  /** Both nibbles of every octet, the last octet first and its low nibble first. */
  function NibblesBack(a: seq<Byte>): seq<Byte> {
    if a == [] then []
    else Hex(a[|a| - 1] % 16) + [46] + Hex(a[|a| - 1] / 16) + [46] + NibblesBack(a[..|a| - 1])
  }

  lemma HexAgrees(n: Byte)
    requires n < 16
    ensures [HexDigit(n)] == Hex(n)
  {
  }

  lemma ArpaLength(a: seq<Byte>)
    ensures |ArpaLabels(a)| == Count(a)
  {
  }

  lemma NibbleLabels(a: seq<Byte>, n: nat)
    requires |a| == 16 && n < 16
    ensures |ArpaLabels(a)| == 32
    ensures ArpaLabels(a)[30 - 2 * n] == Hex(a[n] % 16) && ArpaLabels(a)[31 - 2 * n] == Hex(a[n] / 16)
  {
    hide HexDigit, Hex;
    HexAgrees(a[n] % 16);
    HexAgrees(a[n] / 16);
    assert ArpaLabels(a)[30 - 2 * n] == UnitLabel(a, 2 * n + 1) && ArpaLabels(a)[31 - 2 * n] == UnitLabel(a, 2 * n);
  }

  lemma DottedTwo(l: seq<seq<Byte>>)
    requires |l| >= 2
    ensures Dotted(l) == l[0] + [46] + l[1] + [46] + Dotted(l[2..])
  {
    var rest := l[1..];
    assert rest[1..] == l[2..] && rest[0] == l[1];
    assert Dotted(l) == l[0] + [46] + Dotted(rest) && Dotted(rest) == l[1] + [46] + Dotted(rest[1..]);
  }

  lemma {:induction false} DottedNibbles(a: seq<Byte>, n: nat)
    requires |a| == 16 && n <= 16 && |ArpaLabels(a)| == 32
    ensures Dotted(ArpaLabels(a)[32 - 2 * n..]) == NibblesBack(a[..n])
  {
    hide ArpaLabels, Hex;
    if n == 0 {
      assert ArpaLabels(a)[32..] == [];
    } else {
      var all := ArpaLabels(a);
      var rest := all[32 - 2 * n..];
      DottedNibbles(a, n - 1);
      NibbleLabels(a, n - 1);
      assert rest[0] == all[32 - 2 * n] && rest[1] == all[33 - 2 * n] && rest[2..] == all[34 - 2 * n..];
      DottedTwo(rest);
      assert a[..n][..n - 1] == a[..n - 1];
    }
  }

  /** The PTR name of an IPv6 address: its nibbles in hexadecimal, last first, under ip6.arpa. */
  lemma PtrNameV6(a: seq<Byte>)
    requires |a| == 16
    ensures PtrName(a) == NibblesBack(a) + [105, 112, 54, 46, 97, 114, 112, 97, 46]
  {
    hide ArpaLabels, NibblesBack;
    ArpaLength(a);
    DottedNibbles(a, 16);
    assert a[..16] == a && ArpaLabels(a)[0..] == ArpaLabels(a);
  }

  datatype Prefix = Prefix(addr: seq<Byte>, bits: nat)

  predicate IsPrefix(p: Prefix) {
    IsAddress(p.addr) && p.bits <= 8 * |p.addr|
  }

  /** The octets of a prefix with everything past its length cleared. */
  function MaskOctet(o: Byte, keep: nat): Byte
    requires keep <= 8
  {
    var p := IpCalc.Pow2(8 - keep);
    MaskBelow(o, p);
    o / p * p
  }

  lemma MaskBelow(o: Byte, p: nat)
    requires p >= 1
    ensures 0 <= o / p * p <= o
  {
  }

  function Masked(p: Prefix): (r: seq<Byte>)
    ensures |r| == |p.addr|
  {
    seq(|p.addr|, i requires 0 <= i < |p.addr| =>
      MaskOctet(p.addr[i], if p.bits <= 8 * i then 0 else if p.bits >= 8 * i + 8 then 8 else p.bits - 8 * i))
  }

  /** reverseZone: the labels the prefix length names; none when it ends between labels. */
  function ReverseZone(p: Prefix): Option<seq<Byte>>
    requires IsPrefix(p)
  {
    if p.bits % Per(p.addr) != 0 then None else
    var labels, units := ArpaLabels(Masked(p)), p.bits / Per(p.addr);
    Some(Dotted(labels[|labels| - units..]) + Suffix(p.addr))
  }

  /** A network has a reverse zone exactly when its length ends between labels: at an octet, or at a nibble. */
  lemma ZoneExactlyAtLabels(p: Prefix)
    requires IsPrefix(p)
    ensures ReverseZone(p).Some? <==> if |p.addr| == 4 then p.bits % 8 == 0 else p.bits % 4 == 0
  {
  }

  // ----- containment -------------------------------------------------------------------------

  /** An octet shifted right. */
  function Shifted(o: Byte, n: nat): Byte {
    if n == 0 then o else Shifted(o, n - 1) / 2
  }

  /** Bit i of an address, most significant first. */
  function Bit(a: seq<Byte>, i: nat): nat
    requires i < 8 * |a|
  {
    OctetBit(a[i / 8], i % 8)
  }

  function OctetBit(o: Byte, j: nat): nat
    requires j < 8
  {
    Shifted(o, 7 - j) % 2
  }

  /** Prefix.Contains: same family, and the same leading bits. */
  predicate Contains(p: Prefix, a: seq<Byte>)
    requires IsPrefix(p)
  {
    |a| == |p.addr| && forall i :: 0 <= i < p.bits ==> Bit(a, i) == Bit(p.addr, i)
  }

  predicate InZone(name: seq<Byte>, zone: seq<Byte>) {
    name == zone || HasSuffix(name, [DOT] + zone)
  }

  // ----- labels and text -----------------------------------------------------------------------

  ghost predicate Undotted(labels: seq<seq<Byte>>) {
    forall i :: 0 <= i < |labels| ==> NoDot(labels[i])
  }

  lemma {:induction false} DottedJoins(x: seq<seq<Byte>>, y: seq<seq<Byte>>)
    ensures Dotted(x + y) == Dotted(x) + Dotted(y)
  {
    if x == [] {
      assert x + y == y;
    } else {
      DottedJoins(x[1..], y);
      assert (x + y)[1..] == x[1..] + y;
    }
  }

  lemma DottedOne(l: seq<Byte>)
    ensures Dotted([l]) == l + [DOT]
  {
  }

  lemma DottedEnd(x: seq<seq<Byte>>)
    requires x != []
    ensures Dotted(x) == Dotted(x[..|x| - 1]) + x[|x| - 1] + [DOT]
  {
    hide Dotted;
    var last := x[|x| - 1];
    DottedJoins(x[..|x| - 1], [last]);
    assert x == x[..|x| - 1] + [last];
    DottedOne(last);
  }

  /** Text that is empty or ends at a dot. */
  predicate AtBoundary(p: seq<Byte>) {
    p == [] || p[|p| - 1] == DOT
  }

  lemma DottedAtBoundary(x: seq<seq<Byte>>)
    ensures AtBoundary(Dotted(x))
  {
    if x != [] {
      DottedEnd(x);
    }
  }

  /** Where the last label of a text begins. */
  function LastStart(s: seq<Byte>): nat {
    if s == [] then 0 else if s[|s| - 1] == DOT then |s| else LastStart(s[..|s| - 1])
  }

  lemma {:induction false} LastStartIs(p: seq<Byte>, x: seq<Byte>)
    requires AtBoundary(p) && NoDot(x)
    ensures LastStart(p + x) == |p|
  {
    if x == [] {
      assert p + x == p;
    } else {
      assert x[|x| - 1] != DOT;
      assert (p + x)[..|p + x| - 1] == p + x[..|x| - 1];
      LastStartIs(p, x[..|x| - 1]);
    }
  }

  /** Two texts that end in a label at a boundary, and agree, end in the same label. */
  lemma SameLastLabel(p: seq<Byte>, x: seq<Byte>, q: seq<Byte>, y: seq<Byte>)
    requires AtBoundary(p) && AtBoundary(q) && NoDot(x) && NoDot(y) && p + x == q + y
    ensures p == q && x == y
  {
    hide LastStart;
    LastStartIs(p, x);
    LastStartIs(q, y);
    assert p == (p + x)[..|p|] && q == (q + y)[..|q|];
    assert x == (p + x)[|p|..] && y == (q + y)[|q|..];
  }

  /** A dotted list ends, at a boundary, in another exactly when its last labels are the other's. */
  lemma {:induction false} SuffixLabels(x: seq<seq<Byte>>, y: seq<seq<Byte>>, p: seq<Byte>)
    requires Undotted(x) && Undotted(y) && AtBoundary(p) && |y| <= |x|
    requires Dotted(x) == p + Dotted(y)
    ensures y == x[|x| - |y|..]
    decreases |y|
  {
    hide Dotted;
    if y != [] {
      var x', y' := x[..|x| - 1], y[..|y| - 1];
      var l, m := x[|x| - 1], y[|y| - 1];
      DottedEnd(x);
      DottedEnd(y);
      DottedAtBoundary(x');
      DottedAtBoundary(y');
      assert (Dotted(x') + l) + [DOT] == (p + Dotted(y') + m) + [DOT];
      DropLast(Dotted(x') + l, p + Dotted(y') + m);
      SameLastLabel(Dotted(x'), l, p + Dotted(y'), m);
      SuffixLabels(x', y', p);
      assert x == x' + [l] && y == y' + [m];
    }
  }

  lemma DropLast(a: seq<Byte>, b: seq<Byte>)
    requires a + [DOT] == b + [DOT]
    ensures a == b
  {
    assert a == (a + [DOT])[..|a|] && b == (b + [DOT])[..|b|];
  }

  lemma UnitLabelNoDot(a: seq<Byte>, k: nat)
    requires k < Count(a)
    ensures NoDot(UnitLabel(a, k))
  {
    if |a| == 4 {
      assert forall i :: 0 <= i < |Decimal(a[k])| ==> IsDigit(Decimal(a[k])[i]);
    }
  }

  lemma UnitLabelTells(a: seq<Byte>, b: seq<Byte>, k: nat)
    requires |a| == |b| && k < Count(a)
    ensures UnitLabel(a, k) == UnitLabel(b, k) <==> Unit(a, k) == Unit(b, k)
  {
    if |a| == 4 {
      DecimalValue(a[k]);
      DecimalValue(b[k]);
    } else {
      assert UnitLabel(a, k)[0] == HexDigit(Unit(a, k)) && UnitLabel(b, k)[0] == HexDigit(Unit(b, k));
    }
  }

  lemma ArpaUndotted(a: seq<Byte>)
    ensures Undotted(ArpaLabels(a))
  {
    forall i | 0 <= i < Count(a) ensures NoDot(ArpaLabels(a)[i]) {
      UnitLabelNoDot(a, Count(a) - 1 - i);
    }
  }

  /** The first n units agree. */
  ghost predicate SameUnits(a: seq<Byte>, b: seq<Byte>, n: nat)
    requires |a| == |b| && n <= Count(a)
  {
    forall k :: 0 <= k < n ==> Unit(a, k) == Unit(b, k)
  }

  /** The last n reverse labels are the labels of the first n units. */
  lemma LastLabels(a: seq<Byte>, b: seq<Byte>, n: nat)
    requires |a| == |b| && n <= Count(a)
    ensures ArpaLabels(a)[Count(a) - n..] == ArpaLabels(b)[Count(a) - n..] <==> SameUnits(a, b, n)
  {
    hide UnitLabel, Unit;
    var x, y := ArpaLabels(a)[Count(a) - n..], ArpaLabels(b)[Count(a) - n..];
    forall k | 0 <= k < n ensures x[n - 1 - k] == y[n - 1 - k] <==> Unit(a, k) == Unit(b, k) {
      UnitLabelTells(a, b, k);
    }
    if SameUnits(a, b, n) {
      forall i | 0 <= i < n ensures x[i] == y[i] {
        assert x[n - 1 - (n - 1 - i)] == y[n - 1 - (n - 1 - i)] <==> Unit(a, n - 1 - i) == Unit(b, n - 1 - i);
      }
      assert x == y;
    }
  }

  /** Being in a zone is ending in it at a boundary. */
  lemma InZoneIs(name: seq<Byte>, zone: seq<Byte>)
    ensures InZone(name, zone) <==>
      |zone| <= |name| && name == name[..|name| - |zone|] + zone && AtBoundary(name[..|name| - |zone|])
  {
    if HasSuffix(name, [DOT] + zone) {
      var p := name[..|name| - |zone|];
      assert name == name[..|name| - |zone| - 1] + ([DOT] + zone);
      assert p == name[..|name| - |zone| - 1] + [DOT];
    }
    if |zone| < |name| && name == name[..|name| - |zone|] + zone && AtBoundary(name[..|name| - |zone|]) {
      assert name[|name| - |zone| - 1..] == [DOT] + zone;
    }
  }

  lemma Cancels(x: seq<Byte>, p: seq<Byte>, y: seq<Byte>, suffix: seq<Byte>)
    ensures x + suffix == p + (y + suffix) <==> x == p + y
  {
    if x + suffix == p + (y + suffix) {
      assert x == (x + suffix)[..|x|];
      assert p + y == (p + (y + suffix))[..|x|];
    }
    assert (p + y) + suffix == p + (y + suffix);
  }

  /** A PTR name is in a zone of its own tree exactly when the zone's labels are its last ones. */
  lemma InZoneLabels(x: seq<seq<Byte>>, y: seq<seq<Byte>>, suffix: seq<Byte>)
    requires Undotted(x) && Undotted(y) && |y| <= |x|
    ensures InZone(Dotted(x) + suffix, Dotted(y) + suffix) <==> y == x[|x| - |y|..]
  {
    hide Dotted, InZone, Undotted;
    var name, zone := Dotted(x) + suffix, Dotted(y) + suffix;
    InZoneIs(name, zone);
    if InZone(name, zone) {
      var p := name[..|name| - |zone|];
      Cancels(Dotted(x), p, Dotted(y), suffix);
      SuffixLabels(x, y, p);
    }
    if y == x[|x| - |y|..] {
      var before := x[..|x| - |y|];
      DottedJoins(before, y);
      assert x == before + y;
      DottedAtBoundary(before);
      Cancels(Dotted(x), Dotted(before), Dotted(y), suffix);
      assert name[..|name| - |zone|] == Dotted(before);
    }
  }

  // ----- units and bits ------------------------------------------------------------------------

  lemma Halves(n: int, m: int)
    ensures n == m <==> n / 2 == m / 2 && n % 2 == m % 2
  {
  }

  lemma ShiftedAway(o: Byte)
    ensures Shifted(o, 8) == 0
  {
    ShiftedFour(o);
    var h := Shifted(o, 4);
    assert Shifted(o, 5) == h / 2 && Shifted(o, 6) == h / 2 / 2;
    assert Shifted(o, 7) == h / 2 / 2 / 2;
  }

  lemma ShiftedFour(o: Byte)
    ensures Shifted(o, 4) == o / 16
  {
    assert Shifted(o, 0) == o;
    assert Shifted(o, 1) == o / 2;
    assert Shifted(o, 2) == o / 4;
    assert Shifted(o, 3) == o / 8;
  }

  /** The top j bits agree exactly when what is left after shifting the others out does. */
  lemma {:induction false} TopBits(o: Byte, p: Byte, j: nat)
    requires j <= 8
    ensures Shifted(o, 8 - j) == Shifted(p, 8 - j) <==> forall i :: 0 <= i < j ==> OctetBit(o, i) == OctetBit(p, i)
  {
    hide Shifted;
    if j == 0 {
      ShiftedAway(o);
      ShiftedAway(p);
    } else {
      TopBits(o, p, j - 1);
      ShiftedStep(o, 9 - j);
      ShiftedStep(p, 9 - j);
      Halves(Shifted(o, 8 - j), Shifted(p, 8 - j));
      assert OctetBit(o, j - 1) == Shifted(o, 8 - j) % 2 && OctetBit(p, j - 1) == Shifted(p, 8 - j) % 2;
    }
  }

  lemma ShiftedStep(o: Byte, n: nat)
    requires n > 0
    ensures Shifted(o, n) == Shifted(o, n - 1) / 2
  {
  }

  lemma OctetTells(o: Byte, p: Byte)
    ensures o == p <==> forall i :: 0 <= i < 8 ==> OctetBit(o, i) == OctetBit(p, i)
    ensures o / 16 == p / 16 <==> forall i :: 0 <= i < 4 ==> OctetBit(o, i) == OctetBit(p, i)
    ensures o == p <==> o / 16 == p / 16 && o % 16 == p % 16
  {
    TopBits(o, p, 8);
    TopBits(o, p, 4);
    ShiftedFour(o);
    ShiftedFour(p);
    assert Shifted(o, 0) == o && Shifted(p, 0) == p;
  }

  /** Leading bits up to a label boundary agree exactly when the leading units do. */
  lemma BitsAreUnits(a: seq<Byte>, b: seq<Byte>, n: nat)
    requires IsAddress(a) && |a| == |b| && n <= Count(a)
    ensures (forall i :: 0 <= i < Per(a) * n ==> Bit(a, i) == Bit(b, i)) <==> SameUnits(a, b, n)
  {
    hide OctetBit;
    if |a| == 4 {
      OctetsAreBits(a, b, n);
    } else {
      NibblesAreBits(a, b, n);
    }
  }

  lemma OctetsAreBits(a: seq<Byte>, b: seq<Byte>, n: nat)
    requires |a| == |b| == 4 && n <= 4
    ensures (forall i :: 0 <= i < 8 * n ==> Bit(a, i) == Bit(b, i)) <==> SameUnits(a, b, n)
  {
    hide OctetBit;
    forall k | 0 <= k < 4 ensures a[k] == b[k] <==> forall j :: 0 <= j < 8 ==> OctetBit(a[k], j) == OctetBit(b[k], j) {
      OctetTells(a[k], b[k]);
    }
    if forall i :: 0 <= i < 8 * n ==> Bit(a, i) == Bit(b, i) {
      forall k | 0 <= k < n ensures a[k] == b[k] {
        forall j | 0 <= j < 8 ensures OctetBit(a[k], j) == OctetBit(b[k], j) {
          assert Bit(a, 8 * k + j) == Bit(b, 8 * k + j);
        }
      }
    }
    if SameUnits(a, b, n) {
      forall i | 0 <= i < 8 * n ensures Bit(a, i) == Bit(b, i) {
        assert Unit(a, i / 8) == Unit(b, i / 8);
      }
    }
  }

  lemma NibblesAreBits(a: seq<Byte>, b: seq<Byte>, n: nat)
    requires |a| == |b| == 16 && n <= 32
    ensures (forall i :: 0 <= i < 4 * n ==> Bit(a, i) == Bit(b, i)) <==> SameUnits(a, b, n)
  {
    hide OctetBit;
    if forall i :: 0 <= i < 4 * n ==> Bit(a, i) == Bit(b, i) {
      forall k | 0 <= k < n ensures Unit(a, k) == Unit(b, k) {
        var o := k / 2;
        OctetTells(a[o], b[o]);
        forall j | 0 <= j < 8 && 8 * o + j < 4 * n ensures OctetBit(a[o], j) == OctetBit(b[o], j) {
          assert Bit(a, 8 * o + j) == Bit(b, 8 * o + j);
        }
      }
    }
    if SameUnits(a, b, n) {
      forall i | 0 <= i < 4 * n ensures Bit(a, i) == Bit(b, i) {
        var o := i / 8;
        OctetTells(a[o], b[o]);
        assert Unit(a, 2 * o) == Unit(b, 2 * o);
        if i % 8 >= 4 {
          assert Unit(a, 2 * o + 1) == Unit(b, 2 * o + 1);
        }
      }
    }
  }

  lemma MaskOctetKeeps(o: Byte)
    ensures MaskOctet(o, 8) == o && MaskOctet(o, 4) / 16 == o / 16
  {
    PowFour();
    assert IpCalc.Pow2(0) == 1;
  }

  lemma PowFour()
    ensures IpCalc.Pow2(4) == 16
  {
  }

  /** Clearing what is past the length changes none of the units the length names. */
  lemma MaskKeepsUnits(p: Prefix)
    requires IsPrefix(p) && p.bits % Per(p.addr) == 0
    ensures SameUnits(Masked(p), p.addr, p.bits / Per(p.addr))
  {
    hide MaskOctet;
    forall k | 0 <= k < p.bits / Per(p.addr) ensures Unit(Masked(p), k) == Unit(p.addr, k) {
      var o := if |p.addr| == 4 then k else k / 2;
      MaskOctetKeeps(p.addr[o]);
      assert |p.addr| == 16 ==> p.bits >= 8 * o + 8 || (p.bits == 8 * o + 4 && k % 2 == 0);
    }
  }

  /** Names of the other family's tree are never in the zone. */
  lemma TreesApart(x: seq<Byte>, y: seq<Byte>)
    ensures !InZone(x + ARPA_V4, y + ARPA_V6) && !InZone(x + ARPA_V6, y + ARPA_V4)
  {
    hide InZone;
    SeventhFromEnd(x);
    SeventhFromEnd(y);
    EndsAlike(x + ARPA_V4, y + ARPA_V6);
    EndsAlike(x + ARPA_V6, y + ARPA_V4);
  }

  lemma SeventhFromEnd(x: seq<Byte>)
    ensures (x + ARPA_V4)[|x + ARPA_V4| - 7] == 114 && (x + ARPA_V6)[|x + ARPA_V6| - 7] == 54
  {
  }

  lemma EndsAlike(name: seq<Byte>, zone: seq<Byte>)
    requires |zone| >= 7
    ensures InZone(name, zone) ==> |name| >= 7 && name[|name| - 7] == zone[|zone| - 7]
  {
    InZoneIs(name, zone);
  }

  /** An address has its PTR name in a prefix's zone exactly when the prefix contains it. */
  lemma PtrInZone(p: Prefix, a: seq<Byte>)
    requires IsPrefix(p) && IsAddress(a) && ReverseZone(p).Some?
    ensures InZone(PtrName(a), ReverseZone(p).value) <==> Contains(p, a)
  {
    hide InZone, Dotted, Bit, Masked, UnitLabel;
    if |a| != |p.addr| {
      var labels, n := ArpaLabels(Masked(p)), p.bits / Per(p.addr);
      TreesApart(Dotted(ArpaLabels(a)), Dotted(labels[|labels| - n..]));
    } else {
      SameTree(p, a);
    }
  }

  lemma UndottedTail(x: seq<seq<Byte>>, i: nat)
    requires Undotted(x) && i <= |x|
    ensures Undotted(x[i..])
  {
  }

  lemma UnitsCompose(a: seq<Byte>, b: seq<Byte>, c: seq<Byte>, n: nat)
    requires |a| == |b| == |c| && n <= Count(a) && SameUnits(a, b, n)
    ensures SameUnits(a, c, n) <==> SameUnits(c, b, n)
  {
    hide Unit;
  }

  lemma TailLabels(m: seq<Byte>, a: seq<Byte>, n: nat)
    requires |m| == |a| && n <= Count(a) && |ArpaLabels(m)| == Count(a)
    ensures InZone(PtrName(a), Dotted(ArpaLabels(m)[Count(a) - n..]) + Suffix(a)) <==> SameUnits(m, a, n)
  {
    hide InZone, Dotted, ArpaLabels, SameUnits, Undotted, Suffix;
    ArpaLength(a);
    ArpaUndotted(a);
    ArpaUndotted(m);
    UndottedTail(ArpaLabels(m), Count(a) - n);
    InZoneLabels(ArpaLabels(a), ArpaLabels(m)[Count(a) - n..], Suffix(a));
    LastLabels(m, a, n);
  }

  lemma SameTreeLabels(p: Prefix, a: seq<Byte>)
    requires IsPrefix(p) && IsAddress(a) && ReverseZone(p).Some? && |a| == |p.addr|
    ensures InZone(PtrName(a), ReverseZone(p).value) <==> SameUnits(a, p.addr, p.bits / Per(p.addr))
  {
    hide InZone, PtrName, Dotted, Masked, ArpaLabels, SameUnits;
    var n, m := p.bits / Per(p.addr), Masked(p);
    ArpaLength(m);
    TailLabels(m, a, n);
    MaskKeepsUnits(p);
    UnitsCompose(m, p.addr, a, n);
  }

  lemma SameTree(p: Prefix, a: seq<Byte>)
    requires IsPrefix(p) && IsAddress(a) && ReverseZone(p).Some? && |a| == |p.addr|
    ensures InZone(PtrName(a), ReverseZone(p).value) <==> Contains(p, a)
  {
    hide InZone, Dotted, Masked, ArpaLabels, SameUnits, Bit;
    SameTreeLabels(p, a);
    BitsAreUnits(a, p.addr, p.bits / Per(p.addr));
  }

  /**
   reverseZoneFor: the zone of the first configured network that holds the address,
   which is then a zone its PTR name is in; none when no network does.
   */
  method ReverseZoneFor(nets: seq<Prefix>, a: seq<Byte>) returns (zone: Option<seq<Byte>>)
    requires IsAddress(a)
    requires forall k :: 0 <= k < |nets| ==> IsPrefix(nets[k]) && ReverseZone(nets[k]).Some?
    ensures zone.None? <==> forall k :: 0 <= k < |nets| ==> !Contains(nets[k], a)
    ensures zone.Some? ==> InZone(PtrName(a), zone.value)
    ensures zone.Some? ==> exists i :: FirstNet(nets, a, i) && zone == ReverseZone(nets[i])
  {
    hide InZone, PtrName, ReverseZone, Contains;
    for n := 0 to |nets|
      invariant forall k :: 0 <= k < n ==> !Contains(nets[k], a)
    {
      if Contains(nets[n], a) {
        PtrInZone(nets[n], a);
        assert FirstNet(nets, a, n);
        return ReverseZone(nets[n]);
      }
    }
    return None;
  }

  ghost predicate FirstNet(nets: seq<Prefix>, a: seq<Byte>, i: int)
    requires forall k :: 0 <= k < |nets| ==> IsPrefix(nets[k])
  {
    0 <= i < |nets| && Contains(nets[i], a) && forall k :: 0 <= k < i ==> !Contains(nets[k], a)
  }
}
