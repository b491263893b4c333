/**
 DNS names in `plugins/ddns/name.go`: the names a client may ask for, their wire form
 and back, and the reverse names of addresses.
 */
module DdnsName {
  import opened Wrappers
  import opened Octets

  const MAX_LABEL: nat := 63
  const MAX_NAME: nat := 253

  const DOT: Byte := 46
  const HYPHEN: Byte := 45

  // ----- letters ---------------------------------------------------------------------------

  function LowerByte(b: Byte): Byte {
    if 65 <= b <= 90 then b + 32 else b
  }

  function Lower(s: seq<Byte>): (r: seq<Byte>)
    ensures |r| == |s| && forall i :: 0 <= i < |s| ==> r[i] == LowerByte(s[i])
  {
    seq(|s|, i requires 0 <= i < |s| => LowerByte(s[i]))
  }

  // strings.ToLower and strings.TrimSpace follow Unicode tables; they enter as functions.
  type Casing = seq<Byte> -> seq<Byte>

  predicate Ascii(s: seq<Byte>) {
    forall i :: 0 <= i < |s| ==> s[i] < 128
  }

  /**
   What is asked of a lowercasing: on ASCII it is the plain one, and what it has
   lowercased it leaves alone, label by label.
   */
  ghost predicate IsLowercasing(f: Casing) {
    && (forall s :: Ascii(s) ==> f(s) == Lower(s))
    && (forall s, l :: l in Labels(f(s)) ==> f(l) == l)
  }

  function TrimSuffixDot(s: seq<Byte>): seq<Byte> {
    if s != [] && s[|s| - 1] == DOT then s[..|s| - 1] else s
  }

  predicate HasSuffix(s: seq<Byte>, suffix: seq<Byte>) {
    |suffix| <= |s| && s[|s| - |suffix|..] == suffix
  }

  // ----- labels -----------------------------------------------------------------------------

  predicate NoDot(s: seq<Byte>) {
    DOT !in s
  }

  /** The pieces of a name between its dots. */
  function Labels(s: seq<Byte>): (r: seq<seq<Byte>>)
    ensures r != [] && forall l :: l in r ==> NoDot(l)
  {
    var i := FirstDot(s);
    if i == |s| then [s] else [s[..i]] + Labels(s[i + 1..])
  }

  function FirstDot(s: seq<Byte>): (i: nat)
    ensures i <= |s| && (i < |s| ==> s[i] == DOT)
    ensures forall k :: 0 <= k < i ==> s[k] != DOT
  {
    if s == [] || s[0] == DOT then 0 else 1 + FirstDot(s[1..])
  }

  /** Every label followed by its dot. */
  function Dotted(labels: seq<seq<Byte>>): seq<Byte> {
    if labels == [] then [] else labels[0] + [DOT] + Dotted(labels[1..])
  }

  lemma {:induction false} DottedLabels(s: seq<Byte>)
    ensures Dotted(Labels(s)) == s + [DOT]
    decreases |s|
  {
    hide FirstDot;
    var i := FirstDot(s);
    if i == |s| {
      assert [s][1..] == [];
    } else {
      DottedLabels(s[i + 1..]);
      assert Labels(s)[1..] == Labels(s[i + 1..]);
      assert s == s[..i] + [DOT] + s[i + 1..];
    }
  }

  predicate NameByte(b: Byte) {
    97 <= b <= 122 || IsDigit(b) || b == HYPHEN
  }

  predicate ValidLabel(l: seq<Byte>) {
    && 1 <= |l| <= MAX_LABEL && l[0] != HYPHEN && l[|l| - 1] != HYPHEN
    && forall i :: 0 <= i < |l| ==> NameByte(l[i])
  }

  predicate ValidName(name: seq<Byte>) {
    name != [] && |name| <= MAX_NAME && forall l :: l in Labels(name) ==> ValidLabel(l)
  }

  /** onlyNameBytes, octet by octet. */
  method OnlyNameBytes(l: seq<Byte>) returns (ok: bool)
    ensures ok == (forall i :: 0 <= i < |l| ==> NameByte(l[i]))
  {
    for i := 0 to |l|
      invariant forall k :: 0 <= k < i ==> NameByte(l[k])
    {
      if !NameByte(l[i]) {
        return false;
      }
    }
    return true;
  }

  // ----- names a client may ask for ------------------------------------------------------------

  datatype Refusal = NoHostname | InvalidHostname | OutsideZone
  datatype Hosted = Fqdn(name: seq<Byte>) | Refused(why: Refusal)

  function HostFQDN(f: Casing, trim: Casing, raw: seq<Byte>, zone: seq<Byte>): Hosted {
    var asked := f(TrimSuffixDot(trim(raw)));
    if asked == [] then Refused(NoHostname) else
    var name := if NoDot(asked) then asked + [DOT] + TrimSuffixDot(zone) else asked;
    if !ValidName(name) then Refused(InvalidHostname) else
    var fqdn := name + [DOT];
    if !HasSuffix(fqdn, [DOT] + zone) then Refused(OutsideZone) else Fqdn(fqdn)
  }

  // ----- the wire form ------------------------------------------------------------------------

  predicate Packable(l: seq<Byte>) {
    1 <= |l| <= MAX_LABEL
  }

  function Size(l: seq<Byte>): Byte
    requires Packable(l)
  {
    |l|
  }

  function PackLabels(labels: seq<seq<Byte>>): seq<Byte>
    requires forall l :: l in labels ==> Packable(l)
  {
    if labels == [] then [] else [Size(labels[0])] + labels[0] + PackLabels(labels[1..])
  }

  /** packName: lowercase, uncompressed, or nothing when a label will not go on the wire. */
  function PackName(f: Casing, name: seq<Byte>): Option<seq<Byte>> {
    if !HasSuffix(name, [DOT]) then None else
    var body := f(name[..|name| - 1]);
    if body == [] then Some([0])
    else if exists l :: l in Labels(body) && !Packable(l) then None
    else Some(PackLabels(Labels(body)) + [0])
  }

  function OrRoot(name: seq<Byte>): seq<Byte> {
    if name == [] then [DOT] else name
  }

  /** readName from an offset, with what was read so far. */
  function ReadFrom(f: Casing, b: seq<Byte>, off: nat, out: seq<Byte>): Option<(seq<Byte>, nat)>
    decreases |b| - off
  {
    if off >= |b| then None
    else if b[off] == 0 then Some((OrRoot(out), off + 1))
    else if b[off] > MAX_LABEL || off + 1 + b[off] > |b| then None
    else ReadFrom(f, b, off + 1 + b[off], out + f(b[off + 1..off + 1 + b[off]]) + [DOT])
  }

  function ReadName(f: Casing, b: seq<Byte>): Option<(seq<Byte>, nat)> {
    ReadFrom(f, b, 0, [])
  }

  method PackNameLoop(f: Casing, name: seq<Byte>) returns (r: Option<seq<Byte>>)
    ensures r == PackName(f, name)
  {
    if !HasSuffix(name, [DOT]) {
      return None;
    }
    var body := f(name[..|name| - 1]);
    if body == [] {
      return Some([0]);
    }
    var out, labels := [], Labels(body);
    for i := 0 to |labels|
      invariant forall k :: 0 <= k < i ==> Packable(labels[k])
      invariant forall l :: l in labels[..i] ==> Packable(l)
      invariant out == PackLabels(labels[..i])
    {
      if !Packable(labels[i]) {
        assert labels[i] in labels;
        return None;
      }
      assert labels[..i + 1] == labels[..i] + [labels[i]];
      PackLabelsEnd(labels[..i], labels[i]);
      out := out + [Size(labels[i])] + labels[i];
    }
    assert labels[..|labels|] == labels;
    return Some(out + [0]);
  }

  lemma {:induction false} PackLabelsEnd(labels: seq<seq<Byte>>, l: seq<Byte>)
    requires (forall m :: m in labels ==> Packable(m)) && Packable(l)
    ensures PackLabels(labels + [l]) == PackLabels(labels) + [Size(l)] + l
  {
    if labels == [] {
      assert [l][1..] == [];
    } else {
      PackLabelsEnd(labels[1..], l);
      assert (labels + [l])[1..] == labels[1..] + [l];
    }
  }

  method ReadNameLoop(f: Casing, b: seq<Byte>) returns (r: Option<(seq<Byte>, nat)>)
    ensures r == ReadName(f, b)
  {
    var out, off := [], 0;
    while off < |b|
      invariant ReadFrom(f, b, off, out) == ReadName(f, b)
      decreases |b| - off
    {
      var length := b[off];
      if length == 0 {
        return Some((OrRoot(out), off + 1));
      }
      if length > MAX_LABEL {
        return None;
      }
      off := off + 1;
      if off + length > |b| {
        return None;
      }
      out := out + f(b[off..off + length]);
      out := out + [DOT];
      off := off + length;
    }
    return None;
  }

  // ----- the round trip -------------------------------------------------------------------------

  lemma ReadStep(f: Casing, b: seq<Byte>, off: nat, out: seq<Byte>, l: seq<Byte>)
    requires Packable(l) && f(l) == l && off + 1 + |l| <= |b|
    requires b[off] == |l| && b[off + 1..off + 1 + |l|] == l
    ensures ReadFrom(f, b, off, out) == ReadFrom(f, b, off + 1 + |l|, out + l + [DOT])
  {
  }

  /** Reading packed labels, wherever they stand, gives them back dotted. */
  lemma {:induction false} ReadPacked(f: Casing, pre: seq<Byte>, labels: seq<seq<Byte>>, tail: seq<Byte>, out: seq<Byte>)
    requires forall l :: l in labels ==> Packable(l) && f(l) == l
    ensures ReadFrom(f, pre + PackLabels(labels) + [0] + tail, |pre|, out)
         == Some((OrRoot(out + Dotted(labels)), |pre| + |PackLabels(labels)| + 1))
    decreases |labels|
  {
    hide ReadFrom;
    var b := pre + PackLabels(labels) + [0] + tail;
    if labels == [] {
      assert out + Dotted(labels) == out;
      ReadEnd(f, b, |pre|, out);
    } else {
      var l, rest := labels[0], labels[1..];
      var head := pre + ([Size(l)] + l);
      assert b == head + PackLabels(rest) + [0] + tail;
      assert b[|pre| + 1..|pre| + 1 + |l|] == l;
      ReadStep(f, b, |pre|, out, l);
      ReadPacked(f, head, rest, tail, out + l + [DOT]);
      assert out + Dotted(labels) == out + l + [DOT] + Dotted(rest);
    }
  }

  lemma ReadEnd(f: Casing, b: seq<Byte>, off: nat, out: seq<Byte>)
    requires off < |b| && b[off] == 0
    ensures ReadFrom(f, b, off, out) == Some((OrRoot(out), off + 1))
  {
  }

  lemma {:induction false} PackedSize(labels: seq<seq<Byte>>)
    requires forall l :: l in labels ==> Packable(l)
    ensures |PackLabels(labels)| == |Dotted(labels)|
  {
    if labels != [] {
      PackedSize(labels[1..]);
    }
  }

  lemma LabelsLower(s: seq<Byte>, l: seq<Byte>)
    requires Lower(s) == s && l in Labels(s)
    ensures Lower(l) == l
    decreases |s|
  {
    var i := FirstDot(s);
    if i == |s| {
      assert l == s;
    } else if l == s[..i] {
      assert forall k :: 0 <= k < i ==> l[k] == s[k];
    } else {
      var rest := s[i + 1..];
      assert forall k :: 0 <= k < |rest| ==> rest[k] == s[k + i + 1];
      assert Lower(rest) == rest;
      LabelsLower(s[i + 1..], l);
    }
  }

  /** The plain lowercasing is one. */
  lemma LowerIsLowercasing()
    ensures IsLowercasing(Lower)
  {
    forall s, l | l in Labels(Lower(s)) ensures Lower(l) == l {
      assert Lower(Lower(s)) == Lower(s);
      LabelsLower(Lower(s), l);
    }
  }

  /** A fully qualified name, lowercased. */
  function Canonical(f: Casing, name: seq<Byte>): seq<Byte>
    requires name != []
  {
    f(name[..|name| - 1]) + [DOT]
  }

  /** Whatever packs is read back, lowercased, off any tail, and takes one octet more than its lowercased text. */
  lemma PackReadsBack(f: Casing, name: seq<Byte>, tail: seq<Byte>)
    requires IsLowercasing(f) && PackName(f, name).Some?
    ensures var w := PackName(f, name).value;
      && name != [] && ReadName(f, w + tail) == Some((Canonical(f, name), |w|))
      && |w| == (if Canonical(f, name) == [DOT] then 1 else |Canonical(f, name)| + 1)
  {
    hide ReadFrom, Labels, PackLabels, Dotted, FirstDot;
    var body, w := f(name[..|name| - 1]), PackName(f, name).value;
    if body == [] {
      ReadRoot(f, tail);
      assert body + [DOT] == [DOT];
    } else {
      var labels := Labels(body);
      ReadPacked(f, [], labels, tail, []);
      assert [] + PackLabels(labels) + [0] + tail == w + tail;
      DottedLabels(body);
      PackedSize(labels);
      assert [] + Dotted(labels) == body + [DOT];
    }
  }

  lemma ReadRoot(f: Casing, tail: seq<Byte>)
    ensures ReadName(f, [0] + tail) == Some(([DOT], 1))
  {
  }

  /** Every name a client is given goes on the wire within 255 octets, reads back as itself, and is under the zone. */
  lemma HostedNamesPack(f: Casing, trim: Casing, raw: seq<Byte>, zone: seq<Byte>, tail: seq<Byte>)
    requires IsLowercasing(f) && HostFQDN(f, trim, raw, zone).Fqdn?
    ensures var n := HostFQDN(f, trim, raw, zone).name;
      && PackName(f, n).Some? && |PackName(f, n).value| <= 255
      && ReadName(f, PackName(f, n).value + tail) == Some((n, |PackName(f, n).value|))
      && HasSuffix(n, [DOT] + zone)
  {
    hide ReadFrom, PackLabels, FirstDot, Labels;
    var n := HostFQDN(f, trim, raw, zone).name;
    var body := n[..|n| - 1];
    ValidIsLower(body);
    assert f(body) == body && n == body + [DOT];
    PackReadsBack(f, n, tail);
  }

  lemma {:induction false} ValidIsLower(name: seq<Byte>)
    requires forall l :: l in Labels(name) ==> ValidLabel(l)
    ensures Ascii(name) && Lower(name) == name
    decreases |name|
  {
    hide Lower, FirstDot;
    var i := FirstDot(name);
    if i == |name| {
      assert name in Labels(name);
      assert Lower(name) == name;
    } else {
      var rest := name[i + 1..];
      assert Labels(name) == [name[..i]] + Labels(rest);
      assert name[..i] in Labels(name);
      assert forall l :: l in Labels(rest) ==> l in Labels(name);
      ValidIsLower(rest);
      assert name == name[..i] + [DOT] + rest;
      assert Lower(name) == Lower(name[..i]) + [DOT] + Lower(rest);
      assert Lower(name[..i]) == name[..i];
    }
  }

  // ----- which names a client is given ----------------------------------------------------------

  /** What a client's text comes to: trimmed, without a final dot, in lowercase. */
  function Asked(f: Casing, trim: Casing, raw: seq<Byte>): seq<Byte> {
    var t := trim(raw);
    f(if t != [] && t[|t| - 1] == 46 then t[..|t| - 1] else t)
  }

  /** A name of at most 253 octets whose labels are 1 to 63 lowercase letters, digits and inner hyphens. */
  ghost predicate Proper(name: seq<Byte>) {
    && 1 <= |name| <= 253
    && forall l :: l in Labels(name) ==>
      && 1 <= |l| <= 63 && l[0] != 45 && l[|l| - 1] != 45
      && forall i :: 0 <= i < |l| ==> 97 <= l[i] <= 122 || 48 <= l[i] <= 57 || l[i] == 45
  }

  lemma ProperIsValid(name: seq<Byte>)
    ensures Proper(name) <==> ValidName(name)
  {
    hide Labels;
  }

  /** A bare host name is given the zone's name behind it, if the two together are proper; nothing else is ever refused it. */
  lemma BareNameJoinsTheZone(f: Casing, trim: Casing, raw: seq<Byte>, zone: seq<Byte>)
    requires var asked := Asked(f, trim, raw); asked != [] && 46 !in asked
    requires zone != [] && zone[|zone| - 1] == 46
    ensures var asked := Asked(f, trim, raw);
      HostFQDN(f, trim, raw, zone) ==
        if Proper(asked + [46] + zone[..|zone| - 1]) then Fqdn(asked + [46] + zone) else Refused(InvalidHostname)
  {
    hide Labels, Proper, ValidName;
    var asked := Asked(f, trim, raw);
    var name := asked + [46] + zone[..|zone| - 1];
    ProperIsValid(name);
    assert name + [46] == asked + ([46] + zone);
  }

  lemma SuffixIs(n: seq<Byte>, zone: seq<Byte>)
    ensures HasSuffix(n, [46] + zone) <==> exists host :: n == host + [46] + zone
  {
    if HasSuffix(n, [46] + zone) {
      var host := n[..|n| - |zone| - 1];
      assert n == host + ([46] + zone);
      assert n == host + [46] + zone;
    }
    if exists host :: n == host + [46] + zone {
      var host :| n == host + [46] + zone;
      assert n == host + ([46] + zone);
    }
  }

  /** A name with dots is taken as it stands: proper and below the zone, or refused, and the reason says which. */
  lemma DottedNameStandsAlone(f: Casing, trim: Casing, raw: seq<Byte>, zone: seq<Byte>)
    requires var asked := Asked(f, trim, raw); asked != [] && 46 in asked
    ensures var asked := Asked(f, trim, raw);
      HostFQDN(f, trim, raw, zone) ==
        if !Proper(asked) then Refused(InvalidHostname)
        else if exists host :: asked + [46] == host + [46] + zone then Fqdn(asked + [46])
        else Refused(OutsideZone)
  {
    hide Labels, Proper, ValidName, HasSuffix;
    ProperIsValid(Asked(f, trim, raw));
    SuffixIs(Asked(f, trim, raw) + [46], zone);
  }

  /** Nothing asked for is nothing given. */
  lemma NoNameNoHost(f: Casing, trim: Casing, raw: seq<Byte>, zone: seq<Byte>)
    requires Asked(f, trim, raw) == []
    ensures HostFQDN(f, trim, raw, zone) == Refused(NoHostname)
  {
  }

  /** Whatever case a label has on the wire, it is read lowercased. */
  lemma ReadLowercases(f: Casing, l: seq<Byte>, tail: seq<Byte>)
    requires Packable(l)
    ensures ReadName(f, [|l| as Byte] + l + [0] + tail) == Some((f(l) + [46], |l| + 2))
  {
    var b := [|l| as Byte] + l + [0] + tail;
    assert b[1..1 + |l|] == l;
    assert ReadFrom(f, b, 0, []) == ReadFrom(f, b, 1 + |l|, [] + f(l) + [46]);
    assert [] + f(l) + [46] == f(l) + [46];
  }
}
