/**
 Transaction signatures in `plugins/ddns/tsig.go`, sections 4.2 and 4.3.3 of RFC 8945.
 The keyed hash is any function of the secret and the octets digested.
 */
module DdnsTsig {
  import opened Wrappers
  import opened Octets
  import opened DdnsName

  const FUDGE: nat := 300
  const HEADER: nat := 12
  const ARCOUNT: nat := 10
  const FIXED: nat := 10
  const TYPE_TSIG: nat := 250
  const CLASS_ANY: nat := 255

  /** A keyed hash: the secret, the input, the MAC. */
  type Hash = (seq<Byte>, seq<Byte>) -> seq<Byte>

  datatype Key = Key(name: seq<Byte>, nameWire: seq<Byte>, algo: seq<Byte>, algoWire: seq<Byte>, secret: seq<Byte>)

  // newTSIGKey packs both names; the algorithm is one of a fixed list of lowercase labels.
  predicate IsKey(f: Casing, k: Key) {
    && PackName(f, k.name) == Some(k.nameWire)
    && PackName(f, k.algo) == Some(k.algoWire) && k.algo != [] && Canonical(f, k.algo) == k.algo
  }

  // ----- fields ----------------------------------------------------------------------------

  function Be16(n: nat): (r: seq<Byte>)
    ensures |r| == 2
  {
    [n / 256 % 256, n % 256]
  }

  function U16(b: seq<Byte>): (r: nat)
    requires |b| == 2
    ensures r < 0x1_0000
  {
    256 * (b[0] as int) + b[1] as int
  }

  function Be32(n: nat): (r: seq<Byte>)
    ensures |r| == 4
  {
    Be16(n / 0x1_0000 % 0x1_0000) + Be16(n % 0x1_0000)
  }

  /** The low 48 bits. */
  function Be48(n: nat): (r: seq<Byte>)
    ensures |r| == 6
  {
    Be16(n / 0x1_0000_0000 % 0x1_0000) + Be32(n % 0x1_0000_0000)
  }

  function U48(b: seq<Byte>): nat
    requires |b| == 6
  {
    U16(b[..2]) * 0x1_0000_0000 + U16(b[2..4]) * 0x1_0000 + U16(b[4..])
  }

  lemma Be16Back(n: nat)
    ensures U16(Be16(n)) == n % 0x1_0000
  {
    var q, r := n / 0x1_0000, n % 0x1_0000;
    Split(q, r);
  }

  lemma Split(q: nat, r: nat)
    requires r < 0x1_0000
    ensures var n := 0x1_0000 * q + r; n / 256 % 256 == r / 256 && n % 256 == r % 256
  {
    var n := 0x1_0000 * q + r;
    assert n / 256 == 256 * q + r / 256;
  }

  lemma Be48Parts(n: nat)
    ensures var b, h, l := Be48(n), n / 0x1_0000_0000, n % 0x1_0000_0000;
      && b[..2] == Be16(h % 0x1_0000) && b[2..4] == Be16(l / 0x1_0000 % 0x1_0000)
      && b[4..] == Be16(l % 0x1_0000 % 0x1_0000)
  {
    hide Be16;
  }

  lemma Be48Back(n: nat)
    requires n < 0x1_0000_0000_0000
    ensures U48(Be48(n)) == n
  {
    hide Be16, U16, Be32, Be48;
    var h, l := n / 0x1_0000_0000, n % 0x1_0000_0000;
    Be48Parts(n);
    Be16Back(h % 0x1_0000);
    Be16Back(l / 0x1_0000 % 0x1_0000);
    Be16Back(l % 0x1_0000 % 0x1_0000);
    assert h < 0x1_0000 && l / 0x1_0000 < 0x1_0000;
  }

  /** A message with its ARCOUNT moved by one, as the sixteen-bit field wraps. */
  function Recounted(msg: seq<Byte>, step: int): (r: seq<Byte>)
    requires |msg| >= HEADER
    ensures |r| == |msg|
  {
    msg[..ARCOUNT] + Be16((U16(msg[ARCOUNT..HEADER]) + step) % 0x1_0000) + msg[HEADER..]
  }

  // ----- signing ------------------------------------------------------------------------------

  function Variables(k: Key, time: nat): seq<Byte> {
    k.nameWire + Be16(CLASS_ANY) + Be32(0) + k.algoWire + Be48(time) + Be16(FUDGE) + Be16(0) + Be16(0)
  }

  /** What is digested: the request's MAC with its length in an answer, the message, the variables. */
  function Digested(k: Key, msg: seq<Byte>, time: nat, requestMAC: seq<Byte>): seq<Byte> {
    (if requestMAC == [] then [] else Be16(|requestMAC|) + requestMAC) + msg + Variables(k, time)
  }

  function Digest(h: Hash, k: Key, msg: seq<Byte>, time: nat, requestMAC: seq<Byte>): seq<Byte> {
    h(k.secret, Digested(k, msg, time, requestMAC))
  }

  function Rdata(k: Key, time: nat, mac: seq<Byte>, origID: nat): seq<Byte> {
    k.algoWire + Be48(time) + Be16(FUDGE) + Be16(|mac|) + mac + Be16(origID) + Be16(0) + Be16(0)
  }

  function Record(owner: seq<Byte>, rdata: seq<Byte>): seq<Byte> {
    owner + Be16(TYPE_TSIG) + Be16(CLASS_ANY) + Be32(0) + Be16(|rdata|) + rdata
  }

  /**
   sign: the record appended, ARCOUNT up by one, and the MAC. A request is signed with
   no request MAC and the key's own wire form for an owner; a server may spell the owner
   of its answer in any case.
   */
  function Sign(h: Hash, k: Key, owner: seq<Byte>, msg: seq<Byte>, time: nat, origID: nat, requestMAC: seq<Byte>)
    : (seq<Byte>, seq<Byte>)
    requires |msg| >= HEADER
  {
    var mac := Digest(h, k, msg, time, requestMAC);
    (Recounted(msg + Record(owner, Rdata(k, time, mac, origID)), 1), mac)
  }

  // bytes.EqualFold follows Unicode tables; it enters as a function.
  type Folding = (seq<Byte>, seq<Byte>) -> bool

  /** The key's name on the wire, in any case. */
  predicate Folds(eq: Folding, k: Key, owner: seq<Byte>) {
    |owner| == |k.nameWire| && eq(owner, k.nameWire)
  }

  /** stripTSIG: the message as it was digested. */
  function Strip(eq: Folding, k: Key, msg: seq<Byte>, rdataLen: nat): Option<seq<Byte>> {
    var off := |msg| - rdataLen - FIXED - |k.nameWire|;
    if off < HEADER || !eq(msg[off..off + |k.nameWire|], k.nameWire) then None
    else Some(Recounted(msg[..off], -1))
  }

  // ----- reading the record -----------------------------------------------------------------------

  datatype Tsig = Tsig(algo: seq<Byte>, time: nat, fudge: nat, mac: seq<Byte>, origID: nat, rcode: nat,
    other: seq<Byte>, rdataLen: nat)

  /** rdataReader: what is left, until the first error. */
  datatype Reader = Reader(b: seq<Byte>, failed: bool)

  function Take(r: Reader, n: nat): (seq<Byte>, Reader) {
    if r.failed then ([], r)
    else if n > |r.b| then ([], r.(failed := true))
    else (r.b[..n], r.(b := r.b[n..]))
  }

  function TakeU16(r: Reader): (nat, Reader) {
    var (b, r') := Take(r, 2);
    (if |b| == 2 then U16(b) else 0, r')
  }

  function TakeU48(r: Reader): (nat, Reader) {
    var (b, r') := Take(r, 6);
    (if |b| == 6 then U48(b) else 0, r')
  }

  function TakeName(f: Casing, r: Reader): (seq<Byte>, Reader) {
    if r.failed then ([], r) else
    match ReadName(f, r.b)
    case None => ([], r.(failed := true))
    case Some((name, n)) => if n <= |r.b| then (name, r.(b := r.b[n..])) else ([], r.(failed := true))
  }

  function ParseRdata(f: Casing, rdata: seq<Byte>): Option<Tsig> {
    var (algo, r1) := TakeName(f, Reader(rdata, false));
    var (time, r2) := TakeU48(r1);
    var (fudge, r3) := TakeU16(r2);
    var (macLen, r4) := TakeU16(r3);
    var (mac, r5) := Take(r4, macLen);
    var (origID, r6) := TakeU16(r5);
    var (rcode, r7) := TakeU16(r6);
    var (otherLen, r8) := TakeU16(r7);
    var (other, r9) := Take(r8, otherLen);
    if r9.failed then None else Some(Tsig(algo, time, fudge, mac, origID, rcode, other, |rdata|))
  }

  /** The reader in its own form: it consumes its octets and keeps the first error. */
  class RdataReader {
    var b: seq<Byte>
    var failed: bool

    ghost function View(): Reader
      reads this
    {
      Reader(b, failed)
    }

    constructor (rdata: seq<Byte>)
      ensures View() == Reader(rdata, false)
    {
      b, failed := rdata, false;
    }

    method Next(n: nat) returns (out: seq<Byte>)
      modifies this
      ensures (out, View()) == Take(old(View()), n)
    {
      if failed {
        return [];
      }
      if n > |b| {
        failed := true;
        return [];
      }
      out := b[..n];
      b := b[n..];
    }

    method NextU16() returns (n: nat)
      modifies this
      ensures (n, View()) == TakeU16(old(View()))
    {
      var out := Next(2);
      n := if |out| == 2 then U16(out) else 0;
    }

    method NextU48() returns (n: nat)
      modifies this
      ensures (n, View()) == TakeU48(old(View()))
    {
      var out := Next(6);
      n := if |out| == 6 then U48(out) else 0;
    }

    method NextName(f: Casing) returns (name: seq<Byte>)
      modifies this
      ensures (name, View()) == TakeName(f, old(View()))
    {
      if failed {
        return [];
      }
      var r := ReadNameLoop(f, b);
      if r.None? || r.value.1 > |b| {
        failed := true;
        return [];
      }
      name := r.value.0;
      b := b[r.value.1..];
    }
  }

  method ParseTSIGRDATA(f: Casing, rdata: seq<Byte>) returns (rec: Option<Tsig>)
    ensures rec == ParseRdata(f, rdata)
  {
    hide Take, TakeU16, TakeU48, TakeName;
    var r := new RdataReader(rdata);
    var algo := r.NextName(f);
    var time := r.NextU48();
    var fudge := r.NextU16();
    var macLen := r.NextU16();
    var mac := r.Next(macLen);
    var origID := r.NextU16();
    var rcode := r.NextU16();
    var otherLen := r.NextU16();
    var other := r.Next(otherLen);
    if r.failed {
      return None;
    }
    return Some(Tsig(algo, time, fudge, mac, origID, rcode, other, |rdata|));
  }

  datatype Verdict = Accepted | WrongKey | ServerError | Misplaced | BadMAC

  function Verify(eq: Folding, h: Hash, k: Key, msg: seq<Byte>, owner: seq<Byte>, rec: Tsig, requestMAC: seq<Byte>): Verdict {
    if owner != k.name || rec.algo != k.algo then WrongKey
    else if rec.rcode != 0 then ServerError
    else match Strip(eq, k, msg, rec.rdataLen)
      case None => Misplaced
      case Some(unsigned) =>
        if Digest(h, k, unsigned, rec.time, requestMAC) != rec.mac then BadMAC else Accepted
  }

  // ----- the octets, as the standard has them ----------------------------------------------------------

  lemma FixedOctets()
    ensures Be16(TYPE_TSIG) == [0, 250] && Be16(CLASS_ANY) == [0, 255] && Be16(FUDGE) == [1, 44] && Be16(0) == [0, 0]
    ensures Be32(0) == [0, 0, 0, 0]
  {
  }

  /** Section 4.2 of RFC 8945: owner, type 250, class ANY, no time to live, the length of the data, the data. */
  lemma RecordLayout(owner: seq<Byte>, rdata: seq<Byte>)
    ensures Record(owner, rdata)
      == owner + [0, 250] + [0, 255] + [0, 0, 0, 0] + [|rdata| / 256 % 256, |rdata| % 256] + rdata
  {
    FixedOctets();
  }

  /**
   Section 4.3.3 of RFC 8945: an answer's digest starts with the length and the octets of
   the request's MAC; then comes the message without its signature; then the key's name,
   class ANY, no time to live, the algorithm, the time in 48 bits, a fudge of 300 seconds,
   no error and no other data.
   */
  lemma DigestLayout(k: Key, msg: seq<Byte>, time: nat, requestMAC: seq<Byte>)
    requires time < 0x1_0000_0000_0000
    ensures Digested(k, msg, time, requestMAC)
      == (if requestMAC == [] then [] else [|requestMAC| / 256 % 256, |requestMAC| % 256] + requestMAC)
         + msg + (k.nameWire + [0, 255] + [0, 0, 0, 0] + k.algoWire + TimeOctets(time) + [1, 44] + [0, 0] + [0, 0])
  {
    hide Be48, Be32;
    FixedOctets();
    TimeIsBigEndian(time);
  }

  /** The time in six octets, the most significant first. */
  function TimeOctets(n: nat): seq<Byte> {
    [n / 0x100_0000_0000 % 256, n / 0x1_0000_0000 % 256, n / 0x100_0000 % 256, n / 0x1_0000 % 256, n / 256 % 256, n % 256]
  }

  lemma TimeIsBigEndian(n: nat)
    requires n < 0x1_0000_0000_0000
    ensures Be48(n) == TimeOctets(n)
  {
    hide Be16;
    HighPair(n);
    MiddlePair(n);
    LowPair(n);
  }

  lemma HighPair(n: nat)
    requires n < 0x1_0000_0000_0000
    ensures Be16(n / 0x1_0000_0000 % 0x1_0000) == [n / 0x100_0000_0000 % 256, n / 0x1_0000_0000 % 256]
  {
    var h := n / 0x1_0000_0000;
    assert h < 0x1_0000 && h / 256 == n / 0x100_0000_0000;
  }

  lemma MiddlePair(n: nat)
    ensures Be16(n % 0x1_0000_0000 / 0x1_0000 % 0x1_0000) == [n / 0x100_0000 % 256, n / 0x1_0000 % 256]
  {
    var m := n / 0x1_0000;
    assert n % 0x1_0000_0000 / 0x1_0000 == m % 0x1_0000;
    PairOf(m);
    assert m / 256 == n / 0x100_0000;
  }

  lemma LowPair(n: nat)
    ensures Be16(n % 0x1_0000_0000 % 0x1_0000) == [n / 256 % 256, n % 256]
  {
    assert n % 0x1_0000_0000 % 0x1_0000 == n % 0x1_0000;
    PairOf(n);
  }

  lemma PairOf(m: nat)
    ensures Be16(m % 0x1_0000 % 0x1_0000) == [m / 256 % 256, m % 256]
  {
    Split(m / 0x1_0000, m % 0x1_0000);
    HalfOctets(m % 0x1_0000);
  }

  lemma HalfOctets(n: nat)
    requires n < 0x1_0000
    ensures Be16(n) == [n / 256, n % 256]
  {
  }

  /** Section 4.2 of RFC 8945, the data of the record. */
  lemma RdataLayout(k: Key, time: nat, mac: seq<Byte>, origID: nat)
    requires time < 0x1_0000_0000_0000
    ensures Rdata(k, time, mac, origID)
      == k.algoWire + TimeOctets(time) + [1, 44] + [|mac| / 256 % 256, |mac| % 256] + mac + [origID / 256 % 256, origID % 256] + [0, 0] + [0, 0]
  {
    hide Be48, Be32;
    FixedOctets();
    TimeIsBigEndian(time);
  }

  /** Signing appends exactly the record and counts it, in the two octets of ARCOUNT, and touches nothing else. */
  lemma SignLayout(h: Hash, k: Key, owner: seq<Byte>, msg: seq<Byte>, time: nat, origID: nat, requestMAC: seq<Byte>)
    requires |msg| >= 12
    ensures var (out, mac) := Sign(h, k, owner, msg, time, origID, requestMAC);
      var count := (256 * (msg[10] as int) + msg[11] as int + 1) % 0x1_0000;
      && mac == h(k.secret, Digested(k, msg, time, requestMAC))
      && out == msg[..10] + [count / 256, count % 256] + msg[12..] + Record(owner, Rdata(k, time, mac, origID))
  {
    hide Digested, Rdata, Record;
    var (out, mac) := Sign(h, k, owner, msg, time, origID, requestMAC);
    var rr := Record(owner, Rdata(k, time, mac, origID));
    assert (msg + rr)[10..12] == [msg[10], msg[11]] && (msg + rr)[..10] == msg[..10] && (msg + rr)[12..] == msg[12..] + rr;
  }

  /**
   An answer is accepted if and only if it names the configured key and algorithm, reports
   no error, ends in a record whose owner folds to the key's, and carries the MAC of the
   rest of it, the record uncounted.
   */
  lemma AcceptedExactlyWhen(
      eq: Folding, h: Hash, k: Key, msg: seq<Byte>, owner: seq<Byte>, rec: Tsig, requestMAC: seq<Byte>)
    ensures Verify(eq, h, k, msg, owner, rec, requestMAC) == Accepted <==>
      && owner == k.name && rec.algo == k.algo && rec.rcode == 0
      && |msg| >= 12 + |k.nameWire| + 10 + rec.rdataLen
      && var off := |msg| - rec.rdataLen - 10 - |k.nameWire|;
         var count := (256 * (msg[10] as int) + msg[11] as int - 1) % 0x1_0000;
         && eq(msg[off..off + |k.nameWire|], k.nameWire)
         && rec.mac == h(k.secret,
              Digested(k, msg[..10] + [count / 256, count % 256] + msg[12..off], rec.time, requestMAC))
  {
    hide Digested;
    if |msg| >= 12 + |k.nameWire| + 10 + rec.rdataLen {
      var off := |msg| - rec.rdataLen - 10 - |k.nameWire|;
      assert msg[..off][10..12] == [msg[10], msg[11]] && msg[..off][..10] == msg[..10] && msg[..off][12..] == msg[12..off];
    }
  }

  // ----- stripping undoes signing --------------------------------------------------------------------

  /** A message taken apart around its ARCOUNT. */
  lemma Parts(x: seq<Byte>, count: seq<Byte>, y: seq<Byte>)
    requires |x| == ARCOUNT && |count| == 2
    ensures var m := x + count + y;
      |m| >= HEADER && m[..ARCOUNT] == x && m[ARCOUNT..HEADER] == count && m[HEADER..] == y
  {
  }

  lemma RecountBack(msg: seq<Byte>, tail: seq<Byte>)
    requires |msg| >= HEADER
    ensures var out := Recounted(msg + tail, 1);
      out[|msg|..] == tail && Recounted(out[..|msg|], -1) == msg
  {
    hide Be16, U16;
    var x, y := msg[..ARCOUNT], msg[HEADER..];
    var was := msg[ARCOUNT..HEADER];
    var now := Be16((U16(was) + 1) % 0x1_0000);
    assert msg == x + was + y;
    assert msg + tail == x + was + (y + tail);
    Parts(x, was, y + tail);
    var out := Recounted(msg + tail, 1);
    assert out == (x + now + y) + tail;
    assert out[..|msg|] == x + now + y && out[|msg|..] == tail;
    Parts(x, now, y);
    Be16Back((U16(was) + 1) % 0x1_0000);
    CountBack(U16(was));
    Be16Forth(was);
  }

  lemma CountBack(count: nat)
    requires count < 0x1_0000
    ensures ((count + 1) % 0x1_0000 - 1) % 0x1_0000 == count
  {
  }

  lemma Be16Forth(b: seq<Byte>)
    requires |b| == 2
    ensures Be16(U16(b)) == b
  {
  }

  /** Stripping a signed message gives its octets back, its ARCOUNT with them, however the owner is spelled. */
  lemma StripUndoesSign(
      eq: Folding, h: Hash, k: Key, owner: seq<Byte>, msg: seq<Byte>, time: nat, origID: nat, requestMAC: seq<Byte>)
    requires |msg| >= HEADER && Folds(eq, k, owner)
    ensures var (out, mac) := Sign(h, k, owner, msg, time, origID, requestMAC);
      Strip(eq, k, out, |Rdata(k, time, mac, origID)|) == Some(msg)
  {
    hide Recounted, Be16, Be32, Be48, Digest, Rdata;
    var (out, mac) := Sign(h, k, owner, msg, time, origID, requestMAC);
    var rdata := Rdata(k, time, mac, origID);
    var rr := Record(owner, rdata);
    RecountBack(msg, rr);
    assert |rr| == |k.nameWire| + FIXED + |rdata|;
    assert out == out[..|msg|] + rr;
    assert out[|msg|..|msg| + |k.nameWire|] == rr[..|k.nameWire|] == owner;
  }

  // ----- parsing gives every field back ------------------------------------------------------------------

  lemma TakeBack(b: seq<Byte>, tail: seq<Byte>)
    ensures Take(Reader(b + tail, false), |b|) == (b, Reader(tail, false))
  {
    assert (b + tail)[..|b|] == b && (b + tail)[|b|..] == tail;
  }

  lemma TakeNone(b: seq<Byte>)
    ensures Take(Reader(b, false), 0) == ([], Reader(b, false))
  {
  }

  lemma TakeU16Back(n: nat, tail: seq<Byte>)
    requires n < 0x1_0000
    ensures TakeU16(Reader(Be16(n) + tail, false)) == (n, Reader(tail, false))
  {
    TakeBack(Be16(n), tail);
    Be16Back(n);
  }

  lemma TakeU48Back(n: nat, tail: seq<Byte>)
    requires n < 0x1_0000_0000_0000
    ensures TakeU48(Reader(Be48(n) + tail, false)) == (n, Reader(tail, false))
  {
    hide Be48, U48;
    TakeBack(Be48(n), tail);
    Be48Back(n);
  }

  lemma TakeNameBack(f: Casing, name: seq<Byte>, wire: seq<Byte>, tail: seq<Byte>)
    requires IsLowercasing(f) && PackName(f, name) == Some(wire) && name != [] && Canonical(f, name) == name
    ensures TakeName(f, Reader(wire + tail, false)) == (name, Reader(tail, false))
  {
    hide PackName, ReadName, IsLowercasing;
    PackReadsBack(f, name, tail);
    assert (wire + tail)[|wire|..] == tail;
  }

  /** Every field of the record is read back, for every 48-bit time. */
  lemma ParseUndoesRdata(f: Casing, k: Key, time: nat, mac: seq<Byte>, origID: nat)
    requires IsLowercasing(f) && IsKey(f, k) && time < 0x1_0000_0000_0000 && |mac| < 0x1_0000 && origID < 0x1_0000
    ensures var rdata := Rdata(k, time, mac, origID);
      ParseRdata(f, rdata) == Some(Tsig(k.algo, time, FUDGE, mac, origID, 0, [], |rdata|))
  {
    hide Be16, Be48, TakeU16, TakeU48, TakeName, Take, PackName, IsLowercasing;
    var b8 := Be16(0) + [];
    var b7 := Be16(0) + b8;
    var b6 := Be16(origID) + b7;
    var b5 := mac + b6;
    var b4 := Be16(|mac|) + b5;
    var b3 := Be16(FUDGE) + b4;
    var b2 := Be48(time) + b3;
    assert Rdata(k, time, mac, origID) == k.algoWire + b2;
    TakeNameBack(f, k.algo, k.algoWire, b2);
    TakeU48Back(time, b3);
    TakeU16Back(FUDGE, b4);
    TakeU16Back(|mac|, b5);
    TakeBack(mac, b6);
    TakeU16Back(origID, b7);
    TakeU16Back(0, b8);
    TakeU16Back(0, []);
    TakeNone([]);
  }

  /** The owner of a record as a message parser spells it: readName's labels, their case kept. */
  function TextFrom(b: seq<Byte>, off: nat, out: seq<Byte>): seq<Byte>
    decreases |b| - off
  {
    if off >= |b| || b[off] > MAX_LABEL || off + 1 + b[off] > |b| then []
    else if b[off] == 0 then OrRoot(out)
    else TextFrom(b, off + 1 + b[off], out + b[off + 1..off + 1 + b[off]] + [DOT])
  }

  function Text(owner: seq<Byte>): seq<Byte> {
    TextFrom(owner, 0, [])
  }

  lemma {:induction false} TextPacked(pre: seq<Byte>, labels: seq<seq<Byte>>, out: seq<Byte>)
    requires forall l :: l in labels ==> Packable(l)
    ensures TextFrom(pre + PackLabels(labels) + [0], |pre|, out) == OrRoot(out + Dotted(labels))
    decreases |labels|
  {
    hide TextFrom;
    var b := pre + PackLabels(labels) + [0];
    if labels == [] {
      assert out + Dotted(labels) == out;
      TextEnd(b, |pre|, out);
    } else {
      var l, rest := labels[0], labels[1..];
      var head := pre + ([Size(l)] + l);
      assert b == head + PackLabels(rest) + [0];
      assert b[|pre| + 1..|pre| + 1 + |l|] == l;
      TextStep(b, |pre|, out, l);
      TextPacked(head, rest, out + l + [DOT]);
      assert out + Dotted(labels) == out + l + [DOT] + Dotted(rest);
    }
  }

  lemma TextStep(b: seq<Byte>, off: nat, out: seq<Byte>, l: seq<Byte>)
    requires Packable(l) && off + 1 + |l| <= |b| && b[off] == |l| && b[off + 1..off + 1 + |l|] == l
    ensures TextFrom(b, off, out) == TextFrom(b, off + 1 + |l|, out + l + [DOT])
  {
  }

  lemma TextEnd(b: seq<Byte>, off: nat, out: seq<Byte>)
    requires off < |b| && b[off] == 0
    ensures TextFrom(b, off, out) == OrRoot(out)
  {
  }

  /** The key's own wire form reads as the name in lowercase. */
  lemma WireReadsLower(f: Casing, k: Key)
    requires PackName(f, k.name) == Some(k.nameWire)
    ensures k.name != [] && Text(k.nameWire) == Canonical(f, k.name)
  {
    hide TextFrom, PackLabels, Labels, Dotted;
    var body := f(k.name[..|k.name| - 1]);
    if body == [] {
      TextEnd(k.nameWire, 0, []);
    } else {
      TextPacked([], Labels(body), []);
      assert [] + PackLabels(Labels(body)) + [0] == k.nameWire;
      DottedLabels(body);
      assert [] + Dotted(Labels(body)) == body + [DOT];
    }
  }

  /**
   An answer signed with the same key, over the MAC of the request it answers, its owner
   spelled in any case, is accepted if and only if that spelling is the one configured.
   */
  lemma SignedIsAcceptedExactlyWhen(
      f: Casing, eq: Folding, h: Hash, k: Key, owner: seq<Byte>, msg: seq<Byte>, time: nat, origID: nat,
      requestMAC: seq<Byte>)
    requires IsLowercasing(f) && IsKey(f, k) && Folds(eq, k, owner) && |msg| >= HEADER && time < 0x1_0000_0000_0000 && origID < 0x1_0000
    requires |Digest(h, k, msg, time, requestMAC)| < 0x1_0000
    ensures var (out, mac) := Sign(h, k, owner, msg, time, origID, requestMAC);
      var rec := ParseRdata(f, Rdata(k, time, mac, origID));
      rec.Some? && (Verify(eq, h, k, out, Text(owner), rec.value, requestMAC) == Accepted <==> Text(owner) == k.name)
  {
    hide ParseRdata, Strip, Sign, Rdata, Digest, Text, Folds, PackName, IsLowercasing;
    SignedMAC(h, k, owner, msg, time, origID, requestMAC);
    StripUndoesSign(eq, h, k, owner, msg, time, origID, requestMAC);
    ParseUndoesRdata(f, k, time, Sign(h, k, owner, msg, time, origID, requestMAC).1, origID);
  }

  /** A server that answers with the owner the request carried is accepted if and only if the configured name is lowercase. */
  lemma EchoedOwnerIsAcceptedExactlyWhen(
      f: Casing, eq: Folding, h: Hash, k: Key, msg: seq<Byte>, time: nat, origID: nat, requestMAC: seq<Byte>)
    requires IsLowercasing(f) && IsKey(f, k) && eq(k.nameWire, k.nameWire) && |msg| >= HEADER && time < 0x1_0000_0000_0000 && origID < 0x1_0000
    requires |Digest(h, k, msg, time, requestMAC)| < 0x1_0000
    ensures var (out, mac) := Sign(h, k, k.nameWire, msg, time, origID, requestMAC);
      var rec := ParseRdata(f, Rdata(k, time, mac, origID));
      && k.name != [] && rec.Some?
      && (Verify(eq, h, k, out, Text(k.nameWire), rec.value, requestMAC) == Accepted <==> Canonical(f, k.name) == k.name)
  {
    hide ParseRdata, Verify, Sign, Rdata, Digest, Text, PackName, IsLowercasing;
    WireReadsLower(f, k);
    SignedIsAcceptedExactlyWhen(f, eq, h, k, k.nameWire, msg, time, origID, requestMAC);
  }

  // The key "A." with a one-label algorithm "h.".
  const UPPERCASE: Key := Key([65, DOT], [1, 97, 0], [104, DOT], [1, 104, 0], [])

  /** A key configured in capitals refuses every answer whose owner is spelled as its requests spell it. */
  lemma UppercaseKeyRefusesTheEcho(eq: Folding, h: Hash, msg: seq<Byte>, rec: Tsig, requestMAC: seq<Byte>)
    ensures IsKey(Lower, UPPERCASE)
    ensures Verify(eq, h, UPPERCASE, msg, Text(UPPERCASE.nameWire), rec, requestMAC) == WrongKey
  {
    PackOne(65, 97);
    PackOne(104, 104);
    assert [104, DOT][..1] == [104] && Lower([104]) == [104];
    WireReadsLower(Lower, UPPERCASE);
    assert [65, DOT][..1] == [65] && Lower([65]) == [97];
  }

  // The key "a." and the same owner in capitals on the wire.
  const LOWERCASE: Key := Key([97, DOT], [1, 97, 0], [104, DOT], [1, 104, 0], [])
  const CAPITALS: seq<Byte> := [1, 65, 0]

  /** A key configured in lowercase refuses every answer whose owner is spelled in capitals. */
  lemma LowercaseKeyRefusesCapitals(eq: Folding, h: Hash, msg: seq<Byte>, rec: Tsig, requestMAC: seq<Byte>)
    ensures IsKey(Lower, LOWERCASE) && Lower(CAPITALS) == LOWERCASE.nameWire
    ensures Verify(eq, h, LOWERCASE, msg, Text(CAPITALS), rec, requestMAC) == WrongKey
  {
    PackOne(97, 97);
    PackOne(104, 104);
    assert [104, DOT][..1] == [104] && Lower([104]) == [104];
    assert CAPITALS[1..2] == [65];
    assert TextFrom(CAPITALS, 2, [] + [65] + [DOT]) == [65, DOT];
  }

  lemma PackOne(b: Byte, l: Byte)
    requires LowerByte(b) == l != DOT
    ensures PackName(Lower, [b, DOT]) == Some([1, l, 0])
  {
    var name := [b, DOT];
    assert name[1..] == [DOT] && name[..1] == [b];
    assert Lower([b]) == [l];
    assert FirstDot([l]) == 1;
    assert Labels([l]) == [[l]];
    assert PackLabels([[l]]) == [1, l];
    assert name[..|name| - 1] == [b];
    assert forall m :: m in Labels([l]) ==> m == [l] && Packable(m);
    assert [1, l] + [0] == [1, l, 0];
  }

  lemma SignedMAC(h: Hash, k: Key, owner: seq<Byte>, msg: seq<Byte>, time: nat, origID: nat, requestMAC: seq<Byte>)
    requires |msg| >= HEADER
    ensures Sign(h, k, owner, msg, time, origID, requestMAC).1 == Digest(h, k, msg, time, requestMAC)
  {
  }

  // ----- what a MAC binds ---------------------------------------------------------------------------------

  lemma SameEnds(a: seq<Byte>, b: seq<Byte>, x: seq<Byte>, y: seq<Byte>)
    requires a + x == b + y && |x| == |y|
    ensures a == b && x == y
  {
    assert a == (a + x)[..|a|] && b == (b + y)[..|b|];
    assert x == (a + x)[|a|..] && y == (b + y)[|b|..];
  }

  lemma VariablesTell(k: Key, t: nat, t': nat)
    requires t < 0x1_0000_0000_0000 && t' < 0x1_0000_0000_0000 && Variables(k, t) == Variables(k, t')
    ensures t == t'
  {
    hide Be16, Be32, Be48, U48;
    var head := k.nameWire + Be16(CLASS_ANY) + Be32(0) + k.algoWire;
    var tail := Be16(FUDGE) + Be16(0) + Be16(0);
    assert Variables(k, t) == (head + Be48(t)) + tail && Variables(k, t') == (head + Be48(t')) + tail;
    SameEnds(head + Be48(t), head + Be48(t'), tail, tail);
    SameEnds(head, head, Be48(t), Be48(t'));
    Be48Back(t);
    Be48Back(t');
  }

  /** What is digested for one request determines the message and the time, so a hash without collisions binds both. */
  lemma DigestBinds(k: Key, msg: seq<Byte>, msg': seq<Byte>, t: nat, t': nat, requestMAC: seq<Byte>)
    requires t < 0x1_0000_0000_0000 && t' < 0x1_0000_0000_0000
    requires Digested(k, msg, t, requestMAC) == Digested(k, msg', t', requestMAC)
    ensures msg == msg' && t == t'
  {
    hide Variables, Be16;
    var head: seq<Byte> := if requestMAC == [] then [] else Be16(|requestMAC|) + requestMAC;
    VariablesSize(k, t, t');
    SameEnds(head + msg, head + msg', Variables(k, t), Variables(k, t'));
    VariablesTell(k, t, t');
    assert msg == (head + msg)[|head|..] && msg' == (head + msg')[|head|..];
  }

  lemma VariablesSize(k: Key, t: nat, t': nat)
    ensures |Variables(k, t)| == |Variables(k, t')|
  {
    hide Be16, Be32, Be48;
  }

  /**
   Two answers to one request accepted with one MAC are the same message signed at the
   same time, or they exhibit a collision: two inputs that differ and hash alike.
   */
  lemma OneMACOneMessage(eq: Folding, h: Hash, k: Key, m: seq<Byte>, m': seq<Byte>, owner: seq<Byte>, owner': seq<Byte>,
                         rec: Tsig, rec': Tsig, requestMAC: seq<Byte>)
    requires Verify(eq, h, k, m, owner, rec, requestMAC) == Accepted
    requires Verify(eq, h, k, m', owner', rec', requestMAC) == Accepted
    requires rec.mac == rec'.mac && rec.time < 0x1_0000_0000_0000 && rec'.time < 0x1_0000_0000_0000
    ensures var x, y := Strip(eq, k, m, rec.rdataLen), Strip(eq, k, m', rec'.rdataLen);
      && x.Some? && y.Some?
      && var a, b := Digested(k, x.value, rec.time, requestMAC), Digested(k, y.value, rec'.time, requestMAC);
         (x == y && rec.time == rec'.time) || (a != b && h(k.secret, a) == h(k.secret, b))
  {
    hide Strip, Digested;
    var x, y := Strip(eq, k, m, rec.rdataLen).value, Strip(eq, k, m', rec'.rdataLen).value;
    if Digested(k, x, rec.time, requestMAC) == Digested(k, y, rec'.time, requestMAC) {
      DigestBinds(k, x, y, rec.time, rec'.time, requestMAC);
    }
  }
}
