/**
 What a server may send, and how the reader of `Resp` takes it: a RESP2 encoder of its
 own for simple strings, errors, integers, bulk strings, both nils and arrays, and what
 each is read as, whatever follows it on the stream.
 */
module RespReplies {
  import opened Wrappers
  import opened Octets
  import opened Resp

  /** A reply as section "RESP data types" of the protocol writes it. */
  datatype Sent =
    | Simple(text: seq<Byte>)
    | Error(message: seq<Byte>)
    | Integer(n: int)
    | Bulk(text: seq<Byte>)
    | NilBulk
    | NilArray

  function Signed(n: int): seq<Byte> {
    if n < 0 then [45] + Decimal(-n) else Decimal(n)
  }

  /** '+', '-', ':', '$' and '*', in octets. */
  function Bytes(r: Sent): seq<Byte> {
    match r
    case Simple(text) => [43] + text + [13, 10]
    case Error(message) => [45] + message + [13, 10]
    case Integer(n) => [58] + Signed(n) + [13, 10]
    case Bulk(text) => [36] + Decimal(|text|) + [13, 10] + text + [13, 10]
    case NilBulk => [36, 45, 49, 13, 10]
    case NilArray => [42, 45, 49, 13, 10]
  }

  function AllBytes(rs: seq<Sent>): seq<Byte> {
    if rs == [] then [] else AllBytes(rs[..|rs| - 1]) + Bytes(rs[|rs| - 1])
  }

  function ArrayBytes(rs: seq<Sent>): seq<Byte> {
    [42] + Decimal(|rs|) + [13, 10] + AllBytes(rs)
  }

  /** What a client may expect to be sent: lines without a line break that fit the read buffer, bounded bulks, 64-bit integers. */
  predicate Sendable(r: Sent) {
    match r
    case Simple(text) => |text| <= 4093 && forall i :: 0 <= i < |text| ==> text[i] != 10
    case Error(message) => |message| <= 4093 && forall i :: 0 <= i < |message| ==> message[i] != 10
    case Integer(n) => -0x8000_0000_0000_0000 <= n <= 0x7FFF_FFFF_FFFF_FFFF
    case Bulk(text) => |text| <= 0x10_0000
    case NilBulk => true
    case NilArray => true
  }

  function Meaning(r: Sent): Reply
    requires !r.Error?
  {
    match r
    case Simple(text) => Text(text)
    case Integer(n) => Number(n)
    case Bulk(text) => Text(text)
    case NilBulk => Nil
    case NilArray => Nil
  }

  // ----- numbers of either sign -------------------------------------------------------------

  lemma ParseSigned(n: int)
    requires -0x8000_0000_0000_0000 <= n <= 0x7FFF_FFFF_FFFF_FFFF
    ensures ParseInt(Signed(n)) == Some(n)
  {
    if n < 0 {
      DecimalValue(-n);
      assert Signed(n)[1..] == Decimal(-n);
    } else {
      ParseDecimal(n);
    }
  }

  lemma SignedLine(n: int)
    requires -0x8000_0000_0000_0000 <= n <= 0x7FFF_FFFF_FFFF_FFFF
    ensures OneLine([58] + Signed(n))
  {
    hide Decimal;
    assert Tens(7) == 10_000_000;
    assert Tens(13) == 10_000_000_000_000;
    assert Tens(19) == 10_000_000_000_000_000_000;
    DecimalShort(if n < 0 then -n else n, 19);
  }

  // ----- one reply ---------------------------------------------------------------------------

  /** A line reply: its mark, its text, and then whatever follows. */
  lemma LineRead(mark: Byte, text: seq<Byte>, tail: seq<Byte>)
    requires OneLine([mark] + text)
    ensures ReadLine([mark] + text + [13, 10] + tail) == Line([mark] + text, tail)
    ensures ([mark] + text)[0] == mark && ([mark] + text)[1..] == text
  {
    ReadLineBack([mark] + text, tail);
  }

  /** Each reply is read as exactly what it says and leaves exactly its tail; an error is the only error. */
  lemma ReadBack(r: Sent, tail: seq<Byte>, depth: nat)
    requires Sendable(r)
    ensures ReadReply(Bytes(r) + tail, depth)
      == if r.Error? then ErrorReply(r.message, tail) else Value(Meaning(r), tail)
  {
    hide ReadLine, ParseInt, OneLine, Decimal;
    match r
    case Simple(text) =>
      PlainLine(43, text);
      LineRead(43, text, tail);
    case Error(message) =>
      PlainLine(45, message);
      LineRead(45, message, tail);
    case Integer(n) =>
      SignedLine(n);
      ParseSigned(n);
      LineRead(58, Signed(n), tail);
    case Bulk(text) =>
      assert Bytes(r) == BulkBytes(text);
      BulkReadBack(text, tail, depth);
    case NilBulk => NilRead(36, tail);
    case NilArray => NilRead(42, tail);
  }

  lemma PlainLine(mark: Byte, text: seq<Byte>)
    requires mark != 10 && |text| <= 4093 && forall i :: 0 <= i < |text| ==> text[i] != 10
    ensures OneLine([mark] + text)
  {
  }

  lemma NilRead(mark: Byte, tail: seq<Byte>)
    requires mark != 10
    ensures ReadLine([mark, 45, 49, 13, 10] + tail) == Line([mark, 45, 49], tail)
    ensures [mark, 45, 49][1..] == [45, 49] && ParseInt([45, 49]) == Some(-1)
  {
    assert [mark] + [45, 49] == [mark, 45, 49];
    assert [mark, 45, 49, 13, 10] + tail == [mark] + [45, 49] + [13, 10] + tail;
    LineRead(mark, [45, 49], tail);
    assert Decimal(1) == [49];
    ParseSigned(-1);
  }

  // ----- arrays ------------------------------------------------------------------------------

  predicate AllSendable(rs: seq<Sent>) {
    forall i :: 0 <= i < |rs| ==> Sendable(rs[i])
  }

  predicate NoErrors(rs: seq<Sent>) {
    forall i :: 0 <= i < |rs| ==> !rs[i].Error?
  }

  function Meanings(rs: seq<Sent>): seq<Reply>
    requires NoErrors(rs)
  {
    seq(|rs|, i requires 0 <= i < |rs| => Meaning(rs[i]))
  }

  lemma {:induction false} ItemsReadBack(rs: seq<Sent>, tail: seq<Byte>, depth: nat)
    requires AllSendable(rs) && NoErrors(rs)
    ensures ReadItems(AllBytes(rs) + tail, depth, |rs|) == Value(Array(Meanings(rs)), tail)
  {
    hide ReadReply, Bytes, Sendable;
    if rs == [] {
      assert AllBytes(rs) + tail == tail;
    } else {
      var n := |rs| - 1;
      var init, last := rs[..n], rs[n];
      assert AllBytes(rs) + tail == AllBytes(init) + (Bytes(last) + tail);
      ItemsReadBack(init, Bytes(last) + tail, depth);
      ReadBack(last, tail, depth);
      assert Meanings(rs) == Meanings(init) + [Meaning(last)];
    }
  }

  lemma {:induction false} AllBytesSplit(x: seq<Sent>, y: seq<Sent>)
    ensures AllBytes(x + y) == AllBytes(x) + AllBytes(y)
  {
    hide Bytes;
    if y == [] {
      assert x + y == x;
    } else {
      assert (x + y)[..|x + y| - 1] == x + y[..|y| - 1];
      AllBytesSplit(x, y[..|y| - 1]);
    }
  }

  /** The header of an array and where its items start. */
  lemma ArrayHeader(rs: seq<Sent>, tail: seq<Byte>)
    requires |rs| <= 4096
    ensures ReadReply(ArrayBytes(rs) + tail, 0) == ReadItems(AllBytes(rs) + tail, 1, |rs|)
  {
    hide Decimal, ParseInt, ReadLine, ReadItems, OneLine, AllBytes, ReadBulk;
    var line, after := [42] + Decimal(|rs|), AllBytes(rs) + tail;
    HeaderLine(42, |rs|);
    assert ArrayBytes(rs) + tail == line + [13, 10] + after;
    ReadLineBack(line, after);
  }

  /** An array of replies, none an error, is read as exactly their list. */
  lemma ArrayReadBack(rs: seq<Sent>, tail: seq<Byte>)
    requires |rs| <= 4096 && AllSendable(rs) && NoErrors(rs)
    ensures ReadReply(ArrayBytes(rs) + tail, 0) == Value(Array(Meanings(rs)), tail)
  {
    hide ReadReply, ReadItems, Sendable;
    ArrayHeader(rs, tail);
    ItemsReadBack(rs, tail, 1);
  }

  /** An error among the items ends the reading there: the array is that error, and the items behind it are left. */
  lemma ErrorInArray(rs: seq<Sent>, i: nat, tail: seq<Byte>)
    requires |rs| <= 4096 && i < |rs| && AllSendable(rs) && NoErrors(rs[..i]) && rs[i].Error?
    ensures ReadReply(ArrayBytes(rs) + tail, 0) == ErrorReply(rs[i].message, AllBytes(rs[i + 1..]) + tail)
  {
    hide ReadReply, ReadItems, Sendable, Bytes;
    var behind := AllBytes(rs[i + 1..]) + tail;
    ArrayHeader(rs, tail);
    assert rs == rs[..i] + [rs[i]] + rs[i + 1..];
    AllBytesSplit(rs[..i] + [rs[i]], rs[i + 1..]);
    AllBytesSplit(rs[..i], [rs[i]]);
    OneBytes(rs[i]);
    assert AllBytes(rs) + tail == AllBytes(rs[..i]) + (Bytes(rs[i]) + behind);
    ItemsReadBack(rs[..i], Bytes(rs[i]) + behind, 1);
    ReadBack(rs[i], behind, 1);
    ItemsStop(AllBytes(rs) + tail, 1, i, |rs|, ErrorReply(rs[i].message, behind));
  }

  lemma OneBytes(r: Sent)
    ensures AllBytes([r]) == Bytes(r)
  {
    assert [r][..0] == [];
    assert AllBytes([]) + Bytes(r) == Bytes(r);
  }

  /** An array inside an array, a nil apart, costs the connection. */
  lemma NestedIsRefused(rs: seq<Sent>, tail: seq<Byte>, depth: nat)
    requires |rs| <= 4096 && depth >= 1
    ensures ReadReply(ArrayBytes(rs) + tail, depth) == Bad(Protocol)
  {
    hide Decimal, ParseInt, ReadLine, OneLine, AllBytes, ReadBulk;
    var line, after := [42] + Decimal(|rs|), AllBytes(rs) + tail;
    HeaderLine(42, |rs|);
    assert ArrayBytes(rs) + tail == line + [13, 10] + after;
    ReadLineBack(line, after);
  }

  // ----- which streams hold an error -------------------------------------------------------------

  /** The first n items of a stream are values, and the next is an error. */
  ghost predicate ErrorAfter(s: seq<Byte>, n: nat) {
    var items := ReadItems(s, 1, n);
    items.Value? && items.rest != [] && items.rest[0] == 45 && ReadLine(items.rest).Line?
  }

  lemma InnerError(s: seq<Byte>, depth: nat)
    requires depth >= 1
    ensures ReadReply(s, depth).ErrorReply? <==> s != [] && s[0] == 45 && ReadLine(s).Line?
  {
    hide ReadLine, ParseInt;
    if ReadLine(s).Line? {
      ReadLineIs(s);
    }
  }

  lemma {:induction false} ItemsError(s: seq<Byte>, n: nat)
    ensures ReadItems(s, 1, n).ErrorReply? <==> exists i :: 0 <= i < n && ErrorAfter(s, i)
  {
    hide ReadReply, ReadLine;
    if n > 0 {
      ItemsError(s, n - 1);
      var items := ReadItems(s, 1, n - 1);
      if items.Value? {
        InnerError(items.rest, 1);
        assert ReadItems(s, 1, n).ErrorReply? <==> ErrorAfter(s, n - 1);
      } else {
        assert !ErrorAfter(s, n - 1);
      }
    }
  }

  /**
   On any stream whatever: the reader reports an error reply if and only if the stream
   starts with a '-' line, or with the header of an array, within its bound, one of whose
   items starts with a '-' line and only values come before it.
   */
  lemma ErrorExactlyWhen(s: seq<Byte>)
    ensures ReadReply(s, 0).ErrorReply? <==>
      var l := ReadLine(s);
      && l.Line? && l.line != []
      && (|| l.line[0] == 45
          || (l.line[0] == 42 && ParseInt(l.line[1..]).Some? && 0 <= ParseInt(l.line[1..]).value <= 4096
              && exists i :: 0 <= i < ParseInt(l.line[1..]).value && ErrorAfter(l.rest, i)))
  {
    hide ReadLine, ParseInt, ReadItems, ErrorAfter;
    var l := ReadLine(s);
    if l.Line? && l.line != [] && l.line[0] == 42 && ParseInt(l.line[1..]).Some? && 0 <= ParseInt(l.line[1..]).value {
      ItemsError(l.rest, ParseInt(l.line[1..]).value);
    }
  }

  /** An array of one error is an error reply though it starts with '*'. */
  lemma ErrorWithoutMinus()
    ensures var s := ArrayBytes([Error([69])]); s[0] == 42 && ReadReply(s, 0) == ErrorReply([69], [])
  {
    var rs := [Error([69])];
    ErrorInArray(rs, 0, []);
    assert ArrayBytes(rs) + [] == ArrayBytes(rs);
    assert AllBytes(rs[1..]) + [] == [];
  }

  // ----- what costs the connection ------------------------------------------------------------------

  /** Sizes beyond the bounds, and negative ones other than the nil's. */
  lemma SizeIsBounded(n: int, tail: seq<Byte>, depth: nat)
    requires -0x8000_0000_0000_0000 <= n <= 0x7FFF_FFFF_FFFF_FFFF && n != -1
    ensures n < 0 || n > 0x10_0000 ==> ReadReply([36] + Signed(n) + [13, 10] + tail, depth) == Bad(Protocol)
    ensures n < 0 || n > 4096 ==> ReadReply([42] + Signed(n) + [13, 10] + tail, depth) == Bad(Protocol)
  {
    hide ReadLine, ParseInt, OneLine, Signed;
    ParseSigned(n);
    SizeLine(36, n);
    SizeLine(42, n);
    LineRead(36, Signed(n), tail);
    LineRead(42, Signed(n), tail);
  }

  lemma SizeLine(mark: Byte, n: int)
    requires mark != 10 && -0x8000_0000_0000_0000 <= n <= 0x7FFF_FFFF_FFFF_FFFF
    ensures OneLine([mark] + Signed(n))
  {
    SignedLine(n);
    assert forall i :: 0 <= i < |Signed(n)| ==> ([58] + Signed(n))[i + 1] == Signed(n)[i];
  }

  /** A bulk whose payload is not followed by a CRLF, and one the stream ends in. */
  lemma BulkIsDelimited(n: nat, after: seq<Byte>, depth: nat)
    requires n <= 0x10_0000
    ensures var r := ReadReply([36] + Decimal(n) + [13, 10] + after, depth);
      && (|after| < n + 2 ==> r == Bad(EndOfStream))
      && (|after| >= n + 2 && after[n..n + 2] != [13, 10] ==> r == Bad(Protocol))
      && (|after| >= n + 2 && after[n..n + 2] == [13, 10] ==> r == Value(Text(after[..n]), after[n + 2..]))
  {
    hide ReadLine, ParseInt, OneLine, Decimal;
    HeaderLine(36, n);
    LineRead(36, Decimal(n), after);
    if |after| >= n + 2 {
      assert after[n..n + 2] == [after[n], after[n + 1]];
    }
  }

  /** A line of any other kind, an empty one, one without its carriage return, one too long for the buffer. */
  lemma LineIsChecked(line: seq<Byte>, tail: seq<Byte>, depth: nat)
    requires forall i :: 0 <= i < |line| ==> line[i] != 10
    ensures |line| <= 4094 && (line == [] || line[0] !in {43, 45, 58, 36, 42}) ==>
      ReadReply(line + [13, 10] + tail, depth) == Bad(Protocol)
    ensures (line == [] || line[|line| - 1] != 13) ==> ReadReply(line + [10] + tail, depth) == Bad(Protocol)
    ensures |line| >= 4096 ==> ReadReply(line + tail, depth) == Bad(Protocol)
    ensures |line| < 4096 ==> ReadReply(line, depth) == Bad(EndOfStream)
  {
    hide ParseInt, LineFeed;
    if |line| <= 4094 {
      ReadLineBack(line, tail);
    }
    LineFeedAt(line + [10] + tail, |line|);
    assert (line + [10] + tail)[..|line|] == line;
    assert LineFeed(line) == |line|;
    assert |line| >= 4096 ==> LineFeed(line + tail) >= 4096 by {
      assert forall k :: 0 <= k < |line| ==> (line + tail)[k] == line[k];
    }
  }

  /** An integer line that is no number. */
  lemma NoNumber(text: seq<Byte>, tail: seq<Byte>, depth: nat)
    requires OneLine([58] + text) && text != [] && !IsDigit(text[|text| - 1])
    ensures ReadReply([58] + text + [13, 10] + tail, depth) == Bad(Protocol)
  {
    hide ReadLine;
    LineRead(58, text, tail);
  }

  /** A number may carry a plus sign, and one beyond 64 bits is none. */
  lemma NumbersAreBounded(n: nat)
    ensures n <= 0x7FFF_FFFF_FFFF_FFFF ==> ParseInt([43] + Decimal(n)) == Some(n)
    ensures n > 0x7FFF_FFFF_FFFF_FFFF ==> ParseInt(Decimal(n)) == None && ParseInt([43] + Decimal(n)) == None
    ensures n > 0x8000_0000_0000_0000 ==> ParseInt([45] + Decimal(n)) == None
  {
    DecimalValue(n);
    assert ([43] + Decimal(n))[1..] == Decimal(n) && ([45] + Decimal(n))[1..] == Decimal(n);
    assert IsDigit(Decimal(n)[0]);
  }
}
