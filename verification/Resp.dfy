/**
 The RESP2 client of `plugins/redis/resp.go`: what it writes, and the bounded parser
 that reads replies off a stream. The functions say what is read from the octets a
 stream still holds; `RespReader` does it in place.
 */
module Resp {
  import opened Wrappers
  import opened Octets

  const LINE_LIMIT: nat := 4096
  const MAX_BULK: nat := 0x10_0000
  const MAX_ARRAY: nat := 4096
  const MAX_DEPTH: nat := 1

  const CR: Byte := 13
  const LF: Byte := 10
  const PLUS: Byte := 43
  const MINUS: Byte := 45
  const COLON: Byte := 58
  const DOLLAR: Byte := 36
  const STAR: Byte := 42

  const CRLF: seq<Byte> := [CR, LF]

  datatype Reply = Text(text: seq<Byte>) | Number(n: int) | Array(items: seq<Reply>) | Nil

  datatype Fault = EndOfStream | Protocol

  /** A reply, an error reply, or a fault that costs the connection. */
  datatype Outcome =
    | Value(reply: Reply, rest: seq<Byte>)
    | ErrorReply(message: seq<Byte>, rest: seq<Byte>)
    | Bad(fault: Fault)

  // ----- writing --------------------------------------------------------------------------

  function BulkBytes(arg: seq<Byte>): seq<Byte> {
    [DOLLAR] + Decimal(|arg|) + CRLF + arg + CRLF
  }

  function BulksBytes(args: seq<seq<Byte>>): seq<Byte> {
    if args == [] then [] else BulksBytes(args[..|args| - 1]) + BulkBytes(args[|args| - 1])
  }

  function CommandBytes(args: seq<seq<Byte>>): seq<Byte> {
    [STAR] + Decimal(|args|) + CRLF + BulksBytes(args)
  }

  /** writeCommand: an array of bulk strings, into one buffer. */
  method WriteCommand(args: seq<seq<Byte>>) returns (w: seq<Byte>)
    ensures w == CommandBytes(args)
  {
    w := [STAR];
    w := w + Decimal(|args|);
    w := w + CRLF;
    ghost var header := w;
    for i := 0 to |args|
      invariant w == header + BulksBytes(args[..i])
    {
      w := w + [DOLLAR];
      w := w + Decimal(|args[i]|);
      w := w + CRLF;
      w := w + args[i];
      w := w + CRLF;
      assert args[..i + 1][..i] == args[..i];
      assert w == header + (BulksBytes(args[..i]) + BulkBytes(args[i]));
    }
    assert args[..|args|] == args;
  }

  // ----- reading ----------------------------------------------------------------------------

  /** Where the first line feed is, or the length when there is none. */
  function LineFeed(s: seq<Byte>): (i: nat)
    ensures i <= |s| && (i < |s| ==> s[i] == LF)
    ensures forall k :: 0 <= k < i ==> s[k] != LF
  {
    if s == [] || s[0] == LF then 0 else 1 + LineFeed(s[1..])
  }

  datatype LineOutcome = Line(line: seq<Byte>, rest: seq<Byte>) | BadLine(fault: Fault)

  /** readLine: up to a CRLF that ends within the read buffer. */
  function ReadLine(s: seq<Byte>): LineOutcome {
    var i := LineFeed(s);
    if i >= LINE_LIMIT then BadLine(Protocol)
    else if i == |s| then BadLine(EndOfStream)
    else if i < 1 || s[i - 1] != CR then BadLine(Protocol)
    else Line(s[..i - 1], s[i + 1..])
  }

  function ReadBulk(arg: seq<Byte>, s: seq<Byte>): Outcome {
    match ParseInt(arg)
    case None => Bad(Protocol)
    case Some(n) =>
      if n == -1 then Value(Nil, s)
      else if n < 0 || n > MAX_BULK then Bad(Protocol)
      else if |s| < n + 2 then Bad(EndOfStream)
      else if s[n] != CR || s[n + 1] != LF then Bad(Protocol)
      else Value(Text(s[..n]), s[n + 2..])
  }

  function Room(depth: nat): nat {
    if depth < MAX_DEPTH then MAX_DEPTH - depth else 0
  }

  function ReadReply(s: seq<Byte>, depth: nat): Outcome
    decreases Room(depth), 1, 0
  {
    match ReadLine(s)
    case BadLine(fault) => Bad(fault)
    case Line(line, rest) =>
      if line == [] then Bad(Protocol)
      else if line[0] == PLUS then Value(Text(line[1..]), rest)
      else if line[0] == MINUS then ErrorReply(line[1..], rest)
      else if line[0] == COLON then
        (match ParseInt(line[1..])
         case None => Bad(Protocol)
         case Some(n) => Value(Number(n), rest))
      else if line[0] == DOLLAR then ReadBulk(line[1..], rest)
      else if line[0] == STAR then ReadArray(line[1..], rest, depth)
      else Bad(Protocol)
  }

  function ReadArray(arg: seq<Byte>, s: seq<Byte>, depth: nat): Outcome
    decreases Room(depth), 0, 0
  {
    match ParseInt(arg)
    case None => Bad(Protocol)
    case Some(n) =>
      if n == -1 then Value(Nil, s)
      else if n < 0 || n > MAX_ARRAY then Bad(Protocol)
      else if depth >= MAX_DEPTH then Bad(Protocol)
      else ReadItems(s, depth + 1, n)
  }

  /** The first n items; a fault or an error reply among them ends the array there. */
  function ReadItems(s: seq<Byte>, depth: nat, n: nat): (r: Outcome)
    ensures r.Value? ==> r.reply.Array? && |r.reply.items| == n
    decreases Room(depth), 2, n
  {
    if n == 0 then Value(Array([]), s) else
    match ReadItems(s, depth, n - 1)
    case Value(items, rest) =>
      (match ReadReply(rest, depth)
       case Value(item, rest') => Value(Array(items.items + [item]), rest')
       case other => other)
    case other => other
  }

  // ----- lines --------------------------------------------------------------------------------

  predicate OneLine(line: seq<Byte>) {
    |line| + 2 <= LINE_LIMIT && forall i :: 0 <= i < |line| ==> line[i] != LF
  }

  lemma LineFeedAt(s: seq<Byte>, i: nat)
    requires i < |s| && s[i] == LF && forall k :: 0 <= k < i ==> s[k] != LF
    ensures LineFeed(s) == i
  {
    hide LineFeed;
  }

  /** A line is read back off any tail. */
  lemma ReadLineBack(line: seq<Byte>, tail: seq<Byte>)
    requires OneLine(line)
    ensures ReadLine(line + CRLF + tail) == Line(line, tail)
  {
    hide LineFeed;
    var s := line + CRLF + tail;
    LineFeedAt(s, |line| + 1);
    assert s[..|line|] == line && s[|line| + 2..] == tail;
  }

  /** Whatever line is read was there, with its CRLF. */
  lemma ReadLineIs(s: seq<Byte>)
    requires ReadLine(s).Line?
    ensures var r := ReadLine(s);
      OneLine(r.line) && s == r.line + CRLF + r.rest
  {
    hide LineFeed;
    var i := LineFeed(s);
    assert s == s[..i - 1] + [s[i - 1], s[i]] + s[i + 1..];
  }

  // ----- a value consumed exactly its own octets -------------------------------------------------

  /** Reading s gave a value and left `rest`: what was read, and what any other tail would give. */
  ghost predicate Own(s: seq<Byte>, rest: seq<Byte>) {
    |rest| <= |s| && s[|s| - |rest|..] == rest
  }

  function Consumed(s: seq<Byte>, rest: seq<Byte>): seq<Byte>
    requires |rest| <= |s|
  {
    s[..|s| - |rest|]
  }

  lemma BulkOwn(arg: seq<Byte>, s: seq<Byte>, tail: seq<Byte>)
    requires ReadBulk(arg, s).Value?
    ensures var r := ReadBulk(arg, s);
      && Own(s, r.rest)
      && ReadBulk(arg, Consumed(s, r.rest) + tail) == Value(r.reply, tail)
  {
    hide ParseInt;
    var r, n := ReadBulk(arg, s), ParseInt(arg).value;
    if n == -1 {
      assert Consumed(s, s) + tail == tail;
    } else {
      var w := Consumed(s, r.rest);
      assert w == s[..n + 2];
      var t := w + tail;
      assert t[..n] == s[..n] && t[n + 2..] == tail && t[n] == s[n] && t[n + 1] == s[n + 1];
    }
  }

  /** Joining two consumed stretches. */
  lemma ConsumedJoins(s: seq<Byte>, mid: seq<Byte>, rest: seq<Byte>, tail: seq<Byte>)
    requires Own(s, mid) && Own(mid, rest)
    ensures Own(s, rest) && Consumed(s, rest) + tail == Consumed(s, mid) + (Consumed(mid, rest) + tail)
  {
    assert s == Consumed(s, mid) + mid;
    assert mid == Consumed(mid, rest) + rest;
    assert s == Consumed(s, mid) + Consumed(mid, rest) + rest;
  }

  lemma {:induction false} ItemsOwn(s: seq<Byte>, depth: nat, n: nat, tail: seq<Byte>)
    requires ReadItems(s, depth, n).Value?
    ensures var r := ReadItems(s, depth, n);
      Own(s, r.rest) && ReadItems(Consumed(s, r.rest) + tail, depth, n) == Value(r.reply, tail)
    decreases Room(depth), 2, n
  {
    hide ReadReply;
    if n == 0 {
      assert Consumed(s, s) + tail == tail;
    } else {
      var mid := ReadItems(s, depth, n - 1);
      var item := ReadReply(mid.rest, depth);
      ItemsOwn(s, depth, n - 1, tail);
      ReplyOwn(mid.rest, depth, tail);
      ConsumedJoins(s, mid.rest, item.rest, tail);
      ItemsOwn(s, depth, n - 1, Consumed(mid.rest, item.rest) + tail);
    }
  }

  lemma {:induction false} ArrayOwn(arg: seq<Byte>, s: seq<Byte>, depth: nat, tail: seq<Byte>)
    requires ReadArray(arg, s, depth).Value?
    ensures var r := ReadArray(arg, s, depth);
      Own(s, r.rest) && ReadArray(arg, Consumed(s, r.rest) + tail, depth) == Value(r.reply, tail)
    decreases Room(depth), 0, 0
  {
    hide ParseInt, ReadItems;
    var n := ParseInt(arg).value;
    if n == -1 {
      assert Consumed(s, s) + tail == tail;
    } else {
      ItemsOwn(s, depth + 1, n, tail);
    }
  }

  /**
   On any input: a reply returned as a value consumed exactly its own octets, for the
   octets in front of what is left give the same value whatever follows them.
   */
  lemma {:induction false} ReplyOwn(s: seq<Byte>, depth: nat, tail: seq<Byte>)
    requires ReadReply(s, depth).Value?
    ensures var r := ReadReply(s, depth);
      Own(s, r.rest) && ReadReply(Consumed(s, r.rest) + tail, depth) == Value(r.reply, tail)
    decreases Room(depth), 1, 0
  {
    hide ParseInt, ReadBulk, ReadArray, ReadLine;
    var l, r := ReadLine(s), ReadReply(s, depth);
    ReadLineIs(s);
    assert Own(s, l.rest) && Consumed(s, l.rest) == l.line + CRLF;
    if l.line[0] == DOLLAR {
      BulkOwn(l.line[1..], l.rest, tail);
      ConsumedJoins(s, l.rest, r.rest, tail);
      ReadLineBack(l.line, Consumed(l.rest, r.rest) + tail);
    } else if l.line[0] == STAR {
      ArrayOwn(l.line[1..], l.rest, depth, tail);
      ConsumedJoins(s, l.rest, r.rest, tail);
      ReadLineBack(l.line, Consumed(l.rest, r.rest) + tail);
    } else {
      ReadLineBack(l.line, tail);
    }
  }

  // ----- a written command is read back ---------------------------------------------------------------

  lemma HeaderLine(mark: Byte, n: nat)
    requires n <= MAX_BULK && mark != LF
    ensures OneLine([mark] + Decimal(n))
    ensures ([mark] + Decimal(n))[1..] == Decimal(n) && ParseInt(Decimal(n)) == Some(n)
  {
    hide Decimal, ParseInt;
    assert Tens(7) == 10_000_000;
    DecimalShort(n, 7);
    ParseDecimal(n);
  }

  lemma BulkReadBack(arg: seq<Byte>, tail: seq<Byte>, depth: nat)
    requires |arg| <= MAX_BULK
    ensures ReadReply(BulkBytes(arg) + tail, depth) == Value(Text(arg), tail)
  {
    hide Decimal, ParseInt, ReadLine, ReadArray, OneLine;
    var line, after := [DOLLAR] + Decimal(|arg|), arg + CRLF + tail;
    HeaderLine(DOLLAR, |arg|);
    assert BulkBytes(arg) + tail == line + CRLF + after;
    ReadLineBack(line, after);
    assert after[..|arg|] == arg && after[|arg| + 2..] == tail;
  }

  ghost predicate Sendable(args: seq<seq<Byte>>) {
    |args| <= MAX_ARRAY && forall i :: 0 <= i < |args| ==> |args[i]| <= MAX_BULK
  }

  function Texts(args: seq<seq<Byte>>): seq<Reply> {
    seq(|args|, i requires 0 <= i < |args| => Text(args[i]))
  }

  lemma {:induction false} BulksReadBack(args: seq<seq<Byte>>, tail: seq<Byte>, depth: nat)
    requires forall i :: 0 <= i < |args| ==> |args[i]| <= MAX_BULK
    ensures ReadItems(BulksBytes(args) + tail, depth, |args|) == Value(Array(Texts(args)), tail)
  {
    hide ReadReply, BulkBytes;
    if args == [] {
      assert BulksBytes(args) + tail == tail;
    } else {
      var n := |args| - 1;
      var init, last := args[..n], args[n];
      assert BulksBytes(args) + tail == BulksBytes(init) + (BulkBytes(last) + tail);
      BulksReadBack(init, BulkBytes(last) + tail, depth);
      BulkReadBack(last, tail, depth);
      assert Texts(args) == Texts(init) + [Text(last)];
    }
  }

  /** Whatever octets its arguments hold, a command is read back exactly, and exactly its tail is left. */
  lemma CommandReadBack(args: seq<seq<Byte>>, tail: seq<Byte>)
    requires Sendable(args)
    ensures ReadReply(CommandBytes(args) + tail, 0) == Value(Array(Texts(args)), tail)
  {
    hide Decimal, ParseInt, ReadLine, ReadItems, OneLine, BulksBytes, ReadBulk;
    var line, after := [STAR] + Decimal(|args|), BulksBytes(args) + tail;
    HeaderLine(STAR, |args|);
    assert CommandBytes(args) + tail == line + CRLF + after;
    ReadLineBack(line, after);
    BulksReadBack(args, tail, 1);
  }

  // ----- the reader in its own form ---------------------------------------------------------------------

  class RespReader {
    /** What the stream still holds. */
    var rest: seq<Byte>

    constructor (stream: seq<Byte>)
      ensures rest == stream
    {
      rest := stream;
    }

    /** The stream is left where the outcome says, unless it is out of step. */
    ghost predicate LeftAt(r: Outcome)
      reads this
    {
      match r
      case Value(_, after) => rest == after
      case ErrorReply(_, after) => rest == after
      case Bad(_) => true
    }

    method TakeLine() returns (r: LineOutcome)
      modifies this
      ensures r == ReadLine(old(rest)) && (r.Line? ==> rest == r.rest)
    {
      var i := 0;
      while i < |rest| && rest[i] != LF
        invariant i <= |rest| && forall k :: 0 <= k < i ==> rest[k] != LF
      {
        i := i + 1;
      }
      assert i == LineFeed(rest) by {
        if i < |rest| {
          LineFeedAt(rest, i);
        }
      }
      if i >= LINE_LIMIT {
        return BadLine(Protocol);
      }
      if i == |rest| {
        return BadLine(EndOfStream);
      }
      if i < 1 || rest[i - 1] != CR {
        return BadLine(Protocol);
      }
      r := Line(rest[..i - 1], rest[i + 1..]);
      rest := r.rest;
    }

    method TakeBulk(arg: seq<Byte>) returns (r: Outcome)
      modifies this
      ensures r == ReadBulk(arg, old(rest)) && LeftAt(r)
    {
      var n := ParseInt(arg);
      if n == None {
        return Bad(Protocol);
      }
      if n.value == -1 {
        return Value(Nil, rest);
      }
      if n.value < 0 || n.value > MAX_BULK {
        return Bad(Protocol);
      }
      if |rest| < n.value + 2 {
        return Bad(EndOfStream);
      }
      var buf := rest[..n.value + 2];
      rest := rest[n.value + 2..];
      if buf[n.value] != CR || buf[n.value + 1] != LF {
        return Bad(Protocol);
      }
      assert buf[..n.value] == old(rest)[..n.value];
      return Value(Text(buf[..n.value]), rest);
    }

    method TakeReply(depth: nat) returns (r: Outcome)
      modifies this
      ensures r == ReadReply(old(rest), depth) && LeftAt(r)
      decreases Room(depth), 1
    {
      hide ReadLine, ReadBulk, ReadArray, ParseInt;
      var l := TakeLine();
      if l.BadLine? {
        return Bad(l.fault);
      }
      var line := l.line;
      if line == [] {
        return Bad(Protocol);
      }
      if line[0] == PLUS {
        return Value(Text(line[1..]), rest);
      } else if line[0] == MINUS {
        return ErrorReply(line[1..], rest);
      } else if line[0] == COLON {
        var n := ParseInt(line[1..]);
        return if n.Some? then Value(Number(n.value), rest) else Bad(Protocol);
      } else if line[0] == DOLLAR {
        r := TakeBulk(line[1..]);
      } else if line[0] == STAR {
        r := TakeArray(line[1..], depth);
      } else {
        r := Bad(Protocol);
      }
    }

    method TakeArray(arg: seq<Byte>, depth: nat) returns (r: Outcome)
      modifies this
      ensures r == ReadArray(arg, old(rest), depth) && LeftAt(r)
      decreases Room(depth), 0
    {
      hide ReadReply, ParseInt;
      var n := ParseInt(arg);
      if n == None {
        return Bad(Protocol);
      }
      if n.value == -1 {
        return Value(Nil, rest);
      }
      if n.value < 0 || n.value > MAX_ARRAY || depth >= MAX_DEPTH {
        return Bad(Protocol);
      }
      var out := [];
      ghost var stream := rest;
      for i := 0 to n.value
        invariant ReadItems(stream, depth + 1, i) == Value(Array(out), rest)
      {
        var item := TakeReply(depth + 1);
        if !item.Value? {
          ItemsStop(stream, depth + 1, i, n.value, item);
          return item;
        }
        out := out + [item.reply];
      }
      return Value(Array(out), rest);
    }
  }

  /** What ends an array early ends it, however many items were still to come. */
  lemma {:induction false} ItemsStop(s: seq<Byte>, depth: nat, i: nat, n: nat, item: Outcome)
    requires i < n && ReadItems(s, depth, i).Value? && !item.Value?
    requires ReadReply(ReadItems(s, depth, i).rest, depth) == item
    ensures ReadItems(s, depth, n) == item
    decreases n
  {
    hide ReadReply;
    if i + 1 < n {
      ItemsStop(s, depth, i, n - 1, item);
    }
  }
}
