/**
  The newline framing of the serial line protocol, as pure functions.

  A byte stream is cut at every '\n': each terminator closes one message
  (the terminator itself is dropped, a '\r' before it is kept), and whatever
  follows the last terminator is a partial line still waiting for its end.
  `SplitLines` is that reading of a stream, written one character at a time
  from the left exactly as the background reader consumes bytes; `Join` is
  its inverse. The class in module AppKit is proved against these functions.
 */
module LineSplit {

  /** One byte as read from the serial device. */
  newtype Byte = x: int | 0 <= x < 256

  /** The line terminator as a byte ('\n'). */
  const NewlineByte: Byte := 10

  /** A byte read as a character: the character whose code is the byte value. */
  function ToChar(b: Byte): (c: char)
    ensures c as int == b as int
    ensures (c == '\n') <==> (b == NewlineByte)
  {
    (b as int) as char
  }

  /** The characters of a byte sequence, one per byte. */
  function Chars(bs: seq<Byte>): string
  {
    seq(|bs|, i requires 0 <= i < |bs| => ToChar(bs[i]))
  }

  predicate NoNewline(s: string)
  {
    '\n' !in s
  }

  predicate AllNoNewline(lines: seq<string>)
  {
    forall k :: 0 <= k < |lines| ==> NoNewline(lines[k])
  }

  /** Number of terminator characters in `s`. */
  function CountNewlines(s: string): nat
  {
    if s == [] then 0
    else CountNewlines(s[..|s| - 1]) + (if s[|s| - 1] == '\n' then 1 else 0)
  }

  /** A stream cut into its completed messages and the partial line after them. */
  datatype Split = Split(lines: seq<string>, rest: string)

  /**
    The messages a stream holds and the partial line it ends with. Neither
    contains a terminator, and there is one message per terminator.
   */
  function SplitLines(s: string): (r: Split)
    ensures NoNewline(r.rest)
    ensures AllNoNewline(r.lines)
    ensures |r.lines| == CountNewlines(s)
    decreases |s|
  {
    if s == [] then Split([], [])
    else
      var r := SplitLines(s[..|s| - 1]);
      var c := s[|s| - 1];
      if c == '\n' then Split(r.lines + [r.rest], [])
      else Split(r.lines, r.rest + [c])
  }

  /**
    Reading one more character: a terminator closes the partial line as the
    last message; any other character extends the partial line.
   */
  lemma SplitLinesSnoc(s: string, c: char)
    ensures SplitLines(s + [c])
         == if c == '\n' then Split(SplitLines(s).lines + [SplitLines(s).rest], [])
            else Split(SplitLines(s).lines, SplitLines(s).rest + [c])
  {
    assert (s + [c])[..|s|] == s;
  }

  /** Every line followed by its terminator, in order. */
  function Terminated(lines: seq<string>): string
  {
    if lines == [] then []
    else Terminated(lines[..|lines| - 1]) + lines[|lines| - 1] + "\n"
  }

  /** The stream a split came from: the terminated messages, then the partial line. */
  function Join(sp: Split): string
  {
    Terminated(sp.lines) + sp.rest
  }

  /** Joining the split of a stream gives the stream back: nothing is lost or reordered. */
  lemma {:induction false} JoinSplit(s: string)
    ensures Join(SplitLines(s)) == s
    decreases |s|
  {
    if s != [] {
      var p, c := s[..|s| - 1], s[|s| - 1];
      var r := SplitLines(p);
      JoinSplit(p);
      assert s == p + [c];
      if c == '\n' {
        var ls := r.lines + [r.rest];
        assert ls[..|ls| - 1] == r.lines;
      } else {
        assert Terminated(r.lines) + (r.rest + [c]) == (Terminated(r.lines) + r.rest) + [c];
      }
    }
  }

  /**
    Splitting terminated lines followed by a terminator-free tail gives exactly
    those lines and that tail: the split of a stream is the only one that
    joins back to it.
   */
  lemma {:induction false} SplitJoin(sp: Split)
    requires AllNoNewline(sp.lines) && NoNewline(sp.rest)
    ensures SplitLines(Join(sp)) == sp
    decreases |sp.lines|, |sp.rest|
  {
    var ls, rest := sp.lines, sp.rest;
    if rest != [] {
      var shorter := Split(ls, rest[..|rest| - 1]);
      SplitJoin(shorter);
      assert Join(sp) == Join(shorter) + [rest[|rest| - 1]];
      assert rest == rest[..|rest| - 1] + [rest[|rest| - 1]];
    } else if ls != [] {
      var last := ls[|ls| - 1];
      var prev := Split(ls[..|ls| - 1], last);
      assert NoNewline(last);
      SplitJoin(prev);
      assert Join(sp) == Join(prev) + "\n";
      assert ls == ls[..|ls| - 1] + [last];
    }
  }

  /** A stream without a terminator is all partial line. */
  lemma {:induction false} SplitPartial(s: string)
    requires NoNewline(s)
    ensures SplitLines(s) == Split([], s)
  {
    SplitJoin(Split([], s));
    assert Join(Split([], s)) == s;
  }

  /**
    A partial line produces no message until its terminator arrives, which
    turns it into exactly one message, terminator excluded.
   */
  lemma PartialLineThenTerminator(s: string)
    requires NoNewline(s)
    ensures SplitLines(s).lines == []
    ensures SplitLines(s + "\n") == Split([s], [])
  {
    SplitPartial(s);
  }

  /**
    Splitting a stream fed in two chunks, the second one continuing the
    partial line left by the first, gives the same messages and the same
    partial line as splitting it in one go.
   */
  lemma {:induction false} SplitAppend(a: string, b: string)
    ensures SplitLines(a + b).lines
         == SplitLines(a).lines + SplitLines(SplitLines(a).rest + b).lines
    ensures SplitLines(a + b).rest == SplitLines(SplitLines(a).rest + b).rest
    decreases |b|
  {
    var ra := SplitLines(a);
    if b == [] {
      assert a + b == a;
      SplitPartial(ra.rest);
      assert ra.rest + b == ra.rest;
    } else {
      var b', c := b[..|b| - 1], b[|b| - 1];
      SplitAppend(a, b');
      assert (a + b)[..|a + b| - 1] == a + b' && (a + b)[|a + b| - 1] == c;
      var t := ra.rest + b;
      assert t[..|t| - 1] == ra.rest + b' && t[|t| - 1] == c;
    }
  }

  /** The characters of one more byte. */
  lemma CharsSnoc(bs: seq<Byte>, i: nat)
    requires i < |bs|
    ensures Chars(bs[..i + 1]) == Chars(bs[..i]) + [ToChar(bs[i])]
  {
  }

  /** The characters of two byte chunks are the characters of their concatenation. */
  lemma CharsAppend(a: seq<Byte>, b: seq<Byte>)
    ensures Chars(a + b) == Chars(a) + Chars(b)
  {
  }

  /** A terminator-free text holds no terminator. */
  lemma {:induction false} NoNewlineCount(s: string)
    requires NoNewline(s)
    ensures CountNewlines(s) == 0
    decreases |s|
  {
    if s != [] {
      NoNewlineCount(s[..|s| - 1]);
    }
  }

  /**
    Bytes fed after a terminator-free partial line close exactly as many
    messages as they hold terminators.
   */
  lemma {:induction false} MessageCount(d: string, bs: seq<Byte>)
    requires NoNewline(d)
    ensures |SplitLines(d + Chars(bs)).lines| == CountNewlines(Chars(bs))
    decreases |bs|
  {
    if bs == [] {
      assert d + Chars(bs) == d;
      NoNewlineCount(d);
    } else {
      var bs' := bs[..|bs| - 1];
      MessageCount(d, bs');
      var s := d + Chars(bs);
      assert s[..|s| - 1] == d + Chars(bs');
      assert s[|s| - 1] == ToChar(bs[|bs| - 1]);
      assert Chars(bs)[..|bs| - 1] == Chars(bs');
    }
  }
}
