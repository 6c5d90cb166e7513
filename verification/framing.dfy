/**
  * Newline framing of a receive buffer, as done by the daemon's connection
  * handler (`MCPRequestHandler.handle`) and the proxy's socket reader
  * (`forward_socket_to_stdout`): while the buffer holds a newline, split
  * off the text before the first one; what follows the last newline is
  * kept for the next read.
  *
  * Bytes are modelled as characters: a UTF-8 newline byte never occurs
  * inside a multi-byte sequence, so splitting bytes and then decoding each
  * line equals decoding and then splitting.
  */
module Framing {
  import Text

  /** The lines written back with their terminating newlines. */
  function Join(lines: seq<string>): string {
    if |lines| == 0 then "" else lines[0] + "\n" + Join(lines[1..])
  }

  /** A single line: it holds no newline. */
  predicate IsLine(s: string) {
    '\n' !in s
  }

  predicate NoNewlines(lines: seq<string>) {
    forall i :: 0 <= i < |lines| ==> IsLine(lines[i])
  }

  /** Complete lines in arrival order and the carried remainder. */
  datatype Split = Split(lines: seq<string>, rest: string)

  /** Repeated `line, buffer = buffer.split(b'\n', 1)` while a newline is left. */
  function Frame(buffer: string): Split
    decreases |buffer|
  {
    match Text.IndexOf(buffer, '\n')
    case None => Split([], buffer)
    case Some(k) =>
      var tail := Frame(buffer[k + 1..]);
      Split([buffer[..k]] + tail.lines, tail.rest)
  }

  /** Framing only cuts at newlines: the lines and the remainder hold
      none, and writing the lines back with their newlines, followed by
      the remainder, gives the buffer again. */
  lemma {:induction false} FrameSplits(buffer: string)
    ensures NoNewlines(Frame(buffer).lines)
    ensures IsLine(Frame(buffer).rest)
    ensures Join(Frame(buffer).lines) + Frame(buffer).rest == buffer
    decreases |buffer|
  {
    match Text.IndexOf(buffer, '\n')
    case None =>
    case Some(k) =>
      var line := buffer[..k];
      var after := buffer[k + 1..];
      var tail := Frame(after);
      FrameSplits(after);
      PrependLine(line, after, tail);
      CutAt(buffer, k);
  }

  /** Cutting at a newline and putting the pieces back. */
  lemma CutAt(buffer: string, k: nat)
    requires k < |buffer| && buffer[k] == '\n'
    ensures buffer[..k] + "\n" + buffer[k + 1..] == buffer
  {
  }

  /** One framing step: a newline-free line, its newline, then a framed tail. */
  lemma {:induction false} PrependLine(line: string, after: string, tail: Split)
    requires IsLine(line)
    requires NoNewlines(tail.lines) && Join(tail.lines) + tail.rest == after
    ensures NoNewlines([line] + tail.lines)
    ensures Join([line] + tail.lines) + tail.rest == line + "\n" + after
  {
    var lines := [line] + tail.lines;
    assert lines[1..] == tail.lines;
  }

  lemma {:induction false} JoinAppend(a: seq<string>, b: seq<string>)
    ensures Join(a + b) == Join(a) + Join(b)
  {
    if |a| > 0 {
      assert (a + b)[0] == a[0];
      assert (a + b)[1..] == a[1..] + b;
      JoinAppend(a[1..], b);
    } else {
      assert a + b == b;
    }
  }

  lemma OnlyNewlineAtEnd(x: string, tail: string)
    requires IsLine(x)
    ensures forall i :: 0 <= i <= |x| ==> ((x + "\n" + tail)[i] == '\n' <==> i == |x|)
  {
    forall i | 0 <= i <= |x|
      ensures (x + "\n" + tail)[i] == '\n' <==> i == |x|
    {
      if i < |x| {
        assert (x + "\n" + tail)[i] == x[i];
      }
    }
  }

  /** A newline-free line followed by a newline: the first newline sits
      right after the line. */
  lemma {:induction false} FirstNewline(x: string, tail: string, y: string, tail': string)
    requires IsLine(x) && IsLine(y)
    requires x + "\n" + tail == y + "\n" + tail'
    ensures x == y && tail == tail'
  {
    var s := x + "\n" + tail;
    OnlyNewlineAtEnd(x, tail);
    OnlyNewlineAtEnd(y, tail');
    assert s[|x|] == '\n';
    assert s[|y|] == '\n';
    if |x| < |y| {
      assert false;
    } else if |y| < |x| {
      assert false;
    }
    assert x == s[..|x|] == y;
    assert tail == s[|x| + 1..] == tail';
  }

  lemma {:induction false} NewlineAfterFirst(lines: seq<string>, rest: string)
    requires |lines| > 0
    ensures |lines[0]| < |Join(lines) + rest|
    ensures (Join(lines) + rest)[|lines[0]|] == '\n'
  {
    assert Join(lines) + rest == lines[0] + "\n" + (Join(lines[1..]) + rest);
  }

  /** Lines joined with newlines, followed by a newline-free remainder,
      can be read only one way. */
  lemma {:induction false} DecompositionUnique(a: seq<string>, ra: string, b: seq<string>, rb: string)
    requires NoNewlines(a) && NoNewlines(b) && IsLine(ra) && IsLine(rb)
    requires Join(a) + ra == Join(b) + rb
    ensures a == b && ra == rb
    decreases |a|
  {
    if |a| > 0 {
      NewlineAfterFirst(a, ra);
    }
    if |b| > 0 {
      NewlineAfterFirst(b, rb);
    }
    if |a| == 0 && |b| == 0 {
      assert Join(a) + ra == ra && Join(b) + rb == rb;
    } else if |a| == 0 {
      assert false;
    } else if |b| == 0 {
      assert false;
    } else {
      assert Join(a) + ra == a[0] + "\n" + (Join(a[1..]) + ra);
      assert Join(b) + rb == b[0] + "\n" + (Join(b[1..]) + rb);
      FirstNewline(a[0], Join(a[1..]) + ra, b[0], Join(b[1..]) + rb);
      DecompositionUnique(a[1..], ra, b[1..], rb);
      assert a == [a[0]] + a[1..];
      assert b == [b[0]] + b[1..];
    }
  }

  lemma NoNewlinesAppend(a: seq<string>, b: seq<string>)
    requires NoNewlines(a) && NoNewlines(b)
    ensures NoNewlines(a + b)
  {
    forall i | 0 <= i < |a + b|
      ensures IsLine((a + b)[i])
    {
      if i < |a| {
        assert (a + b)[i] == a[i];
      } else {
        assert (a + b)[i] == b[i - |a|];
      }
    }
  }

  /** Two framed pieces, the second continuing the first's remainder,
      frame the whole. */
  lemma {:induction false} Reassemble(l1: seq<string>, r1: string, l2: seq<string>, r2: string, a: string, b: string)
    requires NoNewlines(l1) && NoNewlines(l2)
    requires Join(l1) + r1 == a && Join(l2) + r2 == r1 + b
    ensures NoNewlines(l1 + l2)
    ensures Join(l1 + l2) + r2 == a + b
  {
    JoinAppend(l1, l2);
    NoNewlinesAppend(l1, l2);
    calc {
      Join(l1 + l2) + r2;
      Join(l1) + (Join(l2) + r2);
      Join(l1) + (r1 + b);
      (Join(l1) + r1) + b;
    }
  }

  /** `Frame` is the only split into newline-free lines and remainder. */
  lemma {:induction false} FrameCharacterised(buffer: string, lines: seq<string>, rest: string)
    requires NoNewlines(lines) && IsLine(rest)
    requires Join(lines) + rest == buffer
    ensures Frame(buffer) == Split(lines, rest)
  {
    var r := Frame(buffer);
    FrameSplits(buffer);
    DecompositionUnique(r.lines, r.rest, lines, rest);
  }

  /** Receiving `a` and then `b` yields the same lines, in the same order,
      and the same remainder as receiving `a + b` at once: the framing does
      not depend on where the reads split the stream. */
  lemma {:induction false} FrameIncremental(a: string, b: string)
    ensures Frame(a + b).lines == Frame(a).lines + Frame(Frame(a).rest + b).lines
    ensures Frame(a + b).rest == Frame(Frame(a).rest + b).rest
  {
    var first := Frame(a);
    var second := Frame(first.rest + b);
    FrameSplits(a);
    FrameSplits(first.rest + b);
    Reassemble(first.lines, first.rest, second.lines, second.rest, a, b);
    FrameCharacterised(a + b, first.lines + second.lines, second.rest);
  }

  /** The lines a handler acts on: empty lines are skipped (`if line:`). */
  function NonEmpty(lines: seq<string>): (r: seq<string>)
    ensures forall i :: 0 <= i < |r| ==> r[i] != ""
    ensures |r| <= |lines|
  {
    if |lines| == 0 then []
    else if lines[0] == "" then NonEmpty(lines[1..])
    else [lines[0]] + NonEmpty(lines[1..])
  }

  lemma {:induction false} NonEmptyAppend(a: seq<string>, b: seq<string>)
    ensures NonEmpty(a + b) == NonEmpty(a) + NonEmpty(b)
  {
    if |a| > 0 {
      assert (a + b)[0] == a[0];
      assert (a + b)[1..] == a[1..] + b;
      NonEmptyAppend(a[1..], b);
    } else {
      assert a + b == b;
    }
  }

  /** The concatenation of a sequence of received chunks. */
  function Concat(chunks: seq<string>): string {
    if |chunks| == 0 then "" else chunks[0] + Concat(chunks[1..])
  }

  /** Lines completed by feeding chunks one read at a time into the buffer. */
  function FeedLines(buffer: string, chunks: seq<string>): seq<string>
    decreases |chunks|
  {
    if |chunks| == 0 then []
    else
      var f := Frame(buffer + chunks[0]);
      f.lines + FeedLines(f.rest, chunks[1..])
  }

  lemma AppendAssoc(x: string, y: string, z: string)
    ensures (x + y) + z == x + (y + z)
  {
  }

  /** No chunk, no line: a buffer without a newline frames to nothing. */
  lemma {:induction false} FeedNothing(buffer: string, chunks: seq<string>)
    requires IsLine(buffer) && |chunks| == 0
    ensures FeedLines(buffer, chunks) == Frame(buffer + Concat(chunks)).lines
  {
    assert buffer + Concat(chunks) == buffer;
    assert Join([]) + buffer == buffer;
    FrameCharacterised(buffer, [], buffer);
  }

  /** Feeding chunk by chunk, starting from a buffer that holds no
      complete line, completes exactly the lines of the whole stream
      framed at once. */
  lemma {:induction false} FeedLinesWhole(buffer: string, chunks: seq<string>)
    requires IsLine(buffer)
    ensures FeedLines(buffer, chunks) == Frame(buffer + Concat(chunks)).lines
    decreases |chunks|
  {
    if |chunks| == 0 {
      FeedNothing(buffer, chunks);
    } else {
      var head := buffer + chunks[0];
      var later := Concat(chunks[1..]);
      var f := Frame(head);
      FrameSplits(head);
      FeedLinesWhole(f.rest, chunks[1..]);
      FrameIncremental(head, later);
      assert Concat(chunks) == chunks[0] + later;
      AppendAssoc(buffer, chunks[0], later);
    }
  }
}
