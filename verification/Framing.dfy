/** Newline framing of a byte stream, and of frames that already are whole. */
module Framing {
  import opened JsonText

  const NEWLINE: Unit := 10
  const MAX_LINE: nat := 256 * 1024

  /** The white space and line terminators JavaScript trims. */
  predicate IsSpace(u: Unit) {
    9 <= u <= 13 || 0x2000 <= u <= 0x200A || u in {32, 160, 0x1680, 0x2028, 0x2029, 0x202F, 0x205F, 0x3000, 0xFEFF}
  }

  function TrimStart(t: Text): Text {
    if t != [] && IsSpace(t[0]) then TrimStart(t[1..]) else t
  }

  function TrimEnd(t: Text): Text {
    if t != [] && IsSpace(t[|t| - 1]) then TrimEnd(t[..|t| - 1]) else t
  }

  function Trim(t: Text): Text {
    TrimEnd(TrimStart(t))
  }

  /** Where the first newline stands; the length when there is none. */
  function NewlineAt(t: Text): (i: nat)
    ensures i <= |t| && NEWLINE !in t[..i] && (i < |t| ==> t[i] == NEWLINE)
  {
    if t == [] || t[0] == NEWLINE then 0
    else
      var i := NewlineAt(t[1..]);
      assert t[..i + 1] == [t[0]] + t[1..][..i];
      i + 1
  }

  /** The lines of a text that end in a newline. */
  function Complete(t: Text): seq<Text>
    decreases |t|
  {
    var i := NewlineAt(t);
    if i == |t| then [] else [t[..i]] + Complete(t[i + 1..])
  }

  /** What follows the last newline. */
  function Remainder(t: Text): (r: Text)
    ensures |r| <= |t| && NEWLINE !in r
    decreases |t|
  {
    var i := NewlineAt(t);
    if i == |t| then t else Remainder(t[i + 1..])
  }

  lemma FirstComplete(t: Text)
    ensures var i := NewlineAt(t);
      Complete(t) == if i == |t| then [] else [t[..i]] + Complete(t[i + 1..])
  {
    hide NewlineAt;
  }

  lemma LastRemainder(t: Text)
    ensures var i := NewlineAt(t);
      Remainder(t) == if i == |t| then t else Remainder(t[i + 1..])
  {
    hide NewlineAt;
  }

  lemma FirstLine(t: Text)
    ensures var i := NewlineAt(t);
      if i == |t| then Complete(t) == [] && Remainder(t) == t
      else Complete(t) == [t[..i]] + Complete(t[i + 1..]) && Remainder(t) == Remainder(t[i + 1..])
  {
    FirstComplete(t);
    LastRemainder(t);
    hide NewlineAt, Complete, Remainder;
  }

  /** The lines that are handled: trimmed, and not empty then. */
  function Handled(lines: seq<Text>): seq<Text> {
    if lines == [] then []
    else (if Trim(lines[0]) == [] then [] else [Trim(lines[0])]) + Handled(lines[1..])
  }

  lemma NothingHandled()
    ensures Handled([]) == []
  {
  }

  lemma FirstHandled(line: Text, lines: seq<Text>)
    ensures Handled([line] + lines) == (if Trim(line) == [] then [] else [Trim(line)]) + Handled(lines)
  {
    assert ([line] + lines)[1..] == lines;
  }

  /** What one chunk does to a reader holding a buffer. */
  datatype Fed = Fed(lines: seq<Text>, overflow: bool, buffer: Text)

  function FedOnce(buffer: Text, chunk: Text): Fed {
    var all := buffer + chunk;
    if |all| > MAX_LINE then Fed([], true, []) else Fed(Handled(Complete(all)), false, Remainder(all))
  }

  /** Every piece of a frame between newlines, the last one included. */
  function FrameLines(payload: Text): seq<Text> {
    if |payload| > MAX_LINE then [] else Handled(Complete(payload) + [Remainder(payload)])
  }

  class StreamReader {
    var buffer: Text

    constructor ()
      ensures buffer == []
    {
      buffer := [];
    }

    method Feed(chunk: Text) returns (lines: seq<Text>, overflow: bool)
      modifies this
      ensures Fed(lines, overflow, buffer) == FedOnce(old(buffer), chunk)
      ensures NEWLINE !in buffer
    {
      hide Trim, Complete, Remainder, NewlineAt, Handled;
      buffer := buffer + chunk;
      lines := [];
      if |buffer| > MAX_LINE {
        buffer := [];
        return [], true;
      }
      overflow := false;
      ghost var all := buffer;
      var idx := NewlineAt(buffer);
      FirstLine(buffer);
      while idx < |buffer|
        invariant idx == NewlineAt(buffer)
        invariant lines + Handled(Complete(buffer)) == Handled(Complete(all))
        invariant Remainder(buffer) == Remainder(all)
        invariant idx == |buffer| ==> Complete(buffer) == [] && Remainder(buffer) == buffer
        decreases |buffer|
      {
        var line := Trim(buffer[..idx]);
        FirstLine(buffer);
        FirstHandled(buffer[..idx], Complete(buffer[idx + 1..]));
        buffer := buffer[idx + 1..];
        if line != [] {
          lines := lines + [line];
        }
        idx := NewlineAt(buffer);
        FirstLine(buffer);
      }
      assert Handled([]) == [] by { NothingHandled(); }
    }
  }

  method ReadFrame(payload: Text) returns (lines: seq<Text>, overflow: bool)
    ensures overflow <==> |payload| > MAX_LINE
    ensures lines == FrameLines(payload)
  {
    lines := [];
    overflow := |payload| > MAX_LINE;
    if overflow {
      return;
    }
    var parts := Complete(payload) + [Remainder(payload)];
    var k := 0;
    while k < |parts|
      invariant 0 <= k <= |parts|
      invariant lines + Handled(parts[k..]) == Handled(parts)
    {
      var trimmed := Trim(parts[k]);
      assert parts[k..][1..] == parts[k + 1..];
      if trimmed != [] {
        lines := lines + [trimmed];
      }
      k := k + 1;
    }
  }

  // ---- The lines do not depend on how the stream was cut ----

  lemma {:induction false} NewlineInPrefix(a: Text, b: Text)
    requires NewlineAt(a) < |a|
    ensures NewlineAt(a + b) == NewlineAt(a)
  {
    if a[0] != NEWLINE {
      assert (a + b)[1..] == a[1..] + b;
      NewlineInPrefix(a[1..], b);
    }
  }

  lemma {:induction false} NewlineLast(r: Text)
    requires NEWLINE !in r
    ensures NewlineAt(r + [NEWLINE]) == |r|
  {
    if r != [] {
      assert (r + [NEWLINE])[1..] == r[1..] + [NEWLINE];
      NewlineLast(r[1..]);
    }
  }

  lemma {:induction false} CutAnywhere(a: Text, b: Text)
    ensures Complete(a + b) == Complete(a) + Complete(Remainder(a) + b)
    ensures Remainder(a + b) == Remainder(Remainder(a) + b)
    decreases |a|
  {
    hide Complete, Remainder, NewlineAt;
    var i := NewlineAt(a);
    FirstLine(a);
    FirstLine(a + b);
    if i < |a| {
      NewlineInPrefix(a, b);
      assert (a + b)[..i] == a[..i] && (a + b)[i + 1..] == a[i + 1..] + b;
      CutAnywhere(a[i + 1..], b);
    } else {
      assert [] + Complete(a + b) == Complete(a + b);
    }
  }

  lemma {:induction false} LastLine(p: Text)
    ensures Complete(p + [NEWLINE]) == Complete(p) + [Remainder(p)] && Remainder(p + [NEWLINE]) == []
  {
    CutAnywhere(p, [NEWLINE]);
    var r := Remainder(p);
    NewlineLast(r);
    assert (r + [NEWLINE])[..|r|] == r && (r + [NEWLINE])[|r| + 1..] == [];
  }

  lemma {:induction false} HandledParts(a: seq<Text>, b: seq<Text>)
    ensures Handled(a + b) == Handled(a) + Handled(b)
  {
    if a == [] {
      assert a + b == b;
    } else {
      assert (a + b)[1..] == a[1..] + b;
      HandledParts(a[1..], b);
    }
  }

  function Concat(chunks: seq<Text>): Text {
    if chunks == [] then [] else chunks[0] + Concat(chunks[1..])
  }

  /** A reader fed every chunk, starting empty: what it handled, what it holds, and whether it ever overflowed. */
  function FedAll(chunks: seq<Text>): Fed {
    if chunks == [] then Fed([], false, [])
    else
      var before := FedAll(chunks[..|chunks| - 1]);
      var last := FedOnce(before.buffer, chunks[|chunks| - 1]);
      Fed(before.lines + last.lines, before.overflow || last.overflow, last.buffer)
  }

  lemma {:induction false} ConcatLast(chunks: seq<Text>)
    requires chunks != []
    ensures Concat(chunks) == Concat(chunks[..|chunks| - 1]) + chunks[|chunks| - 1]
  {
    if |chunks| > 1 {
      assert chunks[1..][..|chunks| - 2] == chunks[..|chunks| - 1][1..];
      ConcatLast(chunks[1..]);
    }
  }

  /** However a stream was cut, if no cut overflowed the reader handled the lines of the whole stream. */
  lemma {:induction false} ChunkIndependent(chunks: seq<Text>)
    requires !FedAll(chunks).overflow
    ensures FedAll(chunks).lines == Handled(Complete(Concat(chunks)))
    ensures FedAll(chunks).buffer == Remainder(Concat(chunks))
  {
    if chunks != [] {
      var front, last := chunks[..|chunks| - 1], chunks[|chunks| - 1];
      ChunkIndependent(front);
      ConcatLast(chunks);
      CutAnywhere(Concat(front), last);
      HandledParts(Complete(Concat(front)), Complete(Remainder(Concat(front)) + last));
    }
  }

  /** Chunk k, behind the unfinished line before it, is over the limit. */
  predicate Over(chunks: seq<Text>, k: nat)
    requires k < |chunks|
  {
    |Remainder(Concat(chunks[..k]))| + |chunks[k]| > 262144
  }

  lemma OverInFront(chunks: seq<Text>, n: nat, k: nat)
    requires k < n <= |chunks|
    ensures Over(chunks[..n], k) == Over(chunks, k)
  {
    assert chunks[..n][..k] == chunks[..k];
  }

  lemma LastOverflow(chunks: seq<Text>)
    requires chunks != []
    ensures var front := chunks[..|chunks| - 1];
      FedAll(chunks).overflow <==> FedAll(front).overflow || Over(chunks, |chunks| - 1)
  {
    var front := chunks[..|chunks| - 1];
    if !FedAll(front).overflow {
      ChunkIndependent(front);
    }
  }

  /** A cut overflows exactly when some chunk does. */
  lemma {:induction false} OverflowIff(chunks: seq<Text>)
    ensures FedAll(chunks).overflow <==> exists k | 0 <= k < |chunks| :: Over(chunks, k)
  {
    if chunks != [] {
      var n := |chunks| - 1;
      OverflowIff(chunks[..n]);
      LastOverflow(chunks);
      hide FedAll, Over;
      forall k | 0 <= k < n ensures Over(chunks[..n], k) == Over(chunks, k) {
        OverInFront(chunks, n, k);
      }
    }
  }

  lemma SameStream(chunks: seq<Text>, others: seq<Text>)
    requires Concat(chunks) == Concat(others) && !FedAll(chunks).overflow && !FedAll(others).overflow
    ensures FedAll(chunks) == FedAll(others)
  {
    ChunkIndependent(chunks);
    ChunkIndependent(others);
  }

  /** A frame is handled like the same text and a newline on a fresh stream, except at exactly the limit. */
  lemma FrameMatchesStreamIff(p: Text)
    ensures Fed(FrameLines(p), |p| > MAX_LINE, []) == FedOnce([], p + [NEWLINE]) <==> |p| != 262144
  {
    LastLine(p);
    assert [] + (p + [NEWLINE]) == p + [NEWLINE];
  }

  lemma FedBehind(front: seq<Text>, last: Text)
    ensures var before, now := FedAll(front), FedAll(front + [last]);
      var once := FedOnce(before.buffer, last);
      now == Fed(before.lines + once.lines, before.overflow || once.overflow, once.buffer)
  {
    var chunks := front + [last];
    assert chunks[..|chunks| - 1] == front;
    hide FedOnce;
  }

  lemma FedNothing()
    ensures FedAll([]) == Fed([], false, [])
  {
  }

  /** An overflow drops the unfinished line and the chunk, and nothing else: the reader goes on like a new one. */
  lemma {:induction false} OverflowStartsOver(before: seq<Text>, chunk: Text, after: seq<Text>)
    requires |FedAll(before).buffer| + |chunk| > MAX_LINE
    ensures var r := FedAll(before + [chunk] + after);
      r == Fed(FedAll(before).lines + FedAll(after).lines, true, FedAll(after).buffer)
    decreases |after|
  {
    hide FedAll;
    if after == [] {
      FedBehind(before, chunk);
      FedNothing();
      assert before + [chunk] + after == before + [chunk];
    } else {
      var n := |after| - 1;
      assert before + [chunk] + after == (before + [chunk] + after[..n]) + [after[n]];
      assert after == after[..n] + [after[n]];
      OverflowStartsOver(before, chunk, after[..n]);
      FedBehind(before + [chunk] + after[..n], after[n]);
      FedBehind(after[..n], after[n]);
      hide FedOnce;
    }
  }

  // ---- What lines and trimming are ----

  /** Lines put together again, each with its newline. */
  function Terminated(lines: seq<Text>): Text {
    if lines == [] then [] else lines[0] + [NEWLINE] + Terminated(lines[1..])
  }

  /** The lines and the remainder are the text cut at each of its newlines. */
  lemma {:induction false} LinesExact(t: Text)
    ensures Terminated(Complete(t)) + Remainder(t) == t && NEWLINE !in Remainder(t)
    ensures forall line | line in Complete(t) :: NEWLINE !in line
    decreases |t|
  {
    var i := NewlineAt(t);
    FirstLine(t);
    hide Complete, Remainder, NewlineAt;
    if i < |t| {
      var rest := t[i + 1..];
      LinesExact(rest);
      var lines := [t[..i]] + Complete(rest);
      assert lines[1..] == Complete(rest);
      assert t[..i] + [NEWLINE] + Terminated(Complete(rest)) + Remainder(rest) == t[..i] + [NEWLINE] + rest;
      assert t == t[..i] + [NEWLINE] + rest;
    }
  }

  lemma {:induction false} TrimStartExact(t: Text)
    ensures var n := |t| - |TrimStart(t)|;
      && 0 <= n && TrimStart(t) == t[n..] && (forall k | 0 <= k < n :: IsSpace(t[k]))
      && (n < |t| ==> !IsSpace(t[n]))
  {
    if t != [] && IsSpace(t[0]) {
      TrimStartExact(t[1..]);
    }
  }

  lemma {:induction false} TrimEndExact(t: Text)
    ensures var n := |TrimEnd(t)|;
      && n <= |t| && TrimEnd(t) == t[..n] && (forall k | n <= k < |t| :: IsSpace(t[k]))
      && (n > 0 ==> !IsSpace(t[n - 1]))
  {
    if t != [] && IsSpace(t[|t| - 1]) {
      TrimEndExact(t[..|t| - 1]);
    }
  }

  /** Only white space surrounds the part from i to j, and the part does not begin or end with any. */
  predicate Surrounded(t: Text, i: nat, j: nat) {
    && i <= j <= |t| && (forall k | 0 <= k < |t| && !(i <= k < j) :: IsSpace(t[k]))
    && (i < j ==> !IsSpace(t[i]) && !IsSpace(t[j - 1]))
  }

  lemma TrimExact(t: Text)
    ensures exists i: nat, j: nat :: Surrounded(t, i, j) && Trim(t) == t[i..j]
  {
    TrimStartExact(t);
    TrimEndExact(TrimStart(t));
    hide TrimStart, TrimEnd, IsSpace;
    var i := |t| - |TrimStart(t)|;
    var j := i + |Trim(t)|;
    assert forall k | i <= k < |t| :: t[i..][k - i] == t[k];
    assert Surrounded(t, i, j);
  }
}
