/**
 * The JavaScript string operations the stream decoder relies on:
 * `s.split('\n')`, `s.trim()` and `s.startsWith(p)`, on strings of characters.
 */
module Text {

  /** The characters `String.prototype.trim` removes: ECMAScript WhiteSpace and LineTerminator. */
  predicate IsJsWhitespace(c: char)
  {
    c == '\t' || c == '\n' || c == '\U{000B}' || c == '\U{000C}' || c == '\r' || c == ' ' ||
    c == '\U{00A0}' || c == '\U{1680}' || ('\U{2000}' <= c <= '\U{200A}') ||
    c == '\U{2028}' || c == '\U{2029}' || c == '\U{202F}' || c == '\U{205F}' ||
    c == '\U{3000}' || c == '\U{FEFF}'
  }

  predicate AllWhitespace(s: string)
  {
    forall k :: 0 <= k < |s| ==> IsJsWhitespace(s[k])
  }

  function TrimStart(s: string): (r: string)
    ensures |r| <= |s| && r == s[|s| - |r|..]
    ensures r == [] || !IsJsWhitespace(r[0])
    ensures AllWhitespace(s[..|s| - |r|])
  {
    if s != [] && IsJsWhitespace(s[0]) then
      var r := TrimStart(s[1..]);
      TrimStartStep(s, r);
      r
    else s
  }

  /** Trimming after a leading whitespace character keeps a suffix of `s` and drops only whitespace. */
  lemma TrimStartStep(s: string, r: string)
    requires s != [] && IsJsWhitespace(s[0])
    requires |r| <= |s| - 1 && r == s[1..][|s| - 1 - |r|..]
    requires AllWhitespace(s[1..][..|s| - 1 - |r|])
    ensures r == s[|s| - |r|..] && AllWhitespace(s[..|s| - |r|])
  {
    var dropped := s[1..][..|s| - 1 - |r|];
    assert s[..|s| - |r|] == [s[0]] + dropped;
  }

  function TrimEnd(s: string): (r: string)
    ensures |r| <= |s| && r == s[..|r|]
    ensures r == [] || !IsJsWhitespace(r[|r| - 1])
    ensures AllWhitespace(s[|r|..])
  {
    if s != [] && IsJsWhitespace(s[|s| - 1]) then
      var init := s[..|s| - 1];
      var r := TrimEnd(init);
      assert init[..|r|] == s[..|r|];
      assert AllWhitespace(s[|r|..]) by {
        var dropped := init[|r|..];
        assert AllWhitespace(dropped);
        assert s[|r|..] == dropped + [s[|s| - 1]];
      }
      r
    else s
  }

  /** `s.trim()`: leading and trailing whitespace removed. */
  function Trim(s: string): (r: string)
    ensures |r| <= |s|
    ensures r == [] || (!IsJsWhitespace(r[0]) && !IsJsWhitespace(r[|r| - 1]))
  {
    TrimEnd(TrimStart(s))
  }

  /** `Trim(s)` is a contiguous piece of `s` with only whitespace before and after it. */
  lemma TrimIsSlice(s: string)
    ensures exists a :: 0 <= a <= |s| - |Trim(s)| && Trim(s) == s[a..a + |Trim(s)|] &&
                        AllWhitespace(s[..a]) && AllWhitespace(s[a + |Trim(s)|..])
  {
    var a := TrimOffset(s);
  }

  /** Where `Trim(s)` starts in `s`: the number of leading whitespace characters. */
  lemma TrimOffset(s: string) returns (a: nat)
    ensures a <= |s| - |Trim(s)| && Trim(s) == s[a..a + |Trim(s)|]
    ensures AllWhitespace(s[..a]) && AllWhitespace(s[a + |Trim(s)|..])
  {
    var t := TrimStart(s);
    var r := TrimEnd(t);
    a := |s| - |t|;
    assert t == s[a..] && AllWhitespace(s[..a]);
    assert r == t[..|r|] && AllWhitespace(t[|r|..]);
    SliceOfSuffix(s, a, |r|);
  }

  /** Cutting the suffix `s[a..]` at `n` gives the slice `s[a..a + n]` and the rest `s[a + n..]`. */
  lemma SliceOfSuffix(s: string, a: nat, n: nat)
    requires a + n <= |s|
    ensures s[a..][..n] == s[a..a + n] && s[a..][n..] == s[a + n..]
  {
  }

  /** A string trims to the empty string exactly when every character of it is whitespace. */
  lemma TrimEmptyIffBlank(s: string)
    ensures Trim(s) == "" <==> AllWhitespace(s)
  {
    var t := TrimStart(s);
    if Trim(s) == "" {
      assert s == s[..|s| - |t|] + t;
      assert AllWhitespace(t) by { assert t[|Trim(s)|..] == t; }
    } else {
      var r := Trim(s);
      assert !IsJsWhitespace(r[0]);
      assert r[0] == s[|s| - |t|];
    }
  }

  /** `s.startsWith(p)`. */
  predicate StartsWith(s: string, p: string)
  {
    |p| <= |s| && s[..|p|] == p
  }

  /** `s` starts with `p` exactly when `s` is `p` followed by some text. */
  lemma StartsWithIffPrefixed(s: string, p: string)
    ensures StartsWith(s, p) <==> exists t :: s == p + t
  {
    if StartsWith(s, p) {
      assert s == p + s[|p|..];
    }
    if exists t :: s == p + t {
      var t :| s == p + t;
      assert s[..|p|] == p;
    }
  }

  /** No character of `s` is a newline. */
  predicate NoNewline(s: string)
  {
    forall k :: 0 <= k < |s| ==> s[k] != '\n'
  }

  /** The index of the first `'\n'` of `s`, or `|s|` when there is none. */
  function NewlineIndex(s: string): (i: nat)
    ensures i <= |s| && (i < |s| ==> s[i] == '\n')
    ensures forall k :: 0 <= k < i ==> s[k] != '\n'
  {
    if s == [] || s[0] == '\n' then 0 else 1 + NewlineIndex(s[1..])
  }

  /** The first newline is the only index with a newline and none before it. */
  lemma NewlineIndexIs(s: string, i: nat)
    requires i <= |s| && (i < |s| ==> s[i] == '\n')
    requires forall k :: 0 <= k < i ==> s[k] != '\n'
    ensures NewlineIndex(s) == i
  {
    var j := NewlineIndex(s);
    assert j < |s| ==> s[j] == '\n';
  }

  /** Text cut at its newlines: the lines each newline terminates, then what follows the last one. */
  datatype Framing = Framing(lines: seq<string>, rest: string)

  /** Cuts `s` at every newline; neither the lines nor the rest hold a newline. */
  function Frame(s: string): (f: Framing)
    ensures NoNewline(f.rest)
    ensures forall k :: 0 <= k < |f.lines| ==> NoNewline(f.lines[k])
    decreases |s|
  {
    var i := NewlineIndex(s);
    if i == |s| then Framing([], s)
    else
      var f := Frame(s[i + 1..]);
      Framing([s[..i]] + f.lines, f.rest)
  }

  /** The lines of `s` that a newline terminates. */
  function Lines(s: string): seq<string>
  {
    Frame(s).lines
  }

  /** What follows the last newline of `s` (all of `s` when it holds none). */
  function Rest(s: string): string
  {
    Frame(s).rest
  }

  /** `s.split('\n')`: the terminated lines, then the rest; at least one piece, none holding a newline. */
  function SplitOnNewline(s: string): (pieces: seq<string>)
    ensures |pieces| >= 1 && pieces[..|pieces| - 1] == Lines(s) && pieces[|pieces| - 1] == Rest(s)
    ensures forall k :: 0 <= k < |pieces| ==> NoNewline(pieces[k])
  {
    Lines(s) + [Rest(s)]
  }

  /** Each line followed by its `'\n'` terminator, all concatenated. */
  function Terminated(lines: seq<string>): string
  {
    if lines == [] then "" else lines[0] + "\n" + Terminated(lines[1..])
  }

  function Concat(chunks: seq<string>): string
  {
    if chunks == [] then "" else Concat(chunks[..|chunks| - 1]) + chunks[|chunks| - 1]
  }

  /** Text without a newline is all leftover. */
  lemma NoLineWithoutNewline(s: string)
    requires NoNewline(s)
    ensures Lines(s) == [] && Rest(s) == s
  {
    NewlineIndexIs(s, |s|);
  }

  /** One step of the split: the text before the first newline, then the split of what follows it. */
  lemma SplitStep(s: string, i: nat)
    requires i < |s| && s[i] == '\n'
    requires forall k :: 0 <= k < i ==> s[k] != '\n'
    ensures Lines(s) == [s[..i]] + Lines(s[i + 1..])
    ensures Rest(s) == Rest(s[i + 1..])
  {
    NewlineIndexIs(s, i);
  }

  /** Text is what precedes a newline in it, the newline, and what follows it. */
  lemma CutAtNewline(s: string, i: nat)
    requires i < |s| && s[i] == '\n'
    ensures s == s[..i] + "\n" + s[i + 1..]
  {
  }

  /** Terminating a first line in front of the others. */
  lemma TerminatedCons(line: string, lines: seq<string>, rest: string)
    ensures Terminated([line] + lines) + rest == line + "\n" + (Terminated(lines) + rest)
  {
    assert ([line] + lines)[0] == line && ([line] + lines)[1..] == lines;
  }

  /** Splitting loses and invents nothing: the terminated lines followed by the rest give back `s`. */
  lemma {:induction false} SplitRoundTrip(s: string)
    ensures Terminated(Lines(s)) + Rest(s) == s
    decreases |s|
  {
    var i := NewlineIndex(s);
    if i == |s| {
      NoLineWithoutNewline(s);
      assert Terminated([]) + s == s;
    } else {
      var tail := s[i + 1..];
      CutAtNewline(s, i);
      SplitStep(s, i);
      SplitRoundTrip(tail);
      TerminatedCons(s[..i], Lines(tail), Rest(tail));
    }
  }

  /** A newline-free line followed by a newline is split off first. */
  lemma NewlineAfter(line: string, tail: string)
    requires NoNewline(line)
    ensures Lines(line + "\n" + tail) == [line] + Lines(tail)
    ensures Rest(line + "\n" + tail) == Rest(tail)
  {
    var s := line + "\n" + tail;
    forall k | 0 <= k < |line| ensures s[k] != '\n' {
      assert s[k] == line[k];
    }
    assert s[..|line|] == line && s[|line| + 1..] == tail;
    SplitStep(s, |line|);
  }

  /** One complete line followed by a newline-free leftover. */
  lemma OneLine(line: string, rest: string)
    requires NoNewline(line) && NoNewline(rest)
    ensures Lines(line + "\n" + rest) == [line] && Rest(line + "\n" + rest) == rest
  {
    NewlineAfter(line, rest);
    NoLineWithoutNewline(rest);
  }

  /** Two complete lines and nothing after them. */
  lemma TwoLines(a: string, b: string)
    requires NoNewline(a) && NoNewline(b)
    ensures Lines(a + "\n" + b + "\n") == [a, b] && Rest(a + "\n" + b + "\n") == ""
  {
    var tail := b + "\n";
    AppendAssoc(a + "\n", b, "\n");
    NewlineAfter(a, tail);
    AppendEmpty(tail);
    OneLine(b, "");
  }

  lemma AppendAssoc<T>(x: seq<T>, y: seq<T>, z: seq<T>)
    ensures x + y + z == x + (y + z)
  {
  }

  lemma AppendEmpty(x: string)
    ensures x + "" == x
  {
  }

  /** Joining newline-free text keeps it newline-free. */
  lemma NoNewlineAppend(a: string, b: string)
    requires NoNewline(a) && NoNewline(b)
    ensures NoNewline(a + b)
  {
    forall k | 0 <= k < |a + b| ensures (a + b)[k] != '\n' {
      if k < |a| { assert (a + b)[k] == a[k]; } else { assert (a + b)[k] == b[k - |a|]; }
    }
  }

  /** The other direction: newline-free lines, terminated and followed by a newline-free rest, split back into themselves. */
  lemma {:induction false} SplitTerminated(lines: seq<string>, rest: string)
    requires forall k :: 0 <= k < |lines| ==> NoNewline(lines[k])
    requires NoNewline(rest)
    ensures Lines(Terminated(lines) + rest) == lines
    ensures Rest(Terminated(lines) + rest) == rest
    decreases |lines|
  {
    if lines == [] {
      assert Terminated(lines) + rest == rest;
      NoLineWithoutNewline(rest);
    } else {
      var tail := Terminated(lines[1..]) + rest;
      SplitTerminated(lines[1..], rest);
      TerminatedCons(lines[0], lines[1..], rest);
      assert [lines[0]] + lines[1..] == lines;
      NewlineAfter(lines[0], tail);
    }
  }

  /** Splitting `s + t` splits off the complete lines of `s` first, then splits what `s` left over joined to `t`. */
  lemma {:induction false} SplitAppend(s: string, t: string)
    ensures Lines(s + t) == Lines(s) + Lines(Rest(s) + t)
    ensures Rest(s + t) == Rest(Rest(s) + t)
    decreases |s|
  {
    var i := NewlineIndex(s);
    if i == |s| {
      NoLineWithoutNewline(s);
      assert Lines(s) + Lines(Rest(s) + t) == Lines(s + t);
    } else {
      var st := s + t;
      PrefixNewline(s, t, i);
      SplitStep(st, i);
      SplitStep(s, i);
      SplitAppend(s[i + 1..], t);
    }
  }

  /** The first newline of `s` is also the first of `s + t`, with the same text before it. */
  lemma PrefixNewline(s: string, t: string, i: nat)
    requires i < |s| && s[i] == '\n'
    requires forall k :: 0 <= k < i ==> s[k] != '\n'
    ensures (s + t)[i] == '\n' && forall k :: 0 <= k < i ==> (s + t)[k] != '\n'
    ensures (s + t)[..i] == s[..i] && (s + t)[i + 1..] == s[i + 1..] + t
  {
  }

  /** Text without a newline completes no line: it only extends the leftover. */
  lemma UnterminatedAddsNoLine(s: string, t: string)
    requires NoNewline(t)
    ensures Lines(s + t) == Lines(s)
    ensures Rest(s + t) == Rest(s) + t
  {
    SplitAppend(s, t);
    var r := Rest(s) + t;
    NoNewlineAppend(Rest(s), t);
    NoLineWithoutNewline(r);
    assert Lines(s) + [] == Lines(s);
  }

  /** Concatenation read from the front: the first chunk, then the concatenation of the others. */
  lemma {:induction false} ConcatFront(chunks: seq<string>)
    requires chunks != []
    ensures Concat(chunks) == chunks[0] + Concat(chunks[1..])
    decreases |chunks|
  {
    if |chunks| > 1 {
      var init, last := chunks[..|chunks| - 1], chunks[|chunks| - 1];
      var tail := chunks[1..];
      ConcatFront(init);
      assert init[0] == chunks[0];
      assert tail[..|tail| - 1] == init[1..];
      assert tail[|tail| - 1] == last;
      assert Concat(tail) == Concat(init[1..]) + last;
    } else {
      assert chunks[1..] == [];
      assert chunks[..0] == [];
    }
  }
}
