/** The string operations the configurator uses, on ASCII text. */
module Text {
  // The string operations the configurator uses, on ASCII text: case, searching,
  // stripping white space, splitting and joining, and lines. Each has the lemmas
  // its callers need, above all that splitting undoes joining and that lines
  // written with a line feed after each are read back as they were.

  /** A value, or the error the configurator raises instead. */
  datatype Result<+T> = Ok(value: T) | Err

  // ----------------------------------------------------------------------- case

  function LowerChar(c: char): char {
    if 'A' <= c <= 'Z' then ((c as int) + 32) as char else c
  }

  function UpperChar(c: char): char {
    if 'a' <= c <= 'z' then ((c as int) - 32) as char else c
  }

  function Lower(s: string): (r: string)
    ensures |r| == |s| && forall i :: 0 <= i < |s| ==> r[i] == LowerChar(s[i])
  {
    seq(|s|, i requires 0 <= i < |s| => LowerChar(s[i]))
  }

  function Upper(s: string): (r: string)
    ensures |r| == |s| && forall i :: 0 <= i < |s| ==> r[i] == UpperChar(s[i])
  {
    seq(|s|, i requires 0 <= i < |s| => UpperChar(s[i]))
  }

  // ------------------------------------------------------------------ searching

  /** The position of the first `c`, or the length if there is none. */
  function Find(s: string, c: char): (k: nat)
    ensures k <= |s| && (k < |s| ==> s[k] == c) && forall i :: 0 <= i < k ==> s[i] != c
  {
    if s == [] || s[0] == c then 0 else 1 + Find(s[1..], c)
  }

  /** The position of the last `c`, or -1. */
  function FindLast(s: string, c: char): (k: int)
    ensures -1 <= k < |s| && (k >= 0 ==> s[k] == c) && forall i :: k < i < |s| ==> s[i] != c
  {
    if s == [] then -1 else if s[|s| - 1] == c then |s| - 1 else FindLast(s[..|s| - 1], c)
  }

  predicate StartsWith(s: string, prefix: string) {
    |prefix| <= |s| && s[..|prefix|] == prefix
  }

  // ----------------------------------------------------------------- whitespace

  /** The ASCII characters that `strip` removes. */
  predicate IsSpace(c: char) {
    c == ' ' || '\t' <= c <= '\r' || '\U{1c}' <= c <= '\U{1f}'
  }

  function StripLeft(s: string): string {
    if s != [] && IsSpace(s[0]) then StripLeft(s[1..]) else s
  }

  function StripRight(s: string): string {
    if s != [] && IsSpace(s[|s| - 1]) then StripRight(s[..|s| - 1]) else s
  }

  function Strip(s: string): string {
    StripRight(StripLeft(s))
  }

  /** Nothing to strip. */
  predicate Trim(s: string) {
    s != [] ==> !IsSpace(s[0]) && !IsSpace(s[|s| - 1])
  }

  lemma StripOfTrim(s: string)
    requires Trim(s)
    ensures Strip(s) == s
  {
  }

  lemma {:induction false} StripLeftFacts(s: string)
    ensures var t := StripLeft(s);
            (forall c :: c in t ==> c in s) && (t != [] ==> !IsSpace(t[0]))
  {
    if s != [] && IsSpace(s[0]) { StripLeftFacts(s[1..]); }
  }

  lemma {:induction false} StripRightFacts(s: string)
    ensures var t := StripRight(s);
            (forall c :: c in t ==> c in s) && (t != [] ==> !IsSpace(t[|t| - 1]) && s != [] && t[0] == s[0])
    ensures s != [] && !IsSpace(s[0]) ==> StripRight(s) != []
  {
    if s != [] && IsSpace(s[|s| - 1]) { StripRightFacts(s[..|s| - 1]); }
  }

  /** Stripped text is trim, holds no new character, and keeps a first character
      that is not white space. */
  lemma StripFacts(s: string)
    ensures Trim(Strip(s)) && forall c :: c in Strip(s) ==> c in s
    ensures s != [] && !IsSpace(s[0]) ==> Strip(s) != [] && Strip(s)[0] == s[0]
    ensures Strip(s) != [] ==> StripLeft(s) != [] && Strip(s)[0] == StripLeft(s)[0]
  {
    StripLeftFacts(s);
    StripRightFacts(StripLeft(s));
  }

  // ------------------------------------------------------------ splitting, joining

  /** `s.split(c)`. */
  function SplitOn(s: string, c: char): (parts: seq<string>)
    ensures |parts| >= 1
  {
    var k := Find(s, c);
    if k == |s| then [s] else [s[..k]] + SplitOn(s[k + 1..], c)
  }

  /** The parts with `c` between them. */
  function JoinWith(parts: seq<string>, c: char): string {
    if parts == [] then [] else if |parts| == 1 then parts[0] else parts[0] + [c] + JoinWith(parts[1..], c)
  }

  lemma Associates<T>(a: seq<T>, b: seq<T>, c: seq<T>)
    ensures a + b + c == a + (b + c)
  {
  }

  lemma FindAfterPrefix(head: string, c: char, tail: string)
    requires c !in head
    ensures Find(head + [c] + tail, c) == |head|
  {
    var s := head + [c] + tail;
    assert s[|head|] == c;
    assert forall i :: 0 <= i < |head| ==> s[i] == head[i];
  }

  lemma FindNothing(s: string, c: char)
    requires c !in s
    ensures Find(s, c) == |s|
  {
  }

  lemma SplitStep(head: string, c: char, tail: string)
    requires c !in head
    ensures SplitOn(head + [c] + tail, c) == [head] + SplitOn(tail, c)
  {
    FindAfterPrefix(head, c, tail);
    var s := head + [c] + tail;
    assert s[..|head|] == head && s[|head| + 1..] == tail;
  }

  /** Splitting undoes joining. */
  lemma {:induction false} SplitOfJoin(parts: seq<string>, c: char)
    requires parts != [] && forall i :: 0 <= i < |parts| ==> c !in parts[i]
    ensures SplitOn(JoinWith(parts, c), c) == parts
  {
    if |parts| == 1 {
      FindNothing(parts[0], c);
    } else {
      SplitStep(parts[0], c, JoinWith(parts[1..], c));
      SplitOfJoin(parts[1..], c);
      assert parts == [parts[0]] + parts[1..];
    }
  }

  // ---------------------------------------------------------------------- lines

  /** The ASCII characters that end a line. */
  predicate IsLineBreak(c: char) {
    '\n' <= c <= '\r' || '\U{1c}' <= c <= '\U{1e}'
  }

  predicate OneLine(s: string) {
    forall i :: 0 <= i < |s| ==> !IsLineBreak(s[i])
  }

  predicate AllOneLine(lines: seq<string>) {
    forall i :: 0 <= i < |lines| ==> OneLine(lines[i])
  }

  function LineEnd(s: string): (k: nat)
    ensures k <= |s| && OneLine(s[..k]) && (k < |s| ==> IsLineBreak(s[k]))
  {
    if s == [] || IsLineBreak(s[0]) then 0
    else
      var k := LineEnd(s[1..]);
      assert s[..k + 1] == [s[0]] + s[1..][..k];
      1 + k
  }

  /** `s.splitlines()`: a carriage return and a line feed count as one break, and a
      final break starts no further line. */
  function SplitLines(s: string): (lines: seq<string>)
    decreases |s|
  {
    if s == [] then []
    else
      var k := LineEnd(s);
      if k == |s| then [s]
      else if s[k] == '\r' && k + 1 < |s| && s[k + 1] == '\n' then [s[..k]] + SplitLines(s[k + 2..])
      else [s[..k]] + SplitLines(s[k + 1..])
  }

  /** Every line followed by a line feed. */
  function Terminated(lines: seq<string>): string {
    if lines == [] then [] else lines[0] + ['\n'] + Terminated(lines[1..])
  }

  lemma LineEndOf(head: string, tail: string)
    requires OneLine(head)
    ensures LineEnd(head + ['\n'] + tail) == |head|
  {
    var s := head + ['\n'] + tail;
    assert s[|head|] == '\n';
    assert forall i :: 0 <= i < |head| ==> s[i] == head[i];
    assert forall k :: |head| < k <= |s| ==> s[..k][|head|] == '\n';
  }

  lemma {:induction false} LinesSplitBack(lines: seq<string>)
    requires AllOneLine(lines)
    ensures SplitLines(Terminated(lines)) == lines
  {
    if lines != [] {
      var head, tail := lines[0], Terminated(lines[1..]);
      LineEndOf(head, tail);
      var s := head + ['\n'] + tail;
      assert s[|head|] == '\n' && s[..|head|] == head && s[|head| + 1..] == tail;
      LinesSplitBack(lines[1..]);
      assert lines == [head] + lines[1..];
    }
  }

  lemma {:induction false} SplitLinesAreLines(s: string)
    ensures AllOneLine(SplitLines(s))
    decreases |s|
  {
    if s != [] {
      var k := LineEnd(s);
      if k == |s| {
        assert s == s[..k];
      } else if s[k] == '\r' && k + 1 < |s| && s[k + 1] == '\n' {
        SplitLinesAreLines(s[k + 2..]);
      } else {
        SplitLinesAreLines(s[k + 1..]);
      }
    }
  }

  lemma {:induction false} JoinIsTerminatedButLast(lines: seq<string>)
    requires lines != []
    ensures JoinWith(lines, '\n') == Terminated(lines[..|lines| - 1]) + lines[|lines| - 1]
  {
    if |lines| == 1 {
      assert Terminated([]) + lines[0] == lines[0];
    } else {
      var rest := lines[1..];
      JoinIsTerminatedButLast(rest);
      assert lines[..|lines| - 1] == [lines[0]] + rest[..|rest| - 1];
      assert lines[..|lines| - 1][1..] == rest[..|rest| - 1];
      Associates(lines[0] + ['\n'], Terminated(rest[..|rest| - 1]), rest[|rest| - 1]);
    }
  }

  lemma {:induction false} TerminatedAppend(lines: seq<string>, last: string)
    ensures Terminated(lines + [last]) == Terminated(lines) + (last + ['\n'])
  {
    if lines == [] {
      assert lines + [last] == [last];
      assert Terminated([last]) == last + ['\n'] + Terminated([]);
    } else {
      assert (lines + [last])[1..] == lines[1..] + [last];
      TerminatedAppend(lines[1..], last);
      Associates(lines[0] + ['\n'], Terminated(lines[1..]), last + ['\n']);
    }
  }
}
