/** Reading back what the YAML writer wrote. */
module YamlRoundTrip {
  // What the fallback reader makes of what the fallback writer wrote.

  import opened Text
  import opened YamlScalar
  import opened MiniYaml

  // ------------------------------------------------------------- what is in scope

  /** Text that stays on one line and has no tab. */
  predicate LineSafe(s: string) {
    OneLine(s) && '\t' !in s
  }

  /** A key the reader takes as it stands. */
  predicate SafeKey(key: string) {
    key != [] && Trim(key) && LineSafe(key) && ':' !in key && key[0] != '#'
  }

  predicate SafeScalar(repr: Repr, v: Scalar) {
    Printable(repr, v) && (v.Str? ==> LineSafe(v.s))
  }

  predicate SafeValue(repr: Repr, v: Value) {
    match v
    case Leaf(scalar) => SafeScalar(repr, scalar)
    case Map(entries) => Safe(repr, entries)
    case List(_) => true
  }

  /** Safe keys, each once, over safe values. */
  predicate Safe(repr: Repr, es: Entries) {
    es.Entry? ==> SafeKey(es.key) && !HasKey(es.rest, es.key) && SafeValue(repr, es.value) && Safe(repr, es.rest)
  }

  predicate ListFreeValue(v: Value) {
    match v
    case Leaf(_) => true
    case Map(entries) => ListFree(entries)
    case List(_) => false
  }

  predicate ListFree(es: Entries) {
    es.Entry? ==> ListFreeValue(es.value) && ListFree(es.rest)
  }

  function ReloadedValue(v: Value): Value {
    match v
    case Leaf(scalar) => Leaf(Reloaded(scalar))
    case Map(entries) => Map(ReloadedEntries(entries))
    case List(_) => v
  }

  function ReloadedEntries(es: Entries): Entries {
    match es
    case End => End
    case Entry(key, value, rest) => Entry(key, ReloadedValue(value), ReloadedEntries(rest))
  }

  // -------------------------------------------------------------------- one line

  lemma {:induction false} DoubledIsLineSafe(s: string)
    requires LineSafe(s)
    ensures LineSafe(Doubled(s))
  {
    if s != [] {
      assert LineSafe(s[1..]);
      DoubledIsLineSafe(s[1..]);
    }
  }

  lemma PlainIsLineSafe(s: string)
    requires AllPlain(s)
    ensures LineSafe(s)
  {
  }

  /** One word to the line reader. */
  predicate Clean(text: string) {
    text != [] && Trim(text) && LineSafe(text)
  }

  lemma PlainIsClean(s: string)
    requires s != [] && AllPlain(s)
    ensures Clean(s)
  {
    PlainIsLineSafe(s);
  }

  lemma QuotedIsClean(s: string)
    requires LineSafe(s)
    ensures Clean(Quoted(s))
  {
    DoubledIsLineSafe(s);
    var q := Quoted(s);
    assert q[0] == '\'' && q[|q| - 1] == '\'';
  }

  lemma FormattedIsClean(repr: Repr, v: Scalar)
    requires SafeScalar(repr, v)
    ensures Clean(FormatScalar(v))
  {
    match v
    case Bool(b) => PlainIsClean(if b then "true" else "false");
    case Null => PlainIsClean("null");
    case Int(n) =>
      PrintIntReadsBack(n);
      IntLikeIsPlain(PrintInt(n));
      PlainIsClean(PrintInt(n));
    case Float(text) => PlainIsClean(text);
    case Str(s) =>
      QuotedIsClean(s);
      if s != [] && AllPlain(s) { PlainIsClean(s); }
  }

  lemma {:induction false} StripIndented(n: nat, body: string)
    requires body != [] && Trim(body)
    ensures StripLeft(Spaces(n) + body) == body && Strip(Spaces(n) + body) == body && Indentation(Spaces(n) + body) == n
  {
    var line := Spaces(n) + body;
    if n == 0 {
      assert line == body;
      StripOfTrim(body);
    } else {
      assert line[0] == ' ' && line[1..] == Spaces(n - 1) + body;
      StripIndented(n - 1, body);
    }
  }

  lemma StripAfterSpace(text: string)
    requires text != [] && Trim(text)
    ensures Strip([' '] + text) == text
  {
    assert ([' '] + text)[1..] == text;
    StripOfTrim(text);
  }

  lemma KeyedBody(key: string, tail: string)
    requires SafeKey(key) && '\t' !in tail
    ensures var body := key + [':'] + tail;
            && '\t' !in body && ':' in body && !StartsWith(body, "#") && Find(body, ':') == |key|
            && body[..|key|] == key && body[|key| + 1..] == tail && Strip(key) == key
  {
    var body := key + [':'] + tail;
    assert body[0] == key[0] && body[|key|] == ':';
    assert body[..1][0] == key[0];
    FindAfterPrefix(key, ':', tail);
    StripOfTrim(key);
  }

  lemma IndentedHasNoTab(n: nat, body: string)
    requires '\t' !in body
    ensures '\t' !in Spaces(n) + body
  {
  }

  lemma LineIsEntered(repr: Repr, s: Stack, line: string, body: string, key: string, tail: string)
    requires Strip(line) == body && StripLeft(line) == body && '\t' !in line && body != [] && !StartsWith(body, "#") && ':' in body
    requires Strip(body[..Find(body, ':')]) == key && body[Find(body, ':') + 1..] == tail && key != []
    ensures ReadLine(repr, s, line) == Ok(Enter(repr, s, Indentation(line), key, Strip(tail)))
  {
  }

  /** A line made of a key, a colon and a tail is entered under the key. */
  lemma KeyedLine(repr: Repr, s: Stack, key: string, tail: string, indent: nat)
    requires SafeKey(key) && '\t' !in tail && Trim(key + [':'] + tail)
    ensures ReadLine(repr, s, Spaces(indent) + (key + [':'] + tail)) == Ok(Enter(repr, s, indent, key, Strip(tail)))
  {
    var body := key + [':'] + tail;
    KeyedBody(key, tail);
    StripIndented(indent, body);
    IndentedHasNoTab(indent, body);
    LineIsEntered(repr, s, Spaces(indent) + body, body, key, tail);
  }

  lemma HeaderIsRead(repr: Repr, s: Stack, key: string, indent: nat)
    requires SafeKey(key)
    ensures ReadLine(repr, s, HeaderLine(key, indent)) == Ok(Enter(repr, s, indent, key, ""))
  {
    assert key + ":" == key + [':'] + [];
    KeyedLine(repr, s, key, [], indent);
  }

  lemma SpacedTail(key: string, text: string)
    requires SafeKey(key) && Clean(text)
    ensures key + ": " + text == key + [':'] + ([' '] + text)
    ensures '\t' !in [' '] + text && Trim(key + [':'] + ([' '] + text)) && Strip([' '] + text) == text
  {
    StripAfterSpace(text);
  }

  lemma ScalarIsRead(repr: Repr, s: Stack, key: string, v: Scalar, indent: nat)
    requires SafeKey(key) && SafeScalar(repr, v)
    ensures ReadLine(repr, s, ScalarLine(key, v, indent)) == Ok(Enter(repr, s, indent, key, FormatScalar(v)))
  {
    FormattedIsClean(repr, v);
    SpacedTail(key, FormatScalar(v));
    KeyedLine(repr, s, key, [' '] + FormatScalar(v), indent);
  }

  // -------------------------------------------------------------------- the stack

  /** A line at this indentation closes nothing. */
  predicate TopBelow(s: Stack, indent: nat) {
    s.Open? ==> s.indent < indent
  }

  lemma {:induction false} PopTwice(s: Stack, i: nat, j: nat)
    requires j <= i
    ensures PopTo(PopTo(s, i), j) == PopTo(s, j)
    decreases Depth(s)
  {
    if s.Open? && i <= s.indent {
      CloseIsShallower(s);
      PopTwice(Close(s), i, j);
    }
  }

  lemma {:induction false} FinishAfterPop(s: Stack, i: nat)
    ensures Finish(PopTo(s, i)) == Finish(s)
    decreases Depth(s)
  {
    if s.Open? && i <= s.indent {
      CloseIsShallower(s);
      FinishAfterPop(Close(s), i);
    }
  }

  lemma {:induction false} PutNew(es: Entries, key: string, value: Value)
    requires !HasKey(es, key)
    ensures Put(es, key, value) == Append(es, Entry(key, value, End))
  {
    if es.Entry? { PutNew(es.rest, key, value); }
  }

  lemma {:induction false} PutTwice(es: Entries, key: string, v: Value, w: Value)
    ensures Put(Put(es, key, v), key, w) == Put(es, key, w)
  {
    if es.Entry? && es.key != key { PutTwice(es.rest, key, v, w); }
  }

  lemma {:induction false} AppendAppend(a: Entries, b: Entries, c: Entries)
    ensures Append(Append(a, b), c) == Append(a, Append(b, c))
  {
    if a.Entry? { AppendAppend(a.rest, b, c); }
  }

  lemma {:induction false} AppendEnd(a: Entries)
    ensures Append(a, End) == a
  {
    if a.Entry? { AppendEnd(a.rest); }
  }

  lemma {:induction false} HasKeyAppend(a: Entries, b: Entries, key: string)
    ensures HasKey(Append(a, b), key) <==> HasKey(a, key) || HasKey(b, key)
  {
    if a.Entry? { HasKeyAppend(a.rest, b, key); }
  }

  lemma {:induction false} ReadInTwoParts(repr: Repr, s: Stack, a: seq<string>, b: seq<string>)
    ensures ReadAll(repr, s, a + b) == (if ReadAll(repr, s, a).Err? then Err else ReadAll(repr, ReadAll(repr, s, a).value, b))
    decreases a
  {
    if a == [] {
      assert a + b == b;
    } else {
      assert (a + b)[0] == a[0] && (a + b)[1..] == a[1..] + b;
      if ReadLine(repr, s, a[0]).Ok? { ReadInTwoParts(repr, ReadLine(repr, s, a[0]).value, a[1..], b); }
    }
  }

  lemma ReadOne(repr: Repr, s: Stack, line: string)
    ensures ReadAll(repr, s, [line]) == ReadLine(repr, s, line)
  {
    assert [line][1..] == [];
  }

  // ------------------------------------------------------------------ a whole mapping

  /** No key of `es` is in `there` yet. */
  predicate Fresh(there: Entries, es: Entries) {
    es.Entry? ==> !HasKey(there, es.key) && Fresh(there, es.rest)
  }

  /** The stack once a block at `indent` has been read and closed. */
  ghost predicate Yields(read: Result<Stack>, indent: nat, s: Stack, es: Entries) {
    read.Ok? && PopTo(read.value, indent) == WithEntries(s, Append(s.entries, es))
  }

  lemma ScalarLoads(repr: Repr, s: Stack, key: string, v: Scalar, indent: nat)
    requires SafeKey(key) && SafeScalar(repr, v) && TopBelow(s, indent) && !HasKey(s.entries, key)
    ensures Yields(ReadAll(repr, s, EmitValue(key, Leaf(v), indent)), indent, s, Entry(key, Leaf(Reloaded(v)), End))
  {
    ScalarIsRead(repr, s, key, v, indent);
    FormattedIsClean(repr, v);
    ScalarReloads(repr, v);
    PutNew(s.entries, key, Leaf(Reloaded(v)));
    ReadOne(repr, s, ScalarLine(key, v, indent));
  }

  /** Closing the mapping opened by a header line enters it under its key. */
  lemma BlockCloses(s: Stack, key: string, inner: Entries, indent: nat, read: Stack)
    requires TopBelow(s, indent) && !HasKey(s.entries, key)
    requires PopTo(read, indent + 2) == Open(WithEntries(s, Put(s.entries, key, Map(End))), indent, key, inner)
    ensures PopTo(read, indent) == WithEntries(s, Append(s.entries, Entry(key, Map(inner), End)))
  {
    PopTwice(read, indent + 2, indent);
    PutTwice(s.entries, key, Map(End), Map(inner));
    PutNew(s.entries, key, Map(inner));
  }

  lemma MapLoads(repr: Repr, s: Stack, key: string, entries: Entries, indent: nat)
    requires SafeKey(key) && Safe(repr, entries) && ListFree(entries) && TopBelow(s, indent) && !HasKey(s.entries, key)
    ensures Yields(ReadAll(repr, s, EmitValue(key, Map(entries), indent)), indent, s, Entry(key, Map(ReloadedEntries(entries)), End))
    decreases entries, 1
  {
    HeaderIsRead(repr, s, key, indent);
    ReadOne(repr, s, HeaderLine(key, indent));
    var child := Enter(repr, s, indent, key, "");
    FreshIsFresh(entries);
    EmitLoads(repr, child, entries, indent + 2);
    ReadInTwoParts(repr, s, [HeaderLine(key, indent)], Emit(entries, indent + 2));
    var read := ReadAll(repr, child, Emit(entries, indent + 2));
    BlockCloses(s, key, ReloadedEntries(entries), indent, read.value);
  }

  lemma {:induction false} FreshIsFresh(es: Entries)
    ensures Fresh(End, es)
  {
    if es.Entry? { FreshIsFresh(es.rest); }
  }

  lemma ValueLoads(repr: Repr, s: Stack, key: string, value: Value, indent: nat)
    requires SafeKey(key) && SafeValue(repr, value) && ListFreeValue(value) && TopBelow(s, indent) && !HasKey(s.entries, key)
    ensures Yields(ReadAll(repr, s, EmitValue(key, value, indent)), indent, s, Entry(key, ReloadedValue(value), End))
    decreases value, 0
  {
    match value
    case Leaf(v) => ScalarLoads(repr, s, key, v, indent);
    case Map(entries) => MapLoads(repr, s, key, entries, indent);
  }

  /** The first line written for an entry. */
  function FirstLine(es: Entries, indent: nat): string
    requires es.Entry?
  {
    if es.value.Leaf? then ScalarLine(es.key, es.value.scalar, indent) else HeaderLine(es.key, indent)
  }

  lemma EmitStarts(es: Entries, indent: nat)
    requires es.Entry?
    ensures Emit(es, indent) != [] && Emit(es, indent)[0] == FirstLine(es, indent)
  {
    assert EmitValue(es.key, es.value, indent) != [] && EmitValue(es.key, es.value, indent)[0] == FirstLine(es, indent);
  }

  lemma FirstLinePops(repr: Repr, s: Stack, es: Entries, indent: nat)
    requires Safe(repr, es) && es.Entry?
    ensures ReadLine(repr, s, FirstLine(es, indent)) == ReadLine(repr, PopTo(s, indent), FirstLine(es, indent))
  {
    PopTwice(s, indent, indent);
    if es.value.Leaf? {
      ScalarIsRead(repr, s, es.key, es.value.scalar, indent);
      ScalarIsRead(repr, PopTo(s, indent), es.key, es.value.scalar, indent);
    } else {
      HeaderIsRead(repr, s, es.key, indent);
      HeaderIsRead(repr, PopTo(s, indent), es.key, indent);
    }
  }

  /** The next entry's first line closes what the previous one left open. */
  lemma NextEntryPops(repr: Repr, s: Stack, es: Entries, indent: nat)
    requires Safe(repr, es) && es.Entry?
    ensures ReadAll(repr, s, Emit(es, indent)) == ReadAll(repr, PopTo(s, indent), Emit(es, indent))
  {
    EmitStarts(es, indent);
    FirstLinePops(repr, s, es, indent);
  }

  lemma {:induction false} FreshStep(there: Entries, key: string, value: Value, rest: Entries)
    requires Fresh(there, rest) && !HasKey(rest, key)
    ensures Fresh(Append(there, Entry(key, value, End)), rest)
    decreases rest
  {
    if rest.Entry? {
      HasKeyAppend(there, Entry(key, value, End), rest.key);
      FreshStep(there, key, value, rest.rest);
    }
  }

  /** Reading a written mapping adds its entries to the innermost open mapping. */
  lemma {:induction false} EmitLoads(repr: Repr, s: Stack, es: Entries, indent: nat)
    requires Safe(repr, es) && ListFree(es) && TopBelow(s, indent) && Fresh(s.entries, es)
    ensures Yields(ReadAll(repr, s, Emit(es, indent)), indent, s, ReloadedEntries(es))
    decreases es, 0
  {
    match es
    case End => AppendEnd(s.entries);
    case Entry(key, value, rest) =>
      ValueLoads(repr, s, key, value, indent);
      var first := ReadAll(repr, s, EmitValue(key, value, indent)).value;
      ReadInTwoParts(repr, s, EmitValue(key, value, indent), Emit(rest, indent));
      var one := Entry(key, ReloadedValue(value), End);
      var next := WithEntries(s, Append(s.entries, one));
      FreshStep(s.entries, key, ReloadedValue(value), rest);
      EmitLoads(repr, next, rest, indent);
      AppendAppend(s.entries, one, ReloadedEntries(rest));
      if rest.Entry? { NextEntryPops(repr, first, rest, indent); } else { AppendEnd(Append(s.entries, one)); }
  }

  // ------------------------------------------------------------------ the document

  lemma {:induction false} EmittedAreLines(repr: Repr, es: Entries, indent: nat)
    requires Safe(repr, es) && ListFree(es)
    ensures AllOneLine(Emit(es, indent)) && (es.Entry? ==> Emit(es, indent) != [])
    decreases es
  {
    if es.Entry? {
      EmittedAreLines(repr, es.rest, indent);
      match es.value
      case Leaf(v) =>
        FormattedIsClean(repr, v);
        assert OneLine(ScalarLine(es.key, v, indent));
      case Map(entries) =>
        EmittedAreLines(repr, entries, indent + 2);
        assert OneLine(HeaderLine(es.key, indent));
    }
  }

  /** A joined text with a final line feed is the lines, terminated. */
  lemma JoinedIsTerminated(lines: seq<string>)
    requires lines != []
    ensures JoinWith(lines, '\n') + ['\n'] == Terminated(lines)
  {
    var n := |lines| - 1;
    JoinIsTerminatedButLast(lines);
    TerminatedAppend(lines[..n], lines[n]);
    assert lines == lines[..n] + [lines[n]];
    Associates(Terminated(lines[..n]), lines[n], ['\n']);
  }

  lemma DumpIsLines(repr: Repr, es: Entries)
    requires Safe(repr, es) && ListFree(es)
    ensures SplitLines(Dump(es)) == if es.Entry? then Emit(es, 0) else [""]
  {
    if es.Entry? {
      EmittedAreLines(repr, es, 0);
      JoinedIsTerminated(Emit(es, 0));
      LinesSplitBack(Emit(es, 0));
    } else {
      assert JoinWith([], '\n') + ['\n'] == ['\n'];
      JoinedIsTerminated([""]);
      assert JoinWith([""], '\n') + ['\n'] == ['\n'];
      LinesSplitBack([""]);
    }
  }

  /** Reading back a written document: for every nested mapping without lists, with
      safe keys and texts, the result is known exactly. */
  lemma DocumentReloads(repr: Repr, es: Entries)
    requires Safe(repr, es) && ListFree(es)
    ensures Load(repr, Dump(es)) == Ok(ReloadedEntries(es))
  {
    DumpIsLines(repr, es);
    if es.Entry? {
      FreshIsFresh(es);
      EmitLoads(repr, Root(End), es, 0);
      FinishAfterPop(ReadAll(repr, Root(End), Emit(es, 0)).value, 0);
    } else {
      ReadOne(repr, Root(End), "");
    }
  }

  // --------------------------------------------------------------- the exact condition

  predicate SurvivingScalar(v: Scalar) {
    (v.Str? ==> '\'' !in v.s) && (v.Float? ==> FloatLike(v.text))
  }

  predicate SurvivingValue(v: Value) {
    match v
    case Leaf(scalar) => SurvivingScalar(scalar)
    case Map(entries) => Surviving(entries)
    case List(_) => true
  }

  predicate Surviving(es: Entries) {
    es.Entry? ==> SurvivingValue(es.value) && Surviving(es.rest)
  }

  lemma {:induction false} ReloadedIffSurviving(es: Entries)
    ensures ReloadedEntries(es) == es <==> Surviving(es)
    decreases es
  {
    if es.Entry? {
      ReloadedIffSurviving(es.rest);
      match es.value
      case Leaf(v) => if v.Str? { NothingToDouble(v.s); }
      case Map(entries) => ReloadedIffSurviving(entries);
      case List(_) =>
    }
  }

  // ----------------------------------------------------- what the reader can produce

  /** Everything on the stack is safe and free of lists. */
  ghost predicate Proper(repr: Repr, s: Stack) {
    Safe(repr, s.entries) && ListFree(s.entries) && (s.Open? ==> SafeKey(s.key) && Proper(repr, s.below))
  }

  lemma {:induction false} HasKeyPut(es: Entries, key: string, value: Value, k: string)
    ensures HasKey(Put(es, key, value), k) <==> HasKey(es, k) || k == key
  {
    if es.Entry? { HasKeyPut(es.rest, key, value, k); }
  }

  lemma {:induction false} PutIsProper(repr: Repr, es: Entries, key: string, value: Value)
    requires Safe(repr, es) && ListFree(es) && SafeKey(key) && SafeValue(repr, value) && ListFreeValue(value)
    ensures Safe(repr, Put(es, key, value)) && ListFree(Put(es, key, value))
  {
    if es.Entry? {
      PutIsProper(repr, es.rest, key, value);
      HasKeyPut(es.rest, key, value, es.key);
    }
  }

  lemma CloseIsProper(repr: Repr, s: Stack)
    requires s.Open? && Proper(repr, s)
    ensures Proper(repr, Close(s))
  {
    PutIsProper(repr, s.below.entries, s.key, Map(s.entries));
  }

  lemma {:induction false} PopIsProper(repr: Repr, s: Stack, indent: nat)
    requires Proper(repr, s)
    ensures Proper(repr, PopTo(s, indent))
    decreases Depth(s)
  {
    if s.Open? && indent <= s.indent {
      CloseIsShallower(s);
      CloseIsProper(repr, s);
      PopIsProper(repr, Close(s), indent);
    }
  }

  lemma LineSafePart(part: string, s: string)
    requires LineSafe(s) && forall c :: c in part ==> c in s
    ensures LineSafe(part)
  {
    forall i | 0 <= i < |part| ensures !IsLineBreak(part[i]) {
      assert part[i] in s;
    }
  }

  lemma DigitsArePlain(t: string)
    requires Digits(t)
    ensures AllPlain(t) && IsDigit(t[0])
  {
  }

  lemma PointedDigits(whole: string, part: string)
    requires Digits(whole) && Digits(part)
    ensures var t := whole + ['.'] + part; AllPlain(t) && IsDigit(t[0]) && !Digits(t)
  {
    var t := whole + ['.'] + part;
    DigitsArePlain(whole);
    DigitsArePlain(part);
    assert t[0] == whole[0] && t[|whole|] == '.';
  }

  lemma UnsignedIsPrinted(t: string)
    requires t != [] && AllPlain(t) && IsDigit(t[0]) && !Digits(t)
    ensures PrintedFloat(t)
  {
    NumberIsNoKeyword(t);
  }

  lemma NegativeIsPrinted(t: string)
    requires t != [] && AllPlain(t) && IsDigit(t[0]) && !Digits(t)
    ensures PrintedFloat(['-'] + t)
  {
    NumberIsNoKeyword(['-'] + t);
    assert (['-'] + t)[1..] == t;
  }

  /** A decimal number is a printed float. */
  lemma FloatLikeIsPrinted(s: string)
    requires FloatLike(s)
    ensures PrintedFloat(s) && (s[0] == '-' || IsDigit(s[0]))
  {
    var t := if s != [] && s[0] == '-' then s[1..] else s;
    var k := Find(t, '.');
    PointedDigits(t[..k], t[k + 1..]);
    assert t == t[..k] + ['.'] + t[k + 1..];
    if s[0] == '-' {
      NegativeIsPrinted(t);
      assert s == ['-'] + t;
    } else {
      UnsignedIsPrinted(t);
    }
  }

  lemma ParsedIsSafe(repr: Repr, value: string)
    requires GoodRepr(repr) && LineSafe(value)
    ensures SafeScalar(repr, ParseScalar(repr, value))
  {
    var s := Strip(value);
    StripFacts(value);
    LineSafePart(s, value);
    if IsQuoted(s) { LineSafePart(s[1..|s| - 1], s); }
  }

  /** The key the reader takes from a line is one it would take as it stands. */
  lemma ReadKeyIsSafe(stripped: string, line: string)
    requires LineSafe(line) && stripped == Strip(line) && stripped != [] && !StartsWith(StripLeft(line), "#") && ':' in stripped
    ensures var key := Strip(stripped[..Find(stripped, ':')]); key != [] ==> SafeKey(key)
    ensures LineSafe(Strip(stripped[Find(stripped, ':') + 1..]))
  {
    var k := Find(stripped, ':');
    var head, tail := stripped[..k], stripped[k + 1..];
    StripFacts(line);
    StripFacts(head);
    StripFacts(tail);
    assert StripLeft(line)[..1] == [StripLeft(line)[0]];
    assert ':' !in head;
    LineSafePart(stripped, line);
    LineSafePart(Strip(head), stripped);
    LineSafePart(Strip(tail), stripped);
  }

  lemma EnterIsProper(repr: Repr, s: Stack, indent: nat, key: string, value: string)
    requires GoodRepr(repr) && Proper(repr, s) && SafeKey(key) && LineSafe(value)
    ensures Proper(repr, Enter(repr, s, indent, key, value))
  {
    PopIsProper(repr, s, indent);
    ParsedIsSafe(repr, value);
    PutIsProper(repr, PopTo(s, indent).entries, key, Map(End));
    PutIsProper(repr, PopTo(s, indent).entries, key, Leaf(ParseScalar(repr, value)));
  }

  lemma LineIsProper(repr: Repr, s: Stack, line: string)
    requires GoodRepr(repr) && Proper(repr, s) && OneLine(line)
    ensures ReadLine(repr, s, line).Ok? ==> Proper(repr, ReadLine(repr, s, line).value)
  {
    var stripped := Strip(line);
    if stripped != [] && !StartsWith(StripLeft(line), "#") && '\t' !in line && ':' in stripped {
      ReadKeyIsSafe(stripped, line);
      var key, value := Strip(stripped[..Find(stripped, ':')]), Strip(stripped[Find(stripped, ':') + 1..]);
      if key != [] { EnterIsProper(repr, s, Indentation(line), key, value); }
    }
  }

  lemma {:induction false} ReadingIsProper(repr: Repr, s: Stack, lines: seq<string>)
    requires GoodRepr(repr) && Proper(repr, s) && AllOneLine(lines)
    ensures ReadAll(repr, s, lines).Ok? ==> Proper(repr, ReadAll(repr, s, lines).value)
    decreases lines
  {
    if lines != [] {
      LineIsProper(repr, s, lines[0]);
      if ReadLine(repr, s, lines[0]).Ok? { ReadingIsProper(repr, ReadLine(repr, s, lines[0]).value, lines[1..]); }
    }
  }

  lemma {:induction false} FinishIsProper(repr: Repr, s: Stack)
    requires Proper(repr, s)
    ensures Safe(repr, Finish(s)) && ListFree(Finish(s))
    decreases Depth(s)
  {
    if s.Open? {
      CloseIsShallower(s);
      CloseIsProper(repr, s);
      FinishIsProper(repr, Close(s));
    }
  }

  /** Whatever text it is given, the reader produces safe keys, each once, safe
      texts, and never a list. */
  lemma LoadedIsProper(repr: Repr, text: string)
    requires GoodRepr(repr)
    ensures Load(repr, text).Ok? ==> Safe(repr, Load(repr, text).value) && ListFree(Load(repr, text).value)
  {
    var read := ReadAll(repr, Root(End), SplitLines(text));
    SplitLinesAreLines(text);
    ReadingIsProper(repr, Root(End), SplitLines(text));
    if read.Ok? { FinishIsProper(repr, read.value); }
  }

  // ------------------------------------------------------------------- main results

  /** A document is read back unchanged if and only if its keys are safe and not
      repeated, its texts stay on one line without tabs or apostrophes, its floats
      are printed as digits, point, digits, and it has no list. */
  lemma RoundTripIff(repr: Repr, es: Entries)
    requires GoodRepr(repr)
    ensures Load(repr, Dump(es)) == Ok(es) <==> Safe(repr, es) && ListFree(es) && Surviving(es)
  {
    LoadedIsProper(repr, Dump(es));
    if Safe(repr, es) && ListFree(es) {
      DocumentReloads(repr, es);
      ReloadedIffSurviving(es);
    }
  }

  /** Writing back what was read from any text: what comes back is known, and it
      is what was read if and only if no text has an apostrophe and every float
      is printed as digits, point, digits. */
  lemma RewritingKeepsIff(repr: Repr, text: string)
    requires GoodRepr(repr) && Load(repr, text).Ok?
    ensures var es := Load(repr, text).value;
            && Load(repr, Dump(es)) == Ok(ReloadedEntries(es))
            && (Load(repr, Dump(es)) == Ok(es) <==> Surviving(es))
  {
    LoadedIsProper(repr, text);
    DocumentReloads(repr, Load(repr, text).value);
    ReloadedIffSurviving(Load(repr, text).value);
  }

  // ----------------------------------------------------------- what does not come back

  lemma OneLineLoads(repr: Repr, line: string, key: string, text: string)
    requires OneLine(line) && line != [] && text != []
    requires ReadLine(repr, Root(End), line) == Ok(Enter(repr, Root(End), 0, key, text))
    ensures Load(repr, line) == Ok(Entry(key, Leaf(ParseScalar(repr, text)), End))
  {
    assert LineEnd(line) == |line|;
    ReadOne(repr, Root(End), line);
  }

  lemma SettingIsOneLine(key: string, text: string)
    requires SafeKey(key) && Clean(text)
    ensures OneLine(key + ": " + text) && key + ": " + text != []
    ensures key + ": " + text == Spaces(0) + (key + [':'] + ([' '] + text))
  {
    var line := key + ": " + text;
    SpacedTail(key, text);
    assert Spaces(0) + line == line;
    assert OneLine(": ");
    assert forall i :: 0 <= i < |line| ==> line[i] in key || line[i] in ": " || line[i] in text;
  }

  lemma SettingIsRead(repr: Repr, s: Stack, key: string, text: string)
    requires SafeKey(key) && Clean(text)
    ensures ReadLine(repr, s, Spaces(0) + (key + [':'] + ([' '] + text))) == Ok(Enter(repr, s, 0, key, text))
  {
    SpacedTail(key, text);
    KeyedLine(repr, s, key, [' '] + text, 0);
  }

  lemma SettingLoads(repr: Repr, key: string, text: string)
    requires SafeKey(key) && Clean(text)
    ensures Load(repr, key + ": " + text) == Ok(Entry(key, Leaf(ParseScalar(repr, text)), End))
  {
    SettingIsOneLine(key, text);
    SettingIsRead(repr, Root(End), key, text);
    OneLineLoads(repr, key + ": " + text, key, text);
  }

  lemma DecimalIsRead(repr: Repr, decimal: string)
    requires FloatLike(decimal)
    ensures Clean(decimal) && ParseScalar(repr, decimal) == Float(repr(decimal))
  {
    FloatLikeIsPrinted(decimal);
    PlainIsClean(decimal);
    ParsedAsFloat(repr, decimal);
  }

  lemma ParsedAsFloat(repr: Repr, s: string)
    requires PrintedFloat(s) && FloatLike(s) && (s[0] == '-' || IsDigit(s[0]))
    ensures ParseScalar(repr, s) == Float(repr(s))
  {
    PlainIsTrim(s);
    NumberIsNoKeyword(s);
  }

  /** Every decimal that is printed with an exponent is read as a float and comes
      back as text once it has been written. */
  lemma ExponentComesBackAsText(repr: Repr, key: string, decimal: string)
    requires GoodRepr(repr) && SafeKey(key) && FloatLike(decimal) && !FloatLike(repr(decimal))
    ensures var es := Entry(key, Leaf(Float(repr(decimal))), End);
            && Load(repr, key + ": " + decimal) == Ok(es)
            && Load(repr, Dump(es)) == Ok(Entry(key, Leaf(Str(repr(decimal))), End))
  {
    DecimalIsRead(repr, decimal);
    SettingLoads(repr, key, decimal);
    RewritingKeepsIff(repr, key + ": " + decimal);
  }

  /** For instance `0.00001`, which is printed `1e-05`. */
  lemma SmallDecimalComesBackAsText(repr: Repr)
    requires GoodRepr(repr) && repr("0.00001") == "1e-05"
    ensures Load(repr, "x: 0.00001") == Ok(Entry("x", Leaf(Float("1e-05")), End))
    ensures Load(repr, Dump(Entry("x", Leaf(Float("1e-05")), End))) == Ok(Entry("x", Leaf(Str("1e-05")), End))
  {
    assert SafeKey("x") && "x" + ": " + "0.00001" == "x: 0.00001";
    assert Find("0.00001", '.') == 1 && FloatLike("0.00001");
    assert '.' !in "1e-05";
    ExponentComesBackAsText(repr, "x", "0.00001");
  }

  /** The assumption on printing can be met together with that. */
  lemma SuchPrintingExists()
    ensures exists repr: Repr :: GoodRepr(repr) && repr("0.00001") == "1e-05"
  {
    var repr: Repr := s => if s == "0.00001" then "1e-05" else s;
    forall s | FloatLike(s) ensures PrintedFloat(repr(s)) && (FloatLike(repr(s)) ==> repr(repr(s)) == repr(s)) {
      if s == "0.00001" {
        assert '.' !in "1e-05" && "1e-05"[1] == 'e' && Lower("1e-05")[0] == '1';
      } else {
        FloatLikeIsPrinted(s);
      }
    }
    assert GoodRepr(repr);
  }

  /** A mapping whose only text has an apostrophe comes back with two. */
  lemma ApostropheIsNotUndone(repr: Repr)
    ensures var es := Entry("name", Leaf(Str("it's")), End);
            Load(repr, Dump(es)) == Ok(Entry("name", Leaf(Str("it''s")), End))
  {
    var es := Entry("name", Leaf(Str("it's")), End);
    var s := "it's";
    assert s[1..] == "t's" && s[1..][1..] == "'s" && s[1..][1..][1..] == "s" && s[1..][1..][1..][1..] == "";
    assert Doubled("s") == "s";
    assert Doubled("'s") == "''s";
    assert Doubled("t's") == "t''s";
    assert Doubled(s) == "it''s";
    assert SafeKey("name") && LineSafe(s);
    DocumentReloads(repr, es);
  }
}
