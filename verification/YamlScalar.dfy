/** Scalars of the small YAML subset, written and read back. */
module YamlScalar {
  // Scalars of the small YAML subset: how they are written and read, and exactly
  // which of them come back unchanged. Texts that look like booleans, nulls or
  // numbers are quoted by the writer and so come back as texts; apostrophes are
  // doubled by the writer and stay doubled.

  import opened Text

  /** A leaf of the configuration. A float is given by its printed form. */
  datatype Scalar = Bool(b: bool) | Null | Int(n: int) | Float(text: string) | Str(s: string)

  /** What printing the float of a decimal gives. */
  type Repr = string -> string

  // --------------------------------------------------------------------- numbers

  predicate IsDigit(c: char) { '0' <= c <= '9' }

  predicate Digits(s: string) {
    s != [] && forall i :: 0 <= i < |s| ==> IsDigit(s[i])
  }

  /** An optional minus sign and digits. */
  predicate IntLike(s: string) {
    Digits(if s != [] && s[0] == '-' then s[1..] else s)
  }

  /** An optional minus sign, digits, a point, digits. */
  predicate FloatLike(s: string) {
    var t := if s != [] && s[0] == '-' then s[1..] else s;
    var k := Find(t, '.');
    k < |t| && Digits(t[..k]) && Digits(t[k + 1..])
  }

  function DigitChar(d: nat): char
    requires d < 10
  {
    ('0' as int + d) as char
  }

  function Decimal(n: nat): (s: string)
    ensures Digits(s)
  {
    if n < 10 then [DigitChar(n)] else Decimal(n / 10) + [DigitChar(n % 10)]
  }

  function DigitOf(c: char): nat
    requires IsDigit(c)
  {
    c as int - '0' as int
  }

  function DigitsValue(s: string): nat
    requires forall i :: 0 <= i < |s| ==> IsDigit(s[i])
  {
    if s == [] then 0 else 10 * DigitsValue(s[..|s| - 1]) + DigitOf(s[|s| - 1])
  }

  function PrintInt(n: int): string {
    if n < 0 then ['-'] + Decimal(-n) else Decimal(n)
  }

  function IntValue(s: string): int
    requires IntLike(s)
  {
    if s[0] == '-' then 0 - DigitsValue(s[1..]) else DigitsValue(s)
  }

  lemma {:induction false} DecimalReadsBack(n: nat)
    ensures DigitsValue(Decimal(n)) == n
  {
    if n < 10 {
      assert Decimal(n)[..0] == [];
    } else {
      DecimalReadsBack(n / 10);
      assert Decimal(n)[..|Decimal(n)| - 1] == Decimal(n / 10);
    }
  }

  lemma PrintIntReadsBack(n: int)
    ensures IntLike(PrintInt(n)) && IntValue(PrintInt(n)) == n
  {
    if n < 0 {
      DecimalReadsBack(-n);
      assert PrintInt(n)[1..] == Decimal(-n);
    } else {
      DecimalReadsBack(n);
    }
  }

  // --------------------------------------------------------------------- writing

  predicate IsKeyword(lowered: string) {
    || lowered == "true" || lowered == "false" || lowered == "null" || lowered == "~"
    || lowered == "yes" || lowered == "no" || lowered == "on" || lowered == "off"
  }

  predicate NeedsQuotes(s: string) {
    s == [] || IsKeyword(Lower(s)) || IntLike(s) || FloatLike(s)
  }

  /** The characters that are safe without quotes. */
  predicate PlainChar(c: char) {
    || 'A' <= c <= 'Z' || 'a' <= c <= 'z' || IsDigit(c)
    || c == '_' || c == '.' || c == '/' || c == ':' || c == '@' || c == ',' || c == '+' || c == '-'
  }

  predicate AllPlain(s: string) {
    forall i :: 0 <= i < |s| ==> PlainChar(s[i])
  }

  /** Every apostrophe twice. */
  function Doubled(s: string): string {
    if s == [] then [] else (if s[0] == '\'' then ['\'', '\''] else [s[0]]) + Doubled(s[1..])
  }

  function Quoted(s: string): string {
    ['\''] + Doubled(s) + ['\'']
  }

  function FormatScalar(v: Scalar): string {
    match v
    case Bool(b) => if b then "true" else "false"
    case Null => "null"
    case Int(n) => PrintInt(n)
    case Float(text) => text
    case Str(s) =>
      if NeedsQuotes(s) then Quoted(s)
      else if s != [] && AllPlain(s) then s
      else Quoted(s)
  }

  // --------------------------------------------------------------------- reading

  predicate IsQuoted(s: string) {
    |s| >= 2 && s[0] == s[|s| - 1] && (s[0] == '\'' || s[0] == '"')
  }

  function ParseScalar(repr: Repr, value: string): Scalar {
    var s := Strip(value);
    var lowered := Lower(s);
    if lowered == "true" then Bool(true)
    else if lowered == "false" then Bool(false)
    else if lowered == "null" || lowered == "~" then Null
    else if IsQuoted(s) then Str(s[1..|s| - 1])
    else if IntLike(s) then Int(IntValue(s))
    else if FloatLike(s) then Float(repr(s))
    else Str(s)
  }

  // ------------------------------------------------------------------ round trips

  /** What a scalar comes back as: apostrophes stay doubled, and a float printed
      with an exponent comes back as text. */
  function Reloaded(v: Scalar): Scalar {
    match v
    case Str(s) => Str(Doubled(s))
    case Float(text) => if FloatLike(text) then Float(text) else Str(text)
    case _ => v
  }

  /** The printed form of a float: plain characters, not one of the keywords, and
      not mistakable for an integer. */
  predicate PrintedFloat(text: string) {
    text != [] && AllPlain(text) && !IsKeyword(Lower(text)) && !IntLike(text)
  }

  /** `str(float(s))` of a decimal: a printed float, which reads back as itself
      when it is printed as a decimal again. */
  ghost predicate GoodRepr(repr: Repr) {
    forall s :: FloatLike(s) ==> PrintedFloat(repr(s)) && (FloatLike(repr(s)) ==> repr(repr(s)) == repr(s))
  }

  predicate Printable(repr: Repr, v: Scalar) {
    v.Float? ==> PrintedFloat(v.text) && (FloatLike(v.text) ==> repr(v.text) == v.text)
  }

  lemma PlainIsTrim(s: string)
    requires AllPlain(s)
    ensures Strip(s) == s
  {
    StripOfTrim(s);
  }

  lemma QuotedIsTrim(s: string)
    ensures Strip(Quoted(s)) == Quoted(s)
  {
    StripOfTrim(Quoted(s));
  }

  lemma {:induction false} NothingToDouble(s: string)
    ensures Doubled(s) == s <==> '\'' !in s
    ensures |Doubled(s)| >= |s| && (|Doubled(s)| == |s| ==> '\'' !in s)
  {
    if s != [] {
      NothingToDouble(s[1..]);
      assert s == [s[0]] + s[1..];
      if '\'' !in s {
        assert '\'' !in s[1..];
      }
    }
  }

  lemma QuotedReadsAsText(repr: Repr, s: string)
    ensures ParseScalar(repr, Quoted(s)) == Str(Doubled(s))
  {
    var q := Quoted(s);
    QuotedIsTrim(s);
    assert q[0] == '\'' && q[|q| - 1] == '\'';
    assert Lower(q)[0] == '\'';
    assert q[1..|q| - 1] == Doubled(s);
  }

  lemma PlainTextReadsBack(repr: Repr, s: string)
    requires s != [] && AllPlain(s) && !NeedsQuotes(s)
    ensures ParseScalar(repr, s) == Str(s)
  {
    PlainIsTrim(s);
  }

  lemma PlainHasNoApostrophe(s: string)
    requires AllPlain(s)
    ensures Doubled(s) == s
  {
    NothingToDouble(s);
  }

  lemma IntLikeIsPlain(s: string)
    requires IntLike(s)
    ensures AllPlain(s) && (s[0] == '-' || IsDigit(s[0]))
  {
    if s[0] == '-' {
      assert forall i :: 1 <= i < |s| ==> s[i] == s[1..][i - 1];
    }
  }

  lemma NumberIsNoKeyword(s: string)
    requires s != [] && (s[0] == '-' || IsDigit(s[0]))
    ensures !IsKeyword(Lower(s)) && !IsQuoted(s)
  {
    assert Lower(s)[0] == s[0];
  }

  lemma IntReadsBack(repr: Repr, n: int)
    ensures ParseScalar(repr, PrintInt(n)) == Int(n)
  {
    var s := PrintInt(n);
    PrintIntReadsBack(n);
    IntLikeIsPlain(s);
    PlainIsTrim(s);
    NumberIsNoKeyword(s);
  }

  lemma FloatReadsBack(repr: Repr, text: string)
    requires Printable(repr, Float(text))
    ensures ParseScalar(repr, text) == Reloaded(Float(text))
  {
    PlainIsTrim(text);
  }

  lemma ConstantsReadBack(repr: Repr)
    ensures ParseScalar(repr, "true") == Bool(true) && ParseScalar(repr, "false") == Bool(false) && ParseScalar(repr, "null") == Null
  {
    PlainIsTrim("true");
    PlainIsTrim("false");
    PlainIsTrim("null");
    assert Lower("true") == "true" && Lower("false") == "false" && Lower("null") == "null";
    assert |"true"| == 4 && |"false"| == 5;
    assert "null"[0] == 'n' && "true"[0] == 't';
  }

  /** Reading what was written: every scalar, whatever text it holds. */
  lemma ScalarReloads(repr: Repr, v: Scalar)
    requires Printable(repr, v)
    ensures ParseScalar(repr, FormatScalar(v)) == Reloaded(v)
  {
    match v
    case Bool(_) => ConstantsReadBack(repr);
    case Null => ConstantsReadBack(repr);
    case Int(n) => IntReadsBack(repr, n);
    case Float(text) => FloatReadsBack(repr, text);
    case Str(s) =>
      if !NeedsQuotes(s) && s != [] && AllPlain(s) {
        PlainTextReadsBack(repr, s);
        PlainHasNoApostrophe(s);
      } else {
        QuotedReadsAsText(repr, s);
      }
  }

  /** A scalar survives if and only if it is not text with an apostrophe and not a
      float printed other than as digits, point, digits. */
  lemma ScalarSurvivesIff(repr: Repr, v: Scalar)
    requires Printable(repr, v)
    ensures ParseScalar(repr, FormatScalar(v)) == v <==>
            (v.Str? ==> '\'' !in v.s) && (v.Float? ==> FloatLike(v.text))
  {
    ScalarReloads(repr, v);
    if v.Str? { NothingToDouble(v.s); }
  }
}
