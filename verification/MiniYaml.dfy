/** The fallback YAML reader and writer. */
module MiniYaml {
  // The fallback YAML reader and writer: nested mappings written by indentation
  // and read back with a stack of open mappings.

  import opened Text
  import opened YamlScalar

  /** Mappings keep their entries in order, lists hold scalars and mappings. */
  datatype Value = Leaf(scalar: Scalar) | Map(entries: Entries) | List(items: Items)
  datatype Entries = End | Entry(key: string, value: Value, rest: Entries)
  datatype Items = Empty | ScalarItem(scalar: Scalar, rest: Items) | MapItem(entries: Entries, rest: Items)

  // -------------------------------------------------------------------- mappings

  predicate HasKey(es: Entries, key: string) {
    es.Entry? && (es.key == key || HasKey(es.rest, key))
  }

  /** `mapping[key] = value`: in place if the key is there, at the end otherwise. */
  function Put(es: Entries, key: string, value: Value): Entries {
    match es
    case End => Entry(key, value, End)
    case Entry(k, v, rest) => if k == key then Entry(k, value, rest) else Entry(k, v, Put(rest, key, value))
  }

  function Append(a: Entries, b: Entries): Entries {
    match a
    case End => b
    case Entry(k, v, rest) => Entry(k, v, Append(rest, b))
  }

  // --------------------------------------------------------------------- writing

  function Spaces(n: nat): (s: string)
    ensures |s| == n && forall i :: 0 <= i < n ==> s[i] == ' '
  {
    seq(n, i => ' ')
  }

  function HeaderLine(key: string, indent: nat): string {
    Spaces(indent) + (key + ":")
  }

  function ScalarLine(key: string, v: Scalar, indent: nat): string {
    Spaces(indent) + (key + ": " + FormatScalar(v))
  }

  function ItemLine(v: Scalar, indent: nat): string {
    Spaces(indent) + ("- " + FormatScalar(v))
  }

  function MapItemLine(indent: nat): string {
    Spaces(indent) + "-"
  }

  function EmitItems(items: Items, indent: nat): seq<string>
    decreases items
  {
    match items
    case Empty => []
    case ScalarItem(scalar, rest) => [ItemLine(scalar, indent)] + EmitItems(rest, indent)
    case MapItem(entries, rest) => [MapItemLine(indent)] + Emit(entries, indent + 2) + EmitItems(rest, indent)
  }

  function EmitValue(key: string, v: Value, indent: nat): seq<string>
    decreases v
  {
    match v
    case Leaf(scalar) => [ScalarLine(key, scalar, indent)]
    case Map(entries) => [HeaderLine(key, indent)] + Emit(entries, indent + 2)
    case List(items) => [HeaderLine(key, indent)] + EmitItems(items, indent + 2)
  }

  function Emit(es: Entries, indent: nat): seq<string>
    decreases es
  {
    match es
    case End => []
    case Entry(key, value, rest) => EmitValue(key, value, indent) + Emit(rest, indent)
  }

  function Dump(es: Entries): string {
    JoinWith(Emit(es, 0), '\n') + ['\n']
  }

  // --------------------------------------------------------------------- reading

  /** The open mappings, the innermost outside. A closed mapping is entered into
      the one below it. */
  datatype Stack = Root(entries: Entries) | Open(below: Stack, indent: nat, key: string, entries: Entries)

  function WithEntries(s: Stack, es: Entries): Stack {
    s.(entries := es)
  }

  function Close(s: Stack): Stack
    requires s.Open?
  {
    WithEntries(s.below, Put(s.below.entries, s.key, Map(s.entries)))
  }

  function Depth(s: Stack): nat {
    if s.Root? then 0 else 1 + Depth(s.below)
  }

  lemma CloseIsShallower(s: Stack)
    requires s.Open?
    ensures Depth(Close(s)) < Depth(s)
  {
  }

  /** Closes the mappings that a line with this indentation is not inside of. */
  function PopTo(s: Stack, indent: nat): Stack
    decreases Depth(s)
  {
    if s.Open? && indent <= s.indent then
      CloseIsShallower(s);
      PopTo(Close(s), indent)
    else s
  }

  /** The whole document, with everything closed. */
  function Finish(s: Stack): Entries
    decreases Depth(s)
  {
    if s.Root? then s.entries
    else
      CloseIsShallower(s);
      Finish(Close(s))
  }

  /** How many spaces a line starts with. */
  function Indentation(s: string): nat {
    if s != [] && s[0] == ' ' then 1 + Indentation(s[1..]) else 0
  }

  /** A key with its value, entered at an indentation. */
  function Enter(repr: Repr, s: Stack, indent: nat, key: string, value: string): Stack {
    var inside := PopTo(s, indent);
    if value == [] then
      Open(WithEntries(inside, Put(inside.entries, key, Map(End))), indent, key, End)
    else
      WithEntries(inside, Put(inside.entries, key, Leaf(ParseScalar(repr, value))))
  }

  function ReadLine(repr: Repr, s: Stack, line: string): Result<Stack> {
    var stripped := Strip(line);
    if stripped == [] || StartsWith(StripLeft(line), "#") then Ok(s)
    else if '\t' in line || ':' !in stripped then Err
    else
      var k := Find(stripped, ':');
      var key, value := Strip(stripped[..k]), Strip(stripped[k + 1..]);
      if key == [] then Err else Ok(Enter(repr, s, Indentation(line), key, value))
  }

  function ReadAll(repr: Repr, s: Stack, lines: seq<string>): Result<Stack>
    decreases lines
  {
    if lines == [] then Ok(s)
    else
      var next := ReadLine(repr, s, lines[0]);
      if next.Err? then Err else ReadAll(repr, next.value, lines[1..])
  }

  function Load(repr: Repr, text: string): Result<Entries> {
    var read := ReadAll(repr, Root(End), SplitLines(text));
    if read.Err? then Err else Ok(Finish(read.value))
  }

  // ---------------------------------------------------------- the loops themselves

  /** The reader: one pass over the lines with the stack popped in a loop. */
  method SimpleYamlLoad(repr: Repr, text: string) returns (loaded: Result<Entries>)
    ensures loaded == Load(repr, text)
  {
    var lines := SplitLines(text);
    var stack := Root(End);
    for i := 0 to |lines|
      invariant ReadAll(repr, stack, lines[i..]) == ReadAll(repr, Root(End), lines)
    {
      assert lines[i..][0] == lines[i] && lines[i..][1..] == lines[i + 1..];
      var line := lines[i];
      var stripped := Strip(line);
      if stripped == [] || StartsWith(StripLeft(line), "#") {
        continue;
      }
      if '\t' in line || ':' !in stripped { return Err; }
      var k := Find(stripped, ':');
      var key, value := Strip(stripped[..k]), Strip(stripped[k + 1..]);
      if key == [] { return Err; }
      stack := PopAndEnter(repr, stack, Indentation(line), key, value);
    }
    return Ok(Finish(stack));
  }

  method PopAndEnter(repr: Repr, start: Stack, indent: nat, key: string, value: string) returns (stack: Stack)
    ensures stack == Enter(repr, start, indent, key, value)
  {
    stack := start;
    while stack.Open? && indent <= stack.indent
      invariant PopTo(stack, indent) == PopTo(start, indent)
      decreases Depth(stack)
    {
      CloseIsShallower(stack);
      stack := Close(stack);
    }
    if value == [] {
      stack := Open(WithEntries(stack, Put(stack.entries, key, Map(End))), indent, key, End);
    } else {
      stack := WithEntries(stack, Put(stack.entries, key, Leaf(ParseScalar(repr, value))));
    }
  }

  /** The writer: appends the lines of a mapping to those written so far. */
  method EmitMapping(lines: seq<string>, mapping: Entries, indent: nat) returns (written: seq<string>)
    ensures written == lines + Emit(mapping, indent)
    decreases mapping
  {
    written := lines;
    var rest := mapping;
    while rest.Entry?
      invariant written + Emit(rest, indent) == lines + Emit(mapping, indent)
      invariant rest == mapping || rest < mapping
      decreases rest
    {
      ghost var before := written;
      match rest.value {
        case Leaf(scalar) =>
          written := written + [ScalarLine(rest.key, scalar, indent)];
        case Map(entries) =>
          written := EmitMapping(written + [HeaderLine(rest.key, indent)], entries, indent + 2);
          Associates(before, [HeaderLine(rest.key, indent)], Emit(entries, indent + 2));
        case List(items) =>
          written := EmitSequence(written + [HeaderLine(rest.key, indent)], items, indent + 2);
          Associates(before, [HeaderLine(rest.key, indent)], EmitItems(items, indent + 2));
      }
      assert written == before + EmitValue(rest.key, rest.value, indent);
      Associates(before, EmitValue(rest.key, rest.value, indent), Emit(rest.rest, indent));
      rest := rest.rest;
    }
  }

  method EmitSequence(lines: seq<string>, items: Items, indent: nat) returns (written: seq<string>)
    ensures written == lines + EmitItems(items, indent)
    decreases items
  {
    written := lines;
    var rest := items;
    while !rest.Empty?
      invariant written + EmitItems(rest, indent) == lines + EmitItems(items, indent)
      invariant rest == items || rest < items
      decreases rest
    {
      ghost var before := written;
      ghost var item: seq<string>;
      match rest {
        case ScalarItem(scalar, _) =>
          written := written + [ItemLine(scalar, indent)];
          item := [ItemLine(scalar, indent)];
        case MapItem(entries, _) =>
          written := EmitMapping(written + [MapItemLine(indent)], entries, indent + 2);
          Associates(before, [MapItemLine(indent)], Emit(entries, indent + 2));
          item := [MapItemLine(indent)] + Emit(entries, indent + 2);
      }
      assert written == before + item;
      Associates(before, item, EmitItems(rest.rest, indent));
      rest := rest.rest;
    }
  }
}
