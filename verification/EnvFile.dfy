/** The two managed settings of the Hermes `.env` file. */
module EnvFile {
  // The two managed settings of the Hermes `.env` file: reading them, rendering
  // them back into the file, and what survives any sequence of runs.

  import opened BoundedFifo
  import opened Text
  import opened SortedNames
  import opened EnvLayout
  import opened BitRegrouping
  import Npub

  datatype Key = AllowedUsers | AllowAllUsers

  function Name(key: Key): string {
    match key
    case AllowedUsers => "MARMOT_ALLOWED_USERS"
    case AllowAllUsers => "MARMOT_ALLOW_ALL_USERS"
  }

  datatype Auth = Auth(allowedUsers: seq<string>, allowAll: bool)

  // ------------------------------------------------------------ recognising lines

  function KeyNamed(name: string): Option<Key> {
    if name == Name(AllowedUsers) then Some(AllowedUsers)
    else if name == Name(AllowAllUsers) then Some(AllowAllUsers)
    else None
  }

  /** The managed key a line sets, if any. */
  function ManagedKey(line: string): Option<Key> {
    var stripped := Strip(line);
    if stripped == [] || stripped[0] == '#' || '=' !in stripped then None
    else
      var name := Strip(stripped[..Find(stripped, '=')]);
      KeyNamed(if StartsWith(name, "export ") then Strip(name[7..]) else name)
  }

  predicate Exported(line: string) {
    StartsWith(Strip(line), "export ")
  }

  // -------------------------------------------------------------- reading values

  /** Whether white space leading to a `#` starts here. */
  predicate StartsComment(s: string) {
    s != [] && IsSpace(s[0]) && StartsWith(StripLeft(s), "#")
  }

  function CutComment(s: string): string {
    if s == [] || StartsComment(s) then [] else [s[0]] + CutComment(s[1..])
  }

  function DotenvScalar(raw: string): string {
    var value := Strip(raw);
    if value == [] then []
    else if value[0] == '\'' || value[0] == '"' then
      value[1..1 + Find(value[1..], value[0])]
    else Strip(CutComment(value))
  }

  predicate IsAccountId(s: string) {
    |s| == 64 && forall i :: 0 <= i < 64 ==> '0' <= s[i] <= '9' || 'a' <= s[i] <= 'f'
  }

  /** The key an npub stands for, in hex; empty if it is not an npub. */
  ghost function NpubHex(value: string): string {
    if bytes: seq<int> :| Npub.IsNpub(value, bytes) then Npub.Hex(bytes) else ""
  }

  ghost function NormalizeAccountId(entry: string): string {
    var normalized := Strip(entry);
    if normalized == [] then ""
    else if StartsWith(Lower(normalized), "npub1") then NpubHex(normalized)
    else
      var text := Lower(normalized);
      if StartsWith(text, "0x") then text[2..] else text
  }

  /** One entry of the allowlist: nothing for blank space, an account id, or an
      error. */
  ghost function ReadEntry(entry: string): Result<seq<string>> {
    var normalized := NormalizeAccountId(entry);
    if normalized == [] then (if Strip(entry) == [] then Ok([]) else Err)
    else if IsAccountId(normalized) then Ok([normalized])
    else Err
  }

  /** The results of all entries, unless one fails. */
  ghost function Gather<E, T>(readOne: E -> Result<seq<T>>, entries: seq<E>): Result<seq<T>> {
    if entries == [] then Ok([])
    else
      var before, last := Gather(readOne, entries[..|entries| - 1]), readOne(entries[|entries| - 1]);
      if before.Err? || last.Err? then Err else Ok(before.value + last.value)
  }

  ghost function ReadAllowedUsers(raw: string): Result<seq<string>> {
    var parsed := DotenvScalar(raw);
    if Strip(parsed) == [] then Ok([])
    else
      var users := Gather(ReadEntry, SplitOn(parsed, ','));
      if users.Err? then Err else Ok(SortedUnique(users.value))
  }

  function ParseBool(s: string): Result<bool> {
    if s == "1" || s == "true" || s == "yes" || s == "on" then Ok(true)
    else if s == "0" || s == "false" || s == "no" || s == "off" then Ok(false)
    else Err
  }

  function ReadAllowAll(raw: string): Result<bool> {
    var normalized := Lower(Strip(DotenvScalar(raw)));
    ParseBool(normalized)
  }

  function RawValue(line: string): string {
    if Find(line, '=') < |line| then line[Find(line, '=') + 1..] else []
  }

  /** The settings in force after the lines read so far. */
  ghost function ReadLine(auth: Auth, line: string): Result<Auth> {
    match ManagedKey(line)
    case None => Ok(auth)
    case Some(AllowedUsers) =>
      var users := ReadAllowedUsers(RawValue(line));
      if users.Err? then Err else Ok(auth.(allowedUsers := users.value))
    case Some(AllowAllUsers) =>
      var all := ReadAllowAll(RawValue(line));
      if all.Err? then Err else Ok(auth.(allowAll := all.value))
  }

  ghost function ReadLines(auth: Auth, lines: seq<string>): Result<Auth>
    decreases lines
  {
    if lines == [] then Ok(auth)
    else
      var next := ReadLine(auth, lines[0]);
      if next.Err? then Err else ReadLines(next.value, lines[1..])
  }

  const NOTHING_SET: Auth := Auth([], false)

  ghost function ReadAuth(lines: seq<string>): Result<Auth> {
    ReadLines(NOTHING_SET, lines)
  }

  // ------------------------------------------------------------------- rendering

  function Rendered(auth: Auth, key: Key): string {
    match key
    case AllowedUsers => Name(AllowedUsers) + "=" + JoinWith(auth.allowedUsers, ',')
    case AllowAllUsers => Name(AllowAllUsers) + "=" + (if auth.allowAll then "true" else "false")
  }

  const MANAGED_ENV_KEYS: seq<Key> := [AllowedUsers, AllowAllUsers]

  function Written(auth: Auth, exported: bool, key: Key): string {
    (if exported then "export " else "") + Rendered(auth, key)
  }

  function EnvFormat(auth: Auth): Format<string, Key, bool> {
    Format(ManagedKey, Exported, false, (exported: bool, key: Key) => Written(auth, exported, key))
  }

  function Render(auth: Auth, lines: seq<string>): seq<string> {
    EnvLayout.Render(EnvFormat(auth), MANAGED_ENV_KEYS, lines)
  }

  /** The lines that are none of the configurator's business. */
  function Others(lines: seq<string>): seq<string> {
    Unmanaged(EnvFormat(NOTHING_SET), lines)
  }

  // ------------------------------------------------------- what was rendered reads back

  /** Settings as the merge produces them. */
  predicate Canonical(auth: Auth) {
    Increasing(auth.allowedUsers) && forall i :: 0 <= i < |auth.allowedUsers| ==> IsAccountId(auth.allowedUsers[i])
  }

  /** Hex digits and commas. */
  predicate PlainValue(s: string) {
    forall i :: 0 <= i < |s| ==> '0' <= s[i] <= '9' || 'a' <= s[i] <= 'z' || s[i] == ','
  }

  lemma {:induction false} PlainHasNoComment(s: string)
    requires PlainValue(s)
    ensures CutComment(s) == s
  {
    if s != [] { PlainHasNoComment(s[1..]); }
  }

  lemma PlainScalar(s: string)
    requires PlainValue(s)
    ensures DotenvScalar(s) == s && Strip(s) == s
  {
    StripOfTrim(s);
    PlainHasNoComment(s);
  }

  lemma AccountIdIsNormal(s: string)
    requires IsAccountId(s)
    ensures ReadEntry(s) == Ok([s])
  {
    StripOfTrim(s);
    assert Lower(s) == s;
    assert s[..5][0] == s[0] && s[..2][1] == s[1];
  }

  lemma {:induction false} AccountIdsAreNormal(ids: seq<string>)
    requires forall i :: 0 <= i < |ids| ==> IsAccountId(ids[i])
    ensures Gather(ReadEntry, ids) == Ok(ids)
  {
    if ids != [] {
      var n := |ids| - 1;
      AccountIdsAreNormal(ids[..n]);
      AccountIdIsNormal(ids[n]);
      assert ids == ids[..n] + [ids[n]];
    }
  }

  lemma {:induction false} JoinedIdsArePlain(ids: seq<string>)
    requires forall i :: 0 <= i < |ids| ==> IsAccountId(ids[i])
    ensures PlainValue(JoinWith(ids, ','))
    ensures JoinWith(ids, ',') == [] <==> ids == []
  {
    if |ids| > 1 { JoinedIdsArePlain(ids[1..]); }
  }

  /** The rendered allowlist reads back as the same list. */
  lemma AllowedUsersReadBack(auth: Auth)
    requires Canonical(auth)
    ensures ReadAllowedUsers(JoinWith(auth.allowedUsers, ',')) == Ok(auth.allowedUsers)
  {
    var ids := auth.allowedUsers;
    JoinedIdsArePlain(ids);
    PlainScalar(JoinWith(ids, ','));
    if ids != [] {
      SplitOfJoin(ids, ',');
      AccountIdsAreNormal(ids);
      SortingTwice(ids);
    }
  }

  lemma ParsesBool()
    ensures ParseBool("true") == Ok(true) && ParseBool("false") == Ok(false)
  {
    assert |"false"| == 5 && |"true"| == 4;
  }

  lemma LowerOfLower(s: string)
    requires PlainValue(s)
    ensures Lower(s) == s
  {
  }

  lemma AllowAllReadsBack(all: bool)
    ensures ReadAllowAll(if all then "true" else "false") == Ok(all)
  {
    var s := if all then "true" else "false";
    PlainScalar(s);
    LowerOfLower(s);
    ParsesBool();
  }

  // ----------------------------------------------------------- other ways to write it

  /** A quoted value is what stands between the quotes, whatever follows. */
  lemma QuotedScalar(quote: char, s: string, rest: string)
    requires (quote == '\'' || quote == '"') && quote !in s && Trim([quote] + s + [quote] + rest)
    ensures DotenvScalar([quote] + s + [quote] + rest) == s
  {
    var raw := [quote] + s + [quote] + rest;
    StripOfTrim(raw);
    assert raw[0] == quote && raw[1..] == s + [quote] + rest;
    FindAfterPrefix(s, quote, rest);
    assert raw[1..1 + |s|] == s;
  }

  /** A value that holds no comment of its own. */
  predicate Uncommented(v: string) {
    forall i :: 0 <= i < |v| ==> !StartsComment(v[i..])
  }

  lemma {:induction false} StripLeftStaysInside(v: string, tail: string)
    requires v != [] && !IsSpace(v[|v| - 1])
    ensures StripLeft(v) != [] && StripLeft(v + tail) == StripLeft(v) + tail
  {
    if IsSpace(v[0]) {
      assert (v + tail)[1..] == v[1..] + tail;
      StripLeftStaysInside(v[1..], tail);
    }
  }

  lemma NoCommentAhead(v: string, tail: string)
    requires v != [] && !IsSpace(v[|v| - 1]) && !StartsComment(v)
    ensures !StartsComment(v + tail)
  {
    StripLeftStaysInside(v, tail);
    assert StripLeft(v)[..1] == [StripLeft(v)[0]];
    assert (StripLeft(v) + tail)[..1] == [StripLeft(v)[0]];
  }

  lemma {:induction false} CutAtComment(v: string, comment: string)
    requires Uncommented(v) && (v == [] || !IsSpace(v[|v| - 1]))
    ensures CutComment(v + (" #" + comment)) == v
  {
    var s := v + (" #" + comment);
    if v == [] {
      assert s == " #" + comment && s[1..] == "#" + comment;
      assert StripLeft(s) == s[1..] && s[1..][..1] == "#";
    } else {
      assert v[0..] == v;
      NoCommentAhead(v, " #" + comment);
      assert s[0] == v[0] && s[1..] == v[1..] + (" #" + comment);
      forall i | 0 <= i < |v[1..]| ensures !StartsComment(v[1..][i..]) { assert v[1..][i..] == v[i + 1..]; }
      CutAtComment(v[1..], comment);
    }
  }

  /** A comment after white space is not part of the value. */
  lemma CommentIsCut(v: string, comment: string)
    requires v != [] && v[0] != '\'' && v[0] != '"' && Trim(v) && Uncommented(v)
    requires Trim(v + (" #" + comment))
    ensures DotenvScalar(v + (" #" + comment)) == v
  {
    StripOfTrim(v + (" #" + comment));
    CutAtComment(v, comment);
    StripOfTrim(v);
  }

  lemma HexTextIsTrim(t: string)
    requires IsAccountId(Lower(t))
    ensures |t| == 64 && Trim(t) && Lower(t)[0] != 'n' && Lower(t)[1] != 'x'
  {
    assert LowerChar(t[0]) == Lower(t)[0] && LowerChar(t[63]) == Lower(t)[63];
  }

  lemma NotPrefixed(s: string)
    requires |s| >= 5 && s[0] != 'n' && s[1] != 'x'
    ensures !StartsWith(s, "npub1") && !StartsWith(s, "0x")
  {
    assert s[..5][0] == s[0] && s[..2][1] == s[1];
  }

  /** Hex in any case, with or without its prefix, names one account. */
  lemma HexSpellings(t: string)
    requires IsAccountId(Lower(t))
    ensures NormalizeAccountId(t) == Lower(t) && NormalizeAccountId("0x" + t) == Lower(t)
  {
    HexTextIsTrim(t);
    StripOfTrim(t);
    NotPrefixed(Lower(t));
    var p := "0x" + t;
    assert p[0] == '0' && p[|p| - 1] == t[63];
    StripOfTrim(p);
    assert Lower(p) == "0x" + Lower(t);
    assert Lower(p)[..2] == "0x" && Lower(p)[2..] == Lower(t) && Lower(p)[..5][0] == '0';
  }

  lemma HexIsAccountId(bytes: seq<int>)
    requires |bytes| == 32
    ensures IsAccountId(Npub.Hex(bytes))
  {
  }

  /** An npub names the account of its key. */
  lemma NpubSpelling(bytes: seq<int>)
    requires AllFit(bytes, 8) && |bytes| == 32
    ensures ReadEntry(Npub.Encode(bytes)) == Ok([Npub.Hex(bytes)])
  {
    var text := Npub.Encode(bytes);
    Npub.EncodingIsTrim(bytes);
    StripOfTrim(text);
    Npub.EveryKeyHasAnNpub(bytes);
    Npub.AcceptsExactlyEncodings(text, bytes);
    forall other: seq<int> | Npub.IsNpub(text, other) ensures other == bytes { Npub.NpubNamesOneKey(text, other, bytes); }
    HexIsAccountId(bytes);
  }

  // ------------------------------------------------------- recognising what was rendered

  lemma NamesAreTrim(key: Key)
    ensures Trim(Name(key)) && '=' !in Name(key) && Name(key)[0] == 'M' && KeyNamed(Name(key)) == Some(key)
  {
  }

  lemma SettingIsTrim(head: string, value: string)
    requires head != [] && !IsSpace(head[0]) && PlainValue(value)
    ensures Strip(head + ['='] + value) == head + ['='] + value
  {
    StripOfTrim(head + ['='] + value);
  }

  lemma ManagedKeyOf(head: string, value: string)
    requires Trim(head) && head != [] && head[0] != '#' && '=' !in head && PlainValue(value)
    ensures var line := head + ['='] + value;
            && Strip(line) == line && RawValue(line) == value
            && ManagedKey(line) == KeyNamed(if StartsWith(head, "export ") then Strip(head[7..]) else head)
  {
    var line := head + ['='] + value;
    SettingIsTrim(head, value);
    FindAfterPrefix(head, '=', value);
    assert line[..|head|] == head && line[|head| + 1..] == value;
    assert line[|head|] == '=';
    StripOfTrim(head);
  }

  lemma NotExported(s: string)
    requires s != [] && s[0] == 'M'
    ensures !StartsWith(s, "export ")
  {
    if |s| >= 7 { assert s[..7][0] == 'M'; }
  }

  lemma PlainSettingIsManaged(key: Key, value: string)
    requires PlainValue(value)
    ensures var line := Name(key) + ['='] + value;
            ManagedKey(line) == Some(key) && RawValue(line) == value && !Exported(line)
  {
    var head := Name(key);
    var line := head + ['='] + value;
    NamesAreTrim(key);
    ManagedKeyOf(head, value);
    NotExported(head);
    NotExported(line);
  }

  lemma ExportedSettingIsManaged(key: Key, value: string)
    requires PlainValue(value)
    ensures var line := "export " + Name(key) + ['='] + value;
            ManagedKey(line) == Some(key) && RawValue(line) == value && Exported(line)
  {
    var head := "export " + Name(key);
    var line := head + ['='] + value;
    NamesAreTrim(key);
    assert head[0] == 'e' && head[|head| - 1] == Name(key)[|Name(key)| - 1];
    assert '=' !in "export ";
    ManagedKeyOf(head, value);
    StripOfTrim(Name(key));
    assert head[..7] == "export " && head[7..] == Name(key) && line[..7] == head[..7];
  }

  /** The value part of a rendered line. */
  function RenderedValue(auth: Auth, key: Key): string {
    match key
    case AllowedUsers => JoinWith(auth.allowedUsers, ',')
    case AllowAllUsers => if auth.allowAll then "true" else "false"
  }

  lemma WrittenLine(auth: Auth, exported: bool, key: Key)
    requires Canonical(auth)
    ensures var line := Written(auth, exported, key);
            ManagedKey(line) == Some(key) && RawValue(line) == RenderedValue(auth, key) && Exported(line) == exported
  {
    var value := RenderedValue(auth, key);
    JoinedIdsArePlain(auth.allowedUsers);
    if exported {
      assert Written(auth, exported, key) == "export " + Name(key) + ['='] + value;
      ExportedSettingIsManaged(key, value);
    } else {
      assert Written(auth, exported, key) == Name(key) + ['='] + value;
      PlainSettingIsManaged(key, value);
    }
  }

  lemma FormatIsSound(auth: Auth)
    requires Canonical(auth)
    ensures Sound(EnvFormat(auth))
  {
    forall e: bool, k: Key ensures ManagedKey(Written(auth, e, k)) == Some(k) && Exported(Written(auth, e, k)) == e {
      WrittenLine(auth, e, k);
    }
  }

  function WithKey(auth: Auth, key: Key, from: Auth): Auth {
    match key
    case AllowedUsers => auth.(allowedUsers := from.allowedUsers)
    case AllowAllUsers => auth.(allowAll := from.allowAll)
  }

  /** Reading a written line sets its key to the rendered value. */
  lemma WrittenLineReadsBack(before: Auth, auth: Auth, exported: bool, key: Key)
    requires Canonical(auth)
    ensures ReadLine(before, Written(auth, exported, key)) == Ok(WithKey(before, key, auth))
  {
    WrittenLine(auth, exported, key);
    AllowedUsersReadBack(auth);
    AllowAllReadsBack(auth.allowAll);
  }

  // --------------------------------------------------------- rendering, then reading

  /** `before` with the keys set in `lines` taken from `auth`. */
  function Overlay(before: Auth, auth: Auth, lines: seq<string>): Auth {
    Auth(if SetIn(EnvFormat(auth), AllowedUsers, lines) then auth.allowedUsers else before.allowedUsers,
         if SetIn(EnvFormat(auth), AllowAllUsers, lines) then auth.allowAll else before.allowAll)
  }

  lemma ReadFirst(before: Auth, line: string, rest: seq<string>)
    ensures ReadLines(before, [line] + rest) == (if ReadLine(before, line).Err? then Err else ReadLines(ReadLine(before, line).value, rest))
  {
    assert ([line] + rest)[1..] == rest;
  }

  lemma SetInFirst(f: Format<string, Key, bool>, key: Key, line: string, rest: seq<string>)
    ensures SetIn(f, key, [line] + rest) <==> f.classify(line) == Some(key) || SetIn(f, key, rest)
  {
    assert ([line] + rest)[1..] == rest;
  }

  lemma OverlayFirst(before: Auth, auth: Auth, line: string, rest: seq<string>)
    ensures var overlay := Overlay(before, auth, [line] + rest);
            match ManagedKey(line) {
              case None => overlay == Overlay(before, auth, rest)
              case Some(key) => overlay == Overlay(WithKey(before, key, auth), auth, rest)
            }
  {
    SetInFirst(EnvFormat(auth), AllowedUsers, line, rest);
    SetInFirst(EnvFormat(auth), AllowAllUsers, line, rest);
  }

  lemma OverlayHides(before: Auth, auth: Auth, key: Key, lines: seq<string>)
    requires SetIn(EnvFormat(auth), key, lines)
    ensures Overlay(WithKey(before, key, auth), auth, lines) == Overlay(before, auth, lines)
  {
  }

  /** Reading what became of one line. */
  lemma HeadReadsBack(before: Auth, auth: Auth, line: string, rest: seq<string>, tail: seq<string>)
    requires Canonical(auth)
    ensures var read := ReadLines(before, KeptHead(EnvFormat(auth), line, rest) + tail);
            match ManagedKey(line) {
              case None => read == ReadLines(before, tail)
              case Some(key) => read == ReadLines(if SetIn(EnvFormat(auth), key, rest) then before else WithKey(before, key, auth), tail)
            }
  {
    match ManagedKey(line)
    case None => ReadFirst(before, line, tail);
    case Some(key) =>
      if SetIn(EnvFormat(auth), key, rest) {
        assert [] + tail == tail;
      } else {
        WrittenLineReadsBack(before, auth, Exported(line), key);
        ReadFirst(before, Written(auth, Exported(line), key), tail);
      }
  }

  lemma {:induction false} KeptReadsBack(before: Auth, auth: Auth, lines: seq<string>)
    requires Canonical(auth)
    ensures ReadLines(before, Kept(EnvFormat(auth), lines)) == Ok(Overlay(before, auth, lines))
    decreases lines
  {
    if lines != [] {
      var line, rest := lines[0], lines[1..];
      assert lines == [line] + rest;
      OverlayFirst(before, auth, line, rest);
      HeadReadsBack(before, auth, line, rest, Kept(EnvFormat(auth), rest));
      KeptReadsBack(before, auth, rest);
      if ManagedKey(line).Some? {
        var key := ManagedKey(line).value;
        KeptReadsBack(WithKey(before, key, auth), auth, rest);
        if SetIn(EnvFormat(auth), key, rest) { OverlayHides(before, auth, key, rest); }
      }
    }
  }

  lemma {:induction false} ReadInTwoParts(before: Auth, a: seq<string>, b: seq<string>)
    ensures ReadLines(before, a + b) == (if ReadLines(before, a).Err? then Err else ReadLines(ReadLines(before, a).value, b))
    decreases a
  {
    if a == [] {
      assert a + b == b;
    } else {
      assert a + b == [a[0]] + (a[1..] + b);
      ReadFirst(before, a[0], a[1..] + b);
      if ReadLine(before, a[0]).Ok? { ReadInTwoParts(ReadLine(before, a[0]).value, a[1..], b); }
    }
  }

  lemma {:induction false} AddedReadsBack(before: Auth, auth: Auth, keys: seq<Key>, lines: seq<string>)
    requires Canonical(auth)
    ensures var read := ReadLines(before, Added(EnvFormat(auth), keys, lines));
            && read.Ok?
            && read.value.allowedUsers == (if AllowedUsers in keys && !SetIn(EnvFormat(auth), AllowedUsers, lines) then auth.allowedUsers else before.allowedUsers)
            && read.value.allowAll == (if AllowAllUsers in keys && !SetIn(EnvFormat(auth), AllowAllUsers, lines) then auth.allowAll else before.allowAll)
    decreases keys
  {
    if keys != [] {
      var f, key := EnvFormat(auth), keys[0];
      var rest := Added(f, keys[1..], lines);
      assert forall k :: k in keys <==> k == key || k in keys[1..];
      if SetIn(f, key, lines) {
        assert [] + rest == rest;
        AddedReadsBack(before, auth, keys[1..], lines);
      } else {
        WrittenLineReadsBack(before, auth, false, key);
        ReadFirst(before, Written(auth, false, key), rest);
        AddedReadsBack(WithKey(before, key, auth), auth, keys[1..], lines);
      }
    }
  }

  /** Reading rendered lines gives back exactly the rendered settings, whatever the
      file held before. */
  lemma RenderedReadsBack(auth: Auth, lines: seq<string>)
    requires Canonical(auth)
    ensures ReadAuth(Render(auth, lines)) == Ok(auth)
  {
    var f := EnvFormat(auth);
    KeptReadsBack(NOTHING_SET, auth, lines);
    AddedReadsBack(Overlay(NOTHING_SET, auth, lines), auth, MANAGED_ENV_KEYS, lines);
    ReadInTwoParts(NOTHING_SET, Kept(f, lines), Added(f, MANAGED_ENV_KEYS, lines));
    assert AllowedUsers in MANAGED_ENV_KEYS && AllowAllUsers in MANAGED_ENV_KEYS;
  }

  lemma {:induction false} OthersAreFormatFree(auth: Auth, lines: seq<string>)
    ensures Unmanaged(EnvFormat(auth), lines) == Others(lines)
  {
    if lines != [] { OthersAreFormatFree(auth, lines[1..]); }
  }

  /** Rendering keeps every line it does not manage, in order. */
  lemma RenderKeepsOtherLines(auth: Auth, lines: seq<string>)
    requires Canonical(auth)
    ensures Others(Render(auth, lines)) == Others(lines)
  {
    FormatIsSound(auth);
    EnvLayout.RenderKeepsOthers(EnvFormat(auth), MANAGED_ENV_KEYS, lines);
    OthersAreFormatFree(auth, lines);
    OthersAreFormatFree(auth, Render(auth, lines));
  }

  /** A later rendering replaces an earlier one entirely; the same settings again
      change nothing. */
  lemma RenderingTwiceIsRenderingOnce(a: Auth, b: Auth, lines: seq<string>)
    requires Canonical(a) && Canonical(b)
    ensures Render(a, Render(b, lines)) == Render(a, lines)
  {
    FormatIsSound(a);
    FormatIsSound(b);
    EnvLayout.RenderTwice(EnvFormat(a), EnvFormat(b), MANAGED_ENV_KEYS, lines);
  }
}
