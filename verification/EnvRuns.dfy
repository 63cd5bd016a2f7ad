/** Runs of the configurator over `.env`. */
module EnvRuns {
  // Runs of the configurator over the `.env` file: what any sequence of runs
  // leaves in force, and what it leaves of the rest of the file.

  import opened BoundedFifo
  import opened Text
  import opened SortedNames
  import opened EnvFile
  import opened EnvLayout
  import EnvMethods

  datatype Request = Request(addUsers: seq<string>, allowAll: bool)

  // --------------------------------------------------------------------- one run

  ghost function ValidEntry(entry: string): Result<seq<string>> {
    var normalized := NormalizeAccountId(entry);
    if IsAccountId(normalized) then Ok([normalized]) else Err
  }

  /** The normalised users of a request, unless one is invalid. */
  ghost function Wanted(request: Request): Result<seq<string>> {
    Gather(ValidEntry, request.addUsers)
  }

  function Merge(current: Auth, added: seq<string>, allowAll: bool): Auth {
    Auth(SortedUnique(current.allowedUsers + added), current.allowAll || allowAll)
  }

  /** The settings a run will render, or the error that stops it before it writes:
      an unreadable file, an invalid user, or nobody authorised at all. */
  ghost function Prepare(lines: seq<string>, request: Request): Result<Auth> {
    var current, added := ReadAuth(lines), Wanted(request);
    if current.Err? || added.Err? then Err
    else
      var merged := Merge(current.value, added.value, request.allowAll);
      if merged.allowedUsers == [] && !merged.allowAll then Err else Ok(merged)
  }

  /** What is written for the lines. */
  function FileText(lines: seq<string>): string {
    var text := JoinWith(lines, '\n');
    if text != [] && text[|text| - 1] != '\n' then text + ['\n'] else text
  }

  ghost function RunFile(text: string, request: Request): string {
    var prepared := Prepare(SplitLines(text), request);
    if prepared.Err? then text else FileText(EnvFile.Render(prepared.value, SplitLines(text)))
  }

  ghost function RunAll(text: string, requests: seq<Request>): string {
    if requests == [] then text else RunFile(RunAll(text, requests[..|requests| - 1]), requests[|requests| - 1])
  }

  ghost function ReadFile(text: string): Result<Auth> {
    ReadAuth(SplitLines(text))
  }

  /** Reads the file, validates the new users, merges, and renders. */
  method PrepareHermesEnv(existing: seq<string>, request: Request) returns (prepared: Result<(Auth, seq<string>)>)
    ensures prepared.Ok? <==> Prepare(existing, request).Ok?
    ensures prepared.Ok? ==> prepared.value == (Prepare(existing, request).value, EnvFile.Render(Prepare(existing, request).value, existing))
  {
    var current := EnvMethods.ReadHermesEnvAuth(existing);
    if current.Err? { return Err; }
    var normalizedNew: seq<string> := [];
    for i := 0 to |request.addUsers|
      invariant Gather(ValidEntry, request.addUsers[..i]) == Ok(normalizedNew)
    {
      var normalized := EnvMethods.NormalizeEntry(request.addUsers[i]);
      EnvMethods.GatherOneMore(ValidEntry, request.addUsers, i);
      if !IsAccountId(normalized) { return Err; }
      normalizedNew := normalizedNew + [normalized];
    }
    assert request.addUsers[..|request.addUsers|] == request.addUsers;
    var merged := Merge(current.value, normalizedNew, request.allowAll);
    if merged.allowedUsers == [] && !merged.allowAll { return Err; }
    var lines := EnvMethods.RenderEnvLines(existing, merged);
    return Ok((merged, lines));
  }

  // ------------------------------------------------------------ writing and reading

  predicate EndsBlank(lines: seq<string>) {
    lines != [] && lines[|lines| - 1] == ""
  }

  /** The lines a later run reads. */
  function Reread(lines: seq<string>): seq<string> {
    if EndsBlank(lines) then lines[..|lines| - 1] else lines
  }

  lemma {:induction false} TerminatedEnds(lines: seq<string>)
    ensures lines == [] <==> Terminated(lines) == []
    ensures lines != [] ==> Terminated(lines)[|Terminated(lines)| - 1] == '\n'
  {
    if lines != [] {
      var n := |lines| - 1;
      TerminatedAppend(lines[..n], lines[n]);
      assert lines == lines[..n] + [lines[n]];
    }
  }

  /** A written file reads back as the same lines, less one final blank line. */
  lemma FileReadsBack(lines: seq<string>)
    requires AllOneLine(lines)
    ensures SplitLines(FileText(lines)) == Reread(lines)
  {
    if lines != [] {
      var n := |lines| - 1;
      var front, last := lines[..n], lines[n];
      JoinIsTerminatedButLast(lines);
      assert lines == front + [last];
      if last == "" {
        assert Terminated(front) + last == Terminated(front);
        TerminatedEnds(front);
        LinesSplitBack(front);
      } else {
        var text := Terminated(front) + last;
        assert text[|text| - 1] == last[|last| - 1];
        TerminatedAppend(front, last);
        Associates(Terminated(front), last, ['\n']);
        LinesSplitBack(lines);
      }
    }
  }

  // ------------------------------------------------------------ the lines written

  lemma NamesAreLines(key: Key)
    ensures OneLine(Name(key)) && OneLine("export ")
  {
  }

  lemma WrittenIsLine(auth: Auth, exported: bool, key: Key)
    requires Canonical(auth)
    ensures OneLine(Written(auth, exported, key)) && Written(auth, exported, key) != ""
  {
    JoinedIdsArePlain(auth.allowedUsers);
    NamesAreLines(key);
    var value := RenderedValue(auth, key);
    assert OneLine(value);
    assert OneLine(Name(key) + "=" + value);
  }

  lemma AppendLines(a: seq<string>, b: seq<string>)
    requires AllOneLine(a) && AllOneLine(b)
    ensures AllOneLine(a + b)
  {
  }

  lemma {:induction false} KeptAreLines(auth: Auth, lines: seq<string>)
    requires Canonical(auth) && AllOneLine(lines)
    ensures AllOneLine(Kept(EnvFormat(auth), lines))
  {
    if lines != [] {
      var f := EnvFormat(auth);
      KeptAreLines(auth, lines[1..]);
      if ManagedKey(lines[0]).Some? { WrittenIsLine(auth, Exported(lines[0]), ManagedKey(lines[0]).value); }
      AppendLines(KeptHead(f, lines[0], lines[1..]), Kept(f, lines[1..]));
    }
  }

  lemma {:induction false} AddedAreLines(auth: Auth, keys: seq<Key>, lines: seq<string>)
    requires Canonical(auth)
    ensures AllOneLine(Added(EnvFormat(auth), keys, lines)) && !EndsBlank(Added(EnvFormat(auth), keys, lines))
  {
    if keys != [] {
      AddedAreLines(auth, keys[1..], lines);
      WrittenIsLine(auth, false, keys[0]);
      var first := if SetIn(EnvFormat(auth), keys[0], lines) then [] else [Written(auth, false, keys[0])];
      var rest := Added(EnvFormat(auth), keys[1..], lines);
      AppendLines(first, rest);
      assert Added(EnvFormat(auth), keys, lines) == first + rest;
    }
  }

  lemma RenderedAreLines(auth: Auth, lines: seq<string>)
    requires Canonical(auth) && AllOneLine(lines)
    ensures AllOneLine(EnvFile.Render(auth, lines))
  {
    KeptAreLines(auth, lines);
    AddedAreLines(auth, MANAGED_ENV_KEYS, lines);
    AppendLines(Kept(EnvFormat(auth), lines), Added(EnvFormat(auth), MANAGED_ENV_KEYS, lines));
  }

  // --------------------------------------------------------- settings are canonical

  predicate AllIds(ids: seq<string>) {
    forall i :: 0 <= i < |ids| ==> IsAccountId(ids[i])
  }

  lemma {:induction false} GatheredIds(readOne: string -> Result<seq<string>>, entries: seq<string>)
    requires forall e :: readOne(e).Ok? ==> AllIds(readOne(e).value)
    ensures Gather(readOne, entries).Ok? ==> AllIds(Gather(readOne, entries).value)
  {
    if entries != [] { GatheredIds(readOne, entries[..|entries| - 1]); }
  }

  lemma SortedIds(ids: seq<string>)
    requires AllIds(ids)
    ensures Increasing(SortedUnique(ids)) && AllIds(SortedUnique(ids))
  {
    SortedUniqueIsRight(ids);
    forall i | 0 <= i < |SortedUnique(ids)| ensures IsAccountId(SortedUnique(ids)[i]) {
      assert SortedUnique(ids)[i] in ids;
    }
  }

  lemma ReadUsersAreCanonical(raw: string)
    ensures ReadAllowedUsers(raw).Ok? ==> Increasing(ReadAllowedUsers(raw).value) && AllIds(ReadAllowedUsers(raw).value)
  {
    var parsed := DotenvScalar(raw);
    if Strip(parsed) != [] {
      GatheredIds(ReadEntry, SplitOn(parsed, ','));
      var users := Gather(ReadEntry, SplitOn(parsed, ','));
      if users.Ok? { SortedIds(users.value); }
    }
  }

  lemma {:induction false} ReadIsCanonical(before: Auth, lines: seq<string>)
    requires Canonical(before)
    ensures ReadLines(before, lines).Ok? ==> Canonical(ReadLines(before, lines).value)
    decreases lines
  {
    if lines != [] {
      ReadUsersAreCanonical(RawValue(lines[0]));
      var next := ReadLine(before, lines[0]);
      if next.Ok? { ReadIsCanonical(next.value, lines[1..]); }
    }
  }

  lemma MergeIsCanonical(current: Auth, added: seq<string>, allowAll: bool)
    requires Canonical(current) && AllIds(added)
    ensures Canonical(Merge(current, added, allowAll))
  {
    SortedIds(current.allowedUsers + added);
  }

  lemma WantedAreIds(request: Request)
    ensures Wanted(request).Ok? ==> AllIds(Wanted(request).value)
  {
    GatheredIds(ValidEntry, request.addUsers);
  }

  lemma PreparedIsCanonical(lines: seq<string>, request: Request)
    ensures Prepare(lines, request).Ok? ==> Canonical(Prepare(lines, request).value)
  {
    ReadIsCanonical(NOTHING_SET, lines);
    WantedAreIds(request);
    if Prepare(lines, request).Ok? {
      MergeIsCanonical(ReadAuth(lines).value, Wanted(request).value, request.allowAll);
    }
  }

  // ------------------------------------------------------------------ what a run does

  lemma BlankSetsNothing()
    ensures ManagedKey("").None?
  {
  }

  lemma RereadReadsTheSame(lines: seq<string>)
    ensures ReadAuth(Reread(lines)) == ReadAuth(lines)
  {
    if EndsBlank(lines) {
      var n := |lines| - 1;
      assert lines == lines[..n] + [""];
      ReadInTwoParts(NOTHING_SET, lines[..n], [""]);
      BlankSetsNothing();
      forall a: Auth ensures ReadLines(a, [""]) == Ok(a) { ReadFirst(a, "", []); assert [""] + [] == [""]; }
    }
  }

  /** A successful run leaves in force exactly what it prepared. */
  lemma RunTakesEffect(text: string, request: Request)
    ensures Prepare(SplitLines(text), request).Ok? ==> ReadFile(RunFile(text, request)) == Prepare(SplitLines(text), request)
    ensures Prepare(SplitLines(text), request).Err? ==> RunFile(text, request) == text
  {
    var lines := SplitLines(text);
    var prepared := Prepare(lines, request);
    if prepared.Ok? {
      PreparedIsCanonical(lines, request);
      SplitLinesAreLines(text);
      RenderedAreLines(prepared.value, lines);
      var rendered := EnvFile.Render(prepared.value, lines);
      FileReadsBack(rendered);
      RereadReadsTheSame(rendered);
      RenderedReadsBack(prepared.value, lines);
    }
  }

  // ------------------------------------------------------------------- all runs

  /** The users added by the requests that are valid. */
  ghost function AllWanted(requests: seq<Request>): seq<string> {
    if requests == [] then []
    else
      var last := Wanted(requests[|requests| - 1]);
      AllWanted(requests[..|requests| - 1]) + (if last.Ok? then last.value else [])
  }

  ghost predicate OptsIn(request: Request) {
    Wanted(request).Ok? && request.allowAll
  }

  /** Some valid request opts into allow-all. */
  ghost predicate AnyOptIn(requests: seq<Request>) {
    requests != [] && (AnyOptIn(requests[..|requests| - 1]) || OptsIn(requests[|requests| - 1]))
  }

  /** One run merges a valid request into what was in force, and ignores an invalid
      one. */
  lemma RunMerges(text: string, request: Request)
    requires ReadFile(text).Ok?
    ensures ReadFile(RunFile(text, request)) ==
            if Wanted(request).Ok? then Ok(Merge(ReadFile(text).value, Wanted(request).value, request.allowAll)) else ReadFile(text)
  {
    RunTakesEffect(text, request);
    var current := ReadFile(text).value;
    ReadIsCanonical(NOTHING_SET, SplitLines(text));
    if Wanted(request).Ok? && Prepare(SplitLines(text), request).Err? {
      NothingMerged(current, Wanted(request).value);
    }
  }

  lemma SortedKeepsSome(names: seq<string>)
    requires names != []
    ensures SortedUnique(names) != []
  {
    SortedUniqueIsRight(names);
    assert names[0] in names;
  }

  lemma NothingMerged(current: Auth, added: seq<string>)
    requires Merge(current, added, false) == NOTHING_SET
    ensures current == NOTHING_SET
  {
    if current.allowedUsers != [] { SortedKeepsSome(current.allowedUsers + added); }
  }

  lemma MergesCompose(start: Auth, some: seq<string>, any: bool, more: seq<string>, also: bool)
    ensures Merge(Merge(start, some, any), more, also) == Merge(start, some + more, any || also)
  {
    MergeIsUnion(start.allowedUsers + some, more);
    Associates(start.allowedUsers, some, more);
  }

  /** After any sequence of runs the users in force are the sorted union of those
      there at first and all added by valid requests; allow-all is on if it was on
      or a valid request ever asked for it, and so is never switched off. */
  lemma {:induction false} RunsAccumulate(text: string, requests: seq<Request>)
    requires ReadFile(text).Ok?
    ensures ReadFile(RunAll(text, requests)) == Ok(Merge(ReadFile(text).value, AllWanted(requests), AnyOptIn(requests)))
  {
    var start := ReadFile(text).value;
    if requests == [] {
      ReadIsCanonical(NOTHING_SET, SplitLines(text));
      SortingTwice(start.allowedUsers);
      assert start.allowedUsers + [] == start.allowedUsers;
    } else {
      var n := |requests| - 1;
      var before, last := RunAll(text, requests[..n]), requests[n];
      RunsAccumulate(text, requests[..n]);
      RunMerges(before, last);
      if Wanted(last).Ok? {
        MergesCompose(start, AllWanted(requests[..n]), AnyOptIn(requests[..n]), Wanted(last).value, last.allowAll);
      } else {
        assert AllWanted(requests[..n]) + [] == AllWanted(requests[..n]);
      }
    }
  }

  /** A file whose settings cannot be read is never touched. */
  lemma {:induction false} UnreadableFileIsUntouched(text: string, requests: seq<Request>)
    requires ReadFile(text).Err?
    ensures RunAll(text, requests) == text
  {
    if requests != [] { UnreadableFileIsUntouched(text, requests[..|requests| - 1]); }
  }

  // --------------------------------------------------------------- the other lines

  function Blanks(n: nat): seq<string> {
    seq(n, i => "")
  }

  lemma OthersOfReread(lines: seq<string>)
    ensures Others(lines) == Others(Reread(lines)) + Blanks(if EndsBlank(lines) then 1 else 0)
  {
    if EndsBlank(lines) {
      var n := |lines| - 1;
      assert lines == lines[..n] + [""];
      UnmanagedInTwoParts(EnvFormat(NOTHING_SET), lines[..n], [""]);
      BlankSetsNothing();
      assert [""][1..] == [];
      assert Others([""]) == [""] == Blanks(1);
    } else {
      assert Others(lines) + Blanks(0) == Others(lines);
    }
  }

  /** A successful run loses nothing of the other lines but one final blank line,
      and that exactly if the rendered lines end in one. */
  lemma RunKeepsOtherLines(text: string, request: Request)
    requires Prepare(SplitLines(text), request).Ok?
    ensures var rendered := EnvFile.Render(Prepare(SplitLines(text), request).value, SplitLines(text));
            Others(SplitLines(text)) == Others(SplitLines(RunFile(text, request))) + Blanks(if EndsBlank(rendered) then 1 else 0)
  {
    var lines := SplitLines(text);
    var auth := Prepare(lines, request).value;
    PreparedIsCanonical(lines, request);
    SplitLinesAreLines(text);
    RenderedAreLines(auth, lines);
    FileReadsBack(EnvFile.Render(auth, lines));
    OthersOfReread(EnvFile.Render(auth, lines));
    RenderKeepsOtherLines(auth, lines);
  }

  lemma LastLineKept(auth: Auth, line: string)
    requires Canonical(auth)
    ensures var head := KeptHead(EnvFormat(auth), line, []);
            |head| == 1 && (head[0] == "" <==> line == "")
  {
    BlankSetsNothing();
    if ManagedKey(line).Some? { WrittenIsLine(auth, Exported(line), ManagedKey(line).value); }
  }

  lemma EndsBlankInTwoParts(a: seq<string>, b: seq<string>)
    ensures EndsBlank(a + b) <==> if b == [] then EndsBlank(a) else EndsBlank(b)
  {
    if b == [] { assert a + b == a; }
  }

  lemma {:induction false} KeptEndsBlank(auth: Auth, lines: seq<string>)
    requires Canonical(auth)
    ensures EndsBlank(Kept(EnvFormat(auth), lines)) <==> EndsBlank(lines)
    ensures lines != [] ==> Kept(EnvFormat(auth), lines) != []
  {
    if lines != [] {
      var f, rest := EnvFormat(auth), lines[1..];
      KeptEndsBlank(auth, rest);
      EndsBlankInTwoParts(KeptHead(f, lines[0], rest), Kept(f, rest));
      EndsBlankInTwoParts([lines[0]], rest);
      assert lines == [lines[0]] + rest;
      LastLineKept(auth, lines[0]);
    }
  }

  /** Whether both settings are in the file already. */
  predicate BothSet(lines: seq<string>) {
    forall k :: k in MANAGED_ENV_KEYS ==> SetIn(EnvFormat(NOTHING_SET), k, lines)
  }

  lemma {:induction false} AllSetIfNothingAdded(f: Format<string, Key, bool>, keys: seq<Key>, lines: seq<string>, key: Key)
    requires Added(f, keys, lines) == [] && key in keys
    ensures SetIn(f, key, lines)
  {
    var first := if SetIn(f, keys[0], lines) then [] else [f.write(f.plain, keys[0])];
    assert |Added(f, keys, lines)| == |first| + |Added(f, keys[1..], lines)|;
    if key != keys[0] {
      assert key in keys[1..];
      AllSetIfNothingAdded(f, keys[1..], lines, key);
    }
  }

  lemma RenderedEndsBlank(auth: Auth, lines: seq<string>)
    requires Canonical(auth)
    ensures EndsBlank(EnvFile.Render(auth, lines)) <==> EndsBlank(lines) && BothSet(lines)
  {
    var f := EnvFormat(auth);
    KeptEndsBlank(auth, lines);
    AddedAreLines(auth, MANAGED_ENV_KEYS, lines);
    forall k ensures SetIn(f, k, lines) == SetIn(EnvFormat(NOTHING_SET), k, lines) {
      AlikeSet(f, EnvFormat(NOTHING_SET), k, lines);
    }
    if BothSet(lines) {
      NothingMissing(f, MANAGED_ENV_KEYS, lines);
    } else if Added(f, MANAGED_ENV_KEYS, lines) == [] {
      forall k | k in MANAGED_ENV_KEYS ensures SetIn(f, k, lines) { AllSetIfNothingAdded(f, MANAGED_ENV_KEYS, lines, k); }
      assert false;
    }
    EndsBlankInTwoParts(Kept(f, lines), Added(f, MANAGED_ENV_KEYS, lines));
  }

  /** A successful run keeps every other line of the file if and only if the file
      does not both end in a blank line and hold both settings already. */
  lemma RunKeepsAllLinesIff(text: string, request: Request)
    requires Prepare(SplitLines(text), request).Ok?
    ensures Others(SplitLines(RunFile(text, request))) == Others(SplitLines(text)) <==>
            !(EndsBlank(SplitLines(text)) && BothSet(SplitLines(text)))
  {
    var lines := SplitLines(text);
    RunKeepsOtherLines(text, request);
    PreparedIsCanonical(lines, request);
    RenderedEndsBlank(Prepare(lines, request).value, lines);
  }

  lemma LossesAdd(a: seq<string>, b: seq<string>, c: seq<string>, m: nat, n: nat)
    requires a == b + Blanks(n) && b == c + Blanks(m)
    ensures a == c + Blanks(m + n)
  {
    Associates(c, Blanks(m), Blanks(n));
    assert Blanks(m) + Blanks(n) == Blanks(m + n);
  }

  lemma RunLosesAtMostOne(text: string, request: Request) returns (lost: nat)
    ensures lost <= 1 && Others(SplitLines(text)) == Others(SplitLines(RunFile(text, request))) + Blanks(lost)
  {
    if Prepare(SplitLines(text), request).Ok? {
      RunKeepsOtherLines(text, request);
      lost := if EndsBlank(EnvFile.Render(Prepare(SplitLines(text), request).value, SplitLines(text))) then 1 else 0;
    } else {
      lost := 0;
      assert Others(SplitLines(text)) + Blanks(0) == Others(SplitLines(text));
    }
  }

  lemma RunAllStep(text: string, requests: seq<Request>)
    requires requests != []
    ensures RunAll(text, requests) == RunFile(RunAll(text, requests[..|requests| - 1]), requests[|requests| - 1])
  {
  }

  /** Over any sequence of runs only final blank lines are lost, at most one a run. */
  lemma {:induction false} RunsKeepOtherLines(text: string, requests: seq<Request>) returns (lost: nat)
    ensures Others(SplitLines(text)) == Others(SplitLines(RunAll(text, requests))) + Blanks(lost)
    ensures lost <= |requests|
  {
    if requests == [] {
      lost := 0;
      assert Others(SplitLines(text)) + Blanks(0) == Others(SplitLines(text));
    } else {
      var before, last := requests[..|requests| - 1], requests[|requests| - 1];
      var earlier := RunsKeepOtherLines(text, before);
      var now := RunLosesAtMostOne(RunAll(text, before), last);
      RunAllStep(text, requests);
      lost := now + earlier;
      LossesAdd(Others(SplitLines(text)), Others(SplitLines(RunAll(text, before))), Others(SplitLines(RunAll(text, requests))), now, earlier);
    }
  }

  /** The loss is real: for every configured state there is a file on which a run
      that changes nothing drops a line. */
  lemma FinalBlankLineIsLost(auth: Auth) returns (text: string)
    requires Canonical(auth) && (auth.allowedUsers != [] || auth.allowAll)
    ensures ReadFile(text) == Ok(auth) && Others(SplitLines(text)) == [""]
    ensures Others(SplitLines(RunFile(text, Request([], false)))) == []
  {
    var settings := EnvFile.Render(auth, []);
    var lines := settings + [""];
    RenderedAreLines(auth, []);
    AppendLines(settings, [""]);
    text := Terminated(lines);
    LinesSplitBack(lines);
    RenderedReadsBack(auth, []);
    assert Reread(lines) == settings;
    RereadReadsTheSame(lines);
    OthersOfReread(lines);
    RenderKeepsOtherLines(auth, []);
    assert Others(lines) == [""];
    var request := Request([], false);
    SortingTwice(auth.allowedUsers);
    assert auth.allowedUsers + [] == auth.allowedUsers;
    RunKeepsOtherLines(text, request);
    FormatIsSound(auth);
    RenderingTwiceIsRenderingOnce(auth, auth, []);
    forall k | k in MANAGED_ENV_KEYS ensures SetIn(EnvFormat(NOTHING_SET), k, lines) {
      RenderSetsAll(EnvFormat(auth), MANAGED_ENV_KEYS, [], k);
      SetInTwoParts(EnvFormat(auth), k, settings, [""]);
      AlikeSet(EnvFormat(auth), EnvFormat(NOTHING_SET), k, lines);
    }
    RenderedEndsBlank(auth, lines);
    var left := Others(SplitLines(RunFile(text, request)));
    assert [""] == left + Blanks(1);
    assert |left| == 0;
  }
}
