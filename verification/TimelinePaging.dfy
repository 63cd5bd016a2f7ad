/** Timeline pages within the frame budget. */
module TimelinePaging {
  // Timeline pages: trimming a page to the exact frame budget, and what a client
  // gets that follows the edge cursor from page to page.

  import opened BoundedFifo

  const MAX_AGENT_CONTROL_FRAME_BYTES: nat := 1024 * 1024
  const AGENT_CONTROL_TIMELINE_DEFAULT_LIMIT: nat := 20
  const AGENT_CONTROL_TIMELINE_MAX_LIMIT: nat := 50

  /** A row and the length of its serialized form. */
  datatype Message = Message(id: string, size: nat)

  datatype Page = Page(messages: seq<Message>, hasMoreBefore: bool, hasMoreAfter: bool)

  /** The length of a JSON boolean. */
  function Flag(b: bool): nat { if b then 4 else 5 }

  function Sizes(messages: seq<Message>): nat {
    if messages == [] then 0 else messages[0].size + Sizes(messages[1..])
  }

  /** The exact frame: `overhead` bytes around the parts that vary, the rows with
      their separating commas, the two flags, and the final newline. */
  function FrameLen(overhead: nat, page: Page): nat {
    overhead + Sizes(page.messages) + (if |page.messages| > 0 then |page.messages| - 1 else 0)
    + Flag(page.hasMoreBefore) + Flag(page.hasMoreAfter) + 1
  }

  predicate Fits(overhead: nat, page: Page) {
    FrameLen(overhead, page) <= MAX_AGENT_CONTROL_FRAME_BYTES
  }

  /** The page with `k` rows given up at the far end. */
  function Without(page: Page, fromBack: bool, k: nat): Page
    requires k <= |page.messages|
  {
    if k == 0 then page
    else if fromBack then page.(messages := page.messages[..|page.messages| - k], hasMoreAfter := true)
    else page.(messages := page.messages[k..], hasMoreBefore := true)
  }

  /** The frame test, as a function of the page alone. */
  ghost function Test(overhead: nat): Page -> bool {
    (page: Page) => Fits(overhead, page)
  }

  /** The least number of rows to give up, if any number will do. */
  ghost predicate IsLeastCut(fits: Page -> bool, page: Page, fromBack: bool, k: nat) {
    && k <= |page.messages| && fits(Without(page, fromBack, k))
    && forall j :: 0 <= j < k ==> !fits(Without(page, fromBack, j))
  }

  ghost predicate Unfittable(fits: Page -> bool, page: Page, fromBack: bool) {
    forall j :: 0 <= j <= |page.messages| ==> !fits(Without(page, fromBack, j))
  }

  /** Drops rows at the far end until the frame fits: the result keeps as many
      rows nearest the cursor as possible and flags what it dropped. */
  method BoundedTimelinePageResponse(overhead: nat, page: Page, trimFromBack: bool) returns (response: Option<Page>)
    ensures response.Some? ==> exists k :: IsLeastCut(Test(overhead), page, trimFromBack, k) && response.value == Without(page, trimFromBack, k)
    ensures response.None? <==> Unfittable(Test(overhead), page, trimFromBack)
  {
    var current := page;
    ghost var k := 0;
    while true
      invariant k <= |page.messages| && current == Without(page, trimFromBack, k)
      invariant forall j :: 0 <= j < k ==> !Fits(overhead, Without(page, trimFromBack, j))
      decreases |current.messages|
    {
      if FrameLen(overhead, current) <= MAX_AGENT_CONTROL_FRAME_BYTES {
        assert IsLeastCut(Test(overhead), page, trimFromBack, k);
        return Some(current);
      }
      if current.messages == [] {
        return None;
      }
      if trimFromBack {
        current := current.(messages := current.messages[..|current.messages| - 1], hasMoreAfter := true);
      } else {
        current := current.(messages := current.messages[1..], hasMoreBefore := true);
      }
      k := k + 1;
    }
  }

  /** The same as a function, for reasoning about sequences of pages. */
  ghost function Bounded(fits: Page -> bool, page: Page, fromBack: bool): (r: Option<Page>)
    ensures r.Some? ==> exists k :: IsLeastCut(fits, page, fromBack, k) && r.value == Without(page, fromBack, k)
    ensures r.None? <==> Unfittable(fits, page, fromBack)
  {
    if k :| IsLeastCut(fits, page, fromBack, k) then Some(Without(page, fromBack, k))
    else
      LeastCutExists(fits, page, fromBack, |page.messages|);
      None
  }

  lemma {:induction false} LeastCutExists(fits: Page -> bool, page: Page, fromBack: bool, n: nat)
    requires n <= |page.messages|
    ensures (exists k :: IsLeastCut(fits, page, fromBack, k)) || forall j :: 0 <= j <= n ==> !fits(Without(page, fromBack, j))
  {
    if n > 0 {
      LeastCutExists(fits, page, fromBack, n - 1);
    }
    if (forall j :: 0 <= j < n ==> !fits(Without(page, fromBack, j))) && fits(Without(page, fromBack, n)) {
      assert IsLeastCut(fits, page, fromBack, n);
    }
  }

  function ClampLimit(limit: Option<nat>): (r: nat)
    ensures 1 <= r <= AGENT_CONTROL_TIMELINE_MAX_LIMIT
    ensures limit.Some? && 1 <= limit.value <= AGENT_CONTROL_TIMELINE_MAX_LIMIT ==> r == limit.value
    ensures limit.None? ==> r == AGENT_CONTROL_TIMELINE_DEFAULT_LIMIT
    ensures limit.Some? ==> (r > limit.value <==> limit.value == 0) && (r < limit.value <==> limit.value > AGENT_CONTROL_TIMELINE_MAX_LIMIT)
  {
    var wanted := if limit.Some? then limit.value else AGENT_CONTROL_TIMELINE_DEFAULT_LIMIT;
    if wanted < 1 then 1 else if wanted > AGENT_CONTROL_TIMELINE_MAX_LIMIT then AGENT_CONTROL_TIMELINE_MAX_LIMIT else wanted
  }

  // ---------------------------------------------------------- walking backwards

  /** The rows nearest below position `end` of the timeline, at most `limit`. */
  function QueryBefore(rows: seq<Message>, end: nat, limit: nat): Page
    requires end <= |rows| && limit >= 1
  {
    var start := if end <= limit then 0 else end - limit;
    Page(rows[start..end], start > 0, end < |rows|)
  }

  /** The connector's answers to requests before each position. */
  ghost function AnswersBefore(overhead: nat, rows: seq<Message>, limit: nat): nat -> Option<Page>
    requires limit >= 1
  {
    (end: nat) => if end <= |rows| then Bounded(Test(overhead), QueryBefore(rows, end, limit), false) else None
  }

  /** What a client collects that keeps asking for the page before its oldest
      row; it is stuck when a page has no row to continue from. */
  ghost function WalkBack(answers: nat -> Option<Page>, end: nat): Option<seq<Message>>
    decreases end
  {
    if answers(end).None? then None
    else
      var page := answers(end).value;
      if !page.hasMoreBefore then Some(page.messages)
      else if page.messages == [] || |page.messages| > end then None
      else
        var older := WalkBack(answers, end - |page.messages|);
        if older.None? then None else Some(older.value + page.messages)
  }

  /** Row `i` on a page of its own. */
  function Alone(rows: seq<Message>, i: nat): Page
    requires i < |rows|
  {
    Page([rows[i]], i > 0, i + 1 < |rows|)
  }

  lemma {:induction false} MemberSize(messages: seq<Message>, i: nat)
    requires i < |messages|
    ensures messages[i].size <= Sizes(messages)
  {
    if i > 0 { MemberSize(messages[1..], i - 1); }
  }

  /** The page holding exactly rows `a` to `b`. */
  function Stretch(rows: seq<Message>, a: nat, b: nat): Page
    requires a <= b <= |rows|
  {
    Page(rows[a..b], a > 0, b < |rows|)
  }

  /** A frame test under which a row that fits in company also fits alone. */
  ghost predicate Sparing(fits: Page -> bool, rows: seq<Message>) {
    forall a, b, i :: 0 <= a <= i < b <= |rows| && fits(Stretch(rows, a, b)) ==> fits(Alone(rows, i))
  }

  /** A row on a page that fits also fits alone. */
  lemma FitsTogetherFitsAlone(overhead: nat, rows: seq<Message>, a: nat, b: nat, i: nat)
    requires a <= i < b <= |rows| && Fits(overhead, Stretch(rows, a, b))
    ensures Fits(overhead, Alone(rows, i))
  {
    MemberSize(rows[a..b], i - a);
    assert rows[a..b][i - a] == rows[i];
    assert Sizes([rows[i]]) == rows[i].size;
  }

  lemma FrameTestIsSparing(overhead: nat, rows: seq<Message>)
    ensures Sparing(Test(overhead), rows)
  {
    forall a, b, i | 0 <= a <= i < b <= |rows| && Test(overhead)(Stretch(rows, a, b)) ensures Test(overhead)(Alone(rows, i)) {
      FitsTogetherFitsAlone(overhead, rows, a, b, i);
    }
  }

  /** Giving up rows of a backward page leaves the stretch nearest the cursor. */
  lemma CutIsStretch(rows: seq<Message>, end: nat, limit: nat, k: nat)
    requires end <= |rows| && limit >= 1 && k <= |QueryBefore(rows, end, limit).messages|
    ensures Without(QueryBefore(rows, end, limit), false, k) == Stretch(rows, end - |QueryBefore(rows, end, limit).messages| + k, end)
  {
  }

  /** An answer before `end`: some rows next to the cursor if the nearest one fits
      alone, and nothing to continue from if it does not. */
  ghost predicate AnswerBefore(answer: Option<Page>, fits: Page -> bool, rows: seq<Message>, end: nat)
    requires 0 < end <= |rows|
  {
    if fits(Alone(rows, end - 1))
    then exists a: nat :: a < end && answer == Some(Stretch(rows, a, end)) && fits(Stretch(rows, a, end))
    else answer.None? || (answer.value.messages == [] && answer.value.hasMoreBefore)
  }

  /** A trimmed page is a stretch ending at the cursor; it is empty, or missing,
      only if the nearest row alone does not fit. */
  lemma TrimmedBefore(fits: Page -> bool, rows: seq<Message>, end: nat, limit: nat) returns (a: nat)
    requires 0 < end <= |rows| && limit >= 1
    ensures a <= end
    ensures var page := Bounded(fits, QueryBefore(rows, end, limit), false);
            && (page.Some? ==> page == Some(Stretch(rows, a, end)) && fits(Stretch(rows, a, end)))
            && (page.None? || a == end ==> !fits(Stretch(rows, end - 1, end)))
  {
    var query := QueryBefore(rows, end, limit);
    var n := |query.messages|;
    var page := Bounded(fits, query, false);
    CutIsStretch(rows, end, limit, n - 1);
    a := 0;
    if page.Some? {
      var k: nat :| IsLeastCut(fits, query, false, k) && page.value == Without(query, false, k);
      CutIsStretch(rows, end, limit, k);
      a := end - n + k;
    }
  }

  lemma BoundedAnswersBefore(fits: Page -> bool, rows: seq<Message>, end: nat, limit: nat)
    requires Sparing(fits, rows) && 0 < end <= |rows| && limit >= 1
    ensures AnswerBefore(Bounded(fits, QueryBefore(rows, end, limit), false), fits, rows, end)
  {
    var a := TrimmedBefore(fits, rows, end, limit);
    assert Stretch(rows, end - 1, end) == Alone(rows, end - 1);
  }

  ghost predicate ServesBefore(answers: nat -> Option<Page>, fits: Page -> bool, rows: seq<Message>) {
    forall e: nat {:trigger AnswerBefore(answers(e), fits, rows, e)} :: 0 < e <= |rows| ==> AnswerBefore(answers(e), fits, rows, e)
  }

  /** One page of the walk. */
  lemma WalkBackStep(answers: nat -> Option<Page>, rows: seq<Message>, a: nat, end: nat)
    requires a < end <= |rows| && answers(end) == Some(Stretch(rows, a, end))
    ensures WalkBack(answers, end).Some? <==> a == 0 || WalkBack(answers, a).Some?
    ensures a == 0 ==> WalkBack(answers, end) == Some(rows[..end])
    ensures a > 0 && WalkBack(answers, a) == Some(rows[..a]) ==> WalkBack(answers, end) == Some(rows[..end])
  {
    assert rows[..a] + rows[a..end] == rows[..end];
  }

  lemma {:induction false} WalkBackIsComplete(answers: nat -> Option<Page>, fits: Page -> bool, rows: seq<Message>, end: nat)
    requires Sparing(fits, rows) && ServesBefore(answers, fits, rows) && 0 < end <= |rows|
    ensures WalkBack(answers, end).Some? <==> forall i :: 0 <= i < end ==> fits(Alone(rows, i))
    ensures WalkBack(answers, end).Some? ==> WalkBack(answers, end).value == rows[..end]
    decreases end
  {
    assert AnswerBefore(answers(end), fits, rows, end);
    if fits(Alone(rows, end - 1)) {
      var a: nat :| a < end && answers(end) == Some(Stretch(rows, a, end)) && fits(Stretch(rows, a, end));
      WalkBackStep(answers, rows, a, end);
      assert forall i :: a <= i < end ==> fits(Alone(rows, i));
      if a > 0 { WalkBackIsComplete(answers, fits, rows, a); }
    }
  }

  /** An empty page is answered if its own frame fits. */
  lemma BoundedEmpty(fits: Page -> bool, page: Page, fromBack: bool)
    requires page.messages == []
    ensures Bounded(fits, page, fromBack) == if fits(page) then Some(page) else None
  {
    assert Without(page, fromBack, 0) == page;
  }

  lemma WalkBackFromTheStart(overhead: nat, rows: seq<Message>, limit: nat)
    requires limit >= 1
    ensures WalkBack(AnswersBefore(overhead, rows, limit), 0) == if Fits(overhead, Stretch(rows, 0, 0)) then Some([]) else None
  {
    assert QueryBefore(rows, 0, limit) == Stretch(rows, 0, 0);
    BoundedEmpty(Test(overhead), Stretch(rows, 0, 0), false);
  }

  /** Following the edge cursor backwards either returns every row below `end`
      exactly once and in order, or gets stuck; it succeeds if and only if each
      of those rows fits a frame of its own, or, where there is none, the empty
      page does. */
  lemma WalkBackCompleteIffRowsFit(overhead: nat, rows: seq<Message>, end: nat, limit: nat)
    requires end <= |rows| && limit >= 1
    ensures var collected := WalkBack(AnswersBefore(overhead, rows, limit), end);
            && (collected.Some? <==>
                if end == 0 then Fits(overhead, Stretch(rows, 0, 0)) else forall i :: 0 <= i < end ==> Fits(overhead, Alone(rows, i)))
            && (collected.Some? ==> collected.value == rows[..end])
  {
    if end == 0 {
      WalkBackFromTheStart(overhead, rows, limit);
    } else {
      WalkBackOverRows(overhead, rows, end, limit);
    }
  }

  lemma WalkBackOverRows(overhead: nat, rows: seq<Message>, end: nat, limit: nat)
    requires 0 < end <= |rows| && limit >= 1
    ensures var collected := WalkBack(AnswersBefore(overhead, rows, limit), end);
            && (collected.Some? <==> forall i :: 0 <= i < end ==> Fits(overhead, Alone(rows, i)))
            && (collected.Some? ==> collected.value == rows[..end])
  {
    FrameTestIsSparing(overhead, rows);
    forall e: nat | 0 < e <= |rows| ensures AnswerBefore(AnswersBefore(overhead, rows, limit)(e), Test(overhead), rows, e) {
      BoundedAnswersBefore(Test(overhead), rows, e, limit);
    }
    WalkBackIsComplete(AnswersBefore(overhead, rows, limit), Test(overhead), rows, end);
    assert forall i :: 0 <= i < end ==> Test(overhead)(Alone(rows, i)) == Fits(overhead, Alone(rows, i));
  }

  // ----------------------------------------------------------- walking forwards

  /** The rows from position `start` on, at most `limit`; asked with a cursor, so
      something is known to lie before. */
  function QueryAfter(rows: seq<Message>, start: nat, limit: nat): Page
    requires 0 < start <= |rows| && limit >= 1
  {
    var end := if |rows| <= start + limit then |rows| else start + limit;
    Page(rows[start..end], true, end < |rows|)
  }

  ghost function AnswersAfter(overhead: nat, rows: seq<Message>, limit: nat): nat -> Option<Page>
    requires limit >= 1
  {
    (start: nat) => if 0 < start <= |rows| then Bounded(Test(overhead), QueryAfter(rows, start, limit), true) else None
  }

  ghost function WalkForward(answers: nat -> Option<Page>, start: nat, total: nat): Option<seq<Message>>
    requires start <= total
    decreases total - start
  {
    if answers(start).None? then None
    else
      var page := answers(start).value;
      if !page.hasMoreAfter then Some(page.messages)
      else if page.messages == [] || start + |page.messages| > total then None
      else
        var newer := WalkForward(answers, start + |page.messages|, total);
        if newer.None? then None else Some(page.messages + newer.value)
  }

  lemma CutIsForwardStretch(rows: seq<Message>, start: nat, limit: nat, k: nat)
    requires 0 < start <= |rows| && limit >= 1 && k <= |QueryAfter(rows, start, limit).messages|
    ensures Without(QueryAfter(rows, start, limit), true, k) == Stretch(rows, start, start + |QueryAfter(rows, start, limit).messages| - k)
  {
  }

  ghost predicate AnswerAfter(answer: Option<Page>, fits: Page -> bool, rows: seq<Message>, start: nat)
    requires 0 < start < |rows|
  {
    if fits(Alone(rows, start))
    then exists b: nat :: start < b <= |rows| && answer == Some(Stretch(rows, start, b)) && fits(Stretch(rows, start, b))
    else answer.None? || (answer.value.messages == [] && answer.value.hasMoreAfter)
  }

  lemma TrimmedAfter(fits: Page -> bool, rows: seq<Message>, start: nat, limit: nat) returns (b: nat)
    requires 0 < start < |rows| && limit >= 1
    ensures start <= b <= |rows|
    ensures var page := Bounded(fits, QueryAfter(rows, start, limit), true);
            && (page.Some? ==> page == Some(Stretch(rows, start, b)) && fits(Stretch(rows, start, b)))
            && (page.None? || b == start ==> !fits(Stretch(rows, start, start + 1)))
  {
    var query := QueryAfter(rows, start, limit);
    var n := |query.messages|;
    var page := Bounded(fits, query, true);
    CutIsForwardStretch(rows, start, limit, n - 1);
    b := |rows|;
    if page.Some? {
      var k: nat :| IsLeastCut(fits, query, true, k) && page.value == Without(query, true, k);
      CutIsForwardStretch(rows, start, limit, k);
      b := start + n - k;
    }
  }

  lemma BoundedAnswersAfter(fits: Page -> bool, rows: seq<Message>, start: nat, limit: nat)
    requires Sparing(fits, rows) && 0 < start < |rows| && limit >= 1
    ensures AnswerAfter(Bounded(fits, QueryAfter(rows, start, limit), true), fits, rows, start)
  {
    var b := TrimmedAfter(fits, rows, start, limit);
    assert Stretch(rows, start, start + 1) == Alone(rows, start);
  }

  ghost predicate ServesAfter(answers: nat -> Option<Page>, fits: Page -> bool, rows: seq<Message>) {
    forall s: nat {:trigger AnswerAfter(answers(s), fits, rows, s)} :: 0 < s < |rows| ==> AnswerAfter(answers(s), fits, rows, s)
  }

  lemma WalkForwardStep(answers: nat -> Option<Page>, rows: seq<Message>, start: nat, b: nat)
    requires start < b <= |rows| && answers(start) == Some(Stretch(rows, start, b))
    ensures WalkForward(answers, start, |rows|).Some? <==> b == |rows| || WalkForward(answers, b, |rows|).Some?
    ensures b == |rows| ==> WalkForward(answers, start, |rows|) == Some(rows[start..])
    ensures b < |rows| && WalkForward(answers, b, |rows|) == Some(rows[b..]) ==> WalkForward(answers, start, |rows|) == Some(rows[start..])
  {
    assert rows[start..b] + rows[b..] == rows[start..];
    assert rows[start..|rows|] == rows[start..];
  }

  lemma {:induction false} WalkForwardIsComplete(answers: nat -> Option<Page>, fits: Page -> bool, rows: seq<Message>, start: nat)
    requires Sparing(fits, rows) && ServesAfter(answers, fits, rows) && 0 < start < |rows|
    ensures WalkForward(answers, start, |rows|).Some? <==> forall i :: start <= i < |rows| ==> fits(Alone(rows, i))
    ensures WalkForward(answers, start, |rows|).Some? ==> WalkForward(answers, start, |rows|).value == rows[start..]
    decreases |rows| - start
  {
    assert AnswerAfter(answers(start), fits, rows, start);
    if fits(Alone(rows, start)) {
      var b: nat :| start < b <= |rows| && answers(start) == Some(Stretch(rows, start, b)) && fits(Stretch(rows, start, b));
      WalkForwardStep(answers, rows, start, b);
      assert forall i :: start <= i < b ==> fits(Alone(rows, i));
      if b < |rows| { WalkForwardIsComplete(answers, fits, rows, b); }
    }
  }

  lemma WalkForwardFromTheEnd(overhead: nat, rows: seq<Message>, limit: nat)
    requires rows != [] && limit >= 1
    ensures WalkForward(AnswersAfter(overhead, rows, limit), |rows|, |rows|)
            == if Fits(overhead, Stretch(rows, |rows|, |rows|)) then Some([]) else None
  {
    assert QueryAfter(rows, |rows|, limit) == Stretch(rows, |rows|, |rows|);
    BoundedEmpty(Test(overhead), Stretch(rows, |rows|, |rows|), true);
  }

  /** The same towards the newest row, for pages trimmed from the back. */
  lemma WalkForwardCompleteIffRowsFit(overhead: nat, rows: seq<Message>, start: nat, limit: nat)
    requires 0 < start <= |rows| && limit >= 1
    ensures var collected := WalkForward(AnswersAfter(overhead, rows, limit), start, |rows|);
            && (collected.Some? <==>
                if start == |rows| then Fits(overhead, Stretch(rows, start, start)) else forall i :: start <= i < |rows| ==> Fits(overhead, Alone(rows, i)))
            && (collected.Some? ==> collected.value == rows[start..])
  {
    if start == |rows| {
      WalkForwardFromTheEnd(overhead, rows, limit);
    } else {
      WalkForwardOverRows(overhead, rows, start, limit);
    }
  }

  lemma WalkForwardOverRows(overhead: nat, rows: seq<Message>, start: nat, limit: nat)
    requires 0 < start < |rows| && limit >= 1
    ensures var collected := WalkForward(AnswersAfter(overhead, rows, limit), start, |rows|);
            && (collected.Some? <==> forall i :: start <= i < |rows| ==> Fits(overhead, Alone(rows, i)))
            && (collected.Some? ==> collected.value == rows[start..])
  {
    FrameTestIsSparing(overhead, rows);
    forall s: nat | 0 < s < |rows| ensures AnswerAfter(AnswersAfter(overhead, rows, limit)(s), Test(overhead), rows, s) {
      BoundedAnswersAfter(Test(overhead), rows, s, limit);
    }
    WalkForwardIsComplete(AnswersAfter(overhead, rows, limit), Test(overhead), rows, start);
    assert forall i :: start <= i < |rows| ==> Test(overhead)(Alone(rows, i)) == Fits(overhead, Alone(rows, i));
  }
}
