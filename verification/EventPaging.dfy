/** When following cursors through the event log agrees with a plain filter of it. */
module EventPaging {
  import opened Common
  import opened Events

  // ---- what a filter keeps ----

  /** Of the project asked for, if one is, and of the mission asked for, if one is. */
  ghost predicate Wanted(ev: Event, f: Filter) {
    (f.project == None || f.project == Some(ev.project)) && (f.mission == None || f.mission == ev.mission)
  }

  ghost predicate ListedIff(events: seq<Event>, f: Filter, at: seq<nat>, i: int) {
    i in at <==> 0 <= i < |events| && Wanted(events[i], f)
  }

  /** `at` lists, in order, where in the log the events wanted stand. */
  ghost predicate Places(events: seq<Event>, f: Filter, at: seq<nat>) {
    (forall j, k :: 0 <= j < k < |at| ==> at[j] < at[k]) && forall i :: ListedIff(events, f, at, i)
  }

  /** `some` are the events that stand there. */
  ghost predicate StandAt(events: seq<Event>, at: seq<nat>, some: seq<Event>) {
    |some| == |at| && forall k :: 0 <= k < |at| ==> at[k] < |events| && some[k] == events[at[k]]
  }

  lemma PlacesNext(events: seq<Event>, f: Filter, ev: Event, at: seq<nat>)
    requires Places(events, f, at)
    ensures Places(events + [ev], f, if Wanted(ev, f) then at + [|events|] else at)
  {
    var longer := if Wanted(ev, f) then at + [|events|] else at;
    forall i ensures ListedIff(events + [ev], f, longer, i) {
      assert ListedIff(events, f, at, i);
    }
    forall k | 0 <= k < |at| ensures at[k] < |events| {
      assert ListedIff(events, f, at, at[k]);
    }
  }

  lemma StandNext(events: seq<Event>, f: Filter, ev: Event, at: seq<nat>)
    requires StandAt(events, at, Filtered(events, f))
    ensures StandAt(events + [ev], if Wanted(ev, f) then at + [|events|] else at, Filtered(events + [ev], f))
  {
    assert (events + [ev])[..|events|] == events;
  }

  /** Filtering keeps exactly the events wanted, each once and in order. */
  lemma {:induction false} FilteredMeans(events: seq<Event>, f: Filter) returns (at: seq<nat>)
    ensures Places(events, f, at) && StandAt(events, at, Filtered(events, f))
  {
    if events == [] {
      at := [];
    } else {
      var front, ev := events[..|events| - 1], events[|events| - 1];
      assert events == front + [ev];
      at := FilteredMeans(front, f);
      PlacesNext(front, f, ev, at);
      StandNext(front, f, ev, at);
      at := if Wanted(ev, f) then at + [|front|] else at;
    }
  }

  // ---- where a cursor leads ----

  /** The event's id leads back to it: it is not the empty text, which means no cursor, and no earlier event has it. */
  ghost predicate Usable(events: seq<Event>, k: int) {
    0 <= k < |events| && events[k].id != "" && forall j :: 0 <= j < k ==> events[j].id != events[k].id
  }

  lemma {:induction false} ResumeFromFirst(events: seq<Event>, k: nat, i: nat)
    requires i <= k < |events|
    ensures ResumeFrom(events, events[k].id, i) <= k + 1
    ensures ResumeFrom(events, events[k].id, i) == k + 1 <==> forall j :: i <= j < k ==> events[j].id != events[k].id
    decreases k - i
  {
    if i < k && events[i].id != events[k].id {
      ResumeFromFirst(events, k, i + 1);
    }
  }

  lemma {:induction false} ResumeFromUnknown(events: seq<Event>, id: Id, i: nat)
    requires i <= |events| && forall j :: i <= j < |events| ==> events[j].id != id
    ensures ResumeFrom(events, id, i) == 0
    decreases |events| - i
  {
    if i < |events| {
      ResumeFromUnknown(events, id, i + 1);
    }
  }

  /** A cursor that no event has, or none at all, reads from the start. */
  lemma UnknownCursorRestarts(events: seq<Event>, cursor: Option<Id>)
    requires cursor.Some? ==> forall j :: 0 <= j < |events| ==> events[j].id != cursor.value
    ensures Resume(events, cursor) == 0
  {
    if cursor.Some? {
      ResumeFromUnknown(events, cursor.value, 0);
    }
  }

  /** Reading resumes right behind an event exactly when its id is usable, and otherwise further back. */
  lemma ResumeIff(events: seq<Event>, k: nat)
    requires k < |events|
    ensures Resume(events, Some(events[k].id)) <= k + 1
    ensures Resume(events, Some(events[k].id)) == k + 1 <==> Usable(events, k)
  {
    ResumeFromFirst(events, k, 0);
  }

  // ---- one page ----

  /** The position right behind the n-th matching event from `start` on, or the end. */
  function Behind(events: seq<Event>, f: Filter, start: nat, n: nat): (end: nat)
    requires start <= |events|
    ensures start <= end <= |events|
    decreases |events| - start
  {
    if n == 0 || start == |events| then start
    else Behind(events, f, start + 1, if Matches(events[start], f) then n - 1 else n)
  }

  function IfMatching(ev: Event, f: Filter): seq<Event> {
    if Matches(ev, f) then [ev] else []
  }

  lemma FilteredFromNext(events: seq<Event>, f: Filter, start: nat, end: nat)
    requires start < end <= |events|
    ensures Filtered(events[start..end], f) == IfMatching(events[start], f) + Filtered(events[start + 1..end], f)
  {
    assert events[start..end] == [events[start]] + events[start + 1..end];
    FilteredAppend([events[start]], events[start + 1..end], f);
    assert [events[start]][..0] == [];
  }

  lemma FilteredPrefix(events: seq<Event>, f: Filter, start: nat, end: nat)
    requires start <= end <= |events|
    ensures Filtered(events[..end], f) == Filtered(events[..start], f) + Filtered(events[start..end], f)
  {
    assert events[..end] == events[..start] + events[start..end];
    FilteredAppend(events[..start], events[start..end], f);
  }

  lemma RestFromNext(events: seq<Event>, f: Filter, start: nat)
    requires start < |events|
    ensures Filtered(events[start..], f) == IfMatching(events[start], f) + Filtered(events[start + 1..], f)
  {
    assert events[start..] == events[start..|events|] && events[start + 1..] == events[start + 1..|events|];
    FilteredFromNext(events, f, start, |events|);
  }

  lemma MatchAheadMeansMore(events: seq<Event>, f: Filter, start: nat)
    requires start <= |events| && Filtered(events[start..], f) != []
    ensures start < |events|
  {
    assert events[|events|..] == [];
  }

  lemma FirstMatch(events: seq<Event>, f: Filter, start: nat)
    requires start < |events| && Matches(events[start], f)
    ensures Behind(events, f, start, 1) == start + 1
    ensures var all := Filtered(events[start..], f);
            all != [] && all[0] == events[start] && Filtered(events[start..start + 1], f) == all[..1]
  {
    RestFromNext(events, f, start);
    assert events[start + 1..start + 1] == [];
    FilteredFromNext(events, f, start, start + 1);
  }

  lemma {:induction false} BehindEndsAtMatch(events: seq<Event>, f: Filter, start: nat, n: nat)
    requires start <= |events| && 1 <= n <= |Filtered(events[start..], f)|
    ensures var end := Behind(events, f, start, n);
            && start < end && Matches(events[end - 1], f) && events[end - 1] == Filtered(events[start..], f)[n - 1]
            && Filtered(events[start..end], f) == Filtered(events[start..], f)[..n]
    decreases |events| - start
  {
    MatchAheadMeansMore(events, f, start);
    if n == 1 && Matches(events[start], f) {
      FirstMatch(events, f, start);
    } else {
      RestFromNext(events, f, start);
      var left := n - |IfMatching(events[start], f)|;
      BehindEndsAtMatch(events, f, start + 1, left);
      ExtendBack(events, f, start, Behind(events, f, start + 1, left), left);
    }
  }

  lemma ExtendBack(events: seq<Event>, f: Filter, start: nat, end: nat, left: nat)
    requires start + 1 < end <= |events| && 1 <= left <= |Filtered(events[start + 1..], f)|
    requires events[end - 1] == Filtered(events[start + 1..], f)[left - 1]
    requires Filtered(events[start + 1..end], f) == Filtered(events[start + 1..], f)[..left]
    ensures var n := left + |IfMatching(events[start], f)|;
            && n <= |Filtered(events[start..], f)| && events[end - 1] == Filtered(events[start..], f)[n - 1]
            && Filtered(events[start..end], f) == Filtered(events[start..], f)[..n]
  {
    RestFromNext(events, f, start);
    FilteredFromNext(events, f, start, end);
  }

  /** Where the last event of a page stands. */
  function LastRead(events: seq<Event>, f: Filter, after: Option<Id>, limit: int): int {
    Behind(events, f, Resume(events, after), |Page(events, f, after, limit)|) - 1
  }

  /** What lies behind a cursor. */
  function ReadSoFar(events: seq<Event>, f: Filter, cursor: Option<Id>): seq<Event> {
    Filtered(events[..Resume(events, cursor)], f)
  }

  lemma LastReadMeans(events: seq<Event>, f: Filter, after: Option<Id>, limit: int)
    requires Page(events, f, after, limit) != []
    ensures var page, k := Page(events, f, after, limit), LastRead(events, f, after, limit);
            && 0 <= k < |events| && events[k] == page[|page| - 1] && Matches(events[k], f)
            && Filtered(events[..k + 1], f) == ReadSoFar(events, f, after) + page
  {
    var start := Resume(events, after);
    var page, k := Page(events, f, after, limit), LastRead(events, f, after, limit);
    BehindEndsAtMatch(events, f, start, |page|);
    FilteredPrefix(events, f, start, k + 1);
  }

  lemma ShorterPrefixReadsLess(events: seq<Event>, f: Filter, m: nat, k: nat)
    requires m <= k < |events| && Matches(events[k], f)
    ensures |Filtered(events[..m], f)| < |Filtered(events[..k + 1], f)|
  {
    FilteredPrefix(events, f, m, k);
    assert events[..k + 1][..k] == events[..k];
  }

  /** A page advances exactly when the id of its last event is usable: then what lies behind the next cursor is
      what lay behind the last one and the page; otherwise it is less, and events will be read again. */
  lemma PageAdvancesIff(events: seq<Event>, f: Filter, after: Option<Id>, limit: int)
    requires Page(events, f, after, limit) != []
    ensures var page := Page(events, f, after, limit);
            var next := NextCursor(page, after);
            && (ReadSoFar(events, f, next) == ReadSoFar(events, f, after) + page
                <==> Usable(events, LastRead(events, f, after, limit)))
            && (!Usable(events, LastRead(events, f, after, limit)) ==>
                  |ReadSoFar(events, f, next)| < |ReadSoFar(events, f, after)| + |page|)
  {
    var k := LastRead(events, f, after, limit);
    LastReadMeans(events, f, after, limit);
    ResumeIff(events, k);
    if !Usable(events, k) {
      ShorterPrefixReadsLess(events, f, Resume(events, Some(events[k].id)), k);
    }
  }

  // ---- a session ----

  /** A reader's session: before each page, any events may have been appended. */
  datatype Session = Session(
    logs: seq<seq<Event>>, filter: Filter, limits: seq<int>, cursors: seq<Option<Id>>, pages: seq<seq<Event>>)

  ghost predicate Turn(v: Session, k: nat)
    requires k < |v.pages| == |v.logs| == |v.limits| && |v.cursors| == |v.pages| + 1
  {
    && v.pages[k] == Page(v.logs[k], v.filter, v.cursors[k], v.limits[k])
    && v.cursors[k + 1] == NextCursor(v.pages[k], v.cursors[k])
  }

  ghost predicate Follows(v: Session) {
    && |v.logs| == |v.limits| == |v.pages| && |v.cursors| == |v.pages| + 1 && v.cursors[0].None?
    && (forall k :: 0 < k < |v.logs| ==> v.logs[k - 1] <= v.logs[k])
    && (forall k :: 0 <= k < |v.pages| ==> Turn(v, k))
  }

  function Joined(pages: seq<seq<Event>>): seq<Event> {
    if pages == [] then [] else Joined(pages[..|pages| - 1]) + pages[|pages| - 1]
  }

  /** The page leaves a usable cursor behind, or is empty and leaves the cursor as it was. */
  ghost predicate LeavesUsable(v: Session, k: nat)
    requires k < |v.pages| == |v.logs| == |v.limits| && |v.cursors| == |v.pages| + 1
  {
    v.pages[k] != [] ==> Usable(v.logs[k], LastRead(v.logs[k], v.filter, v.cursors[k], v.limits[k]))
  }

  ghost predicate KnownCursor(events: seq<Event>, cursor: Option<Id>) {
    cursor.None? || exists k :: 0 <= k < |events| && events[k].id == cursor.value
  }

  lemma {:induction false} ResumeFromIsStable(events: seq<Event>, more: seq<Event>, id: Id, k: nat, i: nat)
    requires events <= more && i <= k < |events| && events[k].id == id
    ensures ResumeFrom(more, id, i) == ResumeFrom(events, id, i)
    decreases k - i
  {
    assert more[i] == events[i];
    if events[i].id != id {
      ResumeFromIsStable(events, more, id, k, i + 1);
    }
  }

  /** Appending moves no cursor that came from the log. */
  lemma ResumeIsStable(events: seq<Event>, more: seq<Event>, cursor: Option<Id>, f: Filter)
    requires events <= more && KnownCursor(events, cursor)
    ensures KnownCursor(more, cursor) && ReadSoFar(more, f, cursor) == ReadSoFar(events, f, cursor)
  {
    if cursor.Some? {
      var k :| 0 <= k < |events| && events[k].id == cursor.value;
      assert more[k] == events[k];
      ResumeFromIsStable(events, more, cursor.value, k, 0);
    }
    assert events[..Resume(events, cursor)] == more[..Resume(more, cursor)];
  }

  lemma TurnKeepsKnown(v: Session, k: nat)
    requires Follows(v) && k < |v.pages| && KnownCursor(v.logs[k], v.cursors[k])
    ensures KnownCursor(v.logs[k], v.cursors[k + 1])
  {
    assert Turn(v, k);
    if v.pages[k] != [] {
      LastReadMeans(v.logs[k], v.filter, v.cursors[k], v.limits[k]);
    }
  }

  /** What one turn adds: the page, if it advances, and less than the page if it does not. */
  lemma TurnAdds(v: Session, k: nat)
    requires Follows(v) && k < |v.pages|
    ensures var before, after := ReadSoFar(v.logs[k], v.filter, v.cursors[k]),
                                 ReadSoFar(v.logs[k], v.filter, v.cursors[k + 1]);
            && (LeavesUsable(v, k) ==> after == before + v.pages[k])
            && (!LeavesUsable(v, k) ==> |after| < |before| + |v.pages[k]|)
  {
    assert Turn(v, k);
    if v.pages[k] != [] {
      PageAdvancesIff(v.logs[k], v.filter, v.cursors[k], v.limits[k]);
    }
  }

  ghost predicate AllUsable(v: Session, k: nat)
    requires k <= |v.pages| == |v.logs| == |v.limits| && |v.cursors| == |v.pages| + 1
  {
    forall j :: 0 <= j < k ==> LeavesUsable(v, j)
  }

  lemma JoinedNext(pages: seq<seq<Event>>, k: nat)
    requires k < |pages|
    ensures Joined(pages[..k + 1]) == Joined(pages[..k]) + pages[k]
  {
    assert pages[..k + 1][..k] == pages[..k];
  }

  /** Before turn k the reader has exactly what lies behind its cursor if every page so far left a usable cursor;
      otherwise it has read more than that. */
  lemma {:induction false} SessionReads(v: Session, k: nat)
    requires Follows(v) && k < |v.pages|
    ensures KnownCursor(v.logs[k], v.cursors[k])
    ensures var read := ReadSoFar(v.logs[k], v.filter, v.cursors[k]);
            && (AllUsable(v, k) ==> Joined(v.pages[..k]) == read)
            && (!AllUsable(v, k) ==> |Joined(v.pages[..k])| > |read|)
  {
    if k > 0 {
      SessionReads(v, k - 1);
      SessionReadsNext(v, k - 1);
    }
  }

  lemma SessionReadsNext(v: Session, k: nat)
    requires Follows(v) && k + 1 < |v.pages| && KnownCursor(v.logs[k], v.cursors[k])
    requires var read := ReadSoFar(v.logs[k], v.filter, v.cursors[k]);
             && (AllUsable(v, k) ==> Joined(v.pages[..k]) == read)
             && (!AllUsable(v, k) ==> |Joined(v.pages[..k])| > |read|)
    ensures KnownCursor(v.logs[k + 1], v.cursors[k + 1])
    ensures var read := ReadSoFar(v.logs[k + 1], v.filter, v.cursors[k + 1]);
            && (AllUsable(v, k + 1) ==> Joined(v.pages[..k + 1]) == read)
            && (!AllUsable(v, k + 1) ==> |Joined(v.pages[..k + 1])| > |read|)
  {
    TurnKeepsKnown(v, k);
    TurnAdds(v, k);
    ResumeIsStable(v.logs[k], v.logs[k + 1], v.cursors[k + 1], v.filter);
    JoinedNext(v.pages, k);
    assert AllUsable(v, k + 1) <==> AllUsable(v, k) && LeavesUsable(v, k);
  }

  /** An empty page means that nothing matching lies ahead. */
  lemma EmptyPageIsTheEnd(events: seq<Event>, f: Filter, after: Option<Id>, limit: int)
    requires Page(events, f, after, limit) == []
    ensures ReadSoFar(events, f, after) == Filtered(events, f)
  {
    ScanSplit(events, f, 0, Resume(events, after));
    assert events[0..] == events;
  }

  /** Following cursors until an empty page yields the plain filter of the whole log, with no gap and no repeat and
      whatever is appended between pages, exactly when every page leaves a usable cursor. */
  lemma FollowingCursorsIsFilteringIff(v: Session)
    requires Follows(v) && v.pages != [] && v.pages[|v.pages| - 1] == []
    ensures Joined(v.pages) == Filtered(v.logs[|v.logs| - 1], v.filter)
            <==> AllUsable(v, |v.pages|)
  {
    var k := |v.pages| - 1;
    SessionReads(v, k);
    assert Turn(v, k);
    EmptyPageIsTheEnd(v.logs[k], v.filter, v.cursors[k], v.limits[k]);
    assert Joined(v.pages) == Joined(v.pages[..k]) + v.pages[k];
    assert LeavesUsable(v, k);
    assert AllUsable(v, k + 1) <==> AllUsable(v, k);
  }

  // ---- logs on which every cursor is usable ----

  /** Unique ids, none of them empty. */
  ghost predicate CursorIds(events: seq<Event>) {
    UniqueIds(events) && forall i :: 0 <= i < |events| ==> events[i].id != ""
  }

  lemma {:induction false} LogsGrow(logs: seq<seq<Event>>, j: nat, k: nat)
    requires j <= k < |logs| && forall i :: 0 < i < |logs| ==> logs[i - 1] <= logs[i]
    ensures logs[j] <= logs[k]
    decreases k
  {
    if j < k {
      LogsGrow(logs, j, k - 1);
    }
  }

  lemma CursorIdsLeaveUsable(v: Session, k: nat)
    requires Follows(v) && k < |v.pages| && CursorIds(v.logs[|v.logs| - 1])
    ensures LeavesUsable(v, k)
  {
    assert Turn(v, k);
    if v.pages[k] != [] {
      LogsGrow(v.logs, k, |v.logs| - 1);
      var all := v.logs[|v.logs| - 1];
      assert forall i :: 0 <= i < |v.logs[k]| ==> v.logs[k][i] == all[i];
      LastReadMeans(v.logs[k], v.filter, v.cursors[k], v.limits[k]);
    }
  }

  /** So with unique, non-empty ids following cursors agrees with filtering at any limits. */
  lemma FollowingCursorsIsFiltering(v: Session)
    requires Follows(v) && v.pages != [] && v.pages[|v.pages| - 1] == [] && CursorIds(v.logs[|v.logs| - 1])
    ensures Joined(v.pages) == Filtered(v.logs[|v.logs| - 1], v.filter)
  {
    FollowingCursorsIsFilteringIff(v);
    forall k | 0 <= k < |v.pages| ensures LeavesUsable(v, k) {
      CursorIdsLeaveUsable(v, k);
    }
  }

  lemma {:induction false} FullPagesAddUp(pages: seq<seq<Event>>)
    requires forall k :: 0 <= k < |pages| ==> pages[k] != []
    ensures |Joined(pages)| >= |pages|
  {
    if pages != [] {
      FullPagesAddUp(pages[..|pages| - 1]);
    }
  }

  lemma NothingLeft(events: seq<Event>, f: Filter, after: Option<Id>, limit: int)
    requires |ReadSoFar(events, f, after)| >= |Filtered(events, f)|
    ensures Page(events, f, after, limit) == []
  {
    ScanSplit(events, f, 0, Resume(events, after));
    assert events[0..] == events;
  }

  /** A log that stands still is read to its end: one page more than it has matching events cannot all be full. */
  lemma StillLogIsFinished(v: Session)
    requires Follows(v) && v.pages != [] && CursorIds(v.logs[|v.logs| - 1])
    requires (forall k :: 0 <= k < |v.logs| ==> v.logs[k] == v.logs[0]) && |v.pages| > |Filtered(v.logs[0], v.filter)|
    ensures exists k :: 0 <= k < |v.pages| && v.pages[k] == []
  {
    var k := |v.pages| - 1;
    forall j | 0 <= j < k ensures LeavesUsable(v, j) {
      CursorIdsLeaveUsable(v, j);
    }
    SessionReads(v, k);
    if forall i :: 0 <= i < k ==> v.pages[i] != [] {
      FullPagesAddUp(v.pages[..k]);
      NothingLeft(v.logs[0], v.filter, v.cursors[k], v.limits[k]);
      assert Turn(v, k);
      assert v.pages[k] == [];
    }
  }

  // ---- sessions that go astray ----

  /** Two events that share an id, read one at a time from the start. */
  function SharedIdSession(): Session {
    var log := [Event("e", "p", None, ""), Event("e", "q", None, "")];
    Session([log, log, log], Filter(None, None), [1, 1, 1], [None, Some("e"), Some("e"), Some("e")],
            [[log[0]], [log[1]], [log[1]]])
  }

  /** One event with the empty id, read twice from the start. */
  function EmptyIdSession(): Session {
    var log := [Event("", "p", None, "")];
    Session([log, log], Filter(None, None), [1, 1], [None, Some(""), Some("")], [log, log])
  }

  lemma PageOfOne(events: seq<Event>, f: Filter, after: Option<Id>)
    requires Resume(events, after) < |events| && Matches(events[Resume(events, after)], f)
    ensures Page(events, f, after, 1) == [events[Resume(events, after)]]
  {
    RestFromNext(events, f, Resume(events, after));
  }

  /** The second page comes again, and would for ever: the cursor does not move. */
  lemma SharedIdGoesAstray()
    ensures var v := SharedIdSession();
            Follows(v) && v.pages[2] == v.pages[1] && v.cursors[3] == v.cursors[2] && !LeavesUsable(v, 1)
  {
    var v := SharedIdSession();
    var log := v.logs[0];
    assert Resume(log, Some("e")) == 1 && Resume(log, None) == 0;
    PageOfOne(log, v.filter, None);
    PageOfOne(log, v.filter, Some("e"));
    assert Turn(v, 0) && Turn(v, 1) && Turn(v, 2);
    LastReadMeans(log, v.filter, Some("e"), 1);
    assert log[0].id == log[1].id && log[0] != log[1];
  }

  /** The cursor is no cursor, and the reader starts over although the id is unique. */
  lemma EmptyIdGoesAstray()
    ensures var v := EmptyIdSession();
            Follows(v) && UniqueIds(v.logs[0]) && v.pages[1] == v.pages[0] && !LeavesUsable(v, 0)
  {
    var v := EmptyIdSession();
    var log := v.logs[0];
    assert Resume(log, Some("")) == 0 && Resume(log, None) == 0;
    PageOfOne(log, v.filter, None);
    PageOfOne(log, v.filter, Some(""));
    assert Turn(v, 0) && Turn(v, 1);
    LastReadMeans(log, v.filter, None, 1);
  }
}
