/** The event log: append with deduplication, and reading on from a cursor. */
module Events {
  import opened Common

  /** An empty dedupe key counts as none. */
  datatype Event = Event(id: Id, project: Id, mission: Option<Id>, dedupeKey: string)

  datatype Filter = Filter(project: Option<Id>, mission: Option<Id>)

  datatype Log = Log(events: seq<Event>, byId: map<Id, Event>, dedupe: map<string, Id>, sequence: int)

  predicate Matches(ev: Event, f: Filter) {
    (f.project.Some? ==> ev.project == f.project.value) && (f.mission.Some? ==> ev.mission == f.mission)
  }

  function Filtered(events: seq<Event>, f: Filter): seq<Event> {
    if events == [] then []
    else
      var last := events[|events| - 1];
      Filtered(events[..|events| - 1], f) + if Matches(last, f) then [last] else []
  }

  // ---- append ----

  /** The log after the call, and the id of the event it returns. */
  function Appended(log: Log, ev: Event): (Log, Id) {
    if ev.dedupeKey != "" && ev.dedupeKey in log.dedupe then (log, log.dedupe[ev.dedupeKey])
    else
      (Log(log.events + [ev], log.byId[ev.id := ev],
           if ev.dedupeKey != "" then log.dedupe[ev.dedupeKey := ev.id] else log.dedupe, log.sequence + 1),
       ev.id)
  }

  /** The last event under an id is the one the id index holds. */
  ghost predicate IndexedAt(log: Log, id: Id) {
    && (id in log.byId <==> exists i :: 0 <= i < |log.events| && log.events[i].id == id)
    && (id in log.byId ==>
          exists i :: 0 <= i < |log.events| && log.events[i] == log.byId[id] && log.events[i].id == id
                      && forall j :: i < j < |log.events| ==> log.events[j].id != id)
  }

  /** A key is in the dedupe index when some event carries it; the index names that event. */
  ghost predicate DedupedAt(log: Log, key: string) {
    && (key in log.dedupe ==> key != "")
    && (key in log.dedupe ==>
          exists i :: 0 <= i < |log.events| && log.events[i].dedupeKey == key && log.events[i].id == log.dedupe[key])
    && (key != "" && key !in log.dedupe ==> forall i :: 0 <= i < |log.events| ==> log.events[i].dedupeKey != key)
  }

  ghost predicate OncePerKey(events: seq<Event>) {
    forall i, j :: 0 <= i < j < |events| && events[i].dedupeKey != "" ==> events[i].dedupeKey != events[j].dedupeKey
  }

  ghost predicate Consistent(log: Log) {
    && (forall id :: IndexedAt(log, id)) && (forall key :: DedupedAt(log, key))
    && OncePerKey(log.events) && log.sequence == |log.events|
  }

  lemma AppendKeepsIndexed(log: Log, ev: Event, id: Id)
    requires IndexedAt(log, id) && !(ev.dedupeKey != "" && ev.dedupeKey in log.dedupe)
    ensures IndexedAt(Appended(log, ev).0, id)
  {
    var after := Appended(log, ev).0;
    assert after.events[|log.events|] == ev;
    if id == ev.id {
      assert after.byId[id] == ev;
    } else if id in log.byId {
      var i :| 0 <= i < |log.events| && log.events[i] == log.byId[id] && log.events[i].id == id
               && forall j :: i < j < |log.events| ==> log.events[j].id != id;
      assert after.events[i] == log.events[i];
    }
  }

  lemma AppendKeepsDeduped(log: Log, ev: Event, key: string)
    requires DedupedAt(log, key) && !(ev.dedupeKey != "" && ev.dedupeKey in log.dedupe)
    ensures DedupedAt(Appended(log, ev).0, key)
  {
    var after := Appended(log, ev).0;
    assert after.events[|log.events|] == ev;
    if key in log.dedupe {
      var i :| 0 <= i < |log.events| && log.events[i].dedupeKey == key && log.events[i].id == log.dedupe[key];
      assert after.events[i] == log.events[i];
    }
  }

  /** Every append keeps both indexes in agreement with the log and the log free of duplicate keys. */
  lemma AppendKeepsConsistent(log: Log, ev: Event)
    requires Consistent(log)
    ensures Consistent(Appended(log, ev).0)
  {
    if !(ev.dedupeKey != "" && ev.dedupeKey in log.dedupe) {
      var after := Appended(log, ev).0;
      forall id ensures IndexedAt(after, id) {
        AppendKeepsIndexed(log, ev, id);
      }
      forall key ensures DedupedAt(after, key) {
        AppendKeepsDeduped(log, ev, key);
      }
      assert DedupedAt(log, ev.dedupeKey);
    }
  }

  /** An event is appended exactly when it has no dedupe key or no event of the log carries that key. */
  lemma AppendedIff(log: Log, ev: Event)
    requires Consistent(log)
    ensures var (after, id) := Appended(log, ev);
            if ev.dedupeKey != "" && exists i :: 0 <= i < |log.events| && log.events[i].dedupeKey == ev.dedupeKey
            then after == log
            else after.events == log.events + [ev] && id == ev.id && id in after.byId && after.byId[id] == ev
  {
    assert DedupedAt(log, ev.dedupeKey);
  }

  ghost predicate UniqueIds(events: seq<Event>) {
    forall i, j :: 0 <= i < j < |events| ==> events[i].id != events[j].id
  }

  /** A repeated append changes nothing; it gives back the event that carries the key exactly when
      no later event has reused that event's id. */
  lemma RepeatReturnsOriginalIff(log: Log, ev: Event, i: nat)
    requires Consistent(log) && i < |log.events| && log.events[i].dedupeKey == ev.dedupeKey != ""
    ensures var (after, id) := Appended(log, ev);
            && after == log && id == log.events[i].id && id in log.byId
            && (log.byId[id] == log.events[i] <==> forall j :: i < j < |log.events| ==> log.events[j].id != id)
  {
    assert DedupedAt(log, ev.dedupeKey) && IndexedAt(log, log.events[i].id);
  }

  /** With one id used twice it gives back another event: the id index holds the later one. */
  lemma SharedIdReturnsAnother()
    ensures exists log: Log, ev: Event ::
              && Consistent(log) && ev.dedupeKey in log.dedupe && log.dedupe[ev.dedupeKey] in log.byId
              && log.byId[log.dedupe[ev.dedupeKey]].dedupeKey != ev.dedupeKey
  {
    var a, b := Event("e", "p", None, "k"), Event("e", "p", None, "m");
    var log0 := Log([], map[], map[], 0);
    assert Consistent(log0);
    AppendKeepsConsistent(log0, a);
    var log1 := Appended(log0, a).0;
    AppendKeepsConsistent(log1, b);
    var log := Appended(log1, b).0;
    assert log.byId["e"] == b && log.dedupe["k"] == "e";
    assert log.byId[log.dedupe[a.dedupeKey]].dedupeKey != a.dedupeKey;
  }

  // ---- reading on ----

  /** Where reading resumes: behind the first event with the cursor's id; without one, at the start. */
  function Resume(events: seq<Event>, after: Option<Id>): (start: nat)
    ensures start <= |events|
  {
    if after.None? || after.value == "" then 0 else ResumeFrom(events, after.value, 0)
  }

  function ResumeFrom(events: seq<Event>, id: Id, i: nat): (start: nat)
    requires i <= |events|
    ensures start <= |events|
    decreases |events| - i
  {
    if i == |events| then 0 else if events[i].id == id then i + 1 else ResumeFrom(events, id, i + 1)
  }

  /** A page is the next matching events, as many as the limit and at least one if there is one. */
  function Page(events: seq<Event>, f: Filter, after: Option<Id>, limit: int): seq<Event> {
    FirstFew(Filtered(events[Resume(events, after)..], f), limit)
  }

  function FirstFew(events: seq<Event>, limit: int): seq<Event> {
    events[..Min(Max(1, limit), |events|)]
  }

  function NextCursor(page: seq<Event>, after: Option<Id>): Option<Id> {
    if page == [] then after else Some(page[|page| - 1].id)
  }

  lemma {:induction false} FilteredAppend(a: seq<Event>, b: seq<Event>, f: Filter)
    ensures Filtered(a + b, f) == Filtered(a, f) + Filtered(b, f)
  {
    if b == [] {
      assert a + b == a;
    } else {
      assert (a + b)[..|a + b| - 1] == a + b[..|b| - 1];
      FilteredAppend(a, b[..|b| - 1], f);
    }
  }

  lemma ScanNext(events: seq<Event>, f: Filter, start: nat, i: nat)
    requires start <= i < |events|
    ensures Filtered(events[start..i + 1], f)
            == Filtered(events[start..i], f) + if Matches(events[i], f) then [events[i]] else []
  {
    assert events[start..i + 1][..i - start] == events[start..i];
  }

  lemma ScanSplit(events: seq<Event>, f: Filter, start: nat, i: nat)
    requires start <= i <= |events|
    ensures Filtered(events[start..], f) == Filtered(events[start..i], f) + Filtered(events[i..], f)
  {
    assert events[start..] == events[start..i] + events[i..];
    FilteredAppend(events[start..i], events[i..], f);
  }

  lemma FullPage(events: seq<Event>, f: Filter, start: nat, i: nat, limit: int)
    requires start <= i <= |events| && |Filtered(events[start..i], f)| == Max(1, limit)
    ensures Filtered(events[start..i], f) == FirstFew(Filtered(events[start..], f), limit)
  {
    ScanSplit(events, f, start, i);
  }

  class EventLog {
    var events: seq<Event>
    var byId: map<Id, Event>
    var dedupe: map<string, Id>
    var sequence: int

    ghost function Contents(): Log
      reads this
    {
      Log(events, byId, dedupe, sequence)
    }

    constructor ()
      ensures Contents() == Log([], map[], map[], 0) && Consistent(Contents())
    {
      events, byId, dedupe, sequence := [], map[], map[], 0;
    }

    method Append(ev: Event) returns (kept: Event)
      requires Consistent(Contents())
      modifies this
      ensures Contents() == Appended(old(Contents()), ev).0 && Consistent(Contents())
      ensures Appended(old(Contents()), ev).1 in byId && kept == byId[Appended(old(Contents()), ev).1]
    {
      AppendKeepsConsistent(Contents(), ev);
      if ev.dedupeKey != "" {
        if ev.dedupeKey in dedupe {
          assert DedupedAt(Contents(), ev.dedupeKey) && IndexedAt(Contents(), dedupe[ev.dedupeKey]);
          return byId[dedupe[ev.dedupeKey]];
        }
      }
      sequence := sequence + 1;
      events := events + [ev];
      byId := byId[ev.id := ev];
      if ev.dedupeKey != "" {
        dedupe := dedupe[ev.dedupeKey := ev.id];
      }
      return ev;
    }

    method FindStart(after: Option<Id>) returns (start: nat)
      ensures start == Resume(events, after)
    {
      if after.None? || after.value == "" {
        return 0;
      }
      var i := 0;
      while i < |events|
        invariant 0 <= i <= |events|
        invariant ResumeFrom(events, after.value, 0) == ResumeFrom(events, after.value, i)
      {
        if events[i].id == after.value {
          return i + 1;
        }
        i := i + 1;
      }
      return 0;
    }

    method Collect(f: Filter, start: nat, limit: int) returns (page: seq<Event>)
      requires start <= |events|
      ensures page == FirstFew(Filtered(events[start..], f), limit)
    {
      page := [];
      var i := start;
      while i < |events|
        invariant start <= i <= |events|
        invariant page == Filtered(events[start..i], f) && (page == [] || |page| < limit)
      {
        ScanNext(events, f, start, i);
        if Matches(events[i], f) {
          page := page + [events[i]];
          if |page| >= limit {
            FullPage(events, f, start, i + 1, limit);
            return;
          }
        }
        i := i + 1;
      }
      assert events[start..i] == events[start..];
    }

    method ListAfter(f: Filter, after: Option<Id>, limit: int) returns (page: seq<Event>, cursor: Option<Id>)
      ensures page == Page(events, f, after, limit) && cursor == NextCursor(page, after)
    {
      var start := FindStart(after);
      page := Collect(f, start, limit);
      cursor := if page != [] then Some(page[|page| - 1].id) else after;
    }
  }
}
