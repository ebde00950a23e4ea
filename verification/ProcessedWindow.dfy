/** The window of processed envelope ids (`RoomRecoveryState::remember_processed`).

    It evicts the id that was recorded first; seeing an id again does not refresh
    its place.  What the window is, over any run, is said through the log of every
    id it ever recorded. */
module ProcessedWindow {
  import opened Basics

  const MAX_PROCESSED := 1_024

  function Remember(window: seq<string>, id: string): seq<string> {
    if id in window then window
    else
      var pushed := window + [id];
      if |pushed| > MAX_PROCESSED then pushed[1..] else pushed
  }

  function RememberAll(window: seq<string>, ids: seq<string>): seq<string> {
    if ids == [] then window
    else Remember(RememberAll(window, ids[..|ids| - 1]), ids[|ids| - 1])
  }

  /** The log grows by an id exactly when the window does not hold it. */
  function Record(log: seq<string>, id: string): seq<string> {
    if id in Last(MAX_PROCESSED, log) then log else log + [id]
  }

  function RecordAll(log: seq<string>, ids: seq<string>): seq<string> {
    if ids == [] then log
    else Record(RecordAll(log, ids[..|ids| - 1]), ids[|ids| - 1])
  }

  /** Equal entries of the log have at least 1,024 entries between them, all different. */
  predicate Spaced(log: seq<string>) {
    forall i, j :: 0 <= i < j < |log| && j - i <= 1_024 ==> log[i] != log[j]
  }

  lemma NewIdIsLast(log: seq<string>, id: string)
    requires id !in Last(MAX_PROCESSED, log)
    ensures Remember(Last(MAX_PROCESSED, log), id) == Last(MAX_PROCESSED, log + [id])
  {
  }

  lemma NewIdIsSpaced(log: seq<string>, id: string)
    requires Spaced(log) && id !in Last(MAX_PROCESSED, log)
    ensures Spaced(log + [id])
  {
    hide Last;
    forall i | 0 <= i < |log| && |log| - i <= MAX_PROCESSED ensures log[i] != id {
      LastHolds(MAX_PROCESSED, log, i);
    }
  }

  lemma RememberRefinesRecord(log: seq<string>, id: string)
    requires Spaced(log)
    ensures Spaced(Record(log, id))
    ensures Remember(Last(MAX_PROCESSED, log), id) == Last(MAX_PROCESSED, Record(log, id))
    ensures log <= Record(log, id)
  {
    hide Last, Spaced;
    if id !in Last(MAX_PROCESSED, log) {
      NewIdIsLast(log, id);
      NewIdIsSpaced(log, id);
    }
  }

  lemma RememberedIsHeld(window: seq<string>, id: string)
    ensures id in Remember(window, id)
  {
    var after := Remember(window, id);
    assert id in window || after[|after| - 1] == id;
  }

  /** Over every run the window is the last 1,024 entries of its log. */
  lemma {:induction false} WindowIsEndOfLog(ids: seq<string>)
    ensures Spaced(RecordAll([], ids))
    ensures RememberAll([], ids) == Last(1_024, RecordAll([], ids))
  {
    if ids != [] {
      WindowIsEndOfLog(ids[..|ids| - 1]);
      RememberRefinesRecord(RecordAll([], ids[..|ids| - 1]), ids[|ids| - 1]);
    }
  }

  /** An id that the log holds and the window does not has been pushed out by 1,024
      pairwise different other ids. */
  lemma ForgottenIdWasPushedOut(log: seq<string>, at: nat)
    requires Spaced(log) && at < |log|
    requires log[at] !in Last(1_024, log)
    ensures at + 1_024 < |log|
    ensures Distinct(log[at..at + 1_025])
  {
    if at + MAX_PROCESSED >= |log| {
      LastHolds(MAX_PROCESSED, log, at);
    }
  }

  // ---- Replaying a backlog ----

  lemma {:induction false} KnownIdsChangeNothing(window: seq<string>, ids: seq<string>)
    requires forall i :: 0 <= i < |ids| ==> ids[i] in window
    ensures RememberAll(window, ids) == window
  {
    if ids != [] {
      KnownIdsChangeNothing(window, ids[..|ids| - 1]);
    }
  }

  /** Newer ids push out nothing until the window is full, then at most one each. */
  lemma {:induction false} NewerIdsPushOut(window: seq<string>, newer: seq<string>) returns (dropped: nat)
    requires |window| <= MAX_PROCESSED
    ensures dropped <= |window| && window[dropped..] <= RememberAll(window, newer)
    ensures |RememberAll(window, newer)| <= MAX_PROCESSED
    ensures |RememberAll(window, newer)| + dropped <= |window| + |newer|
    ensures dropped == 0 || dropped + MAX_PROCESSED <= |window| + |newer|
  {
    dropped := 0;
    if newer != [] {
      var front := newer[..|newer| - 1];
      dropped := NewerIdsPushOut(window, front);
      var mid, after := RememberAll(window, front), RememberAll(window, newer);
      if !(window[dropped..] <= after) && dropped < |window| {
        assert window[dropped + 1..] == window[dropped..][1..];
        dropped := dropped + 1;
      }
    }
  }

  /** A backlog of the 1,000 most recent ids may be delivered again at any reconnect,
      any number of times, even after up to 24 further ids: nothing changes. */
  lemma BacklogReplayChangesNothing(log: seq<string>, newer: seq<string>, backlog: seq<string>)
    requires |newer| <= 24
    requires forall i :: 0 <= i < |backlog| ==> backlog[i] in Last(1_000, log)
    ensures var window := RememberAll(Last(MAX_PROCESSED, log), newer);
            RememberAll(window, backlog) == window
  {
    var start := Last(MAX_PROCESSED, log);
    var dropped := NewerIdsPushOut(start, newer);
    var window := RememberAll(start, newer);
    forall i | 0 <= i < |backlog| ensures backlog[i] in window {
      RecentIdSurvives(log, dropped, backlog[i]);
      assert backlog[i] in start[dropped..];
    }
    KnownIdsChangeNothing(window, backlog);
  }

  lemma RecentIdSurvives(log: seq<string>, dropped: nat, id: string)
    requires id in Last(1_000, log)
    requires dropped == 0 || dropped + MAX_PROCESSED <= |Last(MAX_PROCESSED, log)| + 24
    ensures id in Last(MAX_PROCESSED, log)[dropped..]
  {
    var start, recent := Last(MAX_PROCESSED, log), Last(1_000, log);
    var k :| 0 <= k < |recent| && recent[k] == id;
    var place := k + (|start| - |recent|);
    assert start[place] == id;
    assert start[dropped..][place - dropped] == id;
  }

  // ---- First-seen order ----

  /** The different ids of a run, in the order of their first appearance. */
  function FirstSeen(ids: seq<string>): seq<string> {
    if ids == [] then []
    else
      var front, id := ids[..|ids| - 1], ids[|ids| - 1];
      if id in front then FirstSeen(front) else FirstSeen(front) + [id]
  }

  lemma {:induction false} FirstSeenKeepsIds(ids: seq<string>)
    ensures forall id :: id in FirstSeen(ids) <==> id in ids
  {
    if ids != [] {
      var front := ids[..|ids| - 1];
      FirstSeenKeepsIds(front);
      assert ids == front + [ids[|ids| - 1]];
    }
  }

  predicate InFirstSeenOrder(ids: seq<string>) {
    RememberAll([], ids) == Last(MAX_PROCESSED, FirstSeen(ids))
  }

  /** The window holds the last ids in first-seen order until an id returns that was
      already pushed out: that step, and no other, breaks the order. */
  lemma FirstSeenOrderBreaksIff(ids: seq<string>, id: string)
    requires InFirstSeenOrder(ids)
    ensures InFirstSeenOrder(ids + [id]) <==> !(id in ids && id !in RememberAll([], ids))
  {
    var all := ids + [id];
    assert all[..|all| - 1] == ids;
    var seen, window := FirstSeen(ids), RememberAll([], ids);
    FirstSeenKeepsIds(ids);
    WindowIsEndOfLog(ids);
    if id in ids && id !in window {
      var after := Remember(window, id);
      assert FirstSeen(all) == seen && after[|after| - 1] == id;
    } else if id in window {
      assert id in seen;
    }
  }

  lemma LastIsPart(ids: seq<string>)
    ensures forall x :: x in Last(MAX_PROCESSED, ids) ==> x in ids
  {
  }

  lemma {:induction false} DistinctIdsAreOrdered(ids: seq<string>)
    requires Distinct(ids)
    ensures FirstSeen(ids) == ids && RememberAll([], ids) == Last(MAX_PROCESSED, ids)
  {
    hide Last, Remember;
    if ids != [] {
      var front, id := ids[..|ids| - 1], ids[|ids| - 1];
      DistinctIdsAreOrdered(front);
      assert ids == front + [id] && id !in front;
      LastIsPart(front);
      NewIdIsLast(front, id);
    }
  }

  /** The shortest runs that break it: 1,025 different ids, and then the first of them again. */
  lemma FirstSeenOrderBreaks(ids: seq<string>)
    requires Distinct(ids) && |ids| == 1_025
    ensures InFirstSeenOrder(ids) && !InFirstSeenOrder(ids + [ids[0]])
  {
    DistinctIdsAreOrdered(ids);
    var window := Last(MAX_PROCESSED, ids);
    forall i | 0 <= i < |window| ensures window[i] != ids[0] {
      assert window[i] == ids[i + 1];
    }
    FirstSeenOrderBreaksIff(ids, ids[0]);
  }
}
