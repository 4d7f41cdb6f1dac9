/** Which earlier runs a purchase looks back on (backend/oneguard/engine/ledger.py:227-240), over the rows
    of the runs table. */
module Sessions {
  import opened Seqs
  import opened Types
  import opened Ledger

  /** The run id is the table's key. */
  ghost predicate DistinctRuns(runs: seq<RunRow>) {
    forall i, j :: 0 <= i < j < |runs| ==> runs[i].runId != runs[j].runId
  }

  predicate IsBothLive(x: RunRow, y: RunRow) { x.live && y.live && x.mandateId == y.mandateId }

  /** Both are live runs under one mandate, and the first started before the second. */
  ghost predicate StartedEarlier(runs: seq<RunRow>, first: string, second: string) {
    exists x, y :: x in runs && y in runs && x.runId == first && y.runId == second && IsBothLive(x, y) && x.startedAt < y.startedAt
  }

  lemma {:induction false} FoundIs(runs: seq<RunRow>, runId: string)
    ensures FindRun(runs, runId).None? ==> forall r :: r in runs ==> r.runId != runId
    ensures FindRun(runs, runId).Some? ==> FindRun(runs, runId).value in runs && FindRun(runs, runId).value.runId == runId
  {
    if runs != [] {
      assert runs == runs[..|runs| - 1] + [runs[|runs| - 1]];
      FoundIs(runs[..|runs| - 1], runId);
    }
  }

  ghost predicate SortedByStart(s: seq<RunRow>) { forall i, j :: 0 <= i < j < |s| ==> s[i].startedAt <= s[j].startedAt }

  lemma {:induction false} InsertedByStart(s: seq<RunRow>, r: RunRow)
    requires SortedByStart(s)
    ensures SortedByStart(InsertByStart(s, r)) && forall x :: x in InsertByStart(s, r) <==> x in s || x == r
  {
    if s != [] && s[|s| - 1].startedAt > r.startedAt {
      var init, last := s[..|s| - 1], s[|s| - 1];
      InsertedByStart(init, r);
      assert s == init + [last];
      forall x | x in InsertByStart(init, r) ensures x.startedAt <= last.startedAt { }
    }
  }

  lemma {:induction false} StartOrder(s: seq<RunRow>)
    ensures SortedByStart(SortByStart(s)) && forall x :: x in SortByStart(s) <==> x in s
  {
    if s != [] {
      var init, last := s[..|s| - 1], s[|s| - 1];
      assert s == init + [last];
      StartOrder(init);
      InsertedByStart(SortByStart(init), last);
    }
  }

  /** The rows behind the list, in its order. */
  function EarlierRows(runs: seq<RunRow>, own: RunRow): seq<RunRow> {
    SortByStart(Filter(runs, (r: RunRow) => r.live && r.mandateId == own.mandateId && r.startedAt < own.startedAt && r.runId != own.runId))
  }

  lemma EarlierAre(runs: seq<RunRow>, runId: string)
    ensures
      var own := FindRun(runs, runId);
      EarlierLiveRuns(runs, runId) ==
        if own.None? || !own.value.live then [] else Map(EarlierRows(runs, own.value), (r: RunRow) => r.runId)
  {
    hide SortByStart, Filter;
    FoundIs(runs, runId);
  }

  /** A purchase looks back on exactly the live runs of its run's mandate that started before it. */
  lemma EarlierIff(runs: seq<RunRow>, runId: string, id: string)
    requires DistinctRuns(runs)
    ensures id in EarlierLiveRuns(runs, runId) <==> StartedEarlier(runs, id, runId)
  {
    hide SortByStart, EarlierLiveRuns;
    EarlierAre(runs, runId);
    FoundIs(runs, runId);
    var own := FindRun(runs, runId);
    if own.Some? {
      var chosen := Filter(runs, (r: RunRow) => r.live && r.mandateId == own.value.mandateId && r.startedAt < own.value.startedAt && r.runId != runId);
      StartOrder(chosen);
      var rows := EarlierRows(runs, own.value);
      assert forall x :: x in rows <==> x in chosen;
      if own.value.live { MapRuns(rows, id); }
      forall y | y in runs && y.runId == runId ensures y == own.value { SameRun(runs, y, own.value); }
    }
  }

  lemma SameRun(runs: seq<RunRow>, x: RunRow, y: RunRow)
    requires DistinctRuns(runs) && x in runs && y in runs && x.runId == y.runId
    ensures x == y
  {
  }

  lemma MapRuns(rows: seq<RunRow>, id: string)
    ensures id in Map(rows, (r: RunRow) => r.runId) <==> exists x :: x in rows && x.runId == id
  {
    var ids := Map(rows, (r: RunRow) => r.runId);
    if x :| x in rows && x.runId == id {
      var i :| 0 <= i < |rows| && rows[i] == x;
      assert ids[i] == id;
    }
    if id in ids {
      var i :| 0 <= i < |ids| && ids[i] == id;
      assert rows[i] in rows;
    }
  }

  /** The first run started no later than the second. */
  ghost predicate NoLater(runs: seq<RunRow>, first: string, second: string) {
    exists x, y :: x in runs && y in runs && x.runId == first && y.runId == second && x.startedAt <= y.startedAt
  }

  /** The list is in the order the runs started. */
  lemma EarlierInOrder(runs: seq<RunRow>, runId: string)
    ensures
      var earlier := EarlierLiveRuns(runs, runId);
      forall i, j :: 0 <= i < j < |earlier| ==> NoLater(runs, earlier[i], earlier[j])
  {
    hide SortByStart, EarlierLiveRuns;
    EarlierAre(runs, runId);
    var own := FindRun(runs, runId);
    if own.Some? && own.value.live {
      var chosen := Filter(runs, (r: RunRow) => r.live && r.mandateId == own.value.mandateId && r.startedAt < own.value.startedAt && r.runId != own.value.runId);
      StartOrder(chosen);
      var rows, earlier := EarlierRows(runs, own.value), EarlierLiveRuns(runs, runId);
      forall i, j | 0 <= i < j < |earlier| ensures NoLater(runs, earlier[i], earlier[j]) {
        assert rows[i] in rows && rows[j] in rows && rows[i] in chosen && rows[j] in chosen;
      }
    }
  }

  ghost predicate IdsApart(s: seq<RunRow>) { forall i, j :: 0 <= i < j < |s| ==> s[i].runId != s[j].runId }

  lemma {:induction false} InsertApart(s: seq<RunRow>, r: RunRow)
    requires IdsApart(s) && forall x :: x in s ==> x.runId != r.runId
    ensures IdsApart(InsertByStart(s, r)) && forall x :: x in InsertByStart(s, r) <==> x in s || x == r
  {
    if s != [] && s[|s| - 1].startedAt > r.startedAt {
      var init, last := s[..|s| - 1], s[|s| - 1];
      assert s == init + [last];
      InsertApart(init, r);
      forall x | x in InsertByStart(init, r) ensures x.runId != last.runId { }
    }
  }

  lemma {:induction false} SortApart(s: seq<RunRow>)
    requires IdsApart(s)
    ensures IdsApart(SortByStart(s)) && forall x :: x in SortByStart(s) <==> x in s
  {
    if s != [] {
      var init, last := s[..|s| - 1], s[|s| - 1];
      assert s == init + [last];
      SortApart(init);
      InsertApart(SortByStart(init), last);
    }
  }

  lemma {:induction false} FilterApart(s: seq<RunRow>, p: RunRow -> bool)
    requires IdsApart(s)
    ensures IdsApart(Filter(s, p))
  {
    if s != [] {
      var init, last := s[..|s| - 1], s[|s| - 1];
      FilterApart(init, p);
      forall x | x in Filter(init, p) ensures x.runId != last.runId { assert x in init; }
    }
  }

  /** No run is looked back on twice, and none is the purchase's own. */
  lemma EarlierOnce(runs: seq<RunRow>, runId: string)
    requires DistinctRuns(runs)
    ensures NoDuplicates(EarlierLiveRuns(runs, runId)) && runId !in EarlierLiveRuns(runs, runId)
  {
    hide SortByStart, EarlierLiveRuns, Filter;
    EarlierAre(runs, runId);
    FoundIs(runs, runId);
    var own := FindRun(runs, runId);
    if own.Some? && own.value.live {
      var keep := (r: RunRow) => r.live && r.mandateId == own.value.mandateId && r.startedAt < own.value.startedAt && r.runId != runId;
      FilterApart(runs, keep);
      SortApart(Filter(runs, keep));
      var rows := EarlierRows(runs, own.value);
      assert rows == SortByStart(Filter(runs, keep));
      forall i | 0 <= i < |rows| ensures rows[i].runId != runId { assert rows[i] in rows; }
    }
  }

  /** The run itself, or an earlier live one of its mandate. */
  ghost predicate SeenFrom(runs: seq<RunRow>, other: string, own: string) { other == own || StartedEarlier(runs, other, own) }
}
