/** One-item mandates over whole runs (A8): an instruction that asks for one item buys it
    automatically at most once, in its run and across the mandate's live runs. */
module OneItem {
  import opened Seqs
  import opened Types
  import opened Ledger
  import opened Views
  import opened PolicyRules
  import opened Warnings
  import opened Protections
  import opened Ladder
  import opened Pipeline
  import opened Approvals
  import opened Runs
  import opened Sessions

  /** q's run is p's, or an earlier live run of the same mandate. */
  predicate SameMandateRun(runs: seq<RunRow>, q: Entry, p: Entry) {
    q.mandateId == p.mandateId && (q.runId == p.runId || q.runId in EarlierLiveRuns(runs, p.runId))
  }

  // --- What the view shows --------------------------------------------------------------

  lemma FulfilmentShown(decisions: seq<Entry>, requested: map<string, string>, e: Entry)
    requires e in decisions && e.id in requested && IsFinalApproval(e)
    ensures exists f :: f in Fulfilments(decisions, requested) && f.id == e.id && f.mandateId == e.mandateId
  {
    hide SortByTs;
    var bought := Filter(SortByTs(decisions), (x: Entry) => x.id in requested && IsFinalApproval(x));
    assert e in bought;
    var i :| 0 <= i < |bought| && bought[i] == e;
    assert Fulfilments(decisions, requested)[i].id == e.id;
  }

  lemma ViewFulfilments(s: Store, h: History, q: Query)
    ensures StoreView(s, h, q).fulfilments
         == Some(Fulfilments(EarlierDecisions(s, q.runId) + SortByTs(RunBefore(s.rows, q)), s.requested))
  {
    hide Filter, SortByTs, InWindow, CountApprovals, LastPrices, KeysOf, Fulfilments, PriorsOf, EarlierDecisions,
      WatchedDecisions, WatchOn, RunBefore, NamesOf, OtherCards, LargestOf, DevicesOf, CountriesOf, Flagged;
  }

  /** A stored purchase of the item, under the mandate, in this run or an earlier live one. */
  lemma BoughtIsShown(s: Store, event: Event, ctx: Context, e: Entry)
    requires Deliverable(s, event, ctx) && e in s.rows && e.id in s.requested && IsFinalApproval(e)
    requires e.runId == ctx.runId || e.runId in EarlierLiveRuns(s.runs, ctx.runId)
    ensures
      var view := StoreView(s, ctx.history, QueryFor(event, ctx));
      view.fulfilments.Some?
      && exists f :: f in view.fulfilments.value && f.id == e.id && f.mandateId == e.mandateId
  {
    hide StoreView, Fulfilments, EntryOk, InOrder, UniqueIds, EarlierLiveRuns, SortByTs;
    var q := QueryFor(event, ctx);
    ViewFulfilments(s, ctx.history, q);
    var decisions := EarlierDecisions(s, q.runId) + SortByTs(RunBefore(s.rows, q));
    if e.runId == ctx.runId { assert e in RunBefore(s.rows, q); }
    assert e in decisions;
    FulfilmentShown(decisions, s.requested, e);
  }

  lemma NotBoughtAlready(facts: Facts, policy: Policy, view: LedgerView)
    requires forall s :: s in Evaluate(facts, policy, view) ==> !Asks(s)
    requires HoldsRequested(facts, policy)
    ensures !BoughtAlready(facts, policy, view)
  {
    hide HoldsRequested, BoughtAlready, Requoted, Duplicate, Split, LooksAlike;
    assert Evaluate(facts, policy, view)[7] == AlreadyBought(facts, policy, view);
    assert !Asks(AlreadyBought(facts, policy, view));
  }

  /** At the decision: an automatic approval that holds the item means no purchase of it is a
      final approval yet. */
  lemma FirstPurchase(s: Store, event: Event, ctx: Context, e: Entry)
    requires Deliverable(s, event, ctx)
    requires Begin(s, event, ctx).entry.outcome.Approve? && Begin(s, event, ctx).requested.Some?
    requires e in s.rows && e.id in s.requested && SameMandateRun(s.runs, e, Begin(s, event, ctx).entry)
    ensures !IsFinalApproval(e)
  {
    hide StoreView, FactsWith, EngineFor, Evaluate, EntryOk, InOrder, UniqueIds, EarlierLiveRuns, HoldsRequested, Begin;
    var view := StoreView(s, ctx.history, QueryFor(event, ctx));
    var facts := FactsWith(event, ctx, view);
    BeginIsNew(s, event, ctx);
    ApprovedByEngine(s, event, ctx);
    FactsKeepEvent(event, ctx, view);
    NothingTriggered(facts, ctx.policy, view, ctx.soft);
    NotBoughtAlready(facts, ctx.policy, view);
    if IsFinalApproval(e) { BoughtIsShown(s, event, ctx, e); }
  }

  // --- Along a run ----------------------------------------------------------------------

  predicate Clash(s: Store, q: Entry, p: Entry) {
    && q.id in s.requested && SameMandateRun(s.runs, q, p)
    && q.outcome.Approve? && p.outcome.Approve?
  }

  /** No two automatic approvals hold the item, and only stored rows carry a mark. */
  ghost predicate BoughtOnce(m: Machine) {
    && (forall j, k :: 0 <= j < k < |m.store.rows| && m.store.rows[k].id in m.store.requested
          ==> !Clash(m.store, m.store.rows[j], m.store.rows[k]))
    && (forall id :: id in m.store.requested ==> exists e :: e in m.store.rows && e.id == id)
    && (m.inflight.Some? && m.inflight.value.requested.Some? ==>
          forall e :: e in m.store.rows ==> !Clash(m.store, e, m.inflight.value.entry))
  }

  lemma BoughtOnceBegin(m: Machine, event: Event, ctx: Context)
    requires WellFormed(m) && Allowed(m, Deliver(event, ctx)) && BoughtOnce(m)
    ensures BoughtOnce(Next(m, Deliver(event, ctx)))
  {
    hide Begin, EarlierLiveRuns;
    var noted := NoteEvent(m.store, event.facts.id, NotedOf(event));
    if Find(noted.rows, event.facts.id).None? {
      assert IndexOf(noted.rows, event.facts.id).None?;
      var draft := Begin(noted, event, ctx);
      forall e | e in noted.rows && draft.requested.Some? ensures !Clash(noted, e, draft.entry) {
        if Clash(noted, e, draft.entry) { FirstPurchase(noted, event, ctx, e); }
      }
    }
  }

  lemma SaveMarks(m: Machine)
    requires m.inflight.Some?
    ensures
      var d, s := m.inflight.value, Next(m, Save).store;
      && s.requested.Keys == m.store.requested.Keys + (if d.requested.Some? then {d.entry.id} else {})
      && s.runs == m.store.runs && Next(m, Save).inflight.None?
  {
    hide Begin;
  }

  lemma SaveNoClash(m: Machine, after: Store, j: int, k: int)
    requires WellFormed(m) && BoughtOnce(m) && m.inflight.Some? && 0 <= j < k < |after.rows|
    requires after.rows == m.store.rows + [Stored(m.inflight.value.entry)] && after.runs == m.store.runs
    requires after.requested.Keys == m.store.requested.Keys + (if m.inflight.value.requested.Some? then {m.inflight.value.entry.id} else {})
    requires after.rows[k].id in after.requested
    ensures !Clash(after, after.rows[j], after.rows[k])
  {
    hide EarlierLiveRuns, WellFormed;
    NewMark(m, j);
    assert m.store.rows[j] in m.store.rows;
    if k < |m.store.rows| {
      NewMark(m, k);
      assert !Clash(m.store, m.store.rows[j], m.store.rows[k]);
    } else {
      assert !Clash(m.store, m.store.rows[j], m.inflight.value.entry);
    }
  }

  lemma BoughtOnceSave(m: Machine)
    requires WellFormed(m) && BoughtOnce(m) && m.inflight.Some?
    ensures BoughtOnce(Next(m, Save))
  {
    hide Begin, Clash, WellFormed;
    WellFormedAfterSave(m);
    SaveMarks(m);
    hide Next;
    var after := Next(m, Save).store;
    MarksStored(m, after);
    forall j, k | 0 <= j < k < |after.rows| && after.rows[k].id in after.requested
      ensures !Clash(after, after.rows[j], after.rows[k])
    {
      SaveNoClash(m, after, j, k);
    }
  }

  lemma MarksStored(m: Machine, after: Store)
    requires BoughtOnce(m) && m.inflight.Some? && after.rows == m.store.rows + [Stored(m.inflight.value.entry)]
    requires after.requested.Keys <= m.store.requested.Keys + {m.inflight.value.entry.id}
    ensures forall id :: id in after.requested ==> exists e :: e in after.rows && e.id == id
  {
    hide Clash;
    var d := m.inflight.value;
    assert Stored(d.entry) in after.rows && Stored(d.entry).id == d.entry.id;
    forall id | id in after.requested ensures exists e :: e in after.rows && e.id == id {
      assert id in after.requested.Keys;
      if id != d.entry.id {
        var e :| e in m.store.rows && e.id == id;
        assert e in after.rows;
      }
    }
  }

  /** The new row is marked only by its own draft. */
  lemma NewMark(m: Machine, j: int)
    requires WellFormed(m) && BoughtOnce(m) && m.inflight.Some? && 0 <= j < |m.store.rows|
    ensures m.inflight.value.entry.id !in m.store.requested
    ensures m.store.rows[j].id != m.inflight.value.entry.id
  {
    assert m.store.rows[j] in m.store.rows;
  }

  /** What the marks and clashes read of a row, which no answer or timeout changes. */
  ghost predicate SameIdentity(rows: seq<Entry>, later: seq<Entry>) {
    |rows| == |later| && forall i :: 0 <= i < |rows| ==> SameRow(rows[i], later[i])
  }

  predicate SameRow(x: Entry, y: Entry) {
    y.id == x.id && y.outcome == x.outcome && y.mandateId == x.mandateId && y.runId == x.runId
  }

  lemma ChangeKeepsIdentity(m: Machine, step: Step)
    requires WellFormed(m) && !step.Deliver? && (step.Save? ==> m.inflight.None?)
    ensures SameIdentity(m.store.rows, Next(m, step).store.rows)
  {
    hide Begin, InOrder, UniqueIds, EntryOk;
    StepEvolves(m, step);
    var rows, later := m.store.rows, Next(m, step).store.rows;
    forall i | 0 <= i < |rows| ensures SameRow(rows[i], later[i]) {
      assert rows[i] in rows;
      EvolvesKeeps(rows[i], later[i]);
    }
  }

  lemma SameClash(s: Store, q: Entry, q': Entry, p: Entry, p': Entry)
    requires SameRow(q, q') && SameRow(p, p')
    ensures Clash(s, q, p) == Clash(s, q', p')
  {
  }

  lemma BoughtOnceEvolved(m: Machine, n: Machine)
    requires BoughtOnce(m) && SameIdentity(m.store.rows, n.store.rows)
    requires n.store == m.store.(rows := n.store.rows) && n.inflight == m.inflight
    ensures BoughtOnce(n)
  {
    hide Clash, EarlierLiveRuns;
    var rows, later := m.store.rows, n.store.rows;
    forall id | id in n.store.requested ensures exists e :: e in later && e.id == id {
      var i :| 0 <= i < |rows| && rows[i].id == id;
      assert later[i] in later && SameRow(rows[i], later[i]);
    }
    forall e | e in later && n.inflight.Some? && n.inflight.value.requested.Some?
      ensures !Clash(n.store, e, n.inflight.value.entry)
    {
      var i :| 0 <= i < |later| && later[i] == e;
      assert rows[i] in rows && SameRow(rows[i], later[i]);
      ClashKeepsRows(m.store, n.store, rows[i], m.inflight.value.entry);
      SameClash(n.store, rows[i], e, m.inflight.value.entry, m.inflight.value.entry);
    }
    forall j, k | 0 <= j < k < |later| && later[k].id in n.store.requested
      ensures !Clash(n.store, later[j], later[k])
    {
      assert SameRow(rows[j], later[j]) && SameRow(rows[k], later[k]);
      ClashKeepsRows(m.store, n.store, rows[j], rows[k]);
      SameClash(n.store, rows[j], later[j], rows[k], later[k]);
    }
  }

  lemma ClashKeepsRows(s: Store, s': Store, q: Entry, p: Entry)
    requires s'.requested == s.requested && s'.runs == s.runs
    ensures Clash(s, q, p) == Clash(s', q, p)
  {
  }

  lemma BoughtOnceChange(m: Machine, step: Step)
    requires WellFormed(m) && BoughtOnce(m) && !step.Deliver? && !step.Start? && (step.Save? ==> m.inflight.None?)
    ensures BoughtOnce(Next(m, step))
  {
    hide Begin, BoughtOnce, SameIdentity;
    ChangeKeepsIdentity(m, step);
    OnlyRowsChange(m, step);
    BoughtOnceEvolved(m, Next(m, step));
  }

  /** A run that starts later is no earlier run of any purchase. */
  lemma BoughtOnceStart(m: Machine, run: RunRow)
    requires BoughtOnce(m) && Allowed(m, Start(run))
    ensures BoughtOnce(Next(m, Start(run)))
  {
    hide Begin, EarlierLiveRuns, MayStart;
    var s, s' := m.store, Next(m, Start(run)).store;
    forall q: Entry, p: Entry | p.runId != run.runId ensures Clash(s', q, p) == Clash(s, q, p) {
      EarlierRunsStay(s.runs, run, p.runId);
    }
    hide Clash;
    assert forall e :: e in s.rows ==> e.runId != run.runId;
  }

  lemma OnlyRowsChange(m: Machine, step: Step)
    requires !step.Deliver? && !step.Start? && (step.Save? ==> m.inflight.None?)
    ensures Next(m, step).store == m.store.(rows := Next(m, step).store.rows) && Next(m, step).inflight == m.inflight
  {
    hide Begin;
  }

  lemma {:induction false} BoughtOnceRun(m: Machine, steps: seq<Step>)
    requires WellFormed(m) && Legal(m, steps) && BoughtOnce(m)
    ensures BoughtOnce(Exec(m, steps)) && WellFormed(Exec(m, steps))
    decreases |steps|
  {
    hide BoughtOnce;
    if steps != [] {
      var step := steps[0];
      WellFormedStep(m, step);
      if step.Deliver? {
        BoughtOnceBegin(m, step.event, step.ctx);
      } else if step.Start? {
        BoughtOnceStart(m, step.run);
      } else if step.Save? && m.inflight.Some? {
        BoughtOnceSave(m);
      } else {
        BoughtOnceChange(m, step);
      }
      BoughtOnceRun(Next(m, step), steps[1..]);
    }
  }

  /** Row j was stored before row k, both hold the requested item, under one mandate, in one run or
      the first in an earlier live run. */
  ghost predicate BothHold(s: Store, j: int, k: int) {
    && 0 <= j < k < |s.rows| && s.rows[j].id in s.requested && s.rows[k].id in s.requested
    && s.rows[j].mandateId == s.rows[k].mandateId && SeenFrom(s.runs, s.rows[j].runId, s.rows[k].runId)
  }

  /** A step-up the customer approved. */
  predicate AnsweredYes(e: Entry) { e.outcome.StepUp? && e.final && e.answer.Approved? && e.resolvedBy.Customer? }

  /** One item, once: in every state of every run, when an automatic approval holds the item its
      single-item mandate asks for, any earlier stored purchase of it that is an approval, in
      that run or an earlier live run of the mandate, is one the customer approved himself. */
  lemma OneItemOnce(m: Machine, steps: seq<Step>)
    requires m.store.rows == [] && m.store.requested == map[] && m.inflight.None? && Legal(m, steps) && DistinctRuns(m.store.runs)
    ensures
      var s := Exec(m, steps).store;
      forall j, k :: BothHold(s, j, k) && s.rows[k].outcome.Approve? && IsFinalApproval(s.rows[j]) ==> AnsweredYes(s.rows[j])
  {
    hide EarlierLiveRuns, DistinctRuns, StartedEarlier;
    BoughtOnceRun(m, steps);
    DistinctRunsKept(m, steps);
    var s := Exec(m, steps).store;
    forall j, k | BothHold(s, j, k) && s.rows[k].outcome.Approve? && IsFinalApproval(s.rows[j])
      ensures AnsweredYes(s.rows[j])
    {
      EarlierIff(s.runs, s.rows[k].runId, s.rows[j].runId);
      assert !Clash(s, s.rows[j], s.rows[k]);
      assert s.rows[j] in s.rows;
    }
  }
}
