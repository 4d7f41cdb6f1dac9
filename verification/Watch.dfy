/** The session watch over whole runs (backend/oneguard/engine/ledger.py:214-252, decide.py:127):
    after a frozen decision no purchase on the card is approved automatically until the customer
    approves a step-up, also in later live runs of the mandate. */
module Watch {
  import opened Seqs
  import opened Types
  import opened Ledger
  import opened Views
  import opened Sorting
  import opened PolicyRules
  import opened Warnings
  import Protections
  import opened Ladder
  import opened LadderJoin
  import opened Pipeline
  import opened Approvals
  import opened Runs
  import opened Sessions

  /** `_frozen` as the source runs it: one pass, oldest decision first. */
  method FrozenAfter(decisions: seq<Entry>) returns (watch: bool)
    ensures watch == WatchOn(decisions)
  {
    watch := false;
    for i := 0 to |decisions|
      invariant watch == WatchOn(decisions[..i])
    {
      ghost var before := decisions[..i];
      assert decisions[..i + 1] == before + [decisions[i]];
      WatchAppend(before, decisions[i]);
      if decisions[i].trust.Frozen? {
        watch := true;
      }
      if watch && CustomerOk(decisions[i]) {
        watch := false;
      }
    }
    assert decisions[..|decisions|] == decisions;
  }

  lemma WatchAppend(s: seq<Entry>, e: Entry)
    ensures WatchOn(s + [e]) == (!CustomerOk(e) && (e.trust.Frozen? || WatchOn(s)))
  {
    var t := s + [e];
    assert t[|s|] == e;
    if WatchOn(s) && !CustomerOk(e) {
      var i :| 0 <= i < |s| && s[i].trust.Frozen? && forall j :: i <= j < |s| ==> !CustomerOk(s[j]);
      assert t[i].trust.Frozen? && forall j :: i <= j < |t| ==> !CustomerOk(t[j]);
    }
    if WatchOn(t) {
      var i :| 0 <= i < |t| && t[i].trust.Frozen? && forall j :: i <= j < |t| ==> !CustomerOk(t[j]);
      assert !CustomerOk(t[|s|]);
      if i < |s| { assert s[i].trust.Frozen? && forall j :: i <= j < |s| ==> t[j] == s[j]; }
    }
  }

  /** A purchase decided under the watch is never approved, and re-arms it. */
  lemma WatchedIsFrozen(s: Store, event: Event, ctx: Context)
    requires WatchOn(WatchedDecisions(s, QueryFor(event, ctx))) && !NoActivePolicy(ctx.policy, event.cardId)
    ensures Begin(s, event, ctx).entry.trust.Frozen? && !Begin(s, event, ctx).entry.outcome.Approve?
  {
    hide WatchedDecisions, WatchOn, Judge, AddLedgerResults, EvaluateRules, RelatedOf;
    var view := StoreView(s, ctx.history, QueryFor(event, ctx));
    ViewFrozen(s, ctx.history, QueryFor(event, ctx));
    var facts := FactsWith(event, ctx, view);
    WatchedDecision(AddLedgerResults(EvaluateRules(facts, ctx.policy), facts, ctx.policy, view),
      Protections.Evaluate(facts, ctx.policy, view), WarningSigns(facts, view, ctx.policy), ctx.soft, ctx.policy);
    DraftTrust(view, event, ctx);
  }

  lemma DraftTrust(view: LedgerView, event: Event, ctx: Context)
    requires !NoActivePolicy(ctx.policy, event.cardId)
    ensures
      var d := EngineFor(FactsWith(event, ctx, view), ctx.policy, view, ctx.soft);
      DraftFrom(view, event, ctx).entry.trust == d.trust && DraftFrom(view, event, ctx).entry.outcome == d.outcome
  {
    hide EngineFor, FactsWith;
  }

  lemma WatchedDecision(results: seq<RuleResult>, protections: seq<Signal>, warnings: seq<Signal>,
                        soft: seq<Signal>, policy: Policy)
    ensures
      var d := Decide(results, protections, warnings, soft, policy, true);
      d.trust.Frozen? && !d.outcome.Approve?
  {
    if Decide(results, protections, warnings, soft, policy, true).outcome.Approve? {
      ApproveNeeds(results, protections, warnings, soft, policy, true);
    }
  }

  lemma ViewFrozen(s: Store, h: History, q: Query)
    ensures StoreView(s, h, q).frozen == WatchOn(WatchedDecisions(s, q))
  {
    hide Filter, SortByTs, InWindow, CountApprovals, LastPrices, KeysOf, Fulfilments, PriorsOf, EarlierDecisions,
      WatchedDecisions, WatchOn, RunBefore, NamesOf, OtherCards, LargestOf, DevicesOf, CountriesOf, Flagged;
  }

  // --- The order decisions are watched in -----------------------------------------------

  /** d is not later than c: same run and time, or an earlier run of the order. */
  ghost predicate NotAfter(order: seq<string>, d: Entry, c: Entry) {
    || (d.runId == c.runId && d.ts <= c.ts)
    || (exists i, j :: 0 <= i < j < |order| && order[i] == d.runId && order[j] == c.runId)
  }

  ghost predicate Ordered(order: seq<string>, s: seq<Entry>) {
    && (forall e :: e in s ==> e.runId in order)
    && (forall i, j :: 0 <= i <= j < |s| ==> NotAfter(order, s[i], s[j]))
  }

  lemma OrderedAppend(order: seq<string>, s: seq<Entry>, runId: string, t: seq<Entry>)
    requires Ordered(order, s) && SortedByTs(t) && forall e :: e in t ==> e.runId == runId
    ensures Ordered(order + [runId], s + t)
  {
    var all, longer := s + t, order + [runId];
    assert longer[|order|] == runId;
    forall i, j | 0 <= i <= j < |all| ensures NotAfter(longer, all[i], all[j]) {
      if j < |s| {
        assert NotAfter(order, s[i], s[j]);
        if p, q :| 0 <= p < q < |order| && order[p] == s[i].runId && order[q] == s[j].runId {
          assert longer[p] == s[i].runId && longer[q] == s[j].runId;
        }
      } else {
        assert all[j] == t[j - |s|] && all[j] in t;
        if i < |s| {
          assert all[i] == s[i] && s[i] in s;
          var p :| 0 <= p < |order| && order[p] == s[i].runId;
          assert longer[p] == s[i].runId;
        } else {
          assert all[i] == t[i - |s|] && all[i] in t;
        }
      }
    }
    forall e | e in all ensures e.runId in longer { if e in s { assert e.runId in order; } }
  }

  /** The card's decisions in one run, in time order. */
  function CardRun(rows: seq<Entry>, runId: string, cardId: string): seq<Entry> {
    SortByTs(Filter(rows, (e: Entry) => e.runId == runId && e.cardId == cardId))
  }

  lemma CardRunSorted(rows: seq<Entry>, runId: string, cardId: string)
    ensures SortedByTs(CardRun(rows, runId, cardId)) && forall e :: e in CardRun(rows, runId, cardId) ==> e.runId == runId
  {
    hide SortedByTs;
    SortSorted(Filter(rows, (e: Entry) => e.runId == runId && e.cardId == cardId));
  }

  lemma CardNext(rows: seq<Entry>, runs: seq<string>, runId: string, cardId: string)
    ensures CardDecisions(rows, runs + [runId], cardId) == CardDecisions(rows, runs, cardId) + CardRun(rows, runId, cardId)
  {
    hide SortByTs, Filter;
    assert (runs + [runId])[..|runs|] == runs;
  }

  lemma NoRuns(rows: seq<Entry>, cardId: string)
    ensures Ordered([], CardDecisions(rows, [], cardId))
  {
  }

  lemma {:induction false} CardOrdered(rows: seq<Entry>, runs: seq<string>, cardId: string)
    ensures Ordered(runs, CardDecisions(rows, runs, cardId))
    decreases |runs|
  {
    hide Ordered, CardDecisions, CardRun, SortedByTs;
    if runs == [] {
      NoRuns(rows, cardId);
    } else {
      var n := |runs| - 1;
      assert runs == runs[..n] + [runs[n]];
      CardOrdered(rows, runs[..n], cardId);
      CardRunSorted(rows, runs[n], cardId);
      CardNext(rows, runs[..n], runs[n], cardId);
      OrderedAppend(runs[..n], CardDecisions(rows, runs[..n], cardId), runs[n], CardRun(rows, runs[n], cardId));
    }
  }

  /** The runs a purchase of `runId` is watched over, oldest first. */
  function WatchedRuns(runs: seq<RunRow>, runId: string): seq<string> {
    EarlierLiveRuns(runs, runId) + [runId]
  }

  lemma WatchedOrdered(s: Store, q: Query)
    ensures Ordered(WatchedRuns(s.runs, q.runId), WatchedDecisions(s, q))
  {
    hide EarlierLiveRuns, CardDecisions;
    var run := SortByTs(RunBefore(s.rows, q));
    var last := Filter(run, (e: Entry) => e.cardId == q.cardId);
    CardOrdered(s.rows, EarlierLiveRuns(s.runs, q.runId), q.cardId);
    SortSorted(RunBefore(s.rows, q));
    FilterSorted(run, (e: Entry) => e.cardId == q.cardId);
    OrderedAppend(EarlierLiveRuns(s.runs, q.runId), CardDecisions(s.rows, EarlierLiveRuns(s.runs, q.runId), q.cardId), q.runId, last);
  }

  // --- Along a run ----------------------------------------------------------------------

  /** d is a frozen decision the purchase a must not follow silently. */
  predicate Watches(runs: seq<RunRow>, d: Entry, a: Entry) {
    d.trust.Frozen? && d.cardId == a.cardId && d.runId in WatchedRuns(runs, a.runId)
  }

  /** c is a step-up on the card that the customer approved, not before d. */
  ghost predicate Clears(runs: seq<RunRow>, c: Entry, d: Entry, a: Entry) {
    && CustomerOk(c) && c.cardId == a.cardId && c.runId in WatchedRuns(runs, a.runId)
    && NotAfter(WatchedRuns(runs, a.runId), d, c)
  }

  ghost predicate WatchOk(runs: seq<RunRow>, rows: seq<Entry>, a: Entry) {
    forall d :: d in rows && Watches(runs, d, a) ==> exists c :: c in rows && Clears(runs, c, d, a)
  }

  lemma WatchWhenApproved(s: Store, event: Event, ctx: Context, d: Entry)
    requires Deliverable(s, event, ctx) && Begin(s, event, ctx).entry.outcome.Approve?
    requires d in s.rows && Watches(s.runs, d, Begin(s, event, ctx).entry)
    ensures exists c :: c in s.rows && Clears(s.runs, c, d, Begin(s, event, ctx).entry)
  {
    hide StoreView, FactsWith, EngineFor, Begin, EarlierLiveRuns, Ordered, NotAfter, EntryOk, InOrder, UniqueIds;
    var q := QueryFor(event, ctx);
    var view := StoreView(s, ctx.history, q);
    BeginIsNew(s, event, ctx);
    ApprovedByEngine(s, event, ctx);
    NothingTriggered(FactsWith(event, ctx, view), ctx.policy, view, ctx.soft);
    ViewFrozen(s, ctx.history, q);
    var decisions := WatchedDecisions(s, q);
    WatchedOrdered(s, q);
    assert d in decisions;
    ClearedIn(decisions, WatchedRuns(s.runs, q.runId), d);
  }

  lemma ClearedIn(decisions: seq<Entry>, order: seq<string>, d: Entry)
    requires !WatchOn(decisions) && d in decisions && d.trust.Frozen? && Ordered(order, decisions)
    ensures exists c :: c in decisions && CustomerOk(c) && NotAfter(order, d, c)
  {
    var i :| 0 <= i < |decisions| && decisions[i] == d;
    var j :| i <= j < |decisions| && CustomerOk(decisions[j]);
    assert NotAfter(order, decisions[i], decisions[j]);
  }

  lemma WatchEstablished()
    ensures Established((runs, rows, a) => WatchOk(runs, rows, a), (event, ctx) => true)
  {
    hide Begin, Watches, Clears;
    forall s: Store, event, ctx | Deliverable(s, event, ctx) && Begin(s, event, ctx).entry.outcome.Approve?
      ensures WatchOk(s.runs, s.rows, Stored(Begin(s, event, ctx).entry))
    {
      var a := Begin(s, event, ctx).entry;
      forall d | d in s.rows && Watches(s.runs, d, Stored(a))
        ensures exists c :: c in s.rows && Clears(s.runs, c, d, Stored(a))
      {
        StoredWatches(s.runs, d, a);
        WatchWhenApproved(s, event, ctx, d);
        var c :| c in s.rows && Clears(s.runs, c, d, a);
        StoredClears(s.runs, c, d, a);
      }
    }
  }

  lemma StoredWatches(runs: seq<RunRow>, d: Entry, a: Entry)
    ensures Watches(runs, d, Stored(a)) == Watches(runs, d, a)
  {
  }

  lemma StoredClears(runs: seq<RunRow>, c: Entry, d: Entry, a: Entry)
    ensures Clears(runs, c, d, Stored(a)) == Clears(runs, c, d, a)
  {
  }

  /** Closing step-ups changes nothing the watch reads, except that one may become the
      customer's approval. */
  lemma EvolvedClears(runs: seq<RunRow>, c: Entry, c': Entry, d: Entry, d': Entry, a: Entry)
    requires SameDecision(c, c') && SameDecision(d, d')
    ensures Watches(runs, d', a) == Watches(runs, d, a)
    ensures Clears(runs, c, d, a) ==> Clears(runs, c', d', a)
  {
    hide WatchedRuns;
  }

  lemma WatchStable()
    ensures Stable((runs, rows, a) => WatchOk(runs, rows, a))
  {
    hide Watches, Clears, SameDecision, EntryOk, Evolves, WatchOk, MayStart;
    forall runs, rows, later, a | RowsEvolve(rows, later) && (forall x :: x in rows ==> EntryOk(x)) && WatchOk(runs, rows, a)
      ensures WatchOk(runs, later, a)
    {
      WatchEvolves(runs, rows, later, a);
    }
    forall runs, run: RunRow, rows, a: Entry | MayStart(runs, run) && a.runId != run.runId && WatchOk(runs, rows, a)
      ensures WatchOk(runs + [run], rows, a)
    {
      WatchStarts(runs, run, rows, a);
    }
  }

  lemma WatchEvolves(runs: seq<RunRow>, rows: seq<Entry>, later: seq<Entry>, a: Entry)
    requires RowsEvolve(rows, later) && (forall x :: x in rows ==> EntryOk(x)) && WatchOk(runs, rows, a)
    ensures WatchOk(runs, later, a)
  {
    hide Watches, Clears, SameDecision, EntryOk, Evolves;
    forall d' | d' in later && Watches(runs, d', a) ensures exists c :: c in later && Clears(runs, c, d', a) {
      var i :| 0 <= i < |later| && later[i] == d';
      var d := rows[i];
      RowAfter(rows, later, i);
      EvolvedClears(runs, d, d', d, d', a);
      var c :| c in rows && Clears(runs, c, d, a);
      var j :| 0 <= j < |rows| && rows[j] == c;
      RowAfter(rows, later, j);
      EvolvedClears(runs, c, later[j], d, d', a);
      assert later[j] in later;
    }
  }

  /** A run that starts later changes nothing a stored approval was watched over. */
  lemma WatchStarts(runs: seq<RunRow>, run: RunRow, rows: seq<Entry>, a: Entry)
    requires MayStart(runs, run) && a.runId != run.runId && WatchOk(runs, rows, a)
    ensures WatchOk(runs + [run], rows, a)
  {
    hide EarlierLiveRuns, NotAfter, MayStart;
    EarlierRunsStay(runs, run, a.runId);
    assert WatchedRuns(runs + [run], a.runId) == WatchedRuns(runs, a.runId);
    hide WatchedRuns;
    forall d | d in rows && Watches(runs + [run], d, a) ensures exists c :: c in rows && Clears(runs + [run], c, d, a) {
      assert Watches(runs, d, a);
      var c :| c in rows && Clears(runs, c, d, a);
      assert Clears(runs + [run], c, d, a);
    }
  }

  lemma RowAfter(rows: seq<Entry>, later: seq<Entry>, i: nat)
    requires RowsEvolve(rows, later) && (forall x :: x in rows ==> EntryOk(x)) && i < |rows|
    ensures SameDecision(rows[i], later[i])
  {
    assert rows[i] in rows;
    EvolvesKeeps(rows[i], later[i]);
  }

  /** Row j is a frozen decision stored before row k, which was approved automatically. */
  predicate FrozenInOrder(runs: seq<RunRow>, rows: seq<Entry>, j: int, k: int) {
    0 <= j < k < |rows| && rows[k].outcome.Approve? && Watches(runs, rows[j], rows[k])
  }

  /** The same over the list of runs a purchase is watched over. */
  lemma WatchInOrder(m: Machine, steps: seq<Step>)
    requires m.store.rows == [] && m.inflight.None? && Legal(m, steps)
    ensures
      var s := Exec(m, steps).store;
      forall j, k :: FrozenInOrder(s.runs, s.rows, j, k) ==>
        exists c :: c in s.rows[..k] && Clears(s.runs, c, s.rows[j], s.rows[k])
  {
    hide Watches, Clears;
    WatchStable();
    WatchEstablished();
    SafetyPrinciple(m, steps, (runs, rows, a) => WatchOk(runs, rows, a), (event, ctx) => true);
    var s := Exec(m, steps).store;
    forall j, k | FrozenInOrder(s.runs, s.rows, j, k)
      ensures exists c :: c in s.rows[..k] && Clears(s.runs, c, s.rows[j], s.rows[k])
    {
      assert WatchOk(s.runs, s.rows[..k], s.rows[k]);
      assert s.rows[..k][j] in s.rows[..k];
    }
  }

  /** d is not later than c: the same run and no later in it, or a run that started no later. */
  ghost predicate IsNotAfter(runs: seq<RunRow>, d: Entry, c: Entry) {
    if d.runId == c.runId then d.ts <= c.ts else NoLater(runs, d.runId, c.runId)
  }

  /** Row j is a frozen decision on the card, in its run or an earlier live run of its mandate, stored
      before row k, which was approved automatically. */
  ghost predicate FrozenBefore(runs: seq<RunRow>, rows: seq<Entry>, j: int, k: int) {
    && 0 <= j < k < |rows| && rows[k].outcome.Approve?
    && rows[j].trust.Frozen? && rows[j].cardId == rows[k].cardId && SeenFrom(runs, rows[j].runId, rows[k].runId)
  }

  /** A step-up on the card that the customer approved, in such a run too, and not before d. */
  ghost predicate EndsWatch(runs: seq<RunRow>, c: Entry, d: Entry, a: Entry) {
    && c.outcome.StepUp? && c.answer.Approved? && c.resolvedBy.Customer?
    && c.cardId == a.cardId && SeenFrom(runs, c.runId, a.runId) && IsNotAfter(runs, d, c)
  }

  lemma WatchedRunsAre(runs: seq<RunRow>, own: string, other: string)
    requires DistinctRuns(runs)
    ensures other in WatchedRuns(runs, own) <==> SeenFrom(runs, other, own)
  {
    hide EarlierLiveRuns, StartedEarlier;
    EarlierIff(runs, own, other);
  }

  lemma OrderIsByStart(runs: seq<RunRow>, own: string, d: Entry, c: Entry)
    requires DistinctRuns(runs) && NotAfter(WatchedRuns(runs, own), d, c)
    ensures IsNotAfter(runs, d, c)
  {
    hide EarlierLiveRuns, DistinctRuns;
    var earlier := EarlierLiveRuns(runs, own);
    EarlierOnce(runs, own);
    EarlierInOrder(runs, own);
    if i, j :| 0 <= i < j < |WatchedRuns(runs, own)| && WatchedRuns(runs, own)[i] == d.runId && WatchedRuns(runs, own)[j] == c.runId {
      if j < |earlier| {
        assert earlier[i] != earlier[j];
      } else {
        assert earlier[i] in earlier && c.runId == own;
        EarlierIff(runs, own, d.runId);
      }
    }
  }

  /** Session watch: in every state of every run, between a frozen decision and any later
      automatic approval on that card, in its run or a later live run of the mandate, lies a
      step-up that the customer approved. */
  lemma WatchHolds(m: Machine, steps: seq<Step>)
    requires m.store.rows == [] && m.inflight.None? && Legal(m, steps) && DistinctRuns(m.store.runs)
    ensures
      var s := Exec(m, steps).store;
      forall j, k :: FrozenBefore(s.runs, s.rows, j, k) ==>
        exists c :: c in s.rows[..k] && EndsWatch(s.runs, c, s.rows[j], s.rows[k])
  {
    hide Exec, Legal, NotAfter, IsNotAfter, SeenFrom, WatchedRuns, DistinctRuns;
    WatchInOrder(m, steps);
    DistinctRunsKept(m, steps);
    var s := Exec(m, steps).store;
    forall j, k | FrozenBefore(s.runs, s.rows, j, k)
      ensures exists c :: c in s.rows[..k] && EndsWatch(s.runs, c, s.rows[j], s.rows[k])
    {
      WatchedRunsAre(s.runs, s.rows[k].runId, s.rows[j].runId);
      var c :| c in s.rows[..k] && Clears(s.runs, c, s.rows[j], s.rows[k]);
      WatchedRunsAre(s.runs, s.rows[k].runId, c.runId);
      OrderIsByStart(s.runs, s.rows[k].runId, s.rows[j], c);
      assert EndsWatch(s.runs, c, s.rows[j], s.rows[k]);
    }
  }
}
