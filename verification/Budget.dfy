/** Period limits over whole runs (C2, M4, M5): a rolling budget and a purchase count hold for
    every automatic approval, whatever is answered before or after it. */
module Budget {
  import opened Seqs
  import opened Types
  import opened Ledger
  import opened Views
  import opened Sorting
  import opened PolicyRules
  import opened Pipeline
  import opened Approvals
  import opened Runs

  /** One card of one run between two simulated times, both included. */
  datatype Window = Window(runId: string, cardId: string, lo: int, hi: int)

  predicate Inside(e: Entry, w: Window) {
    e.runId == w.runId && e.cardId == w.cardId && w.lo <= e.ts <= w.hi
  }

  /** Money an entry takes from a period limit: spent, or still reserved. */
  function Held(e: Entry): int { e.spent + e.reserved }

  /** A purchase an entry takes from a purchase count. */
  function Counted(e: Entry): int { if IsCounted(e) then 1 else 0 }

  function Load(rows: seq<Entry>, w: Window, measure: Entry -> int): int {
    SumBy(Filter(rows, (e: Entry) => Inside(e, w)), measure)
  }

  // --- The view's totals are loads of the table -----------------------------------------

  lemma WindowLoad(rows: seq<Entry>, q: Query, measure: Entry -> int)
    requires forall e :: e in rows && e.runId == q.runId ==> e.ts < q.at
    ensures
      SumBy(InWindow(SortByTs(RunBefore(rows, q)), q), measure)
      == Load(rows, Window(q.runId, q.cardId, WindowStart(q.at, q.periodDays), q.at), measure)
  {
    var w := Window(q.runId, q.cardId, WindowStart(q.at, q.periodDays), q.at);
    var before := (e: Entry) => IsBefore(e, q);
    var inWindow := (e: Entry) => IsInWindow(e, q);
    var inside := (e: Entry) => Inside(e, w);
    var both := (e: Entry) => IsBefore(e, q) && IsInWindow(e, q);
    hide SortByTs, SumBy, Filter;
    FilterSort(Filter(rows, before), inWindow);
    SortSum(Filter(Filter(rows, before), inWindow), measure);
    FilterFilter(rows, before, inWindow, both);
    SameFilter(rows, both, inside);
  }

  lemma {:induction false} SameFilter(rows: seq<Entry>, p: Entry -> bool, q: Entry -> bool)
    requires forall e :: e in rows ==> p(e) == q(e)
    ensures Filter(rows, p) == Filter(rows, q)
  {
    if rows != [] {
      assert rows == rows[..|rows| - 1] + [rows[|rows| - 1]];
      SameFilter(rows[..|rows| - 1], p, q);
    }
  }

  lemma {:induction false} CountedIsSum(s: seq<Entry>)
    ensures |Filter(s, IsFinalApproval)| + |Filter(s, IsPending)| == SumBy(s, Counted)
  {
    if s != [] { CountedIsSum(s[..|s| - 1]); }
  }

  // --- Loads only shrink ----------------------------------------------------------------

  lemma LoadAppend(rows: seq<Entry>, x: Entry, w: Window, measure: Entry -> int)
    ensures Load(rows + [x], w, measure) == Load(rows, w, measure) + (if Inside(x, w) then measure(x) else 0)
  {
    var inside := (e: Entry) => Inside(e, w);
    FilterAppend(rows, x, inside);
    SumAppend(Filter(rows, inside), x, measure);
  }

  /** An answer, a timeout or a new deadline never adds to what an entry takes. */
  ghost predicate Shrinks(measure: Entry -> int) {
    forall x, y :: EntryOk(x) && Evolves(x, y) ==> 0 <= measure(y) <= measure(x)
  }

  lemma MeasuresShrink()
    ensures Shrinks(Held) && Shrinks(Counted)
  {
    forall x, y | EntryOk(x) && Evolves(x, y)
      ensures 0 <= Held(y) <= Held(x) && 0 <= Counted(y) <= Counted(x)
    {
      EvolvesKeeps(x, y);
    }
  }

  lemma {:induction false} LoadEvolves(rows: seq<Entry>, later: seq<Entry>, w: Window, measure: Entry -> int)
    requires RowsEvolve(rows, later) && (forall x :: x in rows ==> EntryOk(x)) && Shrinks(measure)
    ensures Load(later, w, measure) <= Load(rows, w, measure)
    decreases |rows|
  {
    if rows != [] {
      var n := |rows| - 1;
      assert rows == rows[..n] + [rows[n]] && later == later[..n] + [later[n]];
      LoadEvolves(rows[..n], later[..n], w, measure);
      LoadAppend(rows[..n], rows[n], w, measure);
      LoadAppend(later[..n], later[n], w, measure);
      EvolvesKeeps(rows[n], later[n]);
    }
  }

  // --- The rolling budget ---------------------------------------------------------------

  /** The limit the theorems are about: a spend or count rule over `days` days. */
  ghost predicate IsCap(rule: Rule, days: nat) {
    && rule.scope.PerPeriod? && days > 0 && rule.periodDays == Some(days)
    && (rule.op.Lt? || rule.op.Le?) && rule.value.Num? && rule.id !in STEP1_IDS
  }

  /** Every purchase on the card in the run is decided with the rule in force. Under "approve when
      unsure" it must also have the policy's shortest window: over any other it is unknown. */
  ghost predicate InForce(rule: Rule, days: nat, runId: string, cardId: string, event: Event, ctx: Context) {
    ctx.runId == runId && event.cardId == cardId ==> rule in ctx.policy.rules && Enforced(days, ctx.policy)
  }

  predicate Enforced(days: nat, policy: Policy) {
    PeriodDaysOf(policy.rules) == Some(days) || !policy.setting.ApproveIt?
  }

  /** An approval means the rule was checked, so over its own window. */
  lemma CheckedOverItsWindow(rule: Rule, days: nat, facts: Facts, view: LedgerView, policy: Policy)
    requires IsCap(rule, days) && Enforced(days, policy)
    requires view.periodWindowStart == WindowStart(facts.ts, PeriodDaysOf(policy.rules))
    requires var r := PeriodResult(rule, facts, view); r.outcome.Pass? || (r.outcome.Unknown? && policy.setting.ApproveIt?)
    ensures PeriodDaysOf(policy.rules) == Some(days)
  {
    hide PeriodDaysOf, EvaluateCountRule, EvaluatePeriodRule;
    if !policy.setting.ApproveIt? { assert InView(rule, facts, view); }
  }

  /** A total that meets the limit. */
  predicate WithinLimit(rule: Rule, total: int) { Compare(NumAtom(total), rule.op, RuleValueChf(rule)) }

  function WindowTo(runId: string, cardId: string, days: nat, ts: int): Window {
    Window(runId, cardId, ts - days * DAY, ts)
  }

  ghost predicate BudgetOk(rule: Rule, days: nat, runId: string, cardId: string, rows: seq<Entry>, e: Entry) {
    e.runId == runId && e.cardId == cardId ==>
      WithinLimit(rule, Load(rows, WindowTo(runId, cardId, days, e.ts), Held) + e.amount)
  }

  lemma SumOfSums(s: seq<Entry>)
    ensures SumBy(s, SpentOf) + SumBy(s, ReservedOf) == SumBy(s, Held)
  {
  }

  lemma ViewTotals(s: Store, h: History, q: Query)
    ensures
      var view, inWindow := StoreView(s, h, q), InWindow(SortByTs(RunBefore(s.rows, q)), q);
      && view.periodSpent == SumBy(inWindow, SpentOf) && view.periodReserved == SumBy(inWindow, ReservedOf)
      && view.periodWindowStart == WindowStart(q.at, q.periodDays)
      && view.periodReservedCount == |Filter(inWindow, IsPending)|
      && view.periodCount == Some(|Filter(inWindow, IsFinalApproval)| + |Filter(inWindow, IsPending)|)
  {
    hide Filter, SortByTs, InWindow, CountApprovals, LastPrices, KeysOf, Fulfilments, PriorsOf, EarlierDecisions,
      WatchedDecisions, WatchOn, RunBefore, NamesOf, OtherCards, LargestOf, DevicesOf, CountriesOf, Flagged;
  }

  /** A spend rule whose window is the view's: it passed, so the total is within it. */
  lemma SpendRulePassed(rule: Rule, days: nat, facts: Facts, view: LedgerView, setting: Setting)
    requires IsCap(rule, days) && !rule.field.PurchasesInPeriod?
    requires view.periodWindowStart == facts.ts - days * DAY
    requires var r := PeriodResult(rule, facts, view); r.outcome.Pass? || (r.outcome.Unknown? && setting.ApproveIt?)
    ensures WithinLimit(rule, view.periodSpent + view.periodReserved + facts.amount)
  {
    assert InView(rule, facts, view);
  }

  lemma BudgetWhenApproved(s: Store, event: Event, ctx: Context, rule: Rule, days: nat)
    requires Deliverable(s, event, ctx) && Begin(s, event, ctx).entry.outcome.Approve?
    requires IsCap(rule, days) && !rule.field.PurchasesInPeriod?
    requires rule in ctx.policy.rules && Enforced(days, ctx.policy)
    ensures WithinLimit(rule,
      Load(s.rows, WindowTo(ctx.runId, event.cardId, days, event.facts.ts), Held) + event.facts.amount)
  {
    hide StoreView, FactsWith, EngineFor, Begin, PeriodResult, InWindow, RunBefore, SortByTs, Load, SumBy, Filter,
      ResultsPass, EntryOk, InOrder, UniqueIds, WithinLimit, Held, PeriodDaysOf, Enforced;
    var q := QueryFor(event, ctx);
    var view := StoreView(s, ctx.history, q);
    var facts := FactsWith(event, ctx, view);
    ApprovedByEngine(s, event, ctx);
    FactsKeepEvent(event, ctx, view);
    RuleResultsPass(facts, ctx.policy, view, ctx.soft);
    PeriodRulePassed(facts, ctx.policy, view, rule);
    ViewTotals(s, ctx.history, q);
    CheckedOverItsWindow(rule, days, facts, view, ctx.policy);
    SpendRulePassed(rule, days, facts, view, ctx.policy.setting);
    WindowLoad(s.rows, q, Held);
    SumOfSums(InWindow(SortByTs(RunBefore(s.rows, q)), q));
  }

  lemma BudgetStable(rule: Rule, days: nat, runId: string, cardId: string)
    requires IsCap(rule, days)
    ensures Stable((runs, rows, e) => BudgetOk(rule, days, runId, cardId, rows, e))
  {
    MeasuresShrink();
    forall rows, later, e | RowsEvolve(rows, later) && (forall x :: x in rows ==> EntryOk(x)) && BudgetOk(rule, days, runId, cardId, rows, e)
      ensures BudgetOk(rule, days, runId, cardId, later, e)
    {
      LoadEvolves(rows, later, WindowTo(runId, cardId, days, e.ts), Held);
    }
  }

  lemma BudgetEstablished(rule: Rule, days: nat, runId: string, cardId: string)
    requires IsCap(rule, days) && !rule.field.PurchasesInPeriod?
    ensures Established((runs, rows, e) => BudgetOk(rule, days, runId, cardId, rows, e),
                        (event, ctx) => InForce(rule, days, runId, cardId, event, ctx))
  {
    hide Begin, Load, WithinLimit, WindowTo, Enforced;
    forall s: Store, event, ctx | InForce(rule, days, runId, cardId, event, ctx) && Deliverable(s, event, ctx)
                                  && Begin(s, event, ctx).entry.outcome.Approve?
      ensures BudgetOk(rule, days, runId, cardId, s.rows, Stored(Begin(s, event, ctx).entry))
    {
      BeginIsNew(s, event, ctx);
      if ctx.runId == runId && event.cardId == cardId {
        BudgetWhenApproved(s, event, ctx, rule, days);
      }
    }
  }

  lemma {:induction false} LoadPrefix(rows: seq<Entry>, n: nat, w: Window, measure: Entry -> int)
    requires n <= |rows| && forall i :: n <= i < |rows| ==> !Inside(rows[i], w)
    ensures Load(rows, w, measure) == Load(rows[..n], w, measure)
    decreases |rows|
  {
    if n < |rows| {
      var init, last := rows[..|rows| - 1], rows[|rows| - 1];
      assert rows == init + [last] && rows[..n] == init[..n];
      LoadPrefix(init, n, w, measure);
      LoadAppend(init, last, w, measure);
    } else {
      assert rows[..n] == rows;
    }
  }

  /** Rows stored after an approval are later than it, so its window closed when it was stored. */
  lemma WindowClosed(m: Machine, k: nat, days: nat, measure: Entry -> int)
    requires WellFormed(m) && k < |m.store.rows|
    ensures
      var rows, e := m.store.rows, m.store.rows[k];
      Load(rows, WindowTo(e.runId, e.cardId, days, e.ts), measure)
      == Load(rows[..k], WindowTo(e.runId, e.cardId, days, e.ts), measure) + measure(e)
  {
    var rows, e := m.store.rows, m.store.rows[k];
    var w := WindowTo(e.runId, e.cardId, days, e.ts);
    assert rows[..k + 1] == rows[..k] + [e];
    LoadPrefix(rows, k + 1, w, measure);
    LoadAppend(rows[..k], e, w, measure);
  }

  lemma ApprovalMeasures(m: Machine, k: nat)
    requires WellFormed(m) && k < |m.store.rows| && m.store.rows[k].outcome.Approve?
    ensures Held(m.store.rows[k]) == m.store.rows[k].amount && Counted(m.store.rows[k]) == 1
  {
    assert m.store.rows[k] in m.store.rows;
  }

  /** A machine with an empty decisions table. */
  ghost predicate Fresh(m: Machine) { m.store.rows == [] && m.inflight.None? }

  lemma FreshWellFormed(m: Machine)
    requires Fresh(m)
    ensures WellFormed(m)
  {
  }

  /** Rolling budget. While the rule is in force, in every state of every run and for every
      automatic approval, what its card has spent or reserved in the `days` before it stays
      within the limit. */
  lemma RollingBudget(m: Machine, steps: seq<Step>, rule: Rule, days: nat, runId: string, cardId: string)
    requires Fresh(m) && Legal(m, steps)
    requires IsCap(rule, days) && !rule.field.PurchasesInPeriod?
    requires AllGood(steps, (event, ctx) => InForce(rule, days, runId, cardId, event, ctx))
    ensures
      var rows := Exec(m, steps).store.rows;
      forall k :: 0 <= k < |rows| && rows[k].outcome.Approve? && rows[k].runId == runId && rows[k].cardId == cardId ==>
        WithinLimit(rule, Load(rows, WindowTo(runId, cardId, days, rows[k].ts), Held))
  {
    hide Exec, Legal, WellFormed, Load, WithinLimit, WindowTo, AllGood, Stable, Established, Held, InForce;
    assert WellFormed(m) by { FreshWellFormed(m); }
    BudgetStable(rule, days, runId, cardId);
    BudgetEstablished(rule, days, runId, cardId);
    SafetyPrinciple(m, steps, (runs, rows, e) => BudgetOk(rule, days, runId, cardId, rows, e),
                    (event, ctx) => InForce(rule, days, runId, cardId, event, ctx));
    WellFormedRun(m, steps);
    var last := Exec(m, steps);
    forall k | 0 <= k < |last.store.rows| && last.store.rows[k].outcome.Approve?
               && last.store.rows[k].runId == runId && last.store.rows[k].cardId == cardId
      ensures WithinLimit(rule, Load(last.store.rows, WindowTo(runId, cardId, days, last.store.rows[k].ts), Held))
    {
      assert BudgetOk(rule, days, runId, cardId, last.store.rows[..k], last.store.rows[k]);
      WindowClosed(last, k, days, Held);
      ApprovalMeasures(last, k);
    }
  }

  lemma {:induction false} LoadBelow(rows: seq<Entry>, v: Window, small: Entry -> int, w: Window, large: Entry -> int)
    requires forall e :: e in rows ==> (if Inside(e, v) then small(e) else 0) <= (if Inside(e, w) then large(e) else 0)
    ensures Load(rows, v, small) <= Load(rows, w, large)
  {
    if rows != [] {
      var init, last := rows[..|rows| - 1], rows[|rows| - 1];
      assert rows == init + [last];
      LoadBelow(init, v, small, w, large);
      LoadAppend(init, last, v, small);
      LoadAppend(init, last, w, large);
    }
  }

  /** So the spend of any `days`-long window, ending at any time, is within the limit whenever
      its last final approval was automatic. Only the customer can take a window past it. */
  lemma AnyWindowEndingAutomatically(m: Machine, k: nat, rule: Rule, days: nat, t: int)
    requires WellFormed(m) && k < |m.store.rows| && IsCap(rule, days)
    requires
      var rows, e := m.store.rows, m.store.rows[k];
      WithinLimit(rule, Load(rows, WindowTo(e.runId, e.cardId, days, e.ts), Held)) && e.ts <= t
    requires
      var e := m.store.rows[k];
      forall x :: x in m.store.rows && Inside(x, WindowTo(e.runId, e.cardId, days, t)) && x.spent > 0 ==> x.ts <= e.ts
    ensures
      var e := m.store.rows[k];
      WithinLimit(rule, Load(m.store.rows, WindowTo(e.runId, e.cardId, days, t), SpentOf))
  {
    var rows, e := m.store.rows, m.store.rows[k];
    LoadBelow(rows, WindowTo(e.runId, e.cardId, days, t), SpentOf, WindowTo(e.runId, e.cardId, days, e.ts), Held);
  }

  // --- The purchase count ---------------------------------------------------------------

  ghost predicate CountOk(rule: Rule, days: nat, runId: string, cardId: string, rows: seq<Entry>, e: Entry)
    requires AllowedCount(rule).Some?
  {
    e.runId == runId && e.cardId == cardId ==>
      Load(rows, WindowTo(runId, cardId, days, e.ts), Counted) + 1 <= AllowedCount(rule).value
  }

  /** "At most N purchases per `days` days". */
  ghost predicate IsCountCap(rule: Rule, days: nat) {
    IsCap(rule, days) && rule.field.PurchasesInPeriod? && AllowedCount(rule).Some?
  }

  lemma CountRulePassed(rule: Rule, days: nat, facts: Facts, view: LedgerView, setting: Setting)
    requires IsCountCap(rule, days)
    requires view.periodWindowStart == facts.ts - days * DAY && view.periodCount.Some?
    requires var r := PeriodResult(rule, facts, view); r.outcome.Pass? || (r.outcome.Unknown? && setting.ApproveIt?)
    ensures view.periodCount.value + 1 <= AllowedCount(rule).value
  {
    assert InView(rule, facts, view);
  }

  lemma CountWhenApproved(s: Store, event: Event, ctx: Context, rule: Rule, days: nat)
    requires Deliverable(s, event, ctx) && Begin(s, event, ctx).entry.outcome.Approve?
    requires IsCountCap(rule, days)
    requires rule in ctx.policy.rules && Enforced(days, ctx.policy)
    ensures Load(s.rows, WindowTo(ctx.runId, event.cardId, days, event.facts.ts), Counted) + 1 <= AllowedCount(rule).value
  {
    hide StoreView, FactsWith, EngineFor, Begin, PeriodResult, InWindow, RunBefore, SortByTs, Load, SumBy, Filter,
      ResultsPass, EntryOk, InOrder, UniqueIds, Counted, PeriodDaysOf, AllowedCount, Enforced;
    var q := QueryFor(event, ctx);
    var view := StoreView(s, ctx.history, q);
    var facts := FactsWith(event, ctx, view);
    ApprovedByEngine(s, event, ctx);
    FactsKeepEvent(event, ctx, view);
    RuleResultsPass(facts, ctx.policy, view, ctx.soft);
    PeriodRulePassed(facts, ctx.policy, view, rule);
    ViewTotals(s, ctx.history, q);
    CheckedOverItsWindow(rule, days, facts, view, ctx.policy);
    CountRulePassed(rule, days, facts, view, ctx.policy.setting);
    WindowLoad(s.rows, q, Counted);
    CountedIsSum(InWindow(SortByTs(RunBefore(s.rows, q)), q));
  }

  lemma CountStable(rule: Rule, days: nat, runId: string, cardId: string)
    requires IsCountCap(rule, days)
    ensures Stable((runs, rows, e) => CountOk(rule, days, runId, cardId, rows, e))
  {
    MeasuresShrink();
    forall rows, later, e | RowsEvolve(rows, later) && (forall x :: x in rows ==> EntryOk(x)) && CountOk(rule, days, runId, cardId, rows, e)
      ensures CountOk(rule, days, runId, cardId, later, e)
    {
      LoadEvolves(rows, later, WindowTo(runId, cardId, days, e.ts), Counted);
    }
  }

  lemma CountEstablished(rule: Rule, days: nat, runId: string, cardId: string)
    requires IsCountCap(rule, days)
    ensures Established((runs, rows, e) => CountOk(rule, days, runId, cardId, rows, e),
                        (event, ctx) => InForce(rule, days, runId, cardId, event, ctx))
  {
    hide Begin, Load, WindowTo, PeriodDaysOf, AllowedCount;
    forall s: Store, event, ctx | InForce(rule, days, runId, cardId, event, ctx) && Deliverable(s, event, ctx)
                                  && Begin(s, event, ctx).entry.outcome.Approve?
      ensures CountOk(rule, days, runId, cardId, s.rows, Stored(Begin(s, event, ctx).entry))
    {
      BeginIsNew(s, event, ctx);
      if ctx.runId == runId && event.cardId == cardId {
        CountWhenApproved(s, event, ctx, rule, days);
      }
    }
  }

  /** Purchase count. With "at most N per `days` days" in force, the window of every automatic
      approval holds at most N approvals and pending step-ups, in every later state. */
  lemma PurchaseCount(m: Machine, steps: seq<Step>, rule: Rule, days: nat, runId: string, cardId: string)
    requires Fresh(m) && Legal(m, steps)
    requires IsCountCap(rule, days)
    requires AllGood(steps, (event, ctx) => InForce(rule, days, runId, cardId, event, ctx))
    ensures
      var rows := Exec(m, steps).store.rows;
      forall k :: 0 <= k < |rows| && rows[k].outcome.Approve? && rows[k].runId == runId && rows[k].cardId == cardId ==>
        Load(rows, WindowTo(runId, cardId, days, rows[k].ts), Counted) <= AllowedCount(rule).value
  {
    hide Exec, Legal, WellFormed, Load, WindowTo, AllGood, Stable, Established, Counted, InForce, AllowedCount;
    assert WellFormed(m) by { FreshWellFormed(m); }
    CountStable(rule, days, runId, cardId);
    CountEstablished(rule, days, runId, cardId);
    SafetyPrinciple(m, steps, (runs, rows, e) => CountOk(rule, days, runId, cardId, rows, e),
                    (event, ctx) => InForce(rule, days, runId, cardId, event, ctx));
    WellFormedRun(m, steps);
    var last := Exec(m, steps);
    forall k | 0 <= k < |last.store.rows| && last.store.rows[k].outcome.Approve?
               && last.store.rows[k].runId == runId && last.store.rows[k].cardId == cardId
      ensures Load(last.store.rows, WindowTo(runId, cardId, days, last.store.rows[k].ts), Counted) <= AllowedCount(rule).value
    {
      assert CountOk(rule, days, runId, cardId, last.store.rows[..k], last.store.rows[k]);
      WindowClosed(last, k, days, Counted);
      ApprovalMeasures(last, k);
    }
  }
}
