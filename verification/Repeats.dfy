/** Repeats and split orders over whole runs (A3, A4): what holds between an automatic approval
    and every earlier purchase at the same shop that is, or later becomes, an approval. */
module Repeats {
  import opened Seqs
  import opened Types
  import opened Ledger
  import opened Views
  import opened Sorting
  import opened PolicyRules
  import opened Warnings
  import opened Protections
  import opened Ladder
  import opened LadderJoin
  import opened Pipeline
  import opened Approvals
  import opened Runs

  /** Final approvals, and step-ups that may still become one. */
  predicate MayHold(e: Entry) { IsFinalApproval(e) || IsPending(e) }

  /** q was bought at p's shop in p's run, at most `window` seconds before it. */
  predicate ShortlyBefore(q: Entry, p: Entry, window: int) {
    q.runId == p.runId && q.merchantId == p.merchantId && p.ts - window <= q.ts <= p.ts
  }

  /** Row k is an automatic approval; row j was stored before it, shortly before it at its shop,
      and is approved or may still be. */
  predicate ApprovedAfter(rows: seq<Entry>, j: int, k: int, window: int) {
    0 <= j < k < |rows| && rows[k].outcome.Approve? && ShortlyBefore(rows[j], rows[k], window) && MayHold(rows[j])
  }

  // --- What the view shows --------------------------------------------------------------

  /** Every decision of the run's last 24 hours is among the priors. */
  lemma PriorShown(s: Store, h: History, q: Query, e: Entry)
    requires e in s.rows && IsBefore(e, q) && e.ts >= q.at - PRIOR_WINDOW
    ensures AsPrior(e) in StoreView(s, h, q).priors
  {
    hide SortByTs, CountApprovals, LastPrices, KeysOf, Fulfilments, EarlierDecisions, WatchedDecisions, WatchOn,
      NamesOf, OtherCards, LargestOf, DevicesOf, CountriesOf, Flagged, InWindow;
    var run := SortByTs(RunBefore(s.rows, q));
    var shown := Filter(run, (x: Entry) => IsPrior(x, q.at));
    assert e in RunBefore(s.rows, q);
    assert e in shown;
    var i :| 0 <= i < |shown| && shown[i] == e;
    assert PriorsOf(run, q.at)[i] == AsPrior(e);
  }

  lemma EarlierPrior(s: Store, event: Event, ctx: Context, e: Entry, facts: Facts, window: int)
    requires Deliverable(s, event, ctx) && e in s.rows && MayHold(e) && 0 <= window <= PRIOR_WINDOW
    requires facts.id == event.facts.id && facts.ts == event.facts.ts && facts.merchantId == event.facts.merchantId
    requires e.runId == ctx.runId && e.merchantId == facts.merchantId && facts.ts - window <= e.ts
    ensures AsPrior(e) in StoreView(s, ctx.history, QueryFor(event, ctx)).priors
    ensures IsEarlier(facts, AsPrior(e), window)
  {
    hide StoreView;
    PriorShown(s, ctx.history, QueryFor(event, ctx), e);
  }

  // --- Split orders ---------------------------------------------------------------------

  lemma StricterExceeds(total: int, a: OrderLimit, b: OrderLimit)
    requires Stricter(a, b) && !Exceeds(total, a)
    ensures !Exceeds(total, b)
  {
  }

  lemma NoSplit(facts: Facts, policy: Policy, view: LedgerView, rule: Rule, p: Prior)
    requires forall s :: s in Evaluate(facts, policy, view) ==> !Blocks(s) && !Asks(s)
    requires rule in policy.rules && IsOrderLimit(rule)
    requires p in view.priors && IsEarlier(facts, p, SPLIT_WINDOW)
    ensures !Exceeds(p.amount + facts.amount, LimitOf(rule))
  {
    assert Evaluate(facts, policy, view)[3] == Split(facts, policy.rules, view);
    assert !Asks(Split(facts, policy.rules, view));
    var limit := PerOrderLimit(policy.rules).value;
    StricterExceeds(p.amount + facts.amount, limit, LimitOf(rule));
  }

  ghost predicate SplitOk(rule: Rule, runId: string, rows: seq<Entry>, p: Entry)
    requires IsOrderLimit(rule)
  {
    p.runId == runId ==> forall q :: q in rows && ShortlyBefore(q, p, SPLIT_WINDOW) && MayHold(q) ==>
      !Exceeds(q.amount + p.amount, LimitOf(rule))
  }

  ghost predicate LimitInForce(rule: Rule, runId: string, event: Event, ctx: Context) {
    ctx.runId == runId ==> rule in ctx.policy.rules
  }

  lemma SplitWhenApproved(s: Store, event: Event, ctx: Context, rule: Rule, q: Entry)
    requires Deliverable(s, event, ctx) && Begin(s, event, ctx).entry.outcome.Approve?
    requires IsOrderLimit(rule) && rule in ctx.policy.rules
    requires q in s.rows && q.runId == ctx.runId && q.merchantId == event.facts.merchantId
    requires event.facts.ts - SPLIT_WINDOW <= q.ts && MayHold(q)
    ensures !Exceeds(q.amount + event.facts.amount, LimitOf(rule))
  {
    hide StoreView, FactsWith, EngineFor, Begin, Evaluate, EntryOk, InOrder, UniqueIds, LimitOf;
    var view := StoreView(s, ctx.history, QueryFor(event, ctx));
    var facts := FactsWith(event, ctx, view);
    ApprovedByEngine(s, event, ctx);
    FactsKeepEvent(event, ctx, view);
    NothingTriggered(facts, ctx.policy, view, ctx.soft);
    EarlierPrior(s, event, ctx, q, facts, SPLIT_WINDOW);
    NoSplit(facts, ctx.policy, view, rule, AsPrior(q));
  }

  lemma SplitEstablished(rule: Rule, runId: string)
    requires IsOrderLimit(rule)
    ensures Established((runs, rows, e) => SplitOk(rule, runId, rows, e), (event, ctx) => LimitInForce(rule, runId, event, ctx))
  {
    hide Begin, LimitOf, Exceeds, MayHold;
    forall s: Store, event, ctx | LimitInForce(rule, runId, event, ctx) && Deliverable(s, event, ctx)
                                  && Begin(s, event, ctx).entry.outcome.Approve?
      ensures SplitOk(rule, runId, s.rows, Stored(Begin(s, event, ctx).entry))
    {
      BeginIsNew(s, event, ctx);
      var p := Stored(Begin(s, event, ctx).entry);
      forall q | p.runId == runId && q in s.rows && ShortlyBefore(q, p, SPLIT_WINDOW) && MayHold(q)
        ensures !Exceeds(q.amount + p.amount, LimitOf(rule))
      {
        SplitWhenApproved(s, event, ctx, rule, q);
      }
    }
  }

  /** A row after answers and timeouts came from a row with the same purchase facts, and holds
      money only if that one did. */
  lemma EvolvedFrom(rows: seq<Entry>, later: seq<Entry>, q: Entry) returns (before: Entry)
    requires RowsEvolve(rows, later) && (forall x :: x in rows ==> EntryOk(x)) && q in later
    ensures before in rows && SameDecision(before, q)
  {
    var i :| 0 <= i < |later| && later[i] == q;
    before := rows[i];
    EvolvesKeeps(before, q);
  }

  lemma SplitStable(rule: Rule, runId: string)
    requires IsOrderLimit(rule)
    ensures Stable((runs, rows, e) => SplitOk(rule, runId, rows, e))
  {
    forall rows, later, p | RowsEvolve(rows, later) && (forall x :: x in rows ==> EntryOk(x)) && SplitOk(rule, runId, rows, p)
      ensures SplitOk(rule, runId, later, p)
    {
      forall q | p.runId == runId && q in later && ShortlyBefore(q, p, SPLIT_WINDOW) && MayHold(q)
        ensures !Exceeds(q.amount + p.amount, LimitOf(rule))
      {
        var before := EvolvedFrom(rows, later, q);
        assert ShortlyBefore(before, p, SPLIT_WINDOW) && MayHold(before);
      }
    }
  }

  /** No split order: in every state of every run, an automatic approval and any purchase at the
      same shop in the 10 minutes before it that is approved, or may still be, together stay
      within every per-order limit in force. */
  lemma NoSplitOrders(m: Machine, steps: seq<Step>, rule: Rule, runId: string)
    requires m.store.rows == [] && m.inflight.None? && Legal(m, steps) && IsOrderLimit(rule)
    requires AllGood(steps, (event, ctx) => LimitInForce(rule, runId, event, ctx))
    ensures
      var rows := Exec(m, steps).store.rows;
      forall j, k :: ApprovedAfter(rows, j, k, SPLIT_WINDOW) && rows[k].runId == runId ==>
        !Exceeds(rows[j].amount + rows[k].amount, LimitOf(rule))
  {
    hide Exec, Legal, AllGood, Stable, Established, SplitOk, LimitOf, Exceeds, LimitInForce, ShortlyBefore, MayHold;
    SplitStable(rule, runId);
    SplitEstablished(rule, runId);
    assert Safe(m, (runs, rows, e) => SplitOk(rule, runId, rows, e)) && WellFormed(m);
    SafetyPrinciple(m, steps, (runs, rows, e) => SplitOk(rule, runId, rows, e), (event, ctx) => LimitInForce(rule, runId, event, ctx));
    var rows := Exec(m, steps).store.rows;
    forall j, k | ApprovedAfter(rows, j, k, SPLIT_WINDOW) && rows[k].runId == runId
      ensures !Exceeds(rows[j].amount + rows[k].amount, LimitOf(rule))
    {
      SplitBetween(rule, runId, rows, j, k);
    }
  }

  lemma SplitBetween(rule: Rule, runId: string, rows: seq<Entry>, j: int, k: int)
    requires IsOrderLimit(rule) && ApprovedAfter(rows, j, k, SPLIT_WINDOW) && rows[k].runId == runId
    requires SplitOk(rule, runId, rows[..k], rows[k])
    ensures !Exceeds(rows[j].amount + rows[k].amount, LimitOf(rule))
  {
    hide LimitOf, Exceeds;
    assert rows[..k][j] in rows[..k];
  }

  // --- Repeats --------------------------------------------------------------------------

  /** The same cart at an amount within 5%. */
  predicate Repeats(q: Entry, p: Entry) {
    multiset(q.itemIds) == multiset(p.itemIds) && NearAmount(p.amount, q.amount)
  }

  predicate IsRequote(p: Entry) { p.related.Some? && p.related.value.1.RequoteOf? }

  ghost predicate RepeatOk(rows: seq<Entry>, p: Entry) {
    !IsRequote(p) ==> forall q :: q in rows && ShortlyBefore(q, p, DUPLICATE_WINDOW) && MayHold(q) ==> !Repeats(q, p)
  }

  /** Soft signals never relate a purchase to another. */
  ghost predicate PlainSoft(event: Event, ctx: Context) { forall s :: s in ctx.soft ==> s.related.None? }

  lemma ApprovedByNoSignal(results: seq<RuleResult>, protections: seq<Signal>, warnings: seq<Signal>,
                           soft: seq<Signal>, policy: Policy, frozen: bool)
    requires Decide(results, protections, warnings, soft, policy, frozen).outcome.Approve?
    ensures Decide(results, protections, warnings, soft, policy, frozen).related == RelatedOf([], protections + warnings + soft)
  {
    hide RelatedOf, SessionTrust, Filter, CustomerResults, InactiveIds, BrokenResults, ReservedResults, UnsureIds;
  }

  lemma NoneRelated(signals: seq<Signal>, id: string)
    requires forall s :: s in signals ==> !HasRelated(s, id)
    ensures RelatedIn(Filter(signals, (s: Signal) => HasRelated(s, id))) == None
  {
    assert Filter(signals, (s: Signal) => HasRelated(s, id)) == [];
  }

  lemma OneRelated(signals: seq<Signal>, id: string, r: (string, Relation))
    requires exists s :: s in signals && HasRelated(s, id)
    requires forall s :: s in signals && HasRelated(s, id) ==> s.related == Some(r)
    ensures RelatedIn(Filter(signals, (s: Signal) => HasRelated(s, id))) == Some(r)
  {
    var hits := Filter(signals, (s: Signal) => HasRelated(s, id));
    assert hits[0] in hits;
  }

  /** An approved re-quote names the decline it re-quotes. */
  lemma RequoteIsNamed(facts: Facts, policy: Policy, view: LedgerView, soft: seq<Signal>, id: string)
    requires EngineFor(facts, policy, view, soft).outcome.Approve? && Requoted(facts, view) == Some(id)
    requires forall s :: s in soft ==> s.related.None?
    ensures EngineFor(facts, policy, view, soft).related == Some((id, RequoteOf))
  {
    var protections, warnings := Evaluate(facts, policy, view), WarningSigns(facts, view, policy);
    NothingTriggered(facts, policy, view, soft);
    ApprovedByNoSignal(AddLedgerResults(EvaluateRules(facts, policy), facts, policy, view), protections, warnings, soft,
                       policy, view.frozen);
    RequoteRelation(facts, policy, view, soft, id);
  }

  /** With nothing asking, only the re-quote relates the purchase to another. */
  ghost predicate OnlyRequote(signals: seq<Signal>, id: string) {
    && (exists s :: s in signals && HasRelated(s, "A5"))
    && forall s :: s in signals && s.triggered && s.related.Some? ==> s.id == "A5" && s.related == Some((id, RequoteOf))
  }

  /** Only a duplicate, a split and a re-quote relate a purchase to another, and the first two ask. */
  lemma ShieldRelations(facts: Facts, policy: Policy, view: LedgerView)
    ensures
      var shields := Evaluate(facts, policy, view);
      && |shields| == 8 && shields[4] == Requote(Requoted(facts, view))
      && shields[2].effect.AskEffect? && shields[3].effect.AskEffect?
      && forall i :: 0 <= i < 8 && i != 2 && i != 3 && i != 4 ==> shields[i].related.None?
  {
    hide Requoted, LooksAlike, HoldsRequested, BoughtAlready, PerOrderLimit, LastPrior, IsEarlier, IsRepeat, Exceeds,
      BillsRepeatedly, AskedFor, Requote;
  }

  lemma ShieldsOnlyRequote(facts: Facts, policy: Policy, view: LedgerView, id: string)
    requires forall s :: s in Evaluate(facts, policy, view) ==> !Asks(s)
    requires Requoted(facts, view) == Some(id)
    ensures OnlyRequote(Evaluate(facts, policy, view), id)
  {
    hide Requoted, Evaluate;
    var shields := Evaluate(facts, policy, view);
    ShieldRelations(facts, policy, view);
    assert shields[4] in shields && HasRelated(shields[4], "A5");
    assert shields[2] in shields && shields[3] in shields;
  }

  lemma SignsUnrelated(facts: Facts, policy: Policy, view: LedgerView)
    ensures forall s :: s in WarningSigns(facts, view, policy) ==> s.related.None?
  {
  }

  lemma RequoteOnly(signals: seq<Signal>, id: string)
    requires OnlyRequote(signals, id)
    ensures RelatedOf([], signals) == Some((id, RequoteOf))
  {
    NoneRelated(signals, "A3");
    NoneRelated(signals, "A4");
    OneRelated(signals, "A5", (id, RequoteOf));
  }

  lemma RequoteRelation(facts: Facts, policy: Policy, view: LedgerView, soft: seq<Signal>, id: string)
    requires forall s :: s in Evaluate(facts, policy, view) ==> !Asks(s)
    requires Requoted(facts, view) == Some(id) && forall s :: s in soft ==> s.related.None?
    ensures RelatedOf([], Evaluate(facts, policy, view) + WarningSigns(facts, view, policy) + soft) == Some((id, RequoteOf))
  {
    hide Evaluate, WarningSigns, Requoted, RelatedOf;
    ShieldsOnlyRequote(facts, policy, view, id);
    SignsUnrelated(facts, policy, view);
    RequoteOnly(Evaluate(facts, policy, view) + WarningSigns(facts, view, policy) + soft, id);
  }

  lemma NotARepeat(facts: Facts, policy: Policy, view: LedgerView, p: Prior)
    requires forall s :: s in Evaluate(facts, policy, view) ==> !Blocks(s) && !Asks(s)
    requires Requoted(facts, view).None? && p in view.priors && IsEarlier(facts, p, DUPLICATE_WINDOW)
    ensures !IsRepeat(facts, p)
  {
    assert Evaluate(facts, policy, view)[2] == Duplicate(facts, view, None);
    assert !Asks(Duplicate(facts, view, None));
  }

  lemma RepeatWhenApproved(s: Store, event: Event, ctx: Context, q: Entry)
    requires Deliverable(s, event, ctx) && Begin(s, event, ctx).entry.outcome.Approve? && PlainSoft(event, ctx)
    requires q in s.rows && MayHold(q) && ShortlyBefore(q, Begin(s, event, ctx).entry, DUPLICATE_WINDOW)
    ensures !IsRequote(Begin(s, event, ctx).entry) ==> !Repeats(q, Begin(s, event, ctx).entry)
  {
    hide StoreView, FactsWith, EngineFor, Begin, Evaluate, Requoted, InOrder, UniqueIds;
    var view := StoreView(s, ctx.history, QueryFor(event, ctx));
    var facts := FactsWith(event, ctx, view);
    ApprovedByEngine(s, event, ctx);
    FactsKeepEvent(event, ctx, view);
    NothingTriggered(facts, ctx.policy, view, ctx.soft);
    EarlierPrior(s, event, ctx, q, facts, DUPLICATE_WINDOW);
    match Requoted(facts, view)
    case Some(id) => RequoteIsNamed(facts, ctx.policy, view, ctx.soft, id);
    case None => NotARepeat(facts, ctx.policy, view, AsPrior(q));
  }

  lemma RepeatEstablished()
    ensures Established((runs, rows, e) => RepeatOk(rows, e), (event, ctx) => PlainSoft(event, ctx))
  {
    hide Begin, MayHold, Repeats;
    forall s: Store, event, ctx | PlainSoft(event, ctx) && Deliverable(s, event, ctx) && Begin(s, event, ctx).entry.outcome.Approve?
      ensures RepeatOk(s.rows, Stored(Begin(s, event, ctx).entry))
    {
      var p := Begin(s, event, ctx).entry;
      forall q | !IsRequote(p) && q in s.rows && ShortlyBefore(q, Stored(p), DUPLICATE_WINDOW) && MayHold(q)
        ensures !Repeats(q, Stored(p))
      {
        RepeatWhenApproved(s, event, ctx, q);
        StoredRepeats(q, p);
      }
    }
  }

  lemma StoredRepeats(q: Entry, p: Entry)
    ensures Repeats(q, Stored(p)) == Repeats(q, p)
  {
  }

  lemma RepeatStable()
    ensures Stable((runs, rows, e) => RepeatOk(rows, e))
  {
    forall rows, later, p | RowsEvolve(rows, later) && (forall x :: x in rows ==> EntryOk(x)) && RepeatOk(rows, p)
      ensures RepeatOk(later, p)
    {
      forall q | !IsRequote(p) && q in later && ShortlyBefore(q, p, DUPLICATE_WINDOW) && MayHold(q)
        ensures !Repeats(q, p)
      {
        var before := EvolvedFrom(rows, later, q);
        assert ShortlyBefore(before, p, DUPLICATE_WINDOW) && MayHold(before);
        assert !Repeats(before, p);
      }
    }
  }

  /** No silent repeat: in every state of every run, an automatic approval that is not a re-quote
      of a decline never has the cart of a purchase at the same shop in the 24 hours before it, at
      an amount within 5%, if that purchase is approved or may still be. */
  lemma NoRepeats(m: Machine, steps: seq<Step>)
    requires m.store.rows == [] && m.inflight.None? && Legal(m, steps)
    requires AllGood(steps, (event, ctx) => PlainSoft(event, ctx))
    ensures
      var rows := Exec(m, steps).store.rows;
      forall j, k :: ApprovedAfter(rows, j, k, DUPLICATE_WINDOW) && !IsRequote(rows[k]) ==> !Repeats(rows[j], rows[k])
  {
    RepeatStable();
    RepeatEstablished();
    SafetyPrinciple(m, steps, (runs, rows, e) => RepeatOk(rows, e), (event, ctx) => PlainSoft(event, ctx));
    var rows := Exec(m, steps).store.rows;
    forall j, k | ApprovedAfter(rows, j, k, DUPLICATE_WINDOW) && !IsRequote(rows[k])
      ensures !Repeats(rows[j], rows[k])
    {
      assert RepeatOk(rows[..k], rows[k]);
      assert rows[..k][j] in rows[..k];
    }
  }
}
