/** Tightening a policy (C4): which approvals of the tightened policy the old one would also have
    given. On given facts every one of them, once the flags are restated by rules and a per-order
    limit exists; without these, and where tier 2 reads less for the tightened policy, a tightening
    can add approvals, and exactly when is stated here. */
module Tighten {
  import opened Seqs
  import opened Types
  import opened Ledger
  import opened Views
  import opened PolicyRules
  import opened Warnings
  import Protections
  import opened Ladder
  import opened LadderJoin
  import opened Pipeline
  import opened Approvals
  import opened Policies
  import opened Remember
  import opened CleanSheet
  import opened TierTwo
  import Budget

  /** `tight` is `p` with rules added, and perhaps the setting moved to "decline". */
  ghost predicate Tightens(tight: Policy, p: Policy, added: seq<Rule>) {
    && tight == p.(rules := p.rules + added, setting := tight.setting)
    && (tight.setting == p.setting || tight.setting.DeclineIt?) && !p.setting.ApproveIt?
  }

  /** The views agree outside the period totals. */
  predicate SameOutsidePeriod(v: LedgerView, w: LedgerView) {
    w == v.(periodSpent := w.periodSpent, periodReserved := w.periodReserved, periodWindowStart := w.periodWindowStart,
            periodCount := w.periodCount, periodReservedCount := w.periodReservedCount,
            periodLastApprovedAt := w.periodLastApprovedAt)
  }

  predicate HasPeriodRule(rules: seq<Rule>) { exists r :: r in rules && r.scope.PerPeriod? }

  /** The old policy's view of the ledger the tightened one was checked against: the same, but
      perhaps over another window when the old policy has no period rule to read it. */
  predicate OldView(p: Policy, view: LedgerView, tightView: LedgerView) {
    SameOutsidePeriod(view, tightView) && (HasPeriodRule(p.rules) ==> view == tightView)
  }

  // --- Rules ------------------------------------------------------------------------------------

  lemma SameWithLedger(res: RuleResult, facts: Facts, rules: seq<Rule>, rules': seq<Rule>, view: LedgerView, view': LedgerView)
    requires RuleById(rules, res.ruleId) == RuleById(rules', res.ruleId) && SameOutsidePeriod(view, view')
    ensures WithLedger(res, facts, rules, view) == WithLedger(res, facts, rules', view')
  {
  }

  lemma SameResult(r: Rule, facts: Facts, p: Policy, tight: Policy, added: seq<Rule>, view: LedgerView, tightView: LedgerView)
    requires Tidy(p) && Tidy(tight) && Tightens(tight, p, added) && SameOutsidePeriod(view, tightView) && r in p.rules
    ensures ResultFor(r, facts, p, view) == ResultFor(r, facts, tight, tightView)
  {
    hide WithLedger, EvaluateTypedRule, FlagIds;
    TypedSame(r, facts, p, tight);
    TypedId(r, facts, p);
    RuleFound(p.rules, r);
    RuleFound(tight.rules, r);
    SameWithLedger(EvaluateTypedRule(r, facts, p), facts, p.rules, tight.rules, view, tightView);
  }

  lemma OldRulesPass(facts: Facts, p: Policy, tight: Policy, added: seq<Rule>, view: LedgerView, tightView: LedgerView)
    requires Tidy(p) && Tidy(tight) && Tightens(tight, p, added) && OldView(p, view, tightView)
    requires RulesPass(facts, tight, tightView)
    ensures RulesPass(facts, p, view)
  {
    hide ResultFor, PeriodResult, Tidy;
    forall r | r in p.rules && !r.scope.PerPeriod? ensures ResultFor(r, facts, p, view).outcome.Pass? {
      SameResult(r, facts, p, tight, added, view, tightView);
    }
  }

  /** A per-order limit in force that passed: the total is within it. */
  lemma WithinOrderLimit(r: Rule, facts: Facts, p: Policy, view: LedgerView)
    requires Tidy(p) && r in p.rules && IsOrderLimit(r) && ResultFor(r, facts, p, view).outcome.Pass?
    ensures facts.amount <= LimitOf(r).amount
  {
    hide FlagIds, RuleValueChf, RuleById, Lower, NumText, SumBy, Filter;
    RuleFound(p.rules, r);
  }

  // --- Protections --------------------------------------------------------------------------------

  lemma ExceedsStricter(total: int, a: Option<OrderLimit>, b: Option<OrderLimit>)
    requires a.Some? && b.Some? && Stricter(a.value, b.value) && Exceeds(total, b.value)
    ensures Exceeds(total, a.value)
  {
  }

  lemma StricterAfter(rules: seq<Rule>, added: seq<Rule>)
    requires PerOrderLimit(rules).Some?
    ensures PerOrderLimit(rules + added).Some?
    ensures Stricter(PerOrderLimit(rules + added).value, PerOrderLimit(rules).value)
  {
    var x :| x in rules && IsOrderLimit(x) && LimitOf(x) == PerOrderLimit(rules).value;
    assert x in rules + added;
  }

  lemma SplitStays(facts: Facts, rules: seq<Rule>, added: seq<Rule>, view: LedgerView, tightView: LedgerView)
    requires view.priors == tightView.priors && !Asks(Protections.Split(facts, rules + added, tightView))
    ensures !Asks(Protections.Split(facts, rules, view)) && !Blocks(Protections.Split(facts, rules, view))
  {
    hide PerOrderLimit, Protections.IsEarlier;
    var limit, tighter := PerOrderLimit(rules), PerOrderLimit(rules + added);
    if limit.Some? {
      StricterAfter(rules, added);
      forall p: Prior | p in view.priors && Protections.IsEarlier(facts, p, Protections.SPLIT_WINDOW)
        ensures !Exceeds(p.amount + facts.amount, limit.value)
      {
        if Exceeds(p.amount + facts.amount, limit.value) {
          ExceedsStricter(p.amount + facts.amount, tighter, limit);
        }
      }
    }
  }

  lemma OldShielded(facts: Facts, p: Policy, tight: Policy, added: seq<Rule>, view: LedgerView, tightView: LedgerView)
    requires Tightens(tight, p, added) && SameOutsidePeriod(view, tightView) && Shielded(facts, tight, tightView)
    ensures Shielded(facts, p, view)
  {
    hide Protections.Requoted, Protections.Duplicate, Protections.Split, Protections.LooksAlike, BillsRepeatedly,
      Protections.HoldsRequested, Protections.BoughtAlready, Protections.Requote, Protections.AskedFor;
    var old', now := Protections.Evaluate(facts, p, view), Protections.Evaluate(facts, tight, tightView);
    SameShields(facts, p, tight, added, view, tightView);
    assert now[3] == Protections.Split(facts, p.rules + added, tightView) && now[3] in now;
    SplitStays(facts, p.rules, added, view, tightView);
    forall s | s in old' ensures !Blocks(s) && !Asks(s) {
      var i :| 0 <= i < |old'| && old'[i] == s;
      if i != 3 { assert now[i] in now; }
    }
  }

  lemma SameShields(facts: Facts, p: Policy, tight: Policy, added: seq<Rule>, view: LedgerView, tightView: LedgerView)
    requires Tightens(tight, p, added) && SameOutsidePeriod(view, tightView)
    ensures
      var before, now := Protections.Evaluate(facts, p, view), Protections.Evaluate(facts, tight, tightView);
      && |before| == |now| == 8 && before[3] == Protections.Split(facts, p.rules, view)
      && forall i :: 0 <= i < 8 && i != 3 ==> before[i] == now[i]
  {
    hide Protections.Split, PerOrderLimit, Protections.LastPrior;
    assert Protections.Requoted(facts, view) == Protections.Requoted(facts, tightView);
  }

  // --- Warning signs ------------------------------------------------------------------------------

  function Ones(b: bool): nat { if b then 1 else 0 }

  lemma WeakSigns(w: seq<Signal>)
    requires |w| == 6 && !WarnsWeakly(w[0]) && !WarnsWeakly(w[1])
    ensures |Filter(w, WarnsWeakly)| ==
      Ones(WarnsWeakly(w[2])) + Ones(WarnsWeakly(w[3])) + Ones(WarnsWeakly(w[4])) + Ones(WarnsWeakly(w[5]))
  {
    hide WarnsWeakly;
    assert w == [w[0], w[1]] + [w[2], w[3]] + [w[4], w[5]];
    FilterConcat([w[0], w[1]] + [w[2], w[3]], [w[4], w[5]], WarnsWeakly);
    FilterConcat([w[0], w[1]], [w[2], w[3]], WarnsWeakly);
    PairFilter(w[0], w[1]);
    PairFilter(w[2], w[3]);
    PairFilter(w[4], w[5]);
  }

  lemma PairFilter(x: Signal, y: Signal)
    ensures |Filter([x, y], WarnsWeakly)| == Ones(WarnsWeakly(x)) + Ones(WarnsWeakly(y))
  {
    hide WarnsWeakly;
    assert [x, y] == ([] + [x]) + [y];
    FilterAppend([] + [x], y, WarnsWeakly);
    FilterAppend([], x, WarnsWeakly);
  }

  /** The signs a new per-order limit silences: "above normal" and one other weak sign, which
      together ask under the old policy. */
  predicate LosesPair(facts: Facts, p: Policy, tight: Policy, view: LedgerView) {
    && PerOrderLimit(p.rules).None? && PerOrderLimit(tight.rules).Some?
    && Warns(AboveNormal(facts, view, None))
    && (Warns(NewCountry(facts, view)) || Warns(Night(facts)) || Warns(PriceOutsideRange(facts)))
  }

  /** The two strong signs come first, then the four weak ones. */
  lemma SignStrengths(facts: Facts, p: Policy, view: LedgerView)
    ensures
      var w := WarningSigns(facts, view, p);
      && |w| == 6 && w[0] == NewDevice(facts, view) && w[1] == Burst(facts) && w[2] == NewCountry(facts, view)
      && w[3] == AboveNormal(facts, view, PerOrderLimit(p.rules)) && w[4] == Night(facts) && w[5] == PriceOutsideRange(facts)
      && (forall i :: 0 <= i < 6 ==> w[i].strength == if i < 2 then Strong else Weak)
  {
    hide PerOrderLimit, OutsideRange, NoBaseline;
  }

  lemma StrongSigns(w: seq<Signal>)
    requires |w| == 6 && forall i :: 0 <= i < 6 ==> w[i].strength == if i < 2 then Strong else Weak
    ensures (exists x :: x in w && WarnsStrongly(x)) <==> Warns(w[0]) || Warns(w[1])
    ensures forall i :: 0 <= i < 6 ==> (WarnsWeakly(w[i]) <==> i >= 2 && Warns(w[i]))
  {
    hide Warns;
    assert w[0] in w && w[1] in w;
  }

  lemma Signs(facts: Facts, p: Policy, view: LedgerView, soft: seq<Signal>)
    ensures
      var weak := Ones(Warns(NewCountry(facts, view))) + Ones(Warns(AboveNormal(facts, view, PerOrderLimit(p.rules))))
                  + Ones(Warns(Night(facts))) + Ones(Warns(PriceOutsideRange(facts)));
      SignsAsk(WarningSigns(facts, view, p), soft, view.frozen) <==>
        Warns(NewDevice(facts, view)) || Warns(Burst(facts)) || weak >= 2 || AnyAsks(soft) || view.frozen
  {
    hide WarningSigns, NewDevice, Burst, NewCountry, AboveNormal, Night, PriceOutsideRange, PerOrderLimit, Filter, Warns, WarnsWeakly, WarnsStrongly;
    var w := WarningSigns(facts, view, p);
    SignStrengths(facts, p, view);
    StrongSigns(w);
    WeakSigns(w);
  }

  lemma WithinAll(facts: Facts, p: Policy, view: LedgerView)
    requires Tidy(p) && RulesPass(facts, p, view) && PerOrderLimit(p.rules).Some?
    ensures facts.amount <= PerOrderLimit(p.rules).value.amount
    ensures !Warns(AboveNormal(facts, view, PerOrderLimit(p.rules)))
  {
    hide ResultFor, PeriodResult, Tidy, LimitOf;
    var x :| x in p.rules && IsOrderLimit(x) && LimitOf(x) == PerOrderLimit(p.rules).value;
    WithinOrderLimit(x, facts, p, view);
  }

  lemma OldSigns(facts: Facts, p: Policy, tight: Policy, added: seq<Rule>, view: LedgerView, tightView: LedgerView, soft: seq<Signal>)
    requires Tidy(p) && Tidy(tight) && Tightens(tight, p, added) && SameOutsidePeriod(view, tightView)
    requires RulesPass(facts, tight, tightView) && RulesPass(facts, p, view)
    requires !SignsAsk(WarningSigns(facts, tightView, tight), soft, tightView.frozen)
    ensures SignsAsk(WarningSigns(facts, view, p), soft, view.frozen) <==> LosesPair(facts, p, tight, view)
  {
    hide SignsAsk, WarningSigns, Tidy, RulesPass, PerOrderLimit, Warns;
    Signs(facts, p, view, soft);
    Signs(facts, tight, tightView, soft);
    SameSigns(facts, view, tightView);
    if PerOrderLimit(p.rules).Some? {
      WithinAll(facts, p, view);
    } else if PerOrderLimit(tight.rules).Some? {
      WithinAll(facts, tight, tightView);
    } else {
      SameAboveNormal(facts, view, tightView);
    }
  }

  lemma SameSigns(facts: Facts, view: LedgerView, tightView: LedgerView)
    requires SameOutsidePeriod(view, tightView)
    ensures NewDevice(facts, view) == NewDevice(facts, tightView) && NewCountry(facts, view) == NewCountry(facts, tightView)
  {
  }

  lemma SameAboveNormal(facts: Facts, view: LedgerView, tightView: LedgerView)
    requires SameOutsidePeriod(view, tightView)
    ensures AboveNormal(facts, view, None) == AboveNormal(facts, tightView, None)
  {
  }

  // --- The exact statement --------------------------------------------------------------------------

  /** Which approvals of a tightened policy the old one shares: those where each flag the old
      policy checks by itself passes, and no pair of weak signs is silenced by a new limit. */
  lemma TightenExact(facts: Facts, p: Policy, tight: Policy, added: seq<Rule>, view: LedgerView, tightView: LedgerView,
                     soft: seq<Signal>)
    requires Tidy(p) && Tidy(tight) && Tightens(tight, p, added) && OldView(p, view, tightView)
    requires EngineFor(facts, tight, tightView, soft).outcome.Approve?
    ensures EngineFor(facts, p, view, soft).outcome.Approve? <==>
      FlagsPass(facts, p, view) && !LosesPair(facts, p, tight, view)
  {
    hide EngineFor, Tidy, RulesPass, FlagsPass, Shielded, SignsAsk, LosesPair;
    ApprovedIffClean(facts, tight, tightView, soft);
    ApprovedIffClean(facts, p, view, soft);
    OldRulesPass(facts, p, tight, added, view, tightView);
    OldShielded(facts, p, tight, added, view, tightView);
    OldSigns(facts, p, tight, added, view, tightView, soft);
  }

  function FlagsOf(p: Policy): PolicyFlags {
    PolicyFlags(p.requestedItem, p.allowed, p.blocked, p.requiresKnownShop, p.nothingExtra, p.shopType, p.singleItem)
  }

  /** With every flag restated only C5 and C10 are checked by themselves, tightened or not. */
  lemma RestatedFlags(facts: Facts, p: Policy, tight: Policy, added: seq<Rule>)
    requires Tightens(tight, p, added) && FlagsRestated(FlagsOf(p), p.rules)
    ensures FlagResults(facts, p) == FlagResults(facts, tight)
  {
    hide CheckAllowedTypes, CheckBlockedTypes, CheckShopType, CheckKnownShop, InCategories, CoveredBy;
    AddedRestates(FlagsOf(p), p.rules, added);
    assert IsRequestedSame(facts, p, tight);
  }

  predicate IsRequestedSame(facts: Facts, p: Policy, tight: Policy) {
    CheckRequestedItem(facts, p) == CheckRequestedItem(facts, tight) && CheckNothingExtra(facts, p) == CheckNothingExtra(facts, tight)
  }

  /** Where every flag is restated by a rule only the signs can part the two: the old policy shares
      an approval exactly when no pair of weak signs is silenced. */
  lemma RestatedExact(facts: Facts, p: Policy, tight: Policy, added: seq<Rule>, view: LedgerView, tightView: LedgerView,
                      soft: seq<Signal>)
    requires Tidy(p) && Tidy(tight) && Tightens(tight, p, added) && OldView(p, view, tightView)
    requires FlagsRestated(FlagsOf(p), p.rules) && EngineFor(facts, tight, tightView, soft).outcome.Approve?
    ensures EngineFor(facts, p, view, soft).outcome.Approve? <==> !LosesPair(facts, p, tight, view)
    ensures RulesPass(facts, p, view) && FlagsPass(facts, p, view) && Shielded(facts, p, view) && InForceNow(facts, p)
    ensures LosesPair(facts, p, tight, view) ==>
      SignsAsk(WarningSigns(facts, view, p), soft, view.frozen) && EngineFor(facts, p, view, soft).outcome.StepUp?
  {
    hide EngineFor, Tidy, RulesPass, Shielded, SignsAsk, FlagsRestated, FlagResults, LosesPair, WarningSigns;
    TightenExact(facts, p, tight, added, view, tightView, soft);
    ApprovedIffClean(facts, tight, tightView, soft);
    RestatedFlags(facts, p, tight, added);
    forall res | res in FlagResults(facts, p) ensures FlagChecked(res, facts, view).outcome.Pass? {
      SameFlagChecked(res, facts, view, tightView);
    }
    OldRulesPass(facts, p, tight, added, view, tightView);
    OldShielded(facts, p, tight, added, view, tightView);
    OldSigns(facts, p, tight, added, view, tightView, soft);
    if LosesPair(facts, p, tight, view) { SignsStepUp(facts, p, view, soft); }
  }

  /** Tightening only shrinks the approvals of a policy whose flags are restated by its rules and
      which has a per-order limit. */
  lemma TightenShrinks(facts: Facts, p: Policy, tight: Policy, added: seq<Rule>, view: LedgerView, tightView: LedgerView,
                       soft: seq<Signal>)
    requires Tidy(p) && Tidy(tight) && Tightens(tight, p, added) && OldView(p, view, tightView)
    requires FlagsRestated(FlagsOf(p), p.rules) && PerOrderLimit(p.rules).Some?
    requires EngineFor(facts, tight, tightView, soft).outcome.Approve?
    ensures EngineFor(facts, p, view, soft).outcome.Approve?
  {
    hide EngineFor, Tidy, FlagsRestated, PerOrderLimit;
    RestatedExact(facts, p, tight, added, view, tightView, soft);
  }

  lemma SameFlagChecked(res: RuleResult, facts: Facts, view: LedgerView, tightView: LedgerView)
    requires SameOutsidePeriod(view, tightView)
    ensures FlagChecked(res, facts, view) == FlagChecked(res, facts, tightView)
  {
  }

  // --- On the same ledger ---------------------------------------------------------------------------

  lemma SameRun(rows: seq<Entry>, q: Query, q': Query)
    requires q' == q.(periodDays := q'.periodDays)
    ensures RunBefore(rows, q) == RunBefore(rows, q')
  {
    Budget.SameFilter(rows, (e: Entry) => IsBefore(e, q), (e: Entry) => IsBefore(e, q'));
  }

  lemma SameAssembly(run: seq<Entry>, priors: seq<Prior>, fulfilled: seq<Fulfilment>, keys: set<string>, watch: bool,
                     s: Store, h: History, q: Query, q': Query)
    requires q' == q.(periodDays := q'.periodDays)
    ensures SameOutsidePeriod(Assemble(run, priors, fulfilled, keys, watch, s, h, q), Assemble(run, priors, fulfilled, keys, watch, s, h, q'))
  {
    hide Filter, InWindow, CountApprovals, OnCard, OffCard, LastPrices, MaxOf, SumBy, DevicesOf, CountriesOf, NamesOf,
      OtherCards, HeldOn, Flagged, LargestOf;
  }

  lemma ViewsDifferInPeriod(s: Store, h: History, q: Query, q': Query)
    requires q' == q.(periodDays := q'.periodDays)
    ensures SameOutsidePeriod(StoreView(s, h, q), StoreView(s, h, q'))
    ensures StoreView(s, h, q').periodWindowStart == WindowStart(q'.at, q'.periodDays)
  {
    hide Assemble, RunBefore, SortByTs, WatchOn, PriorsOf, Fulfilments, KeysOf, CardDecisions, EarlierDecisions, EarlierLiveRuns, SameOutsidePeriod;
    SameRun(s.rows, q, q');
    var run := SortByTs(RunBefore(s.rows, q));
    var earlier := EarlierDecisions(s, q.runId);
    assert WatchedDecisions(s, q) == WatchedDecisions(s, q') by { SameWatched(s, q, q'); }
    SameAssembly(run, PriorsOf(run, q.at), Fulfilments(earlier + run, s.requested), KeysOf(run + earlier),
                 WatchOn(WatchedDecisions(s, q)), s, h, q, q');
    Budget.ViewTotals(s, h, q');
  }

  lemma SameWatched(s: Store, q: Query, q': Query)
    requires q' == q.(periodDays := q'.periodDays)
    ensures WatchedDecisions(s, q) == WatchedDecisions(s, q')
  {
    hide CardDecisions, EarlierLiveRuns, SortByTs, RunBefore;
    SameRun(s.rows, q, q');
    var run := SortByTs(RunBefore(s.rows, q));
    Budget.SameFilter(run, (e: Entry) => e.cardId == q.cardId, (e: Entry) => e.cardId == q'.cardId);
  }

  /** The window of a policy whose period rules all passed over `days` days. */
  lemma WindowStays(p: Policy, tight: Policy, added: seq<Rule>, facts: Facts, view: LedgerView, at: int)
    requires Tightens(tight, p, added) && HasPeriodRule(p.rules) && facts.ts == at
    requires view.periodWindowStart == WindowStart(at, PeriodDaysOf(tight.rules))
    requires forall r :: r in p.rules && r.scope.PerPeriod? ==> PeriodResult(r, facts, view).outcome.Pass?
    ensures PeriodDaysOf(p.rules) == PeriodDaysOf(tight.rules)
  {
    hide PeriodDaysOf, PeriodResult;
    var days := PeriodDaysOf(tight.rules);
    forall r | r in p.rules && r.scope.PerPeriod? ensures HasWindow(r) && r.periodDays == days {
      PassedInView(r, facts, view);
      assert r in tight.rules;
    }
    var r :| r in p.rules && r.scope.PerPeriod?;
    OneWindow(p.rules, r);
  }

  lemma PassedInView(r: Rule, facts: Facts, view: LedgerView)
    requires PeriodResult(r, facts, view).outcome.Pass?
    ensures InView(r, facts, view)
  {
  }

  lemma OneWindow(rules: seq<Rule>, r: Rule)
    requires r in rules && r.scope.PerPeriod? && HasWindow(r)
    requires forall x :: x in rules && x.scope.PerPeriod? ==> HasWindow(x) && x.periodDays == r.periodDays
    ensures PeriodDaysOf(rules) == r.periodDays
  {
  }

  /** What the silenced pair reads, tier 2 never changes. */
  lemma SamePair(event: Event, ctx: Context, p: Policy, tight: Policy, view: LedgerView, shown: LedgerView)
    ensures LosesPair(FactsWith(event, ctx, shown), p, tight, view) == LosesPair(event.facts, p, tight, view)
  {
    hide PerOrderLimit, AnyRuleUnknown, WithReading, LosesPair, ReadFrom, TopicsAsked;
    var raw := RawFacts(event, shown);
    assert LosesPair(raw, p, tight, view) == LosesPair(event.facts, p, tight, view) by { KnownSame(event.facts, raw, p, tight, view); }
    if ctx.tier2.Some? {
      var asked := TopicsAsked(raw, ctx.policy, ctx.tier2.value.quoted);
      ReadingFills(raw, ctx.tier2.value.lines, asked);
      ReadSame(raw, WithReading(raw, ctx.tier2.value.lines, asked), p, tight, view);
    }
  }

  lemma KnownSame(facts: Facts, raw: Facts, p: Policy, tight: Policy, view: LedgerView)
    requires raw == facts.(merchantKnown := raw.merchantKnown)
    ensures LosesPair(raw, p, tight, view) == LosesPair(facts, p, tight, view)
  {
    hide PerOrderLimit, NoBaseline, OutsideRange;
  }

  lemma ReadSame(before: Facts, after: Facts, p: Policy, tight: Policy, view: LedgerView)
    requires ReadFrom(before, after)
    ensures LosesPair(after, p, tight, view) == LosesPair(before, p, tight, view)
  {
    hide PerOrderLimit, NoBaseline, OutsideRange, Alike;
    assert PriceOutsideRange(before) == PriceOutsideRange(after) by { PriceSame(before, after); }
    hide PriceOutsideRange;
  }

  /** The tightened policy was read less for than the old one, and what it missed breaks a window. */
  predicate LosesReading(event: Event, ctx: Context, tight: Policy, view: LedgerView) {
    ctx.tier2.Some? && LosesWindow(RawFacts(event, view), ctx.policy, tight, ctx.tier2.value)
  }

  /** Tightening on the same ledger. Each policy is decided on its own window's view and on what tier 2
      reads for it. Of what the tightened policy approves automatically the old one would have approved
      everything, except where the new limit silences a pair of weak signs, or where the tightened
      policy asks for sizes only and a window read for the old one breaks its return-window rule. */
  lemma TightenedApprovalsIff(s: Store, event: Event, ctx: Context, tight: Policy, added: seq<Rule>)
    requires Tidy(ctx.policy) && Tidy(tight) && Tightens(tight, ctx.policy, added) && WindowsAtLeast(ctx.policy.rules)
    requires FlagsRestated(FlagsOf(ctx.policy), ctx.policy.rules)
    requires Begin(s, event, ctx.(policy := tight)).entry.outcome.Approve?
    ensures
      var view := StoreView(s, ctx.history, QueryFor(event, ctx));
      && (Begin(s, event, ctx).entry.outcome.Approve? <==>
            !LosesPair(event.facts, ctx.policy, tight, view) && !LosesReading(event, ctx, tight, view))
      && (LosesPair(event.facts, ctx.policy, tight, view) && !LosesReading(event, ctx, tight, view) ==>
            Begin(s, event, ctx).entry.outcome.StepUp?)
  {
    hide StoreView, EngineFor, Tidy, FlagsRestated, Begin, PeriodDaysOf, RulesPass, FlagsPass, Shielded, SignsAsk,
      FactsWith, WindowsAtLeast, LosesPair, WarningSigns, LosesReading;
    var p, after := ctx.policy, ctx.(policy := tight);
    var q, q' := QueryFor(event, ctx), QueryFor(event, after);
    var view, tightView := StoreView(s, ctx.history, q), StoreView(s, ctx.history, q');
    ViewsDifferInPeriod(s, ctx.history, q, q');
    ApprovedByEngine(s, event, after);
    var facts := FactsWith(event, after, tightView);
    FactsKeepEvent(event, after, tightView);
    ApprovedIffClean(facts, tight, tightView, ctx.soft);
    OldViewOf(p, tight, added, facts, view, tightView, s, ctx.history, q, q');
    RestatedExact(facts, p, tight, added, view, tightView, ctx.soft);
    SamePair(event, after, p, tight, view, tightView);
    OnOwnReading(event, ctx, tight, added, view, tightView);
    EngineDecides(s, event, ctx);
  }

  /** From the facts read for the tightened policy to those read for the old one. */
  lemma OnOwnReading(event: Event, ctx: Context, tight: Policy, added: seq<Rule>, view: LedgerView, tightView: LedgerView)
    requires Tidy(ctx.policy) && Tightens(tight, ctx.policy, added) && SameOutsidePeriod(view, tightView) && WindowsAtLeast(ctx.policy.rules)
    requires
      var facts, p := FactsWith(event, ctx.(policy := tight), tightView), ctx.policy;
      && RulesPass(facts, p, view) && FlagsPass(facts, p, view) && Shielded(facts, p, view) && InForceNow(facts, p)
      && (EngineFor(facts, p, view, ctx.soft).outcome.Approve? <==> !LosesPair(facts, p, tight, view))
      && (LosesPair(facts, p, tight, view) ==> SignsAsk(WarningSigns(facts, view, p), ctx.soft, view.frozen))
    ensures
      var pair, outcome := LosesPair(FactsWith(event, ctx.(policy := tight), tightView), ctx.policy, tight, view),
                           EngineFor(FactsWith(event, ctx, view), ctx.policy, view, ctx.soft).outcome;
      && (outcome.Approve? <==> !pair && !LosesReading(event, ctx, tight, view))
      && (pair && !LosesReading(event, ctx, tight, view) ==> outcome.StepUp?)
  {
    hide EngineFor, Tidy, LosesPair, SignsAsk, WarningSigns, AfterTier2, RulesPass, SameButRead, ReadRulesPass, LosesWindow, WindowsAtLeast,
      FlagsPass, Shielded, InForceNow;
    var p, raw := ctx.policy, RawFacts(event, view);
    var facts, own := FactsWith(event, ctx.(policy := tight), tightView), FactsWith(event, ctx, view);
    assert RawFacts(event, tightView) == raw;
    ReadForBoth(raw, ctx, tight);
    assert ReadRulesPass(facts, p) by { ReadRulesAmong(facts, p, view); }
    if ctx.tier2.Some? { OldReadRules(raw, p, tight, added, ctx.tier2.value); }
    if LosesPair(facts, p, tight, view) {
      SignsSame(facts, own, p, view);
      ApprovedIffClean(own, p, view, ctx.soft);
      if ReadRulesPass(own, p) {
        CleanOnReading(facts, own, p, view);
        SignsStepUp(own, p, view, ctx.soft);
      }
    } else {
      ApprovedOnReading(facts, own, p, view, ctx.soft);
    }
  }

  lemma ReadRulesAmong(facts: Facts, p: Policy, view: LedgerView)
    requires Tidy(p) && RulesPass(facts, p, view)
    ensures ReadRulesPass(facts, p)
  {
    hide Tidy, EvaluateTypedRule, ResultFor;
    forall r | r in p.rules && !r.scope.PerPeriod? && IsReadField(r.field) ensures EvaluateTypedRule(r, facts, p).outcome.Pass? {
      ReadResult(r, facts, p, view);
    }
  }

  /** The facts each of the two policies is decided on. */
  lemma ReadForBoth(raw: Facts, ctx: Context, tight: Policy)
    ensures SameButRead(AfterTier2(raw, ctx.(policy := tight)), AfterTier2(raw, ctx))
    ensures ctx.tier2.None? ==> AfterTier2(raw, ctx.(policy := tight)) == AfterTier2(raw, ctx)
    ensures ctx.tier2.Some? ==>
      var reading := ctx.tier2.value;
      && AfterTier2(raw, ctx.(policy := tight)) == WithReading(raw, reading.lines, AskedFor(raw, tight, reading.quoted))
      && AfterTier2(raw, ctx) == WithReading(raw, reading.lines, AskedFor(raw, ctx.policy, reading.quoted))
  {
    hide AnyRuleUnknown, WithReading, TopicsAsked, AskedFor;
    if ctx.tier2.Some? {
      var reading := ctx.tier2.value;
      ReadAsAsked(raw, ctx);
      ReadAsAsked(raw, ctx.(policy := tight));
      Siblings(raw, reading.lines, AskedFor(raw, tight, reading.quoted), AskedFor(raw, ctx.policy, reading.quoted));
    }
  }

  /** So with a per-order limit already in force and nothing missed in reading, tightening only shrinks
      what is approved. */
  lemma TightenedApprovalsShrink(s: Store, event: Event, ctx: Context, tight: Policy, added: seq<Rule>)
    requires Tidy(ctx.policy) && Tidy(tight) && Tightens(tight, ctx.policy, added) && WindowsAtLeast(ctx.policy.rules)
    requires FlagsRestated(FlagsOf(ctx.policy), ctx.policy.rules) && PerOrderLimit(ctx.policy.rules).Some?
    requires Begin(s, event, ctx.(policy := tight)).entry.outcome.Approve?
    ensures Begin(s, event, ctx).entry.outcome.Approve? <==>
      !LosesReading(event, ctx, tight, StoreView(s, ctx.history, QueryFor(event, ctx)))
  {
    hide StoreView, Tidy, FlagsRestated, PerOrderLimit, Begin, WindowsAtLeast, LosesReading;
    TightenedApprovalsIff(s, event, ctx, tight, added);
  }

  lemma OldViewOf(p: Policy, tight: Policy, added: seq<Rule>, facts: Facts, view: LedgerView, tightView: LedgerView,
                  s: Store, h: History, q: Query, q': Query)
    requires Tightens(tight, p, added) && RulesPass(facts, tight, tightView) && facts.ts == q'.at
    requires q' == q.(periodDays := q'.periodDays) && q.periodDays == PeriodDaysOf(p.rules) && q'.periodDays == PeriodDaysOf(tight.rules)
    requires view == StoreView(s, h, q) && tightView == StoreView(s, h, q')
    ensures OldView(p, view, tightView)
  {
    hide StoreView, PeriodDaysOf, PeriodResult, ResultFor;
    ViewsDifferInPeriod(s, h, q, q');
    if HasPeriodRule(p.rules) {
      WindowStays(p, tight, added, facts, tightView, q'.at);
      assert q == q';
    }
  }

  lemma EngineDecides(s: Store, event: Event, ctx: Context)
    requires !NoActivePolicy(ctx.policy, event.cardId)
    ensures
      var view := StoreView(s, ctx.history, QueryFor(event, ctx));
      Begin(s, event, ctx).entry.outcome == EngineFor(FactsWith(event, ctx, view), ctx.policy, view, ctx.soft).outcome
  {
    hide StoreView, EngineFor, FactsWith;
  }
}
