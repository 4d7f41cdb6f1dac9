/** What an automatic approval is, rule by rule: under a setting that asks or declines when
    unsure, the engine approves exactly when everything it checks passes and nothing warns. */
module CleanSheet {
  import opened Seqs
  import opened Types
  import opened Ledger
  import opened PolicyRules
  import opened Warnings
  import Protections
  import opened Ladder
  import opened LadderJoin
  import opened Pipeline
  import opened Draft
  import opened Policies
  import opened Remember

  /** Rule ids are distinct, no rule has the id of a step-1 check, and a flag that is checked
      by itself shares its id with no rule. */
  ghost predicate Tidy(p: Policy) {
    && DistinctIds(p.rules) && (forall r :: r in p.rules ==> r.id !in STEP1_IDS)
    && forall id :: id in FlagIds(p) ==> !HasId(p.rules, id)
  }

  /** The flags of the policy that are checked by themselves. */
  function FlagIds(p: Policy): set<string> {
    (if AllowedStated(p) then {"C3"} else {}) + (if BlockedStated(p) then {"C4"} else {})
    + (if p.requestedItem.Some? then {"C5"} else {}) + (if ShopTypeStated(p) then {"C8"} else {})
    + (if KnownShopStated(p) then {"C9"} else {}) + (if p.nothingExtra then {"C10"} else {})
  }

  /** A flag's result once the ledger has been read. */
  function FlagChecked(res: RuleResult, facts: Facts, view: LedgerView): RuleResult {
    if res.ruleId == "C9" then KnownShopWithLedger(res, facts, view) else res
  }

  ghost predicate RulesPass(facts: Facts, p: Policy, view: LedgerView) {
    && (forall r :: r in p.rules && !r.scope.PerPeriod? ==> ResultFor(r, facts, p, view).outcome.Pass?)
    && (forall r :: r in p.rules && r.scope.PerPeriod? ==> PeriodResult(r, facts, view).outcome.Pass?)
  }

  ghost predicate FlagsPass(facts: Facts, p: Policy, view: LedgerView) {
    forall res :: res in FlagResults(facts, p) ==> FlagChecked(res, facts, view).outcome.Pass?
  }

  predicate InForceNow(facts: Facts, p: Policy) { p.status.Active? && facts.authorityActive && facts.cardActive }

  ghost predicate Shielded(facts: Facts, p: Policy, view: LedgerView) {
    forall s :: s in Protections.Evaluate(facts, p, view) ==> !Blocks(s) && !Asks(s)
  }

  function Results(facts: Facts, p: Policy, view: LedgerView): seq<RuleResult> {
    AddLedgerResults(EvaluateRules(facts, p), facts, p, view)
  }

  // --- Which results there are ------------------------------------------------------------------

  lemma {:induction false} RuleFound(rules: seq<Rule>, r: Rule)
    requires DistinctIds(rules) && r in rules
    ensures RuleById(rules, r.id) == Some(r)
  {
    var n := |rules| - 1;
    assert rules == rules[..n] + [rules[n]];
    var i :| 0 <= i < |rules| && rules[i] == r;
    if i < n {
      assert rules[..n][i] == r;
      RuleFound(rules[..n], r);
    }
  }

  predicate Decides(res: RuleResult, id: string) { res.ruleId == id && !res.outcome.Unknown? }

  lemma FlagShapes(facts: Facts, p: Policy, shops: seq<string>)
    ensures Decides(CheckAllowedTypes(facts, p.allowed, "C3"), "C3") && Decides(CheckBlockedTypes(facts, p.blocked, "C4"), "C4")
    ensures Decides(CheckRequestedItem(facts, p), "C5") && Decides(CheckShopType(facts, shops, "C8"), "C8")
    ensures Decides(CheckKnownShop(facts, "C9"), "C9") && Decides(CheckNothingExtra(facts, p), "C10")
  {
    hide InCategories, RequestedLines, IsExtra;
  }

  /** Each flag's result, with whether the flag is checked by itself. */
  ghost predicate IsFlagResult(res: RuleResult, facts: Facts, p: Policy, shops: seq<string>) {
    || (AllowedStated(p) && res == CheckAllowedTypes(facts, p.allowed, "C3"))
    || (BlockedStated(p) && res == CheckBlockedTypes(facts, p.blocked, "C4"))
    || (p.requestedItem.Some? && res == CheckRequestedItem(facts, p))
    || (ShopTypeStated(p) && res == CheckShopType(facts, shops, "C8"))
    || (KnownShopStated(p) && res == CheckKnownShop(facts, "C9"))
    || (p.nothingExtra && res == CheckNothingExtra(facts, p))
  }

  lemma InParts(x: RuleResult, a: seq<RuleResult>, b: seq<RuleResult>, c: seq<RuleResult>, d: seq<RuleResult>, e: seq<RuleResult>, f: seq<RuleResult>)
    requires x in a + b + c + d + e + f
    ensures x in a || x in b || x in c || x in d || x in e || x in f
  {
  }

  lemma FlagResultParts(facts: Facts, p: Policy, res: RuleResult)
    requires res in FlagResults(facts, p)
    ensures IsFlagResult(res, facts, p, if p.shopType.Some? then [p.shopType.value] else [])
  {
    hide AllowedStated, BlockedStated, ShopTypeStated, KnownShopStated, CheckAllowedTypes, CheckBlockedTypes,
      CheckRequestedItem, CheckShopType, CheckKnownShop, CheckNothingExtra;
    var shops := if p.shopType.Some? then [p.shopType.value] else [];
    InParts(res, OneIf(AllowedStated(p), CheckAllowedTypes(facts, p.allowed, "C3")),
      OneIf(BlockedStated(p), CheckBlockedTypes(facts, p.blocked, "C4")),
      OneIf(p.requestedItem.Some?, CheckRequestedItem(facts, p)), OneIf(ShopTypeStated(p), CheckShopType(facts, shops, "C8")),
      OneIf(KnownShopStated(p), CheckKnownShop(facts, "C9")), OneIf(p.nothingExtra, CheckNothingExtra(facts, p)));
  }

  lemma FlagResultIds(facts: Facts, p: Policy, res: RuleResult)
    requires res in FlagResults(facts, p)
    ensures res.ruleId in FlagIds(p) && !res.outcome.Unknown?
  {
    hide FlagResults, AllowedStated, BlockedStated, ShopTypeStated, KnownShopStated, CheckAllowedTypes, CheckBlockedTypes,
      CheckRequestedItem, CheckShopType, CheckKnownShop, CheckNothingExtra;
    var shops := if p.shopType.Some? then [p.shopType.value] else [];
    FlagResultParts(facts, p, res);
    FlagShapes(facts, p, shops);
  }

  lemma FlagIdNames(p: Policy, id: string)
    requires id in FlagIds(p)
    ensures id !in STEP1_IDS
  {
  }

  /** The ledger leaves a flag's result alone, but for the known-shop flag. */
  lemma FlagWithLedger(res: RuleResult, facts: Facts, p: Policy, view: LedgerView)
    requires Tidy(p) && res in FlagResults(facts, p)
    ensures WithLedger(res, facts, p.rules, view) == FlagChecked(res, facts, view)
    ensures FlagChecked(res, facts, view).ruleId == res.ruleId
  {
    hide FlagResults, FlagIds;
    FlagResultIds(facts, p, res);
    assert RuleById(p.rules, res.ruleId).None?;
  }

  lemma Step1WithLedger(res: RuleResult, facts: Facts, p: Policy, view: LedgerView)
    requires Tidy(p) && res in Step1Results(facts, p)
    ensures WithLedger(res, facts, p.rules, view) == res
  {
    assert RuleById(p.rules, res.ruleId).None?;
  }

  lemma ResultForId(r: Rule, facts: Facts, p: Policy, view: LedgerView)
    requires DistinctIds(p.rules) && r in p.rules
    ensures ResultFor(r, facts, p, view).ruleId == r.id
  {
    RuleFound(p.rules, r);
    TypedId(r, facts, p);
  }

  lemma TypedId(r: Rule, facts: Facts, p: Policy)
    ensures EvaluateTypedRule(r, facts, p).ruleId == r.id
  {
  }

  /** Every result is a step-1 check, a rule's, a flag's or a period rule's. */
  ghost predicate Listed(x: RuleResult, facts: Facts, p: Policy, view: LedgerView) {
    || x in Step1Results(facts, p)
    || (exists r :: r in p.rules && !r.scope.PerPeriod? && x == ResultFor(r, facts, p, view))
    || (exists res :: res in FlagResults(facts, p) && x == FlagChecked(res, facts, view))
    || (exists r :: r in p.rules && r.scope.PerPeriod? && x == PeriodResult(r, facts, view))
  }

  lemma ListedResults(facts: Facts, p: Policy, view: LedgerView, x: RuleResult)
    requires Tidy(p) && x in Results(facts, p, view)
    ensures Listed(x, facts, p, view)
  {
    hide Tidy, FlagResults, Step1Results, EvaluateTypedRule, WithLedger, PeriodResult, FlagChecked;
    if x !in PeriodResults(p.rules, facts, view) {
      var res :| res in EvaluateRules(facts, p) && x == WithLedger(res, facts, p.rules, view);
      if res in Step1Results(facts, p) {
        Step1WithLedger(res, facts, p, view);
      } else if res in FlagResults(facts, p) {
        FlagWithLedger(res, facts, p, view);
      }
    }
  }

  lemma RuleListed(facts: Facts, p: Policy, view: LedgerView, r: Rule)
    requires r in p.rules
    ensures (if r.scope.PerPeriod? then PeriodResult(r, facts, view) else ResultFor(r, facts, p, view)) in Results(facts, p, view)
  {
    hide FlagResults, Step1Results, EvaluateTypedRule, WithLedger, PeriodResult;
  }

  lemma FlagListed(facts: Facts, p: Policy, view: LedgerView, res: RuleResult)
    requires Tidy(p) && res in FlagResults(facts, p)
    ensures FlagChecked(res, facts, view) in Results(facts, p, view)
  {
    hide FlagResults, Step1Results, EvaluateTypedRule, WithLedger, PeriodResult, Tidy, FlagChecked;
    FlagWithLedger(res, facts, p, view);
  }

  lemma Step1Listed(facts: Facts, p: Policy, view: LedgerView, res: RuleResult)
    requires Tidy(p) && res in Step1Results(facts, p)
    ensures res in Results(facts, p, view)
  {
    hide FlagResults, Step1Results, EvaluateTypedRule, WithLedger, PeriodResult, Tidy;
    Step1WithLedger(res, facts, p, view);
  }

  // --- The results all pass ---------------------------------------------------------------------

  lemma ListedId(x: RuleResult, facts: Facts, p: Policy, view: LedgerView)
    requires Tidy(p) && Listed(x, facts, p, view)
    ensures x.ruleId in STEP1_IDS <==> x in Step1Results(facts, p)
  {
    hide FlagResults, FlagIds, FlagChecked, ResultFor;
    if r :| r in p.rules && !r.scope.PerPeriod? && x == ResultFor(r, facts, p, view) {
      ResultForId(r, facts, p, view);
    } else if res :| res in FlagResults(facts, p) && x == FlagChecked(res, facts, view) {
      FlagWithLedger(res, facts, p, view);
      FlagResultIds(facts, p, res);
      FlagIdNames(p, res.ruleId);
    }
  }

  lemma Step1Last(facts: Facts, p: Policy, view: LedgerView, res: RuleResult)
    requires Tidy(p) && res in Step1Results(facts, p)
    ensures LastResult(Results(facts, p, view), res.ruleId) == Some(res)
  {
    var results := Results(facts, p, view);
    hide Tidy, Results, Listed;
    Step1Listed(facts, p, view, res);
    var last := LastResult(results, res.ruleId).value;
    hide LastResult;
    ListedResults(facts, p, view, last);
    ListedId(last, facts, p, view);
  }

  lemma Step1Is(facts: Facts, p: Policy, view: LedgerView)
    requires Tidy(p)
    ensures Unsure(Results(facts, p, view), "policy_status") == !p.status.Active?
    ensures Unsure(Results(facts, p, view), "authority_status") == !facts.authorityActive
    ensures Unsure(Results(facts, p, view), "card_status") == !facts.cardActive
  {
    hide Tidy, Results, LastResult;
    var step1 := Step1Results(facts, p);
    assert step1[0] in step1 && step1[1] in step1 && step1[2] in step1;
    Step1Last(facts, p, view, step1[0]);
    Step1Last(facts, p, view, step1[1]);
    Step1Last(facts, p, view, step1[2]);
  }

  lemma Step1Pass(facts: Facts, p: Policy, view: LedgerView)
    requires Tidy(p)
    ensures (forall id :: id in STEP1_IDS ==> !Unsure(Results(facts, p, view), id)) <==> InForceNow(facts, p)
  {
    hide Tidy, Results, Unsure;
    Step1Is(facts, p, view);
    assert STEP1_IDS[0] in STEP1_IDS && STEP1_IDS[1] in STEP1_IDS && STEP1_IDS[2] in STEP1_IDS;
  }

  lemma AllReported(facts: Facts, p: Policy, view: LedgerView)
    requires Tidy(p)
    ensures CustomerResults(Results(facts, p, view), p.rules) == Filter(Results(facts, p, view), IsCustomer)
  {
    hide Results, PeriodResult, Filter, FlagIds;
    var stated := Filter(Results(facts, p, view), IsCustomer);
    forall r | r in p.rules && r.scope.PerPeriod? ensures exists x :: x in stated && x.ruleId == r.id {
      RuleListed(facts, p, view, r);
      PeriodId(r, facts, view);
      assert PeriodResult(r, facts, view) in stated;
    }
    assert stated + [] == stated;
  }

  lemma PeriodId(r: Rule, facts: Facts, view: LedgerView)
    ensures PeriodResult(r, facts, view).ruleId == r.id
  {
  }

  lemma CustomerPass(facts: Facts, p: Policy, view: LedgerView)
    requires Tidy(p)
    ensures (forall x :: x in CustomerResults(Results(facts, p, view), p.rules) ==> x.outcome.Pass?)
       <==> RulesPass(facts, p, view) && FlagsPass(facts, p, view)
  {
    hide Results, ResultFor, PeriodResult, FlagResults, FlagChecked, CustomerResults, Filter, FlagIds;
    AllReported(facts, p, view);
    var results := Results(facts, p, view);
    if forall x :: x in Filter(results, IsCustomer) ==> x.outcome.Pass? {
      forall r | r in p.rules
        ensures (if r.scope.PerPeriod? then PeriodResult(r, facts, view) else ResultFor(r, facts, p, view)).outcome.Pass?
      {
        RuleListed(facts, p, view, r);
        PeriodId(r, facts, view);
        ResultForId(r, facts, p, view);
      }
      forall res | res in FlagResults(facts, p) ensures FlagChecked(res, facts, view).outcome.Pass? {
        FlagListed(facts, p, view, res);
        FlagResultIds(facts, p, res);
        FlagIdNames(p, res.ruleId);
        FlagWithLedger(res, facts, p, view);
      }
    }
    if RulesPass(facts, p, view) && FlagsPass(facts, p, view) {
      forall x | x in Filter(results, IsCustomer) ensures x.outcome.Pass? {
        ListedResults(facts, p, view, x);
        ListedId(x, facts, p, view);
      }
    }
  }

  /** A clean sheet: the engine approves exactly when policy, authority and card are active, every
      rule and flag passes, no protection stops it, and no signs ask. */
  lemma ApprovedIffClean(facts: Facts, p: Policy, view: LedgerView, soft: seq<Signal>)
    requires Tidy(p) && !p.setting.ApproveIt?
    ensures EngineFor(facts, p, view, soft).outcome.Approve? <==>
      && InForceNow(facts, p) && RulesPass(facts, p, view) && FlagsPass(facts, p, view)
      && Shielded(facts, p, view) && !SignsAsk(WarningSigns(facts, view, p), soft, view.frozen)
  {
    hide Decide, RulesPass, FlagsPass, InForceNow, SignsAsk, Tidy, CustomerResults, Unsure, Protections.Evaluate, WarningSigns, AddLedgerResults, EvaluateRules;
    ApproveIff(Results(facts, p, view), Protections.Evaluate(facts, p, view), WarningSigns(facts, view, p), soft, p, view.frozen);
    Step1Pass(facts, p, view);
    CustomerPass(facts, p, view);
  }

  /** With everything else clean, signs that ask make it a step-up. */
  lemma SignsStepUp(facts: Facts, p: Policy, view: LedgerView, soft: seq<Signal>)
    requires Tidy(p) && !p.setting.ApproveIt?
    requires InForceNow(facts, p) && RulesPass(facts, p, view) && FlagsPass(facts, p, view) && Shielded(facts, p, view)
    requires SignsAsk(WarningSigns(facts, view, p), soft, view.frozen)
    ensures EngineFor(facts, p, view, soft).outcome.StepUp?
  {
    hide Decide, RulesPass, FlagsPass, InForceNow, Tidy, CustomerResults, Unsure, Protections.Evaluate, WarningSigns, AddLedgerResults, EvaluateRules;
    var results, shields := Results(facts, p, view), Protections.Evaluate(facts, p, view);
    Step1Pass(facts, p, view);
    CustomerPass(facts, p, view);
    ApproveIff(results, shields, [], [], p, false);
    hide SignsAsk;
    SignsOnlyAddFriction(results, shields, WarningSigns(facts, view, p), soft, p, view.frozen);
  }

  lemma EngineIs(facts: Facts, p: Policy, view: LedgerView, soft: seq<Signal>)
    ensures EngineFor(facts, p, view, soft)
         == Decide(Results(facts, p, view), Protections.Evaluate(facts, p, view), WarningSigns(facts, view, p), soft, p, view.frozen)
  {
  }

  /** A broken rule declines. */
  lemma BrokenDeclines(facts: Facts, p: Policy, view: LedgerView, soft: seq<Signal>, r: Rule)
    requires Tidy(p) && r in p.rules && !r.scope.PerPeriod? && ResultFor(r, facts, p, view).outcome.Fail?
    ensures EngineFor(facts, p, view, soft).outcome.Decline?
  {
    hide Decide, Results, ResultFor, Unsure, Protections.Evaluate, WarningSigns, AddLedgerResults, EvaluateRules, SignsAsk, FlagIds,
      Unreported, AnyInactive, AnyUnsure, AnyReserved, AnyBlocks, AnyAsks, AnyUnknown;
    var results, x := Results(facts, p, view), ResultFor(r, facts, p, view);
    assert EngineFor(facts, p, view, soft).outcome
        == Decide(results, Protections.Evaluate(facts, p, view), WarningSigns(facts, view, p), soft, p, view.frozen).outcome by { EngineIs(facts, p, view, soft); }
    RuleListed(facts, p, view, r);
    ResultForId(r, facts, p, view);
    RuleFound(p.rules, r);
    assert x in CustomerResults(results, p.rules) && Broken(x, p.rules);
    LadderSteps(results, Protections.Evaluate(facts, p, view), WarningSigns(facts, view, p), soft, p, view.frozen);
  }
}
