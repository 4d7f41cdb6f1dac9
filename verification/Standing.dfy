/** Where each rule and flag of a policy stands for one purchase, said over its lines and terms, the
    ledger's totals and the answers remembered (backend/oneguard/engine/policy.py:600-842), and that
    the results the ladder reads say exactly this. */
module Standing {
  import opened Seqs
  import opened Types
  import opened Ledger
  import opened PolicyRules
  import opened Warnings
  import Protections
  import opened Ladder
  import opened LadderJoin
  import opened Pipeline
  import opened Draft
  import opened Policies
  import opened Remember
  import opened CleanSheet
  import opened RuleMeaning

  /** Met, broken for good, left open, or broken only while step-ups are unanswered. */
  datatype Standing = Met | Broken | Open | HeldUp

  predicate Shows(res: RuleResult, st: Standing) {
    match st
    case Met => res.outcome.Pass?
    case Broken => res.outcome.Fail? && !res.mark.ReservationOnly?
    case Open => res.outcome.Unknown?
    case HeldUp => res.outcome.Fail? && res.mark.ReservationOnly?
  }

  // --- Period rules -----------------------------------------------------------------------------------

  /** The ledger's totals are over the rule's own window. */
  predicate IsSummed(r: Rule, facts: Facts, view: LedgerView) {
    r.periodDays.Some? && r.periodDays.value > 0 && facts.ts == view.periodWindowStart + r.periodDays.value * 86400
  }

  predicate SaneCounts(view: LedgerView) {
    view.periodCount.Some? && view.periodReservedCount <= view.periodCount.value
  }

  /** A whole number of purchases, as a cap. */
  predicate IsCap(r: Rule) { r.value.Num? && r.value.hundredths % 100 == 0 && (r.op.Lt? || r.op.Le?) }

  predicate WithinCap(n: int, r: Rule)
    requires IsCap(r)
  {
    if r.op.Le? then 100 * n <= r.value.hundredths else 100 * n < r.value.hundredths
  }

  ghost function PeriodStanding(r: Rule, facts: Facts, view: LedgerView): Standing {
    if !IsSummed(r, facts, view) then Open
    else if r.field.PurchasesInPeriod? then
      if !IsCap(r) || view.periodCount.None? then Open
      else if WithinCap(view.periodCount.value + 1, r) then Met
      else if WithinCap(view.periodCount.value - view.periodReservedCount + 1, r) then HeldUp
      else Broken
    else if NumberMeets(view.periodSpent + view.periodReserved + facts.amount, r) then Met
    else if NumberMeets(view.periodSpent + facts.amount, r) then HeldUp
    else Broken
  }

  /** M4, M5: a period rule's result, for amounts and for counts. A limit the final approvals alone
      would meet is only held up; it is marked so exactly then. */
  lemma PeriodStands(r: Rule, facts: Facts, view: LedgerView)
    requires SaneCounts(view)
    ensures Shows(PeriodResult(r, facts, view), PeriodStanding(r, facts, view)) && PeriodResult(r, facts, view).ruleId == r.id
  {
    hide EvaluateCountRule, EvaluatePeriodRule, NumberMeets, WithinCap;
    assert IsSummed(r, facts, view) <==> InView(r, facts, view);
    if IsSummed(r, facts, view) {
      if r.field.PurchasesInPeriod? { CountStands(r, view); } else { AmountStands(r, facts.amount, view.periodSpent, view.periodReserved); }
    }
  }

  lemma CountStands(r: Rule, view: LedgerView)
    requires SaneCounts(view) && HasWindow(r)
    ensures
      var res, counted := EvaluateCountRule(r, view), view.periodCount.value;
      if !IsCap(r) then res == Undecided(r.id)
      else
        && res.ruleId == r.id && !res.outcome.Unknown?
        && (res.outcome.Pass? <==> WithinCap(counted + 1, r))
        && (res.mark.ReservationOnly? <==> !WithinCap(counted + 1, r) && WithinCap(counted - view.periodReservedCount + 1, r))
        && (res.outcome.Fail? ==> (res.explains <==> WithinCap(1, r)))
  {
  }

  lemma AmountStands(r: Rule, amount: int, spent: int, reserved: int)
    ensures
      var res := EvaluatePeriodRule(r, amount, spent, reserved);
      && res.ruleId == r.id && !res.outcome.Unknown?
      && (res.outcome.Pass? <==> NumberMeets(spent + reserved + amount, r))
      && (res.mark.ReservationOnly? <==> !NumberMeets(spent + reserved + amount, r) && NumberMeets(spent + amount, r))
      && (res.outcome.Fail? ==> res.explains)
  {
    hide Compare, NumberMeets;
    CompareMeets(NumAtom(spent + reserved + amount), r);
    CompareMeets(NumAtom(spent + amount), r);
  }

  // --- Rules --------------------------------------------------------------------------------------------

  predicate IsShopRule(r: Rule) { r.field.KnownShop? || r.field.FamiliarOnCard? }

  predicate IsSamePrice(r: Rule) { r.field.BillingAmount? && r.value == Text("last_price_at_shop") }

  /** No data can tell. */
  predicate IsForCustomer(r: Rule) { r.field.Unverifiable? || r.field.OtherField? || r.field.PurchasesInPeriod? }

  predicate ShopRemembered(id: string, facts: Facts, view: LedgerView) { id + "|" + facts.merchantId + "|*" in view.confirmedKeys }

  predicate CartRemembered(id: string, facts: Facts, view: LedgerView) {
    view.confirmedKeys != {} && forall ln :: ln in facts.items ==> id + "|" + facts.merchantId + "|" + ln.itemId in view.confirmedKeys
  }

  ghost function PurchaseStanding(r: Rule, facts: Facts, wanted: Option<Wanted>, view: LedgerView): Standing {
    if IsShopRule(r) then
      if !Violates(r, facts, wanted) then Met
      else if view.knownMerchants == {} || r.asksOnFail then (if ShopRemembered(r.id, facts, view) then Met else Open)
      else Broken
    else if IsSamePrice(r) then
      if facts.merchantId !in view.lastPrice then Open
      else if Ordered(facts.amount, r.op, view.lastPrice[facts.merchantId]) then Met
      else if r.asksOnFail then Open else Broken
    else if IsForCustomer(r) then (if CartRemembered(r.id, facts, view) then Met else Open)
    else if Violates(r, facts, wanted) then (if r.asksOnFail then Open else Broken)
    else if LeavesOpen(r, facts, wanted) then Open
    else Met
  }

  ghost function RuleStanding(r: Rule, facts: Facts, wanted: Option<Wanted>, view: LedgerView): Standing {
    if r.scope.PerPeriod? then PeriodStanding(r, facts, view) else PurchaseStanding(r, facts, wanted, view)
  }

  lemma SamePriceStands(r: Rule, facts: Facts, p: Policy, view: LedgerView)
    requires RuleById(p.rules, r.id) == Some(r) && IsSamePrice(r)
    ensures Shows(ResultFor(r, facts, p, view), PurchaseStanding(r, facts, p.requestedItem, view))
  {
    hide RuleById;
  }

  lemma ShopRuleStands(r: Rule, facts: Facts, p: Policy, view: LedgerView)
    requires RuleById(p.rules, r.id) == Some(r) && IsShopRule(r)
    ensures Shows(ResultFor(r, facts, p, view), PurchaseStanding(r, facts, p.requestedItem, view))
  {
    hide RuleById, EvaluateTypedRule, Violates;
    TypedFinds(r, facts, p);
  }

  /** What a known-shop or uncheckable result carries beside: whether it passed from memory, or is
      unknown for want of any history, which alone says what would change it. */
  lemma MemoryMarks(res: RuleResult, facts: Facts, rules: seq<Rule>, view: LedgerView)
    requires !res.outcome.Pass? && res.mark.Plain?
    ensures
      var after := WithLedger(res, facts, rules, view);
      && (after.mark.Confirmed? ==> after.outcome.Pass? && !after.explains)
      && (after.mark.NoHistory? ==> after.outcome.Unknown? && after.explains)
      && (ChecksKnownShop(res.ruleId, RuleById(rules, res.ruleId)) && view.knownMerchants == {} ==> after.mark.Confirmed? || after.mark.NoHistory?)
  {
    hide RuleById, RememberedFor, Compare;
  }

  lemma OtherRuleStands(r: Rule, facts: Facts, p: Policy, view: LedgerView)
    requires RuleById(p.rules, r.id) == Some(r) && !IsShopRule(r) && !IsSamePrice(r)
    ensures Shows(ResultFor(r, facts, p, view), PurchaseStanding(r, facts, p.requestedItem, view))
  {
    hide RuleById, EvaluateTypedRule;
    TypedFinds(r, facts, p);
  }

  /** A rule's result says where the rule stands. */
  lemma RuleStands(r: Rule, facts: Facts, p: Policy, view: LedgerView)
    requires SaneCounts(view) && RuleById(p.rules, r.id) == Some(r)
    ensures
      var res := if r.scope.PerPeriod? then PeriodResult(r, facts, view) else ResultFor(r, facts, p, view);
      Shows(res, RuleStanding(r, facts, p.requestedItem, view))
  {
    hide RuleById, ResultFor, PurchaseStanding, PeriodResult, PeriodStanding;
    if r.scope.PerPeriod? {
      PeriodStands(r, facts, view);
    } else if IsShopRule(r) {
      ShopRuleStands(r, facts, p, view);
    } else if IsSamePrice(r) {
      SamePriceStands(r, facts, p, view);
    } else {
      OtherRuleStands(r, facts, p, view);
    }
  }

  // --- Flags ---------------------------------------------------------------------------------------------

  /** A rule in force says it already. */
  predicate Restated(p: Policy, fields: set<Field>, ops: set<Operator>) { exists r :: r in p.rules && r.field in fields && r.op in ops }

  /** The flags of the policy that are checked by themselves. */
  predicate FlagStated(id: string, p: Policy) {
    || (id == "C3" && p.allowed != [] && !Restated(p, {ItemCategory}, {In}))
    || (id == "C4" && p.blocked != [] && !Restated(p, {ItemCategory}, {NotIn}))
    || (id == "C5" && p.requestedItem.Some?)
    || (id == "C8" && p.shopType.Some? && !Restated(p, {MerchantCategory}, {Eq, In}))
    || (id == "C9" && p.requiresKnownShop && !Restated(p, {KnownShop, FamiliarOnCard}, {Eq}))
    || (id == "C10" && p.nothingExtra)
  }

  /** Not the item asked for; with none, of a kind not allowed, the names read with their case. */
  predicate IsUnasked(ln: Item, p: Policy) {
    if p.requestedItem.Some? then !IsAsked(ln, p.requestedItem) else p.allowed != [] && ln.category !in p.allowed
  }

  ghost predicate FlagViolated(id: string, facts: Facts, p: Policy) {
    || (id == "C3" && exists ln :: ln in facts.items && !HasWord(p.allowed, ln.category))
    || (id == "C4" && exists ln :: ln in facts.items && HasWord(p.blocked, ln.category))
    || (id == "C5" && forall ln :: ln in facts.items ==> !IsAsked(ln, p.requestedItem))
    || (id == "C8" && p.shopType.Some? && !SameText(p.shopType.value, facts.merchantCategory))
    || (id == "C9" && !facts.merchantKnown)
    || (id == "C10" && exists ln :: ln in facts.items && IsUnasked(ln, p))
  }

  ghost function FlagStanding(id: string, facts: Facts, p: Policy, view: LedgerView): Standing {
    if !FlagViolated(id, facts, p) then Met
    else if id == "C9" && view.knownMerchants == {} then (if ShopRemembered(id, facts, view) then Met else Open)
    else Broken
  }

  /** The flags' own checks find exactly the violations. */
  lemma TypeFlagsFind(facts: Facts, p: Policy)
    ensures CheckAllowedTypes(facts, p.allowed, "C3") == Judged("C3", !FlagViolated("C3", facts, p))
    ensures CheckBlockedTypes(facts, p.blocked, "C4") == Judged("C4", !FlagViolated("C4", facts, p))
  {
    hide InCategories, HasWord, IsUnasked, IsAsked, SameText;
    forall ln | ln in facts.items ensures InCategories(ln.category, p.allowed) <==> HasWord(p.allowed, ln.category) { InWords(ln.category, p.allowed); }
    forall ln | ln in facts.items ensures InCategories(ln.category, p.blocked) <==> HasWord(p.blocked, ln.category) { InWords(ln.category, p.blocked); }
  }

  lemma RequestFlagsFind(facts: Facts, p: Policy)
    ensures CheckRequestedItem(facts, p) == Judged("C5", !FlagViolated("C5", facts, p))
    ensures CheckKnownShop(facts, "C9") == Judged("C9", !FlagViolated("C9", facts, p))
  {
    hide HasWord, RequestedLines, IsAsked, IsUnasked, SameText;
    NoneAsked(facts, p);
  }

  lemma ExtraFlagFinds(facts: Facts, p: Policy)
    ensures CheckNothingExtra(facts, p) == Judged("C10", !FlagViolated("C10", facts, p))
  {
    assert forall ln :: IsExtra(ln, p) <==> IsUnasked(ln, p);
    hide HasWord, IsAsked, IsUnasked, SameText, IsExtra;
  }

  lemma ShopTypeFinds(facts: Facts, p: Policy)
    requires p.shopType.Some?
    ensures CheckShopType(facts, [p.shopType.value], "C8") == Judged("C8", !FlagViolated("C8", facts, p))
  {
    InWords(facts.merchantCategory, [p.shopType.value]);
    assert [p.shopType.value][0] in [p.shopType.value];
    hide InCategories, SameText, IsAsked, IsUnasked;
  }

  lemma StatedAlike(p: Policy)
    ensures AllowedStated(p) <==> FlagStated("C3", p)
    ensures BlockedStated(p) <==> FlagStated("C4", p)
    ensures p.requestedItem.Some? <==> FlagStated("C5", p)
    ensures ShopTypeStated(p) <==> FlagStated("C8", p)
    ensures KnownShopStated(p) <==> FlagStated("C9", p)
    ensures p.nothingExtra <==> FlagStated("C10", p)
  {
    assert {KnownShop, FamiliarOnCard} == {FamiliarOnCard, KnownShop};
  }

  lemma FlagShows(id: string, facts: Facts, p: Policy, view: LedgerView)
    ensures
      var x := FlagChecked(Judged(id, !FlagViolated(id, facts, p)), facts, view);
      x.ruleId == id && Shows(x, FlagStanding(id, facts, p, view))
  {
    hide FlagViolated;
  }

  /** Each flag's result is that of a stated flag and finds what the flag finds. */
  lemma FlagResultStands(facts: Facts, p: Policy, view: LedgerView, res: RuleResult)
    requires res in FlagResults(facts, p)
    ensures FlagStated(res.ruleId, p) && FlagChecked(res, facts, view).ruleId == res.ruleId
    ensures Shows(FlagChecked(res, facts, view), FlagStanding(res.ruleId, facts, p, view))
  {
    hide FlagResults, AllowedStated, BlockedStated, ShopTypeStated, KnownShopStated, CheckAllowedTypes, CheckBlockedTypes,
      CheckRequestedItem, CheckShopType, CheckKnownShop, CheckNothingExtra, FlagStated, FlagViolated, FlagStanding, FlagChecked, Shows;
    FlagResultParts(facts, p, res);
    StatedAlike(p);
    TypeFlagsFind(facts, p);
    RequestFlagsFind(facts, p);
    ExtraFlagFinds(facts, p);
    if p.shopType.Some? { ShopTypeFinds(facts, p); } else { NoShopType(p); }
    assert exists id :: id == res.ruleId && res == Judged(id, !FlagViolated(id, facts, p));
    FlagShows(res.ruleId, facts, p, view);
  }

  lemma NoShopType(p: Policy)
    requires p.shopType.None?
    ensures !ShopTypeStated(p)
  {
  }

  lemma InSix(x: RuleResult, a: seq<RuleResult>, b: seq<RuleResult>, c: seq<RuleResult>, d: seq<RuleResult>, e: seq<RuleResult>, f: seq<RuleResult>)
    requires x in a || x in b || x in c || x in d || x in e || x in f
    ensures x in a + b + c + d + e + f
  {
  }

  /** The result is in one of the six places. */
  lemma FlagPlaced(facts: Facts, p: Policy, x: RuleResult)
    requires IsFlagResult(x, facts, p, if p.shopType.Some? then [p.shopType.value] else [])
    ensures x in FlagResults(facts, p)
  {
    hide AllowedStated, BlockedStated, ShopTypeStated, KnownShopStated, CheckAllowedTypes, CheckBlockedTypes,
      CheckRequestedItem, CheckShopType, CheckKnownShop, CheckNothingExtra;
    InSix(x, OneIf(AllowedStated(p), CheckAllowedTypes(facts, p.allowed, "C3")),
      OneIf(BlockedStated(p), CheckBlockedTypes(facts, p.blocked, "C4")),
      OneIf(p.requestedItem.Some?, CheckRequestedItem(facts, p)),
      OneIf(ShopTypeStated(p), CheckShopType(facts, if p.shopType.Some? then [p.shopType.value] else [], "C8")),
      OneIf(KnownShopStated(p), CheckKnownShop(facts, "C9")), OneIf(p.nothingExtra, CheckNothingExtra(facts, p)));
  }

  lemma FlagIs(facts: Facts, p: Policy, id: string) returns (x: RuleResult)
    requires FlagStated(id, p)
    ensures IsFlagResult(x, facts, p, if p.shopType.Some? then [p.shopType.value] else []) && x.ruleId == id
  {
    var shops := if p.shopType.Some? then [p.shopType.value] else [];
    StatedAlike(p);
    FlagShapes(facts, p, shops);
    hide CheckAllowedTypes, CheckBlockedTypes, CheckRequestedItem, CheckShopType, CheckKnownShop, CheckNothingExtra,
      AllowedStated, BlockedStated, ShopTypeStated, KnownShopStated, Restated;
    x := if id == "C3" then CheckAllowedTypes(facts, p.allowed, "C3")
         else if id == "C4" then CheckBlockedTypes(facts, p.blocked, "C4")
         else if id == "C5" then CheckRequestedItem(facts, p)
         else if id == "C8" then CheckShopType(facts, shops, "C8")
         else if id == "C9" then CheckKnownShop(facts, "C9")
         else CheckNothingExtra(facts, p);
  }

  /** Every stated flag has its result. */
  lemma FlagHasResult(facts: Facts, p: Policy, id: string)
    requires FlagStated(id, p)
    ensures exists res :: res in FlagResults(facts, p) && res.ruleId == id
  {
    hide FlagStated, FlagResults, IsFlagResult;
    var x := FlagIs(facts, p, id);
    FlagPlaced(facts, p, x);
  }

  // --- The policy ------------------------------------------------------------------------------------------

  /** Some rule or flag of that id stands so. */
  ghost predicate StandsAt(id: string, st: Standing, facts: Facts, p: Policy, view: LedgerView) {
    || (exists r :: r in p.rules && r.id == id && RuleStanding(r, facts, p.requestedItem, view) == st)
    || (FlagStated(id, p) && FlagStanding(id, facts, p, view) == st)
  }

  ghost predicate Reported(id: string, st: Standing, facts: Facts, p: Policy, view: LedgerView) {
    exists x :: x in CustomerResults(Results(facts, p, view), p.rules) && x.ruleId == id && Shows(x, st)
  }

  lemma StandsReported(id: string, st: Standing, facts: Facts, p: Policy, view: LedgerView)
    requires Tidy(p) && SaneCounts(view) && StandsAt(id, st, facts, p, view)
    ensures Reported(id, st, facts, p, view)
  {
    hide Results, ResultFor, PeriodResult, FlagResults, FlagChecked, CustomerResults, Filter, FlagIds, RuleStanding, FlagStanding, FlagStated, Shows;
    AllReported(facts, p, view);
    var results := Results(facts, p, view);
    if r :| r in p.rules && r.id == id && RuleStanding(r, facts, p.requestedItem, view) == st {
      RuleFound(p.rules, r);
      RuleStands(r, facts, p, view);
      RuleListed(facts, p, view, r);
      PeriodId(r, facts, view);
      ResultForId(r, facts, p, view);
      var x := if r.scope.PerPeriod? then PeriodResult(r, facts, view) else ResultFor(r, facts, p, view);
      assert x in Filter(results, IsCustomer);
    } else {
      FlagHasResult(facts, p, id);
      var res :| res in FlagResults(facts, p) && res.ruleId == id;
      FlagResultStands(facts, p, view, res);
      FlagListed(facts, p, view, res);
      FlagResultIds(facts, p, res);
      FlagIdNames(p, id);
      assert FlagChecked(res, facts, view) in Filter(results, IsCustomer);
    }
  }

  lemma ReportedStands(id: string, st: Standing, facts: Facts, p: Policy, view: LedgerView)
    requires Tidy(p) && SaneCounts(view) && Reported(id, st, facts, p, view)
    ensures StandsAt(id, st, facts, p, view)
  {
    hide Results, ResultFor, PeriodResult, FlagResults, FlagChecked, CustomerResults, Filter, FlagIds, RuleStanding, FlagStanding, FlagStated, Listed, Shows;
    AllReported(facts, p, view);
    var x :| x in CustomerResults(Results(facts, p, view), p.rules) && x.ruleId == id && Shows(x, st);
    assert x in Filter(Results(facts, p, view), IsCustomer);
    ListedResults(facts, p, view, x);
    ListedId(x, facts, p, view);
    ListedStands(x, st, facts, p, view);
  }

  lemma ShowsOne(x: RuleResult, st: Standing, st': Standing)
    requires Shows(x, st) && Shows(x, st')
    ensures st == st'
  {
  }

  lemma ListedStands(x: RuleResult, st: Standing, facts: Facts, p: Policy, view: LedgerView)
    requires Tidy(p) && SaneCounts(view) && Listed(x, facts, p, view) && x !in Step1Results(facts, p) && Shows(x, st)
    ensures StandsAt(x.ruleId, st, facts, p, view)
  {
    hide Results, ResultFor, PeriodResult, FlagResults, FlagChecked, FlagIds, RuleStanding, FlagStanding, FlagStated, Shows, Step1Results;
    if r :| r in p.rules && !r.scope.PerPeriod? && x == ResultFor(r, facts, p, view) {
      RuleFound(p.rules, r);
      RuleStands(r, facts, p, view);
      ResultForId(r, facts, p, view);
      ShowsOne(x, st, RuleStanding(r, facts, p.requestedItem, view));
    } else if res :| res in FlagResults(facts, p) && x == FlagChecked(res, facts, view) {
      FlagResultStands(facts, p, view, res);
      ShowsOne(x, st, FlagStanding(res.ruleId, facts, p, view));
    } else {
      var r :| r in p.rules && r.scope.PerPeriod? && x == PeriodResult(r, facts, view);
      RuleFound(p.rules, r);
      RuleStands(r, facts, p, view);
      PeriodId(r, facts, view);
      ShowsOne(x, st, RuleStanding(r, facts, p.requestedItem, view));
    }
  }

  /** The customer results report exactly where the rules and flags stand. */
  lemma ReportedIff(id: string, st: Standing, facts: Facts, p: Policy, view: LedgerView)
    requires Tidy(p) && SaneCounts(view)
    ensures Reported(id, st, facts, p, view) <==> StandsAt(id, st, facts, p, view)
  {
    hide Reported, StandsAt;
    if Reported(id, st, facts, p, view) { ReportedStands(id, st, facts, p, view); }
    if StandsAt(id, st, facts, p, view) { StandsReported(id, st, facts, p, view); }
  }
}
