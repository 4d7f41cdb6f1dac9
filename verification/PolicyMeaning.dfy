/** What the customer's form, a draft's ids and a tightening request come to: a purchase meets the form's
    rules exactly when it keeps to what was filled in, and a request adds exactly the rules it names that
    are not in force (backend/oneguard/api/policies.py:174-258, routes_customer.py:568-599). */
module PolicyMeaning {
  import opened Seqs
  import opened Types
  import opened PolicyRules
  import opened Draft
  import opened Policies
  import opened RuleMeaning
  import opened Standing

  /** The purchase is within the form's limit on one order. */
  predicate WithinOrder(form: Form, facts: Facts) { form.perOrder.Some? ==> facts.amount <= form.perOrder.value }

  /** With what the window holds, the purchase is within the form's limit on a period. */
  predicate WithinPeriod(form: Form, facts: Facts, held: int) { form.period.Some? ==> held + facts.amount <= form.period.value.0 }

  ghost predicate OnlyKinds(form: Form, facts: Facts) {
    form.categories != [] ==> forall ln :: ln in facts.items ==> HasWord(form.categories, ln.category)
  }

  lemma PerOrderStands(form: Form, facts: Facts, wanted: Option<Wanted>, view: LedgerView)
    requires form.perOrder.Some?
    ensures RuleStanding(PerOrderRule(form), facts, wanted, view) == if WithinOrder(form, facts) then Met else Broken
  {
    LimitInFrancs(PerOrderRule(form));
  }

  /** A window's limit is met with the reservations counted, held up without them, else broken. */
  lemma PeriodLimitStands(form: Form, facts: Facts, wanted: Option<Wanted>, view: LedgerView)
    requires form.period.Some? && form.period.value.1 > 0 && facts.ts == view.periodWindowStart + form.period.value.1 * 86400
    ensures RuleStanding(PeriodLimitRule(form), facts, wanted, view) ==
      if WithinPeriod(form, facts, view.periodSpent + view.periodReserved) then Met
      else if WithinPeriod(form, facts, view.periodSpent) then HeldUp else Broken
  {
    LimitInFrancs(PeriodLimitRule(form));
  }

  lemma CategoriesStand(form: Form, facts: Facts, wanted: Option<Wanted>, view: LedgerView)
    requires form.categories != []
    ensures RuleStanding(CategoriesRule(form), facts, wanted, view) == if OnlyKinds(form, facts) then Met else Broken
  {
    hide HasWord;
  }

  lemma KnownShopStands(facts: Facts, wanted: Option<Wanted>, view: LedgerView)
    ensures (RuleStanding(KNOWN_SHOP_RULE, facts, wanted, view) == Met <==>
      facts.merchantKnown || (view.knownMerchants == {} && ShopRemembered("known_shop", facts, view)))
    ensures RuleStanding(KNOWN_SHOP_RULE, facts, wanted, view) == Broken <==> !facts.merchantKnown && view.knownMerchants != {}
  {
    TrueIsTrue();
    hide SameText;
  }

  lemma TrueIsTrue()
    ensures SameText("true", "true") && !SameText("false", "true")
  {
    assert |"true"| != |"false"|;
  }

  lemma FormRulesAre(form: Form, r: Rule)
    ensures r in FormRules(form) <==>
      || (form.perOrder.Some? && r == PerOrderRule(form)) || (form.period.Some? && r == PeriodLimitRule(form))
      || (form.categories != [] && r == CategoriesRule(form)) || (form.knownShopsOnly && r == KNOWN_SHOP_RULE)
  {
    hide PerOrderRule, PeriodLimitRule, CategoriesRule;
  }

  /** A purchase meets every rule of the form exactly when it is within the limits filled in, holds only
      the kinds chosen, and is at a known shop where that was asked. */
  lemma FormMeans(form: Form, facts: Facts, wanted: Option<Wanted>, view: LedgerView)
    requires form.period.Some? ==> form.period.value.1 > 0 && facts.ts == view.periodWindowStart + form.period.value.1 * 86400
    requires view.knownMerchants != {}
    ensures (forall r :: r in FormRules(form) ==> RuleStanding(r, facts, wanted, view) == Met) <==>
      && WithinOrder(form, facts) && WithinPeriod(form, facts, view.periodSpent + view.periodReserved)
      && OnlyKinds(form, facts) && (form.knownShopsOnly ==> facts.merchantKnown)
  {
    hide FormRules, RuleStanding, PerOrderRule, PeriodLimitRule, CategoriesRule, HasWord, ShopRemembered;
    forall r ensures r in FormRules(form) <==>
      || (form.perOrder.Some? && r == PerOrderRule(form)) || (form.period.Some? && r == PeriodLimitRule(form))
      || (form.categories != [] && r == CategoriesRule(form)) || (form.knownShopsOnly && r == KNOWN_SHOP_RULE)
    {
      FormRulesAre(form, r);
    }
    if form.perOrder.Some? { PerOrderStands(form, facts, wanted, view); }
    if form.period.Some? { PeriodLimitStands(form, facts, wanted, view); }
    if form.categories != [] { CategoriesStand(form, facts, wanted, view); }
    KnownShopStands(facts, wanted, view);
  }

  // --- Caps and ids ------------------------------------------------------------------------------------------

  /** No amount above the bound meets the rule. */
  ghost predicate BoundsAmounts(r: Rule, bound: int) { forall x: int :: NumberMeets(x, r) ==> x <= bound }

  /** A rule on one purchase's amount counts as a cap exactly when it bounds the amount at all. */
  lemma CapIff(r: Rule)
    requires r.field.BillingAmount? && !r.scope.PerPeriod? && r.value.Num? && !r.op.In? && !r.op.NotIn?
    ensures IsAmountCap(r) <==> exists bound :: BoundsAmounts(r, bound)
  {
    LimitInFrancs(r);
    var limit := RuleValueChf(r).hundredths;
    if IsAmountCap(r) {
      assert BoundsAmounts(r, limit);
    } else {
      forall bound: int ensures !BoundsAmounts(r, bound) {
        var x := if bound > limit then bound + 1 else limit + 1;
        assert NumberMeets(x, r) && x > bound;
      }
    }
  }

  /** Which checks only show a flag. */
  lemma FlagChecksAre(flags: PolicyFlags, id: string)
    ensures id in FlagChecks(flags) <==>
      (id == "requested_item" && flags.requestedItem.Some? && flags.requestedItem.value.text != "") || (id == "nothing_extra" && flags.nothingExtra)
  {
    assert REQUESTED_ITEM_CHECK == "requested_item" && NOTHING_EXTRA_CHECK == "nothing_extra";
  }

  /** A restriction that a flag restates starts from the flag's own id, and an amount's id says whether it
      is over a period. */
  lemma BaseIdsAre(s: Spec)
    ensures BaseId(s) == Some("C1") <==> s.field.BillingAmount? && !s.scope.PerPeriod?
    ensures BaseId(s) == Some("C2") <==> s.field.BillingAmount? && s.scope.PerPeriod?
    ensures BaseId(s) == Some("C3") <==> s.field.ItemCategory? && s.op.In?
    ensures BaseId(s) == Some("C4") <==> s.field.ItemCategory? && !s.op.In?
    ensures BaseId(s) == Some("C6") <==> s.field.SizeEu? || s.field.SizeLetter?
    ensures BaseId(s) == Some("C7") <==> s.field.ReturnWindow? || s.field.Returnable? || s.field.Cancellable?
    ensures BaseId(s) == Some("C8") <==> s.field.MerchantCategory?
    ensures BaseId(s) == Some("C9") <==> s.field.FamiliarOnCard?
  {
  }

  /** The ids no rule may take. */
  lemma ReservedIds(id: string)
    ensures !FreeId(id) <==>
      id in {"policy_status", "authority_status", "card_status", "C5", "C10", "requested_item", "nothing_extra", "__policy__"}
  {
    assert STEP1_IDS[0] == "policy_status" && STEP1_IDS[1] == "authority_status" && STEP1_IDS[2] == "card_status";
  }

  /** The form asks for no item, excludes nothing and names no kind of shop; the rest restates its rules. */
  lemma FormFlagsAre(form: Form)
    ensures
      var f := FormFlags(form);
      && f.requestedItem.None? && f.blocked == [] && f.shopType.None? && !f.nothingExtra && !f.singleItem
      && f.allowed == form.categories && f.requiresKnownShop == form.knownShopsOnly
  {
  }

  // --- A tightening request ----------------------------------------------------------------------------------

  /** A check that only shows a flag in force need not be brought. */
  predicate IsShown(id: string, checks: seq<string>) { id in {"requested_item", "nothing_extra"} && id in checks }

  predicate IsInForce(id: string, rules: seq<Rule>) { exists r :: r in rules && r.id == id }

  lemma ShownIff(id: string, checks: seq<string>)
    ensures ShowsFlag(id, checks) <==> IsShown(id, checks)
  {
    assert REQUESTED_ITEM_CHECK == "requested_item" && NOTHING_EXTRA_CHECK == "nothing_extra";
  }

  /** What a request refuses for: an id that is neither proposed nor in force, or one in force that would change. */
  lemma RefusedFor(id: string, rules: seq<Rule>, checks: seq<string>, proposed: map<string, Rule>)
    ensures IsUnknown(id, rules, checks, proposed) <==> !IsShown(id, checks) && id !in proposed && !IsInForce(id, rules)
    ensures Changes(id, rules, checks, proposed) <==>
      !IsShown(id, checks) && IsInForce(id, rules) && id in proposed && forall r :: r in rules ==> r != proposed[id]
  {
    ShownIff(id, checks);
    hide ShowsFlag, IsShown;
  }

  /** A request adds exactly the proposed rules it names that are not in force. */
  ghost predicate IsAsked(r: Rule, rules: seq<Rule>, checks: seq<string>, proposed: map<string, Rule>, asked: seq<string>) {
    r.id in asked && !IsShown(r.id, checks) && r.id in proposed && proposed[r.id] == r && !IsInForce(r.id, rules)
  }

  lemma {:induction false} AddsWhatIsAsked(r: Rule, rules: seq<Rule>, checks: seq<string>, proposed: map<string, Rule>, asked: seq<string>)
    requires ById(proposed)
    ensures r in Additions(rules, checks, proposed, asked) <==> IsAsked(r, rules, checks, proposed, asked)
    decreases |asked|
  {
    if asked != [] {
      var init, id := asked[..|asked| - 1], asked[|asked| - 1];
      assert asked == init + [id];
      AddsWhatIsAsked(r, rules, checks, proposed, init);
      ShownIff(id, checks);
      if id in proposed { AddsWhatIsAsked(proposed[id], rules, checks, proposed, init); }
      AddedById(rules, checks, proposed, init, id);
      hide IsShown, ShowsFlag;
    }
  }

  lemma AddedById(rules: seq<Rule>, checks: seq<string>, proposed: map<string, Rule>, asked: seq<string>, id: string)
    requires ById(proposed)
    ensures forall x :: x in Additions(rules, checks, proposed, asked) && x.id == id ==> id in proposed && x == proposed[id]
  {
    hide ShowsFlag;
  }
}
