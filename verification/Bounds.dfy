/** What the bounds of a decline say (backend/oneguard/engine/explain.py:486-560): a purchase meets a field
    bound exactly when the check behind it passes, and a removal names exactly the offending lines. */
module Bounds {
  import opened Seqs
  import opened Types
  import opened Ledger
  import opened PolicyRules
  import opened Ladder
  import opened Draft
  import opened Policies
  import opened Remember
  import opened CleanSheet
  import opened Explain
  import opened RuleMeaning
  import opened Standing

  /** A field bound, read as a rule of its own. */
  function AsRule(b: Bound): Rule
    requires b.FieldBound?
  {
    Rule("", b.field, b.op, b.value, None, Unscoped, None, "", false)
  }

  /** The purchase has what the bound asks of the field. */
  ghost predicate MeetsField(other: Facts, wanted: Option<Wanted>, b: Bound)
    requires b.FieldBound?
  {
    !Violates(AsRule(b), other, wanted) && !LeavesOpen(AsRule(b), other, wanted)
  }

  /** A rule whose bound is its own field, operator and value. */
  predicate BoundsItself(r: Rule) {
    && !r.scope.PerPeriod? && !IsShopRule(r) && !IsSamePrice(r) && !IsForCustomer(r)
    && !(r.field.ItemCategory? && (r.op.In? || r.op.NotIn?))
  }

  lemma SameNumbers(r: Rule, b: Rule, x: int)
    requires b.field == r.field && b.op == r.op && b.value == RuleValueChf(r) && b.currency.None?
    ensures NumberMeets(x, b) <==> NumberMeets(x, r)
  {
  }

  lemma SameTexts(r: Rule, b: Rule, t: string)
    requires b.field == r.field && b.op == r.op && b.value == RuleValueChf(r) && b.currency.None?
    ensures TextMeets(t, b) <==> TextMeets(t, r)
  {
    hide SameText, ComesBefore, Lower, Compare;
    LimitInFrancs(r);
    LimitInFrancs(b);
    hide RuleValueChf;
  }

  /** The same field and operator, the value in francs. */
  predicate IsSame(r: Rule, b: Rule) { b.field == r.field && b.op == r.op && b.value == RuleValueChf(r) && b.currency.None? }

  lemma SameLineFindings(r: Rule, b: Rule, other: Facts, wanted: Option<Wanted>)
    requires IsSame(r, b) && ReadsLines(r.field) && !(r.field.ItemCategory? && (r.op.In? || r.op.NotIn?))
    ensures Violates(b, other, wanted) <==> Violates(r, other, wanted)
    ensures LeavesOpen(b, other, wanted) <==> LeavesOpen(r, other, wanted)
  {
    hide RuleValueChf, NumberMeets, TextMeets, SameText, IsAsked, QuantityAsked;
    forall x: int ensures NumberMeets(x, b) <==> NumberMeets(x, r) { SameNumbers(r, b, x); }
    forall t: string ensures TextMeets(t, b) <==> TextMeets(t, r) { SameTexts(r, b, t); }
    hide ValuesOf, HasWord, SetsWindow, IsRecurring;
  }

  lemma SameShopFindings(r: Rule, b: Rule, other: Facts, wanted: Option<Wanted>)
    requires IsSame(r, b) && r.field.MerchantCategory?
    ensures Violates(b, other, wanted) <==> Violates(r, other, wanted)
    ensures LeavesOpen(b, other, wanted) <==> LeavesOpen(r, other, wanted)
  {
    LimitInFrancs(r);
    SameTexts(r, b, other.merchantCategory);
    hide RuleValueChf, NumberMeets, TextMeets, SameText;
  }

  lemma SameOneFindings(r: Rule, b: Rule, other: Facts, wanted: Option<Wanted>)
    requires IsSame(r, b) && !ReadsLines(r.field) && !r.field.MerchantCategory?
    ensures Violates(b, other, wanted) <==> Violates(r, other, wanted)
    ensures LeavesOpen(b, other, wanted) <==> LeavesOpen(r, other, wanted)
  {
    hide RuleValueChf, NumberMeets, TextMeets, SameText, IsAsked, QuantityAsked;
    forall x: int ensures NumberMeets(x, b) <==> NumberMeets(x, r) { SameNumbers(r, b, x); }
    forall t: string ensures TextMeets(t, b) <==> TextMeets(t, r) { SameTexts(r, b, t); }
    hide ValuesOf, HasWord, SetsWindow, IsRecurring, IsSame;
  }

  lemma SameFindings(r: Rule, b: Rule, other: Facts, wanted: Option<Wanted>)
    requires IsSame(r, b) && !(r.field.ItemCategory? && (r.op.In? || r.op.NotIn?))
    ensures Violates(b, other, wanted) <==> Violates(r, other, wanted)
    ensures LeavesOpen(b, other, wanted) <==> LeavesOpen(r, other, wanted)
  {
    hide Violates, LeavesOpen, IsSame;
    if ReadsLines(r.field) {
      SameLineFindings(r, b, other, wanted);
    } else if r.field.MerchantCategory? {
      SameShopFindings(r, b, other, wanted);
    } else {
      SameOneFindings(r, b, other, wanted);
    }
  }

  /** Any purchase meets a rule's own bound exactly when the rule passes for it. */
  lemma FieldBoundIff(r: Rule, facts: Facts, p: Policy, view: LedgerView, other: Facts)
    requires BoundsItself(r) && RuleById(p.rules, r.id) == Some(r)
    ensures TypedBound(r, facts, view).Some? && TypedBound(r, facts, view).value.FieldBound?
    ensures MeetsField(other, p.requestedItem, TypedBound(r, facts, view).value) <==> ResultFor(r, other, p, view).outcome.Pass?
  {
    hide RuleById, Violates, LeavesOpen, EvaluateTypedRule;
    var b := AsRule(TypedBound(r, facts, view).value);
    SameFindings(r, b, other, p.requestedItem);
    TypedFinds(r, other, p);
  }

  /** C8: a purchase meets the shop-type bound exactly when the flag is not violated. */
  lemma ShopTypeBoundIff(facts: Facts, p: Policy, other: Facts)
    requires p.shopType.Some?
    ensures FlagBound("C8", facts, p).Some? && FlagBound("C8", facts, p).value.FieldBound?
    ensures MeetsField(other, p.requestedItem, FlagBound("C8", facts, p).value) <==> !FlagViolated("C8", other, p)
  {
    hide SameText, BadTypes, IsAsked, IsUnasked;
    assert [p.shopType.value][0] in [p.shopType.value];
  }

  // --- Lines to drop --------------------------------------------------------------------------------------

  lemma RemovedIds(lines: seq<Item>, id: string)
    ensures id in Remove(lines).ids <==> exists ln :: ln in lines && ln.itemId == id
  {
    var ids := Map(lines, ItemIdOf);
    if ln :| ln in lines && ln.itemId == id {
      var i :| 0 <= i < |lines| && lines[i] == ln;
      assert ids[i] == id;
    }
    if id in ids {
      var i :| 0 <= i < |ids| && ids[i] == id;
      assert lines[i] in lines;
    }
  }

  /** The line is one its check objects to: of a kind not allowed, of a kind excluded, or not asked for. */
  ghost predicate Offends(ln: Item, id: string, p: Policy) {
    match FirstById(p.rules, id)
    case Some(r) => if r.op.In? then !HasWord(ValuesOf(r), ln.category) else HasWord(ValuesOf(r), ln.category)
    case None =>
      if id == "C3" then !HasWord(p.allowed, ln.category)
      else if id == "C4" then HasWord(p.blocked, ln.category)
      else IsUnasked(ln, p)
  }

  lemma BadTypesAre(facts: Facts, names: seq<string>, allowed: bool)
    ensures forall ln :: ln in BadTypes(facts, names, allowed) <==> ln in facts.items && HasWord(names, ln.category) != allowed
  {
    hide InCategories, HasWord;
    forall ln: Item ensures InCategories(ln.category, names) <==> HasWord(names, ln.category) { InWords(ln.category, names); }
  }

  lemma ExtraLinesAre(facts: Facts, p: Policy)
    ensures forall ln :: ln in ExtraLines(facts, p) <==> ln in facts.items && IsUnasked(ln, p)
  {
    assert forall ln :: IsExtra(ln, p) <==> IsUnasked(ln, p);
    hide IsExtra, IsUnasked;
  }

  /** A removal names exactly the items of the offending lines. */
  lemma RemovesOffenders(id: string, p: Policy, facts: Facts, view: LedgerView, item: string)
    requires Removes(id, p, facts, view)
    ensures item in RemovedBy(id, p, facts, view) <==> exists ln :: ln in facts.items && Offends(ln, id, p) && ln.itemId == item
  {
    hide BadTypes, ExtraLines, HasWord, Remove, IsUnasked, FirstById;
    match FirstById(p.rules, id)
    case Some(r) =>
      BadTypesAre(facts, ValuesOf(r), r.op.In?);
      RemovedIds(BadTypes(facts, ValuesOf(r), r.op.In?), item);
    case None =>
      BadTypesAre(facts, p.allowed, true);
      BadTypesAre(facts, p.blocked, false);
      ExtraLinesAre(facts, p);
      RemovedIds(BadTypes(facts, p.allowed, true), item);
      RemovedIds(BadTypes(facts, p.blocked, false), item);
      RemovedIds(ExtraLines(facts, p), item);
  }

  // --- Which results have one -------------------------------------------------------------------------------

  /** A condition no field states: what has to be in place first. */
  lemma ConditionsAre(res: RuleResult, p: Policy, facts: Facts, view: LedgerView)
    requires res.explains
    ensures res.ruleId == "policy_status" ==> RuleBound(res, p, facts, view) == Some(Requires("active_policy"))
    ensures res.ruleId == "authority_status" ==> RuleBound(res, p, facts, view) == Some(Requires("active_authority"))
    ensures res.ruleId == "card_status" ==> RuleBound(res, p, facts, view) == Some(Requires("active_card"))
    ensures res.ruleId !in STEP1_IDS && res.mark.NoHistory? ==> RuleBound(res, p, facts, view) == Some(Requires("customer_approval"))
    ensures res.ruleId !in STEP1_IDS && res.mark.ReservationOnly? ==> RuleBound(res, p, facts, view) == Some(Requires("unanswered_declined"))
    ensures res.ruleId !in STEP1_IDS && res.mark.Plain? && FirstById(p.rules, res.ruleId).Some? && IsShopRule(FirstById(p.rules, res.ruleId).value) ==>
      RuleBound(res, p, facts, view) == Some(Requires("known_shop"))
    ensures res.ruleId == "C9" && res.mark.Plain? && FirstById(p.rules, "C9").None? ==> RuleBound(res, p, facts, view) == Some(Requires("known_shop"))
    ensures res.ruleId == "C5" && res.mark.Plain? && FirstById(p.rules, "C5").None? ==> RuleBound(res, p, facts, view) == Some(Requires("requested_item"))
  {
    hide FirstById, BadTypes, ExtraLines, Remove;
    assert STEP1_IDS[0] == "policy_status" && STEP1_IDS[1] == "authority_status" && STEP1_IDS[2] == "card_status";
  }
}
