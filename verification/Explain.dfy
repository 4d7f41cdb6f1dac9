/** `would_approve_if` (backend/oneguard/engine/explain.py:486-629): the bounds a decline states,
    and that a purchase meeting them makes the rules behind them pass. */
module Explain {
  import opened Seqs
  import opened Types
  import opened Ledger
  import opened PolicyRules
  import opened Remember
  import opened CleanSheet
  import opened Policies
  import opened Draft

  /** A field and the value it must meet, cart lines to drop, or a condition no field states. */
  datatype Bound =
    | FieldBound(field: Field, op: Operator, value: Value, periodDays: Option<nat>)
    | RemoveItems(ids: seq<string>)
    | Requires(what: string)

  // --- The bound of one result -------------------------------------------------------------------

  function BadTypes(facts: Facts, categories: seq<string>, allowed: bool): seq<Item> {
    Filter(facts.items, (ln: Item) => InCategories(ln.category, categories) != allowed)
  }

  function ExtraLines(facts: Facts, p: Policy): seq<Item> {
    Filter(facts.items, (ln: Item) => IsExtra(ln, p))
  }

  function ItemIdOf(ln: Item): string { ln.itemId }

  function Remove(lines: seq<Item>): Bound { RemoveItems(Dedupe(Map(lines, ItemIdOf))) }

  /** What is left of a period limit, never below zero. */
  function Room(limit: int, view: LedgerView): int {
    var room := limit - view.periodSpent - view.periodReserved;
    if room < 0 then 0 else room
  }

  function PeriodBound(rule: Rule, view: LedgerView): Bound {
    if rule.field.PurchasesInPeriod? || !RuleValueChf(rule).Num? then FieldBound(rule.field, rule.op, rule.value, rule.periodDays)
    else FieldBound(BillingAmount, rule.op, Num(Room(RuleValueChf(rule).hundredths, view)), rule.periodDays)
  }

  function TypedBound(rule: Rule, facts: Facts, view: LedgerView): Option<Bound> {
    if rule.field.KnownShop? || rule.field.FamiliarOnCard? then Some(Requires("known_shop"))
    else if rule.field.ItemCategory? && (rule.op.In? || rule.op.NotIn?) then Some(Remove(BadTypes(facts, ValuesOf(rule), rule.op.In?)))
    else if rule.scope.PerPeriod? then Some(PeriodBound(rule, view))
    else if IsLastPriceRule(rule) then
      if facts.merchantId in view.lastPrice then Some(FieldBound(BillingAmount, rule.op, Num(view.lastPrice[facts.merchantId]), None)) else None
    else if rule.field.Unverifiable? then None
    else Some(FieldBound(rule.field, rule.op, RuleValueChf(rule), None))
  }

  function FlagBound(id: string, facts: Facts, p: Policy): Option<Bound> {
    if id == "C3" && p.allowed != [] then Some(Remove(BadTypes(facts, p.allowed, true)))
    else if id == "C4" && p.blocked != [] then Some(Remove(BadTypes(facts, p.blocked, false)))
    else if id == "C5" then Some(Requires("requested_item"))
    else if id == "C8" && p.shopType.Some? then Some(FieldBound(MerchantCategory, In, Names([p.shopType.value]), None))
    else if id == "C9" then Some(Requires("known_shop"))
    else if id == "C10" then Some(Remove(ExtraLines(facts, p)))
    else None
  }

  function FirstById(rules: seq<Rule>, id: string): (r: Option<Rule>)
    ensures r.None? <==> forall x :: x in rules ==> x.id != id
    ensures r.Some? ==> r.value in rules && r.value.id == id
  {
    if rules == [] then None
    else if rules[0].id == id then Some(rules[0])
    else FirstById(rules[1..], id)
  }

  function Step1Requires(id: string): string {
    if id == STEP1_IDS[0] then "active_policy" else if id == STEP1_IDS[1] then "active_authority" else "active_card"
  }

  function RuleBound(res: RuleResult, p: Policy, facts: Facts, view: LedgerView): Option<Bound> {
    if !res.explains then None
    else if res.ruleId in STEP1_IDS then Some(Requires(Step1Requires(res.ruleId)))
    else if res.mark.NoHistory? then Some(Requires("customer_approval"))
    else if res.mark.ReservationOnly? then Some(Requires("unanswered_declined"))
    else
      var rule := FirstById(p.rules, res.ruleId);
      var bound := if rule.Some? then TypedBound(rule.value, facts, view) else FlagBound(res.ruleId, facts, p);
      if bound == Some(RemoveItems([])) then None else bound
  }

  // --- Meeting an amount bound --------------------------------------------------------------------

  /** A purchase of this amount meets an amount bound. */
  predicate MeetsAmount(amount: int, b: Bound) {
    b.FieldBound? && b.field.BillingAmount? && Compare(NumAtom(amount), b.op, b.value)
  }

  /** A period limit: a positive amount meets the bound exactly when the rule passes for it on the
      same ledger view, whatever the operator, and also where the room is already gone. */
  lemma PeriodBoundIff(rule: Rule, view: LedgerView, amount: int)
    requires amount > 0 && rule.field.BillingAmount? && RuleValueChf(rule).Num?
    requires view.periodSpent >= 0 && view.periodReserved >= 0
    ensures MeetsAmount(amount, PeriodBound(rule, view)) <==>
      EvaluatePeriodRule(rule, amount, view.periodSpent, view.periodReserved).outcome.Pass?
  {
    hide RuleValueChf;
  }

  /** The view once every pending step-up is declined. */
  function Released(view: LedgerView): LedgerView
    requires view.periodCount.Some? && view.periodReservedCount <= view.periodCount.value
  {
    view.(periodReserved := 0, periodReservedCount := 0, periodCount := Some(view.periodCount.value - view.periodReservedCount))
  }

  /** A period rule's failure is marked exactly when it would pass once the reservations are released. */
  lemma ReleasedPasses(rule: Rule, facts: Facts, view: LedgerView)
    requires view.periodCount.Some? && view.periodReservedCount <= view.periodCount.value
    ensures PeriodResult(rule, facts, view).mark.ReservationOnly? <==>
      PeriodResult(rule, facts, view).outcome.Fail? && PeriodResult(rule, facts, Released(view)).outcome.Pass?
  {
    hide RuleValueChf, AllowedCount;
  }

  /** The last price: an amount meets the bound exactly when the rule passes for it. */
  lemma LastPriceBoundIff(rule: Rule, facts: Facts, p: Policy, view: LedgerView, amount: int)
    requires IsLastPriceRule(rule) && !rule.scope.PerPeriod? && RuleById(p.rules, rule.id) == Some(rule)
    requires TypedBound(rule, facts, view).Some?
    ensures MeetsAmount(amount, TypedBound(rule, facts, view).value) <==>
      ResultFor(rule, facts.(amount := amount), p, view).outcome.Pass?
  {
    hide EvaluateTypedRule, RuleById;
    TypedId(rule, facts.(amount := amount), p);
  }

  // --- Dropping lines ------------------------------------------------------------------------------

  /** The cart without the lines of these items. */
  function Without(facts: Facts, ids: set<string>): Facts {
    facts.(items := Filter(facts.items, (ln: Item) => ln.itemId !in ids))
  }

  lemma RemoveNames(lines: seq<Item>, ln: Item)
    requires ln in lines
    ensures ln.itemId in Remove(lines).ids
  {
    var i :| 0 <= i < |lines| && lines[i] == ln;
    assert Map(lines, ItemIdOf)[i] == ln.itemId;
  }

  lemma NoBadTypes(facts: Facts, categories: seq<string>, allowed: bool, ids: set<string>)
    requires forall id :: id in Remove(BadTypes(facts, categories, allowed)).ids ==> id in ids
    ensures forall ln :: ln in Without(facts, ids).items ==> (InCategories(ln.category, categories) == allowed)
  {
    hide InCategories;
    forall ln | ln in Without(facts, ids).items ensures InCategories(ln.category, categories) == allowed {
      if InCategories(ln.category, categories) != allowed {
        assert ln in BadTypes(facts, categories, allowed);
        RemoveNames(BadTypes(facts, categories, allowed), ln);
      }
    }
  }

  lemma NoExtraLines(facts: Facts, p: Policy, ids: set<string>)
    requires forall id :: id in Remove(ExtraLines(facts, p)).ids ==> id in ids
    ensures CheckNothingExtra(Without(facts, ids), p).outcome.Pass?
  {
    hide IsExtra;
    forall ln | ln in Without(facts, ids).items ensures !IsExtra(ln, p) {
      if IsExtra(ln, p) {
        assert ln in ExtraLines(facts, p);
        RemoveNames(ExtraLines(facts, p), ln);
      }
    }
  }

  /** The bound asks to drop lines, and it is the whole bound of the check `id`. */
  predicate Removes(id: string, p: Policy, facts: Facts, view: LedgerView) {
    var rule := FirstById(p.rules, id);
    var bound := if rule.Some? then TypedBound(rule.value, facts, view) else FlagBound(id, facts, p);
    bound.Some? && bound.value.RemoveItems?
  }

  function RemovedBy(id: string, p: Policy, facts: Facts, view: LedgerView): seq<string>
    requires Removes(id, p, facts, view)
  {
    var rule := FirstById(p.rules, id);
    (if rule.Some? then TypedBound(rule.value, facts, view) else FlagBound(id, facts, p)).value.ids
  }

  /** The check `id` passes for these facts: the rule's, or the flag's own. */
  ghost predicate CheckPasses(id: string, facts: Facts, p: Policy, view: LedgerView) {
    match FirstById(p.rules, id)
    case Some(rule) => ResultFor(rule, facts, p, view).outcome.Pass?
    case None =>
      if id == "C3" then CheckAllowedTypes(facts, p.allowed, "C3").outcome.Pass?
      else if id == "C4" then CheckBlockedTypes(facts, p.blocked, "C4").outcome.Pass?
      else CheckNothingExtra(facts, p).outcome.Pass?
  }

  /** Dropping at least the lines a removal bound names makes its check pass. */
  lemma RemovalSound(id: string, p: Policy, facts: Facts, view: LedgerView, ids: set<string>)
    requires DistinctIds(p.rules) && Removes(id, p, facts, view)
    requires forall x :: x in RemovedBy(id, p, facts, view) ==> x in ids
    ensures CheckPasses(id, Without(facts, ids), p, view)
  {
    hide BadTypes, ExtraLines, InCategories, Dedupe, Without, IsExtra;
    match FirstById(p.rules, id)
    case Some(rule) =>
      RuleFound(p.rules, rule);
      NoBadTypes(facts, ValuesOf(rule), rule.op.In?, ids);
      CategoryPasses(rule, Without(facts, ids), p, view);
    case None =>
      if id == "C3" {
        NoBadTypes(facts, p.allowed, true, ids);
      } else if id == "C4" {
        NoBadTypes(facts, p.blocked, false, ids);
      } else {
        NoExtraLines(facts, p, ids);
      }
  }

  lemma CategoryPasses(rule: Rule, facts: Facts, p: Policy, view: LedgerView)
    requires rule.field.ItemCategory? && (rule.op.In? || rule.op.NotIn?) && RuleById(p.rules, rule.id) == Some(rule)
    requires forall ln :: ln in facts.items ==> InCategories(ln.category, ValuesOf(rule)) == rule.op.In?
    ensures ResultFor(rule, facts, p, view).outcome.Pass?
  {
    hide InCategories, RuleById;
  }

  // --- Merging ---------------------------------------------------------------------------------------

  function RemovedIn(bounds: seq<Bound>): (ids: set<string>)
    ensures forall id :: id in ids <==> exists b :: b in bounds && b.RemoveItems? && id in b.ids
  {
    if bounds == [] then {}
    else
      var b := bounds[|bounds| - 1];
      assert bounds == bounds[..|bounds| - 1] + [b];
      RemovedIn(bounds[..|bounds| - 1]) + (if b.RemoveItems? then set id | id in b.ids else {})
  }

  ghost predicate OneRemoval(out: seq<Bound>) {
    forall i, j :: 0 <= i < |out| && 0 <= j < |out| && out[i].RemoveItems? && out[j].RemoveItems? ==> i == j
  }

  /** What merging keeps: every other bound once, and one removal entry with all items to drop. */
  ghost predicate MergedFrom(out: seq<Bound>, bounds: seq<Bound>) {
    && (forall b: Bound :: !b.RemoveItems? ==> (b in out <==> b in bounds))
    && NoDuplicates(out) && OneRemoval(out)
    && RemovedIn(out) == RemovedIn(bounds)
    && ((exists b :: b in out && b.RemoveItems?) <==> exists b :: b in bounds && b.RemoveItems?)
  }

  lemma MergedReplace(out: seq<Bound>, at: nat, bounds: seq<Bound>, b: Bound)
    requires MergedFrom(out, bounds) && at < |out| && out[at].RemoveItems? && b.RemoveItems?
    ensures MergedFrom(out[at := RemoveItems(Dedupe(out[at].ids + b.ids))], bounds + [b])
  {
    var after := RemoveItems(Dedupe(out[at].ids + b.ids));
    var next := out[at := after];
    assert next[at] == after && next[at] in next && b in bounds + [b];
    forall x: Bound | !x.RemoveItems? ensures x in next <==> x in bounds + [b] {
      if x in out {
        var i :| 0 <= i < |out| && out[i] == x;
        assert next[i] == x;
      }
    }
    forall id ensures id in RemovedIn(next) <==> id in RemovedIn(bounds + [b]) {
      ReplacedIds(out, at, b, id);
    }
  }

  lemma ReplacedIds(out: seq<Bound>, at: nat, b: Bound, id: string)
    requires at < |out| && OneRemoval(out) && out[at].RemoveItems? && b.RemoveItems?
    ensures id in RemovedIn(out[at := RemoveItems(Dedupe(out[at].ids + b.ids))]) <==> id in RemovedIn(out) || id in b.ids
  {
    var after := RemoveItems(Dedupe(out[at].ids + b.ids));
    var next := out[at := after];
    assert next[at] == after && next[at] in next && out[at] in out;
    if x :| x in next && x.RemoveItems? && id in x.ids {
      var i :| 0 <= i < |next| && next[i] == x;
      if i != at { assert out[i] == x; }
    }
  }

  function AsEntry(b: Bound): Bound { if b.RemoveItems? then RemoveItems(Dedupe(b.ids)) else b }

  lemma MergedAppend(out: seq<Bound>, bounds: seq<Bound>, b: Bound)
    requires MergedFrom(out, bounds)
    requires if b.RemoveItems? then forall x :: x in out ==> !x.RemoveItems? else b !in out
    ensures MergedFrom(out + [AsEntry(b)], bounds + [b])
  {
    hide RemovedIn, Dedupe;
    var added := AsEntry(b);
    AppendOnce(out, added);
    RemovedNext(out, added);
    RemovedNext(bounds, b);
    assert b in bounds + [b] && added in out + [added];
  }

  lemma AppendOnce(out: seq<Bound>, added: Bound)
    requires NoDuplicates(out) && OneRemoval(out)
    requires if added.RemoveItems? then forall x :: x in out ==> !x.RemoveItems? else added !in out
    ensures NoDuplicates(out + [added]) && OneRemoval(out + [added])
  {
    var next := out + [added];
    forall i, j | 0 <= i < |next| && 0 <= j < |next| && next[i].RemoveItems? && next[j].RemoveItems? ensures i == j {
      if i < |out| { assert next[i] in out; }
      if j < |out| { assert next[j] in out; }
    }
  }

  lemma RemovedNext(bounds: seq<Bound>, b: Bound)
    ensures RemovedIn(bounds + [b]) == RemovedIn(bounds) + (if b.RemoveItems? then set id | id in b.ids else {})
  {
    assert (bounds + [b])[..|bounds|] == bounds;
  }

  lemma MergedSkip(out: seq<Bound>, bounds: seq<Bound>, b: Bound)
    requires MergedFrom(out, bounds) && !b.RemoveItems? && b in out
    ensures MergedFrom(out, bounds + [b])
  {
    assert (bounds + [b])[..|bounds|] == bounds;
  }

  /** `_merged`: one pass, the removal entry updated in place. */
  method Merge(bounds: seq<Bound>) returns (out: seq<Bound>)
    ensures MergedFrom(out, bounds)
  {
    hide MergedFrom, Dedupe;
    out := [];
    var removal: Option<nat> := None;
    MergedNone();
    for i := 0 to |bounds|
      invariant MergedFrom(out, bounds[..i])
      invariant removal.None? ==> forall x :: x in out ==> !x.RemoveItems?
      invariant removal.Some? ==> removal.value < |out| && out[removal.value].RemoveItems?
    {
      var b := bounds[i];
      assert bounds[..i + 1] == bounds[..i] + [b];
      if b.RemoveItems? {
        match removal
        case None =>
          MergedAppend(out, bounds[..i], b);
          out, removal := out + [RemoveItems(Dedupe(b.ids))], Some(|out|);
        case Some(at) =>
          MergedReplace(out, at, bounds[..i], b);
          out := out[at := RemoveItems(Dedupe(out[at].ids + b.ids))];
      } else if b !in out {
        MergedAppend(out, bounds[..i], b);
        out := out + [b];
      } else {
        MergedSkip(out, bounds[..i], b);
      }
    }
    assert bounds[..|bounds|] == bounds;
  }

  lemma MergedNone()
    ensures MergedFrom([], [])
  {
  }

  // --- The whole list ----------------------------------------------------------------------------------

  predicate Explained(res: RuleResult) { res.outcome.Fail? && res.explains }

  /** The bounds of the failing results that have one. */
  function FailingBounds(results: seq<RuleResult>, p: Policy, facts: Facts, view: LedgerView): (bounds: seq<Bound>)
    ensures forall b :: b in bounds <==> exists res :: res in results && Explained(res) && RuleBound(res, p, facts, view) == Some(b)
  {
    if results == [] then []
    else
      var res := results[|results| - 1];
      assert results == results[..|results| - 1] + [res];
      FailingBounds(results[..|results| - 1], p, facts, view)
      + (if Explained(res) && RuleBound(res, p, facts, view).Some? then [RuleBound(res, p, facts, view).value] else [])
  }

  /** `would_approve_if` of a decline: the failing rules' bounds, else those of the declining
      protections, merged. */
  method WouldApproveIf(results: seq<RuleResult>, shields: seq<Bound>, p: Policy, facts: Facts, view: LedgerView)
    returns (out: seq<Bound>)
    ensures MergedFrom(out, if exists res :: res in results && Explained(res) then FailingBounds(results, p, facts, view) else shields)
  {
    if exists res :: res in results && Explained(res) {
      out := Merge(FailingBounds(results, p, facts, view));
    } else {
      out := Merge(shields);
    }
  }

  lemma BoundRemoves(res: RuleResult, p: Policy, facts: Facts, view: LedgerView)
    requires RuleBound(res, p, facts, view).Some? && RuleBound(res, p, facts, view).value.RemoveItems?
    ensures Removes(res.ruleId, p, facts, view) && RemovedBy(res.ruleId, p, facts, view) == RuleBound(res, p, facts, view).value.ids
  {
    hide TypedBound, FlagBound, FirstById;
  }

  /** Jointly sound: drop the items the one removal entry names, and every failing check that
      asked to drop lines passes at once. */
  lemma JointlySound(results: seq<RuleResult>, out: seq<Bound>, p: Policy, facts: Facts, view: LedgerView, res: RuleResult)
    requires DistinctIds(p.rules) && MergedFrom(out, FailingBounds(results, p, facts, view))
    requires res in results && Explained(res) && RuleBound(res, p, facts, view).Some? && RuleBound(res, p, facts, view).value.RemoveItems?
    ensures CheckPasses(res.ruleId, Without(facts, RemovedIn(out)), p, view)
  {
    hide TypedBound, FlagBound, CheckPasses, Without, DistinctIds, FirstById, Step1Requires, NoDuplicates, OneRemoval;
    var b := RuleBound(res, p, facts, view).value;
    assert b in FailingBounds(results, p, facts, view);
    BoundRemoves(res, p, facts, view);
    hide RuleBound, Removes, RemovedBy;
    RemovalSound(res.ruleId, p, facts, view, RemovedIn(out));
  }
}
