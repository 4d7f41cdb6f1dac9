/** Warning signs W1-W6 (backend/oneguard/engine/warnings.py): detection only. */
module Warnings {
  import opened Seqs
  import opened Types
  import opened Ledger
  import opened PolicyRules

  const BURST_ATTEMPTS := 2

  /** The strictest stated per-order limit: its amount and whether an equal total passes
      (protections.py:219). */
  datatype OrderLimit = OrderLimit(amount: int, equalPasses: bool)

  predicate IsOrderLimit(r: Rule) {
    r.field.BillingAmount? && !r.scope.PerPeriod? && (r.op.Lt? || r.op.Le?) && r.value.Num?
  }

  function LimitOf(r: Rule): OrderLimit
    requires IsOrderLimit(r)
  {
    OrderLimit(RuleValueChf(r).hundredths, r.op.Le?)
  }

  predicate Stricter(a: OrderLimit, b: OrderLimit) {
    a.amount < b.amount || (a.amount == b.amount && (!a.equalPasses || b.equalPasses))
  }

  function PerOrderLimit(rules: seq<Rule>): (r: Option<OrderLimit>)
    ensures r.None? <==> forall x :: x in rules ==> !IsOrderLimit(x)
    ensures r.Some? ==> forall x :: x in rules && IsOrderLimit(x) ==> Stricter(r.value, LimitOf(x))
    ensures r.Some? ==> exists x :: x in rules && IsOrderLimit(x) && LimitOf(x) == r.value
  {
    if rules == [] then None
    else
      var x := rules[|rules| - 1];
      var rest := PerOrderLimit(rules[..|rules| - 1]);
      assert rules == rules[..|rules| - 1] + [x];
      if !IsOrderLimit(x) then rest
      else if rest.None? || !Stricter(rest.value, LimitOf(x)) then Some(LimitOf(x))
      else rest
  }

  predicate Exceeds(total: int, limit: OrderLimit) {
    if limit.equalPasses then total > limit.amount else total >= limit.amount
  }

  /** No approved purchase in history, on any card, and none in this run. */
  predicate NoBaseline(view: LedgerView) { view.knownMerchants == {} }

  function Sign(id: string, triggered: bool, strength: Strength): Signal {
    Signal(id, triggered, strength, AskEffect, None)
  }

  /** "No baseline yet": shown, never asks. */
  function BaselineInfo(id: string, strength: Strength): Signal {
    Signal(id, true, strength, InfoEffect, None)
  }

  function NewDevice(facts: Facts, view: LedgerView): Signal {
    if facts.deviceId == "" then Sign("W1", true, Strong)
    else if facts.deviceId in view.knownDevices then Sign("W1", false, Strong)
    else if NoBaseline(view) then BaselineInfo("W1", Strong)
    else Sign("W1", true, Strong)
  }

  function Burst(facts: Facts): Signal {
    Sign("W2", facts.recentAttempts >= BURST_ATTEMPTS, Strong)
  }

  function NewCountry(facts: Facts, view: LedgerView): Signal {
    if facts.merchantCountry in view.knownCountries then Sign("W3", false, Weak)
    else if NoBaseline(view) then BaselineInfo("W3", Weak)
    else Sign("W3", true, Weak)
  }

  /** A total within a stated per-order limit is never above normal. */
  function AboveNormal(facts: Facts, view: LedgerView, limit: Option<OrderLimit>): Signal {
    if limit.Some? && facts.amount <= limit.value.amount then Sign("W4", false, Weak)
    else if NoBaseline(view) then BaselineInfo("W4", Weak)
    else Sign("W4", view.maxApproved.None? || facts.amount > view.maxApproved.value, Weak)
  }

  function Night(facts: Facts): Signal { Sign("W5", facts.hour < 5, Weak) }

  predicate OutsideRange(line: Item) {
    (line.minPrice.Some? && line.unitPrice < line.minPrice.value)
    || (line.maxPrice.Some? && line.unitPrice > line.maxPrice.value)
  }

  function PriceOutsideRange(facts: Facts): Signal {
    Sign("W6", exists ln :: ln in facts.items && OutsideRange(ln), Weak)
  }

  function WarningSigns(facts: Facts, view: LedgerView, policy: Policy): seq<Signal> {
    [NewDevice(facts, view), Burst(facts), NewCountry(facts, view),
     AboveNormal(facts, view, PerOrderLimit(policy.rules)), Night(facts), PriceOutsideRange(facts)]
  }
}
