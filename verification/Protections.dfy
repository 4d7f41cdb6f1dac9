/** The always-on protections A1-A8 (backend/oneguard/engine/protections.py). Each returns one
    signal, triggered or not; the ladder turns signals into outcomes. */
module Protections {
  import opened Seqs
  import opened Types
  import opened Ledger
  import opened PolicyRules
  import opened Warnings
  import opened EditDistance

  const DUPLICATE_WINDOW := DAY
  const SPLIT_WINDOW := 600

  function Shield(id: string, triggered: bool, effect: Effect): Signal {
    Signal(id, triggered, Protection, effect, None)
  }

  function InjectedText(facts: Facts): Signal { Shield("A1", facts.instructionsInText, AskEffect) }

  function AmountFromText(): Signal { Shield("A2", false, DeclineEffect) }

  /** A final approval (an approved step-up included) or a pending step-up. */
  predicate MayBeApproved(p: Prior) { p.approved || (p.outcome.StepUp? && !p.final) }

  predicate IsEarlier(facts: Facts, p: Prior, window: int) {
    p.id != facts.id && p.merchantId == facts.merchantId
    && facts.ts - window <= p.ts <= facts.ts && MayBeApproved(p)
  }

  function FirstPrior(priors: seq<Prior>, id: string): (r: Option<Prior>)
    ensures r.Some? ==> r.value in priors && r.value.id == id
    ensures r.None? ==> forall p :: p in priors ==> p.id != id
  {
    if priors == [] then None
    else if priors[0].id == id then Some(priors[0])
    else FirstPrior(priors[1..], id)
  }

  /** The declined purchase this one re-quotes, if any (A5). */
  function Requoted(facts: Facts, view: LedgerView): Option<string> {
    if facts.relatedId == "" then None
    else
      match FirstPrior(view.priors, facts.relatedId)
      case Some(p) => if p.outcome.Decline? then Some(facts.relatedId) else None
      case None => if facts.relatedStatus.RelDeclined? then Some(facts.relatedId) else None
  }

  function Requote(requoted: Option<string>): Signal {
    match requoted
    case Some(id) => Signal("A5", true, Protection, InfoEffect, Some((id, RequoteOf)))
    case None => Shield("A5", false, InfoEffect)
  }

  function ItemId(line: Item): string { line.itemId }

  function CartIds(facts: Facts): seq<string> { Map(facts.items, ItemId) }

  /** Within 5% of the earlier amount. */
  predicate NearAmount(now: int, before: int) {
    20 * (if now >= before then now - before else before - now) <= before
  }

  predicate IsRepeat(facts: Facts, p: Prior) {
    multiset(p.itemIds) == multiset(CartIds(facts)) && p.amount > 0 && NearAmount(facts.amount, p.amount)
  }

  /** The latest prior that meets the test (priors are oldest first). */
  function LastPrior(priors: seq<Prior>, p: Prior -> bool): (r: Option<Prior>)
    ensures r.Some? ==> r.value in priors && p(r.value)
    ensures r.None? ==> forall x :: x in priors ==> !p(x)
  {
    if priors == [] then None
    else if p(priors[|priors| - 1]) then Some(priors[|priors| - 1])
    else
      assert priors == priors[..|priors| - 1] + [priors[|priors| - 1]];
      LastPrior(priors[..|priors| - 1], p)
  }

  function Duplicate(facts: Facts, view: LedgerView, requoted: Option<string>): Signal {
    var hit := LastPrior(view.priors, (p: Prior) => IsEarlier(facts, p, DUPLICATE_WINDOW) && IsRepeat(facts, p));
    if hit.Some? && requoted.None?
    then Signal("A3", true, Protection, AskEffect, Some((hit.value.id, DuplicateOf)))
    else Shield("A3", false, AskEffect)
  }

  function Split(facts: Facts, rules: seq<Rule>, view: LedgerView): Signal {
    match PerOrderLimit(rules)
    case None => Shield("A4", false, AskEffect)
    case Some(limit) =>
      var hit := LastPrior(view.priors, (p: Prior) =>
        IsEarlier(facts, p, SPLIT_WINDOW) && Exceeds(p.amount + facts.amount, limit));
      if hit.Some? then Signal("A4", true, Protection, AskEffect, Some((hit.value.id, SplitOf)))
      else Shield("A4", false, AskEffect)
  }

  predicate AskedFor(line: Item, policy: Policy) {
    (policy.requestedItem.Some? && MatchesRequested(line, policy.requestedItem.value))
    || line.category in policy.allowed
  }

  function HiddenRecurring(facts: Facts, policy: Policy): Signal {
    Shield("A6", exists ln :: ln in facts.items && BillsRepeatedly(ln) && !AskedFor(ln, policy),
           if policy.nothingExtra then DeclineEffect else AskEffect)
  }

  /** The lookalike test behind `EditDistance.Lookalike`: some known shop is within two letters
      and this shop is not itself known. */
  predicate LooksAlike(merchantId: string, name: string, known: seq<(string, string)>) {
    (forall k :: k in known ==> k.0 != merchantId)
    && exists k :: k in known && Lev(name, k.1) <= LOOKALIKE_MAX_DISTANCE
  }

  function LookalikeShop(facts: Facts, policy: Policy, view: LedgerView): Signal {
    Shield("A7", LooksAlike(facts.merchantId, facts.merchantName, view.knownNames),
           if policy.requiresKnownShop then DeclineEffect else AskEffect)
  }

  /** A7 as the source runs it, by searching for the closest known shop. */
  method FindLookalike(facts: Facts, policy: Policy, view: LedgerView) returns (s: Signal)
    ensures s == LookalikeShop(facts, policy, view)
  {
    var closest := Lookalike(facts.merchantId, facts.merchantName, view.knownNames);
    s := Shield("A7", closest.Some?, if policy.requiresKnownShop then DeclineEffect else AskEffect);
  }

  /** The cart holds the item a single-item mandate asks for once. */
  predicate HoldsRequested(facts: Facts, policy: Policy) {
    policy.singleItem && policy.requestedItem.Some?
    && exists ln :: ln in facts.items && MatchesRequested(ln, policy.requestedItem.value)
  }

  predicate BoughtAlready(facts: Facts, policy: Policy, view: LedgerView) {
    view.fulfilments.None?
    || exists f :: f in view.fulfilments.value && f.mandateId == policy.mandateId && f.id != facts.id
  }

  function AlreadyBought(facts: Facts, policy: Policy, view: LedgerView): Signal {
    Shield("A8", HoldsRequested(facts, policy) && BoughtAlready(facts, policy, view), AskEffect)
  }

  function Evaluate(facts: Facts, policy: Policy, view: LedgerView): seq<Signal> {
    var requoted := Requoted(facts, view);
    [InjectedText(facts), AmountFromText(), Duplicate(facts, view, requoted),
     Split(facts, policy.rules, view), Requote(requoted), HiddenRecurring(facts, policy),
     LookalikeShop(facts, policy, view), AlreadyBought(facts, policy, view)]
  }
}
