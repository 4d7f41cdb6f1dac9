/** When each protection and each warning sign fires, said over the purchase, the earlier orders and
    what the customer's history knows (backend/oneguard/engine/protections.py:104-459, warnings.py:42-150). */
module ShieldMeaning {
  import opened Seqs
  import opened Types
  import opened Ledger
  import opened PolicyRules
  import opened Warnings
  import opened EditDistance
  import opened Protections
  import opened Ladder
  import opened LadderJoin
  import opened LadderNames
  import opened RuleMeaning

  // --- Earlier orders -----------------------------------------------------------------------------------

  /** An order at the shop in the last so many seconds that was approved, or may still be. */
  predicate Precedes(p: Prior, facts: Facts, seconds: int) {
    && p.id != facts.id && p.merchantId == facts.merchantId && p.ts <= facts.ts <= p.ts + seconds
    && (p.approved || (p.outcome.StepUp? && !p.final))
  }

  function ItemIdsOf(items: seq<Item>): multiset<string> {
    if items == [] then multiset{} else ItemIdsOf(items[..|items| - 1]) + multiset{items[|items| - 1].itemId}
  }

  /** A3: the same items, at an amount within a twentieth of the earlier one. */
  predicate IsSameCart(p: Prior, facts: Facts) {
    && multiset(p.itemIds) == ItemIdsOf(facts.items) && p.amount > 0
    && 19 * p.amount <= 20 * facts.amount <= 21 * p.amount
  }

  /** A stated limit on one order that the total is over. */
  ghost predicate OverLimit(total: int, rules: seq<Rule>) {
    exists r :: r in rules && r.field.BillingAmount? && !r.scope.PerPeriod? && (r.op.Lt? || r.op.Le?) && r.value.Num? && !NumberMeets(total, r)
  }

  /** A5: the order names a declined one: the first of that id among the earlier ones was declined,
      or none has the id and the shop says it was. */
  ghost predicate Requotes(facts: Facts, view: LedgerView) {
    && facts.relatedId != ""
    && if forall p :: p in view.priors ==> p.id != facts.relatedId then facts.relatedStatus.RelDeclined?
       else exists i :: FirstNamed(i, view.priors, facts.relatedId) && view.priors[i].outcome.Decline?
  }

  ghost predicate FirstNamed(i: int, priors: seq<Prior>, id: string) {
    0 <= i < |priors| && priors[i].id == id && forall j :: 0 <= j < i ==> priors[j].id != id
  }

  ghost predicate Repeats(facts: Facts, view: LedgerView) {
    !Requotes(facts, view) && exists p :: p in view.priors && Precedes(p, facts, 86400) && IsSameCart(p, facts)
  }

  ghost predicate Splits(facts: Facts, p: Policy, view: LedgerView) {
    exists q :: q in view.priors && Precedes(q, facts, 600) && OverLimit(q.amount + facts.amount, p.rules)
  }

  /** A6: a line that bills again, neither the item asked for nor of a kind allowed. */
  predicate HidesRecurring(facts: Facts, p: Policy) {
    exists ln :: ln in facts.items && IsRecurring(ln) && ln.category !in p.allowed && !(p.requestedItem.Some? && IsAsked(ln, p.requestedItem))
  }

  /** A7: not a known shop, but called like one up to two letters. */
  predicate Imitates(facts: Facts, view: LedgerView) {
    && (forall k :: k in view.knownNames ==> k.0 != facts.merchantId)
    && exists k :: k in view.knownNames && Lev(facts.merchantName, k.1) <= 2
  }

  /** A8: it holds the one item asked for once, which was bought already, or may have been. */
  predicate BuysAgain(facts: Facts, p: Policy, view: LedgerView) {
    && p.singleItem && p.requestedItem.Some? && (exists ln :: ln in facts.items && IsAsked(ln, p.requestedItem))
    && (view.fulfilments.None? || exists f :: f in view.fulfilments.value && f.mandateId == p.mandateId && f.id != facts.id)
  }

  /** The protections that decline. */
  predicate Stops(id: string, facts: Facts, p: Policy, view: LedgerView) {
    || (id == "A6" && p.nothingExtra && HidesRecurring(facts, p))
    || (id == "A7" && p.requiresKnownShop && Imitates(facts, view))
  }

  /** The protections that ask. */
  ghost predicate Questions(id: string, facts: Facts, p: Policy, view: LedgerView) {
    || (id == "A1" && facts.instructionsInText)
    || (id == "A3" && Repeats(facts, view))
    || (id == "A4" && Splits(facts, p, view))
    || (id == "A6" && !p.nothingExtra && HidesRecurring(facts, p))
    || (id == "A7" && !p.requiresKnownShop && Imitates(facts, view))
    || (id == "A8" && BuysAgain(facts, p, view))
  }

  lemma FirstIs(priors: seq<Prior>, id: string)
    ensures FirstPrior(priors, id).Some? ==> exists i :: FirstNamed(i, priors, id) && priors[i] == FirstPrior(priors, id).value
  {
    if priors != [] && priors[0].id != id && FirstPrior(priors[1..], id).Some? {
      FirstIs(priors[1..], id);
      var i :| FirstNamed(i, priors[1..], id) && priors[1..][i] == FirstPrior(priors[1..], id).value;
      assert priors[i + 1] == priors[1..][i];
      assert FirstNamed(i + 1, priors, id) by {
        forall j | 0 <= j < i + 1 ensures priors[j].id != id { if j > 0 { assert priors[1..][j - 1].id != id; } }
      }
    } else if priors != [] && priors[0].id == id {
      assert FirstNamed(0, priors, id);
    }
  }

  lemma RequotedIff(facts: Facts, view: LedgerView)
    ensures Requoted(facts, view) == if Requotes(facts, view) then Some(facts.relatedId) else None
  {
    FirstIs(view.priors, facts.relatedId);
    hide FirstPrior;
    var first := FirstPrior(view.priors, facts.relatedId);
    if first.Some? {
      var i :| FirstNamed(i, view.priors, facts.relatedId) && view.priors[i] == first.value;
      assert forall j :: FirstNamed(j, view.priors, facts.relatedId) ==> j == i;
      assert view.priors[i] in view.priors;
    }
  }

  lemma {:induction false} CartIdsAre(items: seq<Item>)
    ensures multiset(Map(items, ItemId)) == ItemIdsOf(items)
  {
    if items != [] {
      var init, last := items[..|items| - 1], items[|items| - 1];
      CartIdsAre(init);
      assert Map(items, ItemId) == Map(init, ItemId) + [last.itemId];
    }
  }

  lemma SameCartIff(p: Prior, facts: Facts)
    ensures IsRepeat(facts, p) <==> IsSameCart(p, facts)
  {
    CartIdsAre(facts.items);
  }

  lemma EarlierIff(p: Prior, facts: Facts)
    ensures IsEarlier(facts, p, DUPLICATE_WINDOW) <==> Precedes(p, facts, 86400)
    ensures IsEarlier(facts, p, SPLIT_WINDOW) <==> Precedes(p, facts, 600)
  {
  }

  lemma RepeatsIff(facts: Facts, view: LedgerView)
    ensures Duplicate(facts, view, Requoted(facts, view)).triggered <==> Repeats(facts, view)
  {
    hide Requoted, Requotes, IsRepeat, IsSameCart, IsEarlier, Precedes;
    RequotedIff(facts, view);
    forall p | p in view.priors
      ensures IsEarlier(facts, p, DUPLICATE_WINDOW) && IsRepeat(facts, p) <==> Precedes(p, facts, 86400) && IsSameCart(p, facts)
    {
      EarlierIff(p, facts);
      SameCartIff(p, facts);
    }
  }

  /** Over the strictest limit exactly when over one of them. */
  lemma ExceedsIff(total: int, rules: seq<Rule>)
    ensures (PerOrderLimit(rules).Some? && Exceeds(total, PerOrderLimit(rules).value)) <==> OverLimit(total, rules)
  {
    hide PerOrderLimit, RuleValueChf;
    forall r | r in rules && IsOrderLimit(r) ensures RuleValueChf(r).Num? && (Exceeds(total, LimitOf(r)) <==> !NumberMeets(total, r)) {
      LimitInFrancs(r);
    }
    var limit := PerOrderLimit(rules);
    if limit.Some? {
      var x :| x in rules && IsOrderLimit(x) && LimitOf(x) == limit.value;
      assert Exceeds(total, limit.value) <==> !NumberMeets(total, x);
    }
  }

  lemma SplitsIff(facts: Facts, p: Policy, view: LedgerView)
    ensures Split(facts, p.rules, view).triggered <==> Splits(facts, p, view)
  {
    hide PerOrderLimit, IsEarlier, Precedes, OverLimit, Exceeds;
    forall q | q in view.priors
      ensures IsEarlier(facts, q, SPLIT_WINDOW) <==> Precedes(q, facts, 600)
      ensures (PerOrderLimit(p.rules).Some? && Exceeds(q.amount + facts.amount, PerOrderLimit(p.rules).value)) <==> OverLimit(q.amount + facts.amount, p.rules)
    {
      EarlierIff(q, facts);
      ExceedsIff(q.amount + facts.amount, p.rules);
    }
  }

  lemma RecurringIff(facts: Facts, p: Policy)
    ensures HiddenRecurring(facts, p).triggered <==> HidesRecurring(facts, p)
  {
    assert forall ln :: BillsRepeatedly(ln) && !AskedFor(ln, p) <==> IsRecurring(ln) && ln.category !in p.allowed && !(p.requestedItem.Some? && IsAsked(ln, p.requestedItem));
  }

  lemma BuysAgainIff(facts: Facts, p: Policy, view: LedgerView)
    ensures AlreadyBought(facts, p, view).triggered <==> BuysAgain(facts, p, view)
  {
    assert p.requestedItem.Some? ==> forall ln :: MatchesRequested(ln, p.requestedItem.value) <==> IsAsked(ln, p.requestedItem);
    hide MatchesRequested, IsAsked;
  }

  ghost predicate SomeBlocks(signals: seq<Signal>, id: string) { exists s :: s in signals && Blocks(s) && s.id == id }
  ghost predicate SomeAsks(signals: seq<Signal>, id: string) { exists s :: s in signals && Asks(s) && s.id == id }

  lemma EightShields(s: seq<Signal>, x: Signal)
    requires |s| == 8
    ensures x in s <==> x == s[0] || x == s[1] || x == s[2] || x == s[3] || x == s[4] || x == s[5] || x == s[6] || x == s[7]
  {
  }

  /** The eight signals: which id each has, what it would do, and when it fires. */
  lemma ShieldsAre(facts: Facts, p: Policy, view: LedgerView)
    ensures
      var s := Evaluate(facts, p, view);
      && |s| == 8
      && s[0].id == "A1" && s[0].effect.AskEffect? && (s[0].triggered <==> facts.instructionsInText)
      && s[1].id == "A2" && s[1].effect.DeclineEffect? && !s[1].triggered
      && s[2].id == "A3" && s[2].effect.AskEffect? && (s[2].triggered <==> Repeats(facts, view))
      && s[3].id == "A4" && s[3].effect.AskEffect? && (s[3].triggered <==> Splits(facts, p, view))
      && s[4].id == "A5" && s[4].effect.InfoEffect?
      && s[5].id == "A6" && (s[5].triggered <==> HidesRecurring(facts, p)) && s[5].effect == (if p.nothingExtra then DeclineEffect else AskEffect)
      && s[6].id == "A7" && (s[6].triggered <==> Imitates(facts, view)) && s[6].effect == (if p.requiresKnownShop then DeclineEffect else AskEffect)
      && s[7].id == "A8" && s[7].effect.AskEffect? && (s[7].triggered <==> BuysAgain(facts, p, view))
  {
    RepeatsIff(facts, view);
    SplitsIff(facts, p, view);
    RecurringIff(facts, p);
    BuysAgainIff(facts, p, view);
    hide Requoted, LastPrior, PerOrderLimit, HoldsRequested, BoughtAlready, HidesRecurring, BuysAgain, Splits, Repeats, Lev;
  }

  /** Eight signals with these ids: which asks, or declines, is told by each in turn. */
  ghost predicate AreEight(s: seq<Signal>) {
    && |s| == 8 && s[0].id == "A1" && s[1].id == "A2" && s[2].id == "A3" && s[3].id == "A4" && s[4].id == "A5"
    && s[5].id == "A6" && s[6].id == "A7" && s[7].id == "A8"
  }

  lemma OneOfEight(s: seq<Signal>, test: Signal -> bool, id: string)
    requires AreEight(s)
    ensures (exists x :: x in s && test(x) && x.id == id) <==>
      || (id == "A1" && test(s[0])) || (id == "A2" && test(s[1])) || (id == "A3" && test(s[2])) || (id == "A4" && test(s[3]))
      || (id == "A5" && test(s[4])) || (id == "A6" && test(s[5])) || (id == "A7" && test(s[6])) || (id == "A8" && test(s[7]))
  {
    if x :| x in s && test(x) && x.id == id { EightShields(s, x); }
    assert s[0] in s && s[1] in s && s[2] in s && s[3] in s && s[4] in s && s[5] in s && s[6] in s && s[7] in s;
  }

  lemma ShieldsAsk(facts: Facts, p: Policy, view: LedgerView, id: string)
    ensures SomeAsks(Evaluate(facts, p, view), id) <==> Questions(id, facts, p, view)
  {
    hide Evaluate, Imitates, HidesRecurring, BuysAgain, Splits, Repeats, Shield;
    var s := Evaluate(facts, p, view);
    ShieldsAre(facts, p, view);
    OneOfEight(s, Asks, id);
  }

  lemma ShieldsBlock(facts: Facts, p: Policy, view: LedgerView, id: string)
    ensures SomeBlocks(Evaluate(facts, p, view), id) <==> Stops(id, facts, p, view)
  {
    hide Evaluate, Imitates, HidesRecurring, BuysAgain, Splits, Repeats, Shield;
    var s := Evaluate(facts, p, view);
    ShieldsAre(facts, p, view);
    OneOfEight(s, Blocks, id);
  }

  // --- Signs ----------------------------------------------------------------------------------------------

  /** W1: no device, or one not seen before once any shop is known. */
  predicate StrangeDevice(facts: Facts, view: LedgerView) {
    facts.deviceId == "" || (facts.deviceId !in view.knownDevices && view.knownMerchants != {})
  }

  /** W2: two or more other attempts in ten minutes. */
  predicate InBurst(facts: Facts) { facts.recentAttempts >= 2 }

  predicate StrongSign(id: string, facts: Facts, view: LedgerView) {
    (id == "W1" && StrangeDevice(facts, view)) || (id == "W2" && InBurst(facts))
  }

  /** Within every stated limit on one order, of which there is one. */
  ghost predicate WithinLimits(amount: int, rules: seq<Rule>) {
    && (exists r :: r in rules && IsOrderLimit(r))
    && (forall r :: r in rules && IsOrderLimit(r) ==> RuleValueChf(r).Num? && amount <= RuleValueChf(r).hundredths)
  }

  /** W4: over the largest amount approved so far, unless within the stated limits. */
  ghost predicate IsAboveNormal(facts: Facts, p: Policy, view: LedgerView) {
    && !WithinLimits(facts.amount, p.rules) && view.knownMerchants != {}
    && (view.maxApproved.None? || facts.amount > view.maxApproved.value)
  }

  /** W6: a line below its lowest usual price or above its highest. */
  predicate IsOddPrice(ln: Item) {
    || (ln.minPrice.Some? && ln.minPrice.value > ln.unitPrice)
    || (ln.maxPrice.Some? && ln.maxPrice.value < ln.unitPrice)
  }

  ghost predicate WeakSign(id: string, facts: Facts, p: Policy, view: LedgerView) {
    || (id == "W3" && facts.merchantCountry !in view.knownCountries && view.knownMerchants != {})
    || (id == "W4" && IsAboveNormal(facts, p, view))
    || (id == "W5" && facts.hour < 5)
    || (id == "W6" && exists ln :: ln in facts.items && IsOddPrice(ln))
  }

  lemma AboveNormalIff(facts: Facts, p: Policy, view: LedgerView)
    ensures Warns(AboveNormal(facts, view, PerOrderLimit(p.rules))) <==> IsAboveNormal(facts, p, view)
  {
    hide PerOrderLimit, RuleValueChf;
    forall r | r in p.rules && IsOrderLimit(r) ensures RuleValueChf(r).Num? { LimitInFrancs(r); }
    var limit := PerOrderLimit(p.rules);
    if limit.Some? {
      var x :| x in p.rules && IsOrderLimit(x) && LimitOf(x) == limit.value;
      assert WithinLimits(facts.amount, p.rules) <==> facts.amount <= limit.value.amount;
    }
  }

  /** The six signals: which id each has, how strong it is, and when it warns. */
  lemma SignsAre(facts: Facts, p: Policy, view: LedgerView)
    ensures
      var w := WarningSigns(facts, view, p);
      && |w| == 6
      && w[0].id == "W1" && w[0].strength.Strong? && (Warns(w[0]) <==> StrangeDevice(facts, view))
      && w[1].id == "W2" && w[1].strength.Strong? && (Warns(w[1]) <==> InBurst(facts))
      && w[2].id == "W3" && w[2].strength.Weak? && (Warns(w[2]) <==> facts.merchantCountry !in view.knownCountries && view.knownMerchants != {})
      && w[3].id == "W4" && w[3].strength.Weak? && (Warns(w[3]) <==> IsAboveNormal(facts, p, view))
      && w[4].id == "W5" && w[4].strength.Weak? && (Warns(w[4]) <==> facts.hour < 5)
      && w[5].id == "W6" && w[5].strength.Weak? && (Warns(w[5]) <==> exists ln :: ln in facts.items && IsOddPrice(ln))
  {
    AboveNormalIff(facts, p, view);
    hide PerOrderLimit, IsAboveNormal;
    assert forall ln :: OutsideRange(ln) <==> IsOddPrice(ln);
  }

  /** With no shop known yet, what has not been seen before is shown as "no baseline" and never asks. */
  lemma NoBaselineShown(facts: Facts, p: Policy, view: LedgerView)
    requires view.knownMerchants == {}
    ensures
      var w := WarningSigns(facts, view, p);
      && (facts.deviceId != "" && facts.deviceId !in view.knownDevices ==> w[0].triggered && w[0].effect.InfoEffect?)
      && (facts.merchantCountry !in view.knownCountries ==> w[2].triggered && w[2].effect.InfoEffect?)
      && (!WithinLimits(facts.amount, p.rules) ==> w[3].triggered && w[3].effect.InfoEffect?)
  {
    hide PerOrderLimit, RuleValueChf;
    forall r | r in p.rules && IsOrderLimit(r) ensures RuleValueChf(r).Num? { LimitInFrancs(r); }
    var limit := PerOrderLimit(p.rules);
    if limit.Some? {
      var x :| x in p.rules && IsOrderLimit(x) && LimitOf(x) == limit.value;
      assert WithinLimits(facts.amount, p.rules) <==> facts.amount <= limit.value.amount;
    }
  }

  lemma SixSigns(w: seq<Signal>, x: Signal)
    requires |w| == 6
    ensures x in w <==> x == w[0] || x == w[1] || x == w[2] || x == w[3] || x == w[4] || x == w[5]
  {
  }

  /** A strong or weak sign warns. */
  ghost predicate SomeStrong(w: seq<Signal>, id: string) { exists x :: x in w && WarnsStrongly(x) && x.id == id }
  ghost predicate SomeWeak(w: seq<Signal>, id: string) { exists x :: x in w && WarnsWeakly(x) && x.id == id }

  lemma SignsWarn(facts: Facts, p: Policy, view: LedgerView, id: string)
    ensures SomeStrong(WarningSigns(facts, view, p), id) <==> StrongSign(id, facts, view)
    ensures SomeWeak(WarningSigns(facts, view, p), id) <==> WeakSign(id, facts, p, view)
  {
    hide WarningSigns, Warns, StrangeDevice, InBurst, IsAboveNormal, IsOddPrice;
    var w := WarningSigns(facts, view, p);
    SignsAre(facts, p, view);
    forall x ensures x in w <==> x == w[0] || x == w[1] || x == w[2] || x == w[3] || x == w[4] || x == w[5] { SixSigns(w, x); }
  }

  /** At least two of the weak signs. */
  ghost predicate TwoWeak(facts: Facts, p: Policy, view: LedgerView) {
    exists a, b :: a != b && WeakSign(a, facts, p, view) && WeakSign(b, facts, p, view)
  }

  lemma SignIdsApart(facts: Facts, p: Policy, view: LedgerView)
    ensures IdsApart(WarningSigns(facts, view, p))
  {
    hide WarningSigns, Warns, StrangeDevice, InBurst, IsAboveNormal, IsOddPrice;
    SignsAre(facts, p, view);
  }

  lemma TwoInFilter(w: seq<Signal>, a: string, b: string)
    requires SomeWeak(w, a) && SomeWeak(w, b) && a != b
    ensures |Filter(w, WarnsWeakly)| >= 2
  {
    hide WarnsWeakly;
    var x :| x in w && WarnsWeakly(x) && x.id == a;
    var y :| y in w && WarnsWeakly(y) && y.id == b;
    assert x in Filter(w, WarnsWeakly) && y in Filter(w, WarnsWeakly);
  }

  lemma TwoOfFilter(w: seq<Signal>) returns (a: string, b: string)
    requires IdsApart(w) && |Filter(w, WarnsWeakly)| >= 2
    ensures SomeWeak(w, a) && SomeWeak(w, b) && a != b
  {
    hide WarnsWeakly;
    var weak := Filter(w, WarnsWeakly);
    FilterKeepsApart(w, WarnsWeakly);
    assert weak[0] in weak && weak[1] in weak;
    a, b := weak[0].id, weak[1].id;
  }

  lemma TwoWeakIff(facts: Facts, p: Policy, view: LedgerView)
    ensures |Filter(WarningSigns(facts, view, p), WarnsWeakly)| >= 2 <==> TwoWeak(facts, p, view)
  {
    hide WarningSigns, WarnsWeakly, WeakSign, IdsApart, SomeWeak, Filter;
    var w := WarningSigns(facts, view, p);
    if |Filter(w, WarnsWeakly)| >= 2 {
      SignIdsApart(facts, p, view);
      var a, b := TwoOfFilter(w);
      SignsWarn(facts, p, view, a);
      SignsWarn(facts, p, view, b);
    }
    if a, b :| a != b && WeakSign(a, facts, p, view) && WeakSign(b, facts, p, view) {
      SignsWarn(facts, p, view, a);
      SignsWarn(facts, p, view, b);
      TwoInFilter(w, a, b);
    }
  }

  ghost predicate IdsApart(s: seq<Signal>) { forall i, j :: 0 <= i < j < |s| ==> s[i].id != s[j].id }

  lemma {:induction false} FilterKeepsApart(s: seq<Signal>, f: Signal -> bool)
    requires IdsApart(s)
    ensures IdsApart(Filter(s, f))
  {
    if s != [] {
      var init, last := s[..|s| - 1], s[|s| - 1];
      FilterKeepsApart(init, f);
      forall x | x in Filter(init, f) ensures x.id != last.id { assert x in init; }
    }
  }
}
