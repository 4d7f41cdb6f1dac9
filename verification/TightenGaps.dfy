/** The policies a card goes through keep what tightening needs, so for them two gaps are left: exactly
    when a tightening of such a policy adds an approval. */
module TightenGaps {
  import opened Seqs
  import opened Types
  import opened Ledger
  import opened PolicyRules
  import opened Warnings
  import Protections
  import opened Ladder
  import opened LadderJoin
  import opened Pipeline
  import opened Views
  import opened Approvals
  import opened TierTwo
  import opened Draft
  import opened Policies
  import opened Remember
  import opened CleanSheet
  import opened Tighten

  // --- The hypothesis is inductive ------------------------------------------------------------------

  /** What every draft has: flags restated by rules, ids distinct and not reserved, and return windows
      stated as "at least". */
  ghost predicate Drafted(flags: PolicyFlags, rules: seq<Rule>) {
    FlagsRestated(flags, rules) && DistinctIds(rules) && WindowsAtLeast(rules) && forall r :: r in rules ==> FreeId(r.id)
  }

  /** What the card's drafts may propose. */
  ghost predicate FromDrafts(proposed: map<string, Rule>) {
    && ById(proposed)
    && forall id :: id in proposed ==> FreeId(id) && (proposed[id].field.ReturnWindow? ==> proposed[id].op.Ge? || proposed[id].op.Gt?)
  }

  /** What every policy in force has besides: a rule that caps one purchase's amount. */
  ghost predicate Governed(flags: PolicyFlags, rules: seq<Rule>) {
    Drafted(flags, rules) && HasAmountCap(rules)
  }

  lemma GovernedIsTidy(p: Policy)
    requires Governed(FlagsOf(p), p.rules)
    ensures Tidy(p) && WindowsAtLeast(p.rules) && FlagsRestated(FlagsOf(p), p.rules)
  {
  }

  lemma {:induction false} FilterDistinct(rules: seq<Rule>, keep: Rule -> bool)
    requires DistinctIds(rules)
    ensures DistinctIds(Filter(rules, keep))
  {
    if rules != [] {
      var init, last := rules[..|rules| - 1], rules[|rules| - 1];
      FilterDistinct(init, keep);
      forall r | r in Filter(init, keep) ensures r.id != last.id { assert r in init; }
    }
  }

  /** A draft read from an instruction. */
  lemma FinalizedDrafted(rules: seq<Rule>, requestedItem: Option<Wanted>, nothingExtra: bool, singleItem: bool)
    requires DistinctIds(rules) && (forall r :: r in rules ==> FreeId(r.id)) && (forall r :: r in rules && r.field.FamiliarOnCard? ==> r.op.Eq?)
    requires WindowsAtLeast(rules)
    ensures Drafted(DraftFlags(FlagsFrom(rules), requestedItem, nothingExtra, singleItem), rules)
  {
    hide FreeId, FlagsRestated, FlagsFrom, WindowsAtLeast;
    FinalizeRestates(rules, requestedItem, nothingExtra, singleItem);
  }

  /** A draft made from the form. */
  lemma FormDrafted(form: Form)
    ensures Drafted(FormFlags(form), FormRules(form))
  {
    assert WindowsAtLeast(FormRules(form));
    hide FormRules, WindowsAtLeast;
    FormIds(form);
    if form.categories != [] { FormHas(form, ItemCategory, In); }
    if form.knownShopsOnly { FormHas(form, KnownShop, Eq); }
  }

  /** Where a form rule stands among the others. */
  function Place(id: string): nat {
    if id == "per_order_limit" then 0 else if id == "period_limit" then 1 else if id == "item_categories" then 2 else 3
  }

  lemma Places()
    ensures Place("per_order_limit") == 0 && Place("period_limit") == 1 && Place("item_categories") == 2 && Place("known_shop") == 3
  {
  }

  lemma PlacesFree()
    ensures FreeId("per_order_limit") && FreeId("period_limit") && FreeId("item_categories") && FreeId("known_shop")
  {
  }

  lemma PlacedApart(a: seq<Rule>, b: seq<Rule>, c: seq<Rule>, d: seq<Rule>)
    requires |a| <= 1 && |b| <= 1 && |c| <= 1 && |d| <= 1
    requires (forall r :: r in a ==> Place(r.id) == 0) && (forall r :: r in b ==> Place(r.id) == 1)
    requires (forall r :: r in c ==> Place(r.id) == 2) && (forall r :: r in d ==> Place(r.id) == 3)
    ensures DistinctIds(a + b + c + d)
  {
    hide Place;
    var rules := a + b + c + d;
    assert forall i, j :: 0 <= i < j < |rules| ==> Place(rules[i].id) < Place(rules[j].id);
  }

  lemma FormIds(form: Form)
    ensures DistinctIds(FormRules(form)) && forall r :: r in FormRules(form) ==> FreeId(r.id)
  {
    hide Place, FreeId, DistinctIds;
    Places();
    PlacesFree();
    PlacedApart(Optional(form.perOrder.Some?, PerOrderRule(form)), Optional(form.period.Some?, PeriodLimitRule(form)),
                Optional(form.categories != [], CategoriesRule(form)), Optional(form.knownShopsOnly, KNOWN_SHOP_RULE));
  }

  lemma FormHas(form: Form, field: Field, op: Operator)
    requires (form.categories != [] && field.ItemCategory? && op.In?) || (form.knownShopsOnly && field.KnownShop? && op.Eq?)
    ensures exists r :: r in FormRules(form) && r.field == field && r.op == op
  {
    var r := if field.ItemCategory? then CategoriesRule(form) else KNOWN_SHOP_RULE;
    assert r in FormRules(form);
  }

  /** Whatever the customer keeps of a draft that `AcceptDraft` lets him keep is governed. */
  lemma AcceptedGoverned(flags: PolicyFlags, rules: seq<Rule>, exact: set<string>, chosen: seq<string>)
    requires Drafted(flags, rules) && MayAccept(rules, flags, exact, chosen)
    ensures Governed(AcceptedFlags(flags, rules, Chosen(rules, chosen)), Chosen(rules, chosen))
  {
    hide FreeId, FlagsRestated, AcceptedFlags, FlagChecks, HasId, Chosen, HasAmountCap, IsAmountCap;
    AcceptedRestates(flags, rules, Chosen(rules, chosen));
    ChosenDistinct(rules, chosen);
    CapKept(rules, chosen);
  }

  lemma ChosenDistinct(rules: seq<Rule>, chosen: seq<string>)
    requires DistinctIds(rules)
    ensures DistinctIds(Chosen(rules, chosen))
  {
    hide DistinctIds;
    FilterDistinct(rules, (r: Rule) => r.id in chosen);
  }

  lemma TightenedGoverned(flags: PolicyFlags, rules: seq<Rule>, checks: seq<string>, proposed: map<string, Rule>, asked: seq<string>)
    requires Governed(flags, rules) && FromDrafts(proposed)
    ensures Governed(flags, rules + Additions(rules, checks, proposed, asked))
  {
    hide FreeId, FlagsRestated, IsAmountCap;
    AddedRestates(flags, rules, Additions(rules, checks, proposed, asked));
    AddedDistinct(rules, checks, proposed, asked);
    var r :| r in rules && IsAmountCap(r);
    assert r in rules + Additions(rules, checks, proposed, asked);
  }

  /** The life of a policy: a draft, from words or from the form, is accepted in part and tightened
      once or more. Every policy along it that is in force is governed. */
  lemma PolicyLifecycle(flags: PolicyFlags, rules: seq<Rule>, exact: set<string>, chosen: seq<string>,
                        checks: seq<string>, proposed: map<string, Rule>, asked: seq<string>)
    requires Drafted(flags, rules) && MayAccept(rules, flags, exact, chosen)
    requires FromDrafts(proposed)
    ensures
      var kept := Chosen(rules, chosen);
      var keptFlags := AcceptedFlags(flags, rules, kept);
      Governed(keptFlags, kept) && Governed(keptFlags, kept + Additions(kept, checks, proposed, asked))
  {
    hide Governed, Drafted, MayAccept, FreeId;
    AcceptedGoverned(flags, rules, exact, chosen);
    TightenedGoverned(AcceptedFlags(flags, rules, Chosen(rules, chosen)), Chosen(rules, chosen), checks, proposed, asked);
  }

  // --- The gaps that are left -----------------------------------------------------------------------

  /** A pair of signs can only be silenced where every amount cap in force is an exact amount, and
      the purchase is for it. */
  lemma PairNeedsExactCaps(facts: Facts, p: Policy, tight: Policy, added: seq<Rule>, view: LedgerView, tightView: LedgerView)
    requires Tidy(p) && Tidy(tight) && Tightens(tight, p, added) && OldView(p, view, tightView)
    requires RulesPass(facts, tight, tightView) && LosesPair(facts, p, tight, view)
    ensures forall r :: r in p.rules && IsAmountCap(r) ==> r.op.Eq? && RuleValueChf(r) == Num(facts.amount)
  {
    hide Tidy, OldView, RulesPass, Warns, RuleValueChf;
    OldRulesPass(facts, p, tight, added, view, tightView);
    forall r | r in p.rules && IsAmountCap(r) ensures r.op.Eq? && RuleValueChf(r) == Num(facts.amount) {
      assert !IsOrderLimit(r);
      ExactCapPasses(r, facts, p, view);
    }
  }

  lemma ExactCapPasses(r: Rule, facts: Facts, p: Policy, view: LedgerView)
    requires Tidy(p) && r in p.rules && IsAmountCap(r) && r.op.Eq? && RulesPass(facts, p, view)
    ensures RuleValueChf(r) == Num(facts.amount)
  {
    hide FlagIds, RuleById, Lower, NumText, SumBy, Filter, ToChf;
    RuleFound(p.rules, r);
    assert ResultFor(r, facts, p, view).outcome.Pass?;
  }

  /** The tightened policy is read less for only because of an added rule: one that is unknown and
      names sizes. */
  lemma NarrowedByAddition(facts: Facts, p: Policy, tight: Policy, added: seq<Rule>, quoted: map<Rule, set<Topic>>) returns (r: Rule)
    requires tight == p.(rules := p.rules + added, setting := tight.setting) && Narrows(facts, p, tight, quoted)
    ensures r in added && RuleUnknown(r, facts, tight) && Sizes in TopicsOf(r, quoted)
  {
    hide RuleUnknown, TopicsOf, AnyRuleUnknown;
    assert Sizes in TopicsNamed(tight.rules, facts, tight, quoted);
    r :| r in tight.rules && RuleUnknown(r, facts, tight) && Sizes in TopicsOf(r, quoted);
    MoreUnknown(facts, p, tight, added);
    NotNamed(facts, p, quoted, r);
  }

  lemma NotNamed(facts: Facts, p: Policy, quoted: map<Rule, set<Topic>>, r: Rule)
    requires Sizes !in TopicsNamed(p.rules, facts, p, quoted) && RuleUnknown(r, facts, p) && Sizes in TopicsOf(r, quoted)
    ensures r !in p.rules
  {
    hide RuleUnknown, TopicsOf;
  }

  predicate AddsSizeQuestion(added: seq<Rule>, facts: Facts, tight: Policy, quoted: map<Rule, set<Topic>>) {
    exists r :: r in added && RuleUnknown(r, facts, tight) && Sizes in TopicsOf(r, quoted)
  }

  /** C4 for every policy a card can be under, each policy decided on what is read for it. Of what the
      tightened policy approves, the old one would have approved everything, with two exceptions. A new
      limit silences a pair of weak signs, about which the old policy asks; that takes amount caps that
      are all exact amounts. Or an added rule narrows the question to sizes, and a window that would
      have been read for the old policy breaks its return-window rule. */
  lemma GovernedTighten(s: Store, event: Event, ctx: Context, tight: Policy, added: seq<Rule>)
    requires Governed(FlagsOf(ctx.policy), ctx.policy.rules) && Governed(FlagsOf(tight), tight.rules)
    requires Tightens(tight, ctx.policy, added)
    requires Begin(s, event, ctx.(policy := tight)).entry.outcome.Approve?
    ensures
      var view := StoreView(s, ctx.history, QueryFor(event, ctx));
      var pair, reading := LosesPair(event.facts, ctx.policy, tight, view), LosesReading(event, ctx, tight, view);
      && (Begin(s, event, ctx).entry.outcome.Approve? <==> !pair && !reading)
      && (pair && !reading ==> Begin(s, event, ctx).entry.outcome.StepUp?)
      && (pair ==> forall r :: r in ctx.policy.rules && IsAmountCap(r) ==> r.op.Eq? && RuleValueChf(r) == Num(event.facts.amount))
      && (reading ==> AddsSizeQuestion(added, RawFacts(event, view), tight, ctx.tier2.value.quoted))
  {
    hide StoreView, Begin, LosesPair, WindowsAtLeast, Tidy, FlagsRestated, RuleValueChf, IsAmountCap, FactsWith, EngineFor, PeriodDaysOf,
      RulesPass, FlagsPass, Shielded, Governed, Narrows, WindowBreaks, AddsSizeQuestion, RuleUnknown, TopicsOf;
    GovernedIsTidy(ctx.policy);
    GovernedIsTidy(tight);
    TightenedApprovalsIff(s, event, ctx, tight, added);
    var p, after := ctx.policy, ctx.(policy := tight);
    var q, q' := QueryFor(event, ctx), QueryFor(event, after);
    var view, tightView := StoreView(s, ctx.history, q), StoreView(s, ctx.history, q');
    if LosesPair(event.facts, p, tight, view) {
      ApprovedByEngine(s, event, after);
      var facts := FactsWith(event, after, tightView);
      FactsKeepEvent(event, after, tightView);
      ApprovedIffClean(facts, tight, tightView, ctx.soft);
      OldViewOf(p, tight, added, facts, view, tightView, s, ctx.history, q, q');
      SamePair(event, after, p, tight, view, tightView);
      PairNeedsExactCaps(facts, p, tight, added, view, tightView);
    }
    if LosesReading(event, ctx, tight, view) {
      var r := NarrowedByAddition(RawFacts(event, view), p, tight, added, ctx.tier2.value.quoted);
      assert AddsSizeQuestion(added, RawFacts(event, view), tight, ctx.tier2.value.quoted) by { AddedAsks(added, RawFacts(event, view), tight, ctx.tier2.value.quoted, r); }
    }
  }

  lemma AddedAsks(added: seq<Rule>, facts: Facts, tight: Policy, quoted: map<Rule, set<Topic>>, r: Rule)
    requires r in added && RuleUnknown(r, facts, tight) && Sizes in TopicsOf(r, quoted)
    ensures AddsSizeQuestion(added, facts, tight, quoted)
  {
  }

  /** Only approvals shrink. A decline may soften: an added rule with a shorter window leaves a
      longer period rule unknown, broken or not, so under "ask" its decline becomes an ask. */
  lemma ShorterWindowUnsettles(r: Rule, rules: seq<Rule>, added: Rule, facts: Facts, view: LedgerView)
    requires r in rules && r.scope.PerPeriod? && HasWindow(r)
    requires added.scope.PerPeriod? && HasWindow(added) && added.periodDays.value < r.periodDays.value
    requires view.periodWindowStart == WindowStart(facts.ts, PeriodDaysOf(rules + [added]))
    ensures PeriodResult(r, facts, view) == Undecided(r.id)
  {
    assert added in rules + [added];
    assert PeriodDaysOf(rules + [added]).value <= added.periodDays.value;
  }

  // --- Purchases for examples ------------------------------------------------------------

  const PLAIN := Policy("m", Active, [], AskMe, None, [], [], false, false, None, false, None)

  /** "Exactly CHF 50 per order", as read from an instruction. */
  const EXACT := Rule("C1", BillingAmount, Eq, Num(5000), Some(CHF), PerPurchase, None, "", false)

  /** The form's per-order limit, at CHF 100. */
  const LIMIT := Rule("per_order_limit", BillingAmount, Le, Num(10000), Some(CHF), PerPurchase, None, "", false)

  const LINE := Item("i1", {}, "household", 1, 5000, NotKnown, NotKnown, NotStated, None, NotKnown, None, None)

  /** A purchase of CHF 50 at a known shop, at the given hour. */
  function Bought(hour: nat): Facts {
    Facts("p1", 1000000, "mon", hour, 5000, [LINE], "shop", "Shop", "groceries", "CH", None, true, "phone", 0,
          TermUnknown, TermUnknown, None, "", NoStatus, true, true, false)
  }

  /** The largest purchase so far was CHF 40, and the shop's last price is taken to be CHF 50. */
  const VIEW := LedgerView(0, 0, 1000000, Some(0), 0, None, [], {"shop"}, {"shop"}, [("shop", "Shop")], map["shop" := 1], map[],
                           {"phone"}, {"CH"}, Some(4000), map["shop" := 5000], {}, false, {}, Some([]))

  /** A view like that one, whatever its totals. */
  predicate Calm(v: LedgerView) {
    && v.priors == [] && v.knownMerchants == {"shop"} && v.knownNames == [("shop", "Shop")] && !v.frozen
    && "phone" in v.knownDevices && "CH" in v.knownCountries && v.maxApproved == Some(4000)
    && "shop" in v.lastPrice && v.lastPrice["shop"] == 5000
  }

  /** That purchase with other lines, none of them recurring or out of its price range. */
  ghost predicate IsPlain(facts: Facts) {
    && facts == Bought(facts.hour).(items := facts.items)
    && forall ln :: ln in facts.items ==> !BillsRepeatedly(ln) && !OutsideRange(ln)
  }

  lemma Unshielded(facts: Facts, p: Policy, view: LedgerView)
    requires IsPlain(facts) && !p.singleItem && Calm(view)
    ensures Shielded(facts, p, view)
  {
    hide Protections.LooksAlike, PerOrderLimit, Protections.IsEarlier, Protections.AskedFor, BillsRepeatedly, MatchesRequested, OutsideRange;
    assert !Protections.LooksAlike("shop", "Shop", view.knownNames) by { KnownShopIsItself(); }
  }

  lemma KnownShopIsItself()
    ensures !Protections.LooksAlike("shop", "Shop", [("shop", "Shop")])
  {
    var known: seq<(string, string)> := [("shop", "Shop")];
    assert known[0] in known && known[0].0 == "shop";
  }

  lemma LimitPasses(facts: Facts, p: Policy, view: LedgerView, limit: Rule)
    requires IsLimit(limit) && RuleById(p.rules, limit.id) == Some(limit) && limit.id != "C9" && facts.amount == 5000
    ensures ResultFor(limit, facts, p, view).outcome.Pass?
  {
  }

  /** At most CHF 100 per order. */
  predicate IsLimit(r: Rule) { r == LIMIT.(id := r.id) }

  lemma OneLimit(rules: seq<Rule>, limit: Rule)
    requires limit in rules && IsLimit(limit) && forall r :: r in rules && IsOrderLimit(r) ==> r == limit
    ensures PerOrderLimit(rules) == Some(OrderLimit(10000, true))
  {
  }

  lemma QuietSigns(facts: Facts, p: Policy, view: LedgerView)
    requires IsPlain(facts) && PerOrderLimit(p.rules) == Some(OrderLimit(10000, true)) && Calm(view)
    ensures !SignsAsk(WarningSigns(facts, view, p), [], false)
  {
    hide PerOrderLimit, SignsAsk, WarningSigns, Filter, OutsideRange, BillsRepeatedly;
    Signs(facts, p, view, []);
  }

  /** A purchase passes a policy with the limit whose other rules and flags it passes. */
  lemma Passes(facts: Facts, tight: Policy, view: LedgerView)
    requires Tidy(tight) && tight.status.Active? && !tight.setting.ApproveIt? && !tight.singleItem
    requires IsPlain(facts) && Calm(view) && RulesPass(facts, tight, view) && FlagsPass(facts, tight, view)
    requires PerOrderLimit(tight.rules) == Some(OrderLimit(10000, true))
    ensures EngineFor(facts, tight, view, []).outcome.Approve?
  {
    hide EngineFor, SignsAsk, WarningSigns, Shielded, RulesPass, PerOrderLimit, FlagsPass, Tidy, BillsRepeatedly, OutsideRange;
    Unshielded(facts, tight, view);
    QuietSigns(facts, tight, view);
    ApprovedIffClean(facts, tight, view, []);
  }

  lemma PlainBought(hour: nat)
    ensures IsPlain(Bought(hour))
  {
    assert LINE.category == "household" && !BillsRepeatedly(LINE) && !OutsideRange(LINE);
  }

  lemma LimitedPasses(hour: nat, view: LedgerView)
    requires Calm(view)
    ensures
      var tight := PLAIN.(rules := [LIMIT]);
      Tidy(tight) && PerOrderLimit(tight.rules) == Some(OrderLimit(10000, true)) && EngineFor(Bought(hour), tight, view, []).outcome.Approve?
  {
    hide EngineFor, ResultFor, PerOrderLimit, IsPlain;
    var tight := PLAIN.(rules := [LIMIT]);
    OneLimit([LIMIT], LIMIT);
    assert RuleById([LIMIT], "per_order_limit") == Some(LIMIT);
    LimitPasses(Bought(hour), tight, view, LIMIT);
    NoFlags(tight, hour);
    PlainBought(hour);
    Passes(Bought(hour), tight, view);
  }

  lemma ExactPasses(p: Policy, hour: nat, view: LedgerView)
    requires RuleById(p.rules, "C1") == Some(EXACT)
    ensures ResultFor(EXACT, Bought(hour), p, view).outcome.Pass?
  {
  }

  lemma BothGoverned()
    ensures Governed(FlagsOf(PLAIN), [EXACT]) && Governed(FlagsOf(PLAIN), [EXACT, LIMIT])
  {
    assert EXACT in [EXACT] && EXACT in [EXACT, LIMIT];
    assert IsAmountCap(EXACT);
  }

  lemma BothPass(view: LedgerView)
    requires Calm(view)
    ensures
      var tight := PLAIN.(rules := [EXACT, LIMIT]);
      Tidy(tight) && PerOrderLimit(tight.rules) == Some(OrderLimit(10000, true)) && EngineFor(Bought(3), tight, view, []).outcome.Approve?
  {
    hide EngineFor, ResultFor, PerOrderLimit, RuleById, FlagResults, Tidy, FlagsRestated, FreeId, IsPlain;
    var tight := PLAIN.(rules := [EXACT, LIMIT]);
    OneLimit([EXACT, LIMIT], LIMIT);
    BothFound();
    BothGoverned();
    GovernedIsTidy(tight);
    LimitPasses(Bought(3), tight, view, LIMIT);
    ExactPasses(tight, 3, view);
    NoFlags(tight, 3);
    PlainBought(3);
    Passes(Bought(3), tight, view);
  }

  lemma BothFound()
    ensures RuleById([EXACT, LIMIT], "per_order_limit") == Some(LIMIT) && RuleById([EXACT, LIMIT], "C1") == Some(EXACT)
  {
    assert [EXACT, LIMIT][..1] == [EXACT];
  }

  lemma NoFlags(p: Policy, hour: nat)
    requires p == PLAIN.(rules := p.rules)
    ensures FlagResults(Bought(hour), p) == []
  {
  }

  // --- The hypothesis on the flags is needed ----------------------------------------------------------

  const BOOKS := PLAIN.(rules := [LIMIT], allowed := ["books"])

  const MORE := Rule("C3", ItemCategory, In, Names(["books", "household"]), None, Unscoped, None, "", false)

  lemma WiderPasses()
    ensures Tidy(BOOKS.(rules := [LIMIT, MORE])) && EngineFor(Bought(12), BOOKS.(rules := [LIMIT, MORE]), VIEW, []).outcome.Approve?
  {
    hide EngineFor, ResultFor, PerOrderLimit, RuleById, FlagResults, Tidy, IsPlain;
    var tight := BOOKS.(rules := [LIMIT, MORE]);
    OneLimit([LIMIT, MORE], LIMIT);
    HouseholdPasses(tight);
    LimitPasses(Bought(12), tight, VIEW, LIMIT);
    WiderTidy(tight);
    PlainBought(12);
    Passes(Bought(12), tight, VIEW);
  }

  lemma WiderTidy(tight: Policy)
    requires tight == BOOKS.(rules := [LIMIT, MORE])
    ensures Tidy(tight) && FlagResults(Bought(12), tight) == []
  {
    hide Lower;
    assert MORE in tight.rules;
    assert CoveredBy(tight.rules, {ItemCategory}, {In});
  }

  /** On a policy no draft makes, whose flag no rule restates, the flag stops being checked once a
      rule on its field is added: a wider list lets household goods through a policy that allowed
      only books. */
  lemma FlagLosesCheck()
    ensures
      var tight := BOOKS.(rules := [LIMIT, MORE]);
      && Tightens(tight, BOOKS, [MORE]) && PerOrderLimit(BOOKS.rules).Some?
      && EngineFor(Bought(12), tight, VIEW, []).outcome.Approve?
      && !EngineFor(Bought(12), BOOKS, VIEW, []).outcome.Approve?
  {
    hide EngineFor, PerOrderLimit, FlagsPass, LosesPair;
    var tight := BOOKS.(rules := [LIMIT, MORE]);
    assert [LIMIT] + [MORE] == [LIMIT, MORE];
    OneLimit([LIMIT], LIMIT);
    WiderPasses();
    TightenExact(Bought(12), BOOKS, tight, [MORE], VIEW, VIEW, []);
    BooksFails();
  }

  lemma HouseholdPasses(tight: Policy)
    requires tight.rules == [LIMIT, MORE]
    ensures RuleById(tight.rules, "per_order_limit") == Some(LIMIT) && RuleById(tight.rules, "C3") == Some(MORE)
    ensures ResultFor(MORE, Bought(12), tight, VIEW).outcome.Pass?
  {
    assert tight.rules[..1] == [LIMIT];
    assert MORE.value.names[1] == "household" && "household" in MORE.value.names;
  }

  lemma BooksFails()
    ensures !FlagsPass(Bought(12), BOOKS, VIEW)
  {
    assert !CoveredBy(BOOKS.rules, {ItemCategory}, {In});
    var res := CheckAllowedTypes(Bought(12), ["books"], "C3");
    assert Bought(12).items[0] in Bought(12).items;
    assert !InCategories("household", ["books"]) by {
      assert Lower("books")[0] == 'b' && Lower("household")[0] == 'h';
    }
    assert res in FlagResults(Bought(12), BOOKS);
  }
}
