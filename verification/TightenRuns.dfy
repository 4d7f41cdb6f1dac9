/** Two tightenings that add an approval, each of a policy a card can be under, decided on an empty
    table: one silences a pair of weak signs, the other narrows what tier 2 is asked. */
module TightenRuns {
  import opened Seqs
  import opened Types
  import opened Ledger
  import opened Views
  import opened PolicyRules
  import opened Warnings
  import opened Ladder
  import opened Pipeline
  import opened Approvals
  import opened Draft
  import opened Policies
  import opened Remember
  import opened CleanSheet
  import opened TierTwo
  import opened Tighten
  import opened TightenGaps
  import opened Reachable

  /** A ledger without decisions and runs, whatever it has noted. */
  predicate IsEmpty(s: Store) { s.rows == [] && s.runs == [] }

  // --- A new limit -------------------------------------------------------------------------------------

  const NIGHT := Event(Bought(3), "customer", "card")

  lemma PairLost(view: LedgerView)
    requires Calm(view)
    ensures LosesPair(Bought(3), PLAIN.(rules := [EXACT]), PLAIN.(rules := [EXACT, LIMIT]), view)
  {
    assert PerOrderLimit([EXACT]).None?;
    OneLimit([EXACT, LIMIT], LIMIT);
    hide PerOrderLimit;
  }

  /** A policy for exactly CHF 50 is tightened with a limit of CHF 100 from the form. That makes CHF 50
      at three in the morning an approval: before, "above normal" and "night" together asked. */
  lemma LimitAddsApproval(s: Store)
    requires IsEmpty(s)
    ensures
      var p, tight := PLAIN.(rules := [EXACT]), PLAIN.(rules := [EXACT, LIMIT]);
      && Governed(FlagsOf(p), p.rules) && Governed(FlagsOf(tight), tight.rules) && Tightens(tight, p, [LIMIT])
      && Begin(s, NIGHT, CONTEXT.(policy := tight)).entry.outcome.Approve?
      && Begin(s, NIGHT, CONTEXT.(policy := p)).entry.outcome.StepUp?
  {
    hide StoreView, EngineFor, Begin, LosesPair, LosesReading, FlagsRestated, FreeId, Calm, PeriodDaysOf;
    var p, tight := PLAIN.(rules := [EXACT]), PLAIN.(rules := [EXACT, LIMIT]);
    var ctx, after := CONTEXT.(policy := p), CONTEXT.(policy := tight);
    assert [EXACT] + [LIMIT] == [EXACT, LIMIT];
    BothGoverned();
    BothPassAtOnce(s);
    ViewOfHistory(s, QueryFor(NIGHT, ctx));
    PairLost(StoreView(s, PAST, QueryFor(NIGHT, ctx)));
    assert ctx.(policy := tight) == after;
    assert !LosesReading(NIGHT, ctx, tight, StoreView(s, PAST, QueryFor(NIGHT, ctx))) by { NothingRead(NIGHT, ctx, tight, StoreView(s, PAST, QueryFor(NIGHT, ctx))); }
    GovernedTighten(s, NIGHT, ctx, tight, [LIMIT]);
  }

  lemma NothingRead(event: Event, ctx: Context, tight: Policy, view: LedgerView)
    requires ctx.tier2.None?
    ensures !LosesReading(event, ctx, tight, view)
  {
  }

  lemma BothPassAtOnce(s: Store)
    requires IsEmpty(s)
    ensures Begin(s, NIGHT, CONTEXT.(policy := PLAIN.(rules := [EXACT, LIMIT]))).entry.outcome.Approve?
  {
    hide StoreView, EngineFor, PerOrderLimit, Tidy;
    var ctx := CONTEXT.(policy := PLAIN.(rules := [EXACT, LIMIT]));
    var view := StoreView(s, PAST, QueryFor(NIGHT, ctx));
    ViewOfHistory(s, QueryFor(NIGHT, ctx));
    BothPass(view);
    assert FactsWith(NIGHT, ctx, view) == Bought(3);
    EngineDecides(s, NIGHT, ctx);
  }

  // --- A narrower question -----------------------------------------------------------------------------

  const CAP := LIMIT.(id := "C1")
  const THIRTY_DAYS := Rule("C7", ReturnWindow, Ge, Num(3000), None, Unscoped, None, "", false)
  const SAME_PRICE := Rule("C1-2", BillingAmount, Eq, LAST_PRICE_AT_SHOP, Some(CHF), PerPurchase, None, "", false)
  const SIZE_43 := Rule("C6", SizeEu, Eq, Num(4300), None, Unscoped, None, "", false)

  /** "The shoes at the price I paid last time, at most CHF 100, returnable for 30 days", and the same
      with "size 43" from another draft. */
  const SHOES := PLAIN.(requestedItem := Some(Wanted("shoe", {"shoe"})), rules := [CAP, THIRTY_DAYS, SAME_PRICE])
  const SHOES_43 := SHOES.(rules := [CAP, THIRTY_DAYS, SAME_PRICE, SIZE_43])

  /** The shoe: "Returns within 30 days. Taille 43". The laces: "Rückgabe innerhalb von 14 Tagen". */
  const SHOE := Item("i1", {"shoe"}, "clothing", 1, 4500, NotKnown, NotKnown, Stated(30), None, NotKnown, None, None)
  const LACES := Item("i2", {"lace"}, "clothing", 1, 500, NotKnown, NotKnown, NotStated, None, NotKnown, None, None)

  const ANSWERS := [LineAnswer(Known(NumAtom(4300)), NotKnown, None), LineAnswer(NotKnown, NotKnown, Some(14))]
  const READING := Reading(ANSWERS, map[])

  const CART := Bought(12).(items := [SHOE, LACES])
  const ORDER := Event(CART, "customer", "card")

  /** The facts with the sizes read, and with the windows read too. */
  const SIZED := CART.(items := [SHOE.(sizeEu := Known(NumAtom(4300))), LACES])
  const ALL_READ := CART.(items := [SHOE.(sizeEu := Known(NumAtom(4300))), LACES.(window := Stated(14))])

  lemma WindowsOf()
    ensures OrderWindow(CART) == OrderWindow(SIZED) == Known(NumAtom(3000)) && OrderWindow(ALL_READ) == Known(NumAtom(1400))
  {
    TwoLines(SHOE, LACES);
    TwoLines(SHOE.(sizeEu := Known(NumAtom(4300))), LACES);
    TwoLines(SHOE.(sizeEu := Known(NumAtom(4300))), LACES.(window := Stated(14)));
  }

  lemma TwoLines(a: Item, b: Item)
    requires a.window == Stated(30) && (b.window.NotStated? || b.window == Stated(14))
    ensures StrictestWindow([a, b]) == Some(if b.window.NotStated? then 30 else 14)
    ensures !(exists ln :: ln in [a, b] && ln.window.Contradictory?)
  {
    assert [a, b][0] == a && [a, b][1] == b;
  }

  lemma RequestedShoe(shoe: Item, other: Item)
    requires shoe.words == {"shoe"} && other.words == {"lace"}
    ensures RequestedLines(CART.(items := [shoe, other]), SHOES) == [shoe]
  {
    assert "shoe" !in {"lace"} by { assert "shoe"[0] != "lace"[0]; }
    var asked := (ln: Item) => MatchesRequested(ln, Wanted("shoe", {"shoe"}));
    assert [shoe, other] == ([] + [shoe]) + [other];
    FilterAppend([] + [shoe], other, asked);
    FilterAppend([], shoe, asked);
  }

  // --- Which rules are unknown -------------------------------------------------------------------------

  lemma SizeResult(facts: Facts, p: Policy, size: FactValue)
    requires RequestedLines(facts, p) == [SHOE.(sizeEu := size)]
    ensures EvaluateTypedRule(SIZE_43, facts, p) == JudgeValues(SIZE_43, [size])
  {
    hide RequestedLines, JudgeValues;
    assert Map([SHOE.(sizeEu := size)], (ln: Item) => ln.sizeEu) == [size];
  }

  lemma JudgeOne(r: Rule, value: FactValue)
    requires r == SIZE_43 || r == THIRTY_DAYS
    ensures JudgeValues(r, [value]).outcome
         == if value.NotKnown? then Unknown else if Compare(value.value, r.op, r.value) then Pass else Fail
  {
    hide Compare;
    assert [value][0] in [value];
  }

  lemma WindowResult(facts: Facts, p: Policy)
    ensures EvaluateTypedRule(THIRTY_DAYS, facts, p) == JudgeValues(THIRTY_DAYS, [OrderWindow(facts)])
  {
    hide JudgeValues, OrderWindow;
  }

  lemma CapResult(facts: Facts, p: Policy)
    requires facts.amount == 5000
    ensures EvaluateTypedRule(CAP, facts, p).outcome.Pass?
  {
  }

  /** Before reading only the last price and the size are unknown. */
  lemma UnknownBefore(p: Policy)
    requires p == SHOES || p == SHOES_43
    ensures !RuleUnknown(CAP, CART, p) && !RuleUnknown(THIRTY_DAYS, CART, p) && RuleUnknown(SAME_PRICE, CART, p)
    ensures RuleUnknown(SIZE_43, CART, p)
  {
    hide OrderWindow, JudgeValues, RequestedLines;
    WindowsOf();
    CapResult(CART, p);
    WindowResult(CART, p);
    JudgeOne(THIRTY_DAYS, OrderWindow(CART));
    RequestedShoe(SHOE, LACES);
    SameRequest(CART, p);
    SizeResult(CART, p, NotKnown);
    JudgeOne(SIZE_43, NotKnown);
  }

  lemma SameRequest(facts: Facts, p: Policy)
    requires p == SHOES || p == SHOES_43
    ensures RequestedLines(facts, p) == RequestedLines(facts, SHOES)
  {
  }

  lemma AskedBefore()
    ensures AnyRuleUnknown(CART, SHOES) && TopicsNamed(SHOES.rules, CART, SHOES, map[]) == {}
    ensures AnyRuleUnknown(CART, SHOES_43) && TopicsNamed(SHOES_43.rules, CART, SHOES_43, map[]) == {Sizes}
  {
    hide RuleUnknown, AnyRuleUnknown;
    UnknownBefore(SHOES);
    UnknownBefore(SHOES_43);
    UnknownIsRule(CART, SHOES);
    UnknownIsRule(CART, SHOES_43);
    assert SAME_PRICE in SHOES.rules && SAME_PRICE in SHOES_43.rules && SIZE_43 in SHOES_43.rules;
    assert TopicsOf(SIZE_43, map[]) == {Sizes} && TopicsOf(SAME_PRICE, map[]) == {};
  }

  /** So the old policy is read everything for, the tightened one only sizes. */
  lemma ReadForEach()
    ensures WithReading(CART, ANSWERS, AskedFor(CART, SHOES, map[])) == ALL_READ
    ensures WithReading(CART, ANSWERS, AskedFor(CART, SHOES_43, map[])) == SIZED
  {
    hide TopicsNamed, AnyRuleUnknown, WithReading;
    AskedBefore();
    ReadBy({Sizes, Windows});
    ReadBy({Sizes});
  }

  lemma ReadBy(asked: set<Topic>)
    requires asked == {Sizes, Windows} || asked == {Sizes}
    ensures WithReading(CART, ANSWERS, asked) == if Windows in asked then ALL_READ else SIZED
  {
  }

  // --- What each decides -------------------------------------------------------------------------------

  lemma ShoeIds()
    ensures DistinctIds(SHOES_43.rules) && forall r :: r in SHOES_43.rules ==> FreeId(r.id)
  {
    hide FreeId;
    FourApart(CAP, THIRTY_DAYS, SAME_PRICE, SIZE_43);
    assert "C1-2"[2] == '-';
    PlainIsFree("C1");
    PlainIsFree("C7");
    PlainIsFree("C1-2");
    PlainIsFree("C6");
  }

  lemma FourApart(a: Rule, b: Rule, c: Rule, d: Rule)
    requires |a.id| == |b.id| == |d.id| == 2 && |c.id| == 4
    requires a.id[1] != b.id[1] && a.id[1] != d.id[1] && b.id[1] != d.id[1]
    ensures DistinctIds([a, b, c, d])
  {
  }

  lemma ShoesRestated(rules: seq<Rule>)
    ensures FlagsRestated(FlagsOf(PLAIN.(requestedItem := Some(Wanted("shoe", {"shoe"})), rules := rules)), rules)
  {
  }

  lemma SomeGoverned(p: Policy, rules: seq<Rule>)
    requires p == SHOES.(rules := rules) && CAP in rules && (forall r :: r in rules ==> r in SHOES_43.rules) && DistinctIds(rules)
    ensures Governed(FlagsOf(p), rules)
  {
    hide FreeId, FlagsRestated, DistinctIds;
    ShoesRestated(rules);
    ShoeIds();
    assert IsAmountCap(CAP);
  }

  lemma ShoesGoverned()
    ensures Governed(FlagsOf(SHOES), SHOES.rules) && Governed(FlagsOf(SHOES_43), SHOES_43.rules)
    ensures Tightens(SHOES_43, SHOES, [SIZE_43])
  {
    assert SHOES.rules + [SIZE_43] == SHOES_43.rules && SHOES_43.rules[..3] == SHOES.rules;
    ShoeIds();
    assert DistinctIds(SHOES.rules);
    hide FreeId, FlagsRestated, Governed, DistinctIds;
    SomeGoverned(SHOES, SHOES.rules);
    SomeGoverned(SHOES_43, SHOES_43.rules);
  }

  lemma FoundIn43()
    ensures Tidy(SHOES_43) && Tidy(SHOES)
    ensures forall r :: r in SHOES_43.rules ==> RuleById(SHOES_43.rules, r.id) == Some(r)
  {
    hide Tidy, FlagsRestated, FreeId, RuleById, IsAmountCap;
    ShoesGoverned();
    GovernedIsTidy(SHOES);
    GovernedIsTidy(SHOES_43);
    forall r | r in SHOES_43.rules ensures RuleById(SHOES_43.rules, r.id) == Some(r) { RuleFound(SHOES_43.rules, r); }
  }

  lemma PriceResult(view: LedgerView)
    requires Calm(view) && RuleById(SHOES_43.rules, SAME_PRICE.id) == Some(SAME_PRICE)
    ensures ResultFor(SAME_PRICE, SIZED, SHOES_43, view).outcome.Pass?
  {
    hide RuleById;
  }

  lemma SizedRulesPass(view: LedgerView)
    requires Calm(view)
    ensures RulesPass(SIZED, SHOES_43, view)
  {
    hide ResultFor, Calm, Tidy, RuleById, RequestedLines, OrderWindow, JudgeValues;
    FoundIn43();
    WindowsOf();
    var rules := SHOES_43.rules;
    assert CAP in rules && THIRTY_DAYS in rules && SAME_PRICE in rules && SIZE_43 in rules;
    LimitPasses(SIZED, SHOES_43, view, CAP);
    PriceResult(view);
    WindowResult(SIZED, SHOES_43);
    JudgeOne(THIRTY_DAYS, OrderWindow(SIZED));
    ReadResult(THIRTY_DAYS, SIZED, SHOES_43, view);
    RequestedShoe(SHOE.(sizeEu := Known(NumAtom(4300))), LACES);
    SameRequest(SIZED, SHOES_43);
    SizeResult(SIZED, SHOES_43, Known(NumAtom(4300)));
    JudgeOne(SIZE_43, Known(NumAtom(4300)));
    ReadResult(SIZE_43, SIZED, SHOES_43, view);
  }

  lemma SizedFlagsPass(view: LedgerView)
    ensures FlagsPass(SIZED, SHOES_43, view)
  {
    RequestedShoe(SHOE.(sizeEu := Known(NumAtom(4300))), LACES);
    SameRequest(SIZED, SHOES_43);
    hide RequestedLines;
    assert FlagResults(SIZED, SHOES_43) == [CheckRequestedItem(SIZED, SHOES_43)];
  }

  lemma PlainCart()
    ensures IsPlain(SIZED)
  {
    assert forall ln :: ln in SIZED.items ==> ln == SHOE.(sizeEu := Known(NumAtom(4300))) || ln == LACES;
    assert "clothing" != "subscriptions" && "clothing" != "membership" by { assert "clothing"[0] == 'c'; }
  }

  lemma SizedApproved(view: LedgerView)
    requires Calm(view)
    ensures EngineFor(SIZED, SHOES_43, view, []).outcome.Approve?
  {
    hide EngineFor, RulesPass, FlagsPass, Tidy, IsPlain, Calm, PerOrderLimit;
    FoundIn43();
    PlainCart();
    SizedRulesPass(view);
    SizedFlagsPass(view);
    assert CAP in SHOES_43.rules && IsLimit(CAP);
    OneLimit(SHOES_43.rules, CAP);
    Passes(SIZED, SHOES_43, view);
  }

  lemma AllReadDeclined(view: LedgerView)
    ensures EngineFor(ALL_READ, SHOES, view, []).outcome.Decline?
  {
    hide EngineFor, Tidy, ResultFor, JudgeValues, OrderWindow;
    FoundIn43();
    WindowsOf();
    assert THIRTY_DAYS in SHOES.rules;
    WindowResult(ALL_READ, SHOES);
    JudgeOne(THIRTY_DAYS, OrderWindow(ALL_READ));
    ReadResult(THIRTY_DAYS, ALL_READ, SHOES, view);
    BrokenDeclines(ALL_READ, SHOES, view, [], THIRTY_DAYS);
  }

  /** The old policy names no fact it waits for, so everything is read and the laces' 14 days break the
      30 it asks for: a decline. Tightened by a size, only sizes are read, and the purchase is approved. */
  lemma ReadingAddsApproval(s: Store)
    requires IsEmpty(s)
    ensures Governed(FlagsOf(SHOES), SHOES.rules) && Governed(FlagsOf(SHOES_43), SHOES_43.rules) && Tightens(SHOES_43, SHOES, [SIZE_43])
    ensures PerOrderLimit(SHOES.rules).Some?
    ensures
      var ctx := CONTEXT.(policy := SHOES, tier2 := Some(READING));
      && Begin(s, ORDER, ctx.(policy := SHOES_43)).entry.outcome.Approve?
      && Begin(s, ORDER, ctx).entry.outcome.Decline?
  {
    hide StoreView, EngineFor, FlagsRestated, FreeId, PerOrderLimit, AnyRuleUnknown, TopicsAsked, WithReading, Calm, PeriodDaysOf, Begin;
    ShoesGoverned();
    assert CAP in SHOES.rules && IsOrderLimit(CAP);
    var ctx, after := CONTEXT.(policy := SHOES, tier2 := Some(READING)), CONTEXT.(policy := SHOES_43, tier2 := Some(READING));
    assert after == ctx.(policy := SHOES_43);
    DecidedOn(s, ctx);
    DecidedOn(s, after);
    ReadForEach();
    SizedApproved(StoreView(s, PAST, QueryFor(ORDER, after)));
    AllReadDeclined(StoreView(s, PAST, QueryFor(ORDER, ctx)));
  }

  lemma DecidedOn(s: Store, ctx: Context)
    requires IsEmpty(s) && (ctx.policy == SHOES || ctx.policy == SHOES_43) && ctx == CONTEXT.(policy := ctx.policy, tier2 := Some(READING))
    ensures
      var view := StoreView(s, PAST, QueryFor(ORDER, ctx));
      Calm(view) && Begin(s, ORDER, ctx).entry.outcome
        == EngineFor(WithReading(CART, ANSWERS, AskedFor(CART, ctx.policy, map[])), ctx.policy, view, []).outcome
  {
    hide StoreView, EngineFor, AfterTier2, AskedFor, WithReading, Begin;
    var view := StoreView(s, PAST, QueryFor(ORDER, ctx));
    ViewOfHistory(s, QueryFor(ORDER, ctx));
    assert RawFacts(ORDER, view) == CART;
    ReadAsAsked(CART, ctx);
    EngineDecides(s, ORDER, ctx);
  }
}
