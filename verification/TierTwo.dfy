/** What a tier-2 reading may change (backend/oneguard/engine/tier2.py:104-301): unknown sizes get a
    value and the return window gets shorter, each only when asked for. What a policy approves on one
    reading it approves on another exactly when its size and window rules pass there too; from that,
    when a tightened policy's reading lets through what the old policy's own reading stops. */
module TierTwo {
  import opened Seqs
  import opened Types
  import opened Ledger
  import opened PolicyRules
  import opened Warnings
  import Protections
  import opened Ladder
  import opened LadderJoin
  import opened Pipeline
  import opened Draft
  import opened Policies
  import opened Remember
  import opened CleanSheet

  // --- Two readings of the same purchase --------------------------------------------------------------

  /** The lines differ at most in what tier 2 reads. */
  predicate AlikeLine(x: Item, y: Item) { y == x.(sizeEu := y.sizeEu, sizeLetter := y.sizeLetter, window := y.window) }

  predicate SameSizes(x: Item, y: Item) { AlikeLine(x, y) && y.sizeEu == x.sizeEu && y.sizeLetter == x.sizeLetter }

  predicate FillsFact(x: FactValue, y: FactValue) { x.Known? ==> y == x }

  /** y is x read further: what was known, or contradicts itself, stays. */
  predicate FillsLine(x: Item, y: Item) {
    && AlikeLine(x, y) && FillsFact(x.sizeEu, y.sizeEu) && FillsFact(x.sizeLetter, y.sizeLetter)
    && (y.window == x.window || (x.window.NotStated? && y.window.Stated?))
  }

  ghost predicate Paired(a: seq<Item>, b: seq<Item>, related: (Item, Item) -> bool) {
    |a| == |b| && forall i :: 0 <= i < |a| ==> related(a[i], b[i])
  }

  ghost predicate Alike(a: seq<Item>, b: seq<Item>) { Paired(a, b, AlikeLine) }

  ghost predicate SameButRead(before: Facts, after: Facts) {
    after == before.(items := after.items) && Alike(before.items, after.items)
  }

  ghost predicate ReadFrom(before: Facts, after: Facts) {
    SameButRead(before, after) && Paired(before.items, after.items, FillsLine)
  }

  lemma ReadingFills(facts: Facts, lines: seq<LineAnswer>, asked: set<Topic>)
    ensures ReadFrom(facts, WithReading(facts, lines, asked))
  {
  }

  lemma {:induction false} FilterPaired(a: seq<Item>, b: seq<Item>, related: (Item, Item) -> bool, p: Item -> bool)
    requires Paired(a, b, related) && forall i :: 0 <= i < |a| ==> p(a[i]) == p(b[i])
    ensures Paired(Filter(a, p), Filter(b, p), related)
  {
    if a != [] {
      var n := |a| - 1;
      assert a == a[..n] + [a[n]] && b == b[..n] + [b[n]];
      FilterPaired(a[..n], b[..n], related, p);
    }
  }

  lemma RequestedPaired(before: Facts, after: Facts, p: Policy, related: (Item, Item) -> bool)
    requires SameButRead(before, after) && Paired(before.items, after.items, related)
    ensures Paired(RequestedLines(before, p), RequestedLines(after, p), related)
  {
    match p.requestedItem
    case None =>
    case Some(w) => FilterPaired(before.items, after.items, related, (ln: Item) => MatchesRequested(ln, w));
  }

  lemma RequestedFills(before: Facts, after: Facts, p: Policy)
    requires SameButRead(before, after)
    ensures Alike(RequestedLines(before, p), RequestedLines(after, p))
  {
    RequestedPaired(before, after, p, AlikeLine);
  }

  lemma {:induction false} QuantityFills(a: seq<Item>, b: seq<Item>)
    requires Alike(a, b)
    ensures SumBy(a, Quantity) == SumBy(b, Quantity)
  {
    if a != [] { QuantityFills(a[..|a| - 1], b[..|b| - 1]); }
  }

  lemma PerLineFills(a: seq<Item>, b: seq<Item>, f: Item -> FactValue)
    requires Alike(a, b) && forall i :: 0 <= i < |a| ==> f(a[i]) == f(b[i])
    ensures PerLine(a, f) == PerLine(b, f)
  {
  }

  /** What reads only a line's category, words, price, quantity and the like is unchanged. */
  lemma SomeFills(a: seq<Item>, b: seq<Item>, p: Item -> bool)
    requires Alike(a, b) && forall i :: 0 <= i < |a| ==> p(a[i]) == p(b[i])
    ensures (exists ln :: ln in a && p(ln)) <==> (exists ln :: ln in b && p(ln))
  {
    if x :| x in a && p(x) {
      var i :| 0 <= i < |a| && a[i] == x;
      assert b[i] in b && p(b[i]);
    }
    if x :| x in b && p(x) {
      var i :| 0 <= i < |b| && b[i] == x;
      assert a[i] in a && p(a[i]);
    }
  }

  // --- Rules --------------------------------------------------------------------------------------

  predicate IsReadField(f: Field) { f.SizeEu? || f.SizeLetter? || f.ReturnWindow? }

  lemma AllowedFills(before: Facts, after: Facts, names: seq<string>, id: string)
    requires SameButRead(before, after)
    ensures CheckAllowedTypes(before, names, id) == CheckAllowedTypes(after, names, id)
  {
    hide InCategories;
    SomeFills(before.items, after.items, (ln: Item) => !InCategories(ln.category, names));
  }

  lemma BlockedFills(before: Facts, after: Facts, names: seq<string>, id: string)
    requires SameButRead(before, after)
    ensures CheckBlockedTypes(before, names, id) == CheckBlockedTypes(after, names, id)
  {
    hide InCategories;
    SomeFills(before.items, after.items, (ln: Item) => InCategories(ln.category, names));
  }

  lemma SharedFills(r: Rule, before: Facts, after: Facts)
    requires SameButRead(before, after)
    ensures SharedCheck(r, before) == SharedCheck(r, after)
  {
    hide CheckAllowedTypes, CheckBlockedTypes, Alike, ValuesOf, InCategories;
    AllowedFills(before, after, ValuesOf(r), r.id);
    BlockedFills(before, after, ValuesOf(r), r.id);
  }

  lemma RecurringFills(before: Facts, after: Facts)
    requires SameButRead(before, after)
    ensures (exists ln :: ln in before.items && BillsRepeatedly(ln)) <==> (exists ln :: ln in after.items && BillsRepeatedly(ln))
  {
    SomeFills(before.items, after.items, (ln: Item) => BillsRepeatedly(ln));
  }

  lemma LineFactsFill(a: seq<Item>, b: seq<Item>)
    requires Alike(a, b)
    ensures PerLine(a, (ln: Item) => Known(TextAtom(ln.category))) == PerLine(b, (ln: Item) => Known(TextAtom(ln.category)))
    ensures PerLine(a, (ln: Item) => Known(NumAtom(ln.unitPrice))) == PerLine(b, (ln: Item) => Known(NumAtom(ln.unitPrice)))
    ensures PerLine(a, (ln: Item) => Known(NumAtom(100 * ln.quantity))) == PerLine(b, (ln: Item) => Known(NumAtom(100 * ln.quantity)))
    ensures PerLine(a, (ln: Item) => ln.alcohol) == PerLine(b, (ln: Item) => ln.alcohol)
  {
    hide PerLine;
    PerLineFills(a, b, (ln: Item) => Known(TextAtom(ln.category)));
    PerLineFills(a, b, (ln: Item) => Known(NumAtom(ln.unitPrice)));
    PerLineFills(a, b, (ln: Item) => Known(NumAtom(100 * ln.quantity)));
    PerLineFills(a, b, (ln: Item) => ln.alcohol);
  }

  lemma FactsForFills(field: Field, before: Facts, after: Facts, p: Policy)
    requires SameButRead(before, after) && !IsReadField(field)
    ensures FactsFor(field, before, p) == FactsFor(field, after, p)
  {
    hide PerLine, RequestedLines, BillsRepeatedly, SumBy, Alike;
    LineFactsFill(before.items, after.items);
    RecurringFills(before, after);
    RequestedFills(before, after, p);
    QuantityFills(RequestedLines(before, p), RequestedLines(after, p));
  }

  lemma OtherTypedSame(r: Rule, before: Facts, after: Facts, p: Policy)
    requires SameButRead(before, after) && !IsReadField(r.field)
    ensures EvaluateTypedRule(r, before, p) == EvaluateTypedRule(r, after, p)
  {
    hide SharedCheck, FactsFor, JudgeValues, Alike;
    SharedFills(r, before, after);
    FactsForFills(r.field, before, after, p);
  }

  /** One value after another either is the same or was missing, or is a window that got shorter. */
  lemma StillPasses(r: Rule, before: seq<FactValue>, after: seq<FactValue>)
    requires |before| == |after| && JudgeValues(r, after).outcome.Pass? && !JudgeValues(r, before).outcome.Unknown?
    requires forall i :: 0 <= i < |before| ==> FillsFact(before[i], after[i]) || (Shortens(before[i], after[i]) && (r.op.Ge? || r.op.Gt?))
    ensures JudgeValues(r, before).outcome.Pass?
  {
    var target := RuleValueChf(r);
    hide RuleValueChf;
    forall v | v in before && v.Known? ensures Compare(v.value, r.op, target) {
      var i :| 0 <= i < |before| && before[i] == v;
      assert after[i] in after;
      if after[i] != v { LongerMeets(v.value, after[i].value, r.op, target); }
    }
  }

  /** A known window stays known and never gets longer. */
  predicate Shortens(x: FactValue, y: FactValue) {
    x.Known? ==> y == x || (y.Known? && x.value.NumAtom? && y.value.NumAtom? && y.value.hundredths <= x.value.hundredths)
  }

  lemma LongerMeets(long: Atom, short: Atom, op: Operator, target: Value)
    requires long.NumAtom? && short.NumAtom? && short.hundredths <= long.hundredths && (op.Ge? || op.Gt?)
    ensures Compare(short, op, target) ==> Compare(long, op, target)
  {
  }

  /** Reading more lines can only shorten the order's window. */
  lemma WindowShortens(before: Facts, after: Facts)
    requires ReadFrom(before, after)
    ensures Shortens(OrderWindow(before), OrderWindow(after))
  {
    hide StrictestWindow;
    if !before.returnable.TermFalse? && OrderWindow(before).Known? {
      forall ln | ln in after.items ensures !ln.window.Contradictory? {
        var i :| 0 <= i < |after.items| && after.items[i] == ln;
        assert FillsLine(before.items[i], after.items[i]) && before.items[i] in before.items;
      }
      var days := StrictestWindow(before.items).value;
      var ln :| ln in before.items && ln.window == Stated(days);
      var i :| 0 <= i < |before.items| && before.items[i] == ln;
      assert FillsLine(before.items[i], after.items[i]) && after.items[i] in after.items;
    }
  }

  lemma SizesFill(a: seq<Item>, b: seq<Item>)
    requires Paired(a, b, FillsLine)
    ensures
      var x, y := PerLine(a, (ln: Item) => ln.sizeEu), PerLine(b, (ln: Item) => ln.sizeEu);
      |x| == |y| && forall i :: 0 <= i < |x| ==> FillsFact(x[i], y[i])
    ensures
      var x, y := PerLine(a, (ln: Item) => ln.sizeLetter), PerLine(b, (ln: Item) => ln.sizeLetter);
      |x| == |y| && forall i :: 0 <= i < |x| ==> FillsFact(x[i], y[i])
  {
  }

  lemma SizesSame(a: seq<Item>, b: seq<Item>)
    requires Paired(a, b, SameSizes)
    ensures PerLine(a, (ln: Item) => ln.sizeEu) == PerLine(b, (ln: Item) => ln.sizeEu)
    ensures PerLine(a, (ln: Item) => ln.sizeLetter) == PerLine(b, (ln: Item) => ln.sizeLetter)
  {
  }

  /** A return-window rule asks for at least so many days, as the vocabulary has it. */
  ghost predicate WindowsAtLeast(rules: seq<Rule>) {
    forall r :: r in rules && r.field.ReturnWindow? ==> r.op.Ge? || r.op.Gt?
  }

  /** A size rule reads the sizes, a window rule the order's window. */
  lemma SizeTypedSame(r: Rule, before: Facts, after: Facts, p: Policy)
    requires SameButRead(before, after) && Paired(before.items, after.items, SameSizes) && (r.field.SizeEu? || r.field.SizeLetter?)
    ensures EvaluateTypedRule(r, before, p) == EvaluateTypedRule(r, after, p)
  {
    hide JudgeValues, RequestedLines, PerLine, Paired;
    RequestedPaired(before, after, p, SameSizes);
    SizesSame(RequestedLines(before, p), RequestedLines(after, p));
  }

  lemma WindowTypedSame(r: Rule, before: Facts, after: Facts, p: Policy)
    requires OrderWindow(before) == OrderWindow(after) && r.field.ReturnWindow?
    ensures EvaluateTypedRule(r, before, p) == EvaluateTypedRule(r, after, p)
  {
    hide JudgeValues, OrderWindow;
  }

  /** Read further, a rule that was not unknown and passes now passed before. */
  lemma ReadTypedPasses(r: Rule, before: Facts, after: Facts, p: Policy)
    requires ReadFrom(before, after) && IsReadField(r.field) && (r.field.ReturnWindow? ==> r.op.Ge? || r.op.Gt?)
    requires EvaluateTypedRule(r, after, p).outcome.Pass? && !EvaluateTypedRule(r, before, p).outcome.Unknown?
    ensures EvaluateTypedRule(r, before, p).outcome.Pass?
  {
    hide JudgeValues, RequestedLines, PerLine, Paired, OrderWindow;
    RequestedPaired(before, after, p, FillsLine);
    SizesFill(RequestedLines(before, p), RequestedLines(after, p));
    WindowShortens(before, after);
    StillPasses(r, FactsFor(r.field, before, p).value, FactsFor(r.field, after, p).value);
  }

  /** A size rule that passes had every size known, so reading on leaves it passing. */
  lemma SizePassesOn(r: Rule, before: Facts, after: Facts, p: Policy)
    requires ReadFrom(before, after) && (r.field.SizeEu? || r.field.SizeLetter?)
    requires EvaluateTypedRule(r, before, p).outcome.Pass?
    ensures EvaluateTypedRule(r, after, p).outcome.Pass?
  {
    hide JudgeValues, RequestedLines, PerLine, Paired;
    RequestedPaired(before, after, p, FillsLine);
    SizesFill(RequestedLines(before, p), RequestedLines(after, p));
    AllKnown(r, FactsFor(r.field, before, p).value, FactsFor(r.field, after, p).value);
  }

  lemma AllKnown(r: Rule, before: seq<FactValue>, after: seq<FactValue>)
    requires |before| == |after| && JudgeValues(r, before).outcome.Pass?
    requires forall i :: 0 <= i < |before| ==> FillsFact(before[i], after[i])
    ensures before == after
  {
    hide Compare, RuleValueChf;
    forall i | 0 <= i < |before| ensures before[i] == after[i] { assert before[i] in before; }
  }

  lemma RememberedFills(id: string, before: Facts, after: Facts, keys: set<string>)
    requires SameButRead(before, after)
    ensures RememberedFor(id, before, keys) == RememberedFor(id, after, keys)
  {
    SomeFills(before.items, after.items, (ln: Item) => ConfirmationKey(id, before.merchantId, ln.itemId) !in keys);
  }

  lemma LedgerFills(res: RuleResult, before: Facts, after: Facts, rules: seq<Rule>, view: LedgerView)
    requires SameButRead(before, after)
    ensures WithLedger(res, before, rules, view) == WithLedger(res, after, rules, view)
  {
    hide RememberedFor, RuleById, EvaluateLastPriceRule, Alike;
    var rule := RuleById(rules, res.ruleId);
    if rule.Some? { RememberedFills(rule.value.id, before, after, view.confirmedKeys); }
  }

  lemma ReadResult(r: Rule, facts: Facts, p: Policy, view: LedgerView)
    requires Tidy(p) && r in p.rules && IsReadField(r.field)
    ensures ResultFor(r, facts, p, view) == EvaluateTypedRule(r, facts, p)
  {
    hide EvaluateTypedRule, FlagIds;
    RuleFound(p.rules, r);
    TypedId(r, facts, p);
  }

  /** The rules that read what tier 2 fills. */
  ghost predicate ReadRulesPass(facts: Facts, p: Policy) {
    forall r :: r in p.rules && !r.scope.PerPeriod? && IsReadField(r.field) ==> EvaluateTypedRule(r, facts, p).outcome.Pass?
  }

  lemma RulePassesOn(r: Rule, before: Facts, after: Facts, p: Policy, view: LedgerView)
    requires Tidy(p) && r in p.rules && !r.scope.PerPeriod? && SameButRead(before, after) && ReadRulesPass(after, p)
    requires ResultFor(r, before, p, view).outcome.Pass?
    ensures ResultFor(r, after, p, view).outcome.Pass?
  {
    hide EvaluateTypedRule, WithLedger, Tidy, SameButRead;
    if IsReadField(r.field) {
      ReadResult(r, after, p, view);
    } else {
      OtherTypedSame(r, before, after, p);
      LedgerFills(EvaluateTypedRule(r, before, p), before, after, p.rules, view);
    }
  }

  lemma RulesPassOn(before: Facts, after: Facts, p: Policy, view: LedgerView)
    requires Tidy(p) && SameButRead(before, after) && RulesPass(before, p, view) && ReadRulesPass(after, p)
    ensures RulesPass(after, p, view)
  {
    hide EvaluateTypedRule, ResultFor, Tidy, Alike, ReadRulesPass;
    forall r | r in p.rules && !r.scope.PerPeriod? ensures ResultFor(r, after, p, view).outcome.Pass? {
      RulePassesOn(r, before, after, p, view);
    }
    forall r | r in p.rules && r.scope.PerPeriod? ensures PeriodResult(r, after, view).outcome.Pass? {
      assert PeriodResult(r, before, view) == PeriodResult(r, after, view);
    }
  }

  // --- Everything else is the same ------------------------------------------------------------------

  lemma RequestedSame(before: Facts, after: Facts, p: Policy)
    requires SameButRead(before, after)
    ensures CheckRequestedItem(before, p) == CheckRequestedItem(after, p)
    ensures CheckNothingExtra(before, p) == CheckNothingExtra(after, p)
  {
    RequestedFills(before, after, p);
    SomeFills(before.items, after.items, (ln: Item) => IsExtra(ln, p));
  }

  lemma FlagsSame(before: Facts, after: Facts, p: Policy)
    requires SameButRead(before, after)
    ensures FlagResults(before, p) == FlagResults(after, p)
  {
    hide CheckAllowedTypes, CheckBlockedTypes, CheckRequestedItem, CheckNothingExtra, Alike, InCategories,
      AllowedStated, BlockedStated, ShopTypeStated, KnownShopStated;
    AllowedFills(before, after, p.allowed, "C3");
    BlockedFills(before, after, p.blocked, "C4");
    RequestedSame(before, after, p);
  }

  lemma CartSame(before: Facts, after: Facts, p: Policy)
    requires SameButRead(before, after)
    ensures Protections.CartIds(before) == Protections.CartIds(after)
    ensures Protections.HoldsRequested(before, p) == Protections.HoldsRequested(after, p)
    ensures Protections.HiddenRecurring(before, p) == Protections.HiddenRecurring(after, p)
  {
    hide MatchesRequested, BillsRepeatedly;
    SomeFills(before.items, after.items, (ln: Item) => BillsRepeatedly(ln) && !Protections.AskedFor(ln, p)) by {
      forall i | 0 <= i < |before.items| ensures LineSame(before.items[i], after.items[i], p) { LinesAlike(before.items[i], after.items[i], p); }
    }
    if p.requestedItem.Some? {
      SomeFills(before.items, after.items, (ln: Item) => MatchesRequested(ln, p.requestedItem.value)) by {
        forall i | 0 <= i < |before.items| ensures LineSame(before.items[i], after.items[i], p) { LinesAlike(before.items[i], after.items[i], p); }
      }
    }
  }

  /** What the protections read of a line. */
  predicate LineSame(x: Item, y: Item, p: Policy) {
    && BillsRepeatedly(x) == BillsRepeatedly(y) && Protections.AskedFor(x, p) == Protections.AskedFor(y, p)
    && (p.requestedItem.Some? ==> MatchesRequested(x, p.requestedItem.value) == MatchesRequested(y, p.requestedItem.value))
  }

  lemma LinesAlike(x: Item, y: Item, p: Policy)
    requires AlikeLine(x, y)
    ensures LineSame(x, y, p)
  {
  }

  lemma ShieldsSame(before: Facts, after: Facts, p: Policy, view: LedgerView)
    requires SameButRead(before, after)
    ensures Protections.Evaluate(before, p, view) == Protections.Evaluate(after, p, view)
  {
    hide Alike, Protections.HoldsRequested, Protections.HiddenRecurring, Protections.LooksAlike, PerOrderLimit, Exceeds,
      Protections.CartIds, Protections.NearAmount, Protections.FirstPrior;
    CartSame(before, after, p);
    DuplicateSame(before, after, view);
    SplitSame(before, after, p, view);
    hide Protections.Duplicate, Protections.Split;
  }

  lemma DuplicateSame(before: Facts, after: Facts, view: LedgerView)
    requires SameButRead(before, after) && Protections.CartIds(before) == Protections.CartIds(after)
    ensures forall requoted :: Protections.Duplicate(before, view, requoted) == Protections.Duplicate(after, view, requoted)
  {
    hide Alike, Protections.CartIds, Protections.NearAmount, Protections.MayBeApproved;
    LastSame(view.priors, (p: Prior) => Protections.IsEarlier(before, p, Protections.DUPLICATE_WINDOW) && Protections.IsRepeat(before, p),
             (p: Prior) => Protections.IsEarlier(after, p, Protections.DUPLICATE_WINDOW) && Protections.IsRepeat(after, p));
  }

  lemma SplitSame(before: Facts, after: Facts, p: Policy, view: LedgerView)
    requires SameButRead(before, after)
    ensures Protections.Split(before, p.rules, view) == Protections.Split(after, p.rules, view)
  {
    hide Alike, PerOrderLimit, Exceeds, Protections.MayBeApproved;
    var limit := PerOrderLimit(p.rules);
    if limit.Some? {
      LastSame(view.priors, (p: Prior) => Protections.IsEarlier(before, p, Protections.SPLIT_WINDOW) && Exceeds(p.amount + before.amount, limit.value),
               (p: Prior) => Protections.IsEarlier(after, p, Protections.SPLIT_WINDOW) && Exceeds(p.amount + after.amount, limit.value));
    }
  }

  lemma {:induction false} LastSame(priors: seq<Prior>, p: Prior -> bool, q: Prior -> bool)
    requires forall x :: p(x) == q(x)
    ensures Protections.LastPrior(priors, p) == Protections.LastPrior(priors, q)
  {
    if priors != [] { LastSame(priors[..|priors| - 1], p, q); }
  }

  lemma SignsSame(before: Facts, after: Facts, p: Policy, view: LedgerView)
    requires SameButRead(before, after)
    ensures WarningSigns(before, view, p) == WarningSigns(after, view, p)
  {
    hide PerOrderLimit, Alike;
    PriceSame(before, after);
    hide PriceOutsideRange;
  }

  lemma PriceSame(before: Facts, after: Facts)
    requires SameButRead(before, after)
    ensures PriceOutsideRange(before) == PriceOutsideRange(after)
  {
    SomeFills(before.items, after.items, (ln: Item) => OutsideRange(ln));
  }

  lemma ApprovedReadRules(facts: Facts, p: Policy, view: LedgerView, soft: seq<Signal>)
    requires Tidy(p) && !p.setting.ApproveIt? && EngineFor(facts, p, view, soft).outcome.Approve?
    ensures ReadRulesPass(facts, p)
  {
    hide EngineFor, Tidy, EvaluateTypedRule, ResultFor, FlagsPass, Shielded, SignsAsk, WarningSigns;
    ApprovedIffClean(facts, p, view, soft);
    forall r | r in p.rules && !r.scope.PerPeriod? && IsReadField(r.field) ensures EvaluateTypedRule(r, facts, p).outcome.Pass? {
      ReadResult(r, facts, p, view);
    }
  }

  /** What but the signs makes a purchase clean, on one reading as on another. */
  lemma CleanOnReading(before: Facts, after: Facts, p: Policy, view: LedgerView)
    requires Tidy(p) && SameButRead(before, after) && ReadRulesPass(after, p)
    requires RulesPass(before, p, view) && FlagsPass(before, p, view) && Shielded(before, p, view) && InForceNow(before, p)
    ensures RulesPass(after, p, view) && FlagsPass(after, p, view) && Shielded(after, p, view) && InForceNow(after, p)
  {
    hide Tidy, RulesPass, Alike, FlagResults, Protections.Evaluate, ReadRulesPass;
    RulesPassOn(before, after, p, view);
    FlagsSame(before, after, p);
    ShieldsSame(before, after, p, view);
    forall res | res in FlagResults(after, p) ensures FlagChecked(res, after, view).outcome.Pass? {
      assert FlagChecked(res, before, view) == FlagChecked(res, after, view);
    }
  }

  /** What a policy approves on one reading of a purchase it approves on another exactly when its size
      and window rules pass there too. */
  lemma ApprovedOnReading(before: Facts, after: Facts, p: Policy, view: LedgerView, soft: seq<Signal>)
    requires Tidy(p) && !p.setting.ApproveIt? && SameButRead(before, after)
    requires EngineFor(before, p, view, soft).outcome.Approve?
    ensures EngineFor(after, p, view, soft).outcome.Approve? <==> ReadRulesPass(after, p)
  {
    hide EngineFor, Tidy, RulesPass, FlagsPass, Shielded, InForceNow, SignsAsk, WarningSigns, SameButRead, ReadRulesPass;
    if EngineFor(after, p, view, soft).outcome.Approve? { ApprovedReadRules(after, p, view, soft); }
    if ReadRulesPass(after, p) {
      ApprovedIffClean(before, p, view, soft);
      ApprovedIffClean(after, p, view, soft);
      CleanOnReading(before, after, p, view);
      SignsSame(before, after, p, view);
    }
  }

  /** So a policy with nothing unknown on the facts before a reading approves on them what it would
      approve on the facts read. */
  lemma UnreadStillApproves(before: Facts, after: Facts, p: Policy, view: LedgerView, soft: seq<Signal>)
    requires Tidy(p) && !p.setting.ApproveIt? && WindowsAtLeast(p.rules)
    requires ReadFrom(before, after) && !AnyRuleUnknown(before, p)
    requires EngineFor(after, p, view, soft).outcome.Approve?
    ensures EngineFor(before, p, view, soft).outcome.Approve?
  {
    hide EngineFor, Tidy, FillsLine, AlikeLine, EvaluateTypedRule, FlagResults, Step1Results;
    ApprovedReadRules(after, p, view, soft);
    forall r | r in p.rules && !r.scope.PerPeriod? && IsReadField(r.field) ensures EvaluateTypedRule(r, before, p).outcome.Pass? {
      assert EvaluateTypedRule(r, before, p) in EvaluateRules(before, p);
      ReadTypedPasses(r, before, after, p);
    }
    assert SameButRead(after, before) by { AlikeBack(before, after); }
    ApprovedOnReading(after, before, p, view, soft);
  }

  lemma AlikeBack(before: Facts, after: Facts)
    requires SameButRead(before, after)
    ensures SameButRead(after, before)
  {
  }

  // --- What two policies ask for ----------------------------------------------------------------------

  lemma UnknownIsRule(facts: Facts, p: Policy)
    ensures AnyRuleUnknown(facts, p) <==> exists r :: r in p.rules && RuleUnknown(r, facts, p)
  {
    hide FlagResults, EvaluateTypedRule;
    if res :| res in EvaluateRules(facts, p) && res.outcome.Unknown? {
      if res in FlagResults(facts, p) { FlagResultIds(facts, p, res); }
      var r :| r in p.rules && !r.scope.PerPeriod? && res == EvaluateTypedRule(r, facts, p);
      assert RuleUnknown(r, facts, p);
    }
    if r :| r in p.rules && RuleUnknown(r, facts, p) {
      assert EvaluateTypedRule(r, facts, p) in EvaluateRules(facts, p);
    }
  }

  /** Adding rules leaves as much unknown. */
  lemma MoreUnknown(facts: Facts, p: Policy, tight: Policy, added: seq<Rule>)
    requires tight == p.(rules := p.rules + added, setting := tight.setting)
    ensures AnyRuleUnknown(facts, p) ==> AnyRuleUnknown(facts, tight)
    ensures forall r :: RuleUnknown(r, facts, p) == RuleUnknown(r, facts, tight)
  {
    hide EvaluateTypedRule, AnyRuleUnknown;
    forall r ensures RuleUnknown(r, facts, p) == RuleUnknown(r, facts, tight) { TypedSame(r, facts, p, tight); }
    UnknownIsRule(facts, p);
    UnknownIsRule(facts, tight);
    if r :| r in p.rules && RuleUnknown(r, facts, p) { assert r in tight.rules; }
  }

  /** What is read for a policy: nothing unless a rule is unknown. */
  function AskedFor(facts: Facts, p: Policy, quoted: map<Rule, set<Topic>>): set<Topic> {
    if AnyRuleUnknown(facts, p) then TopicsAsked(facts, p, quoted) else {}
  }

  lemma Unread(facts: Facts, lines: seq<LineAnswer>)
    ensures WithReading(facts, lines, {}) == facts
  {
    assert FilledLines(facts.items, lines, {}) == facts.items;
  }

  lemma ReadAsAsked(facts: Facts, ctx: Context)
    requires ctx.tier2.Some?
    ensures AfterTier2(facts, ctx) == WithReading(facts, ctx.tier2.value.lines, AskedFor(facts, ctx.policy, ctx.tier2.value.quoted))
  {
    hide AnyRuleUnknown, TopicsAsked, WithReading;
    Unread(facts, ctx.tier2.value.lines);
  }

  lemma MoreRead(facts: Facts, lines: seq<LineAnswer>, asked: set<Topic>, more: set<Topic>)
    requires asked <= more
    ensures ReadFrom(WithReading(facts, lines, asked), WithReading(facts, lines, more))
  {
  }

  lemma SizesFollow(facts: Facts, lines: seq<LineAnswer>, asked: set<Topic>, other: set<Topic>)
    requires Sizes in asked <==> Sizes in other
    ensures Paired(WithReading(facts, lines, asked).items, WithReading(facts, lines, other).items, SameSizes)
  {
  }

  lemma Siblings(facts: Facts, lines: seq<LineAnswer>, asked: set<Topic>, other: set<Topic>)
    ensures SameButRead(WithReading(facts, lines, asked), WithReading(facts, lines, other))
  {
  }

  predicate SameWindow(x: Item, y: Item) { x.window == y.window }

  lemma {:induction false} StrictestSame(a: seq<Item>, b: seq<Item>)
    requires Paired(a, b, SameWindow)
    ensures StrictestWindow(a) == StrictestWindow(b)
    ensures (exists ln :: ln in a && ln.window.Contradictory?) <==> (exists ln :: ln in b && ln.window.Contradictory?)
  {
    if a != [] {
      var n := |a| - 1;
      assert a == a[..n] + [a[n]] && b == b[..n] + [b[n]];
      StrictestSame(a[..n], b[..n]);
    }
  }

  lemma WindowsFollow(facts: Facts, lines: seq<LineAnswer>, asked: set<Topic>, other: set<Topic>)
    requires Windows in asked <==> Windows in other
    ensures OrderWindow(WithReading(facts, lines, asked)) == OrderWindow(WithReading(facts, lines, other))
  {
    hide StrictestWindow;
    StrictestSame(WithReading(facts, lines, asked).items, WithReading(facts, lines, other).items);
  }

  /** The topic a size or window rule waits for. */
  function TopicOf(r: Rule): Topic { if r.field.ReturnWindow? then Windows else Sizes }

  lemma SameOnTopic(r: Rule, facts: Facts, p: Policy, lines: seq<LineAnswer>, asked: set<Topic>, other: set<Topic>)
    requires IsReadField(r.field) && (TopicOf(r) in asked <==> TopicOf(r) in other)
    ensures EvaluateTypedRule(r, WithReading(facts, lines, asked), p) == EvaluateTypedRule(r, WithReading(facts, lines, other), p)
  {
    hide EvaluateTypedRule, WithReading, Paired, SameButRead, OrderWindow;
    Siblings(facts, lines, asked, other);
    if r.field.ReturnWindow? {
      WindowsFollow(facts, lines, asked, other);
      WindowTypedSame(r, WithReading(facts, lines, asked), WithReading(facts, lines, other), p);
    } else {
      SizesFollow(facts, lines, asked, other);
      SizeTypedSame(r, WithReading(facts, lines, asked), WithReading(facts, lines, other), p);
    }
  }

  /** An unknown size or window rule names its topic. */
  lemma UnknownIsAsked(r: Rule, facts: Facts, p: Policy, quoted: map<Rule, set<Topic>>)
    requires r in p.rules && IsReadField(r.field) && RuleUnknown(r, facts, p)
    ensures TopicOf(r) in TopicsNamed(p.rules, facts, p, quoted) && TopicOf(r) in AskedFor(facts, p, quoted)
  {
    hide EvaluateTypedRule, AnyRuleUnknown;
    UnknownIsRule(facts, p);
    assert TopicOf(r) in TopicsOf(r, quoted);
  }

  /** What is unknown under the old policy is unknown under this one. */
  ghost predicate StaysUnknown(facts: Facts, p: Policy, tight: Policy) {
    forall r :: r in p.rules && RuleUnknown(r, facts, p) ==> r in tight.rules && RuleUnknown(r, facts, tight)
  }

  lemma NamedGrows(facts: Facts, p: Policy, tight: Policy, quoted: map<Rule, set<Topic>>)
    requires StaysUnknown(facts, p, tight)
    ensures TopicsNamed(p.rules, facts, p, quoted) <= TopicsNamed(tight.rules, facts, tight, quoted)
  {
    hide TopicsNamed, RuleUnknown, TopicsOf, AnyRuleUnknown, StaysUnknown;
    forall t | t in TopicsNamed(p.rules, facts, p, quoted) ensures t in TopicsNamed(tight.rules, facts, tight, quoted) {
      StillNamed(facts, p, tight, quoted, t);
    }
  }

  lemma StillNamed(facts: Facts, p: Policy, tight: Policy, quoted: map<Rule, set<Topic>>, t: Topic)
    requires StaysUnknown(facts, p, tight) && t in TopicsNamed(p.rules, facts, p, quoted)
    ensures t in TopicsNamed(tight.rules, facts, tight, quoted)
  {
    hide RuleUnknown, TopicsOf, AnyRuleUnknown, TopicsNamed;
    var r :| r in p.rules && RuleUnknown(r, facts, p) && t in TopicsOf(r, quoted);
  }

  // --- When the tightened policy reads less -------------------------------------------------------------

  /** The old policy's unknown rules name no topic, so it reads everything; the tightened one's name
      sizes only. */
  predicate Narrows(facts: Facts, p: Policy, tight: Policy, quoted: map<Rule, set<Topic>>) {
    && AnyRuleUnknown(facts, p) && TopicsNamed(p.rules, facts, p, quoted) == {}
    && TopicsNamed(tight.rules, facts, tight, quoted) == {Sizes}
  }

  predicate WindowMet(r: Rule, window: FactValue) { window.Known? && Compare(window.value, r.op, RuleValueChf(r)) }

  /** With the windows read, a return-window rule is not met. */
  predicate WindowBreaks(facts: Facts, p: Policy, lines: seq<LineAnswer>) {
    exists r :: r in p.rules && !r.scope.PerPeriod? && r.field.ReturnWindow?
                && !WindowMet(r, OrderWindow(WithReading(facts, lines, {Windows})))
  }

  predicate LosesWindow(facts: Facts, p: Policy, tight: Policy, reading: Reading) {
    Narrows(facts, p, tight, reading.quoted) && WindowBreaks(facts, p, reading.lines)
  }

  lemma WindowRulePasses(r: Rule, facts: Facts, p: Policy)
    requires r.field.ReturnWindow?
    ensures EvaluateTypedRule(r, facts, p).outcome.Pass? <==> WindowMet(r, OrderWindow(facts))
  {
    hide OrderWindow, Compare, RuleValueChf;
    assert [OrderWindow(facts)][0] in [OrderWindow(facts)];
  }

  /** One rule of the old policy, met on the tightened one's facts. */
  lemma OldReadRule(r: Rule, facts: Facts, p: Policy, tight: Policy, added: seq<Rule>, reading: Reading)
    requires tight == p.(rules := p.rules + added, setting := tight.setting) && WindowsAtLeast(p.rules)
    requires r in p.rules && !r.scope.PerPeriod? && IsReadField(r.field)
    requires EvaluateTypedRule(r, WithReading(facts, reading.lines, AskedFor(facts, tight, reading.quoted)), p).outcome.Pass?
    ensures EvaluateTypedRule(r, WithReading(facts, reading.lines, AskedFor(facts, p, reading.quoted)), p).outcome.Pass?
         || (Narrows(facts, p, tight, reading.quoted) && r.field.ReturnWindow?)
  {
    hide EvaluateTypedRule, WithReading, AnyRuleUnknown, TopicsNamed, ReadFrom;
    var lines, quoted := reading.lines, reading.quoted;
    var old', now := AskedFor(facts, p, quoted), AskedFor(facts, tight, quoted);
    MoreUnknown(facts, p, tight, added);
    NamedGrows(facts, p, tight, quoted);
    if TopicOf(r) in old' <==> TopicOf(r) in now {
      SameOnTopic(r, facts, p, lines, old', now);
    } else if TopicOf(r) in now {
      if RuleUnknown(r, facts, p) { UnknownIsAsked(r, facts, p, quoted); }
      Unread(facts, lines);
      ReadingFills(facts, lines, now);
      ReadTypedPasses(r, facts, WithReading(facts, lines, now), p);
      SameOnTopic(r, facts, p, lines, old', {});
    } else if TopicOf(r) == Sizes {
      SameOnTopic(r, facts, p, lines, now, {});
      Unread(facts, lines);
      ReadingFills(facts, lines, old');
      SizePassesOn(r, facts, WithReading(facts, lines, old'), p);
    } else {
      OnlySizes(facts, p, tight, quoted);
    }
  }

  lemma OnlySizes(facts: Facts, p: Policy, tight: Policy, quoted: map<Rule, set<Topic>>)
    requires AnyRuleUnknown(facts, p) ==> AnyRuleUnknown(facts, tight)
    requires TopicsNamed(p.rules, facts, p, quoted) <= TopicsNamed(tight.rules, facts, tight, quoted)
    requires Windows in AskedFor(facts, p, quoted) && Windows !in AskedFor(facts, tight, quoted)
    ensures Narrows(facts, p, tight, quoted)
  {
    hide AnyRuleUnknown, TopicsNamed;
    var named := TopicsNamed(tight.rules, facts, tight, quoted);
    var t :| t in named;
    assert t == Sizes && forall x :: x in named ==> x == Sizes;
    assert named == {Sizes};
  }

  /** Where the old policy's rules pass on the facts read for the tightened one, its size and window
      rules pass on those read for itself exactly when it does not lose a window. */
  lemma OldReadRules(facts: Facts, p: Policy, tight: Policy, added: seq<Rule>, reading: Reading)
    requires tight == p.(rules := p.rules + added, setting := tight.setting) && WindowsAtLeast(p.rules)
    requires ReadRulesPass(WithReading(facts, reading.lines, AskedFor(facts, tight, reading.quoted)), p)
    ensures ReadRulesPass(WithReading(facts, reading.lines, AskedFor(facts, p, reading.quoted)), p) <==> !LosesWindow(facts, p, tight, reading)
  {
    hide EvaluateTypedRule, WithReading, AnyRuleUnknown, TopicsNamed, WindowsAtLeast, WindowMet, OrderWindow, Narrows;
    var lines, old' := reading.lines, AskedFor(facts, p, reading.quoted);
    if Narrows(facts, p, tight, reading.quoted) {
      assert Windows in old' by { AsksAll(facts, p, tight, reading.quoted); }
      WindowsFollow(facts, lines, old', {Windows});
    }
    forall r | r in p.rules && !r.scope.PerPeriod? && IsReadField(r.field)
      ensures r.field.ReturnWindow? ==>
        (EvaluateTypedRule(r, WithReading(facts, lines, old'), p).outcome.Pass? <==> WindowMet(r, OrderWindow(WithReading(facts, lines, old'))))
      ensures EvaluateTypedRule(r, WithReading(facts, lines, old'), p).outcome.Pass? || (Narrows(facts, p, tight, reading.quoted) && r.field.ReturnWindow?)
    {
      OldReadRule(r, facts, p, tight, added, reading);
      if r.field.ReturnWindow? { WindowRulePasses(r, WithReading(facts, lines, old'), p); }
    }
  }

  lemma AsksAll(facts: Facts, p: Policy, tight: Policy, quoted: map<Rule, set<Topic>>)
    requires Narrows(facts, p, tight, quoted)
    ensures AskedFor(facts, p, quoted) == {Sizes, Windows}
  {
    hide AnyRuleUnknown, TopicsNamed;
  }

  lemma TypedSame(r: Rule, facts: Facts, p: Policy, tight: Policy)
    requires p.requestedItem == tight.requestedItem
    ensures EvaluateTypedRule(r, facts, p) == EvaluateTypedRule(r, facts, tight)
  {
    hide JudgeValues, SharedCheck;
    assert FactsFor(r.field, facts, p) == FactsFor(r.field, facts, tight) by {
      hide Filter, SumBy;
      assert RequestedLines(facts, p) == RequestedLines(facts, tight);
    }
  }
}
