/** Checking one purchase against the customer's policy (backend/oneguard/engine/policy.py):
    typed rules, the policy's flags, and the results that need the ledger. */
module PolicyRules {
  import opened Seqs
  import opened Types
  import opened Ledger

  // --- Values -------------------------------------------------------------------------

  function LowerChar(c: char): char {
    if 'A' <= c <= 'Z' then (c as int + 32) as char else c
  }

  function Lower(s: string): string { Map(s, LowerChar) }

  predicate StrLess(a: string, b: string) {
    if b == "" then false
    else if a == "" then true
    else a[0] < b[0] || (a[0] == b[0] && StrLess(a[1..], b[1..]))
  }

  /** A rule's number as Python prints it: 17, 43.5, 120.25. */
  function NumText(h: int): string
    decreases if h < 0 then 1 else 0
  {
    if h < 0 then "-" + NumText(-h)
    else if h % 100 == 0 then Numeral(h / 100)
    else if h % 10 == 0 then Numeral(h / 100) + "." + Numeral(h % 100 / 10)
    else Numeral(h / 100) + "." + (if h % 100 < 10 then "0" else "") + Numeral(h % 100)
  }

  function ValuesOf(rule: Rule): seq<string> {
    match rule.value
    case Names(names) => names
    case Text(t) => [t]
    case Num(h) => [NumText(h)]
  }

  function AtomText(a: Atom): string {
    match a
    case NumAtom(h) => NumText(h)
    case TextAtom(t) => t
    case BoolAtom(b) => if b then "true" else "false"
  }

  /** Half-even rounding of n/d, d > 0. */
  function RoundHalfEven(n: int, d: int): int
    requires d > 0
  {
    var q, r := n / d, n % d;
    if 2 * r < d then q else if 2 * r > d then q + 1 else if q % 2 == 0 then q else q + 1
  }

  /** The fixed conversion rates, in hundredths of a franc. */
  function Rate(c: Currency): int {
    match c case CHF => 100 case EUR => 95 case GBP => 112 case USD => 87
  }

  function ToChf(h: int, c: Currency): int { RoundHalfEven(h * Rate(c), 100) }

  predicate IsMoneyField(f: Field) { f.BillingAmount? || f.UnitPrice? }

  /** A limit stated in another currency is converted before it is compared (T4). */
  function RuleValueChf(rule: Rule): Value {
    if IsMoneyField(rule.field) && rule.currency.Some? && !rule.currency.value.CHF? && rule.value.Num?
    then Num(ToChf(rule.value.hundredths, rule.currency.value))
    else rule.value
  }

  predicate CompareNum(a: int, op: Operator, b: int) {
    match op
    case Lt => a < b
    case Le => a <= b
    case Eq => a == b
    case Ne => a != b
    case Gt => a > b
    case Ge => a >= b
    case In => a == b
    case NotIn => a != b
  }

  predicate CompareText(a: string, op: Operator, b: string) {
    match op
    case Lt => StrLess(a, b)
    case Le => a == b || StrLess(a, b)
    case Eq => a == b
    case Ne => a != b
    case Gt => StrLess(b, a)
    case Ge => a == b || StrLess(b, a)
    case In => a == b
    case NotIn => a != b
  }

  /** `_compare`. A number against a value that is not a number raises in the source; here it
      is not met. */
  predicate Compare(fact: Atom, op: Operator, target: Value) {
    match target
    case Names(names) =>
      if op.In? then exists n :: n in names && Lower(AtomText(fact)) == Lower(n)
      else if op.NotIn? then forall n :: n in names ==> Lower(AtomText(fact)) != Lower(n)
      else false
    case Num(h) => if fact.NumAtom? then CompareNum(fact.hundredths, op, h)
                   else CompareText(Lower(AtomText(fact)), op, NumText(h))
    case Text(t) => if fact.NumAtom? && !op.In? && !op.NotIn? then false
                    else CompareText(Lower(AtomText(fact)), op, Lower(t))
  }

  // --- Facts by field -----------------------------------------------------------------

  predicate MatchesRequested(line: Item, wanted: Wanted) {
    wanted.words != {} && wanted.words <= line.words
  }

  function RequestedLines(facts: Facts, policy: Policy): seq<Item> {
    match policy.requestedItem
    case None => facts.items
    case Some(w) => Filter(facts.items, (ln: Item) => MatchesRequested(ln, w))
  }

  predicate IsLastPriceRule(rule: Rule) {
    rule.field.BillingAmount? && rule.value == LAST_PRICE_AT_SHOP
  }

  function TextFact(t: Option<string>): FactValue {
    match t case None => NotKnown case Some(v) => Known(TextAtom(v))
  }

  function OrderTermFact(t: OrderTerm): FactValue {
    match t
    case TermTrue => Known(TextAtom("true"))
    case TermFalse => Known(TextAtom("false"))
    case _ => NotKnown
  }

  predicate BillsRepeatedly(line: Item) {
    line.category == "subscriptions" || line.category == "membership" || line.recurring == Some(true)
  }

  function Quantity(line: Item): int { line.quantity }

  function PerLine(chosen: seq<Item>, f: Item -> FactValue): seq<FactValue> {
    if chosen == [] then [NotKnown] else Map(chosen, f)
  }

  /** The smallest window any line states. */
  function StrictestWindow(items: seq<Item>): (days: Option<nat>)
    ensures days.None? <==> forall ln :: ln in items ==> !ln.window.Stated?
    ensures days.Some? ==> exists ln :: ln in items && ln.window == Stated(days.value)
    ensures days.Some? ==> forall ln :: ln in items && ln.window.Stated? ==> days.value <= ln.window.days
  {
    if items == [] then None
    else
      var last, rest := items[|items| - 1], StrictestWindow(items[..|items| - 1]);
      assert items == items[..|items| - 1] + [last];
      if !last.window.Stated? || (rest.Some? && rest.value <= last.window.days) then rest else Some(last.window.days)
  }

  /** `order_return_window` (facts.py:299): none where the order cannot be returned, unknown where a
      line contradicts itself, else the strictest line's. */
  function OrderWindow(facts: Facts): FactValue {
    if facts.returnable.TermFalse? then Known(NumAtom(0))
    else if exists ln :: ln in facts.items && ln.window.Contradictory? then NotKnown
    else
      match StrictestWindow(facts.items)
      case None => NotKnown
      case Some(days) => Known(NumAtom(100 * days))
  }

  /** The values a rule on this field must meet, or None when no data can check the field. */
  function FactsFor(field: Field, facts: Facts, policy: Policy): Option<seq<FactValue>> {
    match field
    case BillingAmount => Some([Known(NumAtom(facts.amount))])
    case MerchantCategory => Some([Known(TextAtom(facts.merchantCategory))])
    case MerchantCountry => Some([Known(TextAtom(facts.merchantCountry))])
    case MerchantCity => Some([TextFact(facts.merchantCity)])
    case KnownShop => Some([Known(TextAtom(if facts.merchantKnown then "true" else "false"))])
    case FamiliarOnCard => Some([Known(TextAtom(if facts.merchantKnown then "true" else "false"))])
    case ReturnWindow => Some([OrderWindow(facts)])
    case Returnable => Some([OrderTermFact(facts.returnable)])
    case Cancellable => Some([OrderTermFact(facts.cancellable)])
    case DeliveryBy => Some([TextFact(facts.deliveryBy)])
    case Weekday => Some([Known(TextAtom(facts.weekday))])
    case LocalHour => Some([Known(NumAtom(facts.hour * 100))])
    case CartQuantity => Some([Known(NumAtom(100 * SumBy(RequestedLines(facts, policy), Quantity)))])
    case CartRecurring =>
      Some([Known(TextAtom(if exists ln :: ln in facts.items && BillsRepeatedly(ln) then "true" else "false"))])
    case ItemCategory => Some(PerLine(facts.items, (ln: Item) => Known(TextAtom(ln.category))))
    case UnitPrice => Some(PerLine(facts.items, (ln: Item) => Known(NumAtom(ln.unitPrice))))
    case LineQuantity => Some(PerLine(facts.items, (ln: Item) => Known(NumAtom(100 * ln.quantity))))
    case ContainsAlcohol => Some(PerLine(facts.items, (ln: Item) => ln.alcohol))
    case SizeEu => Some(PerLine(RequestedLines(facts, policy), (ln: Item) => ln.sizeEu))
    case SizeLetter => Some(PerLine(RequestedLines(facts, policy), (ln: Item) => ln.sizeLetter))
    case PurchasesInPeriod => None
    case Unverifiable => None
    case OtherField(_) => None
  }

  // --- Checks -------------------------------------------------------------------------

  function Passed(id: string): RuleResult { RuleResult(id, Pass, Plain, false) }
  function Failed(id: string): RuleResult { RuleResult(id, Fail, Plain, true) }
  function Undecided(id: string): RuleResult { RuleResult(id, Unknown, Plain, false) }
  function Judged(id: string, ok: bool): RuleResult { if ok then Passed(id) else Failed(id) }

  predicate InCategories(category: string, names: seq<string>) {
    exists n :: n in names && Lower(n) == Lower(category)
  }

  function CheckAllowedTypes(facts: Facts, allowed: seq<string>, id: string): RuleResult {
    Judged(id, forall ln :: ln in facts.items ==> InCategories(ln.category, allowed))
  }

  function CheckBlockedTypes(facts: Facts, blocked: seq<string>, id: string): RuleResult {
    Judged(id, forall ln :: ln in facts.items ==> !InCategories(ln.category, blocked))
  }

  function CheckRequestedItem(facts: Facts, policy: Policy): RuleResult {
    Judged("C5", RequestedLines(facts, policy) != [])
  }

  function CheckShopType(facts: Facts, wanted: seq<string>, id: string): RuleResult {
    Judged(id, InCategories(facts.merchantCategory, wanted))
  }

  function CheckKnownShop(facts: Facts, id: string): RuleResult {
    Judged(id, facts.merchantKnown)
  }

  /** C10: a line the customer did not ask for. Category names are compared as written here. */
  predicate IsExtra(line: Item, policy: Policy) {
    match policy.requestedItem
    case Some(w) => !MatchesRequested(line, w)
    case None => policy.allowed != [] && line.category !in policy.allowed
  }

  function CheckNothingExtra(facts: Facts, policy: Policy): RuleResult {
    Judged("C10", forall ln :: ln in facts.items ==> !IsExtra(ln, policy))
  }

  /** `on_fail: ask`: a broken rule is unknown, so the uncertainty setting decides. */
  function AskedIfBroken(rule: Rule, res: RuleResult): RuleResult {
    if res.outcome.Fail? && rule.asksOnFail then res.(outcome := Unknown) else res
  }

  function SharedCheck(rule: Rule, facts: Facts): Option<RuleResult> {
    match rule.field
    case KnownShop => SharedKnownShop(rule, facts)
    case FamiliarOnCard => SharedKnownShop(rule, facts)
    case ItemCategory =>
      if rule.op.In? then Some(CheckAllowedTypes(facts, ValuesOf(rule), rule.id))
      else if rule.op.NotIn? then Some(CheckBlockedTypes(facts, ValuesOf(rule), rule.id))
      else None
    case MerchantCategory =>
      if rule.op.Eq? || rule.op.In? then Some(CheckShopType(facts, ValuesOf(rule), rule.id)) else None
    case _ => None
  }

  function SharedKnownShop(rule: Rule, facts: Facts): Option<RuleResult> {
    if rule.op.Eq? && rule.value.Text? && Lower(rule.value.text) == "true"
    then Some(CheckKnownShop(facts, rule.id)) else None
  }

  /** Every value must meet the rule: any broken one fails, else any missing one is unknown. */
  function JudgeValues(rule: Rule, values: seq<FactValue>): RuleResult {
    var target := RuleValueChf(rule);
    if exists v :: v in values && v.Known? && !Compare(v.value, rule.op, target)
    then AskedIfBroken(rule, Failed(rule.id))
    else if NotKnown in values then Undecided(rule.id)
    else Passed(rule.id)
  }

  function EvaluateTypedRule(rule: Rule, facts: Facts, policy: Policy): RuleResult {
    var shared := SharedCheck(rule, facts);
    if shared.Some? then AskedIfBroken(rule, shared.value)
    else if IsLastPriceRule(rule) then Undecided(rule.id)
    else
      match FactsFor(rule.field, facts, policy)
      case None => Undecided(rule.id)
      case Some(values) => JudgeValues(rule, values)
  }

  /** The loop of `evaluate_typed_rule`: the broken values and the missing ones are collected. */
  method EvaluateByLoop(rule: Rule, facts: Facts, policy: Policy) returns (res: RuleResult)
    ensures res == EvaluateTypedRule(rule, facts, policy)
  {
    hide FactsFor, RuleValueChf, Compare;
    var shared := SharedCheck(rule, facts);
    if shared.Some? {
      return AskedIfBroken(rule, shared.value);
    }
    if IsLastPriceRule(rule) {
      return Undecided(rule.id);
    }
    var values := FactsFor(rule.field, facts, policy);
    if values.None? {
      return Undecided(rule.id);
    }
    var target := RuleValueChf(rule);
    var failing: seq<FactValue>, unknown: seq<FactValue> := [], [];
    for i := 0 to |values.value|
      invariant failing != [] <==> exists v :: v in values.value[..i] && v.Known? && !Compare(v.value, rule.op, target)
      invariant unknown != [] <==> NotKnown in values.value[..i]
    {
      var v := values.value[i];
      assert values.value[..i + 1] == values.value[..i] + [v];
      if !v.Known? {
        unknown := unknown + [v];
      } else if !Compare(v.value, rule.op, target) {
        failing := failing + [v];
      }
    }
    assert values.value[..|values.value|] == values.value;
    res := if failing != [] then AskedIfBroken(rule, Failed(rule.id)) else if unknown != [] then Undecided(rule.id) else Passed(rule.id);
  }

  /** A typed rule in force already covers the flag, so the flag's own check is not run. */
  predicate CoveredBy(rules: seq<Rule>, fields: set<Field>, ops: set<Operator>) {
    exists r :: r in rules && r.field in fields && r.op in ops
  }

  function Step1Results(facts: Facts, policy: Policy): seq<RuleResult> {
    [Judged("policy_status", policy.status.Active?),
     Judged("authority_status", facts.authorityActive),
     Judged("card_status", facts.cardActive)]
  }

  function TypedResults(rules: seq<Rule>, facts: Facts, p: Policy): (out: seq<RuleResult>)
    ensures forall r :: r in rules && !r.scope.PerPeriod? ==> EvaluateTypedRule(r, facts, p) in out
    ensures forall x :: x in out ==> exists r :: r in rules && !r.scope.PerPeriod? && x == EvaluateTypedRule(r, facts, p)
  {
    if rules == [] then []
    else
      var r := rules[|rules| - 1];
      assert rules == rules[..|rules| - 1] + [r];
      TypedResults(rules[..|rules| - 1], facts, p)
      + (if r.scope.PerPeriod? then [] else [EvaluateTypedRule(r, facts, p)])
  }

  function OneIf(run: bool, res: RuleResult): seq<RuleResult> { if run then [res] else [] }

  predicate AllowedStated(p: Policy) { p.allowed != [] && !CoveredBy(p.rules, {ItemCategory}, {In}) }
  predicate BlockedStated(p: Policy) { p.blocked != [] && !CoveredBy(p.rules, {ItemCategory}, {NotIn}) }
  predicate ShopTypeStated(p: Policy) { p.shopType.Some? && !CoveredBy(p.rules, {MerchantCategory}, {Eq, In}) }
  predicate KnownShopStated(p: Policy) { p.requiresKnownShop && !CoveredBy(p.rules, {FamiliarOnCard, KnownShop}, {Eq}) }

  function FlagResults(facts: Facts, p: Policy): seq<RuleResult> {
    OneIf(AllowedStated(p), CheckAllowedTypes(facts, p.allowed, "C3"))
    + OneIf(BlockedStated(p), CheckBlockedTypes(facts, p.blocked, "C4"))
    + OneIf(p.requestedItem.Some?, CheckRequestedItem(facts, p))
    + OneIf(ShopTypeStated(p), CheckShopType(facts, if p.shopType.Some? then [p.shopType.value] else [], "C8"))
    + OneIf(KnownShopStated(p), CheckKnownShop(facts, "C9"))
    + OneIf(p.nothingExtra, CheckNothingExtra(facts, p))
  }

  function EvaluateRules(facts: Facts, p: Policy): seq<RuleResult> {
    Step1Results(facts, p)
    + TypedResults(p.rules, facts, p)
    + FlagResults(facts, p)
  }

  /** The flags' own checks, added one by one to a growing list. */
  method AddFlagResults(typed: seq<RuleResult>, facts: Facts, p: Policy) returns (out: seq<RuleResult>)
    ensures out == typed + FlagResults(facts, p)
  {
    hide CheckAllowedTypes, CheckBlockedTypes, CheckRequestedItem, CheckShopType, CheckKnownShop, CheckNothingExtra, CoveredBy;
    ghost var shops := if p.shopType.Some? then [p.shopType.value] else [];
    ghost var parts := [
      OneIf(AllowedStated(p), CheckAllowedTypes(facts, p.allowed, "C3")), OneIf(BlockedStated(p), CheckBlockedTypes(facts, p.blocked, "C4")),
      OneIf(p.requestedItem.Some?, CheckRequestedItem(facts, p)), OneIf(ShopTypeStated(p), CheckShopType(facts, shops, "C8")),
      OneIf(KnownShopStated(p), CheckKnownShop(facts, "C9")), OneIf(p.nothingExtra, CheckNothingExtra(facts, p))];
    out := typed;
    if p.allowed != [] && !CoveredBy(p.rules, {ItemCategory}, {In}) {
      out := out + [CheckAllowedTypes(facts, p.allowed, "C3")];
    }
    assert out == typed + parts[0];
    if p.blocked != [] && !CoveredBy(p.rules, {ItemCategory}, {NotIn}) {
      out := out + [CheckBlockedTypes(facts, p.blocked, "C4")];
    }
    assert out == typed + parts[0] + parts[1];
    if p.requestedItem.Some? {
      out := out + [CheckRequestedItem(facts, p)];
    }
    assert out == typed + parts[0] + parts[1] + parts[2];
    if p.shopType.Some? && !CoveredBy(p.rules, {MerchantCategory}, {Eq, In}) {
      out := out + [CheckShopType(facts, [p.shopType.value], "C8")];
    }
    assert out == typed + parts[0] + parts[1] + parts[2] + parts[3];
    if p.requiresKnownShop && !CoveredBy(p.rules, {FamiliarOnCard, KnownShop}, {Eq}) {
      out := out + [CheckKnownShop(facts, "C9")];
    }
    assert out == typed + parts[0] + parts[1] + parts[2] + parts[3] + parts[4];
    if p.nothingExtra {
      out := out + [CheckNothingExtra(facts, p)];
    }
    Regroup(typed, parts[0], parts[1], parts[2], parts[3], parts[4], parts[5]);
  }

  lemma Regroup<T>(s: seq<T>, a: seq<T>, b: seq<T>, c: seq<T>, d: seq<T>, e: seq<T>, f: seq<T>)
    ensures s + a + b + c + d + e + f == s + (a + b + c + d + e + f)
  {
  }

  lemma TypedNext(rules: seq<Rule>, i: nat, facts: Facts, p: Policy)
    requires i < |rules|
    ensures TypedResults(rules[..i + 1], facts, p)
         == TypedResults(rules[..i], facts, p) + (if rules[i].scope.PerPeriod? then [] else [EvaluateTypedRule(rules[i], facts, p)])
  {
    assert rules[..i + 1][..i] == rules[..i];
  }

  lemma NoTyped(facts: Facts, p: Policy)
    ensures TypedResults([], facts, p) == []
  {
  }

  /** `evaluate_rules` as the source runs it: one growing list. */
  method BuildRuleResults(facts: Facts, p: Policy) returns (out: seq<RuleResult>)
    ensures out == EvaluateRules(facts, p)
  {
    hide EvaluateTypedRule, FlagResults, TypedResults, Step1Results;
    out := Step1Results(facts, p);
    ghost var step1 := out;
    NoTyped(facts, p);
    for i := 0 to |p.rules|
      invariant out == step1 + TypedResults(p.rules[..i], facts, p)
    {
      TypedNext(p.rules, i, facts, p);
      if !p.rules[i].scope.PerPeriod? {
        var res := EvaluateByLoop(p.rules[i], facts, p);
        out := out + [res];
      }
    }
    assert p.rules[..|p.rules|] == p.rules;
    out := AddFlagResults(out, facts, p);
  }

  // --- Results that need the ledger ---------------------------------------------------

  /** C2 for one period rule: spent + reserved + this purchase against the limit (M4, M5). */
  function EvaluatePeriodRule(rule: Rule, amount: int, spent: int, reserved: int): RuleResult {
    var limit := RuleValueChf(rule);
    if Compare(NumAtom(spent + reserved + amount), rule.op, limit) then Passed(rule.id)
    else if Compare(NumAtom(spent + amount), rule.op, limit)
    then RuleResult(rule.id, Fail, ReservationOnly, true)
    else Failed(rule.id)
  }

  /** How many purchases a count rule allows in its window, or None if it is not a cap. */
  function AllowedCount(rule: Rule): Option<int> {
    if !rule.value.Num? || rule.value.hundredths % 100 != 0 || !(rule.op.Lt? || rule.op.Le?) then None
    else
      var n := rule.value.hundredths / 100;
      var cap := if rule.op.Le? then n else n - 1;
      Some(if cap < 0 then 0 else cap)
  }

  predicate HasWindow(rule: Rule) { rule.periodDays.Some? && rule.periodDays.value > 0 }

  function EvaluateCountRule(rule: Rule, view: LedgerView): RuleResult {
    var allowed := AllowedCount(rule);
    if allowed.None? || view.periodCount.None? || !HasWindow(rule) then Undecided(rule.id)
    else
      var counted := view.periodCount.value;
      var approved := counted - view.periodReservedCount;
      if counted + 1 <= allowed.value then Passed(rule.id)
      else if approved + 1 <= allowed.value then RuleResult(rule.id, Fail, ReservationOnly, true)
      else RuleResult(rule.id, Fail, Plain, allowed.value != 0)
  }

  /** The view covers one window; a rule with another one is unknown, never a pass. */
  predicate InView(rule: Rule, facts: Facts, view: LedgerView) {
    HasWindow(rule) && facts.ts - view.periodWindowStart == rule.periodDays.value * DAY
  }

  function PeriodResult(rule: Rule, facts: Facts, view: LedgerView): RuleResult {
    if !InView(rule, facts, view) then Undecided(rule.id)
    else if rule.field.PurchasesInPeriod? then EvaluateCountRule(rule, view)
    else EvaluatePeriodRule(rule, facts.amount, view.periodSpent, view.periodReserved)
  }

  function EvaluateLastPriceRule(rule: Rule, amount: int, last: Option<int>): RuleResult {
    match last
    case None => Undecided(rule.id)
    case Some(price) =>
      if Compare(NumAtom(amount), rule.op, Num(price)) then Passed(rule.id)
      else AskedIfBroken(rule, Failed(rule.id))
  }

  function RuleById(rules: seq<Rule>, id: string): (r: Option<Rule>)
    ensures r.None? <==> forall x :: x in rules ==> x.id != id
    ensures r.Some? ==> r.value in rules && r.value.id == id
  {
    if rules == [] then None
    else if rules[|rules| - 1].id == id then Some(rules[|rules| - 1])
    else
      assert rules == rules[..|rules| - 1] + [rules[|rules| - 1]];
      RuleById(rules[..|rules| - 1], id)
  }

  predicate ChecksKnownShop(id: string, rule: Option<Rule>) {
    match rule
    case Some(r) => r.field.KnownShop? || r.field.FamiliarOnCard?
    case None => id == "C9"
  }

  /** No data can check the rule's field, so only a remembered answer can pass it. */
  predicate IsUnverifiable(rule: Rule) {
    rule.field.Unverifiable? || rule.field.OtherField? || rule.field.PurchasesInPeriod?
  }

  function KnownShopWithLedger(res: RuleResult, facts: Facts, view: LedgerView): RuleResult {
    if res.outcome.Pass? then res
    else
      var r := if view.knownMerchants == {} then RuleResult(res.ruleId, Unknown, NoHistory, true) else res;
      if r.outcome.Unknown? && ShopKey(r.ruleId, facts.merchantId) in view.confirmedKeys
      then RuleResult(r.ruleId, Pass, Confirmed, false) else r
  }

  /** Every item of the cart is in a remembered answer to this rule at this shop. */
  predicate RememberedFor(ruleId: string, facts: Facts, keys: set<string>) {
    keys != {} && forall ln :: ln in facts.items ==> ConfirmationKey(ruleId, facts.merchantId, ln.itemId) in keys
  }

  function WithLedger(res: RuleResult, facts: Facts, rules: seq<Rule>, view: LedgerView): RuleResult {
    var rule := RuleById(rules, res.ruleId);
    if ChecksKnownShop(res.ruleId, rule) then KnownShopWithLedger(res, facts, view)
    else if rule.Some? && IsLastPriceRule(rule.value) then
      EvaluateLastPriceRule(rule.value, facts.amount,
        if facts.merchantId in view.lastPrice then Some(view.lastPrice[facts.merchantId]) else None)
    else if res.outcome.Unknown? && rule.Some? && IsUnverifiable(rule.value)
            && RememberedFor(rule.value.id, facts, view.confirmedKeys)
    then RuleResult(res.ruleId, Pass, Confirmed, false)
    else res
  }

  function LedgerChecked(results: seq<RuleResult>, facts: Facts, rules: seq<Rule>, view: LedgerView): (out: seq<RuleResult>)
    ensures forall res :: res in results ==> WithLedger(res, facts, rules, view) in out
    ensures forall x :: x in out ==> exists res :: res in results && x == WithLedger(res, facts, rules, view)
  {
    if results == [] then []
    else
      var last := results[|results| - 1];
      assert results == results[..|results| - 1] + [last];
      LedgerChecked(results[..|results| - 1], facts, rules, view) + [WithLedger(last, facts, rules, view)]
  }

  function PeriodResults(rules: seq<Rule>, facts: Facts, view: LedgerView): (out: seq<RuleResult>)
    ensures forall r :: r in rules && r.scope.PerPeriod? ==> PeriodResult(r, facts, view) in out
    ensures forall x :: x in out ==> exists r :: r in rules && r.scope.PerPeriod? && x == PeriodResult(r, facts, view)
  {
    if rules == [] then []
    else
      var r := rules[|rules| - 1];
      assert rules == rules[..|rules| - 1] + [r];
      PeriodResults(rules[..|rules| - 1], facts, view)
      + (if r.scope.PerPeriod? then [PeriodResult(r, facts, view)] else [])
  }

  function AddLedgerResults(results: seq<RuleResult>, facts: Facts, p: Policy, view: LedgerView): seq<RuleResult> {
    LedgerChecked(results, facts, p.rules, view) + PeriodResults(p.rules, facts, view)
  }

  lemma CheckedNext(results: seq<RuleResult>, i: nat, facts: Facts, rules: seq<Rule>, view: LedgerView)
    requires i < |results|
    ensures LedgerChecked(results[..i + 1], facts, rules, view)
         == LedgerChecked(results[..i], facts, rules, view) + [WithLedger(results[i], facts, rules, view)]
  {
    assert results[..i + 1][..i] == results[..i];
  }

  lemma PeriodNext(rules: seq<Rule>, i: nat, facts: Facts, view: LedgerView)
    requires i < |rules|
    ensures PeriodResults(rules[..i + 1], facts, view)
         == PeriodResults(rules[..i], facts, view) + (if rules[i].scope.PerPeriod? then [PeriodResult(rules[i], facts, view)] else [])
  {
    assert rules[..i + 1][..i] == rules[..i];
  }

  /** Before the first round of each loop. */
  lemma NoneYet(facts: Facts, p: Policy, view: LedgerView)
    ensures LedgerChecked([], facts, p.rules, view) == [] && PeriodResults([], facts, view) == []
  {
  }

  /** `add_ledger_results` as the source runs it: two loops over one growing list. */
  method BuildLedgerResults(results: seq<RuleResult>, facts: Facts, p: Policy, view: LedgerView)
    returns (out: seq<RuleResult>)
    ensures out == AddLedgerResults(results, facts, p, view)
  {
    hide WithLedger, PeriodResult, LedgerChecked, PeriodResults;
    out := [];
    NoneYet(facts, p, view);
    for i := 0 to |results|
      invariant out == LedgerChecked(results[..i], facts, p.rules, view)
    {
      CheckedNext(results, i, facts, p.rules, view);
      out := out + [WithLedger(results[i], facts, p.rules, view)];
    }
    assert results[..|results|] == results;
    ghost var checked := out;
    for i := 0 to |p.rules|
      invariant out == checked + PeriodResults(p.rules[..i], facts, view)
    {
      PeriodNext(p.rules, i, facts, view);
      if p.rules[i].scope.PerPeriod? {
        out := out + [PeriodResult(p.rules[i], facts, view)];
      }
    }
    assert p.rules[..|p.rules|] == p.rules;
  }
}
