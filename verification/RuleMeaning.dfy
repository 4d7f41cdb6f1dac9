/** What each typed rule says about a purchase, read off its lines, its shop and its terms
    (backend/oneguard/engine/policy.py:187-277, 382-485): when a rule is broken, when it cannot be
    told, and that the evaluator's result is exactly that. */
module RuleMeaning {
  import opened Seqs
  import opened Types
  import opened Ledger
  import opened PolicyRules

  // --- Texts, numbers and money ---------------------------------------------------------------------

  predicate SameLetter(c: char, d: char) {
    || c == d
    || ('A' <= c <= 'Z' && d as int == c as int + 32)
    || ('A' <= d <= 'Z' && c as int == d as int + 32)
  }

  /** The same text up to case. */
  predicate SameText(a: string, b: string) {
    |a| == |b| && forall i :: 0 <= i < |a| ==> SameLetter(a[i], b[i])
  }

  lemma LowerLetters(c: char, d: char)
    ensures LowerChar(c) == LowerChar(d) <==> SameLetter(c, d)
  {
  }

  lemma LowerSame(a: string, b: string)
    ensures Lower(a) == Lower(b) <==> SameText(a, b)
  {
    hide SameLetter, LowerChar;
    if |a| == |b| {
      forall i | 0 <= i < |a| ensures Lower(a)[i] == Lower(b)[i] <==> SameLetter(a[i], b[i]) { LowerLetters(a[i], b[i]); }
    }
  }

  /** a comes before b in the order of texts: at the first place where they part, a has ended or
      has the smaller character. */
  ghost predicate ComesBefore(a: string, b: string) {
    exists k :: PartAt(a, b, k) && k < |b| && (k == |a| || a[k] < b[k])
  }

  predicate PartAt(a: string, b: string, k: int) { 0 <= k <= |a| && k <= |b| && a[..k] == b[..k] }

  lemma {:induction false} LessIsBefore(a: string, b: string)
    ensures StrLess(a, b) <==> ComesBefore(a, b)
  {
    if a == "" || b == "" {
      assert PartAt(a, b, 0);
    } else {
      LessIsBefore(a[1..], b[1..]);
      assert PartAt(a, b, 0);
      if ComesBefore(a[1..], b[1..]) && a[0] == b[0] {
        var k :| PartAt(a[1..], b[1..], k) && k < |b| - 1 && (k == |a| - 1 || a[1..][k] < b[1..][k]);
        assert a[..k + 1] == [a[0]] + a[1..][..k] && b[..k + 1] == [b[0]] + b[1..][..k];
        assert PartAt(a, b, k + 1);
      }
      if ComesBefore(a, b) && !(a[0] < b[0]) {
        var k :| PartAt(a, b, k) && k < |b| && (k == |a| || a[k] < b[k]);
        assert k > 0 && a[..k][0] == b[..k][0];
        assert a[1..][..k - 1] == a[..k][1..] && b[1..][..k - 1] == b[..k][1..];
        assert PartAt(a[1..], b[1..], k - 1);
      }
    }
  }

  // --- A number as text reads back ---------------------------------------------------------------------

  ghost function DigitOf(c: char): int { c as int - '0' as int }

  ghost function ReadDigits(s: string): int { if s == "" then 0 else 10 * ReadDigits(s[..|s| - 1]) + DigitOf(s[|s| - 1]) }

  /** The hundredths a decimal numeral with at most two places stands for. */
  ghost function ReadNumber(s: string): int {
    if s != "" && s[0] == '-' then -ReadPlain(s[1..]) else ReadPlain(s)
  }

  ghost function ReadPlain(s: string): int {
    if |s| > 2 && s[|s| - 2] == '.' then 100 * ReadDigits(s[..|s| - 2]) + 10 * ReadDigits(s[|s| - 1..])
    else if |s| > 3 && s[|s| - 3] == '.' then 100 * ReadDigits(s[..|s| - 3]) + ReadDigits(s[|s| - 2..])
    else 100 * ReadDigits(s)
  }

  lemma {:induction false} DigitsReadBack(n: nat)
    ensures ReadDigits(Numeral(n)) == n
  {
    assert DigitOf(DigitChar(n % 10)) == n % 10;
    if n < 10 {
      assert Numeral(n)[..0] == "";
    } else {
      DigitsReadBack(n / 10);
      assert Numeral(n)[..|Numeral(n)| - 1] == Numeral(n / 10);
    }
  }

  lemma NoPoint(n: nat)
    ensures forall i :: 0 <= i < |Numeral(n)| ==> Numeral(n)[i] != '.' && Numeral(n)[i] != '-'
  {
    forall i | 0 <= i < |Numeral(n)| ensures Numeral(n)[i] != '.' && Numeral(n)[i] != '-' { assert Numeral(n)[i] in Numeral(n); }
  }

  lemma OnePlace(whole: string, rest: string)
    requires |rest| == 1 && whole != ""
    ensures ReadPlain(whole + "." + rest) == 100 * ReadDigits(whole) + 10 * ReadDigits(rest)
  {
    hide ReadDigits;
    var s := whole + "." + rest;
    assert s[..|s| - 2] == whole && s[|s| - 1..] == rest && s[|s| - 2] == '.';
  }

  lemma TwoPlaces(whole: string, rest: string)
    requires |rest| == 2 && whole != "" && rest[0] != '.'
    ensures ReadPlain(whole + "." + rest) == 100 * ReadDigits(whole) + ReadDigits(rest)
  {
    hide ReadDigits;
    var s := whole + "." + rest;
    assert s[..|s| - 3] == whole && s[|s| - 2..] == rest && s[|s| - 3] == '.' && s[|s| - 2] == rest[0];
  }

  lemma NoPlaces(n: nat)
    ensures ReadPlain(Numeral(n)) == 100 * n
  {
    hide ReadDigits, Numeral;
    DigitsReadBack(n);
    NoPoint(n);
  }

  lemma OneDigit(n: nat)
    requires n < 10
    ensures |Numeral(n)| == 1
  {
  }

  lemma PlainReadsBack(h: nat)
    ensures ReadPlain(NumText(h)) == h && NumText(h) != "" && NumText(h)[0] != '-'
  {
    hide ReadDigits, ReadPlain, Numeral;
    var whole := Numeral(h / 100);
    DigitsReadBack(h / 100);
    NoPoint(h / 100);
    if h % 100 == 0 {
      NoPlaces(h / 100);
    } else if h % 10 == 0 {
      DigitsReadBack(h % 100 / 10);
      OneDigit(h % 100 / 10);
      OnePlace(whole, Numeral(h % 100 / 10));
    } else {
      TwoDigits(h % 100);
      var zero := if h % 100 < 10 then "0" else "";
      TwoPlaces(whole, zero + Numeral(h % 100));
      assert whole + "." + zero + Numeral(h % 100) == whole + "." + (zero + Numeral(h % 100));
    }
  }

  lemma TwoDigits(n: nat)
    requires n < 100
    ensures
      var s := (if n < 10 then "0" else "") + Numeral(n);
      |s| == 2 && ReadDigits(s) == n && s[0] != '.' && s[1] != '.'
  {
    var s := (if n < 10 then "0" else "") + Numeral(n);
    DigitsReadBack(n);
    NoPoint(n);
    if n < 10 {
      assert s[..1] == "0" && "0"[..0] == "" && s[1] == Numeral(n)[0];
      assert ReadDigits("0") == 0;
      assert Numeral(n)[..0] == "";
    } else {
      assert |Numeral(n / 10)| == 1;
      assert s == Numeral(n);
    }
  }

  /** The text of a rule's number stands for that number. */
  lemma NumberReadsBack(h: int)
    ensures ReadNumber(NumText(h)) == h
  {
    hide ReadPlain, Numeral;
    if h < 0 {
      PlainReadsBack(-h);
      assert NumText(h)[1..] == NumText(-h);
    } else {
      PlainReadsBack(h);
    }
  }

  /** r is h hundredths of the currency in cents, at a rate in hundredths: the nearest, ties to even. */
  predicate IsInFrancs(r: int, h: int, rate: int) {
    && -50 <= 100 * r - h * rate <= 50
    && (100 * r - h * rate == 50 || 100 * r - h * rate == -50 ==> r % 2 == 0)
  }

  lemma RoundsHalfEven(n: int)
    ensures var r := RoundHalfEven(n, 100); -50 <= 100 * r - n <= 50 && (100 * r - n == 50 || 100 * r - n == -50 ==> r % 2 == 0)
  {
  }

  /** A limit on money stated in another currency. */
  predicate IsForeign(r: Rule) {
    (r.field.BillingAmount? || r.field.UnitPrice?) && r.value.Num? && r.currency.Some? && !r.currency.value.CHF?
  }

  /** T4: a euro is 0.95, a pound 1.12 and a dollar 0.87 francs; only money limits are converted. */
  lemma LimitInFrancs(r: Rule)
    ensures !IsForeign(r) ==> RuleValueChf(r) == r.value
    ensures IsForeign(r) ==> RuleValueChf(r).Num?
    ensures IsForeign(r) && r.currency.value.EUR? ==> IsInFrancs(RuleValueChf(r).hundredths, r.value.hundredths, 95)
    ensures IsForeign(r) && r.currency.value.GBP? ==> IsInFrancs(RuleValueChf(r).hundredths, r.value.hundredths, 112)
    ensures IsForeign(r) && r.currency.value.USD? ==> IsInFrancs(RuleValueChf(r).hundredths, r.value.hundredths, 87)
  {
    if IsForeign(r) { RoundsHalfEven(r.value.hundredths * Rate(r.currency.value)); }
  }

  predicate Ordered(x: int, op: Operator, y: int) {
    && (op.Lt? ==> x < y) && (op.Le? ==> x <= y) && (op.Gt? ==> x > y) && (op.Ge? ==> x >= y)
    && (op.Eq? || op.In? ==> x == y) && (op.Ne? || op.NotIn? ==> x != y)
  }

  /** A number meets a rule that states one. */
  predicate NumberMeets(x: int, r: Rule) {
    match RuleValueChf(r)
    case Num(limit) => Ordered(x, r.op, limit)
    case other => Compare(NumAtom(x), r.op, other)
  }

  /** A text meets a rule that states one, or a list of them. */
  ghost predicate TextMeets(t: string, r: Rule) {
    match r.value
    case Text(w) =>
      && (r.op.Eq? || r.op.In? ==> SameText(t, w)) && (r.op.Ne? || r.op.NotIn? ==> !SameText(t, w))
      && (r.op.Lt? ==> ComesBefore(Lower(t), Lower(w))) && (r.op.Gt? ==> ComesBefore(Lower(w), Lower(t)))
      && (r.op.Le? ==> SameText(t, w) || ComesBefore(Lower(t), Lower(w)))
      && (r.op.Ge? ==> SameText(t, w) || ComesBefore(Lower(w), Lower(t)))
    case Names(names) =>
      if r.op.In? then exists n :: n in names && SameText(t, n)
      else r.op.NotIn? && forall n :: n in names ==> !SameText(t, n)
    case Num(_) => Compare(TextAtom(t), r.op, RuleValueChf(r))
  }

  ghost predicate AtomMeets(a: Atom, r: Rule) {
    match a
    case NumAtom(x) => NumberMeets(x, r)
    case TextAtom(t) => TextMeets(t, r)
    case BoolAtom(b) => TextMeets(if b then "true" else "false", r)
  }

  lemma CompareMeets(a: Atom, r: Rule)
    ensures Compare(a, r.op, RuleValueChf(r)) <==> AtomMeets(a, r)
  {
    if a.NumAtom? {
      assert Compare(a, r.op, RuleValueChf(r)) <==> NumberMeets(a.hundredths, r);
    } else {
      hide RuleValueChf, StrLess, ComesBefore, SameText, Lower;
      LimitInFrancs(r);
      TextCompares(AtomText(a), r);
      assert Compare(a, r.op, RuleValueChf(r)) <==> Compare(TextAtom(AtomText(a)), r.op, RuleValueChf(r));
    }
  }

  lemma TextCompares(t: string, r: Rule)
    ensures !r.value.Num? ==> (Compare(TextAtom(t), r.op, r.value) <==> TextMeets(t, r))
  {
    hide StrLess, ComesBefore, SameText, Lower;
    match r.value
    case Text(w) =>
      LowerSame(t, w);
      LessIsBefore(Lower(t), Lower(w));
      LessIsBefore(Lower(w), Lower(t));
    case Names(names) => forall n | n in names ensures Lower(t) == Lower(n) <==> SameText(t, n) { LowerSame(t, n); }
    case Num(_) =>
  }

  // --- What a rule finds in a purchase ----------------------------------------------------------------

  /** The line is the item asked for, or none was: it has every word of the request. */
  predicate IsAsked(ln: Item, wanted: Option<Wanted>) {
    wanted.None? || (wanted.value.words != {} && wanted.value.words <= ln.words)
  }

  predicate IsRecurring(ln: Item) { ln.category in ["subscriptions", "membership"] || ln.recurring == Some(true) }

  function QuantityAsked(items: seq<Item>, wanted: Option<Wanted>): int {
    if items == [] then 0
    else QuantityAsked(items[..|items| - 1], wanted) + (if IsAsked(items[|items| - 1], wanted) then items[|items| - 1].quantity else 0)
  }

  ghost predicate FactBreaks(v: FactValue, r: Rule) { v.Known? && !AtomMeets(v.value, r) }

  /** The line states the shortest return window of the order, and no line contradicts itself. */
  ghost predicate SetsWindow(ln: Item, items: seq<Item>) {
    && ln in items && ln.window.Stated?
    && forall x :: x in items ==> !x.window.Contradictory? && (x.window.Stated? ==> ln.window.days <= x.window.days)
  }

  ghost predicate HasWord(names: seq<string>, word: string) { exists n :: n in names && SameText(n, word) }

  function YesNo(b: bool): string { if b then "true" else "false" }

  /** Something in the purchase breaks the rule. */
  ghost predicate Violates(r: Rule, facts: Facts, wanted: Option<Wanted>) {
    match r.field
    case BillingAmount => !NumberMeets(facts.amount, r)
    case UnitPrice => exists ln :: ln in facts.items && !NumberMeets(ln.unitPrice, r)
    case LineQuantity => exists ln :: ln in facts.items && !NumberMeets(100 * ln.quantity, r)
    case CartQuantity => !NumberMeets(100 * QuantityAsked(facts.items, wanted), r)
    case ItemCategory =>
      if r.op.In? then exists ln :: ln in facts.items && !HasWord(ValuesOf(r), ln.category)
      else if r.op.NotIn? then exists ln :: ln in facts.items && HasWord(ValuesOf(r), ln.category)
      else exists ln :: ln in facts.items && !TextMeets(ln.category, r)
    case ContainsAlcohol => exists ln :: ln in facts.items && FactBreaks(ln.alcohol, r)
    case SizeEu => exists ln :: ln in facts.items && IsAsked(ln, wanted) && FactBreaks(ln.sizeEu, r)
    case SizeLetter => exists ln :: ln in facts.items && IsAsked(ln, wanted) && FactBreaks(ln.sizeLetter, r)
    case ReturnWindow =>
      if facts.returnable.TermFalse? then !NumberMeets(0, r)
      else exists ln :: SetsWindow(ln, facts.items) && !NumberMeets(100 * ln.window.days, r)
    case Returnable => TermBreaks(facts.returnable, r)
    case Cancellable => TermBreaks(facts.cancellable, r)
    case MerchantCategory =>
      if r.op.Eq? || r.op.In? then !HasWord(ValuesOf(r), facts.merchantCategory) else !TextMeets(facts.merchantCategory, r)
    case MerchantCountry => !TextMeets(facts.merchantCountry, r)
    case MerchantCity => facts.merchantCity.Some? && !TextMeets(facts.merchantCity.value, r)
    case KnownShop => !TextMeets(YesNo(facts.merchantKnown), r)
    case FamiliarOnCard => !TextMeets(YesNo(facts.merchantKnown), r)
    case CartRecurring => !TextMeets(YesNo(exists ln :: ln in facts.items && IsRecurring(ln)), r)
    case DeliveryBy => facts.deliveryBy.Some? && !TextMeets(facts.deliveryBy.value, r)
    case Weekday => !TextMeets(facts.weekday, r)
    case LocalHour => !NumberMeets(100 * facts.hour, r)
    case _ => false
  }

  ghost predicate TermBreaks(term: OrderTerm, r: Rule) {
    (term.TermTrue? && !TextMeets("true", r)) || (term.TermFalse? && !TextMeets("false", r))
  }

  /** The purchase leaves open what the rule asks about, or no data can tell. */
  ghost predicate LeavesOpen(r: Rule, facts: Facts, wanted: Option<Wanted>) {
    match r.field
    case UnitPrice => facts.items == []
    case LineQuantity => facts.items == []
    case ItemCategory => facts.items == [] && !r.op.In? && !r.op.NotIn?
    case ContainsAlcohol => facts.items == [] || exists ln :: ln in facts.items && ln.alcohol.NotKnown?
    case SizeEu =>
      || (forall ln :: ln in facts.items ==> !IsAsked(ln, wanted))
      || (exists ln :: ln in facts.items && IsAsked(ln, wanted) && ln.sizeEu.NotKnown?)
    case SizeLetter =>
      || (forall ln :: ln in facts.items ==> !IsAsked(ln, wanted))
      || (exists ln :: ln in facts.items && IsAsked(ln, wanted) && ln.sizeLetter.NotKnown?)
    case ReturnWindow => !facts.returnable.TermFalse? && forall ln :: !SetsWindow(ln, facts.items)
    case Returnable => !facts.returnable.TermTrue? && !facts.returnable.TermFalse?
    case Cancellable => !facts.cancellable.TermTrue? && !facts.cancellable.TermFalse?
    case MerchantCity => facts.merchantCity.None?
    case DeliveryBy => facts.deliveryBy.None?
    case PurchasesInPeriod => true
    case Unverifiable => true
    case OtherField(_) => true
    case _ => false
  }

  // --- The evaluator finds exactly that -----------------------------------------------------------------

  lemma AskedLines(facts: Facts, p: Policy)
    ensures forall ln :: ln in RequestedLines(facts, p) <==> ln in facts.items && IsAsked(ln, p.requestedItem)
  {
  }

  lemma {:induction false} AskedQuantity(items: seq<Item>, w: Wanted)
    ensures SumBy(Filter(items, (ln: Item) => MatchesRequested(ln, w)), Quantity) == QuantityAsked(items, Some(w))
  {
    if items != [] {
      var init, last := items[..|items| - 1], items[|items| - 1];
      AskedQuantity(init, w);
      if MatchesRequested(last, w) { SumAppend(Filter(init, (ln: Item) => MatchesRequested(ln, w)), last, Quantity); }
    }
  }

  lemma {:induction false} WholeQuantity(items: seq<Item>)
    ensures SumBy(items, Quantity) == QuantityAsked(items, None)
  {
    if items != [] { WholeQuantity(items[..|items| - 1]); }
  }

  lemma CartQuantityIs(facts: Facts, p: Policy)
    ensures SumBy(RequestedLines(facts, p), Quantity) == QuantityAsked(facts.items, p.requestedItem)
  {
    match p.requestedItem
    case None => WholeQuantity(facts.items);
    case Some(w) => AskedQuantity(facts.items, w);
  }

  lemma WindowIs(facts: Facts)
    requires !facts.returnable.TermFalse?
    ensures OrderWindow(facts).NotKnown? <==> forall ln :: !SetsWindow(ln, facts.items)
    ensures forall ln :: SetsWindow(ln, facts.items) ==> OrderWindow(facts) == Known(NumAtom(100 * ln.window.days))
  {
    if OrderWindow(facts).Known? {
      var days := StrictestWindow(facts.items).value;
      var ln :| ln in facts.items && ln.window == Stated(days);
      assert SetsWindow(ln, facts.items);
    }
  }

  /** How a list of values is judged. */
  lemma JudgedBy(r: Rule, values: seq<FactValue>)
    ensures JudgeValues(r, values) ==
      if exists v :: v in values && FactBreaks(v, r) then AskedIfBroken(r, Failed(r.id))
      else if NotKnown in values then Undecided(r.id) else Passed(r.id)
  {
    hide Compare, AtomMeets;
    forall v | v in values && v.Known? ensures Compare(v.value, r.op, RuleValueChf(r)) <==> AtomMeets(v.value, r) { CompareMeets(v.value, r); }
  }

  lemma OneValue(r: Rule, v: FactValue)
    ensures JudgeValues(r, [v]) == if FactBreaks(v, r) then AskedIfBroken(r, Failed(r.id)) else if v.NotKnown? then Undecided(r.id) else Passed(r.id)
  {
    hide JudgeValues, FactBreaks;
    JudgedBy(r, [v]);
    assert [v][0] == v;
  }

  lemma PerLineMembers(lines: seq<Item>, f: Item -> FactValue, v: FactValue)
    ensures v in PerLine(lines, f) <==> (lines == [] && v.NotKnown?) || exists ln :: ln in lines && f(ln) == v
  {
    if lines != [] {
      if ln :| ln in lines && f(ln) == v {
        var i :| 0 <= i < |lines| && lines[i] == ln;
        assert PerLine(lines, f)[i] == v;
      }
      if v in PerLine(lines, f) {
        var i :| 0 <= i < |lines| && PerLine(lines, f)[i] == v;
        assert lines[i] in lines;
      }
    }
  }

  lemma LineValues(r: Rule, lines: seq<Item>, f: Item -> FactValue)
    ensures JudgeValues(r, PerLine(lines, f)) ==
      if exists ln :: ln in lines && FactBreaks(f(ln), r) then AskedIfBroken(r, Failed(r.id))
      else if lines == [] || exists ln :: ln in lines && f(ln).NotKnown? then Undecided(r.id) else Passed(r.id)
  {
    hide JudgeValues, PerLine, AtomMeets;
    JudgedBy(r, PerLine(lines, f));
    forall v ensures v in PerLine(lines, f) <==> (lines == [] && v.NotKnown?) || exists ln :: ln in lines && f(ln) == v { PerLineMembers(lines, f, v); }
  }

  /** The result of a rule that finds this: a broken rule fails, or is left to the customer where it
      asks; one that leaves something open is unknown. */
  predicate IsFinding(res: RuleResult, r: Rule, broken: bool, open: bool) {
    && res.ruleId == r.id && res.mark.Plain? && res.explains == broken
    && (res.outcome.Fail? <==> broken && !r.asksOnFail)
    && (res.outcome.Pass? <==> !broken && !open)
  }

  lemma OneFinds(r: Rule, v: FactValue)
    ensures IsFinding(JudgeValues(r, [v]), r, FactBreaks(v, r), v.NotKnown?)
  {
    hide JudgeValues, FactBreaks;
    OneValue(r, v);
  }

  lemma LinesFind(r: Rule, lines: seq<Item>, f: Item -> FactValue)
    ensures IsFinding(JudgeValues(r, PerLine(lines, f)), r, exists ln :: ln in lines && FactBreaks(f(ln), r),
                      lines == [] || exists ln :: ln in lines && f(ln).NotKnown?)
  {
    hide JudgeValues, FactBreaks, PerLine;
    LineValues(r, lines, f);
  }

  lemma InWords(category: string, names: seq<string>)
    ensures InCategories(category, names) <==> HasWord(names, category)
  {
    hide SameText, Lower;
    forall n | n in names ensures Lower(n) == Lower(category) <==> SameText(n, category) { LowerSame(n, category); }
  }

  predicate IsShared(r: Rule) {
    || (r.field.ItemCategory? && (r.op.In? || r.op.NotIn?))
    || (r.field.MerchantCategory? && (r.op.Eq? || r.op.In?))
  }

  lemma SharedFinds(r: Rule, facts: Facts, p: Policy)
    requires IsShared(r)
    ensures IsFinding(EvaluateTypedRule(r, facts, p), r, Violates(r, facts, p.requestedItem), LeavesOpen(r, facts, p.requestedItem))
  {
    hide InCategories, HasWord;
    InWords(facts.merchantCategory, ValuesOf(r));
    forall ln | ln in facts.items ensures InCategories(ln.category, ValuesOf(r)) <==> HasWord(ValuesOf(r), ln.category) {
      InWords(ln.category, ValuesOf(r));
    }
  }

  predicate ReadsLines(f: Field) {
    f.UnitPrice? || f.LineQuantity? || f.ItemCategory? || f.ContainsAlcohol? || f.SizeEu? || f.SizeLetter?
  }

  lemma LineRuleFinds(r: Rule, facts: Facts, p: Policy)
    requires ReadsLines(r.field) && !IsShared(r)
    ensures IsFinding(EvaluateTypedRule(r, facts, p), r, Violates(r, facts, p.requestedItem), LeavesOpen(r, facts, p.requestedItem))
  {
    hide JudgeValues, PerLine, NumberMeets, TextMeets, RequestedLines;
    AskedLines(facts, p);
    match r.field
    case UnitPrice => LinesFind(r, facts.items, (ln: Item) => Known(NumAtom(ln.unitPrice)));
    case LineQuantity => LinesFind(r, facts.items, (ln: Item) => Known(NumAtom(100 * ln.quantity)));
    case ItemCategory => LinesFind(r, facts.items, (ln: Item) => Known(TextAtom(ln.category)));
    case ContainsAlcohol => LinesFind(r, facts.items, (ln: Item) => ln.alcohol);
    case SizeEu =>
      LinesFind(r, RequestedLines(facts, p), (ln: Item) => ln.sizeEu);
      NoneAsked(facts, p);
    case SizeLetter =>
      LinesFind(r, RequestedLines(facts, p), (ln: Item) => ln.sizeLetter);
      NoneAsked(facts, p);
    case _ =>
  }

  lemma NoneAsked(facts: Facts, p: Policy)
    ensures RequestedLines(facts, p) == [] <==> forall ln :: ln in facts.items ==> !IsAsked(ln, p.requestedItem)
  {
    AskedLines(facts, p);
    var asked := RequestedLines(facts, p);
    if asked != [] { assert asked[0] in asked; }
  }

  lemma KnownShopFinds(r: Rule, facts: Facts, p: Policy)
    requires r.field.KnownShop? || r.field.FamiliarOnCard?
    ensures IsFinding(EvaluateTypedRule(r, facts, p), r, Violates(r, facts, p.requestedItem), LeavesOpen(r, facts, p.requestedItem))
  {
    hide JudgeValues, SameText, Lower, Compare;
    OneFinds(r, Known(TextAtom(YesNo(facts.merchantKnown))));
    if r.op.Eq? && r.value.Text? {
      TrueIsLower();
      LowerSame(r.value.text, "true");
      LowerSame("true", r.value.text);
      LowerSame("false", r.value.text);
    }
  }

  lemma TrueIsLower()
    ensures Lower("true") == "true" && Lower("false") == "false" && "true" != "false"
  {
    assert |"true"| != |"false"|;
  }

  predicate ReadsOne(f: Field) {
    || f.BillingAmount? || f.MerchantCategory? || f.MerchantCountry? || f.MerchantCity? || f.ReturnWindow? || f.Returnable?
    || f.Cancellable? || f.DeliveryBy? || f.Weekday? || f.LocalHour? || f.CartQuantity? || f.CartRecurring?
  }

  lemma OneRuleFinds(r: Rule, facts: Facts, p: Policy)
    requires ReadsOne(r.field) && !IsShared(r) && !IsLastPriceRule(r)
    ensures IsFinding(EvaluateTypedRule(r, facts, p), r, Violates(r, facts, p.requestedItem), LeavesOpen(r, facts, p.requestedItem))
  {
    hide JudgeValues, NumberMeets, TextMeets, RequestedLines, OrderWindow, SumBy;
    var values := FactsFor(r.field, facts, p).value;
    assert |values| == 1 && values == [values[0]];
    OneFinds(r, values[0]);
    if r.field.CartQuantity? { CartQuantityIs(facts, p); }
    if r.field.ReturnWindow? && !facts.returnable.TermFalse? { WindowFinds(r, facts); }
    if r.field.ReturnWindow? && facts.returnable.TermFalse? { assert OrderWindow(facts) == Known(NumAtom(0)) by { NoReturns(facts); } }
    if r.field.CartRecurring? { RecurringIs(facts); }
  }

  lemma RecurringIs(facts: Facts)
    ensures (exists ln :: ln in facts.items && BillsRepeatedly(ln)) <==> exists ln :: ln in facts.items && IsRecurring(ln)
  {
    assert forall ln :: BillsRepeatedly(ln) <==> IsRecurring(ln);
  }

  lemma NoReturns(facts: Facts)
    requires facts.returnable.TermFalse?
    ensures OrderWindow(facts) == Known(NumAtom(0))
  {
  }

  lemma WindowFinds(r: Rule, facts: Facts)
    requires !facts.returnable.TermFalse? && r.field.ReturnWindow?
    ensures FactBreaks(OrderWindow(facts), r) <==> Violates(r, facts, None)
    ensures OrderWindow(facts).NotKnown? <==> LeavesOpen(r, facts, None)
  {
    hide OrderWindow, NumberMeets, SetsWindow;
    WindowIs(facts);
  }

  /** The evaluator's result on every rule but the last-price one, which the ledger settles. */
  lemma TypedFinds(r: Rule, facts: Facts, p: Policy)
    requires !IsLastPriceRule(r)
    ensures IsFinding(EvaluateTypedRule(r, facts, p), r, Violates(r, facts, p.requestedItem), LeavesOpen(r, facts, p.requestedItem))
  {
    if IsShared(r) {
      SharedFinds(r, facts, p);
    } else if ReadsLines(r.field) {
      LineRuleFinds(r, facts, p);
    } else if r.field.KnownShop? || r.field.FamiliarOnCard? {
      KnownShopFinds(r, facts, p);
    } else if ReadsOne(r.field) {
      OneRuleFinds(r, facts, p);
    }
  }
}
