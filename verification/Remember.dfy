/** Ask once, then remember (P2): what an approved step-up leaves behind, and when a rule no
    data can check passes because of it (ledger_base.py:141-161, policy.py:786-831). */
module Remember {
  import opened Seqs
  import opened Types
  import opened Ledger
  import opened Views
  import opened PolicyRules
  import opened Pipeline
  import opened Runs
  import opened Sessions

  // --- The string keys ------------------------------------------------------------------

  predicate NoBar(s: string) { '|' !in s }

  /** A text before the first bar is recovered from the whole. */
  lemma SplitAtBar(a: string, b: string, c: string, d: string)
    requires NoBar(a) && NoBar(c) && a + "|" + b == c + "|" + d
    ensures a == c && b == d
  {
    var s := a + "|" + b;
    assert s[|a|] == '|' && s[..|a|] == a && s[|a| + 1..] == b;
    assert (c + "|" + d)[|c|] == '|' && (c + "|" + d)[..|c|] == c && (c + "|" + d)[|c| + 1..] == d;
    assert forall i :: 0 <= i < |a| ==> s[i] == a[i] && a[i] in a;
    assert forall i :: 0 <= i < |c| ==> s[i] == c[i] && c[i] in c;
  }

  /** Keys say which rule, shop and item they are for, on ids without a bar. */
  lemma KeyInjective(r: string, m: string, i: string, r': string, m': string, i': string)
    requires NoBar(r) && NoBar(r') && NoBar(m) && NoBar(m')
    ensures ConfirmationKey(r, m, i) == ConfirmationKey(r', m', i') <==> r == r' && m == m' && i == i'
  {
    if ConfirmationKey(r, m, i) == ConfirmationKey(r', m', i') {
      assert r + "|" + (m + "|" + i) == ConfirmationKey(r, m, i);
      assert r' + "|" + (m' + "|" + i') == ConfirmationKey(r', m', i');
      SplitAtBar(r, m + "|" + i, r', m' + "|" + i');
      SplitAtBar(m, i, m', i');
    }
  }

  /** A shop key is the item key of "*", and of no other item. */
  lemma ShopKeyApart(r: string, m: string, r': string, m': string, i: string)
    requires NoBar(r) && NoBar(r') && NoBar(m) && NoBar(m')
    ensures ShopKey(r, m) == ConfirmationKey(r', m', i) <==> r == r' && m == m' && i == "*"
  {
    assert ShopKey(r, m) == ConfirmationKey(r, m, "*") by {
      assert r + "|" + m + "|*" == r + "|" + m + ("|" + "*");
    }
    KeyInjective(r, m, "*", r', m', i);
  }

  /** With a bar in an id, two different answers share a key. */
  lemma BarsCollide()
    ensures ConfirmationKey("r|m", "n", "i") == ConfirmationKey("r", "m|n", "i")
  {
    assert "r|m" + "|" + "n" + "|" + "i" == "r" + "|" + "m|n" + "|" + "i";
  }

  // --- What a remembered key means ------------------------------------------------------

  /** An approved step-up at the shop that named the rule and held the item. */
  ghost predicate AnsweredFor(decisions: seq<Entry>, ruleId: string, shop: string, item: string) {
    exists e :: e in decisions && CustomerOk(e) && ruleId in e.decidingIds && e.merchantId == shop && item in e.itemIds
  }

  ghost predicate AnsweredAtShop(decisions: seq<Entry>, ruleId: string, shop: string) {
    exists e :: e in decisions && CustomerOk(e) && ruleId in e.decidingIds && e.merchantId == shop
  }

  ghost predicate PlainIds(decisions: seq<Entry>) {
    forall e :: e in decisions ==> NoBar(e.merchantId) && (forall x :: x in e.decidingIds ==> NoBar(x)) && "*" !in e.itemIds
  }

  lemma KeyMeansAnswer(decisions: seq<Entry>, ruleId: string, shop: string, item: string)
    requires PlainIds(decisions) && NoBar(ruleId) && NoBar(shop) && item != "*"
    ensures ConfirmationKey(ruleId, shop, item) in KeysOf(decisions) <==> AnsweredFor(decisions, ruleId, shop, item)
  {
    hide ConfirmationKey, ShopKey;
    var key := ConfirmationKey(ruleId, shop, item);
    if key in KeysOf(decisions) {
      var e :| e in decisions && CustomerOk(e) && key in ConfirmationKeys(e.decidingIds, e.merchantId, e.itemIds);
      if x :| x in e.decidingIds && key == ShopKey(x, e.merchantId) {
        ShopKeyApart(x, e.merchantId, ruleId, shop, item);
      } else {
        var x, i :| x in e.decidingIds && i in e.itemIds && key == ConfirmationKey(x, e.merchantId, i);
        KeyInjective(ruleId, shop, item, x, e.merchantId, i);
      }
    }
    if AnsweredFor(decisions, ruleId, shop, item) {
      var e :| e in decisions && CustomerOk(e) && ruleId in e.decidingIds && e.merchantId == shop && item in e.itemIds;
      assert key in ConfirmationKeys(e.decidingIds, e.merchantId, e.itemIds);
    }
  }

  lemma ShopKeyMeansAnswer(decisions: seq<Entry>, ruleId: string, shop: string)
    requires PlainIds(decisions) && NoBar(ruleId) && NoBar(shop)
    ensures ShopKey(ruleId, shop) in KeysOf(decisions) <==> AnsweredAtShop(decisions, ruleId, shop)
  {
    hide ConfirmationKey, ShopKey;
    var key := ShopKey(ruleId, shop);
    if key in KeysOf(decisions) {
      var e :| e in decisions && CustomerOk(e) && key in ConfirmationKeys(e.decidingIds, e.merchantId, e.itemIds);
      if x :| x in e.decidingIds && key == ShopKey(x, e.merchantId) {
        SameShopKey(ruleId, shop, x, e.merchantId);
      } else {
        var x, i :| x in e.decidingIds && i in e.itemIds && key == ConfirmationKey(x, e.merchantId, i);
        ShopKeyApart(ruleId, shop, x, e.merchantId, i);
      }
    }
    if AnsweredAtShop(decisions, ruleId, shop) {
      var e :| e in decisions && CustomerOk(e) && ruleId in e.decidingIds && e.merchantId == shop;
      assert key in ConfirmationKeys(e.decidingIds, e.merchantId, e.itemIds);
    }
  }

  lemma SameShopKey(r: string, m: string, r': string, m': string)
    requires NoBar(r) && NoBar(r') && NoBar(m) && NoBar(m') && ShopKey(r, m) == ShopKey(r', m')
    ensures r == r' && m == m'
  {
    ShopKeyApart(r, m, r', m', "*");
    ShopKeyApart(r', m', r', m', "*");
  }

  // --- When a rule passes from memory ----------------------------------------------------

  /** The decisions a view's remembered answers come from. */
  function Memory(s: Store, q: Query): seq<Entry> {
    SortByTs(RunBefore(s.rows, q)) + EarlierDecisions(s, q.runId)
  }

  lemma ViewKeys(s: Store, h: History, q: Query)
    ensures StoreView(s, h, q).confirmedKeys == KeysOf(Memory(s, q))
  {
    hide Filter, SortByTs, InWindow, CountApprovals, LastPrices, KeysOf, Fulfilments, PriorsOf, EarlierDecisions,
      WatchedDecisions, WatchOn, RunBefore, NamesOf, OtherCards, LargestOf, DevicesOf, CountriesOf, Flagged;
  }

  /** The rule's result once the ledger has been read (the rule is not a period rule). */
  function ResultFor(rule: Rule, facts: Facts, policy: Policy, view: LedgerView): RuleResult {
    WithLedger(EvaluateTypedRule(rule, facts, policy), facts, policy.rules, view)
  }

  lemma UncheckableResult(rule: Rule, facts: Facts, policy: Policy, view: LedgerView)
    requires IsUnverifiable(rule) && RuleById(policy.rules, rule.id) == Some(rule)
    ensures ResultFor(rule, facts, policy, view)
         == if RememberedFor(rule.id, facts, view.confirmedKeys) then RuleResult(rule.id, Pass, Confirmed, false) else Undecided(rule.id)
  {
    assert EvaluateTypedRule(rule, facts, policy) == Undecided(rule.id);
  }

  /** Sound and complete: a rule no data can check passes exactly when each item of the cart is
      in some earlier step-up at this shop that named the rule and that the customer approved.
      (An event has at least one item; on none at all any remembered answer would be enough.) */
  lemma RememberedIff(s: Store, h: History, q: Query, rule: Rule, facts: Facts, policy: Policy)
    requires IsUnverifiable(rule) && RuleById(policy.rules, rule.id) == Some(rule)
    requires PlainIds(Memory(s, q)) && NoBar(rule.id) && NoBar(facts.merchantId)
    requires forall ln :: ln in facts.items ==> ln.itemId != "*"
    ensures ResultFor(rule, facts, policy, StoreView(s, h, q)).outcome.Pass? <==>
      (if facts.items == [] then exists e :: e in Memory(s, q) && CustomerOk(e) && e.decidingIds != []
       else forall ln :: ln in facts.items ==> AnsweredFor(Memory(s, q), rule.id, facts.merchantId, ln.itemId))
  {
    hide StoreView, AnsweredFor, ConfirmationKey, PlainIds, ResultFor, Memory, RuleById, KeysOf;
    var view, memory := StoreView(s, h, q), Memory(s, q);
    UncheckableResult(rule, facts, policy, view);
    ViewKeys(s, h, q);
    forall ln | ln in facts.items
      ensures ConfirmationKey(rule.id, facts.merchantId, ln.itemId) in view.confirmedKeys
         <==> AnsweredFor(memory, rule.id, facts.merchantId, ln.itemId)
    {
      KeyMeansAnswer(memory, rule.id, facts.merchantId, ln.itemId);
    }
    AnyKey(memory);
    if facts.items != [] { assert facts.items[0] in facts.items; }
  }

  /** "Only shops I know": passes at a known shop, and otherwise only where the customer has
      approved a step-up that named the rule, while no shop is known yet or the rule asks. */
  lemma KnownShopIff(s: Store, h: History, q: Query, rule: Rule, facts: Facts, policy: Policy)
    requires RuleById(policy.rules, rule.id) == Some(rule) && SharedKnownShop(rule, facts).Some?
    requires rule.field.KnownShop? || rule.field.FamiliarOnCard?
    requires PlainIds(Memory(s, q)) && NoBar(rule.id) && NoBar(facts.merchantId)
    ensures
      var view := StoreView(s, h, q);
      ResultFor(rule, facts, policy, view).outcome.Pass? <==>
        facts.merchantKnown
        || ((view.knownMerchants == {} || rule.asksOnFail) && AnsweredAtShop(Memory(s, q), rule.id, facts.merchantId))
  {
    hide StoreView, AnsweredAtShop, ShopKey, PlainIds, Memory, RuleById, KeysOf;
    ViewKeys(s, h, q);
    ShopKeyMeansAnswer(Memory(s, q), rule.id, facts.merchantId);
  }

  /** The same flag where no rule restates it: its own check never asks by itself, so a remembered
      answer counts only while no shop is known. */
  lemma KnownShopFlagIff(s: Store, h: History, q: Query, facts: Facts, rules: seq<Rule>)
    requires RuleById(rules, "C9").None?
    requires PlainIds(Memory(s, q)) && NoBar(facts.merchantId)
    ensures
      var view := StoreView(s, h, q);
      WithLedger(CheckKnownShop(facts, "C9"), facts, rules, view).outcome.Pass? <==>
        facts.merchantKnown || (view.knownMerchants == {} && AnsweredAtShop(Memory(s, q), "C9", facts.merchantId))
  {
    hide StoreView, AnsweredAtShop, ShopKey, PlainIds, Memory, RuleById, KeysOf;
    ViewKeys(s, h, q);
    ShopKeyMeansAnswer(Memory(s, q), "C9", facts.merchantId);
  }

  lemma AnyKey(decisions: seq<Entry>)
    ensures KeysOf(decisions) != {} <==> exists e :: e in decisions && CustomerOk(e) && e.decidingIds != []
  {
    hide ConfirmationKey, ShopKey;
    if KeysOf(decisions) != {} {
      var k :| k in KeysOf(decisions);
      var e :| e in decisions && CustomerOk(e) && k in ConfirmationKeys(e.decidingIds, e.merchantId, e.itemIds);
      assert e.decidingIds != [];
    }
    if e :| e in decisions && CustomerOk(e) && e.decidingIds != [] {
      assert e.decidingIds[0] in e.decidingIds;
      assert ShopKey(e.decidingIds[0], e.merchantId) in ConfirmationKeys(e.decidingIds, e.merchantId, e.itemIds);
      assert ShopKey(e.decidingIds[0], e.merchantId) in KeysOf(decisions);
    }
  }

  // --- Memory lasts ---------------------------------------------------------------------

  lemma KeysGrow(decisions: seq<Entry>, later: seq<Entry>)
    requires forall e :: e in decisions && CustomerOk(e) ==> e in later
    ensures KeysOf(decisions) <= KeysOf(later)
  {
    hide ConfirmationKeys;
  }

  lemma ApprovedStays(m: Machine, steps: seq<Step>, e: Entry)
    requires WellFormed(m) && Legal(m, steps) && e in m.store.rows && CustomerOk(e)
    ensures e in Exec(m, steps).store.rows
  {
    hide Exec, Legal, EntryOk;
    RowsPersist(m, steps);
    var later := Exec(m, steps).store;
    var i :| 0 <= i < |m.store.rows| && m.store.rows[i] == e;
    assert SameDecision(m.store.rows[i], later.rows[i]);
    EntryStays(m, e);
    assert later.rows[i] == e;
  }

  lemma MemoryHolds(m: Machine, steps: seq<Step>, q: Query, q': Query, e: Entry)
    requires WellFormed(m) && Legal(m, steps)
    requires q'.runId == q.runId && q.at <= q'.at
    requires e in Memory(m.store, q) && CustomerOk(e)
    ensures e in Memory(Exec(m, steps).store, q')
  {
    hide Exec, Legal, EarlierLiveRuns, WellFormed;
    ApprovedStays(m, steps, e);
    EarlierRunsPersist(m, steps, q.runId);
    if e in RunBefore(m.store.rows, q) { assert e in RunBefore(Exec(m, steps).store.rows, q'); }
  }

  /** An approved step-up is closed, so it never changes again. */
  lemma EntryStays(m: Machine, e: Entry)
    requires WellFormed(m) && e in m.store.rows && CustomerOk(e)
    ensures !IsPending(e)
  {
  }

  /** The runs a purchase looks back on: none is ever dropped. */
  lemma {:induction false} EarlierRunsPersist(m: Machine, steps: seq<Step>, runId: string)
    requires Legal(m, steps)
    ensures forall id :: id in EarlierLiveRuns(m.store.runs, runId) ==> id in EarlierLiveRuns(Exec(m, steps).store.runs, runId)
    decreases |steps|
  {
    hide EarlierLiveRuns, Next;
    if steps != [] {
      EarlierRunsStep(m, steps[0], runId);
      EarlierRunsPersist(Next(m, steps[0]), steps[1..], runId);
    }
  }

  lemma EarlierRunsStep(m: Machine, step: Step, runId: string)
    requires Allowed(m, step)
    ensures forall id :: id in EarlierLiveRuns(m.store.runs, runId) ==> id in EarlierLiveRuns(Next(m, step).store.runs, runId)
  {
    RunsChange(m, step);
    if step.Start? {
      if runId == step.run.runId {
        UnknownRun(m.store.runs, runId);
      } else {
        EarlierRunsStay(m.store.runs, step.run, runId);
      }
    }
  }

  lemma {:induction false} UnknownRun(runs: seq<RunRow>, runId: string)
    requires forall r :: r in runs ==> r.runId != runId
    ensures EarlierLiveRuns(runs, runId) == []
  {
    RunFound(runs, runId);
    FoundId(runs, runId);
  }

  lemma {:induction false} FoundId(runs: seq<RunRow>, runId: string)
    ensures FindRun(runs, runId).Some? ==> FindRun(runs, runId).value.runId == runId
  {
    if runs != [] { FoundId(runs[..|runs| - 1], runId); }
  }

  /** Memory is monotone: what a view of a run remembers, every later view of it remembers. */
  lemma MemoryGrows(m: Machine, steps: seq<Step>, h: History, q: Query, q': Query)
    requires WellFormed(m) && Legal(m, steps)
    requires q'.runId == q.runId && q.at <= q'.at
    ensures StoreView(m.store, h, q).confirmedKeys <= StoreView(Exec(m, steps).store, h, q').confirmedKeys
  {
    hide StoreView, Memory, Exec, Legal, WellFormed, KeysOf, CustomerOk;
    forall e | e in Memory(m.store, q) && CustomerOk(e) ensures e in Memory(Exec(m, steps).store, q') {
      MemoryHolds(m, steps, q, q', e);
    }
    ViewKeys(m.store, h, q);
    ViewKeys(Exec(m, steps).store, h, q');
    KeysGrow(Memory(m.store, q), Memory(Exec(m, steps).store, q'));
  }

  /** Asked once: after the customer approves a step-up that named an uncheckable rule, that rule
      passes for every later purchase of the run, or of a later live run of the mandate, whose
      cart holds only items of the approved one, at the same shop. */
  lemma AskedOnce(m: Machine, steps: seq<Step>, h: History, e: Entry, q: Query, rule: Rule, facts: Facts, policy: Policy)
    requires WellFormed(m) && Legal(m, steps)
    requires e in m.store.rows && CustomerOk(e) && rule.id in e.decidingIds
    requires (e.runId == q.runId && e.ts < q.at) || (DistinctRuns(m.store.runs) && StartedEarlier(Exec(m, steps).store.runs, e.runId, q.runId))
    requires IsUnverifiable(rule) && RuleById(policy.rules, rule.id) == Some(rule)
    requires facts.merchantId == e.merchantId && forall ln :: ln in facts.items ==> ln.itemId in e.itemIds
    ensures ResultFor(rule, facts, policy, StoreView(Exec(m, steps).store, h, q)).outcome.Pass?
  {
    hide StoreView, Exec, Legal, WellFormed, EarlierLiveRuns, ConfirmationKey, ShopKey, RuleById, ResultFor, DistinctRuns, StartedEarlier;
    var later := Exec(m, steps).store;
    if DistinctRuns(m.store.runs) {
      DistinctRunsKept(m, steps);
      EarlierIff(later.runs, q.runId, e.runId);
    }
    ApprovedStays(m, steps, e);
    assert e in Memory(later, q) by {
      if e.runId == q.runId && e.ts < q.at { assert e in RunBefore(later.rows, q); }
    }
    ViewKeys(later, h, q);
    var memory := Memory(later, q);
    AnyKey(memory);
    forall ln | ln in facts.items ensures ConfirmationKey(rule.id, facts.merchantId, ln.itemId) in KeysOf(memory) {
      assert ConfirmationKey(rule.id, e.merchantId, ln.itemId) in ConfirmationKeys(e.decidingIds, e.merchantId, e.itemIds);
    }
    UncheckableResult(rule, facts, policy, StoreView(later, h, q));
  }
}
