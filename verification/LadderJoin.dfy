/** The early-exit ladder is a most-restrictive-wins join: every input contributes a level, and
    the outcome is the highest one (P4). From that: input order does not matter, a signal only
    adds friction (P5), and a missing check is never a pass (P3). */
module LadderJoin {
  import opened Seqs
  import opened Types
  import opened PolicyRules
  import opened Ladder

  function Severity(o: Outcome): nat {
    match o case Approve => 0 case StepUp => 1 case Decline => 2
  }

  // --- What each input contributes ----------------------------------------------------

  function UnknownLevel(setting: Setting): Outcome {
    match setting case AskMe => StepUp case DeclineIt => Decline case ApproveIt => Approve
  }

  function ResultLevel(r: RuleResult, policy: Policy): Outcome {
    if r.outcome.Pass? then Approve
    else if r.outcome.Unknown? then UnknownLevel(policy.setting)
    else if ReservedOnly(r, policy.rules) then StepUp
    else Decline
  }

  /** A step-1 check that is missing or unknown asks, or declines under that setting; the
      setting "approve" does not reach it. */
  function Step1Level(results: seq<RuleResult>, id: string, setting: Setting): Outcome {
    if Inactive(results, id) then Decline
    else if !Unsure(results, id) then Approve
    else if setting.DeclineIt? then Decline
    else StepUp
  }

  function ShieldLevel(s: Signal): Outcome {
    if Blocks(s) then Decline else if Asks(s) then StepUp else Approve
  }

  predicate SignsAsk(warnings: seq<Signal>, soft: seq<Signal>, frozen: bool) {
    || (exists w :: w in warnings && WarnsStrongly(w))
    || |Filter(warnings, WarnsWeakly)| >= 2
    || (exists s :: s in soft && Asks(s))
    || frozen
  }

  ghost predicate RulesContribute(results: seq<RuleResult>, policy: Policy, level: Outcome) {
    || (exists id :: id in STEP1_IDS && Step1Level(results, id, policy.setting) == level)
    || (exists r :: r in CustomerResults(results, policy.rules) && ResultLevel(r, policy) == level)
  }

  ghost predicate Contributes(results: seq<RuleResult>, protections: seq<Signal>, warnings: seq<Signal>,
                              soft: seq<Signal>, policy: Policy, frozen: bool, level: Outcome)
  {
    || RulesContribute(results, policy, level)
    || (exists s :: s in protections && ShieldLevel(s) == level)
    || (level.StepUp? && SignsAsk(warnings, soft, frozen))
  }

  /** The most restrictive contribution. */
  ghost function Join(results: seq<RuleResult>, protections: seq<Signal>, warnings: seq<Signal>,
                      soft: seq<Signal>, policy: Policy, frozen: bool): Outcome
  {
    if Contributes(results, protections, warnings, soft, policy, frozen, Decline) then Decline
    else if Contributes(results, protections, warnings, soft, policy, frozen, StepUp) then StepUp
    else Approve
  }

  // --- The ladder computes the join ---------------------------------------------------
  // The questions the ladder asks of its inputs.
  predicate AnyInactive(results: seq<RuleResult>) { exists id :: id in STEP1_IDS && Inactive(results, id) }
  predicate AnyUnsure(results: seq<RuleResult>) { exists id :: id in STEP1_IDS && Unsure(results, id) }
  predicate AnyBroken(customer: seq<RuleResult>, rules: seq<Rule>) { exists r :: r in customer && Broken(r, rules) }
  predicate AnyReserved(customer: seq<RuleResult>, rules: seq<Rule>) { exists r :: r in customer && ReservedOnly(r, rules) }
  predicate AnyUnknown(customer: seq<RuleResult>) { exists r :: r in customer && r.outcome.Unknown? }
  predicate AnyBlocks(protections: seq<Signal>) { exists s :: s in protections && Blocks(s) }
  predicate AnyAsks(signals: seq<Signal>) { exists s :: s in signals && Asks(s) }

  lemma SignSteps(protections: seq<Signal>, warnings: seq<Signal>, soft: seq<Signal>,
                  unknown: seq<RuleResult>, frozen: bool)
    ensures JudgeSigns(protections, warnings, soft, unknown, frozen).outcome ==
      if AnyAsks(protections) || SignsAsk(warnings, soft, frozen) then StepUp else Approve
  {
  }

  lemma UnknownSteps(step1Unsure: seq<string>, customer: seq<RuleResult>, protections: seq<Signal>,
                     warnings: seq<Signal>, soft: seq<Signal>, policy: Policy, frozen: bool)
    ensures
      var unsure := step1Unsure != [] || AnyUnknown(customer);
      JudgeUnknowns(step1Unsure, customer, protections, warnings, soft, policy, frozen).outcome ==
        if unsure && policy.setting.DeclineIt? then Decline
        else if AnyReserved(customer, policy.rules) || step1Unsure != []
             || (AnyUnknown(customer) && policy.setting.AskMe?)
             || AnyAsks(protections) || SignsAsk(warnings, soft, frozen) then StepUp
        else Approve
  {
    hide Filter, Map, JudgeSigns, ReservedResults, SignsAsk, ReservedOnly;
    SignSteps(protections, warnings, soft, Filter(customer, IsUnknown), frozen);
    assert |Map(Filter(customer, IsUnknown), ResultId)| == |Filter(customer, IsUnknown)|;
  }

  lemma LadderSteps(results: seq<RuleResult>, protections: seq<Signal>, warnings: seq<Signal>,
                    soft: seq<Signal>, policy: Policy, frozen: bool)
    ensures
      var customer := CustomerResults(results, policy.rules);
      var unsure := AnyUnsure(results) || AnyUnknown(customer);
      Decide(results, protections, warnings, soft, policy, frozen).outcome ==
        if AnyInactive(results) || AnyBroken(customer, policy.rules) || AnyBlocks(protections)
           || (unsure && policy.setting.DeclineIt?) then Decline
        else if AnyReserved(customer, policy.rules) || AnyUnsure(results)
             || (AnyUnknown(customer) && policy.setting.AskMe?)
             || AnyAsks(protections) || SignsAsk(warnings, soft, frozen) then StepUp
        else Approve
  {
    hide Filter, Dedupe, Step1Seen, Map, CustomerResults, RelatedOf, SessionTrust, JudgeUnknowns, InactiveIds, UnsureIds,
      BrokenResults, Inactive, Unsure, Broken, ReservedOnly;
    UnknownSteps(UnsureIds(results), CustomerResults(results, policy.rules), protections, warnings, soft, policy, frozen);
  }

  lemma RuleLevels(results: seq<RuleResult>, policy: Policy)
    ensures
      var customer := CustomerResults(results, policy.rules);
      var unsure := AnyUnsure(results) || AnyUnknown(customer);
      RulesContribute(results, policy, Decline) <==>
        AnyInactive(results) || AnyBroken(customer, policy.rules) || (unsure && policy.setting.DeclineIt?)
  {
    var customer := CustomerResults(results, policy.rules);
    if r :| r in customer && Broken(r, policy.rules) {
      assert ResultLevel(r, policy) == Decline;
    }
    if r :| r in customer && r.outcome.Unknown? {
      assert ResultLevel(r, policy) == UnknownLevel(policy.setting);
    }
    if id :| id in STEP1_IDS && Inactive(results, id) {
      assert Step1Level(results, id, policy.setting) == Decline;
    }
    if id :| id in STEP1_IDS && Unsure(results, id) {
      assert policy.setting.DeclineIt? ==> Step1Level(results, id, policy.setting) == Decline;
    }
  }

  lemma RuleLevelsAsk(results: seq<RuleResult>, policy: Policy)
    requires !RulesContribute(results, policy, Decline)
    ensures
      var customer := CustomerResults(results, policy.rules);
      RulesContribute(results, policy, StepUp) <==>
        AnyReserved(customer, policy.rules) || AnyUnsure(results) || (AnyUnknown(customer) && policy.setting.AskMe?)
  {
    var customer := CustomerResults(results, policy.rules);
    if r :| r in customer && ReservedOnly(r, policy.rules) {
      assert ResultLevel(r, policy) == StepUp;
    }
    if r :| r in customer && r.outcome.Unknown? {
      assert ResultLevel(r, policy) == UnknownLevel(policy.setting);
    }
    if id :| id in STEP1_IDS && Unsure(results, id) {
      assert Step1Level(results, id, policy.setting) != Approve;
    }
  }

  lemma ShieldLevels(protections: seq<Signal>)
    ensures (exists s :: s in protections && ShieldLevel(s) == Decline) <==> AnyBlocks(protections)
    ensures !AnyBlocks(protections) ==>
      ((exists s :: s in protections && ShieldLevel(s) == StepUp) <==> AnyAsks(protections))
  {
    if s :| s in protections && Blocks(s) { assert ShieldLevel(s) == Decline; }
    if s :| s in protections && Asks(s) { assert ShieldLevel(s) == StepUp; }
  }

  /** P4: the ladder's outcome is the most restrictive contribution. */
  lemma DecideIsJoin(results: seq<RuleResult>, protections: seq<Signal>, warnings: seq<Signal>,
                     soft: seq<Signal>, policy: Policy, frozen: bool)
    ensures Decide(results, protections, warnings, soft, policy, frozen).outcome
         == Join(results, protections, warnings, soft, policy, frozen)
  {
    LadderSteps(results, protections, warnings, soft, policy, frozen);
    RuleLevels(results, policy);
    ShieldLevels(protections);
    if !RulesContribute(results, policy, Decline) { RuleLevelsAsk(results, policy); }
  }

  // --- What the join gives ------------------------------------------------------------

  /** P3: what an approval needs. Every step-1 check reported a pass, no rule failed, every
      period rule was checked or the setting is "approve", and nothing asks or blocks. */
  lemma ApproveNeeds(results: seq<RuleResult>, protections: seq<Signal>, warnings: seq<Signal>,
                     soft: seq<Signal>, policy: Policy, frozen: bool)
    requires Decide(results, protections, warnings, soft, policy, frozen).outcome.Approve?
    ensures forall id :: id in STEP1_IDS ==> exists r :: r in results && r.ruleId == id && r.outcome.Pass?
    ensures forall r :: r in CustomerResults(results, policy.rules) ==>
      r.outcome.Pass? || (r.outcome.Unknown? && policy.setting.ApproveIt?)
    ensures forall s :: s in protections ==> !Blocks(s) && !Asks(s)
    ensures !SignsAsk(warnings, soft, frozen)
  {
    LadderSteps(results, protections, warnings, soft, policy, frozen);
    var customer := CustomerResults(results, policy.rules);
    forall id | id in STEP1_IDS ensures exists r :: r in results && r.ruleId == id && r.outcome.Pass? {
      assert !Unsure(results, id);
      assert LastResult(results, id).value in results;
    }
    forall r | r in customer ensures r.outcome.Pass? || (r.outcome.Unknown? && policy.setting.ApproveIt?) {
      assert !Broken(r, policy.rules) && !ReservedOnly(r, policy.rules);
    }
  }

  /** Under the settings a compiled policy can have, an approval is exactly a clean sheet. */
  lemma ApproveIff(results: seq<RuleResult>, protections: seq<Signal>, warnings: seq<Signal>,
                   soft: seq<Signal>, policy: Policy, frozen: bool)
    requires !policy.setting.ApproveIt?
    ensures Decide(results, protections, warnings, soft, policy, frozen).outcome.Approve? <==>
      && (forall id :: id in STEP1_IDS ==> !Unsure(results, id))
      && (forall r :: r in CustomerResults(results, policy.rules) ==> r.outcome.Pass?)
      && (forall s :: s in protections ==> !Blocks(s) && !Asks(s))
      && !SignsAsk(warnings, soft, frozen)
  {
    LadderSteps(results, protections, warnings, soft, policy, frozen);
    if Decide(results, protections, warnings, soft, policy, frozen).outcome.Approve? {
      ApproveNeeds(results, protections, warnings, soft, policy, frozen);
    }
  }

  /** P5: warning signs, soft signals and the watch only turn an approval into an ask. */
  lemma SignsOnlyAddFriction(results: seq<RuleResult>, protections: seq<Signal>, warnings: seq<Signal>,
                             soft: seq<Signal>, policy: Policy, frozen: bool)
    ensures
      var with := Decide(results, protections, warnings, soft, policy, frozen).outcome;
      var without := Decide(results, protections, [], [], policy, false).outcome;
      with == if without.Approve? && SignsAsk(warnings, soft, frozen) then StepUp else without
  {
    LadderSteps(results, protections, warnings, soft, policy, frozen);
    LadderSteps(results, protections, [], [], policy, false);
  }

  lemma {:induction false} FilterGrows(s: seq<Signal>, t: seq<Signal>, p: Signal -> bool)
    requires multiset(s) <= multiset(t)
    ensures |Filter(s, p)| <= |Filter(t, p)|
  {
    FilterCounts(s, p);
    FilterCounts(t, p);
    CountSubset(multiset(s), multiset(t), p);
  }

  /** How many of a multiset's members pass the test. */
  ghost function Passing(m: multiset<Signal>, p: Signal -> bool): nat
    decreases |m|
  {
    if m == multiset{} then 0
    else
      var x :| x in m;
      Passing(m - multiset{x}, p) + (if p(x) then 1 else 0)
  }

  lemma {:induction false} PassingWithout(m: multiset<Signal>, y: Signal, p: Signal -> bool)
    requires y in m
    ensures Passing(m, p) == Passing(m - multiset{y}, p) + (if p(y) then 1 else 0)
    decreases |m|
  {
    var x :| x in m && Passing(m, p) == Passing(m - multiset{x}, p) + (if p(x) then 1 else 0);
    if x != y {
      PassingWithout(m - multiset{x}, y, p);
      PassingWithout(m - multiset{y}, x, p);
      assert m - multiset{x} - multiset{y} == m - multiset{y} - multiset{x};
    }
  }

  lemma {:induction false} FilterCounts(s: seq<Signal>, p: Signal -> bool)
    ensures |Filter(s, p)| == Passing(multiset(s), p)
  {
    if s != [] {
      var init, last := s[..|s| - 1], s[|s| - 1];
      assert s == init + [last];
      assert multiset(s) - multiset{last} == multiset(init);
      PassingWithout(multiset(s), last, p);
      FilterCounts(init, p);
    }
  }

  lemma {:induction false} CountSubset(m: multiset<Signal>, n: multiset<Signal>, p: Signal -> bool)
    requires m <= n
    ensures Passing(m, p) <= Passing(n, p)
    decreases |m|
  {
    if m != multiset{} {
      var x :| x in m;
      PassingWithout(m, x, p);
      PassingWithout(n, x, p);
      CountSubset(m - multiset{x}, n - multiset{x}, p);
    }
  }

  /** Adding signals never makes the outcome less severe. */
  lemma MoreSignalsNeverRelax(results: seq<RuleResult>, policy: Policy,
                              protections: seq<Signal>, warnings: seq<Signal>, soft: seq<Signal>, frozen: bool,
                              protections': seq<Signal>, warnings': seq<Signal>, soft': seq<Signal>, frozen': bool)
    requires forall s :: s in protections ==> s in protections'
    requires multiset(warnings) <= multiset(warnings')
    requires forall s :: s in soft ==> s in soft'
    requires frozen ==> frozen'
    ensures Severity(Decide(results, protections, warnings, soft, policy, frozen).outcome)
         <= Severity(Decide(results, protections', warnings', soft', policy, frozen').outcome)
  {
    hide Decide, SignsAsk, AnyInactive, AnyUnsure, AnyBroken, AnyReserved, AnyUnknown, CustomerResults, Blocks, Asks;
    LadderSteps(results, protections, warnings, soft, policy, frozen);
    LadderSteps(results, protections', warnings', soft', policy, frozen');
    MoreSigns(warnings, soft, frozen, warnings', soft', frozen');
  }

  lemma MoreSigns(warnings: seq<Signal>, soft: seq<Signal>, frozen: bool, warnings': seq<Signal>, soft': seq<Signal>, frozen': bool)
    requires multiset(warnings) <= multiset(warnings') && (forall s :: s in soft ==> s in soft') && (frozen ==> frozen')
    ensures SignsAsk(warnings, soft, frozen) ==> SignsAsk(warnings', soft', frozen')
  {
    hide Filter;
    FilterGrows(warnings, warnings', WarnsWeakly);
    assert forall w :: w in warnings ==> w in multiset(warnings) && w in multiset(warnings');
  }

  ghost predicate SameMembers<T(!new)>(s: seq<T>, t: seq<T>) { forall x :: x in s <==> x in t }

  /** Each step-1 check is reported at most one way. */
  ghost predicate Step1Consistent(results: seq<RuleResult>) {
    forall x, y :: x in results && y in results && x.ruleId == y.ruleId && IsStep1(x) ==> x == y
  }

  /** The outcome does not depend on the order of its inputs, nor on repeated rule results. */
  lemma OrderDoesNotMatter(results: seq<RuleResult>, results': seq<RuleResult>, policy: Policy,
                           protections: seq<Signal>, warnings: seq<Signal>, soft: seq<Signal>, frozen: bool,
                           protections': seq<Signal>, warnings': seq<Signal>, soft': seq<Signal>)
    requires SameMembers(results, results') && Step1Consistent(results)
    requires SameMembers(protections, protections') && SameMembers(soft, soft')
    requires multiset(warnings) == multiset(warnings')
    ensures Decide(results, protections, warnings, soft, policy, frozen).outcome
         == Decide(results', protections', warnings', soft', policy, frozen).outcome
  {
    LadderSteps(results, protections, warnings, soft, policy, frozen);
    LadderSteps(results', protections, warnings, soft, policy, frozen);
    SameStep1(results, results');
    SameCustomer(results, results', policy.rules);
    MoreSignalsNeverRelax(results', policy, protections, warnings, soft, frozen, protections', warnings', soft', frozen);
    MoreSignalsNeverRelax(results', policy, protections', warnings', soft', frozen, protections, warnings, soft, frozen);
  }

  lemma SameStep1(results: seq<RuleResult>, results': seq<RuleResult>)
    requires SameMembers(results, results') && Step1Consistent(results)
    ensures AnyInactive(results) == AnyInactive(results') && AnyUnsure(results) == AnyUnsure(results')
  {
    forall id | id in STEP1_IDS ensures LastResult(results, id) == LastResult(results', id) {
      var a, b := LastResult(results, id), LastResult(results', id);
      if a.Some? && b.Some? { assert a.value in results && b.value in results; }
    }
  }

  lemma SameCustomer(results: seq<RuleResult>, results': seq<RuleResult>, rules: seq<Rule>)
    requires SameMembers(results, results')
    ensures
      var customer, customer' := CustomerResults(results, rules), CustomerResults(results', rules);
      && AnyBroken(customer, rules) == AnyBroken(customer', rules)
      && AnyReserved(customer, rules) == AnyReserved(customer', rules)
      && AnyUnknown(customer) == AnyUnknown(customer')
  {
    var stated, stated' := Filter(results, IsCustomer), Filter(results', IsCustomer);
    SameUnreported(rules, stated, stated');
    var customer, customer' := CustomerResults(results, rules), CustomerResults(results', rules);
    assert forall r :: r in customer <==> r in customer';
  }

  lemma {:induction false} SameUnreported(rules: seq<Rule>, reported: seq<RuleResult>, reported': seq<RuleResult>)
    requires SameMembers(reported, reported')
    ensures Unreported(rules, reported) == Unreported(rules, reported')
  {
    if rules != [] {
      SameUnreported(rules[..|rules| - 1], reported, reported');
    }
  }

  // --- What a decision names --------------------------------------------------------------------

  /** The step that decided, and the outcome it gives. */
  lemma StepGivesOutcome(results: seq<RuleResult>, protections: seq<Signal>, warnings: seq<Signal>,
                         soft: seq<Signal>, policy: Policy, frozen: bool)
    ensures
      var d := Decide(results, protections, warnings, soft, policy, frozen);
      && 1 <= d.step <= 7
      && (d.step <= 3 ==> d.outcome.Decline?) && (d.step == 5 || d.step == 6 ==> d.outcome.StepUp?) && (d.step == 7 ==> d.outcome.Approve?)
      && (d.outcome.Approve? ==> d.step == 7 || (d.step == 4 && policy.setting.ApproveIt?))
  {
    hide CustomerResults, InactiveIds, BrokenResults, ReservedResults, UnsureIds, RelatedOf, SessionTrust, Filter;
  }

  lemma MapIds(rs: seq<RuleResult>, id: string)
    ensures id in Map(rs, ResultId) <==> exists r :: r in rs && r.ruleId == id
  {
    if r :| r in rs && r.ruleId == id {
      var i :| 0 <= i < |rs| && rs[i] == r;
      assert Map(rs, ResultId)[i] == id;
    }
    if id in Map(rs, ResultId) {
      var i :| 0 <= i < |rs| && Map(rs, ResultId)[i] == id;
      assert rs[i] in rs;
    }
  }

  /** A broken-rule decline names exactly the broken rules. */
  lemma StepTwoNames(results: seq<RuleResult>, protections: seq<Signal>, warnings: seq<Signal>,
                     soft: seq<Signal>, policy: Policy, frozen: bool, id: string)
    requires Decide(results, protections, warnings, soft, policy, frozen).step == 2
    ensures id in Decide(results, protections, warnings, soft, policy, frozen).decidingIds <==>
      exists r :: r in CustomerResults(results, policy.rules) && Broken(r, policy.rules) && r.ruleId == id
  {
    hide CustomerResults, InactiveIds, ReservedResults, UnsureIds, RelatedOf, SessionTrust;
    MapIds(BrokenResults(CustomerResults(results, policy.rules), policy.rules), id);
  }

  /** The later steps decide as step 4 only to approve despite the unknowns they name. */
  lemma FourSigns(protections: seq<Signal>, warnings: seq<Signal>, soft: seq<Signal>, unknown: seq<RuleResult>, frozen: bool)
    ensures
      var v := JudgeSigns(protections, warnings, soft, unknown, frozen);
      v.step == 4 ==> v.outcome.Approve? && v.ids == Map(unknown, ResultId)
  {
    hide Filter, Map;
  }

  /** An uncertain decision names exactly what is uncertain: every unknown rule, every step-1 check
      that is not a pass, and, when it asks, every limit held up by reservations. */
  lemma StepFourNames(results: seq<RuleResult>, protections: seq<Signal>, warnings: seq<Signal>,
                      soft: seq<Signal>, policy: Policy, frozen: bool, id: string)
    requires Decide(results, protections, warnings, soft, policy, frozen).step == 4
    ensures
      var d, customer := Decide(results, protections, warnings, soft, policy, frozen), CustomerResults(results, policy.rules);
      id in d.decidingIds <==>
        || (id in STEP1_IDS && Unsure(results, id))
        || (exists r :: r in customer && r.ruleId == id && (r.outcome.Unknown? || (ReservedOnly(r, policy.rules) && d.outcome.StepUp?)))
  {
    hide CustomerResults, InactiveIds, BrokenResults, RelatedOf, SessionTrust, Unsure, ReservedOnly, JudgeSigns, Broken;
    FourSigns(protections, warnings, soft, Filter(CustomerResults(results, policy.rules), IsUnknown), frozen);
    var customer := CustomerResults(results, policy.rules);
    MapIds(ReservedResults(customer, policy.rules), id);
    MapIds(Filter(customer, IsUnknown), id);
  }
}
