/** Which step of the ladder decides, and what its decision names (backend/oneguard/engine/decide.py:175-239). */
module LadderNames {
  import opened Seqs
  import opened Types
  import opened PolicyRules
  import opened Ladder
  import opened LadderJoin

  /** The first step that has something to say. */
  lemma StepThatDecides(results: seq<RuleResult>, protections: seq<Signal>, warnings: seq<Signal>,
                        soft: seq<Signal>, policy: Policy, frozen: bool)
    ensures
      var customer := CustomerResults(results, policy.rules);
      var unsure := AnyUnsure(results) || AnyUnknown(customer);
      Decide(results, protections, warnings, soft, policy, frozen).step ==
        if AnyInactive(results) then 1
        else if AnyBroken(customer, policy.rules) then 2
        else if AnyBlocks(protections) then 3
        else if (unsure && policy.setting.DeclineIt?) || AnyReserved(customer, policy.rules) || AnyUnsure(results)
             || (AnyUnknown(customer) && policy.setting.AskMe?) then 4
        else if AnyAsks(protections) then 5
        else if SignsAsk(warnings, soft, frozen) then 6
        else if AnyUnknown(customer) then 4
        else 7
  {
    hide Filter, Dedupe, Step1Seen, Map, CustomerResults, RelatedOf, SessionTrust, JudgeUnknowns, InactiveIds, UnsureIds,
      BrokenResults, Inactive, Unsure, Broken, ReservedOnly;
    UnknownStep(UnsureIds(results), CustomerResults(results, policy.rules), protections, warnings, soft, policy, frozen);
  }

  lemma UnknownStep(step1Unsure: seq<string>, customer: seq<RuleResult>, protections: seq<Signal>,
                    warnings: seq<Signal>, soft: seq<Signal>, policy: Policy, frozen: bool)
    ensures
      JudgeUnknowns(step1Unsure, customer, protections, warnings, soft, policy, frozen).step ==
        if ((step1Unsure != [] || AnyUnknown(customer)) && policy.setting.DeclineIt?) || AnyReserved(customer, policy.rules) || step1Unsure != []
           || (AnyUnknown(customer) && policy.setting.AskMe?) then 4
        else if AnyAsks(protections) then 5
        else if SignsAsk(warnings, soft, frozen) then 6
        else if AnyUnknown(customer) then 4
        else 7
  {
    hide Filter, Map, JudgeSigns, ReservedResults, SignsAsk, ReservedOnly;
    SignStep(protections, warnings, soft, Filter(customer, IsUnknown), frozen);
    assert |Map(Filter(customer, IsUnknown), ResultId)| == |Filter(customer, IsUnknown)|;
  }

  lemma SignStep(protections: seq<Signal>, warnings: seq<Signal>, soft: seq<Signal>, unknown: seq<RuleResult>, frozen: bool)
    ensures
      JudgeSigns(protections, warnings, soft, unknown, frozen).step ==
        if AnyAsks(protections) then 5 else if SignsAsk(warnings, soft, frozen) then 6 else if unknown != [] then 4 else 7
  {
  }

  lemma SignalIds(signals: seq<Signal>, id: string)
    ensures id in Map(signals, SignalId) <==> exists s :: s in signals && s.id == id
  {
    if s :| s in signals && s.id == id {
      var i :| 0 <= i < |signals| && signals[i] == s;
      assert Map(signals, SignalId)[i] == id;
    }
    if id in Map(signals, SignalId) {
      var i :| 0 <= i < |signals| && Map(signals, SignalId)[i] == id;
      assert signals[i] in signals;
    }
  }

  /** A step-1 decline names exactly the inactive checks. */
  lemma StepOneNames(results: seq<RuleResult>, protections: seq<Signal>, warnings: seq<Signal>,
                     soft: seq<Signal>, policy: Policy, frozen: bool, id: string)
    requires Decide(results, protections, warnings, soft, policy, frozen).step == 1
    ensures id in Decide(results, protections, warnings, soft, policy, frozen).decidingIds <==> id in STEP1_IDS && Inactive(results, id)
  {
    hide CustomerResults, BrokenResults, ReservedResults, UnsureIds, RelatedOf, SessionTrust, JudgeUnknowns, Inactive;
    NotThree(UnsureIds(results), CustomerResults(results, policy.rules), protections, warnings, soft, policy, frozen);
    forall x | x in STEP1_IDS && Inactive(results, x) ensures InactiveReported(results, x) { SeenWhenInactive(results, x); }
  }

  ghost predicate InactiveReported(results: seq<RuleResult>, id: string) { exists r :: r in results && r.ruleId == id }

  lemma SeenWhenInactive(results: seq<RuleResult>, id: string)
    requires Inactive(results, id)
    ensures InactiveReported(results, id)
  {
    assert LastResult(results, id).value in results;
  }

  /** A step-3 decline names exactly the protections that decline. */
  lemma StepThreeNames(results: seq<RuleResult>, protections: seq<Signal>, warnings: seq<Signal>,
                       soft: seq<Signal>, policy: Policy, frozen: bool, id: string)
    requires Decide(results, protections, warnings, soft, policy, frozen).step == 3
    ensures id in Decide(results, protections, warnings, soft, policy, frozen).decidingIds <==> exists s :: s in protections && Blocks(s) && s.id == id
  {
    hide CustomerResults, BrokenResults, InactiveIds, ReservedResults, UnsureIds, RelatedOf, SessionTrust, JudgeUnknowns, Blocks;
    SignalIds(Filter(protections, Blocks), id);
    NotThree(UnsureIds(results), CustomerResults(results, policy.rules), protections, warnings, soft, policy, frozen);
  }

  lemma NotThree(step1Unsure: seq<string>, customer: seq<RuleResult>, protections: seq<Signal>,
                 warnings: seq<Signal>, soft: seq<Signal>, policy: Policy, frozen: bool)
    ensures JudgeUnknowns(step1Unsure, customer, protections, warnings, soft, policy, frozen).step >= 4
  {
    hide Filter, Map, ReservedResults;
  }

  /** A step-5 ask names every protection that asks, "already bought" only when it is the only one. */
  lemma StepFiveNames(results: seq<RuleResult>, protections: seq<Signal>, warnings: seq<Signal>,
                      soft: seq<Signal>, policy: Policy, frozen: bool, id: string)
    requires Decide(results, protections, warnings, soft, policy, frozen).step == 5
    ensures id in Decide(results, protections, warnings, soft, policy, frozen).decidingIds <==>
      && (exists s :: s in protections && Asks(s) && s.id == id)
      && (id == "A8" ==> forall s :: s in protections && Asks(s) ==> s.id == "A8")
  {
    hide CustomerResults, BrokenResults, InactiveIds, ReservedResults, UnsureIds, RelatedOf, SessionTrust, Asks, JudgeSigns;
    var unknown := Filter(CustomerResults(results, policy.rules), IsUnknown);
    SignNames(protections, warnings, soft, unknown, frozen, id);
  }

  lemma SignNames(protections: seq<Signal>, warnings: seq<Signal>, soft: seq<Signal>, unknown: seq<RuleResult>, frozen: bool, id: string)
    ensures
      var v := JudgeSigns(protections, warnings, soft, unknown, frozen);
      && (v.step == 5 ==> (id in v.ids <==>
            && (exists s :: s in protections && Asks(s) && s.id == id)
            && (id == "A8" ==> forall s :: s in protections && Asks(s) ==> s.id == "A8")))
      && (v.step == 6 ==> (id in v.ids <==> IsSign(warnings, soft, id) || (id == "session_watch" && frozen && NoSigns(warnings, soft))))
  {
    hide Asks, WarnsWeakly, WarnsStrongly;
    var asking := Filter(protections, Asks);
    var others := Filter(asking, (s: Signal) => s.id != "A8");
    SignalIds(others, id);
    SignalIds(asking, id);
    var weak := Filter(warnings, WarnsWeakly);
    var signs := Filter(warnings, WarnsStrongly) + (if |weak| >= 2 then weak else []) + Filter(soft, Asks);
    SignalIds(signs, id);
    InThree(Filter(warnings, WarnsStrongly), if |weak| >= 2 then weak else [], Filter(soft, Asks));
  }

  lemma InThree(a: seq<Signal>, b: seq<Signal>, c: seq<Signal>)
    ensures forall s :: s in a + b + c <==> s in a || s in b || s in c
    ensures a + b + c == [] <==> a == [] && b == [] && c == []
  {
  }

  /** A strong sign, one of at least two weak ones, or a soft signal that asks. */
  predicate IsSign(warnings: seq<Signal>, soft: seq<Signal>, id: string) {
    || (exists w :: w in warnings && WarnsStrongly(w) && w.id == id)
    || (|Filter(warnings, WarnsWeakly)| >= 2 && exists w :: w in warnings && WarnsWeakly(w) && w.id == id)
    || (exists s :: s in soft && Asks(s) && s.id == id)
  }

  predicate NoSigns(warnings: seq<Signal>, soft: seq<Signal>) { !SignsAsk(warnings, soft, false) }

  /** A step-6 ask names exactly the signs, or the watch where there is none. */
  lemma StepSixNames(results: seq<RuleResult>, protections: seq<Signal>, warnings: seq<Signal>,
                     soft: seq<Signal>, policy: Policy, frozen: bool, id: string)
    requires Decide(results, protections, warnings, soft, policy, frozen).step == 6
    ensures id in Decide(results, protections, warnings, soft, policy, frozen).decidingIds <==>
      IsSign(warnings, soft, id) || (id == "session_watch" && frozen && NoSigns(warnings, soft))
  {
    hide CustomerResults, BrokenResults, InactiveIds, ReservedResults, UnsureIds, RelatedOf, SessionTrust, JudgeSigns, IsSign, NoSigns;
    SignNames(protections, warnings, soft, Filter(CustomerResults(results, policy.rules), IsUnknown), frozen, id);
  }

  /** A step-7 approval names nothing. */
  lemma StepSevenNames(results: seq<RuleResult>, protections: seq<Signal>, warnings: seq<Signal>, soft: seq<Signal>, policy: Policy, frozen: bool)
    requires Decide(results, protections, warnings, soft, policy, frozen).step == 7
    ensures Decide(results, protections, warnings, soft, policy, frozen).decidingIds == []
  {
    hide CustomerResults, BrokenResults, InactiveIds, ReservedResults, UnsureIds, RelatedOf, SessionTrust, Filter, Map;
  }
}
