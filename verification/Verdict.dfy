/** The engine's decision read off the purchase: which step decides, what it decides and what it
    names, said over the purchase's lines and terms, the earlier orders, the ledger's totals and what
    is known (backend/oneguard/engine/decide.py:147-239, pipeline.py:250-278). */
module Verdict {
  import opened Seqs
  import opened Types
  import opened Ledger
  import opened Views
  import opened PolicyRules
  import opened Warnings
  import Protections
  import opened Ladder
  import opened LadderJoin
  import opened LadderNames
  import opened Pipeline
  import opened Remember
  import opened CleanSheet
  import opened RuleMeaning
  import opened Standing
  import opened ShieldMeaning

  // --- The grounds of each step ---------------------------------------------------------------------------

  predicate IsIdle(id: string, facts: Facts, p: Policy) {
    || (id == "policy_status" && !p.status.Active?)
    || (id == "authority_status" && !facts.authorityActive)
    || (id == "card_status" && !facts.cardActive)
  }

  ghost predicate SignFor(id: string, facts: Facts, p: Policy, view: LedgerView, soft: seq<Signal>) {
    || StrongSign(id, facts, view)
    || (TwoWeak(facts, p, view) && WeakSign(id, facts, p, view))
    || exists s :: s in soft && s.triggered && s.effect.AskEffect? && s.id == id
  }

  ghost predicate AnyIdle(facts: Facts, p: Policy) { exists id :: IsIdle(id, facts, p) }
  ghost predicate AnyStands(st: Standing, facts: Facts, p: Policy, view: LedgerView) { exists id :: StandsAt(id, st, facts, p, view) }
  ghost predicate AnyStops(facts: Facts, p: Policy, view: LedgerView) { exists id :: Stops(id, facts, p, view) }
  ghost predicate AnyQuestions(facts: Facts, p: Policy, view: LedgerView) { exists id :: Questions(id, facts, p, view) }
  ghost predicate AnySign(facts: Facts, p: Policy, view: LedgerView, soft: seq<Signal>) { exists id :: SignFor(id, facts, p, view, soft) }

  /** The first step with grounds. */
  ghost function StepFor(facts: Facts, p: Policy, view: LedgerView, soft: seq<Signal>): nat {
    if AnyIdle(facts, p) then 1
    else if AnyStands(Broken, facts, p, view) then 2
    else if AnyStops(facts, p, view) then 3
    else if AnyStands(HeldUp, facts, p, view) || (AnyStands(Open, facts, p, view) && !p.setting.ApproveIt?) then 4
    else if AnyQuestions(facts, p, view) then 5
    else if AnySign(facts, p, view, soft) || view.frozen then 6
    else if AnyStands(Open, facts, p, view) then 4
    else 7
  }

  ghost function OutcomeFor(facts: Facts, p: Policy, view: LedgerView, soft: seq<Signal>): Outcome {
    var step := StepFor(facts, p, view, soft);
    if step <= 3 || (step == 4 && AnyStands(Open, facts, p, view) && p.setting.DeclineIt?) then Decline
    else if step == 7 || (step == 4 && !AnyStands(HeldUp, facts, p, view) && p.setting.ApproveIt?) then Approve
    else StepUp
  }

  /** The grounds the step names. */
  ghost predicate Grounds(step: nat, outcome: Outcome, id: string, facts: Facts, p: Policy, view: LedgerView, soft: seq<Signal>) {
    || (step == 1 && IsIdle(id, facts, p))
    || (step == 2 && StandsAt(id, Broken, facts, p, view))
    || (step == 3 && Stops(id, facts, p, view))
    || (step == 4 && (StandsAt(id, Open, facts, p, view) || (outcome.StepUp? && StandsAt(id, HeldUp, facts, p, view))))
    || (step == 5 && Questions(id, facts, p, view) && (id == "A8" ==> forall x :: Questions(x, facts, p, view) ==> x == "A8"))
    || (step == 6 && (SignFor(id, facts, p, view, soft) || (id == "session_watch" && view.frozen && !AnySign(facts, p, view, soft))))
  }

  // --- The ladder's questions -------------------------------------------------------------------------------

  lemma IdleIff(facts: Facts, p: Policy, view: LedgerView, id: string)
    requires Tidy(p)
    ensures id in STEP1_IDS && Inactive(Results(facts, p, view), id) <==> IsIdle(id, facts, p)
    ensures id in STEP1_IDS && Unsure(Results(facts, p, view), id) <==> IsIdle(id, facts, p)
  {
    hide Tidy, Results, LastResult;
    var step1 := Step1Results(facts, p);
    assert step1[0] in step1 && step1[1] in step1 && step1[2] in step1;
    Step1Last(facts, p, view, step1[0]);
    Step1Last(facts, p, view, step1[1]);
    Step1Last(facts, p, view, step1[2]);
    assert STEP1_IDS[0] == "policy_status" && STEP1_IDS[1] == "authority_status" && STEP1_IDS[2] == "card_status";
  }

  lemma AnyIdleIff(facts: Facts, p: Policy, view: LedgerView)
    requires Tidy(p)
    ensures AnyInactive(Results(facts, p, view)) <==> AnyIdle(facts, p)
    ensures AnyUnsure(Results(facts, p, view)) <==> AnyIdle(facts, p)
  {
    hide Tidy, Results, Inactive, Unsure, IsIdle;
    forall id
      ensures id in STEP1_IDS && Inactive(Results(facts, p, view), id) <==> IsIdle(id, facts, p)
      ensures id in STEP1_IDS && Unsure(Results(facts, p, view), id) <==> IsIdle(id, facts, p)
    {
      IdleIff(facts, p, view, id);
    }
  }

  /** Only a period rule's result carries the mark. */
  lemma MarkedIsPeriod(x: RuleResult, facts: Facts, p: Policy, view: LedgerView)
    requires Tidy(p) && x in CustomerResults(Results(facts, p, view), p.rules) && Shows(x, HeldUp)
    ensures ReservedOnly(x, p.rules)
  {
    hide Results, ResultFor, PeriodResult, FlagResults, CustomerResults, Filter, FlagIds, Listed, RuleById;
    AllReported(facts, p, view);
    assert x in Filter(Results(facts, p, view), IsCustomer);
    ListedResults(facts, p, view, x);
    ListedId(x, facts, p, view);
    ListedMark(x, facts, p, view);
  }

  lemma ListedMark(x: RuleResult, facts: Facts, p: Policy, view: LedgerView)
    requires Tidy(p) && Listed(x, facts, p, view) && x !in Step1Results(facts, p) && x.mark.ReservationOnly?
    ensures RuleById(p.rules, x.ruleId).Some? && RuleById(p.rules, x.ruleId).value.scope.PerPeriod?
  {
    hide ResultFor, PeriodResult, FlagResults, FlagIds, RuleById, Step1Results;
    if r :| r in p.rules && !r.scope.PerPeriod? && x == ResultFor(r, facts, p, view) {
      PlainMark(r, facts, p, view);
    } else if res :| res in FlagResults(facts, p) && x == FlagChecked(res, facts, view) {
      FlagMark(res, facts, p, view);
    } else {
      var r :| r in p.rules && r.scope.PerPeriod? && x == PeriodResult(r, facts, view);
      RuleFound(p.rules, r);
      PeriodId(r, facts, view);
    }
  }

  lemma PlainMark(r: Rule, facts: Facts, p: Policy, view: LedgerView)
    ensures !ResultFor(r, facts, p, view).mark.ReservationOnly?
  {
    hide RuleById, FactsFor, Compare, RememberedFor, InCategories;
  }

  lemma FlagMark(res: RuleResult, facts: Facts, p: Policy, view: LedgerView)
    requires res in FlagResults(facts, p)
    ensures !FlagChecked(res, facts, view).mark.ReservationOnly?
  {
    hide FlagResults, AllowedStated, BlockedStated, ShopTypeStated, KnownShopStated, InCategories, RequestedLines, IsExtra;
    FlagResultParts(facts, p, res);
  }

  /** The ladder's broken, held-up and unknown results are those of the rules and flags that stand so. */
  lemma CustomerShows(x: RuleResult, facts: Facts, p: Policy, view: LedgerView)
    requires Tidy(p) && x in CustomerResults(Results(facts, p, view), p.rules)
    ensures LadderJoinBroken(x, p) <==> Shows(x, Broken)
    ensures ReservedOnly(x, p.rules) <==> Shows(x, HeldUp)
    ensures x.outcome.Unknown? <==> Shows(x, Open)
  {
    hide Results, CustomerResults, RuleById, Tidy;
    if Shows(x, HeldUp) { MarkedIsPeriod(x, facts, p, view); }
  }

  predicate LadderJoinBroken(x: RuleResult, p: Policy) { Ladder.Broken(x, p.rules) }

  lemma AnyStandsIff(st: Standing, facts: Facts, p: Policy, view: LedgerView)
    requires Tidy(p) && SaneCounts(view)
    ensures AnyStands(st, facts, p, view) <==> exists x :: x in CustomerResults(Results(facts, p, view), p.rules) && Shows(x, st)
  {
    hide Tidy, CustomerResults, Results, Shows, StandsAt;
    forall id ensures Reported(id, st, facts, p, view) <==> StandsAt(id, st, facts, p, view) { ReportedIff(id, st, facts, p, view); }
    if x :| x in CustomerResults(Results(facts, p, view), p.rules) && Shows(x, st) { assert Reported(x.ruleId, st, facts, p, view); }
  }

  lemma RuleQuestions(facts: Facts, p: Policy, view: LedgerView)
    requires Tidy(p) && SaneCounts(view)
    ensures
      var customer := CustomerResults(Results(facts, p, view), p.rules);
      && (AnyBroken(customer, p.rules) <==> AnyStands(Broken, facts, p, view))
      && (AnyReserved(customer, p.rules) <==> AnyStands(HeldUp, facts, p, view))
      && (AnyUnknown(customer) <==> AnyStands(Open, facts, p, view))
  {
    hide Tidy, CustomerResults, Results, Shows, AnyStands, Ladder.Broken, ReservedOnly;
    var customer := CustomerResults(Results(facts, p, view), p.rules);
    forall x | x in customer
      ensures Ladder.Broken(x, p.rules) <==> Shows(x, Broken)
      ensures ReservedOnly(x, p.rules) <==> Shows(x, HeldUp)
      ensures x.outcome.Unknown? <==> Shows(x, Open)
    {
      CustomerShows(x, facts, p, view);
    }
    AnyStandsIff(Broken, facts, p, view);
    AnyStandsIff(HeldUp, facts, p, view);
    AnyStandsIff(Open, facts, p, view);
  }

  lemma ShieldQuestions(facts: Facts, p: Policy, view: LedgerView)
    ensures AnyBlocks(Protections.Evaluate(facts, p, view)) <==> AnyStops(facts, p, view)
    ensures AnyAsks(Protections.Evaluate(facts, p, view)) <==> AnyQuestions(facts, p, view)
  {
    hide Protections.Evaluate, Blocks, Asks, Stops, Questions;
    var shields := Protections.Evaluate(facts, p, view);
    forall id
      ensures SomeBlocks(shields, id) <==> Stops(id, facts, p, view)
      ensures SomeAsks(shields, id) <==> Questions(id, facts, p, view)
    {
      ShieldsBlock(facts, p, view, id);
      ShieldsAsk(facts, p, view, id);
    }
    if s :| s in shields && Blocks(s) { assert SomeBlocks(shields, s.id); }
    if s :| s in shields && Asks(s) { assert SomeAsks(shields, s.id); }
  }

  lemma SignForIff(facts: Facts, p: Policy, view: LedgerView, soft: seq<Signal>, id: string)
    ensures IsSign(WarningSigns(facts, view, p), soft, id) <==> SignFor(id, facts, p, view, soft)
  {
    hide WarningSigns, WarnsStrongly, WarnsWeakly, StrongSign, WeakSign, TwoWeak, Filter;
    SignsWarn(facts, p, view, id);
    TwoWeakIff(facts, p, view);
    assert forall s :: Asks(s) <==> s.triggered && s.effect.AskEffect?;
    hide Asks;
  }

  lemma AnySignIff(facts: Facts, p: Policy, view: LedgerView, soft: seq<Signal>, frozen: bool)
    ensures SignsAsk(WarningSigns(facts, view, p), soft, frozen) <==> AnySign(facts, p, view, soft) || frozen
  {
    hide WarningSigns, WarnsStrongly, WarnsWeakly, Asks, SignFor;
    var w := WarningSigns(facts, view, p);
    forall id ensures IsSign(w, soft, id) <==> SignFor(id, facts, p, view, soft) { SignForIff(facts, p, view, soft, id); }
    if x :| x in w && WarnsStrongly(x) { assert IsSign(w, soft, x.id); }
    if s :| s in soft && Asks(s) { assert IsSign(w, soft, s.id); }
    if |Filter(w, WarnsWeakly)| >= 2 {
      var x := Filter(w, WarnsWeakly)[0];
      assert x in Filter(w, WarnsWeakly);
      assert IsSign(w, soft, x.id);
    }
  }

  // --- The decision -------------------------------------------------------------------------------------------

  /** The step that decides and its outcome are those with grounds. */
  lemma EngineDecidesBy(facts: Facts, p: Policy, view: LedgerView, soft: seq<Signal>)
    requires Tidy(p) && SaneCounts(view)
    ensures EngineFor(facts, p, view, soft).step == StepFor(facts, p, view, soft)
    ensures EngineFor(facts, p, view, soft).outcome == OutcomeFor(facts, p, view, soft)
  {
    hide Decide, Tidy, CustomerResults, Protections.Evaluate, WarningSigns, AddLedgerResults, EvaluateRules, AnyBroken, AnyReserved, AnyUnknown,
      AnyInactive, AnyUnsure, AnyBlocks, AnyAsks, SignsAsk, AnyIdle, AnyStands, AnyStops, AnyQuestions, AnySign;
    var results, shields, signs := Results(facts, p, view), Protections.Evaluate(facts, p, view), WarningSigns(facts, view, p);
    EngineIs(facts, p, view, soft);
    StepThatDecides(results, shields, signs, soft, p, view.frozen);
    LadderSteps(results, shields, signs, soft, p, view.frozen);
    AnyIdleIff(facts, p, view);
    RuleQuestions(facts, p, view);
    ShieldQuestions(facts, p, view);
    AnySignIff(facts, p, view, soft, view.frozen);
  }

  lemma EngineNames(facts: Facts, p: Policy, view: LedgerView, soft: seq<Signal>, id: string)
    requires Tidy(p) && SaneCounts(view)
    ensures
      var d := EngineFor(facts, p, view, soft);
      id in d.decidingIds <==> Grounds(d.step, d.outcome, id, facts, p, view, soft)
  {
    hide Decide, Tidy, CustomerResults, Protections.Evaluate, WarningSigns, AddLedgerResults, EvaluateRules, Inactive, Unsure,
      SignsAsk, IsIdle, StandsAt, Stops, Questions, SignFor, Blocks, Asks, IsSign, Shows, Ladder.Broken, ReservedOnly, StepFor, OutcomeFor;
    var results, shields, signs := Results(facts, p, view), Protections.Evaluate(facts, p, view), WarningSigns(facts, view, p);
    EngineIs(facts, p, view, soft);
    var d := EngineFor(facts, p, view, soft);
    StepGivesOutcome(results, shields, signs, soft, p, view.frozen);
    if d.step == 1 {
      StepOneNames(results, shields, signs, soft, p, view.frozen, id);
      IdleIff(facts, p, view, id);
    } else if d.step == 2 {
      StepTwoNames(results, shields, signs, soft, p, view.frozen, id);
      NamedAt(id, facts, p, view);
    } else if d.step == 3 {
      StepThreeNames(results, shields, signs, soft, p, view.frozen, id);
      ShieldsBlock(facts, p, view, id);
    } else if d.step == 4 {
      StepFourNames(results, shields, signs, soft, p, view.frozen, id);
      StepFourIdle(facts, p, view, soft, id);
      NamedAt(id, facts, p, view);
    } else if d.step == 5 {
      StepFiveNames(results, shields, signs, soft, p, view.frozen, id);
      OnlyAgain(facts, p, view);
      ShieldsAsk(facts, p, view, id);
    } else if d.step == 6 {
      StepSixNames(results, shields, signs, soft, p, view.frozen, id);
      SignForIff(facts, p, view, soft, id);
      AnySignIff(facts, p, view, soft, false);
    } else {
      StepSevenNames(results, shields, signs, soft, p, view.frozen);
    }
  }

  /** Past step 1 no step-1 check is idle. */
  lemma StepFourIdle(facts: Facts, p: Policy, view: LedgerView, soft: seq<Signal>, id: string)
    requires Tidy(p) && SaneCounts(view) && EngineFor(facts, p, view, soft).step == 4
    ensures !(id in STEP1_IDS && Unsure(Results(facts, p, view), id))
  {
    hide EngineFor, Tidy, Results, Unsure, Inactive, AnyStands, AnyStops, AnyQuestions, AnySign, IsIdle;
    EngineDecidesBy(facts, p, view, soft);
    IdleIff(facts, p, view, id);
  }

  lemma NamedAt(id: string, facts: Facts, p: Policy, view: LedgerView)
    requires Tidy(p) && SaneCounts(view)
    ensures
      var customer := CustomerResults(Results(facts, p, view), p.rules);
      && ((exists r :: r in customer && Ladder.Broken(r, p.rules) && r.ruleId == id) <==> StandsAt(id, Broken, facts, p, view))
      && ((exists r :: r in customer && r.ruleId == id && ReservedOnly(r, p.rules)) <==> StandsAt(id, HeldUp, facts, p, view))
      && ((exists r :: r in customer && r.ruleId == id && r.outcome.Unknown?) <==> StandsAt(id, Open, facts, p, view))
  {
    hide Tidy, CustomerResults, Results, Shows, StandsAt, Ladder.Broken, ReservedOnly;
    var customer := CustomerResults(Results(facts, p, view), p.rules);
    forall x | x in customer
      ensures Ladder.Broken(x, p.rules) <==> Shows(x, Broken)
      ensures ReservedOnly(x, p.rules) <==> Shows(x, HeldUp)
      ensures x.outcome.Unknown? <==> Shows(x, Open)
    {
      CustomerShows(x, facts, p, view);
    }
    ReportedIff(id, Broken, facts, p, view);
    ReportedIff(id, HeldUp, facts, p, view);
    ReportedIff(id, Open, facts, p, view);
  }

  lemma OnlyAgain(facts: Facts, p: Policy, view: LedgerView)
    ensures
      (forall s :: s in Protections.Evaluate(facts, p, view) && Asks(s) ==> s.id == "A8")
      <==> forall x :: Questions(x, facts, p, view) ==> x == "A8"
  {
    hide Protections.Evaluate, Asks, Questions;
    var shields := Protections.Evaluate(facts, p, view);
    forall id ensures SomeAsks(shields, id) <==> Questions(id, facts, p, view) { ShieldsAsk(facts, p, view, id); }
    if s :| s in shields && Asks(s) && s.id != "A8" { assert SomeAsks(shields, s.id); }
  }

  /** How far the session is trusted: frozen under the watch, and when a strange device comes in a burst. */
  lemma TrustIs(facts: Facts, p: Policy, view: LedgerView, soft: seq<Signal>)
    ensures
      var device, burst := StrangeDevice(facts, view), InBurst(facts);
      EngineFor(facts, p, view, soft).trust ==
        if view.frozen || (device && burst) then Frozen else if device || burst then Elevated else Normal
  {
    hide Judge, RelatedOf, WarningSigns, StrangeDevice, InBurst, IsAboveNormal, IsOddPrice, Warns, AddLedgerResults, EvaluateRules, Protections.Evaluate,
      SessionTrust;
    SignsAre(facts, p, view);
    TrustOf(WarningSigns(facts, view, p), view.frozen);
  }

  lemma TrustOf(w: seq<Signal>, frozen: bool)
    requires |w| == 6 && w[0].id == "W1" && w[1].id == "W2" && w[2].id == "W3" && w[3].id == "W4" && w[4].id == "W5" && w[5].id == "W6"
    requires w[0].strength.Strong? && w[1].strength.Strong? && w[2].strength.Weak? && w[3].strength.Weak? && w[4].strength.Weak? && w[5].strength.Weak?
    ensures SessionTrust(w, frozen) == if frozen || (Warns(w[0]) && Warns(w[1])) then Frozen else if Warns(w[0]) || Warns(w[1]) then Elevated else Normal
  {
    hide Warns;
    forall x ensures x in w <==> x == w[0] || x == w[1] || x == w[2] || x == w[3] || x == w[4] || x == w[5] { SixSigns(w, x); }
    assert w[0] in w && w[1] in w;
  }
}
