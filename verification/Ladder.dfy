/** The seven-step ladder (backend/oneguard/engine/decide.py): rule results and signals in,
    one decision out. */
module Ladder {
  import opened Seqs
  import opened Types
  import opened PolicyRules

  /** A triggered sign that asks; "no baseline yet" never does. */
  predicate Warns(s: Signal) { s.triggered && !s.effect.InfoEffect? }
  predicate Asks(s: Signal) { s.triggered && s.effect.AskEffect? }
  predicate Blocks(s: Signal) { s.triggered && s.effect.DeclineEffect? }
  predicate WarnsStrongly(s: Signal) { Warns(s) && s.strength.Strong? }
  predicate WarnsWeakly(s: Signal) { Warns(s) && s.strength.Weak? }
  predicate IsStep1(r: RuleResult) { r.ruleId in STEP1_IDS }
  predicate IsCustomer(r: RuleResult) { r.ruleId !in STEP1_IDS }
  predicate IsUnknown(r: RuleResult) { r.outcome.Unknown? }

  function SignalId(s: Signal): string { s.id }
  function ResultId(r: RuleResult): string { r.ruleId }

  function SessionTrust(warnings: seq<Signal>, frozen: bool): Trust {
    var newDevice := exists w :: w in warnings && w.id == "W1" && Warns(w);
    var burst := exists w :: w in warnings && w.id == "W2" && Warns(w);
    if (newDevice && burst) || frozen then Frozen
    else if exists w :: w in warnings && WarnsStrongly(w) then Elevated
    else Normal
  }

  /** The last result reported for a step-1 id. */
  function LastResult(results: seq<RuleResult>, id: string): (r: Option<RuleResult>)
    ensures r.None? <==> forall x :: x in results ==> x.ruleId != id
    ensures r.Some? ==> r.value in results && r.value.ruleId == id
  {
    if results == [] then None
    else if results[|results| - 1].ruleId == id then Some(results[|results| - 1])
    else
      assert results == results[..|results| - 1] + [results[|results| - 1]];
      LastResult(results[..|results| - 1], id)
  }

  /** P3: a period rule with no result was not checked, so it is unknown. */
  function Unreported(rules: seq<Rule>, reported: seq<RuleResult>): (r: seq<RuleResult>)
    ensures forall x :: x in r ==> x.outcome.Unknown?
    ensures r == [] <==> forall p :: p in rules && p.scope.PerPeriod? ==> exists x :: x in reported && x.ruleId == p.id
  {
    if rules == [] then []
    else
      var p := rules[|rules| - 1];
      assert rules == rules[..|rules| - 1] + [p];
      Unreported(rules[..|rules| - 1], reported)
      + (if p.scope.PerPeriod? && !(exists x :: x in reported && x.ruleId == p.id) then [Undecided(p.id)] else [])
  }

  function CustomerResults(results: seq<RuleResult>, rules: seq<Rule>): seq<RuleResult> {
    var stated := Filter(results, IsCustomer);
    stated + Unreported(rules, stated)
  }

  /** M5: a period limit that fails only because of pending reservations. */
  predicate ReservedOnly(r: RuleResult, rules: seq<Rule>) {
    var rule := RuleById(rules, r.ruleId);
    r.outcome.Fail? && rule.Some? && rule.value.scope.PerPeriod? && r.mark.ReservationOnly?
  }

  predicate Broken(r: RuleResult, rules: seq<Rule>) { r.outcome.Fail? && !ReservedOnly(r, rules) }

  predicate Inactive(results: seq<RuleResult>, id: string) {
    var r := LastResult(results, id);
    r.Some? && r.value.outcome.Fail?
  }

  predicate Unsure(results: seq<RuleResult>, id: string) {
    var r := LastResult(results, id);
    r.None? || !r.value.outcome.Pass?
  }

  function RelatedIn(signals: seq<Signal>): Option<(string, Relation)> {
    if signals == [] then None
    else if signals[0].related.Some? then signals[0].related
    else RelatedIn(signals[1..])
  }

  predicate HasRelated(s: Signal, id: string) { s.id == id && s.triggered && s.related.Some? }

  function RelatedOf(deciding: seq<Signal>, signals: seq<Signal>): Option<(string, Relation)> {
    var first := RelatedIn(deciding);
    if first.Some? then first
    else
      var a3 := RelatedIn(Filter(signals, (s: Signal) => HasRelated(s, "A3")));
      if a3.Some? then a3
      else
        var a4 := RelatedIn(Filter(signals, (s: Signal) => HasRelated(s, "A4")));
        if a4.Some? then a4 else RelatedIn(Filter(signals, (s: Signal) => HasRelated(s, "A5")))
  }

  // --- The lists the steps read -------------------------------------------------------

  function Step1Seen(results: seq<RuleResult>): (ids: seq<string>)
    ensures forall id :: id in ids <==> id in STEP1_IDS && exists r :: r in results && r.ruleId == id
  {
    if results == [] then []
    else
      var last := results[|results| - 1];
      assert results == results[..|results| - 1] + [last];
      Step1Seen(results[..|results| - 1]) + (if IsStep1(last) then [last.ruleId] else [])
  }

  function InactiveIds(results: seq<RuleResult>): (ids: seq<string>)
    ensures ids == [] <==> forall id :: id in STEP1_IDS ==> !Inactive(results, id)
  {
    Filter(Dedupe(Step1Seen(results)), (id: string) => Inactive(results, id))
  }

  function UnsureIds(results: seq<RuleResult>): (ids: seq<string>)
    ensures ids == [] <==> forall id :: id in STEP1_IDS ==> !Unsure(results, id)
  {
    Filter(STEP1_IDS, (id: string) => Unsure(results, id))
  }

  function BrokenResults(customer: seq<RuleResult>, rules: seq<Rule>): (out: seq<RuleResult>)
    ensures out == [] <==> forall r :: r in customer ==> !Broken(r, rules)
  {
    Filter(customer, (r: RuleResult) => Broken(r, rules))
  }

  function ReservedResults(customer: seq<RuleResult>, rules: seq<Rule>): (out: seq<RuleResult>)
    ensures out == [] <==> forall r :: r in customer ==> !ReservedOnly(r, rules)
  {
    Filter(customer, (r: RuleResult) => ReservedOnly(r, rules))
  }

  /** Which step decides, what it decides, and the rules or signals behind it. */
  datatype Verdict = Verdict(outcome: Outcome, step: nat, ids: seq<string>, deciding: seq<Signal>)

  function Judge(results: seq<RuleResult>, protections: seq<Signal>, warnings: seq<Signal>,
                 soft: seq<Signal>, policy: Policy, frozen: bool): Verdict
  {
    // Step 1: policy, authority, card.
    var inactive := InactiveIds(results);
    if inactive != [] then Verdict(Decline, 1, inactive, [])
    else
      // Step 2: a broken rule declines, whatever the uncertainty setting (D1).
      var customer := CustomerResults(results, policy.rules);
      var failed := BrokenResults(customer, policy.rules);
      if failed != [] then Verdict(Decline, 2, Map(failed, ResultId), [])
      else
        // Step 3: protections that decline.
        var blocking := Filter(protections, Blocks);
        if blocking != [] then Verdict(Decline, 3, Map(blocking, SignalId), blocking)
        else JudgeUnknowns(UnsureIds(results), customer, protections, warnings, soft, policy, frozen)
  }

  /** Step 4: unknowns follow the uncertainty setting (C11); reservations ask (M5). */
  function JudgeUnknowns(step1Unsure: seq<string>, customer: seq<RuleResult>, protections: seq<Signal>,
                         warnings: seq<Signal>, soft: seq<Signal>, policy: Policy, frozen: bool): Verdict
  {
    var reserved := ReservedResults(customer, policy.rules);
    var unknown := Filter(customer, IsUnknown);
    var unsure := step1Unsure + Map(unknown, ResultId);
    if unsure != [] && policy.setting.DeclineIt? then Verdict(Decline, 4, unsure, [])
    else if reserved != [] || step1Unsure != [] || (unknown != [] && policy.setting.AskMe?) then
      Verdict(StepUp, 4, Map(reserved, ResultId) + unsure, [])
    else JudgeSigns(protections, warnings, soft, unknown, frozen)
  }

  /** Steps 5 to 7, once the rules leave nothing to stop on. */
  function JudgeSigns(protections: seq<Signal>, warnings: seq<Signal>, soft: seq<Signal>,
                      unknown: seq<RuleResult>, frozen: bool): Verdict
  {
    // Step 5: protections that ask; "already bought" decides only when no other one does.
    var asking := Filter(protections, Asks);
    var others := Filter(asking, (s: Signal) => s.id != "A8");
    var deciding := if others != [] then others else asking;
    if deciding != [] then Verdict(StepUp, 5, Map(deciding, SignalId), deciding)
    else
      // Step 6: one strong sign or two weak ones, soft signals, the session watch.
      var weak := Filter(warnings, WarnsWeakly);
      var signs := Filter(warnings, WarnsStrongly) + (if |weak| >= 2 then weak else []) + Filter(soft, Asks);
      if signs != [] then Verdict(StepUp, 6, Map(signs, SignalId), signs)
      else if frozen then Verdict(StepUp, 6, ["session_watch"], [])
      // Step 7, or step 4 when the customer said to approve when unsure.
      else if unknown != [] then Verdict(Approve, 4, Map(unknown, ResultId), [])
      else Verdict(Approve, 7, [], [])
  }

  function Decide(results: seq<RuleResult>, protections: seq<Signal>, warnings: seq<Signal>,
                  soft: seq<Signal>, policy: Policy, frozen: bool): EngineDecision
  {
    var v := Judge(results, protections, warnings, soft, policy, frozen);
    EngineDecision(v.outcome, v.step, Dedupe(v.ids),
                   RelatedOf(v.deciding, protections + warnings + soft), SessionTrust(warnings, frozen))
  }
}
