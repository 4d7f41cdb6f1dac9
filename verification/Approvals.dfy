/** What an automatic approval tells about the stages behind it. */
module Approvals {
  import opened Seqs
  import opened Types
  import opened Ledger
  import opened Views
  import opened PolicyRules
  import opened Warnings
  import Protections
  import opened Ladder
  import opened LadderJoin
  import opened Pipeline

  lemma ApprovedByEngine(s: Store, event: Event, ctx: Context)
    requires Begin(s, event, ctx).entry.outcome.Approve?
    ensures
      var view := StoreView(s, ctx.history, QueryFor(event, ctx));
      var facts := FactsWith(event, ctx, view);
      && !NoActivePolicy(ctx.policy, event.cardId)
      && EngineFor(facts, ctx.policy, view, ctx.soft).outcome.Approve?
      && Begin(s, event, ctx).entry == NewEntry(facts, EngineFor(facts, ctx.policy, view, ctx.soft), event, ctx)
      && Begin(s, event, ctx).requested == RequestedBy(facts, ctx.policy)
  {
    var view := StoreView(s, ctx.history, QueryFor(event, ctx));
    ApprovedDraft(view, event, ctx);
  }

  lemma ApprovedDraft(view: LedgerView, event: Event, ctx: Context)
    requires DraftFrom(view, event, ctx).entry.outcome.Approve?
    ensures
      var facts := FactsWith(event, ctx, view);
      && !NoActivePolicy(ctx.policy, event.cardId)
      && EngineFor(facts, ctx.policy, view, ctx.soft).outcome.Approve?
      && DraftFrom(view, event, ctx).entry == NewEntry(facts, EngineFor(facts, ctx.policy, view, ctx.soft), event, ctx)
      && DraftFrom(view, event, ctx).requested == RequestedBy(facts, ctx.policy)
  {
  }

  /** Settled facts keep what the event says about identity, time and money. */
  lemma FactsKeepEvent(event: Event, ctx: Context, view: LedgerView)
    ensures
      var f := FactsWith(event, ctx, view);
      f.id == event.facts.id && f.ts == event.facts.ts && f.amount == event.facts.amount
      && f.merchantId == event.facts.merchantId
  {
  }

  /** Nothing asked or blocked, and the session watch was off. */
  lemma NothingTriggered(facts: Facts, policy: Policy, view: LedgerView, soft: seq<Signal>)
    requires EngineFor(facts, policy, view, soft).outcome.Approve?
    ensures forall s :: s in Protections.Evaluate(facts, policy, view) ==> !Blocks(s) && !Asks(s)
    ensures !view.frozen
  {
    ApproveNeeds(AddLedgerResults(EvaluateRules(facts, policy), facts, policy, view),
                 Protections.Evaluate(facts, policy, view), WarningSigns(facts, view, policy), soft, policy, view.frozen);
  }

  /** Every customer rule passed, or was unknown under the setting "approve". */
  ghost predicate ResultsPass(facts: Facts, policy: Policy, view: LedgerView) {
    forall r :: r in AddLedgerResults(EvaluateRules(facts, policy), facts, policy, view) && r.ruleId !in STEP1_IDS ==>
      r.outcome.Pass? || (r.outcome.Unknown? && policy.setting.ApproveIt?)
  }

  lemma RuleResultsPass(facts: Facts, policy: Policy, view: LedgerView, soft: seq<Signal>)
    requires EngineFor(facts, policy, view, soft).outcome.Approve?
    ensures ResultsPass(facts, policy, view)
  {
    var results := AddLedgerResults(EvaluateRules(facts, policy), facts, policy, view);
    ApproveNeeds(results, Protections.Evaluate(facts, policy, view), WarningSigns(facts, view, policy), soft, policy, view.frozen);
    forall r | r in results && r.ruleId !in STEP1_IDS
      ensures r.outcome.Pass? || (r.outcome.Unknown? && policy.setting.ApproveIt?)
    {
      assert r in Filter(results, IsCustomer);
      assert r in CustomerResults(results, policy.rules);
    }
  }

  lemma PeriodRulePassed(facts: Facts, policy: Policy, view: LedgerView, rule: Rule)
    requires ResultsPass(facts, policy, view)
    requires rule in policy.rules && rule.scope.PerPeriod? && rule.id !in STEP1_IDS
    ensures
      var r := PeriodResult(rule, facts, view);
      r.outcome.Pass? || (r.outcome.Unknown? && policy.setting.ApproveIt?)
  {
    hide EvaluateRules, LedgerChecked;
    var r := PeriodResult(rule, facts, view);
    assert r in PeriodResults(policy.rules, facts, view);
    assert r in AddLedgerResults(EvaluateRules(facts, policy), facts, policy, view);
    assert r.ruleId == rule.id;
  }
}
