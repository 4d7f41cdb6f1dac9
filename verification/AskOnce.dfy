/** From an ask to a pass (P2, C11): a rule no data can check is named by the step-up it causes,
    and once the customer approves that step-up the rule passes for the same items at that shop. */
module AskOnce {
  import opened Seqs
  import opened Types
  import opened Ledger
  import opened Views
  import opened PolicyRules
  import opened Warnings
  import Protections
  import opened Ladder
  import opened LadderJoin
  import opened Pipeline
  import opened Runs
  import opened Remember
  import opened CleanSheet

  lemma UnknownAsksAtFour(results: seq<RuleResult>, protections: seq<Signal>, warnings: seq<Signal>,
                          soft: seq<Signal>, policy: Policy, frozen: bool)
    requires AnyUnknown(CustomerResults(results, policy.rules)) && policy.setting.AskMe?
    requires Decide(results, protections, warnings, soft, policy, frozen).outcome.StepUp?
    ensures Decide(results, protections, warnings, soft, policy, frozen).step == 4
  {
    hide CustomerResults, InactiveIds, BrokenResults, UnsureIds, ReservedResults, RelatedOf, SessionTrust;
  }

  /** The engine asks and an uncheckable rule is unknown: the step-up names that rule. */
  lemma EngineNames(facts: Facts, p: Policy, view: LedgerView, soft: seq<Signal>, rule: Rule)
    requires rule in p.rules && !rule.scope.PerPeriod? && IsUnverifiable(rule) && rule.id !in STEP1_IDS
    requires RuleById(p.rules, rule.id) == Some(rule) && p.setting.AskMe?
    requires EngineFor(facts, p, view, soft).outcome.StepUp? && !ResultFor(rule, facts, p, view).outcome.Pass?
    ensures rule.id in EngineFor(facts, p, view, soft).decidingIds
  {
    hide Decide, CustomerResults, Results, RuleById, Protections.Evaluate, WarningSigns, ResultFor, AddLedgerResults, EvaluateRules;
    var results := Results(facts, p, view);
    var protections, warnings := Protections.Evaluate(facts, p, view), WarningSigns(facts, view, p);
    assert EngineFor(facts, p, view, soft) == Decide(results, protections, warnings, soft, p, view.frozen) by { EngineIs(facts, p, view, soft); }
    UncheckableResult(rule, facts, p, view);
    var res := ResultFor(rule, facts, p, view);
    RuleListed(facts, p, view, rule);
    StatedIsCustomer(results, p.rules, res);
    UnknownAsksAtFour(results, protections, warnings, soft, p, view.frozen);
    StepFourNames(results, protections, warnings, soft, p, view.frozen, rule.id);
  }

  lemma StatedIsCustomer(results: seq<RuleResult>, rules: seq<Rule>, res: RuleResult)
    requires res in results && res.ruleId !in STEP1_IDS
    ensures res in CustomerResults(results, rules)
  {
    assert res in Filter(results, IsCustomer);
  }

  /** The purchase as it was decided. */
  function SettledFacts(s: Store, event: Event, ctx: Context): Facts {
    FactsWith(event, ctx, StoreView(s, ctx.history, QueryFor(event, ctx)))
  }

  lemma AskNamesRule(s: Store, event: Event, ctx: Context, rule: Rule)
    requires !NoActivePolicy(ctx.policy, event.cardId) && ctx.policy.setting.AskMe?
    requires rule in ctx.policy.rules && !rule.scope.PerPeriod? && IsUnverifiable(rule) && rule.id !in STEP1_IDS
    requires RuleById(ctx.policy.rules, rule.id) == Some(rule)
    requires Begin(s, event, ctx).entry.outcome.StepUp?
    requires !ResultFor(rule, SettledFacts(s, event, ctx), ctx.policy, StoreView(s, ctx.history, QueryFor(event, ctx))).outcome.Pass?
    ensures rule.id in Begin(s, event, ctx).entry.decidingIds
    ensures Begin(s, event, ctx).entry.itemIds == Protections.CartIds(SettledFacts(s, event, ctx))
  {
    hide StoreView, EngineFor, FactsWith, RuleById, ResultFor, Protections.CartIds;
    EngineNames(SettledFacts(s, event, ctx), ctx.policy, StoreView(s, ctx.history, QueryFor(event, ctx)), ctx.soft, rule);
  }

  /** Ask once, end to end. A purchase is asked about with an uncheckable rule unknown; its stored
      decision is later approved by the customer; then, after any further steps, the rule passes for
      every purchase of the run at that shop whose items were all in that cart. */
  lemma AskThenRemember(s: Store, event: Event, ctx: Context, rule: Rule, m: Machine, steps: seq<Step>, e: Entry,
                        h: History, q: Query, later: Facts, policy: Policy)
    requires !NoActivePolicy(ctx.policy, event.cardId) && ctx.policy.setting.AskMe?
    requires rule in ctx.policy.rules && !rule.scope.PerPeriod? && IsUnverifiable(rule) && rule.id !in STEP1_IDS
    requires RuleById(ctx.policy.rules, rule.id) == Some(rule) && RuleById(policy.rules, rule.id) == Some(rule)
    requires Begin(s, event, ctx).entry.outcome.StepUp?
    requires !ResultFor(rule, SettledFacts(s, event, ctx), ctx.policy, StoreView(s, ctx.history, QueryFor(event, ctx))).outcome.Pass?
    requires WellFormed(m) && Legal(m, steps)
    requires e in m.store.rows && SameDecision(Stored(Begin(s, event, ctx).entry), e) && CustomerOk(e)
    requires q.runId == ctx.runId && event.facts.ts < q.at && later.merchantId == event.facts.merchantId
    requires forall ln :: ln in later.items ==> ln.itemId in Protections.CartIds(SettledFacts(s, event, ctx))
    ensures ResultFor(rule, later, policy, StoreView(Exec(m, steps).store, h, q)).outcome.Pass?
  {
    hide StoreView, EngineFor, FactsWith, RuleById, ResultFor, Protections.CartIds, Begin, WellFormed, Legal, Exec, NoActivePolicy,
      EarlierLiveRuns, IsUnverifiable, SettledFacts;
    AskNamesRule(s, event, ctx, rule);
    BeginIsNew(s, event, ctx);
    AskedOnce(m, steps, h, e, q, rule, later, policy);
  }
}
