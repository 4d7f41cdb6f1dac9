/** One event in, one decision out (backend/oneguard/pipeline.py). `Begin` is everything up to
    the decision, computed from one view of the ledger; `Commit` stores it. */
module Pipeline {
  import opened Seqs
  import opened Types
  import opened Ledger
  import opened Views
  import opened PolicyRules
  import opened Warnings
  import Protections
  import opened Ladder

  datatype Event = Event(facts: Facts, customerId: string, cardId: string)

  /** What tier 2 may be asked to read, and what it answers for one line; an answer not grounded in
      the line's text, or for a fact it may not read, is none. */
  datatype Topic = Sizes | Windows
  datatype LineAnswer = LineAnswer(sizeEu: FactValue, sizeLetter: FactValue, window: Option<nat>)

  /** The answers, and the topics named by the shop's or the customer's words that a rule's detail
      quotes. */
  datatype Reading = Reading(lines: seq<LineAnswer>, quoted: map<Rule, set<Topic>>)

  datatype Context = Context(
    policy: Policy, runId: string, history: History, soft: seq<Signal>, tier2: Option<Reading>,
    humanWindow: int, now: int)

  /** A decision made and not yet stored, with what is remembered beside it. */
  datatype Draft = Draft(entry: Entry, injected: bool, requested: Option<string>)

  /** The shortest period window among the policy's period rules (C2). */
  function PeriodDaysOf(rules: seq<Rule>): (r: Option<nat>)
    ensures r.None? <==> forall x :: x in rules ==> !(x.scope.PerPeriod? && HasWindow(x))
    ensures r.Some? ==> r.value > 0 && forall x :: x in rules && x.scope.PerPeriod? && HasWindow(x) ==> r.value <= x.periodDays.value
    ensures r.Some? ==> exists x :: x in rules && x.scope.PerPeriod? && HasWindow(x) && x.periodDays == r
  {
    if rules == [] then None
    else
      var x := rules[|rules| - 1];
      var rest := PeriodDaysOf(rules[..|rules| - 1]);
      assert rules == rules[..|rules| - 1] + [x];
      if !(x.scope.PerPeriod? && HasWindow(x)) then rest
      else if rest.None? || x.periodDays.value < rest.value then x.periodDays
      else rest
  }

  /** The card has no active policy of its own (step 1). */
  predicate NoActivePolicy(p: Policy, cardId: string) {
    !p.status.Active? || (p.cardId.Some? && p.cardId.value != cardId)
  }

  function QueryFor(event: Event, ctx: Context): Query {
    Query(ctx.runId, event.customerId, event.cardId, event.facts.ts, PeriodDaysOf(ctx.policy.rules))
  }

  function NotedOf(event: Event): Noted { Noted(event.facts.deviceId, event.facts.merchantCountry) }

  /** Only an unknown fact is filled. */
  function Filled(fact: FactValue, read: FactValue): FactValue { if fact.Known? then fact else read }

  function FilledWindow(window: LineWindow, read: Option<nat>): LineWindow {
    if window.NotStated? && read.Some? then Stated(read.value) else window
  }

  function FilledLine(line: Item, answer: LineAnswer, asked: set<Topic>): Item {
    line.(sizeEu := if Sizes in asked then Filled(line.sizeEu, answer.sizeEu) else line.sizeEu,
          sizeLetter := if Sizes in asked then Filled(line.sizeLetter, answer.sizeLetter) else line.sizeLetter,
          window := if Windows in asked then FilledWindow(line.window, answer.window) else line.window)
  }

  function FilledLines(items: seq<Item>, lines: seq<LineAnswer>, asked: set<Topic>): (filled: seq<Item>)
    ensures |filled| == |items|
    ensures forall i :: 0 <= i < |items| ==> filled[i] == if i < |lines| then FilledLine(items[i], lines[i], asked) else items[i]
  {
    seq(|items|, i requires 0 <= i < |items| => if i < |lines| then FilledLine(items[i], lines[i], asked) else items[i])
  }

  /** The facts once the topics asked for have been read; the order's window follows its lines'. */
  function WithReading(facts: Facts, lines: seq<LineAnswer>, asked: set<Topic>): Facts {
    facts.(items := FilledLines(facts.items, lines, asked))
  }

  predicate AnyRuleUnknown(facts: Facts, p: Policy) { exists r :: r in EvaluateRules(facts, p) && r.outcome.Unknown? }

  predicate RuleUnknown(r: Rule, facts: Facts, p: Policy) {
    !r.scope.PerPeriod? && EvaluateTypedRule(r, facts, p).outcome.Unknown?
  }

  /** The topics an unknown rule's detail names: by its field ("Size not stated", "Returns: ...",
      "Returnable ..."), and by the words it quotes. */
  function TopicsOf(r: Rule, quoted: map<Rule, set<Topic>>): set<Topic> {
    (if r.field.SizeEu? || r.field.SizeLetter? then {Sizes} else {})
    + (if r.field.ReturnWindow? || r.field.Returnable? then {Windows} else {})
    + (if r in quoted then quoted[r] else {})
  }

  function TopicsNamed(rules: seq<Rule>, facts: Facts, p: Policy, quoted: map<Rule, set<Topic>>): (named: set<Topic>)
    ensures forall t :: t in named <==> exists r :: r in rules && RuleUnknown(r, facts, p) && t in TopicsOf(r, quoted)
  {
    if rules == [] then {}
    else
      var last := rules[|rules| - 1];
      assert rules == rules[..|rules| - 1] + [last];
      TopicsNamed(rules[..|rules| - 1], facts, p, quoted) + (if RuleUnknown(last, facts, p) then TopicsOf(last, quoted) else {})
  }

  /** `_relevant`: the topics named, or both when none is. */
  function TopicsAsked(facts: Facts, p: Policy, quoted: map<Rule, set<Topic>>): set<Topic> {
    var named := TopicsNamed(p.rules, facts, p, quoted);
    if named == {} then {Sizes, Windows} else named
  }

  /** Tier 2 reads the text only when a rule is unknown. */
  function AfterTier2(facts: Facts, ctx: Context): Facts {
    if ctx.tier2.Some? && AnyRuleUnknown(facts, ctx.policy)
    then WithReading(facts, ctx.tier2.value.lines, TopicsAsked(facts, ctx.policy, ctx.tier2.value.quoted))
    else facts
  }

  /** The purchase's facts before tier 2. */
  function RawFacts(event: Event, view: LedgerView): Facts {
    event.facts.(merchantKnown := event.facts.merchantId in view.knownMerchants)
  }

  function FactsWith(event: Event, ctx: Context, view: LedgerView): Facts { AfterTier2(RawFacts(event, view), ctx) }

  /** The engine's stages on settled facts: rules, protections, signs, then the ladder. */
  function EngineFor(facts: Facts, policy: Policy, view: LedgerView, soft: seq<Signal>): EngineDecision {
    Decide(AddLedgerResults(EvaluateRules(facts, policy), facts, policy, view),
           Protections.Evaluate(facts, policy, view), WarningSigns(facts, view, policy), soft, policy, view.frozen)
  }

  const NO_ACTIVE_POLICY := EngineDecision(Decline, 1, ["policy_status"], None, Normal)

  function NewEntry(facts: Facts, d: EngineDecision, event: Event, ctx: Context): Entry {
    Entry(facts.id, ctx.runId, ctx.policy.mandateId, event.cardId, event.customerId, facts.ts,
          d.outcome, !d.outcome.StepUp?, if d.outcome.StepUp? then Waiting else Unasked, 0, 0,
          facts.merchantId, Protections.CartIds(facts), facts.amount, d.related, d.trust, d.step, d.decidingIds,
          if d.outcome.StepUp? then Some(ctx.now + ctx.humanWindow) else None, None, Nobody)
  }

  function DraftFrom(view: LedgerView, event: Event, ctx: Context): Draft {
    if NoActivePolicy(ctx.policy, event.cardId) then
      var facts := event.facts.(merchantKnown := event.facts.merchantId in view.knownMerchants);
      Draft(NewEntry(facts, NO_ACTIVE_POLICY, event, ctx), false, RequestedBy(facts, ctx.policy))
    else
      var facts := FactsWith(event, ctx, view);
      Draft(NewEntry(facts, EngineFor(facts, ctx.policy, view, ctx.soft), event, ctx),
            facts.instructionsInText, RequestedBy(facts, ctx.policy))
  }

  /** What a new entry takes from the purchase, whatever was decided. */
  predicate IsNewFor(e: Entry, event: Event, ctx: Context) {
    && e.id == event.facts.id && e.runId == ctx.runId && e.ts == event.facts.ts
    && e.amount == event.facts.amount && e.merchantId == event.facts.merchantId
    && e.cardId == event.cardId && e.mandateId == ctx.policy.mandateId
    && e.reserved == 0 && e.spent == 0 && e.resolvedBy.Nobody?
    && (e.outcome.StepUp? <==> !e.final)
    && e.answer == if e.outcome.StepUp? then Waiting else Unasked
  }

  lemma DraftIsNew(view: LedgerView, event: Event, ctx: Context)
    ensures IsNewFor(DraftFrom(view, event, ctx).entry, event, ctx)
  {
    var facts := event.facts.(merchantKnown := event.facts.merchantId in view.knownMerchants);
    var settled := AfterTier2(facts, ctx);
    assert settled.id == facts.id && settled.ts == facts.ts && settled.amount == facts.amount && settled.merchantId == facts.merchantId;
    var d := EngineFor(settled, ctx.policy, view, ctx.soft);
    assert IsNewFor(NewEntry(settled, d, event, ctx), event, ctx);
    assert IsNewFor(NewEntry(facts, NO_ACTIVE_POLICY, event, ctx), event, ctx);
  }

  function RequestedBy(facts: Facts, policy: Policy): Option<string> {
    if Protections.HoldsRequested(facts, policy) then Some(policy.requestedItem.value.text) else None
  }

  /** The decision on a purchase that is not stored yet. */
  function Begin(s: Store, event: Event, ctx: Context): Draft {
    DraftFrom(StoreView(s, ctx.history, QueryFor(event, ctx)), event, ctx)
  }

  lemma BeginIsNew(s: Store, event: Event, ctx: Context)
    ensures IsNewFor(Begin(s, event, ctx).entry, event, ctx)
  {
    DraftIsNew(StoreView(s, ctx.history, QueryFor(event, ctx)), event, ctx);
  }

  function Commit(s: Store, d: Draft): Store {
    var recorded := Record(s, d.entry).0;
    var flagged := if d.injected then FlagMerchant(recorded, d.entry.runId, d.entry.merchantId) else recorded;
    if d.requested.Some? then MarkRequested(flagged, d.entry.id, d.requested.value) else flagged
  }

  function FromEntry(e: Entry): EngineDecision {
    EngineDecision(e.outcome, e.step, e.decidingIds, e.related, e.trust)
  }

  /** `decide_event`: a redelivery returns what is stored, a new purchase is decided and stored. */
  function DecideEvent(s: Store, event: Event, ctx: Context): (Store, EngineDecision) {
    var noted := NoteEvent(s, event.facts.id, NotedOf(event));
    match Find(noted.rows, event.facts.id)
    case Some(stored) => (noted, FromEntry(stored))
    case None =>
      var draft := Begin(noted, event, ctx);
      (Commit(noted, draft), FromEntry(draft.entry))
  }

  // --- Closing a step-up (backend/oneguard/api/offline.py) ------------------------------

  /** The customer answers: refused at or after the deadline. */
  function CustomerAnswer(s: Store, id: string, approve: bool, now: int): Result<Store> {
    match Find(s.rows, id)
    case None => Err(UnknownId)
    case Some(e) =>
      if !IsPending(e) then Err(NotAwaiting)
      else if e.deadline.Some? && now >= e.deadline.value then Err(WindowClosed)
      else Resolve(s, id, approve, Customer, now)
  }

  /** Nobody answered: declined, and the reservation released (Q2). */
  function Expire(s: Store, id: string, now: int): Result<Store> {
    Resolve(s, id, false, Timeout, now)
  }
}
