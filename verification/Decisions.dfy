/** What a new purchase is decided, over its event, its policy and the ledger's view: from the decision's
    grounds, what an automatic approval means, and when a purchase asks (backend/oneguard/pipeline.py:208-343). */
module Decisions {
  import opened Seqs
  import opened Types
  import opened Ledger
  import opened Views
  import opened PolicyRules
  import opened Warnings
  import Protections
  import opened Ladder
  import opened LadderJoin
  import opened Pipeline
  import opened Approvals
  import opened CleanSheet
  import opened TierTwo
  import opened RuleMeaning
  import opened Standing
  import opened ShieldMeaning
  import opened Verdict

  function ViewAt(s: Store, event: Event, ctx: Context): LedgerView { StoreView(s, ctx.history, QueryFor(event, ctx)) }

  /** The facts the purchase is decided on. */
  function SettledAt(s: Store, event: Event, ctx: Context): Facts { FactsWith(event, ctx, ViewAt(s, event, ctx)) }

  /** No policy of the card's own is in force. */
  predicate Unruled(event: Event, p: Policy) { !p.status.Active? || (p.cardId.Some? && p.cardId.value != event.cardId) }

  // --- The view and the facts ---------------------------------------------------------------------------

  lemma ViewCounts(s: Store, event: Event, ctx: Context)
    ensures SaneCounts(ViewAt(s, event, ctx))
  {
    hide Filter, SortByTs, InWindow, CountApprovals, LastPrices, KeysOf, Fulfilments, PriorsOf, EarlierDecisions,
      WatchedDecisions, WatchOn, RunBefore, NamesOf, OtherCards, LargestOf, DevicesOf, CountriesOf, Flagged, OnCard, OffCard, HeldOn, MaxOf, Map;
  }

  /** The facts are the event's, with the shop known or not by the view, and at most sizes and return
      windows read into the lines; without tier 2 the lines are as they came. */
  lemma SettledIs(s: Store, event: Event, ctx: Context)
    ensures
      var view, facts := ViewAt(s, event, ctx), SettledAt(s, event, ctx);
      && facts == event.facts.(merchantKnown := event.facts.merchantId in view.knownMerchants, items := facts.items)
      && |facts.items| == |event.facts.items|
      && (forall i :: 0 <= i < |facts.items| ==> FillsLine(event.facts.items[i], facts.items[i]))
      && (ctx.tier2.None? ==> facts.items == event.facts.items)
  {
    hide StoreView, AnyRuleUnknown, TopicsAsked;
    var view := ViewAt(s, event, ctx);
    var raw := RawFacts(event, view);
    if ctx.tier2.Some? && AnyRuleUnknown(raw, ctx.policy) {
      var asked := TopicsAsked(raw, ctx.policy, ctx.tier2.value.quoted);
      ReadingFills(raw, ctx.tier2.value.lines, asked);
    }
  }

  /** A line with the words, before reading and after. */
  lemma SettledAlike(s: Store, event: Event, ctx: Context)
    ensures Alike(event.facts.items, SettledAt(s, event, ctx).items)
  {
    hide SettledAt;
    SettledIs(s, event, ctx);
  }

  /** A line with the words, or of a kind, before reading and after. */
  lemma SameAsked(s: Store, event: Event, ctx: Context, wanted: Option<Wanted>)
    ensures (exists ln :: ln in SettledAt(s, event, ctx).items && IsAsked(ln, wanted)) <==> exists ln :: ln in event.facts.items && IsAsked(ln, wanted)
  {
    SettledAlike(s, event, ctx);
    var settled := SettledAt(s, event, ctx).items;
    hide SettledAt;
    SomeFills(event.facts.items, settled, (ln: Item) => IsAsked(ln, wanted));
  }

  lemma SameCategories(s: Store, event: Event, ctx: Context, names: seq<string>)
    ensures (exists ln :: ln in SettledAt(s, event, ctx).items && HasWord(names, ln.category)) <==> exists ln :: ln in event.facts.items && HasWord(names, ln.category)
    ensures (exists ln :: ln in SettledAt(s, event, ctx).items && !HasWord(names, ln.category)) <==> exists ln :: ln in event.facts.items && !HasWord(names, ln.category)
  {
    SettledAlike(s, event, ctx);
    var settled := SettledAt(s, event, ctx).items;
    hide SettledAt, HasWord;
    SameKinds(event.facts.items, settled);
  }

  lemma SameKinds(a: seq<Item>, b: seq<Item>)
    requires Alike(a, b)
    ensures forall ln :: ln in a ==> exists x :: x in b && x.category == ln.category
    ensures forall ln :: ln in b ==> exists x :: x in a && x.category == ln.category
  {
    forall ln | ln in a ensures exists x :: x in b && x.category == ln.category {
      var i :| 0 <= i < |a| && a[i] == ln;
      assert b[i] in b && AlikeLine(a[i], b[i]);
    }
    forall ln | ln in b ensures exists x :: x in a && x.category == ln.category {
      var i :| 0 <= i < |b| && b[i] == ln;
      assert a[i] in a && AlikeLine(a[i], b[i]);
    }
  }

  // --- The decision ------------------------------------------------------------------------------------------

  /** A card without a policy in force of its own: declined at once. */
  lemma UnruledDeclines(s: Store, event: Event, ctx: Context)
    requires Unruled(event, ctx.policy)
    ensures
      var e := Begin(s, event, ctx).entry;
      e.outcome.Decline? && e.step == 1 && e.decidingIds == ["policy_status"] && e.trust.Normal? && e.related.None?
  {
    hide StoreView;
  }

  lemma RuledByEngine(s: Store, event: Event, ctx: Context)
    requires !Unruled(event, ctx.policy)
    ensures
      var e, d := Begin(s, event, ctx).entry, EngineFor(SettledAt(s, event, ctx), ctx.policy, ViewAt(s, event, ctx), ctx.soft);
      e.outcome == d.outcome && e.step == d.step && e.decidingIds == d.decidingIds && e.trust == d.trust && e.related == d.related
  {
    hide StoreView, EngineFor, FactsWith;
  }

  /** Otherwise: the first step with grounds decides, and names exactly its grounds. */
  lemma DecidedBy(s: Store, event: Event, ctx: Context)
    requires Tidy(ctx.policy) && !Unruled(event, ctx.policy)
    ensures
      var e, facts, view := Begin(s, event, ctx).entry, SettledAt(s, event, ctx), ViewAt(s, event, ctx);
      && e.step == StepFor(facts, ctx.policy, view, ctx.soft) && e.outcome == OutcomeFor(facts, ctx.policy, view, ctx.soft)
      && forall id :: id in e.decidingIds <==> Grounds(e.step, e.outcome, id, facts, ctx.policy, view, ctx.soft)
  {
    hide Begin, EngineFor, SettledAt, ViewAt, StepFor, OutcomeFor, Grounds, Tidy;
    var facts, view := SettledAt(s, event, ctx), ViewAt(s, event, ctx);
    ViewCounts(s, event, ctx);
    RuledByEngine(s, event, ctx);
    EngineDecidesBy(facts, ctx.policy, view, ctx.soft);
    forall id ensures id in Begin(s, event, ctx).entry.decidingIds <==>
        Grounds(Begin(s, event, ctx).entry.step, Begin(s, event, ctx).entry.outcome, id, facts, ctx.policy, view, ctx.soft)
    {
      EngineNames(facts, ctx.policy, view, ctx.soft, id);
    }
  }

  /** What the entry records besides. */
  lemma EntryRecords(s: Store, event: Event, ctx: Context)
    ensures
      var e := Begin(s, event, ctx).entry;
      && e.customerId == event.customerId && e.cardId == event.cardId && e.mandateId == ctx.policy.mandateId
      && |e.itemIds| == |event.facts.items| && (forall i :: 0 <= i < |e.itemIds| ==> e.itemIds[i] == event.facts.items[i].itemId)
      && (e.outcome.StepUp? ==> e.deadline == Some(ctx.now + ctx.humanWindow)) && (!e.outcome.StepUp? ==> e.deadline.None?)
      && (Begin(s, event, ctx).injected <==> event.facts.instructionsInText && !Unruled(event, ctx.policy))
  {
    hide StoreView, EngineFor, FactsWith;
    var view := ViewAt(s, event, ctx);
    SettledIs(s, event, ctx);
    if !Unruled(event, ctx.policy) { RecordedItems(event, ctx, view, SettledAt(s, event, ctx)); }
  }

  lemma RecordedItems(event: Event, ctx: Context, view: LedgerView, facts: Facts)
    requires |facts.items| == |event.facts.items| && forall i :: 0 <= i < |facts.items| ==> FillsLine(event.facts.items[i], facts.items[i])
    ensures
      var ids := Protections.CartIds(facts);
      |ids| == |event.facts.items| && forall i :: 0 <= i < |ids| ==> ids[i] == event.facts.items[i].itemId
  {
    forall i | 0 <= i < |facts.items| ensures facts.items[i].itemId == event.facts.items[i].itemId { assert FillsLine(event.facts.items[i], facts.items[i]); }
  }

  // --- What an approval means --------------------------------------------------------------------------------

  /** Under a policy that asks or declines when unsure, a purchase is approved automatically exactly when
      nothing is idle, every rule and stated flag is met, no protection fires and no signs ask. */
  lemma ApprovedExactly(s: Store, event: Event, ctx: Context)
    requires Tidy(ctx.policy) && !Unruled(event, ctx.policy) && !ctx.policy.setting.ApproveIt?
    ensures
      var facts, view, p := SettledAt(s, event, ctx), ViewAt(s, event, ctx), ctx.policy;
      Begin(s, event, ctx).entry.outcome.Approve? <==>
        && event.facts.authorityActive && event.facts.cardActive
        && (forall r :: r in p.rules ==> RuleStanding(r, facts, p.requestedItem, view) == Met)
        && (forall id :: FlagStated(id, p) ==> FlagStanding(id, facts, p, view) == Met)
        && (forall id :: !Stops(id, facts, p, view)) && (forall id :: !Questions(id, facts, p, view))
        && (forall id :: !SignFor(id, facts, p, view, ctx.soft)) && !view.frozen
  {
    hide Begin, SettledAt, ViewAt, Grounds, Tidy, RuleStanding, FlagStanding, FlagStated, Stops, Questions, SignFor;
    var facts, view, p := SettledAt(s, event, ctx), ViewAt(s, event, ctx), ctx.policy;
    DecidedBy(s, event, ctx);
    SettledIs(s, event, ctx);
    NothingIdle(facts, p);
    AllMet(facts, p, view);
    hide AnyIdle, AnyStands;
  }

  lemma NothingIdle(facts: Facts, p: Policy)
    ensures AnyIdle(facts, p) <==> !(p.status.Active? && facts.authorityActive && facts.cardActive)
  {
    if !p.status.Active? { assert IsIdle("policy_status", facts, p); }
    if !facts.authorityActive { assert IsIdle("authority_status", facts, p); }
    if !facts.cardActive { assert IsIdle("card_status", facts, p); }
  }

  lemma AllMet(facts: Facts, p: Policy, view: LedgerView)
    ensures
      (!AnyStands(Broken, facts, p, view) && !AnyStands(HeldUp, facts, p, view) && !AnyStands(Open, facts, p, view)) <==>
        && (forall r :: r in p.rules ==> RuleStanding(r, facts, p.requestedItem, view) == Met)
        && (forall id :: FlagStated(id, p) ==> FlagStanding(id, facts, p, view) == Met)
  {
    hide RuleStanding, FlagStanding, FlagStated;
    if r :| r in p.rules && RuleStanding(r, facts, p.requestedItem, view) != Met {
      assert StandsAt(r.id, RuleStanding(r, facts, p.requestedItem, view), facts, p, view);
    }
    if id :| FlagStated(id, p) && FlagStanding(id, facts, p, view) != Met {
      assert StandsAt(id, FlagStanding(id, facts, p, view), facts, p, view);
    }
  }

  /** C5: with an item asked for, an approval's cart has a line with all its words; without one the
      purchase is declined, and by the policy's rules it is declined for C5. */
  lemma HoldsWhatWasAsked(s: Store, event: Event, ctx: Context)
    requires Tidy(ctx.policy) && ctx.policy.requestedItem.Some?
    ensures
      var e, words := Begin(s, event, ctx).entry, ctx.policy.requestedItem.value.words;
      (words == {} || forall ln :: ln in event.facts.items ==> !(words <= ln.words)) ==>
        e.outcome.Decline? && e.step <= 2 && (e.step == 2 ==> "C5" in e.decidingIds)
  {
    hide Begin, SettledAt, ViewAt, RuleStanding, Stops, Questions, SignFor, Tidy;
    if Unruled(event, ctx.policy) {
      UnruledDeclines(s, event, ctx);
    } else {
      var facts, view, p := SettledAt(s, event, ctx), ViewAt(s, event, ctx), ctx.policy;
      DecidedBy(s, event, ctx);
      SameAsked(s, event, ctx, p.requestedItem);
      if p.requestedItem.value.words == {} || forall ln :: ln in event.facts.items ==> !(p.requestedItem.value.words <= ln.words) {
        assert forall ln :: ln in event.facts.items ==> !IsAsked(ln, p.requestedItem);
        FlagBreaks("C5", facts, p, view);
      }
    }
  }

  lemma FlagBreaks(id: string, facts: Facts, p: Policy, view: LedgerView)
    requires FlagStated(id, p) && FlagViolated(id, facts, p) && id != "C9"
    ensures StandsAt(id, Broken, facts, p, view) && AnyStands(Broken, facts, p, view)
  {
    hide FlagStated, FlagViolated, RuleStanding;
  }

  /** C3, C4, C8: a stated flag on item or shop types that the purchase violates declines it, and by the
      policy's rules it is declined for that flag. */
  lemma KeepsToTypes(s: Store, event: Event, ctx: Context, id: string)
    requires Tidy(ctx.policy) && FlagStated(id, ctx.policy)
    ensures
      var e, p := Begin(s, event, ctx).entry, ctx.policy;
      && (id == "C3" && (exists ln :: ln in event.facts.items && !HasWord(p.allowed, ln.category)) ==> DeclinedFor(id, e))
      && (id == "C4" && (exists ln :: ln in event.facts.items && HasWord(p.blocked, ln.category)) ==> DeclinedFor(id, e))
      && (id == "C8" && !SameText(p.shopType.value, event.facts.merchantCategory) ==> DeclinedFor(id, e))
  {
    hide Begin, SettledAt, ViewAt, RuleStanding, Stops, Questions, SignFor, Tidy, HasWord, SameText;
    if Unruled(event, ctx.policy) {
      UnruledDeclines(s, event, ctx);
    } else {
      var facts, view, p := SettledAt(s, event, ctx), ViewAt(s, event, ctx), ctx.policy;
      DecidedBy(s, event, ctx);
      SettledIs(s, event, ctx);
      SameCategories(s, event, ctx, p.allowed);
      SameCategories(s, event, ctx, p.blocked);
      if FlagViolated(id, facts, p) && id != "C9" { FlagBreaks(id, facts, p, view); }
    }
  }

  predicate DeclinedFor(id: string, e: Entry) { e.outcome.Decline? && e.step <= 2 && (e.step == 2 ==> id in e.decidingIds) }

  /** A rule broken for good declines, whatever else, and by the policy's rules it is named. */
  lemma BrokenRuleDeclines(s: Store, event: Event, ctx: Context, r: Rule)
    requires Tidy(ctx.policy) && r in ctx.policy.rules
    requires RuleStanding(r, SettledAt(s, event, ctx), ctx.policy.requestedItem, ViewAt(s, event, ctx)) == Broken
    ensures DeclinedFor(r.id, Begin(s, event, ctx).entry)
  {
    hide Begin, SettledAt, ViewAt, RuleStanding, Stops, Questions, SignFor, Tidy;
    if Unruled(event, ctx.policy) {
      UnruledDeclines(s, event, ctx);
    } else {
      DecidedBy(s, event, ctx);
      assert StandsAt(r.id, Broken, SettledAt(s, event, ctx), ctx.policy, ViewAt(s, event, ctx));
    }
  }

  // --- Held up ---------------------------------------------------------------------------------------------

  /** M5: a purchase that only unanswered step-ups hold up is asked about, never declined, and the limit is named. */
  lemma HeldUpAsks(s: Store, event: Event, ctx: Context, r: Rule)
    requires Tidy(ctx.policy) && !Unruled(event, ctx.policy) && event.facts.authorityActive && event.facts.cardActive
    requires
      var facts, view, p := SettledAt(s, event, ctx), ViewAt(s, event, ctx), ctx.policy;
      && r in p.rules && RuleStanding(r, facts, p.requestedItem, view) == HeldUp
      && (forall x :: x in p.rules ==> RuleStanding(x, facts, p.requestedItem, view) in {Met, HeldUp})
      && (forall id :: FlagStated(id, p) ==> FlagStanding(id, facts, p, view) == Met)
      && (forall id :: !Stops(id, facts, p, view))
    ensures
      var e := Begin(s, event, ctx).entry;
      e.outcome.StepUp? && e.step == 4 && r.id in e.decidingIds
  {
    hide Begin, SettledAt, ViewAt, RuleStanding, FlagStanding, FlagStated, Stops, Questions, SignFor, Tidy;
    var facts, view, p := SettledAt(s, event, ctx), ViewAt(s, event, ctx), ctx.policy;
    DecidedBy(s, event, ctx);
    SettledIs(s, event, ctx);
    NothingIdle(facts, p);
    assert StandsAt(r.id, HeldUp, facts, p, view);
    assert !AnyStands(Broken, facts, p, view) && !AnyStands(Open, facts, p, view);
  }

  // --- Instructions in the shop's text ---------------------------------------------------------------------

  /** A1: text that instructs the agent is never approved automatically, whatever the policy. */
  lemma InstructionsNeverApproved(s: Store, event: Event, ctx: Context)
    requires event.facts.instructionsInText
    ensures !Begin(s, event, ctx).entry.outcome.Approve?
  {
    hide Begin, EngineFor, SettledAt, ViewAt, Protections.Evaluate;
    if Unruled(event, ctx.policy) {
      UnruledDeclines(s, event, ctx);
    } else {
      var facts, view := SettledAt(s, event, ctx), ViewAt(s, event, ctx);
      RuledByEngine(s, event, ctx);
      SettledIs(s, event, ctx);
      if Begin(s, event, ctx).entry.outcome.Approve? {
        NothingTriggered(facts, ctx.policy, view, ctx.soft);
        ShieldsAsk(facts, ctx.policy, view, "A1");
      }
    }
  }

  /** With everything the earlier steps look at clean, it is asked about, and named. */
  lemma InstructionsAsk(s: Store, event: Event, ctx: Context)
    requires Tidy(ctx.policy) && !Unruled(event, ctx.policy) && event.facts.instructionsInText
    requires
      var facts, view, p := SettledAt(s, event, ctx), ViewAt(s, event, ctx), ctx.policy;
      && event.facts.authorityActive && event.facts.cardActive
      && (forall r :: r in p.rules ==> RuleStanding(r, facts, p.requestedItem, view) == Met)
      && (forall id :: FlagStated(id, p) ==> FlagStanding(id, facts, p, view) == Met)
      && (forall id :: !Stops(id, facts, p, view))
    ensures
      var e := Begin(s, event, ctx).entry;
      e.outcome.StepUp? && e.step == 5 && "A1" in e.decidingIds
  {
    hide Begin, SettledAt, ViewAt, RuleStanding, FlagStanding, FlagStated, Stops, SignFor, Tidy;
    var facts, view, p := SettledAt(s, event, ctx), ViewAt(s, event, ctx), ctx.policy;
    DecidedBy(s, event, ctx);
    SettledIs(s, event, ctx);
    NothingIdle(facts, p);
    AllMet(facts, p, view);
    assert Questions("A1", facts, p, view);
    hide Questions, AnyIdle, AnyStands;
  }

  // --- Trust -----------------------------------------------------------------------------------------------

  /** The purchase comes from no device or a strange one, in a burst of attempts. */
  predicate IsAttack(event: Event, view: LedgerView) {
    && (event.facts.deviceId == "" || (event.facts.deviceId !in view.knownDevices && view.knownMerchants != {}))
    && event.facts.recentAttempts >= 2
  }

  /** A purchase is stored as frozen exactly under the watch or in such an attack. */
  lemma FrozenIff(s: Store, event: Event, ctx: Context)
    requires !Unruled(event, ctx.policy)
    ensures Begin(s, event, ctx).entry.trust.Frozen? <==> ViewAt(s, event, ctx).frozen || IsAttack(event, ViewAt(s, event, ctx))
  {
    hide Begin, EngineFor, SettledAt, ViewAt;
    RuledByEngine(s, event, ctx);
    SettledIs(s, event, ctx);
    TrustIs(SettledAt(s, event, ctx), ctx.policy, ViewAt(s, event, ctx), ctx.soft);
  }
}
