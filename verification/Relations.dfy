/** What an order is related to (backend/oneguard/engine/decide.py:136-144): the order it repeats, else
    the one it splits, else the decline it re-quotes, whichever step decides. */
module Relations {
  import opened Seqs
  import opened Types
  import opened Ledger
  import opened PolicyRules
  import opened Warnings
  import opened Protections
  import opened Ladder
  import opened LadderJoin
  import opened Pipeline
  import opened ShieldMeaning

  lemma {:induction false} RelatedAppend(s: seq<Signal>, x: Signal)
    ensures RelatedIn(s + [x]) == if RelatedIn(s).Some? then RelatedIn(s) else x.related
    decreases |s|
  {
    if s == [] {
      assert [x][1..] == [];
    } else {
      assert (s + [x])[1..] == s[1..] + [x];
      RelatedAppend(s[1..], x);
    }
  }

  /** Nothing before i is kept and related. */
  ghost predicate NoneBefore(s: seq<Signal>, keep: Signal -> bool, i: int)
    requires 0 <= i <= |s|
  {
    forall j :: 0 <= j < i && keep(s[j]) ==> s[j].related.None?
  }

  lemma {:induction false} NoneKept(s: seq<Signal>, keep: Signal -> bool)
    requires NoneBefore(s, keep, |s|)
    ensures RelatedIn(Filter(s, keep)) == None
  {
    if s != [] {
      var init, last := s[..|s| - 1], s[|s| - 1];
      assert NoneBefore(init, keep, |init|);
      NoneKept(init, keep);
      RelatedAppend(Filter(init, keep), last);
    }
  }

  lemma {:induction false} FirstKept(s: seq<Signal>, keep: Signal -> bool, i: nat)
    requires i < |s| && keep(s[i]) && s[i].related.Some? && NoneBefore(s, keep, i)
    ensures RelatedIn(Filter(s, keep)) == s[i].related
  {
    var init, last := s[..|s| - 1], s[|s| - 1];
    RelatedAppend(Filter(init, keep), last);
    if i < |init| {
      assert NoneBefore(init, keep, i);
      FirstKept(init, keep, i);
    } else {
      assert NoneBefore(init, keep, |init|);
      NoneKept(init, keep);
    }
  }

  /** The latest earlier order that meets the test. */
  ghost predicate IsLatest(i: int, priors: seq<Prior>, test: Prior -> bool) {
    0 <= i < |priors| && test(priors[i]) && forall j :: i < j < |priors| ==> !test(priors[j])
  }

  lemma {:induction false} LastIs(priors: seq<Prior>, test: Prior -> bool)
    ensures LastPrior(priors, test).Some? ==> exists i :: IsLatest(i, priors, test) && priors[i] == LastPrior(priors, test).value
  {
    if priors != [] && test(priors[|priors| - 1]) {
      assert IsLatest(|priors| - 1, priors, test);
    } else if priors != [] && LastPrior(priors, test).Some? {
      var init := priors[..|priors| - 1];
      LastIs(init, test);
      var i :| IsLatest(i, init, test) && init[i] == LastPrior(init, test).value;
      assert IsLatest(i, priors, test);
    }
  }

  /** The order repeated last: of the same items at a near amount at the shop, in the last day. */
  ghost predicate RepeatsLast(i: int, facts: Facts, view: LedgerView) {
    && 0 <= i < |view.priors| && Precedes(view.priors[i], facts, 86400) && IsSameCart(view.priors[i], facts)
    && forall j :: i < j < |view.priors| ==> !(Precedes(view.priors[j], facts, 86400) && IsSameCart(view.priors[j], facts))
  }

  /** The order split last: over a limit together with this one, in the last ten minutes. */
  ghost predicate SplitsLast(i: int, facts: Facts, p: Policy, view: LedgerView) {
    && 0 <= i < |view.priors| && Precedes(view.priors[i], facts, 600) && OverLimit(view.priors[i].amount + facts.amount, p.rules)
    && forall j :: i < j < |view.priors| ==> !(Precedes(view.priors[j], facts, 600) && OverLimit(view.priors[j].amount + facts.amount, p.rules))
  }

  lemma RepeatRelated(facts: Facts, view: LedgerView)
    ensures
      var x := Duplicate(facts, view, Requoted(facts, view));
      && x.id == "A3" && (x.triggered <==> x.related.Some?)
      && (x.related.Some? ==> exists i :: RepeatsLast(i, facts, view) && x.related == Some((view.priors[i].id, DuplicateOf)))
  {
    hide Requoted, IsRepeat, IsSameCart, IsEarlier, Precedes, LastPrior;
    var test := (p: Prior) => IsEarlier(facts, p, DUPLICATE_WINDOW) && IsRepeat(facts, p);
    LastIs(view.priors, test);
    forall p ensures test(p) <==> Precedes(p, facts, 86400) && IsSameCart(p, facts) {
      EarlierIff(p, facts);
      SameCartIff(p, facts);
    }
    if LastPrior(view.priors, test).Some? {
      var i :| IsLatest(i, view.priors, test) && view.priors[i] == LastPrior(view.priors, test).value;
      assert RepeatsLast(i, facts, view);
    }
  }

  lemma SplitRelated(facts: Facts, p: Policy, view: LedgerView)
    ensures
      var x := Split(facts, p.rules, view);
      && x.id == "A4" && (x.triggered <==> x.related.Some?)
      && (x.related.Some? ==> exists i :: SplitsLast(i, facts, p, view) && x.related == Some((view.priors[i].id, SplitOf)))
  {
    hide PerOrderLimit, IsEarlier, Precedes, OverLimit, Exceeds, LastPrior;
    var limit := PerOrderLimit(p.rules);
    if limit.Some? {
      var test := (q: Prior) => IsEarlier(facts, q, SPLIT_WINDOW) && Exceeds(q.amount + facts.amount, limit.value);
      LastIs(view.priors, test);
      forall q ensures test(q) <==> Precedes(q, facts, 600) && OverLimit(q.amount + facts.amount, p.rules) {
        EarlierIff(q, facts);
        ExceedsIff(q.amount + facts.amount, p.rules);
      }
      if LastPrior(view.priors, test).Some? {
        var i :| IsLatest(i, view.priors, test) && view.priors[i] == LastPrior(view.priors, test).value;
        assert SplitsLast(i, facts, p, view);
      }
    }
  }

  /** Which of the eight signals relate the order to another. */
  ghost predicate ShieldsRelate(s: seq<Signal>) {
    && |s| == 8 && s[2].id == "A3" && s[3].id == "A4" && s[4].id == "A5"
    && (forall i :: 0 <= i < 8 && i != 2 && i != 3 && i != 4 ==> s[i].related.None? && s[i].id != "A3" && s[i].id != "A4" && s[i].id != "A5")
    && s[2].effect.AskEffect? && s[3].effect.AskEffect? && s[4].effect.InfoEffect?
    && (s[2].triggered <==> s[2].related.Some?) && (s[3].triggered <==> s[3].related.Some?) && (s[4].triggered <==> s[4].related.Some?)
  }

  lemma ShieldsRelated(facts: Facts, p: Policy, view: LedgerView)
    ensures ShieldsRelate(Evaluate(facts, p, view))
  {
    RepeatRelated(facts, view);
    SplitRelated(facts, p, view);
    hide Requoted, LastPrior, PerOrderLimit, HoldsRequested, BoughtAlready, LooksAlike, Split, Duplicate;
    assert Split(facts, p.rules, view).effect.AskEffect? && Duplicate(facts, view, Requoted(facts, view)).effect.AskEffect? by { TheyAsk(facts, p, view); }
  }

  lemma TheyAsk(facts: Facts, p: Policy, view: LedgerView)
    ensures Split(facts, p.rules, view).effect.AskEffect? && Duplicate(facts, view, Requoted(facts, view)).effect.AskEffect?
  {
    hide Requoted, LastPrior, PerOrderLimit;
  }

  /** The first of the three that fired. */
  function FirstFired(s: seq<Signal>): Option<(string, Relation)>
    requires |s| == 8
  {
    if s[2].triggered then s[2].related else if s[3].triggered then s[3].related else s[4].related
  }

  lemma KeptRelation(s: seq<Signal>, keep: Signal -> bool)
    requires ShieldsRelate(s) && !keep(s[4]) && keep(s[2]) == s[2].triggered && keep(s[3]) == s[3].triggered
    ensures RelatedIn(Filter(s, keep)) == if s[2].triggered || s[3].triggered then FirstFired(s) else None
  {
    hide Filter;
    if s[2].triggered {
      FirstKept(s, keep, 2);
    } else if s[3].triggered {
      FirstKept(s, keep, 3);
    } else {
      NoneKept(s, keep);
    }
  }

  lemma FallBack(s: seq<Signal>, rest: seq<Signal>)
    requires ShieldsRelate(s) && forall x :: x in rest ==> x.related.None?
    ensures RelatedOf([], s + rest) == FirstFired(s)
  {
    hide Filter;
    var all := s + rest;
    FiredIn(all, "A3", 2);
    FiredIn(all, "A4", 3);
    FiredIn(all, "A5", 4);
  }

  lemma FiredIn(all: seq<Signal>, id: string, i: nat)
    requires i < |all| && all[i].id == id && (all[i].triggered <==> all[i].related.Some?)
    requires forall j :: 0 <= j < |all| && j != i ==> all[j].id != id || all[j].related.None?
    ensures RelatedIn(Filter(all, (s: Signal) => HasRelated(s, id))) == all[i].related
  {
    hide Filter;
    if all[i].triggered { FirstKept(all, (s: Signal) => HasRelated(s, id), i); } else { NoneKept(all, (s: Signal) => HasRelated(s, id)); }
  }

  /** A list that relates to nothing, or as the signals do. */
  lemma AnyDeciding(deciding: seq<Signal>, s: seq<Signal>, rest: seq<Signal>)
    requires ShieldsRelate(s) && forall x :: x in rest ==> x.related.None?
    requires RelatedIn(deciding).None? || RelatedIn(deciding) == FirstFired(s)
    ensures RelatedOf(deciding, s + rest) == FirstFired(s)
  {
    hide Filter;
    FallBack(s, rest);
  }

  lemma {:induction false} Unrelated(s: seq<Signal>)
    requires forall x :: x in s ==> x.related.None?
    ensures RelatedIn(s) == None
  {
    if s != [] {
      assert s[0] in s;
      Unrelated(s[1..]);
    }
  }

  lemma DecidingRelates(results: seq<RuleResult>, s: seq<Signal>, warnings: seq<Signal>, soft: seq<Signal>, p: Policy, frozen: bool)
    requires ShieldsRelate(s) && (forall x :: x in warnings + soft ==> x.related.None?)
    ensures
      var deciding := Judge(results, s, warnings, soft, p, frozen).deciding;
      RelatedIn(deciding).None? || RelatedIn(deciding) == FirstFired(s)
  {
    hide Filter, CustomerResults, InactiveIds, BrokenResults, UnsureIds, ReservedResults, Map, JudgeSigns;
    var customer := CustomerResults(results, p.rules);
    var blocking := Filter(s, Blocks);
    NoneKept(s, Blocks);
    SignsRelate(s, warnings, soft, Filter(customer, IsUnknown), frozen);
  }

  lemma SignsRelate(s: seq<Signal>, warnings: seq<Signal>, soft: seq<Signal>, unknown: seq<RuleResult>, frozen: bool)
    requires ShieldsRelate(s) && (forall x :: x in warnings + soft ==> x.related.None?)
    ensures
      var deciding := JudgeSigns(s, warnings, soft, unknown, frozen).deciding;
      RelatedIn(deciding).None? || RelatedIn(deciding) == FirstFired(s)
  {
    hide Map, Filter;
    var asking := Filter(s, Asks);
    KeptRelation(s, Asks);
    var both := (x: Signal) => Asks(x) && x.id != "A8";
    FilterFilter(s, Asks, (x: Signal) => x.id != "A8", both);
    KeptRelation(s, both);
    var weak := Filter(warnings, WarnsWeakly);
    var signs := Filter(warnings, WarnsStrongly) + (if |weak| >= 2 then weak else []) + Filter(soft, Asks);
    forall x | x in signs ensures x.related.None? { assert x in warnings + soft; }
    Unrelated(signs);
  }

  /** The relation of a decision: a repeat's, else a split's, else a re-quote's. */
  lemma RelatedIs(facts: Facts, p: Policy, view: LedgerView, soft: seq<Signal>)
    requires forall s :: s in soft ==> s.related.None?
    ensures
      var related := EngineFor(facts, p, view, soft).related;
      if Repeats(facts, view) then exists i :: RepeatsLast(i, facts, view) && related == Some((view.priors[i].id, DuplicateOf))
      else if Splits(facts, p, view) then exists i :: SplitsLast(i, facts, p, view) && related == Some((view.priors[i].id, SplitOf))
      else related == if Requotes(facts, view) then Some((facts.relatedId, RequoteOf)) else None
  {
    hide Evaluate, WarningSigns, Judge, RelatedOf, SessionTrust, Repeats, Splits, Requotes, RepeatsLast, SplitsLast, AddLedgerResults, EvaluateRules;
    var s, w := Evaluate(facts, p, view), WarningSigns(facts, view, p);
    ShieldsRelated(facts, p, view);
    SignsUnrelated(facts, p, view);
    var results := AddLedgerResults(EvaluateRules(facts, p), facts, p, view);
    DecidingRelates(results, s, w, soft, p, view.frozen);
    AnyDeciding(Judge(results, s, w, soft, p, view.frozen).deciding, s, w + soft);
    assert s + w + soft == s + (w + soft);
    FiredIs(facts, p, view);
  }

  lemma SignsUnrelated(facts: Facts, p: Policy, view: LedgerView)
    ensures forall s :: s in WarningSigns(facts, view, p) ==> s.related.None?
  {
    hide PerOrderLimit, OutsideRange;
  }

  lemma FiredIs(facts: Facts, p: Policy, view: LedgerView)
    ensures
      var s := Evaluate(facts, p, view);
      && |s| == 8
      && (s[2].triggered <==> Repeats(facts, view)) && (s[3].triggered <==> Splits(facts, p, view))
      && (s[2].triggered ==> exists i :: RepeatsLast(i, facts, view) && s[2].related == Some((view.priors[i].id, DuplicateOf)))
      && (s[3].triggered ==> exists i :: SplitsLast(i, facts, p, view) && s[3].related == Some((view.priors[i].id, SplitOf)))
      && s[4].related == if Requotes(facts, view) then Some((facts.relatedId, RequoteOf)) else None
  {
    hide Requoted, Repeats, Splits, Requotes, RepeatsLast, SplitsLast;
    RepeatRelated(facts, view);
    SplitRelated(facts, p, view);
    RequotedIff(facts, view);
    RepeatsIff(facts, view);
    SplitsIff(facts, p, view);
    hide Split, Duplicate, LooksAlike, AlreadyBought, HiddenRecurring;
  }
}
