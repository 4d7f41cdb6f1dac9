/** Conservation and absorbing states (M4, M5, M7, Q2): where an entry's money is, who may close
    a step-up and when, and that a redelivery changes nothing. */
module Conservation {
  import opened Seqs
  import opened Types
  import opened Ledger
  import opened Views
  import opened Pipeline
  import opened Runs

  ghost predicate Empty(m: Machine) { m.store.rows == [] && m.inflight.None? }

  /** In every state of every run each entry holds its amount once if it is approved or pending,
      and nothing otherwise; spend and reservation never both. */
  lemma MoneyFollowsOutcome(m: Machine, steps: seq<Step>, e: Entry)
    requires Empty(m) && Legal(m, steps) && e in Exec(m, steps).store.rows
    ensures e.spent == (if IsFinalApproval(e) then e.amount else 0)
    ensures e.reserved == (if IsPending(e) then e.amount else 0)
    ensures IsFinalApproval(e) ==> !IsPending(e)
    ensures e.outcome.StepUp? && IsFinalApproval(e) ==> e.resolvedBy.Customer?
  {
    hide Exec, Legal, EntryOk, InOrder, UniqueIds;
    WellFormedRun(m, steps);
    MoneyOfEntry(e);
  }

  lemma MoneyOfEntry(e: Entry)
    requires EntryOk(e)
    ensures e.spent == (if IsFinalApproval(e) then e.amount else 0)
    ensures e.reserved == (if IsPending(e) then e.amount else 0)
    ensures IsFinalApproval(e) ==> !IsPending(e)
    ensures e.outcome.StepUp? && IsFinalApproval(e) ==> e.resolvedBy.Customer?
  {
  }

  lemma {:induction false} ExecSplit(m: Machine, first: seq<Step>, more: seq<Step>)
    ensures Exec(m, first + more) == Exec(Exec(m, first), more)
    ensures Legal(m, first + more) <==> Legal(m, first) && Legal(Exec(m, first), more)
    decreases |first|
  {
    if first == [] {
      assert first + more == more;
    } else {
      assert (first + more)[0] == first[0] && (first + more)[1..] == first[1..] + more;
      ExecSplit(Next(m, first[0]), first[1..], more);
    }
  }

  /** Absorbing: once an entry is decided or its step-up closed, no continuation of the run ever
      changes it; and a pending one never gains money or loses its purchase facts. */
  lemma ClosedForGood(m: Machine, first: seq<Step>, more: seq<Step>, i: nat)
    requires Empty(m) && Legal(m, first + more) && i < |Exec(m, first).store.rows|
    ensures
      var rows, later := Exec(m, first).store.rows, Exec(m, first + more).store.rows;
      && i < |later|
      && (!IsPending(rows[i]) ==> later[i] == rows[i])
      && later[i].spent + later[i].reserved <= rows[i].spent + rows[i].reserved
      && SameDecision(rows[i], later[i])
  {
    hide SameDecision, IsPending;
    ExecSplit(m, first, more);
    WellFormedRun(m, first);
    RowsPersist(Exec(m, first), more);
    var rows, later := Exec(m, first).store.rows, Exec(m, first + more).store.rows;
    assert SameDecision(rows[i], later[i]);
    SameDecisionKeeps(rows[i], later[i]);
  }

  lemma SameDecisionKeeps(before: Entry, after: Entry)
    requires SameDecision(before, after)
    ensures !IsPending(before) ==> after == before
    ensures after.spent + after.reserved <= before.spent + before.reserved
  {
  }

  // --- Closing a step-up moves its reservation -------------------------------------------

  lemma {:induction false} SumUpdate(s: seq<Entry>, i: nat, x: Entry, w: Entry -> int)
    requires i < |s|
    ensures SumBy(s[i := x], w) == SumBy(s, w) - w(s[i]) + w(x)
  {
    var n := |s| - 1;
    if i == n {
      assert s[i := x][..n] == s[..n];
    } else {
      assert s[i := x][..n] == s[..n][i := x];
      SumUpdate(s[..n], i, x, w);
    }
  }

  /** An answer turns the reservation into spend or releases it: over the whole ledger exactly
      the purchase's amount leaves the reservations, and it becomes spend only on an approval. */
  lemma AnswerMovesMoney(s: Store, id: string, approve: bool, who: Resolver, at: int)
    requires forall e :: e in s.rows ==> EntryOk(e)
    requires Resolve(s, id, approve, who, at).Ok?
    ensures
      var later, e := Resolve(s, id, approve, who, at).value, Find(s.rows, id).value;
      && SumBy(later.rows, ReservedOf) == SumBy(s.rows, ReservedOf) - e.amount
      && SumBy(later.rows, SpentOf) == SumBy(s.rows, SpentOf) + (if approve then e.amount else 0)
      && (who.Timeout? ==> !approve)
  {
    var i := IndexOf(s.rows, id).value;
    var closed := Closed(s.rows[i], approve, who, at);
    assert s.rows[i] in s.rows;
    SumUpdate(s.rows, i, closed, ReservedOf);
    SumUpdate(s.rows, i, closed, SpentOf);
  }

  /** When a customer's answer is taken: the step-up is known, pending, and before its deadline. */
  lemma AnswerTakenIff(s: Store, id: string, approve: bool, now: int)
    requires UniqueIds(s.rows)
    ensures CustomerAnswer(s, id, approve, now).Ok? <==>
      exists e :: e in s.rows && e.id == id && IsPending(e) && (e.deadline.None? || now < e.deadline.value)
    ensures CustomerAnswer(s, id, approve, now).Err? ==>
      CustomerAnswer(s, id, approve, now).error ==
        if forall e :: e in s.rows ==> e.id != id then UnknownId
        else if forall e :: e in s.rows && e.id == id ==> !IsPending(e) then NotAwaiting
        else LedgerError.WindowClosed
  {
    var i := IndexOf(s.rows, id);
    if i.Some? {
      assert s.rows[i.value] in s.rows;
      forall e | e in s.rows && e.id == id ensures e == s.rows[i.value] {
        var j :| 0 <= j < |s.rows| && s.rows[j] == e;
      }
    }
  }

  /** The row of a closed step-up: answered so, by whom and when, its money settled, all else as it was. */
  predicate IsClosing(x: Entry, e: Entry, answer: Answer, who: Resolver, at: int) {
    && x == e.(final := true, answer := answer, resolvedBy := who, resolvedAt := Some(at), deadline := None,
               spent := x.spent, reserved := 0)
    && x.spent == if answer.Approved? then e.amount else 0
  }

  /** What the customer's answer leaves: that row closed, every other as it was. */
  lemma AnswerLeaves(s: Store, id: string, approve: bool, now: int)
    requires UniqueIds(s.rows) && CustomerAnswer(s, id, approve, now).Ok?
    ensures
      var t := CustomerAnswer(s, id, approve, now).value;
      && t == s.(rows := t.rows) && |t.rows| == |s.rows|
      && forall i :: 0 <= i < |s.rows| ==>
        if s.rows[i].id == id then IsClosing(t.rows[i], s.rows[i], if approve then Approved else Declined, Customer, now) else t.rows[i] == s.rows[i]
  {
  }

  /** What a timeout leaves. */
  lemma TimeoutLeaves(s: Store, id: string, now: int)
    requires UniqueIds(s.rows) && Expire(s, id, now).Ok?
    ensures
      var t := Expire(s, id, now).value;
      && t == s.(rows := t.rows) && |t.rows| == |s.rows|
      && forall i :: 0 <= i < |s.rows| ==>
        if s.rows[i].id == id then IsClosing(t.rows[i], s.rows[i], Expired, Timeout, now) else t.rows[i] == s.rows[i]
  {
  }

  /** A customer's approval is a step-up answered with yes, and nothing else is. */
  lemma CustomerOkIff(e: Entry)
    requires EntryOk(e)
    ensures CustomerOk(e) <==> e.outcome.StepUp? && e.answer.Approved?
  {
  }

  /** What a timeout leaves: a declined step-up, its reservation released, and a refusal of
      every later answer. */
  lemma TimeoutDeclines(s: Store, id: string, now: int, later: int, approve: bool)
    requires Expire(s, id, now).Ok?
    ensures
      var t := Expire(s, id, now).value;
      && Find(t.rows, id).Some? && !IsPending(Find(t.rows, id).value)
      && !IsFinalApproval(Find(t.rows, id).value) && Find(t.rows, id).value.answer.Expired?
      && CustomerAnswer(t, id, approve, later) == Err(NotAwaiting)
      && Expire(t, id, later) == Err(NotAwaiting)
  {
    var i := IndexOf(s.rows, id).value;
    var t := Expire(s, id, now).value;
    SameIndex(s.rows, i, t.rows[i], id);
  }

  lemma {:induction false} SameIndex(rows: seq<Entry>, i: nat, x: Entry, id: string)
    requires i < |rows| && x.id == rows[i].id
    ensures IndexOf(rows[i := x], id) == IndexOf(rows, id)
  {
    var n := |rows| - 1;
    if i == n {
      assert rows[i := x][..n] == rows[..n];
    } else {
      assert rows[i := x][..n] == rows[..n][i := x];
      SameIndex(rows[..n], i, x, id);
    }
  }

  // --- Redelivery -----------------------------------------------------------------------

  /** Every purchase decided was noted first. */
  ghost predicate AllNoted(m: Machine) {
    && (forall e :: e in m.store.rows ==> e.id in m.store.events)
    && (m.inflight.Some? ==> m.inflight.value.entry.id in m.store.events)
  }

  lemma AllNotedStep(m: Machine, step: Step)
    requires AllNoted(m) && WellFormed(m) && Allowed(m, step)
    ensures AllNoted(Next(m, step))
  {
    hide Begin, EntryOk, InOrder, UniqueIds;
    if step.Deliver? {
      BeginIsNew(NoteEvent(m.store, step.event.facts.id, NotedOf(step.event)), step.event, step.ctx);
    } else if step.Save? && m.inflight.Some? {
      CommitAppends(m.store, m.inflight.value);
    } else {
      StepEvolves(m, step);
      var rows, later := m.store.rows, Next(m, step).store.rows;
      forall e | e in later ensures e.id in m.store.events {
        var i :| 0 <= i < |later| && later[i] == e;
        assert rows[i] in rows && Evolves(rows[i], later[i]);
      }
    }
  }

  lemma {:induction false} AllNotedRun(m: Machine, steps: seq<Step>)
    requires AllNoted(m) && WellFormed(m) && Legal(m, steps)
    ensures AllNoted(Exec(m, steps))
    decreases |steps|
  {
    hide AllNoted, WellFormed, Allowed, Next;
    if steps != [] {
      AllNotedStep(m, steps[0]);
      WellFormedStep(m, steps[0]);
      AllNotedRun(Next(m, steps[0]), steps[1..]);
    }
  }

  /** Redelivery (M7): in every reachable state, delivering a stored purchase again, in any
      context, leaves the whole ledger as it is and returns the stored decision. */
  lemma RedeliveryChangesNothing(m: Machine, steps: seq<Step>, event: Event, ctx: Context)
    requires Empty(m) && Legal(m, steps)
    requires Find(Exec(m, steps).store.rows, event.facts.id).Some?
    ensures
      var s := Exec(m, steps).store;
      DecideEvent(s, event, ctx) == (s, FromEntry(Find(s.rows, event.facts.id).value))
  {
    hide Exec, Legal, Find, DecideEvent;
    NoneNoted(m);
    AllNotedRun(m, steps);
    NotedAgain(Exec(m, steps), event, ctx);
  }

  lemma NoneNoted(m: Machine)
    requires Empty(m)
    ensures AllNoted(m) && WellFormed(m)
  {
  }

  /** Where every decision was noted, noting one again changes nothing. */
  lemma NotedAgain(m: Machine, event: Event, ctx: Context)
    requires AllNoted(m) && Find(m.store.rows, event.facts.id).Some?
    ensures DecideEvent(m.store, event, ctx) == (m.store, FromEntry(Find(m.store.rows, event.facts.id).value))
  {
    hide Begin, Commit, IndexOf, FromEntry;
    assert Find(m.store.rows, event.facts.id).value in m.store.rows;
  }

  /** A new purchase adds one row, with the decision the caller is given, and no other row
      changes. */
  lemma NewDecisionAddsOne(s: Store, event: Event, ctx: Context)
    requires Find(s.rows, event.facts.id).None?
    ensures
      var (after, decision) := DecideEvent(s, event, ctx);
      exists e :: after.rows == s.rows + [e] && e.id == event.facts.id && FromEntry(e) == decision && e.ts == event.facts.ts
        && (e.outcome.Approve? ==> e.spent == event.facts.amount) && (e.outcome.StepUp? ==> e.reserved == event.facts.amount)
        && (e.outcome.Decline? ==> e.spent == 0 && e.reserved == 0)
  {
    hide Begin;
    var noted := NoteEvent(s, event.facts.id, NotedOf(event));
    var draft := Begin(noted, event, ctx);
    assert IndexOf(s.rows, event.facts.id).None?;
    BeginIsNew(noted, event, ctx);
    CommitAppends(noted, draft);
    var e := Stored(draft.entry);
    assert FromEntry(e) == FromEntry(draft.entry);
    assert DecideEvent(s, event, ctx).0.rows == s.rows + [e];
  }

  // --- The machine's steps are these operations ------------------------------------------------------------

  predicate AnswerIsTaken(e: Entry, id: string, now: int) { e.id == id && e.outcome.StepUp? && !e.final && (e.deadline.None? || now < e.deadline.value) }

  /** An answer in a run closes exactly the pending step-up it names, before its deadline, as it says. */
  lemma AnswerStepLeaves(m: Machine, id: string, approve: bool, now: int)
    requires UniqueIds(m.store.rows)
    ensures
      var n := Next(m, Answer(id, approve, now));
      && n == m.(store := m.store.(rows := n.store.rows)) && |n.store.rows| == |m.store.rows|
      && forall i :: 0 <= i < |m.store.rows| ==>
        if AnswerIsTaken(m.store.rows[i], id, now) then IsClosing(n.store.rows[i], m.store.rows[i], if approve then Approved else Declined, Customer, now)
        else n.store.rows[i] == m.store.rows[i]
  {
    hide Begin, Commit, CustomerAnswer;
    AnswerTakenIff(m.store, id, approve, now);
    if CustomerAnswer(m.store, id, approve, now).Ok? {
      AnswerLeaves(m.store, id, approve, now);
      var e :| e in m.store.rows && e.id == id && IsPending(e) && (e.deadline.None? || now < e.deadline.value);
      forall i | 0 <= i < |m.store.rows| && m.store.rows[i].id == id ensures m.store.rows[i] == e {
        var j :| 0 <= j < |m.store.rows| && m.store.rows[j] == e;
      }
    } else {
      forall i | 0 <= i < |m.store.rows| ensures !AnswerIsTaken(m.store.rows[i], id, now) { assert m.store.rows[i] in m.store.rows; }
    }
  }

  /** A timeout in a run declines exactly the pending step-up it names, whenever it comes. */
  lemma LapseStepLeaves(m: Machine, id: string, now: int)
    requires UniqueIds(m.store.rows)
    ensures
      var n := Next(m, Lapse(id, now));
      && n == m.(store := m.store.(rows := n.store.rows)) && |n.store.rows| == |m.store.rows|
      && forall i :: 0 <= i < |m.store.rows| ==>
        if m.store.rows[i].id == id && IsPending(m.store.rows[i]) then IsClosing(n.store.rows[i], m.store.rows[i], Expired, Timeout, now)
        else n.store.rows[i] == m.store.rows[i]
  {
    hide Begin, Commit;
  }

  /** A new deadline moves only that of the pending step-up it names. */
  lemma ExtendStepLeaves(m: Machine, id: string, deadline: int)
    requires UniqueIds(m.store.rows)
    ensures
      var n := Next(m, Extend(id, deadline));
      && n == m.(store := m.store.(rows := n.store.rows)) && |n.store.rows| == |m.store.rows|
      && forall i :: 0 <= i < |m.store.rows| ==>
        n.store.rows[i] == if m.store.rows[i].id == id && IsPending(m.store.rows[i]) then m.store.rows[i].(deadline := Some(deadline)) else m.store.rows[i]
  {
    hide Begin, Commit;
  }

  /** Delivering and saving without anything between is `decide_event`. */
  lemma DecidedInOneGo(m: Machine, event: Event, ctx: Context)
    requires m.inflight.None?
    ensures Next(Next(m, Deliver(event, ctx)), Save) == Machine(DecideEvent(m.store, event, ctx).0, None)
  {
    hide Begin, Commit, NoteEvent, Find;
  }
}
