/** Whole runs. A machine delivers purchases one at a time; customer answers, timeouts, deadline
    changes and new live runs interleave freely, also between a decision and its storing. The
    safety principle at the end carries a property of every automatic approval along any run. */
module Runs {
  import opened Seqs
  import opened Types
  import opened Ledger
  import opened Views
  import opened Pipeline
  import opened Sessions

  datatype Step =
    | Deliver(event: Event, ctx: Context)
    | Save
    | Answer(id: string, approve: bool, now: int)
    | Lapse(id: string, now: int)
    | Extend(id: string, deadline: int)
    | Start(run: RunRow)

  datatype Machine = Machine(store: Store, inflight: Option<Draft>)

  function OrSame(s: Store, r: Result<Store>): Store {
    if r.Ok? then r.value else s
  }

  function Next(m: Machine, step: Step): Machine {
    match step
    case Deliver(event, ctx) =>
      var noted := NoteEvent(m.store, event.facts.id, NotedOf(event));
      if Find(noted.rows, event.facts.id).Some? then m.(store := noted)
      else Machine(noted, Some(Begin(noted, event, ctx)))
    case Save =>
      if m.inflight.None? then m else Machine(Commit(m.store, m.inflight.value), None)
    case Answer(id, approve, now) => m.(store := OrSame(m.store, CustomerAnswer(m.store, id, approve, now)))
    case Lapse(id, now) => m.(store := OrSame(m.store, Expire(m.store, id, now)))
    case Extend(id, deadline) => m.(store := OrSame(m.store, SetDeadline(m.store, id, deadline)))
    case Start(run) => m.(store := m.store.(runs := m.store.runs + [run]))
  }

  function Exec(m: Machine, steps: seq<Step>): Machine
    decreases |steps|
  {
    if steps == [] then m else Exec(Next(m, steps[0]), steps[1..])
  }

  /** A run starts under an id of its own, no earlier than the runs before it. */
  predicate MayStart(runs: seq<RunRow>, run: RunRow) {
    forall r :: r in runs ==> r.runId != run.runId && r.startedAt <= run.startedAt
  }

  /** What a delivery needs: nothing in flight, a positive amount, and for a new purchase a time
      later than all its run holds. A run starts before its first decision. Answers, timeouts and
      deadline changes may come at any time, for any purchase. */
  ghost predicate Allowed(m: Machine, step: Step) {
    && (step.Deliver? ==>
          && m.inflight.None?
          && step.event.facts.amount > 0
          && (Find(m.store.rows, step.event.facts.id).None? ==>
                forall e :: e in m.store.rows && e.runId == step.ctx.runId ==> e.ts < step.event.facts.ts))
    && (step.Start? ==>
          && MayStart(m.store.runs, step.run)
          && (forall e :: e in m.store.rows ==> e.runId != step.run.runId)
          && (m.inflight.Some? ==> m.inflight.value.entry.runId != step.run.runId))
  }

  ghost predicate Legal(m: Machine, steps: seq<Step>)
    decreases |steps|
  {
    steps == [] || (Allowed(m, steps[0]) && Legal(Next(m, steps[0]), steps[1..]))
  }

  // --- How one row changes -------------------------------------------------------------

  /** The only changes a stored row sees: a pending step-up is closed or its deadline moved. */
  ghost predicate Evolves(before: Entry, after: Entry) {
    || after == before
    || (IsPending(before) && exists d :: after == before.(deadline := d))
    || (IsPending(before) && exists approve, who, at :: ValidClosing(approve, who) && after == Closed(before, approve, who, at))
  }

  /** A timeout never approves. */
  predicate ValidClosing(approve: bool, who: Resolver) { who.Customer? || (who.Timeout? && !approve) }

  ghost predicate RowsEvolve(before: seq<Entry>, after: seq<Entry>) {
    |before| == |after| && forall i :: 0 <= i < |before| ==> Evolves(before[i], after[i])
  }

  /** Money follows the outcome: an approved or pending entry holds its amount once, as spend
      or as a reservation; any other holds nothing. */
  ghost predicate Conserves(e: Entry) {
    && e.spent + e.reserved == (if IsFinalApproval(e) || IsPending(e) then e.amount else 0)
    && (e.spent == 0 || e.reserved == 0)
    && (e.spent != 0 ==> IsFinalApproval(e)) && (e.reserved != 0 ==> IsPending(e))
  }

  ghost predicate EntryOk(e: Entry) {
    && e.amount > 0
    && Conserves(e)
    && (e.answer.Approved? ==> e.outcome.StepUp? && e.final && e.resolvedBy.Customer?)
    && (e.outcome.StepUp? || e.final)
  }

  /** Rows of one run are stored in order of simulated time. */
  ghost predicate InOrder(rows: seq<Entry>) {
    forall i, j :: 0 <= i < j < |rows| && rows[i].runId == rows[j].runId ==> rows[i].ts < rows[j].ts
  }

  ghost predicate Fits(rows: seq<Entry>, d: Draft) {
    && (forall e :: e in rows ==> e.id != d.entry.id)
    && (forall e :: e in rows && e.runId == d.entry.runId ==> e.ts < d.entry.ts)
    && EntryOk(Stored(d.entry))
  }

  ghost predicate WellFormed(m: Machine) {
    && UniqueIds(m.store.rows)
    && InOrder(m.store.rows)
    && (forall e :: e in m.store.rows ==> EntryOk(e))
    && (m.inflight.Some? ==> Fits(m.store.rows, m.inflight.value))
  }

  // --- What every step keeps -----------------------------------------------------------

  lemma EvolvesKeeps(before: Entry, after: Entry)
    requires Evolves(before, after) && EntryOk(before)
    ensures EntryOk(after)
    ensures after == before.(final := after.final, answer := after.answer, reserved := after.reserved,
                             spent := after.spent, deadline := after.deadline,
                             resolvedAt := after.resolvedAt, resolvedBy := after.resolvedBy)
    ensures !IsPending(before) ==> after == before
    ensures after.spent + after.reserved <= before.spent + before.reserved
    ensures CustomerOk(before) ==> CustomerOk(after)
    ensures IsFinalApproval(after) || IsPending(after) ==> IsFinalApproval(before) || IsPending(before)
  {
  }

  lemma SetRow(rows: seq<Entry>, i: nat, x: Entry)
    requires i < |rows| && Evolves(rows[i], x)
    ensures RowsEvolve(rows, rows[i := x])
  {
  }

  lemma ResolveEvolves(s: Store, id: string, approve: bool, who: Resolver, at: int)
    requires ValidClosing(approve, who)
    ensures RowsEvolve(s.rows, OrSame(s, Resolve(s, id, approve, who, at)).rows)
  {
    match IndexOf(s.rows, id)
    case None =>
    case Some(i) =>
      if IsPending(s.rows[i]) {
        assert Evolves(s.rows[i], Closed(s.rows[i], approve, who, at));
        SetRow(s.rows, i, Closed(s.rows[i], approve, who, at));
      }
  }

  /** Every step but a commit leaves the number of rows alone, and changes rows only by
      closing a pending step-up or moving its deadline. */
  lemma StepEvolves(m: Machine, step: Step)
    requires !step.Save? || m.inflight.None?
    ensures RowsEvolve(m.store.rows, Next(m, step).store.rows)
  {
    hide Begin, Commit, Closed;
    match step
    case Deliver(_, _) =>
    case Save =>
    case Answer(id, approve, now) => ResolveEvolves(m.store, id, approve, Customer, now);
    case Lapse(id, now) => ResolveEvolves(m.store, id, false, Timeout, now);
    case Extend(id, deadline) =>
      var i := IndexOf(m.store.rows, id);
      if i.Some? && IsPending(m.store.rows[i.value]) {
        var x := m.store.rows[i.value].(deadline := Some(deadline));
        assert Evolves(m.store.rows[i.value], x);
        SetRow(m.store.rows, i.value, x);
      }
    case Start(_) =>
  }

  lemma CommitAppends(s: Store, d: Draft)
    requires forall e :: e in s.rows ==> e.id != d.entry.id
    ensures Commit(s, d).rows == s.rows + [Stored(d.entry)]
  {
  }

  lemma EvolvedWellFormed(before: seq<Entry>, after: seq<Entry>)
    requires RowsEvolve(before, after)
    requires UniqueIds(before) && InOrder(before) && forall e :: e in before ==> EntryOk(e)
    ensures UniqueIds(after) && InOrder(after) && forall e :: e in after ==> EntryOk(e)
    ensures forall i :: 0 <= i < |before| ==>
      after[i].id == before[i].id && after[i].runId == before[i].runId && after[i].ts == before[i].ts
  {
    forall i | 0 <= i < |before|
      ensures after[i].id == before[i].id && after[i].runId == before[i].runId && after[i].ts == before[i].ts
      ensures EntryOk(after[i])
    {
      assert before[i] in before;
      EvolvesKeeps(before[i], after[i]);
    }
  }

  lemma WellFormedAfterSave(m: Machine)
    requires WellFormed(m) && m.inflight.Some?
    ensures WellFormed(Next(m, Save))
    ensures Next(m, Save).store.rows == m.store.rows + [Stored(m.inflight.value.entry)]
  {
    hide Begin;
    CommitAppends(m.store, m.inflight.value);
  }

  lemma NewFits(rows: seq<Entry>, d: Draft, event: Event, ctx: Context)
    requires IsNewFor(d.entry, event, ctx) && event.facts.amount > 0
    requires forall e :: e in rows ==> e.id != event.facts.id
    requires forall e :: e in rows && e.runId == ctx.runId ==> e.ts < event.facts.ts
    ensures Fits(rows, d)
  {
  }

  lemma WellFormedAfterBegin(m: Machine, event: Event, ctx: Context)
    requires WellFormed(m) && Allowed(m, Deliver(event, ctx))
    ensures WellFormed(Next(m, Deliver(event, ctx)))
    ensures Next(m, Deliver(event, ctx)).store.rows == m.store.rows
  {
    hide Begin, Commit, EntryOk, InOrder, UniqueIds, Fits;
    var noted := NoteEvent(m.store, event.facts.id, NotedOf(event));
    if Find(noted.rows, event.facts.id).None? {
      assert IndexOf(noted.rows, event.facts.id).None?;
      BeginIsNew(noted, event, ctx);
      NewFits(noted.rows, Begin(noted, event, ctx), event, ctx);
    }
  }

  lemma WellFormedStep(m: Machine, step: Step)
    requires WellFormed(m) && Allowed(m, step)
    ensures WellFormed(Next(m, step))
  {
    hide Begin, Commit, EntryOk, InOrder, UniqueIds;
    if step.Deliver? {
      WellFormedAfterBegin(m, step.event, step.ctx);
    } else if step.Save? && m.inflight.Some? {
      WellFormedAfterSave(m);
    } else {
      StepEvolves(m, step);
      var before, after := m.store.rows, Next(m, step).store.rows;
      EvolvedWellFormed(before, after);
      if m.inflight.Some? {
        var e := m.inflight.value.entry;
        forall x | x in after ensures x.id != e.id && (x.runId == e.runId ==> x.ts < e.ts) {
          var i :| 0 <= i < |after| && after[i] == x;
          assert before[i] in before;
        }
      }
    }
  }

  lemma {:induction false} WellFormedRun(m: Machine, steps: seq<Step>)
    requires WellFormed(m) && Legal(m, steps)
    ensures WellFormed(Exec(m, steps))
    decreases |steps|
  {
    if steps != [] {
      WellFormedStep(m, steps[0]);
      WellFormedRun(Next(m, steps[0]), steps[1..]);
    }
  }

  /** Rows persist: each row of an earlier state is still there, at most closed since, and a
      closed one is exactly as it was. */
  lemma {:induction false} RowsPersist(m: Machine, steps: seq<Step>)
    requires WellFormed(m) && Legal(m, steps)
    ensures
      var rows, later := m.store.rows, Exec(m, steps).store.rows;
      |rows| <= |later| && forall i :: 0 <= i < |rows| ==> SameDecision(rows[i], later[i])
    decreases |steps|
  {
    if steps != [] {
      var mid := Next(m, steps[0]);
      WellFormedStep(m, steps[0]);
      RowsPersist(mid, steps[1..]);
      var rows, later := m.store.rows, Exec(m, steps).store.rows;
      RowsPersistStep(m, steps[0]);
      forall i | 0 <= i < |rows| ensures SameDecision(rows[i], later[i]) {
        assert SameDecision(rows[i], mid.store.rows[i]) && SameDecision(mid.store.rows[i], later[i]);
      }
    }
  }

  /** One decision seen twice: same facts and outcome; once closed, the same in every field;
      and money only ever released. */
  ghost predicate SameDecision(before: Entry, after: Entry) {
    && after == before.(final := after.final, answer := after.answer, reserved := after.reserved,
                        spent := after.spent, deadline := after.deadline,
                        resolvedAt := after.resolvedAt, resolvedBy := after.resolvedBy)
    && (!IsPending(before) ==> after == before)
    && after.spent + after.reserved <= before.spent + before.reserved
    && (CustomerOk(before) ==> CustomerOk(after))
    && (IsFinalApproval(after) || IsPending(after) ==> IsFinalApproval(before) || IsPending(before))
  }

  lemma RowsPersistStep(m: Machine, step: Step)
    requires WellFormed(m) && Allowed(m, step)
    ensures
      var rows, later := m.store.rows, Next(m, step).store.rows;
      |rows| <= |later| && forall i :: 0 <= i < |rows| ==> SameDecision(rows[i], later[i])
  {
    hide Begin;
    var rows, later := m.store.rows, Next(m, step).store.rows;
    if step.Save? && m.inflight.Some? {
      WellFormedAfterSave(m);
    } else {
      StepEvolves(m, step);
      forall i | 0 <= i < |rows| ensures SameDecision(rows[i], later[i]) {
        assert rows[i] in rows;
        EvolvesKeeps(rows[i], later[i]);
      }
    }
  }

  // --- The safety principle ------------------------------------------------------------

  /** A property of an automatic approval, judged against the runs and the rows stored before it. */
  type Safety = (seq<RunRow>, seq<Entry>, Entry) -> bool

  ghost predicate Deliverable(s: Store, event: Event, ctx: Context) {
    && UniqueIds(s.rows) && InOrder(s.rows) && (forall e :: e in s.rows ==> EntryOk(e))
    && event.facts.amount > 0
    && (forall e :: e in s.rows ==> e.id != event.facts.id)
    && (forall e :: e in s.rows && e.runId == ctx.runId ==> e.ts < event.facts.ts)
  }

  /** Answers, timeouts and deadline changes cannot break the property, nor can a new run. */
  ghost predicate Stable(ok: Safety) {
    && (forall runs, rows, later, e ::
          RowsEvolve(rows, later) && (forall x :: x in rows ==> EntryOk(x)) && ok(runs, rows, e) ==> ok(runs, later, e))
    && (forall runs, run: RunRow, rows, e: Entry ::
          MayStart(runs, run) && e.runId != run.runId && ok(runs, rows, e) ==> ok(runs + [run], rows, e))
  }

  /** Every automatic approval of an admissible purchase has the property when it is decided. */
  ghost predicate Established(ok: Safety, good: (Event, Context) -> bool) {
    forall s: Store, event, ctx ::
      good(event, ctx) && Deliverable(s, event, ctx) && Begin(s, event, ctx).entry.outcome.Approve?
      ==> ok(s.runs, s.rows, Stored(Begin(s, event, ctx).entry))
  }

  ghost predicate AllGood(steps: seq<Step>, good: (Event, Context) -> bool) {
    forall i :: 0 <= i < |steps| && steps[i].Deliver? ==> good(steps[i].event, steps[i].ctx)
  }

  /** Every automatic approval, stored or about to be, has the property. */
  ghost predicate Safe(m: Machine, ok: Safety) {
    && (forall k :: 0 <= k < |m.store.rows| && m.store.rows[k].outcome.Approve? ==> ok(m.store.runs, m.store.rows[..k], m.store.rows[k]))
    && (m.inflight.Some? && m.inflight.value.entry.outcome.Approve? ==> ok(m.store.runs, m.store.rows, Stored(m.inflight.value.entry)))
  }

  lemma RunsChange(m: Machine, step: Step)
    ensures Next(m, step).store.runs == if step.Start? then m.store.runs + [step.run] else m.store.runs
  {
    hide Begin;
  }

  /** A new run is no earlier live run of any other: the runs a purchase looks back on stay. */
  lemma EarlierRunsStay(runs: seq<RunRow>, run: RunRow, runId: string)
    requires MayStart(runs, run) && runId != run.runId
    ensures EarlierLiveRuns(runs + [run], runId) == EarlierLiveRuns(runs, runId)
  {
    hide SortByStart;
    assert (runs + [run])[..|runs|] == runs;
    var found := FindRun(runs, runId);
    if found.Some? {
      RunFound(runs, runId);
      var own := found.value;
      FilterAppend(runs, run, (r: RunRow) => r.live && r.mandateId == own.mandateId && r.startedAt < own.startedAt && r.runId != runId);
    }
  }

  /** The same over the rows of the table: a run that starts later is seen from no other. */
  lemma LaterRunUnseen(runs: seq<RunRow>, run: RunRow, first: string, second: string)
    requires MayStart(runs, run) && second != run.runId
    ensures StartedEarlier(runs + [run], first, second) <==> StartedEarlier(runs, first, second)
  {
    if x, y :| x in runs + [run] && y in runs + [run] && x.runId == first && y.runId == second && IsBothLive(x, y) && x.startedAt < y.startedAt {
      assert y in runs && x in runs;
    }
  }

  /** Run ids stay distinct. */
  lemma {:induction false} DistinctRunsKept(m: Machine, steps: seq<Step>)
    requires DistinctRuns(m.store.runs) && Legal(m, steps)
    ensures DistinctRuns(Exec(m, steps).store.runs)
    decreases |steps|
  {
    if steps != [] {
      RunsChange(m, steps[0]);
      hide Next;
      DistinctRunsKept(Next(m, steps[0]), steps[1..]);
    }
  }

  lemma {:induction false} RunFound(runs: seq<RunRow>, runId: string)
    ensures FindRun(runs, runId).Some? ==> FindRun(runs, runId).value in runs
  {
    if runs != [] {
      assert runs == runs[..|runs| - 1] + [runs[|runs| - 1]];
      RunFound(runs[..|runs| - 1], runId);
    }
  }

  lemma SafeAfterBegin(m: Machine, event: Event, ctx: Context, ok: Safety, good: (Event, Context) -> bool)
    requires WellFormed(m) && Allowed(m, Deliver(event, ctx)) && Safe(m, ok)
    requires good(event, ctx) && Established(ok, good)
    ensures Safe(Next(m, Deliver(event, ctx)), ok)
  {
    hide Begin, EntryOk, InOrder, UniqueIds;
    var noted := NoteEvent(m.store, event.facts.id, NotedOf(event));
    if Find(noted.rows, event.facts.id).None? {
      assert IndexOf(noted.rows, event.facts.id).None?;
      assert Deliverable(noted, event, ctx);
      if Begin(noted, event, ctx).entry.outcome.Approve? {
        assert ok(noted.runs, noted.rows, Stored(Begin(noted, event, ctx).entry));
      }
    }
  }

  lemma SafeAfterSave(m: Machine, ok: Safety)
    requires WellFormed(m) && Safe(m, ok) && m.inflight.Some?
    ensures Safe(Next(m, Save), ok)
  {
    hide Begin;
    WellFormedAfterSave(m);
    RunsChange(m, Save);
    var rows, later := m.store.rows, Next(m, Save).store.rows;
    forall k | 0 <= k < |later| && later[k].outcome.Approve? ensures ok(m.store.runs, later[..k], later[k]) {
      assert later[..k] == rows[..k];
      if k == |rows| { assert rows[..k] == rows; }
    }
  }

  lemma SameInflight(m: Machine, step: Step)
    requires !step.Deliver? && (step.Save? ==> m.inflight.None?)
    ensures Next(m, step).inflight == m.inflight
  {
    hide Begin, Commit, CustomerAnswer, Expire, SetDeadline;
  }

  lemma SafeAfterChange(m: Machine, step: Step, ok: Safety)
    requires WellFormed(m) && Allowed(m, step) && Safe(m, ok) && Stable(ok)
    requires !step.Deliver? && !step.Start? && (step.Save? ==> m.inflight.None?)
    ensures Safe(Next(m, step), ok)
  {
    hide Begin, EntryOk, InOrder, UniqueIds;
    StepEvolves(m, step);
    SameInflight(m, step);
    RunsChange(m, step);
    hide Next;
    var rows, later := m.store.rows, Next(m, step).store.rows;
    forall k | 0 <= k < |later| && later[k].outcome.Approve? ensures ok(m.store.runs, later[..k], later[k]) {
      assert rows[k] in rows;
      EvolvesKeeps(rows[k], later[k]);
      assert forall x :: x in rows[..k] ==> x in rows;
      assert RowsEvolve(rows[..k], later[..k]);
    }
  }

  lemma SafeAfterStart(m: Machine, run: RunRow, ok: Safety)
    requires Allowed(m, Start(run)) && Safe(m, ok) && Stable(ok)
    ensures Safe(Next(m, Start(run)), ok)
  {
    hide Begin, EntryOk, RowsEvolve, MayStart;
    var rows := m.store.rows;
    forall k | 0 <= k < |rows| && rows[k].outcome.Approve? ensures ok(m.store.runs + [run], rows[..k], rows[k]) {
      assert rows[k] in rows;
    }
  }

  lemma {:induction false} SafetyPrinciple(m: Machine, steps: seq<Step>, ok: Safety, good: (Event, Context) -> bool)
    requires WellFormed(m) && Legal(m, steps) && AllGood(steps, good)
    requires Stable(ok) && Established(ok, good) && Safe(m, ok)
    ensures Safe(Exec(m, steps), ok)
    decreases |steps|
  {
    hide Next, Allowed, WellFormed, Safe, Stable, Established;
    if steps != [] {
      var step := steps[0];
      WellFormedStep(m, step);
      if step.Deliver? {
        SafeAfterBegin(m, step.event, step.ctx, ok, good);
      } else if step.Start? {
        SafeAfterStart(m, step.run, ok);
      } else if step.Save? && m.inflight.Some? {
        SafeAfterSave(m, ok);
      } else {
        SafeAfterChange(m, step, ok);
      }
      SafetyPrinciple(Next(m, step), steps[1..], ok, good);
    }
  }
}
