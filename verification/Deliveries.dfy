/** Every stored decision comes from one delivery, and what was decided then is what the row shows: this
    carries what a single decision means along any run. */
module Deliveries {
  import opened Seqs
  import opened Types
  import opened Ledger
  import opened Views
  import opened Pipeline
  import opened Runs
  import opened Sessions
  import opened Watch
  import opened CleanSheet
  import opened RuleMeaning
  import opened Standing
  import opened Decisions

  /** Step k delivers the purchase for the first time. */
  ghost predicate DecidedAt(m: Machine, steps: seq<Step>, k: int, id: string) {
    && 0 <= k < |steps| && steps[k].Deliver? && steps[k].event.facts.id == id
    && forall e :: e in Exec(m, steps[..k]).store.rows ==> e.id != id
  }

  /** What the ledger holds when step k is decided: its event has been noted. */
  function StoreAt(m: Machine, steps: seq<Step>, k: int): Store
    requires 0 <= k < |steps| && steps[k].Deliver?
  {
    NoteEvent(Exec(m, steps[..k]).store, steps[k].event.facts.id, NotedOf(steps[k].event))
  }

  lemma InflightStays(m: Machine, step: Step)
    requires m.inflight.Some? && Allowed(m, step) && !step.Save?
    ensures Next(m, step).inflight == m.inflight
  {
    hide Begin, Commit;
    SameInflight(m, step);
  }

  lemma SavedRow(m: Machine, steps: seq<Step>, e: Entry)
    requires WellFormed(m) && m.inflight.Some? && Legal(Next(m, Save), steps)
    requires e in Exec(Next(m, Save), steps).store.rows && e.id == m.inflight.value.entry.id
    ensures SameDecision(Stored(m.inflight.value.entry), e)
  {
    hide Begin, Commit, Exec, Next, Legal;
    WellFormedAfterSave(m);
    var mid := Next(m, Save);
    RowsPersist(mid, steps);
    WellFormedRun(mid, steps);
    var rows, later := mid.store.rows, Exec(mid, steps).store.rows;
    var n := |m.store.rows|;
    assert SameDecision(rows[n], later[n]);
    var i :| 0 <= i < |later| && later[i] == e;
    assert later[n].id == e.id;
    assert i == n;
  }

  /** A decision in flight is what its row will show. */
  lemma {:induction false} InflightShown(m: Machine, steps: seq<Step>, e: Entry)
    requires WellFormed(m) && Legal(m, steps) && m.inflight.Some?
    requires e in Exec(m, steps).store.rows && e.id == m.inflight.value.entry.id
    ensures SameDecision(Stored(m.inflight.value.entry), e)
    decreases |steps|
  {
    hide Begin, Commit, SameDecision, EntryOk, Evolves;
    if steps != [] {
      if steps[0].Save? {
        SavedRow(m, steps[1..], e);
      } else {
        WellFormedStep(m, steps[0]);
        InflightStays(m, steps[0]);
        hide Next, Allowed, WellFormed;
        InflightShown(Next(m, steps[0]), steps[1..], e);
      }
    }
  }

  lemma DeliveredFirst(m: Machine, event: Event, ctx: Context)
    requires forall e :: e in m.store.rows ==> e.id != event.facts.id
    ensures
      var noted := NoteEvent(m.store, event.facts.id, NotedOf(event));
      Next(m, Deliver(event, ctx)) == Machine(noted, Some(Begin(noted, event, ctx)))
  {
    hide Begin;
    var noted := NoteEvent(m.store, event.facts.id, NotedOf(event));
    forall i | 0 <= i < |noted.rows| ensures noted.rows[i].id != event.facts.id { assert noted.rows[i] in m.store.rows; }
  }

  lemma ExecPrefix(m: Machine, steps: seq<Step>, k: nat)
    requires 0 < k <= |steps|
    ensures Exec(m, steps[..k]) == Exec(Next(m, steps[0]), steps[1..][..k - 1])
  {
    hide Next;
    assert steps[..k][1..] == steps[1..][..k - 1];
  }

  /** The row of a purchase shows what was decided when it was first delivered, at most closed since. */
  lemma {:induction false} RowShowsDecision(m: Machine, steps: seq<Step>, k: nat, e: Entry)
    requires WellFormed(m) && Legal(m, steps) && DecidedAt(m, steps, k, e.id) && e in Exec(m, steps).store.rows
    ensures SameDecision(Stored(Begin(StoreAt(m, steps, k), steps[k].event, steps[k].ctx).entry), e)
    decreases |steps|
  {
    hide Begin, SameDecision;
    WellFormedStep(m, steps[0]);
    if k == 0 {
      assert steps[..0] == [];
      DeliveredFirst(m, steps[0].event, steps[0].ctx);
      BeginIsNew(StoreAt(m, steps, 0), steps[0].event, steps[0].ctx);
      hide WellFormed, Allowed, Next;
      InflightShown(Next(m, steps[0]), steps[1..], e);
    } else {
      hide WellFormed, Allowed, Next;
      ExecPrefix(m, steps, k);
      RowShowsDecision(Next(m, steps[0]), steps[1..], k - 1, e);
    }
  }

  /** What a step leaves of an id that was neither stored nor in flight. */
  lemma StaysUnknown(m: Machine, step: Step, id: string)
    requires (forall e :: e in m.store.rows ==> e.id != id) && (m.inflight.Some? ==> m.inflight.value.entry.id != id)
    requires WellFormed(m) && Allowed(m, step) && !(step.Deliver? && step.event.facts.id == id)
    ensures (forall e :: e in Next(m, step).store.rows ==> e.id != id) && (Next(m, step).inflight.Some? ==> Next(m, step).inflight.value.entry.id != id)
  {
    hide Begin, EntryOk, InOrder, UniqueIds;
    if step.Save? && m.inflight.Some? {
      WellFormedAfterSave(m);
    } else {
      StepEvolves(m, step);
      forall e | e in Next(m, step).store.rows ensures e.id != id {
        var i :| 0 <= i < |Next(m, step).store.rows| && Next(m, step).store.rows[i] == e;
        assert m.store.rows[i] in m.store.rows && Evolves(m.store.rows[i], e);
      }
      if step.Deliver? {
        var noted := NoteEvent(m.store, step.event.facts.id, NotedOf(step.event));
        BeginIsNew(noted, step.event, step.ctx);
      } else {
        SameInflight(m, step);
      }
    }
  }

  /** No row without its delivery. */
  lemma {:induction false} RowWasDelivered(m: Machine, steps: seq<Step>, e: Entry) returns (k: nat)
    requires WellFormed(m) && Legal(m, steps) && e in Exec(m, steps).store.rows
    requires (forall x :: x in m.store.rows ==> x.id != e.id) && (m.inflight.Some? ==> m.inflight.value.entry.id != e.id)
    ensures DecidedAt(m, steps, k, e.id)
    decreases |steps|
  {
    hide Begin;
    assert steps != [];
    assert steps[..0] == [];
    if steps[0].Deliver? && steps[0].event.facts.id == e.id {
      k := 0;
    } else {
      WellFormedStep(m, steps[0]);
      StaysUnknown(m, steps[0], e.id);
      hide Next, Allowed, WellFormed;
      var j := RowWasDelivered(Next(m, steps[0]), steps[1..], e);
      k := j + 1;
      ExecPrefix(m, steps, k);
    }
  }

  // --- Along any run ---------------------------------------------------------------------------------------

  /** A1 over whole runs: no automatic approval in any state comes from an event with instructions in
      its shop's text. */
  lemma NoApprovalOnInstructions(m: Machine, steps: seq<Step>, e: Entry)
    requires m.store.rows == [] && m.inflight.None? && Legal(m, steps)
    requires e in Exec(m, steps).store.rows && e.outcome.Approve?
    ensures exists k :: DecidedAt(m, steps, k, e.id)
    ensures forall k :: DecidedAt(m, steps, k, e.id) ==> !steps[k].event.facts.instructionsInText
  {
    hide Begin, Exec, Legal;
    var first := RowWasDelivered(m, steps, e);
    forall k | DecidedAt(m, steps, k, e.id) ensures !steps[k].event.facts.instructionsInText {
      RowShowsDecision(m, steps, k, e);
      if steps[k].event.facts.instructionsInText { InstructionsNeverApproved(StoreAt(m, steps, k), steps[k].event, steps[k].ctx); }
    }
  }

  /** C5 over whole runs: under a policy with an item asked for, every automatic approval was delivered
      with a line that has all its words. */
  lemma ApprovalsHoldWhatWasAsked(m: Machine, steps: seq<Step>, e: Entry, k: nat)
    requires m.store.rows == [] && m.inflight.None? && Legal(m, steps)
    requires e in Exec(m, steps).store.rows && e.outcome.Approve? && DecidedAt(m, steps, k, e.id)
    requires Tidy(steps[k].ctx.policy) && steps[k].ctx.policy.requestedItem.Some?
    ensures
      var words := steps[k].ctx.policy.requestedItem.value.words;
      words != {} && exists ln :: ln in steps[k].event.facts.items && words <= ln.words
  {
    hide Begin, Exec, Legal, Tidy;
    RowShowsDecision(m, steps, k, e);
    HoldsWhatWasAsked(StoreAt(m, steps, k), steps[k].event, steps[k].ctx);
  }

  /** An attack arms the watch: after a purchase from a strange device in a burst, no later purchase on
      the card, in its run or a later live run of the mandate, is approved automatically until the
      customer has approved a step-up there. */
  lemma AttackArms(m: Machine, steps: seq<Step>, k: nat, i: int, j: int)
    requires m.store.rows == [] && m.inflight.None? && Legal(m, steps) && DistinctRuns(m.store.runs)
    requires
      var s := Exec(m, steps).store;
      && 0 <= i < j < |s.rows| && DecidedAt(m, steps, k, s.rows[i].id)
      && !Unruled(steps[k].event, steps[k].ctx.policy)
      && IsAttack(steps[k].event, ViewAt(StoreAt(m, steps, k), steps[k].event, steps[k].ctx))
      && s.rows[j].outcome.Approve? && s.rows[i].cardId == s.rows[j].cardId && SeenFrom(s.runs, s.rows[i].runId, s.rows[j].runId)
    ensures
      var s := Exec(m, steps).store;
      exists c :: c in s.rows[..j] && EndsWatch(s.runs, c, s.rows[i], s.rows[j])
  {
    hide Begin, Exec, Legal, IsAttack, ViewAt, EndsWatch, SeenFrom, DistinctRuns;
    var s := Exec(m, steps).store;
    RowShowsDecision(m, steps, k, s.rows[i]);
    FrozenIff(StoreAt(m, steps, k), steps[k].event, steps[k].ctx);
    WatchHolds(m, steps);
    assert FrozenBefore(s.runs, s.rows, i, j);
  }
}
