/** `StoreLedger` refines `InMemoryLedger`: over the same decisions, in whatever order each keeps
    them, the two views agree in every field but the session watch, which only the store keeps
    (ledger.py:121-196 against ledger_base.py:334-409). */
module Refinement {
  import opened Seqs
  import opened Types
  import opened Ledger
  import opened Views
  import opened Sorting
  import opened Permutations

  lemma InWindowPermuted(run: seq<Entry>, run': seq<Entry>, q: Query)
    requires Permuted(run, run')
    ensures Permuted(InWindow(run, q), InWindow(run', q))
  {
    FilterPermuted(run, run', (e: Entry) => IsInWindow(e, q));
  }

  lemma CardsPermuted(approved: seq<Entry>, approved': seq<Entry>, cardId: string)
    requires Permuted(approved, approved')
    ensures Permuted(OnCard(approved, cardId), OnCard(approved', cardId))
    ensures Permuted(OffCard(approved, cardId), OffCard(approved', cardId))
  {
    FilterPermuted(approved, approved', (e: Entry) => e.cardId == cardId);
    FilterPermuted(approved, approved', (e: Entry) => e.cardId != cardId);
  }

  lemma SameTaught(approved: seq<Entry>, approved': seq<Entry>, events: map<string, Noted>)
    requires Permuted(approved, approved')
    ensures DevicesOf(approved, events) == DevicesOf(approved', events)
    ensures CountriesOf(approved, events) == CountriesOf(approved', events)
  {
    PermutedMembers(approved, approved');
  }

  lemma SameKeys(decisions: seq<Entry>, decisions': seq<Entry>)
    requires forall e :: e in decisions <==> e in decisions'
    ensures KeysOf(decisions) == KeysOf(decisions')
  {
    hide ConfirmationKeys;
  }

  lemma SameLastPrices(h: History, customerId: string, approved: seq<Entry>, approved': seq<Entry>)
    requires Permuted(approved, approved') && NoTies(approved)
    ensures LastPrices(h, customerId, approved) == LastPrices(h, customerId, approved')
  {
    hide SortByTs, LatestPrices, Filter;
    FilterPermuted(approved, approved', (e: Entry) => e.customerId == customerId);
    FilterNoTies(approved, (e: Entry) => e.customerId == customerId);
    SortUnique(Filter(approved, (e: Entry) => e.customerId == customerId),
               Filter(approved', (e: Entry) => e.customerId == customerId));
  }

  lemma SameTotals(run: seq<Entry>, run': seq<Entry>, q: Query)
    requires Permuted(run, run')
    ensures
      var w, w' := InWindow(run, q), InWindow(run', q);
      && SumBy(w, SpentOf) == SumBy(w', SpentOf) && SumBy(w, ReservedOf) == SumBy(w', ReservedOf)
      && |Filter(w, IsFinalApproval)| == |Filter(w', IsFinalApproval)| && |Filter(w, IsPending)| == |Filter(w', IsPending)|
      && MaxOf(Map(Filter(w, IsFinalApproval), TsOf)) == MaxOf(Map(Filter(w', IsFinalApproval), TsOf))
  {
    hide InWindow, SumBy, Filter, MaxOf;
    var w, w' := InWindow(run, q), InWindow(run', q);
    InWindowPermuted(run, run', q);
    SumPermuted(w, w', SpentOf);
    SumPermuted(w, w', ReservedOf);
    FilterPermuted(w, w', IsFinalApproval);
    FilterPermuted(w, w', IsPending);
    PermutedMembers(Filter(w, IsFinalApproval), Filter(w', IsFinalApproval));
    PermutedMembers(Filter(w, IsPending), Filter(w', IsPending));
    MaxPermuted(Filter(w, IsFinalApproval), Filter(w', IsFinalApproval), TsOf);
  }

  lemma SameTallies(approved: seq<Entry>, approved': seq<Entry>, h: History, q: Query)
    requires Permuted(approved, approved')
    ensures
      var card := HeldOn(h.byCard, q.cardId);
      var others := OtherCards(HeldOn(h.byCustomer, q.customerId), card);
      && CountApprovals(card, OnCard(approved, q.cardId)) == CountApprovals(card, OnCard(approved', q.cardId))
      && CountApprovals(others, OffCard(approved, q.cardId)) == CountApprovals(others, OffCard(approved', q.cardId))
  {
    hide CountApprovals, OnCard, OffCard;
    var card := HeldOn(h.byCard, q.cardId);
    CardsPermuted(approved, approved', q.cardId);
    TallyPermuted(card, OnCard(approved, q.cardId), OnCard(approved', q.cardId));
    TallyPermuted(OtherCards(HeldOn(h.byCustomer, q.customerId), card), OffCard(approved, q.cardId), OffCard(approved', q.cardId));
  }

  lemma SameAssembled(run: seq<Entry>, run': seq<Entry>, priors: seq<Prior>, fulfilled: seq<Fulfilment>, keys: set<string>,
                      watch: bool, s: Store, s': Store, h: History, q: Query)
    requires Permuted(run, run') && NoTies(run) && s.events == s'.events && s.flags == s'.flags
    ensures Assemble(run, priors, fulfilled, keys, false, s, h, q)
         == Assemble(run', priors, fulfilled, keys, watch, s', h, q).(frozen := false)
  {
    hide Filter, InWindow, CountApprovals, OnCard, OffCard, LastPrices, MaxOf, SumBy, DevicesOf, CountriesOf, NamesOf,
      OtherCards, HeldOn, Flagged, NoTies, Permuted, LargestOf;
    var approved, approved' := Filter(run, IsSpent), Filter(run', IsSpent);
    FilterPermuted(run, run', IsSpent);
    FilterNoTies(run, IsSpent);
    SameTotals(run, run', q);
    SameTallies(approved, approved', h, q);
    SameTaught(approved, approved', s.events);
    SameLargest(approved, approved', if q.customerId in h.maxApproved then Some(h.maxApproved[q.customerId]) else None);
    SameLastPrices(h, q.customerId, approved, approved');
  }

  lemma SameLargest(approved: seq<Entry>, approved': seq<Entry>, history: Option<int>)
    requires Permuted(approved, approved')
    ensures LargestOf(approved, history) == LargestOf(approved', history)
  {
    hide MaxOf;
    MaxPermuted(approved, approved', AmountOf);
  }

  /** One ledger's decisions in two orders, with no two purchases of the run at the same time. */
  ghost predicate SameDecisions(memory: Store, store: Store, runId: string) {
    && Permuted(memory.rows, store.rows)
    && memory.flags == store.flags && memory.requested == store.requested && memory.events == store.events
    && forall i, j :: 0 <= i < j < |memory.rows| && memory.rows[i].runId == runId && memory.rows[j].runId == runId
         ==> memory.rows[i].ts != memory.rows[j].ts
  }

  lemma {:induction false} RunNoTies(rows: seq<Entry>, q: Query)
    requires forall i, j :: 0 <= i < j < |rows| && rows[i].runId == q.runId && rows[j].runId == q.runId ==> rows[i].ts != rows[j].ts
    ensures NoTies(RunBefore(rows, q))
  {
    if rows != [] {
      var init, last := rows[..|rows| - 1], rows[|rows| - 1];
      RunNoTies(init, q);
      forall x | x in RunBefore(init, q) && IsBefore(last, q) ensures x.ts != last.ts {
        var i :| 0 <= i < |init| && init[i] == x;
      }
    }
  }

  lemma FulfilmentsOfSorted(run: seq<Entry>, sorted: seq<Entry>, requested: map<string, string>)
    requires sorted == SortByTs(run)
    ensures Fulfilments(sorted, requested) == Fulfilments(run, requested)
  {
    hide SortByTs, Filter;
    SortSorted(run);
    SortOrdered(sorted);
  }

  /** The refinement: in a run with no earlier live run of its mandate, the store's view is the
      reference ledger's in every field except `frozen`. */
  lemma ViewsAgree(memory: Store, store: Store, h: History, q: Query)
    requires SameDecisions(memory, store, q.runId) && EarlierLiveRuns(store.runs, q.runId) == []
    ensures MemoryView(memory, h, q) == StoreView(store, h, q).(frozen := false)
  {
    hide SortByTs, RunBefore, PriorsOf, Fulfilments, KeysOf, Assemble, WatchOn, WatchedDecisions, NoTies, Permuted;
    var run, run' := RunBefore(memory.rows, q), RunBefore(store.rows, q);
    RunPermuted(memory.rows, store.rows, q);
    RunNoTies(memory.rows, q);
    SortUnique(run, run');
    var sorted := SortByTs(run');
    SortedPermuted(run, run');
    assert EarlierDecisions(store, q.runId) == [];
    assert [] + sorted == sorted && sorted + [] == sorted;
    FulfilmentsOfSorted(run, sorted, memory.requested);
    SameKeys(run, sorted);
    SameAssembled(run, sorted, PriorsOf(sorted, q.at), Fulfilments(run, memory.requested), KeysOf(run),
                  WatchOn(WatchedDecisions(store, q)), memory, store, h, q);
  }

  lemma RunPermuted(rows: seq<Entry>, rows': seq<Entry>, q: Query)
    requires Permuted(rows, rows')
    ensures Permuted(RunBefore(rows, q), RunBefore(rows', q))
  {
    FilterPermuted(rows, rows', (e: Entry) => IsBefore(e, q));
  }

  lemma SortedPermuted(run: seq<Entry>, run': seq<Entry>)
    requires Permuted(run, run')
    ensures Permuted(run, SortByTs(run')) && forall e :: e in run <==> e in SortByTs(run')
  {
    SortPermuted(run');
    PermutedMembers(run, SortByTs(run'));
  }

  // --- Any sequence of operations -------------------------------------------------------

  datatype Op =
    | NoteOp(id: string, noted: Noted)
    | RecordOp(entry: Entry)
    | ResolveOp(id: string, approve: bool, who: Resolver, at: int)
    | DeadlineOp(id: string, deadline: int)
    | FlagOp(runId: string, merchantId: string)
    | MarkOp(id: string, item: string)

  /** One operation on a ledger; a refused one changes nothing. */
  function Apply(s: Store, op: Op): Store {
    match op
    case NoteOp(id, noted) => NoteEvent(s, id, noted)
    case RecordOp(entry) => Record(s, entry).0
    case ResolveOp(id, approve, who, at) =>
      var r := Resolve(s, id, approve, who, at);
      if r.Ok? then r.value else s
    case DeadlineOp(id, deadline) =>
      var r := SetDeadline(s, id, deadline);
      if r.Ok? then r.value else s
    case FlagOp(runId, merchantId) => FlagMerchant(s, runId, merchantId)
    case MarkOp(id, item) => MarkRequested(s, id, item)
  }

  function ApplyAll(s: Store, ops: seq<Op>): Store
    decreases |ops|
  {
    if ops == [] then s else ApplyAll(Apply(s, ops[0]), ops[1..])
  }

  /** Two ledgers that hold the same, each in its own order. */
  ghost predicate Mirrors(memory: Store, store: Store) {
    && Permuted(memory.rows, store.rows) && UniqueIds(memory.rows) && UniqueIds(store.rows)
    && memory.flags == store.flags && memory.requested == store.requested && memory.events == store.events
  }

  lemma SameFound(rows: seq<Entry>, rows': seq<Entry>, id: string)
    requires Permuted(rows, rows') && UniqueIds(rows')
    ensures IndexOf(rows, id).Some? <==> IndexOf(rows', id).Some?
    ensures IndexOf(rows, id).Some? ==> rows[IndexOf(rows, id).value] == rows'[IndexOf(rows', id).value]
  {
    PermutedMembers(rows, rows');
    var i, j := IndexOf(rows, id), IndexOf(rows', id);
    if i.Some? {
      assert rows[i.value] in rows';
      var k :| 0 <= k < |rows'| && rows'[k] == rows[i.value];
    }
    if j.Some? { assert rows'[j.value] in rows; }
  }

  /** Replacing the row of an id in both orders. */
  lemma SameReplaced(rows: seq<Entry>, rows': seq<Entry>, i: nat, j: nat, x: Entry)
    requires Permuted(rows, rows') && UniqueIds(rows) && UniqueIds(rows')
    requires i < |rows| && j < |rows'| && rows[i] == rows'[j] && x.id == rows[i].id
    ensures Permuted(rows[i := x], rows'[j := x]) && UniqueIds(rows[i := x]) && UniqueIds(rows'[j := x])
  {
    assert multiset(rows[i := x]) == multiset(rows) - multiset{rows[i]} + multiset{x};
    assert multiset(rows'[j := x]) == multiset(rows') - multiset{rows'[j]} + multiset{x};
  }

  lemma RowOpMirrors(memory: Store, store: Store, op: Op)
    requires Mirrors(memory, store) && (op.ResolveOp? || op.DeadlineOp?)
    ensures Mirrors(Apply(memory, op), Apply(store, op))
  {
    hide IndexOf, Permuted, UniqueIds;
    SameFound(memory.rows, store.rows, op.id);
    var i, j := IndexOf(memory.rows, op.id), IndexOf(store.rows, op.id);
    if i.Some? && IsPending(memory.rows[i.value]) {
      var e := memory.rows[i.value];
      match op
      case ResolveOp(_, approve, who, at) =>
        SameReplaced(memory.rows, store.rows, i.value, j.value, Closed(e, approve, who, at));
      case DeadlineOp(_, deadline) =>
        SameReplaced(memory.rows, store.rows, i.value, j.value, e.(deadline := Some(deadline)));
    }
  }

  lemma RecordMirrors(memory: Store, store: Store, entry: Entry)
    requires Mirrors(memory, store)
    ensures Mirrors(Record(memory, entry).0, Record(store, entry).0)
  {
    SameFound(memory.rows, store.rows, entry.id);
  }

  lemma OpMirrors(memory: Store, store: Store, op: Op)
    requires Mirrors(memory, store)
    ensures Mirrors(Apply(memory, op), Apply(store, op))
  {
    hide IndexOf, Permuted, UniqueIds, Resolve, SetDeadline;
    match op
    case RecordOp(entry) => RecordMirrors(memory, store, entry);
    case ResolveOp(_, _, _, _) => RowOpMirrors(memory, store, op);
    case DeadlineOp(_, _) => RowOpMirrors(memory, store, op);
    case _ =>
  }

  lemma OpKeepsRuns(s: Store, op: Op)
    ensures Apply(s, op).runs == s.runs
  {
  }

  lemma {:induction false} MirrorsAll(memory: Store, store: Store, ops: seq<Op>)
    requires Mirrors(memory, store)
    ensures Mirrors(ApplyAll(memory, ops), ApplyAll(store, ops))
    ensures ApplyAll(store, ops).runs == store.runs
    decreases |ops|
  {
    hide Mirrors, Apply;
    if ops != [] {
      OpMirrors(memory, store, ops[0]);
      OpKeepsRuns(store, ops[0]);
      MirrorsAll(Apply(memory, ops[0]), Apply(store, ops[0]), ops[1..]);
    }
  }

  /** After any operations, on ledgers that started with the same decisions, both show the same
      view of a run whose purchases have distinct times. */
  lemma StoreRefinesMemory(memory: Store, store: Store, ops: seq<Op>, h: History, q: Query)
    requires Mirrors(memory, store) && EarlierLiveRuns(store.runs, q.runId) == []
    requires SameDecisions(ApplyAll(memory, ops), ApplyAll(memory, ops), q.runId)
    ensures MemoryView(ApplyAll(memory, ops), h, q) == StoreView(ApplyAll(store, ops), h, q).(frozen := false)
  {
    hide MemoryView, StoreView, Apply, ApplyAll, EarlierLiveRuns, UniqueIds;
    MirrorsAll(memory, store, ops);
    ViewsAgree(ApplyAll(memory, ops), ApplyAll(store, ops), h, q);
  }
}
