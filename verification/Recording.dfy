/** Exactly-once recording under concurrency (backend/oneguard/engine/ledger.py:286-305): any number
    of callers look a live id up, insert, and fall back to the winner's row when the insert
    conflicts, while answers and timeouts close step-ups in between. */
module Recording {
  import opened Seqs
  import opened Types
  import opened Ledger
  import opened Runs

  /** Where one call of `record` stands. `Missing` is the re-raised conflict. */
  datatype Phase =
    | Called(entry: Entry)
    | Looked(entry: Entry)
    | Conflicted(entry: Entry)
    | Returned(id: string, stored: Entry)
    | Missing

  /** The decisions table and the calls in progress; `first` remembers each row as inserted. */
  datatype Office = Office(rows: seq<Entry>, first: map<string, Entry>, calls: map<nat, Phase>)

  datatype Action =
    | Call(caller: nat, entry: Entry)
    | Look(caller: nat)
    | Insert(caller: nat)
    | FallBack(caller: nat)
    | Close(id: string, approve: bool, who: Resolver, at: int)
    | Move(id: string, deadline: int)

  /** What `record` is called with: a decision just made. */
  predicate IsNew(e: Entry) {
    e.amount > 0 && (e.outcome.StepUp? <==> !e.final) && !e.answer.Approved? && e.resolvedBy.Nobody?
  }

  function AsStore(rows: seq<Entry>): Store { Store(rows, {}, map[], map[], []) }

  /** One atomic step; a caller acts only in its own phase. */
  function Next(o: Office, a: Action): Office {
    match a
    case Call(c, entry) => if c in o.calls then o else o.(calls := o.calls[c := Called(entry)])
    case Look(c) =>
      if c !in o.calls || !o.calls[c].Called? then o
      else
        var entry := o.calls[c].entry;
        var found := Find(o.rows, entry.id);
        o.(calls := o.calls[c := if found.Some? then Returned(entry.id, found.value) else Looked(entry)])
    case Insert(c) =>
      if c !in o.calls || !o.calls[c].Looked? then o
      else
        var entry := o.calls[c].entry;
        if Find(o.rows, entry.id).Some? then o.(calls := o.calls[c := Conflicted(entry)])
        else Office(o.rows + [Stored(entry)], o.first[entry.id := Stored(entry)], o.calls[c := Returned(entry.id, Stored(entry))])
    case FallBack(c) =>
      if c !in o.calls || !o.calls[c].Conflicted? then o
      else
        var entry := o.calls[c].entry;
        var winner := Find(o.rows, entry.id);
        o.(calls := o.calls[c := if winner.Some? then Returned(entry.id, winner.value) else Missing])
    case Close(id, approve, who, at) =>
      if ValidClosing(approve, who) then o.(rows := OrSame(AsStore(o.rows), Resolve(AsStore(o.rows), id, approve, who, at)).rows) else o
    case Move(id, deadline) => o.(rows := OrSame(AsStore(o.rows), SetDeadline(AsStore(o.rows), id, deadline)).rows)
  }

  function Run(o: Office, actions: seq<Action>): Office
    decreases |actions|
  {
    if actions == [] then o else Run(Next(o, actions[0]), actions[1..])
  }

  // --- What every step keeps ----------------------------------------------------------------------

  /** A row is the first one inserted for its id, up to an answer. */
  ghost predicate RowsOk(o: Office) {
    && UniqueIds(o.rows)
    && (forall e :: e in o.rows ==> EntryOk(e) && e.id in o.first && SameDecision(o.first[e.id], e))
    && (forall id :: id in o.first ==> exists e :: e in o.rows && e.id == id)
  }

  ghost predicate CallOk(o: Office, p: Phase) {
    match p
    case Called(entry) => IsNew(entry)
    case Looked(entry) => IsNew(entry)
    case Conflicted(entry) => entry.id in o.first
    case Returned(id, stored) =>
      && stored.id == id && id in o.first && SameDecision(o.first[id], stored)
      && forall e :: e in o.rows && e.id == id ==> SameDecision(stored, e)
    case Missing => false
  }

  ghost predicate OfficeOk(o: Office) {
    RowsOk(o) && forall c :: c in o.calls ==> CallOk(o, o.calls[c])
  }

  lemma SameDecisionTrans(x: Entry, y: Entry, z: Entry)
    requires SameDecision(x, y) && SameDecision(y, z)
    ensures SameDecision(x, z)
  {
  }

  lemma SameDecisionRefl(x: Entry)
    ensures SameDecision(x, x)
  {
  }

  lemma FindUnique(rows: seq<Entry>, id: string)
    requires UniqueIds(rows)
    ensures Find(rows, id).Some? <==> exists e :: e in rows && e.id == id
    ensures Find(rows, id).Some? ==> Find(rows, id).value in rows && forall e :: e in rows && e.id == id ==> e == Find(rows, id).value
  {
    var i := IndexOf(rows, id);
    if i.Some? {
      forall e | e in rows && e.id == id ensures e == rows[i.value] {
        var j :| 0 <= j < |rows| && rows[j] == e;
      }
    }
  }

  lemma RowChangeOk(o: Office, a: Action)
    requires OfficeOk(o) && (a.Close? || a.Move?)
    ensures OfficeOk(Next(o, a))
  {
    hide EntryOk, SameDecision, UniqueIds;
    var o' := Next(o, a);
    assert RowsEvolve(o.rows, o'.rows) by {
      hide *;
      RowChangeEvolves(o, a);
    }
    EvolvedOk(o, o');
  }

  lemma RowChangeEvolves(o: Office, a: Action)
    requires a.Close? || a.Move?
    ensures RowsEvolve(o.rows, Next(o, a).rows)
  {
    var store := AsStore(o.rows);
    match a
    case Close(id, approve, who, at) => if ValidClosing(approve, who) { ResolveEvolves(store, id, approve, who, at); }
    case Move(id, deadline) =>
      var i := IndexOf(o.rows, id);
      if i.Some? && IsPending(o.rows[i.value]) {
        var x := o.rows[i.value].(deadline := Some(deadline));
        assert Evolves(o.rows[i.value], x);
        SetRow(o.rows, i.value, x);
      }
  }

  lemma EvolvedRow(rows: seq<Entry>, later: seq<Entry>, i: nat)
    requires RowsEvolve(rows, later) && i < |rows| && EntryOk(rows[i])
    ensures SameDecision(rows[i], later[i]) && EntryOk(later[i]) && later[i].id == rows[i].id
  {
    EvolvesKeeps(rows[i], later[i]);
  }

  /** Rows evolve one by one, each keeping its decision. */
  ghost predicate RowsKept(rows: seq<Entry>, later: seq<Entry>) {
    |rows| == |later| && forall i :: 0 <= i < |rows| ==> RowKept(rows[i], later[i])
  }

  ghost predicate RowKept(x: Entry, y: Entry) { SameDecision(x, y) && EntryOk(y) && y.id == x.id }

  lemma EvolvedKept(rows: seq<Entry>, later: seq<Entry>)
    requires RowsEvolve(rows, later) && forall e :: e in rows ==> EntryOk(e)
    ensures RowsKept(rows, later)
  {
    hide EntryOk, SameDecision, Evolves;
    forall i | 0 <= i < |rows| ensures RowKept(rows[i], later[i]) {
      assert rows[i] in rows;
      EvolvedRow(rows, later, i);
    }
  }

  lemma KeptFrom(rows: seq<Entry>, later: seq<Entry>, e: Entry) returns (before: Entry)
    requires RowsKept(rows, later) && e in later
    ensures before in rows && RowKept(before, e)
  {
    hide RowKept;
    var i :| 0 <= i < |later| && later[i] == e;
    before := rows[i];
  }

  lemma KeptRowsOk(o: Office, o': Office)
    requires RowsOk(o) && RowsKept(o.rows, o'.rows) && o'.first == o.first
    ensures RowsOk(o')
  {
    hide EntryOk, SameDecision, UniqueIds;
    forall e | e in o'.rows ensures EntryOk(e) && e.id in o.first && SameDecision(o.first[e.id], e) {
      var before := KeptFrom(o.rows, o'.rows, e);
      SameDecisionTrans(o.first[e.id], before, e);
    }
    forall id | id in o.first ensures exists e :: e in o'.rows && e.id == id {
      var i :| 0 <= i < |o.rows| && o.rows[i].id == id;
      assert RowKept(o.rows[i], o'.rows[i]) && o'.rows[i] in o'.rows;
    }
    KeptUnique(o.rows, o'.rows);
  }

  lemma KeptUnique(rows: seq<Entry>, later: seq<Entry>)
    requires RowsKept(rows, later) && UniqueIds(rows)
    ensures UniqueIds(later)
  {
    hide SameDecision, EntryOk;
  }

  lemma KeptCallOk(o: Office, o': Office, p: Phase)
    requires CallOk(o, p) && RowsKept(o.rows, o'.rows) && o'.first == o.first
    ensures CallOk(o', p)
  {
    hide EntryOk, SameDecision, RowsKept, IsNew;
    if p.Returned? {
      forall e | e in o'.rows && e.id == p.id ensures SameDecision(p.stored, e) {
        var before := KeptFrom(o.rows, o'.rows, e);
        SameDecisionTrans(p.stored, before, e);
      }
    }
  }

  lemma EvolvedOk(o: Office, o': Office)
    requires OfficeOk(o) && RowsEvolve(o.rows, o'.rows) && o'.first == o.first && o'.calls == o.calls
    ensures OfficeOk(o')
  {
    hide EntryOk, SameDecision, RowsEvolve, RowsKept, CallOk, UniqueIds;
    EvolvedKept(o.rows, o'.rows);
    KeptRowsOk(o, o');
    forall c | c in o.calls ensures CallOk(o', o.calls[c]) { KeptCallOk(o, o', o.calls[c]); }
  }

  /** A caller that finds a row returns that row. */
  lemma ReturnsRow(o: Office, id: string)
    requires OfficeOk(o) && Find(o.rows, id).Some?
    ensures CallOk(o, Returned(id, Find(o.rows, id).value))
  {
    hide EntryOk, SameDecision;
    FindUnique(o.rows, id);
    var e := Find(o.rows, id).value;
    SameDecisionRefl(e);
  }

  lemma LookOk(o: Office, c: nat)
    requires OfficeOk(o)
    ensures OfficeOk(Next(o, Look(c)))
  {
    hide EntryOk, SameDecision, IsNew, Find, UniqueIds;
    if c in o.calls && o.calls[c].Called? && Find(o.rows, o.calls[c].entry.id).Some? {
      ReturnsRow(o, o.calls[c].entry.id);
    }
  }

  lemma FallBackOk(o: Office, c: nat)
    requires OfficeOk(o)
    ensures OfficeOk(Next(o, FallBack(c)))
  {
    hide EntryOk, SameDecision, IsNew, Find, UniqueIds;
    if c in o.calls && o.calls[c].Conflicted? {
      FindUnique(o.rows, o.calls[c].entry.id);
      ReturnsRow(o, o.calls[c].entry.id);
    }
  }

  lemma NewStored(e: Entry)
    requires IsNew(e)
    ensures EntryOk(Stored(e)) && Stored(e).id == e.id
  {
  }

  lemma InsertOk(o: Office, c: nat)
    requires OfficeOk(o)
    ensures OfficeOk(Next(o, Insert(c)))
  {
    hide EntryOk, SameDecision, IsNew, Find, Stored;
    if c in o.calls && o.calls[c].Looked? {
      var entry := o.calls[c].entry;
      FindUnique(o.rows, entry.id);
      NewStored(entry);
      SameDecisionRefl(Stored(entry));
      if Find(o.rows, entry.id).None? {
        InsertedOk(o, Next(o, Insert(c)), Stored(entry));
      }
    }
  }

  lemma InsertedOk(o: Office, o': Office, e: Entry)
    requires OfficeOk(o) && EntryOk(e) && SameDecision(e, e) && forall x :: x in o.rows ==> x.id != e.id
    requires o'.rows == o.rows + [e] && o'.first == o.first[e.id := e]
    requires exists c :: c in o.calls && o'.calls == o.calls[c := Returned(e.id, e)]
    ensures OfficeOk(o')
  {
    hide EntryOk, SameDecision, IsNew;
    assert e.id !in o.first;
    assert e in o'.rows;
    assert forall x :: x in o.rows ==> x in o'.rows;
    assert RowsOk(o');
    forall c | c in o'.calls ensures CallOk(o', o'.calls[c]) {
      if o'.calls[c] != Returned(e.id, e) { assert CallOk(o, o.calls[c]); }
    }
  }

  ghost predicate Fresh(actions: seq<Action>) { forall a :: a in actions && a.Call? ==> IsNew(a.entry) }

  lemma StepOk(o: Office, a: Action)
    requires OfficeOk(o) && (a.Call? ==> IsNew(a.entry))
    ensures OfficeOk(Next(o, a))
  {
    match a
    case Call(_, _) => CallKeeps(o, a);
    case Look(c) => LookOk(o, c);
    case Insert(c) => InsertOk(o, c);
    case FallBack(c) => FallBackOk(o, c);
    case Close(_, _, _, _) => RowChangeOk(o, a);
    case Move(_, _) => RowChangeOk(o, a);
  }

  lemma CallKeeps(o: Office, a: Action)
    requires OfficeOk(o) && a.Call? && IsNew(a.entry)
    ensures OfficeOk(Next(o, a))
  {
    hide EntryOk, SameDecision, IsNew;
  }

  lemma {:induction false} RunOk(o: Office, actions: seq<Action>)
    requires OfficeOk(o) && Fresh(actions)
    ensures OfficeOk(Run(o, actions))
    decreases |actions|
  {
    hide OfficeOk, Next, IsNew;
    if actions != [] {
      assert actions[0] in actions;
      StepOk(o, actions[0]);
      assert forall a :: a in actions[1..] ==> a in actions;
      RunOk(Next(o, actions[0]), actions[1..]);
    }
  }

  /** Two callers with the same decision, where each stands. */
  function Both(rows: seq<Entry>, first: map<string, Entry>, one: Phase, two: Phase): Office { Office(rows, first, map[1 := one, 2 := two]) }

  lemma BothLook(e: Entry)
    ensures Next(Office([], map[], map[]), Call(1, e)) == Office([], map[], map[1 := Called(e)])
    ensures Next(Office([], map[], map[1 := Called(e)]), Call(2, e)) == Both([], map[], Called(e), Called(e))
    ensures Next(Both([], map[], Called(e), Called(e)), Look(1)) == Both([], map[], Looked(e), Called(e))
    ensures Next(Both([], map[], Looked(e), Called(e)), Look(2)) == Both([], map[], Looked(e), Looked(e))
  {
    var none: seq<Entry> := [];
    assert Find(none, e.id) == None;
  }

  lemma BothInsert(e: Entry)
    ensures
      var one, first, done := [Stored(e)], map[e.id := Stored(e)], Returned(e.id, Stored(e));
      && Next(Both([], map[], Looked(e), Looked(e)), Insert(1)) == Both(one, first, done, Looked(e))
      && Next(Both(one, first, done, Looked(e)), Insert(2)) == Both(one, first, done, Conflicted(e))
      && Next(Both(one, first, done, Conflicted(e)), FallBack(2)) == Both(one, first, done, done)
  {
    var none: seq<Entry> := [];
    var one := [Stored(e)];
    assert Find(none, e.id) == None && Find(one, e.id) == Some(Stored(e)) && none + one == one;
  }

  /** Two callers look up before either inserts: the second insert conflicts, and both return the one row. */
  lemma TwoCallersOneRow(e: Entry)
    ensures
      Run(Office([], map[], map[]), [Call(1, e), Call(2, e), Look(1), Look(2), Insert(1), Insert(2), FallBack(2)])
      == Both([Stored(e)], map[e.id := Stored(e)], Returned(e.id, Stored(e)), Returned(e.id, Stored(e)))
  {
    hide Next, Both, Stored;
    BothLook(e);
    BothInsert(e);
    var one, first, done := [Stored(e)], map[e.id := Stored(e)], Returned(e.id, Stored(e));
    RunFirst(Both(one, first, done, Conflicted(e)), FallBack(2), []);
    RunFirst(Both(one, first, done, Looked(e)), Insert(2), [FallBack(2)]);
    RunFirst(Both([], map[], Looked(e), Looked(e)), Insert(1), [Insert(2), FallBack(2)]);
    RunFirst(Both([], map[], Looked(e), Called(e)), Look(2), [Insert(1), Insert(2), FallBack(2)]);
    RunFirst(Both([], map[], Called(e), Called(e)), Look(1), [Look(2), Insert(1), Insert(2), FallBack(2)]);
    RunFirst(Office([], map[], map[1 := Called(e)]), Call(2, e), [Look(1), Look(2), Insert(1), Insert(2), FallBack(2)]);
    RunFirst(Office([], map[], map[]), Call(1, e), [Call(2, e), Look(1), Look(2), Insert(1), Insert(2), FallBack(2)]);
  }

  lemma RunFirst(o: Office, a: Action, rest: seq<Action>)
    ensures Run(o, [a] + rest) == Run(Next(o, a), rest)
  {
    assert ([a] + rest)[1..] == rest;
  }

  /** Exactly once: however calls, answers and timeouts interleave, each live id has one row, no
      call is left without one, and all calls for an id get the same decision: the first one
      inserted, as it was then or as an answer has closed it since. */
  lemma RecordedExactlyOnce(actions: seq<Action>, c: nat, d: nat)
    requires Fresh(actions)
    ensures
      var o := Run(Office([], map[], map[]), actions);
      && UniqueIds(o.rows)
      && (c in o.calls ==> !o.calls[c].Missing?)
      && (c in o.calls && o.calls[c].Returned? ==>
            && (exists e :: e in o.rows && e.id == o.calls[c].id && SameDecision(o.calls[c].stored, e))
            && o.calls[c].id in o.first && SameDecision(o.first[o.calls[c].id], o.calls[c].stored))
      && (c in o.calls && d in o.calls && o.calls[c].Returned? && o.calls[d].Returned? && o.calls[c].id == o.calls[d].id ==>
            SameFacts(o.calls[c].stored, o.calls[d].stored))
  {
    hide EntryOk, SameDecision, IsNew, Run;
    var start := Office([], map[], map[]);
    RunOk(start, actions);
    var o := Run(start, actions);
    if c in o.calls && o.calls[c].Returned? {
      var e :| e in o.rows && e.id == o.calls[c].id;
      assert SameDecision(o.calls[c].stored, e);
      if d in o.calls && o.calls[d].Returned? && o.calls[c].id == o.calls[d].id {
        SameFactsOf(o.first[o.calls[c].id], o.calls[c].stored, o.calls[d].stored);
      }
    }
  }

  /** One decision, perhaps before and after its answer. */
  predicate SameFacts(x: Entry, y: Entry) {
    y == x.(final := y.final, answer := y.answer, reserved := y.reserved, spent := y.spent, deadline := y.deadline,
            resolvedAt := y.resolvedAt, resolvedBy := y.resolvedBy)
  }

  lemma SameFactsOf(first: Entry, x: Entry, y: Entry)
    requires SameDecision(first, x) && SameDecision(first, y)
    ensures SameFacts(x, y)
  {
  }
}
