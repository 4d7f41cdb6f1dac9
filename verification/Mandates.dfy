/** A card's mandates over its life (backend/oneguard/api/queries.py:248-366): confirming, moving
    and revoking keep at most one active mandate per card, and never forget an ended one. */
module Mandates {
  import opened Seqs
  import opened Types
  import PolicyRules

  datatype Mandate = Mandate(
    id: string, cardId: string, status: PolicyStatus, confirmedAt: int, revokedAt: Option<int>, text: string)

  predicate IsActiveOn(m: Mandate, cardId: string) { m.cardId == cardId && m.status.Active? }

  function EndedAs(m: Mandate, status: PolicyStatus, at: int): Mandate { m.(status := status, revokedAt := Some(at)) }

  /** The table with the card's active mandates ended. */
  function EndActive(rows: seq<Mandate>, cardId: string, status: PolicyStatus, at: int): seq<Mandate> {
    Map(rows, (m: Mandate) => if IsActiveOn(m, cardId) then EndedAs(m, status, at) else m)
  }

  function EndById(rows: seq<Mandate>, id: string, at: int): seq<Mandate> {
    Map(rows, (m: Mandate) => if m.id == id then EndedAs(m, PolicyStatus.Revoked, at) else m)
  }

  ghost predicate UniqueMandates(rows: seq<Mandate>) {
    forall i, j :: 0 <= i < j < |rows| ==> rows[i].id != rows[j].id
  }

  /** No card has two active mandates. */
  ghost predicate OneActive(rows: seq<Mandate>) {
    forall i, j :: 0 <= i < j < |rows| && rows[i].status.Active? && rows[j].status.Active? ==> rows[i].cardId != rows[j].cardId
  }

  /** A mandate has a revocation date exactly when it is not active. */
  ghost predicate Dated(rows: seq<Mandate>) {
    forall m :: m in rows ==> (m.status.Active? <==> m.revokedAt.None?)
  }

  ghost predicate TableOk(rows: seq<Mandate>) { UniqueMandates(rows) && OneActive(rows) && Dated(rows) }

  function FindMandate(rows: seq<Mandate>, id: string): (r: Option<Mandate>)
    ensures r.Some? ==> r.value in rows && r.value.id == id
    ensures r.None? ==> forall m :: m in rows ==> m.id != id
  {
    if rows == [] then None
    else if rows[|rows| - 1].id == id then Some(rows[|rows| - 1])
    else
      assert rows == rows[..|rows| - 1] + [rows[|rows| - 1]];
      FindMandate(rows[..|rows| - 1], id)
  }

  // --- Which mandate a card is under ------------------------------------------------------------

  /** Later in `ORDER BY confirmed_at DESC, mandate_id DESC` means smaller; ids break ties. */
  predicate Newer(a: Mandate, b: Mandate) { a.confirmedAt > b.confirmedAt || (a.confirmedAt == b.confirmedAt && PolicyRules.StrLess(b.id, a.id)) }

  lemma {:induction false} LessTransitive(a: string, b: string, c: string)
    requires PolicyRules.StrLess(a, b) && PolicyRules.StrLess(b, c)
    ensures PolicyRules.StrLess(a, c)
  {
    if a != "" && a[0] == b[0] && b[0] == c[0] { LessTransitive(a[1..], b[1..], c[1..]); }
  }

  lemma {:induction false} LessIrreflexive(a: string)
    ensures !PolicyRules.StrLess(a, a)
  {
    if a != "" { LessIrreflexive(a[1..]); }
  }

  lemma NewerTransitive(a: Mandate, b: Mandate, c: Mandate)
    requires Newer(a, b) && Newer(b, c)
    ensures Newer(a, c)
  {
    if a.confirmedAt == b.confirmedAt && b.confirmedAt == c.confirmedAt { LessTransitive(c.id, b.id, a.id); }
  }

  /** Confirmed no later; at the same time, not of a greater id. */
  predicate NoNewer(m: Mandate, latest: Mandate) {
    m.confirmedAt < latest.confirmedAt || (m.confirmedAt == latest.confirmedAt && !PolicyRules.StrLess(latest.id, m.id))
  }

  /** The card's current mandate: an active one, else the one confirmed last, else none. */
  method LatestMandate(rows: seq<Mandate>, cardId: string) returns (latest: Option<Mandate>)
    ensures latest.None? <==> forall m :: m in rows ==> m.cardId != cardId
    ensures latest.Some? ==> latest.value in rows && latest.value.cardId == cardId
    ensures (exists m :: m in rows && IsActiveOn(m, cardId)) ==> latest.Some? && latest.value.status.Active?
    ensures latest.Some? && !latest.value.status.Active? ==>
      forall m :: m in rows && m.cardId == cardId ==> m.confirmedAt <= latest.value.confirmedAt
    ensures latest.Some? ==>
      forall m :: m in rows && m.cardId == cardId && m.status.Active? == latest.value.status.Active? ==> NoNewer(m, latest.value)
  {
    hide PolicyRules.StrLess;
    latest := None;
    for i := 0 to |rows|
      invariant latest.None? <==> forall m :: m in rows[..i] ==> m.cardId != cardId
      invariant latest.Some? ==> latest.value in rows[..i] && latest.value.cardId == cardId
      invariant (exists m :: m in rows[..i] && IsActiveOn(m, cardId)) ==> latest.Some? && latest.value.status.Active?
      invariant latest.Some? && !latest.value.status.Active? ==>
        forall m :: m in rows[..i] && m.cardId == cardId ==> m.confirmedAt <= latest.value.confirmedAt
      invariant latest.Some? ==>
        forall m :: m in rows[..i] && m.cardId == cardId && m.status.Active? == latest.value.status.Active? ==> !Newer(m, latest.value)
    {
      var m := rows[i];
      assert rows[..i + 1] == rows[..i] + [m];
      if m.cardId == cardId {
        if latest.None? || (m.status.Active? && !latest.value.status.Active?)
           || (m.status.Active? == latest.value.status.Active? && Newer(m, latest.value)) {
          if latest.Some? && m.status.Active? == latest.value.status.Active? {
            forall x | x in rows[..i] && x.cardId == cardId && x.status.Active? == m.status.Active? ensures !Newer(x, m) {
              if Newer(x, m) { NewerTransitive(x, m, latest.value); }
            }
          }
          LessIrreflexive(m.id);
          latest := Some(m);
        }
      }
    }
    assert rows[..|rows|] == rows;
  }

  // --- The operations ---------------------------------------------------------------------------

  class MandateTable {
    var rows: seq<Mandate>

    constructor ()
      ensures rows == [] && TableOk(rows)
    {
      rows := [];
    }

    /** Ends the card's active mandates, one row at a time. */
    method EndCard(cardId: string, status: PolicyStatus, at: int)
      modifies this
      ensures rows == EndActive(old(rows), cardId, status, at)
    {
      for i := 0 to |rows|
        invariant |rows| == |old(rows)|
        invariant forall k :: 0 <= k < i ==> rows[k] == EndActive(old(rows), cardId, status, at)[k]
        invariant forall k :: i <= k < |rows| ==> rows[k] == old(rows)[k]
      {
        if rows[i].cardId == cardId && rows[i].status.Active? {
          rows := rows[i := rows[i].(status := status, revokedAt := Some(at))];
        }
      }
      assert rows == EndActive(old(rows), cardId, status, at);
    }

    /** A new policy replaces the card's old one. Refused when the id is taken. */
    method ConfirmDraft(m: Mandate, at: int, ended: PolicyStatus) returns (ok: bool)
      requires TableOk(rows) && m.status.Active? && m.revokedAt.None? && (ended.Revoked? || ended.Superseded?)
      modifies this
      ensures TableOk(rows)
      ensures ok <==> FindMandate(old(rows), m.id).None?
      ensures rows == if ok then EndActive(old(rows), m.cardId, ended, at) + [m] else old(rows)
    {
      if FindMandate(rows, m.id).Some? {
        return false;
      }
      EndedOk(rows, m.cardId, ended, at, m);
      EndCard(m.cardId, ended, at);
      rows := rows + [m];
      ok := true;
    }

    /** The policy moves to another card: a copy becomes active there, the original is revoked. */
    method MoveMandate(id: string, cardId: string, newId: string, at: int) returns (ok: bool)
      requires TableOk(rows)
      modifies this
      ensures TableOk(rows)
      ensures ok <==> FindMandate(old(rows), id).Some? && FindMandate(old(rows), newId).None?
      ensures !ok ==> rows == old(rows)
      ensures ok ==>
        var source := FindMandate(old(rows), id).value;
        rows == EndById(EndActive(old(rows), cardId, PolicyStatus.Revoked, at), id, at)
                + [source.(id := newId, cardId := cardId, status := Active, revokedAt := None)]
    {
      var source := FindMandate(rows, id);
      if source.None? || FindMandate(rows, newId).Some? {
        return false;
      }
      var copy := source.value.(id := newId, cardId := cardId, status := Active, revokedAt := None);
      MovedOk(rows, id, cardId, at, copy);
      EndCard(cardId, PolicyStatus.Revoked, at);
      rows := EndById(rows, id, at) + [copy];
      ok := true;
    }

    /** C5: the customer revokes a mandate. */
    method Revoke(id: string, at: int)
      requires TableOk(rows)
      modifies this
      ensures TableOk(rows) && rows == EndById(old(rows), id, at)
    {
      RevokedOk(rows, id, at);
      rows := EndById(rows, id, at);
    }
  }

  /** Row by row: confirming ends exactly the card's active mandates, in the status and at the time given. */
  lemma RowsAfterConfirm(rows: seq<Mandate>, cardId: string, status: PolicyStatus, at: int)
    ensures
      var after := EndActive(rows, cardId, status, at);
      |after| == |rows| && forall i :: 0 <= i < |rows| ==>
        after[i] == if rows[i].cardId == cardId && rows[i].status.Active? then rows[i].(status := status, revokedAt := Some(at)) else rows[i]
  {
  }

  /** Moving revokes exactly the mandate itself and the active ones of the card it moves to; revoking, itself. */
  lemma RowsAfterMove(rows: seq<Mandate>, id: string, cardId: string, at: int)
    ensures
      var after := EndById(EndActive(rows, cardId, PolicyStatus.Revoked, at), id, at);
      |after| == |rows| && forall i :: 0 <= i < |rows| ==>
        after[i] == if rows[i].id == id || (rows[i].cardId == cardId && rows[i].status.Active?)
                    then rows[i].(status := PolicyStatus.Revoked, revokedAt := Some(at)) else rows[i]
    ensures
      var after := EndById(rows, id, at);
      |after| == |rows| && forall i :: 0 <= i < |rows| ==>
        after[i] == if rows[i].id == id then rows[i].(status := PolicyStatus.Revoked, revokedAt := Some(at)) else rows[i]
  {
  }

  lemma EndedOk(rows: seq<Mandate>, cardId: string, status: PolicyStatus, at: int, m: Mandate)
    requires TableOk(rows) && !status.Active? && FindMandate(rows, m.id).None?
    requires m.cardId == cardId && m.status.Active? && m.revokedAt.None?
    ensures TableOk(EndActive(rows, cardId, status, at) + [m])
    ensures forall x :: x in EndActive(rows, cardId, status, at) + [m] && IsActiveOn(x, cardId) ==> x == m
  {
    EndsCard(rows, cardId, status, at);
    var after := EndActive(rows, cardId, status, at);
    forall x | x in after ensures x.id != m.id {
      var i :| 0 <= i < |after| && after[i] == x;
      assert rows[i] in rows;
    }
  }

  lemma EndsCard(rows: seq<Mandate>, cardId: string, status: PolicyStatus, at: int)
    requires TableOk(rows) && !status.Active?
    ensures TableOk(EndActive(rows, cardId, status, at))
    ensures forall x :: x in EndActive(rows, cardId, status, at) ==> !IsActiveOn(x, cardId)
    ensures forall x: Mandate :: x.cardId != cardId ==> (x in EndActive(rows, cardId, status, at) <==> x in rows)
  {
    var after := EndActive(rows, cardId, status, at);
    forall x | x in after ensures (x.status.Active? <==> x.revokedAt.None?) && !IsActiveOn(x, cardId) {
      var i :| 0 <= i < |after| && after[i] == x;
      assert rows[i] in rows;
    }
    forall x: Mandate | x.cardId != cardId ensures x in after <==> x in rows {
      if x in rows {
        var i :| 0 <= i < |rows| && rows[i] == x;
        assert after[i] == x;
      }
      if x in after {
        var i :| 0 <= i < |after| && after[i] == x;
        assert rows[i] == x;
      }
    }
  }

  lemma RevokedOk(rows: seq<Mandate>, id: string, at: int)
    requires TableOk(rows)
    ensures TableOk(EndById(rows, id, at))
  {
    var after := EndById(rows, id, at);
    forall x | x in after ensures x.status.Active? <==> x.revokedAt.None? {
      var i :| 0 <= i < |after| && after[i] == x;
      assert rows[i] in rows;
    }
  }

  lemma MovedOk(rows: seq<Mandate>, id: string, cardId: string, at: int, copy: Mandate)
    requires TableOk(rows) && FindMandate(rows, copy.id).None?
    requires copy.cardId == cardId && copy.status.Active? && copy.revokedAt.None?
    ensures TableOk(EndById(EndActive(rows, cardId, PolicyStatus.Revoked, at), id, at) + [copy])
  {
    var mid := EndActive(rows, cardId, PolicyStatus.Revoked, at);
    EndsCard(rows, cardId, PolicyStatus.Revoked, at);
    RevokedOk(mid, id, at);
    var after := EndById(mid, id, at);
    forall i | 0 <= i < |after| ensures after[i].id != copy.id && !IsActiveOn(after[i], cardId) {
      assert rows[i] in rows && mid[i] in mid;
    }
  }

  // --- Any life ------------------------------------------------------------------------------------

  datatype Op = Confirm(m: Mandate, at: int, ended: PolicyStatus) | Move(id: string, cardId: string, newId: string, at: int) | Revoke(id: string, at: int)

  predicate Admissible(op: Op) {
    op.Confirm? ==> op.m.status.Active? && op.m.revokedAt.None? && (op.ended.Revoked? || op.ended.Superseded?)
  }

  function Apply(rows: seq<Mandate>, op: Op): seq<Mandate> {
    match op
    case Confirm(m, at, ended) => if FindMandate(rows, m.id).Some? then rows else EndActive(rows, m.cardId, ended, at) + [m]
    case Move(id, cardId, newId, at) =>
      var source := FindMandate(rows, id);
      if source.None? || FindMandate(rows, newId).Some? then rows
      else EndById(EndActive(rows, cardId, PolicyStatus.Revoked, at), id, at)
           + [source.value.(id := newId, cardId := cardId, status := Active, revokedAt := None)]
    case Revoke(id, at) => EndById(rows, id, at)
  }

  function ApplyAll(rows: seq<Mandate>, ops: seq<Op>): seq<Mandate>
    decreases |ops|
  {
    if ops == [] then rows else ApplyAll(Apply(rows, ops[0]), ops[1..])
  }

  lemma ApplyOk(rows: seq<Mandate>, op: Op)
    requires TableOk(rows) && Admissible(op)
    ensures TableOk(Apply(rows, op))
    ensures |rows| <= |Apply(rows, op)| && forall i :: 0 <= i < |rows| ==> Apply(rows, op)[i].id == rows[i].id
    ensures forall i :: 0 <= i < |rows| && !rows[i].status.Active? ==> !Apply(rows, op)[i].status.Active?
  {
    hide TableOk;
    match op
    case Confirm(m, at, ended) => if FindMandate(rows, m.id).None? { EndedOk(rows, m.cardId, ended, at, m); }
    case Move(id, cardId, newId, at) =>
      var source := FindMandate(rows, id);
      if source.Some? && FindMandate(rows, newId).None? {
        MovedOk(rows, id, cardId, at, source.value.(id := newId, cardId := cardId, status := Active, revokedAt := None));
      }
    case Revoke(id, at) => RevokedOk(rows, id, at);
  }

  /** Whatever is confirmed, moved and revoked, a card never has two active mandates, no mandate is
      forgotten, and an ended one never comes back. */
  lemma {:induction false} OneActivePerCard(rows: seq<Mandate>, ops: seq<Op>)
    requires TableOk(rows) && forall op :: op in ops ==> Admissible(op)
    ensures
      var after := ApplyAll(rows, ops);
      && OneActive(after) && Dated(after) && |rows| <= |after|
      && forall i :: 0 <= i < |rows| ==> after[i].id == rows[i].id && (!rows[i].status.Active? ==> !after[i].status.Active?)
    decreases |ops|
  {
    hide Apply, Admissible;
    if ops != [] {
      assert ops[0] in ops && forall op :: op in ops[1..] ==> op in ops;
      ApplyOk(rows, ops[0]);
      OneActivePerCard(Apply(rows, ops[0]), ops[1..]);
    }
  }
}
