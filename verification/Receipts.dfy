/** Receipts (backend/oneguard/passport/book.py:228-356): one per decision, re-signed at most once
    with the answer, the earlier signature kept, whatever processes do it at the same time. */
module Receipts {
  import opened Seqs

  /** A step-up's answer as a receipt states it: what was answered and, when the customer did, on
      which device. */
  datatype Answer = Answer(outcome: string, device: Option<string>)

  /** A signed document. `answer` is None while the decision waits for one. */
  datatype Signed = Signed(document: string, answer: Option<Answer>, signature: string, keyId: string)

  datatype Receipt = Receipt(current: Signed, history: seq<Signed>)

  type Table = map<string, Receipt>

  /** A transaction that has read and not yet committed: a new receipt, or the answer to put on
      the receipt it read. */
  datatype Pending =
    | Insert(liveId: string, receipt: Receipt)
    | Resign(liveId: string, read: Receipt, next: Signed)

  datatype Book = Book(table: Table, open: map<nat, Pending>)

  predicate Waiting(r: Receipt) { r.current.answer.None? }

  /** The insert fails on a live id that has a receipt; the update is `WHERE resolved_at IS NULL`
      and takes its history from the receipt that was read. */
  function CommitTo(table: Table, p: Pending): Table {
    match p
    case Insert(id, receipt) => if id in table then table else table[id := receipt]
    case Resign(id, read, next) =>
      if id in table && Waiting(table[id]) then table[id := Receipt(next, read.history + [read.current])] else table
  }

  /** A process reads: a missing receipt is signed, a waiting one whose decision is answered is
      signed again over the same document, anything else is left alone. */
  ghost predicate ReadStep(b: Book, b': Book, process: nat, id: string, document: string, answer: Option<Answer>,
                           signature: string, keyId: string)
  {
    b' == if id !in b.table then
            b.(open := b.open[process := Insert(id, Receipt(Signed(document, answer, signature, keyId), []))])
          else if Waiting(b.table[id]) && answer.Some? then
            b.(open := b.open[process := Resign(id, b.table[id], Signed(b.table[id].current.document, answer, signature, keyId))])
          else b.(open := b.open - {process})
  }

  ghost predicate CommitStep(b: Book, b': Book, process: nat) {
    process in b.open && b' == Book(CommitTo(b.table, b.open[process]), b.open - {process})
  }

  ghost predicate BookStep(b: Book, b': Book) {
    || (exists process, id, document, answer, signature, keyId :: ReadStep(b, b', process, id, document, answer, signature, keyId))
    || (exists process :: CommitStep(b, b', process))
  }

  ghost predicate IsRun(books: seq<Book>) {
    && books != [] && books[0] == Book(map[], map[])
    && forall i :: 0 <= i < |books| - 1 ==> BookStep(books[i], books[i + 1])
  }

  // --- What every step keeps ---------------------------------------------------------------------

  /** A waiting receipt has no earlier signature; an answered one has at most the unanswered one
      of the same document. */
  ghost predicate WellSigned(r: Receipt) {
    && (Waiting(r) ==> r.history == [])
    && (!Waiting(r) ==> r.history == [] || (|r.history| == 1 && r.history[0].answer.None? && r.history[0].document == r.current.document))
  }

  /** What an open transaction read is still the receipt, as long as nobody answered it. */
  ghost predicate Rests(table: Table, p: Pending) {
    match p
    case Insert(_, receipt) => receipt.history == []
    case Resign(id, read, next) =>
      && Waiting(read) && WellSigned(read) && next.answer.Some? && next.document == read.current.document
      && id in table && (Waiting(table[id]) ==> table[id] == read)
  }

  ghost predicate Consistent(b: Book) {
    && (forall id :: id in b.table ==> WellSigned(b.table[id]))
    && (forall process :: process in b.open ==> Rests(b.table, b.open[process]))
  }

  /** The only change a receipt ever sees: its answer, with the earlier signature kept. */
  ghost predicate Answered(before: Receipt, after: Receipt) {
    && Waiting(before) && !Waiting(after)
    && after.history == before.history + [before.current] && after.current.document == before.current.document
  }

  ghost predicate Evolves(before: Table, after: Table) {
    forall id :: id in before ==> id in after && (after[id] == before[id] || Answered(before[id], after[id]))
  }

  lemma CommitKeeps(table: Table, p: Pending)
    requires Rests(table, p) && forall id :: id in table ==> WellSigned(table[id])
    ensures forall id :: id in CommitTo(table, p) ==> WellSigned(CommitTo(table, p)[id])
    ensures Evolves(table, CommitTo(table, p))
  {
  }

  lemma OthersRest(table: Table, after: Table, other: Pending)
    requires Rests(table, other) && Evolves(table, after)
    ensures Rests(after, other)
  {
  }

  lemma StepConsistent(b: Book, b': Book)
    requires Consistent(b) && BookStep(b, b')
    ensures Consistent(b') && Evolves(b.table, b'.table)
  {
    hide WellSigned, Answered;
    if process, id, document, answer, signature, keyId :| ReadStep(b, b', process, id, document, answer, signature, keyId) {
      ReadRests(b, id, document, answer, signature, keyId);
    } else {
      var process :| CommitStep(b, b', process);
      CommitKeeps(b.table, b.open[process]);
      forall other | other in b'.open ensures Rests(b'.table, b'.open[other]) {
        OthersRest(b.table, b'.table, b.open[other]);
      }
    }
  }

  lemma ReadRests(b: Book, id: string, document: string, answer: Option<Answer>, signature: string, keyId: string)
    requires forall x :: x in b.table ==> WellSigned(b.table[x])
    ensures Rests(b.table, Insert(id, Receipt(Signed(document, answer, signature, keyId), [])))
    ensures id in b.table && Waiting(b.table[id]) && answer.Some? ==>
      Rests(b.table, Resign(id, b.table[id], Signed(b.table[id].current.document, answer, signature, keyId)))
  {
  }

  lemma {:induction false} RunConsistent(books: seq<Book>, i: nat)
    requires IsRun(books) && i < |books|
    ensures Consistent(books[i])
  {
    if i > 0 {
      RunConsistent(books, i - 1);
      assert BookStep(books[i - 1], books[i - 1 + 1]);
      StepConsistent(books[i - 1], books[i]);
    }
  }

  /** Signed again at most once: of a receipt seen at two moments of a run, the later one is the
      same, or is the earlier one answered with its signature kept. */
  lemma {:induction false} SignedAgainAtMostOnce(books: seq<Book>, i: nat, j: nat, id: string)
    requires IsRun(books) && i <= j < |books| && id in books[i].table
    ensures id in books[j].table
    ensures books[j].table[id] == books[i].table[id] || Answered(books[i].table[id], books[j].table[id])
    decreases j - i
  {
    hide Consistent, IsRun, BookStep;
    if i < j {
      SignedAgainAtMostOnce(books, i, j - 1, id);
      RunConsistent(books, j - 1);
      RunSteps(books, j - 1);
      StepConsistent(books[j - 1], books[j]);
    }
  }

  lemma RunSteps(books: seq<Book>, i: nat)
    requires IsRun(books) && i + 1 < |books|
    ensures BookStep(books[i], books[i + 1])
  {
  }

  /** In every reachable state a receipt has at most one earlier signature, of the same document
      without its answer, and none while it waits. */
  lemma AtMostOneEarlier(books: seq<Book>, i: nat, id: string)
    requires IsRun(books) && i < |books| && id in books[i].table
    ensures |books[i].table[id].history| <= 1
    ensures Waiting(books[i].table[id]) ==> books[i].table[id].history == []
    ensures books[i].table[id].history != [] ==>
      books[i].table[id].history[0].answer.None? && books[i].table[id].history[0].document == books[i].table[id].current.document
  {
    RunConsistent(books, i);
  }

  // --- The passport a receipt names -----------------------------------------------------------------

  /** The version in force when the decision was made (versions oldest first): the last one issued
      by then, else the first. */
  method InForce(issuedAt: seq<int>, decidedAt: int) returns (chosen: Option<nat>)
    ensures chosen.None? <==> issuedAt == []
    ensures chosen.Some? ==> chosen.value < |issuedAt|
    ensures chosen.Some? && (exists k :: 0 <= k < |issuedAt| && issuedAt[k] <= decidedAt) ==>
      issuedAt[chosen.value] <= decidedAt && forall k :: chosen.value < k < |issuedAt| ==> issuedAt[k] > decidedAt
    ensures chosen.Some? && (forall k :: 0 <= k < |issuedAt| ==> issuedAt[k] > decidedAt) ==> chosen.value == 0
  {
    if issuedAt == [] {
      return None;
    }
    chosen := Some(0);
    var found := false;
    for i := 0 to |issuedAt|
      invariant chosen.Some? && chosen.value < |issuedAt| && chosen.value <= i
      invariant !found ==> chosen.value == 0 && forall k :: 0 <= k < i ==> issuedAt[k] > decidedAt
      invariant found ==> issuedAt[chosen.value] <= decidedAt && forall k :: chosen.value < k < i ==> issuedAt[k] > decidedAt
    {
      if issuedAt[i] <= decidedAt {
        chosen, found := Some(i), true;
      }
    }
  }

  // --- One sweep, as the source runs it ---------------------------------------------------------------

  /** A stored answer: the customer's own, or the timeout's. */
  datatype Resolution = Resolution(outcome: string, byCustomer: bool)

  /** A stored decision: its live id, the document its receipt signs, and its answer if it has one. */
  datatype Decided = Decided(liveId: string, document: string, answer: Option<Resolution>)

  ghost predicate UniqueDecisions(ds: seq<Decided>) {
    forall i, j :: 0 <= i < j < |ds| ==> ds[i].liveId != ds[j].liveId
  }

  function NotedFor(answers: map<string, string>, liveId: string): Option<string> {
    if liveId in answers then Some(answers[liveId]) else None
  }

  /** `resolution`: the answer the receipt states, given the device noted for it. */
  function AnswerOf(d: Decided, answers: map<string, string>): Option<Answer> {
    match d.answer
    case None => None
    case Some(r) => Some(Answer(r.outcome, if r.byCustomer then NotedFor(answers, d.liveId) else None))
  }

  const RECEIPT_BATCH := 200

  function Ids(ds: seq<Decided>): set<string> { set d | d in ds :: d.liveId }

  /** Each of these decisions got its receipt, and no earlier receipt changed. */
  ghost predicate AllIssued(before: Table, after: Table, ds: seq<Decided>, answers: map<string, string>) {
    KeysIssued(before, after, ds) && Untouched(before, after) && AnswersCarried(after, ds, answers)
  }

  ghost predicate KeysIssued(before: Table, after: Table, ds: seq<Decided>) {
    after.Keys == before.Keys + Ids(ds) && |after.Keys| == |before.Keys| + |ds|
  }

  ghost predicate Untouched(before: Table, after: Table) {
    forall id :: id in before ==> id in after && after[id] == before[id]
  }

  ghost predicate AnswersCarried(after: Table, ds: seq<Decided>, answers: map<string, string>) {
    forall d :: d in ds ==> d.liveId in after && after[d.liveId].current.answer == AnswerOf(d, answers)
  }

  /** The receipts of these decisions were answered, and no other one changed. */
  ghost predicate AllAnswered(before: Table, after: Table, ds: seq<Decided>, answers: map<string, string>) {
    && after.Keys == before.Keys && Evolves(before, after)
    && (forall id :: id in after && id !in Ids(ds) ==> after[id] == before[id]) && AnswersCarried(after, ds, answers)
  }

  /** The devices of the answers among these are forgotten, and no other. */
  ghost predicate Forgotten(before: map<string, string>, after: map<string, string>, ds: seq<Decided>) {
    && (forall id :: id !in Ids(ds) ==> NotedFor(after, id) == NotedFor(before, id))
    && (forall d :: d in ds && d.answer.Some? ==> d.liveId !in after)
  }

  /** A receipt that had its answer is left alone; any other has the decision's, with the device
      noted for it, and the note is gone. */
  ghost predicate UpToDate(before: Table, after: Table, d: Decided, answers: map<string, string>, left: map<string, string>) {
    && d.liveId in after
    && if d.liveId in before && !Waiting(before[d.liveId]) then after[d.liveId] == before[d.liveId]
       else after[d.liveId].current.answer == AnswerOf(d, answers) && (d.answer.Some? ==> d.liveId !in left)
  }

  class ReceiptBook {
    const keyId: string
    const sign: (string, Option<Answer>) -> string
    var receipts: Table
    /** Live id to the device that answered it, until its receipt carries it. */
    var answers: map<string, string>

    constructor (keyId: string, sign: (string, Option<Answer>) -> string)
      ensures receipts == map[] && answers == map[] && this.keyId == keyId && this.sign == sign
    {
      this.keyId, this.sign := keyId, sign;
      receipts, answers := map[], map[];
    }

    method NoteAnswer(liveId: string, device: string)
      modifies this`answers
      ensures answers == old(answers)[liveId := device]
    {
      answers := answers[liveId := device];
    }

    /** Signs a missing receipt; a decision already answered is signed with its answer. */
    method IssueOne(d: Decided) returns (issued: nat)
      modifies this
      ensures
        var answer := AnswerOf(d, old(answers));
        receipts == CommitTo(old(receipts), Insert(d.liveId, Receipt(Signed(d.document, answer, sign(d.document, answer), keyId), [])))
      ensures issued == if d.liveId in old(receipts) then 0 else 1
      ensures answers == if issued == 1 && d.answer.Some? then old(answers) - {d.liveId} else old(answers)
    {
      if d.liveId in receipts {
        return 0;
      }
      var answer := AnswerOf(d, answers);
      receipts := receipts[d.liveId := Receipt(Signed(d.document, answer, sign(d.document, answer), keyId), [])];
      if answer.Some? {
        answers := answers - {d.liveId};
      }
      issued := 1;
    }

    /** Signs a waiting receipt again with the answer, keeping the earlier signature. */
    method ResolveOne(d: Decided) returns (resolved: nat)
      modifies this
      ensures Evolves(old(receipts), receipts) && receipts.Keys == old(receipts).Keys
      ensures resolved == if d.answer.Some? && d.liveId in old(receipts) && Waiting(old(receipts)[d.liveId]) then 1 else 0
      ensures resolved == 1 ==>
        && receipts[d.liveId].current.answer == AnswerOf(d, old(answers))
        && receipts[d.liveId].history == old(receipts)[d.liveId].history + [old(receipts)[d.liveId].current]
      ensures resolved == 0 ==> receipts == old(receipts)
      ensures forall id :: id in receipts && id != d.liveId ==> receipts[id] == old(receipts)[id]
      ensures answers == if resolved == 1 then old(answers) - {d.liveId} else old(answers)
    {
      if d.answer.None? || d.liveId !in receipts || !Waiting(receipts[d.liveId]) {
        return 0;
      }
      var row, answer := receipts[d.liveId], AnswerOf(d, answers);
      var next := Signed(row.current.document, answer, sign(row.current.document, answer), keyId);
      receipts := receipts[d.liveId := Receipt(next, row.history + [row.current])];
      answers := answers - {d.liveId};
      resolved := 1;
    }

    /** Receipts for decisions that have none, counting them. */
    method IssueAll(ds: seq<Decided>) returns (issued: nat)
      requires UniqueDecisions(ds) && forall d :: d in ds ==> d.liveId !in receipts
      modifies this
      ensures issued == |ds| && AllIssued(old(receipts), receipts, ds, old(answers))
      ensures Forgotten(old(answers), answers, ds)
    {
      hide AllIssued, Forgotten, UniqueDecisions, AnswerOf;
      issued := 0;
      NoneIssued(receipts, answers);
      for i := 0 to |ds|
        invariant issued == i && AllIssued(old(receipts), receipts, ds[..i], old(answers)) && Forgotten(old(answers), answers, ds[..i])
      {
        ghost var before, notes := receipts, answers;
        NewDecision(ds, i);
        OthersMissing(old(receipts), before, ds, i, old(answers));
        NotedStill(old(answers), notes, ds, i);
        var n := IssueOne(ds[i]);
        OneMoreIssued(old(receipts), before, receipts, ds, i, old(answers));
        OneMoreForgotten(old(answers), notes, answers, ds, i);
        issued := issued + n;
      }
      assert ds[..|ds|] == ds;
    }

    /** The answers of waiting receipts, counting them. */
    method ResolveAll(ds: seq<Decided>) returns (resolved: nat)
      requires UniqueDecisions(ds) && forall d :: d in ds ==> d.liveId in receipts && Waiting(receipts[d.liveId]) && d.answer.Some?
      modifies this
      ensures resolved == |ds| && AllAnswered(old(receipts), receipts, ds, old(answers))
      ensures Forgotten(old(answers), answers, ds)
    {
      hide AllAnswered, Forgotten, UniqueDecisions, AnswerOf, Evolves, Waiting;
      resolved := 0;
      NoneAnswered(receipts, answers);
      for i := 0 to |ds|
        invariant resolved == i && AllAnswered(old(receipts), receipts, ds[..i], old(answers)) && Forgotten(old(answers), answers, ds[..i])
      {
        ghost var before, notes := receipts, answers;
        NewDecision(ds, i);
        OthersWaiting(old(receipts), before, ds, i, old(answers));
        NotedStill(old(answers), notes, ds, i);
        var n := ResolveOne(ds[i]);
        OneMoreAnswered(old(receipts), before, receipts, ds, i, old(answers));
        OneMoreForgotten(old(answers), notes, answers, ds, i);
        resolved := resolved + n;
      }
      assert ds[..|ds|] == ds;
    }

    /** One sweep over the decisions, oldest first: up to `limit` missing receipts, then up to
        `limit` answered ones. When neither limit is reached, every decision has a receipt and
        every answer is on it, with the device noted for it. */
    method SyncReceipts(decisions: seq<Decided>, limit: nat) returns (issued: nat, resolved: nat)
      requires UniqueDecisions(decisions)
      modifies this
      ensures Evolves(old(receipts), receipts)
      ensures |receipts.Keys| == |old(receipts).Keys| + issued && issued <= limit && resolved <= limit
      ensures issued <= |decisions| && resolved <= |decisions|
      ensures issued < limit && resolved < limit ==> forall d :: d in decisions ==> UpToDate(old(receipts), receipts, d, old(answers), answers)
    {
      hide Missing, Due, Evolves, UniqueDecisions, AllIssued, AllAnswered, Forgotten, UpToDate;
      ghost var table, notes := receipts, answers;
      var missing, due := Missing(decisions, receipts), Due(decisions, receipts);
      ListsUnique(decisions, receipts, limit);
      issued := IssueAll(missing[..Least(|missing|, limit)]);
      ghost var mid, left := receipts, answers;
      StillDue(decisions, table, mid, limit, missing[..Least(|missing|, limit)], notes);
      resolved := ResolveAll(due[..Least(|due|, limit)]);
      SweepEvolves(table, mid, receipts, missing[..Least(|missing|, limit)], due[..Least(|due|, limit)], notes, left);
      if issued < limit && resolved < limit {
        assert missing[..Least(|missing|, limit)] == missing && due[..Least(|due|, limit)] == due;
        SweepComplete(decisions, table, mid, receipts, notes, left, answers);
      }
    }

    /** What the answer's route does once the step-up is closed: the device is noted, and the one
        receipt is signed with it and forgets the note. */
    method SignAnswer(d: Decided, device: string)
      requires d.answer.Some?
      modifies this
      ensures Evolves(old(receipts), receipts) && d.liveId in receipts
      ensures d.liveId !in old(receipts) || Waiting(old(receipts)[d.liveId]) ==>
        receipts[d.liveId].current.answer == Some(Answer(d.answer.value.outcome, if d.answer.value.byCustomer then Some(device) else None))
      ensures d.liveId !in old(receipts) || Waiting(old(receipts)[d.liveId]) ==> d.liveId !in answers
      ensures d.liveId in old(receipts) && !Waiting(old(receipts)[d.liveId]) ==> receipts[d.liveId] == old(receipts)[d.liveId]
    {
      hide Evolves;
      NoteAnswer(d.liveId, device);
      var issued, resolved := SyncReceipts([d], RECEIPT_BATCH);
      assert [d][0] in [d];
    }
  }

  function Least(a: nat, b: nat): nat { if a < b then a else b }

  /** The decisions without a receipt. */
  function Missing(ds: seq<Decided>, table: Table): seq<Decided> {
    Filter(ds, (d: Decided) => d.liveId !in table)
  }

  /** The answered decisions whose receipt still waits. */
  function Due(ds: seq<Decided>, table: Table): seq<Decided> {
    Filter(ds, (d: Decided) => d.liveId in table && Waiting(table[d.liveId]) && d.answer.Some?)
  }

  // --- The two loops ------------------------------------------------------------------------------

  lemma NewDecision(ds: seq<Decided>, i: nat)
    requires UniqueDecisions(ds) && i < |ds|
    ensures ds[..i + 1] == ds[..i] + [ds[i]] && ds[i] in ds && ds[i].liveId !in Ids(ds[..i])
  {
  }

  lemma NoneIssued(table: Table, answers: map<string, string>)
    ensures AllIssued(table, table, [], answers) && Forgotten(answers, answers, [])
  {
  }

  lemma NoneAnswered(table: Table, answers: map<string, string>)
    ensures AllAnswered(table, table, [], answers) && Forgotten(answers, answers, [])
  {
  }

  lemma OthersMissing(start: Table, before: Table, ds: seq<Decided>, i: nat, answers: map<string, string>)
    requires i < |ds| && ds[i].liveId !in Ids(ds[..i]) && ds[i].liveId !in start && AllIssued(start, before, ds[..i], answers)
    ensures ds[i].liveId !in before
  {
    assert ds[i].liveId !in before.Keys;
  }

  lemma OthersWaiting(start: Table, before: Table, ds: seq<Decided>, i: nat, answers: map<string, string>)
    requires i < |ds| && ds[i].liveId !in Ids(ds[..i]) && ds[i].liveId in start && AllAnswered(start, before, ds[..i], answers)
    ensures ds[i].liveId in before && before[ds[i].liveId] == start[ds[i].liveId]
  {
    assert ds[i].liveId in before.Keys;
  }

  lemma NotedStill(start: map<string, string>, notes: map<string, string>, ds: seq<Decided>, i: nat)
    requires i < |ds| && ds[i].liveId !in Ids(ds[..i]) && Forgotten(start, notes, ds[..i])
    ensures AnswerOf(ds[i], notes) == AnswerOf(ds[i], start)
  {
  }

  lemma IdsNext(ds: seq<Decided>, d: Decided)
    ensures Ids(ds + [d]) == Ids(ds) + {d.liveId}
  {
  }

  lemma OneMoreIssued(start: Table, before: Table, after: Table, ds: seq<Decided>, i: nat, answers: map<string, string>)
    requires i < |ds| && ds[..i + 1] == ds[..i] + [ds[i]] && AllIssued(start, before, ds[..i], answers)
    requires ds[i].liveId !in before && ds[i].liveId in after && after == before[ds[i].liveId := after[ds[i].liveId]]
    requires after[ds[i].liveId].current.answer == AnswerOf(ds[i], answers)
    ensures AllIssued(start, after, ds[..i + 1], answers)
  {
    hide KeysIssued, Untouched, AnswersCarried, AnswerOf;
    OneMoreKey(start, before, after, ds, i);
    OneMoreUntouched(start, before, after, ds[i].liveId);
    OneMoreAnswer(before, after, ds, i, answers);
  }

  lemma OneMoreUntouched(start: Table, before: Table, after: Table, id: string)
    requires Untouched(start, before) && id !in before && id in after && after == before[id := after[id]]
    ensures Untouched(start, after)
  {
  }

  lemma OneMoreKey(start: Table, before: Table, after: Table, ds: seq<Decided>, i: nat)
    requires i < |ds| && ds[..i + 1] == ds[..i] + [ds[i]] && KeysIssued(start, before, ds[..i])
    requires ds[i].liveId !in before && ds[i].liveId in after && after == before[ds[i].liveId := after[ds[i].liveId]]
    ensures KeysIssued(start, after, ds[..i + 1])
  {
    hide Ids;
    IdsNext(ds[..i], ds[i]);
    AddedKey(before, after, ds[i].liveId);
  }

  lemma OneMoreAnswer(before: Table, after: Table, ds: seq<Decided>, i: nat, answers: map<string, string>)
    requires i < |ds| && ds[..i + 1] == ds[..i] + [ds[i]]
    requires ds[i].liveId !in before && ds[i].liveId in after && after == before[ds[i].liveId := after[ds[i].liveId]]
    requires AnswersCarried(before, ds[..i], answers) && after[ds[i].liveId].current.answer == AnswerOf(ds[i], answers)
    ensures AnswersCarried(after, ds[..i + 1], answers)
  {
    hide AnswerOf;
    AddedKey(before, after, ds[i].liveId);
    AnswersStay(before, after, ds[..i], answers);
  }

  lemma AddedKey(before: Table, after: Table, id: string)
    requires id !in before && id in after && after == before[id := after[id]]
    ensures after.Keys == before.Keys + {id} && |after.Keys| == |before.Keys| + 1
    ensures forall x :: x in before ==> x in after && after[x] == before[x]
  {
  }

  lemma AnswersStay(before: Table, after: Table, ds: seq<Decided>, answers: map<string, string>)
    requires forall x :: x in before ==> x in after && after[x] == before[x]
    requires forall d :: d in ds ==> d.liveId in before && before[d.liveId].current.answer == AnswerOf(d, answers)
    ensures forall d :: d in ds ==> d.liveId in after && after[d.liveId].current.answer == AnswerOf(d, answers)
  {
    hide AnswerOf;
  }

  lemma OneMoreAnswered(start: Table, before: Table, after: Table, ds: seq<Decided>, i: nat, answers: map<string, string>)
    requires i < |ds| && ds[..i + 1] == ds[..i] + [ds[i]] && AllAnswered(start, before, ds[..i], answers)
    requires ds[i].liveId in before && ds[i].liveId in start && before[ds[i].liveId] == start[ds[i].liveId] && ds[i].liveId !in Ids(ds[..i])
    requires Evolves(before, after) && after.Keys == before.Keys && after[ds[i].liveId].current.answer == AnswerOf(ds[i], answers)
    requires forall id :: id in after && id != ds[i].liveId ==> after[id] == before[id]
    ensures AllAnswered(start, after, ds[..i + 1], answers)
  {
    hide AnswerOf, Ids, Answered;
    IdsNext(ds[..i], ds[i]);
    EvolvesOne(start, before, after, ds[i].liveId);
    OthersAnswered(before, after, ds, i, answers);
  }

  lemma OthersAnswered(before: Table, after: Table, ds: seq<Decided>, i: nat, answers: map<string, string>)
    requires i < |ds| && ds[i].liveId !in Ids(ds[..i]) && after.Keys == before.Keys
    requires forall d :: d in ds[..i] ==> d.liveId in before && before[d.liveId].current.answer == AnswerOf(d, answers)
    requires forall id :: id in after && id != ds[i].liveId ==> after[id] == before[id]
    ensures forall d :: d in ds[..i] ==> d.liveId in after && after[d.liveId].current.answer == AnswerOf(d, answers)
  {
    hide AnswerOf;
    forall d | d in ds[..i] ensures d.liveId in after && after[d.liveId] == before[d.liveId] {
      assert d.liveId in before.Keys && d.liveId in Ids(ds[..i]);
    }
  }

  lemma OneMoreForgotten(start: map<string, string>, notes: map<string, string>, after: map<string, string>, ds: seq<Decided>, i: nat)
    requires i < |ds| && ds[..i + 1] == ds[..i] + [ds[i]] && Forgotten(start, notes, ds[..i])
    requires after == if ds[i].answer.Some? then notes - {ds[i].liveId} else notes
    ensures Forgotten(start, after, ds[..i + 1])
  {
    IdsNext(ds[..i], ds[i]);
  }

  // --- The sweep ------------------------------------------------------------------------------------

  lemma PrefixUnique(ds: seq<Decided>, n: nat)
    requires UniqueDecisions(ds) && n <= |ds|
    ensures UniqueDecisions(ds[..n]) && forall d :: d in ds[..n] ==> d in ds
  {
  }

  lemma {:induction false} FilterUnique(ds: seq<Decided>, p: Decided -> bool)
    requires UniqueDecisions(ds)
    ensures UniqueDecisions(Filter(ds, p)) && |Filter(ds, p)| <= |ds|
  {
    if ds != [] {
      var init, last := ds[..|ds| - 1], ds[|ds| - 1];
      FilterUnique(init, p);
      forall d | d in Filter(init, p) ensures d.liveId != last.liveId { assert d in init; }
    }
  }

  lemma ListsUnique(ds: seq<Decided>, table: Table, limit: nat)
    requires UniqueDecisions(ds)
    ensures
      var missing, due := Missing(ds, table), Due(ds, table);
      var new', late := missing[..Least(|missing|, limit)], due[..Least(|due|, limit)];
      && |missing| <= |ds| && |due| <= |ds|
      && UniqueDecisions(new') && (forall d :: d in new' ==> d.liveId !in table)
      && UniqueDecisions(late) && (forall d :: d in late ==> d.liveId in table && Waiting(table[d.liveId]) && d.answer.Some?)
  {
    hide UniqueDecisions;
    FilterUnique(ds, (d: Decided) => d.liveId !in table);
    FilterUnique(ds, (d: Decided) => d.liveId in table && Waiting(table[d.liveId]) && d.answer.Some?);
    PrefixUnique(Missing(ds, table), Least(|Missing(ds, table)|, limit));
    PrefixUnique(Due(ds, table), Least(|Due(ds, table)|, limit));
  }

  /** New receipts leave the waiting ones as they were. */
  lemma StillDue(ds: seq<Decided>, table: Table, mid: Table, limit: nat, new': seq<Decided>, notes: map<string, string>)
    requires UniqueDecisions(ds) && AllIssued(table, mid, new', notes)
    ensures forall d :: d in Due(ds, table)[..Least(|Due(ds, table)|, limit)] ==>
      d.liveId in mid && Waiting(mid[d.liveId]) && d.answer.Some?
  {
    hide Due, AnswerOf, Ids;
    ListsUnique(ds, table, limit);
  }

  /** A change of one receipt that was as it had been. */
  lemma EvolvesOne(start: Table, before: Table, after: Table, id: string)
    requires Evolves(start, before) && Evolves(before, after)
    requires id in start && before[id] == start[id]
    requires forall x :: x in after && x != id ==> x in before && after[x] == before[x]
    ensures Evolves(start, after)
  {
    hide Answered;
  }

  lemma SweepEvolves(start: Table, mid: Table, after: Table, new': seq<Decided>, late: seq<Decided>,
                     notes: map<string, string>, left: map<string, string>)
    requires AllIssued(start, mid, new', notes) && AllAnswered(mid, after, late, left)
    ensures Evolves(start, after) && |after.Keys| == |start.Keys| + |new'|
  {
    hide AnswerOf, Answered, Ids;
  }

  lemma SweepComplete(ds: seq<Decided>, table: Table, mid: Table, after: Table,
                      notes: map<string, string>, mids: map<string, string>, left: map<string, string>)
    requires AllIssued(table, mid, Missing(ds, table), notes) && AllAnswered(mid, after, Due(ds, table), mids)
    requires Forgotten(notes, mids, Missing(ds, table)) && Forgotten(mids, left, Due(ds, table))
    requires UniqueDecisions(ds)
    ensures forall d :: d in ds ==> UpToDate(table, after, d, notes, left)
  {
    hide Missing, Due, AllIssued, AllAnswered, Forgotten, UpToDate, UniqueDecisions;
    forall d | d in ds ensures UpToDate(table, after, d, notes, left) {
      if d.liveId !in table {
        NewUpToDate(ds, d, table, mid, after, notes, mids, left);
      } else if Waiting(table[d.liveId]) && d.answer.Some? {
        LateUpToDate(ds, d, table, mid, after, notes, mids, left);
      } else {
        LeftAlone(ds, d, table, mid, after, notes, mids, left);
      }
    }
  }

  lemma NewUpToDate(ds: seq<Decided>, d: Decided, table: Table, mid: Table, after: Table,
                    notes: map<string, string>, mids: map<string, string>, left: map<string, string>)
    requires AllIssued(table, mid, Missing(ds, table), notes) && AllAnswered(mid, after, Due(ds, table), mids)
    requires Forgotten(notes, mids, Missing(ds, table)) && Forgotten(mids, left, Due(ds, table))
    requires d in ds && d.liveId !in table
    ensures UpToDate(table, after, d, notes, left)
  {
    hide AnswerOf, Evolves;
    assert d in Missing(ds, table) && d.liveId !in Ids(Due(ds, table));
    assert d.liveId in after.Keys;
    assert NotedFor(left, d.liveId) == NotedFor(mids, d.liveId);
  }

  lemma LateUpToDate(ds: seq<Decided>, d: Decided, table: Table, mid: Table, after: Table,
                     notes: map<string, string>, mids: map<string, string>, left: map<string, string>)
    requires AllIssued(table, mid, Missing(ds, table), notes) && AllAnswered(mid, after, Due(ds, table), mids)
    requires Forgotten(notes, mids, Missing(ds, table)) && Forgotten(mids, left, Due(ds, table))
    requires d in ds && d.liveId in table && Waiting(table[d.liveId]) && d.answer.Some?
    ensures UpToDate(table, after, d, notes, left)
  {
    hide Evolves;
    assert d in Due(ds, table) && d.liveId !in Ids(Missing(ds, table));
    assert AnswerOf(d, mids) == AnswerOf(d, notes);
  }

  lemma LeftAlone(ds: seq<Decided>, d: Decided, table: Table, mid: Table, after: Table,
                  notes: map<string, string>, mids: map<string, string>, left: map<string, string>)
    requires AllIssued(table, mid, Missing(ds, table), notes) && AllAnswered(mid, after, Due(ds, table), mids)
    requires UniqueDecisions(ds) && d in ds && d.liveId in table && !(Waiting(table[d.liveId]) && d.answer.Some?)
    ensures UpToDate(table, after, d, notes, left)
  {
    hide Evolves;
    forall x | x in ds && x.liveId == d.liveId ensures x == d { SameDecided(ds, x, d); }
    assert d.liveId !in Ids(Due(ds, table));
    assert d.liveId in after.Keys;
  }

  lemma SameDecided(ds: seq<Decided>, x: Decided, d: Decided)
    requires UniqueDecisions(ds) && x in ds && d in ds && x.liveId == d.liveId
    ensures x == d
  {
    var i :| 0 <= i < |ds| && ds[i] == d;
    var j :| 0 <= j < |ds| && ds[j] == x;
  }
}
