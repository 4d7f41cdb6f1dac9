/** What the ledger remembers and how it changes (backend/oneguard/engine/ledger_base.py and
    ledger.py), as functions on values. The two ledger objects are in LedgerObjects.dfy. */
module Ledger {
  import opened Seqs
  import opened Types

  datatype Entry = Entry(
    id: string, runId: string, mandateId: string, cardId: string, customerId: string, ts: int,
    outcome: Outcome, final: bool, answer: Answer, reserved: int, spent: int,
    merchantId: string, itemIds: seq<string>, amount: int,
    related: Option<(string, Relation)>, trust: Trust, step: nat, decidingIds: seq<string>,
    deadline: Option<int>, resolvedAt: Option<int>, resolvedBy: Resolver)

  /** What the purchase's event taught: its device and shop country ("" when absent). */
  datatype Noted = Noted(device: string, country: string)

  datatype RunRow = RunRow(runId: string, live: bool, mandateId: string, startedAt: int)

  /** The card history a ledger is scored against; a missing history is the empty one. */
  datatype History = History(
    byCustomer: map<string, map<string, int>>, byCard: map<string, map<string, int>>,
    maxApproved: map<string, int>, devices: map<string, set<string>>,
    countries: map<string, set<string>>, lastPrice: map<(string, string), int>,
    names: seq<(string, string)>)

  /** The tables the ledger reads. `rows` is the decisions table in the order rows were stored;
      `requested` maps a live id to the requested item its cart held. */
  datatype Store = Store(
    rows: seq<Entry>, flags: set<(string, string)>, requested: map<string, string>,
    events: map<string, Noted>, runs: seq<RunRow>)

  datatype LedgerError = UnknownId | NotAwaiting | TimeoutMustDecline | WindowClosed
  datatype Result<+T> = Ok(value: T) | Err(error: LedgerError)

  const PRIOR_WINDOW := DAY

  // --- One entry ----------------------------------------------------------------------

  predicate IsFinalApproval(e: Entry) {
    e.outcome.Approve? || (e.final && e.answer.Approved?)
  }

  predicate IsPending(e: Entry) {
    e.outcome.StepUp? && !e.final
  }

  /** A step-up the customer approved: it ends the session watch and is remembered. */
  predicate CustomerOk(e: Entry) {
    e.outcome.StepUp? && e.answer.Approved? && e.resolvedBy.Customer?
  }

  /** The money the ledger gives a new entry (`record`). */
  function Stored(e: Entry): Entry {
    e.(spent := if e.outcome.Approve? then e.amount else 0,
       reserved := if e.outcome.StepUp? && !e.final then e.amount else 0)
  }

  /** The entry once its step-up is closed (`resolve`). */
  function Closed(e: Entry, approve: bool, who: Resolver, at: int): Entry {
    e.(final := true,
       answer := if who.Timeout? then Expired else if approve then Approved else Declined,
       reserved := 0, spent := if approve then e.amount else 0,
       resolvedAt := Some(at), resolvedBy := who, deadline := None)
  }

  // --- The decisions table ------------------------------------------------------------

  function IndexOf(rows: seq<Entry>, id: string): (r: Option<nat>)
    ensures r.None? ==> forall i :: 0 <= i < |rows| ==> rows[i].id != id
    ensures r.Some? ==> r.value < |rows| && rows[r.value].id == id
  {
    if rows == [] then None
    else if rows[|rows| - 1].id == id then Some(|rows| - 1)
    else IndexOf(rows[..|rows| - 1], id)
  }

  function Find(rows: seq<Entry>, id: string): (r: Option<Entry>) {
    match IndexOf(rows, id)
    case None => None
    case Some(i) => Some(rows[i])
  }

  ghost predicate UniqueIds(rows: seq<Entry>) {
    forall i, j :: 0 <= i < j < |rows| ==> rows[i].id != rows[j].id
  }

  /** Insert, or return what is stored (M7: a redelivery counts nothing). */
  function Record(s: Store, e: Entry): (r: (Store, Entry)) {
    match Find(s.rows, e.id)
    case Some(known) => (s, known)
    case None => (s.(rows := s.rows + [Stored(e)]), Stored(e))
  }

  /** Close a pending step-up. A timeout only ever declines (Q2). */
  function Resolve(s: Store, id: string, approve: bool, who: Resolver, at: int): (r: Result<Store>) {
    match IndexOf(s.rows, id)
    case None => Err(UnknownId)
    case Some(i) =>
      if !IsPending(s.rows[i]) then Err(NotAwaiting)
      else if who.Timeout? && approve then Err(TimeoutMustDecline)
      else Ok(s.(rows := s.rows[i := Closed(s.rows[i], approve, who, at)]))
  }

  function SetDeadline(s: Store, id: string, deadline: int): (r: Result<Store>) {
    match IndexOf(s.rows, id)
    case None => Err(UnknownId)
    case Some(i) =>
      if !IsPending(s.rows[i]) then Err(NotAwaiting)
      else Ok(s.(rows := s.rows[i := s.rows[i].(deadline := Some(deadline))]))
  }

  /** The first note of an event wins, like the stored event. */
  function NoteEvent(s: Store, id: string, noted: Noted): Store {
    if id in s.events then s else s.(events := s.events[id := noted])
  }

  function FlagMerchant(s: Store, runId: string, merchantId: string): Store {
    s.(flags := s.flags + {(runId, merchantId)})
  }

  function MarkRequested(s: Store, id: string, item: string): Store {
    if id in s.requested then s else s.(requested := s.requested[id := item])
  }

  // --- Ordering by simulated time -----------------------------------------------------

  /** Stable insertion: after every entry that is not later. */
  function InsertByTs(s: seq<Entry>, e: Entry): (r: seq<Entry>)
    ensures forall x :: x in r <==> x in s || x == e
  {
    if s == [] || s[|s| - 1].ts <= e.ts then s + [e]
    else InsertByTs(s[..|s| - 1], e) + [s[|s| - 1]]
  }

  /** `ORDER BY ts_sim`, and Python's stable `sorted(..., key=ts_sim)`. */
  function SortByTs(s: seq<Entry>): (r: seq<Entry>)
    ensures forall x :: x in r <==> x in s
  {
    if s == [] then [] else InsertByTs(SortByTs(s[..|s| - 1]), s[|s| - 1])
  }

  ghost predicate SortedByTs(s: seq<Entry>) {
    forall i, j :: 0 <= i < j < |s| ==> s[i].ts <= s[j].ts
  }

  // --- Remembered answers -------------------------------------------------------------

  function ConfirmationKey(ruleId: string, merchantId: string, itemId: string): string {
    ruleId + "|" + merchantId + "|" + itemId
  }

  function ShopKey(ruleId: string, merchantId: string): string {
    ruleId + "|" + merchantId + "|*"
  }

  function ConfirmationKeys(ruleIds: seq<string>, merchantId: string, itemIds: seq<string>): (r: set<string>)
  {
    (set x | x in ruleIds :: ShopKey(x, merchantId))
    + (set x, i | x in ruleIds && i in itemIds :: ConfirmationKey(x, merchantId, i))
  }

  function KeysOf(decisions: seq<Entry>): set<string> {
    set e, k | e in decisions && CustomerOk(e) && k in ConfirmationKeys(e.decidingIds, e.merchantId, e.itemIds) :: k
  }

  // --- Parts of the view --------------------------------------------------------------

  function CountApprovals(base: map<string, int>, s: seq<Entry>): map<string, int> {
    if s == [] then base
    else
      var m := CountApprovals(base, s[..|s| - 1]);
      var shop := s[|s| - 1].merchantId;
      m[shop := (if shop in m then m[shop] else 0) + 1]
  }

  function HeldOn(m: map<string, map<string, int>>, key: string): map<string, int> {
    if key in m then m[key] else map[]
  }

  /** History's approvals on the customer's other cards, where there are any. */
  function OtherCards(customer: map<string, int>, card: map<string, int>): map<string, int> {
    map m | m in customer && customer[m] > (if m in card then card[m] else 0)
      :: customer[m] - (if m in card then card[m] else 0)
  }

  function LatestPrices(base: map<string, int>, s: seq<Entry>): map<string, int> {
    if s == [] then base
    else LatestPrices(base, s[..|s| - 1])[s[|s| - 1].merchantId := s[|s| - 1].amount]
  }

  /** History's last price at each shop the customer knows, replaced by this run's latest
      final approval there. */
  function LastPrices(h: History, customerId: string, approved: seq<Entry>): map<string, int> {
    var base := map m | m in HeldOn(h.byCustomer, customerId) && (customerId, m) in h.lastPrice
      :: h.lastPrice[(customerId, m)];
    LatestPrices(base, SortByTs(Filter(approved, (e: Entry) => e.customerId == customerId)))
  }

  function Fulfilments(decisions: seq<Entry>, requested: map<string, string>): (r: seq<Fulfilment>)
  {
    var bought := Filter(SortByTs(decisions), (e: Entry) => e.id in requested && IsFinalApproval(e));
    Map(bought, (e: Entry) => Fulfilment(e.id, e.mandateId, e.ts, e.amount,
                                         if e.id in requested then requested[e.id] else ""))
  }

  function AsPrior(e: Entry): Prior {
    Prior(e.id, e.ts, e.outcome, e.final, IsFinalApproval(e), e.merchantId, e.itemIds, e.amount, e.reserved > 0)
  }

  function SpentOf(e: Entry): int { e.spent }
  function ReservedOf(e: Entry): int { e.reserved }
  function TsOf(e: Entry): int { e.ts }
  function AmountOf(e: Entry): int { e.amount }

  function WindowStart(at: int, periodDays: Option<nat>): int {
    if periodDays.Some? then at - periodDays.value * DAY else at
  }

  // --- The session watch --------------------------------------------------------------

  /** The watch is on: some frozen decision has no customer-approved step-up at or after it. */
  predicate WatchOn(decisions: seq<Entry>) {
    exists i :: 0 <= i < |decisions| && decisions[i].trust.Frozen?
      && forall j :: i <= j < |decisions| ==> !CustomerOk(decisions[j])
  }

  /** Live runs under the same mandate started before this one, oldest first. */
  function EarlierLiveRuns(runs: seq<RunRow>, runId: string): (r: seq<string>) {
    match FindRun(runs, runId)
    case None => []
    case Some(run) =>
      if !run.live then []
      else Map(SortByStart(Filter(runs, (r: RunRow) =>
        r.live && r.mandateId == run.mandateId && r.startedAt < run.startedAt && r.runId != runId)),
        (r: RunRow) => r.runId)
  }

  function FindRun(runs: seq<RunRow>, runId: string): Option<RunRow> {
    if runs == [] then None
    else if runs[|runs| - 1].runId == runId then Some(runs[|runs| - 1])
    else FindRun(runs[..|runs| - 1], runId)
  }

  function InsertByStart(s: seq<RunRow>, r: RunRow): seq<RunRow> {
    if s == [] || s[|s| - 1].startedAt <= r.startedAt then s + [r]
    else InsertByStart(s[..|s| - 1], r) + [s[|s| - 1]]
  }

  function SortByStart(s: seq<RunRow>): seq<RunRow> {
    if s == [] then [] else InsertByStart(SortByStart(s[..|s| - 1]), s[|s| - 1])
  }

  /** This card's decisions in `runs`, in session then time order. */
  function CardDecisions(rows: seq<Entry>, runs: seq<string>, cardId: string): (r: seq<Entry>)
    ensures forall e :: e in r <==> e in rows && e.runId in runs && e.cardId == cardId
  {
    if runs == [] then []
    else CardDecisions(rows, runs[..|runs| - 1], cardId)
         + SortByTs(Filter(rows, (e: Entry) => e.runId == runs[|runs| - 1] && e.cardId == cardId))
  }
}
