/** The state a purchase is decided against: `InMemoryLedger.view` (ledger_base.py:334) and
    `StoreLedger.view` (ledger.py:121). Both assemble the same fields; the store also reads the
    session watch, and memory from earlier live runs of the mandate. */
module Views {
  import opened Seqs
  import opened Types
  import opened Ledger

  datatype Query = Query(runId: string, customerId: string, cardId: string, at: int, periodDays: Option<nat>)

  predicate IsBefore(e: Entry, q: Query) { e.runId == q.runId && e.ts < q.at }
  predicate IsInWindow(e: Entry, q: Query) { e.cardId == q.cardId && e.ts >= WindowStart(q.at, q.periodDays) }
  predicate IsSpent(e: Entry) { e.spent > 0 }
  predicate IsCounted(e: Entry) { IsFinalApproval(e) || IsPending(e) }

  /** This run's decisions before the purchase, as the table stores them. */
  function RunBefore(rows: seq<Entry>, q: Query): seq<Entry> {
    Filter(rows, (e: Entry) => IsBefore(e, q))
  }

  function InWindow(run: seq<Entry>, q: Query): seq<Entry> {
    Filter(run, (e: Entry) => IsInWindow(e, q))
  }

  function OnCard(approved: seq<Entry>, cardId: string): seq<Entry> {
    Filter(approved, (e: Entry) => e.cardId == cardId)
  }

  function OffCard(approved: seq<Entry>, cardId: string): seq<Entry> {
    Filter(approved, (e: Entry) => e.cardId != cardId)
  }

  predicate IsPrior(e: Entry, at: int) { e.ts >= at - PRIOR_WINDOW || e.outcome.Decline? }

  /** The last 24 hours, and every decline of the run (a re-quote may name it days later). */
  function PriorsOf(run: seq<Entry>, at: int): seq<Prior> {
    Map(Filter(run, (e: Entry) => IsPrior(e, at)), AsPrior)
  }

  function DevicesOf(approved: seq<Entry>, events: map<string, Noted>): set<string> {
    set e | e in approved && e.id in events && events[e.id].device != "" :: events[e.id].device
  }

  function CountriesOf(approved: seq<Entry>, events: map<string, Noted>): set<string> {
    set e | e in approved && e.id in events && events[e.id].country != "" :: events[e.id].country
  }

  function SetOn(m: map<string, set<string>>, key: string): set<string> {
    if key in m then m[key] else {}
  }

  function Flagged(flags: set<(string, string)>, runId: string): set<string> {
    set f | f in flags && f.0 == runId :: f.1
  }

  function NamesOf(known: set<string>, names: seq<(string, string)>): seq<(string, string)> {
    Filter(names, (n: (string, string)) => n.0 in known)
  }

  function LargestOf(approved: seq<Entry>, history: Option<int>): Option<int> {
    var run := MaxOf(Map(approved, AmountOf));
    if run.None? then history
    else if history.None? || history.value < run.value then run
    else history
  }

  /** The fields both ledgers compute the same way from this run's decisions. */
  function Assemble(run: seq<Entry>, priors: seq<Prior>, fulfilled: seq<Fulfilment>, keys: set<string>,
                    watch: bool, s: Store, h: History, q: Query): LedgerView
  {
    var inWindow := InWindow(run, q);
    var approved := Filter(run, IsSpent);
    var counted := Filter(inWindow, IsFinalApproval);
    var waiting := Filter(inWindow, IsPending);
    var histCard := HeldOn(h.byCard, q.cardId);
    var onCard := CountApprovals(histCard, OnCard(approved, q.cardId));
    var others := CountApprovals(OtherCards(HeldOn(h.byCustomer, q.customerId), histCard), OffCard(approved, q.cardId));
    var known := onCard.Keys + others.Keys;
    LedgerView(
      SumBy(inWindow, SpentOf), SumBy(inWindow, ReservedOf), WindowStart(q.at, q.periodDays),
      Some(|counted| + |waiting|), |waiting|, MaxOf(Map(counted, TsOf)), priors,
      known, onCard.Keys, NamesOf(known, h.names), onCard, others,
      SetOn(h.devices, q.customerId) + DevicesOf(approved, s.events),
      SetOn(h.countries, q.customerId) + CountriesOf(approved, s.events),
      LargestOf(approved, if q.customerId in h.maxApproved then Some(h.maxApproved[q.customerId]) else None),
      LastPrices(h, q.customerId, approved), Flagged(s.flags, q.runId), watch, keys, Some(fulfilled))
  }

  function MemoryView(s: Store, h: History, q: Query): LedgerView {
    var run := RunBefore(s.rows, q);
    Assemble(run, PriorsOf(SortByTs(run), q.at), Fulfilments(run, s.requested), KeysOf(run), false, s, h, q)
  }

  /** This card's decisions: earlier live runs of the mandate, then this run before the purchase. */
  function WatchedDecisions(s: Store, q: Query): (r: seq<Entry>)
    ensures forall e :: e in r <==>
      (e in s.rows && e.cardId == q.cardId && (e.runId in EarlierLiveRuns(s.runs, q.runId) || IsBefore(e, q)))
  {
    CardDecisions(s.rows, EarlierLiveRuns(s.runs, q.runId), q.cardId)
    + Filter(SortByTs(RunBefore(s.rows, q)), (e: Entry) => e.cardId == q.cardId)
  }

  /** The mandate's decisions in earlier live runs: for remembered answers and fulfilments. */
  function EarlierDecisions(s: Store, runId: string): (r: seq<Entry>)
    ensures forall e :: e in r <==> e in s.rows && e.runId in EarlierLiveRuns(s.runs, runId)
  {
    var earlier := EarlierLiveRuns(s.runs, runId);
    Filter(s.rows, (e: Entry) => e.runId in earlier)
  }

  function StoreView(s: Store, h: History, q: Query): LedgerView {
    var run := SortByTs(RunBefore(s.rows, q));
    var earlier := EarlierDecisions(s, q.runId);
    Assemble(run, PriorsOf(run, q.at), Fulfilments(earlier + run, s.requested), KeysOf(run + earlier),
             WatchOn(WatchedDecisions(s, q)), s, h, q)
  }
}
