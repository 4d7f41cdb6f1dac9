/** The whole-run theorems are about something: a legal run, from an empty ledger, in which a
    purchase is approved automatically and stored with its spend. */
module Reachable {
  import opened Seqs
  import opened Types
  import opened Ledger
  import opened Views
  import opened Pipeline
  import opened Approvals
  import opened Runs
  import opened Tighten
  import opened TightenGaps
  import opened ViewFacts

  const PAST := History(
    map["customer" := map["shop" := 1]], map["card" := map["shop" := 1]], map["customer" := 4000],
    map["customer" := {"phone"}], map["customer" := {"CH"}],
    map[("customer", "shop") := 5000], [("shop", "Shop")])

  const POLICY := PLAIN.(rules := [LIMIT])

  const CONTEXT := Context(POLICY, "run", PAST, [], None, 300, 0)

  const EVENT := Event(Bought(12), "customer", "card")

  const EMPTY := Store([], {}, map[], map[], [])

  /** Over an empty table the view is history's. */
  lemma ViewOfHistory(s: Store, q: Query)
    requires s.rows == [] && s.runs == [] && q.customerId == "customer" && q.cardId == "card"
    ensures Calm(StoreView(s, PAST, q))
  {
    hide LastPrices, KeysOf, Fulfilments;
    assert RunBefore([], q) == [] && SortByTs([]) == [];
    ViewParts(s, PAST, q);
    assert ApprovedRun(s, q) == [];
    assert PriorsOf([], q.at) == [];
    assert EarlierLiveRuns([], q.runId) == [];
    assert WatchedDecisions(s, q) == [];
    KnownFromHistory(q);
    NamesKnown();
    PriceFromHistory();
  }

  lemma PriceFromHistory()
    ensures LastPrices(PAST, "customer", []) == map["shop" := 5000]
  {
    assert Filter([], (e: Entry) => e.customerId == "customer") == [] && SortByTs([]) == [];
  }

  lemma KnownFromHistory(q: Query)
    requires q.customerId == "customer" && q.cardId == "card"
    ensures
      var card := HeldOn(PAST.byCard, q.cardId);
      CountApprovals(card, OnCard([], q.cardId)).Keys + CountApprovals(OtherCards(HeldOn(PAST.byCustomer, q.customerId), card), OffCard([], q.cardId)).Keys
      == {"shop"}
  {
    assert OnCard([], q.cardId) == [] && OffCard([], q.cardId) == [];
  }

  lemma NamesKnown()
    ensures NamesOf({"shop"}, [("shop", "Shop")]) == [("shop", "Shop")]
  {
    var names: seq<(string, string)> := [("shop", "Shop")];
    assert names == [] + [("shop", "Shop")];
    FilterAppend([], ("shop", "Shop"), (n: (string, string)) => n.0 in {"shop"});
  }

  lemma ApprovedAtOnce(s: Store)
    requires s.rows == [] && s.runs == []
    ensures Begin(s, EVENT, CONTEXT).entry.outcome.Approve?
  {
    hide StoreView, EngineFor;
    var q := QueryFor(EVENT, CONTEXT);
    var view := StoreView(s, PAST, q);
    ViewOfHistory(s, q);
    LimitedPasses(12, view);
    assert FactsWith(EVENT, CONTEXT, view) == Bought(12);
    EngineDecides(s, EVENT, CONTEXT);
  }

  /** Deliver, then save: the purchase is approved and its CHF 50 are spent. */
  lemma ApprovalReachable()
    ensures
      var start, steps := Machine(EMPTY, None), [Deliver(EVENT, CONTEXT), Save];
      && Legal(start, steps)
      && |Exec(start, steps).store.rows| == 1
      && Exec(start, steps).store.rows[0].outcome.Approve? && Exec(start, steps).store.rows[0].spent == 5000
  {
    hide Begin, StoreView;
    var start, steps := Machine(EMPTY, None), [Deliver(EVENT, CONTEXT), Save];
    var noted := NoteEvent(EMPTY, "p1", NotedOf(EVENT));
    var mid := Next(start, steps[0]);
    assert mid == Machine(noted, Some(Begin(noted, EVENT, CONTEXT)));
    ApprovedAtOnce(noted);
    BeginIsNew(noted, EVENT, CONTEXT);
    CommitAppends(noted, Begin(noted, EVENT, CONTEXT));
    assert steps[1..] == [Save] && [Save][1..] == [] && [Save][0] == Save;
    assert Exec(start, steps) == Exec(mid, [Save]) == Exec(Next(mid, Save), []);
    assert Legal(mid, [Save]);
  }
}
