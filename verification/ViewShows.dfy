/** The other fields of the view a purchase is decided against (backend/oneguard/engine/ledger.py:121-196),
    each said over history and the rows of the table. */
module ViewShows {
  import opened Seqs
  import opened Types
  import opened Ledger
  import opened Views
  import opened Sorting
  import opened Runs
  import opened Sessions
  import opened ViewFacts

  lemma OtherParts(s: Store, h: History, q: Query)
    ensures
      var view, approved, run := StoreView(s, h, q), ApprovedRun(s, q), SortByTs(RunBefore(s.rows, q));
      && view.knownDevices == SetOn(h.devices, q.customerId) + DevicesOf(approved, s.events)
      && view.knownCountries == SetOn(h.countries, q.customerId) + CountriesOf(approved, s.events)
      && view.flagged == Flagged(s.flags, q.runId) && view.knownNames == NamesOf(view.knownMerchants, h.names)
      && view.priors == PriorsOf(run, q.at)
      && view.fulfilments == Some(Fulfilments(EarlierDecisions(s, q.runId) + run, s.requested))
      && view.periodWindowStart == WindowStart(q.at, q.periodDays)
  {
    hide Filter, SortByTs, InWindow, CountApprovals, LastPrices, KeysOf, Fulfilments, PriorsOf, EarlierDecisions,
      WatchedDecisions, WatchOn, RunBefore, NamesOf, OtherCards, LargestOf, DevicesOf, CountriesOf, Flagged, OnCard, OffCard, HeldOn;
  }

  /** The event of a purchase this run approved. */
  ghost predicate TaughtBy(s: Store, q: Query, e: Entry) { ApprovedBefore(s, q, e) && e.id in s.events }

  /** W1: a device is known exactly from history, or from a purchase this run approved. */
  lemma DeviceKnownIff(s: Store, h: History, q: Query, device: string)
    requires (forall x :: x in s.rows ==> EntryOk(x)) && device != ""
    ensures device in StoreView(s, h, q).knownDevices <==>
      (q.customerId in h.devices && device in h.devices[q.customerId]) || exists e :: TaughtBy(s, q, e) && s.events[e.id].device == device
  {
    hide StoreView, ApprovedBefore, EntryOk, ApprovedRun, TaughtBy;
    OtherParts(s, h, q);
    TaughtRun(s, q);
  }

  /** W3: a country is known exactly from history, or from a purchase this run approved. */
  lemma CountryKnownIff(s: Store, h: History, q: Query, country: string)
    requires (forall x :: x in s.rows ==> EntryOk(x)) && country != ""
    ensures country in StoreView(s, h, q).knownCountries <==>
      (q.customerId in h.countries && country in h.countries[q.customerId]) || exists e :: TaughtBy(s, q, e) && s.events[e.id].country == country
  {
    hide StoreView, ApprovedBefore, EntryOk, ApprovedRun, TaughtBy;
    OtherParts(s, h, q);
    TaughtRun(s, q);
  }

  lemma TaughtRun(s: Store, q: Query)
    requires forall x :: x in s.rows ==> EntryOk(x)
    ensures forall e :: e in ApprovedRun(s, q) && e.id in s.events <==> TaughtBy(s, q, e)
  {
    hide ApprovedBefore, EntryOk, ApprovedRun;
    forall e ensures e in ApprovedRun(s, q) <==> ApprovedBefore(s, q, e) { SpentIsApproved(s, q, e); }
  }

  /** A missing device or country teaches nothing. */
  lemma NothingLearntFromNothing(s: Store, h: History, q: Query)
    requires (q.customerId in h.devices ==> "" !in h.devices[q.customerId]) && (q.customerId in h.countries ==> "" !in h.countries[q.customerId])
    ensures "" !in StoreView(s, h, q).knownDevices && "" !in StoreView(s, h, q).knownCountries
  {
    hide StoreView, ApprovedRun;
    OtherParts(s, h, q);
  }

  /** A7: the names a shop is compared with are those history has for the shops that are known. */
  lemma NamesShown(s: Store, h: History, q: Query, name: (string, string))
    ensures name in StoreView(s, h, q).knownNames <==> name in h.names && name.0 in StoreView(s, h, q).knownMerchants
  {
    hide StoreView, ApprovedRun;
    OtherParts(s, h, q);
  }

  /** A shop is flagged exactly in the run that flagged it. */
  lemma FlaggedIff(s: Store, h: History, q: Query, shop: string)
    ensures shop in StoreView(s, h, q).flagged <==> (q.runId, shop) in s.flags
  {
    hide StoreView, ApprovedRun;
    OtherParts(s, h, q);
    if (q.runId, shop) in s.flags { assert (q.runId, shop).1 in Flagged(s.flags, q.runId); }
  }

  /** A decision of this run before the purchase, of the last day or a decline. */
  predicate ShownAsPrior(e: Entry, q: Query) { e.runId == q.runId && e.ts < q.at && (q.at <= e.ts + 86400 || e.outcome.Decline?) }

  /** The earlier order as the protections see it. */
  predicate IsPriorOf(p: Prior, e: Entry) {
    && p.id == e.id && p.ts == e.ts && p.outcome == e.outcome && p.final == e.final && p.merchantId == e.merchantId
    && p.itemIds == e.itemIds && p.amount == e.amount
    && p.approved == (e.outcome.Approve? || (e.final && e.answer.Approved?)) && p.reserved == (e.reserved > 0)
  }

  lemma AsPriorIs(e: Entry)
    ensures IsPriorOf(AsPrior(e), e)
  {
  }

  lemma MappedPriors(shown: seq<Entry>, priors: seq<Prior>)
    requires priors == Map(shown, AsPrior)
    ensures forall e :: e in shown ==> AsPrior(e) in priors
    ensures forall p :: p in priors ==> exists e :: e in shown && p == AsPrior(e)
  {
    hide AsPrior;
    forall e | e in shown ensures AsPrior(e) in priors {
      var i :| 0 <= i < |shown| && shown[i] == e;
      assert priors[i] == AsPrior(e);
    }
    forall p | p in priors ensures exists e :: e in shown && p == AsPrior(e) {
      var i :| 0 <= i < |priors| && priors[i] == p;
      assert shown[i] in shown;
    }
  }

  /** The decisions behind the earlier orders, oldest first. */
  function ShownRows(s: Store, q: Query): seq<Entry> { Filter(SortByTs(RunBefore(s.rows, q)), (e: Entry) => IsPrior(e, q.at)) }

  lemma ShownRowsAre(s: Store, q: Query)
    ensures SortedByTs(ShownRows(s, q)) && forall e :: e in ShownRows(s, q) <==> e in s.rows && ShownAsPrior(e, q)
  {
    hide SortByTs, SortedByTs;
    SortSorted(RunBefore(s.rows, q));
    FilterSorted(SortByTs(RunBefore(s.rows, q)), (e: Entry) => IsPrior(e, q.at));
  }

  lemma PriorsAre(s: Store, h: History, q: Query)
    ensures StoreView(s, h, q).priors == Map(ShownRows(s, q), AsPrior)
  {
    hide StoreView, ApprovedRun, SortByTs, Filter, AsPrior;
    OtherParts(s, h, q);
  }

  /** Each of these decisions is shown. */
  lemma PriorIsShown(s: Store, h: History, q: Query, e: Entry)
    requires e in s.rows && ShownAsPrior(e, q)
    ensures exists p :: p in StoreView(s, h, q).priors && IsPriorOf(p, e)
  {
    hide StoreView, ShownRows, AsPrior, IsPriorOf, ShownAsPrior, Map;
    PriorsAre(s, h, q);
    ShownRowsAre(s, q);
    MappedPriors(ShownRows(s, q), StoreView(s, h, q).priors);
    AsPriorIs(e);
    assert AsPrior(e) in StoreView(s, h, q).priors;
  }

  /** Nothing else is. */
  lemma PriorWasDecided(s: Store, h: History, q: Query, p: Prior)
    requires p in StoreView(s, h, q).priors
    ensures exists e :: e in s.rows && ShownAsPrior(e, q) && IsPriorOf(p, e)
  {
    hide StoreView, ShownRows, AsPrior, IsPriorOf, ShownAsPrior, Map;
    PriorsAre(s, h, q);
    ShownRowsAre(s, q);
    MappedPriors(ShownRows(s, q), StoreView(s, h, q).priors);
    var e :| e in ShownRows(s, q) && p == AsPrior(e);
    AsPriorIs(e);
  }

  /** The earlier orders shown are exactly these, oldest first. */
  lemma PriorsShown(s: Store, h: History, q: Query)
    ensures
      var priors := StoreView(s, h, q).priors;
      && (forall e :: e in s.rows && ShownAsPrior(e, q) ==> exists p :: p in priors && IsPriorOf(p, e))
      && (forall p :: p in priors ==> exists e :: e in s.rows && ShownAsPrior(e, q) && IsPriorOf(p, e))
      && (forall i, j :: 0 <= i < j < |priors| ==> priors[i].ts <= priors[j].ts)
  {
    hide StoreView, ShownRows, IsPriorOf, ShownAsPrior, Map, SortedByTs;
    forall e | e in s.rows && ShownAsPrior(e, q) ensures exists p :: p in StoreView(s, h, q).priors && IsPriorOf(p, e) { PriorIsShown(s, h, q, e); }
    forall p | p in StoreView(s, h, q).priors ensures exists e :: e in s.rows && ShownAsPrior(e, q) && IsPriorOf(p, e) { PriorWasDecided(s, h, q, p); }
    PriorsAre(s, h, q);
    ShownRowsAre(s, q);
    PriorOrder(ShownRows(s, q), StoreView(s, h, q).priors);
  }

  lemma PriorOrder(shown: seq<Entry>, priors: seq<Prior>)
    requires priors == Map(shown, AsPrior) && SortedByTs(shown)
    ensures forall i, j :: 0 <= i < j < |priors| ==> priors[i].ts <= priors[j].ts
  {
  }

  /** The runs whose purchases count as bought under the mandate, and those of this run before the purchase. */
  ghost predicate CountsAsBought(s: Store, q: Query, e: Entry) {
    && e in s.rows && (StartedEarlier(s.runs, e.runId, q.runId) || (e.runId == q.runId && e.ts < q.at))
    && e.id in s.requested && (e.outcome.Approve? || (e.final && e.answer.Approved?))
  }

  function AsBought(s: Store, e: Entry): Fulfilment {
    Fulfilment(e.id, e.mandateId, e.ts, e.amount, if e.id in s.requested then s.requested[e.id] else "")
  }

  lemma BoughtRows(s: Store, q: Query, e: Entry)
    requires DistinctRuns(s.runs)
    ensures
      var decisions := EarlierDecisions(s, q.runId) + SortByTs(RunBefore(s.rows, q));
      e in Filter(SortByTs(decisions), (x: Entry) => x.id in s.requested && IsFinalApproval(x)) <==> CountsAsBought(s, q, e)
  {
    hide SortByTs, EarlierLiveRuns, StartedEarlier, DistinctRuns;
    EarlierIff(s.runs, q.runId, e.runId);
  }

  lemma MappedBought(s: Store, bought: seq<Entry>, shown: seq<Fulfilment>, f: Fulfilment)
    requires shown == Map(bought, (e: Entry) => Fulfilment(e.id, e.mandateId, e.ts, e.amount, if e.id in s.requested then s.requested[e.id] else ""))
    ensures f in shown <==> exists e :: e in bought && f == AsBought(s, e)
  {
    if e :| e in bought && f == AsBought(s, e) {
      var i :| 0 <= i < |bought| && bought[i] == e;
      assert shown[i] == f;
    }
    if f in shown {
      var i :| 0 <= i < |shown| && shown[i] == f;
      assert bought[i] in bought && f == AsBought(s, bought[i]);
    }
  }

  /** A8: what was bought already is exactly the marked final approvals of these runs. */
  lemma FulfilmentsShown(s: Store, h: History, q: Query, f: Fulfilment)
    requires DistinctRuns(s.runs)
    ensures StoreView(s, h, q).fulfilments.Some?
    ensures f in StoreView(s, h, q).fulfilments.value <==>
      exists e :: CountsAsBought(s, q, e) && f == Fulfilment(e.id, e.mandateId, e.ts, e.amount, s.requested[e.id])
  {
    hide StoreView, ApprovedRun, SortByTs, EarlierDecisions, DistinctRuns, Filter;
    OtherParts(s, h, q);
    var decisions := EarlierDecisions(s, q.runId) + SortByTs(RunBefore(s.rows, q));
    var bought := Filter(SortByTs(decisions), (e: Entry) => e.id in s.requested && IsFinalApproval(e));
    forall e ensures e in bought <==> CountsAsBought(s, q, e) { BoughtRows(s, q, e); }
    MappedBought(s, bought, Fulfilments(decisions, s.requested), f);
    assert forall e :: CountsAsBought(s, q, e) ==> e.id in s.requested;
    hide CountsAsBought;
  }

  // --- How often each shop was approved ---------------------------------------------------------------------

  function ValueAt(m: map<string, int>, key: string): int { if key in m then m[key] else 0 }

  function TimesAt(s: seq<Entry>, shop: string): nat { |Filter(s, (e: Entry) => e.merchantId == shop)| }

  lemma {:induction false} CountsAt(base: map<string, int>, s: seq<Entry>, shop: string)
    ensures ValueAt(CountApprovals(base, s), shop) == ValueAt(base, shop) + TimesAt(s, shop)
  {
    if s != [] {
      var init, last := s[..|s| - 1], s[|s| - 1];
      CountsAt(base, init, shop);
      assert s == init + [last];
      FilterAppend(init, last, (e: Entry) => e.merchantId == shop);
    }
  }

  /** Approvals at a shop: history's on the card and this run's on it, and beside them history's on the
      customer's other cards and this run's off it. */
  lemma ApprovalCounts(s: Store, h: History, q: Query, shop: string)
    ensures
      var view, approved := StoreView(s, h, q), ApprovedRun(s, q);
      var card, customer := ValueAt(HeldOn(h.byCard, q.cardId), shop), ValueAt(HeldOn(h.byCustomer, q.customerId), shop);
      && ValueAt(view.approvalsOnCard, shop) == card + |Filter(approved, (e: Entry) => e.cardId == q.cardId && e.merchantId == shop)|
      && (shop in HeldOn(h.byCustomer, q.customerId) ==>
            ValueAt(view.approvalsOtherCards, shop)
            == (if customer > card then customer - card else 0) + |Filter(approved, (e: Entry) => e.cardId != q.cardId && e.merchantId == shop)|)
  {
    hide StoreView, ApprovedRun, CountApprovals, Filter;
    CountParts(s, h, q);
    var approved, card := ApprovedRun(s, q), HeldOn(h.byCard, q.cardId);
    CountsAt(card, OnCard(approved, q.cardId), shop);
    CountsAt(OtherCards(HeldOn(h.byCustomer, q.customerId), card), OffCard(approved, q.cardId), shop);
    FilterFilter(approved, (e: Entry) => e.cardId == q.cardId, (e: Entry) => e.merchantId == shop, (e: Entry) => e.cardId == q.cardId && e.merchantId == shop);
    FilterFilter(approved, (e: Entry) => e.cardId != q.cardId, (e: Entry) => e.merchantId == shop, (e: Entry) => e.cardId != q.cardId && e.merchantId == shop);
  }

  lemma CountParts(s: Store, h: History, q: Query)
    ensures
      var view, approved, card := StoreView(s, h, q), ApprovedRun(s, q), HeldOn(h.byCard, q.cardId);
      && view.approvalsOnCard == CountApprovals(card, OnCard(approved, q.cardId))
      && view.approvalsOtherCards == CountApprovals(OtherCards(HeldOn(h.byCustomer, q.customerId), card), OffCard(approved, q.cardId))
  {
    hide Filter, SortByTs, InWindow, CountApprovals, LastPrices, KeysOf, Fulfilments, PriorsOf, EarlierDecisions,
      WatchedDecisions, WatchOn, RunBefore, NamesOf, OtherCards, LargestOf, DevicesOf, CountriesOf, Flagged, OnCard, OffCard, HeldOn;
  }
}
