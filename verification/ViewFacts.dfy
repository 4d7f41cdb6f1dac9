/** What the view says, in terms of history and this run: which shops are known, the largest
    approval, the last price at a shop. Each is taught by final approvals only. */
module ViewFacts {
  import opened Seqs
  import opened Types
  import opened Ledger
  import opened Views
  import opened Sorting
  import opened Permutations
  import opened Runs
  import Budget

  /** The approvals of the run a view reads: final, and before the purchase. */
  ghost predicate ApprovedBefore(s: Store, q: Query, e: Entry) {
    e in s.rows && IsBefore(e, q) && IsFinalApproval(e)
  }

  function ApprovedRun(s: Store, q: Query): seq<Entry> {
    Filter(SortByTs(RunBefore(s.rows, q)), IsSpent)
  }

  /** In a well-formed table, spend marks exactly the final approvals. */
  lemma SpentIsApproved(s: Store, q: Query, e: Entry)
    requires forall x :: x in s.rows ==> EntryOk(x)
    ensures e in ApprovedRun(s, q) <==> ApprovedBefore(s, q, e)
  {
    hide SortByTs;
    if e in s.rows { assert EntryOk(e); }
  }

  lemma ViewParts(s: Store, h: History, q: Query)
    ensures
      var view, approved := StoreView(s, h, q), ApprovedRun(s, q);
      var card := HeldOn(h.byCard, q.cardId);
      var onCard := CountApprovals(card, OnCard(approved, q.cardId));
      var others := CountApprovals(OtherCards(HeldOn(h.byCustomer, q.customerId), card), OffCard(approved, q.cardId));
      && view.knownMerchants == onCard.Keys + others.Keys && view.knownOnCard == onCard.Keys
      && view.maxApproved == LargestOf(approved, if q.customerId in h.maxApproved then Some(h.maxApproved[q.customerId]) else None)
      && view.lastPrice == LastPrices(h, q.customerId, approved)
  {
    hide Filter, SortByTs, InWindow, CountApprovals, LastPrices, KeysOf, Fulfilments, PriorsOf, EarlierDecisions,
      WatchedDecisions, WatchOn, RunBefore, NamesOf, OtherCards, LargestOf, DevicesOf, CountriesOf, Flagged, OnCard, OffCard, HeldOn;
  }

  /** History knows the shop, on this card or by approvals on the customer's other cards. */
  predicate InHistory(h: History, q: Query, shop: string) {
    var customer, card := HeldOn(h.byCustomer, q.customerId), HeldOn(h.byCard, q.cardId);
    shop in card || (shop in customer && customer[shop] > 0)
  }

  /** A shop is known exactly when history knows it or this run has approved a purchase there. */
  lemma KnownIff(s: Store, h: History, q: Query, shop: string)
    requires forall x :: x in s.rows ==> EntryOk(x)
    ensures shop in StoreView(s, h, q).knownMerchants <==>
      InHistory(h, q, shop) || exists e :: ApprovedBefore(s, q, e) && e.merchantId == shop
  {
    hide StoreView, CountApprovals, ApprovedBefore, EntryOk;
    ViewParts(s, h, q);
    var approved := ApprovedRun(s, q);
    var customer, card := HeldOn(h.byCustomer, q.customerId), HeldOn(h.byCard, q.cardId);
    TallyAt(card, OnCard(approved, q.cardId), shop);
    TallyAt(OtherCards(customer, card), OffCard(approved, q.cardId), shop);
    forall e ensures e in approved <==> ApprovedBefore(s, q, e) { SpentIsApproved(s, q, e); }
    assert forall e :: e in approved <==> e in OnCard(approved, q.cardId) || e in OffCard(approved, q.cardId);
  }

  /** The largest approval: none is larger, in this run or in history, and it is one of them. */
  lemma LargestApproval(s: Store, h: History, q: Query)
    requires forall x :: x in s.rows ==> EntryOk(x)
    ensures
      var largest := StoreView(s, h, q).maxApproved;
      && (forall e :: ApprovedBefore(s, q, e) ==> largest.Some? && e.amount <= largest.value)
      && (q.customerId in h.maxApproved ==> largest.Some? && h.maxApproved[q.customerId] <= largest.value)
      && (largest.Some? ==>
            || (q.customerId in h.maxApproved && h.maxApproved[q.customerId] == largest.value)
            || exists e :: ApprovedBefore(s, q, e) && e.amount == largest.value)
  {
    hide StoreView, ApprovedBefore, EntryOk, ApprovedRun, LargestOf, Map;
    ViewParts(s, h, q);
    var approved := ApprovedRun(s, q);
    forall e ensures e in approved <==> ApprovedBefore(s, q, e) { SpentIsApproved(s, q, e); }
    var history := if q.customerId in h.maxApproved then Some(h.maxApproved[q.customerId]) else None;
    LargestIs(approved, history);
    forall e | ApprovedBefore(s, q, e) ensures e.amount in Map(approved, AmountOf) {
      assert AmountOf(e) == e.amount;
      MapMembers(approved, AmountOf, e.amount);
    }
    var largest := LargestOf(approved, history);
    if largest.Some? && largest != history {
      MapMembers(approved, AmountOf, largest.value);
      var e :| e in approved && AmountOf(e) == largest.value;
      assert ApprovedBefore(s, q, e) && e.amount == largest.value;
    }
  }

  lemma LargestIs(approved: seq<Entry>, history: Option<int>)
    ensures
      var largest := LargestOf(approved, history);
      && (forall y :: y in Map(approved, AmountOf) ==> largest.Some? && y <= largest.value)
      && (history.Some? ==> largest.Some? && history.value <= largest.value)
      && (largest.Some? ==> history == largest || largest.value in Map(approved, AmountOf))
  {
  }

  // --- The last price at a shop ---------------------------------------------------------------------

  lemma PriceNext(base: map<string, int>, s: seq<Entry>)
    requires s != []
    ensures LatestPrices(base, s) == LatestPrices(base, s[..|s| - 1])[s[|s| - 1].merchantId := s[|s| - 1].amount]
  {
  }

  lemma LatestStays(s: seq<Entry>, shop: string, e: Entry)
    requires SortedByTs(s) && s != []
    requires if s[|s| - 1].merchantId == shop then e == s[|s| - 1] else IsLatestAt(e, s[..|s| - 1], shop)
    ensures IsLatestAt(e, s, shop)
  {
    assert s == s[..|s| - 1] + [s[|s| - 1]];
  }

  /** The latest of the approvals at the shop sets its price. */
  ghost predicate PriceIs(base: map<string, int>, s: seq<Entry>, shop: string, prices: map<string, int>) {
    if forall e :: e in s ==> e.merchantId != shop
    then (shop in prices <==> shop in base) && (shop in base ==> prices[shop] == base[shop])
    else exists e :: IsLatestAt(e, s, shop) && shop in prices && prices[shop] == e.amount
  }

  lemma PriceHere(base: map<string, int>, s: seq<Entry>, shop: string, before: map<string, int>)
    requires SortedByTs(s) && s != [] && s[|s| - 1].merchantId == shop
    ensures PriceIs(base, s, shop, before[shop := s[|s| - 1].amount])
  {
    hide IsLatestAt;
    LatestStays(s, shop, s[|s| - 1]);
    assert s[|s| - 1] in s;
  }

  lemma PriceElsewhere(base: map<string, int>, s: seq<Entry>, shop: string, before: map<string, int>)
    requires SortedByTs(s) && s != [] && s[|s| - 1].merchantId != shop && PriceIs(base, s[..|s| - 1], shop, before)
    ensures PriceIs(base, s, shop, before[s[|s| - 1].merchantId := s[|s| - 1].amount])
  {
    hide IsLatestAt;
    var init := s[..|s| - 1];
    assert s == init + [s[|s| - 1]];
    if e :| e in init && e.merchantId == shop {
      var x :| IsLatestAt(x, init, shop) && shop in before && before[shop] == x.amount;
      LatestStays(s, shop, x);
      assert e in s;
    }
  }

  lemma {:induction false} LatestPriceAt(base: map<string, int>, s: seq<Entry>, shop: string)
    requires SortedByTs(s)
    ensures PriceIs(base, s, shop, LatestPrices(base, s))
  {
    if s != [] {
      hide PriceIs, LatestPrices;
      PriceNext(base, s);
      LatestPriceAt(base, s[..|s| - 1], shop);
      if s[|s| - 1].merchantId == shop {
        PriceHere(base, s, shop, LatestPrices(base, s[..|s| - 1]));
      } else {
        PriceElsewhere(base, s, shop, LatestPrices(base, s[..|s| - 1]));
      }
    }
  }

  ghost predicate IsLatestAt(e: Entry, s: seq<Entry>, shop: string) {
    e in s && e.merchantId == shop && forall x :: x in s && x.merchantId == shop ==> x.ts <= e.ts
  }

  /** "Same price as last time": once the customer has an approval at the shop in this run, the last
      price is that of the latest one; before that it is history's, at shops he knows. */
  lemma LastPriceIs(s: Store, h: History, q: Query, shop: string)
    requires forall x :: x in s.rows ==> EntryOk(x)
    ensures
      var prices := StoreView(s, h, q).lastPrice;
      if exists e :: ApprovedBefore(s, q, e) && e.customerId == q.customerId && e.merchantId == shop
      then exists e :: LatestHere(s, q, shop, e) && shop in prices && prices[shop] == e.amount
      else (shop in prices <==> shop in HeldOn(h.byCustomer, q.customerId) && (q.customerId, shop) in h.lastPrice)
           && (shop in prices ==> prices[shop] == h.lastPrice[(q.customerId, shop)])
  {
    hide StoreView, ApprovedBefore, EntryOk, SortByTs, LatestPrices, ApprovedRun, LastPrices;
    ViewParts(s, h, q);
    var approved := ApprovedRun(s, q);
    forall e ensures e in approved <==> ApprovedBefore(s, q, e) { SpentIsApproved(s, q, e); }
    PricesOf(h, q.customerId, approved, shop);
    if exists e :: ApprovedBefore(s, q, e) && e.customerId == q.customerId && e.merchantId == shop {
      var e :| IsLatestOf(e, approved, q.customerId, shop) && shop in LastPrices(h, q.customerId, approved)
               && LastPrices(h, q.customerId, approved)[shop] == e.amount;
      assert LatestHere(s, q, shop, e);
    }
  }

  ghost predicate IsLatestOf(e: Entry, approved: seq<Entry>, customerId: string, shop: string) {
    && e in approved && e.customerId == customerId && e.merchantId == shop
    && forall x :: x in approved && x.customerId == customerId && x.merchantId == shop ==> x.ts <= e.ts
  }

  lemma PricesOf(h: History, customerId: string, approved: seq<Entry>, shop: string)
    ensures
      var prices := LastPrices(h, customerId, approved);
      if exists e :: e in approved && e.customerId == customerId && e.merchantId == shop
      then exists e :: IsLatestOf(e, approved, customerId, shop) && shop in prices && prices[shop] == e.amount
      else (shop in prices <==> shop in HeldOn(h.byCustomer, customerId) && (customerId, shop) in h.lastPrice)
           && (shop in prices ==> prices[shop] == h.lastPrice[(customerId, shop)])
  {
    hide SortByTs, LatestPrices;
    var mine := Filter(approved, (e: Entry) => e.customerId == customerId);
    var sorted := SortByTs(mine);
    SortSorted(mine);
    var base := map m | m in HeldOn(h.byCustomer, customerId) && (customerId, m) in h.lastPrice :: h.lastPrice[(customerId, m)];
    LatestPriceAt(base, sorted, shop);
    if exists e :: e in approved && e.customerId == customerId && e.merchantId == shop {
      var e :| IsLatestAt(e, sorted, shop) && shop in LatestPrices(base, sorted) && LatestPrices(base, sorted)[shop] == e.amount;
      assert IsLatestOf(e, approved, customerId, shop);
    }
  }

  /** The customer's latest final approval at the shop before the purchase. */
  ghost predicate LatestHere(s: Store, q: Query, shop: string, e: Entry) {
    && ApprovedBefore(s, q, e) && e.customerId == q.customerId && e.merchantId == shop
    && forall x :: ApprovedBefore(s, q, x) && x.customerId == q.customerId && x.merchantId == shop ==> x.ts <= e.ts
  }
}
