/** The two ledgers as objects, each proved against the functions on values: the dict-backed
    reference ledger (ledger_base.py:304) and the ledger over the decisions table (ledger.py:99),
    and `decide_event` driving the latter step by step (pipeline.py:208). */
module LedgerObjects {
  import opened Seqs
  import opened Types
  import opened Ledger
  import opened Views
  import opened PolicyRules
  import opened Warnings
  import Protections
  import opened Ladder
  import opened Pipeline
  import opened Watch

  // --- The loops both views run ----------------------------------------------------------

  function Tally(base: map<string, int>, approved: seq<Entry>, cardId: string, onCard: bool): map<string, int> {
    CountApprovals(base, if onCard then OnCard(approved, cardId) else OffCard(approved, cardId))
  }

  function OneMore(tally: map<string, int>, shop: string): map<string, int> {
    tally[shop := (if shop in tally then tally[shop] else 0) + 1]
  }

  lemma TallyAppend(base: map<string, int>, s: seq<Entry>, e: Entry)
    ensures CountApprovals(base, s + [e]) == OneMore(CountApprovals(base, s), e.merchantId)
  {
    assert (s + [e])[..|s|] == s;
  }

  lemma TallyNext(base: map<string, int>, s: seq<Entry>, e: Entry, cardId: string, onCard: bool)
    ensures Tally(base, s + [e], cardId, onCard) ==
      if (e.cardId == cardId) == onCard then OneMore(Tally(base, s, cardId, onCard), e.merchantId) else Tally(base, s, cardId, onCard)
  {
    hide CountApprovals;
    FilterAppend(s, e, (x: Entry) => x.cardId == cardId);
    FilterAppend(s, e, (x: Entry) => x.cardId != cardId);
    TallyAppend(base, OnCard(s, cardId), e);
    TallyAppend(base, OffCard(s, cardId), e);
  }

  lemma TallyNone(base: map<string, int>, cardId: string, onCard: bool)
    ensures Tally(base, [], cardId, onCard) == base
  {
  }

  /** Adds this run's approvals on the card, or off it, to history's counts. */
  method TallyApprovals(base: map<string, int>, approved: seq<Entry>, cardId: string, onCard: bool)
    returns (tally: map<string, int>)
    ensures tally == Tally(base, approved, cardId, onCard)
  {
    hide Tally;
    tally := base;
    TallyNone(base, cardId, onCard);
    for i := 0 to |approved|
      invariant tally == Tally(base, approved[..i], cardId, onCard)
    {
      assert approved[..i + 1] == approved[..i] + [approved[i]];
      TallyNext(base, approved[..i], approved[i], cardId, onCard);
      if (approved[i].cardId == cardId) == onCard {
        var shop := approved[i].merchantId;
        tally := tally[shop := (if shop in tally then tally[shop] else 0) + 1];
      }
    }
    assert approved[..|approved|] == approved;
  }

  function HistoryPrices(h: History, customerId: string): map<string, int> {
    map m | m in HeldOn(h.byCustomer, customerId) && (customerId, m) in h.lastPrice :: h.lastPrice[(customerId, m)]
  }

  lemma LatestPricesNext(base: map<string, int>, s: seq<Entry>, e: Entry)
    ensures LatestPrices(base, s + [e]) == LatestPrices(base, s)[e.merchantId := e.amount]
  {
    assert (s + [e])[..|s|] == s;
  }

  lemma LastPricesAre(h: History, customerId: string, approved: seq<Entry>)
    ensures LastPrices(h, customerId, approved)
         == LatestPrices(HistoryPrices(h, customerId), SortByTs(Filter(approved, (e: Entry) => e.customerId == customerId)))
  {
    hide SortByTs, Filter, LatestPrices;
  }

  /** History's last prices, replaced by this run's approvals in order of time. */
  method PricesAfter(h: History, customerId: string, approved: seq<Entry>) returns (prices: map<string, int>)
    ensures prices == LastPrices(h, customerId, approved)
  {
    hide SortByTs, Filter, LatestPrices, LastPrices, HistoryPrices;
    prices := HistoryPrices(h, customerId);
    var sorted := SortByTs(Filter(approved, (e: Entry) => e.customerId == customerId));
    LastPricesAre(h, customerId, approved);
    ghost var base := prices;
    LatestPricesNone(base);
    for i := 0 to |sorted|
      invariant prices == LatestPrices(base, sorted[..i])
    {
      assert sorted[..i + 1] == sorted[..i] + [sorted[i]];
      LatestPricesNext(base, sorted[..i], sorted[i]);
      prices := prices[sorted[i].merchantId := sorted[i].amount];
    }
    assert sorted[..|sorted|] == sorted;
  }

  lemma LatestPricesNone(base: map<string, int>)
    ensures LatestPrices(base, []) == base
  {
  }

  /** The view from parts already computed. */
  function FromParts(run: seq<Entry>, priors: seq<Prior>, fulfilled: seq<Fulfilment>, keys: set<string>, watch: bool,
                     onCard: map<string, int>, others: map<string, int>, prices: map<string, int>, flagged: set<string>,
                     events: map<string, Noted>, h: History, q: Query): LedgerView
  {
    var inWindow := InWindow(run, q);
    var approved := Filter(run, IsSpent);
    var counted := Filter(inWindow, IsFinalApproval);
    var waiting := Filter(inWindow, IsPending);
    var known := onCard.Keys + others.Keys;
    LedgerView(
      SumBy(inWindow, SpentOf), SumBy(inWindow, ReservedOf), WindowStart(q.at, q.periodDays),
      Some(|counted| + |waiting|), |waiting|, MaxOf(Map(counted, TsOf)), priors,
      known, onCard.Keys, NamesOf(known, h.names), onCard, others,
      SetOn(h.devices, q.customerId) + DevicesOf(approved, events),
      SetOn(h.countries, q.customerId) + CountriesOf(approved, events),
      LargestOf(approved, if q.customerId in h.maxApproved then Some(h.maxApproved[q.customerId]) else None),
      prices, flagged, watch, keys, Some(fulfilled))
  }

  lemma PartsAssemble(run: seq<Entry>, priors: seq<Prior>, fulfilled: seq<Fulfilment>, keys: set<string>, watch: bool,
                      flagged: set<string>, s: Store, h: History, q: Query)
    requires flagged == Flagged(s.flags, q.runId)
    ensures
      var approved := Filter(run, IsSpent);
      var card := HeldOn(h.byCard, q.cardId);
      FromParts(run, priors, fulfilled, keys, watch, Tally(card, approved, q.cardId, true),
                Tally(OtherCards(HeldOn(h.byCustomer, q.customerId), card), approved, q.cardId, false),
                LastPrices(h, q.customerId, approved), flagged, s.events, h, q)
      == Assemble(run, priors, fulfilled, keys, watch, s, h, q)
  {
    hide Filter, InWindow, CountApprovals, OnCard, OffCard, LastPrices, MaxOf, SumBy, DevicesOf, CountriesOf, NamesOf,
      OtherCards, HeldOn, Flagged, LargestOf, SetOn;
  }

  // --- The reference ledger --------------------------------------------------------------

  ghost predicate Keyed(ids: seq<string>, entries: map<string, Entry>) {
    && NoDuplicates(ids)
    && (forall id :: id in ids <==> id in entries)
    && (forall id :: id in entries ==> entries[id].id == id)
  }

  /** The dict's entries, in the order they were inserted. */
  function RowsOf(ids: seq<string>, entries: map<string, Entry>): (rows: seq<Entry>)
    requires forall id :: id in ids ==> id in entries
    ensures |rows| == |ids| && forall i :: 0 <= i < |ids| ==> rows[i] == entries[ids[i]]
  {
    seq(|ids|, i requires 0 <= i < |ids| => entries[ids[i]])
  }

  ghost function FlagPairs(flags: map<string, set<string>>): set<(string, string)> {
    set r, m | r in flags && m in flags[r] :: (r, m)
  }

  lemma IndexOfKey(ids: seq<string>, entries: map<string, Entry>, id: string)
    requires Keyed(ids, entries)
    ensures IndexOf(RowsOf(ids, entries), id).Some? <==> id in entries
    ensures id in entries ==> ids[IndexOf(RowsOf(ids, entries), id).value] == id
  {
    var rows := RowsOf(ids, entries);
    if id in entries {
      var i :| 0 <= i < |ids| && ids[i] == id;
      assert rows[i].id == id;
    }
    var i := IndexOf(rows, id);
    if i.Some? { assert entries[ids[i.value]].id == ids[i.value]; }
  }

  lemma UpdateKey(ids: seq<string>, entries: map<string, Entry>, i: nat, x: Entry)
    requires Keyed(ids, entries) && i < |ids| && x.id == ids[i]
    ensures Keyed(ids, entries[ids[i] := x])
    ensures RowsOf(ids, entries[ids[i] := x]) == RowsOf(ids, entries)[i := x]
  {
  }

  lemma InsertKey(ids: seq<string>, entries: map<string, Entry>, x: Entry)
    requires Keyed(ids, entries) && x.id !in entries
    ensures Keyed(ids + [x.id], entries[x.id := x])
    ensures RowsOf(ids + [x.id], entries[x.id := x]) == RowsOf(ids, entries) + [x]
  {
  }

  class InMemoryLedger {
    const history: History
    var ids: seq<string>
    var entries: map<string, Entry>
    var flags: map<string, set<string>>
    var requested: map<string, string>
    var events: map<string, Noted>

    ghost predicate Valid() reads this { Keyed(ids, entries) }

    /** What the ledger holds. */
    ghost function Contents(): Store
      reads this
      requires Valid()
    {
      Store(RowsOf(ids, entries), FlagPairs(flags), requested, events, [])
    }

    constructor (history: History)
      ensures Valid() && this.history == history
      ensures Contents() == Store([], {}, map[], map[], [])
    {
      this.history := history;
      ids, entries, flags, requested, events := [], map[], map[], map[], map[];
    }

    method Record(entry: Entry) returns (stored: Entry)
      requires Valid()
      modifies this
      ensures Valid() && (Contents(), stored) == Ledger.Record(old(Contents()), entry)
    {
      IndexOfKey(ids, entries, entry.id);
      if entry.id in entries {
        return entries[entry.id];
      }
      stored := entry.(spent := if entry.outcome.Approve? then entry.amount else 0,
                       reserved := if entry.outcome.StepUp? && !entry.final then entry.amount else 0);
      InsertKey(ids, entries, stored);
      ids, entries := ids + [entry.id], entries[entry.id := stored];
    }

    method Resolve(id: string, approve: bool, who: Resolver, at: int) returns (error: Option<LedgerError>)
      requires Valid()
      modifies this
      ensures Valid()
      ensures error.None? ==> Ledger.Resolve(old(Contents()), id, approve, who, at) == Ok(Contents())
      ensures error.Some? ==> Ledger.Resolve(old(Contents()), id, approve, who, at) == Err(error.value) && Contents() == old(Contents())
    {
      IndexOfKey(ids, entries, id);
      if id !in entries {
        return Some(UnknownId);
      }
      var entry := entries[id];
      if !entry.outcome.StepUp? || entry.final {
        return Some(NotAwaiting);
      }
      if who.Timeout? && approve {
        return Some(TimeoutMustDecline);
      }
      var outcome := if who.Timeout? then Expired else if approve then Approved else Declined;
      var resolved := entry.(final := true, answer := outcome, reserved := 0,
                             spent := if approve then entry.amount else 0,
                             resolvedAt := Some(at), resolvedBy := who, deadline := None);
      UpdateKey(ids, entries, IndexOf(RowsOf(ids, entries), id).value, resolved);
      entries := entries[id := resolved];
      error := None;
    }

    method SetDeadline(id: string, deadline: int) returns (error: Option<LedgerError>)
      requires Valid()
      modifies this
      ensures Valid()
      ensures error.None? ==> Ledger.SetDeadline(old(Contents()), id, deadline) == Ok(Contents())
      ensures error.Some? ==> Ledger.SetDeadline(old(Contents()), id, deadline) == Err(error.value) && Contents() == old(Contents())
    {
      IndexOfKey(ids, entries, id);
      if id !in entries {
        return Some(UnknownId);
      }
      var entry := entries[id];
      if !entry.outcome.StepUp? || entry.final {
        return Some(NotAwaiting);
      }
      UpdateKey(ids, entries, IndexOf(RowsOf(ids, entries), id).value, entry.(deadline := Some(deadline)));
      entries := entries[id := entry.(deadline := Some(deadline))];
      error := None;
    }

    method NoteEvent(id: string, noted: Noted)
      requires Valid()
      modifies this
      ensures Valid() && Contents() == Ledger.NoteEvent(old(Contents()), id, noted)
    {
      if id !in events {
        events := events[id := noted];
      }
    }

    method FlagMerchant(runId: string, merchantId: string)
      requires Valid()
      modifies this
      ensures Valid() && Contents() == Ledger.FlagMerchant(old(Contents()), runId, merchantId)
    {
      ghost var before := flags;
      flags := flags[runId := (if runId in flags then flags[runId] else {}) + {merchantId}];
      assert FlagPairs(flags) == FlagPairs(before) + {(runId, merchantId)} by {
        forall p ensures p in FlagPairs(flags) <==> p in FlagPairs(before) + {(runId, merchantId)} { }
      }
    }

    method MarkRequestedItem(id: string, item: string)
      requires Valid()
      modifies this
      ensures Valid() && Contents() == Ledger.MarkRequested(old(Contents()), id, item)
    {
      if id !in requested {
        requested := requested[id := item];
      }
    }

    method View(q: Query) returns (view: LedgerView)
      requires Valid()
      ensures view == MemoryView(Contents(), history, q)
    {
      hide Filter, SortByTs, Tally, LastPrices, KeysOf, Fulfilments, PriorsOf, OtherCards, HeldOn, FromParts, Assemble,
        RunBefore, Flagged;
      var run := RunBefore(RowsOf(ids, entries), q);
      var approved := Filter(run, IsSpent);
      var histCard := HeldOn(history.byCard, q.cardId);
      var onCard := TallyApprovals(histCard, approved, q.cardId, true);
      var others := TallyApprovals(OtherCards(HeldOn(history.byCustomer, q.customerId), histCard), approved, q.cardId, false);
      var prices := PricesAfter(history, q.customerId, approved);
      var priors := PriorsOf(SortByTs(run), q.at);
      var flagged := if q.runId in flags then flags[q.runId] else {};
      FlaggedOf(flags, q.runId);
      PartsAssemble(run, priors, Fulfilments(run, requested), KeysOf(run), false, flagged, Contents(), history, q);
      view := FromParts(run, priors, Fulfilments(run, requested), KeysOf(run), false, onCard, others, prices, flagged,
                        events, history, q);
    }
  }

  lemma FlaggedOf(flags: map<string, set<string>>, runId: string)
    ensures Flagged(FlagPairs(flags), runId) == if runId in flags then flags[runId] else {}
  {
    forall m ensures m in Flagged(FlagPairs(flags), runId) <==> runId in flags && m in flags[runId] {
      if runId in flags && m in flags[runId] { assert (runId, m) in FlagPairs(flags); }
    }
  }

  // --- The ledger over the decisions table -------------------------------------------------

  class StoreLedger {
    const history: History
    var decisions: seq<Entry>
    var merchantFlags: seq<(string, string)>
    var requestedItems: map<string, string>
    var eventsRaw: map<string, Noted>
    var runs: seq<RunRow>

    /** What the tables hold. */
    ghost function Contents(): Store
      reads this
    {
      Store(decisions, (set f | f in merchantFlags), requestedItems, eventsRaw, runs)
    }

    constructor (history: History, runs: seq<RunRow>)
      ensures this.history == history && Contents() == Store([], {}, map[], map[], runs)
    {
      this.history := history;
      decisions, merchantFlags, requestedItems, eventsRaw := [], [], map[], map[];
      this.runs := runs;
    }

    /** The decision stored for a live id: none exactly when there is no row for it, and the only
        row when ids are unique. */
    method Get(id: string) returns (entry: Option<Entry>)
      ensures entry.None? <==> forall e :: e in decisions ==> e.id != id
      ensures entry.Some? ==> entry.value in decisions && entry.value.id == id
      ensures UniqueIds(decisions) ==> forall e :: e in decisions && e.id == id ==> entry == Some(e)
      ensures entry == Find(decisions, id)
    {
      entry := Find(decisions, id);
    }

    method Record(entry: Entry) returns (stored: Entry)
      modifies this
      ensures (Contents(), stored) == Ledger.Record(old(Contents()), entry)
    {
      var existing := Get(entry.id);
      if existing.Some? {
        return existing.value;
      }
      stored := entry.(spent := if entry.outcome.Approve? then entry.amount else 0,
                       reserved := if entry.outcome.StepUp? && !entry.final then entry.amount else 0);
      decisions := decisions + [stored];
    }

    method Resolve(id: string, approve: bool, who: Resolver, at: int) returns (error: Option<LedgerError>)
      modifies this
      ensures error.None? ==> Ledger.Resolve(old(Contents()), id, approve, who, at) == Ok(Contents())
      ensures error.Some? ==> Ledger.Resolve(old(Contents()), id, approve, who, at) == Err(error.value) && Contents() == old(Contents())
    {
      var i := IndexOf(decisions, id);
      if i.None? {
        return Some(UnknownId);
      }
      var row := decisions[i.value];
      if !row.outcome.StepUp? || row.final {
        return Some(NotAwaiting);
      }
      if who.Timeout? && approve {
        return Some(TimeoutMustDecline);
      }
      row := row.(final := true);
      row := row.(answer := if who.Timeout? then Expired else if approve then Approved else Declined);
      row := row.(spent := if approve then row.amount else 0);
      row := row.(reserved := 0);
      row := row.(resolvedAt := Some(at), resolvedBy := who, deadline := None);
      decisions := decisions[i.value := row];
      error := None;
    }

    method SetDeadline(id: string, deadline: int) returns (error: Option<LedgerError>)
      modifies this
      ensures error.None? ==> Ledger.SetDeadline(old(Contents()), id, deadline) == Ok(Contents())
      ensures error.Some? ==> Ledger.SetDeadline(old(Contents()), id, deadline) == Err(error.value) && Contents() == old(Contents())
    {
      var i := IndexOf(decisions, id);
      if i.None? {
        return Some(UnknownId);
      }
      if !decisions[i.value].outcome.StepUp? || decisions[i.value].final {
        return Some(NotAwaiting);
      }
      decisions := decisions[i.value := decisions[i.value].(deadline := Some(deadline))];
      error := None;
    }

    /** The event is stored before its purchase is decided, once per live id. */
    method NoteEvent(id: string, noted: Noted)
      modifies this
      ensures Contents() == Ledger.NoteEvent(old(Contents()), id, noted)
    {
      if id !in eventsRaw {
        eventsRaw := eventsRaw[id := noted];
      }
    }

    method FlagMerchant(runId: string, merchantId: string)
      modifies this
      ensures Contents() == Ledger.FlagMerchant(old(Contents()), runId, merchantId)
    {
      merchantFlags := merchantFlags + [(runId, merchantId)];
    }

    method MarkRequestedItem(id: string, item: string)
      modifies this
      ensures Contents() == Ledger.MarkRequested(old(Contents()), id, item)
    {
      if id in requestedItems {
        return;
      }
      requestedItems := requestedItems[id := item];
    }

    method View(q: Query) returns (view: LedgerView)
      ensures view == StoreView(Contents(), history, q)
    {
      hide Filter, SortByTs, Tally, LastPrices, KeysOf, Fulfilments, PriorsOf, OtherCards, HeldOn, FromParts, Assemble,
        RunBefore, Flagged, WatchOn, WatchedDecisions, EarlierDecisions;
      var run := SortByTs(RunBefore(decisions, q));
      var approved := Filter(run, IsSpent);
      var histCard := HeldOn(history.byCard, q.cardId);
      var onCard := TallyApprovals(histCard, approved, q.cardId, true);
      var others := TallyApprovals(OtherCards(HeldOn(history.byCustomer, q.customerId), histCard), approved, q.cardId, false);
      var prices := PricesAfter(history, q.customerId, approved);
      var watch := SessionWatch(q, run);
      var earlier := EarlierOf(q.runId);
      var priors := PriorsOf(run, q.at);
      var flagged := FlaggedIn(merchantFlags, q.runId);
      PartsAssemble(run, priors, Fulfilments(earlier + run, requestedItems), KeysOf(run + earlier), watch, flagged,
                    Contents(), history, q);
      view := FromParts(run, priors, Fulfilments(earlier + run, requestedItems), KeysOf(run + earlier), watch,
                        onCard, others, prices, flagged, eventsRaw, history, q);
    }

    /** The card's decisions in earlier live runs of the mandate, then in this one. */
    method SessionWatch(q: Query, run: seq<Entry>) returns (watch: bool)
      requires run == SortByTs(RunBefore(decisions, q))
      ensures watch == WatchOn(WatchedDecisions(Contents(), q))
    {
      var earlierRuns := EarlierLiveRuns(runs, q.runId);
      watch := FrozenAfter(CardDecisions(decisions, earlierRuns, q.cardId) + Filter(run, (e: Entry) => e.cardId == q.cardId));
    }

    method EarlierOf(runId: string) returns (earlier: seq<Entry>)
      ensures earlier == EarlierDecisions(Contents(), runId)
    {
      hide EarlierLiveRuns, Filter;
      var earlierRuns := EarlierLiveRuns(runs, runId);
      earlier := Filter(decisions, (e: Entry) => e.runId in earlierRuns);
    }
  }

  function FlaggedIn(rows: seq<(string, string)>, runId: string): (flagged: set<string>)
    ensures flagged == Flagged((set f | f in rows), runId)
  {
    set f | f in rows && f.0 == runId :: f.1
  }

  // --- One event in, one decision out -------------------------------------------------------

  /** The lines with what tier 2 read on them, one at a time (tier2.py:285-300). */
  method ReadLines(items: seq<Item>, lines: seq<LineAnswer>, asked: set<Topic>) returns (filled: seq<Item>)
    ensures filled == FilledLines(items, lines, asked)
  {
    filled := [];
    for i := 0 to |items|
      invariant |filled| == i && forall k :: 0 <= k < i ==> filled[k] == FilledLines(items, lines, asked)[k]
    {
      var line := items[i];
      if i < |lines| {
        if Sizes in asked && line.sizeEu.NotKnown? {
          line := line.(sizeEu := lines[i].sizeEu);
        }
        if Sizes in asked && line.sizeLetter.NotKnown? {
          line := line.(sizeLetter := lines[i].sizeLetter);
        }
        if Windows in asked && line.window.NotStated? && lines[i].window.Some? {
          line := line.(window := Stated(lines[i].window.value));
        }
      }
      filled := filled + [line];
    }
  }

  /** `_relevant` (tier2.py:104-116): the topics the unknown rules name, both when they name none. */
  method RelevantTopics(facts: Facts, p: Policy, quoted: map<Rule, set<Topic>>) returns (asked: set<Topic>)
    ensures asked == TopicsAsked(facts, p, quoted)
  {
    hide RuleUnknown, TopicsOf;
    asked := {};
    for i := 0 to |p.rules|
      invariant asked == TopicsNamed(p.rules[..i], facts, p, quoted)
    {
      assert p.rules[..i + 1][..i] == p.rules[..i];
      if RuleUnknown(p.rules[i], facts, p) {
        asked := asked + TopicsOf(p.rules[i], quoted);
      }
    }
    assert p.rules[..|p.rules|] == p.rules;
    if asked == {} {
      asked := {Sizes, Windows};
    }
  }

  /** The stages between the view and the decision: rules, tier 2, ledger results, protections,
      signs, ladder. Returns the settled facts beside it. */
  method RunStages(event: Event, ctx: Context, view: LedgerView) returns (facts: Facts, engine: EngineDecision)
    ensures facts == FactsWith(event, ctx, view)
    ensures engine == EngineFor(facts, ctx.policy, view, ctx.soft)
  {
    hide Decide, EvaluateRules, Protections.Evaluate, WarningSigns, AddLedgerResults, TopicsAsked, FilledLines;
    facts := event.facts.(merchantKnown := event.facts.merchantId in view.knownMerchants);
    var rules := BuildRuleResults(facts, ctx.policy);
    if ctx.tier2.Some? && exists r :: r in rules && r.outcome.Unknown? {
      var asked := RelevantTopics(facts, ctx.policy, ctx.tier2.value.quoted);
      var items := ReadLines(facts.items, ctx.tier2.value.lines, asked);
      facts := facts.(items := items);
      rules := BuildRuleResults(facts, ctx.policy);
    }
    rules := BuildLedgerResults(rules, facts, ctx.policy, view);
    var protections := Protections.Evaluate(facts, ctx.policy, view);
    var warnings := WarningSigns(facts, view, ctx.policy);
    engine := Decide(rules, protections, warnings, ctx.soft, ctx.policy, view.frozen);
  }

  /** `decide_event` and `_record`: note, look up, view, stages, store, flag, mark. */
  method DecideOn(ledger: StoreLedger, event: Event, ctx: Context) returns (decision: EngineDecision)
    requires ledger.history == ctx.history
    modifies ledger
    ensures (ledger.Contents(), decision) == DecideEvent(old(ledger.Contents()), event, ctx)
  {
    hide StoreView, EngineFor, IndexOf, AfterTier2, FactsWith, Protections.HoldsRequested;
    ledger.NoteEvent(event.facts.id, NotedOf(event));
    ghost var noted := ledger.Contents();
    var known := ledger.Get(event.facts.id);
    if known.Some? {
      return FromEntry(known.value);
    }
    var view := ledger.View(QueryFor(event, ctx));
    var facts := event.facts.(merchantKnown := event.facts.merchantId in view.knownMerchants);
    var engine, injected := NO_ACTIVE_POLICY, false;
    if !NoActivePolicy(ctx.policy, event.cardId) {
      facts, engine := RunStages(event, ctx, view);
      injected := facts.instructionsInText;
    }
    ghost var draft := Begin(noted, event, ctx);
    BeginIsNew(noted, event, ctx);
    assert draft == DraftFrom(view, event, ctx);
    assert draft.requested == RequestedBy(facts, ctx.policy);
    assert draft.entry == NewEntry(facts, engine, event, ctx) && draft.injected == injected;
    var stored := ledger.Record(NewEntry(facts, engine, event, ctx));
    if injected {
      ledger.FlagMerchant(ctx.runId, facts.merchantId);
    }
    var requested := RequestedBy(facts, ctx.policy);
    if requested.Some? {
      ledger.MarkRequestedItem(facts.id, requested.value);
    }
    assert ledger.Contents() == Commit(noted, draft);
    assert FromEntry(stored) == FromEntry(draft.entry);
    decision := FromEntry(stored);
  }

  // --- Closing a step-up (offline.py:325-357) ------------------------------------------------

  /** The customer's answer: refused when unknown, already closed, or at or after the deadline. */
  method AnswerStepUp(ledger: StoreLedger, id: string, approve: bool, now: int) returns (error: Option<LedgerError>)
    modifies ledger
    ensures error.None? ==> CustomerAnswer(old(ledger.Contents()), id, approve, now) == Ok(ledger.Contents())
    ensures error.Some? ==>
      CustomerAnswer(old(ledger.Contents()), id, approve, now) == Err(error.value) && ledger.Contents() == old(ledger.Contents())
  {
    hide IndexOf;
    var entry := ledger.Get(id);
    if entry.None? {
      return Some(UnknownId);
    }
    if !entry.value.outcome.StepUp? || entry.value.final {
      return Some(NotAwaiting);
    }
    if entry.value.deadline.Some? && now >= entry.value.deadline.value {
      return Some(LedgerError.WindowClosed);
    }
    error := ledger.Resolve(id, approve, Customer, now);
  }

  /** The timeout: false, and nothing done, when the step-up is unknown or already closed. */
  method ExpireStepUp(ledger: StoreLedger, id: string, now: int) returns (expired: bool)
    modifies ledger
    ensures expired <==> Expire(old(ledger.Contents()), id, now).Ok?
    ensures expired ==> Expire(old(ledger.Contents()), id, now) == Ok(ledger.Contents())
    ensures !expired ==> ledger.Contents() == old(ledger.Contents())
  {
    hide IndexOf;
    var entry := ledger.Get(id);
    if entry.None? || !entry.value.outcome.StepUp? || entry.value.final {
      return false;
    }
    var error := ledger.Resolve(id, false, Timeout, now);
    expired := error.None?;
  }
}
