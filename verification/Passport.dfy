/** The passport's version chain (backend/oneguard/passport/book.py:89-179): several processes
    compare each mandate with its latest version and insert the next one; a key that is already
    taken rolls the whole transaction back. */
module Passport {
  import opened Seqs

  /** What a passport states: everything a new version does not change by itself. */
  datatype Content = Content(states: string, revokedAt: Option<int>)
  datatype Version = Version(content: Content, issuedAt: int, supersededAt: Option<int>)

  /** The mandate, its rules and the card's devices as one text; `states` stands for all of it. */
  datatype Mandate = Mandate(passportId: string, active: bool, revokedAt: Option<int>, states: string)

  type Table = map<(string, nat), Version>

  /** A transaction that has compared and not yet committed: the version it read, and the next. */
  datatype Pending = Pending(id: string, base: Option<(nat, Version)>, version: nat, row: Version)

  /** The table and each process's open transaction. */
  datatype Book = Book(table: Table, open: map<nat, Pending>)

  // --- One transaction -------------------------------------------------------------------------

  ghost predicate IsLatest(table: Table, id: string, k: nat) {
    (id, k) in table && forall j: nat :: (id, j) in table ==> j <= k
  }

  /** `ORDER BY version DESC LIMIT 1`. */
  ghost predicate Reads(table: Table, id: string, latest: Option<(nat, Version)>) {
    match latest
    case None => forall j: nat :: (id, j) !in table
    case Some(l) => IsLatest(table, id, l.0) && table[(id, l.0)] == l.1
  }

  function ContentOf(m: Mandate, now: int): Content {
    Content(m.states, if m.active then None else if m.revokedAt.Some? then m.revokedAt else Some(now))
  }

  /** The version due, if any: none for a policy revoked before it had a passport, none after a
      revoked version, none while the content is the same. */
  function Compare(latest: Option<(nat, Version)>, m: Mandate, now: int): (due: Option<Pending>) {
    if latest.None? && !m.active then None
    else if latest.Some? && latest.value.1.content.revokedAt.Some? then None
    else if latest.Some? && latest.value.1.content == ContentOf(m, now) then None
    else Some(Pending(m.passportId, latest, if latest.Some? then latest.value.0 + 1 else 1,
                      Version(ContentOf(m, now), now, None)))
  }

  /** A version is due exactly for a mandate that is active or had one, whose last version is not revoked
      and does not already say the same; it says the mandate's state, and its end once it is over. */
  lemma DueIff(latest: Option<(nat, Version)>, m: Mandate, now: int)
    ensures Compare(latest, m, now).Some? <==>
      && (m.active || latest.Some?)
      && (latest.Some? ==>
            && latest.value.1.content.revokedAt.None?
            && (latest.value.1.content.states != m.states || !m.active))
    ensures Compare(latest, m, now).Some? ==>
      var due := Compare(latest, m, now).value;
      && due.id == m.passportId && due.row.issuedAt == now && due.row.supersededAt.None? && due.row.content.states == m.states
      && due.row.content.revokedAt == (if m.active then None else if m.revokedAt.None? then Some(now) else m.revokedAt)
      && due.version == (if latest.None? then 1 else latest.value.0 + 1)
  {
  }

  /** The version read is marked superseded and the next one inserted, together. */
  function Issue(table: Table, p: Pending): Table {
    var closed := if p.base.Some? && (p.id, p.base.value.0) in table
                  then table[(p.id, p.base.value.0) := table[(p.id, p.base.value.0)].(supersededAt := Some(p.row.issuedAt))]
                  else table;
    closed[(p.id, p.version) := p.row]
  }

  /** A commit: the insert fails, and nothing is written, when the version exists. */
  function CommitTo(table: Table, p: Pending): Table {
    if (p.id, p.version) in table then table else Issue(table, p)
  }

  // --- Processes interleaved ---------------------------------------------------------------------

  /** A process reads the latest version and compares it with the mandate as it saw it. */
  ghost predicate CompareStep(b: Book, b': Book, process: nat, m: Mandate, now: int) {
    exists latest :: Reads(b.table, m.passportId, latest)
      && b' == (match Compare(latest, m, now)
                case None => b.(open := b.open - {process})
                case Some(p) => b.(open := b.open[process := p]))
  }

  ghost predicate CommitStep(b: Book, b': Book, process: nat) {
    process in b.open && b' == Book(CommitTo(b.table, b.open[process]), b.open - {process})
  }

  ghost predicate BookStep(b: Book, b': Book) {
    || (exists process, m, now :: CompareStep(b, b', process, m, now))
    || (exists process :: CommitStep(b, b', process))
  }

  /** A run of any number of processes from an empty table. */
  ghost predicate IsRun(books: seq<Book>) {
    && books != [] && books[0] == Book(map[], map[])
    && forall i :: 0 <= i < |books| - 1 ==> BookStep(books[i], books[i + 1])
  }

  // --- The chain ------------------------------------------------------------------------------------

  /** One version among its neighbours: its predecessor exists, it is superseded exactly when a
      next one exists, and only a last one can be revoked. */
  ghost predicate Linked(table: Table, id: string, k: nat)
    requires (id, k) in table
  {
    && k >= 1 && (k > 1 ==> (id, k - 1) in table)
    && ((id, k + 1) in table <==> table[(id, k)].supersededAt.Some?)
    && ((id, k + 1) in table ==> table[(id, k)].content.revokedAt.None?)
  }

  ghost predicate Chained(table: Table) {
    forall id, k: nat :: (id, k) in table ==> Linked(table, id, k)
  }

  /** What an open transaction rests on is still in the table, revoked or superseded or not. */
  ghost predicate Rests(table: Table, p: Pending) {
    && p.row.supersededAt.None?
    && (p.base.None? ==> p.version == 1)
    && (p.base.Some? ==>
          && p.version == p.base.value.0 + 1 && (p.id, p.base.value.0) in table
          && table[(p.id, p.base.value.0)].content == p.base.value.1.content && p.base.value.1.content.revokedAt.None?)
  }

  ghost predicate Consistent(b: Book) {
    Chained(b.table) && forall process :: process in b.open ==> Rests(b.table, b.open[process])
  }

  lemma NoneAfter(table: Table, id: string, k: nat)
    requires Chained(table) && k >= 1 && (id, k) !in table
    ensures (id, k + 1) !in table
  {
  }

  /** The new version follows the one it rests on. */
  lemma NewLinked(table: Table, p: Pending)
    requires Chained(table) && Rests(table, p) && (p.id, p.version) !in table
    ensures Linked(Issue(table, p), p.id, p.version)
  {
    NoneAfter(table, p.id, p.version);
    if p.base.Some? { BaseLinked(table, p); }
  }

  lemma BaseLinked(table: Table, p: Pending)
    requires Chained(table) && Rests(table, p) && p.base.Some?
    ensures Linked(table, p.id, p.base.value.0)
  {
  }

  lemma OldLinked(table: Table, p: Pending, id: string, k: nat)
    requires Rests(table, p) && (p.id, p.version) !in table && (id, k) in table && Linked(table, id, k)
    ensures (id, k) in Issue(table, p) && Linked(Issue(table, p), id, k)
  {
  }

  lemma IssueChained(table: Table, p: Pending)
    requires Chained(table) && Rests(table, p) && (p.id, p.version) !in table
    ensures Chained(Issue(table, p))
  {
    hide Issue, Linked, Rests;
    var next := Issue(table, p);
    NewLinked(table, p);
    forall id, k: nat | (id, k) in next ensures Linked(next, id, k) {
      if (id, k) != (p.id, p.version) {
        IssuedBefore(table, p, id, k);
        OldLinked(table, p, id, k);
      }
    }
  }

  lemma IssuedBefore(table: Table, p: Pending, id: string, k: nat)
    requires (id, k) in Issue(table, p) && (id, k) != (p.id, p.version)
    ensures (id, k) in table
  {
  }

  lemma IssueKeeps(table: Table, p: Pending, other: Pending)
    requires Rests(table, other)
    requires (p.id, p.version) !in table
    ensures Rests(Issue(table, p), other)
  {
  }

  lemma StepConsistent(b: Book, b': Book)
    requires Consistent(b) && BookStep(b, b')
    ensures Consistent(b')
  {
    if process, m, now :| CompareStep(b, b', process, m, now) {
    } else {
      var process :| CommitStep(b, b', process);
      var p := b.open[process];
      if (p.id, p.version) !in b.table {
        IssueChained(b.table, p);
        forall other | other in b'.open ensures Rests(b'.table, b'.open[other]) {
          IssueKeeps(b.table, p, b.open[other]);
        }
      }
    }
  }

  lemma {:induction false} RunConsistent(books: seq<Book>, i: nat)
    requires IsRun(books) && i < |books|
    ensures Consistent(books[i])
  {
    if i > 0 {
      RunConsistent(books, i - 1);
      assert BookStep(books[i - 1], books[i - 1 + 1]);
      StepConsistent(books[i - 1], books[i]);
    }
  }

  lemma {:induction false} DownTo(table: Table, id: string, k: nat, j: nat)
    requires Chained(table) && (id, k) in table && 1 <= j <= k
    ensures (id, j) in table
    decreases k - j
  {
    assert Linked(table, id, k);
    if j < k {
      DownTo(table, id, k, j + 1);
      assert Linked(table, id, j + 1);
    }
  }

  /** The versions of a passport are 1..n without a gap; all but the last are superseded, and
      only the last can be revoked. */
  ghost predicate IsChain(table: Table, id: string, n: nat) {
    && (forall k: nat :: (id, k) in table <==> 1 <= k <= n)
    && (forall k: nat :: 1 <= k < n && (id, k) in table ==> table[(id, k)].supersededAt.Some? && table[(id, k)].content.revokedAt.None?)
    && (n >= 1 && (id, n) in table ==> table[(id, n)].supersededAt.None?)
  }

  /** In every reachable state, whatever the interleaving, each passport is a chain. */
  lemma AlwaysAChain(books: seq<Book>, i: nat, id: string)
    requires IsRun(books) && i < |books|
    ensures exists n: nat :: IsChain(books[i].table, id, n)
  {
    RunConsistent(books, i);
    var table := books[i].table;
    if k: nat :| (id, k) in table {
      var n := Highest(table, id, k);
      forall j: nat | 1 <= j <= n ensures (id, j) in table { DownTo(table, id, n, j); }
      forall j: nat | (id, j) in table ensures j >= 1 { assert Linked(table, id, j); }
      forall j: nat | 1 <= j < n ensures table[(id, j)].supersededAt.Some? && table[(id, j)].content.revokedAt.None? {
        assert Linked(table, id, j) && (id, j + 1) in table;
      }
      assert Linked(table, id, n);
      assert IsChain(table, id, n);
    } else {
      assert IsChain(table, id, 0);
    }
  }

  function Above(table: Table, id: string, k: nat): set<(string, nat)> {
    set x | x in table.Keys && x.0 == id && x.1 > k
  }

  lemma {:induction false} Highest(table: Table, id: string, k: nat) returns (n: nat)
    requires (id, k) in table
    ensures IsLatest(table, id, n)
    decreases |Above(table, id, k)|
  {
    if Above(table, id, k) == {} {
      n := k;
      assert forall j: nat :: (id, j) in Above(table, id, k) <==> (id, j) in table && j > k;
    } else {
      var x :| x in Above(table, id, k);
      assert Above(table, id, x.1) <= Above(table, id, k) - {x};
      SubsetSize(Above(table, id, x.1), Above(table, id, k) - {x});
      n := Highest(table, id, x.1);
    }
  }

  lemma FewerAbove(table: Table, id: string, k: nat)
    requires (id, k + 1) in table
    ensures |Above(table, id, k + 1)| < |Above(table, id, k)|
  {
    assert (id, k + 1) in Above(table, id, k) && (id, k + 1) !in Above(table, id, k + 1);
    SmallerSet(Above(table, id, k + 1), Above(table, id, k));
  }

  lemma SmallerSet<T>(a: set<T>, b: set<T>)
    requires a < b
    ensures |a| < |b|
  {
    var x :| x in b && x !in a;
    SubsetSize(a, b - {x});
  }

  /** Counting up stops at the highest version. */
  lemma LastFound(table: Table, id: string, n: nat)
    requires Chained(table) && (id, n + 1) !in table && (n > 0 ==> (id, n) in table)
    ensures Reads(table, id, if n == 0 then None else Some((n, table[(id, n)])))
  {
    hide Chained;
    forall j: nat | (id, j) in table ensures 1 <= j <= n {
      assert j >= 1 by { assert Linked(table, id, j) by { ChainedAt(table, id, j); } }
      if j > n { DownTo(table, id, j, n + 1); }
    }
  }

  lemma ChainedAt(table: Table, id: string, k: nat)
    requires Chained(table) && (id, k) in table
    ensures Linked(table, id, k)
  {
  }

  // --- A version, once issued ------------------------------------------------------------------------

  /** What later transactions may do to a version: mark it superseded, once it was the last. */
  ghost predicate Kept(before: Version, after: Version) {
    after == before || (before.content.revokedAt.None? && after == before.(supersededAt := after.supersededAt))
  }

  /** Versions are never rewritten or removed, and a revoked one never changes nor is followed. */
  lemma IssuedStays(books: seq<Book>, i: nat, key: (string, nat))
    requires IsRun(books) && i + 1 < |books| && key in books[i].table
    ensures key in books[i + 1].table && Kept(books[i].table[key], books[i + 1].table[key])
    ensures books[i].table[key].content.revokedAt.Some? ==> (key.0, key.1 + 1) !in books[i + 1].table
  {
    RunConsistent(books, i);
    RunConsistent(books, i + 1);
    var b, b' := books[i], books[i + 1];
    assert BookStep(b, b');
    if process, m, now :| CompareStep(b, b', process, m, now) {
    } else {
      var process :| CommitStep(b, b', process);
      assert Rests(b.table, b.open[process]);
    }
    assert Linked(b'.table, key.0, key.1);
  }

  /** The table once a mandate was compared with its latest version. */
  function AfterSync(table: Table, latest: Option<(nat, Version)>, m: Mandate, now: int): Table {
    match Compare(latest, m, now)
    case None => table
    case Some(p) => CommitTo(table, p)
  }

  ghost predicate IsDue(table: Table, m: Mandate, now: int) {
    exists latest :: Reads(table, m.passportId, latest) && Compare(latest, m, now).Some?
  }

  /** Comparing the mandate, at any time, finds nothing to issue. */
  ghost predicate Settled(table: Table, m: Mandate) {
    forall later :: !IsDue(table, m, later)
  }

  /** Synced is synced: once a mandate was compared, whether or not a version was issued, comparing
      it again finds nothing to issue, at any later time and in any process. */
  lemma SecondSyncIssuesNothing(table: Table, m: Mandate, now: int, latest: Option<(nat, Version)>)
    requires Chained(table) && Reads(table, m.passportId, latest)
    ensures Settled(AfterSync(table, latest, m, now), m)
  {
    hide Chained, Reads;
    var after := AfterSync(table, latest, m, now);
    forall later ensures !IsDue(after, m, later) {
      forall again | Reads(after, m.passportId, again) ensures Compare(again, m, later) == None {
        ReadAgain(table, m, now, latest, again);
      }
    }
  }

  /** What is read after a sync: the version just issued, or the one read before. */
  lemma ReadAgain(table: Table, m: Mandate, now: int, latest: Option<(nat, Version)>, again: Option<(nat, Version)>)
    requires Chained(table) && Reads(table, m.passportId, latest)
    requires Reads(AfterSync(table, latest, m, now), m.passportId, again)
    ensures again == (match Compare(latest, m, now) case None => latest case Some(p) => Some((p.version, p.row)))
  {
    hide Chained;
    match Compare(latest, m, now)
    case None => OneLatest(table, m.passportId, latest, again);
    case Some(p) =>
      assert (p.id, p.version) !in table;
      assert (p.id, p.version) in CommitTo(table, p);
      forall j: nat | (p.id, j) in CommitTo(table, p) ensures j <= p.version { }
  }

  lemma OneLatest(table: Table, id: string, a: Option<(nat, Version)>, b: Option<(nat, Version)>)
    requires Reads(table, id, a) && Reads(table, id, b)
    ensures a == b
  {
  }

  /** What one undisturbed sync of a mandate does: issue the version due, or nothing. */
  ghost predicate Synced(before: Table, after: Table, latest: Option<(nat, Version)>, m: Mandate, now: int, issued: nat) {
    && Reads(before, m.passportId, latest)
    && issued == (if Compare(latest, m, now).Some? then 1 else 0)
    && after == AfterSync(before, latest, m, now)
  }

  // --- A whole sweep ----------------------------------------------------------------------------------

  /** The two tables hold the same versions of this passport. */
  ghost predicate SamePassport(before: Table, after: Table, id: string) {
    forall k: nat :: ((id, k) in before <==> (id, k) in after) && ((id, k) in before ==> after[(id, k)] == before[(id, k)])
  }

  lemma SameReads(before: Table, after: Table, id: string, latest: Option<(nat, Version)>)
    requires SamePassport(before, after, id)
    ensures Reads(before, id, latest) <==> Reads(after, id, latest)
  {
  }

  lemma SameDue(before: Table, after: Table, m: Mandate)
    requires SamePassport(before, after, m.passportId)
    ensures forall now :: IsDue(before, m, now) == IsDue(after, m, now)
    ensures Settled(before, m) == Settled(after, m)
  {
    hide SamePassport, Reads;
    forall latest ensures Reads(before, m.passportId, latest) <==> Reads(after, m.passportId, latest) {
      SameReads(before, after, m.passportId, latest);
    }
  }

  lemma OthersStay(table: Table, latest: Option<(nat, Version)>, m: Mandate, now: int, id: string)
    requires id != m.passportId
    ensures SamePassport(table, AfterSync(table, latest, m, now), id)
  {
  }

  /** The mandate's passport after the sweep: as comparing it with its latest version leaves it. */
  ghost predicate Updated(before: Table, after: Table, m: Mandate, now: int) {
    exists latest :: Reads(before, m.passportId, latest) && SamePassport(AfterSync(before, latest, m, now), after, m.passportId)
  }

  ghost function DueCount(table: Table, mandates: seq<Mandate>, now: int): nat {
    if mandates == [] then 0
    else DueCount(table, mandates[..|mandates| - 1], now) + if IsDue(table, mandates[|mandates| - 1], now) then 1 else 0
  }

  ghost predicate DistinctPassports(mandates: seq<Mandate>) {
    forall i, j :: 0 <= i < j < |mandates| ==> mandates[i].passportId != mandates[j].passportId
  }

  /** A sweep that has reached the i-th mandate. */
  ghost predicate SweptTo(before: Table, after: Table, mandates: seq<Mandate>, i: nat, now: int)
    requires i <= |mandates|
  {
    && (forall k :: 0 <= k < i ==> Updated(before, after, mandates[k], now) && Settled(after, mandates[k]))
    && (forall id :: (forall k :: 0 <= k < i ==> mandates[k].passportId != id) ==> SamePassport(before, after, id))
  }

  lemma SweptNext(before: Table, mid: Table, after: Table, mandates: seq<Mandate>, i: nat, now: int, n: nat)
    requires i < |mandates| && DistinctPassports(mandates) && SweptTo(before, mid, mandates, i, now) && Chained(mid)
    requires exists latest :: Synced(mid, after, latest, mandates[i], now, n)
    ensures SweptTo(before, after, mandates, i + 1, now)
    ensures n == if IsDue(before, mandates[i], now) then 1 else 0
  {
    hide SamePassport, Reads, Settled, Chained, AfterSync;
    var m := mandates[i];
    var latest :| Synced(mid, after, latest, m, now, n);
    assert SamePassport(before, mid, m.passportId);
    SecondSyncIssuesNothing(mid, m, now, latest);
    OneUpdated(before, mid, after, m, now, latest);
    forall k | 0 <= k < i ensures Updated(before, after, mandates[k], now) && Settled(after, mandates[k]) {
      OthersStay(mid, latest, m, now, mandates[k].passportId);
      StaysUpdated(before, mid, after, mandates[k], now);
    }
    forall id | forall k :: 0 <= k < i + 1 ==> mandates[k].passportId != id ensures SamePassport(before, after, id) {
      OthersStay(mid, latest, m, now, id);
      SameTwice(before, mid, after, id);
    }
  }

  lemma SameTwice(before: Table, mid: Table, after: Table, id: string)
    requires SamePassport(before, mid, id) && SamePassport(mid, after, id)
    ensures SamePassport(before, after, id)
  {
  }

  lemma StaysUpdated(before: Table, mid: Table, after: Table, m: Mandate, now: int)
    requires Updated(before, mid, m, now) && Settled(mid, m) && SamePassport(mid, after, m.passportId)
    ensures Updated(before, after, m, now) && Settled(after, m)
  {
    hide SamePassport, Reads, AfterSync;
    var latest :| Reads(before, m.passportId, latest) && SamePassport(AfterSync(before, latest, m, now), mid, m.passportId);
    SameTwice(AfterSync(before, latest, m, now), mid, after, m.passportId);
    SameDue(mid, after, m);
  }

  lemma OneUpdated(before: Table, mid: Table, after: Table, m: Mandate, now: int, latest: Option<(nat, Version)>)
    requires SamePassport(before, mid, m.passportId) && Reads(mid, m.passportId, latest) && after == AfterSync(mid, latest, m, now)
    ensures Updated(before, after, m, now)
    ensures IsDue(before, m, now) <==> Compare(latest, m, now).Some?
  {
    hide Reads;
    SameReads(before, mid, m.passportId, latest);
    assert SamePassport(AfterSync(before, latest, m, now), after, m.passportId);
    forall other | Reads(before, m.passportId, other) ensures other == latest { OneLatest(before, m.passportId, other, latest); }
  }

  lemma DueNext(table: Table, mandates: seq<Mandate>, i: nat, now: int)
    requires i < |mandates|
    ensures DueCount(table, mandates[..i + 1], now) == DueCount(table, mandates[..i], now) + if IsDue(table, mandates[i], now) then 1 else 0
  {
    assert mandates[..i + 1][..i] == mandates[..i];
  }

  lemma {:induction false} NoneDue(table: Table, mandates: seq<Mandate>, now: int)
    requires forall m :: m in mandates ==> Settled(table, m)
    ensures DueCount(table, mandates, now) == 0
  {
    if mandates != [] {
      var n := |mandates| - 1;
      assert mandates[n] in mandates;
      NoneDue(table, mandates[..n], now);
    }
  }

  // --- One process, as the source runs it --------------------------------------------------------------

  class PassportBook {
    var table: Table

    constructor ()
      ensures table == map[]
    {
      table := map[];
    }

    /** The latest version of a passport, counting up from 1: the chain has no gaps. */
    method LatestOf(id: string) returns (latest: Option<(nat, Version)>)
      requires Chained(table)
      ensures Reads(table, id, latest)
    {
      hide Chained, Reads;
      var n: nat := 0;
      while (id, n + 1) in table
        invariant n > 0 ==> (id, n) in table
        decreases |Above(table, id, n)|
      {
        FewerAbove(table, id, n);
        n := n + 1;
      }
      LastFound(table, id, n);
      latest := if n == 0 then None else Some((n, table[(id, n)]));
    }

    /** Brings one mandate's passport up to date; returns how many versions were issued. */
    method SyncPassport(m: Mandate, now: int) returns (issued: nat)
      requires Chained(table)
      modifies this
      ensures Chained(table)
      ensures exists latest :: Synced(old(table), table, latest, m, now, issued)
    {
      var latest := LatestOf(m.passportId);
      var due := Compare(latest, m, now);
      if due.None? {
        assert Synced(table, table, latest, m, now, 0);
        return 0;
      }
      assert (due.value.id, due.value.version) !in table;
      IssueChained(table, due.value);
      table := Issue(table, due.value);
      issued := 1;
      assert Synced(old(table), table, latest, m, now, issued);
    }

    /** Every mandate once, counting the versions issued: each passport is brought up to date, no
        other is touched, and none is due any more. */
    method SyncPassports(mandates: seq<Mandate>, now: int) returns (issued: nat)
      requires Chained(table) && DistinctPassports(mandates)
      modifies this
      ensures Chained(table)
      ensures issued == DueCount(old(table), mandates, now)
      ensures |table.Keys| == |old(table.Keys)| + issued && old(table.Keys) <= table.Keys
      ensures SweptTo(old(table), table, mandates, |mandates|, now)
      ensures issued == 0 ==> table == old(table)
    {
      hide Chained, SweptTo, DueCount, Synced;
      issued := 0;
      NothingSwept(table, mandates, now);
      for i := 0 to |mandates|
        invariant Chained(table) && issued == DueCount(old(table), mandates[..i], now)
        invariant |table.Keys| == |old(table.Keys)| + issued && old(table.Keys) <= table.Keys
        invariant SweptTo(old(table), table, mandates, i, now)
        invariant issued == 0 ==> table == old(table)
      {
        ghost var before := table;
        var n := SyncPassport(mandates[i], now);
        GrowsBy(before, table, mandates[i], now, n);
        SweptNext(old(table), before, table, mandates, i, now, n);
        DueNext(old(table), mandates, i, now);
        issued := issued + n;
      }
      assert mandates[..|mandates|] == mandates;
    }

    /** A second sweep over the same mandates, at any later time, issues nothing and changes nothing. */
    method SyncTwice(mandates: seq<Mandate>, now: int, later: int) returns (first: nat, again: nat, ghost between: Table)
      requires Chained(table) && DistinctPassports(mandates)
      modifies this
      ensures first == DueCount(old(table), mandates, now) && SweptTo(old(table), between, mandates, |mandates|, now)
      ensures again == 0 && table == between
    {
      hide Chained, DueCount, Settled, Updated;
      first := SyncPassports(mandates, now);
      between := table;
      NoneDue(table, mandates, later);
      again := SyncPassports(mandates, later);
    }
  }

  lemma NothingSwept(table: Table, mandates: seq<Mandate>, now: int)
    ensures SweptTo(table, table, mandates, 0, now) && DueCount(table, mandates[..0], now) == 0
  {
  }

  /** A sync that issues a version adds exactly one row. */
  lemma GrowsBy(before: Table, after: Table, m: Mandate, now: int, n: nat)
    requires Chained(before)
    requires exists latest :: Synced(before, after, latest, m, now, n)
    ensures |after.Keys| == |before.Keys| + n && before.Keys <= after.Keys
    ensures n == 0 ==> after == before
  {
    var latest :| Synced(before, after, latest, m, now, n);
    match Compare(latest, m, now)
    case None =>
    case Some(p) =>
      assert (p.id, p.version) !in before;
      assert after.Keys == before.Keys + {(p.id, p.version)};
  }
}
