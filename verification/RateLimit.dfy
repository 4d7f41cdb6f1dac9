/** The draft limiter (backend/oneguard/api/ratelimit.py): a deque per key that stands for the
    whole history of accepted calls. The source reads its clock before it takes the lock, so the
    readings of a key may overtake each other; how far they do is a parameter of what is proved. */
module RateLimit {
  import opened Seqs

  /** The answer to one call. `NoOldest` is the source's IndexError on an empty deque. */
  datatype Verdict = Accepted | Wait(seconds: real) | NoOldest

  predicate Recent(t: real, now: real, window: real) { now - t < window }

  /** The accepted calls still in the window at `now`. */
  function InWindow(history: seq<real>, now: real, window: real): seq<real> {
    Filter(history, (t: real) => Recent(t, now, window))
  }

  ghost predicate Nondecreasing(s: seq<real>) { forall i, j :: 0 <= i < j < |s| ==> s[i] <= s[j] }

  // --- The window is a tail of the history -----------------------------------------------

  lemma {:induction false} WindowIsTail(history: seq<real>, k: nat, now: real, window: real)
    requires k <= |history|
    requires forall i :: 0 <= i < k ==> !Recent(history[i], now, window)
    requires forall i :: k <= i < |history| ==> Recent(history[i], now, window)
    ensures InWindow(history, now, window) == history[k..]
    decreases |history|
  {
    hide InWindow, Recent;
    if history == [] {
      NoneInWindow(now, window);
    } else {
      var init, last := history[..|history| - 1], history[|history| - 1];
      assert history == init + [last];
      InWindowNext(init, last, now, window);
      if k == |history| {
        WindowIsTail(init, k - 1, now, window);
      } else {
        WindowIsTail(init, k, now, window);
        assert history[k..] == init[k..] + [last];
      }
    }
  }

  lemma NoneInWindow(now: real, window: real)
    ensures InWindow([], now, window) == []
  {
  }

  lemma InWindowNext(init: seq<real>, last: real, now: real, window: real)
    ensures InWindow(init + [last], now, window) == if Recent(last, now, window) then InWindow(init, now, window) + [last] else InWindow(init, now, window)
  {
    FilterAppend(init, last, (t: real) => Recent(t, now, window));
  }

  lemma {:induction false} Cut(history: seq<real>, now: real, window: real) returns (k: nat)
    requires Nondecreasing(history)
    ensures k <= |history|
    ensures forall i :: 0 <= i < k ==> !Recent(history[i], now, window)
    ensures forall i :: k <= i < |history| ==> Recent(history[i], now, window)
    ensures InWindow(history, now, window) == history[k..]
    decreases |history|
  {
    hide InWindow;
    var n := |history|;
    if n == 0 || !Recent(history[n - 1], now, window) {
      k := n;
    } else {
      k := Cut(history[..n - 1], now, window);
    }
    WindowIsTail(history, k, now, window);
  }

  lemma {:induction false} WindowShrinks(history: seq<real>, now: real, later: real, window: real)
    requires now <= later
    ensures |InWindow(history, later, window)| <= |InWindow(history, now, window)|
  {
    if history != [] {
      WindowShrinks(history[..|history| - 1], now, later, window);
    }
  }

  // --- No window overflows ----------------------------------------------------------------

  predicate Between(t: real, from: real, to: real) { from <= t < to }

  function CallsBetween(history: seq<real>, from: real, to: real): seq<real> {
    Filter(history, (t: real) => Between(t, from, to))
  }

  /** Each accepted call found fewer than `limit` others in its window. */
  ghost predicate WithinLimit(history: seq<real>, limit: int, window: real) {
    forall k :: 0 <= k < |history| ==> FoundRoom(history, k, limit, window)
  }

  ghost predicate FoundRoom(history: seq<real>, k: nat, limit: int, window: real)
    requires k < |history|
  {
    |InWindow(history[..k + 1], history[k], window)| <= limit
  }

  lemma {:induction false} FilterAtMost(history: seq<real>, p: real -> bool, q: real -> bool)
    requires forall t :: t in history && p(t) ==> q(t)
    ensures |Filter(history, p)| <= |Filter(history, q)|
  {
    if history != [] {
      var last := history[|history| - 1];
      assert history == history[..|history| - 1] + [last];
      FilterAtMost(history[..|history| - 1], p, q);
      assert p(last) ==> q(last);
    }
  }

  lemma PrefixWithin(history: seq<real>, n: nat, limit: int, window: real)
    requires n <= |history| && Nondecreasing(history) && WithinLimit(history, limit, window)
    ensures Nondecreasing(history[..n]) && WithinLimit(history[..n], limit, window)
  {
    hide InWindow;
    forall k | 0 <= k < n ensures FoundRoom(history[..n], k, limit, window) {
      assert FoundRoom(history, k, limit, window) && history[..n][..k + 1] == history[..k + 1];
    }
  }

  lemma WindowOfLast(history: seq<real>, window: real, from: real)
    requires history != [] && Nondecreasing(history) && Between(history[|history| - 1], from, from + window)
    ensures |CallsBetween(history, from, from + window)| <= |InWindow(history, history[|history| - 1], window)|
  {
    FilterAtMost(history, (t: real) => Between(t, from, from + window), (t: real) => Recent(t, history[|history| - 1], window));
  }

  /** Any window of that length, wherever it starts, holds at most `limit` accepted calls. */
  lemma {:induction false} NoWindowOverflows(history: seq<real>, limit: int, window: real, from: real)
    requires Nondecreasing(history) && WithinLimit(history, limit, window) && limit >= 0
    ensures |CallsBetween(history, from, from + window)| <= limit
    decreases |history|
  {
    hide WithinLimit, InWindow;
    if history != [] {
      var n := |history| - 1;
      assert history == history[..n] + [history[n]];
      if Between(history[n], from, from + window) {
        WindowOfLast(history, window, from);
        LastWithin(history, limit, window);
      } else {
        PrefixWithin(history, n, limit, window);
        FilterAppend(history[..n], history[n], (t: real) => Between(t, from, from + window));
        NoWindowOverflows(history[..n], limit, window, from);
      }
    }
  }

  lemma LastWithin(history: seq<real>, limit: int, window: real)
    requires history != [] && WithinLimit(history, limit, window)
    ensures |InWindow(history, history[|history| - 1], window)| <= limit
  {
    assert FoundRoom(history, |history| - 1, limit, window) && history[..|history| - 1 + 1] == history;
  }

  // --- Readings that overtake each other ---------------------------------------------------

  /** No reading is more than `skew` behind one that reached the lock before it. */
  ghost predicate Overtakes(asked: seq<real>, skew: real) {
    forall i, j :: 0 <= i < j < |asked| ==> asked[i] - skew <= asked[j]
  }

  /** Each accepted call found fewer than `limit` kept, and those no longer kept had left its window,
      up to the skew. */
  ghost predicate Roomy(history: seq<real>, limit: int, window: real, skew: real) {
    forall k :: 0 <= k < |history| ==> HasRoom(history, k, limit, window, skew)
  }

  ghost predicate HasRoom(history: seq<real>, k: int, limit: int, window: real, skew: real)
    requires 0 <= k < |history|
  {
    exists c :: RoomAt(history, k, c, limit, window, skew)
  }

  ghost predicate RoomAt(history: seq<real>, k: int, c: int, limit: int, window: real, skew: real)
    requires 0 <= k < |history|
  {
    0 <= c <= k && k - c < limit && forall i :: 0 <= i < c ==> history[i] <= history[k] + skew - window
  }

  lemma {:induction false} NoneInPrefix(history: seq<real>, c: nat, from: real, to: real)
    requires c <= |history| && forall i :: 0 <= i < c ==> !Between(history[i], from, to)
    ensures |CallsBetween(history, from, to)| <= |history| - c
    decreases |history|
  {
    if history != [] {
      var n := |history| - 1;
      assert history == history[..n] + [history[n]];
      FilterAppend(history[..n], history[n], (t: real) => Between(t, from, to));
      NoneInPrefix(history[..n], if c > n then n else c, from, to);
    }
  }

  /** A window shorter by the skew never overflows. */
  lemma {:induction false} RoomyHolds(history: seq<real>, limit: int, window: real, skew: real, from: real)
    requires Roomy(history, limit, window, skew) && limit >= 0
    ensures |CallsBetween(history, from, from + window - skew)| <= limit
    decreases |history|
  {
    hide CallsBetween;
    var to := from + window - skew;
    if history == [] {
      NoneInPrefix(history, 0, from, to);
    } else {
      var n := |history| - 1;
      var init, last := history[..n], history[n];
      assert history == init + [last];
      BetweenNext(init, last, from, to);
      if Between(last, from, to) {
        assert HasRoom(history, n, limit, window, skew);
        var c :| RoomAt(history, n, c, limit, window, skew);
        forall i | 0 <= i < c ensures !Between(init[i], from, to) { assert history[i] == init[i]; }
        NoneInPrefix(init, c, from, to);
      } else {
        RoomyPrefix(history, limit, window, skew);
        RoomyHolds(init, limit, window, skew, from);
      }
    }
  }

  lemma BetweenNext(init: seq<real>, last: real, from: real, to: real)
    ensures CallsBetween(init + [last], from, to) == if Between(last, from, to) then CallsBetween(init, from, to) + [last] else CallsBetween(init, from, to)
  {
    FilterAppend(init, last, (t: real) => Between(t, from, to));
  }

  lemma RoomyPrefix(history: seq<real>, limit: int, window: real, skew: real)
    requires history != [] && Roomy(history, limit, window, skew)
    ensures Roomy(history[..|history| - 1], limit, window, skew)
  {
    var init := history[..|history| - 1];
    forall k | 0 <= k < |init| ensures HasRoom(init, k, limit, window, skew) {
      assert HasRoom(history, k, limit, window, skew);
      var c :| RoomAt(history, k, c, limit, window, skew);
      assert RoomAt(init, k, c, limit, window, skew);
    }
  }

  lemma RoomyNext(history: seq<real>, c: nat, now: real, limit: int, window: real, skew: real)
    requires Roomy(history, limit, window, skew) && c <= |history| && |history| - c < limit
    requires forall i :: 0 <= i < c ==> history[i] <= now + skew - window
    ensures Roomy(history + [now], limit, window, skew)
  {
    var longer := history + [now];
    forall k | 0 <= k < |longer| ensures HasRoom(longer, k, limit, window, skew) {
      if k < |history| {
        assert HasRoom(history, k, limit, window, skew);
        var d :| RoomAt(history, k, d, limit, window, skew);
        assert RoomAt(longer, k, d, limit, window, skew);
      } else {
        assert RoomAt(longer, k, c, limit, window, skew);
      }
    }
  }

  // --- Closed windows ---------------------------------------------------------------------

  predicate Within(t: real, from: real, to: real) { from <= t <= to }

  function CallsWithin(history: seq<real>, from: real, to: real): seq<real> {
    Filter(history, (t: real) => Within(t, from, to))
  }

  /** The calls accepted before the k-th, at or after one window before it. */
  function FoundBefore(history: seq<real>, k: nat, window: real): seq<real>
    requires k < |history|
  {
    CallsWithin(history[..k], history[k] - window, history[k])
  }

  ghost predicate ClosedRoom(history: seq<real>, limit: int, window: real) {
    forall k :: 0 <= k < |history| ==> |FoundBefore(history, k, window)| < limit
  }

  lemma {:induction false} WithinPrefix(history: seq<real>, k: nat, from: real, to: real)
    requires k <= |history|
    ensures |CallsWithin(history[..k], from, to)| <= |CallsWithin(history, from, to)|
    ensures k < |history| && Within(history[k], from, to) ==> |CallsWithin(history[..k], from, to)| < |CallsWithin(history, from, to)|
    decreases |history|
  {
    if k < |history| {
      var n := |history| - 1;
      assert history == history[..n] + [history[n]] && history[..n][..k] == history[..k];
      FilterAppend(history[..n], history[n], (t: real) => Within(t, from, to));
      WithinPrefix(history[..n], k, from, to);
    } else {
      assert history[..k] == history;
    }
  }

  /** With one call more than this in the window of the last call, the window is over. */
  lemma ClosedNeeds(history: seq<real>, limit: int, window: real, k: nat)
    requires k < |history| && Nondecreasing(history) && window > 0.0
    requires |CallsWithin(history, history[k] - window, history[k])| <= limit
    ensures |FoundBefore(history, k, window)| < limit
  {
    hide CallsWithin;
    WithinPrefix(history, k, history[k] - window, history[k]);
  }

  lemma {:induction false} ClosedSuffices(history: seq<real>, limit: int, window: real, from: real)
    requires Nondecreasing(history) && ClosedRoom(history, limit, window) && limit >= 0
    ensures |CallsWithin(history, from, from + window)| <= limit
    decreases |history|
  {
    hide CallsWithin;
    if history == [] {
      assert CallsWithin(history, from, from + window) == [] by { NoneWithin(from, from + window); }
    } else {
      var n := |history| - 1;
      var init, last := history[..n], history[n];
      assert history == init + [last];
      WithinAppend(init, last, from, from + window);
      if Within(last, from, from + window) {
        WithinLast(history, window, from);
        assert |FoundBefore(history, n, window)| < limit;
      } else {
        forall k | 0 <= k < n ensures |FoundBefore(init, k, window)| < limit {
          assert init[..k] == history[..k] && |FoundBefore(history, k, window)| < limit;
        }
        ClosedSuffices(init, limit, window, from);
      }
    }
  }

  lemma NoneWithin(from: real, to: real)
    ensures CallsWithin([], from, to) == []
  {
  }

  lemma WithinAppend(init: seq<real>, last: real, from: real, to: real)
    ensures CallsWithin(init + [last], from, to) == if Within(last, from, to) then CallsWithin(init, from, to) + [last] else CallsWithin(init, from, to)
  {
    FilterAppend(init, last, (t: real) => Within(t, from, to));
  }

  lemma WithinLast(history: seq<real>, window: real, from: real)
    requires history != [] && Nondecreasing(history) && Within(history[|history| - 1], from, from + window)
    ensures |CallsWithin(history[..|history| - 1], from, from + window)| <= |FoundBefore(history, |history| - 1, window)|
  {
    hide CallsWithin;
    var n := |history| - 1;
    forall t | t in history[..n] ensures t <= history[n] {
      var i :| 0 <= i < n && history[i] == t;
    }
    FewerWithin(history[..n], from, from + window, history[n] - window, history[n]);
  }

  lemma FewerWithin(s: seq<real>, from: real, to: real, from': real, to': real)
    requires forall t :: t in s && Within(t, from, to) ==> Within(t, from', to')
    ensures |CallsWithin(s, from, to)| <= |CallsWithin(s, from', to')|
  {
    hide Filter;
    FilterAtMost(s, (t: real) => Within(t, from, to), (t: real) => Within(t, from', to'));
  }

  // --- The limiter -------------------------------------------------------------------------

  /** One key's deque stands for its whole history: the accepted calls still in the window at
      the key's latest clock reading. */
  ghost predicate Stands(calls: seq<real>, history: seq<real>, latest: Option<real>, limit: int, window: real) {
    && Nondecreasing(history) && WithinLimit(history, limit, window)
    && (latest.None? ==> history == [] && calls == [])
    && (latest.Some? ==> (forall t :: t in history ==> t <= latest.value) && calls == InWindow(history, latest.value, window))
    && |calls| <= (if limit > 0 then limit else 0)
  }

  function Room(limit: int): nat { if limit > 0 then limit else 0 }

  /** The deque is the end of the history. */
  ghost predicate IsTail(calls: seq<real>, history: seq<real>) {
    |calls| <= |history| && calls == history[|history| - |calls|..]
  }

  /** The deque stands for its history, and the clock has not gone back since. */
  ghost predicate InOrder(calls: seq<real>, history: seq<real>, latest: Option<real>, now: real, limit: int, window: real) {
    Stands(calls, history, latest, limit, window) && (latest.Some? ==> latest.value <= now)
  }

  /** The deque without the calls at its head that have left the window. */
  function DropOld(calls: seq<real>, now: real, window: real): (kept: seq<real>)
    ensures |kept| <= |calls| && kept == calls[|calls| - |kept|..]
    ensures forall i :: 0 <= i < |calls| - |kept| ==> !Recent(calls[i], now, window)
    ensures kept != [] ==> Recent(kept[0], now, window)
  {
    if calls == [] || Recent(calls[0], now, window) then calls else DropOld(calls[1..], now, window)
  }

  /** Drops the calls that have left the window, oldest first. */
  method Prune(calls: seq<real>, now: real, window: real, ghost history: seq<real>, ghost latest: Option<real>, ghost limit: int)
    returns (recent: seq<real>)
    requires IsTail(calls, history)
    ensures recent == DropOld(calls, now, window) && IsTail(recent, history)
    ensures InOrder(calls, history, latest, now, limit, window) ==>
      recent == InWindow(history, now, window) && Stands(recent, history, Some(now), limit, window)
  {
    hide InWindow, WithinLimit, Stands;
    ghost var k := 0;
    recent := calls;
    while recent != [] && now - recent[0] >= window
      invariant k <= |calls| && recent == calls[k..]
      invariant forall i :: 0 <= i < k ==> !Recent(calls[i], now, window)
      invariant DropOld(recent, now, window) == DropOld(calls, now, window)
      decreases |recent|
    {
      TailOfTail(calls, k);
      recent := recent[1..];
      k := k + 1;
    }
    TailOfHistory(calls, history, k);
    if InOrder(calls, history, latest, now, limit, window) {
      PrunedStands(calls, k, history, latest, now, limit, window);
    }
  }

  lemma TailOfHistory(calls: seq<real>, history: seq<real>, k: nat)
    requires IsTail(calls, history) && k <= |calls|
    ensures IsTail(calls[k..], history)
  {
  }

  lemma PrunedStands(calls: seq<real>, k: nat, history: seq<real>, latest: Option<real>, now: real, limit: int, window: real)
    requires InOrder(calls, history, latest, now, limit, window) && IsTail(calls, history) && k <= |calls|
    requires (forall i :: 0 <= i < k ==> !Recent(calls[i], now, window)) && (k < |calls| ==> Recent(calls[k], now, window))
    ensures calls[k..] == InWindow(history, now, window) && Stands(calls[k..], history, Some(now), limit, window)
  {
    hide InWindow, WithinLimit;
    var cut := |history| - |calls|;
    if latest.Some? {
      var before := Cut(history, latest.value, window);
      assert |history[before..]| == |calls|;
    }
    assert forall i :: cut <= i < |history| ==> history[i] == calls[i - cut];
    assert forall i :: cut + k <= i < |history| ==> history[cut + k] <= history[i];
    WindowIsTail(history, cut + k, now, window);
    assert calls[k..] == history[cut + k..];
  }

  lemma TailOfTail(calls: seq<real>, k: nat)
    requires k < |calls|
    ensures calls[k..][0] == calls[k] && calls[k..][1..] == calls[k + 1..]
  {
  }

  /** One call on one key's deque: it is accepted exactly when fewer than `limit` are left, and the wait
      is the least after which that holds. In order, these are the calls in its window. */
  method TakeCall(calls: seq<real>, now: real, window: real, limit: int, ghost history: seq<real>, ghost latest: Option<real>)
    returns (verdict: Verdict, kept: seq<real>)
    requires window > 0.0 && |calls| <= Room(limit) && IsTail(calls, history)
    ensures |kept| <= Room(limit) && IsTail(kept, HistoryAfter(history, now, verdict))
    ensures AsCounted(calls, kept, now, window, limit, verdict)
    ensures InOrder(calls, history, latest, now, limit, window) ==>
      && (verdict.Accepted? <==> |InWindow(history, now, window)| < limit)
      && (verdict.Wait? ==> IsLeastWait(history, now, window, limit, verdict.seconds))
      && Stands(kept, HistoryAfter(history, now, verdict), Some(now), limit, window)
  {
    hide InWindow, Stands, WithinLimit, IsLeastWait, FreesAfter;
    kept := Prune(calls, now, window, history, latest, limit);
    ghost var left := kept;
    if |kept| < limit {
      kept := kept + [now];
      verdict := Accepted;
      TailGrows(left, history, now);
    } else if kept == [] {
      verdict := NoOldest;
    } else {
      verdict := Wait(window - (now - kept[0]));
      Frees(kept, now, window, limit);
    }
    if InOrder(calls, history, latest, now, limit, window) {
      StandsBound(left, history, now, limit, window);
      if verdict.Accepted? {
        AcceptOne(history, left, now, window, limit);
      } else if verdict.Wait? {
        LeastWait(history, left, now, window, limit);
      }
    }
  }

  /** The call is accepted, and joins the deque, exactly when fewer than `limit` are left in it; else the
      wait is the least after which that holds, and there is no oldest call exactly at no limit. */
  ghost predicate AsCounted(calls: seq<real>, kept: seq<real>, now: real, window: real, limit: int, verdict: Verdict) {
    && kept == HistoryAfter(DropOld(calls, now, window), now, verdict)
    && (verdict.Accepted? <==> |DropOld(calls, now, window)| < limit)
    && (verdict.NoOldest? <==> limit <= 0)
    && (verdict.Wait? ==> FreesAfter(kept, now, window, limit, verdict.seconds))
  }

  /** Pruned after the wait the deque has room, and at no earlier time. */
  ghost predicate FreesAfter(kept: seq<real>, now: real, window: real, limit: int, wait: real) {
    && wait > 0.0 && |DropOld(kept, now + wait, window)| < limit
    && forall t :: now <= t < now + wait ==> |DropOld(kept, t, window)| >= limit
  }

  lemma Frees(kept: seq<real>, now: real, window: real, limit: int)
    requires kept != [] && |kept| == limit && Recent(kept[0], now, window)
    ensures FreesAfter(kept, now, window, limit, window - (now - kept[0]))
  {
  }

  lemma TailGrows(calls: seq<real>, history: seq<real>, now: real)
    requires IsTail(calls, history)
    ensures IsTail(calls + [now], history + [now])
  {
  }

  function HistoryAfter(history: seq<real>, now: real, verdict: Verdict): seq<real> {
    if verdict.Accepted? then history + [now] else history
  }

  /** The calls accepted among these readings: those that found fewer than `limit` in their window. */
  function AcceptedOf(asked: seq<real>, limit: int, window: real): seq<real> {
    if asked == [] then []
    else
      var before, now := AcceptedOf(asked[..|asked| - 1], limit, window), asked[|asked| - 1];
      if |InWindow(before, now, window)| < limit then before + [now] else before
  }

  /** What left the deque had left the window of some reading. */
  ghost predicate Left(calls: seq<real>, history: seq<real>, asked: seq<real>, window: real)
    requires |calls| <= |history|
  {
    forall i :: 0 <= i < |history| - |calls| ==> LeftAt(history[i], asked, window)
  }

  ghost predicate LeftAt(t: real, asked: seq<real>, window: real) {
    exists j :: 0 <= j < |asked| && t <= asked[j] - window
  }

  ghost predicate RoomyWhenever(history: seq<real>, asked: seq<real>, limit: int, window: real) {
    forall skew: real :: skew >= 0.0 && Overtakes(asked, skew) ==> Roomy(history, limit, window, skew)
  }

  /** One key: its deque, its accepted calls and the readings of all its calls. */
  ghost predicate KeyOk(calls: seq<real>, history: seq<real>, asked: seq<real>, limit: int, window: real) {
    && asked != [] && |calls| <= Room(limit) && IsTail(calls, history)
    && Left(calls, history, asked, window) && RoomyWhenever(history, asked, limit, window)
    && (Nondecreasing(asked) ==>
          history == AcceptedOf(asked, limit, window) && Stands(calls, history, Some(asked[|asked| - 1]), limit, window))
  }

  lemma LeftNext(calls: seq<real>, history: seq<real>, asked: seq<real>, now: real, window: real)
    requires IsTail(calls, history) && Left(calls, history, asked, window)
    ensures Left(DropOld(calls, now, window), history, asked + [now], window)
  {
    hide DropOld;
    var kept, longer := DropOld(calls, now, window), asked + [now];
    forall i | 0 <= i < |history| - |kept| ensures LeftAt(history[i], longer, window) {
      var cut := |history| - |calls|;
      if i < cut {
        assert LeftAt(history[i], asked, window);
        var j :| 0 <= j < |asked| && history[i] <= asked[j] - window;
        assert longer[j] == asked[j];
      } else {
        assert history[i] == calls[i - cut] && longer[|asked|] == now;
      }
    }
  }

  lemma LeftGrows(kept: seq<real>, history: seq<real>, asked: seq<real>, now: real, window: real)
    requires |kept| <= |history| && Left(kept, history, asked, window)
    ensures Left(kept + [now], history + [now], asked, window)
  {
    forall i | 0 <= i < |history| - |kept| ensures LeftAt((history + [now])[i], asked, window) {
      assert LeftAt(history[i], asked, window);
    }
  }

  lemma RoomyWheneverNext(kept: seq<real>, history: seq<real>, after: seq<real>, asked: seq<real>, now: real, verdict: Verdict,
                          limit: int, window: real)
    requires |kept| <= |history| && Left(kept, history, asked + [now], window) && RoomyWhenever(history, asked, limit, window)
    requires after == HistoryAfter(history, now, verdict) && (verdict.Accepted? ==> |kept| < limit)
    ensures RoomyWhenever(after, asked + [now], limit, window)
  {
    hide Roomy;
    var longer := asked + [now];
    forall skew: real | skew >= 0.0 && Overtakes(longer, skew) ensures Roomy(after, limit, window, skew) {
      assert forall i :: 0 <= i < |asked| ==> longer[i] == asked[i];
      assert Overtakes(asked, skew);
      if verdict.Accepted? {
        forall i | 0 <= i < |history| - |kept| ensures history[i] <= now + skew - window {
          assert LeftAt(history[i], longer, window);
          var j :| 0 <= j < |longer| && history[i] <= longer[j] - window;
          assert longer[|asked|] == now && (j < |asked| ==> longer[j] - skew <= longer[|asked|]);
        }
        RoomyNext(history, |history| - |kept|, now, limit, window, skew);
      }
    }
  }

  lemma NothingLeft(limit: int, window: real)
    ensures Left([], [], [], window) && RoomyWhenever([], [], limit, window)
  {
  }

  lemma KeyNext(calls: seq<real>, kept: seq<real>, history: seq<real>, after: seq<real>, asked: seq<real>, now: real, verdict: Verdict,
                limit: int, window: real)
    requires asked == [] || KeyOk(calls, history, asked, limit, window)
    requires asked == [] ==> calls == [] && history == []
    requires |kept| <= Room(limit) && IsTail(kept, after) && after == HistoryAfter(history, now, verdict)
    requires AsCounted(calls, kept, now, window, limit, verdict)
    requires InOrder(calls, history, LatestOf(asked), now, limit, window) ==>
      (verdict.Accepted? <==> |InWindow(history, now, window)| < limit) && Stands(kept, after, Some(now), limit, window)
    ensures KeyOk(kept, after, asked + [now], limit, window)
  {
    hide Stands, InWindow, AcceptedOf, Left, RoomyWhenever, DropOld, FreesAfter;
    var longer, left := asked + [now], DropOld(calls, now, window);
    NothingLeft(limit, window);
    LeftNext(calls, history, asked, now, window);
    RoomyWheneverNext(left, history, after, asked, now, verdict, limit, window);
    if verdict.Accepted? { LeftGrows(left, history, longer, now, window); }
    hide IsTail;
    if Nondecreasing(longer) {
      StillInOrder(calls, history, asked, now, limit, window);
      AcceptedNext(asked, now, limit, window);
      assert longer[|longer| - 1] == now;
    }
  }

  lemma AcceptedNext(asked: seq<real>, now: real, limit: int, window: real)
    ensures AcceptedOf([], limit, window) == []
    ensures
      var before := AcceptedOf(asked, limit, window);
      AcceptedOf(asked + [now], limit, window) == if |InWindow(before, now, window)| < limit then before + [now] else before
  {
    hide InWindow;
    assert (asked + [now])[..|asked|] == asked;
  }

  function LatestOf(asked: seq<real>): Option<real> { if asked == [] then None else Some(asked[|asked| - 1]) }

  /** A key's state before its first call, or as its calls have left it. */
  ghost predicate KeyBefore(calls: seq<real>, history: seq<real>, asked: seq<real>, limit: int, window: real) {
    if asked == [] then calls == [] && history == [] else KeyOk(calls, history, asked, limit, window)
  }

  /** In order, a call is accepted exactly when the window has room, and the wait is the least. */
  ghost predicate CountedInOrder(history: seq<real>, now: real, window: real, limit: int, verdict: Verdict) {
    && (verdict.Accepted? <==> |InWindow(history, now, window)| < limit)
    && (verdict.Wait? ==> IsLeastWait(history, now, window, limit, verdict.seconds))
  }

  /** One call on one key, with what its calls so far keep. */
  method TakeKeyCall(calls: seq<real>, now: real, window: real, limit: int, ghost history: seq<real>, ghost asked: seq<real>)
    returns (verdict: Verdict, kept: seq<real>)
    requires window > 0.0 && KeyBefore(calls, history, asked, limit, window)
    ensures KeyOk(kept, HistoryAfter(history, now, verdict), asked + [now], limit, window)
    ensures AsCounted(calls, kept, now, window, limit, verdict)
    ensures Nondecreasing(asked + [now]) ==> CountedInOrder(history, now, window, limit, verdict)
  {
    hide InWindow, Stands, IsLeastWait, Nondecreasing, IsTail, AsCounted, InOrder, AcceptedOf, Left, RoomyWhenever;
    KeyStarts(calls, history, asked, limit, window);
    verdict, kept := TakeCall(calls, now, window, limit, history, LatestOf(asked));
    KeyNext(calls, kept, history, HistoryAfter(history, now, verdict), asked, now, verdict, limit, window);
    StillInOrder(calls, history, asked, now, limit, window);
  }

  class SlidingWindowLimiter {
    const limit: int
    const window: real
    var calls: map<string, seq<real>>
    /** A key's accepted calls, and the clock readings of all its calls, in the order of the lock. */
    ghost var accepted: map<string, seq<real>>
    ghost var asked: map<string, seq<real>>

    ghost function Accepts(key: string): seq<real> reads this { if key in accepted then accepted[key] else [] }
    function Deque(key: string): seq<real> reads this { if key in calls then calls[key] else [] }
    ghost function Asked(key: string): seq<real> reads this { if key in asked then asked[key] else [] }

    ghost predicate Valid() reads this {
      && window > 0.0 && calls.Keys == accepted.Keys == asked.Keys
      && forall key :: key in calls ==> KeyOk(calls[key], accepted[key], asked[key], limit, window)
    }

    constructor (limit: int, window: real)
      requires window > 0.0
      ensures Valid() && this.limit == limit && this.window == window
      ensures accepted == map[] && asked == map[]
    {
      this.limit, this.window := limit, window;
      calls, accepted, asked := map[], map[], map[];
    }

    /** Counts this call, or says how long to wait, on this key alone: it is accepted exactly when fewer
        than `limit` are left in the deque, and the wait is the least after which that holds. While the
        key's readings come in order these are the accepted calls in the window. */
    method Acquire(key: string, now: real) returns (verdict: Verdict)
      requires Valid()
      modifies this
      ensures Valid()
      ensures asked == old(asked)[key := old(Asked(key)) + [now]]
      ensures accepted == old(accepted)[key := HistoryAfter(old(Accepts(key)), now, verdict)]
      ensures AsCounted(old(Deque(key)), Deque(key), now, window, limit, verdict)
      ensures forall other :: other != key ==> Deque(other) == old(Deque(other))
      ensures Nondecreasing(asked[key]) ==> CountedInOrder(old(Accepts(key)), now, window, limit, verdict)
    {
      hide KeyOk, Nondecreasing, AsCounted, CountedInOrder, HistoryAfter;
      ghost var history, before := Accepts(key), Asked(key);
      if key in calls { KeyAsked(calls[key], accepted[key], asked[key], limit, window); }
      var kept;
      verdict, kept := TakeKeyCall(Deque(key), now, window, limit, history, before);
      calls := calls[key := kept];
      accepted := accepted[key := HistoryAfter(history, now, verdict)];
      asked := asked[key := before + [now]];
    }
  }

  lemma KeyStarts(calls: seq<real>, history: seq<real>, asked: seq<real>, limit: int, window: real)
    requires KeyBefore(calls, history, asked, limit, window)
    ensures |calls| <= Room(limit) && IsTail(calls, history)
  {
  }

  lemma StillInOrder(calls: seq<real>, history: seq<real>, asked: seq<real>, now: real, limit: int, window: real)
    requires KeyBefore(calls, history, asked, limit, window)
    ensures Nondecreasing(asked + [now]) ==>
      InOrder(calls, history, LatestOf(asked), now, limit, window) && history == AcceptedOf(asked, limit, window)
  {
    hide Stands;
    var longer := asked + [now];
    if Nondecreasing(longer) {
      forall i, j | 0 <= i < j < |asked| ensures asked[i] <= asked[j] { assert longer[i] <= longer[j]; }
      NoneStands(limit, window);
      if asked != [] { assert longer[|asked| - 1] <= longer[|asked|]; }
    }
  }

  lemma KeyAsked(calls: seq<real>, history: seq<real>, asked: seq<real>, limit: int, window: real)
    requires KeyOk(calls, history, asked, limit, window)
    ensures asked != []
  {
  }

  lemma KeyHistory(l: SlidingWindowLimiter, key: string)
    requires l.Valid() && key in l.calls && Nondecreasing(l.asked[key])
    ensures Nondecreasing(l.accepted[key]) && WithinLimit(l.accepted[key], l.limit, l.window) && l.window > 0.0
  {
    hide KeyOk, WithinLimit;
    StandsHistory(l.calls[key], l.accepted[key], l.asked[key], l.limit, l.window);
  }

  lemma StandsHistory(calls: seq<real>, history: seq<real>, asked: seq<real>, limit: int, window: real)
    requires KeyOk(calls, history, asked, limit, window) && Nondecreasing(asked)
    ensures Nondecreasing(history) && WithinLimit(history, limit, window)
  {
    hide AcceptedOf, InWindow, WithinLimit;
  }

  lemma KeyRoomy(calls: seq<real>, history: seq<real>, asked: seq<real>, limit: int, window: real, skew: real)
    requires KeyOk(calls, history, asked, limit, window) && skew >= 0.0 && Overtakes(asked, skew)
    ensures Roomy(history, limit, window, skew)
  {
    hide Roomy, Overtakes, Stands, AcceptedOf, Left, IsTail, Nondecreasing;
  }

  /** The limiter's promise: where no reading of a key is more than `skew` behind an earlier one, no
      half-open window shorter than the limiter's by the skew holds more than `limit` of its accepted
      calls. With readings in order the skew is zero. */
  lemma LimiterHolds(l: SlidingWindowLimiter, key: string, skew: real, from: real)
    requires l.Valid() && l.limit >= 0 && key in l.calls && skew >= 0.0 && Overtakes(l.asked[key], skew)
    ensures |CallsBetween(l.accepted[key], from, from + l.window - skew)| <= l.limit
  {
    hide CallsBetween, Roomy, KeyOk, Overtakes;
    KeyRoomy(l.calls[key], l.accepted[key], l.asked[key], l.limit, l.window, skew);
    RoomyHolds(l.accepted[key], l.limit, l.window, skew, from);
  }

  /** No closed window that starts here holds more than `limit` calls. */
  ghost predicate ClosedHolds(history: seq<real>, limit: int, window: real, from: real) {
    |CallsWithin(history, from, from + window)| <= limit
  }

  /** Windows with both ends: they hold at most `limit` exactly when each accepted call found fewer
      than `limit` accepted ones at or after one window before it. */
  lemma ClosedWindowsIff(l: SlidingWindowLimiter, key: string)
    requires l.Valid() && l.limit >= 0 && key in l.calls && Nondecreasing(l.asked[key])
    ensures (forall from :: ClosedHolds(l.accepted[key], l.limit, l.window, from)) <==> ClosedRoom(l.accepted[key], l.limit, l.window)
  {
    hide CallsWithin, FoundBefore, WithinLimit;
    KeyHistory(l, key);
    ClosedIff(l.accepted[key], l.limit, l.window);
  }

  lemma ClosedIff(history: seq<real>, limit: int, window: real)
    requires Nondecreasing(history) && limit >= 0 && window > 0.0
    ensures (forall from :: ClosedHolds(history, limit, window, from)) <==> ClosedRoom(history, limit, window)
  {
    hide CallsWithin, FoundBefore;
    if forall from :: ClosedHolds(history, limit, window, from) {
      forall k | 0 <= k < |history| ensures |FoundBefore(history, k, window)| < limit {
        assert ClosedHolds(history, limit, window, history[k] - window);
        ClosedNeeds(history, limit, window, k);
      }
    }
    if ClosedRoom(history, limit, window) {
      forall from ensures ClosedHolds(history, limit, window, from) {
        ClosedSuffices(history, limit, window, from);
      }
    }
  }

  function Zeros(n: nat): (s: seq<real>)
    ensures |s| == n && forall t :: t in s ==> t == 0.0
  {
    seq(n, _ => 0.0)
  }

  lemma {:induction false} ZerosAccepted(n: nat, limit: int, window: real)
    requires n <= limit && window > 0.0
    ensures AcceptedOf(Zeros(n), limit, window) == Zeros(n)
  {
    if n > 0 {
      ZerosAccepted(n - 1, limit, window);
      assert Zeros(n)[..n - 1] == Zeros(n - 1) && Zeros(n - 1) + [0.0] == Zeros(n);
      WindowIsTail(Zeros(n - 1), 0, 0.0, window);
    }
  }

  /** At every limit: `limit` calls at once and one exactly a window later are all accepted, so the
      closed window they span holds one too many. */
  lemma ClosedWindowMayHoldMore(limit: int, window: real)
    requires limit >= 1 && window > 0.0
    ensures
      var asked := Zeros(limit) + [window];
      && Nondecreasing(asked) && AcceptedOf(asked, limit, window) == asked
      && |CallsWithin(asked, 0.0, window)| == limit + 1
  {
    hide InWindow, CallsWithin, AcceptedOf;
    var asked := Zeros(limit) + [window];
    ZerosAccepted(limit, limit, window);
    AcceptedNext(Zeros(limit), window, limit, window);
    WindowIsTail(Zeros(limit), limit, window, window);
    assert Zeros(limit)[limit..] == [];
    AllWithin(asked, 0.0, window);
  }

  lemma {:induction false} AllWithin(s: seq<real>, from: real, to: real)
    requires forall t :: t in s ==> Within(t, from, to)
    ensures CallsWithin(s, from, to) == s
  {
    if s != [] {
      var init, last := s[..|s| - 1], s[|s| - 1];
      assert s == init + [last];
      AllWithin(init, from, to);
    }
  }

  lemma NoneStands(limit: int, window: real)
    ensures Stands([], [], None, limit, window)
  {
  }

  lemma StandsBound(calls: seq<real>, history: seq<real>, now: real, limit: int, window: real)
    requires Stands(calls, history, Some(now), limit, window)
    ensures |calls| <= (if limit > 0 then limit else 0)
    ensures Nondecreasing(history) && WithinLimit(history, limit, window) && forall t :: t in history ==> t <= now
  {
  }

  /** After the wait there is room, and at no earlier time. */
  ghost predicate IsLeastWait(history: seq<real>, now: real, window: real, limit: int, wait: real) {
    && wait > 0.0
    && |InWindow(history, now + wait, window)| < limit
    && forall t :: now <= t < now + wait ==> |InWindow(history, t, window)| >= limit
  }

  /** The oldest call leaves after exactly the wait, and until then the window stays full. */
  lemma LeastWait(history: seq<real>, left: seq<real>, now: real, window: real, limit: int)
    requires Nondecreasing(history) && left == InWindow(history, now, window) && |left| == limit > 0
    ensures IsLeastWait(history, now, window, limit, window - (now - left[0]))
  {
    hide InWindow;
    var k := Cut(history, now, window);
    var free := history[k] + window;
    var cut := Cut(history, free, window);
    assert now + (window - (now - history[k])) == free;
    forall t | now <= t < free ensures |InWindow(history, t, window)| >= limit {
      WindowIsTail(history, k, t, window);
    }
  }

  /** A call that finds room keeps every window within the limit. */
  lemma AcceptOne(history: seq<real>, left: seq<real>, now: real, window: real, limit: int)
    requires Nondecreasing(history) && (forall t :: t in history ==> t <= now) && window > 0.0
    requires WithinLimit(history, limit, window)
    requires left == InWindow(history, now, window) && |left| < limit
    ensures Stands(left + [now], history + [now], Some(now), limit, window)
    ensures InWindow(history + [now], now, window) == left + [now]
  {
    WindowAppend(history, now, window);
    hide InWindow, WithinLimit;
    OneMoreWithin(history, now, window, limit);
  }

  lemma OneMoreWithin(history: seq<real>, now: real, window: real, limit: int)
    requires WithinLimit(history, limit, window) && |InWindow(history + [now], now, window)| <= limit
    ensures WithinLimit(history + [now], limit, window)
  {
    hide InWindow;
    var longer := history + [now];
    forall j | 0 <= j < |longer| ensures FoundRoom(longer, j, limit, window) {
      if j < |history| {
        assert FoundRoom(history, j, limit, window) && longer[..j + 1] == history[..j + 1] && longer[j] == history[j];
      } else {
        assert longer[..j + 1] == longer;
      }
    }
  }

  lemma WindowAppend(history: seq<real>, now: real, window: real)
    requires window > 0.0
    ensures InWindow(history + [now], now, window) == InWindow(history, now, window) + [now]
  {
    FilterAppend(history, now, (t: real) => Recent(t, now, window));
  }
}
