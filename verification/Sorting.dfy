/** Sorting by simulated time is stable, ordered, and invisible to everything the view only
    counts, sums or collects. */
module Sorting {
  import opened Seqs
  import opened Types
  import opened Ledger

  lemma {:induction false} InsertSorted(s: seq<Entry>, e: Entry)
    requires SortedByTs(s)
    ensures SortedByTs(InsertByTs(s, e))
  {
    if s != [] && s[|s| - 1].ts > e.ts {
      InsertSorted(s[..|s| - 1], e);
      var rest := InsertByTs(s[..|s| - 1], e);
      forall x | x in rest ensures x.ts <= s[|s| - 1].ts {
        assert x in s[..|s| - 1] || x == e;
      }
    }
  }

  lemma {:induction false} SortSorted(s: seq<Entry>)
    ensures SortedByTs(SortByTs(s))
  {
    if s != [] {
      SortSorted(s[..|s| - 1]);
      InsertSorted(SortByTs(s[..|s| - 1]), s[|s| - 1]);
    }
  }

  lemma InsertLast(s: seq<Entry>, e: Entry)
    requires forall x :: x in s ==> x.ts <= e.ts
    ensures InsertByTs(s, e) == s + [e]
  {
    if s != [] { assert s[|s| - 1] in s; }
  }

  lemma SortUnfold(s: seq<Entry>)
    requires s != []
    ensures SortByTs(s) == InsertByTs(SortByTs(s[..|s| - 1]), s[|s| - 1])
  {
  }

  lemma LastIsLatest(s: seq<Entry>)
    requires SortedByTs(s) && s != []
    ensures SortedByTs(s[..|s| - 1]) && forall x :: x in s[..|s| - 1] ==> x.ts <= s[|s| - 1].ts
  {
  }

  lemma SortNone()
    ensures SortByTs([]) == []
  {
  }

  /** An already ordered list is left as it is. */
  lemma {:induction false} SortOrdered(s: seq<Entry>)
    requires SortedByTs(s)
    ensures SortByTs(s) == s
  {
    hide InsertByTs, SortByTs, SortedByTs;
    if s == [] {
      SortNone();
    } else {
      var init, last := s[..|s| - 1], s[|s| - 1];
      LastIsLatest(s);
      SortOrdered(init);
      SortUnfold(s);
      InsertLast(init, last);
      assert s == init + [last];
    }
  }

  lemma {:induction false} FilterSorted(s: seq<Entry>, p: Entry -> bool)
    requires SortedByTs(s)
    ensures SortedByTs(Filter(s, p))
  {
    if s != [] {
      var init, last := s[..|s| - 1], s[|s| - 1];
      FilterSorted(init, p);
      forall x | x in Filter(init, p) ensures x.ts <= last.ts { assert x in init; }
    }
  }

  lemma InsertBeforeLast(s: seq<Entry>, last: Entry, e: Entry)
    requires last.ts > e.ts
    ensures InsertByTs(s + [last], e) == InsertByTs(s, e) + [last]
  {
    assert (s + [last])[..|s|] == s;
  }

  lemma FilterInsertLast(s: seq<Entry>, e: Entry, p: Entry -> bool)
    requires forall x :: x in s ==> x.ts <= e.ts
    ensures Filter(InsertByTs(s, e), p) == if p(e) then InsertByTs(Filter(s, p), e) else Filter(s, p)
  {
    InsertLast(s, e);
    FilterAppend(s, e, p);
    InsertLast(Filter(s, p), e);
  }

  lemma {:induction false} FilterInsert(s: seq<Entry>, e: Entry, p: Entry -> bool)
    requires SortedByTs(s)
    ensures Filter(InsertByTs(s, e), p) == if p(e) then InsertByTs(Filter(s, p), e) else Filter(s, p)
  {
    if s == [] || s[|s| - 1].ts <= e.ts {
      assert forall x :: x in s ==> x.ts <= e.ts;
      FilterInsertLast(s, e, p);
    } else {
      var init, last := s[..|s| - 1], s[|s| - 1];
      assert s == init + [last];
      FilterInsert(init, e, p);
      FilterInsertEarlier(init, last, e, p);
    }
  }

  lemma FilterInsertEarlier(init: seq<Entry>, last: Entry, e: Entry, p: Entry -> bool)
    requires last.ts > e.ts
    requires Filter(InsertByTs(init, e), p) == if p(e) then InsertByTs(Filter(init, p), e) else Filter(init, p)
    ensures Filter(InsertByTs(init + [last], e), p) ==
      if p(e) then InsertByTs(Filter(init + [last], p), e) else Filter(init + [last], p)
  {
    InsertBeforeLast(init, last, e);
    FilterAppend(InsertByTs(init, e), last, p);
    FilterAppend(init, last, p);
    InsertBeforeLast(Filter(init, p), last, e);
  }

  lemma {:induction false} FilterSort(s: seq<Entry>, p: Entry -> bool)
    ensures Filter(SortByTs(s), p) == SortByTs(Filter(s, p))
  {
    if s != [] {
      var init, last := s[..|s| - 1], s[|s| - 1];
      FilterSort(init, p);
      SortSorted(init);
      FilterInsert(SortByTs(init), last, p);
      if p(last) {
        assert (Filter(init, p) + [last])[..|Filter(init, p)|] == Filter(init, p);
      }
    }
  }

  lemma {:induction false} InsertSum(s: seq<Entry>, e: Entry, w: Entry -> int)
    ensures SumBy(InsertByTs(s, e), w) == SumBy(s, w) + w(e)
  {
    if s == [] || s[|s| - 1].ts <= e.ts {
      SumAppend(s, e, w);
    } else {
      InsertSum(s[..|s| - 1], e, w);
      SumAppend(InsertByTs(s[..|s| - 1], e), s[|s| - 1], w);
    }
  }

  lemma {:induction false} SortSum(s: seq<Entry>, w: Entry -> int)
    ensures SumBy(SortByTs(s), w) == SumBy(s, w) && |SortByTs(s)| == |s|
  {
    if s != [] {
      SortSum(s[..|s| - 1], w);
      InsertSum(SortByTs(s[..|s| - 1]), s[|s| - 1], w);
      InsertLength(SortByTs(s[..|s| - 1]), s[|s| - 1]);
    }
  }

  lemma {:induction false} InsertLength(s: seq<Entry>, e: Entry)
    ensures |InsertByTs(s, e)| == |s| + 1
  {
    if s != [] && s[|s| - 1].ts > e.ts { InsertLength(s[..|s| - 1], e); }
  }
}
