/** What does not depend on the order rows are read in: sums, counts, maxima, tallies, and the
    list sorted by time when no two times are equal. */
module Permutations {
  import opened Seqs
  import opened Types
  import opened Ledger
  import opened Sorting

  predicate Permuted<T(==)>(s: seq<T>, t: seq<T>) { multiset(s) == multiset(t) }

  lemma PermutedMembers<T>(s: seq<T>, t: seq<T>)
    requires Permuted(s, t)
    ensures forall x :: x in s <==> x in t
    ensures |s| == |t|
  {
    forall x | x in s || x in t ensures x in s && x in t {
      assert x in multiset(s) && x in multiset(t);
    }
    assert |multiset(s)| == |s| && |multiset(t)| == |t|;
  }

  lemma {:induction false} SumConcat<T>(s: seq<T>, t: seq<T>, w: T -> int)
    ensures SumBy(s + t, w) == SumBy(s, w) + SumBy(t, w)
  {
    if t == [] {
      assert s + t == s;
    } else {
      var init, last := t[..|t| - 1], t[|t| - 1];
      assert s + t == (s + init) + [last];
      SumConcat(s, init, w);
      SumAppend(s + init, last, w);
    }
  }

  function Without<T>(t: seq<T>, j: nat): seq<T>
    requires j < |t|
  {
    t[..j] + t[j + 1..]
  }

  lemma SumWithout<T>(t: seq<T>, j: nat, w: T -> int)
    requires j < |t|
    ensures SumBy(t, w) == SumBy(Without(t, j), w) + w(t[j])
  {
    hide SumBy;
    var left, right := t[..j], t[j + 1..];
    assert t == left + [t[j]] + right;
    SumConcat(left + [t[j]], right, w);
    SumAppend(left, t[j], w);
    SumConcat(left, right, w);
  }

  lemma WithoutMultiset<T>(t: seq<T>, j: nat)
    requires j < |t|
    ensures multiset(Without(t, j)) == multiset(t) - multiset{t[j]}
  {
    assert t == t[..j] + [t[j]] + t[j + 1..];
  }

  lemma {:induction false} SumPermuted<T>(s: seq<T>, t: seq<T>, w: T -> int)
    requires Permuted(s, t)
    ensures SumBy(s, w) == SumBy(t, w)
    decreases |s|
  {
    hide SumBy, Without;
    PermutedMembers(s, t);
    if s == [] {
      assert t == [];
    } else {
      var n := |s| - 1;
      assert s[n] in t;
      var j :| 0 <= j < |t| && t[j] == s[n];
      SumWithout(s, n, w);
      SumWithout(t, j, w);
      WithoutMultiset(s, n);
      WithoutMultiset(t, j);
      PermutedMembers(Without(s, n), Without(t, j));
      ShorterWithout(s, n);
      SumPermuted(Without(s, n), Without(t, j), w);
    }
  }

  lemma ShorterWithout<T>(t: seq<T>, j: nat)
    requires j < |t|
    ensures |Without(t, j)| == |t| - 1
  {
  }

  lemma {:induction false} FilterMultiplicity<T(!new)>(s: seq<T>, p: T -> bool, x: T)
    ensures multiset(Filter(s, p))[x] == if p(x) then multiset(s)[x] else 0
  {
    if s != [] {
      assert s == s[..|s| - 1] + [s[|s| - 1]];
      FilterMultiplicity(s[..|s| - 1], p, x);
    }
  }

  lemma FilterPermuted<T(!new)>(s: seq<T>, t: seq<T>, p: T -> bool)
    requires Permuted(s, t)
    ensures Permuted(Filter(s, p), Filter(t, p))
  {
    forall x ensures multiset(Filter(s, p))[x] == multiset(Filter(t, p))[x] {
      FilterMultiplicity(s, p, x);
      FilterMultiplicity(t, p, x);
    }
  }

  lemma MapMembers<T(!new)>(s: seq<T>, f: T -> int, y: int)
    ensures y in Map(s, f) <==> exists x :: x in s && f(x) == y
  {
    if x :| x in s && f(x) == y {
      var i :| 0 <= i < |s| && s[i] == x;
      assert Map(s, f)[i] == y;
    }
    if y in Map(s, f) {
      var i :| 0 <= i < |s| && Map(s, f)[i] == y;
      assert s[i] in s;
    }
  }

  lemma MaxPermuted<T(!new)>(s: seq<T>, t: seq<T>, f: T -> int)
    requires Permuted(s, t)
    ensures MaxOf(Map(s, f)) == MaxOf(Map(t, f))
  {
    PermutedMembers(s, t);
    forall y ensures y in Map(s, f) <==> y in Map(t, f) {
      MapMembers(s, f, y);
      MapMembers(t, f, y);
    }
  }

  // --- Tallies --------------------------------------------------------------------------

  function AtShop(shop: string): Entry -> int { (e: Entry) => if e.merchantId == shop then 1 else 0 }

  /** A tally holds, for each shop, the base count plus the purchases there. */
  lemma {:induction false} TallyAt(base: map<string, int>, s: seq<Entry>, shop: string)
    ensures shop in CountApprovals(base, s) <==> shop in base || exists e :: e in s && e.merchantId == shop
    ensures shop in CountApprovals(base, s) ==>
      CountApprovals(base, s)[shop] == (if shop in base then base[shop] else 0) + SumBy(s, AtShop(shop))
    ensures shop !in CountApprovals(base, s) ==> SumBy(s, AtShop(shop)) == 0
  {
    if s != [] {
      var init, last := s[..|s| - 1], s[|s| - 1];
      assert s == init + [last];
      TallyAt(base, init, shop);
    }
  }

  lemma TallyPermuted(base: map<string, int>, s: seq<Entry>, t: seq<Entry>)
    requires Permuted(s, t)
    ensures CountApprovals(base, s) == CountApprovals(base, t)
  {
    PermutedMembers(s, t);
    var a, b := CountApprovals(base, s), CountApprovals(base, t);
    forall shop: string
      ensures shop in a <==> shop in b
      ensures shop in a ==> a[shop] == b[shop]
    {
      TallyAt(base, s, shop);
      TallyAt(base, t, shop);
      SumPermuted(s, t, AtShop(shop));
    }
    assert a.Keys == b.Keys;
  }

  // --- Sorting --------------------------------------------------------------------------

  lemma {:induction false} InsertPermuted(s: seq<Entry>, e: Entry)
    ensures multiset(InsertByTs(s, e)) == multiset(s) + multiset{e}
  {
    if s != [] && s[|s| - 1].ts > e.ts {
      InsertPermuted(s[..|s| - 1], e);
      assert s == s[..|s| - 1] + [s[|s| - 1]];
    }
  }

  lemma {:induction false} SortPermuted(s: seq<Entry>)
    ensures Permuted(SortByTs(s), s)
  {
    if s != [] {
      SortPermuted(s[..|s| - 1]);
      InsertPermuted(SortByTs(s[..|s| - 1]), s[|s| - 1]);
      assert s == s[..|s| - 1] + [s[|s| - 1]];
    }
  }

  ghost predicate NoTies(s: seq<Entry>) { forall i, j :: 0 <= i < j < |s| ==> s[i].ts != s[j].ts }

  ghost predicate Strict(s: seq<Entry>) { forall i, j :: 0 <= i < j < |s| ==> s[i].ts < s[j].ts }

  lemma {:induction false} InsertStrict(s: seq<Entry>, e: Entry)
    requires Strict(s) && forall x :: x in s ==> x.ts != e.ts
    ensures Strict(InsertByTs(s, e))
  {
    if s != [] && s[|s| - 1].ts > e.ts {
      var last := s[|s| - 1];
      InsertStrict(s[..|s| - 1], e);
      forall x | x in InsertByTs(s[..|s| - 1], e) ensures x.ts < last.ts {
        assert x in s[..|s| - 1] || x == e;
      }
    }
  }

  lemma {:induction false} SortStrict(s: seq<Entry>)
    requires NoTies(s)
    ensures Strict(SortByTs(s))
  {
    if s != [] {
      SortStrict(s[..|s| - 1]);
      InsertStrict(SortByTs(s[..|s| - 1]), s[|s| - 1]);
    }
  }

  lemma SameLast(s: seq<Entry>, t: seq<Entry>)
    requires Strict(s) && SortedByTs(t) && Permuted(s, t) && s != []
    ensures |s| == |t| && s[|s| - 1] == t[|t| - 1]
  {
    PermutedMembers(s, t);
    var n := |s| - 1;
    assert s[n] in t && t[n] in s;
    var i :| 0 <= i <= n && s[i] == t[n];
    var j :| 0 <= j <= n && t[j] == s[n];
  }

  lemma WithoutLast(s: seq<Entry>, t: seq<Entry>)
    requires Permuted(s, t) && s != [] && |s| == |t| && s[|s| - 1] == t[|t| - 1]
    ensures Permuted(s[..|s| - 1], t[..|t| - 1])
  {
    var n := |s| - 1;
    assert s == s[..n] + [s[n]] && t == t[..n] + [t[n]];
    assert multiset(s[..n]) == multiset(s) - multiset{s[n]} && multiset(t[..n]) == multiset(t) - multiset{t[n]};
  }

  lemma {:induction false} StrictUnique(s: seq<Entry>, t: seq<Entry>)
    requires Strict(s) && SortedByTs(t) && Permuted(s, t)
    ensures s == t
    decreases |s|
  {
    if s == [] {
      PermutedMembers(s, t);
    } else {
      var n := |s| - 1;
      SameLast(s, t);
      WithoutLast(s, t);
      StrictUnique(s[..n], t[..n]);
      assert s == s[..n] + [s[n]] && t == t[..n] + [t[n]];
    }
  }

  /** Without ties there is one order by time. */
  lemma SortUnique(s: seq<Entry>, t: seq<Entry>)
    requires Permuted(s, t) && NoTies(s)
    ensures SortByTs(s) == SortByTs(t)
  {
    SortStrict(s);
    SortSorted(t);
    SortPermuted(s);
    SortPermuted(t);
    StrictUnique(SortByTs(s), SortByTs(t));
  }

  lemma {:induction false} FilterNoTies(s: seq<Entry>, p: Entry -> bool)
    requires NoTies(s)
    ensures NoTies(Filter(s, p))
  {
    if s != [] {
      var init, last := s[..|s| - 1], s[|s| - 1];
      FilterNoTies(init, p);
      forall x | x in Filter(init, p) ensures x.ts != last.ts { assert x in init; }
    }
  }
}
