/** Lookalike shops (A7): the two-row Levenshtein table of
    backend/oneguard/engine/protections.py:292, and what its result means: the least number of
    one-letter edits between two names. */
module EditDistance {
  import opened Seqs

  const LOOKALIKE_MAX_DISTANCE := 2

  function Min(x: nat, y: nat): nat { if x < y then x else y }

  function Init(s: string): string
    requires s != ""
  { s[..|s| - 1] }

  function Last(s: string): char
    requires s != ""
  { s[|s| - 1] }

  function Differ(x: char, y: char): nat { if x != y then 1 else 0 }

  /** The recursive Levenshtein distance. */
  function Lev(a: string, b: string): nat
    decreases |a| + |b|
  {
    if a == "" then |b|
    else if b == "" then |a|
    else Min(Min(Lev(Init(a), b) + 1, Lev(a, Init(b)) + 1),
             Lev(Init(a), Init(b)) + Differ(Last(a), Last(b)))
  }

  lemma {:induction false} LevSymmetric(a: string, b: string)
    ensures Lev(a, b) == Lev(b, a)
    decreases |a| + |b|
  {
    if a != "" && b != "" {
      LevSymmetric(Init(a), b);
      LevSymmetric(a, Init(b));
      LevSymmetric(Init(a), Init(b));
    }
  }

  lemma {:induction false} LevLengths(a: string, b: string)
    ensures |a| <= |b| + Lev(a, b) && |b| <= |a| + Lev(a, b)
    ensures Lev(a, b) <= |a| + |b|
    decreases |a| + |b|
  {
    if a != "" && b != "" {
      LevLengths(Init(a), b);
      LevLengths(a, Init(b));
      LevLengths(Init(a), Init(b));
    }
  }

  lemma {:induction false} LevZero(a: string, b: string)
    ensures Lev(a, b) == 0 <==> a == b
    decreases |a| + |b|
  {
    if a != "" && b != "" {
      LevZero(Init(a), Init(b));
      assert a == Init(a) + [Last(a)] && b == Init(b) + [Last(b)];
      if Lev(a, b) == 0 { assert a == b; }
    }
  }

  lemma {:induction false} LevTriangle(a: string, b: string, c: string)
    ensures Lev(a, c) <= Lev(a, b) + Lev(b, c)
    decreases |a| + |b| + |c|
  {
    LevLengths(a, b);
    LevLengths(b, c);
    LevLengths(a, c);
    if a != "" && b != "" && c != "" {
      LevTriangle(Init(a), b, c);
      LevTriangle(a, b, Init(c));
      LevTriangle(a, Init(b), c);
      LevTriangle(Init(a), Init(b), c);
      LevTriangle(a, Init(b), Init(c));
      LevTriangle(Init(a), Init(b), Init(c));
    }
  }

  // --- The distance is the least number of edits --------------------------------------

  predicate Inserts(s: string, t: string, i: int, c: char) {
    0 <= i <= |s| && t == s[..i] + [c] + s[i..]
  }

  predicate Replaces(s: string, t: string, i: int, c: char) {
    0 <= i < |s| && t == s[..i] + [c] + s[i + 1..]
  }

  ghost predicate OneEdit(s: string, t: string) {
    (exists i, c :: Inserts(s, t, i, c)) || (exists i, c :: Inserts(t, s, i, c))
    || (exists i, c :: Replaces(s, t, i, c))
  }

  /** A sequence of names, each one letter away from the one before. */
  ghost predicate Edits(path: seq<string>, a: string, b: string) {
    && |path| > 0 && path[0] == a && path[|path| - 1] == b
    && forall i :: 0 <= i < |path| - 1 ==> OneEdit(path[i], path[i + 1])
  }

  lemma {:induction false} LevSameTail(a: string, b: string, tail: string)
    ensures Lev(a + tail, b + tail) <= Lev(a, b)
    decreases |tail|
  {
    if tail == "" {
      assert a + tail == a && b + tail == b;
    } else {
      LevSameTail(a, b, Init(tail));
      assert Init(a + tail) == a + Init(tail) && Init(b + tail) == b + Init(tail);
    }
  }

  lemma LevReplace(s: string, t: string, i: int, c: char)
    requires Replaces(s, t, i, c)
    ensures Lev(s, t) <= 1
  {
    var head, tail := s[..i], s[i + 1..];
    LevZero(head, head);
    assert Init(head + [s[i]]) == head && Init(head + [c]) == head;
    assert Lev(head + [s[i]], head + [c]) <= 1;
    LevSameTail(head + [s[i]], head + [c], tail);
    assert s == head + [s[i]] + tail && t == head + [c] + tail;
  }

  lemma LevOneEdit(s: string, t: string)
    requires OneEdit(s, t)
    ensures Lev(s, t) <= 1
  {
    LevSymmetric(s, t);
    if i, c :| Inserts(s, t, i, c) {
      LevInsert(s, t, i, c);
    } else if i, c :| Inserts(t, s, i, c) {
      LevInsert(t, s, i, c);
    } else {
      var i, c :| Replaces(s, t, i, c);
      LevReplace(s, t, i, c);
    }
  }

  lemma LevInsert(s: string, t: string, i: int, c: char)
    requires Inserts(s, t, i, c)
    ensures Lev(s, t) <= 1
  {
    LevZero(s[..i], s[..i]);
    assert Init(s[..i] + [c]) == s[..i];
    if i == 0 { assert s[..i] == ""; }
    LevSameTail(s[..i], s[..i] + [c], s[i..]);
    assert s == s[..i] + s[i..];
  }

  /** No edit path is shorter than the distance. */
  lemma {:induction false} LevLowerBound(path: seq<string>, a: string, b: string)
    requires Edits(path, a, b)
    ensures Lev(a, b) <= |path| - 1
    decreases |path|
  {
    LevZero(a, a);
    if |path| > 1 {
      var mid := path[|path| - 2];
      LevLowerBound(path[..|path| - 1], a, mid);
      assert OneEdit(path[|path| - 2], path[|path| - 2 + 1]);
      LevOneEdit(mid, b);
      LevTriangle(a, mid, b);
    }
  }

  lemma OneEditSameTail(s: string, t: string, c: char)
    requires OneEdit(s, t)
    ensures OneEdit(s + [c], t + [c])
  {
    if i, x :| Inserts(s, t, i, x) {
      assert t + [c] == (s + [c])[..i] + [x] + (s + [c])[i..];
      assert Inserts(s + [c], t + [c], i, x);
    } else if i, x :| Inserts(t, s, i, x) {
      assert s + [c] == (t + [c])[..i] + [x] + (t + [c])[i..];
      assert Inserts(t + [c], s + [c], i, x);
    } else {
      var i, x :| Replaces(s, t, i, x);
      assert t + [c] == (s + [c])[..i] + [x] + (s + [c])[i + 1..];
      assert Replaces(s + [c], t + [c], i, x);
    }
  }

  function AppendToAll(path: seq<string>, c: char): seq<string> {
    Map(path, (s: string) => s + [c])
  }

  lemma EditsSameTail(path: seq<string>, a: string, b: string, c: char)
    requires Edits(path, a, b)
    ensures Edits(AppendToAll(path, c), a + [c], b + [c])
  {
    var longer := AppendToAll(path, c);
    forall i | 0 <= i < |longer| - 1 ensures OneEdit(longer[i], longer[i + 1]) {
      OneEditSameTail(path[i], path[i + 1], c);
    }
  }

  lemma EditFirst(a: string, path: seq<string>, mid: string, b: string)
    requires Edits(path, mid, b) && OneEdit(a, mid)
    ensures Edits([a] + path, a, b)
  {
    var longer := [a] + path;
    forall i | 0 <= i < |longer| - 1 ensures OneEdit(longer[i], longer[i + 1]) {
      if i > 0 { assert OneEdit(path[i - 1], path[i - 1 + 1]); }
    }
  }

  lemma EditLast(path: seq<string>, a: string, mid: string, b: string)
    requires Edits(path, a, mid) && OneEdit(mid, b)
    ensures Edits(path + [b], a, b)
  {
    var longer := path + [b];
    forall i | 0 <= i < |longer| - 1 ensures OneEdit(longer[i], longer[i + 1]) {
      if i < |path| - 1 { assert OneEdit(path[i], path[i + 1]); }
    }
  }

  /** Changing, or keeping, the last letter costs `Differ`. */
  lemma EditSameOrReplace(path: seq<string>, a: string, b: string) returns (longer: seq<string>)
    requires a != "" && b != "" && Edits(path, Init(a), Init(b))
    ensures Edits(longer, a, b) && |longer| == |path| + Differ(Last(a), Last(b))
  {
    EditsSameTail(path, Init(a), Init(b), Last(b));
    longer := AppendToAll(path, Last(b));
    assert b == Init(b) + [Last(b)] && a == Init(a) + [Last(a)];
    if Last(a) != Last(b) {
      assert Replaces(a, Init(a) + [Last(b)], |a| - 1, Last(b));
      EditFirst(a, longer, Init(a) + [Last(b)], b);
      longer := [a] + longer;
    }
  }

  /** Some edit path is exactly as long as the distance. */
  lemma {:induction false} LevReached(a: string, b: string) returns (path: seq<string>)
    ensures Edits(path, a, b) && |path| - 1 == Lev(a, b)
    decreases |a| + |b|
  {
    if a == "" && b == "" {
      path := [a];
    } else if a != "" && (b == "" || Lev(a, b) == Lev(Init(a), b) + 1) {
      var rest := LevReached(Init(a), b);
      assert Inserts(Init(a), a, |a| - 1, Last(a));
      EditFirst(a, rest, Init(a), b);
      path := [a] + rest;
    } else if b != "" && (a == "" || Lev(a, b) == Lev(a, Init(b)) + 1) {
      var rest := LevReached(a, Init(b));
      assert Inserts(Init(b), b, |b| - 1, Last(b));
      EditLast(rest, a, Init(b), b);
      path := rest + [b];
    } else {
      var rest := LevReached(Init(a), Init(b));
      path := EditSameOrReplace(rest, a, b);
    }
  }

  /** What A7 measures: the distance is the length of the shortest edit path. */
  lemma DistanceIsShortestEdit(a: string, b: string)
    ensures exists path :: Edits(path, a, b) && |path| - 1 == Lev(a, b)
    ensures forall path :: Edits(path, a, b) ==> Lev(a, b) <= |path| - 1
  {
    var path := LevReached(a, b);
    forall p | Edits(p, a, b) ensures Lev(a, b) <= |p| - 1 { LevLowerBound(p, a, b); }
  }

  // --- The program --------------------------------------------------------------------

  /** Row i of the table: the distance from a's first i letters to each prefix of b. */
  function Row(a: string, i: nat, b: string): (r: seq<nat>)
    requires i <= |a|
    ensures |r| == |b| + 1
  {
    seq(|b| + 1, j requires 0 <= j <= |b| => Lev(a[..i], b[..j]))
  }

  lemma FirstRow(a: string, b: string, row: seq<nat>)
    requires |row| == |b| + 1 && forall j :: 0 <= j <= |b| ==> row[j] == j
    ensures row == Row(a, 0, b)
  {
    forall j | 0 <= j <= |b| ensures Lev(a[..0], b[..j]) == j {
      assert a[..0] == "" && |b[..j]| == j;
    }
  }

  lemma FirstCell(a: string, i: nat, b: string)
    requires i < |a|
    ensures Row(a, i + 1, b)[0] == i + 1
  {
    assert b[..0] == "" && |a[..i + 1]| == i + 1;
  }

  lemma NextCell(a: string, i: nat, b: string, j: nat)
    requires i < |a| && j < |b|
    ensures Row(a, i + 1, b)[j + 1] ==
      Min(Min(Row(a, i, b)[j + 1] + 1, Row(a, i + 1, b)[j] + 1), Row(a, i, b)[j] + Differ(a[i], b[j]))
  {
    assert Init(a[..i + 1]) == a[..i] && Init(b[..j + 1]) == b[..j];
    assert Row(a, i + 1, b)[j + 1] == Lev(a[..i + 1], b[..j + 1]);
  }

  method NextRow(a: string, i: nat, b: string, previous: seq<nat>) returns (current: seq<nat>)
    requires i < |a| && previous == Row(a, i, b)
    ensures current == Row(a, i + 1, b)
  {
    ghost var row := Row(a, i + 1, b);
    current := [i + 1];
    FirstCell(a, i, b);
    for j := 0 to |b|
      invariant current == row[..j + 1]
    {
      NextCell(a, i, b, j);
      assert row[j + 1] == Min(Min(previous[j + 1] + 1, row[j] + 1), previous[j] + Differ(a[i], b[j]));
      current := current + [Min(Min(previous[j + 1] + 1, current[j] + 1), previous[j] + Differ(a[i], b[j]))];
    }
  }

  /** The two-row table, longer name first. */
  method Distance(first: string, second: string) returns (d: nat)
    ensures d == Lev(first, second)
  {
    var a, b := first, second;
    if |a| < |b| {
      a, b := b, a;
      LevSymmetric(first, second);
    }
    var previous: seq<nat> := seq(|b| + 1, (i: nat) => i as nat);
    FirstRow(a, b, previous);
    for i := 0 to |a|
      invariant previous == Row(a, i, b)
    {
      previous := NextRow(a, i, b, previous);
    }
    assert a[..|a|] == a && b[..|b|] == b;
    d := previous[|b|];
  }

  /** The shop (id, distance) is a known one within two letters of `name`. */
  predicate Resembles(known: seq<(string, string)>, name: string, shop: (string, nat)) {
    exists k :: k in known && k.0 == shop.0 && Lev(name, k.1) == shop.1 <= LOOKALIKE_MAX_DISTANCE
  }

  /** Entry n is the shop, and every earlier entry is further from `name`. */
  ghost predicate FirstAt(known: seq<(string, string)>, name: string, shop: (string, nat), n: nat)
    requires n < |known|
  {
    && known[n].0 == shop.0 && Lev(name, known[n].1) == shop.1
    && forall m :: 0 <= m < n ==> shop.1 < Lev(name, known[m].1)
  }

  /** A known shop closest to this one's name: the first of those at the least distance. */
  method Lookalike(merchantId: string, name: string, known: seq<(string, string)>)
    returns (best: Option<(string, nat)>)
    ensures best.None? <==>
      (exists k :: k in known && k.0 == merchantId) || (forall k :: k in known ==> Lev(name, k.1) > LOOKALIKE_MAX_DISTANCE)
    ensures best.Some? ==>
      && Resembles(known, name, best.value)
      && (forall k :: k in known ==> best.value.1 <= Lev(name, k.1))
      && (exists n :: 0 <= n < |known| && FirstAt(known, name, best.value, n))
  {
    best := None;
    for i := 0 to |known|
      invariant forall k :: 0 <= k < i ==> known[k].0 != merchantId
    {
      if known[i].0 == merchantId { return; }
    }
    for i := 0 to |known|
      invariant best.None? ==> forall k :: 0 <= k < i ==> Lev(name, known[k].1) > LOOKALIKE_MAX_DISTANCE
      invariant best.Some? ==> best.value.1 <= LOOKALIKE_MAX_DISTANCE
      invariant best.Some? ==> forall k :: 0 <= k < i ==> best.value.1 <= Lev(name, known[k].1)
      invariant best.Some? ==> exists n :: 0 <= n < i && FirstAt(known, name, best.value, n)
    {
      var distance := Distance(name, known[i].1);
      if distance <= LOOKALIKE_MAX_DISTANCE && (best.None? || distance < best.value.1) {
        best := Some((known[i].0, distance));
        assert FirstAt(known, name, best.value, i);
      }
    }
  }
}
