/** The draft's contradiction check (`_bounds_conflict`, backend/oneguard/compiler/lint.py:186):
    which groups of rules on one field it reports, and that these are the ones no value meets. */
module Lint {
  import opened Seqs
  import opened Types
  import opened PolicyRules

  /** One rule of a numeric group: the operator and the value compared, in hundredths. */
  datatype Bound = Bound(op: Operator, value: int)

  function BoundOf(r: Rule): Bound
    requires r.value.Num?
  {
    Bound(r.op, RuleValueChf(r).hundredths)
  }

  /** x, in hundredths, meets the bound. */
  predicate Meets(x: real, b: Bound) {
    match b.op
    case Lt => x < b.value as real
    case Le => x <= b.value as real
    case Eq => x == b.value as real
    case Ne => x != b.value as real
    case Gt => x > b.value as real
    case Ge => x >= b.value as real
    case In => true
    case NotIn => true
  }

  predicate IsLow(b: Bound) { b.op.Gt? || b.op.Ge? }
  predicate IsHigh(b: Bound) { b.op.Lt? || b.op.Le? }
  predicate IsEqual(b: Bound) { b.op.Eq? }
  predicate IsRange(b: Bound) { IsLow(b) || IsHigh(b) || IsEqual(b) }

  /** Some number meets every <, <=, =, >= and > of the group. */
  ghost predicate Satisfiable(bounds: seq<Bound>) {
    exists x: real :: MeetsRanges(x, bounds)
  }

  ghost predicate MeetsRanges(x: real, bounds: seq<Bound>) {
    forall b :: b in bounds && IsRange(b) ==> Meets(x, b)
  }

  // --- The tightest bounds ---------------------------------------------------------------

  /** `max(lows, key=(value, is ">"))`. */
  function TightestLow(bounds: seq<Bound>): (r: Option<Bound>)
    ensures r.None? <==> forall b :: b in bounds ==> !IsLow(b)
    ensures r.Some? ==> r.value in bounds && IsLow(r.value)
    ensures r.Some? ==> forall b :: b in bounds && IsLow(b) ==>
      b.value < r.value.value || (b.value == r.value.value && (b.op.Gt? ==> r.value.op.Gt?))
  {
    if bounds == [] then None
    else
      var b := bounds[|bounds| - 1];
      assert bounds == bounds[..|bounds| - 1] + [b];
      var rest := TightestLow(bounds[..|bounds| - 1]);
      if !IsLow(b) then rest
      else if rest.None? || rest.value.value < b.value || (rest.value.value == b.value && b.op.Gt?) then Some(b)
      else rest
  }

  /** `min(highs, key=(value, is "<="))`. */
  function TightestHigh(bounds: seq<Bound>): (r: Option<Bound>)
    ensures r.None? <==> forall b :: b in bounds ==> !IsHigh(b)
    ensures r.Some? ==> r.value in bounds && IsHigh(r.value)
    ensures r.Some? ==> forall b :: b in bounds && IsHigh(b) ==>
      b.value > r.value.value || (b.value == r.value.value && (b.op.Lt? ==> r.value.op.Lt?))
  {
    if bounds == [] then None
    else
      var b := bounds[|bounds| - 1];
      assert bounds == bounds[..|bounds| - 1] + [b];
      var rest := TightestHigh(bounds[..|bounds| - 1]);
      if !IsHigh(b) then rest
      else if rest.None? || rest.value.value > b.value || (rest.value.value == b.value && b.op.Lt?) then Some(b)
      else rest
  }

  function EqualValues(bounds: seq<Bound>): (r: seq<int>)
    ensures forall v :: v in r <==> Bound(Eq, v) in bounds
    ensures NoDuplicates(r)
  {
    var equals := Filter(bounds, IsEqual);
    var values := Map(equals, (b: Bound) => b.value);
    assert forall v :: v in values <==> Bound(Eq, v) in equals by {
      forall v ensures v in values <==> Bound(Eq, v) in equals {
        if Bound(Eq, v) in equals {
          var i :| 0 <= i < |equals| && equals[i] == Bound(Eq, v);
          assert values[i] == v;
        }
        if v in values {
          var i :| 0 <= i < |values| && values[i] == v;
          assert equals[i] in equals;
        }
      }
    }
    Dedupe(values)
  }

  predicate Crossed(lo: Option<Bound>, hi: Option<Bound>) {
    lo.Some? && hi.Some?
    && (lo.value.value > hi.value.value || (lo.value.value == hi.value.value && (lo.value.op.Gt? || hi.value.op.Lt?)))
  }

  predicate OutOfBounds(e: int, lo: Option<Bound>, hi: Option<Bound>) {
    || (lo.Some? && (e < lo.value.value || (e == lo.value.value && lo.value.op.Gt?)))
    || (hi.Some? && (e > hi.value.value || (e == hi.value.value && hi.value.op.Lt?)))
  }

  /** `bad` as the source computes it. */
  method NumericConflict(bounds: seq<Bound>) returns (bad: bool)
    ensures bad <==> !Satisfiable(bounds)
  {
    hide TightestLow, TightestHigh, EqualValues, Satisfiable;
    var lo, hi := TightestLow(bounds), TightestHigh(bounds);
    var equals := EqualValues(bounds);
    bad := |equals| > 1;
    if Crossed(lo, hi) {
      bad := true;
    }
    for i := 0 to |equals|
      invariant bad <==> |equals| > 1 || Crossed(lo, hi) || exists k :: 0 <= k < i && OutOfBounds(equals[k], lo, hi)
    {
      if OutOfBounds(equals[i], lo, hi) {
        bad := true;
      }
    }
    if bad {
      ConflictIsReal(bounds);
    } else {
      var x := Solution(bounds);
    }
  }

  ghost predicate Bad(bounds: seq<Bound>) {
    var lo, hi, equals := TightestLow(bounds), TightestHigh(bounds), EqualValues(bounds);
    |equals| > 1 || Crossed(lo, hi) || exists k :: 0 <= k < |equals| && OutOfBounds(equals[k], lo, hi)
  }

  lemma ConflictIsReal(bounds: seq<Bound>)
    requires Bad(bounds)
    ensures !Satisfiable(bounds)
  {
    var lo, hi, equals := TightestLow(bounds), TightestHigh(bounds), EqualValues(bounds);
    assert |equals| > 1 ==> equals[0] != equals[1];
    forall x: real ensures !MeetsRanges(x, bounds) {
      if MeetsRanges(x, bounds) {
        assert lo.Some? ==> Meets(x, lo.value);
        assert hi.Some? ==> Meets(x, hi.value);
        forall k | 0 <= k < |equals| ensures x == equals[k] as real {
          assert equals[k] in equals;
          assert Meets(x, Bound(Eq, equals[k]));
        }
      }
    }
  }

  /** A number that meets every range of a group without a conflict. */
  ghost function Witness(bounds: seq<Bound>): real {
    var lo, hi, equals := TightestLow(bounds), TightestHigh(bounds), EqualValues(bounds);
    if equals != [] then equals[0] as real
    else if lo.Some? && hi.Some? then (lo.value.value as real + hi.value.value as real) / 2.0
    else if lo.Some? then lo.value.value as real + 1.0
    else if hi.Some? then hi.value.value as real - 1.0
    else 0.0
  }

  lemma Solution(bounds: seq<Bound>) returns (x: real)
    requires !Bad(bounds)
    ensures MeetsRanges(x, bounds) && Satisfiable(bounds)
  {
    x := Witness(bounds);
    forall b | b in bounds && IsRange(b) ensures Meets(x, b) { WitnessMeets(bounds, b); }
  }

  lemma WitnessMeets(bounds: seq<Bound>, b: Bound)
    requires !Bad(bounds) && b in bounds && IsRange(b)
    ensures Meets(Witness(bounds), b)
  {
    var lo, hi, equals := TightestLow(bounds), TightestHigh(bounds), EqualValues(bounds);
    if equals != [] { assert !OutOfBounds(equals[0], lo, hi); }
    if IsEqual(b) { assert b.value in equals; }
  }

  // --- With "!=" --------------------------------------------------------------------------

  ghost predicate MeetsEvery(x: real, bounds: seq<Bound>) {
    forall b :: b in bounds ==> Meets(x, b)
  }

  /** The ranges leave exactly this value. */
  ghost predicate Pinned(bounds: seq<Bound>, v: int) {
    var lo, hi := TightestLow(bounds), TightestHigh(bounds);
    v in EqualValues(bounds) || (lo.Some? && hi.Some? && lo.value.value == v == hi.value.value)
  }

  lemma PinnedMeans(bounds: seq<Bound>, v: int, x: real)
    requires Pinned(bounds, v) && MeetsRanges(x, bounds)
    ensures x == v as real
  {
    var lo, hi := TightestLow(bounds), TightestHigh(bounds);
    if v in EqualValues(bounds) {
      assert Meets(x, Bound(Eq, v));
    } else {
      assert Meets(x, lo.value) && Meets(x, hi.value);
    }
  }

  /** Finitely many values never fill an interval. */
  lemma {:induction false} Avoid(a: real, b: real, bounds: seq<Bound>) returns (x: real)
    requires a < b
    ensures a < x < b && forall n :: n in bounds && n.op.Ne? ==> x != n.value as real
    decreases |bounds|
  {
    if bounds == [] {
      x := (a + b) / 2.0;
    } else {
      var init, last := bounds[..|bounds| - 1], bounds[|bounds| - 1];
      assert bounds == init + [last];
      var v := last.value as real;
      x := Avoid(a, if a < v < b then v else b, init);
    }
  }

  /** An open interval of solutions, when no value is pinned. */
  lemma OpenRange(bounds: seq<Bound>) returns (a: real, b: real)
    requires !Bad(bounds) && forall v :: !Pinned(bounds, v)
    ensures a < b && forall x :: a < x < b ==> MeetsRanges(x, bounds)
  {
    var lo, hi := TightestLow(bounds), TightestHigh(bounds);
    a := if lo.Some? then lo.value.value as real else if hi.Some? then hi.value.value as real - 1.0 else 0.0;
    b := if hi.Some? then hi.value.value as real else a + 1.0;
    if lo.Some? && hi.Some? { assert !Pinned(bounds, lo.value.value); }
    forall x | a < x < b ensures MeetsRanges(x, bounds) {
      forall r | r in bounds && IsRange(r) ensures Meets(x, r) {
        if IsEqual(r) {
          assert Bound(Eq, r.value) in bounds;
          assert Pinned(bounds, r.value);
        }
      }
    }
  }

  /** "!=" is not looked at. The check still decides groups with it, except where the ranges
      leave one value and a "!=" excludes that one. The vocabulary has "!=" on texts only, where the
      same holds (`TextExact`). */
  lemma ExactWithNotEqual(bounds: seq<Bound>)
    ensures (exists x: real :: MeetsEvery(x, bounds))
       <==> Satisfiable(bounds) && !(exists v :: Pinned(bounds, v) && Bound(Ne, v) in bounds)
  {
    hide TightestLow, TightestHigh, EqualValues, Bad;
    if x: real :| MeetsEvery(x, bounds) {
      assert MeetsRanges(x, bounds);
      forall v | Pinned(bounds, v) ensures Bound(Ne, v) !in bounds {
        PinnedMeans(bounds, v, x);
        assert !Meets(x, Bound(Ne, v));
      }
    }
    if Satisfiable(bounds) && !(exists v :: Pinned(bounds, v) && Bound(Ne, v) in bounds) {
      if Bad(bounds) { ConflictIsReal(bounds); }
      if v :| Pinned(bounds, v) {
        var x :| MeetsRanges(x, bounds);
        PinnedMeans(bounds, v, x);
        PinnedAvoids(bounds, v, x);
      } else {
        var a, b := OpenRange(bounds);
        var x := Avoid(a, b, bounds);
        assert MeetsRanges(x, bounds);
        AvoidMeets(bounds, x);
      }
    }
  }

  lemma PinnedAvoids(bounds: seq<Bound>, v: int, x: real)
    requires MeetsRanges(x, bounds) && x == v as real && Bound(Ne, v) !in bounds
    ensures MeetsEvery(x, bounds)
  {
    forall b | b in bounds ensures Meets(x, b) {
      if b.op.Ne? { assert b == Bound(Ne, b.value); }
    }
  }

  lemma AvoidMeets(bounds: seq<Bound>, x: real)
    requires MeetsRanges(x, bounds) && forall n :: n in bounds && n.op.Ne? ==> x != n.value as real
    ensures MeetsEvery(x, bounds)
  {
  }

  // --- Lists of names ---------------------------------------------------------------------

  predicate Allows(r: Rule) { r.op.In? && r.value.Names? }
  predicate Forbids(r: Rule) { r.op.NotIn? && r.value.Names? }

  /** A name every "in" list has and no "not in" list has. */
  ghost predicate Remains(group: seq<Rule>, name: string) {
    && (forall r :: r in group && Allows(r) ==> name in r.value.names)
    && (forall r :: r in group && Forbids(r) ==> name !in r.value.names)
  }

  function NamesIn(names: seq<string>): set<string> { set n | n in names }

  /** `set.intersection(*allowed)`. */
  function CommonNames(group: seq<Rule>): (names: Option<set<string>>)
    ensures names.None? <==> forall r :: r in group ==> !Allows(r)
    ensures names.Some? ==> forall n :: n in names.value <==> forall r :: r in group && Allows(r) ==> n in r.value.names
  {
    if group == [] then None
    else
      var r := group[|group| - 1];
      assert group == group[..|group| - 1] + [r];
      var rest := CommonNames(group[..|group| - 1]);
      if !Allows(r) then rest
      else if rest.None? then Some(NamesIn(r.value.names))
      else Some(rest.value * NamesIn(r.value.names))
  }

  function ForbiddenNames(group: seq<Rule>): (names: set<string>)
    ensures forall n :: n in names <==> exists r :: r in group && Forbids(r) && n in r.value.names
  {
    if group == [] then {}
    else
      var r := group[|group| - 1];
      assert group == group[..|group| - 1] + [r];
      ForbiddenNames(group[..|group| - 1]) + (if Forbids(r) then NamesIn(r.value.names) else {})
  }

  function EqualTo(group: seq<Rule>): set<Value> { set r | r in group && r.op.Eq? :: r.value }

  // --- The check --------------------------------------------------------------------------

  datatype Key = Key(field: Field, scope: Scope, periodDays: Option<nat>)
  datatype Conflict = CannotAllBeMet | NothingAllowed | DifferentValues
  datatype Issue = Issue(conflict: Conflict, ids: seq<string>)

  function KeyOf(r: Rule): Key { Key(r.field, r.scope, r.periodDays) }
  predicate Checkable(r: Rule) { !r.field.Unverifiable? }
  predicate IsNumeric(r: Rule) { r.value.Num? }
  function IdOf(r: Rule): string { r.id }

  function BoundsOf(group: seq<Rule>): (r: seq<Bound>)
    ensures forall b :: b in r <==> exists x :: x in group && x.value.Num? && b == BoundOf(x)
  {
    if group == [] then []
    else
      var r := group[|group| - 1];
      assert group == group[..|group| - 1] + [r];
      BoundsOf(group[..|group| - 1]) + (if r.value.Num? then [BoundOf(r)] else [])
  }

  /** What is wrong with a group, if anything. */
  ghost function ConflictOf(group: seq<Rule>): Option<Conflict> {
    if |group| < 2 then None
    else if exists r :: r in group && IsNumeric(r) then
      if Satisfiable(BoundsOf(group)) then None else Some(CannotAllBeMet)
    else if (exists r :: r in group && Allows(r)) && !(exists n :: Remains(group, n)) then Some(NothingAllowed)
    else if exists r, s :: r in group && s in group && r.op.Eq? && s.op.Eq? && r.value != s.value then Some(DifferentValues)
    else None
  }

  method GroupConflict(group: seq<Rule>) returns (conflict: Option<Conflict>)
    ensures conflict == ConflictOf(group)
  {
    hide Satisfiable;
    if |group| < 2 {
      return None;
    }
    var numeric := Filter(group, IsNumeric);
    if numeric != [] {
      var bad := NumericConflict(BoundsOf(group));
      return if bad then Some(CannotAllBeMet) else None;
    }
    var allowed, blocked, equal := CommonNames(group), ForbiddenNames(group), EqualTo(group);
    CommonMeansRemains(group);
    ManyValues(group);
    if allowed.Some? && allowed.value - blocked == {} {
      return Some(NothingAllowed);
    }
    if |equal| > 1 {
      return Some(DifferentValues);
    }
    return None;
  }

  lemma CommonMeansRemains(group: seq<Rule>)
    ensures CommonNames(group).Some? ==>
      (CommonNames(group).value - ForbiddenNames(group) == {} <==> !(exists n :: Remains(group, n)))
  {
    var allowed := CommonNames(group);
    if allowed.Some? {
      var left := allowed.value - ForbiddenNames(group);
      forall n ensures n in left <==> Remains(group, n) { }
      if left != {} {
        var n :| n in left;
        assert Remains(group, n);
      }
    }
  }

  lemma ManyValues(group: seq<Rule>)
    ensures |EqualTo(group)| > 1 <==>
      exists r, s :: r in group && s in group && r.op.Eq? && s.op.Eq? && r.value != s.value
  {
    var equal := EqualTo(group);
    if |equal| > 1 {
      var v :| v in equal;
      var w :| w in equal - {v} by { assert |equal - {v}| == |equal| - 1; }
    }
    if r, s :| r in group && s in group && r.op.Eq? && s.op.Eq? && r.value != s.value {
      assert {r.value, s.value} <= equal;
      SubsetSize({r.value, s.value}, equal);
    }
  }

  /** The rules of one key, in the draft's order. */
  function Group(rules: seq<Rule>, key: Key): seq<Rule> {
    Filter(rules, (r: Rule) => Checkable(r) && KeyOf(r) == key)
  }

  function KeysOf(rules: seq<Rule>): seq<Key> {
    Dedupe(Map(Filter(rules, Checkable), KeyOf))
  }

  /** One issue per group in conflict, in the order the groups first appear. */
  ghost function IssuesOf(rules: seq<Rule>, keys: seq<Key>): seq<Issue> {
    if keys == [] then []
    else
      var group := Group(rules, keys[|keys| - 1]);
      IssuesOf(rules, keys[..|keys| - 1])
      + (if ConflictOf(group).Some? then [Issue(ConflictOf(group).value, Map(group, IdOf))] else [])
  }

  method GroupRules(rules: seq<Rule>) returns (keys: seq<Key>, groups: map<Key, seq<Rule>>)
    ensures keys == KeysOf(rules)
    ensures forall k :: k in keys ==> k in groups && groups[k] == Group(rules, k)
  {
    hide KeysOf, Group;
    keys, groups := [], map[];
    NoGroups();
    for i := 0 to |rules|
      invariant keys == KeysOf(rules[..i])
      invariant forall k :: k in keys ==> k in groups && groups[k] == Group(rules[..i], k)
    {
      var r := rules[i];
      assert rules[..i + 1] == rules[..i] + [r];
      KeysNext(rules[..i], r);
      forall k ensures Group(rules[..i + 1], k) == if Checkable(r) && KeyOf(r) == k then Group(rules[..i], k) + [r] else Group(rules[..i], k) {
        GroupNext(rules[..i], r, k);
      }
      if r.field.Unverifiable? {
        continue;
      }
      var key := KeyOf(r);
      if key !in keys {
        UnseenKey(rules[..i], key);
        keys, groups := keys + [key], groups[key := []];
      }
      groups := groups[key := groups[key] + [r]];
    }
    assert rules[..|rules|] == rules;
  }

  lemma NoGroups()
    ensures KeysOf([]) == []
  {
  }

  lemma UnseenKey(rules: seq<Rule>, key: Key)
    requires key !in KeysOf(rules)
    ensures Group(rules, key) == []
  {
    var seen := Filter(rules, Checkable);
    forall r | r in rules && Checkable(r) ensures KeyOf(r) in Map(seen, KeyOf) {
      var i :| 0 <= i < |seen| && seen[i] == r;
      assert Map(seen, KeyOf)[i] == KeyOf(r);
    }
  }

  lemma KeysNext(rules: seq<Rule>, r: Rule)
    ensures KeysOf(rules + [r]) == if !Checkable(r) || KeyOf(r) in KeysOf(rules) then KeysOf(rules) else KeysOf(rules) + [KeyOf(r)]
  {
    FilterAppend(rules, r, Checkable);
    var seen := Filter(rules, Checkable);
    if Checkable(r) {
      assert Map(seen + [r], KeyOf) == Map(seen, KeyOf) + [KeyOf(r)];
      assert (Map(seen, KeyOf) + [KeyOf(r)])[..|seen|] == Map(seen, KeyOf);
    }
  }

  lemma GroupNext(rules: seq<Rule>, r: Rule, k: Key)
    ensures Group(rules + [r], k) == if Checkable(r) && KeyOf(r) == k then Group(rules, k) + [r] else Group(rules, k)
  {
    FilterAppend(rules, r, (x: Rule) => Checkable(x) && KeyOf(x) == k);
  }

  method BoundsConflict(rules: seq<Rule>) returns (issues: seq<Issue>)
    ensures issues == IssuesOf(rules, KeysOf(rules))
  {
    hide ConflictOf, KeysOf, Group, Map;
    var keys, groups := GroupRules(rules);
    issues := [];
    for i := 0 to |keys|
      invariant issues == IssuesOf(rules, keys[..i])
    {
      var group := groups[keys[i]];
      var conflict := GroupConflict(group);
      assert keys[..i + 1][..i] == keys[..i];
      if conflict.Some? {
        issues := issues + [Issue(conflict.value, Map(group, IdOf))];
      }
    }
    assert keys[..|keys|] == keys;
  }

  // --- Groups of texts ------------------------------------------------------------------------

  /** Rules that compare one text with "=" or "!=": a country, a city, a kind of shop. */
  ghost predicate TextGroup(group: seq<Rule>) {
    |group| >= 2 && forall r :: r in group ==> r.value.Text? && (r.op.Eq? || r.op.Ne?)
  }

  /** The text meets every rule of the group, as the engine compares. */
  ghost predicate MeetsTexts(t: string, group: seq<Rule>) {
    forall r :: r in group ==> Compare(TextAtom(t), r.op, r.value)
  }

  ghost predicate TwoEquals(group: seq<Rule>) {
    exists r, s :: r in group && s in group && r.op.Eq? && s.op.Eq? && r.value != s.value
  }

  /** The "=" ask for one text, up to case. */
  ghost predicate EqualsAgree(group: seq<Rule>)
    requires TextGroup(group)
  {
    forall r, s :: r in group && s in group && r.op.Eq? && s.op.Eq? ==> Lower(r.value.text) == Lower(s.value.text)
  }

  /** A "!=" names, up to case, what a "=" asks for. */
  ghost predicate EqualExcluded(group: seq<Rule>)
    requires TextGroup(group)
  {
    exists r, s :: r in group && s in group && r.op.Eq? && s.op.Ne? && Lower(r.value.text) == Lower(s.value.text)
  }

  /** On texts a conflict is reported exactly when two "=" differ. */
  lemma TextConflictIff(group: seq<Rule>)
    requires TextGroup(group)
    ensures ConflictOf(group).Some? <==> TwoEquals(group)
  {
    hide Satisfiable, Remains;
  }

  /** Some text meets every rule of the group exactly when the "=" agree and no "!=" names what they
      ask for. So the check misses a contradiction exactly where all "=" are one text and a "!=" names
      it, and reports one that is none exactly where the "=" differ only in case. */
  lemma TextExact(group: seq<Rule>)
    requires TextGroup(group)
    ensures (exists t :: MeetsTexts(t, group)) <==> EqualsAgree(group) && !EqualExcluded(group)
    ensures ConflictOf(group).None? && !(exists t :: MeetsTexts(t, group)) <==> !TwoEquals(group) && EqualExcluded(group)
    ensures ConflictOf(group).Some? && (exists t :: MeetsTexts(t, group)) <==>
      TwoEquals(group) && EqualsAgree(group) && !EqualExcluded(group)
  {
    hide ConflictOf, Lower;
    TextConflictIff(group);
    if t :| MeetsTexts(t, group) {
      TextMeets(t, group);
    }
    if EqualsAgree(group) && !EqualExcluded(group) {
      var t := TextFor(group);
    }
  }

  /** Texts taken from a list in which no two differ only in case, as the compiler takes countries,
      cities and kinds of shop, never raise such a false alarm. */
  lemma ListedTextsAreSafe(group: seq<Rule>, list: seq<string>)
    requires TextGroup(group) && forall r :: r in group ==> r.value.text in list
    requires forall a, b :: a in list && b in list && Lower(a) == Lower(b) ==> a == b
    ensures ConflictOf(group).Some? ==> !(exists t :: MeetsTexts(t, group))
  {
    hide ConflictOf, Lower;
    TextExact(group);
  }

  lemma TextMeets(t: string, group: seq<Rule>)
    requires TextGroup(group) && MeetsTexts(t, group)
    ensures EqualsAgree(group) && !EqualExcluded(group)
  {
    hide Lower;
    forall r | r in group ensures (r.op.Eq? <==> Lower(t) == Lower(r.value.text)) {
      assert Compare(TextAtom(t), r.op, r.value);
    }
  }

  lemma TextFor(group: seq<Rule>) returns (t: string)
    requires TextGroup(group) && EqualsAgree(group) && !EqualExcluded(group)
    ensures MeetsTexts(t, group)
  {
    if r :| r in group && r.op.Eq? {
      hide Lower;
      t := r.value.text;
    } else {
      t := Unlike(Map(group, (r: Rule) => if r.value.Text? then r.value.text else ""));
      forall r | r in group ensures Lower(t) != Lower(r.value.text) {
        var i :| 0 <= i < |group| && group[i] == r;
      }
    }
  }

  /** A text unlike each of these, whatever their case: a longer one. */
  lemma {:induction false} Unlike(texts: seq<string>) returns (t: string)
    ensures forall i :: 0 <= i < |texts| ==> |t| > |texts[i]| && Lower(t) != Lower(texts[i])
    decreases |texts|
  {
    hide Lower;
    if texts == [] {
      t := "";
    } else {
      var n := |texts| - 1;
      t := Unlike(texts[..n]);
      t := t + texts[n] + ['x'];
    }
    forall i | 0 <= i < |texts| ensures Lower(t) != Lower(texts[i]) {
      LowerLength(t);
      LowerLength(texts[i]);
      assert i < |texts| - 1 ==> texts[..|texts| - 1][i] == texts[i];
    }
  }

  lemma LowerLength(s: string)
    ensures |Lower(s)| == |s|
  {
  }

  /** The missed case: a shop in Switzerland, and not in Switzerland. */
  lemma EqualExcludedMissed(a: Rule, b: Rule)
    requires a.field.MerchantCountry? && a.op.Eq? && a.value == Text("CH")
    requires b == a.(id := b.id, op := Ne, text := b.text)
    ensures ConflictOf([a, b]).None? && forall t :: !MeetsTexts(t, [a, b])
  {
    hide ConflictOf, Lower;
    var group := [a, b];
    assert group[0] == a && group[1] == b;
    TextExact(group);
  }

  // --- Groups of lists ------------------------------------------------------------------------

  ghost predicate ListGroup(group: seq<Rule>) {
    |group| >= 2 && forall r :: r in group ==> Allows(r) || Forbids(r)
  }

  /** The name is in every "in" list and in no "not in" list, as the engine compares. */
  ghost predicate MeetsLists(name: string, group: seq<Rule>) {
    forall r :: r in group ==> Compare(TextAtom(name), r.op, r.value)
  }

  ghost predicate Listed(group: seq<Rule>, name: string) {
    exists r :: r in group && r.value.Names? && name in r.value.names
  }

  /** No two names of the group differ only in case. */
  ghost predicate CaseSafeNames(group: seq<Rule>) {
    forall m, n :: Listed(group, m) && Listed(group, n) && Lower(m) == Lower(n) ==> m == n
  }

  /** Lower-cased lists, as the compiler writes them, are safe. */
  lemma LowerCaseIsSafe(group: seq<Rule>)
    requires forall n :: Listed(group, n) ==> Lower(n) == n
    ensures CaseSafeNames(group)
  {
  }

  /** On lists a conflict is reported exactly when the engine lets no name through all of them. */
  lemma ListExact(group: seq<Rule>)
    requires ListGroup(group) && CaseSafeNames(group)
    ensures ConflictOf(group).None? <==> exists name :: MeetsLists(name, group)
  {
    hide Satisfiable, Lower, Remains, CaseSafeNames;
    if name :| MeetsLists(name, group) {
      if a :| a in group && Allows(a) {
        var n := RemainsOf(name, group, a);
      }
    }
    if ConflictOf(group).None? {
      if a :| a in group && Allows(a) {
        var n :| Remains(group, n);
        RemainsMeets(n, group, a);
      } else {
        var name := Unlisted(group);
      }
    }
  }

  lemma RemainsOf(name: string, group: seq<Rule>, a: Rule) returns (n: string)
    requires ListGroup(group) && CaseSafeNames(group) && MeetsLists(name, group) && a in group && Allows(a)
    ensures Remains(group, n)
  {
    hide Lower;
    assert Compare(TextAtom(name), a.op, a.value);
    n :| n in a.value.names && Lower(n) == Lower(name);
    assert Listed(group, n);
    forall r | r in group && Allows(r) ensures n in r.value.names {
      assert Compare(TextAtom(name), r.op, r.value);
      var m :| m in r.value.names && Lower(m) == Lower(name);
      assert Listed(group, m);
    }
    forall r | r in group && Forbids(r) ensures n !in r.value.names {
      assert Compare(TextAtom(name), r.op, r.value);
    }
  }

  lemma RemainsMeets(n: string, group: seq<Rule>, a: Rule)
    requires ListGroup(group) && CaseSafeNames(group) && Remains(group, n) && a in group && Allows(a)
    ensures MeetsLists(n, group)
  {
    hide Lower;
    assert Listed(group, n);
    forall r | r in group ensures Compare(TextAtom(n), r.op, r.value) {
      if Forbids(r) {
        forall m | m in r.value.names ensures Lower(m) != Lower(n) { assert Listed(group, m); }
      }
    }
  }

  lemma {:induction false} Unlisted(group: seq<Rule>) returns (name: string)
    requires forall r :: r in group ==> Forbids(r)
    ensures MeetsLists(name, group)
  {
    hide Lower;
    var names := AllNames(group);
    name := Unlike(names);
    forall r | r in group ensures Compare(TextAtom(name), r.op, r.value) {
      forall n | n in r.value.names ensures Lower(n) != Lower(name) {
        assert n in names;
        var i :| 0 <= i < |names| && names[i] == n;
      }
    }
  }

  function AllNames(group: seq<Rule>): (names: seq<string>)
    ensures forall r, n :: r in group && r.value.Names? && n in r.value.names ==> n in names
  {
    if group == [] then []
    else
      var r := group[|group| - 1];
      assert group == group[..|group| - 1] + [r];
      AllNames(group[..|group| - 1]) + (if r.value.Names? then r.value.names else [])
  }
}
