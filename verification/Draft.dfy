/** From readings to rules (backend/oneguard/compiler/draft.py): identical restrictions are kept
    once, each rule gets an id of its own, and the policy's flags restate what the rules say. */
module Draft {
  import opened Seqs
  import opened Types
  import opened PolicyRules

  /** One restriction as read from the instruction. */
  datatype Spec = Spec(
    field: Field, op: Operator, value: Value, currency: Option<Currency>, scope: Scope,
    periodDays: Option<nat>, text: string, asksOnFail: bool)

  /** The flags of a draft that restate its rules; the absent ones are empty. */
  datatype Flags = Flags(allowed: seq<string>, blocked: seq<string>, shopType: Option<string>, requiresKnownShop: bool)

  datatype Finalized = Finalized(rules: seq<Rule>, flags: Flags)

  // --- Ids ----------------------------------------------------------------------------------

  /** The id a restriction starts from; None is the source's KeyError on an unknown field. */
  function BaseId(s: Spec): Option<string> {
    match s.field
    case BillingAmount => Some(if s.scope.PerPeriod? then "C2" else "C1")
    case ItemCategory => Some(if s.op.In? then "C3" else "C4")
    case ContainsAlcohol => Some("C4-alcohol")
    case SizeEu => Some("C6")
    case SizeLetter => Some("C6")
    case ReturnWindow => Some("C7")
    case Returnable => Some("C7")
    case Cancellable => Some("C7")
    case MerchantCategory => Some("C8")
    case FamiliarOnCard => Some("C9")
    case Unverifiable => Some("U1")
    case CartQuantity => Some("C12-qty")
    case LineQuantity => Some("C12-qty")
    case PurchasesInPeriod => Some("C12-count")
    case UnitPrice => Some("C12-price")
    case MerchantCountry => Some("C12-country")
    case MerchantCity => Some("C12-city")
    case DeliveryBy => Some("C12-delivery")
    case Weekday => Some("C12-day")
    case LocalHour => Some("C12-hour")
    case CartRecurring => Some("C12-recurring")
    case KnownShop => None
    case OtherField(_) => None
  }

  function StemOf(base: string): string {
    if base == "U1" then "U" else base + "-"
  }

  function Numbered(stem: string, n: nat): string { stem + Numeral(n) }

  lemma NumberedInjective(stem: string, m: nat, n: nat)
    requires Numbered(stem, m) == Numbered(stem, n)
    ensures m == n
  {
    assert Numbered(stem, m)[|stem|..] == Numeral(m) && Numbered(stem, n)[|stem|..] == Numeral(n);
    NumeralInjective(m, n);
  }

  /** The least number from 2 whose name is free. The search ends because the numbered names
      are all different and only finitely many are taken. */
  method FirstFree(stem: string, taken: set<string>) returns (n: nat)
    ensures n >= 2 && Numbered(stem, n) !in taken
    ensures AllTaken(stem, n, taken)
  {
    hide Numbered, TriedBefore, AllTaken;
    n := 2;
    ghost var tried: set<string> := {};
    NoneTried(stem, taken);
    while Numbered(stem, n) in taken
      invariant n >= 2 && tried <= taken
      invariant TriedBefore(stem, tried, n) && AllTaken(stem, n, taken)
      decreases |taken - tried|
    {
      NotTriedYet(stem, tried, n);
      FewerLeft(taken, tried, Numbered(stem, n));
      OneMoreTaken(stem, n, taken);
      tried := tried + {Numbered(stem, n)};
      n := n + 1;
    }
  }

  ghost predicate AllTaken(stem: string, n: nat, taken: set<string>) {
    forall k: nat :: 2 <= k < n ==> Numbered(stem, k) in taken
  }

  lemma OneMoreTaken(stem: string, n: nat, taken: set<string>)
    requires AllTaken(stem, n, taken) && Numbered(stem, n) in taken
    ensures AllTaken(stem, n + 1, taken)
  {
  }

  /** `_unique`: the base, else the first free number after it. */
  method Unique(base: string, taken: set<string>) returns (id: string)
    ensures id !in taken
    ensures base !in taken ==> id == base
    ensures base in taken ==>
      exists n: nat :: n >= 2 && id == Numbered(StemOf(base), n) && AllTaken(StemOf(base), n, taken)
  {
    hide Numbered, AllTaken;
    if base !in taken {
      return base;
    }
    var n := FirstFree(StemOf(base), taken);
    id := Numbered(StemOf(base), n);
  }

  ghost predicate TriedBefore(stem: string, tried: set<string>, n: nat) {
    forall x :: x in tried ==> exists k: nat :: k < n && x == Numbered(stem, k)
  }

  lemma NoneTried(stem: string, taken: set<string>)
    ensures TriedBefore(stem, {}, 2) && AllTaken(stem, 2, taken)
  {
  }

  lemma NotTriedYet(stem: string, tried: set<string>, n: nat)
    requires TriedBefore(stem, tried, n)
    ensures Numbered(stem, n) !in tried
    ensures TriedBefore(stem, tried + {Numbered(stem, n)}, n + 1)
  {
    if Numbered(stem, n) in tried {
      var k: nat :| k < n && Numbered(stem, n) == Numbered(stem, k);
      NumberedInjective(stem, k, n);
    }
    forall x | x in tried + {Numbered(stem, n)} ensures exists k: nat :: k < n + 1 && x == Numbered(stem, k) {
      if x in tried {
        var k: nat :| k < n && x == Numbered(stem, k);
        assert k < n + 1;
      } else {
        assert n < n + 1 && x == Numbered(stem, n);
      }
    }
  }

  lemma FewerLeft(taken: set<string>, tried: set<string>, x: string)
    requires x in taken - tried
    ensures |taken - (tried + {x})| < |taken - tried|
  {
    assert taken - tried == (taken - (tried + {x})) + {x};
  }

  // --- Which restrictions are kept ------------------------------------------------------------

  /** What makes two readings the same restriction. Whether a broken rule asks is not part. */
  datatype SpecKey = SpecKey(field: Field, op: Operator, value: Value, currency: Option<Currency>, scope: Scope, periodDays: Option<nat>)

  function KeyOf(s: Spec): SpecKey { SpecKey(s.field, s.op, s.value, s.currency, s.scope, s.periodDays) }

  /** The first reading of each restriction, in order. */
  function FirstReadings(specs: seq<Spec>): (r: seq<Spec>)
    ensures forall s :: s in r ==> s in specs
  {
    if specs == [] then []
    else
      var rest, last := FirstReadings(specs[..|specs| - 1]), specs[|specs| - 1];
      if exists s :: s in rest && KeyOf(s) == KeyOf(last) then rest else rest + [last]
  }

  /** Each distinct restriction is kept once, where it first occurs. */
  lemma {:induction false} KeptOnce(specs: seq<Spec>)
    ensures Map(FirstReadings(specs), KeyOf) == Dedupe(Map(specs, KeyOf))
  {
    if specs != [] {
      var init, last := specs[..|specs| - 1], specs[|specs| - 1];
      KeptOnce(init);
      var kept := FirstReadings(init);
      assert Map(specs, KeyOf)[..|init|] == Map(init, KeyOf);
      assert KeyOf(last) in Map(kept, KeyOf) <==> exists s :: s in kept && KeyOf(s) == KeyOf(last) by {
        if s :| s in kept && KeyOf(s) == KeyOf(last) {
          var i :| 0 <= i < |kept| && kept[i] == s;
          assert Map(kept, KeyOf)[i] == KeyOf(last);
        }
        if KeyOf(last) in Map(kept, KeyOf) {
          var i :| 0 <= i < |kept| && Map(kept, KeyOf)[i] == KeyOf(last);
          assert kept[i] in kept;
        }
      }
      assert Map(kept + [last], KeyOf) == Map(kept, KeyOf) + [KeyOf(last)];
    }
  }

  /** specs[i] is the first reading of its restriction. */
  ghost predicate StandsFirst(specs: seq<Spec>, i: int) {
    0 <= i < |specs| && forall j :: 0 <= j < i ==> KeyOf(specs[j]) != KeyOf(specs[i])
  }

  /** It is the first reading of its restriction. */
  ghost predicate IsFirst(specs: seq<Spec>, s: Spec) { exists i :: StandsFirst(specs, i) && specs[i] == s }

  predicate HasKey(specs: seq<Spec>, key: SpecKey) { exists s :: s in specs && KeyOf(s) == key }

  lemma FirstAppend(specs: seq<Spec>, last: Spec, s: Spec)
    ensures IsFirst(specs + [last], s) <==> IsFirst(specs, s) || (s == last && !HasKey(specs, KeyOf(last)))
  {
    var n, longer := |specs|, specs + [last];
    forall i | 0 <= i < n ensures StandsFirst(longer, i) <==> StandsFirst(specs, i) {
      forall j | 0 <= j <= i ensures longer[j] == specs[j] { }
    }
    assert longer[n] == last && forall j :: 0 <= j < n ==> longer[j] == specs[j];
    assert StandsFirst(longer, n) <==> !HasKey(specs, KeyOf(last)) by {
      forall j | 0 <= j < n ensures specs[j] in specs { }
    }
    if IsFirst(specs, s) {
      var i :| StandsFirst(specs, i) && specs[i] == s;
      assert StandsFirst(longer, i) && longer[i] == s;
    }
  }

  lemma {:induction false} KeyKept(specs: seq<Spec>, key: SpecKey)
    ensures HasKey(FirstReadings(specs), key) <==> HasKey(specs, key)
  {
    if specs != [] {
      var init, last := specs[..|specs| - 1], specs[|specs| - 1];
      assert specs == init + [last];
      KeyKept(init, key);
    }
  }

  /** A reading is kept exactly when it stands first among the readings of its restriction. */
  lemma {:induction false} KeptIffFirst(specs: seq<Spec>, s: Spec)
    ensures s in FirstReadings(specs) <==> IsFirst(specs, s)
  {
    if specs != [] {
      var init, last := specs[..|specs| - 1], specs[|specs| - 1];
      assert specs == init + [last];
      KeptIffFirst(init, s);
      KeyKept(init, KeyOf(last));
      FirstAppend(init, last, s);
      hide IsFirst;
    }
  }

  lemma {:induction false} FirstOf(specs: seq<Spec>, j: nat) returns (k: nat)
    requires j < |specs|
    ensures k <= j && StandsFirst(specs, k) && KeyOf(specs[k]) == KeyOf(specs[j])
  {
    k := j;
    if !StandsFirst(specs, j) {
      var i :| 0 <= i < j && KeyOf(specs[i]) == KeyOf(specs[j]);
      k := FirstOf(specs, i);
    }
  }

  /** `finalize` is meant to drop exact duplicates only. It keeps every reading exactly when no two
      different readings are of one restriction. */
  lemma NothingLostIff(specs: seq<Spec>)
    ensures (forall s :: s in specs ==> s in FirstReadings(specs)) <==>
      forall s, t :: s in specs && t in specs && KeyOf(s) == KeyOf(t) ==> s == t
  {
    hide FirstReadings;
    if forall s :: s in specs ==> s in FirstReadings(specs) {
      forall s, t | s in specs && t in specs && KeyOf(s) == KeyOf(t) ensures s == t {
        KeptIffFirst(specs, s);
        KeptIffFirst(specs, t);
      }
    }
    if forall s, t :: s in specs && t in specs && KeyOf(s) == KeyOf(t) ==> s == t {
      forall s | s in specs ensures s in FirstReadings(specs) {
        var j :| 0 <= j < |specs| && specs[j] == s;
        var k := FirstOf(specs, j);
        assert specs[k] in specs;
        KeptIffFirst(specs, s);
      }
    }
  }

  /** Some asking reading of the restriction has no declining one before it. */
  ghost predicate AsksFirst(specs: seq<Spec>, key: SpecKey) {
    exists i :: 0 <= i < |specs| && KeyOf(specs[i]) == key && specs[i].asksOnFail && NoneDeclines(specs, key, i)
  }

  ghost predicate NoneDeclines(specs: seq<Spec>, key: SpecKey, i: int)
    requires i <= |specs|
  {
    forall j :: 0 <= j < i ==> KeyOf(specs[j]) != key || specs[j].asksOnFail
  }

  lemma AsksFirstIff(specs: seq<Spec>, first: nat)
    requires StandsFirst(specs, first)
    ensures AsksFirst(specs, KeyOf(specs[first])) <==> specs[first].asksOnFail
  {
    if specs[first].asksOnFail { assert NoneDeclines(specs, KeyOf(specs[first]), first); }
  }

  lemma KeptOfKey(specs: seq<Spec>, first: nat)
    requires StandsFirst(specs, first)
    ensures forall k :: k in FirstReadings(specs) && KeyOf(k) == KeyOf(specs[first]) <==> k == specs[first]
  {
    hide FirstReadings;
    forall k ensures k in FirstReadings(specs) && KeyOf(k) == KeyOf(specs[first]) <==> k == specs[first] {
      KeptIffFirst(specs, k);
    }
  }

  /** A restriction read as declining only asks once finalized exactly when an asking reading of it
      stands before every declining one. */
  lemma SoftenedIff(specs: seq<Spec>, declines: Spec)
    requires declines in specs && !declines.asksOnFail
    ensures (exists k :: k in FirstReadings(specs) && KeyOf(k) == KeyOf(declines) && k.asksOnFail) <==> AsksFirst(specs, KeyOf(declines))
    ensures (forall k :: k in FirstReadings(specs) && KeyOf(k) == KeyOf(declines) ==> k.asksOnFail) <==> AsksFirst(specs, KeyOf(declines))
  {
    hide FirstReadings, AsksFirst, StandsFirst;
    var j :| 0 <= j < |specs| && specs[j] == declines;
    var first := FirstOf(specs, j);
    KeptOfKey(specs, first);
    AsksFirstIff(specs, first);
  }

  /** So of two readings that differ only in whether a broken rule asks, the first is kept: a
      declining one read second is lost. */
  lemma FirstReadingWins(asks: Spec)
    requires asks.asksOnFail
    ensures FirstReadings([asks, asks.(asksOnFail := false)]) == [asks]
  {
    var both := [asks, asks.(asksOnFail := false)];
    assert both[..1] == [asks] && [asks][..0] == [];
    assert FirstReadings([asks]) == [asks];
    assert asks in [asks] && KeyOf(asks) == KeyOf(both[1]);
  }

  // --- Rules ----------------------------------------------------------------------------------

  predicate Restates(r: Rule, s: Spec) {
    && r.field == s.field && r.op == s.op && r.value == s.value && r.currency == s.currency
    && r.scope == s.scope && r.periodDays == s.periodDays && r.text == s.text && r.asksOnFail == s.asksOnFail
  }

  predicate InVocabulary(s: Spec) { BaseId(s).Some? }

  ghost predicate DistinctIds(rules: seq<Rule>) {
    forall i, j :: 0 <= i < j < |rules| ==> rules[i].id != rules[j].id
  }

  method ToRule(s: Spec, taken: set<string>) returns (r: Rule)
    requires InVocabulary(s)
    ensures r.id !in taken && Restates(r, s) && FreeId(r.id)
  {
    var base := BaseId(s).value;
    if s.asksOnFail {
      base := base + "-same";
    }
    hide PlainId, FreeId, Numbered;
    var id := Unique(base, taken);
    BaseIsPlain(s);
    if base in taken {
      var n: nat :| n >= 2 && id == Numbered(StemOf(base), n);
      NumberedIsPlain(base, n);
    }
    PlainIsFree(id);
    r := Rule(id, s.field, s.op, s.value, s.currency, s.scope, s.periodDays, s.text, s.asksOnFail);
  }

  const BASES := {"C1", "C2", "C3", "C4", "C6", "C7", "C8", "C9"}

  /** The shape of every id given here: a base, a name with a dash in it, or a U. */
  predicate PlainId(id: string) {
    id in BASES || '-' in id || (id != "" && id[0] == 'U')
  }

  /** Not a step-1 check, the id of a flag's check, or the key the flags are stored under. */
  predicate FreeId(id: string) {
    id !in STEP1_IDS && id != "C5" && id != "C10" && id != "requested_item" && id != "nothing_extra" && id != "__policy__"
  }

  lemma PlainIsFree(id: string)
    requires PlainId(id)
    ensures FreeId(id)
  {
  }

  lemma BaseIsPlain(s: Spec)
    requires InVocabulary(s)
    ensures PlainId(BaseId(s).value) && PlainId(BaseId(s).value + "-same")
  {
    var base := BaseId(s).value;
    assert (base + "-same")[|base|] == '-';
    if base == "C4-alcohol" { assert base[2] == '-'; }
    if base in ["C12-qty", "C12-count", "C12-price", "C12-country", "C12-city", "C12-delivery", "C12-day", "C12-hour", "C12-recurring"] {
      assert base[3] == '-';
    }
    if base == "U1" { assert base[0] == 'U'; }
  }

  lemma NumberedIsPlain(base: string, n: nat)
    ensures PlainId(Numbered(StemOf(base), n))
  {
    var id := Numbered(StemOf(base), n);
    if base == "U1" {
      assert id[0] == 'U';
    } else {
      assert id[|base|] == '-';
    }
  }

  // --- Flags ----------------------------------------------------------------------------------

  /** The values the rules of a field and operator name, in order. */
  function NamedBy(rules: seq<Rule>, field: Field, op: Operator): (r: seq<string>)
    ensures r != [] ==> exists x :: x in rules && x.field == field && x.op == op
  {
    if rules == [] then []
    else
      var x := rules[|rules| - 1];
      assert rules == rules[..|rules| - 1] + [x];
      NamedBy(rules[..|rules| - 1], field, op) + (if x.field == field && x.op == op then ValuesOf(x) else [])
  }

  function FlagsFrom(rules: seq<Rule>): Flags {
    var shops := Dedupe(NamedBy(rules, MerchantCategory, Eq));
    Flags(Dedupe(NamedBy(rules, ItemCategory, In)), Dedupe(NamedBy(rules, ItemCategory, NotIn)),
          if shops == [] then None else Some(shops[0]),
          exists r :: r in rules && r.field.FamiliarOnCard? && !r.asksOnFail)
  }

  /** `finalize`: None when a field is outside the vocabulary. */
  method Finalize(specs: seq<Spec>) returns (draft: Option<Finalized>)
    ensures draft.None? <==> exists s :: s in FirstReadings(specs) && !InVocabulary(s)
    ensures draft.Some? ==>
      var rules, kept := draft.value.rules, FirstReadings(specs);
      && |rules| == |kept| && (forall i :: 0 <= i < |rules| ==> Restates(rules[i], kept[i]))
      && DistinctIds(rules) && (forall r :: r in rules ==> FreeId(r.id))
      && draft.value.flags == FlagsFrom(rules)
  {
    hide FirstReadings, FlagsFrom, FreeId, BaseId, Restates;
    var kept := Kept(specs);
    var taken: set<string>, rules: seq<Rule> := {}, [];
    for i := 0 to |kept|
      invariant |rules| == i && taken == set r | r in rules :: r.id
      invariant forall k :: 0 <= k < i ==> Restates(rules[k], kept[k]) && InVocabulary(kept[k])
      invariant DistinctIds(rules) && forall r :: r in rules ==> FreeId(r.id)
    {
      if BaseId(kept[i]).None? {
        assert kept[i] in kept && !InVocabulary(kept[i]);
        return None;
      }
      var r := ToRule(kept[i], taken);
      forall k | 0 <= k < |rules| ensures rules[k].id != r.id { assert rules[k] in rules; }
      rules := rules + [r];
      taken := taken + {r.id};
    }
    forall s | s in kept ensures InVocabulary(s) { }
    draft := Some(Finalized(rules, FlagsFrom(rules)));
  }

  /** The source's loop over a set of seen keys. */
  method Kept(specs: seq<Spec>) returns (unique: seq<Spec>)
    ensures unique == FirstReadings(specs)
  {
    var seen: set<SpecKey> := {};
    unique := [];
    for i := 0 to |specs|
      invariant unique == FirstReadings(specs[..i])
      invariant seen == set s | s in unique :: KeyOf(s)
    {
      assert specs[..i + 1][..i] == specs[..i];
      if KeyOf(specs[i]) !in seen {
        seen, unique := seen + {KeyOf(specs[i])}, unique + [specs[i]];
      }
    }
    assert specs[..|specs|] == specs;
  }
}
