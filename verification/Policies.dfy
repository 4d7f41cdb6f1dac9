/** Stored policies (backend/oneguard/api/policies.py) and tightening one
    (backend/oneguard/api/routes_customer.py:574): what is stored is what is loaded, accepting and
    tightening keep every flag restated by a rule, and a tightening only adds rules. */
module Policies {
  import opened Seqs
  import opened Types
  import opened PolicyRules
  import opened Draft

  datatype PolicyFlags = PolicyFlags(
    requestedItem: Option<Wanted>, allowed: seq<string>, blocked: seq<string>, requiresKnownShop: bool,
    nothingExtra: bool, shopType: Option<string>, singleItem: bool)

  // --- Storing and loading --------------------------------------------------------------------

  datatype Doc = RuleDoc(rule: Rule) | FlagsDoc(flags: PolicyFlags)

  const POLICY_KEY := "__policy__"
  const REQUESTED_ITEM_CHECK := "requested_item"
  const NOTHING_EXTRA_CHECK := "nothing_extra"

  /** Rules by id, a later one replacing an earlier of the same id. */
  function RuleDocs(rules: seq<Rule>): (docs: map<string, Doc>)
    ensures forall id :: id in docs <==> exists r :: r in rules && r.id == id
    ensures forall id :: id in docs ==> docs[id].RuleDoc? && docs[id].rule in rules && docs[id].rule.id == id
  {
    if rules == [] then map[]
    else
      var r := rules[|rules| - 1];
      assert rules == rules[..|rules| - 1] + [r];
      RuleDocs(rules[..|rules| - 1])[r.id := RuleDoc(r)]
  }

  function StoreRules(rules: seq<Rule>, flags: PolicyFlags): map<string, Doc> {
    RuleDocs(rules)[POLICY_KEY := FlagsDoc(flags)]
  }

  /** The checks that only show a flag. */
  function FlagChecks(flags: PolicyFlags): seq<string> {
    (if flags.requestedItem.Some? && flags.requestedItem.value.text != "" then [REQUESTED_ITEM_CHECK] else [])
    + (if flags.nothingExtra then [NOTHING_EXTRA_CHECK] else [])
  }

  function RuleId(r: Rule): string { r.id }

  function PolicyChecks(rules: seq<Rule>, flags: PolicyFlags): seq<string> {
    Map(rules, RuleId) + FlagChecks(flags)
  }

  /** The stored rules of the checks, in check order; None when a check names the flags. */
  function LoadedRules(stored: map<string, Doc>, checks: seq<string>): Option<seq<Rule>> {
    if checks == [] then Some([])
    else
      var rest, id := LoadedRules(stored, checks[..|checks| - 1]), checks[|checks| - 1];
      if rest.None? then None
      else if id !in stored then rest
      else if stored[id].RuleDoc? then Some(rest.value + [stored[id].rule])
      else None
  }

  function LoadRules(stored: map<string, Doc>, checks: seq<string>): Option<(seq<Rule>, PolicyFlags)> {
    var rules := LoadedRules(stored, checks);
    if rules.Some? && POLICY_KEY in stored && stored[POLICY_KEY].FlagsDoc?
    then Some((rules.value, stored[POLICY_KEY].flags)) else None
  }

  ghost predicate SameIdSameRule(rules: seq<Rule>) {
    forall r, s :: r in rules && s in rules && r.id == s.id ==> r == s
  }

  /** No rule uses the flags' key, nor the id of a check that shows a flag. */
  ghost predicate IdsFree(rules: seq<Rule>, flags: PolicyFlags) {
    forall r :: r in rules ==> r.id != POLICY_KEY && r.id !in FlagChecks(flags)
  }

  lemma LoadedNext(stored: map<string, Doc>, rules: seq<Rule>)
    requires rules != [] && forall r :: r in rules ==> r.id in stored
    ensures
      var rest, doc := LoadedRules(stored, Map(rules[..|rules| - 1], RuleId)), stored[rules[|rules| - 1].id];
      LoadedRules(stored, Map(rules, RuleId)) == if rest.Some? && doc.RuleDoc? then Some(rest.value + [doc.rule]) else None
  {
    assert Map(rules, RuleId)[..|rules| - 1] == Map(rules[..|rules| - 1], RuleId);
  }

  lemma {:induction false} LoadedRuleChecks(stored: map<string, Doc>, rules: seq<Rule>)
    requires forall r :: r in rules ==> r.id in stored
    ensures (exists r :: r in rules && !stored[r.id].RuleDoc?) ==> LoadedRules(stored, Map(rules, RuleId)).None?
    ensures (forall r :: r in rules ==> stored[r.id].RuleDoc?) ==>
      var loaded := LoadedRules(stored, Map(rules, RuleId));
      loaded.Some? && |loaded.value| == |rules| && forall i :: 0 <= i < |rules| ==> loaded.value[i] == stored[rules[i].id].rule
  {
    if rules != [] {
      var init, last := rules[..|rules| - 1], rules[|rules| - 1];
      assert rules == init + [last];
      LoadedRuleChecks(stored, init);
      LoadedNext(stored, rules);
      hide LoadedRules, Map;
    }
  }

  lemma {:induction false} LoadedMore(stored: map<string, Doc>, checks: seq<string>, more: seq<string>)
    requires forall id :: id in more && id in stored ==> stored[id].RuleDoc?
    ensures LoadedRules(stored, checks).None? ==> LoadedRules(stored, checks + more).None?
    ensures LoadedRules(stored, checks).Some? ==>
      var rules, all := LoadedRules(stored, checks), LoadedRules(stored, checks + more);
      all.Some? && rules.value <= all.value && (all.value == rules.value <==> forall id :: id in more ==> id !in stored)
  {
    if more == [] {
      assert checks + more == checks;
    } else {
      var init, last := more[..|more| - 1], more[|more| - 1];
      assert (checks + more)[..|checks + more| - 1] == checks + init && (checks + more)[|checks + more| - 1] == last;
      assert more == init + [last];
      LoadedMore(stored, checks, init);
    }
  }

  lemma FlagChecksApart(flags: PolicyFlags)
    ensures POLICY_KEY !in FlagChecks(flags)
  {
  }

  /** A rule under the flags' key makes loading fail. */
  lemma KeyTaken(rules: seq<Rule>, flags: PolicyFlags, r: Rule)
    requires r in rules && r.id == POLICY_KEY
    ensures LoadRules(StoreRules(rules, flags), PolicyChecks(rules, flags)).None?
  {
    hide RuleDocs, LoadedRules, FlagChecks;
    FlagChecksApart(flags);
    LoadedRuleChecks(StoreRules(rules, flags), rules);
    LoadedMore(StoreRules(rules, flags), Map(rules, RuleId), FlagChecks(flags));
  }

  lemma KeyFree(rules: seq<Rule>, flags: PolicyFlags)
    requires forall r :: r in rules ==> r.id != POLICY_KEY
    ensures LoadRules(StoreRules(rules, flags), PolicyChecks(rules, flags)) == Some((rules, flags))
       <==> SameIdSameRule(rules) && forall r :: r in rules ==> r.id !in FlagChecks(flags)
  {
    hide StoreRules, LoadedRules, FlagChecks, SameIdSameRule;
    var stored := StoreRules(rules, flags);
    StoredShape(rules, flags);
    LoadedRuleChecks(stored, rules);
    LoadedMore(stored, Map(rules, RuleId), FlagChecks(flags));
    var loaded, all := LoadedRules(stored, Map(rules, RuleId)).value, LoadedRules(stored, PolicyChecks(rules, flags)).value;
    SameDocs(rules, loaded, stored);
    PrefixOf(loaded, all, rules);
  }

  lemma StoredShape(rules: seq<Rule>, flags: PolicyFlags)
    requires forall r :: r in rules ==> r.id != POLICY_KEY
    ensures
      var stored := StoreRules(rules, flags);
      && POLICY_KEY in stored && stored[POLICY_KEY] == FlagsDoc(flags)
      && (forall r :: r in rules ==> r.id in stored && stored[r.id].RuleDoc? && stored[r.id].rule in rules && stored[r.id].rule.id == r.id)
      && (forall id :: id in FlagChecks(flags) && id in stored ==> stored[id].RuleDoc?)
      && ((forall id :: id in FlagChecks(flags) ==> id !in stored) <==> forall r :: r in rules ==> r.id !in FlagChecks(flags))
  {
    hide RuleDocs, FlagChecks;
    FlagChecksApart(flags);
  }

  lemma PrefixOf(loaded: seq<Rule>, all: seq<Rule>, rules: seq<Rule>)
    requires loaded <= all && |loaded| == |rules|
    ensures all == rules <==> loaded == rules && all == loaded
  {
  }

  /** Round trip: loading what was stored gives the same rules in order and the same flags,
      exactly when rules that share an id are equal and no rule has a reserved id. */
  lemma RoundTripIff(rules: seq<Rule>, flags: PolicyFlags)
    ensures LoadRules(StoreRules(rules, flags), PolicyChecks(rules, flags)) == Some((rules, flags))
       <==> SameIdSameRule(rules) && IdsFree(rules, flags)
  {
    hide LoadRules, StoreRules, PolicyChecks, SameIdSameRule, FlagChecks;
    if r :| r in rules && r.id == POLICY_KEY {
      KeyTaken(rules, flags, r);
    } else {
      KeyFree(rules, flags);
    }
  }

  lemma SameDocs(rules: seq<Rule>, loaded: seq<Rule>, stored: map<string, Doc>)
    requires forall r :: r in rules ==> r.id in stored && stored[r.id].RuleDoc? && stored[r.id].rule in rules && stored[r.id].rule.id == r.id
    requires |loaded| == |rules| && forall i :: 0 <= i < |rules| ==> loaded[i] == stored[rules[i].id].rule
    ensures loaded == rules <==> SameIdSameRule(rules)
  {
    if loaded == rules {
      forall r, s | r in rules && s in rules && r.id == s.id ensures r == s {
        var i :| 0 <= i < |rules| && rules[i] == r;
        var j :| 0 <= j < |rules| && rules[j] == s;
        assert loaded[i] == loaded[j];
      }
    }
    if SameIdSameRule(rules) {
      forall i | 0 <= i < |rules| ensures loaded[i] == rules[i] {
        assert rules[i] in rules;
      }
    }
  }

  /** So a finalized draft survives storage. */
  lemma FinalizedRoundTrip(rules: seq<Rule>, flags: PolicyFlags)
    requires DistinctIds(rules) && forall r :: r in rules ==> FreeId(r.id)
    ensures LoadRules(StoreRules(rules, flags), PolicyChecks(rules, flags)) == Some((rules, flags))
  {
    hide LoadRules, StoreRules, PolicyChecks;
    forall r, s | r in rules && s in rules && r.id == s.id ensures r == s {
      var i :| 0 <= i < |rules| && rules[i] == r;
      var j :| 0 <= j < |rules| && rules[j] == s;
    }
    RoundTripIff(rules, flags);
  }

  // --- Flags restated by rules ------------------------------------------------------------------

  /** Each stated category, shop or known-shop flag has a rule in force that covers it. */
  ghost predicate FlagsRestated(flags: PolicyFlags, rules: seq<Rule>) {
    && (flags.allowed != [] ==> CoveredBy(rules, {ItemCategory}, {In}))
    && (flags.blocked != [] ==> CoveredBy(rules, {ItemCategory}, {NotIn}))
    && (flags.shopType.Some? ==> CoveredBy(rules, {MerchantCategory}, {Eq, In}))
    && (flags.requiresKnownShop ==> CoveredBy(rules, {FamiliarOnCard, KnownShop}, {Eq}))
  }

  /** The flags a finalized draft states. */
  function DraftFlags(flags: Flags, requestedItem: Option<Wanted>, nothingExtra: bool, singleItem: bool): PolicyFlags {
    PolicyFlags(requestedItem, flags.allowed, flags.blocked, flags.requiresKnownShop, nothingExtra, flags.shopType, singleItem)
  }

  /** A finalized draft's flags are restated, the known-shop rule having no operator but "=". */
  lemma FinalizeRestates(rules: seq<Rule>, requestedItem: Option<Wanted>, nothingExtra: bool, singleItem: bool)
    requires forall r :: r in rules && r.field.FamiliarOnCard? ==> r.op.Eq?
    ensures FlagsRestated(DraftFlags(FlagsFrom(rules), requestedItem, nothingExtra, singleItem), rules)
  {
    var allowed, blocked, shops := NamedBy(rules, ItemCategory, In), NamedBy(rules, ItemCategory, NotIn), NamedBy(rules, MerchantCategory, Eq);
    if Dedupe(allowed) != [] { assert Dedupe(allowed)[0] in allowed; }
    if Dedupe(blocked) != [] { assert Dedupe(blocked)[0] in blocked; }
    if Dedupe(shops) != [] { assert Dedupe(shops)[0] in shops; }
  }

  /** `accepted_flags`: a flag whose restating rules were all dropped is cleared. */
  function AcceptedFlags(flags: PolicyFlags, draft: seq<Rule>, accepted: seq<Rule>): PolicyFlags {
    PolicyFlags(
      flags.requestedItem,
      if Dropped(draft, accepted, {ItemCategory}, {In}) then [] else flags.allowed,
      if Dropped(draft, accepted, {ItemCategory}, {NotIn}) then [] else flags.blocked,
      !Dropped(draft, accepted, {FamiliarOnCard, KnownShop}, {Eq}) && flags.requiresKnownShop,
      flags.nothingExtra,
      if Dropped(draft, accepted, {MerchantCategory}, {Eq, In}) then None else flags.shopType,
      flags.singleItem)
  }

  predicate Dropped(draft: seq<Rule>, accepted: seq<Rule>, fields: set<Field>, ops: set<Operator>) {
    CoveredBy(draft, fields, ops) && !CoveredBy(accepted, fields, ops)
  }

  /** Whatever the customer keeps of a draft, each flag left is restated by a rule he kept; and a
      flag is cleared only when the rules that restate it are all gone. */
  lemma AcceptedRestates(flags: PolicyFlags, draft: seq<Rule>, accepted: seq<Rule>)
    requires FlagsRestated(flags, draft)
    ensures FlagsRestated(AcceptedFlags(flags, draft, accepted), accepted)
    ensures (forall r :: r in draft ==> r in accepted) ==> AcceptedFlags(flags, draft, accepted) == flags
  {
    hide CoveredBy;
    if forall r :: r in draft ==> r in accepted {
      StillCovered(draft, accepted, {ItemCategory}, {In});
      StillCovered(draft, accepted, {ItemCategory}, {NotIn});
      StillCovered(draft, accepted, {MerchantCategory}, {Eq, In});
      StillCovered(draft, accepted, {FamiliarOnCard, KnownShop}, {Eq});
    }
  }

  lemma StillCovered(rules: seq<Rule>, more: seq<Rule>, fields: set<Field>, ops: set<Operator>)
    requires forall r :: r in rules ==> r in more
    ensures CoveredBy(rules, fields, ops) ==> CoveredBy(more, fields, ops)
  {
  }

  /** Adding rules keeps every flag restated. */
  lemma AddedRestates(flags: PolicyFlags, rules: seq<Rule>, added: seq<Rule>)
    requires FlagsRestated(flags, rules)
    ensures FlagsRestated(flags, rules + added)
  {
    hide CoveredBy;
    StillCovered(rules, rules + added, {ItemCategory}, {In});
    StillCovered(rules, rules + added, {ItemCategory}, {NotIn});
    StillCovered(rules, rules + added, {MerchantCategory}, {Eq, In});
    StillCovered(rules, rules + added, {FamiliarOnCard, KnownShop}, {Eq});
  }

  // --- Accepting a draft ----------------------------------------------------------------------

  /** `_has_amount_cap`: a rule that holds one purchase to an amount. */
  predicate IsAmountCap(r: Rule) {
    r.field.BillingAmount? && !r.scope.PerPeriod? && (r.op.Lt? || r.op.Le? || r.op.Eq?) && r.value.Num?
  }

  predicate HasAmountCap(rules: seq<Rule>) { exists r :: r in rules && IsAmountCap(r) }

  datatype Acceptance =
    | Accepted(rules: seq<Rule>, flags: PolicyFlags)
    | NotInDraft(ids: seq<string>)
    | LintFailed(missing: seq<string>)

  const PER_ORDER_LIMIT := "per_order_limit"

  /** The checks the customer left out although he may not: the amount cap, what he stated in
      exact words, and the checks that only show a flag. */
  function MissingChecks(rules: seq<Rule>, flags: PolicyFlags, exact: set<string>, chosen: seq<string>): seq<string> {
    (if HasAmountCap(Chosen(rules, chosen)) then [] else [PER_ORDER_LIMIT])
    + Map(Filter(rules, (r: Rule) => r.id in exact && r.id !in chosen), RuleId)
    + Filter(FlagChecks(flags), (id: string) => id !in chosen)
  }

  function Chosen(rules: seq<Rule>, chosen: seq<string>): (kept: seq<Rule>)
    ensures forall r :: r in kept <==> r in rules && r.id in chosen
  {
    Filter(rules, (r: Rule) => r.id in chosen)
  }

  /** What the customer may leave out of a draft. */
  ghost predicate MayAccept(rules: seq<Rule>, flags: PolicyFlags, exact: set<string>, chosen: seq<string>) {
    && (forall id :: id in chosen ==> HasId(rules, id) || id in FlagChecks(flags))
    && (exists r :: r in rules && r.id in chosen && IsAmountCap(r))
    && (forall r :: r in rules && r.id in exact ==> r.id in chosen)
    && (forall id :: id in FlagChecks(flags) ==> id in chosen)
  }

  lemma NoneMissing(rules: seq<Rule>, flags: PolicyFlags, exact: set<string>, chosen: seq<string>)
    ensures MissingChecks(rules, flags, exact, chosen) == [] <==>
      && (exists r :: r in rules && r.id in chosen && IsAmountCap(r))
      && (forall r :: r in rules && r.id in exact ==> r.id in chosen)
      && (forall id :: id in FlagChecks(flags) ==> id in chosen)
  {
    hide FlagChecks, Chosen, IsAmountCap;
    var dropped := Filter(rules, (r: Rule) => r.id in exact && r.id !in chosen);
    var hidden := Filter(FlagChecks(flags), (id: string) => id !in chosen);
    CapKept(rules, chosen);
    assert dropped == [] <==> forall r :: r in rules && r.id in exact ==> r.id in chosen;
    assert hidden == [] <==> forall id :: id in FlagChecks(flags) ==> id in chosen;
  }

  /** `register_draft`: the checks the customer keeps become the policy exactly when they are the
      draft's, leave a cap on one purchase's amount, and drop nothing he stated in exact words. */
  method AcceptDraft(rules: seq<Rule>, flags: PolicyFlags, exact: set<string>, chosen: seq<string>) returns (r: Acceptance)
    ensures r.Accepted? <==> MayAccept(rules, flags, exact, chosen)
    ensures r.Accepted? ==>
      && (forall x :: x in r.rules <==> x in rules && x.id in chosen) && HasAmountCap(r.rules)
      && r.rules == Chosen(rules, chosen) && r.flags == AcceptedFlags(flags, rules, r.rules)
    ensures r.NotInDraft? ==> r.ids != [] && forall id :: id in r.ids ==> id in chosen && !HasId(rules, id) && id !in FlagChecks(flags)
    ensures r.LintFailed? ==> r.missing != [] && (!HasAmountCap(Chosen(rules, chosen)) ==> r.missing[0] == PER_ORDER_LIMIT)
  {
    hide FlagChecks, HasId, HasAmountCap, Chosen, AcceptedFlags;
    NoneMissing(rules, flags, exact, chosen);
    if rules == [] && FlagChecks(flags) == [] {
      assert !HasAmountCap(Chosen(rules, chosen)) && !MayAccept(rules, flags, exact, chosen);
      return LintFailed([PER_ORDER_LIMIT]);
    }
    var unknown := Filter(chosen, (id: string) => !HasId(rules, id) && id !in FlagChecks(flags));
    if unknown != [] {
      assert unknown[0] in unknown;
      return NotInDraft(unknown);
    }
    var kept := Chosen(rules, chosen);
    var missing := MissingChecks(rules, flags, exact, chosen);
    if missing != [] {
      return LintFailed(missing);
    }
    CapKept(rules, chosen);
    r := Accepted(kept, AcceptedFlags(flags, rules, kept));
  }

  lemma CapKept(rules: seq<Rule>, chosen: seq<string>)
    ensures HasAmountCap(Chosen(rules, chosen)) <==> exists r :: r in rules && r.id in chosen && IsAmountCap(r)
  {
  }

  // --- The form -------------------------------------------------------------------------------

  /** What the customer fills in instead of writing an instruction: amounts in hundredths, each
      category once. */
  datatype Form = Form(perOrder: Option<int>, period: Option<(int, nat)>, categories: seq<string>, knownShopsOnly: bool)

  function Optional(stated: bool, r: Rule): seq<Rule> { if stated then [r] else [] }

  function PerOrderRule(form: Form): Rule {
    Rule(PER_ORDER_LIMIT, BillingAmount, Le, Num(if form.perOrder.Some? then form.perOrder.value else 0), Some(CHF), PerPurchase,
         None, "", false)
  }

  function PeriodLimitRule(form: Form): Rule {
    var (amount, days) := if form.period.Some? then form.period.value else (0, 0);
    Rule("period_limit", BillingAmount, Le, Num(amount), Some(CHF), PerPeriod, Some(days), "", false)
  }

  function CategoriesRule(form: Form): Rule {
    Rule("item_categories", ItemCategory, In, Names(form.categories), None, Unscoped, None, "", false)
  }

  const KNOWN_SHOP_RULE := Rule("known_shop", KnownShop, Eq, Text("true"), None, Unscoped, None, "", false)

  /** `form_rules`, one rule per field filled in. */
  function FormRules(form: Form): seq<Rule> {
    Optional(form.perOrder.Some?, PerOrderRule(form)) + Optional(form.period.Some?, PeriodLimitRule(form))
    + Optional(form.categories != [], CategoriesRule(form)) + Optional(form.knownShopsOnly, KNOWN_SHOP_RULE)
  }

  function FormFlags(form: Form): PolicyFlags {
    PolicyFlags(None, form.categories, [], form.knownShopsOnly, false, None, false)
  }

  // --- Tightening -----------------------------------------------------------------------------

  datatype TightenError = ChangesRule(id: string) | UnknownChecks(ids: seq<string>) | NothingToAdd
  datatype Tightened = Tightened(rules: seq<Rule>, setting: Setting) | Refused(error: TightenError)

  /** A check the request need not bring: it already shows a flag in force. */
  predicate ShowsFlag(id: string, checks: seq<string>) {
    (id == REQUESTED_ITEM_CHECK || id == NOTHING_EXTRA_CHECK) && id in checks
  }

  predicate HasId(rules: seq<Rule>, id: string) { exists r :: r in rules && r.id == id }

  /** The request would change a rule in force. */
  predicate Changes(id: string, rules: seq<Rule>, checks: seq<string>, proposed: map<string, Rule>) {
    !ShowsFlag(id, checks) && HasId(rules, id) && id in proposed && proposed[id] !in rules
  }

  /** The rules a request adds, before it is known to be allowed: each proposed rule that is not
      in force yet, once. */
  function Additions(rules: seq<Rule>, checks: seq<string>, proposed: map<string, Rule>, asked: seq<string>): (added: seq<Rule>)
    ensures forall r :: r in added ==> exists id :: id in asked && id in proposed && r == proposed[id] && !HasId(rules, id)
  {
    if asked == [] then []
    else
      var rest, id := Additions(rules, checks, proposed, asked[..|asked| - 1]), asked[|asked| - 1];
      if ShowsFlag(id, checks) || id !in proposed || HasId(rules, id) || HasId(rest, proposed[id].id) then rest
      else rest + [proposed[id]]
  }

  predicate IsUnknown(id: string, rules: seq<Rule>, checks: seq<string>, proposed: map<string, Rule>) {
    !ShowsFlag(id, checks) && id !in proposed && !HasId(rules, id)
  }

  ghost predicate ById(proposed: map<string, Rule>) { forall id :: id in proposed ==> proposed[id].id == id }

  /** `tighten_policy`: how the new rule list is formed. `toDecline` is the request's move of the
      uncertainty setting, which it can only make towards declining. */
  method TightenPolicy(rules: seq<Rule>, setting: Setting, checks: seq<string>, proposed: map<string, Rule>,
                       asked: seq<string>, toDecline: bool) returns (r: Tightened)
    requires DistinctIds(rules) && ById(proposed)
    ensures r.Tightened? ==>
      && r.rules == rules + Additions(rules, checks, proposed, asked) && DistinctIds(r.rules)
      && r.setting == (if toDecline then DeclineIt else setting)
      && (r.rules != rules || r.setting != setting)
    ensures r.Tightened? ==> forall id :: id in asked ==>
      !IsUnknown(id, rules, checks, proposed) && !Changes(id, rules, checks, proposed)
    ensures r.Refused? && r.error.ChangesRule? ==> r.error.id in asked && Changes(r.error.id, rules, checks, proposed)
    ensures r.Refused? && r.error.UnknownChecks? ==> r.error.ids != [] && forall id :: id in r.error.ids ==>
      id in asked && IsUnknown(id, rules, checks, proposed)
    ensures r.Refused? && r.error.NothingToAdd? ==>
      Additions(rules, checks, proposed, asked) == [] && (toDecline ==> setting.DeclineIt?)
  {
    hide ShowsFlag, HasId, DistinctIds;
    var added: seq<Rule>, unknown: seq<string> := [], [];
    AddedDistinct(rules, checks, proposed, []);
    for i := 0 to |asked|
      invariant added == Additions(rules, checks, proposed, asked[..i]) && DistinctIds(rules + added)
      invariant forall id :: id in unknown ==> id in asked && IsUnknown(id, rules, checks, proposed)
      invariant unknown == [] ==> forall id :: id in asked[..i] ==> !IsUnknown(id, rules, checks, proposed)
      invariant forall id :: id in asked[..i] ==> !Changes(id, rules, checks, proposed)
    {
      var id := asked[i];
      assert asked[..i + 1] == asked[..i] + [id] && asked[..i + 1][..i] == asked[..i];
      AddedDistinct(rules, checks, proposed, asked[..i + 1]);
      if ShowsFlag(id, checks) {
        continue;
      }
      if id !in proposed && !HasId(rules, id) {
        unknown := unknown + [id];
        continue;
      }
      if HasId(rules, id) {
        if id in proposed && proposed[id] !in rules {
          return Refused(ChangesRule(id));
        }
        continue;
      }
      if !HasId(added, proposed[id].id) {
        added := added + [proposed[id]];
      }
    }
    assert asked[..|asked|] == asked;
    if unknown != [] {
      return Refused(UnknownChecks(unknown));
    }
    var newSetting := if toDecline then DeclineIt else setting;
    if added == [] && newSetting == setting {
      return Refused(NothingToAdd);
    }
    r := Tightened(rules + added, newSetting);
  }

  lemma {:induction false} AddedDistinct(rules: seq<Rule>, checks: seq<string>, proposed: map<string, Rule>, asked: seq<string>)
    requires DistinctIds(rules) && ById(proposed)
    ensures DistinctIds(rules + Additions(rules, checks, proposed, asked))
  {
    if asked == [] {
      assert rules + [] == rules;
    } else {
      AddedDistinct(rules, checks, proposed, asked[..|asked| - 1]);
      var rest, id := Additions(rules, checks, proposed, asked[..|asked| - 1]), asked[|asked| - 1];
      if !(ShowsFlag(id, checks) || id !in proposed || HasId(rules, id) || HasId(rest, proposed[id].id)) {
        var before, after := rules + rest, rules + (rest + [proposed[id]]);
        assert after == before + [proposed[id]];
        forall k | 0 <= k < |before| ensures before[k].id != id {
          assert before[k] in rules || before[k] in rest;
        }
      }
    }
  }
}
