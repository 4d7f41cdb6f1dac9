/** Category names and their case. C3 and C4 ignore it (backend/oneguard/engine/policy.py:511-528),
    C10 and A6 do not (policy.py:566-577, protections.py:266-286): where the answers part. */
module Categories {
  import opened Seqs
  import opened Types
  import opened PolicyRules
  import opened Ladder
  import Protections

  /** The category is allowed, but only when case is ignored. */
  predicate AllowedByCase(category: string, allowed: seq<string>) {
    InCategories(category, allowed) && category !in allowed
  }

  lemma LiteralIsIn(category: string, names: seq<string>)
    ensures category in names ==> InCategories(category, names)
  {
  }

  /** With no requested item, C10 fails a cart whose categories C3 allows exactly when one of them is
      allowed only up to case. */
  lemma NothingExtraByCase(facts: Facts, p: Policy, id: string)
    requires p.requestedItem.None? && p.allowed != []
    requires CheckAllowedTypes(facts, p.allowed, id).outcome.Pass?
    ensures CheckNothingExtra(facts, p).outcome.Fail? <==> exists ln :: ln in facts.items && AllowedByCase(ln.category, p.allowed)
  {
    hide InCategories;
    if ln :| ln in facts.items && AllowedByCase(ln.category, p.allowed) { assert IsExtra(ln, p); }
  }

  /** The other way round they never part: what C10 lets through, C3 allows. */
  lemma NothingExtraIsAllowed(facts: Facts, p: Policy, id: string)
    requires p.requestedItem.None? && p.allowed != [] && CheckNothingExtra(facts, p).outcome.Pass?
    ensures CheckAllowedTypes(facts, p.allowed, id).outcome.Pass?
  {
    hide InCategories;
    forall ln | ln in facts.items ensures InCategories(ln.category, p.allowed) {
      assert !IsExtra(ln, p);
      LiteralIsIn(ln.category, p.allowed);
    }
  }

  predicate IsRequested(line: Item, p: Policy) { p.requestedItem.Some? && MatchesRequested(line, p.requestedItem.value) }

  /** A6 on a cart C3 allows: it is triggered exactly by a recurring line that was not requested and
      whose category is allowed only up to case. */
  lemma RecurringByCase(facts: Facts, p: Policy, id: string)
    requires CheckAllowedTypes(facts, p.allowed, id).outcome.Pass?
    ensures Protections.HiddenRecurring(facts, p).triggered <==>
      exists ln :: ln in facts.items && BillsRepeatedly(ln) && !IsRequested(ln, p) && AllowedByCase(ln.category, p.allowed)
  {
    hide InCategories, BillsRepeatedly, MatchesRequested;
    if ln :| ln in facts.items && BillsRepeatedly(ln) && !IsRequested(ln, p) && AllowedByCase(ln.category, p.allowed) {
      assert !Protections.AskedFor(ln, p);
    }
  }

  /** "Books" where "books" is allowed and nothing extra may be bought: allowed by C3, refused by C10. */
  lemma BooksAreExtra(facts: Facts, p: Policy, line: Item, id: string)
    requires facts.items == [line] && line.category == "Books"
    requires p.allowed == ["books"] && p.requestedItem.None? && p.nothingExtra
    ensures CheckAllowedTypes(facts, p.allowed, id).outcome.Pass? && CheckNothingExtra(facts, p).outcome.Fail?
  {
    assert p.allowed[0] == "books" && "books" in p.allowed;
    assert Lower("Books") == Lower("books");
    assert InCategories("Books", p.allowed);
    assert "Books" !in p.allowed by { assert "Books"[0] != "books"[0]; }
    assert facts.items[0] in facts.items;
    NothingExtraByCase(facts, p, id);
  }
}
