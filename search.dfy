/** The case-insensitive search test the list pages share:
    `field.toLowerCase().includes(term.toLowerCase())`. */
module Search {
  import opened Strings

  predicate Matches(field: string, term: string) {
    Contains(Lower(field), Lower(term))
  }

  /** The empty search term matches every field. */
  lemma EmptyTermMatches(field: string)
    ensures Matches(field, "")
  {
    assert Lower("") == "";
  }

  /** The case of the search term does not matter. */
  lemma MatchIgnoresTermCase(field: string, term: string)
    ensures Matches(field, term) == Matches(field, Lower(term))
  {
    LowerIdempotent(term);
  }

  /** A match means the lower-cased term occurs in the lower-cased field at
      some position. */
  lemma MatchIsOccurrence(field: string, term: string)
    ensures Matches(field, term) <==> exists i :: OccursAt(Lower(field), Lower(term), i)
  {
    ContainsIffOccurs(Lower(field), Lower(term));
  }
}
