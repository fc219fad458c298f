/**
 * What a query matches. tantivy evaluates the leaf queries against its index
 * and combines sub-scorers in `BooleanWeight`; neither is part of this model's
 * sources, so their meaning is written here once, on a document given by its
 * indexed terms:
 *   - a term query matches a document that has the term in the field;
 *   - a prefix query's regex is kept abstract: the document records the
 *     (field, prefix) pairs whose regex matches one of its terms;
 *   - a u64 range query matches a document with a value of the field within both bounds;
 *   - a boolean query with at least one Must clause matches what all its Must
 *     clauses match (Should clauses then only score); one without Must clauses
 *     matches what any Should clause matches; one without clauses matches nothing;
 *   - a `CatQuery` matches what its inner boolean query matches and has a value
 *     of its field in `[left, right]` (its limit does not change the match set).
 */
module Semantics {
  import opened Queries

  datatype Doc = Doc(terms: set<(Field, TermValue)>, prefixHits: set<(Field, string)>)

  predicate LowerAdmits(b: Bound, v: int)
  {
    match b
    case Included(a) => a <= v
    case Excluded(a) => a < v
  }

  predicate UpperAdmits(b: Bound, v: int)
  {
    match b
    case Included(a) => v <= a
    case Excluded(a) => v < a
  }

  /** The document has a u64 value of field `f` in `[left, right]`. */
  ghost predicate HasValueIn(d: Doc, f: Field, left: int, right: int)
  {
    exists n: u64 :: (f, U64(n)) in d.terms && left <= n <= right
  }

  ghost predicate Matches(q: Query, d: Doc)
    decreases q, 1
  {
    match q
    case Term(f, v) => (f, v) in d.terms
    case Prefix(f, p) => (f, p) in d.prefixHits
    case Range(f, lower, upper) =>
      exists n: u64 :: (f, U64(n)) in d.terms && LowerAdmits(lower, n) && UpperAdmits(upper, n)
    case Boolean(_) => ClausesMatch(q, d)
    case Cat(_, f, left, right, _) => ClausesMatch(q, d) && HasValueIn(d, f, left, right)
  }

  /** The boolean combination of the clauses of `q` (a `BooleanQuery`, or the inner query of a `CatQuery`). */
  ghost predicate ClausesMatch(q: Query, d: Doc)
    requires q.Boolean? || q.Cat?
    decreases q, 0
  {
    var cs := q.clauses;
    if exists i :: 0 <= i < |cs| && cs[i].0 == Must then
      forall i :: 0 <= i < |cs| && cs[i].0 == Must ==> Matches(cs[i].1, d)
    else
      exists i :: 0 <= i < |cs| && Matches(cs[i].1, d)
  }
}
