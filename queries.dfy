/**
 * The query values the parser and the builders produce: tantivy's `TermQuery`,
 * `RegexQuery` (used as a prefix query), `RangeQuery` and `BooleanQuery`, and the
 * project's range-constrained `CatQuery`, as one closed datatype.
 */
module Queries {
  const U64_MAX: int := 0xFFFF_FFFF_FFFF_FFFF

  /** Rust's `u64`. */
  type u64 = x: int | 0 <= x <= U64_MAX

  /** A schema field handle (tantivy's `Field`, an index into the schema). */
  type Field = nat

  /** A schema: field name to field handle (`Schema::get_field`). */
  type Schema = map<string, Field>

  /** The two occurrences the builders ever use (tantivy's `Occur::MustNot` is never produced). */
  datatype Occur = Must | Should

  /** The value of a term: text (`Term::from_field_text`) or an unsigned integer (`Term::from_field_u64`). */
  datatype TermValue = Text(text: string) | U64(n: u64)

  /** One end of a range (`std::collections::Bound`, without `Unbounded`, which is never built). */
  datatype Bound = Included(at: u64) | Excluded(at: u64)

  datatype Query =
    | Term(field: Field, value: TermValue)
      /** `RegexQuery::new("{prefix}[...]*", field)`, kept abstract as a prefix predicate. */
    | Prefix(field: Field, prefix: string)
    | Range(field: Field, lower: Bound, upper: Bound)
    | Boolean(clauses: seq<(Occur, Query)>)
      /** `CatQuery { query: BooleanQuery::from(clauses), field, left, right, limit }`. */
    | Cat(clauses: seq<(Occur, Query)>, field: Field, left: u64, right: u64, limit: nat)

  type Clause = (Occur, Query)

  /** Every `CatQuery` node inside `q` (including `q` itself) has limit 0. */
  predicate CatLimitsZero(q: Query)
    decreases q
  {
    match q
    case Boolean(cs) => forall i :: 0 <= i < |cs| ==> CatLimitsZero(cs[i].1)
    case Cat(cs, _, _, _, limit) => limit == 0 && forall i :: 0 <= i < |cs| ==> CatLimitsZero(cs[i].1)
    case _ => true
  }

  predicate ClauseLimitsZero(cs: seq<Clause>)
  {
    forall i :: 0 <= i < |cs| ==> CatLimitsZero(cs[i].1)
  }

  /** Every `CatQuery` strictly below the root of `q` has limit 0. */
  predicate InnerCatLimitsZero(q: Query)
  {
    match q
    case Boolean(cs) => ClauseLimitsZero(cs)
    case Cat(cs, _, _, _, _) => ClauseLimitsZero(cs)
    case _ => true
  }
}
