/**
 * The plain scoped builder of query_builder2.rs: the same stack of scopes as
 * `Builder`, without the range slot and the limit; every scope builds a
 * `BooleanQuery` and a range is always an ordinary clause.
 */
module Builder2 {
  import opened Wrappers
  import opened Queries
  import opened Semantics
  import Builder

  /** `QueryBuilder { c: clauses, p: parent, s: schema, o: occur }`. */
  datatype QueryBuilder = QueryBuilder(
    clauses: seq<Clause>,
    parent: Option<QueryBuilder>,
    schema: Schema,
    occur: Occur)

  /** No `CatQuery` occurs anywhere in `q`. */
  predicate CatFree(q: Query)
    decreases q
  {
    match q
    case Boolean(cs) => forall i :: 0 <= i < |cs| ==> CatFree(cs[i].1)
    case Cat(_, _, _, _, _) => false
    case _ => true
  }

  predicate ClausesCatFree(cs: seq<Clause>)
  {
    forall i :: 0 <= i < |cs| ==> CatFree(cs[i].1)
  }

  /**
   * Every builder reachable from `New`: all scopes share one schema and hold
   * only queries without a `CatQuery`.
   */
  ghost predicate Valid(b: QueryBuilder)
    decreases b
  {
    && ClausesCatFree(b.clauses)
    && match b.parent
       case None => true
       case Some(p) => p.schema == b.schema && Valid(p)
  }

  /** `r` is `b` with clauses appended; everything else is that of `b`. */
  ghost predicate Extends(b: QueryBuilder, r: QueryBuilder)
  {
    && r.parent == b.parent && r.schema == b.schema && r.occur == b.occur
    && |b.clauses| <= |r.clauses| && r.clauses[..|b.clauses|] == b.clauses
  }

  /** `QueryBuilder::new`. */
  function New(schema: Schema, occur: Occur): (r: QueryBuilder)
    ensures r.parent.None? && r.clauses == [] && r.schema == schema && r.occur == occur
    ensures Valid(r)
  {
    QueryBuilder([], None, schema, occur)
  }

  /** `QueryBuilder::down`. */
  function Down(b: QueryBuilder, occur: Occur): (r: QueryBuilder)
    ensures r.parent == Some(b) && r.clauses == [] && r.schema == b.schema && r.occur == occur
    ensures Valid(b) ==> Valid(r)
  {
    QueryBuilder([], Some(b), b.schema, occur)
  }

  /** `QueryBuilder::also`. */
  function Also(b: QueryBuilder, occur: Occur): (r: QueryBuilder)
    ensures r.occur == occur && r.clauses == b.clauses && r.parent == b.parent && r.schema == b.schema
    ensures Valid(b) ==> Valid(r)
  {
    b.(occur := occur)
  }

  lemma UpKeepsValid(b: QueryBuilder)
    requires b.parent.Some?
    ensures var p := b.parent.value;
            Valid(b) ==> Valid(p.(clauses := p.clauses + [(p.occur, Boolean(b.clauses))]))
  {
    if Valid(b) {
      var p := b.parent.value;
      assert Valid(p) && p.schema == b.schema;
      var c := (p.occur, Boolean(b.clauses));
      var cs := p.clauses + [c];
      assert forall i :: 0 <= i < |cs| ==> CatFree(cs[i].1) by {
        forall i | 0 <= i < |cs| ensures CatFree(cs[i].1) {
          if i < |p.clauses| { assert cs[i] == p.clauses[i]; } else { assert cs[i] == c; }
        }
      }
    }
  }

  /**
   * `QueryBuilder::up`: the child's clauses, always wrapped in a boolean query,
   * are appended to the parent under the parent's occur; Rust panics at the root.
   */
  function Up(b: QueryBuilder): (r: QueryBuilder)
    requires b.parent.Some?
    ensures var p := b.parent.value;
            r.clauses == p.clauses + [(p.occur, Boolean(b.clauses))]
            && r.parent == p.parent && r.schema == p.schema && r.occur == p.occur
    ensures Valid(b) ==> Valid(r)
  {
    var p := b.parent.value;
    UpKeepsValid(b);
    p.(clauses := p.clauses + [(p.occur, Boolean(b.clauses))])
  }

  function Add(b: QueryBuilder, q: Query): (r: QueryBuilder)
    requires CatFree(q)
    ensures r.clauses == b.clauses + [(b.occur, q)]
    ensures Extends(b, r) && (Valid(b) ==> Valid(r))
  {
    var r := b.(clauses := b.clauses + [(b.occur, q)]);
    assert r.clauses[..|b.clauses|] == b.clauses;
    r
  }

  /** `QueryBuilder::add_term_query`. */
  function AddTermQuery(b: QueryBuilder, field: string, value: string): (r: QueryBuilder)
    ensures field !in b.schema ==> r == b
    ensures field in b.schema ==> r.clauses == b.clauses + [(b.occur, Term(b.schema[field], Text(value)))]
    ensures Extends(b, r) && (Valid(b) ==> Valid(r))
  {
    if field in b.schema then Add(b, Term(b.schema[field], Text(value))) else b
  }

  /** `QueryBuilder::add_prefix_query`. */
  function AddPrefixQuery(b: QueryBuilder, field: string, value: string): (r: QueryBuilder)
    ensures field !in b.schema ==> r == b
    ensures field in b.schema ==> r.clauses == b.clauses + [(b.occur, Prefix(b.schema[field], value))]
    ensures Extends(b, r) && (Valid(b) ==> Valid(r))
  {
    if field in b.schema then Add(b, Prefix(b.schema[field], value)) else b
  }

  /** `QueryBuilder::build`: always a boolean query over the root's clauses. */
  function Build(b: QueryBuilder): (r: Query)
    ensures Valid(b) ==> CatFree(r)
  {
    Boolean(b.clauses)
  }

  /** `QueryBuilder::add_range_query`: the bounds are kept as given, inclusive or exclusive. */
  function AddRangeQuery(b: QueryBuilder, field: string, left: u64, right: u64,
                         includeLeft: bool, includeRight: bool): (r: QueryBuilder)
    ensures field !in b.schema ==> r == b
    ensures field in b.schema ==>
              r.clauses == b.clauses + [(b.occur, Range(b.schema[field],
                                                        if includeLeft then Included(left) else Excluded(left),
                                                        if includeRight then Included(right) else Excluded(right)))]
    ensures Extends(b, r) && (Valid(b) ==> Valid(r))
  {
    if field !in b.schema then b
    else
      Add(b, Range(b.schema[field],
                   if includeLeft then Included(left) else Excluded(left),
                   if includeRight then Included(right) else Excluded(right)))
  }

  /** `QueryBuilder::add_term_query_str`. */
  function AddTermQueryStr(b: QueryBuilder, field: string, value: string): (r: QueryBuilder)
    ensures field !in b.schema ==> r == b
    ensures field in b.schema ==> r.clauses == b.clauses + [(b.occur, Term(b.schema[field], Text(value)))]
    ensures Extends(b, r) && (Valid(b) ==> Valid(r))
  {
    AddTermQuery(b, field, value)
  }

  /** `QueryBuilder::add_term_query_u64`. */
  function AddTermQueryU64(b: QueryBuilder, field: string, value: u64): (r: QueryBuilder)
    ensures field !in b.schema ==> r == b
    ensures field in b.schema ==> r.clauses == b.clauses + [(b.occur, Term(b.schema[field], U64(value)))]
    ensures Extends(b, r) && (Valid(b) ==> Valid(r))
  {
    if field in b.schema then Add(b, Term(b.schema[field], U64(value))) else b
  }

  // ---- Relation to the range-hoisting builder

  /**
   * Wherever the range-hoisting builder's translation does not wrap, this
   * builder's range clause matches exactly the documents with a value in the
   * translated inclusive interval.
   */
  lemma RangeClauseAgreesWithTranslation(f: Field, left: u64, right: u64,
                                         includeLeft: bool, includeRight: bool, d: Doc)
    requires includeLeft || left < U64_MAX
    requires includeRight || 0 < right
    ensures var (l, h) := Builder.TranslateBounds(left, right, includeLeft, includeRight);
            Matches(Range(f, if includeLeft then Included(left) else Excluded(left),
                             if includeRight then Included(right) else Excluded(right)), d)
            <==> HasValueIn(d, f, l, h)
  {
    var (l, h) := Builder.TranslateBounds(left, right, includeLeft, includeRight);
    var lo := if includeLeft then Included(left) else Excluded(left);
    var hi := if includeRight then Included(right) else Excluded(right);
    if Matches(Range(f, lo, hi), d) {
      var n: u64 :| (f, U64(n)) in d.terms && LowerAdmits(lo, n) && UpperAdmits(hi, n);
      Builder.TranslatedBoundsExact(left, right, includeLeft, includeRight, n);
    }
    if HasValueIn(d, f, l, h) {
      var n: u64 :| (f, U64(n)) in d.terms && l <= n <= h;
      Builder.TranslatedBoundsExact(left, right, includeLeft, includeRight, n);
    }
  }

  /**
   * For a scope without ranges the two builders agree on meaning: the
   * always-wrapped boolean of this builder matches what the other builder's
   * (possibly unwrapped) scope matches.
   */
  lemma AgreesWithBuilderWithoutRanges(b: QueryBuilder, s: Builder.CatQueryBuilder, d: Doc)
    requires s.field.None? && s.clauses == b.clauses
    ensures Matches(Build(b), d) <==> Matches(Builder.ScopeBuild(s), d)
  {
    Builder.ScopeBuildMeans(s, d);
  }
}
