/**
 * The scoped query builder of query_builder.rs. A `QueryBuilder` is a stack of
 * scopes linked through `parent`; each scope (`CatQueryBuilder`) holds its
 * clause list, a range slot (`field`, `left`, `right`) that the first range
 * clause of the scope claims, and a result-size limit. The Rust code threads
 * the builder by value (`mut self -> Self`), so every operation is a function
 * from the old builder to the new one.
 */
module Builder {
  import opened Wrappers
  import opened Queries
  import opened Semantics

  const TWO_64: int := 0x1_0000_0000_0000_0000

  /** `CatQueryBuilder { c, left, right, field, limit }`. */
  datatype CatQueryBuilder = CatQueryBuilder(
    clauses: seq<Clause>,
    left: u64,
    right: u64,
    field: Option<Field>,
    limit: nat)

  /** `QueryBuilder { c: scope, p: parent, s: schema, o: occur }`. */
  datatype QueryBuilder = QueryBuilder(
    scope: CatQueryBuilder,
    parent: Option<QueryBuilder>,
    schema: Schema,
    occur: Occur)

  function EmptyScope(limit: nat): CatQueryBuilder
  {
    CatQueryBuilder([], 0, 0, None, limit)
  }

  /** `CatQueryBuilder::build`: a claimed slot gives a `CatQuery`; otherwise a single clause is unwrapped. */
  function ScopeBuild(s: CatQueryBuilder): Query
  {
    if s.field.Some? then Cat(s.clauses, s.field.value, s.left, s.right, s.limit)
    else if |s.clauses| == 1 then s.clauses[0].1
    else Boolean(s.clauses)
  }

  /** `CatQueryBuilder::push`: one clause appended at the end; the slot and the limit stay. */
  function ScopePush(s: CatQueryBuilder, c: Clause): (r: CatQueryBuilder)
    ensures r.clauses == s.clauses + [c]
    ensures r.field == s.field && r.left == s.left && r.right == s.right && r.limit == s.limit
  {
    s.(clauses := s.clauses + [c])
  }

  /**
   * `CatQueryBuilder::add_range_query`: the first range of a scope claims the slot
   * and adds no clause; once the slot is claimed, a range becomes the half-open
   * clause `left..right` over the CLAIMED field, and the given field is unused.
   */
  function ScopeAddRange(s: CatQueryBuilder, f: Field, left: u64, right: u64, occur: Occur): (r: CatQueryBuilder)
    ensures s.field.None? ==> r.field == Some(f) && r.left == left && r.right == right
                              && r.clauses == s.clauses && r.limit == s.limit
    ensures s.field.Some? ==> r == ScopePush(s, (occur, Range(s.field.value, Included(left), Excluded(right))))
  {
    if s.field.Some? then
      ScopePush(s, (occur, Range(s.field.value, Included(left), Excluded(right))))
    else
      s.(left := left, right := right, field := Some(f))
  }

  /**
   * The invariant every builder reachable from `New` keeps: all scopes of the
   * stack share one schema, every scope below the root has limit 0, and every
   * `CatQuery` already placed in a clause list has limit 0.
   */
  ghost predicate Valid(b: QueryBuilder)
    decreases b
  {
    && ClauseLimitsZero(b.scope.clauses)
    && match b.parent
       case None => true
       case Some(p) => p.schema == b.schema && b.scope.limit == 0 && Valid(p)
  }

  /**
   * `r` is `b` with clauses appended to its scope and, if `b`'s slot was empty,
   * possibly the slot claimed; the stack below, the schema, the occur and the
   * limit are those of `b`.
   */
  ghost predicate Extends(b: QueryBuilder, r: QueryBuilder)
  {
    && r.parent == b.parent && r.schema == b.schema && r.occur == b.occur
    && r.scope.limit == b.scope.limit
    && |b.scope.clauses| <= |r.scope.clauses|
    && r.scope.clauses[..|b.scope.clauses|] == b.scope.clauses
    && (b.scope.field.Some? ==>
          r.scope.field == b.scope.field && r.scope.left == b.scope.left && r.scope.right == b.scope.right)
  }

  lemma ExtendsTransitive(a: QueryBuilder, b: QueryBuilder, c: QueryBuilder)
    requires Extends(a, b) && Extends(b, c)
    ensures Extends(a, c)
  {
    assert c.scope.clauses[..|a.scope.clauses|] == c.scope.clauses[..|b.scope.clauses|][..|a.scope.clauses|];
  }

  /** `QueryBuilder::new`: a root builder with an empty scope whose limit is `size`. */
  function New(schema: Schema, occur: Occur, size: nat): (r: QueryBuilder)
    ensures r.parent.None? && r.schema == schema && r.occur == occur
    ensures r.scope.clauses == [] && r.scope.field.None? && r.scope.limit == size
    ensures Valid(r)
  {
    QueryBuilder(EmptyScope(size), None, schema, occur)
  }

  /** `QueryBuilder::down`: a child scope, empty with limit 0, whose parent is `b`. */
  function Down(b: QueryBuilder, occur: Occur): (r: QueryBuilder)
    ensures r.parent == Some(b) && r.schema == b.schema && r.occur == occur
    ensures r.scope.clauses == [] && r.scope.field.None? && r.scope.limit == 0
    ensures Valid(b) ==> Valid(r)
  {
    QueryBuilder(EmptyScope(0), Some(b), b.schema, occur)
  }

  /** `QueryBuilder::also`: only the current occur changes. */
  function Also(b: QueryBuilder, occur: Occur): (r: QueryBuilder)
    ensures r.occur == occur && r.scope == b.scope && r.parent == b.parent && r.schema == b.schema
    ensures Valid(b) ==> Valid(r)
  {
    b.(occur := occur)
  }

  /** A built scope keeps the zero-limit property of nested `CatQuery`s when its own limit is 0. */
  lemma ScopeBuildLimitsZero(s: CatQueryBuilder)
    ensures s.limit == 0 && ClauseLimitsZero(s.clauses) ==> CatLimitsZero(ScopeBuild(s))
  {
  }

  lemma UpKeepsValid(b: QueryBuilder)
    requires b.parent.Some?
    ensures var p := b.parent.value;
            Valid(b) ==> Valid(p.(scope := ScopePush(p.scope, (p.occur, ScopeBuild(b.scope)))))
  {
    if Valid(b) {
      var p := b.parent.value;
      assert Valid(p) && p.schema == b.schema && b.scope.limit == 0;
      var c := (p.occur, ScopeBuild(b.scope));
      ScopeBuildLimitsZero(b.scope);
      var cs := p.scope.clauses + [c];
      assert forall i :: 0 <= i < |cs| ==> CatLimitsZero(cs[i].1) by {
        forall i | 0 <= i < |cs| ensures CatLimitsZero(cs[i].1) {
          if i < |p.scope.clauses| { assert cs[i] == p.scope.clauses[i]; } else { assert cs[i] == c; }
        }
      }
    }
  }

  /**
   * `QueryBuilder::up`: the child's built query is appended to the parent's
   * clauses under the PARENT's occur, and the parent is returned; Rust panics
   * at the root.
   */
  function Up(b: QueryBuilder): (r: QueryBuilder)
    requires b.parent.Some?
    ensures var p := b.parent.value;
            r.scope == ScopePush(p.scope, (p.occur, ScopeBuild(b.scope)))
            && r.parent == p.parent && r.schema == p.schema && r.occur == p.occur
    ensures Valid(b) ==> Valid(r)
  {
    var p := b.parent.value;
    UpKeepsValid(b);
    p.(scope := ScopePush(p.scope, (p.occur, ScopeBuild(b.scope))))
  }

  /** Appending one clause under the current occur. */
  function Add(b: QueryBuilder, q: Query): (r: QueryBuilder)
    requires CatLimitsZero(q)
    ensures r.scope == ScopePush(b.scope, (b.occur, q))
    ensures r.parent == b.parent && r.schema == b.schema && r.occur == b.occur
    ensures Extends(b, r)
    ensures Valid(b) ==> Valid(r)
  {
    var r := b.(scope := ScopePush(b.scope, (b.occur, q)));
    assert r.scope.clauses[..|b.scope.clauses|] == b.scope.clauses;
    r
  }

  /** `QueryBuilder::add_term_query`: the same as `add_term_query_str`. */
  function AddTermQuery(b: QueryBuilder, field: string, value: string): (r: QueryBuilder)
    ensures field !in b.schema ==> r == b
    ensures field in b.schema ==> r.scope.clauses == b.scope.clauses + [(b.occur, Term(b.schema[field], Text(value)))]
    ensures field in b.schema ==> r.scope == ScopePush(b.scope, (b.occur, Term(b.schema[field], Text(value))))
    ensures Extends(b, r) && (Valid(b) ==> Valid(r))
  {
    if field in b.schema then Add(b, Term(b.schema[field], Text(value))) else b
  }

  /** `QueryBuilder::add_prefix_query`: a prefix query on the named field, under the current occur. */
  function AddPrefixQuery(b: QueryBuilder, field: string, value: string): (r: QueryBuilder)
    ensures field !in b.schema ==> r == b
    ensures field in b.schema ==> r.scope.clauses == b.scope.clauses + [(b.occur, Prefix(b.schema[field], value))]
    ensures field in b.schema ==> r.scope == ScopePush(b.scope, (b.occur, Prefix(b.schema[field], value)))
    ensures Extends(b, r) && (Valid(b) ==> Valid(r))
  {
    if field in b.schema then Add(b, Prefix(b.schema[field], value)) else b
  }

  /** `QueryBuilder::add_term_query_str`. */
  function AddTermQueryStr(b: QueryBuilder, field: string, value: string): (r: QueryBuilder)
    ensures field !in b.schema ==> r == b
    ensures field in b.schema ==> r.scope.clauses == b.scope.clauses + [(b.occur, Term(b.schema[field], Text(value)))]
    ensures field in b.schema ==> r.scope == ScopePush(b.scope, (b.occur, Term(b.schema[field], Text(value))))
    ensures Extends(b, r) && (Valid(b) ==> Valid(r))
  {
    AddTermQuery(b, field, value)
  }

  /** `QueryBuilder::add_term_query_u64`. */
  function AddTermQueryU64(b: QueryBuilder, field: string, value: u64): (r: QueryBuilder)
    ensures field !in b.schema ==> r == b
    ensures field in b.schema ==> r.scope.clauses == b.scope.clauses + [(b.occur, Term(b.schema[field], U64(value)))]
    ensures field in b.schema ==> r.scope == ScopePush(b.scope, (b.occur, Term(b.schema[field], U64(value))))
    ensures Extends(b, r) && (Valid(b) ==> Valid(r))
  {
    if field in b.schema then Add(b, Term(b.schema[field], U64(value))) else b
  }

  /** `QueryBuilder::build`. */
  function Build(b: QueryBuilder): Query
  {
    ScopeBuild(b.scope)
  }

  /**
   * The bound translation of `add_range_query`: an exclusive lower bound is
   * raised by one, an exclusive upper bound lowered by one, in u64 arithmetic
   * (wrapping modulo 2^64, as a release build does; a debug build panics on
   * the overflow instead).
   */
  function TranslateBounds(left: u64, right: u64, includeLeft: bool, includeRight: bool): (u64, u64)
  {
    ((if includeLeft then left else (left + 1) % TWO_64),
     (if includeRight then right else (right - 1) % TWO_64))
  }

  /** `QueryBuilder::add_range_query`: translate the bounds, then offer the range to the scope's slot. */
  function AddRangeQuery(b: QueryBuilder, field: string, left: u64, right: u64,
                         includeLeft: bool, includeRight: bool): (r: QueryBuilder)
    ensures field !in b.schema ==> r == b
    ensures field in b.schema ==>
              var (l, h) := TranslateBounds(left, right, includeLeft, includeRight);
              r == b.(scope := ScopeAddRange(b.scope, b.schema[field], l, h, b.occur))
    ensures Extends(b, r) && (Valid(b) ==> Valid(r))
  {
    if field !in b.schema then b
    else
      var (l, h) := TranslateBounds(left, right, includeLeft, includeRight);
      var r := b.(scope := ScopeAddRange(b.scope, b.schema[field], l, h, b.occur));
      assert r.scope.clauses[..|b.scope.clauses|] == b.scope.clauses;
      r
  }

  // ---- What a built scope means

  /**
   * The intended meaning of a scope: its clauses combined as a boolean query,
   * further restricted, once the slot is claimed, to documents with a value of
   * the slot's field in `[left, right]`.
   */
  ghost predicate ScopeMeans(s: CatQueryBuilder, d: Doc)
  {
    ClausesMatch(Boolean(s.clauses), d) && (s.field.Some? ==> HasValueIn(d, s.field.value, s.left, s.right))
  }

  /** `CatQueryBuilder::build` preserves the scope's meaning, also when it unwraps a single clause. */
  lemma ScopeBuildMeans(s: CatQueryBuilder, d: Doc)
    ensures Matches(ScopeBuild(s), d) <==> ScopeMeans(s, d)
  {
    if s.field.None? && |s.clauses| == 1 {
      var c := s.clauses[0];
      if c.0 == Must {
        assert s.clauses[0].0 == Must;
      } else {
        assert Matches(c.1, d) ==> Matches(s.clauses[0].1, d);
      }
    }
  }

  /**
   * Hoisting a range into the slot is the same as adding it as a Must clause
   * with inclusive bounds, provided the scope already has a Must clause.
   */
  lemma HoistedRangeIsMustClause(s: CatQueryBuilder, d: Doc)
    requires s.field.Some?
    requires exists i :: 0 <= i < |s.clauses| && s.clauses[i].0 == Must
    ensures Matches(ScopeBuild(s), d)
        <==> Matches(Boolean(s.clauses + [(Must, Range(s.field.value, Included(s.left), Included(s.right)))]), d)
  {
    var f := s.field.value;
    var rc: Clause := (Must, Range(f, Included(s.left), Included(s.right)));
    var cs := s.clauses + [rc];
    assert cs[|cs| - 1] == rc;
    assert forall i :: 0 <= i < |s.clauses| ==> cs[i] == s.clauses[i];
    assert Matches(rc.1, d) <==> HasValueIn(d, f, s.left, s.right);
  }

  /**
   * Without a Must clause the hoisting is not that: a scope whose only clause is
   * a Should clause the document misses matches nothing, while the boolean query
   * with the range as Must clause matches the document on the range alone.
   * A single concrete schema and document exhibit the difference.
   */
  lemma HoistedRangeWithoutMustDiffers(f: Field, g: Field, n: u64)
    requires f != g
    ensures var s := CatQueryBuilder([(Should, Term(g, U64(n)))], n, n, Some(f), 0);
            var d := Doc({(f, U64(n))}, {});
            !Matches(ScopeBuild(s), d)
            && Matches(Boolean(s.clauses + [(Must, Range(f, Included(n), Included(n)))]), d)
  {
    var s := CatQueryBuilder([(Should, Term(g, U64(n)))], n, n, Some(f), 0);
    var d := Doc({(f, U64(n))}, {});
    var cs := s.clauses + [(Must, Range(f, Included(n), Included(n)))];
    assert cs[1].0 == Must;
    assert Matches(cs[1].1, d) by { assert (f, U64(n)) in d.terms; }
    assert !Matches(s.clauses[0].1, d) by { assert (g, U64(n)) !in d.terms; }
  }

  /** A range alone in a scope claims the slot over an empty inner query, so it matches nothing. */
  lemma LoneRangeMatchesNothing(b: QueryBuilder, field: string, left: u64, right: u64,
                                includeLeft: bool, includeRight: bool, d: Doc)
    requires b.scope.clauses == [] && b.scope.field.None?
    ensures !Matches(Build(AddRangeQuery(b, field, left, right, includeLeft, includeRight)), d)
  {
  }

  /** A later range of a scope filters on the claimed field, half-open at `right`, whatever field it names. */
  lemma LaterRangeUsesClaimedField(b: QueryBuilder, field: string, left: u64, right: u64, d: Doc)
    requires b.scope.field.Some? && field in b.schema
    ensures var r := AddRangeQuery(b, field, left, right, true, true);
            var c := r.scope.clauses[|r.scope.clauses| - 1];
            c.0 == b.occur
            && (Matches(c.1, d) <==> HasValueIn(d, b.scope.field.value, left, right - 1))
  {
  }

  /**
   * Without wrap-around, the translated bounds admit exactly the values the
   * requested bounds admit.
   */
  lemma TranslatedBoundsExact(left: u64, right: u64, includeLeft: bool, includeRight: bool, v: u64)
    requires includeLeft || left < U64_MAX
    requires includeRight || 0 < right
    ensures var (l, h) := TranslateBounds(left, right, includeLeft, includeRight);
            (l <= v <= h)
            <==> (LowerAdmits(if includeLeft then Included(left) else Excluded(left), v)
                  && UpperAdmits(if includeRight then Included(right) else Excluded(right), v))
  {
  }

  /**
   * The two boundary cases where the translation wraps (release-build
   * arithmetic): an exclusive lower bound at `u64::MAX` (which admits nothing)
   * becomes 0, and an exclusive upper bound at 0 becomes `u64::MAX`.
   */
  lemma TranslatedBoundsWrap(left: u64, right: u64)
    ensures TranslateBounds(U64_MAX, right, false, true).0 == 0
    ensures TranslateBounds(left, 0, true, false).1 == U64_MAX
  {
  }

  /** `down` followed directly by `up` appends an empty boolean query, which matches nothing. */
  lemma EmptyScopeMatchesNothing(b: QueryBuilder, occur: Occur, d: Doc)
    ensures Up(Down(b, occur)).scope.clauses == b.scope.clauses + [(b.occur, Boolean([]))]
    ensures !Matches(Boolean([]), d)
  {
  }

  /** `up` from a scope holding a single clause appends that clause itself. */
  lemma UpUnwrapsSingleClause(b: QueryBuilder, occur: Occur, q: Query)
    requires CatLimitsZero(q)
    ensures Up(Add(Down(b, occur), q)).scope.clauses == b.scope.clauses + [(b.occur, q)]
  {
  }
}
