/**
 * The JSON query DSL of query_parser.rs: `QueryBuilder::parse` walks a JSON
 * value and drives the range-hoisting builder; `parse` builds the result and
 * overrides the limit of a root `CatQuery`.
 */
module Parser {
  import opened Wrappers
  import opened Queries
  import opened Json
  import opened Builder

  /**
   * `QueryBuilder::parse`. The keys are tried in this order: `query`,
   * `bool.filter`, `bool.should`, an array, then `prefix`, `term`, `range`
   * (each only with an object value); the first that applies decides.
   */
  function ParseValue(b: QueryBuilder, v: Json): (r: QueryBuilder)
    ensures Extends(b, r)
    ensures Valid(b) ==> Valid(r)
    decreases Size(v), 1
  {
    if Get(v, "query").Some? then ParseValue(b, Get(v, "query").value)
    else if Get(v, "bool").Some? && Get(Get(v, "bool").value, "filter").Some? then
      ParseScope(b, Must, Get(Get(v, "bool").value, "filter").value)
    else if Get(v, "bool").Some? && Get(Get(v, "bool").value, "should").Some? then
      ParseScope(b, Should, Get(Get(v, "bool").value, "should").value)
    else if v.Array? then ParseItems(b, v.items)
    else if Get(v, "prefix").Some? && Get(v, "prefix").value.Object? then
      PrefixEntries(b, Get(v, "prefix").value.entries)
    else if Get(v, "term").Some? && Get(v, "term").value.Object? then
      TermEntries(b, Get(v, "term").value.entries)
    else if Get(v, "range").Some? && Get(v, "range").value.Object? then
      RangeEntries(b, Get(v, "range").value.entries)
    else b
  }

  /** `self.down(occur).parse(v).up()`: the sub-value is parsed in a child scope that is folded back. */
  function ParseScope(b: QueryBuilder, occur: Occur, v: Json): (r: QueryBuilder)
    ensures Extends(b, r) && |r.scope.clauses| == |b.scope.clauses| + 1
    ensures r.scope.clauses[|b.scope.clauses|].0 == b.occur
    ensures Valid(b) ==> Valid(r)
    decreases Size(v), 2
  {
    var r := Up(ParseValue(Down(b, occur), v));
    assert r.scope.clauses[..|b.scope.clauses|] == b.scope.clauses;
    r
  }

  /** The fold over an array's elements, left to right. */
  function ParseItems(b: QueryBuilder, items: seq<Json>): (r: QueryBuilder)
    ensures Extends(b, r)
    ensures Valid(b) ==> Valid(r)
    decreases ItemsSize(items), 2
  {
    if items == [] then b
    else
      var t := ParseValue(b, items[0]);
      var r := ParseItems(t, items[1..]);
      ExtendsTransitive(b, t, r);
      r
  }

  /** One entry of a `prefix` object: a string `value` adds a prefix query. */
  function PrefixStep(t: QueryBuilder, e: Member): (r: QueryBuilder)
    ensures Extends(t, r) && (Valid(t) ==> Valid(r))
  {
    match AsStr(Index(e.value, "value"))
    case Some(s) => AddPrefixQuery(t, e.key, s)
    case None => t
  }

  /** One entry of a `term` object: a u64 `value` is preferred, then a string one. */
  function TermStep(t: QueryBuilder, e: Member): (r: QueryBuilder)
    ensures Extends(t, r) && (Valid(t) ==> Valid(r))
  {
    match AsU64(Index(e.value, "value"))
    case Some(n) => AddTermQueryU64(t, e.key, n)
    case None =>
      match AsStr(Index(e.value, "value"))
      case Some(s) => AddTermQueryStr(t, e.key, s)
      case None => t
  }

  /** One entry of a `range` object: all four of `from`, `to`, `include_lower`, `include_upper` are needed. */
  function RangeStep(t: QueryBuilder, e: Member): (r: QueryBuilder)
    ensures Extends(t, r) && (Valid(t) ==> Valid(r))
  {
    var v := e.value;
    match (AsU64(Index(v, "from")), AsU64(Index(v, "to")),
           AsBool(Index(v, "include_lower")), AsBool(Index(v, "include_upper")))
    case (Some(left), Some(right), Some(il), Some(iu)) => AddRangeQuery(t, e.key, left, right, il, iu)
    case _ => t
  }

  function PrefixEntries(b: QueryBuilder, es: seq<Member>): (r: QueryBuilder)
    ensures Extends(b, r) && (Valid(b) ==> Valid(r))
    decreases es
  {
    if es == [] then b
    else
      var t := PrefixStep(b, es[0]);
      var r := PrefixEntries(t, es[1..]);
      ExtendsTransitive(b, t, r);
      r
  }

  function TermEntries(b: QueryBuilder, es: seq<Member>): (r: QueryBuilder)
    ensures Extends(b, r) && (Valid(b) ==> Valid(r))
    decreases es
  {
    if es == [] then b
    else
      var t := TermStep(b, es[0]);
      var r := TermEntries(t, es[1..]);
      ExtendsTransitive(b, t, r);
      r
  }

  function RangeEntries(b: QueryBuilder, es: seq<Member>): (r: QueryBuilder)
    ensures Extends(b, r) && (Valid(b) ==> Valid(r))
    decreases es
  {
    if es == [] then b
    else
      var t := RangeStep(b, es[0]);
      var r := RangeEntries(t, es[1..]);
      ExtendsTransitive(b, t, r);
      r
  }

  /**
   * A root builder's result: a `CatQuery` built from the root's own slot has
   * the root's limit, one unwrapped from a single clause has limit 0, and every
   * nested `CatQuery` has limit 0.
   */
  lemma RootBuildLimits(b: QueryBuilder)
    requires Valid(b) && b.parent.None?
    ensures var q := Build(b);
            (q.Cat? ==> q.limit == (if b.scope.field.Some? then b.scope.limit else 0)) && InnerCatLimitsZero(q)
  {
    var s := b.scope;
    if s.field.None? && |s.clauses| == 1 {
      assert CatLimitsZero(s.clauses[0].1);
    }
  }

  /**
   * `parse`: `text` is the outcome of `serde_json::from_str` (`None` when the
   * text is not valid JSON). The builder's result keeps everything but the
   * limit of a root `CatQuery`, which becomes `size`.
   */
  method Parse(text: Option<Json>, schema: Schema, size: nat) returns (q: Query)
    ensures text.None? ==> q == Boolean([])
    ensures text.Some? ==>
              var p := Build(ParseValue(New(schema, Must, size), text.value));
              q.Cat? == p.Cat? && (q.Cat? ==> q.(limit := 0) == p.(limit := 0)) && (!q.Cat? ==> q == p)
    ensures q.Cat? ==> q.limit == size
    ensures InnerCatLimitsZero(q)
  {
    var builder := New(schema, Must, size);
    if text.Some? {
      var b := ParseValue(builder, text.value);
      RootBuildLimits(b);
      q := Build(b);
    } else {
      q := Build(builder);
    }
    if q.Cat? {
      q := q.(limit := size);
    }
  }

  /**
   * Why `parse` overrides the limit: a range filter alone in a `bool.filter`
   * block is hoisted in the child scope (limit 0), and the root unwraps that
   * single clause, so the built query is a `CatQuery` with limit 0.
   */
  lemma UnwrappedCatHasLimitZero(schema: Schema, size: nat, k: string, left: u64, right: u64)
    requires k in schema
    ensures var q := Build(Up(AddRangeQuery(Down(New(schema, Must, size), Must), k, left, right, true, true)));
            q.Cat? && q.limit == 0
  {
  }

  // ---- Edge rules of the walk

  /** `query` is looked at first, whatever else the object holds. */
  lemma QueryKeyWins(b: QueryBuilder, v: Json, x: Json)
    requires Get(v, "query") == Some(x)
    ensures ParseValue(b, v) == ParseValue(b, x)
  {
  }

  /** With both `filter` and `should` in a `bool`, only `filter` is parsed, in a Must scope. */
  lemma FilterBeatsShould(b: QueryBuilder, v: Json, bv: Json, f: Json)
    requires Get(v, "query").None? && Get(v, "bool") == Some(bv) && Get(bv, "filter") == Some(f)
    ensures ParseValue(b, v) == ParseScope(b, Must, f)
  {
  }

  /** Without `filter`, a `should` under `bool` is parsed in a Should child scope. */
  lemma ShouldWithoutFilter(b: QueryBuilder, v: Json, bv: Json, sv: Json)
    requires Get(v, "query").None? && Get(v, "bool") == Some(bv)
    requires Get(bv, "filter").None? && Get(bv, "should") == Some(sv)
    ensures ParseValue(b, v) == ParseScope(b, Should, sv)
  {
  }

  /**
   * A `bool` block adds exactly one clause, under the current occur, and leaves
   * the enclosing scope's range slot alone: ranges inside it are hoisted in the child.
   */
  lemma BoolAddsOneClause(b: QueryBuilder, v: Json, bv: Json)
    requires Get(v, "query").None? && Get(v, "bool") == Some(bv)
    requires Get(bv, "filter").Some? || Get(bv, "should").Some?
    ensures var r := ParseValue(b, v);
            |r.scope.clauses| == |b.scope.clauses| + 1 && r.scope.clauses[|b.scope.clauses|].0 == b.occur
            && r.scope.field == b.scope.field && r.scope.left == b.scope.left && r.scope.right == b.scope.right
  {
  }

  /** Folding an array is element by element: one more element is one more step on the result. */
  lemma {:induction false} ParseItemsSnoc(b: QueryBuilder, items: seq<Json>, x: Json)
    ensures ParseItems(b, items + [x]) == ParseValue(ParseItems(b, items), x)
    decreases |items|
  {
    if items == [] {
      assert ParseItems(b, [x]) == ParseItems(ParseValue(b, x), []);
    } else {
      assert (items + [x])[0] == items[0];
      assert (items + [x])[1..] == items[1..] + [x];
      ParseItemsSnoc(ParseValue(b, items[0]), items[1..], x);
    }
  }

  /** An array keeps the current occur: each element is parsed with the builder the previous one left. */
  lemma ArrayIsFold(b: QueryBuilder, items: seq<Json>, x: Json)
    ensures ParseValue(b, Array([])) == b
    ensures ParseValue(b, Array(items + [x])) == ParseValue(ParseValue(b, Array(items)), x)
  {
    ParseItemsSnoc(b, items, x);
  }

  /** The keys that `QueryBuilder::parse` acts on. */
  predicate Recognised(key: string)
  {
    key == "query" || key == "prefix" || key == "term" || key == "range"
  }

  /** `v` has no `bool` key, or one whose value has neither `filter` nor `should`. */
  predicate NoBoolScope(v: Json)
  {
    Get(v, "bool").Some? ==> Get(Get(v, "bool").value, "filter").None? && Get(Get(v, "bool").value, "should").None?
  }

  /** The value under `k` is absent or not an object, so the key is passed over. */
  predicate NoObjectAt(v: Json, k: string)
  {
    Get(v, k).Some? ==> !Get(v, k).value.Object?
  }

  /** An object without a recognised key (a `bool` without `filter` or `should` counts as none) changes nothing. */
  lemma UnrecognisedObjectUnchanged(b: QueryBuilder, v: Json)
    requires v.Object?
    requires forall i :: 0 <= i < |v.entries| ==> !Recognised(v.entries[i].key)
    requires NoBoolScope(v)
    ensures ParseValue(b, v) == b
  {
    assert Get(v, "query").None? && Get(v, "prefix").None? && Get(v, "term").None? && Get(v, "range").None?;
  }

  /**
   * `prefix` is tried before `term` and `range`: with an object under `prefix`,
   * the others are ignored and only prefix clauses are added.
   */
  lemma PrefixBeforeTermAndRange(b: QueryBuilder, v: Json, es: seq<Member>)
    requires Get(v, "query").None? && NoBoolScope(v)
    requires Get(v, "prefix") == Some(Object(es))
    ensures var r := ParseValue(b, v);
            r == PrefixEntries(b, es)
            && |r.scope.clauses| <= |b.scope.clauses| + |es|
            && forall i :: |b.scope.clauses| <= i < |r.scope.clauses| ==>
                 r.scope.clauses[i].0 == b.occur && r.scope.clauses[i].1.Prefix?
  {
    PrefixEntriesOnlyPrefixes(b, es);
  }

  /**
   * `term` is tried before `range`: with no object under `prefix` (absent, or a
   * string, number, ...), an object under `term` decides and `range` is ignored.
   */
  lemma TermBeforeRange(b: QueryBuilder, v: Json, es: seq<Member>)
    requires Get(v, "query").None? && NoBoolScope(v) && NoObjectAt(v, "prefix")
    requires Get(v, "term") == Some(Object(es))
    ensures ParseValue(b, v) == TermEntries(b, es)
  {
  }

  /** With no object under `prefix` or `term`, an object under `range` decides. */
  lemma RangeAfterPrefixAndTerm(b: QueryBuilder, v: Json, es: seq<Member>)
    requires Get(v, "query").None? && NoBoolScope(v)
    requires NoObjectAt(v, "prefix") && NoObjectAt(v, "term")
    requires Get(v, "range") == Some(Object(es))
    ensures ParseValue(b, v) == RangeEntries(b, es)
  {
  }

  /**
   * A non-object value under `prefix`, `term` and `range` falls through every
   * branch: an object whose leaf keys all hold such values changes nothing.
   */
  lemma NonObjectLeavesFallThrough(b: QueryBuilder, v: Json)
    requires v.Object? && Get(v, "query").None? && NoBoolScope(v)
    requires NoObjectAt(v, "prefix") && NoObjectAt(v, "term") && NoObjectAt(v, "range")
    ensures ParseValue(b, v) == b
  {
  }

  lemma {:induction false} PrefixEntriesOnlyPrefixes(b: QueryBuilder, es: seq<Member>)
    ensures var r := PrefixEntries(b, es);
            r.scope.field == b.scope.field
            && |r.scope.clauses| <= |b.scope.clauses| + |es|
            && forall i :: |b.scope.clauses| <= i < |r.scope.clauses| ==>
                 r.scope.clauses[i].0 == b.occur && r.scope.clauses[i].1.Prefix?
    decreases es
  {
    if es != [] {
      var t := PrefixStep(b, es[0]);
      PrefixEntriesOnlyPrefixes(t, es[1..]);
      var r := PrefixEntries(t, es[1..]);
      assert r == PrefixEntries(b, es);
      forall i | |b.scope.clauses| <= i < |r.scope.clauses|
        ensures r.scope.clauses[i].0 == b.occur && r.scope.clauses[i].1.Prefix?
      {
        if i < |t.scope.clauses| {
          assert r.scope.clauses[i] == t.scope.clauses[i];
        }
      }
    }
  }

  /** A `term` entry: a u64 `value` gives a u64 term, a string one a text term, anything else nothing. */
  lemma TermEntryKinds(b: QueryBuilder, k: string, val: Json)
    requires k in b.schema
    ensures var r := TermEntries(b, [Member(k, val)]);
            var x := Index(val, "value");
            && (x.Number? && x.n.PosInt? ==> r.scope.clauses == b.scope.clauses + [(b.occur, Term(b.schema[k], U64(x.n.u)))])
            && (x.String? ==> r.scope.clauses == b.scope.clauses + [(b.occur, Term(b.schema[k], Text(x.s)))])
            && (!(x.Number? && x.n.PosInt?) && !x.String? ==> r == b)
  {
    assert TermEntries(b, [Member(k, val)]) == TermEntries(TermStep(b, Member(k, val)), []);
  }

  /** A `range` entry missing any of its four parts, or with one of the wrong type, is skipped. */
  lemma RangeEntryNeedsAllFour(b: QueryBuilder, k: string, val: Json)
    requires AsU64(Index(val, "from")).None? || AsU64(Index(val, "to")).None?
             || AsBool(Index(val, "include_lower")).None? || AsBool(Index(val, "include_upper")).None?
    ensures RangeEntries(b, [Member(k, val)]) == b
  {
    assert RangeEntries(b, [Member(k, val)]) == RangeEntries(RangeStep(b, Member(k, val)), []);
  }

  /** A complete `range` entry is handed to `add_range_query` with its four parts. */
  lemma RangeEntryComplete(b: QueryBuilder, k: string, val: Json, left: u64, right: u64, il: bool, iu: bool)
    requires AsU64(Index(val, "from")) == Some(left) && AsU64(Index(val, "to")) == Some(right)
    requires AsBool(Index(val, "include_lower")) == Some(il) && AsBool(Index(val, "include_upper")) == Some(iu)
    ensures RangeEntries(b, [Member(k, val)]) == AddRangeQuery(b, k, left, right, il, iu)
  {
    assert RangeEntries(b, [Member(k, val)]) == RangeEntries(RangeStep(b, Member(k, val)), []);
  }
}
