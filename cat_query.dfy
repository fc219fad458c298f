/**
 * `src/query/cat_query.rs`: a query that narrows an inner boolean query to the documents
 * whose u64 field lies in `[left, right]`, the five scoring strategies its weight has, its
 * `explain`, and the free leapfrog `intersection` of two doc cursors.
 *
 * A segment is seen through the inverted index of its fields: for each field, the term
 * dictionary as a list of `(value, docs)` entries by increasing value, each posting list
 * increasing. The inner boolean query is seen through the doc list its scorer yields on a
 * segment, or the error it fails with.
 */
module Cat {
  import opened Wrappers
  import opened Queries
  import opened BlockLists
  import opened Postings

  /** The `TantivyError`s this file produces or passes on. */
  datatype Error =
    | DoesNotMatch(doc: DocId)   // `InvalidArgument`: the explained doc is not a match
    | InnerError(code: nat)      // a failure of the inner query's weight or scorer

  // ---------------------------------------------------------------------------------
  // `intersection`: the leapfrog of two cursors
  // ---------------------------------------------------------------------------------

  /**
   * `o` is the smallest doc that both `a` and `b` contain, or `None` when they have no
   * doc in common.
   */
  predicate IsFirstCommon(a: seq<DocId>, b: seq<DocId>, o: Option<DocId>)
  {
    && (forall x :: x in a && x in b ==> o.Some? && o.value <= x)
    && (o.Some? ==> o.value in a && o.value in b)
  }

  /**
   * `intersection` on the visited lists: `l` is what `left` has still to visit, `rd` is
   * the current doc of `right` and `r` what `right` has after it. The result is the doc
   * both cursors stop on, or `None` when `false` is returned.
   */
  function Leapfrog(l: seq<DocId>, rd: DocId, r: seq<DocId>): Option<DocId>
  {
    if l == [] then None
    else if rd == l[0] then Some(l[0])
    else ChaseRight(l[0], l[1..], r)
  }

  /**
   * The loop from its first statement: `left` stands on `cand` with `l` after it, and
   * `right.skip_next(cand)` searches `r`.
   */
  function ChaseRight(cand: DocId, l: seq<DocId>, r: seq<DocId>): Option<DocId>
    decreases |l| + |r|
  {
    var i := FirstAtLeast(r, 0, cand);
    if i == |r| then None
    else if r[i] == cand then Some(cand)
    else ChaseLeft(r[i], l, r[i + 1..])
  }

  /**
   * The loop from its second `match`: `right` stands on `cand` with `r` after it, and
   * `left.skip_next(cand)` searches `l`.
   */
  function ChaseLeft(cand: DocId, l: seq<DocId>, r: seq<DocId>): Option<DocId>
    decreases |l| + |r|
  {
    var j := FirstAtLeast(l, 0, cand);
    if j == |l| then None
    else if l[j] == cand then Some(cand)
    else ChaseRight(l[j], l[j + 1..], r)
  }

  lemma FirstCommonSwap(a: seq<DocId>, b: seq<DocId>, o: Option<DocId>)
    requires IsFirstCommon(a, b, o)
    ensures IsFirstCommon(b, a, o)
  {
  }

  /** Docs of `b` that `a` lacks do not change the first common doc. */
  lemma FirstCommonDrop(a: seq<DocId>, b: seq<DocId>, k: nat, o: Option<DocId>)
    requires k <= |b| && forall j :: 0 <= j < k ==> b[j] !in a
    requires IsFirstCommon(a, b[k..], o)
    ensures IsFirstCommon(a, b, o)
  {
    forall x | x in a && x in b
      ensures o.Some? && o.value <= x
    {
      var j :| 0 <= j < |b| && b[j] == x;
      assert b[k..][j - k] == x;
    }
  }

  lemma FirstCommonCons(c: DocId, a: seq<DocId>, b: seq<DocId>, o: Option<DocId>)
    requires c !in b && IsFirstCommon(a, b, o)
    ensures IsFirstCommon([c] + a, b, o)
  {
    forall x | x in [c] + a && x in b
      ensures o.Some? && o.value <= x
    {
      assert x in a;
    }
  }

  /** A list increasing from `c` on: its tail is increasing and lies above `c`. */
  lemma HeadBelow(c: DocId, l: seq<DocId>)
    requires Increasing([c] + l)
    ensures Increasing(l)
    ensures forall x :: x in l ==> c < x
  {
    var s := [c] + l;
    forall i, j | 0 <= i < j < |l|
      ensures At(l, i) < At(l, j)
    {
      assert At(l, i) == At(s, i + 1) && At(l, j) == At(s, j + 1);
    }
    forall x | x in l
      ensures c < x
    {
      var j :| 0 <= j < |l| && l[j] == x;
      assert At(s, 0) == c && At(s, j + 1) == x;
    }
  }

  lemma IncreasingFrom(s: seq<DocId>, k: nat)
    requires Increasing(s) && k <= |s|
    ensures Increasing(s[k..])
  {
    forall i, j | 0 <= i < j < |s| - k
      ensures At(s[k..], i) < At(s[k..], j)
    {
      assert At(s[k..], i) == At(s, k + i) && At(s[k..], j) == At(s, k + j);
    }
  }

  /** A doc an increasing list steps over, between index `i - 1` and `i`, is not in it. */
  lemma SteppedOver(s: seq<DocId>, i: nat, c: DocId)
    requires Increasing(s) && i < |s| && c < s[i]
    requires forall j :: 0 <= j < i ==> s[j] < c
    ensures c !in s
  {
    LaterExceed(s, i);
    forall j | i < j < |s|
      ensures s[j] != c
    {
      assert At(s, i) < At(s, j);
    }
  }

  /** `ChaseRight` stops on the first doc common to `[cand] + l` and `r`. */
  lemma {:induction false} ChaseRightFirst(cand: DocId, l: seq<DocId>, r: seq<DocId>)
    requires Increasing([cand] + l) && Increasing(r)
    ensures IsFirstCommon([cand] + l, r, ChaseRight(cand, l, r))
    decreases |l| + |r|
  {
    var i := FirstAtLeast(r, 0, cand);
    FirstAtLeastIff(r, 0, cand, i);
    HeadBelow(cand, l);
    if i < |r| && r[i] != cand {
      var o := ChaseLeft(r[i], l, r[i + 1..]);
      IncreasingFrom(r, i);
      assert r[i..] == [r[i]] + r[i + 1..];
      ChaseLeftFirst(r[i], l, r[i + 1..]);
      FirstCommonDrop(l, r, i, o);
      SteppedOver(r, i, cand);
      FirstCommonCons(cand, l, r, o);
    }
  }

  /** `ChaseLeft` stops on the first doc common to `l` and `[cand] + r`. */
  lemma {:induction false} ChaseLeftFirst(cand: DocId, l: seq<DocId>, r: seq<DocId>)
    requires Increasing(l) && Increasing([cand] + r)
    ensures IsFirstCommon(l, [cand] + r, ChaseLeft(cand, l, r))
    decreases |l| + |r|
  {
    var j := FirstAtLeast(l, 0, cand);
    FirstAtLeastIff(l, 0, cand, j);
    HeadBelow(cand, r);
    if j < |l| && l[j] != cand {
      var o := ChaseRight(l[j], l[j + 1..], r);
      IncreasingFrom(l, j);
      assert l[j..] == [l[j]] + l[j + 1..];
      ChaseRightFirst(l[j], l[j + 1..], r);
      FirstCommonSwap(l[j..], r, o);
      FirstCommonDrop(r, l, j, o);
      SteppedOver(l, j, cand);
      FirstCommonCons(cand, r, l, o);
      FirstCommonSwap([cand] + r, l, o);
    }
  }

  /** Whatever doc `intersection` stops on, both cursors have it. */
  lemma LeapfrogSound(l: seq<DocId>, rd: DocId, r: seq<DocId>)
    requires Increasing(l) && Increasing([rd] + r)
    ensures Leapfrog(l, rd, r).Some? ==>
              Leapfrog(l, rd, r).value in l && Leapfrog(l, rd, r).value in [rd] + r
  {
    if l != [] && rd != l[0] {
      assert l == [l[0]] + l[1..];
      HeadBelow(rd, r);
      ChaseRightFirst(l[0], l[1..], r);
    }
  }

  /**
   * When `right` does not stand beyond `left`'s next doc, `intersection` stops on the
   * first doc the two cursors have in common, and returns false only when there is none.
   */
  lemma LeapfrogComplete(l: seq<DocId>, rd: DocId, r: seq<DocId>)
    requires Increasing(l) && Increasing([rd] + r)
    requires l != [] ==> rd <= l[0]
    ensures IsFirstCommon(l, [rd] + r, Leapfrog(l, rd, r))
  {
    if l != [] {
      assert l == [l[0]] + l[1..];
      HeadBelow(l[0], l[1..]);
      if rd != l[0] {
        var o := ChaseRight(l[0], l[1..], r);
        HeadBelow(rd, r);
        ChaseRightFirst(l[0], l[1..], r);
        FirstCommonSwap(l, r, o);
        FirstCommonCons(rd, r, l, o);
        FirstCommonSwap([rd] + r, l, o);
      }
    }
  }

  /** Where `skip_next(t)` lands in `s`: on `d`, after the docs `sk` that lie below `t`. */
  lemma SkipLands(s: seq<DocId>, t: DocId, sk: seq<DocId>, d: DocId, rest: seq<DocId>)
    requires s == sk + [d] + rest && AllBelow(sk, t) && t <= d
    ensures FirstAtLeast(s, 0, t) == |sk| && s[|sk|] == d && s[|sk| + 1..] == rest
  {
    FirstAtLeastIff(s, 0, t, |sk|);
  }

  lemma SkipEnds(s: seq<DocId>, t: DocId)
    requires AllBelow(s, t)
    ensures FirstAtLeast(s, 0, t) == |s|
  {
    FirstAtLeastIff(s, 0, t, |s|);
  }

  /** One `right.skip_next(cand)` that lands on `d`, with `rest` after it. */
  lemma RightStep(cand: DocId, l: seq<DocId>, rs: seq<DocId>, sk: seq<DocId>, d: DocId, rest: seq<DocId>)
    requires rs == sk + [d] + rest && AllBelow(sk, cand) && cand <= d
    ensures ChaseRight(cand, l, rs) == if d == cand then Some(cand) else ChaseLeft(d, l, rest)
  {
    SkipLands(rs, cand, sk, d, rest);
  }

  /** One `left.skip_next(cand)` that lands on `d`, with `rest` after it. */
  lemma LeftStep(cand: DocId, l: seq<DocId>, rs: seq<DocId>, sk: seq<DocId>, d: DocId, rest: seq<DocId>)
    requires l == sk + [d] + rest && AllBelow(sk, cand) && cand <= d
    ensures ChaseLeft(cand, l, rs) == if d == cand then Some(cand) else ChaseRight(d, rest, rs)
  {
    SkipLands(l, cand, sk, d, rest);
  }

  lemma RightEnd(cand: DocId, l: seq<DocId>, rs: seq<DocId>)
    requires AllBelow(rs, cand)
    ensures ChaseRight(cand, l, rs) == None
  {
    SkipEnds(rs, cand);
  }

  lemma LeftEnd(cand: DocId, l: seq<DocId>, rs: seq<DocId>)
    requires AllBelow(l, cand)
    ensures ChaseLeft(cand, l, rs) == None
  {
    SkipEnds(l, cand);
  }

  /** `intersection`: the result and the doc it stops on are those of `Leapfrog`. */
  method Intersection(left: SegmentPostings, right: SegmentPostings) returns (r: bool)
    requires left.Coherent() && right.Coherent() && right.cur < BLOCK
    requires left != right && left.blockCursor != right.blockCursor
    modifies left, left.blockCursor, right, right.blockCursor
    ensures r <==> Leapfrog(old(left.Remaining()), old(right.Doc()), old(right.Remaining())).Some?
    ensures r ==> && left.cur < |left.blockCursor.output| && right.cur < |right.blockCursor.output|
                  && left.Doc() == right.Doc()
                  && left.Doc() == Leapfrog(old(left.Remaining()), old(right.Doc()), old(right.Remaining())).value
  {
    ghost var res := Leapfrog(left.Remaining(), right.Doc(), right.Remaining());
    var more := left.Advance();
    if !more {
      return false;
    }
    var candidate := left.Doc();
    if right.Doc() == candidate {
      return true;
    }
    r := Chase(left, right, candidate);
  }

  /**
   * The `loop` of `intersection`: `left` stands on `start`, and the two cursors skip
   * to each other's doc until one reaches the other's or ends.
   */
  method Chase(left: SegmentPostings, right: SegmentPostings, start: DocId) returns (r: bool)
    requires left.Coherent() && right.Coherent()
    requires left != right && left.blockCursor != right.blockCursor
    requires left.cur < |left.blockCursor.output| && left.Doc() == start
    modifies left, left.blockCursor, right, right.blockCursor
    ensures r <==> old(ChaseRight(start, left.Remaining(), right.Remaining())).Some?
    ensures r ==> && left.cur < |left.blockCursor.output| && right.cur < |right.blockCursor.output|
                  && left.Doc() == right.Doc()
                  && left.Doc() == old(ChaseRight(start, left.Remaining(), right.Remaining())).value
  {
    ghost var res := ChaseRight(start, left.Remaining(), right.Remaining());
    var candidate := start;
    while true
      invariant left.Coherent() && right.Coherent()
      invariant left.blockCursor == old(left.blockCursor) && right.blockCursor == old(right.blockCursor)
      invariant left.cur < |left.blockCursor.output| && left.Doc() == candidate
      invariant res == ChaseRight(candidate, left.Remaining(), right.Remaining())
      decreases |left.Remaining()| + |right.Remaining()|
    {
      ghost var l := left.Remaining();
      ghost var rs := right.Remaining();
      var step, skipped := right.SkipNext(candidate);
      if step == End {
        RightEnd(candidate, l, rs);
        return false;
      }
      ghost var rest := right.Remaining();
      RightStep(candidate, l, rs, skipped, right.Doc(), rest);
      if step == Reached {
        return true;
      }
      candidate := right.Doc();
      step, skipped := left.SkipNext(candidate);
      if step == End {
        LeftEnd(candidate, l, rest);
        return false;
      }
      LeftStep(candidate, l, rest, skipped, left.Doc(), left.Remaining());
      if step == Reached {
        return true;
      }
      candidate := left.Doc();
    }
  }

  /**
   * A single counterexample. `right` standing on 3 while `left` is about to visit 1 and 3: the first
   * `right.skip_next(1)` moves `right` past 3, and the common doc is missed.
   */
  lemma LeapfrogMissesAhead()
    ensures Leapfrog([1, 3], 3, [4]) == None
    ensures 3 in [1, 3] && 3 in [3] + [4]
  {
    assert FirstAtLeast([4], 0, 1) == 0;
    assert [1, 3][1..] == [3];
    assert FirstAtLeast([3], 0, 4) == 1 by {
      assert FirstAtLeast([3], 1, 4) == 1;
    }
  }

  /**
   * The leapfrog as evidently intended: when `right` already stands beyond `left`'s doc,
   * `left` skips to `right`'s doc instead of `right` skipping away from it.
   */
  function LeapfrogFixed(l: seq<DocId>, rd: DocId, r: seq<DocId>): Option<DocId>
  {
    if l == [] then None
    else if rd == l[0] then Some(l[0])
    else if rd < l[0] then ChaseRight(l[0], l[1..], r)
    else ChaseLeft(rd, l[1..], r)
  }

  /** The corrected leapfrog stops on the first common doc wherever `right` stands. */
  lemma LeapfrogFixedFirst(l: seq<DocId>, rd: DocId, r: seq<DocId>)
    requires Increasing(l) && Increasing([rd] + r)
    ensures IsFirstCommon(l, [rd] + r, LeapfrogFixed(l, rd, r))
  {
    if l != [] && rd > l[0] {
      var o := ChaseLeft(rd, l[1..], r);
      assert l == [l[0]] + l[1..];
      HeadBelow(l[0], l[1..]);
      HeadBelow(rd, r);
      ChaseLeftFirst(rd, l[1..], r);
      FirstCommonCons(l[0], l[1..], [rd] + r, o);
    } else {
      LeapfrogComplete(l, rd, r);
    }
  }

  // ---------------------------------------------------------------------------------
  // Segments, the weight and the reference match sets
  // ---------------------------------------------------------------------------------

  /** A term dictionary of a u64 field: `(value, docs)` entries, one per value held. */
  type Dict = seq<(u64, seq<DocId>)>

  /** A dictionary as the index stores it: values increasing, each posting list increasing. */
  predicate DictValid(dict: Dict)
  {
    && (forall i, j :: 0 <= i < j < |dict| ==> dict[i].0 < dict[j].0)
    && (forall i :: 0 <= i < |dict| ==> Increasing(dict[i].1))
  }

  /** A segment, through the term dictionaries of its indexed fields. */
  datatype Segment = Segment(index: map<Field, Dict>)

  /** `reader.inverted_index(field)`: a field the segment does not index has no terms. */
  function Terms(seg: Segment, field: Field): Dict
  {
    if field in seg.index then seg.index[field] else []
  }

  /** The inner query's weight, through what its scorer yields on each segment. */
  type InnerWeight = Segment -> Result<seq<DocId>, Error>

  /** `CatWeight`: the inner weight and the range, as the query held them. */
  datatype CatWeight = CatWeight(inner: InnerWeight, field: Field, left: u64, right: u64, limit: nat)

  /**
   * `weight`: a `CatWeight` over the inner query's weight with the query's field, bounds
   * and limit; a failure to build the inner weight is passed on.
   */
  function Weight(q: Query, inner: Result<InnerWeight, Error>): (r: Result<CatWeight, Error>)
    requires q.Cat?
    ensures r.Err? <==> inner.Err?
    ensures r.Err? ==> r.error == inner.error
    ensures r.Ok? ==> && r.value.inner == inner.value && r.value.field == q.field
                      && r.value.left == q.left && r.value.right == q.right
                      && r.value.limit == q.limit
  {
    match inner
    case Err(e) => Err(e)
    case Ok(weight) => Ok(CatWeight(weight, q.field, q.left, q.right, q.limit))
  }

  /** The segment a weight scores is one the index could hold. */
  predicate SegmentValid(w: CatWeight, seg: Segment)
  {
    && DictValid(Terms(seg, w.field))
    && (w.inner(seg).Ok? ==> Increasing(w.inner(seg).value))
  }

  /** The docs that hold some value `v` with `lo <= v < hi`. */
  function DocsIn(dict: Dict, lo: int, hi: int): set<DocId>
  {
    set k, d | 0 <= k < |dict| && d in dict[k].1 && lo <= dict[k].0 < hi :: d
  }

  /** The matches of a scorer that keeps the inner matches with a value in `[lo, hi)`. */
  function Matches(w: CatWeight, seg: Segment, lo: int, hi: int): set<DocId>
    requires w.inner(seg).Ok?
  {
    Elems(w.inner(seg).value) * DocsIn(Terms(seg, w.field), lo, hi)
  }

  lemma DocsInCons(dict: Dict, lo: int, hi: int)
    requires dict != []
    ensures DocsIn(dict, lo, hi) ==
              (if lo <= dict[0].0 < hi then Elems(dict[0].1) else {}) + DocsIn(dict[1..], lo, hi)
  {
    var t := dict[1..];
    forall d | d in DocsIn(dict, lo, hi)
      ensures d in (if lo <= dict[0].0 < hi then Elems(dict[0].1) else {}) + DocsIn(t, lo, hi)
    {
      var k :| 0 <= k < |dict| && d in dict[k].1 && lo <= dict[k].0 < hi;
      if k > 0 {
        assert t[k - 1] == dict[k];
      }
    }
    forall d | d in DocsIn(t, lo, hi)
      ensures d in DocsIn(dict, lo, hi)
    {
      var k :| 0 <= k < |t| && d in t[k].1 && lo <= t[k].0 < hi;
      assert dict[k + 1] == t[k];
    }
  }

  lemma DocsInSnoc(dict: Dict, k: nat, lo: int, hi: int)
    requires k < |dict|
    ensures DocsIn(dict[..k + 1], lo, hi) ==
              DocsIn(dict[..k], lo, hi) + (if lo <= dict[k].0 < hi then Elems(dict[k].1) else {})
  {
    var a := dict[..k + 1];
    var b := dict[..k];
    forall d | d in DocsIn(a, lo, hi)
      ensures d in DocsIn(b, lo, hi) + (if lo <= dict[k].0 < hi then Elems(dict[k].1) else {})
    {
      var j :| 0 <= j < |a| && d in a[j].1 && lo <= a[j].0 < hi;
      if j < k {
        assert b[j] == a[j];
      }
    }
    forall d | d in DocsIn(b, lo, hi)
      ensures d in DocsIn(a, lo, hi)
    {
      var j :| 0 <= j < |b| && d in b[j].1 && lo <= b[j].0 < hi;
      assert a[j] == b[j];
    }
    assert a[k] == dict[k];
  }

  /** Value ranges that meet end to end hold the docs of both. */
  lemma DocsInSplit(dict: Dict, lo: int, mid: int, hi: int)
    requires lo <= mid <= hi
    ensures DocsIn(dict, lo, hi) == DocsIn(dict, lo, mid) + DocsIn(dict, mid, hi)
  {
  }

  /** An empty value range holds no doc. */
  lemma DocsInEmpty(dict: Dict, lo: int, hi: int)
    requires hi <= lo
    ensures DocsIn(dict, lo, hi) == {}
  {
  }

  lemma DocsInNone(dict: Dict, lo: int, hi: int)
    requires forall k :: 0 <= k < |dict| ==> !(lo <= dict[k].0 < hi)
    ensures DocsIn(dict, lo, hi) == {}
  {
  }

  /** `read_postings(Term::from_field_u64(field, v))`: the docs of value `v`, if it has any. */
  function Lookup(dict: Dict, v: int): Option<seq<DocId>>
  {
    if dict == [] then None
    else if dict[0].0 == v then Some(dict[0].1)
    else Lookup(dict[1..], v)
  }

  function OptElems(p: Option<seq<DocId>>): set<DocId>
  {
    if p.Some? then Elems(p.value) else {}
  }

  /** The posting list a lookup finds holds exactly the docs of that value. */
  lemma {:induction false} LookupDocs(dict: Dict, v: int)
    requires DictValid(dict)
    ensures OptElems(Lookup(dict, v)) == DocsIn(dict, v, v + 1)
    ensures Lookup(dict, v).Some? ==> Increasing(Lookup(dict, v).value)
  {
    if dict != [] {
      DocsInCons(dict, v, v + 1);
      if dict[0].0 == v {
        forall k | 0 <= k < |dict[1..]|
          ensures dict[1..][k].0 != v
        {
          assert dict[0].0 < dict[k + 1].0;
        }
        DocsInNone(dict[1..], v, v + 1);
      } else {
        LookupDocs(dict[1..], v);
      }
    }
  }

  /**
   * tantivy's `Intersection` of an increasing doc list with a set of docs it tests: the
   * docs of the list the set holds, in list order.
   */
  function Keep(docs: seq<DocId>, keep: set<DocId>): seq<DocId>
  {
    if docs == [] then []
    else (if docs[0] in keep then [docs[0]] else []) + Keep(docs[1..], keep)
  }

  lemma {:induction false} KeepElems(docs: seq<DocId>, keep: set<DocId>)
    ensures Elems(Keep(docs, keep)) == Elems(docs) * keep
  {
    if docs != [] {
      KeepElems(docs[1..], keep);
      assert docs == [docs[0]] + docs[1..];
      ElemsAppend([docs[0]], docs[1..]);
      ElemsAppend(if docs[0] in keep then [docs[0]] else [], Keep(docs[1..], keep));
    }
  }

  lemma {:induction false} KeepIncreasing(docs: seq<DocId>, keep: set<DocId>)
    requires Increasing(docs)
    ensures Increasing(Keep(docs, keep))
  {
    if docs != [] {
      assert docs == [docs[0]] + docs[1..];
      HeadBelow(docs[0], docs[1..]);
      KeepIncreasing(docs[1..], keep);
      if docs[0] in keep {
        var rest := Keep(docs[1..], keep);
        var s := [docs[0]] + rest;
        KeepElems(docs[1..], keep);
        forall i, j | 0 <= i < j < |s|
          ensures At(s, i) < At(s, j)
        {
          assert At(s, j) == rest[j - 1] && rest[j - 1] in Elems(rest);
          if i > 0 {
            assert At(s, i) == At(rest, i - 1) && At(rest, i - 1) < At(rest, j - 1);
          }
        }
        assert Keep(docs, keep) == s;
      } else {
        assert Keep(docs, keep) == Keep(docs[1..], keep);
      }
    }
  }

  /** `term_range`: the dictionary entries whose value lies in `[left, right]`, in order. */
  function TermRange(dict: Dict, left: u64, right: u64): Dict
  {
    if dict == [] then []
    else (if left <= dict[0].0 <= right then [dict[0]] else []) + TermRange(dict[1..], left, right)
  }

  /** Both bounds of `term_range` are included: it streams exactly the values in `[left, right]`. */
  lemma {:induction false} TermRangeExact(dict: Dict, left: u64, right: u64)
    ensures forall e :: e in TermRange(dict, left, right) <==> e in dict && left <= e.0 <= right
  {
    if dict != [] {
      TermRangeExact(dict[1..], left, right);
      assert dict == [dict[0]] + dict[1..];
    }
  }

  /** The docs of the streamed entries are those of the values in `[left, right]`. */
  lemma {:induction false} TermRangeDocs(dict: Dict, left: u64, right: u64)
    ensures DocsIn(TermRange(dict, left, right), left, right + 1) == DocsIn(dict, left, right + 1)
  {
    if dict != [] {
      var head: Dict := if left <= dict[0].0 <= right then [dict[0]] else [];
      var t := TermRange(dict[1..], left, right);
      TermRangeDocs(dict[1..], left, right);
      DocsInCons(dict, left, right + 1);
      if head != [] {
        DocsInCons(head + t, left, right + 1);
        assert (head + t)[1..] == t;
      } else {
        assert head + t == t;
      }
    }
  }

  // ---------------------------------------------------------------------------------
  // Draining posting lists into a bitset
  // ---------------------------------------------------------------------------------

  lemma ElemsCons(s: seq<DocId>)
    requires s != []
    ensures Elems(s) == {s[0]} + Elems(s[1..])
  {
    assert s == [s[0]] + s[1..];
    ElemsAppend([s[0]], s[1..]);
  }

  /**
   * `while postings.advance() { if keep.contains(postings.doc()) { bitset.insert(...) } }`
   * over the postings `read_postings` opens on `docs`; `filter` false inserts every doc.
   */
  method DrainPostings(docs: seq<DocId>, bitset: set<DocId>, filter: bool, keep: set<DocId>)
    returns (r: set<DocId>)
    requires Increasing(docs)
    ensures r == bitset + Picked(Elems(docs), filter, keep)
  {
    var postings := new SegmentPostings.CreateFromDocs(docs);
    ghost var todo := docs;
    r := bitset;
    var more := postings.Advance();
    if more {
      ConsSplit(docs);
    }
    while more
      invariant fresh(postings.blockCursor) && postings.Coherent()
      invariant more ==> postings.cur < |postings.blockCursor.output|
      invariant more ==> todo == [postings.Doc()] + postings.Remaining()
      invariant !more ==> todo == []
      invariant bitset + Picked(Elems(docs), filter, keep) == r + Picked(Elems(todo), filter, keep)
      decreases |todo|
    {
      var doc := postings.Doc();
      ghost var rest := postings.Remaining();
      DrainStep(bitset + Picked(Elems(docs), filter, keep), r, doc, rest, filter, keep);
      if !filter || doc in keep {
        r := r + {doc};
      }
      more := postings.Advance();
      todo := rest;
      if more {
        ConsSplit(rest);
      }
    }
  }

  lemma ConsSplit(s: seq<DocId>)
    requires s != []
    ensures s == [s[0]] + s[1..]
  {
  }

  /** One doc of a drain: inserting it, if picked, leaves the rest to insert. */
  lemma DrainStep(total: set<DocId>, r: set<DocId>, doc: DocId, rest: seq<DocId>, filter: bool, keep: set<DocId>)
    requires total == r + Picked(Elems([doc] + rest), filter, keep)
    ensures total == (if !filter || doc in keep then r + {doc} else r) + Picked(Elems(rest), filter, keep)
  {
    PickedCons([doc] + rest, filter, keep);
    assert ([doc] + rest)[1..] == rest;
  }

  /** The docs of `xs` a drain inserts: those `keep` holds, or all of them without `filter`. */
  function Picked(xs: set<DocId>, filter: bool, keep: set<DocId>): set<DocId>
  {
    if filter then xs * keep else xs
  }

  lemma PickedCons(s: seq<DocId>, filter: bool, keep: set<DocId>)
    requires s != []
    ensures Picked(Elems(s), filter, keep) ==
              (if !filter || s[0] in keep then {s[0]} else {}) + Picked(Elems(s[1..]), filter, keep)
  {
    ElemsCons(s);
  }

  /**
   * `read_block_postings_from_terminfo` on a term with `docs`, then
   * `while postings.advance() { for &doc in postings.docs() { bitset.insert(doc) } }`.
   */
  method DrainBlocks(docs: seq<DocId>, bitset: set<DocId>) returns (r: set<DocId>)
    requires Increasing(docs)
    ensures r == bitset + Elems(docs)
  {
    ChunksShaped(docs);
    ChunksFlatten(docs);
    var postings := new BlockSegmentPostings.FromData(|docs|, Chunks(docs), Zeros(|docs| / BLOCK));
    r := postings.AppendRemaining(bitset);
  }

  /** Every entry `term_range` streams is one of the dictionary. */
  lemma TermRangeValid(dict: Dict, left: u64, right: u64)
    requires DictValid(dict)
    ensures forall k :: 0 <= k < |TermRange(dict, left, right)| ==> Increasing(TermRange(dict, left, right)[k].1)
  {
    TermRangeExact(dict, left, right);
    forall k | 0 <= k < |TermRange(dict, left, right)|
      ensures Increasing(TermRange(dict, left, right)[k].1)
    {
      assert TermRange(dict, left, right)[k] in dict;
    }
  }

  // ---------------------------------------------------------------------------------
  // The scorers
  // ---------------------------------------------------------------------------------

  /**
   * `scorer2`, the one `Weight::scorer` uses: the docs of every value `term_range` streams
   * go into a bitset, which is intersected with the inner query's scorer.
   */
  method Scorer2(w: CatWeight, seg: Segment) returns (r: Result<seq<DocId>, Error>)
    requires SegmentValid(w, seg)
    ensures w.inner(seg).Err? ==> r == Err(w.inner(seg).error)
    ensures w.inner(seg).Ok? ==> && r.Ok? && Increasing(r.value)
                                 && Elems(r.value) == Matches(w, seg, w.left, w.right + 1)
  {
    var dict := Terms(seg, w.field);
    var range := TermRange(dict, w.left, w.right);
    TermRangeValid(dict, w.left, w.right);
    var bitset: set<DocId> := {};
    for k := 0 to |range|
      invariant bitset == DocsIn(range[..k], w.left, w.right + 1)
    {
      bitset := DrainBlocks(range[k].1, bitset);
      DocsInSnoc(range, k, w.left, w.right + 1);
      TermRangeExact(dict, w.left, w.right);
      assert range[k] in range;
    }
    assert range[..|range|] == range;
    TermRangeDocs(dict, w.left, w.right);
    var inner := w.inner(seg);
    if inner.Err? {
      return Err(inner.error);
    }
    KeepElems(inner.value, bitset);
    KeepIncreasing(inner.value, bitset);
    r := Ok(Keep(inner.value, bitset));
  }

  /**
   * The half-open loop `for i in left..right` of `scorer3`, `scorer4` and `scorer5`: the
   * docs of every value `i` the dictionary has, kept when `keep` holds them (`filter`).
   */
  method CollectRange(dict: Dict, left: u64, right: u64, filter: bool, keep: set<DocId>)
    returns (bitset: set<DocId>)
    requires DictValid(dict)
    ensures bitset == Picked(DocsIn(dict, left, right), filter, keep)
  {
    bitset := {};
    var i: int := left;
    while i < right
      invariant left <= i && (i <= right || i == left)
      invariant bitset == Picked(DocsIn(dict, left, i), filter, keep)
    {
      var postings := Lookup(dict, i);
      LookupDocs(dict, i);
      DocsInSplit(dict, left, i, i + 1);
      if postings.Some? {
        bitset := DrainPostings(postings.value, bitset, filter, keep);
      }
      i := i + 1;
    }
    if right <= left {
      DocsInEmpty(dict, left, right);
    }
  }

  /** `scorer3`: the half-open value range into a bitset, intersected with the inner scorer. */
  method Scorer3(w: CatWeight, seg: Segment) returns (r: Result<seq<DocId>, Error>)
    requires SegmentValid(w, seg)
    ensures w.inner(seg).Err? ==> r == Err(w.inner(seg).error)
    ensures w.inner(seg).Ok? ==> && r.Ok? && Increasing(r.value)
                                 && Elems(r.value) == Matches(w, seg, w.left, w.right)
  {
    var bitset := CollectRange(Terms(seg, w.field), w.left, w.right, false, {});
    var inner := w.inner(seg);
    if inner.Err? {
      return Err(inner.error);
    }
    KeepElems(inner.value, bitset);
    KeepIncreasing(inner.value, bitset);
    r := Ok(Keep(inner.value, bitset));
  }

  /**
   * `scorer4`: the inner matches become the keys of a `BTreeMap`, and the docs of the
   * half-open value range that are keys go into the bitset.
   */
  method Scorer4(w: CatWeight, seg: Segment) returns (r: Result<set<DocId>, Error>)
    requires SegmentValid(w, seg)
    ensures w.inner(seg).Err? ==> r == Err(w.inner(seg).error)
    ensures w.inner(seg).Ok? ==> r == Ok(Matches(w, seg, w.left, w.right))
  {
    var inner := w.inner(seg);
    if inner.Err? {
      return Err(inner.error);
    }
    var keys := InsertDocs({}, inner.value);
    var bitset := CollectRange(Terms(seg, w.field), w.left, w.right, true, keys);
    assert keys == Elems(inner.value);
    assert bitset == DocsIn(Terms(seg, w.field), w.left, w.right) * keys;
    assert bitset == Matches(w, seg, w.left, w.right);
    r := Ok(bitset);
  }

  /**
   * `scorer5`: the inner matches go into a bitmap, and the docs of the half-open value
   * range that it holds go into the bitset.
   */
  method Scorer5(w: CatWeight, seg: Segment) returns (r: Result<set<DocId>, Error>)
    requires SegmentValid(w, seg)
    ensures w.inner(seg).Err? ==> r == Err(w.inner(seg).error)
    ensures w.inner(seg).Ok? ==> r == Ok(Matches(w, seg, w.left, w.right))
  {
    var inner := w.inner(seg);
    if inner.Err? {
      return Err(inner.error);
    }
    var bitmap := InsertDocs({}, inner.value);
    var bitset := CollectRange(Terms(seg, w.field), w.left, w.right, true, bitmap);
    assert bitmap == Elems(inner.value);
    assert bitset == DocsIn(Terms(seg, w.field), w.left, w.right) * bitmap;
    assert bitset == Matches(w, seg, w.left, w.right);
    r := Ok(bitset);
  }

  /** The half-open scorers match nothing when `right <= left`. */
  lemma HalfOpenEmpty(w: CatWeight, seg: Segment)
    requires w.inner(seg).Ok? && w.right <= w.left
    ensures Matches(w, seg, w.left, w.right) == {}
  {
    DocsInEmpty(Terms(seg, w.field), w.left, w.right);
  }

  /** `scorer2` matches what the half-open scorers do, and the inner matches of value `right`. */
  lemma InclusiveExtendsHalfOpen(w: CatWeight, seg: Segment)
    requires w.inner(seg).Ok? && w.left <= w.right
    ensures Matches(w, seg, w.left, w.right + 1) ==
              Matches(w, seg, w.left, w.right) + Matches(w, seg, w.right, w.right + 1)
  {
    DocsInSplit(Terms(seg, w.field), w.left, w.right, w.right + 1);
  }

  /** The docs of one value that the inner matches hold: `Intersection` of `VecDocSet(v)` and its postings. */
  function Matched(postings: Option<seq<DocId>>, inner: seq<DocId>): seq<DocId>
  {
    if postings.Some? then Keep(postings.value, Elems(inner)) else []
  }

  /**
   * What `scorer1` pushes when no limit stops it: value by value from `lo` up to `hi`
   * (excluded), the inner matches of each value in doc order.
   */
  function ByValue(dict: Dict, inner: seq<DocId>, lo: int, hi: int): seq<DocId>
    decreases hi - lo
  {
    if hi <= lo then [] else ByValue(dict, inner, lo, hi - 1) + Matched(Lookup(dict, hi - 1), inner)
  }

  /** Pushing more values only extends what was pushed. */
  lemma {:induction false} ByValuePrefix(dict: Dict, inner: seq<DocId>, lo: int, mid: int, hi: int)
    requires mid <= hi
    ensures |ByValue(dict, inner, lo, mid)| <= |ByValue(dict, inner, lo, hi)|
    ensures ByValue(dict, inner, lo, hi)[..|ByValue(dict, inner, lo, mid)|] == ByValue(dict, inner, lo, mid)
    decreases hi - mid
  {
    if mid < hi && lo < hi {
      ByValuePrefix(dict, inner, lo, mid, hi - 1);
    }
  }

  /** Without a limit, `scorer1` finds what the other half-open scorers do. */
  lemma {:induction false} ByValueElems(dict: Dict, inner: seq<DocId>, lo: int, hi: int)
    requires DictValid(dict)
    ensures Elems(ByValue(dict, inner, lo, hi)) == Elems(inner) * DocsIn(dict, lo, hi)
    decreases hi - lo
  {
    if hi <= lo {
      DocsInEmpty(dict, lo, hi);
    } else {
      var p := Lookup(dict, hi - 1);
      ByValueElems(dict, inner, lo, hi - 1);
      ElemsAppend(ByValue(dict, inner, lo, hi - 1), Matched(p, inner));
      LookupDocs(dict, hi - 1);
      if p.Some? {
        KeepElems(p.value, Elems(inner));
      }
      DocsInSplit(dict, lo, hi - 1, hi);
    }
  }

  /** The most docs `scorer1` returns: it compares the count with `limit` only after a push. */
  function Cap(limit: nat): nat
  {
    if limit == 0 then 1 else limit
  }

  /**
   * `scorer1`: for each value of `left..right` in turn, the inner matches of that value are
   * pushed in doc order, and the scorer returns once the count reaches `limit`.
   */
  method Scorer1(w: CatWeight, seg: Segment) returns (r: Result<seq<DocId>, Error>)
    requires SegmentValid(w, seg)
    ensures w.inner(seg).Err? ==> r == Err(w.inner(seg).error)
    ensures w.inner(seg).Ok? ==>
              var all := ByValue(Terms(seg, w.field), w.inner(seg).value, w.left, w.right);
              r == Ok(all[..Min(|all|, Cap(w.limit))])
  {
    var dict := Terms(seg, w.field);
    var inner := w.inner(seg);
    if inner.Err? {
      return Err(inner.error);
    }
    var v := inner.value;
    var docVec: seq<DocId> := [];
    var i: int := w.left;
    while i < w.right
      invariant w.left <= i && (i <= w.right || i == w.left)
      invariant docVec == ByValue(dict, v, w.left, i) && |docVec| < Cap(w.limit)
    {
      var postings := Lookup(dict, i);
      if postings.Some? {
        var stop;
        docVec, stop := PushMatches(docVec, Keep(postings.value, Elems(v)), w.limit);
        if stop {
          StopsWithin(dict, v, w.left, i, w.right, Cap(w.limit));
          return Ok(docVec);
        }
      }
      i := i + 1;
    }
    assert docVec == ByValue(dict, v, w.left, w.right);
    assert docVec[..Min(|docVec|, Cap(w.limit))] == docVec;
    return Ok(docVec);
  }

  /**
   * The inner `while intersection_scorer.advance()` of `scorer1`: pushes the docs of
   * `common` after `docVec`, and stops as soon as the count reaches `limit`.
   */
  method PushMatches(docVec: seq<DocId>, common: seq<DocId>, limit: nat)
    returns (pushed: seq<DocId>, stop: bool)
    requires |docVec| < Cap(limit)
    ensures stop <==> |docVec| + |common| >= Cap(limit)
    ensures pushed == (docVec + common)[..Min(|docVec| + |common|, Cap(limit))]
  {
    pushed := docVec;
    var num := |docVec|;
    var j := 0;
    while j < |common|
      invariant 0 <= j <= |common| && num == |pushed| == |docVec| + j < Cap(limit)
      invariant pushed == (docVec + common)[..num]
    {
      pushed := pushed + [common[j]];
      num := num + 1;
      if num >= limit {
        return pushed, true;
      }
      j := j + 1;
    }
    return pushed, false;
  }

  /** Where `scorer1` stops inside value `i`, it has returned the first `cap` docs of all. */
  lemma StopsWithin(dict: Dict, inner: seq<DocId>, lo: int, i: int, hi: int, cap: nat)
    requires lo <= i < hi
    requires cap <= |ByValue(dict, inner, lo, i + 1)|
    ensures var all := ByValue(dict, inner, lo, hi);
            ByValue(dict, inner, lo, i) + Matched(Lookup(dict, i), inner) == ByValue(dict, inner, lo, i + 1)
            && ByValue(dict, inner, lo, i + 1)[..cap] == all[..Min(|all|, cap)]
  {
    ByValuePrefix(dict, inner, lo, i + 1, hi);
    var all := ByValue(dict, inner, lo, hi);
    var upTo := ByValue(dict, inner, lo, i + 1);
    assert all[..|upTo|][..cap] == all[..cap];
  }

  /** `Weight::scorer`: `scorer2`. */
  method Scorer(w: CatWeight, seg: Segment) returns (r: Result<seq<DocId>, Error>)
    requires SegmentValid(w, seg)
    ensures w.inner(seg).Err? ==> r == Err(w.inner(seg).error)
    ensures w.inner(seg).Ok? ==> && r.Ok? && Increasing(r.value)
                                 && Elems(r.value) == Matches(w, seg, w.left, w.right + 1)
  {
    r := Scorer2(w, seg);
  }

  /** `Explanation::new(description, 1.0)`; the score is not modelled. */
  datatype Explanation = Explanation(description: string)

  /** `skip_next(target)` on a doc set that has not advanced yet, over the increasing docs `s`. */
  function SkipFresh(s: seq<DocId>, target: DocId): SkipResult
  {
    var i := FirstAtLeast(s, 0, target);
    if i == |s| then End else if s[i] == target then Reached else OverStep
  }

  /** On an increasing list, `skip_next(target)` reaches `target` exactly when it is there. */
  lemma SkipFreshReached(s: seq<DocId>, target: DocId)
    requires Increasing(s)
    ensures SkipFresh(s, target) == Reached <==> target in s
  {
    var i := FirstAtLeast(s, 0, target);
    FirstAtLeastIff(s, 0, target, i);
    if i < |s| {
      LaterExceed(s, i);
    }
    if target in s {
      var j :| 0 <= j < |s| && s[j] == target;
      assert At(s, j) == target;
    }
  }

  /** `explain`: an error exactly when the scorer does not reach `doc`. */
  method Explain(w: CatWeight, seg: Segment, doc: DocId) returns (r: Result<Explanation, Error>)
    requires SegmentValid(w, seg)
    ensures w.inner(seg).Err? ==> r == Err(w.inner(seg).error)
    ensures w.inner(seg).Ok? ==> (r.Ok? <==> doc in Matches(w, seg, w.left, w.right + 1))
    ensures w.inner(seg).Ok? && r.Err? ==> r.error == DoesNotMatch(doc)
    ensures r.Ok? ==> r.value == Explanation("CatQuery")
  {
    var scorer := Scorer(w, seg);
    if scorer.Err? {
      return Err(scorer.error);
    }
    SkipFreshReached(scorer.value, doc);
    if SkipFresh(scorer.value, doc) != Reached {
      return Err(DoesNotMatch(doc));
    }
    r := Ok(Explanation("CatQuery"));
  }
}
