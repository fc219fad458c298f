/**
 * The decoded form of one posting list: a strictly increasing sequence of doc ids
 * cut into blocks of `COMPRESSION_BLOCK_SIZE` (128) docs.  Every block but the last
 * is full and has an entry in the skip list; when the list length is not a multiple
 * of 128 the last block holds the remainder and is stored variable-int encoded.
 */
module BlockLists {

  /** `COMPRESSION_BLOCK_SIZE`. */
  const BLOCK: nat := 128

  type DocId = nat

  /** Sequence indexing as a function, so that quantifiers over pairs of indices have a trigger. */
  function At(s: seq<DocId>, i: nat): DocId
    requires i < |s|
  {
    s[i]
  }

  predicate Increasing(s: seq<DocId>)
  {
    forall i, j {:trigger At(s, i), At(s, j)} :: 0 <= i < j < |s| ==> At(s, i) < At(s, j)
  }

  lemma IncreasingAt(s: seq<DocId>, i: nat, j: nat)
    requires Increasing(s) && i < j < |s|
    ensures s[i] < s[j]
  {
    assert At(s, i) < At(s, j);
  }

  /** Both halves of an increasing sequence are increasing, and the first lies below the second. */
  lemma IncreasingSplit(a: seq<DocId>, b: seq<DocId>)
    requires Increasing(a + b)
    ensures Increasing(a) && Increasing(b)
    ensures forall i, j :: 0 <= i < |a| && 0 <= j < |b| ==> a[i] < b[j]
  {
    var s := a + b;
    forall i, j | 0 <= i < j < |a|
      ensures At(a, i) < At(a, j)
    {
      IncreasingAt(s, i, j);
    }
    forall i, j | 0 <= i < j < |b|
      ensures At(b, i) < At(b, j)
    {
      IncreasingAt(s, |a| + i, |a| + j);
    }
    forall i, j | 0 <= i < |a| && 0 <= j < |b|
      ensures a[i] < b[j]
    {
      IncreasingAt(s, i, |a| + j);
    }
  }

  predicate AllBelow(s: seq<DocId>, target: DocId)
  {
    forall j :: 0 <= j < |s| ==> s[j] < target
  }

  function Last(b: seq<DocId>): DocId
    requires b != []
  {
    b[|b| - 1]
  }

  /** The docs of the blocks, in order. */
  function Flatten(bs: seq<seq<DocId>>): seq<DocId>
  {
    if bs == [] then [] else bs[0] + Flatten(bs[1..])
  }

  lemma {:induction false} FlattenAppend(a: seq<seq<DocId>>, b: seq<seq<DocId>>)
    ensures Flatten(a + b) == Flatten(a) + Flatten(b)
  {
    if a == [] {
      assert a + b == b;
    } else {
      assert (a + b)[1..] == a[1..] + b;
      FlattenAppend(a[1..], b);
    }
  }

  lemma FlattenFrom(bs: seq<seq<DocId>>, k: nat)
    requires k < |bs|
    ensures Flatten(bs[k..]) == bs[k] + Flatten(bs[k + 1..])
  {
    assert bs[k..][1..] == bs[k + 1..];
  }

  lemma FlattenSplit(bs: seq<seq<DocId>>, c: nat, k: nat)
    requires c <= k < |bs|
    ensures Flatten(bs[c..]) == Flatten(bs[c..k]) + (bs[k] + Flatten(bs[k + 1..]))
  {
    assert bs[c..] == bs[c..k] + bs[k..];
    FlattenAppend(bs[c..k], bs[k..]);
    FlattenFrom(bs, k);
  }

  /** Each block of an increasing list is itself increasing. */
  lemma {:induction false} BlockIncreasing(bs: seq<seq<DocId>>, k: nat)
    requires Increasing(Flatten(bs)) && k < |bs|
    ensures Increasing(bs[k])
  {
    IncreasingSplit(bs[0], Flatten(bs[1..]));
    if k > 0 {
      assert bs[1..][k - 1] == bs[k];
      BlockIncreasing(bs[1..], k - 1);
    }
  }

  /** No doc of a block exceeds the block's last doc. */
  lemma AtMostLast(b: seq<DocId>, i: nat)
    requires Increasing(b) && i < |b|
    ensures b[i] <= Last(b)
  {
    if i < |b| - 1 {
      IncreasingAt(b, i, |b| - 1);
    }
  }

  /** A block whose last doc is below `target` lies wholly below `target`. */
  lemma BlockBelow(b: seq<DocId>, target: DocId)
    requires Increasing(b) && b != [] && Last(b) < target
    ensures AllBelow(b, target)
  {
    forall j | 0 <= j < |b|
      ensures b[j] < target
    {
      AtMostLast(b, j);
    }
  }

  /** Blocks `c..k` whose last docs are all below `target` hold only docs below `target`. */
  lemma {:induction false} BlocksBelow(bs: seq<seq<DocId>>, c: nat, k: nat, target: DocId)
    requires Increasing(Flatten(bs)) && c <= k <= |bs|
    requires forall j :: c <= j < k ==> !Reaches(bs, j, target)
    ensures AllBelow(Flatten(bs[c..k]), target)
    decreases k - c
  {
    if c < k {
      assert bs[c..k][1..] == bs[c + 1..k];
      BlocksBelow(bs, c + 1, k, target);
      if bs[c] != [] {
        assert !Reaches(bs, c, target);
        BlockIncreasing(bs, c);
        BlockBelow(bs[c], target);
      }
      AllBelowAppend(bs[c], Flatten(bs[c + 1..k]), target);
    }
  }

  lemma AllBelowAppend(a: seq<DocId>, b: seq<DocId>, target: DocId)
    requires AllBelow(a, target) && AllBelow(b, target)
    ensures AllBelow(a + b, target)
  {
    forall j | 0 <= j < |a + b|
      ensures (a + b)[j] < target
    {
      if j >= |a| {
        assert (a + b)[j] == b[j - |a|];
      }
    }
  }

  /** The docs after position `cur` of block `c - 1`, then those of every later block. */
  function After(bs: seq<seq<DocId>>, c: nat, cur: nat): seq<DocId>
    requires 0 < c <= |bs| && cur < |bs[c - 1]|
  {
    bs[c - 1][cur + 1..] + Flatten(bs[c..])
  }

  /** In an increasing list, every doc after a position exceeds the doc at it. */
  lemma CursorOrder(bs: seq<seq<DocId>>, c: nat, cur: nat)
    requires Increasing(Flatten(bs)) && 0 < c <= |bs| && cur < |bs[c - 1]|
    ensures forall j :: 0 <= j < |After(bs, c, cur)| ==> bs[c - 1][cur] < After(bs, c, cur)[j]
  {
    var s := bs[c - 1] + Flatten(bs[c..]);
    SuffixIncreasing(bs, c);
    assert After(bs, c, cur) == s[cur + 1..];
    assert s[cur] == bs[c - 1][cur];
    LaterExceed(s, cur);
    forall j | 0 <= j < |After(bs, c, cur)|
      ensures bs[c - 1][cur] < After(bs, c, cur)[j]
    {
      assert After(bs, c, cur)[j] == At(s, cur + 1 + j);
    }
  }

  /** From block `c - 1` on, the docs are increasing. */
  lemma SuffixIncreasing(bs: seq<seq<DocId>>, c: nat)
    requires Increasing(Flatten(bs)) && 0 < c <= |bs|
    ensures Increasing(bs[c - 1] + Flatten(bs[c..]))
  {
    assert bs == bs[..c - 1] + bs[c - 1..];
    FlattenAppend(bs[..c - 1], bs[c - 1..]);
    FlattenFrom(bs, c - 1);
    IncreasingSplit(Flatten(bs[..c - 1]), bs[c - 1] + Flatten(bs[c..]));
  }

  lemma LaterExceed(s: seq<DocId>, cur: nat)
    requires Increasing(s) && cur < |s|
    ensures forall j :: cur < j < |s| ==> At(s, cur) < At(s, j)
  {
    forall j | cur < j < |s|
      ensures At(s, cur) < At(s, j)
    {
      IncreasingAt(s, cur, j);
    }
  }

  /**
   * The layout the serializer produces for a list of `docFreq` docs with the given
   * per-block term-frequency sums: `docFreq / 128` full blocks with a skip entry each,
   * then a remainder block when `docFreq % 128 != 0`, all docs increasing.
   */
  predicate Shaped(docFreq: nat, blocks: seq<seq<DocId>>, skipTf: seq<nat>)
  {
    && |skipTf| == docFreq / BLOCK
    && |blocks| == (if docFreq % BLOCK == 0 then |skipTf| else |skipTf| + 1)
    && (forall k :: 0 <= k < |skipTf| ==> |blocks[k]| == BLOCK)
    && (docFreq % BLOCK != 0 ==> |blocks[|skipTf|]| == docFreq % BLOCK)
    && Increasing(Flatten(blocks))
  }

  /**
   * What a cursor over the blocks relies on: one skip entry per block except
   * possibly the last, blocks of 1 to 128 docs, all docs increasing.
   */
  predicate Layout(blocks: seq<seq<DocId>>, skipTf: seq<nat>)
  {
    && (|blocks| == |skipTf| || |blocks| == |skipTf| + 1)
    && (forall k :: 0 <= k < |blocks| ==> 0 < |blocks[k]| <= BLOCK)
    && Increasing(Flatten(blocks))
  }

  /** The serializer's layout is a cursor layout holding `docFreq` docs, the last `docFreq % 128` of them variable-int encoded. */
  lemma ShapedLayout(docFreq: nat, blocks: seq<seq<DocId>>, skipTf: seq<nat>)
    requires Shaped(docFreq, blocks, skipTf)
    ensures Layout(blocks, skipTf) && |Flatten(blocks)| == docFreq
    ensures docFreq % BLOCK != 0 <==> |blocks| == |skipTf| + 1
    ensures docFreq % BLOCK != 0 ==> |blocks[|skipTf|]| == docFreq % BLOCK
  {
    ShapedLength(docFreq, blocks, skipTf);
  }

  lemma {:induction false} FullBlocksLength(blocks: seq<seq<DocId>>, m: nat)
    requires m <= |blocks|
    requires forall k :: 0 <= k < m ==> |blocks[k]| == BLOCK
    ensures |Flatten(blocks[..m])| == BLOCK * m
  {
    if m > 0 {
      assert blocks[..m] == blocks[..m - 1] + [blocks[m - 1]];
      FlattenAppend(blocks[..m - 1], [blocks[m - 1]]);
      assert Flatten([blocks[m - 1]]) == blocks[m - 1] + Flatten([]);
      FullBlocksLength(blocks, m - 1);
    }
  }

  /** The blocks hold exactly `docFreq` docs. */
  lemma ShapedLength(docFreq: nat, blocks: seq<seq<DocId>>, skipTf: seq<nat>)
    requires Shaped(docFreq, blocks, skipTf)
    ensures |Flatten(blocks)| == docFreq
  {
    var m := |skipTf|;
    FullBlocksLength(blocks, m);
    assert blocks == blocks[..m] + blocks[m..];
    FlattenAppend(blocks[..m], blocks[m..]);
    if docFreq % BLOCK != 0 {
      FlattenFrom(blocks, m);
      assert blocks[m + 1..] == [];
    } else {
      assert blocks[m..] == [];
    }
  }

  /**
   * `PostingsSerializer`'s blocking of a doc list: full blocks of 128 docs, then the
   * remaining docs as one last block (none when 128 divides the length).
   */
  function Chunks(docs: seq<DocId>): seq<seq<DocId>>
    decreases |docs|
  {
    if |docs| <= BLOCK then (if docs == [] then [] else [docs])
    else [docs[..BLOCK]] + Chunks(docs[BLOCK..])
  }

  /** Blocking neither loses nor reorders docs. */
  lemma {:induction false} ChunksFlatten(docs: seq<DocId>)
    ensures Flatten(Chunks(docs)) == docs
    decreases |docs|
  {
    if |docs| <= BLOCK {
      if docs != [] {
        assert Flatten([docs]) == docs + Flatten([]);
      }
    } else {
      var rest := docs[BLOCK..];
      ChunksFlatten(rest);
      assert Chunks(docs)[1..] == Chunks(rest);
      assert docs == docs[..BLOCK] + rest;
    }
  }

  /** Blocking yields `n / 128` full blocks and, when `n % 128 != 0`, a last block of `n % 128` docs. */
  lemma {:induction false} ChunksSizes(docs: seq<DocId>)
    ensures var bs := Chunks(docs); var n := |docs|;
            && |bs| == (if n % BLOCK == 0 then n / BLOCK else n / BLOCK + 1)
            && (forall k :: 0 <= k < n / BLOCK ==> |bs[k]| == BLOCK)
            && (n % BLOCK != 0 ==> |bs[n / BLOCK]| == n % BLOCK)
    decreases |docs|
  {
    if |docs| > BLOCK {
      var rest := docs[BLOCK..];
      ChunksSizes(rest);
      assert |rest| / BLOCK == |docs| / BLOCK - 1 && |rest| % BLOCK == |docs| % BLOCK;
      var bs := Chunks(docs);
      assert bs == [docs[..BLOCK]] + Chunks(rest);
      forall k | 0 <= k < |docs| / BLOCK
        ensures |bs[k]| == BLOCK
      {
        if k > 0 {
          assert bs[k] == Chunks(rest)[k - 1];
        }
      }
    }
  }

  /** `n` zero term-frequency sums: the skip entries of a list written without frequencies. */
  function Zeros(n: nat): seq<nat>
  {
    seq(n, _ => 0)
  }

  /** An increasing list, blocked by the serializer, has the serializer's layout. */
  lemma ChunksShaped(docs: seq<DocId>)
    requires Increasing(docs)
    ensures Shaped(|docs|, Chunks(docs), Zeros(|docs| / BLOCK))
  {
    ChunksFlatten(docs);
    ChunksSizes(docs);
  }

  /** The sum of a sequence of naturals. */
  function Sum(s: seq<nat>): nat
  {
    if s == [] then 0 else Sum(s[..|s| - 1]) + s[|s| - 1]
  }

  lemma SumSnoc(s: seq<nat>, i: nat, j: nat)
    requires i <= j < |s|
    ensures Sum(s[i..j + 1]) == Sum(s[i..j]) + s[j]
  {
    assert s[i..j + 1][..j - i] == s[i..j];
  }

  /** True when block `j` is non-empty and its last doc is at least `target`. */
  predicate Reaches(blocks: seq<seq<DocId>>, j: nat, target: DocId)
    requires j < |blocks|
  {
    blocks[j] != [] && Last(blocks[j]) >= target
  }

  /** The first block from `from` on whose last doc is at least `target` (`|blocks|` if none is). */
  function FirstBlockReaching(blocks: seq<seq<DocId>>, from: nat, target: DocId): (k: nat)
    requires from <= |blocks|
    ensures from <= k <= |blocks|
    decreases |blocks| - from
  {
    if from == |blocks| then from
    else if Reaches(blocks, from, target) then from
    else FirstBlockReaching(blocks, from + 1, target)
  }

  lemma {:induction false} FirstBlockReachingIsFirst(blocks: seq<seq<DocId>>, from: nat, target: DocId)
    requires from <= |blocks|
    ensures var k := FirstBlockReaching(blocks, from, target);
            (forall j :: from <= j < k ==> !Reaches(blocks, j, target))
            && (k < |blocks| ==> Reaches(blocks, k, target))
    decreases |blocks| - from
  {
    if from < |blocks| && !Reaches(blocks, from, target) {
      FirstBlockReachingIsFirst(blocks, from + 1, target);
    }
  }

  /** The first index from `from` on whose doc is at least `target` (`|s|` if none is). */
  function FirstAtLeast(s: seq<DocId>, from: nat, target: DocId): (i: nat)
    requires from <= |s|
    ensures from <= i <= |s|
    decreases |s| - from
  {
    if from == |s| then from
    else if s[from] >= target then from
    else FirstAtLeast(s, from + 1, target)
  }

  predicate IsFirstAtLeast(s: seq<DocId>, from: nat, target: DocId, i: nat)
  {
    && from <= i <= |s|
    && (forall j :: from <= j < i ==> s[j] < target)
    && (i < |s| ==> s[i] >= target)
  }

  /** `FirstAtLeast` is characterised by `IsFirstAtLeast`, in both directions. */
  lemma {:induction false} FirstAtLeastIff(s: seq<DocId>, from: nat, target: DocId, i: nat)
    requires from <= |s|
    ensures FirstAtLeast(s, from, target) == i <==> IsFirstAtLeast(s, from, target, i)
    decreases |s| - from
  {
    if from < |s| && s[from] < target {
      FirstAtLeastIff(s, from + 1, target, i);
      if i == from {
        assert !IsFirstAtLeast(s, from, target, i);
      }
    }
  }

  lemma FirstAtLeastFound(s: seq<DocId>, from: nat, target: DocId)
    requires from < |s| && Last(s) >= target
    ensures FirstAtLeast(s, from, target) < |s|
  {
    var i := FirstAtLeast(s, from, target);
    FirstAtLeastIff(s, from, target, i);
  }

  /** The set of docs of a sequence (what a `BitSet` holds after inserting them). */
  function Elems(s: seq<DocId>): set<DocId>
  {
    set x | x in s
  }

  lemma ElemsAppend(a: seq<DocId>, b: seq<DocId>)
    ensures Elems(a + b) == Elems(a) + Elems(b)
  {
    assert forall x :: x in a + b <==> x in a || x in b;
  }

  /** The docs from block `c` on: those of block `c`, then the rest; none past the end. */
  lemma ElemsFrom(bs: seq<seq<DocId>>, c: nat)
    requires c <= |bs|
    ensures c < |bs| ==> Elems(Flatten(bs[c..])) == Elems(bs[c]) + Elems(Flatten(bs[c + 1..]))
    ensures c == |bs| ==> Elems(Flatten(bs[c..])) == {}
  {
    if c < |bs| {
      FlattenFrom(bs, c);
      ElemsAppend(bs[c], Flatten(bs[c + 1..]));
    } else {
      assert bs[c..] == [];
    }
  }

  /** `x & y` on non-negative integers, bit by bit. */
  function BitAnd(x: nat, y: nat): nat
  {
    if x == 0 || y == 0 then 0
    else 2 * BitAnd(x / 2, y / 2) + (if x % 2 == 1 && y % 2 == 1 then 1 else 0)
  }

  function Pow2(k: nat): (p: nat)
    ensures 1 <= p
  {
    if k == 0 then 1 else 2 * Pow2(k - 1)
  }

  lemma MulAtLeast(d: int, a: int)
    requires d > 0 && a >= 1
    ensures d * a >= d
    decreases a
  {
    if a > 1 {
      MulAtLeast(d, a - 1);
      assert d * a == d * (a - 1) + d;
    }
  }

  lemma ModUnique(x: int, d: int, t: int, r: int)
    requires 0 <= r < d && x == d * t + r
    ensures x % d == r
  {
    var q := x / d;
    var m := x % d;
    assert x == d * q + m && 0 <= m < d;
    assert d * q - d * t == r - m;
    assert d * (q - t) == d * q - d * t;
    if q > t {
      MulAtLeast(d, q - t);
    } else if q < t {
      MulAtLeast(d, t - q);
    }
  }

  lemma ModOfDouble(x: nat, m: nat)
    requires 0 < m
    ensures x % (2 * m) == 2 * ((x / 2) % m) + x % 2
  {
    var q := x / 2;
    var t := q / m;
    var s := q % m;
    assert q == m * t + s;
    assert x == 2 * q + x % 2;
    assert x == (2 * m) * t + (2 * s + x % 2);
    ModUnique(x, 2 * m, t, 2 * s + x % 2);
  }

  /** Masking with `2^k - 1` is the remainder by `2^k`. */
  lemma BitAndOdd(x: nat, y: nat)
    requires x > 0 && y % 2 == 1
    ensures BitAnd(x, y) == 2 * BitAnd(x / 2, y / 2) + x % 2
  {
  }

  lemma {:induction false} BitAndLowMask(x: nat, k: nat)
    ensures BitAnd(x, Pow2(k) - 1) == x % Pow2(k)
  {
    if k == 0 {
      assert Pow2(k) - 1 == 0;
    } else if x == 0 {
    } else {
      var h := Pow2(k - 1);
      assert Pow2(k) == 2 * h;
      var y := Pow2(k) - 1;
      assert y / 2 == h - 1 && y % 2 == 1;
      BitAndLowMask(x / 2, k - 1);
      BitAndOdd(x, y);
      ModOfDouble(x, h);
    }
  }

  /** `doc_freq % COMPRESSION_BLOCK_SIZE == doc_freq & (COMPRESSION_BLOCK_SIZE - 1)`. */
  lemma VintDocsAgree(docFreq: nat)
    ensures BitAnd(docFreq, BLOCK - 1) == docFreq % BLOCK
  {
    assert Pow2(7) == BLOCK;
    BitAndLowMask(docFreq, 7);
  }

}
