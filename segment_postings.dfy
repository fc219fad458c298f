/**
 * tantivy's posting-list readers.  `BlockSegmentPostings` walks the blocks of one
 * posting list, using the skip list to jump over whole blocks; `SegmentPostings`
 * is the doc-at-a-time cursor (a `DocSet`) built on top of it; `PositionComputer`
 * turns position deltas into absolute positions.
 *
 * The bytes of a posting list and their bit-packed / variable-int codec are not
 * modelled: a list is given by its decoded blocks (see `BlockLists.Shaped`), and
 * decoding block `k` yields `blocks[k]`.
 */
module Postings {
  import opened Wrappers
  import opened BlockLists

  const U32_LIMIT: nat := 0x1_0000_0000

  /** Rust's `u32`. */
  type u32 = x: nat | x < U32_LIMIT

  /**
   * `PositionComputer`: reads, once, the term positions of the current doc from the
   * stream of position deltas, after skipping the deltas of the docs passed over.
   */
  class PositionComputer {
    /** Deltas to skip before the next read. */
    var positionToSkip: nat
    /** The deltas the position reader has still to deliver. */
    var stream: seq<u32>

    /** `new`: nothing to skip yet. */
    constructor (stream: seq<u32>)
      ensures positionToSkip == 0 && this.stream == stream
    {
      positionToSkip := 0;
      this.stream := stream;
    }

    /** `add_skip`: `numSkip` more deltas to skip before the next read. */
    method AddSkip(numSkip: nat)
      modifies this
      ensures positionToSkip == old(positionToSkip) + numSkip && stream == old(stream)
    {
      positionToSkip := positionToSkip + numSkip;
    }

    /**
     * `positions_with_offset`: skips the pending deltas, reads the next `output.Length`
     * deltas into `output`, then rewrites them in place into running sums from `offset`.
     */
    method PositionsWithOffset(offset: u32, output: array<u32>)
      requires positionToSkip + output.Length <= |stream|
      modifies this, output
      ensures positionToSkip == 0
      ensures stream == old(stream[positionToSkip + output.Length..])
      ensures output[..] == RunningSums(offset, old(stream[positionToSkip..positionToSkip + output.Length]))
    {
      ghost var deltas := stream[positionToSkip..positionToSkip + output.Length];
      stream := stream[positionToSkip..];
      positionToSkip := 0;
      forall i | 0 <= i < output.Length {
        output[i] := stream[i];
      }
      assert output[..] == deltas;
      stream := stream[output.Length..];
      RunningSumsInPlace(offset, output);
    }
  }

  /** The loop of `positions_with_offset`: each delta of `output` becomes the running sum up to it. */
  method RunningSumsInPlace(offset: u32, output: array<u32>)
    modifies output
    ensures output[..] == RunningSums(offset, old(output[..]))
  {
    ghost var deltas := output[..];
    var cum := offset;
    for i := 0 to output.Length
      invariant cum == Wrap(offset + PrefixSum(deltas, i))
      invariant forall j :: 0 <= j < i ==> output[j] == RunningSums(offset, deltas)[j]
      invariant forall j :: i <= j < output.Length ==> output[j] == deltas[j]
    {
      RunningSumStep(offset, deltas, i, cum);
      cum := Wrap(cum as nat + output[i]);
      output[i] := cum;
    }
  }

  /** The positions `positions_with_offset` writes: element `i` is `offset` plus the first `i + 1` deltas, modulo 2^32. */
  function RunningSums(offset: u32, deltas: seq<u32>): seq<u32>
  {
    seq(|deltas|, i requires 0 <= i < |deltas| => Wrap(offset + PrefixSum(deltas, i + 1)))
  }

  /** `u32` arithmetic as a release build does it: modulo 2^32. */
  function Wrap(x: nat): u32
  {
    x % U32_LIMIT
  }

  /** Wrapping an intermediate sum does not change the wrapped total. */
  lemma ModAddLeft(a: nat, b: nat)
    ensures Wrap(Wrap(a) + b) == Wrap(a + b)
  {
    var m := U32_LIMIT;
    var q := a / m;
    assert a == q * m + a % m;
    ModUnique(a + b, m, q + (a % m + b) / m, (a % m + b) % m);
  }

  /** Adding delta `i` to the running sum of the deltas before it gives running sum `i`. */
  lemma RunningSumStep(offset: u32, deltas: seq<u32>, i: nat, cum: u32)
    requires i < |deltas| && cum == Wrap(offset + PrefixSum(deltas, i))
    ensures Wrap(cum + deltas[i]) == Wrap(offset + PrefixSum(deltas, i + 1))
    ensures Wrap(cum + deltas[i]) == RunningSums(offset, deltas)[i]
  {
    ModAddLeft(offset + PrefixSum(deltas, i), deltas[i]);
  }

  /** The sum of the first `i` deltas. */
  function PrefixSum(deltas: seq<u32>, i: nat): nat
    requires i <= |deltas|
  {
    if i == 0 then 0 else PrefixSum(deltas, i - 1) + deltas[i - 1]
  }

  /** A longer prefix has a sum at least as large. */
  lemma {:induction false} PrefixSumMono(deltas: seq<u32>, i: nat, j: nat)
    requires i <= j <= |deltas|
    ensures PrefixSum(deltas, i) <= PrefixSum(deltas, j)
    decreases j
  {
    if i < j {
      PrefixSumMono(deltas, i, j - 1);
    }
  }

  /** Without wrap-around the positions are the exact running sums, in non-decreasing order. */
  lemma RunningSumsExact(offset: u32, deltas: seq<u32>)
    requires offset + PrefixSum(deltas, |deltas|) < U32_LIMIT
    ensures forall i :: 0 <= i < |deltas| ==> RunningSums(offset, deltas)[i] == offset + PrefixSum(deltas, i + 1)
    ensures forall i, j :: 0 <= i <= j < |deltas| ==> RunningSums(offset, deltas)[i] <= RunningSums(offset, deltas)[j]
  {
    forall i | 0 <= i < |deltas|
      ensures RunningSums(offset, deltas)[i] == offset + PrefixSum(deltas, i + 1)
    {
      PrefixSumMono(deltas, i + 1, |deltas|);
    }
    forall i, j | 0 <= i <= j < |deltas|
      ensures RunningSums(offset, deltas)[i] <= RunningSums(offset, deltas)[j]
    {
      PrefixSumMono(deltas, i + 1, j + 1);
    }
  }

  /** `BlockSegmentPostingsSkipResult`. */
  datatype BlockSkipResult = Terminated | Success(skippedTf: nat)

  /** `SkipResult` of a `DocSet`. */
  datatype SkipResult = Reached | OverStep | End

  class BlockSegmentPostings {
    /** The decoded list the codec stores (fixed between `reset`s). */
    var blocks: seq<seq<DocId>>
    /** The term-frequency sum of each full block, as recorded in its skip entry. */
    var skipTf: seq<nat>
    var docFreq: nat
    /** Docs of the variable-int block still to decode (`0` once it is decoded or if there is none). */
    var numVintDocs: nat
    /** Number of skip entries consumed: full blocks decoded or skipped. */
    var skipPos: nat
    /** The doc decoder's output: the current block. */
    var output: seq<DocId>

    ghost predicate Valid()
      reads this
    {
      && Layout(blocks, skipTf)
      && docFreq == |Flatten(blocks)|
      && skipPos <= |skipTf|
      && (numVintDocs != 0 ==> |blocks| == |skipTf| + 1 && numVintDocs == |blocks[|skipTf|]|)
      && (numVintDocs == 0 && |skipTf| < |blocks| ==> skipPos == |skipTf|)
      && |output| <= BLOCK
    }

    /** Number of blocks already decoded or skipped. */
    function Consumed(): nat
      reads this
    {
      skipPos + (if numVintDocs == 0 && |skipTf| < |blocks| then 1 else 0)
    }

    lemma ConsumedBound()
      requires Valid()
      ensures Consumed() <= |blocks|
      ensures Consumed() < |blocks| ==> numVintDocs > 0 || skipPos < |skipTf|
    {
    }

    /** `from_data`: a cursor before the first block of the list. */
    constructor FromData(docFreq: nat, blocks: seq<seq<DocId>>, skipTf: seq<nat>)
      requires Shaped(docFreq, blocks, skipTf)
      ensures Valid()
      ensures this.blocks == blocks && this.skipTf == skipTf && this.docFreq == docFreq
      ensures output == [] && Consumed() == 0
    {
      ShapedLayout(docFreq, blocks, skipTf);
      this.blocks := blocks;
      this.skipTf := skipTf;
      this.docFreq := docFreq;
      numVintDocs := docFreq % BLOCK;
      skipPos := 0;
      output := [];
    }

    /** `empty`: the cursor over the empty list. */
    constructor Empty()
      ensures Valid()
      ensures docFreq == 0 && blocks == [] && output == []
    {
      blocks := [];
      skipTf := [];
      docFreq := 0;
      numVintDocs := 0;
      skipPos := 0;
      output := [];
    }

    /**
     * `reset`: repositions the cursor before the first block of another list.  The
     * doc decoder is not cleared, so `docs()` keeps returning the old block.
     */
    method Reset(docFreq: nat, blocks: seq<seq<DocId>>, skipTf: seq<nat>)
      requires Valid()
      requires Shaped(docFreq, blocks, skipTf)
      modifies this
      ensures Valid()
      ensures this.blocks == blocks && this.skipTf == skipTf && this.docFreq == docFreq
      ensures output == old(output) && Consumed() == 0
    {
      VintDocsAgree(docFreq);
      ShapedLayout(docFreq, blocks, skipTf);
      numVintDocs := BitAnd(docFreq, BLOCK - 1);
      this.blocks := blocks;
      this.skipTf := skipTf;
      skipPos := 0;
      this.docFreq := docFreq;
    }

    /** `doc_freq`: the number of docs of the list. */
    function DocFreq(): (n: nat)
      reads this
      ensures Valid() ==> n == |Flatten(blocks)|
    {
      docFreq
    }

    /** `docs`: the current block, as long as `block_len` says. */
    function Docs(): (r: seq<DocId>)
      reads this
      ensures |r| == BlockLen() && (Valid() ==> |r| <= BLOCK)
    {
      output
    }

    /** `block_len`: the length of the current block, at most `COMPRESSION_BLOCK_SIZE`. */
    function BlockLen(): (n: nat)
      reads this
      ensures Valid() ==> n <= BLOCK
    {
      |output|
    }

    /** Decodes the full block of the next skip entry. */
    method DecodeFullBlock()
      requires Valid() && skipPos < |skipTf|
      modifies this
      ensures Valid()
      ensures blocks == old(blocks) && skipTf == old(skipTf) && docFreq == old(docFreq)
      ensures numVintDocs == old(numVintDocs) && skipPos == old(skipPos) + 1
      ensures output == blocks[old(skipPos)]
    {
      output := blocks[skipPos];
      skipPos := skipPos + 1;
    }

    /** Decodes the variable-int block that ends the list. */
    method DecodeVintBlock()
      requires Valid() && numVintDocs > 0 && skipPos == |skipTf|
      modifies this
      ensures Valid()
      ensures blocks == old(blocks) && skipTf == old(skipTf) && docFreq == old(docFreq)
      ensures numVintDocs == 0 && skipPos == old(skipPos) && |skipTf| < |blocks|
      ensures output == blocks[|skipTf|]
    {
      output := blocks[|skipTf|];
      numVintDocs := 0;
    }

    /** `advance`: decodes the next block; false iff every block was already consumed. */
    method Advance() returns (r: bool)
      requires Valid()
      modifies this
      ensures Valid()
      ensures blocks == old(blocks) && skipTf == old(skipTf) && docFreq == old(docFreq)
      ensures r <==> old(Consumed()) < |blocks|
      ensures r ==> output == blocks[old(Consumed())] && Consumed() == old(Consumed()) + 1
      ensures !r ==> output == old(output) && Consumed() == old(Consumed())
    {
      if skipPos < |skipTf| {
        DecodeFullBlock();
        r := true;
      } else if numVintDocs > 0 {
        DecodeVintBlock();
        r := true;
      } else {
        r := false;
      }
    }

    /** `next` of the `Streamer` interface: the next block, if any. */
    method Next() returns (r: Option<seq<DocId>>)
      requires Valid()
      modifies this
      ensures Valid()
      ensures blocks == old(blocks) && skipTf == old(skipTf) && docFreq == old(docFreq)
      ensures r.Some? <==> old(Consumed()) < |blocks|
      ensures r.Some? ==> r.value == blocks[old(Consumed())] && Consumed() == old(Consumed()) + 1
    {
      var more := Advance();
      if more {
        r := Some(Docs());
      } else {
        r := None;
      }
    }

    /**
     * The block loop of `SegmentPostings::append_to_bitset`: decodes every remaining
     * block and adds its docs to `bitset`.
     */
    method AppendRemaining(bitset: set<DocId>) returns (r: set<DocId>)
      requires Valid()
      modifies this
      ensures Valid()
      ensures blocks == old(blocks) && skipTf == old(skipTf) && docFreq == old(docFreq)
      ensures Consumed() == |blocks|
      ensures r == bitset + Elems(Flatten(old(blocks[Consumed()..])))
    {
      ghost var bs := blocks;
      ghost var target := bitset + Elems(Flatten(bs[Consumed()..]));
      r := bitset;
      ghost var c := Consumed();
      var more := Advance();
      BlockStep(bs, c, more, output, Consumed(), bitset, target);
      while more
        invariant Valid()
        invariant blocks == bs && skipTf == old(skipTf) && docFreq == old(docFreq)
        invariant Pending(bs, more, output, Consumed(), r, target)
        decreases |bs| - Consumed() + (if more then 1 else 0)
      {
        r := InsertDocs(r, Docs());
        c := Consumed();
        more := Advance();
        BlockStep(bs, c, more, output, Consumed(), r, target);
      }
    }

    /**
     * Skips the full blocks that end below `target`, adding up their term frequencies.
     * `found` when a full block ending at or above `target` was reached and decoded.
     */
    method SkipFullBlocks(target: DocId) returns (skipFreqs: nat, found: bool)
      requires Valid()
      modifies this
      ensures Valid()
      ensures blocks == old(blocks) && skipTf == old(skipTf) && docFreq == old(docFreq)
      ensures numVintDocs == old(numVintDocs) && old(skipPos) <= skipPos
      ensures FirstBlockReaching(blocks, old(Consumed()), target) ==
              if found then Consumed() - 1 else FirstBlockReaching(blocks, Consumed(), target)
      ensures found ==> output == blocks[Consumed() - 1]
      ensures skipFreqs == Sum(skipTf[old(skipPos)..if found then skipPos - 1 else skipPos])
      ensures !found ==> skipPos == |skipTf|
    {
      ghost var from := Consumed();
      ghost var p0 := skipPos;
      ghost var k := FirstBlockReaching(blocks, from, target);
      skipFreqs := 0;
      while skipPos < |skipTf| && !Reaches(blocks, skipPos, target)
        invariant Valid()
        invariant blocks == old(blocks) && skipTf == old(skipTf) && docFreq == old(docFreq)
        invariant numVintDocs == old(numVintDocs) && p0 <= skipPos
        invariant FirstBlockReaching(blocks, Consumed(), target) == k
        invariant skipFreqs == Sum(skipTf[p0..skipPos])
        decreases |skipTf| - skipPos
      {
        SumSnoc(skipTf, p0, skipPos);
        skipFreqs := skipFreqs + skipTf[skipPos];
        skipPos := skipPos + 1;
      }
      found := skipPos < |skipTf|;
      if found {
        DecodeFullBlock();
      }
    }

    /**
     * `skip_to`: moves to the first remaining block whose last doc is at least `target`
     * and reports the term frequencies of the blocks skipped; `Terminated`, with every
     * block consumed, when no remaining block reaches `target`.
     */
    method SkipTo(target: DocId) returns (r: BlockSkipResult)
      requires Valid()
      modifies this
      ensures Valid()
      ensures blocks == old(blocks) && skipTf == old(skipTf) && docFreq == old(docFreq)
      ensures var k := FirstBlockReaching(blocks, old(Consumed()), target);
              && (r.Success? <==> k < |blocks|)
              && (r.Success? ==> output == blocks[k] && Consumed() == k + 1
                                 && r.skippedTf == Sum(skipTf[old(skipPos)..Min(k, |skipTf|)]))
              && (r.Terminated? ==> Consumed() == |blocks|)
    {
      var skipFreqs, found := SkipFullBlocks(target);
      if found {
        return Success(skipFreqs);
      }
      if numVintDocs > 0 {
        DecodeVintBlock();
        if Last(Docs()) >= target {
          return Success(skipFreqs);
        }
        return Terminated;
      }
      return Terminated;
    }
  }

  /**
   * `SegmentPostings`: a doc-at-a-time cursor over one posting list.  `cur` is the
   * position in the current block; `COMPRESSION_BLOCK_SIZE` stands for "before the
   * first doc of the next block".
   */
  class SegmentPostings {
    var blockCursor: BlockSegmentPostings
    var cur: nat

    ghost predicate Valid()
      reads this, blockCursor
    {
      blockCursor.Valid() && cur <= BLOCK
    }

    /**
     * The cursor agrees with its block cursor: either it is between blocks, or it
     * points into the last decoded block.
     */
    ghost predicate Coherent()
      reads this, blockCursor
    {
      Valid() && CursorAt(blockCursor.blocks, blockCursor.Consumed(), blockCursor.output, cur)
    }

    /** The docs after the current one, in list order: what the cursor has still to visit. */
    ghost function Remaining(): seq<DocId>
      requires Coherent()
      reads this, blockCursor
    {
      RemainingOf(blockCursor.blocks, blockCursor.Consumed(), cur)
    }

    /** `empty`: a cursor over the empty list. */
    constructor Empty()
      ensures Coherent() && Remaining() == []
      ensures blockCursor.blocks == [] && Len() == 0
      ensures fresh(blockCursor)
    {
      blockCursor := new BlockSegmentPostings.Empty();
      cur := BLOCK;
    }

    /** `from_block_postings`: a cursor before the next block of `blocks`. */
    constructor FromBlockPostings(blocks: BlockSegmentPostings)
      requires blocks.Valid()
      ensures blockCursor == blocks && Coherent()
      ensures Remaining() == Flatten(blocks.blocks[blocks.Consumed()..])
    {
      blockCursor := blocks;
      cur := BLOCK;
    }

    /**
     * `create_from_docs`: serializes an increasing doc list without frequencies and opens
     * a cursor before its first doc.
     */
    constructor CreateFromDocs(docs: seq<DocId>)
      requires Increasing(docs)
      ensures Coherent() && Remaining() == docs && Len() == |docs|
      ensures fresh(blockCursor)
    {
      ChunksShaped(docs);
      ChunksFlatten(docs);
      blockCursor := new BlockSegmentPostings.FromData(|docs|, Chunks(docs), Zeros(|docs| / BLOCK));
      cur := BLOCK;
    }

    /**
     * `doc`: the current doc. It exists only once `advance` has put the cursor on a doc
     * of the current block; before that, tantivy reads past the block and panics. On a
     * coherent cursor the list is the docs passed, the current doc, and the docs to visit.
     */
    function Doc(): (d: DocId)
      reads this, blockCursor
      requires cur < |blockCursor.output|
      ensures Coherent() ==>
        && 0 < blockCursor.Consumed()
        && Flatten(blockCursor.blocks)
           == Flatten(blockCursor.blocks[..blockCursor.Consumed() - 1]) + blockCursor.output[..cur]
              + [d] + Remaining()
    {
      ListAroundDoc();
      blockCursor.output[cur]
    }

    lemma ListAroundDoc()
      requires cur < |blockCursor.output|
      ensures Coherent() ==>
        && 0 < blockCursor.Consumed()
        && Flatten(blockCursor.blocks)
           == Flatten(blockCursor.blocks[..blockCursor.Consumed() - 1]) + blockCursor.output[..cur]
              + [blockCursor.output[cur]] + Remaining()
    {
      if Coherent() {
        var bs, c, out := blockCursor.blocks, blockCursor.Consumed(), blockCursor.output;
        assert bs[0..] == bs;
        FlattenSplit(bs, 0, c - 1);
        assert bs[0..c - 1] == bs[..c - 1];
        assert out == out[..cur] + [out[cur]] + out[cur + 1..];
      }
    }

    /** The current doc precedes every doc still to visit. */
    lemma DocPrecedesRemaining()
      requires Coherent() && cur < BLOCK
      ensures forall j :: 0 <= j < |Remaining()| ==> Doc() < Remaining()[j]
    {
      CursorOrder(blockCursor.blocks, blockCursor.Consumed(), cur);
    }

    /** `len` (`HasLen`): the number of docs of the list. */
    function Len(): (n: nat)
      reads this, blockCursor
      ensures Valid() ==> n == |Flatten(blockCursor.blocks)|
    {
      blockCursor.DocFreq()
    }

    /** `advance`: moves to the next doc; false iff there is none. */
    method Advance() returns (r: bool)
      requires Valid()
      modifies this, blockCursor
      ensures Valid() && blockCursor == old(blockCursor)
      ensures blockCursor.blocks == old(blockCursor.blocks)
      ensures blockCursor.skipTf == old(blockCursor.skipTf)
      ensures blockCursor.docFreq == old(blockCursor.docFreq)
      ensures r ==> cur < |blockCursor.output|
      ensures old(Coherent()) ==> Coherent()
      ensures old(Coherent()) ==> (r <==> old(Remaining()) != [])
      ensures old(Coherent()) && r ==> Doc() == old(Remaining())[0] && Remaining() == old(Remaining())[1..]
      ensures old(Coherent()) && !r ==> Remaining() == []
      ensures !r ==> blockCursor.Consumed() == |blockCursor.blocks|
    {
      ghost var coherent := Coherent();
      ghost var bs := blockCursor.blocks;
      ghost var c0 := blockCursor.Consumed();
      ghost var out0 := blockCursor.output;
      ghost var cur0 := cur;
      cur := cur + 1;
      r := true;
      if cur >= blockCursor.BlockLen() {
        cur := 0;
        r := blockCursor.Advance();
        if !r {
          blockCursor.ConsumedBound();
          cur := BLOCK;
        }
      }
      if coherent {
        AdvanceStep(bs, c0, out0, cur0, blockCursor.Consumed(), blockCursor.output, cur, r);
      }
    }

    /**
     * `append_to_bitset` (`DocSet`): adds to `bitset` every doc still to visit, the rest
     * of the current block and then each remaining block, consuming the whole list.
     */
    method AppendToBitset(bitset: set<DocId>) returns (r: set<DocId>)
      requires Valid()
      modifies this, blockCursor
      ensures Valid() && blockCursor == old(blockCursor)
      ensures blockCursor.blocks == old(blockCursor.blocks)
      ensures blockCursor.skipTf == old(blockCursor.skipTf)
      ensures blockCursor.docFreq == old(blockCursor.docFreq)
      ensures blockCursor.Consumed() == |blockCursor.blocks|
      ensures old(Coherent()) ==> r == bitset + Elems(old(Remaining()))
    {
      ghost var coherent := Coherent();
      ghost var r0 := if coherent then Remaining() else [];
      ghost var bs := blockCursor.blocks;
      r := bitset;
      var more := Advance();
      if !more {
        return;
      }
      if coherent {
        StartSkip(bs, blockCursor.Consumed(), blockCursor.output, cur, r0);
      }
      r := AppendFromDoc(bitset);
    }

    /** `append_to_bitset` after its `advance`: inserts the docs from the current one on. */
    method AppendFromDoc(bitset: set<DocId>) returns (r: set<DocId>)
      requires Valid() && cur < |blockCursor.output|
      modifies blockCursor
      ensures Valid()
      ensures blockCursor.blocks == old(blockCursor.blocks)
      ensures blockCursor.skipTf == old(blockCursor.skipTf)
      ensures blockCursor.docFreq == old(blockCursor.docFreq)
      ensures blockCursor.Consumed() == |blockCursor.blocks|
      ensures r == bitset + Elems(old(blockCursor.output[cur..] + Flatten(blockCursor.blocks[blockCursor.Consumed()..])))
    {
      ghost var rest := blockCursor.output[cur..];
      ghost var later := Flatten(blockCursor.blocks[blockCursor.Consumed()..]);
      var head := InsertDocs(bitset, blockCursor.Docs()[cur..]);
      r := blockCursor.AppendRemaining(head);
      ElemsAppend(rest, later);
    }

    /**
     * `skip_next` (`DocSet`): moves to the first doc still to visit that is at least
     * `target`, `Reached` when it equals `target`; `End` when every remaining doc is
     * below `target`.  `skipped` are the docs passed over.
     */
    method SkipNext(target: DocId) returns (r: SkipResult, ghost skipped: seq<DocId>)
      requires Valid()
      modifies this, blockCursor
      ensures Valid() && blockCursor == old(blockCursor)
      ensures blockCursor.blocks == old(blockCursor.blocks)
      ensures blockCursor.skipTf == old(blockCursor.skipTf)
      ensures blockCursor.docFreq == old(blockCursor.docFreq)
      ensures r != End ==> cur < |blockCursor.output| && Doc() >= target
      ensures r == Reached <==> r != End && Doc() == target
      ensures old(Coherent()) ==> (r == End <==> AllBelow(old(Remaining()), target))
      ensures old(Coherent()) && r != End ==>
                Coherent() && AllBelow(skipped, target)
                && old(Remaining()) == skipped + [Doc()] + Remaining()
    {
      ghost var coherent := Coherent();
      ghost var r0 := if coherent then Remaining() else [];
      var more := Advance();
      if !more {
        return End, [];
      }
      if coherent {
        StartSkip(blockCursor.blocks, blockCursor.Consumed(), blockCursor.output, cur, r0);
      }
      r, skipped := SkipFromDoc(target);
    }

    /**
     * `skip_next` after its first `advance`: from the current doc on, moves to the first
     * doc that is at least `target`, or reports that there is none.
     */
    method SkipFromDoc(target: DocId) returns (r: SkipResult, ghost skipped: seq<DocId>)
      requires Valid() && cur < |blockCursor.output|
      modifies this, blockCursor
      ensures Valid() && blockCursor == old(blockCursor)
      ensures blockCursor.blocks == old(blockCursor.blocks)
      ensures blockCursor.skipTf == old(blockCursor.skipTf)
      ensures blockCursor.docFreq == old(blockCursor.docFreq)
      ensures r != End ==> cur < |blockCursor.output| && Doc() >= target
      ensures r == Reached <==> r != End && Doc() == target
      ensures old(Coherent()) ==>
                var r0 := old(blockCursor.output[cur..] + Flatten(blockCursor.blocks[blockCursor.Consumed()..]));
                && (r == End <==> AllBelow(r0, target))
                && (r != End ==> Coherent() && AllBelow(skipped, target)
                                 && r0 == skipped + [Doc()] + Remaining())
    {
      ghost var coherent := Coherent();
      ghost var bs := blockCursor.blocks;
      ghost var r0 := if coherent then blockCursor.output[cur..] + Flatten(bs[blockCursor.Consumed()..]) else [];
      var d := Doc();
      skipped := [];
      if coherent {
        skipped := AtCurrent(bs, blockCursor.Consumed(), blockCursor.output, cur, r0, target);
      }
      if d == target {
        return Reached, skipped;
      }
      if d > target {
        return OverStep, skipped;
      }
      var found, passed := SeekBlock(target);
      if !found {
        return End, skipped;
      }
      r, skipped := SearchBlock(target, r0, passed);
    }

    /**
     * The in-block part of `skip_next` (`search_in_block`): moves to the first doc of
     * the current block, from the current one on, that is at least `target`.
     */
    method SearchBlock(target: DocId, ghost r0: seq<DocId>, ghost passed: seq<DocId>)
      returns (r: SkipResult, ghost skipped: seq<DocId>)
      requires Valid() && cur < |blockCursor.output| && Last(blockCursor.output) >= target
      modifies this
      ensures Valid() && blockCursor == old(blockCursor)
      ensures r != End && cur < |blockCursor.output| && Doc() >= target
      ensures r == Reached <==> Doc() == target
      ensures old(Coherent()) && AllBelow(passed, target)
              && r0 == passed + old(blockCursor.output[cur..] + Flatten(blockCursor.blocks[blockCursor.Consumed()..]))
              ==> Coherent() && AllBelow(skipped, target) && !AllBelow(r0, target)
                  && r0 == skipped + [Doc()] + Remaining()
    {
      ghost var coherent := Coherent() && AllBelow(passed, target)
        && r0 == passed + (blockCursor.output[cur..] + Flatten(blockCursor.blocks[blockCursor.Consumed()..]));
      skipped := [];
      var c := cur;
      var newCur := SearchInBlock(blockCursor.output, c, target);
      cur := newCur;
      if coherent {
        skipped := FinishSkip(blockCursor.blocks, blockCursor.Consumed(), blockCursor.output, c, newCur,
                              r0, passed, target);
      }
      if blockCursor.output[newCur] == target {
        r := Reached;
      } else {
        r := OverStep;
      }
    }

    /**
     * The block-skipping part of `skip_next`: from a current doc below `target`, makes
     * the current block one whose last doc reaches `target` (skipping blocks with
     * `BlockSegmentPostings::skip_to` if the current block does not), or reports that
     * no remaining doc reaches it.
     */
    method SeekBlock(target: DocId) returns (found: bool, ghost passed: seq<DocId>)
      requires Valid() && cur < |blockCursor.output| && blockCursor.output[cur] < target
      modifies this, blockCursor
      ensures Valid() && blockCursor == old(blockCursor)
      ensures blockCursor.blocks == old(blockCursor.blocks)
      ensures blockCursor.skipTf == old(blockCursor.skipTf)
      ensures blockCursor.docFreq == old(blockCursor.docFreq)
      ensures found ==> cur < |blockCursor.output| && Last(blockCursor.output) >= target
      ensures old(Coherent()) ==>
                var r0 := old(blockCursor.output[cur..] + Flatten(blockCursor.blocks[blockCursor.Consumed()..]));
                && (!found ==> AllBelow(r0, target))
                && (found ==> Coherent() && AllBelow(passed, target)
                              && r0 == passed + (blockCursor.output[cur..]
                                                 + Flatten(blockCursor.blocks[blockCursor.Consumed()..])))
    {
      ghost var coherent := Coherent();
      ghost var bs := blockCursor.blocks;
      ghost var c1 := blockCursor.Consumed();
      ghost var out1 := blockCursor.output;
      ghost var cur1 := cur;
      passed := [];
      found := true;
      var docs := blockCursor.Docs();
      if !(|docs| > 0 && Last(docs) >= target) {
        var res := blockCursor.SkipTo(target);
        if res.Terminated? {
          if coherent {
            SkipPastEnd(bs, c1, out1, cur1, target);
          }
          return false, passed;
        }
        FirstBlockReachingIsFirst(bs, c1, target);
        cur := 0;
        if coherent {
          passed := SkipBlocks(bs, c1, out1, cur1, target, blockCursor.output, blockCursor.Consumed());
        }
      }
    }
  }

  /** Inserts the docs one by one into a bitset (`BitSet::insert`). */
  method InsertDocs(bitset: set<DocId>, docs: seq<DocId>) returns (r: set<DocId>)
    ensures r == bitset + Elems(docs)
  {
    r := bitset;
    for i := 0 to |docs|
      invariant r == bitset + Elems(docs[..i])
    {
      ElemsAppend(docs[..i], [docs[i]]);
      assert docs[..i + 1] == docs[..i] + [docs[i]];
      r := r + {docs[i]};
    }
    assert docs[..|docs|] == docs;
  }

  /**
   * The invariant of the block loop of `append_to_bitset`: with `c` blocks consumed and,
   * when `more`, block `c - 1` decoded but not yet inserted, `r` and the docs still to
   * insert make up `target`.
   */
  ghost predicate Pending(bs: seq<seq<DocId>>, more: bool, output: seq<DocId>, c: nat,
                          r: set<DocId>, target: set<DocId>)
  {
    && c <= |bs|
    && (more ==> 0 < c && output == bs[c - 1])
    && (!more ==> c == |bs|)
    && target == r + (if more then Elems(output) else {}) + Elems(Flatten(bs[c..]))
  }

  /** Decoding block `c` (or finding none) keeps `Pending` once the previous block is inserted. */
  lemma BlockStep(bs: seq<seq<DocId>>, c: nat, more: bool, output: seq<DocId>, c1: nat,
                  r: set<DocId>, target: set<DocId>)
    requires c <= |bs| && target == r + Elems(Flatten(bs[c..]))
    requires more <==> c < |bs|
    requires more ==> output == bs[c] && c1 == c + 1
    requires !more ==> c1 == c
    ensures Pending(bs, more, output, c1, r, target)
  {
    ElemsFrom(bs, c);
  }

  /** Position `cur` of the cursor, after `c` decoded blocks whose last is `output`. */
  predicate CursorAt(bs: seq<seq<DocId>>, c: nat, output: seq<DocId>, cur: nat)
  {
    && c <= |bs|
    && (cur < BLOCK ==> 0 < c && cur < |output| && output == bs[c - 1])
  }

  /** The docs a cursor at `CursorAt(bs, c, _, cur)` has still to visit. */
  function RemainingOf(bs: seq<seq<DocId>>, c: nat, cur: nat): seq<DocId>
    requires c <= |bs| && (cur < BLOCK ==> 0 < c && cur < |bs[c - 1]|)
  {
    if cur < BLOCK then After(bs, c, cur) else Flatten(bs[c..])
  }

  /**
   * One `advance` of the cursor, from `(c0, out0, cur0)` to `(c1, out1, cur1)`: the first
   * doc still to visit becomes the current one, or there is none and nothing remains.
   */
  lemma AdvanceStep(bs: seq<seq<DocId>>, c0: nat, out0: seq<DocId>, cur0: nat,
                    c1: nat, out1: seq<DocId>, cur1: nat, r: bool)
    requires forall k :: 0 <= k < |bs| ==> 0 < |bs[k]|
    requires CursorAt(bs, c0, out0, cur0) && cur0 <= BLOCK && |out0| <= BLOCK
    requires cur0 + 1 < |out0| ==> r && c1 == c0 && out1 == out0 && cur1 == cur0 + 1
    requires cur0 + 1 >= |out0| && c0 < |bs| ==> r && c1 == c0 + 1 && out1 == bs[c0] && cur1 == 0
    requires cur0 + 1 >= |out0| && c0 == |bs| ==> !r && c1 == c0 && cur1 == BLOCK
    ensures CursorAt(bs, c1, out1, cur1)
    ensures var r0 := RemainingOf(bs, c0, cur0);
            && (r <==> r0 != [])
            && (r ==> cur1 < |out1| && out1[cur1] == r0[0] && RemainingOf(bs, c1, cur1) == r0[1..])
            && (!r ==> RemainingOf(bs, c1, cur1) == [])
  {
    if cur0 + 1 < |out0| {
      AdvanceInBlock(bs, c0, out0, cur0);
    } else if c0 < |bs| {
      AdvanceToBlock(bs, c0, out0, cur0);
    } else {
      AdvanceAtEnd(bs, c0, out0, cur0);
    }
  }

  /** Advancing past the last doc of a block: the remaining docs start with the next block. */
  lemma AdvanceToBlock(bs: seq<seq<DocId>>, c: nat, output: seq<DocId>, cur: nat)
    requires CursorAt(bs, c, output, cur) && cur <= BLOCK && c < |bs| && bs[c] != []
    requires cur + 1 >= |output|
    ensures var r0 := RemainingOf(bs, c, cur);
            r0 != [] && r0[0] == bs[c][0] && RemainingOf(bs, c + 1, 0) == r0[1..]
  {
    var rest := Flatten(bs[c + 1..]);
    var r0 := RemainingOf(bs, c, cur);
    if cur < BLOCK {
      RemainingAt(bs, c, cur);
      assert output[cur + 1..] == [];
      assert r0 == [] + Flatten(bs[c..]);
    }
    assert r0 == Flatten(bs[c..]);
    FlattenFrom(bs, c);
    RemainingAt(bs, c + 1, 0);
    DropFirst(bs[c], rest);
  }

  lemma DropFirst(a: seq<DocId>, b: seq<DocId>)
    requires a != []
    ensures (a + b)[0] == a[0] && (a + b)[1..] == a[1..] + b
  {
  }

  lemma AdvanceInBlock(bs: seq<seq<DocId>>, c: nat, output: seq<DocId>, cur: nat)
    requires CursorAt(bs, c, output, cur) && cur + 1 < |output| <= BLOCK
    ensures var r0 := RemainingOf(bs, c, cur);
            r0 != [] && r0[0] == output[cur + 1] && RemainingOf(bs, c, cur + 1) == r0[1..]
  {
    RemainingAt(bs, c, cur);
    RemainingAt(bs, c, cur + 1);
    assert output[cur + 1..] == [output[cur + 1]] + output[cur + 2..];
    DropFirst(output[cur + 1..], Flatten(bs[c..]));
  }

  lemma AdvanceAtEnd(bs: seq<seq<DocId>>, c: nat, output: seq<DocId>, cur: nat)
    requires CursorAt(bs, c, output, cur) && cur <= BLOCK && c == |bs| && cur + 1 >= |output|
    ensures RemainingOf(bs, c, cur) == [] && RemainingOf(bs, c, BLOCK) == []
  {
  }

  /** `BlockSearcher::search_in_block`: the first index from `from` whose doc is at least `target`. */
  function SearchInBlock(output: seq<DocId>, from: nat, target: DocId): (i: nat)
    requires from < |output| && Last(output) >= target
    ensures from <= i < |output| && output[i] >= target
    ensures forall j :: from <= j < i ==> output[j] < target
  {
    FirstAtLeastFound(output, from, target);
    FirstAtLeastIff(output, from, target, FirstAtLeast(output, from, target));
    FirstAtLeast(output, from, target)
  }

  /** A sequence with a doc at least `target` is not wholly below `target`. */
  lemma NotAllBelow(s: seq<DocId>, i: nat, target: DocId)
    requires i < |s| && s[i] >= target
    ensures !AllBelow(s, target)
  {
  }

  /** The docs after position `cur < BLOCK` of block `c - 1`. */
  lemma RemainingAt(bs: seq<seq<DocId>>, c: nat, cur: nat)
    requires 0 < c <= |bs| && cur < |bs[c - 1]| && cur < BLOCK
    ensures RemainingOf(bs, c, cur) == bs[c - 1][cur + 1..] + Flatten(bs[c..])
  {
  }

  lemma ConsTail(s: seq<DocId>, cur: nat, rest: seq<DocId>)
    requires cur < |s|
    ensures [s[cur]] + (s[cur + 1..] + rest) == s[cur..] + rest
  {
    assert s[cur..] == [s[cur]] + s[cur + 1..];
  }

  lemma Regroup(s: seq<DocId>, cur: nat, n: nat, rest: seq<DocId>)
    requires cur <= n < |s|
    ensures s[cur..] + rest == s[cur..n] + [s[n]] + (s[n + 1..] + rest)
  {
    assert s[cur..] == s[cur..n] + [s[n]] + s[n + 1..];
  }

  /** The docs still to visit from the current doc on. */
  lemma StartSkip(bs: seq<seq<DocId>>, c: nat, output: seq<DocId>, cur: nat, r0: seq<DocId>)
    requires CursorAt(bs, c, output, cur) && cur < |output| <= BLOCK
    requires r0 != [] && r0[0] == output[cur] && RemainingOf(bs, c, cur) == r0[1..]
    ensures r0 == output[cur..] + Flatten(bs[c..])
  {
    assert r0 == [r0[0]] + r0[1..];
    RemainingAt(bs, c, cur);
    ConsTail(output, cur, Flatten(bs[c..]));
  }

  /** The docs passed over and still to visit once the search in the block found `output[n]`. */
  lemma FinishSkip(bs: seq<seq<DocId>>, c: nat, output: seq<DocId>, cur: nat, n: nat,
                   r0: seq<DocId>, passed: seq<DocId>, target: DocId) returns (skipped: seq<DocId>)
    requires CursorAt(bs, c, output, cur) && cur < BLOCK && |output| <= BLOCK
    requires r0 == passed + (output[cur..] + Flatten(bs[c..])) && AllBelow(passed, target)
    requires cur <= n < |output| && output[n] >= target
    requires forall j :: cur <= j < n ==> output[j] < target
    ensures CursorAt(bs, c, output, n) && AllBelow(skipped, target) && !AllBelow(r0, target)
    ensures r0 == skipped + [output[n]] + RemainingOf(bs, c, n)
  {
    skipped := SearchSplit(output, cur, n, Flatten(bs[c..]), passed, target);
    RemainingAt(bs, c, n);
    NotAllBelow(r0, |skipped|, target);
  }

  /** A current doc at least `target` is where the skip stops, with nothing passed over. */
  lemma AtCurrent(bs: seq<seq<DocId>>, c: nat, output: seq<DocId>, cur: nat, r0: seq<DocId>,
                  target: DocId) returns (skipped: seq<DocId>)
    requires CursorAt(bs, c, output, cur) && cur < |output| <= BLOCK
    requires r0 == output[cur..] + Flatten(bs[c..])
    ensures skipped == [] && r0 == skipped + [output[cur]] + RemainingOf(bs, c, cur)
    ensures output[cur] >= target ==> !AllBelow(r0, target)
  {
    skipped := [];
    RemainingAt(bs, c, cur);
    ConsTail(output, cur, Flatten(bs[c..]));
    if output[cur] >= target {
      NotAllBelow(r0, 0, target);
    }
  }

  /** The search inside the block passes over docs below `target` only. */
  lemma SearchSplit(output: seq<DocId>, cur: nat, n: nat, rest: seq<DocId>, passed: seq<DocId>,
                    target: DocId) returns (skipped: seq<DocId>)
    requires cur <= n < |output| && forall j :: cur <= j < n ==> output[j] < target
    requires AllBelow(passed, target)
    ensures AllBelow(skipped, target)
    ensures passed + (output[cur..] + rest) == skipped + [output[n]] + (output[n + 1..] + rest)
  {
    Regroup(output, cur, n, rest);
    PrefixBelow(output[cur..], n - cur, target);
    assert output[cur..][..n - cur] == output[cur..n];
    AllBelowAppend(passed, output[cur..n], target);
    skipped := passed + output[cur..n];
  }

  /**
   * The docs passed over when `skip_to` finds the block that reaches `target`, and the
   * cursor at the start of that block.
   */
  lemma SkipBlocks(bs: seq<seq<DocId>>, c: nat, output: seq<DocId>, cur: nat,
                   target: DocId, output2: seq<DocId>, c2: nat) returns (skipped: seq<DocId>)
    requires Increasing(Flatten(bs)) && forall k :: 0 <= k < |bs| ==> 0 < |bs[k]| <= BLOCK
    requires CursorAt(bs, c, output, cur) && cur < BLOCK
    requires Last(output) < target
    requires c2 == FirstBlockReaching(bs, c, target) + 1 && c2 <= |bs| && output2 == bs[c2 - 1]
    ensures CursorAt(bs, c2, output2, 0) && AllBelow(skipped, target)
    ensures output[cur..] + Flatten(bs[c..]) == skipped + (output2[0..] + Flatten(bs[c2..]))
  {
    var k := c2 - 1;
    var a := output[cur..];
    var m := Flatten(bs[c..k]);
    skipped := a + m;
    FirstBlockReachingIsFirst(bs, c, target);
    BelowFromCursor(bs, c, output, cur, target);
    BlocksBelow(bs, c, k, target);
    AllBelowAppend(a, m, target);
    FlattenSplit(bs, c, k);
    assert bs[k][0..] == bs[k];
  }

  lemma PrefixBelow(b: seq<DocId>, n: nat, target: DocId)
    requires n <= |b| && forall j :: 0 <= j < n ==> b[j] < target
    ensures AllBelow(b[..n], target)
  {
  }

  /** When no later block reaches `target`, every remaining doc is below it. */
  lemma SkipPastEnd(bs: seq<seq<DocId>>, c: nat, output: seq<DocId>, cur: nat, target: DocId)
    requires Increasing(Flatten(bs))
    requires CursorAt(bs, c, output, cur) && cur < BLOCK
    requires Last(output) < target
    requires FirstBlockReaching(bs, c, target) == |bs|
    ensures AllBelow(output[cur..] + Flatten(bs[c..]), target)
  {
    FirstBlockReachingIsFirst(bs, c, target);
    BelowFromCursor(bs, c, output, cur, target);
    BlocksBelow(bs, c, |bs|, target);
    assert bs[c..] == bs[c..|bs|];
    AllBelowAppend(output[cur..], Flatten(bs[c..]), target);
  }

  /** The rest of a block that ends below `target` lies below `target`. */
  lemma BelowFromCursor(bs: seq<seq<DocId>>, c: nat, output: seq<DocId>, cur: nat, target: DocId)
    requires Increasing(Flatten(bs))
    requires CursorAt(bs, c, output, cur) && cur < BLOCK
    requires Last(output) < target
    ensures AllBelow(output[cur..], target)
  {
    BlockIncreasing(bs, c - 1);
    BlockBelow(output, target);
    forall j | 0 <= j < |output[cur..]|
      ensures output[cur..][j] < target
    {
      assert output[cur..][j] == output[cur + j];
    }
  }

  function Min(a: int, b: int): int
  {
    if a < b then a else b
  }
}
