# search_index_test: query DSL, CatQuery and tantivy's posting cursor in Dafny

This project models three pieces of sequential logic in the search service `search_index_test`
and proves properties about them.

1. **The JSON query DSL.** `parse` (`src/query_parser.rs`) walks a JSON value.
   - `query` recurses into its value.
   - `bool.filter` and `bool.should` open child scopes, with Must and Should respectively.
   - Arrays are folded left to right.
   - `prefix`, `term` and `range` objects become calls on a builder.

   There are two builders:
   - **The range-hoisting builder** (`src/query_builder.rs`) keeps a stack of scopes. Each scope has a clause list, a current occur and one range slot. The first range of a scope claims the slot, and a scope with a claimed slot builds a `CatQuery`.
   - **The older builder** (`src/query_builder2.rs`) adds every range as an ordinary clause.

   Builders are passed by value in Rust (`self -> Self`), so they are datatypes here and the operations are functions (modules `Builder`, `Builder2`, `Parser`). JSON values are a datatype whose objects are ordered entry lists (module `Json`). Queries are a closed datatype (module `Queries`). In that datatype, `CatQuery::new` is the constructor `Query.Cat` and `set_limit` is a record update. The documents a query matches are given by the ghost predicate `Semantics.Matches`.
2. **CatQuery** (`src/query/cat_query.rs`, module `Cat`). It narrows an inner boolean query to the documents whose u64 field lies in a range. It has five scoring strategies, `explain`, and the free leapfrog `intersection` of two doc cursors.
   - A segment is seen through the term dictionaries of its fields. Each dictionary is a list of `(value, posting list)` entries by increasing value.
   - The inner weight is a function from a segment to the doc list its scorer yields, or to an error.
   - The scorers are methods with loops. Each is proved against a reference match set: the inner matches whose value lies in the range.
3. **tantivy 0.10.2's posting-list readers** (`tantivy-0.10.2/src/postings/segment_postings.rs`, modules `BlockLists` and `Postings`).
   - `BlockSegmentPostings` walks the blocks of a posting list. Blocks are given decoded, as a `seq<seq<DocId>>` in which every block but the last is full.
   - `SegmentPostings` is the doc-at-a-time cursor built on top of it.
   - `PositionComputer` turns position deltas into positions.

   All three are classes whose methods update their fields. The cursor's contracts relate it to `Remaining()`, the docs it has still to visit.

## Model

| member | source | states |
|---|---|---|
| Json.Lookup | src/query_parser.rs:26-37 | a key lookup in an object's entries finds a value exactly when some entry has that key, and the value is that entry's |
| Json.Get | src/query_parser.rs:26-37 | `v.get(key)` is Some exactly when `v` is an object with an entry for `key`; the value found is strictly smaller than `v`, so the recursive walk terminates |
| Builder.ScopePush | src/query_builder.rs:29-31 | `push` appends the clause at the end and leaves the range slot and the limit alone |
| Builder.ScopeAddRange | src/query_builder.rs:32-40 | the first range of a scope pushes nothing and claims the slot with its field and bounds; a later one pushes a half-open range `left..right` over the already claimed field, ignoring the field it was given |
| Builder.New | src/query_builder.rs:51-64 | a root builder: no parent, no clauses, no claimed field, limit `size` |
| Builder.Down | src/query_builder.rs:65-78 | a child scope with the given occur, empty clauses, no field and limit 0, whose parent is the old builder |
| Builder.Also | src/query_builder.rs:79-82 | only the current occur changes |
| Builder.Up | src/query_builder.rs:83-93 | the child's built query is appended to the parent under the parent's occur, and the parent is returned; the call is only defined when there is a parent (Rust panics at the root) |
| Builder.AddTermQuery | src/query_builder.rs:94-102 | an unknown field leaves the builder unchanged; otherwise exactly one text term clause is appended under the current occur and nothing else changes: the range slot (claimed or not), its bounds, the limit, the parent, schema and occur stay as they were |
| Builder.AddPrefixQuery | src/query_builder.rs:103-111 | as for term queries, with a prefix clause and nothing else changes: the range slot (claimed or not), its bounds, the limit, the parent, schema and occur stay as they were |
| Builder.AddRangeQuery | src/query_builder.rs:115-136 | an unknown field leaves the builder unchanged; otherwise the bounds are translated by ±1 and offered to the scope's slot |
| Builder.AddTermQueryStr | src/query_builder.rs:156-165 | an unknown field leaves the builder unchanged; otherwise one text term clause is appended and nothing else changes: the range slot (claimed or not), its bounds, the limit, the parent, schema and occur stay as they were |
| Builder.AddTermQueryU64 | src/query_builder.rs:166-177 | an unknown field leaves the builder unchanged; otherwise one u64 term clause is appended and nothing else changes: the range slot (claimed or not), its bounds, the limit, the parent, schema and occur stay as they were |
| Builder.ScopeBuildMeans | src/query_builder.rs:17-28 | `build` (a CatQuery with a claimed slot, the lone clause unwrapped, or a boolean query) matches exactly the scope's clauses combined, restricted to the slot's inclusive range once it is claimed |
| Builder.ScopeBuildLimitsZero | src/query_builder.rs:17-28 | a scope with limit 0 whose clauses hold only limit-0 CatQueries builds a query whose CatQueries all have limit 0 |
| Builder.HoistedRangeIsMustClause | src/query_builder.rs:17-19 | when the scope has a Must clause, hoisting the range equals adding it as an inclusive Must range clause |
| Builder.HoistedRangeWithoutMustDiffers | src/query_builder.rs:17-19 | without a Must clause the hoisting differs from a Must range clause (example: a lone Should clause the doc misses) |
| Builder.LoneRangeMatchesNothing | src/query_builder.rs:32-39 | a range alone in an empty scope claims the slot over an empty inner query, so the built query matches no document |
| Builder.LaterRangeUsesClaimedField | src/query_builder.rs:32-35 | a later range clause is tagged with the current occur and matches the docs whose claimed field's value is in `[left, right - 1]` |
| Builder.TranslatedBoundsExact | src/query_builder.rs:120-133 | when `left < u64::MAX` (exclusive lower) and `right > 0` (exclusive upper), the translated inclusive bounds admit exactly the values the requested bounds admit |
| Builder.TranslatedBoundsWrap | src/query_builder.rs:120-133 | outside those conditions the model wraps as a release build does (a debug build panics): `u64::MAX + 1` becomes 0 and `0 - 1` becomes `u64::MAX` |
| Builder.EmptyScopeMatchesNothing | src/query_builder.rs:65-93 | `down` followed by `up` appends an empty boolean query, which matches nothing |
| Builder.UpUnwrapsSingleClause | src/query_builder.rs:83-93 | `up` from a scope with one clause appends that clause's query itself, not a boolean around it |
| Builder2.New | src/query_builder2.rs:15-22 | a root builder with no clauses and the given occur |
| Builder2.Down | src/query_builder2.rs:23-30 | an empty child with the given occur whose parent is the old builder |
| Builder2.Also | src/query_builder2.rs:31-34 | only the current occur changes |
| Builder2.Up | src/query_builder2.rs:35-45 | the child's clauses, always wrapped in a boolean query (even a single one), are appended under the parent's occur; only defined with a parent |
| Builder2.AddTermQuery | src/query_builder2.rs:46-54 | an unknown field leaves the builder unchanged; otherwise one text term clause is appended under the current occur |
| Builder2.AddPrefixQuery | src/query_builder2.rs:55-63 | as for term queries, with a prefix clause |
| Builder2.Build | src/query_builder2.rs:64-66 | on a builder reached from `new`, the result holds no CatQuery (what it matches is stated by Builder2.AgreesWithBuilderWithoutRanges) |
| Builder2.AddRangeQuery | src/query_builder2.rs:67-85 | an unknown field leaves the builder unchanged; otherwise one range clause is appended, with Included or Excluded bounds chosen by the flags and no ±1 arithmetic |
| Builder2.AddTermQueryStr | src/query_builder2.rs:86-95 | as `add_term_query` |
| Builder2.AddTermQueryU64 | src/query_builder2.rs:96-107 | an unknown field leaves the builder unchanged; otherwise one u64 term clause is appended |
| Builder2.RangeClauseAgreesWithTranslation | src/query_builder2.rs:67-85 | the older builder's range clause matches exactly the docs the hoisting builder's translated inclusive bounds admit, under the no-wrap conditions |
| Builder2.AgreesWithBuilderWithoutRanges | src/query_builder2.rs:64-66 | for a scope without ranges, the two builders' results match the same documents |
| Parser.ParseValue | src/query_parser.rs:25-85 | the walk only appends clauses to the current scope and keeps the builder well formed (one schema, nested CatQueries with limit 0) |
| Parser.ParseScope | src/query_parser.rs:30-37 | `down(occur).parse(v).up()` appends exactly one clause, under the enclosing occur |
| Parser.ParseItems | src/query_parser.rs:38-42 | the fold over an array only appends clauses |
| Parser.PrefixEntries | src/query_parser.rs:43-52 | the fold over a `prefix` object only appends clauses |
| Parser.TermEntries | src/query_parser.rs:53-65 | the fold over a `term` object only appends clauses |
| Parser.RangeEntries | src/query_parser.rs:66-82 | the fold over a `range` object only appends clauses |
| Parser.Parse | src/query_parser.rs:7-23 | text that is not JSON gives the empty boolean query; otherwise the builder's result with only the limit of a root CatQuery replaced by `size`; every nested CatQuery has limit 0 |
| Parser.RootBuildLimits | src/query_parser.rs:16-21 | a root build is a CatQuery with the root's limit only when the root itself claimed a range; an unwrapped one has limit 0, and so has every nested CatQuery |
| Parser.UnwrappedCatHasLimitZero | src/query_parser.rs:16-21 | a lone range in a `bool.filter` builds a CatQuery with limit 0, which is why `parse` overrides the limit |
| Parser.QueryKeyWins | src/query_parser.rs:26-28 | with a `query` key, the result is that of its value, whatever else the object holds |
| Parser.FilterBeatsShould | src/query_parser.rs:30-37 | in a `bool` with `filter`, only `filter` is parsed, in a Must scope; `should` is ignored |
| Parser.ShouldWithoutFilter | src/query_parser.rs:30-37 | in a `bool` without `filter` but with `should`, `should` is parsed in a Should child scope |
| Parser.BoolAddsOneClause | src/query_parser.rs:30-37 | a `bool` block adds one clause under the current occur and leaves the scope's range slot alone |
| Parser.ParseItemsSnoc | src/query_parser.rs:38-42 | folding one more array element is one more parse step on the fold's result |
| Parser.ArrayIsFold | src/query_parser.rs:38-42 | an empty array changes nothing; an array is folded element by element, keeping the occur |
| Parser.PrefixBeforeTermAndRange | src/query_parser.rs:30-52 | with no `query` key and no `bool` holding `filter` or `should`, an object under `prefix` decides the result: only prefix clauses are added (at most one per entry) and `term`/`range` are ignored |
| Parser.TermBeforeRange | src/query_parser.rs:43-66 | when `prefix` is absent or not an object, it is passed over and an object under `term` decides; `range` is ignored |
| Parser.RangeAfterPrefixAndTerm | src/query_parser.rs:43-82 | when neither `prefix` nor `term` holds an object, an object under `range` decides |
| Parser.NonObjectLeavesFallThrough | src/query_parser.rs:43-86 | an object whose `prefix`, `term` and `range` values are all absent or non-objects falls through every branch and returns the builder unchanged |
| Parser.PrefixEntriesOnlyPrefixes | src/query_parser.rs:43-52 | the entries of a `prefix` object add only prefix clauses under the current occur |
| Parser.TermEntryKinds | src/query_parser.rs:55-63 | a u64 `value` gives a u64 term, in preference to a string; a string gives a text term; anything else skips the entry |
| Parser.RangeEntryNeedsAllFour | src/query_parser.rs:68-79 | an entry without u64 `from`/`to` and bool `include_lower`/`include_upper` is skipped |
| Parser.RangeEntryComplete | src/query_parser.rs:68-79 | a complete entry is handed to `add_range_query` with its four parts |
| Parser.UnrecognisedObjectUnchanged | src/query_parser.rs:84 | an object with no recognised key returns the builder unchanged |
| BlockLists.ShapedLayout | tantivy-0.10.2/src/postings/segment_postings.rs:366-367 | the serializer's layout holds `doc_freq` docs; there is a variable-int block exactly when `doc_freq % 128 != 0`, and it holds that many docs |
| BlockLists.ChunksFlatten | tantivy-0.10.2/src/postings/segment_postings.rs:87-105 | cutting a doc list into blocks neither loses nor reorders docs |
| BlockLists.ChunksShaped | tantivy-0.10.2/src/postings/segment_postings.rs:87-105 | the blocks of an increasing doc list have the layout `from_data` expects |
| BlockLists.FirstBlockReachingIsFirst | tantivy-0.10.2/src/postings/segment_postings.rs:463-532 | the block `skip_to` looks for is the first remaining one whose last doc reaches the target |
| BlockLists.FirstAtLeastIff | tantivy-0.10.2/src/postings/segment_postings.rs:204-224 | the in-block search position is exactly the first doc at least the target |
| BlockLists.VintDocsAgree | tantivy-0.10.2/src/postings/segment_postings.rs:392 | `doc_freq & (128 - 1) == doc_freq % 128`, so `reset` and `from_data` (line 367) compute the same number of variable-int docs |
| Postings.PositionComputer.constructor | tantivy-0.10.2/src/postings/segment_postings.rs:31-36 | nothing to skip yet |
| Postings.PositionComputer.AddSkip | tantivy-0.10.2/src/postings/segment_postings.rs:38-40 | the deltas to skip grow by `num_skip` |
| Postings.PositionComputer.PositionsWithOffset | tantivy-0.10.2/src/postings/segment_postings.rs:43-52 | the pending deltas are skipped, `position_to_skip` becomes 0, and `output[i]` becomes `offset` plus the first `i + 1` deltas read (mod 2^32) |
| Postings.RunningSumsInPlace | tantivy-0.10.2/src/postings/segment_postings.rs:47-51 | the in-place loop turns each delta into the running sum up to it |
| Postings.RunningSumsExact | tantivy-0.10.2/src/postings/segment_postings.rs:43-52 | without overflow the positions are exactly `offset + sum(deltas[0..=i])`, in non-decreasing order |
| Postings.BlockSegmentPostings.FromData | tantivy-0.10.2/src/postings/segment_postings.rs:349-377 | a cursor before the first block of the given list; `docs()` is empty |
| Postings.BlockSegmentPostings.Empty | tantivy-0.10.2/src/postings/segment_postings.rs:584-598 | the cursor over the empty list: `doc_freq` 0, no block |
| Postings.BlockSegmentPostings.Reset | tantivy-0.10.2/src/postings/segment_postings.rs:390-402 | the cursor stands before the first block of the new list, while `docs()` still returns the old block |
| Postings.BlockSegmentPostings.DocFreq | tantivy-0.10.2/src/postings/segment_postings.rs:408-410 | `doc_freq` is the number of docs of the list |
| Postings.BlockSegmentPostings.Docs | tantivy-0.10.2/src/postings/segment_postings.rs:414-419 | `docs()` is the current block: as long as `block_len()`, at most 128 docs (and empty before the first `advance`, by `FromData`) |
| Postings.BlockSegmentPostings.BlockLen | tantivy-0.10.2/src/postings/segment_postings.rs:449-451 | the current block holds at most 128 docs |
| Postings.BlockSegmentPostings.Advance | tantivy-0.10.2/src/postings/segment_postings.rs:536-582 | true exactly when a block remains; that block becomes `docs()` and one more block is consumed; false changes nothing |
| Postings.BlockSegmentPostings.Next | tantivy-0.10.2/src/postings/segment_postings.rs:604-610 | the next block, or None when every block was consumed |
| Postings.BlockSegmentPostings.SkipFullBlocks | tantivy-0.10.2/src/postings/segment_postings.rs:465-499 | the skip-list loop stops on the first full block reaching the target, or has consumed all skip entries, and sums the term frequencies of the blocks it skips |
| Postings.BlockSegmentPostings.SkipTo | tantivy-0.10.2/src/postings/segment_postings.rs:463-532 | Success exactly when some remaining block's last doc reaches the target; the first such block is then the current one, and the skipped blocks' term frequencies are reported; otherwise every block is consumed |
| Postings.BlockSegmentPostings.AppendRemaining | tantivy-0.10.2/src/postings/segment_postings.rs:252-256 | every remaining block is decoded and its docs are inserted into the bitset |
| Postings.SegmentPostings.Empty | tantivy-0.10.2/src/postings/segment_postings.rs:69-77 | a cursor over no block with nothing to visit, and `len() == 0` |
| Postings.SegmentPostings.FromBlockPostings | tantivy-0.10.2/src/postings/segment_postings.rs:115-125 | a cursor that will visit the docs of the remaining blocks |
| Postings.SegmentPostings.CreateFromDocs | tantivy-0.10.2/src/postings/segment_postings.rs:87-105 | a cursor that will visit exactly `docs`, with `len() == docs.len()` |
| Postings.SegmentPostings.DocPrecedesRemaining | tantivy-0.10.2/src/postings/segment_postings.rs:233-240 | the current doc lies below every doc still to visit |
| Postings.SegmentPostings.Doc | tantivy-0.10.2/src/postings/segment_postings.rs:228-240 | `doc()` is defined only when the cursor stands on a doc of the decoded block (calling it before `advance` panics); the list is then the docs passed, the current doc and the docs still to visit |
| Postings.SegmentPostings.Len | tantivy-0.10.2/src/postings/segment_postings.rs:267-269 | `len()` is `doc_freq()`, the number of docs of the list |
| Postings.SegmentPostings.Advance | tantivy-0.10.2/src/postings/segment_postings.rs:132-148 | true exactly when docs remain; the current doc is then the first of them and the rest remain; false leaves nothing to visit |
| Postings.SegmentPostings.AppendToBitset | tantivy-0.10.2/src/postings/segment_postings.rs:246-259 | exactly the docs still to visit are inserted, and the whole list is consumed |
| Postings.SegmentPostings.AppendFromDoc | tantivy-0.10.2/src/postings/segment_postings.rs:248-257 | after the first advance, the current doc, the rest of its block and every later block are inserted |
| Postings.SegmentPostings.SkipNext | tantivy-0.10.2/src/postings/segment_postings.rs:150-225 | after at least one advance the cursor stands on the first remaining doc at least the target: Reached if it is the target, OverStep if greater; End exactly when every remaining doc is below the target; the docs passed are all below it |
| Postings.SegmentPostings.SkipFromDoc | tantivy-0.10.2/src/postings/segment_postings.rs:153-225 | the part of `skip_next` after its advance, with the same outcome over the docs from the current one on |
| Postings.SegmentPostings.SeekBlock | tantivy-0.10.2/src/postings/segment_postings.rs:172-198 | when the current block ends below the target, `skip_to` finds a block reaching it or reports that none of the remaining docs does |
| Postings.SegmentPostings.SearchBlock | tantivy-0.10.2/src/postings/segment_postings.rs:200-224 | in a block that reaches the target, the cursor moves to the first doc at least the target |
| Postings.InsertDocs | tantivy-0.10.2/src/postings/segment_postings.rs:249-251 | inserting docs one by one adds exactly those docs to the bitset |
| Cat.Weight | src/query/cat_query.rs:35-44 | a failure of the inner weight is passed on; otherwise the CatWeight holds the inner weight and the query's field, bounds and limit unchanged |
| Cat.Intersection | src/query/cat_query.rs:97-129 | the boolean result and the doc both cursors stop on are those of `Leapfrog` on what the cursors had to visit; when true, `left.doc() == right.doc()` |
| Cat.Chase | src/query/cat_query.rs:105-128 | the `loop` of `intersection`: the two cursors skip to each other's doc; the result is `ChaseRight` of the visited lists |
| Cat.ChaseRightFirst | src/query/cat_query.rs:105-128 | for an increasing candidate-then-rest list and an increasing other list, the loop stops on the first doc both lists share, and on none when they share none |
| Cat.LeapfrogSound | src/query/cat_query.rs:97-129 | any doc `intersection` stops on is in both lists |
| Cat.LeapfrogComplete | src/query/cat_query.rs:97-129 | when `right` does not stand beyond `left`'s next doc, `intersection` stops on the first common doc and returns false only when there is none |
| Cat.LeapfrogMissesAhead | src/query/cat_query.rs:104-116 | with `right` standing beyond `left`'s next doc, a common doc is missed (see Findings) |
| Cat.LeapfrogFixedFirst | src/query/cat_query.rs:97-129 | the corrected leapfrog stops on the first common doc wherever `right` stands |
| Cat.TermRangeExact | src/query/cat_query.rs:134-148 | both bounds are included: the stream holds exactly the dictionary entries with `left <= value <= right` |
| Cat.TermRangeDocs | src/query/cat_query.rs:134-148 | the streamed entries hold the docs of exactly the values in `[left, right]` |
| Cat.LookupDocs | src/query/cat_query.rs:206-207 | `read_postings` on the term of value `i` finds exactly the docs of that value, in increasing order |
| Cat.KeepElems | src/query/cat_query.rs:196-199 | intersecting the inner scorer with the bitset keeps exactly the inner docs the bitset holds |
| Cat.KeepIncreasing | src/query/cat_query.rs:196-199 | the intersection yields its docs in increasing order |
| Cat.DrainPostings | src/query/cat_query.rs:232-240 | draining a posting list inserts its docs, or only those the filter holds |
| Cat.DrainBlocks | src/query/cat_query.rs:188-194 | draining block postings inserts every doc of the term |
| Cat.Scorer2 | src/query/cat_query.rs:179-200 | an inner error is passed on; otherwise the docs are increasing and are exactly the inner matches with a value in `[left, right]` |
| Cat.CollectRange | src/query/cat_query.rs:230-241 | the half-open loop `left..right` collects the docs of the values in `[left, right)`, filtered when asked |
| Cat.Scorer3 | src/query/cat_query.rs:201-217 | an inner error is passed on; otherwise the docs are increasing and are exactly the inner matches with a value in `[left, right)` |
| Cat.Scorer4 | src/query/cat_query.rs:219-244 | an inner error is passed on; otherwise the bitset is exactly the inner matches with a value in `[left, right)` |
| Cat.Scorer5 | src/query/cat_query.rs:245-265 | an inner error is passed on; otherwise the bitset is exactly the inner matches with a value in `[left, right)` |
| Cat.HalfOpenEmpty | src/query/cat_query.rs:201-265 | the half-open scorers match nothing when `right <= left` |
| Cat.InclusiveExtendsHalfOpen | src/query/cat_query.rs:179-217 | `scorer2` matches what the half-open scorers do, plus the inner matches of value `right` |
| Cat.ByValuePrefix | src/query/cat_query.rs:160-176 | pushing the docs of more values only extends what was pushed |
| Cat.ByValueElems | src/query/cat_query.rs:160-176 | without a limit, `scorer1` pushes exactly the inner matches with a value in `[left, right)` |
| Cat.Scorer1 | src/query/cat_query.rs:149-178 | an inner error is passed on; otherwise the result is the value-ordered list of inner matches in `[left, right)`, cut to its first `max(limit, 1)` docs |
| Cat.PushMatches | src/query/cat_query.rs:166-172 | the common docs are pushed in order until the count reaches `limit`, which stops the scorer |
| Cat.StopsWithin | src/query/cat_query.rs:166-172 | where `scorer1` stops inside a value, it has returned the first `max(limit, 1)` docs of the whole list |
| Cat.Scorer | src/query/cat_query.rs:270-272 | `scorer` is `scorer2`, with its contract |
| Cat.SkipFreshReached | src/query/cat_query.rs:277 | on an increasing doc set that has not advanced, `skip_next(doc)` is Reached exactly when `doc` is in it |
| Cat.Explain | src/query/cat_query.rs:275-281 | an inner error is passed on; otherwise the result is an error (`does not match`) exactly when `doc` is not in `scorer`'s match set, and an explanation "CatQuery" otherwise |

## Left out

- The postings codec is not modelled: bit-packing, variable-int encoding, `BlockDecoder`, `SkipReader`, `OwnedRead`, `PostingsSerializer`, `split_into_skips_and_postings`, `doc_offset` and the byte offsets. A list is given by its decoded blocks. A skip entry is given only by its block's term-frequency sum.
- Term frequencies and positions of `SegmentPostings` are not modelled: `term_freq`, `freqs`, the `position_computer` calls in `advance` and `skip_next`, and `SegmentPostings::positions_with_offset`. The cursor models the `Basic` record option, which reads no frequencies. `PositionComputer` itself is modelled, over a sequence of deltas.
- Postings.SegmentPostings.CreateFromDocs: the skip entries' term-frequency sums are 0, which matters for nothing the model proves. The docs must be strictly increasing, as the serializer expects.
- Builder.TranslateBounds: the bound arithmetic wraps modulo 2^64 as a release build does; a debug build panics instead at `u64::MAX + 1` (exclusive lower bound at `u64::MAX`) and at `0 - 1` (exclusive upper bound at 0).
- Builder.AddRangeQuery: inherits that release-build wrapping from `Builder.TranslateBounds`; the debug-build panic is not modelled.
- `docs.len() as u32` and the other `u32`/`usize` casts are not modelled. Doc ids and lengths are unbounded naturals. `PositionComputer` does model the u32 wrap-around of its sums, as a release build does it.
- `BlockSearcher`'s exponential and SIMD search is not modelled. `search_in_block` is specified by its result, the first doc at least the target.
- `BitSet::with_max_value(max_doc)` is modelled as a set of doc ids. A set has no capacity, so a doc beyond `max_doc` is not modelled.
- `ArcVecDocSet` (cat_query.rs:71-92) is out: no member of the core uses it.
- The `SystemTime` timing and the `println!`s of `scorer1` are out: they are I/O.
- Scores are out: the constant score, the `f32` of `Explanation::new`, and `scorer.for_each`'s score argument. `Explanation` keeps only its description.
- tantivy's `Intersection`, `BitSetDocSet`, `VecDocSet`, `ConstScorer`, `TermStreamer` and term dictionary are not part of this model. They are represented by what they yield:
  - `Cat.Keep`: the inner docs a set holds, in order;
  - `Cat.TermRange`: the dictionary entries in range, in order;
  - `Cat.SkipFresh`: `skip_next` on a fresh doc set.
- The u64 term encoding is taken to be order-preserving, so byte order is value order. `term_range` depends on this, and the encoding lives outside these files.
- The inner boolean query's weight and scorer are taken as given functions from a segment to a doc list or an error. `TantivyError` is reduced to `DoesNotMatch` and an opaque inner error. The format string of the error message is left out.
- Cat.Intersection requires two coherent cursors over different objects, with `right` already on a doc. This is as tantivy requires, where `doc()` before `advance` is a caller error. After `End` the model's only promise is the boolean returned, because tantivy leaves the cursor's position unspecified there.
- Cat.Chase: the same requirements as Cat.Intersection.
- Builder.Up, Builder2.Up: `up` at the root panics, so the model requires a parent.
- Builder.Build has no contract of its own. What `build` means is stated by Builder.ScopeBuildMeans. The regex of `add_prefix_query` is modelled as a `Prefix` query, and `RegexQuery`'s matching is not itself modelled.
- `serde_json` parsing is out. `Parser.Parse` takes the parse outcome, `None` for invalid text.
- JSON numbers are reduced to u64, negative integers and floats. `as_u64` accepts only the first kind. An object is a sequence of entries in the map's iteration order; for serde_json's default `Map` (a `BTreeMap`, without the `preserve_order` feature) that is ascending key order. That order decides which `range` entry claims a scope's slot and the order in which clauses are appended. A serde `Value` object never holds two entries for one key (on parsing, the last value wins); the model does not require distinct keys, and a lookup takes the first entry, which on distinct keys is the only one.
- `src/main.rs` is not part of this model: process start-up and thin calls into tantivy's collectors. Neither is `src/only_read_directory.rs`: file I/O.
- Concurrency (`Arc`, `RwLock`) is out: nothing in the core is concurrent.

## Findings

| source | as written | input that shows it | evidently intended | confidence | as-written member | corrected member |
|---|---|---|---|---|---|---|
| src/query/cat_query.rs:104-116 | after `left.advance()`, if `right.doc() != candidate`, `right.skip_next(candidate)` is called even when `right` already stands beyond `candidate`; `skip_next` always advances first, so `right` moves past its current doc, which may be a common doc | `left` about to visit [1, 3]; `right` standing on 3 with [4] after it; 3 is common, yet `intersection` returns false | stop on the first doc both cursors have: when `right.doc() > candidate`, let `left` skip to `right.doc()` first | medium, not executed | Cat.LeapfrogMissesAhead | Cat.LeapfrogFixedFirst |
