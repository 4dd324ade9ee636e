# Verified model of the oblivious two-hop retrieval system

This project models the algorithms of an oblivious two-hop knowledge-graph retrieval
system and proves what they promise one another. A federation of data owners holds typed,
scored edges; a client asks for the best paths `source -relation1-> middle -relation2->
terminal`. The system answers under secret sharing, so almost every algorithm exists twice:
a data-oblivious form that a rendered circuit runs, and a simple cleartext form it must agree
with. The proofs connect the two, and connect the simple forms to short specifications.

## How to read it

`dafny verify dfyconfig.toml` checks all modules; there is one module per file.

* **Meaning of a query.** `Ranking.TopK` (repeatedly take the first best candidate),
  `TwoHop.Paths` (first hops in order, second hops in order) and `GraphAnswer.QueryRows` say
  what rows a query must return. Everything below is proved against them. `RawAnswer` says
  the same on the raw edges' fields alone and proves that it leaves no choice.
* **Ranking.** `Ranking` holds the rendered scalar and batched circuits over arrays,
  `RankingOracle` the sort-and-scan of the cleartext oracle; both return `TopK`. `Ties`
  says exactly when two enumerations of the same candidates rank alike.
* **Layout.** `PageConfig`, `PackedEdges`, `OwnerEdges`, `KeyListing`, `PageLayout` model an
  owner's paged layout and prove it lossless; `PublicShape` and `RawBounds` pin its public
  numbers and its acceptance; `HashLaws` what the hash does to tags; `TypeBlockBuilder`, `BucketTable`, `DirectoryAssembly`,
  `PackedDirectory` the ontology-blocked, hashed and affine directories.
* **Cleartext evaluators.** `PagedEvaluation` (paged oracle and dual-ORAM evaluator) and
  `ScanOracle` (scan layout).
* **Circuits.** `ObliviousRead`, `DirectoryReads`, `CompactRead`, `KeyReads`, `FoldedReads`,
  `PageReads`, `Compaction`, `Candidates`, wired together in `PagedCircuit`; `ScanCircuit`
  and `ScanProgram` for the scan layout. A secret integer is an `int`, `b.if_else(x, y)` is
  `b * (x - y) + y`, a demultiplexed selector is a one-hot sequence.
* **Recursive ORAM.** `OramTree`, `OramStack`, `OramAccess` (trees, position maps, the
  simulation with dictionary stashes), `OramCircuit`, `OramReader`, `OramSession` (the
  rendered reader, whose stash has one slot per access), `OwnerStore` (the two stacks over
  one layout), `OramEpoch`, `OramProgram`, `OramBatch` (the rendered dual-ORAM program).
* **Point functions.** `MpParams` to `MpSession` for the multi-party scheme of Boyle, Gilboa
  and Ishai (EUROCRYPT 2015, section 3.1), `TreeDpf` for the two-party tree of the same
  authors (CCS 2016, figure 1). The generator is an arbitrary function.
* **Bound check.** `PrimeField`, `OverflowPolynomial`, `BoundCheck`.
* **Sharing and pooling.** `Sharing`, `DirectoryShares` and `DirectoryAssembly` (every table
  and page pool the circuit reads is revealed from the owners' shares), `Pooling`,
  `FisherYates`, `BlockShuffle`.

Random draws (leaves, dummies, seeds, shuffles, share randomness) are arbitrary inputs, so
every result holds for all of them.

## Main results

What a row is, column by column on the raw edges, is `RawAnswer.QueryRowsAreRaw`; that this
leaves no choice is `RawAnswer.RawRowsUnique`. The rows below are those.

1. *The paged circuit returns the oracle's rows* for any edges, any batch of queries, and any
   directory form, folded or not, on tables and page pools that went through the owners'
   shares (`PagedCircuit.AgreesWithOracle`); what a declared federation-wide frontier costs
   is stated exactly (`PagedCircuit.FrontierCost`).
2. *The dual-ORAM backend returns the same rows*, from raw edges through both stacks, the
   stash circuit, compaction and ranking (`OramBatch.BatchAgreesWithOracle`), and spends
   exactly its public access budgets (`OramBatch.ServeBatch`).
3. *The stash circuit refines the dictionary-stash simulation* over every access sequence
   (`OramSession.RunEpoch`, `OramSession.CircuitRefines`), which in turn answers every access
   with the stored record and opens no record twice (`OramAccess.Simulate`,
   `OramAccess.RevealedOnce`).
4. *The multi-party shares xor to the point function*, with the exact disturbance when a seed
   is zero (`MpDpf.SharesCombine`), through projection and combination in any arrival order
   (`MpSession.Answer`). *The tree shares sum to it* (`TreeDpf.SharesSum`).
5. *The opened bound-check value is the number of keys whose federation-wide degree exceeds
   the bound*, and a zero makes global compaction lossless (`BoundCheck.CheckFederation`,
   `BoundCheck.ZeroIsLossless`).
6. *The scan and the paged oracle* agree on validity and score columns always, and on whole
   rows exactly when tied candidates are listed in the same order
   (`ScanAgreement.CompareOracles`, `ScanAgreement.LayoutsAgree`); `TieExample.TiesDiffer`
   gives a federation both accept and answer differently.

Where the code and its comments part, the model follows the code:

* The federation-wide frontier of the circuit truncates; the oracle raises instead. The rows
  agree whenever the oracle answers, and `FrontierCost` says exactly when truncation is
  harmless. The comment that compaction "discards no match" holds under that condition.
* The rendered bound check is refused unless the bound is below `owners * slots_per_key` and
  that maximum is below the prime, although the cleartext check may accept such a bound;
  `BoundCheck.CheckFederation` states this as an if-and-only-if.
* The two oracles are described as returning the same rows; with ties they need not.
* A hashed directory of one row passes validation and rendering, but the unfolded read
  multiplies it by a selector of at least two rows (`page_program.py:491-492` and `1650`),
  and the comment at `relation_pages.py:386-394` wants equal heights. The heights are equal
  exactly when the store has two rows (`DirectoryAssembly.SelectorHeight`), and the modelled
  circuit runs only then; the folded read takes the one row without a selector.
* A zero seed reads as "not held" during evaluation, so redrawing zero seeds is necessary for
  correctness, not only tidy (`MpDpf.ZeroSeedsMatter`).

## Model

| member | source | states |
|---|---|---|
| Ranking.RankScalar | doram_t2_3pc/page_program.py:197-316 | The one-query circuit (forward maximum scan, reverse winner marking, terminal suppression, all in place) returns the greedy stable top-k rows of every well-formed lane; on the lane's own arrays: each row is a valid slot's left handle, right handle and score, best first with the lower index on ties, zero rows behind, and every other valid slot is beaten by all rows or shares the terminal of a row that beats it. |
| Ranking.RankBatch | doram_t2_3pc/page_program.py:318-400 | Every lane of the batched circuit returns the rows of its own candidates, in the same sense and on its own arrays: the same rows as the one-query circuit. |
| RankingOracle.RankBySorting | doram_t2_3pc/relation_pages.py:921-957 | Sorting by (-score, index), scanning once with a set of seen terminals, and padding gives the greedy top-k rows; on the tuples themselves, handles and score in their own columns, with the reason every other tuple has no row. |
| RankingOracle.ScanIsGreedy | doram_t2_3pc/relation_pages.py:923-957 | One scan of the sorted candidates equals repeated choice of the first best remaining candidate, ties and repeated terminals included. |
| RawAnswer.QueryRowsAreRaw | doram_t2_3pc/relation_pages.py:831-957 | The rows of a query, on the raw edges' fields alone: each row is a first edge from the query's source under its first relation and a second edge from that edge's target under its second relation, with the two evidence handles left and right and the two scores added; rows are ordered by score and then by stored order; every other such pair is outranked by all rows or ends where an outranking row ends. |
| RawAnswer.RawRowsUnique | doram_t2_3pc/relation_pages.py:921-957 | These conditions leave no choice: two lists of rows that both meet them on the same edges are equal. |
| RawAnswer.SmallerMiddleFirst | doram_t2_3pc/relation_pages.py:610-616 | Of two equal-score paths of one owner from one key, the one through the smaller middle entity has the earlier row, unless an earlier row ends at its terminal. |
| Ties.RowsAgree | doram_t2_3pc/relation_pages.py:923-957 | For any two candidate lists: the ranked rows agree for every top_k if and only if, score by score, the rows that can be chosen are listed in the same order (all of them without deduplication, one champion per terminal with it). |
| Ties.DistinctAgree | doram_t2_3pc/relation_pages.py:923-957 | With pairwise distinct scores any two enumerations of the same candidates rank the same, with or without deduplication. |
| Compaction.StableCompaction | doram_t2_3pc/page_program.py:1362-1431 | The round-by-round loop over secret validity bits outputs the first `width` valid slots in order, then empty slots. |
| Compaction.CompactLossless | doram_t2_3pc/page_program.py:1362-1431 | Compaction keeps every match if and only if the declared width suffices. |
| Compaction.CompactTwice | doram_t2_3pc/relation_pages.py:877-900 | Owner-local compaction followed by federation-wide compaction is one federation-wide compaction, when the per-owner bounds hold. |
| Candidates.FormCandidates | doram_t2_3pc/page_program.py:213-231 | The double loop of slot products yields exactly the two-hop paths of the live slots, in public slot order. |
| Candidates.SlotPathsArePaths | doram_t2_3pc/page_program.py:213-231 | If each live frontier slot is paired with its target's matches, the slot products are the paths of the query. |
| PackedEdges.PackEdge | doram_t2_3pc/packed.py:36-55 | Packing is refused exactly for a field out of range, and otherwise gives the value whose bit fields are the edge. |
| PackedEdges.UnpackEdge | doram_t2_3pc/packed.py:58-66 | Mask-and-shift reads every field of a value back from its bit positions. |
| FieldPacking.UnpackPack | doram_t2_3pc/packed.py:36-66 | Unpacking what was packed returns the fields, for any widths. |
| FieldPacking.PackUnpack | doram_t2_3pc/packed.py:36-66 | Packing what was unpacked returns the value, and every unpacked field fits its width. |
| OwnerEdges.GroupEdges | doram_t2_3pc/relation_pages.py:529-572 | Grouping succeeds exactly when every edge passes validation, and then every key holds its own records in input order. |
| KeyListing.StoredListing | doram_t2_3pc/relation_pages.py:610-616 | The stored records of a key are its edges, each once, ascending by target, relation, evidence and score. |
| PageConfig.DescriptorRoundTrip | doram_t2_3pc/relation_pages.py:487-496 | Every base below the budget and count within the limit packs, fits the declared bits, and unpacks to itself. |
| PageConfig.AddressInjective | doram_t2_3pc/relation_pages.py:444-485 | No two keys share a directory row, whether rows are affine or ontology-blocked. |
| PublicShape.DescriptorWidths | doram_t2_3pc/relation_pages.py:288-298 | A descriptor's two fields are the least widths that write every base and every count. |
| PublicShape.EdgeFieldWidths | doram_t2_3pc/packed.py:12-23 | A packed edge's slot and relation fields are the least widths that write every identifier; the other fields have the declared widths. |
| PublicShape.DescriptorFormat | doram_t2_3pc/relation_pages.py:487-496 | A descriptor is its base plus its count shifted above the base field. |
| PublicShape.PoolHeight | doram_t2_3pc/relation_pages.py:276-287 | The pool's rows are exactly those some full-width window reads. |
| PublicShape.TagWidth | doram_t2_3pc/relation_pages.py:397-406 | A residual tag has the least width that writes the largest tag. |
| PublicShape.StoreHeight | doram_t2_3pc/relation_pages.py:385-395 | A partitioned store is padded to the least power of two that holds its tables. |
| PublicShape.ColumnLayout | doram_t2_3pc/relation_pages.py:408-442 | As many owners share a field element as their descriptors fit, the columns are just enough, and each owner has its own column and bit range. |
| PageLayout.BuildOwnerPageLayout | doram_t2_3pc/relation_pages.py:575-653 | Building succeeds exactly when every edge is valid and every public bound holds. Then, cell by cell, a key's pages hold its edges ascending by target, relation, evidence and score (each field at its own bits) and zeros; keys lie in the pool in ascending (source, relation) order from page 1 without gaps, zeros behind; windows are disjoint and no directory row is overwritten. |
| RawBounds.OwnerFitsIff | doram_t2_3pc/relation_pages.py:575-653 | The acceptance condition, counted on raw edges: every edge in order, a packed edge within the field, no key above its slots or the declared frontier, and the pages of all keys with the dummy page within the budget. |
| RawBounds.FrontierIsCount | doram_t2_3pc/relation_pages.py:893-905 | The oracle's frontier test counts the federation's edges with the query's source and first relation. |
| PageLayout.WindowContents | doram_t2_3pc/relation_pages.py:831-885 | A masked window of pages is the key's stored records as a prefix, then zeros. |
| TypeBlockBuilder.BuildLayout | doram_t2_3pc/type_blocked_directory.py:242-319 | For any identifier numbering the source accepts: succeeds exactly when the types cover the catalogue, every type is contiguous, and every domain is inhabited; the result is a valid block table that gives a key a row exactly when its entity has the relation's domain type. |
| BucketTable.FileKeys | doram_t2_3pc/compact_directory.py:308-343 | Filing succeeds exactly when every key can be hashed and packed and no bucket overflows; then every bucket holds its keys in order, padded with zeros. |
| DirectoryAssembly.OwnerTable | doram_t2_3pc/compact_directory.py:308-343 | One owner's table, on its dictionary: each bucket row holds the tags that hash to it in ascending order, each above its descriptor, from the owner's own first column, and zeros everywhere else. |
| HashLaws.BucketIsHighBits | doram_t2_3pc/compact_directory.py:113-127 | The bucket is the high bits of the tag times 0x9E3779B97F4A7C15, truncated to 64 bits first. |
| HashLaws.NeighboursPart | doram_t2_3pc/compact_directory.py:76-86 | Neighbouring tags never share a bucket when there are four buckets or more. |
| HashLaws.WordsDiffer | doram_t2_3pc/compact_directory.py:76-86 | No two tags below 2^64 share a hash word. |
| HashLaws.MultiplierIsGolden | doram_t2_3pc/compact_directory.py:76-80 | The multiplier is 2^64 over the golden ratio up to rounding, and at least a quarter of the word size from both ends. |
| HashLaws.RefusedTags | doram_t2_3pc/compact_directory.py:113-127 | A tag is refused exactly when it is wider than 40 bits and there is more than one bucket. |
| BucketTable.SlotRoundTrip | doram_t2_3pc/compact_directory.py:290-305 | A packed slot gives back both its tag and its descriptor. |
| BucketTable.MatchedIsFind | doram_t2_3pc/compact_directory.py:346-366 | With distinct tags at most one slot of a bucket matches, so the sum over matching slots is the filed descriptor, or zero. |
| PackedDirectory.OwnerField | doram_t2_3pc/relation_pages.py:408-442 | Reading an owner's bit range of its column of a packed row gives back that owner's descriptor. |
| DirectoryAssembly.AssembleResidual | doram_t2_3pc/paged_shares.py:47-117 | From the owners' dictionaries through their shares: the hashed store exists exactly when every owner's keys hash and no bucket overflows (re-indexed by relation when partitioned), has the declared height, and every bucket row holds every owner's keys. |
| DirectoryAssembly.Assemble | doram_t2_3pc/paged_shares.py:37-117 | For every directory form the renderer accepts, what the servers hold exists exactly when the indexes fit; the tables and page pools revealed from the shares are then the owners' own, and are deployed exactly when the selector is as tall as the hashed store. |
| DirectoryAssembly.SelectorHeight | doram_t2_3pc/page_program.py:491-492 | The selector of the unfolded hashed read has the height of the store exactly when the store has at least two rows, that is for more than one bucket or, partitioned, more than one relation. |
| PagedEvaluation.EvaluatePaged | doram_t2_3pc/relation_pages.py:784-957 | The cleartext oracle answers exactly when the owner count, query, owners' data and declared frontier pass its checks, with the greedy top-k rows of the query's paths; the rows are also characterised on the raw edges' fields. |
| PagedEvaluation.EvaluateOrams | doram_t2_3pc/relation_paged_oram.py:152-272 | The dual-ORAM evaluator answers exactly when, besides, the directory is dense and every stack places, and then returns the same rows. |
| PagedEvaluation.BackendsAgree | doram_t2_3pc/relation_paged_oram.py:152-272 | Corollary of the two evaluators' contracts: whenever both answer they return the same rows, and the ORAM one answers exactly when the paged one does, the directory is dense and the stacks place. |
| PagedOracle.ReadOwner | doram_t2_3pc/relation_pages.py:831-885 | One owner's masked, page-major read decodes to exactly the key's records, and nothing for the dummy entity. |
| OwnerStore.ReadRelationPages | doram_t2_3pc/relation_paged_oram.py:108-149 | One directory access and exactly `pages_per_key` page accesses for every key, at the wanted page or at page 0; the values are the layout's own window. |
| OwnerStore.BuildOrams | doram_t2_3pc/relation_paged_oram.py:65-105 | Building both stacks succeeds exactly when the public sizes and draws place them; both then hold the layout's records, and every level of each sits at the owner's own drawn leaves, all of one attempt. |
| ScanBuckets.RawOwnerBuckets | doram_t2_3pc/reference.py:28-85 | Succeeds exactly when every edge is well formed and both public bounds hold; then every entity's bucket holds its edges in file order, padded. |
| ScanBuckets.RawOkIsAcceptable | doram_t2_3pc/reference.py:28-63 | Corollary of the two acceptance conditions: the reference and the serializer accept the same edges, as soon as a packed edge fits the field. |
| ScanOracle.EvaluateScan | doram_t2_3pc/reference.py:88-210 | Full or compacted branch, the scan oracle answers exactly when its checks hold, with the greedy top-k of the paths in file order; on the raw edges' fields the rows are characterised as for the paged oracle, with ties in file order. |
| ScanAgreement.ColumnsDependOnBag | doram_t2_3pc/reference.py:180-210 | Lists with the same bag of candidates have the same validity and score columns, with or without deduplication. |
| ScanAgreement.PathsBag | doram_t2_3pc/reference.py:120-180 | File order and stored order enumerate the same bag of two-hop paths. |
| ScanAgreement.LayoutsAgree | doram_t2_3pc/reference.py:88-210 | On owners both layouts accept, the ranked rows agree for every top_k if and only if ties are listed alike; distinct scores suffice. |
| ScanAgreement.CompareOracles | doram_t2_3pc/reference.py:88-210 | Both oracles run on one input: columns always agree, whole rows agree when ties are listed alike. |
| TieExample.TiesDiffer | doram_t2_3pc/reference.py:88-210 | A concrete configuration, bounds, three raw edges and a query that satisfy every check of both oracles, and on which any two answers of theirs differ. |
| ObliviousRead.SelectRow | doram_t2_3pc/page_program.py:1534-1563 | The sum over all rows weighted by a one-hot selector, shifted by a public offset, is the selected row. |
| ObliviousRead.ReadRow | doram_t2_3pc/page_program.py:1534-1563 | A full scan with a demultiplexed secret address returns the addressed row. |
| ObliviousRead.FoldTable | doram_t2_3pc/page_program.py:1757-1798 | Contracting the relation coordinate in chunks of any public size leaves, at every entity, the row of the secret relation. |
| DirectoryReads.DirectoryAddress | doram_t2_3pc/page_program.py:879-917 | The address gates return validity exactly for keys some edge could have, and the gated row in both the affine and the ontology-blocked form. |
| CompactRead.CircuitBucketIs | doram_t2_3pc/page_program.py:1582-1608 | The slice of the exact product's bits is the hash bucket of the tag. |
| CompactRead.AndTree | doram_t2_3pc/page_program.py:1700-1711 | The balanced tree of products is one exactly when all bits are one. |
| CompactRead.XnorMeansEqual | doram_t2_3pc/page_program.py:1682-1711 | The bitwise comparison is all ones exactly when the two tags are equal. |
| CompactRead.Resolve | doram_t2_3pc/page_program.py:1656-1733 | Tag checks over a fetched bucket row rebuild the packed row of the matching descriptors. |
| DirectoryReads.ReadResidual | doram_t2_3pc/page_program.py:1609-1655 | On a store as tall as its selector, the hashed read (a matrix product) returns every owner's residual descriptor of a valid key, and zeros when gated off, partitioned by relation or not. |
| KeyReads.HybridDescriptor | doram_t2_3pc/type_blocked_directory.py:152-165 | At every key an edge could have, the ontology-blocked row and the hashed residual add up to the descriptor, and at most one of them is nonzero. |
| KeyReads.ReadUnfolded | doram_t2_3pc/page_program.py:1609-1733 | For every directory form, the unfolded read returns the packed row of the descriptors, or zeros when gated off. |
| FoldedReads.ReadFoldedDense | doram_t2_3pc/page_program.py:1799-1826 | The folded dense read equals the unfolded read at the combined address, for any chunk size and for gated-off slots. |
| FoldedReads.ReadFoldedBlock | doram_t2_3pc/page_program.py:951-995 | The folded ontology-block read fetches exactly the row the unfolded read fetches. |
| FoldedReads.ReadFoldedResidual | doram_t2_3pc/page_program.py:552-602 | The folded partitioned residual yields the same descriptors as the unfolded residual read. |
| FoldedReads.FetchSecond | doram_t2_3pc/page_program.py:919-995 | The second-hop read through whatever is folded (or not) meets the contract of the unfolded read, valid or gated off. |
| PageReads.UnpackSlotCases | doram_t2_3pc/page_program.py:1504-1518 | Inactive and unoccupied values become empty slots; an active stored edge becomes a valid slot with its own fields. |
| PageReads.ReadWindowSlots | doram_t2_3pc/page_program.py:1285-1333 | The shifted one-hot scan returns the masked fixed-width window and never leaves the pool. |
| PageReads.ReadOwnerSlots | doram_t2_3pc/page_program.py:756-856 | Descriptor slicing, range gating and the window scan together give the slots of the owner's own window, or of the empty one when gated off. |
| PagedCircuit.CompactFrontier | doram_t2_3pc/page_program.py:1354-1431 | Whichever compaction is rendered, the frontier carries the key's matches, cut only at a declared federation-wide bound. |
| PagedCircuit.RunProgram | doram_t2_3pc/page_program.py:1836-1899 | On deployed tables and page pools every query of a batch gets the ranked rows of its followed paths. |
| PagedCircuit.FrontierCost | doram_t2_3pc/page_program.py:1362-1393 | The circuit ranks a prefix of the query's paths, and all of them exactly when every match beyond the declared frontier leads nowhere; in particular when the oracle's frontier test passes. |
| PagedCircuit.RunCircuit | doram_t2_3pc/paged_shares.py:120-320 | From raw edges through layouts, shares with any draws and the servers' sums to the rendered program: it runs exactly when the owners' data fits, the hash tables have room and the selector is as tall as the hashed store, and then every query gets the ranked rows of its followed paths. |
| PagedCircuit.UnknownMatchesNothing | doram_t2_3pc/page_program.py:1836-1899 | Identifiers outside the catalogue, shared as zero, match nothing: all rows are zero. |
| PagedCircuit.AgreesWithOracle | doram_t2_3pc/page_program.py:403-1899 | On the same raw edges the oracle answers exactly under its own checks, the circuit runs exactly under its conditions, and every query both answer gets the same rows. |
| ScanCircuit.PackedOwnerVector | doram_t2_3pc/packed.py:144-174 | Accepted exactly when every edge packs and both bounds hold, and then the packed buckets mirror the padded ones. |
| ScanCircuit.ReadSlots | doram_t2_3pc/scan_program.py:151-200 | One oblivious block read, filtered by relation: exactly the kept slots, or empty slots when gated off. |
| ScanProgram.ScanCompactionLossless | doram_t2_3pc/scan_program.py:498-540 | Compacting each owner's range to the declared relation bound loses none of the first hop's matches. |
| ScanProgram.ScanAgreesWithOracle | doram_t2_3pc/scan_program.py:77-620 | On files the deployment accepts, the full-frontier circuit, the compacted circuit and the scan oracle return the same rows for every query. |
| OramTree.BuildTree | doram_t2_3pc/oram_layout.py:181-251 | Succeeds exactly when there are at least two uniform records and some attempt's draws overflow no leaf bucket; then the tree holds every record at its own slot, at the leaves of the first such attempt. |
| OramTree.Lookup | doram_t2_3pc/oram_layout.py:254-283 | Following the index's path returns the first matching entry, and rejects indices out of range. |
| OramTree.LookupFinds | doram_t2_3pc/oram_layout.py:267-283 | In a tree that holds the values, the lookup of every index finds its value. |
| OramStack.PlanSizes | doram_t2_3pc/relation_paged_oram_program.py:25-61 | The renderer's planner, which never sees records, computes exactly the level sizes the builder produces. |
| OramStack.SizesAtLeastTwo | doram_t2_3pc/oram_layout.py:343-380 | Every level planned over at least two records holds at least two, so every tree hides an address. |
| OramStack.BuildStack | doram_t2_3pc/oram_layout.py:343-380 | Terminates; succeeds exactly when every level's draws place it; every level then holds at least two records at the leaves drawn for that level in its first attempt that places, and each level's position map is stored `chi` to a record in the next. |
| OramStack.StackLookup | doram_t2_3pc/oram_layout.py:383-407 | Returns the original record at every index; the two position-map assertions cannot fail. |
| OramAccess.OpenedOnce | doram_t2_3pc/oram_layout.py:514-554 | Two non-repeated accesses of a level open different records. |
| OramAccess.RepeatsUpward | doram_t2_3pc/oram_layout.py:514-554 | A level answered from the stash forces the level above to be answered from the stash. |
| OramAccess.RevealedOnce | doram_t2_3pc/oram_layout.py:514-554 | In any faithful run: stash levels form an upper segment of every access, and a level opened for real opens a record not requested there before. |
| OramAccess.Simulate | doram_t2_3pc/oram_layout.py:467-561 | Runs exactly the in-budget, in-range sequences; every answer is the stored record, every revealed leaf is the real or the dummy one as it must be, and the reported high-water mark is the largest stash, at most the number of accesses. |
| OramCircuit.ReadPath | doram_t2_3pc/relation_paged_oram_program.py:356-389 | The opened path is scanned leaf to root, touches exactly its buckets, and finds the wanted record whenever the opened leaf is its own. |
| OramCircuit.SlotsDistinct | doram_t2_3pc/relation_paged_oram_program.py:356-389 | Two valid slots of a level never carry the same record, so a scan hits at most once. |
| OramCircuit.SlotsAreDictionary | doram_t2_3pc/relation_paged_oram_program.py:356-389 | The slot-per-access stash, holes included, holds exactly the dictionary stash of the same accesses. |
| OramReader.HighBitsAreIndex | doram_t2_3pc/relation_paged_oram_program.py:186-223 | The clipped high bits of an address are its index at a level. |
| OramReader.ReadLevel | doram_t2_3pc/relation_paged_oram_program.py:356-389 | One level read returns the record and opens the dummy leaf exactly when the record was read before. |
| OramSession.ReadOwner | doram_t2_3pc/relation_paged_oram_program.py:186-223 | One recursive access returns the stored record of the gated address, validity exactly for in-range requests, and keeps the stash correct. |
| OramSession.RunEpoch | doram_t2_3pc/relation_paged_oram_program.py:186-389 | A whole epoch is served exactly when the public schedule fits the stash, whatever the secret addresses are. |
| OramSession.CircuitRefines | doram_t2_3pc/relation_paged_oram_program.py:186-389 | With the same dummies the circuit opens the same leaves and returns the same records as the dictionary-stash simulation, and marks exactly the in-range requests valid. |
| OramEpoch.Reader.Access | doram_t2_3pc/relation_paged_oram_program.py:356-389 | A scheduled access uses the next public access number, returns the addressed record (or record zero) with its validity, and opens the leaves of the simulation: the record's own, or the drawn dummy on a repeat. |
| OramEpoch.ReadRelationKey | doram_t2_3pc/relation_paged_oram_program.py:424-444 | For any key at all: one directory access, `pages_per_key` page accesses, and cells equal to the key's own records padded with zeros. |
| OramProgram.ReadAll | doram_t2_3pc/relation_paged_oram_program.py:446-490 | One key read of the federation advances every owner by one read and carries exactly the owners' matches. |
| OramProgram.RunStacks | doram_t2_3pc/relation_paged_oram_program.py:446-514 | Both hops, compaction and ranking on loaded stacks: every query gets the ranked rows of its followed paths, and every owner ends at exactly the planned number of accesses. |
| OramBatch.ServeBatch | doram_t2_3pc/relation_paged_oram_program.py:446-514 | Loading fresh stacks with the planned budgets and running the batch leaves both budgets of every owner exactly spent, so neither schedule check can fire; every reader read its own owner's stack, and every access opened the leaves of the simulation with the dummies drawn for that owner and stack. |
| OramBatch.RenderableIs | doram_t2_3pc/relation_paged_oram_program.py:248-260 | The program renders exactly for a dense directory, a power-of-two branching of at least two, one to ten queries and no more rows than candidates. |
| OramBatch.RunBatch | doram_t2_3pc/relation_paged_oram_program.py:64-95 | From raw edges: the backend runs exactly when the configuration renders, the owners' data fits and every stack places, and then every query gets the rows of its followed paths. |
| OramBatch.BatchAgreesWithOracle | doram_t2_3pc/relation_paged_oram_program.py:248-514 | The evaluator answers exactly under its checks, with a dense directory and stacks that place; the rendered program runs exactly under its own; and every query both answer gets the same rows, for any draws and dummies. |
| MpParams.CeilSqrtIs | multiparty_fss/params.py:55-57 | The result is the smallest number whose square reaches the argument, and the number below it falls short. |
| MpParams.Create | multiparty_fss/params.py:68-101 | Parameters exist exactly for 1 to 30 domain bits, 3 to 10 parties and a threshold below the party count; the default threshold is the largest strict minority. |
| MpParams.RowWidth | multiparty_fss/params.py:112-120 | The row width is the least whose square reaches 2^(n + p - 1). |
| MpParams.GridCovers | multiparty_fss/params.py:114-134 | Every domain point has exactly one cell of the grid, and no row is useless. |
| MpParams.DomainBitsForUniverse | multiparty_fss/params.py:169-181 | Returns the fewest supported bits that rank every point of the universe. |
| MpParity.ColumnsAreAll | multiparty_fss/parity.py:38-47 | The columns are exactly those of the wanted parity, each once, ascending. |
| MpParity.ParityCount | multiparty_fss/parity.py:38-47 | There are as many columns of one parity as a row has seeds. |
| MpParity.SampleParityArray | multiparty_fss/parity.py:50-55 | The array is the parity columns shuffled by the draws, so a permutation of them. |
| MpParity.OneArray | multiparty_fss/parity.py:50-55 | Every ordering of the parity columns comes from exactly one sequence of drawn positions. |
| MpParity.ExclusiveSeed | multiparty_fss/parity.py:38-60 | In an odd array every party holds a seed no other party holds. |
| MpParity.HolderSum | multiparty_fss/parity.py:58-60 | A word xored once per holder survives exactly when the column has odd parity. |
| MpKeygen.Generate | multiparty_fss/keygen.py:42-132 | For any randomness: keys exist exactly for points of the domain, and they are shares of the point function with the drawn seeds, with each row's columns shuffled by its own draws, and with the drawn correction words in all places but the last. |
| MpKeygen.SolvedWord | multiparty_fss/keygen.py:94-108 | The solved last correction word makes the contributions of the special row sum to the target. |
| MpDpf.RowVector | multiparty_fss/evaluate.py:26-38 | A row's vector is, word by word, the sum over the held, nonzero blocks. |
| MpDpf.EvaluateMany | multiparty_fss/evaluate.py:47-62 | Accepts exactly points of the domain, and returns the same shares as point-by-point evaluation. |
| MpKeygen.EvaluateUniverse | multiparty_fss/evaluate.py:65-78 | Accepts exactly universe sizes within the domain, and returns the share of every rank. |
| MpDpf.SharesCombine | multiparty_fss/evaluate.py:26-78 | For every generator, permutation and seeds, the parties' shares xor to the point function plus exactly the contributions of the special row's zero seeds. |
| MpDpf.PointFunction | multiparty_fss/keygen.py:42-132 | With nonzero seeds the shares of all parties xor to beta at alpha and zero at every other domain point. |
| MpDpf.ZeroSeedsMatter | multiparty_fss/keygen.py:35-39 | If the zero seeds' contributions do not cancel, the shares miss the point function: redrawing is necessary. |
| MpProjection.CombineVectors | multiparty_fss/combine.py:65-87 | Accepted exactly for one vector per party of one length; the result is their word-wise xor. |
| MpProjection.Project | multiparty_fss/projection.py:114-130 | Accepted exactly for a valid projection of a nonempty universe; every slot receives the xor of the shares routed to it. |
| MpProjection.ProjectionIsLinear | multiparty_fss/projection.py:114-130 | Projecting every party's shares and then combining equals combining and then projecting. |
| MpProjection.SlotsOfPointFunction | multiparty_fss/projection.py:114-130 | After projection and combination, each slot holds beta if alpha names a point routed to it, and zero otherwise. |
| MpProjection.CombineResponses | multiparty_fss/requests.py:338-410 | Accepted exactly for one coherent response per party, and then the xor of the parties' vectors in whatever order they arrived. |
| MpProjection.CandidateValues | multiparty_fss/projection.py:138-143 | Keeps exactly the candidates that some nonzero slot names, each with the value of the last slot that names it. |
| MpSession.Answer | multiparty_fss/requests.py:338-410 | A whole request: accepted on public grounds only, and then every slot receives beta in alpha's own slots and zero elsewhere, alpha inside or outside the universe, any arrival order. |
| TreeDpf.PathInvariant | multiparty_fss/baselines.py:88-129 | At every node of every level: control bits differ on alpha's path, and the states agree off it. |
| TreeDpf.Generate | multiparty_fss/baselines.py:88-129 | For any two root seeds, keys exist exactly for points of the domain, carry their own drawn seeds and satisfy the key relation. |
| TreeDpf.KeysUnique | multiparty_fss/baselines.py:88-129 | The generator, the point, the value and the two drawn seeds determine both keys, and with them every share. |
| TreeDpf.OwnSeedAlone | multiparty_fss/baselines.py:131-149 | While its own walk sets no control bit, the first party's share is a function of its own seed alone. |
| TreeDpf.OtherSeedMatters | multiparty_fss/baselines.py:88-149 | In general it is not: with the same own seed and two different seeds of the other party, the first party's share differs. |
| TreeDpf.SharesSum | multiparty_fss/baselines.py:131-190 | For every expansion, the two shares sum modulo 2^64 to beta at alpha and to zero at every other point. |
| TreeDpf.EvaluateFull | multiparty_fss/baselines.py:150-186 | The pruned level-order sweep accepts exactly universes within the domain and returns the point-by-point share of every rank. |
| OverflowPolynomial.OverflowCoefficients | doram_t2_3pc/bound_check_program.py:51-85 | Accepted exactly for 0 <= bound < maximum < p; the polynomial is 1 above the bound and 0 up to it on the whole domain 0..maximum, modulo the prime. |
| OverflowPolynomial.HornerPass | doram_t2_3pc/bound_check_program.py:158-166 | The Horner pass evaluates the coefficients modulo the prime. |
| BoundCheck.OwnerOccupancy | doram_t2_3pc/relation_pages.py:656-681 | An owner's vector counts, row by row, its edges under the row's key. |
| BoundCheck.BoundCircuit | doram_t2_3pc/bound_check_program.py:104-174 | The opened sum is the number of rows above the bound, modulo the prime. |
| BoundCheck.CheckFederation | doram_t2_3pc/bound_check_program.py:104-174 | From the owners' edges through their shares: refused exactly when the bound or the maximum is out of range, and otherwise the opened value is the number of keys whose federation-wide degree exceeds the bound; it is zero exactly when every key respects it. |
| BoundCheck.CheckGlobalFrontier | doram_t2_3pc/relation_pages.py:684-738 | The cleartext check accepts exactly when no named key exceeds the bound. |
| BoundCheck.NamesAgree | doram_t2_3pc/relation_pages.py:684-738 | With distinct identifiers, the check by names and the degrees by keys agree. |
| BoundCheck.ZeroIsLossless | doram_t2_3pc/relation_pages.py:684-738 | If every key respects the bound, the circuit ranks all paths of every query. |
| Sharing.ShareVector | doram_t2_3pc/sharing.py:24-32 | Refuses exactly a value outside the field; otherwise every position is split, with its own two draws as the first two pieces. |
| Sharing.TwoPiecesAreUniform | doram_t2_3pc/sharing.py:12-21 | Three out of three: for every value, each pair of field elements is any given two of the three pieces for exactly one pair of draws. |
| Sharing.ReconstructIff | doram_t2_3pc/sharing.py:35-41 | Three canonical pieces reconstruct to a field element exactly when they split it. |
| Sharing.VectorReconstructs | doram_t2_3pc/sharing.py:12-41 | A shared vector comes back position by position. |
| Sharing.TotalsReconstruct | doram_t2_3pc/paged_shares.py:395-450 | The servers' accumulated totals reconstruct to the owners' summed values exactly when those are field elements. |
| Sharing.SumThroughShares | doram_t2_3pc/paged_shares.py:256-320 | Every owner shares its row on its own, each server adds its shares, and the three totals reveal the owners' sum, whenever that sum is in the field. |
| DirectoryShares.RowReconstructs | doram_t2_3pc/paged_shares.py:256-320 | Shifting and adding shares owner by owner commutes with reconstruction: the three columns give the packed element, below the prime, with every owner's descriptor at its own column and offset. |
| DirectoryShares.ShareAndAssemble | doram_t2_3pc/paged_shares.py:256-320 | From the owners' layouts, through shares with any draws, to exactly the affine directory the circuit reads. |
| DirectoryAssembly.BucketReconstructs | doram_t2_3pc/paged_shares.py:256-320 | The accumulated shares of a bucket reconstruct, slot by slot, to a row that holds every owner's own keys. |
| Pooling.ConcatenateOwnerPools | doram_t2_3pc/volume_hiding.py:106-135 | Accepted exactly when no two owners hold the same key; every key's pages then lie in one block of the pool, owner by owner and within an owner by ascending key. |
| BlockShuffle.BlockPermutation | doram_t2_3pc/volume_hiding.py:182-212 | For any descriptors and draws: fails exactly when a descriptor leaves the pool or the counts do not add up to it, and when no two descriptors share a page the result is a bijection that moves every key's pages as one block, in the order the draws deal to the blocks by ascending base. |
| BlockShuffle.OneShuffle | doram_t2_3pc/volume_hiding.py:194-200 | Every ordering of the blocks comes from exactly one sequence of draws. |
| BlockShuffle.ApplyPermutation | doram_t2_3pc/volume_hiding.py:138-179 | For any descriptors: accepted exactly for bijections of the pool under which every descriptor's pages exist and stay together; any accepted permutation preserves every lookup. |
| BlockShuffle.PoolOwners | doram_t2_3pc/volume_hiding.py:97-212 | End to end: pooling is refused exactly for a key two owners hold, and otherwise the shuffled pool answers every lookup with the original pages in order. |

## Left out

- The MP-SPDZ runtime, its compiler and protocols: the circuits are modelled by the meaning of their operations on cleartext values.
- Field wrap-around inside the retrieval circuits: secret cells are unbounded integers, since every packed value is declared to fit the usable bits; field reduction is modelled where it is the point (`Sharing`, `DirectoryShares`, `BoundCheck`, the point functions).
- Floating-point sizing (`tree_shape`, `secure_tree_shape`, capacity bounds): bucket size and depth are arbitrary functions of the record count.
- Probability and privacy: draws are inputs; no distribution, simulator or leakage statement is made.
- SHAKE-256 and SHA-256: the generator is an arbitrary function, identities and digests are abstract.
- Files, JSON, sockets, base64, epoch marker files, manifests, command lines.
- Cost estimates and capacity reports.
- Twin backends that repeat a modelled algorithm (`kg_oram*.py`, `oram_access*.py`, `program.py`, `scalable_program.py`, `sqrt_program.py`).
- Ablation renderings that only duplicate work: the per-slot relation check, the selector per offset, the frontier aliasing, and the owner-by-owner scan batching. The fold ablations are modelled.
- DirectoryReads.ReadResidual: a hashed store of one row is not read, because the source multiplies it there by a two-row selector; what MP-SPDZ would do with the mismatched product is not modelled.
- BlockShuffle.BlockPermutation: for hand-built descriptors that share a page only acceptance is stated; blocks with equal bases, which then overlap or are empty, are ordered by count and key instead of by insertion.
- A hashed dense directory with `partition_residual_by_relation`: `RelationPageParameters.validate` accepts it (`relation_pages.py:184-188`), but loading a configuration without type blocks refuses it (`relation_pages.py:330-333`), and `PageConfig.Config.Valid` excludes it.
- Query shares: the circuit takes the secret identifiers as given; they are the vector case of `Sharing`.
- TreeDpf.OwnSeedAlone: one direction only; whether a share follows the other party's seed once a control bit is set depends on the generator, and a constant one hides it.
- Sharing.SumThroughShares: which pieces each server receives inside the sum is stated where they are made (`Sharing.ShareRows`, `DirectoryShares.ShareDirectories`), not again for the assembled tables.
- OramSession.RunEpoch: models one stack; the order in which the program interleaves owners and stacks is modelled in `OramProgram`, and which leaves each reader opens in `OramEpoch.Reader`.
- OramBatch.RunBatch: takes the stacks as built by the owners; the sharing of their flattened memory among the three servers is the vector case of `Sharing` and is not repeated here.
- MpSession.Answer: requires nonzero seeds, as key generation redraws zero ones; what zero seeds would do is `MpDpf.SharesCombine`. Network failures and repeated deliveries are outside the model: each response arrives once.
- PagedCircuit.AgreesWithOracle: assumes the renderer's own checks (`DirectoryAssembly.Renderable`), a prime that carries the usable bits (`DirectoryAssembly.FieldCarries`) and a positive fold chunk; how the program text is produced is not modelled.
- ORAM page reads of inactive offsets go to page 0, as in the source; nothing is claimed about what an observer of addresses could infer.
