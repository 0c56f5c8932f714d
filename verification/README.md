# aiebu control-code assembler: verified model

This project models the back end of an assembler for AI-engine control code and proves how its
passes fit together.

* **Layout.** `AssemblerState` walks the tokens of a program once and records positions, jobs, barriers,
  labels and launches; `Applied` says which programs it accepts and which descriptor tables it records. The same walk
  runs again over every finished page.
* **Paging.** `Pager` gathers the jobs that must live together (a barrier worklist, the launched jobs,
  the labels they refer to), packs groups greedily into 8192-byte pages, and `Column` chains the pages
  of all page labels of a column, looks up branch lengths and places scratchpads behind the last page.
  `Acceptance`, `Packing`, `Listing`, `Partition`, `Closure`, `Unfollowed`, `SharedLabels` and `Tables` say which
  programs are accepted, what is on their pages and why a page ends where it ends. `PyPaging` is the second implementation of the
  pager; `Forget` and `PyPager` compare the two, `PyLaws` says what the second promises of every program.
* **Writing.** `Encoder` serializes each page through `Writer`, adds scratchpad addresses to 57-bit
  descriptor fields in place and pads the page. `PageAccepts` says which pages it can encode,
  `TableLookup` when it finds the descriptor tables of the first pass, and `Assembly` carries the pager's promises
  over to the written column. `TextWalk` steps through a written page as the firmware does; `PageValues` and `PageData`
  say what is read there, from the page's own lines: operands, descriptors, words, relocations. `Samples`,
  `TableSamples`, `PatchSamples` and `BranchSamples` hold the concrete programs.
* **Instruction set.** `Isa` holds the instruction table and what the firmware's generated dispatchers
  read; `UcDma` holds the descriptor encoders and the decoder of a chain.
* **Transactions.** `Txn`, `TxnBuffer`, `TxnRoom` and `TxnHarmless` model the relocation walk over an AIE2
  transaction buffer that it clears as it goes, with concrete buffers in `TxnSamples`, and `TxnMeaning` says what its
  relocations are; `TxnAsm`, `TxnRoundTrip` and `TxnTools` model the transaction assembler and the printer that undoes
  it, `TxnProgram` and `TxnPrint` what they accept and produce, line by line.
* **Control packets.** `Packets` models recognising and printing buffers of control packets, `PacketFields` their bits.

Code that the original writes as loops over mutable state is a method or a class here, proved equal to a
specification function; the properties are lemmas about those functions. `dafny verify dfyconfig.toml`
checks everything.

## Conventions

* Names (labels, scratchpads, page labels) are numbers; two names are equal exactly when the strings are.
* A number in the text keeps its spelling: jobs are told apart by operand text, so `1` and `0x1` are two jobs.
* An exception is `Err`; `Err(Crash)` marks a use the original leaves undefined, such as following a null
  pointer or reading past a buffer.
* A *well-formed program* is a `Structure.Source`: bracketed jobs of instructions and `.eop` lines, one
  `eof`, then labels with their data, `.align` only at the tail of a label's data.
* `Ready(v, ranks)` says that launches and label references have no cycles; `ranks` is a witness. The
  original recurses without end on a cycle.
* Sizes and offsets inside transaction headers come from a library that is not part of this model. They are
  parameters (`TxnLayout.Layout`), constrained as C structures are; `TxnLayout.SampleIsValid` shows that the
  constraints can be met.

## Where the code and its stated intent differ

* A comment at `src/cpp/preprocessor/asm/pager.cpp:334-336` says that jobs and labels already on the page are
  left out. They are not. A label used by two groups of one page is listed twice and the second layout
  pass refuses the page: `Samples.SharedLabelProgram` is such a program, `SharedLabels.PageLayoutAccepted` says
  exactly which pages are refused, `SharedLabels.UnsharedAccepted` and `PageAccepts.PagesEncode` what a program
  can be checked for beforehand, and `PageAccepts.DraftAccepts` everything the writer asks of a page.
* `src/cpp/preprocessor/asm/pager.cpp:369` appends every group's page labels without looking for repetitions, and a
  page has two fields for them (`src/cpp/preprocessor/aie2ps/aie2ps_preprocessor.h:91-106`). A page label named by two
  groups of a page takes both fields, named by three the column is refused: `BranchSamples.RepeatedBranches` is such a
  program, `Packing.PagifyBranches` says which labels a page lists, and `Assembly.RepeatedLabelRefused` that such a
  page is refused in every program.
* The last-page fix-up at `src/cpp/preprocessor/asm/pager.cpp:376-377` indexes from the column's first page.
  `LastPage.LastFlag` says exactly which page is flagged, `LastPage.FinalPageFlagged` exactly when it is the
  right one, and `Samples.TrailingEopMisflags` is a column where it is not.
* No gap bytes are written between scratchpads, although their offsets are rounded up to 4;
  `Column.GapMissing` is a column where the second pad's byte is not at its offset, `Column.PadsInPlace` says exactly
  when that does not happen, and `Assembly.PadsWhereAdded` that the addresses added to descriptors are then right.
* The entries of an `apply_offset_57` are looked up a second time in the page's own label list, which the pager
  has collected in another order and sorted. `TableSamples.TableRunsOut` is a program whose page is refused for it,
  `PatchSamples.TableMisses` one whose page is written with a scratchpad address added to the wrong descriptor.
  `TableLookup.LookupAgrees` says exactly when both lookups agree, in terms of the labels one job's group collects;
  `TableLookup.ApartAgrees` and `Assembly.ProgramPatched` give a condition on the program and what then is added to
  every descriptor.
* The label recursion does not follow what the entries of a table refer to. `TableSamples.EntryLeadsOutside` is a
  program whose page lacks a label for it; `Unfollowed.PageContained` says exactly which pages lack one.
* The text printed for a PDI load cannot be parsed again, and text attached to no column is taken to mean
  column 0; `TxnRoundTrip.ReassemblyFixedPoint` says exactly when reassembly works, and
  `TxnRoundTrip.PdiNotReassembled` is a program for which it does not.
* The relocation walk clears ten bytes from a slot on, however few of them the payload holds.
  `TxnSamples.PartialSlotSpills` and `TxnSamples.EmptyWriteSpills` are buffers on which it rewrites the operation
  behind the payload; `TxnHarmless.ClearsStayInside` says exactly when it stays inside the payloads, and
  `TxnHarmless.ClearingHarmless` that it then disturbs nothing.
* The second pager never adds the entries of a table. `PyPager.PagersAgree` says exactly when the pages agree all
  the same, and `Samples.PagersDiffer` is a program on which they do not. Nor does it follow the launches of a launched
  job: `PyLaws.PyGathersLess` says exactly when it gathers the same jobs, and `PyLaws.ChainCut` is a case where not.

## Model

| member | source | states |
|---|---|---|
| AssemblerState.State.Process | src/cpp/common/assembler_state.cpp:31-153 | one pass over the tokens leaves position, jobs, labels, barriers and dependent labels exactly as the fold of the single-token step says, and fails on exactly the same programs |
| AssemblerState.State.Visit | src/cpp/common/assembler_state.cpp:41-138 | one token changes every field and local of the pass as the step function says, or fails as it does |
| AssemblerState.State.Instruction | src/cpp/common/assembler_state.cpp:53-135 | an instruction line: job opening, its size, the bookkeeping after it and the label count, in this order, each failure kept |
| AssemblerState.State.Open | src/cpp/common/assembler_state.cpp:55-70 | `start_job` and `eof` create their job at the position before their own bytes; a job repeated with the same spelling is refused |
| AssemblerState.State.Close | src/cpp/common/assembler_state.cpp:76-126 | after the size is added: barrier, launch, job end and apply bookkeeping; outside a job the failure is kept |
| AssemblerState.State.Count | src/cpp/common/assembler_state.cpp:128-135 | a token after a label adds one line and its bytes to that label, except `.align`, `.eop` and `eof` |
| AssemblerState.State.Resolve | src/cpp/common/assembler_state.cpp:139-151 | every multi-entry table gets exactly the labels from its own on; a table past the label list is refused |
| AssemblerState.State.TableAt | src/cpp/common/assembler_state.h:205-218 | reading a table entry by entry gives the slice of the label list, or fails when it runs out |
| Program.ScanPlaces | src/cpp/common/assembler_state.cpp:41-138 | for every token list: each label's and job's recorded position is the sum of the sizes of the tokens before it, and a closed job ends where its last token ends |
| Structure.JobScan | src/cpp/common/assembler_state.cpp:55-115 | scanning a bracketed job adds exactly its record: extent, size, barriers, launches, `.eop` number |
| View.LayoutPass | src/cpp/common/assembler_state.cpp:32-138 | a well-formed program is accepted exactly when job names and label names are distinct, and then every record describes the tokens it came from |
| View.BuildValid | src/cpp/common/assembler_state.cpp:16-27 | the state handed to the pager satisfies the invariant all pager results rest on |
| Applied.BuildAccepts | src/cpp/common/assembler_state.cpp:117-151 | a well-formed program is built if and only if job names and label names are distinct and every table that the last `apply_offset_57` of a label announces is there; the tables are then exactly those, each holding the labels from its own on |
| Program.AlignGap | src/cpp/ops/ops.cpp:20-26 | the gap is smaller than the alignment and leads to a multiple of it |
| Isa.StubsAgree | specification/aie2ps/isa_stubs.h:28-93 | for every instruction the assembler's size is the firmware's opsize, the opcode selects the same instruction, and the dispatcher's operand offsets and widths are the ones the table lays out |
| Isa.DispatcherReadsOperands | specification/aie2ps/isa_defines.h:49-316 | pointed at a serialized instruction anywhere in a text, the dispatcher reads every operand back, truncated to its width |
| Isa.WalkRecoversProgram | specification/aie2ps/isa_defines.h:320-351 | stepping by opsize over any serialized text recovers the instruction sequence in front of its `eof`, every operand truncated to its field, whatever stands behind |
| Isa.FittingRecovered | specification/aie2ps/isa_defines.h:320-351 | operands that fit their fields come back unchanged |
| Jobs.MatesSymmetric | src/cpp/preprocessor/asm/pager.cpp:82-96 | sharing barriers transitively is symmetric |
| Jobs.MatesTransitive | src/cpp/preprocessor/asm/pager.cpp:82-96 | and transitive, so barrier mates are equivalence classes |
| Jobs.LoopCloses | src/cpp/preprocessor/asm/pager.cpp:79-96 | the worklist ends with exactly the seed's barrier mates, once each, seed first; it fails exactly when a mate lies in another `.eop` region |
| Jobs.ExtractCloses | src/cpp/preprocessor/asm/pager.cpp:73-105 | on acyclic launches the result is duplicate-free and is exactly the barrier closures of the jobs reachable by launches; it fails exactly when one of those closures crosses an `.eop` |
| Jobs.NoLaunchGroups | src/cpp/preprocessor/asm/pager.cpp:97-104 | without launches a group is one barrier class |
| Pager.UnionOfListsInorder | src/cpp/preprocessor/asm/pager.cpp:12-35 | both lists' elements, first occurrences only, in order |
| Pager.MergeBarriers | src/cpp/preprocessor/asm/pager.cpp:86-93 | the jobs of one barrier: refuse another region, append their barriers |
| Pager.ExtractJobs | src/cpp/preprocessor/asm/pager.cpp:72-105 | worklist loop and launch recursion compute the closure described by `Jobs.ExtractCloses` |
| Labels.FromLinesCollects | src/cpp/preprocessor/asm/pager.cpp:107-144 | the label recursion returns, once each, exactly the labels reachable through references with their dependents; it fails exactly when one is undefined |
| Listing.RefsAre | src/cpp/preprocessor/asm/pager.cpp:116-124 | the labels lines refer to: those an `@` operand of some line names, except scratchpads and what `load_pdi` and `preempt` name |
| Listing.FromLinesLists | src/cpp/preprocessor/asm/pager.cpp:107-144 | they are returned in the order of a depth-first walk: a label, the rest of its table, what its own data refers to, then the next reference, each where it is met first |
| Pager.ExtractLabels | src/cpp/preprocessor/asm/pager.cpp:107-144 | the operand loop with its nested line loop computes that collection |
| Pager.ExtractFromLines | src/cpp/preprocessor/asm/pager.cpp:136-140 | the line loop accumulates the labels of each line |
| Pager.ExtractExternalLabels | src/cpp/preprocessor/asm/pager.cpp:146-170 | page labels of an out-of-order instruction, once each |
| Pager.CollectLabels | src/cpp/preprocessor/asm/pager.cpp:186-198 | labels, page labels and text size of a group's jobs |
| Pager.ExtractJobsAndLabels | src/cpp/preprocessor/asm/pager.cpp:172-199 | jobs, labels, page labels and text size of a seed's group |
| Pager.DataSectionSize | src/cpp/preprocessor/asm/pager.cpp:46-70 | the sum of the labels' sizes, or a failure when a label has no known alignment |
| Pager.LabelAlignmentSorter | src/cpp/preprocessor/asm/pager.cpp:201-228 | 16-byte labels first, then 4-byte labels, both in their old order |
| PageLaws.SortedFacts | src/cpp/preprocessor/asm/pager.cpp:201-228 | the sort is a permutation and keeps the total size |
| Listing.SortedOrder | src/cpp/preprocessor/asm/pager.cpp:201-228 | labels of 16 bytes stand ahead of those of 4, both in the order they had |
| PageLaws.GroupHolds | src/cpp/preprocessor/asm/pager.cpp:172-199 | a group's jobs, labels and sizes are exactly what its seed needs |
| Listing.GroupLists | src/cpp/preprocessor/asm/pager.cpp:172-199 | its labels are listed in that depth-first order of its jobs' lines |
| Acceptance.GroupFormable | src/cpp/preprocessor/asm/pager.cpp:172-199 | without launches: a group is formed exactly when its barrier class lies in one `.eop` region, every label it reaches is defined and every label it uses has a known alignment |
| Pager.Paging.AssignPageNumber | src/cpp/preprocessor/asm/pager.cpp:230-295 | appends the page, numbers its jobs and tells the previous page of the call its length, as the specification step says |
| Pager.Paging.Turn | src/cpp/preprocessor/asm/pager.cpp:310-367 | one job id of the greedy loop |
| Pager.Paging.Pagify | src/cpp/preprocessor/asm/pager.cpp:297-379 | the greedy loop produces exactly the specified pages or fails exactly when specified |
| PageLaws.ConcludeKeeps | src/cpp/preprocessor/asm/pager.cpp:230-295 | ending a page keeps every earlier page but its successor's length, and the new page holds the open jobs and sorted labels |
| PageLaws.PagifyLaws | src/cpp/preprocessor/asm/pager.cpp:297-379 | every new page has its own number, holds exactly the tokens of its jobs and sorted labels, records its exact length, fits, and announces its successor's length; every ordinary job is on one; earlier pages keep all but a flag |
| Packing.PagifyPacks | src/cpp/preprocessor/asm/pager.cpp:334-369 | for every accepted program each new page holds a list of groups and nothing else, its jobs, labels and page labels those of the groups in order; and each but the last ends because an `.eop` follows or because header, text, `eof`, gap and data with the next group would exceed the page |
| Packing.PagifyBranches | src/cpp/preprocessor/asm/pager.cpp:146-196 | on every new page: a name is among the page labels if and only if a `load_pdi` or `preempt` line of the page's jobs has it as an `@` operand, and they come in the order of first appearance |
| PageLaws.FootprintFits | src/cpp/preprocessor/asm/pager.cpp:336-355 | jobs and labels fit a page exactly when 16 bytes, the text, 4 bytes, the gap to a multiple of 16 and the data are at most its size |
| Acceptance.FitsMeans | src/cpp/preprocessor/asm/pager.cpp:334-349 | a job fits exactly when its group can be formed and fits in this sense |
| Partition.PagifyPartitions | src/cpp/preprocessor/asm/pager.cpp:297-379 | without launches: every ordinary job is on exactly one page exactly once, barrier mates share its page, no page mixes two `.eop` regions |
| Acceptance.PagifyAccepts | src/cpp/preprocessor/asm/pager.cpp:297-379 | without launches: the program is accepted if and only if every ordinary job's group can be formed and fits a page of its own, so packing never fails |
| Closure.PagifyContained | src/cpp/preprocessor/asm/pager.cpp:107-199 | every `@` label used by text or data of a page is defined on that page |
| Unfollowed.PageContained | src/cpp/preprocessor/asm/pager.cpp:122-141 | for every page of every launch-free program: all labels its text and data refer to are on it if and only if whatever its unfollowed table entries refer to is used by its jobs otherwise |
| TableSamples.EntryLeadsOutside | src/cpp/preprocessor/asm/pager.cpp:131-141 | a program whose page holds a table entry that refers to a label the page lacks: the writer refuses it |
| SharedLabels.PagifyTallied | src/cpp/preprocessor/asm/pager.cpp:318-366 | on every page of every launch-free program each label occurs once for every barrier class of the page that uses it |
| SharedLabels.PageLayoutAccepted | src/cpp/encoder/aie2ps/aie2ps_encoder.cpp:147-151 | for every page of every launch-free program: the second layout pass accepts it if and only if no two jobs on it that are not barrier mates use a common label |
| SharedLabels.UnsharedAccepted | src/cpp/preprocessor/asm/pager.cpp:334-366 | checkable before paging: when no label is used by two jobs of one `.eop` region that are not barrier mates, no page is refused, however the jobs are packed |
| Samples.SharedLabelProgram | src/cpp/preprocessor/asm/pager.cpp:334-366 | a program of two jobs that use one label: the pager puts both on one page, and the writer refuses that page |
| BranchSamples.RepeatedBranches | src/cpp/preprocessor/asm/pager.cpp:367-369 | a program of three jobs that load one page label: the pager puts all three on one page, which lists the label three times, and the column is refused whatever the label's page |
| Tables.BuiltTables | src/cpp/common/assembler_state.cpp:139-151 | every table of the first pass starts with its own label and repeats nothing |
| Tables.PagifyWhole | src/cpp/preprocessor/asm/pager.cpp:107-228 | tables that do not overlap, are of one alignment and are referred to by their own name only stand whole, in order and uninterrupted, on every page that holds one of their labels |
| Tables.TableIsPassOnes | src/cpp/ops/ops.cpp:99-132 | on a page without duplicates the table the writer looks up is the first pass's if and only if its labels stand one after another in the page's label list |
| TableLookup.PagifyBrings | src/cpp/preprocessor/asm/pager.cpp:107-228 | on every page of a launch-free program the labels of each group, formed for the first job of its class in the job list, stand in two uninterrupted parts, those of each alignment in the order of collection |
| TableLookup.LookupAgrees | src/cpp/ops/ops.cpp:99-132 | for every launch-free program and every page the second layout pass accepts: a table of one alignment is found as the first pass recorded it if and only if its labels stand one after another in the sorted labels of its job's group |
| TableLookup.ApartAgrees | src/cpp/ops/ops.cpp:99-132 | when tables are apart, every table looked up on every page the writer encodes is the one the first pass recorded |
| TableSamples.TableRunsOut | src/cpp/ops/ops.cpp:99-109 | a job that uses descriptor 1 before the table of 0 and 1: the page lists 1 ahead of 0, the lookup runs past the list's end and the page is refused |
| PatchSamples.TableMisses | src/cpp/ops/ops.cpp:125-139 | the same with a descriptor 2 used afterwards and a scratchpad: the page is encoded, the pad's address is added to descriptors 0 and 2 and not to 1 |
| LastPage.LastFlag | src/cpp/preprocessor/asm/pager.cpp:371-377 | exactly which page gains the last-page flag, for every launch-free program |
| LastPage.FinalPageFlagged | src/cpp/preprocessor/asm/pager.cpp:371-377 | the final new page is flagged if and only if a job follows the last `.eop` or the column was empty before |
| Samples.TrailingEopMisflags | src/cpp/preprocessor/asm/pager.cpp:371-377 | two page labels of one column: the first gives two pages, the second of them flagged; paging the second label flags neither its own page nor that one but the column's first page |
| PyPaging.PyExtractJobs | src/python/aiebu/ctrlcode/pager/pager.py:57-81 | the worklist without launch recursion |
| PyPaging.PyGather | src/python/aiebu/ctrlcode/pager/pager.py:109-124 | the filtered group with labels and sizes |
| PyPaging.PyPages.AssignPageNumber | src/python/aiebu/ctrlcode/pager/pager.py:83-107 | appends the page and chains its length |
| PyPaging.PyPages.Turn | src/python/aiebu/ctrlcode/pager/pager.py:182-239 | one job id of the second greedy loop |
| PyPaging.PyPages.Pagify | src/python/aiebu/ctrlcode/pager/pager.py:164-248 | the second greedy loop |
| PyLaws.PyExtractCloses | src/python/aiebu/ctrlcode/pager/pager.py:57-81 | once each and seed first, the seed's barrier mates and the jobs it launches itself; refused exactly when a mate lies behind an `.eop` |
| PyLaws.PyGathersLess | src/python/aiebu/ctrlcode/pager/pager.py:57-81 | for every job graph without launch cycles: no more jobs than the first pager gathers, and no more refused; as many if and only if whatever is pulled in is a barrier mate of the seed or launched by it |
| PyLaws.ChainCut | src/python/aiebu/ctrlcode/pager/pager.py:78-79 | a job that launches a job that launches a third: the first pager gathers the third, the second does not |
| PyLaws.PyGroupHolds | src/python/aiebu/ctrlcode/pager/pager.py:109-124 | the group a job brings: those of these jobs that the page lacks, exactly the labels their lines reach, their page labels and sizes |
| PyLaws.PyPagifyLaws | src/python/aiebu/ctrlcode/pager/pager.py:164-248 | for every accepted program, launches included: pages are numbered in order; each holds exactly the tokens of its jobs and an `eof`, exactly the labels these reach and the page labels they branch to; it fits, records its length and announces its successor's; only the final one is flagged; every ordinary job is on one |
| Forget.Forgetting | src/cpp/preprocessor/asm/pager.cpp:122-131 | what following table entries adds, for every launch-free program: without it no accepted program is refused, and the pages stay the same up to label order if and only if every label of a table is also referred to outside any table by a job of the same class |
| PyPager.TablesIgnored | src/python/aiebu/ctrlcode/pager/pager.py:24-43 | whatever the program, the second pager does the same when its tables are forgotten |
| PyPager.SameWithoutTables | src/python/aiebu/ctrlcode/pager/pager.py:164-248 | without launches and tables: the same programs accepted, the same jobs, labels, data, numbers and lengths on every page, in the same order |
| PyPager.SkipIsNoOp | src/python/aiebu/ctrlcode/pager/pager.py:116 | on every launch-free program the skip filter removes nothing: a job that is nowhere yet gets the group it would get on an empty page |
| PyPager.PagersAgree | src/python/aiebu/ctrlcode/pager/pager.py:164-248 | on every launch-free program: what the first pager accepts the second accepts; pages of both agree up to label order if and only if tables add nothing, and then both accept the same programs; the second flags exactly its final page |
| Samples.PagersDiffer | src/python/aiebu/ctrlcode/pager/pager.py:24-43 | a program with a two-entry table that both pagers accept, with different labels on the page |
| Encoder.OperandBytes | src/cpp/ops/ops.cpp:29-157 | opcode, zero byte, then every operand's bytes in table order, or the first failure |
| Encoder.Requests.SerializeIsa | src/cpp/ops/ops.cpp:29-157 | instruction bytes, with `apply_offset_57` asking for one relocation per table entry, and for one patch per entry when it names a pad |
| Encoder.Requests.Relocate | src/cpp/ops/ops.cpp:98-108 | the loop over a table's entries: one relocation per descriptor, in the table's order, all of one name |
| Encoder.Requests.Serialize | src/cpp/ops/ops.cpp:159-236 | the serializer of each token kind |
| Serialize.EmitTokSize | src/cpp/ops/ops.cpp:11-26 | every serializer emits exactly as many bytes as its size promises |
| Serialize.EmitAllSize | src/cpp/ops/ops.cpp:11-26 | a run of tokens ends exactly where the layout pass said |
| Serialize.TokenOffset | src/cpp/encoder/aie2ps/aie2ps_encoder.cpp:159-212 | token `k` is written at exactly the offset the layout pass gave it, and the output holds its bytes there |
| PageImage.HeaderDecodes | src/cpp/encoder/aie2ps/aie2ps_encoder.cpp:130-143 | two 0xFF bytes, the 16-bit fields that decode to number, branch lengths, own and next length, four zeros |
| PageImage.PageLayout | src/cpp/encoder/aie2ps/aie2ps_encoder.cpp:147-151 | the second pass accepts a page exactly when no job and no label occurs on it twice |
| PageProofs.DraftIsEmit | src/cpp/encoder/aie2ps/aie2ps_encoder.cpp:153-212 | text and data together are the page's tokens serialized one after another |
| PageProofs.PredictionExact | src/cpp/preprocessor/asm/pager.cpp:280-288 | header, text, `eof`, gap and data add up exactly, agree with the length field, never exceed the page, so padding never fails and an image is one whole page |
| PageProofs.LabelOffset | src/cpp/encoder/aie2ps/aie2ps_encoder.cpp:191-212 | a label's position in the second pass is the number of bytes written before it |
| PageProofs.JobSizeExact | src/cpp/ops/ops.cpp:47-51 | the size operand of an encoded `start_job` is the byte distance to just past its `end_job` |
| PageProofs.LookupsResolve | src/cpp/common/assembler_state.cpp:163-176 | on a self-contained page no `@` operand fails to resolve |
| PageProofs.DataAligned | src/cpp/preprocessor/asm/pager.cpp:280-285 | every descriptor of a page is at a multiple of 16 and every word at a multiple of 4 |
| TextWalk.PageTextWalks | src/cpp/encoder/aie2ps/aie2ps_encoder.cpp:153-190 | the text section of every page the writer encodes, stepped through by opsize from its first byte to its `eof`, is read as the instructions of the page's jobs with their operands resolved and truncated |
| PageValues.PageReads | src/cpp/ops/ops.cpp:29-157 | on every encoded page the firmware's walk reads the instruction lines of the page's jobs in order, and in each slot what the line's own operand stands for: the register or barrier number, the first page of a page label, the number, the pad's address or the offset where the label stands, cut to the slot; for the offset of `apply_offset_57` 0xFFFF or twice the number |
| PageData.WordReads | src/cpp/ops/ops.cpp:206-222 | a `.long` of an encoded page holds, at its offset, the number its operand stands for |
| PageData.FillReads | src/cpp/ops/ops.cpp:224-235 | `.align` is 0xA5 bytes up to the next multiple |
| PageData.ChainReads | src/cpp/ops/ops.cpp:159-204 | the chain decoder, pointed at a run of linked descriptors in the data of an encoded page, recovers what the six operands of every line stand for, the local address as an absolute one |
| PageData.DescriptorReads | src/cpp/ops/ops.cpp:159-204 | any single descriptor is read with its fields cut to 29, 32, 15 and 32 bits |
| PageData.PageRelocates | src/cpp/ops/ops.cpp:98-131 | the relocations handed on with a page: for every `apply_offset_57` line in order one for each label of its table, at the offset where that label stands, named by the control code exactly when the line's offset names it and by the operand otherwise |
| PageAccepts.DraftAccepts | src/cpp/encoder/aie2ps/aie2ps_encoder.cpp:146-212 | for every page the pager makes: the writer can encode it if and only if no job and no label occurs on it twice, all operands are there, of the right kinds and resolvable on the page, and every table lies inside the page's label list |
| PageAccepts.PagesEncode | src/cpp/encoder/aie2ps/aie2ps_encoder.cpp:124-212 | checkable before paging: labels unshared inside each `.eop` region, well-shaped operands and tables that are apart make every page of a launch-free program encodable |
| PageAccepts.PatchAllAccepts | src/cpp/encoder/aie2ps/aie2ps_encoder.cpp:214-222 | the patch loop succeeds exactly when every patched descriptor lies inside the data |
| Encoder.WriteTokens | src/cpp/encoder/aie2ps/aie2ps_encoder.cpp:162-212 | one section: each token serialized at the bytes written since the origin |
| Encoder.SecondPass | src/cpp/encoder/aie2ps/aie2ps_encoder.cpp:147-151 | the layout pass over a finished page, accepted exactly when its tokens are and with the records it leaves |
| Encoder.EncodeSections | src/cpp/encoder/aie2ps/aie2ps_encoder.cpp:146-212 | the second pass and both sections before patching |
| Encoder.PatchPads | src/cpp/encoder/aie2ps/aie2ps_encoder.cpp:214-222 | the patch loop over the column's pads in their map order, each with the descriptors recorded for it while serializing, in place |
| Encoder.WritePageSections | src/cpp/encoder/aie2ps/aie2ps_encoder.cpp:124-234 | the page writer accepts exactly the pages the specification accepts and produces its image and its relocations |
| Patch.Patch57Adds | src/cpp/encoder/aie2ps/aie2ps_encoder.cpp:236-250 | adds modulo 2^57 to the address field and preserves every other bit of the section |
| Patch.PatchAllSums | src/cpp/encoder/aie2ps/aie2ps_encoder.cpp:214-222 | after the loop a descriptor no other overlaps holds its address plus the sum of its pads' addresses |
| Patch.PatchAllKeeps | src/cpp/encoder/aie2ps/aie2ps_encoder.cpp:214-222 | bytes outside all patched address fields are untouched |
| Encoder.PatchAie2ps | src/cpp/encoder/aie2ps/aie2ps_encoder.cpp:236-250 | the three-word form, on the section writer |
| Encoder.PatchAie4 | src/cpp/encoder/aie4/aie4_encoder.h:34-45 | the two-word form, on the section writer |
| Assembly.FixesAsked | src/cpp/encoder/aie2ps/aie2ps_encoder.cpp:214-222 | for every descriptor the patches applied add up to the addresses of exactly the pads that the page's own `apply_offset_57` operands name for it |
| Assembly.PatchedDescriptors | src/cpp/encoder/aie2ps/aie2ps_encoder.cpp:214-224 | in a written page, a descriptor no other patched one overlaps holds the address serialized for it plus the addresses of the pads that operands of the page ask to be added, modulo 2^57, and keeps every other bit |
| Assembly.ProgramPatched | src/cpp/encoder/aie2ps/aie2ps_encoder.cpp:214-224 | when tables are apart, what is added to a descriptor of a written page are the addresses of exactly the pads that the program's operands name for it by the tables of the first pass |
| Writer.SectionWriter.WriteWord | src/cpp/common/writer.cpp:18-26 | appends four little-endian bytes that read back as the word |
| Writer.SectionWriter.ReadWord | src/cpp/common/writer.cpp:35-45 | the word at an offset, or a failure past the end |
| Writer.SectionWriter.WriteWordAt | src/cpp/common/writer.cpp:47-55 | overwrites exactly four bytes |
| Writer.SectionWriter.Padding | src/cpp/common/writer.cpp:57-68 | zeros up to the page size, or a failure when the content is larger |
| Column.ColumnSections | src/cpp/preprocessor/aie2ps/aie2ps_preprocessor.h:70-79 | page `k` has number `k`; a section's pages are contiguous from its recorded start, chained, complete, branch to the page labels their jobs name, and are untouched by later sections |
| Column.LabelIndexIs | src/cpp/preprocessor/aie2ps/aie2ps_preprocessor.h:77 | the page index recorded for a label is its section's first page |
| Column.BranchLengths | src/cpp/preprocessor/aie2ps/aie2ps_preprocessor.h:89-106 | every page ends up with the final lengths of the first pages of the labels it branches to, in order, zero for a missing one, and is otherwise unchanged; refused exactly when a page branches to three labels or an unknown one |
| Column.PadRanges | src/cpp/preprocessor/aie2ps/aie2ps_preprocessor.h:81-87 | pad ranges are 4-aligned, ascending and pairwise disjoint, the first at 0 |
| Column.AddressAt | src/cpp/preprocessor/aie2ps/aie2ps_preprocessor.h:81-87 | a pad's address is the column's pages plus the pad's offset, in 32 bits |
| Column.PadsInPlace | src/cpp/encoder/aie2ps/aie2ps_encoder.cpp:11-27 | pad bytes sit at the pads' offsets if and only if all pad sizes but the last are multiples of 4 |
| Column.GapMissing | src/cpp/encoder/aie2ps/aie2ps_encoder.cpp:11-27 | two pads of one byte: the second has offset 4, and its byte is written at 1 |
| Column.PadInImage | src/cpp/preprocessor/aie2ps/aie2ps_preprocessor.h:81-87 | when no gap is missing a column of whole pages followed by the pad section holds each pad's content, or zeros, right after the last page, at its offset |
| Column.PaginateColumn | src/cpp/preprocessor/aie2ps/aie2ps_preprocessor.h:66-79 | the label loop |
| Column.SetBranches | src/cpp/preprocessor/aie2ps/aie2ps_preprocessor.h:89-106 | the out-of-order loop, writing into the pages it reads |
| Column.PlacePads | src/cpp/preprocessor/aie2ps/aie2ps_preprocessor.h:81-87 | the scratchpad loop: offsets, and addresses on the base behind the last page |
| Column.FillScratchpad | src/cpp/encoder/aie2ps/aie2ps_encoder.cpp:11-27 | contents or zeros, one pad after another without gaps |
| Assembly.PadsWhereAdded | src/cpp/encoder/aie2ps/aie2ps_encoder.cpp:214-222 | the address added to a descriptor for a pad is where the finished column, its written pages followed by the pads, holds that pad's content, or zeros |
| Assembly.PageIsWritten | src/cpp/encoder/aie2ps/aie2ps_encoder.cpp:124-234 | every page the pager makes is encoded if and only if it is encodable, into sections of exactly the predicted length; it is patched if and only if the patched descriptors lie inside the data, and its image is one whole page |
| Assembly.SharedLabelRefused | src/cpp/preprocessor/asm/pager.cpp:363-366 | two groups that share a label and land on one page make a page the writer refuses |
| Assembly.RepeatedLabelRefused | src/cpp/preprocessor/aie2ps/aie2ps_preprocessor.h:89-93 | in every program: a page that holds three groups which name one page label is refused, whatever the index |
| Assembly.NoLookupFails | src/cpp/common/assembler_state.cpp:163-176 | no `@` operand of any page of an accepted program fails to resolve in the second pass |
| Assembly.ColumnAssembles | src/cpp/preprocessor/aie2ps/aie2ps_preprocessor.h:64-107 | for every page of every section of an accepted column, with the page index, the list of pads and the pad addresses the column itself computed: it is written as predicted, branches to exactly the page labels its jobs name, and its two branch fields are the lengths of the first pages of the first and second of them, 0 when there is none |
| Txn.IndexFinds | src/cpp/preprocessor/aie2/aie2_blob_preprocessor_input.cpp:426-429 | indexing a block write's slots is the same as asking whether it covers a register at stride 0x20 |
| Txn.WalkLooksBack | src/cpp/preprocessor/aie2/aie2_blob_preprocessor_input.cpp:388-558 | for every stream the incremental walk accepts, rejects and relocates as if each operation searched the earlier ones, and its index is that search |
| Txn.LatestMeans | src/cpp/preprocessor/aie2/aie2_blob_preprocessor_input.cpp:517-527 | what that search finds: the latest earlier covering block write outside a supplied PM sequence, nothing exactly when there is none |
| Txn.PmMarksCount | src/cpp/preprocessor/aie2/aie2_blob_preprocessor_input.cpp:486-510 | after a start of count `c` and no other since, the running countdown treats exactly the next `c` operations as part of a supplied sequence |
| TxnMeaning.HelperRecords | src/cpp/preprocessor/aie2/aie2_blob_preprocessor_input.cpp:762-857 | what is recorded for a register: its class of the four register classes gives position, mask or length and schema, nothing for any other register; refused exactly for a large addend or argument index |
| TxnMeaning.WalkMeans | src/cpp/preprocessor/aie2/aie2_blob_preprocessor_input.cpp:388-558 | for every stream: accepted if and only if every operation is, and then the relocations are, operation by operation, what block writes in a supplied sequence, PDI loads, scratchpads and patches add, the last with the operand's addend, the length the found descriptor's first word holds, and the section's name, the external buffer or the index plus offset |
| TxnMeaning.ProcessMeans | src/cpp/preprocessor/aie2/aie2_blob_preprocessor_input.cpp:388-558 | the same for every accepted buffer, about the operations as the walk reads them while it clears |
| TxnMeaning.ClearableMeans | src/cpp/preprocessor/aie2/aie2_blob_preprocessor_input.cpp:388-558 | when relocated slots have ten bytes of payload left, these are the operations the buffer holds, and acceptance is exact |
| TxnMeaning.PreemptionSeen | src/cpp/preprocessor/aie2/aie2_blob_preprocessor_input.cpp:480-485 | preemption is reported exactly when some operation preempts |
| TxnBuffer.ClearInPlace | src/cpp/preprocessor/aie2/aie2_blob_preprocessor_input.cpp:368-383 | clears exactly the six address bytes, keeping the two low bits of the first |
| TxnBuffer.Walker.Visit | src/cpp/preprocessor/aie2/aie2_blob_preprocessor_input.cpp:398-556 | one operation of the switch with the countdown after it |
| TxnBuffer.Walker.ProcessTxn | src/cpp/preprocessor/aie2/aie2_blob_preprocessor_input.cpp:388-558 | the pointer-advancing loop over the buffer it clears |
| TxnRoom.RoomyExactly | src/cpp/preprocessor/aie2/aie2_blob_preprocessor_input.cpp:426-429 | the payload sizes whose slots keep their address bytes inside the payload |
| TxnRoom.LatestHeld | src/cpp/preprocessor/aie2/aie2_blob_preprocessor_input.cpp:517-531 | the slot a `DDR_PATCH` finds has all ten bytes in its payload exactly when ten bytes of the payload are left from it |
| TxnRoom.ContributionHeld | src/cpp/preprocessor/aie2/aie2_blob_preprocessor_input.cpp:410-531 | what one operation clears is held by the payload it stands in exactly when there is room for it |
| TxnRoom.RoomyHasRoom | src/cpp/preprocessor/aie2/aie2_blob_preprocessor_input.cpp:410-531 | payloads of such sizes, none of them empty inside a supplied PM sequence, have room for whatever is cleared |
| TxnSamples.PartialSlotSpills | src/cpp/preprocessor/aie2/aie2_blob_preprocessor_input.cpp:517-532 | a 36-byte payload and a patch of the descriptor that its last four bytes start: the walk accepts, turns the patch operation into a block write, and a second walk is refused |
| TxnSamples.EmptyWriteSpills | src/cpp/preprocessor/aie2/aie2_blob_preprocessor_input.cpp:410-423 | an empty block write inside a supplied PM sequence: every payload is a multiple of 32 bytes, and yet the walk clears the size of the operation behind it |
| TxnHarmless.TraceSame | src/cpp/preprocessor/aie2/aie2_blob_preprocessor_input.cpp:396-404 | buffers that differ in address bytes only hold the same operations |
| TxnHarmless.ProcessIsSteps | src/cpp/preprocessor/aie2/aie2_blob_preprocessor_input.cpp:388-558 | for every buffer whose relocated slots have ten bytes of payload left, walking while clearing equals walking the original operations and then clearing |
| TxnHarmless.ClearsStayInside | src/cpp/preprocessor/aie2/aie2_blob_preprocessor_input.cpp:388-558 | for every accepted buffer whose operations end inside it: every descriptor the walk clears lies in the payload it stands in if and only if every relocated slot, found by searching backwards, has ten bytes of payload left |
| TxnHarmless.ClearingHarmless | src/cpp/preprocessor/aie2/aie2_blob_preprocessor_input.cpp:829-851 | and then exactly the address bits of relocated descriptors change, no operation reads differently, and a second walk gives the same relocations and leaves the buffer alone |
| TxnPipeline.AssembledWalks | src/cpp/preprocessor/aie2/aie2_blob_preprocessor_input.cpp:388-558 | the walk reads an assembled transaction as exactly its operations and payload words; when every slot it relocates has ten bytes of payload left, it accepts exactly when every operation is accepted and adds what `TxnMeaning.WalkMeans` says, undisturbed; and its clears stay inside the payloads exactly then |
| TxnTools.Operation.Fill | src/cpp/preprocessor/aie2/aie2_asm_preprocessor_input.cpp:83-89 | zeroed storage receives opcode, size and operands |
| TxnTools.Operation.ProcessOutstanding | src/cpp/preprocessor/aie2/aie2_asm_preprocessor_input.cpp:224-240 | the expected payload line is stored and the countdown decremented; any other line is refused |
| TxnTools.EncodeLines | src/cpp/preprocessor/aie2/aie2_asm_preprocessor_input.cpp:576-620 | the line loop, serialization and header patch |
| TxnTools.CountOps | src/cpp/analyzer/transaction.cpp:117-178 | the counting loop: how often each opcode occurs, and the walk's end |
| TxnTools.Stringify | src/cpp/analyzer/transaction.cpp:515-587 | the print loop |
| TxnRoundTrip.Truncations | src/cpp/preprocessor/aie2/aie2_asm_preprocessor_input.cpp:389-438 | what assembling loses: a channel keeps 8 bits, a timer id 32, a sequence count 24 |
| TxnProgram.AssembleAccepts | src/cpp/preprocessor/aie2/aie2_asm_preprocessor_input.cpp:146-518 | a mnemonic line is assembled if and only if the mnemonic is known, has enough operands, and each fits the C++ type it is read into or is in its keyword table |
| TxnProgram.EncodeAccepts | src/cpp/preprocessor/aie2/aie2_asm_preprocessor_input.cpp:576-600 | a program is encoded if and only if it has lines, its mnemonic lines are acceptable, and each block write is followed by its words numbered from 0 on, the last one's possibly missing at the end |
| TxnProgram.EncodeMeans | src/cpp/preprocessor/aie2/aie2_asm_preprocessor_input.cpp:576-620 | walking an encoded transaction reads one operation for each mnemonic line, in order, with the line's operands cut to their fields and with the words of the lines behind it, missing ones 0; the header holds columns, size and count and is constant elsewhere |
| TxnPrint.SkipsRun | src/cpp/analyzer/transaction.cpp:117-178 | the counting loop succeeds if and only if as many known operations follow each other, each leading to the next by its fixed size or its own size field, and meets exactly these |
| TxnPrint.OpPrints | src/cpp/analyzer/transaction.cpp:253-400 | the lines printed of an operation are its mnemonic with the numbers in its fields, for a block write with its numbered words |
| TxnPrint.PrintMeans | src/cpp/analyzer/transaction.cpp:515-587 | a transaction is printed if and only if its header is in order, its operations follow each other and every preemption level has a name; what is printed is the column count and the lines of the operations in order |
| TxnRoundTrip.ReadBuilt | src/cpp/analyzer/transaction.cpp:255-375 | reading an assembled operation gives its opcode, operands and payload back and advances by its size |
| TxnRoundTrip.WalksVisitAll | src/cpp/analyzer/transaction.cpp:117-178 | size and count are exact; the walks visit every operation at its start and end at the transaction's end |
| TxnRoundTrip.ReassemblyFixedPoint | src/cpp/preprocessor/aie2/aie2_asm_preprocessor_input.cpp:576-620 | encode, print, encode is refused if the program loads a PDI; otherwise it gives the same transaction if and only if the column count's eight header bits are not zero or no column is attached at all |
| TxnRoundTrip.PdiNotReassembled | src/cpp/preprocessor/aie2/aie2_asm_preprocessor_input.cpp:576-620 | a one-line program that is assembled and printed, and whose print is refused, in every layout |
| UcDma.EncodersAgree | src/python/aiebu/ctrlcode/ops/serializer/ucDmaOp_serializer.py:21-45 | whenever the word encoder accepts, both encoders give the same sixteen bytes |
| UcDma.ReadChain | src/python/aiebu/ctrlcode/ops/deserializer/ucDmaOp_deserializer.py:22-57 | the chain loop |
| UcDma.Deserialize | src/python/aiebu/ctrlcode/ops/deserializer/ucDmaOp_deserializer.py:24-57 | a position that is not a multiple of 16 or has no label is refused; otherwise the chain's head label and the rows of the chain from the byte before the reader's index |
| UcDma.ChainRoundTrip | src/python/aiebu/ctrlcode/ops/deserializer/ucDmaOp_deserializer.py:24-57 | decoding a linked chain recovers every field and the absolute local addresses, equal addresses sharing one label, and stops after the last descriptor |
| UcDma.RowReads | src/python/aiebu/ctrlcode/ops/deserializer/ucDmaOp_deserializer.py:28-52 | a descriptor whose fields do not fit is read with each cut to its bits |
| UcDma.CutShort | src/python/aiebu/ctrlcode/common/reader.py:37-46 | a descriptor cut short by the end of the file: whole fields are read, the others are zero, and the reader stays behind the last whole one |
| UcDma.LabelsNumbered | src/python/aiebu/ctrlcode/ops/deserializer/ucDmaOp_deserializer.py:36-43 | decoding a chain numbers new local addresses one after another and keeps the old ones |
| Packets.IdentifyControlPacket | src/cpp/common/file_utils.cpp:51-99 | both scans |
| Packets.IdentifiesConcatenations | src/cpp/common/file_utils.cpp:51-78 | a buffer is called a control packet exactly when it is a concatenation of packets with zero reserved bits and odd parity, whatever lies behind it |
| Packets.OddSizeRefused | src/cpp/common/file_utils.cpp:62-77 | a size that is not a multiple of four is never called one |
| PacketFields.StartsMeans | src/cpp/common/file_utils.cpp:65-68 | two words, composed of their bit fields, begin a packet exactly when the reserved fields are zero and each has an odd number of set bits |
| PacketFields.ParityMeans | src/cpp/common/utils.h:214-218 | parity is odd exactly when an odd number of the 32 bits is set |
| PacketFields.InfoMeans | src/cpp/common/file_utils.h:33-41 | a control word's packet is two words and one more than its beat field says |
| Packets.Aie2Strides | src/cpp/common/file_utils.cpp:80-97 | the other family: every 32-byte stride starts a packet |
| Packets.Serialize | src/cpp/analyzer/packets.cpp:25-42 | one packet's printed fields and data words, and the byte behind it |
| Packets.GetDump | src/cpp/analyzer/packets.cpp:46-67 | the printing loops of both families; nothing for an unknown buffer |
| Packets.DumpVisitsPackets | src/cpp/analyzer/packets.cpp:52-56 | on a concatenation of packets the dump prints exactly the packets, in order, and stops at the end |
| PacketFields.DumpShows | src/cpp/analyzer/packets.cpp:17-42 | the dump of a concatenation of packets has one row for each, with the packet's stream, row, column, address, operation letter and data words |
| PacketFields.CutPacketShows | src/cpp/analyzer/packets.cpp:25-45 | a packet cut short by the end of the buffer is printed with the words that lie behind it |
| Packets.DumpStrides | src/cpp/analyzer/packets.cpp:57-62 | the other family prints the packet of every 32-byte stride, a started stride included |

## Left out

- AssemblerState.State.Process: positions are unbounded numbers; the 32-bit wrap of a position is not modelled.
- AssemblerState.State.Count: job and label objects are records inside maps, replaced instead of mutated, so aliasing of those objects is not captured.
- Encoder.WritePageSections: which of several failures is reported first is not fixed; acceptance and the image are.
- Encoder.EncodeSections: the debug map and the report the page writer also fills are not modelled.
- Column.SetBranches: on a rejected column the kind of failure is not fixed.
- TxnBuffer.Walker.ProcessTxn: on a rejected buffer the kind of failure and the partly cleared buffer are not described.
- TxnTools.CountOps: on a rejected transaction the kind of failure is not fixed.
- TxnTools.EncodeLines: on a rejected program the kind of failure is not fixed.
- TxnTools.Stringify: text is a list of lines with numbers; number formatting and padding of the printed text are not modelled.
- Packets.Serialize: rows hold the printed values; the text around them is not modelled.
- TxnHarmless.ClearingHarmless: what a walk leaves behind that clears outside a payload is shown on two buffers only; which operations it disturbs in general is not described.
- Encoder.PatchPads: the order in which pads are patched is a parameter; `Assembly.PatchedDescriptors` does not depend on it.
- PageAccepts.PagesEncode: a sufficient condition only; the exact one, `PageAccepts.DraftAccepts`, is about a finished page.
- SharedLabels.PageLayoutAccepted: programs with `launch_job` are excluded, as for `Partition.PagifyPartitions`.
- Acceptance.PagifyAccepts: programs with `launch_job` are excluded for the same reason.
- Closure.PagifyContained: table entries are assumed to hold no references; what happens otherwise is described for launch-free programs, by `Unfollowed.PageContained`.
- TableLookup.LookupAgrees: tables whose labels have different alignments, which sorting moves apart, and programs with `launch_job` are excluded.
- Partition.PagifyPartitions: programs with `launch_job` are excluded, because a launched job can be placed again on a later page.
- PyPager.PagersAgree: programs with `launch_job` are excluded, and text lists are not compared, because the second pager leaves the `.align` between text and data to a later stage; `PyLaws.PyPagifyLaws` says what they are.
- Operands the symbol table must resolve later (the serializer then repeats the previous operand's value) are left out, as are the column and page numbers and the sections that go with a relocation, and the return value of the pager.
- The control packet's pad name, found while serializing, only feeds symbol positions and is left out.
- Programs with `.align` inside jobs, and an empty last label (the original reads past the token list there; the model refuses it), are not well formed here.
- A text section larger than a page, which the pager never makes, would wrap the padding length in the original; the model refuses it.
- The order in which maps are iterated is a parameter (`Config.padList`, the order of sections and pads).
- `process_txn_opt` and the walks over optimized headers repeat the same walks with other header sizes, except that the relocation walk never counts its PM sequence down.
- Writing ELF files, JSON metadata, preemption byte tables, line parsing and the DPU walker use libraries or constant data.
- Mangling names of several source files, register and actor names, and the Python form of the AIE4 address patch.
