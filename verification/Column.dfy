/** One column: page labels paged one after another, out-of-order lengths, scratchpads
    (`process_internal`), and the pad section (`fill_scratchpad`). */
module Column {
  import opened Base
  import opened Program
  import opened Structure
  import opened View
  import opened Pages
  import opened PageLaws
  import opened PageImage
  import opened Patch
  import opened Pager
  import opened Writer
  import Packing

  /** A page label and the program that follows it. */
  datatype Section = Section(name: Name, program: Source)

  /** Every section's program can be paged: it is well formed and has no launch or label cycle. */
  ghost predicate Pageable(secs: seq<Section>, pads: set<Name>, ranks: seq<Ranks>) {
    && |ranks| == |secs|
    && forall k :: 0 <= k < |secs| ==>
        secs[k].program.Valid()
          && (Build(secs[k].program.Toks(), pads).Ok? ==> Ready(ViewOf(secs[k].program, pads), ranks[k]))
  }

  /** Pages of the whole column and the page each section starts on, the last entry being the total. */
  datatype Layout = Layout(pages: seq<Page>, starts: seq<nat>)

  function Paginate(secs: seq<Section>, pads: set<Name>, ghost ranks: seq<Ranks>, size: nat, col: nat,
                    pages: seq<Page>): Result<Layout>
    requires Pageable(secs, pads, ranks)
    decreases |secs|
  {
    hide Build, Ready, Pages.Pagify, Source.Toks, Pageable;
    if secs == [] then Ok(Layout(pages, [|pages|])) else
    OnePerSection(secs, pads, ranks);
    PageableFirst(secs, pads, ranks);
    var v :- Build(secs[0].program.Toks(), pads);
    var more :- Pages.Pagify(v, ranks[0], size, col, pages);
    PageableRest(secs, pads, ranks);
    var rest :- Paginate(secs[1..], pads, ranks[1..], size, col, more);
    Ok(Layout(rest.pages, [|pages|] + rest.starts))
  }

  lemma PageableRest(secs: seq<Section>, pads: set<Name>, ranks: seq<Ranks>)
    requires Pageable(secs, pads, ranks) && secs != []
    ensures Pageable(secs[1..], pads, ranks[1..])
  {
    hide Build, Ready, Source.Valid, Source.Toks;
    forall k | 0 <= k < |secs[1..]|
      ensures secs[1..][k].program.Valid()
      ensures Build(secs[1..][k].program.Toks(), pads).Ok? ==> Ready(ViewOf(secs[1..][k].program, pads), ranks[1..][k])
    {
      assert secs[1..][k] == secs[k + 1] && ranks[1..][k] == ranks[k + 1];
    }
  }

  // ---------- laws ----------

  function LenBefore(pages: seq<Page>, i: nat, hi: nat): nat {
    if i < hi && i < |pages| then pages[i].curLen else 0
  }

  /** The pages `lo..hi` are those of one section: numbered, filled, bounded, chained, complete, and with the page
      labels their jobs branch to. */
  ghost predicate SectionOk(v: View, size: nat, col: nat, pages: seq<Page>, lo: nat, hi: nat) {
    && lo <= hi <= |pages|
    && (forall i :: lo <= i < hi ==> PageOk(v, size, col, pages[i], i))
    && (forall i :: lo <= i < hi ==> Packing.BranchesAre(v, pages[i]))
    && (forall i :: lo <= i < hi ==> pages[i].nextLen == LenBefore(pages, i + 1, hi))
    && forall j :: j in v.s.jobids && j.Job? ==> exists i: nat :: lo <= i < hi && OnPage(pages, i, j)
  }

  /** Pages written earlier keep everything but, possibly, the last-page flag. */
  ghost predicate Untouched(before: seq<Page>, after: seq<Page>) {
    |before| <= |after| && forall i :: 0 <= i < |before| ==> after[i] == before[i].(last := after[i].last)
  }

  lemma PagedSection(v: View, size: nat, col: nat, before: seq<Page>, pages: seq<Page>)
    requires Paged(v, size, col, before, pages)
    requires forall i :: |before| <= i < |pages| ==> Packing.BranchesAre(v, pages[i])
    ensures SectionOk(v, size, col, pages, |before|, |pages|) && Untouched(before, pages)
  {
    hide PageOk, Packing.BranchesAre;
    forall i | |before| <= i < |pages| ensures pages[i].nextLen == LenBefore(pages, i + 1, |pages|) {
      assert pages[i].nextLen == LenAt(pages, i + 1);
    }
    forall j | j in v.s.jobids && j.Job? ensures exists i: nat :: |before| <= i < |pages| && OnPage(pages, i, j) {
      var i: nat :| |before| <= i && OnPage(pages, i, j);
    }
  }

  lemma BranchesKept(v: View, p: Page, q: Page)
    requires Packing.BranchesAre(v, p) && q.jobs == p.jobs && q.externals == p.externals
    ensures Packing.BranchesAre(v, q)
  {
    hide JobsToks, Packing.BranchesTo, Packing.Targets, Dedup;
  }

  lemma SectionKept(v: View, size: nat, col: nat, before: seq<Page>, after: seq<Page>, lo: nat, hi: nat)
    requires SectionOk(v, size, col, before, lo, hi) && Untouched(before, after)
    ensures SectionOk(v, size, col, after, lo, hi)
  {
    hide PageOk, Packing.BranchesAre;
    forall i | lo <= i < hi
      ensures PageOk(v, size, col, after[i], i) && after[i].nextLen == LenBefore(after, i + 1, hi)
      ensures Packing.BranchesAre(v, after[i])
    {
      BranchesKept(v, before[i], after[i]);
      assert before[i].nextLen == LenBefore(before, i + 1, hi);
      PageOkFields(v, size, col, before[i], after[i], i);
    }
    forall j | j in v.s.jobids && j.Job? ensures exists i: nat :: lo <= i < hi && OnPage(after, i, j) {
      var i: nat :| lo <= i < hi && OnPage(before, i, j);
      assert OnPage(after, i, j);
    }
  }

  ghost predicate Sections(secs: seq<Section>, pads: set<Name>, size: nat, col: nat, lay: Layout) {
    && |lay.starts| == |secs| + 1 && lay.starts[|secs|] == |lay.pages|
    && forall k :: 0 <= k < |secs| ==> SectionAt(secs, pads, size, col, lay, k)
  }

  ghost predicate SectionAt(secs: seq<Section>, pads: set<Name>, size: nat, col: nat, lay: Layout, k: nat)
    requires k < |secs| && |lay.starts| == |secs| + 1
  {
    && Build(secs[k].program.Toks(), pads).Ok?
    && SectionOk(ViewOf(secs[k].program, pads), size, col, lay.pages, lay.starts[k], lay.starts[k + 1])
  }

  lemma FirstSection(secs: seq<Section>, pads: set<Name>, size: nat, col: nat, before: seq<Page>, more: seq<Page>,
                     rest: Layout)
    requires secs != [] && Build(secs[0].program.Toks(), pads).Ok?
    requires Paged(ViewOf(secs[0].program, pads), size, col, before, more)
    requires forall i :: |before| <= i < |more| ==> Packing.BranchesAre(ViewOf(secs[0].program, pads), more[i])
    requires Sections(secs[1..], pads, size, col, rest) && Untouched(more, rest.pages) && rest.starts[0] == |more|
    ensures Sections(secs, pads, size, col, Layout(rest.pages, [|before|] + rest.starts))
      && Untouched(before, rest.pages)
  {
    hide Build, SectionOk, Paged, Source.Toks, Packing.BranchesAre;
    var v := ViewOf(secs[0].program, pads);
    var lay := Layout(rest.pages, [|before|] + rest.starts);
    PagedSection(v, size, col, before, more);
    SectionKept(v, size, col, more, rest.pages, |before|, |more|);
    forall k | 0 <= k < |secs| ensures SectionAt(secs, pads, size, col, lay, k) {
      if k > 0 {
        assert secs[1..][k - 1] == secs[k];
        assert SectionAt(secs[1..], pads, size, col, rest, k - 1);
      }
    }
  }

  /** Over any sequence of page labels: page `k` has number `k`; each section's pages are contiguous,
      start where its label is recorded to start, announce each other's lengths (the last announces
      0), branch to the page labels their jobs name, and hold every ordinary job of the section; later
      sections leave earlier pages alone. */
  lemma {:induction false} ColumnSections(secs: seq<Section>, pads: set<Name>, ranks: seq<Ranks>, size: nat, col: nat,
                                          pages: seq<Page>)
    requires Pageable(secs, pads, ranks)
    ensures var r := Paginate(secs, pads, ranks, size, col, pages);
      r.Ok? ==>
          Sections(secs, pads, size, col, r.value) && Untouched(pages, r.value.pages)
          && r.value.starts[0] == |pages|
    decreases |secs|
  {
    hide Build, Ready, Pages.Pagify, Paged, SectionAt, Source.Valid, Source.Toks, Packing.BranchesAre;
    if secs != [] && Paginate(secs, pads, ranks, size, col, pages).Ok? {
      PageableRest(secs, pads, ranks);
      var v := ViewOf(secs[0].program, pads);
      PagifyLaws(v, ranks[0], size, col, pages);
      Packing.PagifyBranches(v, ranks[0], size, col, pages);
      var more := Pages.Pagify(v, ranks[0], size, col, pages).value;
      ColumnSections(secs[1..], pads, ranks[1..], size, col, more);
      FirstSection(secs, pads, size, col, pages, more, Paginate(secs[1..], pads, ranks[1..], size, col, more).value);
    }
  }

  // ---------- page labels ----------

  /** `label_page_index`: a later entry of the same name replaces an earlier one. */
  function LabelIndex(secs: seq<Section>, starts: seq<nat>): map<Name, nat>
    requires |secs| <= |starts|
  {
    if secs == [] then map[] else
      LabelIndex(secs[..|secs| - 1], starts)[secs[|secs| - 1].name := starts[|secs| - 1]]
  }

  ghost predicate DistinctNames(secs: seq<Section>) {
    forall i, k :: 0 <= i < k < |secs| ==> secs[i].name != secs[k].name
  }

  /** The page index recorded for a label is its first page. */
  lemma {:induction false} LabelIndexIs(secs: seq<Section>, starts: seq<nat>, k: nat)
    requires |secs| <= |starts| && k < |secs| && DistinctNames(secs)
    ensures secs[k].name in LabelIndex(secs, starts) && LabelIndex(secs, starts)[secs[k].name] == starts[k]
    decreases |secs|
  {
    if k < |secs| - 1 {
      LabelIndexIs(secs[..|secs| - 1], starts, k);
    }
  }

  /** Every entry is the first page of a section of that name. */
  lemma {:induction false} LabelIndexOnly(secs: seq<Section>, starts: seq<nat>, l: Name) returns (k: nat)
    requires |secs| <= |starts| && l in LabelIndex(secs, starts)
    ensures k < |secs| && secs[k].name == l && LabelIndex(secs, starts)[l] == starts[k]
    decreases |secs|
  {
    k := |secs| - 1;
    if secs[k].name != l {
      k := LabelIndexOnly(secs[..k], starts, l);
    }
  }

  /** Lengths of the pages a page branches to. */
  function BranchLens(pages: seq<Page>, index: map<Name, nat>, ooo: seq<Name>): Result<(nat, nat)> {
    if |ooo| > 2 then Err(TooManyBranches) else
    if exists l :: l in ooo && l !in index then Err(InvalidAsm) else
    if exists l :: l in ooo && index[l] >= |pages| then Err(Crash) else
    Ok((if |ooo| > 0 then pages[index[ooo[0]]].curLen else 0, if |ooo| == 2 then pages[index[ooo[1]]].curLen else 0))
  }

  function Branches(pages: seq<Page>, index: map<Name, nat>, p: Page): Result<Page> {
    var lens :- BranchLens(pages, index, p.externals);
    Ok(p.(ooo1 := lens.0, ooo2 := lens.1))
  }

  function BranchAll(pages: seq<Page>, index: map<Name, nat>, todo: seq<Page>): Result<seq<Page>>
    decreases |todo|
  {
    if todo == [] then Ok([]) else
    var p :- Branches(pages, index, todo[0]);
    var rest :- BranchAll(pages, index, todo[1..]);
    Ok([p] + rest)
  }

  /** A page may branch to at most two labels, all of them known. */
  ghost predicate MayBranch(pages: seq<Page>, index: map<Name, nat>, ooo: seq<Name>) {
    |ooo| <= 2 && forall l :: l in ooo ==> l in index && index[l] < |pages|
  }

  /** Current length of the first page of the `k`-th label branched to, 0 when there is none. */
  ghost function BranchLen(pages: seq<Page>, index: map<Name, nat>, ooo: seq<Name>, k: nat): nat {
    if k < |ooo| && ooo[k] in index && index[ooo[k]] < |pages| then pages[index[ooo[k]]].curLen else 0
  }

  lemma BranchesMean(pages: seq<Page>, index: map<Name, nat>, p: Page)
    ensures var r := Branches(pages, index, p);
      && (r.Ok? <==> MayBranch(pages, index, p.externals))
      && (r.Ok? ==>
            (r.value == p.(ooo1 := BranchLen(pages, index, p.externals, 0),
              ooo2 := BranchLen(pages, index, p.externals, 1))))
  {}

  lemma {:induction false} BranchAllAt(pages: seq<Page>, index: map<Name, nat>, todo: seq<Page>)
    ensures var r := BranchAll(pages, index, todo);
      && (r.Ok? <==> forall p :: p in todo ==> Branches(pages, index, p).Ok?)
      && (r.Ok? ==>
          |r.value| == |todo|
          && forall i :: 0 <= i < |todo| ==> Ok(r.value[i]) == Branches(pages, index, todo[i]))
    decreases |todo|
  {
    hide Branches;
    if todo != [] {
      BranchAllAt(pages, index, todo[1..]);
      assert todo == [todo[0]] + todo[1..];
    }
  }

  /** Every page ends up with the current lengths of the first pages of the labels it branches to and is
      otherwise unchanged; the column is accepted exactly when no page branches to more than two labels or to
      an unknown one. */
  lemma BranchLengths(pages: seq<Page>, index: map<Name, nat>, todo: seq<Page>)
    ensures var r := BranchAll(pages, index, todo);
      && (r.Ok? <==> forall p :: p in todo ==> MayBranch(pages, index, p.externals))
      && (r.Ok? ==> |r.value| == |todo| && forall i :: 0 <= i < |todo| ==>
            r.value[i] == todo[i].(ooo1 := BranchLen(pages, index, todo[i].externals, 0),
                                   ooo2 := BranchLen(pages, index, todo[i].externals, 1)))
  {
    hide Branches, BranchAll, MayBranch, BranchLen;
    BranchAllAt(pages, index, todo);
    forall p {
      BranchesMean(pages, index, p);
    }
  }

  // ---------- scratchpads ----------

  /** A scratchpad; its content is empty or exactly `size` bytes. */
  datatype Pad = Pad(name: Name, size: nat, content: seq<u8>) {
    predicate Valid() {
      content == [] || |content| == size
    }

    function Bytes(): (b: seq<u8>)
      requires Valid()
      ensures |b| == size
    {
      if content != [] then content else seq(size, _ => 0)
    }
  }

  /** From `at` on the bytes are those of the pad: its content, or zeros when it has none. */
  ghost predicate PadAt(all: seq<u8>, at: nat, p: Pad) {
    at + p.size <= |all| && (p.content != [] ==> |p.content| == p.size)
    && forall i :: 0 <= i < p.size ==> all[at + i] == if p.content == [] then 0 else p.content[i]
  }

  lemma BytesAt(all: seq<u8>, at: nat, p: Pad)
    requires p.Valid() && at + p.size <= |all| && all[at..at + p.size] == p.Bytes()
    ensures PadAt(all, at, p)
  {
    forall i | 0 <= i < p.size ensures all[at + i] == p.Bytes()[i] {
      assert all[at..at + p.size][i] == all[at + i];
    }
  }

  /** Offsets given to the pads, in map order. */
  function Offsets(pads: seq<Pad>, at: nat): (r: seq<nat>)
    ensures |r| == |pads|
  {
    if pads == [] then [] else [RoundUp4(at)] + Offsets(pads[1..], RoundUp4(at) + pads[0].size)
  }

  /** Ranges are 4-aligned, ascending and pairwise disjoint. */
  lemma {:induction false} PadRanges(pads: seq<Pad>, at: nat)
    ensures var o := Offsets(pads, at);
      && (forall k :: 0 <= k < |pads| ==> o[k] % 4 == 0 && o[k] >= at)
      && (forall i, k :: 0 <= i < k < |pads| ==> o[i] + pads[i].size <= o[k])
      && (|pads| > 0 && at % 4 == 0 ==> o[0] == at)
    decreases |pads|
  {
    hide RoundUp4, Offsets;
    if pads != [] {
      var rest, next := pads[1..], RoundUp4(at) + pads[0].size;
      RoundsUp(at);
      PadRanges(rest, next);
      FirstOffset(pads, at);
      var o, p := Offsets(pads, at), Offsets(rest, next);
      forall k | 0 < k < |pads| ensures o[k] == p[k - 1] && pads[k] == rest[k - 1] {}
      forall k | 0 <= k < |pads| ensures o[k] % 4 == 0 && o[k] >= at {
        if k > 0 {
          assert p[k - 1] >= next;
        }
      }
      forall i, k | 0 <= i < k < |pads| ensures o[i] + pads[i].size <= o[k] {
        if i > 0 {
          assert p[i - 1] + rest[i - 1].size <= p[k - 1];
        } else {
          assert p[k - 1] >= next;
        }
      }
    }
  }

  lemma FirstOffset(pads: seq<Pad>, at: nat)
    requires pads != []
    ensures Offsets(pads, at) == [RoundUp4(at)] + Offsets(pads[1..], RoundUp4(at) + pads[0].size)
  {
    hide RoundUp4;
  }

  lemma RoundsUp(n: nat)
    ensures RoundUp4(n) % 4 == 0 && n <= RoundUp4(n) && (n % 4 == 0 ==> RoundUp4(n) == n)
  {}

  function Low32(n: nat): u32 {
    n % 0x1_0000_0000
  }

  /** Addresses given to the pads, base and offset added in 32 bits. */
  function Addresses(pads: seq<Pad>, base: nat, at: nat): map<Name, u32>
    decreases |pads|
  {
    if pads == [] then map[] else
      map[pads[0].name := Low32(base + RoundUp4(at))] + Addresses(pads[1..], base, RoundUp4(at) + pads[0].size)
  }

  function PadNames(pads: seq<Pad>): seq<Name> {
    if pads == [] then [] else [pads[0].name] + PadNames(pads[1..])
  }

  lemma {:induction false} PadNamesAt(pads: seq<Pad>)
    ensures |PadNames(pads)| == |pads| && forall k :: 0 <= k < |pads| ==> PadNames(pads)[k] == pads[k].name
  {
    if pads != [] {
      PadNamesAt(pads[1..]);
    }
  }

  lemma PadStep(pads: seq<Pad>, base: nat, at: nat)
    requires pads != []
    ensures Offsets(pads, at) == [RoundUp4(at)] + Offsets(pads[1..], RoundUp4(at) + pads[0].size)
    ensures Addresses(pads, base, at) ==
      map[pads[0].name := Low32(base + RoundUp4(at))] + Addresses(pads[1..], base, RoundUp4(at) + pads[0].size)
    ensures PadNames(pads) == [pads[0].name] + PadNames(pads[1..])
  {
    hide RoundUp4;
  }

  /** Exactly the pads have addresses. */
  lemma {:induction false} Addressed(pads: seq<Pad>, base: nat, at: nat)
    ensures Addresses(pads, base, at).Keys == set l | l in PadNames(pads)
    decreases |pads|
  {
    hide Addresses, Offsets, RoundUp4, PadNames, Low32;
    if pads == [] {
      NoneAddressed(base, at);
    } else {
      PadStep(pads, base, at);
      var next := RoundUp4(at) + pads[0].size;
      Addressed(pads[1..], base, next);
      KeysMore(pads[0].name, Low32(base + RoundUp4(at)), Addresses(pads[1..], base, next), PadNames(pads[1..]));
    }
  }

  lemma NoneAddressed(base: nat, at: nat)
    ensures PadNames([]) == [] && Addresses([], base, at) == map[]
  {}

  lemma KeysMore(l: Name, a: u32, m: map<Name, u32>, names: seq<Name>)
    requires m.Keys == set x | x in names
    ensures (map[l := a] + m).Keys == set x | x in [l] + names
  {
    var all := map[l := a] + m;
    forall x ensures x in all.Keys <==> x in [l] + names {}
  }

  /** Each pad's address is the base plus its offset. */
  lemma {:induction false} AddressAt(pads: seq<Pad>, base: nat, at: nat, k: nat)
    requires NoDup(PadNames(pads)) && k < |pads|
    ensures pads[k].name in Addresses(pads, base, at)
    ensures Addresses(pads, base, at)[pads[k].name] == Low32(base + Offsets(pads, at)[k])
    decreases |pads|
  {
    hide Addresses, Offsets, RoundUp4, PadNames, Low32;
    var rest, next := pads[1..], RoundUp4(at) + pads[0].size;
    PadStep(pads, base, at);
    NamesRest(PadNames(pads));
    assert PadNames(pads)[1..] == PadNames(rest) && PadNames(pads)[0] == pads[0].name;
    if k > 0 {
      assert rest[k - 1] == pads[k];
      AddressAt(rest, base, next, k - 1);
    } else {
      Addressed(rest, base, next);
    }
  }

  lemma NamesRest<T>(s: seq<T>)
    requires NoDup(s) && s != []
    ensures NoDup(s[1..]) && s[0] !in s[1..]
  {
    assert forall k :: 0 <= k < |s[1..]| ==> s[1..][k] == s[k + 1];
  }

  /** What the writer is configured with once a column is laid out. */
  function ColumnConfig(family: Family, controlPacket: u32, pads: seq<Pad>, pages: nat, index: map<Name, nat>): Config {
    Config(family, PadNames(pads), Addresses(pads, PAGE_SIZE * pages, 0), index, controlPacket)
  }

  /** `fill_scratchpad`. */
  function PadSection(pads: seq<Pad>): seq<u8>
    requires forall p :: p in pads ==> p.Valid()
  {
    if pads == [] then [] else pads[0].Bytes() + PadSection(pads[1..])
  }

  /** Where pad `k` starts in the bytes `fill_scratchpad` writes. */
  function FilledAt(pads: seq<Pad>, k: nat): nat
    requires k <= |pads|
  {
    if k == 0 then 0 else pads[0].size + FilledAt(pads[1..], k - 1)
  }

  lemma {:induction false} FilledSplit(pads: seq<Pad>, k: nat) returns (pre: seq<u8>, suf: seq<u8>)
    requires k < |pads| && forall p :: p in pads ==> p.Valid()
    ensures PadSection(pads) == pre + pads[k].Bytes() + suf && |pre| == FilledAt(pads, k)
  {
    hide Pad.Bytes, Pad.Valid;
    assert pads[k] in pads && pads[0] in pads;
    var head := pads[0].Bytes();
    if k == 0 {
      pre, suf := [], PadSection(pads[1..]);
      assert [] + head == head;
    } else {
      var a, b := FilledSplit(pads[1..], k - 1);
      pre, suf := head + a, b;
      var here := pads[k].Bytes();
      assert head + (a + here + b) == head + a + here + b;
    }
  }

  lemma {:induction false} FilledStep(pads: seq<Pad>, k: nat)
    requires k < |pads|
    ensures FilledAt(pads, k + 1) == FilledAt(pads, k) + pads[k].size
  {
    if k > 0 {
      FilledStep(pads[1..], k - 1);
    }
  }

  /** All pads but the last have a size that is a multiple of 4. */
  ghost predicate Gapless(pads: seq<Pad>) {
    forall k :: 0 <= k < |pads| - 1 ==> pads[k].size % 4 == 0
  }

  lemma {:induction false} GaplessInPlace(pads: seq<Pad>, at: nat, k: nat)
    requires at % 4 == 0 && k < |pads| && Gapless(pads)
    ensures Offsets(pads, at)[k] == at + FilledAt(pads, k)
  {
    if k > 0 {
      var rest := pads[1..];
      assert forall i :: 0 <= i < |rest| ==> rest[i] == pads[i + 1];
      assert RoundUp4(at) == at;
      GaplessInPlace(rest, at + pads[0].size, k - 1);
    }
  }

  /** The bytes written for each pad start exactly at its offset. */
  ghost predicate InPlace(pads: seq<Pad>) {
    forall k :: 0 <= k < |pads| ==> FilledAt(pads, k) == Offsets(pads, 0)[k]
  }

  /** The bytes written for each pad sit exactly at its offset if and only if every pad but the last
      has a size that is a multiple of 4: no gap bytes are written between pads. */
  lemma PadsInPlace(pads: seq<Pad>)
    ensures InPlace(pads) <==> Gapless(pads)
  {
    hide Offsets, FilledAt, Gapless, InPlace;
    if Gapless(pads) {
      AllInPlace(pads);
    }
    if InPlace(pads) {
      InPlaceGapless(pads);
    }
  }

  lemma AllInPlace(pads: seq<Pad>)
    requires Gapless(pads)
    ensures InPlace(pads)
  {
    hide Offsets, FilledAt, Gapless;
    forall k | 0 <= k < |pads| ensures FilledAt(pads, k) == Offsets(pads, 0)[k] {
      GaplessInPlace(pads, 0, k);
    }
  }

  lemma InPlaceGapless(pads: seq<Pad>)
    requires InPlace(pads)
    ensures Gapless(pads)
  {
    hide Offsets, FilledAt;
    PadRanges(pads, 0);
    forall k | 0 <= k < |pads| - 1 ensures pads[k].size % 4 == 0 {
      FilledStep(pads, k);
      SizeOfFour(Offsets(pads, 0)[k], pads[k].size, Offsets(pads, 0)[k + 1]);
    }
  }

  lemma SizeOfFour(at: nat, size: nat, next: nat)
    requires at % 4 == 0 && next % 4 == 0 && next == at + size
    ensures size % 4 == 0
  {}

  /** Two pads of one byte each. */
  const TWO_BYTES: seq<Pad> := [Pad(0, 1, [7]), Pad(1, 1, [8])]

  /** The second is given offset 4, where the pad section has already ended: its byte is written at 1. */
  lemma GapMissing()
    ensures (forall p :: p in TWO_BYTES ==> p.Valid()) && Offsets(TWO_BYTES, 0) == [0, 4]
    ensures PadSection(TWO_BYTES) == [7, 8] && FilledAt(TWO_BYTES, 1) == 1
  {
    var rest: seq<Pad> := TWO_BYTES[1..];
    assert rest == [Pad(1, 1, [8])] && rest[1..] == [];
    assert Offsets(rest, 1) == [4] + Offsets([], 5);
    assert PadSection(rest) == [8] + PadSection([]);
    assert FilledAt(rest, 0) == 0;
  }

  /** When no gap is missing, the finished column holds every pad's bytes exactly at the pad's address:
      its base after the last page plus its offset. */
  lemma PadInImage(images: seq<seq<u8>>, pads: seq<Pad>, k: nat)
    requires (forall i :: 0 <= i < |images| ==> |images[i]| == PAGE_SIZE) && k < |pads|
    requires (forall p :: p in pads ==> p.Valid()) && Gapless(pads)
    ensures var at, all := PAGE_SIZE * |images| + Offsets(pads, 0)[k], Concat(images) + PadSection(pads);
      PadAt(all, at, pads[k])
  {
    hide Offsets, PadSection, Concat, FilledAt, Gapless, Pad.Bytes, PadAt;
    ImagesLength(images);
    GaplessInPlace(pads, 0, k);
    var pre, suf := FilledSplit(pads, k);
    var all, at := Concat(images) + PadSection(pads), PAGE_SIZE * |images| + Offsets(pads, 0)[k];
    assert all == Concat(images) + pre + pads[k].Bytes() + suf;
    assert pads[k] in pads && all[at..at + pads[k].size] == pads[k].Bytes();
    BytesAt(all, at, pads[k]);
  }

  lemma {:induction false} ImagesLength(images: seq<seq<u8>>)
    requires forall i :: 0 <= i < |images| ==> |images[i]| == PAGE_SIZE
    ensures |Concat(images)| == PAGE_SIZE * |images|
  {
    if images != [] {
      ImagesLength(images[1..]);
    }
  }

  // ---------- the loops ----------

  /** The label loop of `process_internal`. */
  method PaginateColumn(secs: seq<Section>, pads: set<Name>, ghost ranks: seq<Ranks>, size: nat, col: nat)
    returns (e: Option<Error>, pages: seq<Page>, index: map<Name, nat>)
    requires Pageable(secs, pads, ranks)
    ensures var r := Paginate(secs, pads, ranks, size, col, []);
      if r.Err? then e == Some(r.error)
      else
          e == None && pages == r.value.pages && |r.value.starts| == |secs| + 1
          && index == LabelIndex(secs, r.value.starts)
  {
    hide Build, Ready, Pages.Pagify, Pageable, Source.Toks, LabelIndex;
    var paging := new Paging([]);
    index := map[];
    ghost var starts: seq<nat> := [];
    e, pages := None, [];
    var k, relative := 0, 0;
    IndexStart(secs);
    OnePerSection(secs, pads, ranks);
    assert index == LabelIndex(secs[..k], starts);
    assert secs[0..] == secs && ranks[0..] == ranks;
    ghost var whole := Paginate(secs, pads, ranks, size, col, []);
    assert whole.Ok? ==> starts + whole.value.starts == whole.value.starts;
    while k < |secs|
      invariant k <= |secs| == |ranks| && Pageable(secs[k..], pads, ranks[k..]) && fresh(paging)
      invariant relative == |paging.pages| && e == None
      invariant |starts| == k && index == LabelIndex(secs[..k], starts)
      invariant var all, rest := Paginate(secs, pads, ranks, size, col, []),
        Paginate(secs[k..], pads, ranks[k..], size, col, paging.pages);
        if rest.Err? then all == rest else all == Ok(Layout(rest.value.pages, starts + rest.value.starts))
    {
      assert secs[k..][0] == secs[k] && secs[k..][1..] == secs[k + 1..] && ranks[k..][0] == ranks[k]
        && ranks[k..][1..] == ranks[k + 1..];
      PageableRest(secs[k..], pads, ranks[k..]);
      PageableFirst(secs[k..], pads, ranks[k..]);
      var v := Build(secs[k].program.Toks(), pads);
      if v.Err? {
        e := Some(v.error);
        return;
      }
      paging.pagenum := map[];
      e := paging.Pagify(v.value, ranks[k], size, col);
      if e.Some? {
        return;
      }
      IndexStep(secs, starts, relative, k);
      index := index[secs[k].name := relative];
      ghost var rest := Paginate(secs[k + 1..], pads, ranks[k + 1..], size, col, paging.pages);
      assert rest.Ok? ==> starts + ([relative] + rest.value.starts) == starts + [relative] + rest.value.starts;
      starts := starts + [relative];
      relative := |paging.pages|;
      k := k + 1;
    }
    pages := paging.pages;
    assert secs[k..] == [] && secs[..k] == secs;
    IndexEnd(secs, starts, |pages|);
  }

  lemma PageableFirst(secs: seq<Section>, pads: set<Name>, ranks: seq<Ranks>)
    requires Pageable(secs, pads, ranks) && secs != []
    ensures var v := Build(secs[0].program.Toks(), pads); v.Ok? ==> Ready(v.value, ranks[0])
  {
    hide Build, Ready, Source.Toks;
  }

  lemma OnePerSection(secs: seq<Section>, pads: set<Name>, ranks: seq<Ranks>)
    requires Pageable(secs, pads, ranks)
    ensures |ranks| == |secs|
  {}

  lemma IndexStart(secs: seq<Section>)
    ensures LabelIndex(secs[..0], []) == map[]
  {}

  lemma IndexStep(secs: seq<Section>, starts: seq<nat>, at: nat, k: nat)
    requires k < |secs| && |starts| == k
    ensures LabelIndex(secs[..k + 1], starts + [at]) == LabelIndex(secs[..k], starts)[secs[k].name := at]
  {
    assert secs[..k + 1][..k] == secs[..k];
    IndexPrefix(secs[..k], starts, [at]);
  }

  lemma {:induction false} IndexPrefix(secs: seq<Section>, starts: seq<nat>, more: seq<nat>)
    requires |secs| <= |starts|
    ensures LabelIndex(secs, starts + more) == LabelIndex(secs, starts)
    decreases |secs|
  {
    if secs != [] {
      IndexPrefix(secs[..|secs| - 1], starts, more);
    }
  }

  lemma IndexEnd(secs: seq<Section>, starts: seq<nat>, total: nat)
    requires |starts| == |secs|
    ensures LabelIndex(secs, starts + [total]) == LabelIndex(secs, starts)
  {
    IndexPrefix(secs, starts, [total]);
  }

  method LookUpBranches(pages: seq<Page>, index: map<Name, nat>, ooo: seq<Name>) returns (r: Result<(nat, nat)>)
    ensures r == BranchLens(pages, index, ooo)
  {
    if |ooo| > 2 {
      return Err(TooManyBranches);
    }
    if |ooo| >= 1 && ooo[0] !in index {
      return Err(InvalidAsm);
    }
    if |ooo| == 2 && ooo[1] !in index {
      return Err(InvalidAsm);
    }
    if (|ooo| >= 1 && index[ooo[0]] >= |pages|) || (|ooo| == 2 && index[ooo[1]] >= |pages|) {
      return Err(Crash);
    }
    return Ok((if |ooo| >= 1 then pages[index[ooo[0]]].curLen else 0, if |ooo| == 2 then pages[index[ooo[1]]].curLen
      else 0));
  }

  lemma SameLens(a: seq<Page>, b: seq<Page>, index: map<Name, nat>, ooo: seq<Name>)
    requires |a| == |b| && forall k :: 0 <= k < |a| ==> a[k].curLen == b[k].curLen
    ensures BranchLens(a, index, ooo) == BranchLens(b, index, ooo)
  {}

  /** The out-of-order loop: lengths are written into the pages it also reads. */
  method SetBranches(pages: seq<Page>, index: map<Name, nat>) returns (r: Result<seq<Page>>)
    ensures var spec := BranchAll(pages, index, pages); if spec.Err? then r.Err? else r == spec
  {
    hide BranchAll, BranchLens;
    BranchAllAt(pages, index, pages);
    var out, i := pages, 0;
    while i < |pages|
      invariant i <= |pages| == |out|
      invariant forall k :: 0 <= k < |pages| ==> out[k].curLen == pages[k].curLen
      invariant forall k :: 0 <= k < i ==> Ok(out[k]) == Branches(pages, index, pages[k])
      invariant forall k :: i <= k < |pages| ==> out[k] == pages[k]
    {
      assert pages[i] in pages;
      SameLens(out, pages, index, out[i].externals);
      var lens := LookUpBranches(out, index, out[i].externals);
      if lens.Err? {
        return Err(lens.error);
      }
      out := out[i := out[i].(ooo1 := lens.value.0, ooo2 := lens.value.1)];
      i := i + 1;
    }
    hide Branches;
    assert forall p :: p in pages ==> Branches(pages, index, p).Ok?;
    assert out == BranchAll(pages, index, pages).value;
    return Ok(out);
  }

  /** The scratchpad loop: every pad gets an offset and the common base after the last page. */
  method PlacePads(pads: seq<Pad>, pages: nat) returns (offsets: seq<nat>, addresses: map<Name, u32>)
    ensures offsets == Offsets(pads, 0) && addresses == Addresses(pads, PAGE_SIZE * pages, 0)
  {
    hide Offsets, Addresses, RoundUp4, PadNames;
    offsets, addresses := [], map[];
    var padSize, base, k := 0, PAGE_SIZE * pages, 0;
    assert pads[0..] == pads;
    while k < |pads|
      invariant k <= |pads| && |offsets| == k && padSize >= 0
      invariant offsets + Offsets(pads[k..], padSize) == Offsets(pads, 0)
      invariant addresses + Addresses(pads[k..], base, padSize) == Addresses(pads, base, 0)
    {
      PadStep(pads[k..], base, padSize);
      assert pads[k..][0] == pads[k] && pads[k..][1..] == pads[k + 1..];
      padSize := RoundUp4(padSize);
      ghost var after := padSize + pads[k].size;
      Assoc(offsets, [padSize], Offsets(pads[k + 1..], after));
      AddressAssoc(addresses, pads[k].name, Low32(base + padSize), Addresses(pads[k + 1..], base, after));
      offsets := offsets + [padSize];
      addresses := addresses[pads[k].name := Low32(base + padSize)];
      padSize := padSize + pads[k].size;
      k := k + 1;
    }
    NoPads(base, padSize);
    assert pads[k..] == [];
  }

  lemma NoPads(base: nat, at: nat)
    ensures Offsets([], at) == [] && Addresses([], base, at) == map[]
  {}

  lemma AddressAssoc(a: map<Name, u32>, l: Name, n: u32, b: map<Name, u32>)
    ensures a[l := n] + b == a + (map[l := n] + b)
  {}

  method FillZeros(w: SectionWriter, n: nat)
    modifies w
    ensures w.data == old(w.data) + seq(n, _ => 0)
  {
    for i := 0 to n
      invariant w.data == old(w.data) + seq(i, _ => 0)
    {
      w.WriteByte(0);
    }
  }

  method WritePad(w: SectionWriter, p: Pad)
    requires p.Valid()
    modifies w
    ensures w.data == old(w.data) + p.Bytes()
  {
    if |p.content| > 0 {
      w.WriteBytes(p.content);
    } else {
      FillZeros(w, p.size);
    }
  }

  /** `fill_scratchpad`: content bytes, or zeros when a pad has no content; nothing in between. */
  method FillScratchpad(w: SectionWriter, pads: seq<Pad>)
    requires forall p :: p in pads ==> p.Valid()
    modifies w
    ensures w.data == old(w.data) + PadSection(pads)
  {
    hide Pad.Bytes, Pad.Valid;
    var k := 0;
    ghost var before := w.data;
    assert pads[0..] == pads;
    while k < |pads|
      invariant k <= |pads| && w.data + PadSection(pads[k..]) == before + PadSection(pads)
    {
      assert pads[k..][0] == pads[k] && pads[k..][1..] == pads[k + 1..];
      assert pads[k] in pads;
      ghost var done, rest := w.data, PadSection(pads[k + 1..]);
      WritePad(w, pads[k]);
      assert done + (pads[k].Bytes() + rest) == done + pads[k].Bytes() + rest;
      k := k + 1;
    }
    assert pads[k..] == [];
  }
}
