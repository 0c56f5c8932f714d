/** From well-formed sections to page images: the passes put together. */
module Assembly {
  import opened Base
  import opened Isa
  import opened Program
  import opened Structure
  import opened View
  import opened Labels
  import opened Pages
  import opened PageLaws
  import opened Serialize
  import opened Patch
  import opened PageImage
  import opened PageProofs
  import opened PageAccepts
  import opened Closure
  import opened Column
  import opened TableLookup
  import opened Packing
  import Tables

  /** The writer's whole demand on a page: nothing occurs twice, every operand resolves, every table lies inside
      the page's label list, every listed scratchpad exists. */
  ghost predicate Encodable(cfg: Config, p: Page) {
    && NoDup(p.jobs) && NoDup(p.labels) && AllTokensFit(cfg, p.jobs, p.labels, p.text + p.data)
    && forall x :: x in cfg.padList ==> x in cfg.pads
  }

  /** Every patched descriptor lies inside the data section. */
  ghost predicate FixesInside(f: Family, d: Draft) {
    forall i :: 0 <= i < |d.fixes| ==> 0 <= d.fixes[i].at && d.fixes[i].at + f.Span() <= |d.data|
  }

  /** What the writer does with a page of section `v`: it encodes exactly the encodable pages, into sections of
      exactly the predicted length; it patches them exactly when the patched descriptors lie inside the data; and
      the whole image is one page. */
  ghost predicate Written(v: View, cfg: Config, p: Page) {
    var d := DraftPage(cfg, p);
    && (d.Ok? <==> Encodable(cfg, p))
    && (d.Ok? ==> HEADER + |d.value.text| + |d.value.data|
                  == HEADER + JobsSize(v, p.jobs) + EOF_SIZE + Gap(v, p)
                    + LabelsSize(v, p.labels) <= p.curLen <= PAGE_SIZE)
    && (WritePage(cfg, p).Ok? <==> d.Ok? && FixesInside(cfg.family, d.value))
    && (WritePage(cfg, p).Ok? ==> |WritePage(cfg, p).value.text| + |WritePage(cfg, p).value.data| == PAGE_SIZE)
  }

  lemma DraftNeedsScan(cfg: Config, p: Page)
    ensures DraftPage(cfg, p).Ok? ==> ScanFrom(START, p.text + p.data, false).Ok?
    ensures WritePage(cfg, p).Ok? ==>
      DraftPage(cfg, p).Ok? && PatchAll(cfg.family, DraftPage(cfg, p).value.data, DraftPage(cfg, p).value.fixes).Ok?
  {
    hide ScanFrom, PatchAll;
  }

  lemma PageIsWritten(v: View, col: nat, cfg: Config, p: Page, num: nat)
    requires v.Valid() && PageOk(v, PAGE_SIZE, col, p, num)
    ensures Written(v, cfg, p)
  {
    hide View.Valid, PageOk, ScanFrom, DraftPage, WritePage, PatchAll, JobsSize, LabelsSize, Gap, AllTokensFit, NoDup;
    DraftAccepts(v, PAGE_SIZE, col, cfg, p, num);
    DraftNeedsScan(cfg, p);
    PredictionExact(v, col, cfg, p, num);
    if DraftPage(cfg, p).Ok? {
      PatchAllAccepts(cfg.family, DraftPage(cfg, p).value.data, DraftPage(cfg, p).value.fixes);
    }
  }

  /** The writer only looks at a page's tokens and at its header fields. */
  lemma BranchedPageOk(v: View, size: nat, col: nat, p: Page, q: Page, num: nat)
    requires PageOk(v, size, col, p, num) && q == p.(ooo1 := q.ooo1, ooo2 := q.ooo2)
    ensures PageOk(v, size, col, q, num)
  {
    hide JobsSize, LabelsSize, JobsToks, LabelsToks, Footprint, Aligner, RoundUp4, Ordinary, Aligned, LabelsSorted;
  }

  /** Two groups that share a label cannot live on one page: the page the pager makes of them is
      refused by the writer's own layout pass. */
  lemma SharedLabelRefused(v: View, col: nat, cfg: Config, num: nat, a: Group, b: Group, l: Name, last: bool)
    requires v.Valid() && OpenOk(v, PAGE_SIZE, Pages.Join(a, b)) && a.jobs != [] && l in a.labels && l in b.labels
    ensures EofJob in v.s.jobs && v.s.jobs[EofJob].first < |v.toks|
    ensures DraftPage(cfg, MakePage(v, col, num, Pages.Join(a, b), last)).Err?
  {
    hide View.Valid, ScanFrom, DraftPage, WritePage, JobsSize, LabelsSize, JobsToks, LabelsToks, Gap, PageOk,
      Ordinary, Footprint, View.AlignOf, RoundUp4, Aligner, WithAlign, DataInv, Placed, AllTokensFit, FixesInside;
    EofToken(v);
    var g := Pages.Join(a, b);
    var p := MakePage(v, col, num, g, last);
    MadePage(v, PAGE_SIZE, col, num, g, last);
    PageIsWritten(v, col, cfg, p, num);
    AlignValues(v, g.labels);
    SortedFacts(v, g.labels);
    TwiceIn(a.labels, b.labels, l);
    assert multiset(p.labels)[l] == multiset(g.labels)[l] >= 2;
    if NoDup(p.labels) {
      DistinctCount(p.labels, l);
    }
  }

  lemma TwiceIn<T>(a: seq<T>, b: seq<T>, x: T)
    requires x in a && x in b
    ensures multiset(a + b)[x] >= 2
  {
    assert multiset(a + b) == multiset(a) + multiset(b);
  }

  /** For every accepted program whose dependent labels hold plain data, no `@` operand of any page
      fails to resolve while the page is encoded. */
  lemma NoLookupFails(v: View, ranks: Ranks, col: nat, before: seq<Page>, cfg: Config, i: nat, t: Token, a: Arg)
    requires Ready(v, ranks) && PlainDependents(v) && cfg.pads.Keys == v.pads
      && Pagify(v, ranks, PAGE_SIZE, col, before).Ok?
    requires var pages := Pagify(v, ranks, PAGE_SIZE, col, before).value;
      |before| <= i < |pages| && t in pages[i].text + pages[i].data
    requires !OutOfOrder(t) && a in ArgsOf(t) && a.Ref?
    ensures var p := Pagify(v, ranks, PAGE_SIZE, col, before).value[i];
      var s := ScanFrom(START, p.text + p.data, false);
      s.Ok? ==> ParseNum(EnvOf(cfg, s.value), a).Ok?
  {
    hide Ready, View.Valid, PlainDependents, Pagify, PageOk, ScanFrom, ParseNum, SelfContained, Paged;
    ReadyValid(v, ranks);
    PagifyLaws(v, ranks, PAGE_SIZE, col, before);
    PagifyContained(v, ranks, PAGE_SIZE, col, before);
    var p := Pagify(v, ranks, PAGE_SIZE, col, before).value[i];
    PagedPage(v, col, before, Pagify(v, ranks, PAGE_SIZE, col, before).value, i);
    LookupsResolve(v, PAGE_SIZE, col, cfg, p, i, t, a);
  }

  lemma PagedPage(v: View, col: nat, before: seq<Page>, pages: seq<Page>, i: nat)
    requires Paged(v, PAGE_SIZE, col, before, pages) && |before| <= i < |pages|
    ensures PageOk(v, PAGE_SIZE, col, pages[i], i)
  {
    hide PageOk;
  }

  lemma WordPrefix(b: seq<u8>, tail: seq<u8>, at: nat)
    requires at + 4 <= |b|
    ensures Word(b + tail, at) == Word(b, at)
  {
    hide Join4;
  }

  // ---------- what is added to a descriptor ----------

  /** Sum of the addresses of the pads asked for the descriptor at offset `at` of the data. */
  function Asked(env: Env, patches: seq<PadPatch>, textLen: nat, at: int): nat {
    if patches == [] then 0 else
      (if patches[0].pad in env.pads
        && ParseNum(env, Ref(patches[0].bd)) == Ok(textLen + at) then env.pads[patches[0].pad] else 0)
        + Asked(env, patches[1..], textLen, at)
  }

  /** The same sum over the patches of some pads only. */
  function AskedOf(env: Env, pads: seq<Name>, patches: seq<PadPatch>, textLen: nat, at: int): nat {
    if patches == [] then 0 else
      (if patches[0].pad in pads then Asked(env, [patches[0]], textLen, at) else 0)
        + AskedOf(env, pads, patches[1..], textLen, at)
  }

  lemma AskedOne(env: Env, x: PadPatch, textLen: nat, at: int)
    ensures Asked(env, [x], textLen, at) ==
      if x.pad in env.pads && ParseNum(env, Ref(x.bd)) == Ok(textLen + at) then env.pads[x.pad] else 0
  {
    hide ParseNum;
    assert [x][1..] == [];
    assert Asked(env, [], textLen, at) == 0;
  }

  lemma {:induction false} SumAppend(a: seq<Fix>, b: seq<Fix>, at: int)
    ensures SumAt(a + b, at) == SumAt(a, at) + SumAt(b, at)
  {
    if a == [] {
      assert a + b == b;
    } else {
      assert (a + b)[1..] == a[1..] + b;
      SumAppend(a[1..], b, at);
    }
  }

  lemma {:induction false} OnePadSum(env: Env, pad: Name, patches: seq<PadPatch>, textLen: nat, at: int)
    requires pad in env.pads && FixesFor(env, pad, patches, textLen).Ok?
    ensures SumAt(FixesFor(env, pad, patches, textLen).value, at) == AskedOf(env, [pad], patches, textLen, at)
    decreases |patches|
  {
    hide ParseNum;
    if patches != [] {
      AskedOne(env, patches[0], textLen, at);
      OnePadSum(env, pad, patches[1..], textLen, at);
      if patches[0].pad == pad {
        var rest := FixesFor(env, pad, patches[1..], textLen).value;
        var fix := Fix(ParseNum(env, Ref(patches[0].bd)).value - textLen, env.pads[pad]);
        assert FixesFor(env, pad, patches, textLen).value == [fix] + rest && ([fix] + rest)[1..] == rest;
      }
    }
  }

  lemma {:induction false} AskedSplit(env: Env, pad: Name, pads: seq<Name>, patches: seq<PadPatch>, textLen: nat,
                                      at: int)
    requires pad !in pads
    ensures AskedOf(env, [pad] + pads, patches, textLen, at) == AskedOf(env, [pad], patches, textLen, at)
      + AskedOf(env, pads, patches, textLen, at)
    decreases |patches|
  {
    hide Asked;
    if patches != [] {
      AskedSplit(env, pad, pads, patches[1..], textLen, at);
    }
  }

  lemma {:induction false} PadsSum(env: Env, pads: seq<Name>, patches: seq<PadPatch>, textLen: nat, at: int)
    requires NoDup(pads) && FixesOf(env, pads, patches, textLen).Ok?
    ensures SumAt(FixesOf(env, pads, patches, textLen).value, at) == AskedOf(env, pads, patches, textLen, at)
    decreases |pads|
  {
    hide FixesFor, Asked, SumAt;
    if pads == [] {
      NobodyAsked(env, patches, textLen, at);
      assert SumAt([], at) == 0 by { NoFixes(at); }
    } else {
      NamesRest(pads);
      assert pads == [pads[0]] + pads[1..];
      OnePadSum(env, pads[0], patches, textLen, at);
      PadsSum(env, pads[1..], patches, textLen, at);
      AskedSplit(env, pads[0], pads[1..], patches, textLen, at);
      SumAppend(FixesFor(env, pads[0], patches, textLen).value, FixesOf(env, pads[1..], patches, textLen).value, at);
    }
  }

  lemma NoFixes(at: int)
    ensures SumAt([], at) == 0
  {}

  lemma {:induction false} NobodyAsked(env: Env, patches: seq<PadPatch>, textLen: nat, at: int)
    ensures AskedOf(env, [], patches, textLen, at) == 0
    decreases |patches|
  {
    if patches != [] {
      NobodyAsked(env, patches[1..], textLen, at);
    }
  }

  lemma {:induction false} EverybodyAsked(env: Env, pads: seq<Name>, patches: seq<PadPatch>, textLen: nat, at: int)
    requires forall x :: x in patches ==> x.pad in pads
    ensures AskedOf(env, pads, patches, textLen, at) == Asked(env, patches, textLen, at)
    decreases |patches|
  {
    hide ParseNum;
    if patches != [] {
      AskedOne(env, patches[0], textLen, at);
      assert patches[0] in patches;
      EverybodyAsked(env, pads, patches[1..], textLen, at);
    }
  }

  /** The patches of a draft, for every descriptor, add up to what the page's own operands asked for. */
  lemma FixesAsked(v: View, col: nat, cfg: Config, p: Page, num: nat, at: int)
    requires v.Valid() && PageOk(v, PAGE_SIZE, col, p, num) && DraftPage(cfg, p).Ok?
    requires NoDup(cfg.padList) && forall l :: l in cfg.pads ==> l in cfg.padList
    ensures var s, d := ScanFrom(START, p.text + p.data, false), DraftPage(cfg, p).value;
      && s.Ok?
      && var e := EmitAll(EnvOf(cfg, s.value), p.text + p.data, 0);
        e.Ok? && SumAt(d.fixes, at) == Asked(EnvOf(cfg, s.value), e.value.patches, |d.text|, at)
  {
    hide View.Valid, PageOk, ScanFrom, EmitAll, FixesOf, NoDup, JobsSize, LabelsSize, Gap, SumAt, Asked, AskedOf,
      EndPos, PatchesNamed;
    DraftIsEmit(v, PAGE_SIZE, col, cfg, p, num);
    PageEnds(v, PAGE_SIZE, col, p, num);
    NothingDropped(p.data);
    var env, d := EnvOf(cfg, ScanFrom(START, p.text + p.data, false).value), DraftPage(cfg, p).value;
    EmitAllAppend(env, p.text, p.data, 0);
    EmitAllPatches(env, p.text + p.data, 0);
    var patches := EmitAll(env, p.text + p.data, 0).value.patches;
    PadsSum(env, cfg.padList, patches, |d.text|, at);
    AllListed(env, cfg.padList, patches);
    EverybodyAsked(env, cfg.padList, patches, |d.text|, at);
  }

  lemma AllListed(env: Env, pads: seq<Name>, patches: seq<PadPatch>)
    requires PatchesNamed(env, patches) && forall l :: l in env.pads ==> l in pads
    ensures forall x :: x in patches ==> x.pad in pads
  {}

  /** In a written page each descriptor that no patched descriptor overlaps holds the address the
      serializers wrote plus the addresses of all pads that operands of the page asked to be added to it,
      modulo 2^57, and keeps every bit that is not address. */
  lemma PatchedDescriptors(v: View, col: nat, cfg: Config, p: Page, num: nat, at: nat)
    requires v.Valid() && PageOk(v, PAGE_SIZE, col, p, num) && WritePage(cfg, p).Ok? && DraftPage(cfg, p).Ok?
    requires NoDup(cfg.padList) && forall l :: l in cfg.pads ==> l in cfg.padList
    requires at + cfg.family.Span() <= |DraftPage(cfg, p).value.data|
      && Apart(cfg.family, DraftPage(cfg, p).value.fixes, at)
    ensures var s, d, w, f := ScanFrom(START, p.text + p.data, false), DraftPage(cfg, p).value, WritePage(cfg, p).value,
      cfg.family;
      && |w.data| >= |d.data| && at + f.Span() <= |w.data| && s.Ok?
      && var e := EmitAll(EnvOf(cfg, s.value), p.text + p.data, 0);
        && e.Ok?
        && Address(f, w.data, at) ==
             (Address(f, d.data, at) + Asked(EnvOf(cfg, s.value), e.value.patches, |d.text|, at)) % P57
        && Sharing(f, w.data, at) == Sharing(f, d.data, at)
  {
    hide View.Valid, PageOk, DraftPage, PatchAll, Word, Apart, Asked, EmitAll, ScanFrom, NoDup;
    FixesAsked(v, col, cfg, p, num, at);
    PatchedSums(cfg, p, at);
  }

  /** The pad patches a program's own tokens ask for, by the tables of the first pass. */
  function ProgramPatches(v: View, pads: set<Name>, toks: seq<Token>): seq<PadPatch> {
    if toks == [] then [] else TokenPatches(v, pads, toks[0]) + ProgramPatches(v, pads, toks[1..])
  }

  function TokenPatches(v: View, pads: set<Name>, t: Token): seq<PadPatch> {
    if t.Isa? && t.op.ApplyOffset57? && |t.args| == 4 && t.args[3].Ref? && t.args[3].name in pads then
      PadPatches(t.args[3].name, PassOneTable(v, t.args))
    else []
  }

  lemma EmitTokPatches(v: View, env: Env, t: Token, pos: nat)
    requires EmitTok(env, t, pos).Ok?
    requires t.Isa? && t.op.ApplyOffset57? ==> Table(env, t.args) == Ok(PassOneTable(v, t.args))
    ensures EmitTok(env, t, pos).value.patches == TokenPatches(v, env.pads.Keys, t)
  {
    hide Values, Table, PassOneTable, Encode, EmitBd, Positions, Args, ParseNum, EmitIsa;
    match t
    case Isa(op, args) => EmitIsaPatches(v, env, op, args);
    case UcDmaBd(bd) => NoBdPatches(env, bd, pos);
    case _ =>
  }

  lemma NoBdPatches(env: Env, bd: seq<Arg>, pos: nat)
    ensures var e := EmitBd(env, bd, pos); e.Ok? ==> e.value.patches == []
  {
    hide ParseNum, EncodeBd;
  }

  lemma EmitIsaPatches(v: View, env: Env, op: Mnemonic, args: seq<Arg>)
    requires EmitIsa(env, op, args).Ok? && (op.ApplyOffset57? ==> Table(env, args) == Ok(PassOneTable(v, args)))
    ensures EmitIsa(env, op, args).value.patches == TokenPatches(v, env.pads.Keys, Token.Isa(op, args))
  {
    hide Values, Table, PassOneTable, Encode, Positions, Args, ParseNum;
  }

  lemma {:induction false} EmitsPatches(v: View, env: Env, toks: seq<Token>, pos: nat)
    requires EmitAll(env, toks, pos).Ok?
    requires forall t :: t in toks && t.Isa? && t.op.ApplyOffset57? ==>
        Table(env, t.args) == Ok(PassOneTable(v, t.args))
    ensures EmitAll(env, toks, pos).value.patches == ProgramPatches(v, env.pads.Keys, toks)
    decreases |toks|
  {
    hide EmitTok, Table, PassOneTable, TokenPatches;
    if toks != [] {
      EmitTokPatches(v, env, toks[0], pos);
      EmitsPatches(v, env, toks[1..], pos + |EmitTok(env, toks[0], pos).value.bytes|);
    }
  }

  /** When tables are apart, what is added to a descriptor of a written page are the addresses of exactly the pads
      that the program's operands name for it, by the tables of the first pass. */
  lemma ProgramPatched(v: View, ranks: Ranks, col: nat, before: seq<Page>, cfg: Config, i: nat, at: nat)
    requires Ready(v, ranks) && Tables.TablesApart(v) && Pagify(v, ranks, PAGE_SIZE, col, before).Ok?
    requires |before| <= i < |Pagify(v, ranks, PAGE_SIZE, col, before).value|
    requires NoDup(cfg.padList) && forall l :: l in cfg.pads ==> l in cfg.padList
    requires var p := Pagify(v, ranks, PAGE_SIZE, col, before).value[i];
      && (forall t :: t in p.text + p.data ==> TableKnown(v.dependents, t))
      && WritePage(cfg, p).Ok? && DraftPage(cfg, p).Ok?
      && at + cfg.family.Span() <= |DraftPage(cfg, p).value.data|
      && Apart(cfg.family, DraftPage(cfg, p).value.fixes, at)
    ensures var p := Pagify(v, ranks, PAGE_SIZE, col, before).value[i];
      var s, d, w, f := ScanFrom(START, p.text + p.data, false), DraftPage(cfg, p).value, WritePage(cfg, p).value,
        cfg.family;
      && s.Ok? && at + f.Span() <= |w.data|
      && Address(f, w.data, at) == (Address(f, d.data, at)
           + Asked(EnvOf(cfg, s.value), ProgramPatches(v, cfg.pads.Keys, p.text + p.data), |d.text|, at)) % P57
      && Sharing(f, w.data, at) == Sharing(f, d.data, at)
  {
    hide Ready, View.Valid, Tables.TablesApart, Pagify, PageOk, DraftPage, WritePage, ScanFrom, EmitAll, Asked, Apart,
      Address, Sharing, NoDup, TableKnown, Table, PassOneTable, ProgramPatches, Chained;
    ReadyValid(v, ranks);
    PagifyLaws(v, ranks, PAGE_SIZE, col, before);
    var p := Pagify(v, ranks, PAGE_SIZE, col, before).value[i];
    PatchedDescriptors(v, col, cfg, p, i, at);
    var env := EnvOf(cfg, ScanFrom(START, p.text + p.data, false).value);
    forall t | t in p.text + p.data && t.Isa? && t.op.ApplyOffset57?
      ensures Table(env, t.args) == Ok(PassOneTable(v, t.args))
    {
      ApartAgrees(v, ranks, col, before, cfg, i, t);
    }
    EmitsPatches(v, env, p.text + p.data, 0);
  }

  lemma PatchedSums(cfg: Config, p: Page, at: nat)
    requires WritePage(cfg, p).Ok? && DraftPage(cfg, p).Ok?
    requires at + cfg.family.Span() <= |DraftPage(cfg, p).value.data|
      && Apart(cfg.family, DraftPage(cfg, p).value.fixes, at)
    ensures var d, w, f := DraftPage(cfg, p).value, WritePage(cfg, p).value, cfg.family;
      && |w.data| >= |d.data| && at + f.Span() <= |w.data|
      && Address(f, w.data, at) == (Address(f, d.data, at) + SumAt(d.fixes, at)) % P57
      && Sharing(f, w.data, at) == Sharing(f, d.data, at)
  {
    hide DraftPage, PatchAll, Word, Apart;
    var d, f := DraftPage(cfg, p).value, cfg.family;
    PatchAllSums(f, d.data, d.fixes, at);
    var patched := PatchAll(f, d.data, d.fixes).value;
    var tail := WritePage(cfg, p).value.data[|patched|..];
    assert WritePage(cfg, p).value.data == patched + tail;
    WordPrefix(patched, tail, at + 4);
    match f
    case Aie2ps =>
      WordPrefix(patched, tail, at + 8);
      WordPrefix(patched, tail, at + 32);
    case Aie4 =>
      WordPrefix(patched, tail, at);
  }

  // ---------- a whole column ----------

  /** Section `k` is called `l`, and its first page is `len` bytes long. */
  ghost predicate StartsWith(secs: seq<Section>, starts: seq<nat>, pages: seq<Page>, k: nat, l: Name, len: nat) {
    k < |secs| && k < |starts| && secs[k].name == l && starts[k] < |pages| && pages[starts[k]].curLen == len
  }

  /** `len` is the length of the first page of the `n`-th label, or 0 when there are not so many. */
  ghost predicate BranchLength(secs: seq<Section>, starts: seq<nat>, pages: seq<Page>, labels: seq<Name>, n: nat,
                               len: nat) {
    if n < |labels| then exists k: nat :: StartsWith(secs, starts, pages, k, labels[n], len) else len == 0
  }

  /** Everything promised of page `i` of section `v` in a finished column: its number, how it is written, the page
      labels its jobs branch to, and the lengths of the first pages of these labels. */
  ghost predicate PageDone(v: View, cfg: Config, secs: seq<Section>, starts: seq<nat>, pages: seq<Page>, i: nat) {
    && i < |pages| && pages[i].num == i && Written(v, cfg, pages[i])
    && BranchesAre(v, pages[i]) && |pages[i].externals| <= 2
    && BranchLength(secs, starts, pages, pages[i].externals, 0, pages[i].ooo1)
    && BranchLength(secs, starts, pages, pages[i].externals, 1, pages[i].ooo2)
  }

  lemma BranchLengthIs(secs: seq<Section>, starts: seq<nat>, pages: seq<Page>, ooo: seq<Name>, n: nat)
    requires |secs| <= |starts| && MayBranch(pages, LabelIndex(secs, starts), ooo)
    ensures BranchLength(secs, starts, pages, ooo, n, BranchLen(pages, LabelIndex(secs, starts), ooo, n))
  {
    hide LabelIndex;
    if n < |ooo| {
      var k := LabelIndexOnly(secs, starts, ooo[n]);
      assert StartsWith(secs, starts, pages, k, ooo[n], BranchLen(pages, LabelIndex(secs, starts), ooo, n));
    }
  }

  lemma SameBranchLen(a: seq<Page>, b: seq<Page>, index: map<Name, nat>, ooo: seq<Name>, k: nat)
    requires |a| == |b| && forall i :: 0 <= i < |a| ==> a[i].curLen == b[i].curLen
    ensures BranchLen(a, index, ooo, k) == BranchLen(b, index, ooo, k)
  {}

  lemma FinishedPage(v: View, col: nat, cfg: Config, secs: seq<Section>, starts: seq<nat>, pages: seq<Page>,
                     final: seq<Page>, i: nat)
    requires v.Valid() && i < |pages| && PageOk(v, PAGE_SIZE, col, pages[i], i) && BranchesAre(v, pages[i])
    requires |secs| <= |starts| && BranchAll(pages, LabelIndex(secs, starts), pages) == Ok(final)
    ensures PageDone(v, cfg, secs, starts, final, i)
  {
    hide View.Valid, PageOk, Written, BranchAll, BranchLen, LabelIndex, BranchesAre, BranchLength;
    var index, ooo := LabelIndex(secs, starts), pages[i].externals;
    BranchLengths(pages, index, pages);
    assert pages[i] in pages;
    assert MayBranch(pages, index, ooo) && MayBranch(final, index, ooo);
    SameBranchLen(final, pages, index, ooo, 0);
    SameBranchLen(final, pages, index, ooo, 1);
    BranchLengthIs(secs, starts, final, ooo, 0);
    BranchLengthIs(secs, starts, final, ooo, 1);
    BranchesKept(v, pages[i], final[i]);
    BranchedPageOk(v, PAGE_SIZE, col, pages[i], final[i], i);
    PageIsWritten(v, col, cfg, final[i], i);
    PageNumber(v, PAGE_SIZE, col, final[i], i);
  }

  lemma PageNumber(v: View, size: nat, col: nat, p: Page, num: nat)
    requires PageOk(v, size, col, p, num)
    ensures p.num == num
  {
    hide JobsSize, LabelsSize, JobsToks, LabelsToks, Footprint, Aligner, RoundUp4, Ordinary, Aligned, LabelsSorted;
  }

  /** Three groups that branch to one and the same page label and land on one page make the column refused: the label
      is listed three times, and the header has room for two. */
  lemma RepeatedLabelRefused(v: View, p: Page, gs: seq<Group>, l: Name, pages: seq<Page>, index: map<Name, nat>)
    requires Holds(v, p, gs) && |gs| >= 3 && p in pages
    requires forall k :: 0 <= k < |gs| ==> BranchesTo(JobsToks(v, gs[k].jobs), l)
    ensures BranchAll(pages, index, pages).Err?
  {
    hide JobsToks, Formed, BranchesTo, Targets, AllJobs, AllLabels, AllTargets, Sorted, BranchAll;
    forall k | 0 <= k < |gs| ensures Targets(JobsToks(v, gs[k].jobs)) != [] {
      TargetsAre(JobsToks(v, gs[k].jobs), l);
    }
    ListedPerGroup(v, gs);
    BranchLengths(pages, index, pages);
  }

  /** The names of a column's pads are different and their contents have the announced sizes. */
  ghost predicate PadsOk(pads: seq<Pad>) {
    NoDup(PadNames(pads)) && forall p :: p in pads ==> p.Valid()
  }

  function NameSet(pads: seq<Pad>): set<Name> {
    set l | l in PadNames(pads)
  }

  /** The list names every pad once, in order. */
  ghost predicate EachListed(pads: seq<Pad>, names: seq<Name>) {
    |names| == |pads| && forall k :: 0 <= k < |pads| ==> names[k] == pads[k].name
  }

  lemma ColumnConfigured(family: Family, packet: u32, pads: seq<Pad>, pages: nat, index: map<Name, nat>)
    ensures var cfg := ColumnConfig(family, packet, pads, pages, index);
      && cfg.family == family && cfg.controlPacket == packet && cfg.pageIndex == index
      && cfg.pads.Keys == NameSet(pads) && EachListed(pads, cfg.padList)
  {
    hide Addresses, PadNames;
    Addressed(pads, PAGE_SIZE * pages, 0);
    PadNamesAt(pads);
  }

  /** The whole column: every section of an accepted column starts on the page recorded for its label,
      and every one of its pages is numbered by its place, branches to exactly the page labels its jobs name,
      carries the lengths of their first pages, and is written exactly as predicted when it is encodable, with the
      column's own page index, pad list and pad addresses. */
  lemma ColumnAssembles(secs: seq<Section>, pads: seq<Pad>, ranks: seq<Ranks>, col: nat, family: Family, packet: u32,
                        final: seq<Page>,
                        k: nat, i: nat)
    requires Pageable(secs, NameSet(pads), ranks) && DistinctNames(secs) && k < |secs|
    requires Paginate(secs, NameSet(pads), ranks, PAGE_SIZE, col, []).Ok?
    requires var lay := Paginate(secs, NameSet(pads), ranks, PAGE_SIZE, col, []).value;
      && |lay.starts| == |secs| + 1
      && BranchAll(lay.pages, LabelIndex(secs, lay.starts), lay.pages) == Ok(final)
      && lay.starts[k] <= i < lay.starts[k + 1]
    ensures var lay := Paginate(secs, NameSet(pads), ranks, PAGE_SIZE, col, []).value;
      var index := LabelIndex(secs, lay.starts);
      var cfg := ColumnConfig(family, packet, pads, |lay.pages|, index);
      && Build(secs[k].program.Toks(), NameSet(pads)).Ok?
      && secs[k].name in index && index[secs[k].name] == lay.starts[k]
      && cfg.family == family && cfg.controlPacket == packet && cfg.pageIndex == index
      && cfg.pads.Keys == NameSet(pads) && EachListed(pads, cfg.padList)
      && PageDone(ViewOf(secs[k].program, NameSet(pads)), cfg, secs, lay.starts, final, i)
  {
    hide Build, Paginate, Pageable, BranchAll, LabelIndex, PageDone, View.Valid, PageOk, Source.Toks, ColumnConfig,
      NameSet, EachListed;
    var names := NameSet(pads);
    ColumnSections(secs, names, ranks, PAGE_SIZE, col, []);
    var lay := Paginate(secs, names, ranks, PAGE_SIZE, col, []).value;
    assert SectionAt(secs, names, PAGE_SIZE, col, lay, k);
    LabelIndexIs(secs, lay.starts, k);
    SectionView(secs, names, ranks, k);
    var v := ViewOf(secs[k].program, names);
    assert PageOk(v, PAGE_SIZE, col, lay.pages[i], i);
    var index := LabelIndex(secs, lay.starts);
    ColumnConfigured(family, packet, pads, |lay.pages|, index);
    FinishedPage(v, col, ColumnConfig(family, packet, pads, |lay.pages|, index), secs, lay.starts, lay.pages, final, i);
  }

  lemma SectionView(secs: seq<Section>, pads: set<Name>, ranks: seq<Ranks>, k: nat)
    requires Pageable(secs, pads, ranks) && k < |secs| && Build(secs[k].program.Toks(), pads).Ok?
    ensures ViewOf(secs[k].program, pads).Valid()
  {
    hide Build, View.Valid, Ready, Source.Toks;
    ReadyValid(ViewOf(secs[k].program, pads), ranks[k]);
  }

  /** The bytes of a written page. */
  function ImageBytes(i: Image): seq<u8> {
    i.text + i.data
  }

  /** Bytes of the pages, one after another. */
  function PageBytes(images: seq<Image>): (all: seq<seq<u8>>)
    ensures |all| == |images| && forall i :: 0 <= i < |all| ==> all[i] == ImageBytes(images[i])
  {
    seq(|images|, i requires 0 <= i < |images| => ImageBytes(images[i]))
  }

  /** The address the writer adds for a pad is where the finished column holds the pad's bytes: the column being
      its written pages and then the pad section, smaller than 2^32 bytes, with all pads but the last a
      multiple of 4 long. */
  lemma PadsWhereAdded(family: Family, packet: u32, pads: seq<Pad>, index: map<Name, nat>, final: seq<Page>,
                       images: seq<Image>, k: nat)
    requires PadsOk(pads) && Gapless(pads) && k < |pads| && |images| == |final|
    requires var cfg := ColumnConfig(family, packet, pads, |final|, index);
      forall i :: 0 <= i < |final| ==> WritePage(cfg, final[i]) == Ok(images[i]) && |ImageBytes(images[i])| == PAGE_SIZE
    requires PAGE_SIZE * |final| + Offsets(pads, 0)[k] < 0x1_0000_0000
    ensures var cfg, all := ColumnConfig(family, packet, pads, |final|, index),
      Concat(PageBytes(images)) + PadSection(pads);
      && pads[k].name in cfg.pads
      && PadAt(all, cfg.pads[pads[k].name], pads[k])
  {
    hide WritePage, Offsets, PadSection, Concat, Gapless, Pad.Bytes, Addresses, PadNames, NoDup, PadAt;
    AddressAt(pads, PAGE_SIZE * |final|, 0, k);
    PadInImage(PageBytes(images), pads, k);
  }
}
