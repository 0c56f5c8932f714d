/** A page that is written with scratchpad addresses added to the wrong descriptors. */
module PatchSamples {
  import opened Base
  import opened Isa
  import opened Program
  import opened Structure
  import opened View
  import opened Applied
  import opened Labels
  import opened Pages
  import opened PageLaws
  import opened Samples
  import opened TableSamples
  import opened Serialize
  import opened PageImage
  import opened PageAccepts
  import opened PageProofs
  import opened Patch
  import opened Assembly
  import TableLookup
  import Partition

  /** Adds the address of pad 9 to the table of labels 0 and 1. */
  const APPLY_PAD := Token.Isa(ApplyOffset57, [Ref(0), Num(2), Num(0), Ref(9)])

  /** Descriptor 1 is used before the table, descriptor 2 behind it. */
  const LONG: seq<Token> := [Sync(1), APPLY_PAD, Sync(2)]
  const LINES: seq<Token> := [LINE, LINE, LINE]

  lemma LongBuilt()
    ensures Simple(LONG, LINES) && OneJob(LONG, LINES).Valid() && Build(OneJob(LONG, LINES).Toks(), {9}).Ok?
    ensures var v := ViewOf(OneJob(LONG, LINES), {9});
      OneView(v, LONG, LINES, {9}) && v.dependents == map[0 := [0, 1]]
  {
    hide Build, Source.Valid, Source.Toks, Dependents, OneView, LineBlocks, LabelNames;
    LineFacts(LINES, 0);
    assert LabelNames(LineBlocks(LINES, 0)) == [0, 1, 2];
    LongApplies();
    TwoOfThree();
    OneJobBuilt(LONG, LINES, {9}, map[0 := [0, 1]]);
  }

  lemma LongApplies()
    ensures AppliesOf(map[], LONG) == map[0 := 2]
  {
    hide AppliesOf;
    AppliesKept(map[], [Sync(1)]);
    AppliesSplit(map[], [Sync(1)], [APPLY_PAD] + [Sync(2)]);
    AppliesSplit(map[], [APPLY_PAD], [Sync(2)]);
    AppliesKept(map[0 := 2], [Sync(2)]);
    OneApply();
    assert LONG == [Sync(1)] + ([APPLY_PAD] + [Sync(2)]);
  }

  lemma OneApply()
    ensures AppliesOf(map[], [APPLY_PAD]) == map[0 := 2]
  {
    assert [APPLY_PAD][1..] == [];
    assert AppliesOf(map[], [APPLY_PAD]) == AppliesOf(ApplyOf(map[], APPLY_PAD), []);
  }

  lemma PadRefs()
    ensures Refs(APPLY_PAD, {9}) == [0]
  {
    var a: seq<Arg> := [Ref(0), Num(2), Num(0), Ref(9)];
    assert a[1..] == [Num(2), Num(0), Ref(9)] && a[1..][1..] == [Num(0), Ref(9)] && a[1..][1..][1..] == [Ref(9)];
    assert [Ref(9)][1..] == [] && Named([], {9}) == [];
    assert Named([Ref(9)], {9}) == [];
    assert Named([Num(0), Ref(9)], {9}) == [];
    assert [0] + [] == [0];
  }

  lemma LongRefs()
    ensures forall r :: r in RefsIn(Bracketed(LONG), {9}) ==> r < 3
  {
    hide Refs, RefsIn;
    SyncRefs(1, {9});
    SyncRefs(2, {9});
    PadRefs();
    NumbersOnly(JOB0, {9});
    NumbersOnly(EndJobTok, {9});
    assert forall t :: t in Bracketed(LONG) ==> t in [JOB0, Sync(1), APPLY_PAD, Sync(2), EndJobTok];
    RefsFrom(Bracketed(LONG), {9}, 3);
  }

  lemma LongOrder(g: LabelGraph)
    requires g.dependents == map[0 := [0, 1]] && g.pads == {9}
    ensures PlainLines(g, Bracketed(LONG), []) == [1, 0, 2]
  {
    hide Refs, PlainLines, PlainRefs, Dedup, With;
    PadRefs();
    SyncRefs(2, {9});
    FirstTwo(g, APPLY_PAD);
    PlainSplit(g, [JOB0, Sync(1), APPLY_PAD], [Sync(2)] + [EndJobTok], []);
    assert Bracketed(LONG) == [JOB0, Sync(1), APPLY_PAD] + ([Sync(2)] + [EndJobTok]);
    PlainNext(g, Sync(2), [EndJobTok], [1, 0]);
    PlainOne(g, 2);
    Withs(g);
    DedupLength<Name>([2]);
    DedupLength<Name>([1, 0, 2]);
    assert [1, 0] + [2] == [1, 0, 2];
    PlainEndJob(g, [1, 0, 2]);
  }

  /** Where the program ends up. */
  ghost predicate LongPage(v: View, p: Page) {
    && v.Valid() && OneView(v, LONG, LINES, {9}) && v.dependents == map[0 := [0, 1]] && Ready(v, Flat(v))
    && PageOk(v, 8192, 0, p, 0) && p.jobs == [Job(0)] && p.labels == [1, 0, 2]
  }

  lemma LongPaged()
    ensures OneJob(LONG, LINES).Valid() && Build(OneJob(LONG, LINES).Toks(), {9}).Ok?
    ensures var v := ViewOf(OneJob(LONG, LINES), {9});
      && Ready(v, Flat(v))
      && var r := Pagify(v, Flat(v), 8192, 0, []);
        r.Ok? && |r.value| == 1 && LongPage(v, r.value[0])
  {
    hide Build, Source.Valid, Source.Toks, OneView, Ready, Plain, Pagify, PlainLines, View.Valid, PageOk, Simple,
      Bracketed;
    LongBuilt();
    var v := ViewOf(OneJob(LONG, LINES), {9});
    OneViewPads(v, LONG, LINES, {9});
    OneViewValid(v, LONG, LINES, {9});
    LongRefs();
    LongOrder(LabelsOf(v));
    OnePlainPage(v, LONG, LINES, {9}, [1, 0, 2]);
    PagifyLaws(v, Flat(v), 8192, 0, []);
  }

  // ---------- the page ----------

  const DATA: seq<Token> := [Label(1), LINE, Label(0), LINE, Label(2), LINE]

  lemma LongTokens(v: View, p: Page)
    requires LongPage(v, p)
    ensures p.text == Bracketed(LONG) + [EOF] || p.text == Bracketed(LONG) + [EOF] + [Align(16)]
    ensures p.data == DATA
  {
    hide View.Valid, OneView, PageOk, LabelsToks, Ready, View.LabelToks, Simple, Bracketed;
    LongBuilt();
    OneText(v, LONG, LINES, {9}, p);
    LongLabels(v);
    DataOf(v);
  }

  lemma LongLabels(v: View)
    requires v.Valid() && OneView(v, LONG, LINES, {9})
    ensures forall l: Name :: l < 3 ==> v.LabelToks(l) == [Label(l), LINE]
  {
    hide View.Valid, OneView, View.LabelToks, View.LabelSize, View.AlignOf, Simple, Untied;
    LongBuilt();
    OneUntied(v, LONG, LINES, {9});
    forall l: Name | l < 3 ensures v.LabelToks(l) == [Label(l), LINE] {
      OneLabelAt(v, LONG, LINES, {9}, l);
    }
  }

  lemma DataOf(v: View)
    requires forall l: Name :: l < 3 ==> v.LabelToks(l) == [Label(l), LINE]
    ensures LabelsToks(v, [1, 0, 2]) == DATA
  {
    hide View.LabelToks;
    var labels: seq<Name> := [1, 0, 2];
    assert labels[1..] == [0, 2] && labels[1..][1..] == [2] && labels[1..][1..][1..] == [];
    assert LabelsToks(v, [2]) == [Label(2), LINE] + [];
    assert LabelsToks(v, [0, 2]) == [Label(0), LINE] + LabelsToks(v, [2]);
  }

  // ---------- it is encoded ----------

  lemma SyncFits(cfg: Config, jobs: seq<JobId>, labels: seq<Name>, l: Name)
    requires l in labels
    ensures TokenFits(cfg, jobs, labels, Sync(l))
  {
    assert AsmKinds(Args(UcDmaWriteDesSync)) == [Const];
  }

  lemma ApplyKinds()
    ensures AsmKinds(Args(ApplyOffset57)) == [Const, Const, Const]
    ensures forall s :: s in Args(ApplyOffset57) ==> !s.kind.JobSize?
  {
    var a := Args(ApplyOffset57);
    assert |a| == 3 && a[1..] == [a[1], a[2]] && a[1..][1..] == [a[2]] && a[1..][1..][1..] == [];
    assert AsmKinds([a[2]]) == [Const] + AsmKinds([]);
    assert AsmKinds([a[1], a[2]]) == [Const] + AsmKinds([a[2]]);
  }

  lemma ZeroInside()
    ensures IndexOf(0, [1, 0, 2]) == 1 && TableFits([1, 0, 2], 0, 2)
  {
    var labels: seq<Name> := [1, 0, 2];
    assert labels[0] == 1 && labels[1] == 0;
  }

  lemma ApplyFits(cfg: Config, jobs: seq<JobId>)
    ensures TokenFits(cfg, jobs, [1, 0, 2], APPLY_PAD)
  {
    hide Args;
    ApplyKinds();
    ZeroInside();
    assert 0 in [1, 0, 2] by { assert [1, 0, 2][1] == 0; }
  }

  lemma StartFits(cfg: Config, labels: seq<Name>)
    ensures TokenFits(cfg, [Job(0)], labels, JOB0)
  {
    var a := Args(StartJob);
    assert |a| == 3 && a[1..] == [a[1], a[2]] && a[1..][1..] == [a[2]] && a[1..][1..][1..] == [];
    assert AsmKinds([a[2]]) == [] + AsmKinds([]);
    assert AsmKinds([a[1], a[2]]) == [] + AsmKinds([a[2]]);
    assert AsmKinds(a) == [Const];
    assert Job(0) in [Job(0)];
  }

  lemma EndFits(cfg: Config, jobs: seq<JobId>, labels: seq<Name>)
    ensures TokenFits(cfg, jobs, labels, EndJobTok) && TokenFits(cfg, jobs, labels, EOF)
  {
    var a, b := Args(EndJob), Args(Eof);
    assert |a| == 1 && a[1..] == [] && |b| == 1 && b[1..] == [];
    assert AsmKinds(a) == [] && AsmKinds(b) == [];
  }

  lemma DataFits(cfg: Config, jobs: seq<JobId>, labels: seq<Name>, l: Name)
    ensures TokenFits(cfg, jobs, labels, LINE) && TokenFits(cfg, jobs, labels, Label(l))
      && TokenFits(cfg, jobs, labels, Align(16))
  {}

  lemma LongFits(v: View, cfg: Config, p: Page)
    requires LongPage(v, p)
    ensures AllTokensFit(cfg, p.jobs, p.labels, p.text + p.data)
  {
    hide LongPage, TokenFits;
    LongParts(v, p);
    LongTokens(v, p);
    SyncFits(cfg, p.jobs, p.labels, 1);
    SyncFits(cfg, p.jobs, p.labels, 2);
    ApplyFits(cfg, p.jobs);
    StartFits(cfg, p.labels);
    EndFits(cfg, p.jobs, p.labels);
    forall t | t in p.text + p.data ensures TokenFits(cfg, p.jobs, p.labels, t) {
      DataFits(cfg, p.jobs, p.labels, if t.Label? then t.name else 0);
      LongKinds(p, t);
    }
  }

  lemma LongKinds(p: Page, t: Token)
    requires p.text == Bracketed(LONG) + [EOF] || p.text == Bracketed(LONG) + [EOF] + [Align(16)]
    requires p.data == DATA && t in p.text + p.data
    ensures t in {JOB0, Sync(1), APPLY_PAD, Sync(2), EndJobTok, EOF, Align(16), LINE} || t.Label?
  {
    if t in p.data {
      var k :| 0 <= k < |DATA| && DATA[k] == t;
    } else {
      var all := Bracketed(LONG) + [EOF] + [Align(16)];
      var k :| 0 <= k < |p.text| && p.text[k] == t;
      assert all[k] == t;
    }
  }

  lemma LongParts(v: View, p: Page)
    requires LongPage(v, p)
    ensures p.jobs == [Job(0)] && p.labels == [1, 0, 2] && v.Valid() && PageOk(v, 8192, 0, p, 0)
    ensures 1 in p.labels && 2 in p.labels && NoDup(p.jobs) && NoDup(p.labels)
  {
    hide View.Valid, PageOk, OneView, Ready;
    assert p.labels[0] == 1 && p.labels[2] == 2;
  }

  lemma LongDrafted(v: View, cfg: Config, p: Page)
    requires LongPage(v, p) && cfg.pads.Keys == {9} && cfg.padList == [9]
    ensures DraftPage(cfg, p).Ok? && ScanFrom(START, p.text + p.data, false).Ok?
  {
    hide LongPage, View.Valid, PageOk, DraftPage, AllTokensFit, NoDup, ScanFrom;
    LongParts(v, p);
    LongFits(v, cfg, p);
    DraftAccepts(v, 8192, 0, cfg, p, 0);
    DraftNeedsScan(cfg, p);
  }

  // ---------- where the labels are ----------

  lemma LineSizes(at: nat)
    ensures SizeAt(LINE, at) == 16 && forall l: Name :: SizeAt(Label(l), at) == 0
  {}

  lemma DataPlaces(text: seq<Token>)
    ensures var toks, n := text + DATA, |text|;
      && |toks| == n + 6 && toks[n] == Label(1) && toks[n + 2] == Label(0) && toks[n + 4] == Label(2)
      && PosAt(toks, n) == EndPos(text, 0) && PosAt(toks, n + 2) == EndPos(text, 0) + 16
      && PosAt(toks, n + 4) == EndPos(text, 0) + 32
  {
    hide PosAt, EndPos, SizeAt;
    var toks, n := text + DATA, |text|;
    PosAtStart(text);
    assert toks[n] == DATA[0] && toks[n + 1] == DATA[1] && toks[n + 2] == DATA[2] && toks[n + 3] == DATA[3];
    assert toks[n + 4] == DATA[4];
    LineSizes(PosAt(toks, n));
    LineSizes(PosAt(toks, n + 1));
    LineSizes(PosAt(toks, n + 2));
    LineSizes(PosAt(toks, n + 3));
    PosAtNext(toks, n);
    PosAtNext(toks, n + 1);
    PosAtNext(toks, n + 2);
    PosAtNext(toks, n + 3);
  }

  lemma PosAtStart(text: seq<Token>)
    ensures PosAt(text + DATA, |text|) == EndPos(text, 0)
  {
    assert (text + DATA)[..|text|] == text;
  }

  lemma LabelHere(text: seq<Token>, i: nat)
    requires (forall t :: t in text ==> t.Isa? || t.Align?) && i < |text| + 6 && (text + DATA)[i].Label?
    ensures i == |text| + (if (text + DATA)[i] == Label(1) then 0 else if (text + DATA)[i] == Label(0) then 2 else 4)
  {
    forall k | 0 <= k < |text| ensures !(text + DATA)[k].Label? {
      assert text[k] in text;
    }
  }

  /** The second pass puts label 1 first, then label 0, then label 2, sixteen bytes apart. */
  lemma LongPositions(v: View, cfg: Config, p: Page)
    requires LongPage(v, p) && ScanFrom(START, p.text + p.data, false).Ok?
    ensures var s := ScanFrom(START, p.text + p.data, false).value;
      && s.labelList == [1, 0, 2] && (forall l: Name :: l < 3 ==> l in s.labels)
      && s.labels[1].pos == EndPos(p.text, 0) && s.labels[0].pos == EndPos(p.text, 0) + 16
      && s.labels[2].pos == EndPos(p.text, 0) + 32
  {
    hide LongPage, View.Valid, PageOk, ScanFrom, PosAt, EndPos, JobsOk, EofOk, LabelOk, JobsPlaced;
    LongParts(v, p);
    LongTokens(v, p);
    PageLayout(v, 8192, 0, p, 0);
    PageEnds(v, 8192, 0, p, 0);
    DataPlaces(p.text);
    var s := ScanFrom(START, p.text + p.data, false).value;
    forall l: Name | l < 3 ensures l in s.labels {
      assert [1, 0, 2][if l == 1 then 0 else if l == 0 then 1 else 2] == l;
      assert l in s.labelList;
    }
    LabelHere(p.text, s.labels[0].index);
    LabelHere(p.text, s.labels[1].index);
    LabelHere(p.text, s.labels[2].index);
  }

  // ---------- what is added to which ----------

  lemma {:induction false} PatchesSplit(v: View, pads: set<Name>, a: seq<Token>, b: seq<Token>)
    ensures ProgramPatches(v, pads, a + b) == ProgramPatches(v, pads, a) + ProgramPatches(v, pads, b)
    decreases |a|
  {
    hide TokenPatches;
    if a == [] {
      assert a + b == b;
    } else {
      assert (a + b)[1..] == a[1..] + b;
      PatchesSplit(v, pads, a[1..], b);
      Assoc(TokenPatches(v, pads, a[0]), ProgramPatches(v, pads, a[1..]), ProgramPatches(v, pads, b));
    }
  }

  lemma {:induction false} NoneAsked(v: View, pads: set<Name>, toks: seq<Token>)
    requires forall t :: t in toks ==> !(t.Isa? && t.op.ApplyOffset57?)
    ensures ProgramPatches(v, pads, toks) == []
  {
    if toks != [] {
      assert toks[0] in toks;
      NoneAsked(v, pads, toks[1..]);
    }
  }

  /** The page's operands, with a table of labels 0 and 2 in place of the program's. */
  lemma MissedPatches(w: View, p: Page)
    requires w.dependents == map[0 := [0, 2]] && p.data == DATA
    requires p.text == Bracketed(LONG) + [EOF] || p.text == Bracketed(LONG) + [EOF] + [Align(16)]
    ensures ProgramPatches(w, {9}, p.text + p.data) == [PadPatch(9, 0), PadPatch(9, 2)]
  {
    hide ProgramPatches;
    var tail := p.text[3..];
    assert p.text == [JOB0, Sync(1)] + ([APPLY_PAD] + tail);
    assert p.text + p.data == [JOB0, Sync(1)] + ([APPLY_PAD] + (tail + DATA));
    PatchesSplit(w, {9}, [JOB0, Sync(1)], [APPLY_PAD] + (tail + DATA));
    PatchesSplit(w, {9}, [APPLY_PAD], tail + DATA);
    NoneAsked(w, {9}, [JOB0, Sync(1)]);
    forall t | t in tail + DATA ensures !(t.Isa? && t.op.ApplyOffset57?) {
      TailTokens(p.text, tail, t);
    }
    NoneAsked(w, {9}, tail + DATA);
    OneAsked(w);
  }

  lemma TailTokens(text: seq<Token>, tail: seq<Token>, t: Token)
    requires text == Bracketed(LONG) + [EOF] || text == Bracketed(LONG) + [EOF] + [Align(16)]
    requires tail == text[3..] && t in tail + DATA
    ensures !(t.Isa? && t.op.ApplyOffset57?)
  {
    if t in tail {
      var all := [Sync(2), EndJobTok, EOF, Align(16)];
      var k :| 0 <= k < |tail| && tail[k] == t;
      assert all[k] == t;
    } else {
      var k :| 0 <= k < |DATA| && DATA[k] == t;
    }
  }

  lemma OneAsked(w: View)
    requires w.dependents == map[0 := [0, 2]]
    ensures ProgramPatches(w, {9}, [APPLY_PAD]) == [PadPatch(9, 0), PadPatch(9, 2)]
  {
    var table: seq<Name> := [0, 2];
    assert TableLookup.PassOneTable(w, APPLY_PAD.args) == table;
    assert [APPLY_PAD][1..] == [] && table[1..] == [2] && table[1..][1..] == [];
    assert PadPatches(9, [2]) == [PadPatch(9, 2)] + [];
    assert PadPatches(9, table) == [PadPatch(9, 0)] + PadPatches(9, [2]);
  }

  lemma FoundTable(env: Env)
    requires env.labelList == [1, 0, 2]
    ensures Table(env, APPLY_PAD.args) == Ok([0, 2])
  {
    ZeroInside();
    assert 0 in env.labelList by { assert env.labelList[1] == 0; }
    assert env.labelList[1..3] == [0, 2];
  }

  function When(c: bool, a: nat): nat {
    if c then a else 0
  }

  lemma AskedBoth(env: Env, textLen: nat, at: int)
    requires 9 in env.pads && 0 !in env.pads && 2 !in env.pads && 0 in env.labels && 2 in env.labels
    ensures Asked(env, [PadPatch(9, 0), PadPatch(9, 2)], textLen, at) ==
      When(env.labels[0].pos == textLen + at, env.pads[9]) + When(env.labels[2].pos == textLen + at, env.pads[9])
  {
    var x, y := PadPatch(9, 0), PadPatch(9, 2);
    assert [x, y][1..] == [y] && [y][1..] == [];
    AskedOne(env, y, textLen, at);
  }

  /** The draft's patches. */
  lemma LongAsked(v: View, cfg: Config, p: Page, at: int)
    requires LongPage(v, p) && cfg.pads.Keys == {9} && cfg.padList == [9]
    ensures DraftPage(cfg, p).Ok? && ScanFrom(START, p.text + p.data, false).Ok?
    ensures var d, n := DraftPage(cfg, p).value, EndPos(p.text, 0);
      |d.text| == n && SumAt(d.fixes, at) == if at == 16 || at == 32 then cfg.pads[9] else 0
  {
    hide LongPage, View.Valid, PageOk, DraftPage, ScanFrom, EmitAll, SumAt, Asked, EndPos, ProgramPatches, NoDup;
    LongDrafted(v, cfg, p);
    LongParts(v, p);
    LongTokens(v, p);
    LongPositions(v, cfg, p);
    OnlyPad(cfg);
    FixesAsked(v, 0, cfg, p, 0, at);
    DraftIsEmit(v, 8192, 0, cfg, p, 0);
    var env := EnvOf(cfg, ScanFrom(START, p.text + p.data, false).value);
    var w := v.(dependents := map[0 := [0, 2]]);
    FoundTable(env);
    OneTableOnly(w, env, p);
    EmitsPatches(w, env, p.text + p.data, 0);
    MissedPatches(w, p);
    AskedBoth(env, EndPos(p.text, 0), at);
  }

  lemma OnlyPad(cfg: Config)
    requires cfg.pads.Keys == {9} && cfg.padList == [9]
    ensures NoDup(cfg.padList) && (forall l :: l in cfg.pads ==> l in cfg.padList) && 9 in cfg.pads
    ensures 0 !in cfg.pads && 2 !in cfg.pads
  {
    assert cfg.padList[0] == 9;
    assert forall l :: l in cfg.pads ==> l in cfg.pads.Keys;
  }

  lemma OneTableOnly(w: View, env: Env, p: Page)
    requires w.dependents == map[0 := [0, 2]] && Table(env, APPLY_PAD.args) == Ok([0, 2]) && p.data == DATA
    requires p.text == Bracketed(LONG) + [EOF] || p.text == Bracketed(LONG) + [EOF] + [Align(16)]
    ensures forall t :: t in p.text + p.data && t.Isa? && t.op.ApplyOffset57? ==>
        Table(env, t.args) == Ok(TableLookup.PassOneTable(w, t.args))
  {
    hide Table;
    forall t | t in p.text + p.data && t.Isa? && t.op.ApplyOffset57?
      ensures Table(env, t.args) == Ok(TableLookup.PassOneTable(w, t.args))
    {
      LongKinds(p, t);
    }
  }

  /** The page is encoded, its three descriptors stand at offsets 0, 16 and 32 of the data, labelled 1, 0 and 2, and
      the pad's address is added to the last two. */
  ghost predicate PadMisplaced(cfg: Config, p: Page)
    requires 9 in cfg.pads
  {
    && DraftPage(cfg, p).Ok? && ScanFrom(START, p.text + p.data, false).Ok?
    && var d, s := DraftPage(cfg, p).value, ScanFrom(START, p.text + p.data, false).value;
      && (forall l: Name :: l < 3 ==> l in s.labels)
      && s.labels[1].pos == |d.text| && s.labels[0].pos == |d.text| + 16 && s.labels[2].pos == |d.text| + 32
      && SumAt(d.fixes, 0) == 0 && SumAt(d.fixes, 16) == cfg.pads[9] && SumAt(d.fixes, 32) == cfg.pads[9]
  }

  /** The first pass records the table of labels 0 and 1. The page lists label 1 first, so the second lookup finds
      labels 0 and 2: the page is encoded, the pad's address is added to descriptors 0 and 2, and descriptor 1, at
      offset 0 of the data, goes without. */
  lemma TableMisses(cfg: Config)
    requires cfg.pads.Keys == {9} && cfg.padList == [9]
    ensures var p := OneJob(LONG, LINES);
      && p.Valid() && Build(p.Toks(), {9}).Ok?
      && var v := ViewOf(p, {9});
        && v.dependents == map[0 := [0, 1]] && Ready(v, Flat(v))
        && var r := Pagify(v, Flat(v), 8192, 0, []);
          && r.Ok? && |r.value| == 1 && r.value[0].labels == [1, 0, 2] && PadMisplaced(cfg, r.value[0])
  {
    hide Build, Source.Valid, Source.Toks, Ready, Pagify, DraftPage, View.Valid, PageOk, OneView, ScanFrom, EndPos,
      SumAt;
    LongPaged();
    var v := ViewOf(OneJob(LONG, LINES), {9});
    var p := Pagify(v, Flat(v), 8192, 0, []).value[0];
    LongAsked(v, cfg, p, 0);
    LongAsked(v, cfg, p, 16);
    LongAsked(v, cfg, p, 32);
    LongPositions(v, cfg, p);
  }
}
