/** Programs of one job over labels of one line each, on which a descriptor table goes wrong. */
module TableSamples {
  import opened Base
  import opened Isa
  import opened Program
  import opened Structure
  import opened View
  import opened Applied
  import opened Jobs
  import opened Labels
  import opened Pages
  import opened PageLaws
  import opened Partition
  import opened SharedLabels
  import opened Acceptance
  import opened Samples
  import opened Serialize
  import opened PageImage
  import opened PageAccepts
  import opened PageProofs
  import opened Patch
  import Closure
  import Tables

  // ---------- one job, one line for every label ----------

  function LineBlocks(lines: seq<Token>, k: Name): seq<Block> {
    if lines == [] then [] else [Block(k, [lines[0]], [])] + LineBlocks(lines[1..], k + 1)
  }

  function LineToks(lines: seq<Token>, k: Name): seq<Token> {
    if lines == [] then [] else [Label(k), lines[0]] + LineToks(lines[1..], k + 1)
  }

  /** Job 0 with the instructions `body`; label `l` is followed by line `l` of `lines`. */
  function OneJob(body: seq<Token>, lines: seq<Token>): Source {
    Source([JobSeg(0, false, body)], [], LineBlocks(lines, 0))
  }

  const JOB0 := Token.Isa(StartJob, [Num(0)])

  function Bracketed(body: seq<Token>): seq<Token> {
    [JOB0] + body + [EndJobTok]
  }

  function OneToks(body: seq<Token>, lines: seq<Token>): seq<Token> {
    Bracketed(body) + ([EOF] + LineToks(lines, 0))
  }

  /** Instructions that neither launch nor wait for a barrier, and lines of data. */
  predicate Simple(body: seq<Token>, lines: seq<Token>) {
    && (forall t :: t in body ==> BodyOp(t) && t.op !in {LaunchJob, LocalBarrier} && t.args != [Num(0)])
    && forall t :: t in lines ==> t.Long? || t.UcDmaBd?
  }

  lemma {:induction false} LineFacts(lines: seq<Token>, k: Name)
    requires forall t :: t in lines ==> t.Long? || t.UcDmaBd?
    ensures var b := LineBlocks(lines, k);
      && BlocksToks(b) == LineToks(lines, k) && (forall x :: x in b ==> x.Valid())
      && |LabelNames(b)| == |lines| && forall i :: 0 <= i < |lines| ==> LabelNames(b)[i] == k + i
    ensures |LineToks(lines, k)| == 2 * |lines|
    decreases |lines|
  {
    if lines != [] {
      LineFacts(lines[1..], k + 1);
      assert lines[0] in lines;
      var b := Block(k, [lines[0]], []);
      assert b.Toks() == [Label(k), lines[0]];
    }
  }

  lemma {:induction false} LineAt(lines: seq<Token>, k: Name, i: nat)
    requires i < |lines| && |LineToks(lines, k)| == 2 * |lines|
    ensures LineToks(lines, k)[2 * i] == Label(k + i) && LineToks(lines, k)[2 * i + 1] == lines[i]
    decreases |lines|
  {
    if i > 0 {
      LineAt(lines[1..], k + 1, i - 1);
    }
  }

  lemma {:induction false} LineKinds(lines: seq<Token>, k: Name)
    requires forall t :: t in lines ==> t.Long? || t.UcDmaBd?
    ensures forall t :: t in LineToks(lines, k) ==> t.Label? || t.Long? || t.UcDmaBd?
    decreases |lines|
  {
    if lines != [] {
      assert lines[0] in lines;
      LineKinds(lines[1..], k + 1);
    }
  }

  lemma OneSource(body: seq<Token>, lines: seq<Token>)
    requires Simple(body, lines)
    ensures var p := OneJob(body, lines);
      && p.Valid() && p.Toks() == OneToks(body, lines) && SegIds(p.segs, 0) == [Job(0)]
      && |LabelNames(p.blocks)| == |lines| && forall i :: 0 <= i < |lines| ==> LabelNames(p.blocks)[i] == i
  {
    hide BodyOp, LineBlocks, LineToks, BlocksToks, LabelNames;
    LineFacts(lines, 0);
    var segs := OneJob(body, lines).segs;
    assert segs[1..] == [] && SegsToks(segs) == segs[0].Toks() + [];
    assert SegIds(segs, 0) == [Job(0)] + SegIds([], 0);
    assert segs[0].Toks() == Bracketed(body);
    var a, b := Bracketed(body), LineToks(lines, 0);
    assert a + [EOF] + [] + b == a + ([EOF] + b);
  }

  lemma {:induction false} AppliesSplit(m: map<Name, nat>, a: seq<Token>, b: seq<Token>)
    ensures AppliesOf(m, a + b) == AppliesOf(AppliesOf(m, a), b)
    decreases |a|
  {
    hide ApplyOf;
    if a == [] {
      assert a + b == b;
    } else {
      assert (a + b)[1..] == a[1..] + b;
      AppliesSplit(ApplyOf(m, a[0]), a[1..], b);
    }
  }

  lemma OneJobApplies(body: seq<Token>, lines: seq<Token>)
    requires Simple(body, lines)
    ensures AppliesOf(map[], OneToks(body, lines)) == AppliesOf(map[], body)
  {
    hide BodyOp, LineToks, AppliesOf;
    LineKinds(lines, 0);
    var m := AppliesOf(map[], body);
    var tail := [EOF] + LineToks(lines, 0);
    AppliesKept(map[], [JOB0]);
    AppliesSplit(map[], [JOB0], body);
    AppliesSplit(map[], [JOB0] + body, [EndJobTok]);
    AppliesKept(m, [EndJobTok]);
    AppliesSplit(map[], Bracketed(body), tail);
    AppliesKept(m, tail);
  }

  /** What the layout pass makes of such a program. */
  ghost predicate OneView(v: View, body: seq<Token>, lines: seq<Token>, pads: set<Name>) {
    && v.Valid() && v.toks == OneToks(body, lines) && v.pads == pads
    && v.s.jobids == [Job(0), EofJob] && |v.s.labelList| == |lines|
    && forall i :: 0 <= i < |lines| ==> v.s.labelList[i] == i
  }

  lemma OneJobBuilt(body: seq<Token>, lines: seq<Token>, pads: set<Name>, tables: map<Name, seq<Name>>)
    requires Simple(body, lines)
    requires Dependents(LabelNames(LineBlocks(lines, 0)), AppliesOf(map[], body)) == Ok(tables)
    ensures var p := OneJob(body, lines);
      && p.Valid() && Build(p.Toks(), pads).Ok?
      && OneView(ViewOf(p, pads), body, lines, pads) && ViewOf(p, pads).dependents == tables
  {
    hide ScanFrom, Source.Toks, Source.Valid, Simple, LineBlocks, OneToks, AppliesOf, Dependents, View.Valid, SegIds,
      LabelNames;
    OneSource(body, lines);
    OneJobApplies(body, lines);
    Built(OneJob(body, lines), pads);
    assert [Job(0)] + [EofJob] == [Job(0), EofJob];
  }

  // ---------- its job and its labels ----------

  lemma OneUntied(v: View, body: seq<Token>, lines: seq<Token>, pads: set<Name>)
    requires Simple(body, lines) && OneView(v, body, lines, pads)
    ensures Untied(v) && Job(0) in v.s.jobs && EofJob in v.s.jobs
    ensures forall l: Name :: l in v.s.labels <==> l < |lines|
  {
    hide View.Valid, LineToks, BodyOp;
    KnownIds(v);
    assert v.s.jobids[0] in v.s.jobids && v.s.jobids[1] in v.s.jobids;
    LineKinds(lines, 0);
    forall l: Name ensures l in v.s.labels <==> l < |lines| {
      InLabelList(v, l);
      assert l < |lines| ==> v.s.labelList[l] in v.s.labelList;
    }
    var u, own := LineToks(lines, 0), [JOB0, EndJobTok, EOF];
    forall t | t in v.toks && t.Isa? ensures t.op !in {LaunchJob, LocalBarrier} {
      assert t in body || t in own || t in u;
    }
  }

  /** Where the job's own tokens stand. */
  lemma OneBody(body: seq<Token>, lines: seq<Token>)
    requires Simple(body, lines)
    ensures var t, b := OneToks(body, lines), |body| + 1;
      && |t| == |body| + 3 + |LineToks(lines, 0)| && t[0] == JOB0 && t[b] == EndJobTok && t[b + 1] == EOF
      && (forall i :: 0 < i < b ==> t[i].Isa? && t[i].args != [Num(0)] && t[i] != EndJobTok)
      && (forall i :: b + 2 <= i < |t| ==> t[i] == LineToks(lines, 0)[i - b - 2])
  {
    hide LineToks;
    var t, b := OneToks(body, lines), |body| + 1;
    forall i | 0 < i < b ensures t[i].Isa? && t[i].args != [Num(0)] && t[i] != EndJobTok {
      assert t[i] == body[i - 1] && body[i - 1] in body;
    }
  }

  lemma OneJobAt(v: View, body: seq<Token>, lines: seq<Token>, pads: set<Name>)
    requires Simple(body, lines) && OneView(v, body, lines, pads) && Job(0) in v.s.jobs
    ensures v.JobToks(Job(0)) == Bracketed(body) && v.JobSize(Job(0)) == Sizes(Bracketed(body))
  {
    hide View.Valid, View.JobToks, View.JobSize, LineToks, Sizes, OneToks, BodyOp;
    var b, u := |body| + 1, LineToks(lines, 0);
    OneBody(body, lines);
    LineKinds(lines, 0);
    assert forall i :: 0 <= i < |u| ==> u[i] in u;
    JobAt(v, Job(0), 0, b);
    OneStart(body, lines);
  }

  lemma OneStart(body: seq<Token>, lines: seq<Token>)
    ensures OneToks(body, lines)[0..|body| + 2] == Bracketed(body)
  {}

  lemma LabelOnce(lines: seq<Token>, l: Name, i: nat)
    requires (forall t :: t in lines ==> t.Long? || t.UcDmaBd?) && |LineToks(lines, 0)| == 2 * |lines|
    requires i < 2 * |lines|
    ensures LineToks(lines, 0)[i] == Label(l) ==> i == 2 * l
  {
    hide LineToks;
    var k := i / 2;
    LineAt(lines, 0, k);
    assert lines[k] in lines;
    assert i == 2 * k || i == 2 * k + 1;
  }

  /** Label `l` stands once. */
  lemma OneLabelOnce(body: seq<Token>, lines: seq<Token>, l: Name, i: nat)
    requires Simple(body, lines) && i < |OneToks(body, lines)| && OneToks(body, lines)[i] == Label(l)
    ensures i == |body| + 3 + 2 * l
  {
    hide LineToks, BodyOp, OneToks;
    OneBody(body, lines);
    LineFacts(lines, 0);
    var b := |body| + 1;
    assert i >= b + 2;
    LabelOnce(lines, l, i - b - 2);
  }

  lemma OneLineAt(body: seq<Token>, lines: seq<Token>, l: Name)
    requires Simple(body, lines) && l < |lines|
    ensures var t, a := OneToks(body, lines), |body| + 3 + 2 * l;
      && a + 1 < |t| && t[a] == Label(l) && t[a + 1] == lines[l] && (lines[l].Long? || lines[l].UcDmaBd?)
  {
    hide LineToks, BodyOp, OneToks;
    var t, u, a := OneToks(body, lines), LineToks(lines, 0), 2 * l;
    OneBody(body, lines);
    LineFacts(lines, 0);
    LineAt(lines, 0, l);
    assert lines[l] in lines;
    assert t[|body| + 3 + a] == u[a] && t[|body| + 3 + a + 1] == u[a + 1];
  }

  lemma Pair<T>(t: seq<T>, a: nat)
    requires a + 2 <= |t|
    ensures t[a..a + 2] == [t[a], t[a + 1]]
  {}

  /** Where label `l` stands, and what follows it. */
  lemma OneLabelPlace(body: seq<Token>, lines: seq<Token>, l: Name)
    requires Simple(body, lines) && l < |lines|
    ensures var t, a := OneToks(body, lines), |body| + 3 + 2 * l;
      && a + 1 < |t| && t[a] == Label(l) && t[a + 1] == lines[l] && (lines[l].Long? || lines[l].UcDmaBd?)
      && t[a..a + 2] == [Label(l), lines[l]]
      && (a + 2 == |t| || t[a + 2].Label?)
  {
    hide LineToks, BodyOp, OneToks;
    var t, b := OneToks(body, lines), |body| + 1;
    OneBody(body, lines);
    LineFacts(lines, 0);
    OneLineAt(body, lines, l);
    Pair(t, b + 2 + 2 * l);
    if l + 1 < |lines| {
      OneLineAt(body, lines, l + 1);
    }
  }

  lemma OneLabelAt(v: View, body: seq<Token>, lines: seq<Token>, pads: set<Name>, l: Name)
    requires Simple(body, lines) && OneView(v, body, lines, pads) && l < |lines| && l in v.s.labels
    ensures v.LabelToks(l) == [Label(l), lines[l]] && v.LabelSize(l) == SizeOf(lines[l])
    ensures v.AlignOf(l) == Some(if lines[l].UcDmaBd? then 16 else 4)
  {
    hide View.Valid, View.LabelToks, View.LabelSize, View.AlignOf, SizeOf, BodyOp, OneToks;
    OneLabelPlace(body, lines, l);
    forall i | 0 <= i < |v.toks| && v.toks[i] == Label(l) ensures i == |body| + 3 + 2 * l {
      OneLabelOnce(body, lines, l, i);
    }
    LabelAt(v, l, |body| + 3 + 2 * l);
  }

  // ---------- its group and its page ----------

  lemma OpSizeSmall(op: Mnemonic)
    ensures OpSize(op) <= 24
  {}

  lemma {:induction false} SizesSmall(toks: seq<Token>)
    requires forall t :: t in toks ==> t.Isa?
    ensures Sizes(toks) <= 24 * |toks|
  {
    hide OpSize;
    if toks != [] {
      assert toks[0] in toks;
      OpSizeSmall(toks[0].op);
      SizesSmall(toks[1..]);
    }
  }

  lemma {:induction false} LabelsSmall(v: View, labels: seq<Name>)
    requires forall l :: l in labels ==> v.LabelSize(l) <= 16
    ensures LabelsSize(v, labels) <= 16 * |labels|
  {
    hide View.LabelSize;
    if labels != [] {
      assert labels[0] in labels;
      LabelsSmall(v, labels[1..]);
    }
  }

  /** The job's group, when it can be formed. */
  lemma OneGroup(v: View, ranks: Ranks, body: seq<Token>, lines: seq<Token>, pads: set<Name>)
    requires Simple(body, lines) && OneView(v, body, lines, pads) && |body| <= 3 && |lines| <= 3
    requires Ready(v, ranks) && Job(0) in v.s.jobs && Formable(v, Job(0))
    ensures var r := GroupOf(v, ranks, Job(0));
      && r.Ok? && r.value.jobs == [Job(0)] && Footprint(r.value.tsize, r.value.dsize) <= 8192
      && NoDup(r.value.labels) && forall l :: l in r.value.labels <==> Uses(v, Job(0), l)
  {
    hide Ready, View.Valid, Untied, GroupOf, Mates, Formable, Uses, RefsIn, View.JobToks, View.JobSize, LabelsSize,
      GroupFacts, Sizes, Simple, OneToks, NoLaunch, Footprint;
    OneUntied(v, body, lines, pads);
    UntiedJobs(v);
    GroupFormable(v, ranks, Job(0));
    GroupHolds(v, ranks, Job(0));
    var g := GroupOf(v, ranks, Job(0)).value;
    GroupParts(v, Job(0), g);
    forall k ensures Mates(GraphOf(v), Job(0), k) <==> k == Job(0) {
      UntiedMate(v, Job(0), k);
    }
    OneElement(g.jobs, Job(0));
    OneJobAt(v, body, lines, pads);
    OneGroupSmall(v, ranks, body, lines, pads);
  }

  lemma OneGroupSmall(v: View, ranks: Ranks, body: seq<Token>, lines: seq<Token>, pads: set<Name>)
    requires Simple(body, lines) && OneView(v, body, lines, pads) && |body| <= 3 && |lines| <= 3
    requires Ready(v, ranks) && Job(0) in v.s.jobs && GroupOf(v, ranks, Job(0)).Ok?
    requires var g := GroupOf(v, ranks, Job(0)).value; g.jobs == [Job(0)] && NoDup(g.labels)
    ensures var g := GroupOf(v, ranks, Job(0)).value; Footprint(g.tsize, g.dsize) <= 8192
  {
    hide Ready, View.Valid, GroupOf, View.JobToks, View.JobSize, View.LabelSize, LabelsSize, Sizes, OneToks, NoDup,
      GroupJobs, GroupLabels, BodyOp, Footprint, SizeOf;
    var g := GroupOf(v, ranks, Job(0)).value;
    GroupHolds(v, ranks, Job(0));
    OneUntied(v, body, lines, pads);
    OneJobAt(v, body, lines, pads);
    GroupLabelsKnown(v, ranks, Job(0));
    assert g.tsize == v.JobSize(Job(0)) by { OneJobSize(v); }
    BodyIsa(body, lines);
    SizesSmall(Bracketed(body));
    forall l | l in g.labels ensures v.LabelSize(l) <= 16 {
      OneLabelAt(v, body, lines, pads, l);
      LineSize(lines[l]);
    }
    LabelsSmall(v, g.labels);
    forall l | l in g.labels ensures l in v.s.labelList {
      InLabelList(v, l);
    }
    NoDupBound(g.labels, Elements(v.s.labelList));
    FewNames(v.s.labelList);
    Footprints2(g.tsize, g.dsize);
  }

  lemma OneJobSize(v: View)
    ensures JobsSize(v, [Job(0)]) == v.JobSize(Job(0))
  {
    hide View.JobSize;
    assert [Job(0)][1..] == [];
  }

  lemma BodyIsa(body: seq<Token>, lines: seq<Token>)
    requires Simple(body, lines)
    ensures forall t :: t in Bracketed(body) ==> t.Isa?
  {}

  lemma LineSize(t: Token)
    requires t.Long? || t.UcDmaBd?
    ensures SizeOf(t) <= 16
  {}

  function Elements(s: seq<Name>): set<Name> {
    set l | l in s
  }

  lemma {:induction false} FewNames(s: seq<Name>)
    ensures |Elements(s)| <= |s|
  {
    if s != [] {
      FewNames(s[1..]);
      assert s == [s[0]] + s[1..];
      var a, b := Elements(s[1..]), {s[0]};
      assert Elements(s) == a + b && |a + b| == |a| + |b| - |a * b|;
    } else {
      assert Elements(s) == {};
    }
  }

  lemma Footprints2(a: nat, b: nat)
    requires a <= 120 && b <= 48
    ensures Footprint(a, b) <= 8192
  {}

  /** One page with the job and its sorted labels. */
  lemma OnePaged(v: View, ranks: Ranks, g: Group)
    requires Ready(v, ranks) && v.s.jobids == [Job(0), EofJob] && Job(0) in v.s.jobs && EofJob in v.s.jobs
    requires GroupOf(v, ranks, Job(0)) == Ok(g) && g.jobs == [Job(0)] && Footprint(g.tsize, g.dsize) <= 8192
    ensures var r := Pagify(v, ranks, 8192, 0, []);
      r.Ok? && |r.value| == 1 && r.value[0].jobs == [Job(0)] && r.value[0].labels == Sorted(v, g.labels)
  {
    hide Ready, View.Valid, GroupOf, Place, Footprint, Finish, Sorted;
    ReadyValid(v, ranks);
    var start := Book([], map[], EMPTY);
    PlaceJoins(v, ranks, 8192, 0, 0, start, Job(0), g);
    var b := Place(v, ranks, 8192, 0, 0, start, Job(0)).value;
    assert b.open.jobs == [Job(0)] && b.open.labels == g.labels;
    PlaceLast(v, ranks, 0, b);
    TwoSteps(v, ranks, start, b);
    FinishOne(v, b);
  }

  lemma TwoSteps(v: View, ranks: Ranks, start: Book, b: Book)
    requires Ready(v, ranks) && v.s.jobids == [Job(0), EofJob] && Job(0) in v.s.jobs && EofJob in v.s.jobs
    requires Place(v, ranks, 8192, 0, 0, start, Job(0)) == Ok(b) && PlaceAll(v, ranks, 8192, 0, 0, b, [EofJob]) == Ok(b)
    ensures PlaceAll(v, ranks, 8192, 0, 0, start, v.s.jobids) == Ok(b)
  {
    hide Ready, Place;
    assert v.s.jobids[1..] == [EofJob];
  }

  lemma FinishOne(v: View, b: Book)
    requires v.Valid() && b.open.jobs != [] && b.open.jobs != [EofJob] && b.pages == []
    ensures var r := Finish(v, 0, 0, b);
      r.Ok? && |r.value| == 1 && r.value[0].jobs == b.open.jobs && r.value[0].labels == Sorted(v, b.open.labels)
  {
    hide View.Valid, Sorted;
    EofToken(v);
  }

  // ---------- the order of a plain job's labels ----------

  /** The operand loop, when data refers to nothing. */
  function PlainRefs(g: LabelGraph, refs: seq<Name>, acc: seq<Name>): seq<Name>
    decreases |refs|
  {
    if refs == [] then acc else PlainRefs(g, refs[1..], Dedup(acc + With(g, refs[0])))
  }

  function PlainLines(g: LabelGraph, toks: seq<Token>, acc: seq<Name>): seq<Name>
    decreases |toks|
  {
    if toks == [] then acc else PlainLines(g, toks[1..], Dedup(acc + PlainRefs(g, Refs(toks[0], g.pads), [])))
  }

  /** Lines that refer to nothing add nothing. */
  lemma {:induction false} QuietLines(g: LabelGraph, rank: map<Name, nat>, top: nat, toks: seq<Token>, acc: seq<Name>,
                                      bound: nat)
    requires Ranked(g, rank, top) && Below(g, rank, RefsIn(toks, g.pads), bound) && RefsIn(toks, g.pads) == []
    requires NoDup(acc)
    ensures FromLines(g, rank, top, toks, acc, bound) == Ok(acc)
    decreases |toks|
  {
    hide Ranked, Refs, NoDup, Dedup;
    if toks != [] {
      DedupLength(acc);
      assert acc + [] == acc;
      QuietLines(g, rank, top, toks[1..], acc, bound);
    }
  }

  ghost predicate Quiet(g: LabelGraph) {
    forall l :: l in g.toks ==> RefsIn(g.toks[l], g.pads) == []
  }

  lemma {:induction false} FromPlainRefs(g: LabelGraph, rank: map<Name, nat>, top: nat, refs: seq<Name>,
                                         acc: seq<Name>, bound: nat)
    requires Ranked(g, rank, top) && Below(g, rank, refs, bound) && Quiet(g) && forall r :: r in refs ==> r in g.toks
    ensures FromRefs(g, rank, top, refs, acc, bound) == Ok(PlainRefs(g, refs, acc))
    decreases |refs|
  {
    hide NoDup, Dedup, With, RefsIn;
    if refs != [] {
      assert refs[0] in g.toks;
      var base := Dedup(acc + With(g, refs[0]));
      QuietLines(g, rank, top, g.toks[refs[0]], base, rank[refs[0]]);
      FromPlainRefs(g, rank, top, refs[1..], base, bound);
    }
  }

  lemma {:induction false} FromPlainLines(g: LabelGraph, rank: map<Name, nat>, top: nat, toks: seq<Token>,
                                          acc: seq<Name>, bound: nat)
    requires Ranked(g, rank, top) && Below(g, rank, RefsIn(toks, g.pads), bound) && Quiet(g)
    requires forall r :: r in RefsIn(toks, g.pads) ==> r in g.toks
    ensures FromLines(g, rank, top, toks, acc, bound) == Ok(PlainLines(g, toks, acc))
    decreases |toks|
  {
    hide NoDup, Dedup, Refs, Ranked, Quiet;
    if toks != [] {
      var refs := Refs(toks[0], g.pads);
      FromPlainRefs(g, rank, top, refs, [], bound);
      FromPlainLines(g, rank, top, toks[1..], Dedup(acc + PlainRefs(g, refs, [])), bound);
    }
  }

  /** What the job's instructions add, one after another. */
  lemma OneOrder(v: View, body: seq<Token>)
    requires Plain(v) && Job(0) in v.s.jobs && v.JobToks(Job(0)) == Bracketed(body)
    requires forall r :: r in RefsIn(Bracketed(body), v.pads) ==> r in v.s.labels
    ensures Ready(v, Flat(v))
    ensures var r := GroupOf(v, Flat(v), Job(0)); r.Ok? && r.value.jobs == [Job(0)] ==>
      r.value.labels == PlainLines(LabelsOf(v), Bracketed(body), [])
  {
    hide View.JobToks, Ranked, Acyclic, View.Valid, Extract, JobsSize, ExternalsFrom, DataSize, PlainLines, RefsIn,
      View.AlignOf, View.LabelToks, FromLines, GraphOf, Jobs.Graph.Valid;
    PlainReady(v);
    ReadyParts(v, Flat(v));
    OneToksOf(v, body);
    PlainQuiet(v);
    AllBelow(v, Flat(v), RefsIn(Bracketed(body), v.pads));
    FromPlainLines(LabelsOf(v), Flat(v).labels, 1, Bracketed(body), [], 1);
  }

  lemma OneToksOf(v: View, body: seq<Token>)
    requires v.JobToks(Job(0)) == Bracketed(body)
    ensures JobsToks(v, [Job(0)]) == Bracketed(body)
  {
    hide View.JobToks;
    assert [Job(0)][1..] == [];
  }

  lemma PlainQuiet(v: View)
    requires Plain(v)
    ensures Quiet(LabelsOf(v)) && LabelsOf(v).pads == v.pads && LabelsOf(v).dependents == v.dependents
  {
    hide View.Valid, View.LabelToks, View.AlignOf, RefsIn;
  }

  // ---------- a table that runs out ----------

  /** Waits for the descriptor of label `l`. */
  function Sync(l: Name): Token {
    Token.Isa(UcDmaWriteDesSync, [Ref(l)])
  }

  /** The second descriptor is used on its own before the table of both is. */
  const SHORT: seq<Token> := [Sync(1), APPLY]
  const TWO_LINES: seq<Token> := [LINE, LINE]

  lemma DedupOf(a: Name, b: Name)
    requires a != b
    ensures Dedup([a]) == [a] && Dedup([a, b]) == [a, b] && Dedup([a, a, b]) == [a, b] && Dedup([a, b, a]) == [a, b]
  {
    DedupLength([a]);
    DedupLength([a, b]);
    Tables.DedupSnoc([a], a);
    Tables.DedupSnoc([a, a], b);
    Tables.DedupSnoc([a, b], a);
    assert [a] + [a] == [a, a] && [a, a] + [b] == [a, a, b] && [a, b] + [a] == [a, b, a];
  }

  /** A job that uses descriptor 1 and then the table of descriptors 0 and 1. */
  lemma FirstTwo(g: LabelGraph, apply: Token)
    requires g.dependents == map[0 := [0, 1]] && Refs(apply, g.pads) == [0] && 1 !in g.pads
    ensures PlainLines(g, [JOB0, Sync(1), apply], []) == [1, 0]
  {
    hide Dedup, Refs, NoDup, PlainLines, PlainRefs, With;
    SyncRefs(1, g.pads);
    NumbersOnly(JOB0, g.pads);
    DedupOf(0, 1);
    DedupOf(1, 0);
    NothingTwice();
    Withs(g);
    PlainNext(g, JOB0, [Sync(1), apply], []);
    PlainNext(g, Sync(1), [apply], []);
    PlainNext(g, apply, [], [1]);
    PlainOne(g, 0);
    PlainOne(g, 1);
    PlainNone(g);
    PlainEnd(g, [1, 0]);
    assert [JOB0] + [Sync(1), apply] == [JOB0, Sync(1), apply] && [Sync(1)] + [apply] == [Sync(1), apply];
    assert [apply] + [] == [apply] && [1] + [0, 1] == [1, 0, 1] && [] + [1] == [1];
  }

  lemma Withs(g: LabelGraph)
    requires g.dependents == map[0 := [0, 1]]
    ensures With(g, 0) == [0, 0, 1] && forall l: Name :: l != 0 ==> With(g, l) == [l]
  {}

  lemma PlainNone(g: LabelGraph)
    ensures PlainRefs(g, [], []) == []
  {}

  lemma NothingTwice()
    ensures Dedup<Name>([] + []) == []
  {
    var none: seq<Name> := [];
    assert none + none == none;
  }

  lemma SyncRefs(l: Name, pads: set<Name>)
    ensures l !in pads ==> Refs(Sync(l), pads) == [l]
  {
    assert [Ref(l)][1..] == [] && [l] + [] == [l];
    assert Named([], pads) == [];
  }

  lemma PlainNext(g: LabelGraph, t: Token, rest: seq<Token>, acc: seq<Name>)
    ensures PlainLines(g, [t] + rest, acc) == PlainLines(g, rest, Dedup(acc + PlainRefs(g, Refs(t, g.pads), [])))
  {
    hide Dedup, Refs;
    assert ([t] + rest)[1..] == rest;
  }

  lemma PlainEnd(g: LabelGraph, acc: seq<Name>)
    ensures PlainLines(g, [], acc) == acc
  {}

  lemma PlainOne(g: LabelGraph, r: Name)
    ensures PlainRefs(g, [r], []) == Dedup(With(g, r))
  {
    hide Dedup;
    assert [r][1..] == [] && [] + With(g, r) == With(g, r);
  }

  /** Lines of one alignment are not moved by sorting. */
  lemma SortedSame(v: View, labels: seq<Name>)
    requires forall l :: l in labels ==> v.AlignOf(l) == Some(16)
    ensures Sorted(v, labels) == labels
  {
    hide View.AlignOf;
    Tables.WithAlignAll(v, labels, 16);
    NoneAligned(v, labels);
    assert labels + [] == labels;
  }

  lemma {:induction false} NoneAligned(v: View, labels: seq<Name>)
    requires forall l :: l in labels ==> v.AlignOf(l) == Some(16)
    ensures WithAlign(v, labels, 4) == []
  {
    hide View.AlignOf;
    if labels != [] {
      assert labels[0] in labels;
      NoneAligned(v, labels[1..]);
    }
  }

  /** Lines of descriptors that refer to nothing make the program plain. */
  lemma OnePlain(v: View, body: seq<Token>, lines: seq<Token>, pads: set<Name>)
    requires Simple(body, lines) && OneView(v, body, lines, pads) && forall t :: t in lines ==> t == LINE
    ensures Plain(v) && forall l :: l in v.s.labels ==> v.AlignOf(l) == Some(16)
  {
    hide View.Valid, View.LabelToks, View.AlignOf, OneToks, RefsIn, Refs, Simple, Untied;
    OneUntied(v, body, lines, pads);
    forall l | l in v.s.labels ensures v.AlignOf(l) == Some(16) && RefsIn(v.LabelToks(l), v.pads) == [] {
      OneViewValid(v, body, lines, pads);
      assert lines[l] in lines;
      OneLabelAt(v, body, lines, pads, l);
      NumbersOnly(LINE, v.pads);
      NumbersOnly(Label(l), v.pads);
      RefsOfTwo(Label(l), LINE, v.pads);
    }
  }

  lemma OneViewValid(v: View, body: seq<Token>, lines: seq<Token>, pads: set<Name>)
    requires OneView(v, body, lines, pads)
    ensures v.Valid()
  {
    hide View.Valid, OneToks;
  }

  /** The page of a plain job with at most three lines of descriptors. */
  lemma OnePlainPage(v: View, body: seq<Token>, lines: seq<Token>, pads: set<Name>, order: seq<Name>)
    requires Simple(body, lines) && OneView(v, body, lines, pads) && |body| <= 3 && |lines| <= 3
    requires (forall t :: t in lines ==> t == LINE) && forall r :: r in RefsIn(Bracketed(body), pads) ==> r < |lines|
    requires PlainLines(LabelsOf(v), Bracketed(body), []) == order
    ensures Plain(v) && Ready(v, Flat(v))
    ensures var r := Pagify(v, Flat(v), 8192, 0, []);
      r.Ok? && |r.value| == 1 && r.value[0].jobs == [Job(0)] && r.value[0].labels == order
  {
    hide Ready, View.Valid, Plain, Untied, GroupOf, Formable, RefsIn, View.JobToks, View.JobSize, Simple, OneToks,
      Pagify, Uses, PlainLines, LabelsOf, View.AlignOf, Footprint, NoDup, Bracketed, Sorted;
    OneUntied(v, body, lines, pads);
    OnePlain(v, body, lines, pads);
    OneJobAt(v, body, lines, pads);
    PlainReady(v);
    PlainFormable(v, Job(0));
    OneGroup(v, Flat(v), body, lines, pads);
    OneOrder(v, body);
    var g := GroupOf(v, Flat(v), Job(0)).value;
    GroupLabelsKnown(v, Flat(v), Job(0));
    SortedSame(v, g.labels);
    OnePaged(v, Flat(v), g);
  }

  lemma ShortBuilt()
    ensures Simple(SHORT, TWO_LINES) && OneJob(SHORT, TWO_LINES).Valid()
      && Build(OneJob(SHORT, TWO_LINES).Toks(), {}).Ok?
    ensures var v := ViewOf(OneJob(SHORT, TWO_LINES), {});
      OneView(v, SHORT, TWO_LINES, {}) && v.dependents == map[0 := [0, 1]]
  {
    hide Build, Source.Valid, Source.Toks, Dependents, OneView, LineBlocks, LabelNames;
    LineFacts(TWO_LINES, 0);
    assert LabelNames(LineBlocks(TWO_LINES, 0)) == [0, 1];
    assert SHORT[1..] == [APPLY] && [APPLY][1..] == [];
    assert AppliesOf(map[], SHORT) == AppliesOf(map[], [APPLY]) == AppliesOf(map[0 := 2], []) == map[0 := 2];
    TwoEntries();
    OneJobBuilt(SHORT, TWO_LINES, {}, map[0 := [0, 1]]);
  }

  lemma {:induction false} RefsFrom(toks: seq<Token>, pads: set<Name>, n: nat)
    requires forall t, r :: t in toks && r in Refs(t, pads) ==> r < n
    ensures forall r :: r in RefsIn(toks, pads) ==> r < n
  {
    hide Refs;
    if toks != [] {
      assert toks[0] in toks;
      RefsFrom(toks[1..], pads, n);
    }
  }

  lemma ApplyRefs(pads: set<Name>)
    requires 0 !in pads
    ensures Refs(APPLY, pads) == [0]
  {
    assert [Ref(0), Num(2), Num(0)][1..] == [Num(2), Num(0)];
    NothingNamed([Num(2), Num(0)], pads);
    assert [0] + [] == [0];
  }

  lemma ShortRefs()
    ensures forall r :: r in RefsIn(Bracketed(SHORT), {}) ==> r < 2
  {
    hide Refs, RefsIn;
    SyncRefs(1, {});
    ApplyRefs({});
    NumbersOnly(JOB0, {});
    NumbersOnly(EndJobTok, {});
    assert forall t :: t in Bracketed(SHORT) ==> t == JOB0 || t == Sync(1) || t == APPLY || t == EndJobTok;
    RefsFrom(Bracketed(SHORT), {}, 2);
  }

  lemma ShortOrder(g: LabelGraph)
    requires g.dependents == map[0 := [0, 1]] && g.pads == {}
    ensures PlainLines(g, Bracketed(SHORT), []) == [1, 0]
  {
    hide Refs, PlainLines, PlainRefs, Dedup, With;
    ApplyRefs({});
    FirstTwo(g, APPLY);
    PlainSplit(g, [JOB0, Sync(1), APPLY], [EndJobTok], []);
    assert Bracketed(SHORT) == [JOB0, Sync(1), APPLY] + [EndJobTok];
    PlainEndJob(g, [1, 0]);
  }

  lemma PlainEndJob(g: LabelGraph, acc: seq<Name>)
    requires NoDup(acc)
    ensures PlainLines(g, [EndJobTok], acc) == acc
  {
    hide Dedup, Refs, PlainLines;
    NumbersOnly(EndJobTok, g.pads);
    PlainNext(g, EndJobTok, [], acc);
    PlainNone(g);
    PlainEnd(g, acc);
    DedupLength(acc);
    assert [EndJobTok] + [] == [EndJobTok] && acc + [] == acc;
  }

  lemma {:induction false} PlainSplit(g: LabelGraph, a: seq<Token>, b: seq<Token>, acc: seq<Name>)
    ensures PlainLines(g, a + b, acc) == PlainLines(g, b, PlainLines(g, a, acc))
    decreases |a|
  {
    hide Dedup, Refs, PlainRefs;
    if a == [] {
      assert a + b == b;
    } else {
      assert (a + b)[1..] == a[1..] + b;
      PlainSplit(g, a[1..], b, Dedup(acc + PlainRefs(g, Refs(a[0], g.pads), [])));
    }
  }

  /** The first pass records the table of labels 0 and 1. The page lists label 1 first, because the job uses it first,
      so the second lookup runs past the end of the list and the writer refuses the page. */
  lemma TableRunsOut(cfg: Config)
    ensures var p := OneJob(SHORT, TWO_LINES);
      && p.Valid() && Build(p.Toks(), {}).Ok?
      && var v := ViewOf(p, {});
        && v.dependents == map[0 := [0, 1]] && Ready(v, Flat(v)) && NoLaunch(v)
        && var r := Pagify(v, Flat(v), 8192, 0, []);
          r.Ok? && |r.value| == 1 && r.value[0].labels == [1, 0] && DraftPage(cfg, r.value[0]).Err?
  {
    hide Build, Source.Valid, Source.Toks, OneView, Ready, Plain, Pagify, PlainLines, NoLaunch, DraftPage, View.Valid,
      PageOk, TokenFits, NoDup, Simple, Bracketed;
    ShortBuilt();
    var v := ViewOf(OneJob(SHORT, TWO_LINES), {});
    OneViewPads(v, SHORT, TWO_LINES, {});
    ShortRefs();
    ShortOrder(LabelsOf(v));
    OnePlainPage(v, SHORT, TWO_LINES, {}, [1, 0]);
    PlainJobs(v);
    PagifyLaws(v, Flat(v), 8192, 0, []);
    var p := Pagify(v, Flat(v), 8192, 0, []).value[0];
    OneViewValid(v, SHORT, TWO_LINES, {});
    OneText(v, SHORT, TWO_LINES, {}, p);
    DraftAccepts(v, 8192, 0, cfg, p, 0);
    TooShort(cfg, p.jobs);
    assert APPLY in p.text + p.data;
  }

  lemma OneViewPads(v: View, body: seq<Token>, lines: seq<Token>, pads: set<Name>)
    requires OneView(v, body, lines, pads)
    ensures v.pads == pads && LabelsOf(v).pads == pads && LabelsOf(v).dependents == v.dependents
  {
    hide View.Valid, OneToks, View.LabelToks;
  }

  lemma TooShort(cfg: Config, jobs: seq<JobId>)
    ensures !TokenFits(cfg, jobs, [1, 0], APPLY)
  {
    hide ArgsFit;
    assert IndexOf(0, [1, 0]) == 1 by {
      var labels: seq<Name> := [1, 0];
      assert labels[1] == 0 && labels[0] != 0;
    }
  }

  /** The text of the program's page. */
  lemma OneText(v: View, body: seq<Token>, lines: seq<Token>, pads: set<Name>, p: Page)
    requires Simple(body, lines) && OneView(v, body, lines, pads) && PageOk(v, 8192, 0, p, 0) && p.jobs == [Job(0)]
    ensures p.text == Bracketed(body) + [EOF] || p.text == Bracketed(body) + [EOF] + [Align(16)]
    ensures p.data == LabelsToks(v, p.labels)
    ensures forall t :: t in body ==> t in p.text + p.data
  {
    hide View.Valid, View.JobToks, JobsSize, LabelsSize, LabelsToks, Footprint, RoundUp4, Ordinary, Aligned,
      LabelsSorted, Simple, OneToks, Untied;
    OneUntied(v, body, lines, pads);
    OneJobAt(v, body, lines, pads);
    OneToksOf(v, body);
  }

  // ---------- a table entry that refers to a label the page lacks ----------

  /** A descriptor that points at label 2. */
  const LINKED_LINE := UcDmaBd([Num(0), Num(0), Ref(2), Num(4), Num(0), Num(0)])

  const APART: seq<Token> := [APPLY]
  const THREE_LINES: seq<Token> := [LINE, LINKED_LINE, LINE]

  lemma TwoOfThree()
    ensures Dependents([0, 1, 2], map[0 := 2]) == Ok(map[0 := [0, 1]])
  {
    var list: seq<Name>, applies: map<Name, nat> := [0, 1, 2], map[0 := 2];
    assert list[0] == 0 && IndexOf(0, list) == 0 && list[0..0 + 2] == [0, 1];
    assert TableFits(list, 0, 2);
    assert Dependents(list, applies).Ok?;
    var found: map<Name, seq<Name>>, want: map<Name, seq<Name>> := Dependents(list, applies).value, map[0 := [0, 1]];
    assert found.Keys == want.Keys && found[0] == list[0..0 + 2];
    assert found == want;
  }

  lemma ApartBuilt()
    ensures Simple(APART, THREE_LINES) && OneJob(APART, THREE_LINES).Valid()
    ensures Build(OneJob(APART, THREE_LINES).Toks(), {}).Ok?
    ensures var v := ViewOf(OneJob(APART, THREE_LINES), {});
      OneView(v, APART, THREE_LINES, {}) && v.dependents == map[0 := [0, 1]]
  {
    hide Build, Source.Valid, Source.Toks, Dependents, OneView, LineBlocks, LabelNames;
    LineFacts(THREE_LINES, 0);
    assert LabelNames(LineBlocks(THREE_LINES, 0)) == [0, 1, 2];
    assert APART[1..] == [];
    assert AppliesOf(map[], APART) == AppliesOf(map[0 := 2], []) == map[0 := 2];
    TwoOfThree();
    OneJobBuilt(APART, THREE_LINES, {}, map[0 := [0, 1]]);
  }

  lemma {:induction false} NamedAppend(a: seq<Arg>, b: seq<Arg>, pads: set<Name>)
    ensures Named(a + b, pads) == Named(a, pads) + Named(b, pads)
  {
    if a == [] {
      assert a + b == b;
    } else {
      assert (a + b)[1..] == a[1..] + b;
      NamedAppend(a[1..], b, pads);
      Assoc(if a[0].Ref? && a[0].name !in pads then [a[0].name] else [], Named(a[1..], pads), Named(b, pads));
    }
  }

  lemma PointerRefs()
    ensures Refs(LINKED_LINE, {}) == [2]
  {
    hide Named;
    var a, b, c: seq<Arg> := [Num(0), Num(0)], [Ref(2)], [Num(4), Num(0), Num(0)];
    NothingNamed(a, {});
    NothingNamed(c, {});
    NamedAppend(a, b + c, {});
    NamedAppend(b, c, {});
    SyncRefs(2, {});
    assert LINKED_LINE.bd == a + (b + c);
  }

  /** What the labels refer to: only label 1 refers to anything. */
  lemma PointerLabels(v: View)
    requires OneView(v, APART, THREE_LINES, {}) && v.Valid()
    ensures Simple(APART, THREE_LINES) && forall l: Name :: l in v.s.labels <==> l < 3
    ensures forall l: Name :: l < 3 ==>
        RefsIn(v.LabelToks(l), {}) == (if l == 1 then [2] else []) && v.AlignOf(l) == Some(16)
  {
    hide View.Valid, View.LabelToks, View.AlignOf, OneToks, RefsIn, Refs, Untied;
    OneUntied(v, APART, THREE_LINES, {});
    NumbersOnly(LINE, {});
    PointerRefs();
    forall l: Name | l < 3 ensures RefsIn(v.LabelToks(l), {}) == (if l == 1 then [2] else [])
      && v.AlignOf(l) == Some(16)
    {
      OneLabelAt(v, APART, THREE_LINES, {}, l);
      NumbersOnly(Label(l), {});
      RefsOfTwo(Label(l), THREE_LINES[l], {});
    }
  }

  ghost function PointerRanks(v: View): Ranks {
    Ranks(map j | j in v.s.jobs :: 0, map l | l in v.s.labels :: if l == 1 then 1 else 0, 2)
  }

  lemma PointerReady(v: View)
    requires OneView(v, APART, THREE_LINES, {}) && v.Valid()
    ensures Ready(v, PointerRanks(v)) && NoLaunch(v)
  {
    hide View.Valid, View.LabelToks, View.AlignOf, RefsIn, OneToks, Untied;
    PointerLabels(v);
    OneUntied(v, APART, THREE_LINES, {});
    UntiedJobs(v);
  }

  /** From label 0 the recursion goes nowhere else, so only the table brings label 1. */
  lemma PointerReached(v: View, m: Name)
    requires OneView(v, APART, THREE_LINES, {}) && v.Valid()
    ensures Reached(LabelsOf(v), [0], m) <==> m == 0
  {
    hide View.Valid, View.LabelToks, View.AlignOf, RefsIn, OneToks, Reached;
    PointerLabels(v);
    var g := LabelsOf(v);
    ReachedCases(g, [0], m);
    NothingReached(g, m);
    assert RefsIn(g.toks[0], g.pads) == [] && 0 in [0];
  }

  lemma NothingReached(g: LabelGraph, m: Name)
    ensures !Reached(g, [], m)
  {
    hide Reached;
    ReachedCases(g, [], m);
  }

  lemma PointerUses(v: View, l: Name)
    requires OneView(v, APART, THREE_LINES, {}) && v.Valid() && v.dependents == map[0 := [0, 1]]
    requires RefsIn(v.JobToks(Job(0)), {}) == [0]
    ensures Uses(v, Job(0), l) <==> l in {0, 1}
  {
    hide View.Valid, View.JobToks, View.LabelToks, RefsIn, OneToks, Reached;
    forall m: Name ensures Reached(LabelsOf(v), [0], m) <==> m == 0 {
      PointerReached(v, m);
    }
    assert l in {0, 1} ==> Pulled(LabelsOf(v), 0, l);
  }

  lemma PointerJob(v: View)
    requires OneView(v, APART, THREE_LINES, {}) && v.Valid()
    ensures Job(0) in v.s.jobs && RefsIn(v.JobToks(Job(0)), {}) == [0]
  {
    hide View.Valid, View.JobToks, RefsIn, OneToks, Sizes, Refs, Untied;
    PointerLabels(v);
    OneUntied(v, APART, THREE_LINES, {});
    OneJobAt(v, APART, THREE_LINES, {});
    ApplyingJob();
    assert Bracketed(APART) == [JOB0, APPLY, EndJobTok];
  }

  lemma PointerFormable(v: View)
    requires OneView(v, APART, THREE_LINES, {}) && v.Valid() && v.dependents == map[0 := [0, 1]]
    ensures Job(0) in v.s.jobs && Formable(v, Job(0))
  {
    hide View.Valid, View.JobToks, View.LabelToks, View.AlignOf, RefsIn, OneToks, Reached, Untied, Mates, Uses;
    PointerLabels(v);
    PointerJob(v);
    OneUntied(v, APART, THREE_LINES, {});
    forall k ensures Mates(GraphOf(v), Job(0), k) <==> k == Job(0) {
      UntiedMate(v, Job(0), k);
    }
    forall m: Name ensures Reached(LabelsOf(v), [0], m) <==> m == 0 {
      PointerReached(v, m);
    }
    forall l: Name ensures Uses(v, Job(0), l) <==> l in {0, 1} {
      PointerUses(v, l);
    }
  }

  lemma LacksLabel(cfg: Config, jobs: seq<JobId>, labels: seq<Name>)
    requires 2 !in labels && 2 !in cfg.pads
    ensures !TokenFits(cfg, jobs, labels, LINKED_LINE)
  {
    assert !Resolves(cfg, labels, LINKED_LINE.bd[2]);
  }

  /** The page holds label 1 as an entry of the table, whose descriptor points at label 2, and lacks label 2: it is not
      self-contained, and the writer refuses it. */
  lemma EntryLeadsOutside(cfg: Config)
    requires 2 !in cfg.pads
    ensures var p := OneJob(APART, THREE_LINES);
      && p.Valid() && Build(p.Toks(), {}).Ok?
      && var v := ViewOf(p, {});
        && Ready(v, PointerRanks(v)) && NoLaunch(v)
        && var r := Pagify(v, PointerRanks(v), 8192, 0, []);
          && r.Ok? && |r.value| == 1 && 1 in r.value[0].labels && 2 !in r.value[0].labels
          && !Closure.SelfContained(v, r.value[0]) && DraftPage(cfg, r.value[0]).Err?
  {
    hide Build, Source.Valid, Source.Toks, OneView, Ready, Pagify, NoLaunch, DraftPage, View.Valid, PageOk, TokenFits,
      NoDup, Simple, Bracketed, GroupOf, Formable, Uses, RefsIn, View.JobToks, View.LabelToks, Sorted, View.AlignOf;
    ApartBuilt();
    var v := ViewOf(OneJob(APART, THREE_LINES), {});
    OneViewValid(v, APART, THREE_LINES, {});
    PointerReady(v);
    PointerFormable(v);
    OneGroup(v, PointerRanks(v), APART, THREE_LINES, {});
    PointerPage(v);
    var p := Pagify(v, PointerRanks(v), 8192, 0, []).value[0];
    PagifyLaws(v, PointerRanks(v), 8192, 0, []);
    PointerRefers(v, p);
    LacksLabel(cfg, p.jobs, p.labels);
    DraftAccepts(v, 8192, 0, cfg, p, 0);
  }

  lemma PointerPage(v: View)
    requires OneView(v, APART, THREE_LINES, {}) && v.Valid() && v.dependents == map[0 := [0, 1]]
    requires Ready(v, PointerRanks(v)) && Job(0) in v.s.jobs
    requires var r := GroupOf(v, PointerRanks(v), Job(0));
      && r.Ok? && r.value.jobs == [Job(0)] && Footprint(r.value.tsize, r.value.dsize) <= 8192
      && forall l :: l in r.value.labels <==> Uses(v, Job(0), l)
    ensures var r := Pagify(v, PointerRanks(v), 8192, 0, []);
      && r.Ok? && |r.value| == 1 && r.value[0].jobs == [Job(0)]
      && 1 in r.value[0].labels && 2 !in r.value[0].labels
  {
    hide Ready, View.Valid, Pagify, GroupOf, Uses, RefsIn, View.JobToks, View.LabelToks, Sorted, View.AlignOf,
      Footprint,
      OneToks, Untied;
    PointerJob(v);
    PointerUses(v, 1);
    PointerUses(v, 2);
    PointerLabels(v);
    OneUntied(v, APART, THREE_LINES, {});
    var g := GroupOf(v, PointerRanks(v), Job(0)).value;
    GroupLabelsKnown(v, PointerRanks(v), Job(0));
    OnePaged(v, PointerRanks(v), g);
    Closure.SortedMembers(v, g.labels);
  }

  lemma PointerRefers(v: View, p: Page)
    requires OneView(v, APART, THREE_LINES, {}) && v.Valid() && PageOk(v, 8192, 0, p, 0)
    requires 1 in p.labels && 2 !in p.labels
    ensures LINKED_LINE in p.text + p.data && !Closure.SelfContained(v, p)
  {
    hide View.Valid, PageOk, RefsIn, View.JobToks, View.LabelToks, View.AlignOf, OneToks, LabelsToks, Refs, Untied;
    PointerLabels(v);
    OneUntied(v, APART, THREE_LINES, {});
    OneLabelAt(v, APART, THREE_LINES, {}, 1);
    LabelInside(v, p.labels, 1);
    PageData(v, p);
    assert v.LabelToks(1) == [Label(1), LINKED_LINE] && [Label(1), LINKED_LINE][1] == LINKED_LINE;
    assert LINKED_LINE in p.data;
    PointerRefs();
    RefsInMember(p.text + p.data, LINKED_LINE, {});
    assert 2 in Refs(LINKED_LINE, {});
  }

  lemma PageData(v: View, p: Page)
    requires PageOk(v, 8192, 0, p, 0)
    ensures p.data == LabelsToks(v, p.labels)
  {
    hide JobsSize, LabelsSize, JobsToks, LabelsToks, Footprint, RoundUp4, Ordinary, Aligned, LabelsSorted;
  }

  lemma {:induction false} LabelInside(v: View, labels: seq<Name>, l: Name)
    requires l in labels
    ensures forall t :: t in v.LabelToks(l) ==> t in LabelsToks(v, labels)
  {
    hide View.LabelToks;
    if labels[0] != l {
      LabelInside(v, labels[1..], l);
    }
  }
}
