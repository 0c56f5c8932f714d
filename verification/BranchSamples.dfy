/** A program whose jobs all branch to one page label, and yet branch to too many. */
module BranchSamples {
  import opened Base
  import opened Isa
  import opened Program
  import opened Structure
  import opened View
  import opened Jobs
  import opened Labels
  import opened Pages
  import opened PageLaws
  import opened Partition
  import opened SharedLabels
  import opened Samples
  import opened Column
  import Packing

  /** Loads the PDI behind page label 9. */
  const LOAD := Token.Isa(LoadPdi, [Num(0), Ref(9)])

  /** Three jobs that share nothing else. */
  const THREE := Source([JobSeg(0, false, [LOAD]), JobSeg(1, false, [LOAD]), JobSeg(2, false, [LOAD])], [], [])

  const THREE_TOKS: seq<Token> :=
    [Token.Isa(StartJob, [Num(0)]), LOAD, EndJobTok, Token.Isa(StartJob, [Num(1)]), LOAD, EndJobTok,
     Token.Isa(StartJob, [Num(2)]), LOAD, EndJobTok, EOF]

  lemma ThreeToks()
    ensures THREE.Valid() && THREE.Toks() == THREE_TOKS
    ensures SegIds(THREE.segs, 0) == [Job(0), Job(1), Job(2)] && LabelNames(THREE.blocks) == []
  {
    var segs := THREE.segs;
    var two, one := segs[1..], segs[1..][1..];
    assert two == [segs[1], segs[2]] && one == [segs[2]] && one[1..] == [];
    assert SegsToks(one) == segs[2].Toks() + SegsToks([]) && SegsToks(two) == segs[1].Toks() + SegsToks(one);
    assert SegIds(one, 0) == [Job(2)] + SegIds([], 0) && SegIds(two, 0) == [Job(1)] + SegIds(one, 0);
    assert SegsToks(segs) == segs[0].Toks() + (segs[1].Toks() + segs[2].Toks());
  }

  lemma ThreeBuilt()
    ensures THREE.Valid() && Build(THREE.Toks(), {}).Ok?
    ensures var v := ViewOf(THREE, {});
      && Plain(v) && v.toks == THREE_TOKS && v.pads == {} && v.s.jobids == [Job(0), Job(1), Job(2), EofJob]
      && v.s.labelList == []
  {
    hide ScanFrom, DataInv, Source.Toks, Source.Valid, View.LabelToks, View.AlignOf, RefsIn;
    ThreeToks();
    BareApplies(THREE_TOKS);
    Built(THREE, {});
    NoTables([]);
    var v := ViewOf(THREE, {});
    forall l ensures l !in v.s.labels {
      InLabelList(v, l);
    }
  }

  lemma LoadRefs()
    ensures Refs(LOAD, {}) == [] && SizeOf(LOAD) == 12
  {}

  /** The tokens of job `k`. */
  lemma ThreeJob(k: u32)
    requires k < 3
    ensures Build(THREE.Toks(), {}).Ok? && Job(k) in ViewOf(THREE, {}).s.jobs
    ensures var v := ViewOf(THREE, {});
      && v.JobToks(Job(k)) == [Token.Isa(StartJob, [Num(k)]), LOAD, EndJobTok]
      && v.JobSize(Job(k)) == 24 && RefsIn(v.JobToks(Job(k)), v.pads) == []
  {
    hide Build, Source.Toks, Source.Valid, View.Valid, View.JobToks, View.JobSize, Sizes, RefsIn, Plain, Refs, SizeOf;
    ThreeBuilt();
    var v := ViewOf(THREE, {});
    PlainValid(v);
    KnownIds(v);
    assert Job(k) == v.s.jobids[k];
    JobAt(v, Job(k), 3 * k, 3 * k + 2);
    assert THREE_TOKS[3 * k..3 * k + 3] == [Token.Isa(StartJob, [Num(k)]), LOAD, EndJobTok];
    LoadRefs();
    OneInstruction(k, LOAD, []);
  }

  lemma OneTarget(k: u32)
    ensures Packing.Targets([Token.Isa(StartJob, [Num(k)]), LOAD, EndJobTok]) == [9]
  {
    var t := [Token.Isa(StartJob, [Num(k)]), LOAD, EndJobTok];
    assert t[1..] == [LOAD, EndJobTok] && t[1..][1..] == [EndJobTok] && t[1..][1..][1..] == [];
    assert LOAD.args[1..] == [Ref(9)] && LOAD.args[1..][1..] == [];
    assert Packing.AtNames([Ref(9)]) == [9] + Packing.AtNames([]);
    assert Packing.AtNames(LOAD.args) == [9];
    assert Packing.Targets([EndJobTok]) == [] + Packing.Targets([]);
    assert Packing.Targets([LOAD, EndJobTok]) == [9] + Packing.Targets([EndJobTok]);
  }

  /** What job `k` contributes to a page. */
  function Alone(k: u32): Group {
    Group([Job(k)], [], [9], 24, 0)
  }

  lemma AloneLists(v: View, k: u32)
    requires v.JobToks(Job(k)) == [Token.Isa(StartJob, [Num(k)]), LOAD, EndJobTok]
    ensures Dedup(Packing.Targets(JobsToks(v, [Job(k)]))) == [9]
  {
    hide View.JobToks, Dedup, Packing.Targets;
    assert [Job(k)][1..] == [];
    assert JobsToks(v, [Job(k)]) == v.JobToks(Job(k)) + JobsToks(v, []) == v.JobToks(Job(k));
    OneTarget(k);
    DedupLength<Name>([9]);
  }

  /** Each job is a group of its own, and lists the label. */
  lemma ThreeGroup(k: u32)
    requires k < 3
    ensures Build(THREE.Toks(), {}).Ok? && Ready(ViewOf(THREE, {}), Flat(ViewOf(THREE, {})))
      && Job(k) in ViewOf(THREE, {}).s.jobs
    ensures GroupOf(ViewOf(THREE, {}), Flat(ViewOf(THREE, {})), Job(k)) == Ok(Alone(k))
  {
    hide *;
    ThreeBuilt();
    ThreeJob(k);
    AloneIs(ViewOf(THREE, {}), k);
  }

  lemma EmptyOrSome<T>(s: seq<T>)
    ensures s == [] || exists x :: x in s
  {
    if s != [] {
      assert s[0] in s;
    }
  }

  lemma AloneIs(v: View, k: u32)
    requires Plain(v) && v.s.labelList == [] && Job(k) in v.s.jobs && v.JobSize(Job(k)) == 24
    requires RefsIn(v.JobToks(Job(k)), v.pads) == []
    requires v.JobToks(Job(k)) == [Token.Isa(StartJob, [Num(k)]), LOAD, EndJobTok]
    ensures Ready(v, Flat(v)) && GroupOf(v, Flat(v), Job(k)) == Ok(Alone(k))
  {
    hide Plain, Ready, GroupOf, RefsIn, View.JobToks, View.JobSize, View.LabelSize, Uses, Dedup, View.Valid,
      Packing.Targets, GroupFacts, JobsToks;
    LoneGroup(v, Job(k));
    var g := GroupOf(v, Flat(v), Job(k)).value;
    GroupHolds(v, Flat(v), Job(k));
    GroupLabelsKnown(v, Flat(v), Job(k));
    PlainValid(v);
    forall l ensures l !in g.labels {
      InLabelList(v, l);
    }
    EmptyOrSome(g.labels);
    assert LabelsSize(v, []) == 0;
    Packing.GroupStarts(v, Job(k), g);
    AloneLists(v, k);
  }

  lemma SmallFootprints(a: nat)
    requires a <= 72
    ensures Footprint(a, 0) <= 8192
  {}

  /** All three jobs go on one page, which lists the label three times; no column takes such a page. */
  lemma RepeatedBranches(index: map<Name, nat>)
    ensures THREE.Valid() && Build(THREE.Toks(), {}).Ok? && Ready(ViewOf(THREE, {}), Flat(ViewOf(THREE, {})))
    ensures var r := Pagify(ViewOf(THREE, {}), Flat(ViewOf(THREE, {})), 8192, 0, []);
      && r.Ok? && |r.value| == 1 && r.value[0].jobs == [Job(0), Job(1), Job(2)] && r.value[0].externals == [9, 9, 9]
      && BranchAll(r.value, index, r.value).Err?
  {
    hide Build, Source.Toks, Plain, Ready, GroupOf, Place, Footprint, View.Valid, Finish, BranchAll, Pages.Join;
    ThreeBuilt();
    ThreeGroup(0);
    ThreeGroup(1);
    ThreeGroup(2);
    var v := ViewOf(THREE, {});
    var ranks := Flat(v);
    PlainValid(v);
    KnownIds(v);
    SmallFootprints(24);
    SmallFootprints(48);
    SmallFootprints(72);
    var start := Book([], map[], EMPTY);
    var one, two := Alone(0), Group([Job(0), Job(1)], [], [9, 9], 48, 0);
    var b, c, d := start.(open := one), start.(open := two), start.(open := All());
    JoinIs(EMPTY, Alone(0), one);
    JoinIs(one, Alone(1), two);
    JoinIs(two, Alone(2), All());
    PlaceJoins(v, ranks, 8192, 0, 0, start, Job(0), Alone(0));
    PlaceJoins(v, ranks, 8192, 0, 0, b, Job(1), Alone(1));
    PlaceJoins(v, ranks, 8192, 0, 0, c, Job(2), Alone(2));
    PlaceEof(v, ranks, 8192, 0, 0, d);
    FourSteps(v, ranks, start, b, c, d);
    FinishOne(v, d);
    var pages := Pagify(v, ranks, 8192, 0, []).value;
    BranchLengths(pages, index, pages);
    assert pages[0] in pages;
  }

  function All(): Group {
    Group([Job(0), Job(1), Job(2)], [], [9, 9, 9], 72, 0)
  }

  lemma JoinIs(a: Group, b: Group, c: Group)
    requires a.jobs + b.jobs == c.jobs && a.externals + b.externals == c.externals
    requires a.labels == b.labels == c.labels == [] && a.tsize + b.tsize == c.tsize && a.dsize + b.dsize == c.dsize
    ensures Pages.Join(a, b) == c
  {}

  lemma FourSteps(v: View, ranks: Ranks, start: Book, b: Book, c: Book, d: Book)
    requires Ready(v, ranks) && v.s.jobids == [Job(0), Job(1), Job(2), EofJob]
    requires Job(0) in v.s.jobs && Job(1) in v.s.jobs && Job(2) in v.s.jobs && EofJob in v.s.jobs
    requires Place(v, ranks, 8192, 0, 0, start, Job(0)) == Ok(b) && Place(v, ranks, 8192, 0, 0, b, Job(1)) == Ok(c)
    requires Place(v, ranks, 8192, 0, 0, c, Job(2)) == Ok(d) && Place(v, ranks, 8192, 0, 0, d, EofJob) == Ok(d)
    ensures PlaceAll(v, ranks, 8192, 0, 0, start, v.s.jobids) == Ok(d)
  {
    hide Ready, Place;
    var ids := v.s.jobids;
    assert ids[1..] == [Job(1), Job(2), EofJob] && ids[1..][1..] == [Job(2), EofJob]
      && ids[1..][1..][1..] == [EofJob] && ids[1..][1..][1..][1..] == [];
    assert PlaceAll(v, ranks, 8192, 0, 0, d, []) == Ok(d);
    assert PlaceAll(v, ranks, 8192, 0, 0, d, [EofJob]) == Ok(d);
    assert PlaceAll(v, ranks, 8192, 0, 0, c, [Job(2), EofJob]) == Ok(d);
    assert PlaceAll(v, ranks, 8192, 0, 0, b, [Job(1), Job(2), EofJob]) == Ok(d);
  }

  lemma FinishOne(v: View, b: Book)
    requires v.Valid() && b.open.jobs != [] && b.open.jobs != [EofJob] && b.pages == []
    ensures var r := Finish(v, 0, 0, b);
      r.Ok? && |r.value| == 1 && r.value[0].jobs == b.open.jobs && r.value[0].externals == b.open.externals
  {
    hide View.Valid, Sorted, JobsToks, LabelsToks, RoundUp4;
    EofToken(v);
  }
}
