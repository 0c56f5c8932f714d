/** Small programs on which the pager and the writer, or the two pagers, disagree. */
module Samples {
  import opened Base
  import opened Isa
  import opened Program
  import opened Structure
  import opened View
  import opened Applied
  import opened Jobs
  import opened Labels
  import opened Pages
  import opened PageLaws
  import opened Partition
  import opened SharedLabels
  import opened Acceptance
  import opened LastPage
  import opened Forget
  import opened PyPager
  import Closure
  import PageImage

  // ---------- what the layout pass makes of a program ----------

  /** A well-formed program with distinct names and fitting tables is built. */
  lemma Built(p: Source, pads: set<Name>)
    requires p.Valid() && NoDup(SegIds(p.segs, 0)) && NoDup(LabelNames(p.blocks))
    ensures var r, tables := ScanFrom(START, p.Toks(), true),
      Dependents(LabelNames(p.blocks), AppliesOf(map[], p.Toks()));
      && r.Ok? && r.value.jobids == SegIds(p.segs, 0) + [EofJob] && r.value.labelList == LabelNames(p.blocks)
      && (tables.Ok? ==>
            var v := Build(p.Toks(), pads);
            v.Ok? && v.value == View(p.Toks(), r.value, tables.value, pads) && v.value.Valid())
  {
    hide ScanFrom, SegIds, LabelNames, Source.Toks, DataInv, Placed, Dependents, Source.Valid;
    LayoutPass(p, true);
    ScanApplies(START, p.Toks());
    BuildValid(p, pads);
  }

  // ---------- programs without barriers and launches ----------

  /** No instruction ties jobs together. */
  ghost predicate Untied(v: View) {
    v.Valid() && forall t :: t in v.toks && t.Isa? ==> t.op !in {LaunchJob, LocalBarrier}
  }

  /** Nor does data refer to anything. */
  ghost predicate Plain(v: View) {
    Untied(v) && forall l :: l in v.s.labels ==> v.AlignOf(l).Some? && RefsIn(v.LabelToks(l), v.pads) == []
  }

  lemma {:induction false} NoContribution(toks: seq<Token>)
    requires forall t :: t in toks && t.Isa? ==> t.op !in {LaunchJob, LocalBarrier}
    ensures BarriersOf(toks) == [] && LaunchesOf(toks) == []
  {
    if toks != [] {
      NoContribution(toks[1..]);
    }
  }

  lemma UntiedJobs(v: View)
    requires Untied(v)
    ensures forall j :: j in v.s.jobs ==> v.s.jobs[j].launches == [] && v.s.jobs[j].barriers == []
    ensures NoLaunch(v)
  {
    hide LabelsOk, EofOk, EopsOk, BarriersMatch, JobShape, View.AlignOf, View.LabelToks, RefsIn, BarriersOf, LaunchesOf;
    forall j | j in v.s.jobs && j.Job? ensures v.s.jobs[j].launches == [] && v.s.jobs[j].barriers == [] {
      var r := v.s.jobs[j];
      assert JobOk(v.toks, r, j);
      NoContribution(v.toks[r.first..r.last + 1]);
    }
  }

  lemma UntiedMate(v: View, j: JobId, k: JobId)
    requires Untied(v) && j in v.s.jobs
    ensures Mates(GraphOf(v), j, k) <==> k == j
  {
    hide Untied;
    UntiedJobs(v);
    MatesSelf(GraphOf(v), j);
    if Mates(GraphOf(v), j, k) {
      var p :| MatePath(GraphOf(v), p, j, k);
      assert |p| > 1 ==> Shares(GraphOf(v), p[0], p[0 + 1]);
    }
  }

  lemma PlainJobs(v: View)
    requires Plain(v)
    ensures forall j :: j in v.s.jobs ==> v.s.jobs[j].launches == [] && v.s.jobs[j].barriers == []
    ensures NoLaunch(v)
  {
    hide View.AlignOf, View.LabelToks, RefsIn, NoLaunch;
    UntiedJobs(v);
  }

  lemma OnlyMate(v: View, j: JobId, k: JobId)
    requires Plain(v) && j in v.s.jobs
    ensures Mates(GraphOf(v), j, k) <==> k == j
  {
    hide View.AlignOf, View.LabelToks, RefsIn, Mates;
    UntiedMate(v, j, k);
  }

  /** Everything at rank 0: there is nothing to rank. */
  ghost function Flat(v: View): Ranks {
    Ranks(map j | j in v.s.jobs :: 0, map l | l in v.s.labels :: 0, 1)
  }

  lemma PlainReady(v: View)
    requires Plain(v)
    ensures Ready(v, Flat(v))
  {
    hide View.Valid, View.LabelToks, View.AlignOf, RefsIn;
    PlainJobs(v);
    PlainValid(v);
    assert Acyclic(GraphOf(v), Flat(v).jobs) && Ranked(LabelsOf(v), Flat(v).labels, 1);
    hide Plain, Acyclic, Ranked;
  }

  lemma PlainValid(v: View)
    requires Plain(v)
    ensures v.Valid()
  {
    hide View.Valid;
  }

  lemma ReachedRefs(v: View, refs: seq<Name>, m: Name)
    requires Plain(v)
    ensures Reached(LabelsOf(v), refs, m) <==> m in refs
  {
    hide View.Valid, View.LabelToks, View.AlignOf, RefsIn;
    if m in refs {
      Closure.ReachedFirst(LabelsOf(v), refs, m);
    }
    if p :| RefPath(LabelsOf(v), p, refs, m) {
      if |p| > 1 {
        assert p[0 + 1] in RefsIn(LabelsOf(v).toks[p[0]], v.pads);
      }
    }
  }

  /** A job of a plain program is alone in its group and brings the labels it names, with their tables. */
  lemma LoneGroup(v: View, j: JobId)
    requires Plain(v) && j in v.s.jobs && j.Job?
    requires forall l :: l in RefsIn(v.JobToks(j), v.pads) ==> l in v.s.labels
    ensures Ready(v, Flat(v))
    ensures var g := GroupOf(v, Flat(v), j);
      && g.Ok? && g.value.jobs == [j] && g.value.tsize == v.JobSize(j) && g.value.dsize == LabelsSize(v, g.value.labels)
      && NoDup(g.value.labels) && forall l :: l in g.value.labels <==> Uses(v, j, l)
  {
    hide Ready, View.Valid, Plain, GroupOf, Mates, Formable, Uses, RefsIn, View.JobToks, LabelsSize, GroupFacts;
    PlainReady(v);
    PlainJobs(v);
    PlainFormable(v, j);
    GroupFormable(v, Flat(v), j);
    GroupHolds(v, Flat(v), j);
    var g := GroupOf(v, Flat(v), j).value;
    GroupParts(v, j, g);
    forall k ensures Mates(GraphOf(v), j, k) <==> k == j {
      OnlyMate(v, j, k);
    }
    OneElement(g.jobs, j);
    forall l ensures ClassUses(v, j, l) <==> Uses(v, j, l) {}
  }

  lemma OneElement<T(!new)>(s: seq<T>, x: T)
    requires NoDup(s) && forall y :: y in s <==> y == x
    ensures s == [x]
  {
    assert x in s;
    NoDupBound(s, {x});
    assert s[0] in s;
  }

  lemma PlainFormable(v: View, j: JobId)
    requires Plain(v) && j in v.s.jobs
    requires forall l :: l in RefsIn(v.JobToks(j), v.pads) ==> l in v.s.labels
    ensures Formable(v, j)
  {
    hide Mates, RefsIn, View.JobToks, View.AlignOf, View.LabelToks, Reached, View.Valid, Pulled;
    forall k ensures Mates(GraphOf(v), j, k) <==> k == j {
      OnlyMate(v, j, k);
    }
    forall m ensures Reached(LabelsOf(v), RefsIn(v.JobToks(j), v.pads), m) <==> m in RefsIn(v.JobToks(j), v.pads) {
      ReachedRefs(v, RefsIn(v.JobToks(j), v.pads), m);
    }
    PlainValid(v);
    forall l | ClassUses(v, j, l) ensures v.AlignOf(l).Some? {
      var m :| Reached(LabelsOf(v), RefsIn(v.JobToks(j), v.pads), m) && Pulled(LabelsOf(v), m, l);
      LabelKnown(v, m, l);
    }
  }

  /** A group that fits beside the open ones joins them. */
  lemma PlaceJoins(v: View, ranks: Ranks, size: nat, col: nat, base: nat, b: Book, j: JobId, g: Group)
    requires Ready(v, ranks) && j in v.s.jobs && j.Job? && GroupOf(v, ranks, j) == Ok(g)
    requires j !in b.placed && j !in b.open.jobs && Footprint(g.tsize, g.dsize) <= size
    requires Footprint(b.open.tsize + g.tsize, b.open.dsize + g.dsize) <= size
    ensures Place(v, ranks, size, col, base, b, j) == Ok(b.(open := Pages.Join(b.open, g)))
  {
    hide View.Valid, Ready, GroupOf, Conclude, Footprint;
  }

  // ---------- reading records off a token list ----------

  /** The only `start_job` of job `j` is token `a`, and the first `end_job` after it token `b`. */
  lemma JobAt(v: View, j: JobId, a: nat, b: nat)
    requires v.Valid() && j in v.s.jobs && j.Job? && a < b < |v.toks| && v.toks[b] == EndJobTok
    requires forall i :: 0 <= i < |v.toks| && v.toks[i].Isa? && v.toks[i].args == [Num(j.n, j.form)] ==> i == a
    requires forall i :: a < i < b ==> v.toks[i] != EndJobTok
    ensures v.JobToks(j) == v.toks[a..b + 1] && v.JobSize(j) == Sizes(v.toks[a..b + 1])
  {
    hide LabelsOk, EofOk, EopsOk, BarriersMatch, Sizes, BarriersOf, LaunchesOf;
    var r := v.s.jobs[j];
    assert JobOk(v.toks, r, j);
    var t := v.toks[r.first..r.last + 1];
    assert t[0] == v.toks[r.first] && t[|t| - 1] == v.toks[r.last];
    forall i | r.first < i < r.last ensures v.toks[i] != EndJobTok {
      Interior(j, t, i - r.first);
    }
  }

  lemma Interior(j: JobId, t: seq<Token>, i: nat)
    requires JobShape(j, t) && 1 <= i < |t| - 1
    ensures BodyOp(t[i]) && t[i] != EndJobTok
  {}

  /** Label `l` is token `a`, followed by one line of data. */
  lemma LabelAt(v: View, l: Name, a: nat)
    requires v.Valid() && l in v.s.labels && a + 1 < |v.toks| && !v.toks[a + 1].Align? && !v.toks[a + 1].Label?
    requires forall i :: 0 <= i < |v.toks| && v.toks[i] == Label(l) ==> i == a
    requires a + 2 == |v.toks| || v.toks[a + 2].Label?
    ensures v.LabelToks(l) == v.toks[a..a + 2] && v.LabelSize(l) == SizeOf(v.toks[a + 1])
    ensures v.AlignOf(l) == if v.toks[a + 1].UcDmaBd? then Some(16) else if v.toks[a + 1].Long? then Some(4) else None
  {
    hide LabelOk, JobsOk, EofOk, SizeOf, Sizes;
    var r := v.s.labels[l];
    assert LabelOk(v.toks, r, l);
    LabelLine(v.toks, r, l);
    OneLine(v.toks, r, l, a);
  }

  lemma LabelLine(toks: seq<Token>, r: LabelRec, l: Name)
    requires LabelOk(toks, r, l)
    ensures r.index < |toks| && toks[r.index] == Label(l)
  {
    hide Sizes, DataOp;
  }

  lemma OneLine(toks: seq<Token>, r: LabelRec, l: Name, a: nat)
    requires LabelOk(toks, r, l) && r.index == a && a + 1 < |toks| && !toks[a + 1].Align? && !toks[a + 1].Label?
    requires a + 2 == |toks| || toks[a + 2].Label?
    ensures r.count == 1 && r.size == SizeOf(toks[a + 1])
  {
    hide Sizes, SizeOf, DataOp;
    AtMostOneLine(toks, a, r.count);
    assert toks[a + 1..a + 2] == [toks[a + 1]];
    ContributionOne(toks[a + 1]);
  }

  lemma AtMostOneLine(toks: seq<Token>, a: nat, n: nat)
    requires a + n < |toks| && (forall x :: x in toks[a + 1..a + 1 + n] ==> DataOp(x))
    requires a + 2 == |toks| || (a + 2 < |toks| && toks[a + 2].Label?)
    ensures n <= 1
  {
    hide DataOp;
    var t := toks[a + 1..a + 1 + n];
    forall k | a < k <= a + n ensures !toks[k].Label? {
      assert t[k - a - 1] == toks[k] && toks[k] in t;
      DataIsNoLabel(toks[k]);
    }
  }

  lemma DataIsNoLabel(t: Token)
    requires DataOp(t)
    ensures !t.Label?
  {}

  // ---------- jobs without instructions ----------

  /** Empty jobs and `.eop` lines, no data. */
  predicate Bare(p: Source) {
    p.lead == [] && p.blocks == [] && forall g :: g in p.segs && g.JobSeg? ==> g.body == []
  }

  lemma {:induction false} BareToks(segs: seq<Segment>)
    requires forall g :: g in segs && g.JobSeg? ==> g.body == []
    ensures forall t :: t in SegsToks(segs) ==> t.Eop? || (t.Isa? && t.op in {StartJob, StartJobDeferred, EndJob})
  {
    if segs != [] {
      BareToks(segs[1..]);
      assert segs == [segs[0]] + segs[1..];
    }
  }

  lemma {:induction false} BareApplies(toks: seq<Token>)
    requires forall t :: t in toks && t.Isa? ==> !t.op.ApplyOffset57?
    ensures AppliesOf(map[], toks) == map[]
  {
    if toks != [] {
      BareApplies(toks[1..]);
    }
  }

  lemma BareBuilt(p: Source)
    requires Bare(p) && NoDup(SegIds(p.segs, 0))
    ensures p.Valid() && Build(p.Toks(), {}).Ok?
    ensures var v := ViewOf(p, {});
        Plain(v) && v.s.jobids == SegIds(p.segs, 0) + [EofJob] && v.s.labels.Keys == {}
        && v.pads == {}
    ensures forall t :: t in ViewOf(p, {}).toks ==>
      t.Eop? || (t.Isa? && t.op in {StartJob, StartJobDeferred, EndJob, Eof})
  {
    hide ScanFrom, SegIds, DataInv, Dependents, NoDup;
    BareToks(p.segs);
    BareApplies(p.Toks());
    NoNames();
    Built(p, {});
    NoTables([]);
    NoLabels(ViewOf(p, {}));
  }

  lemma NoNames()
    ensures NoDup<Name>([])
  {}

  lemma NoLabels(v: View)
    requires v.Valid() && v.s.labelList == []
    ensures v.s.labels.Keys == {}
  {
    hide JobsOk, EofOk, LabelOk;
    assert forall l :: l in v.s.labels ==> l in v.s.labelList;
  }

  /** An empty job is a group of twelve bytes of its own. */
  lemma BareGroup(p: Source, j: JobId)
    requires Bare(p) && NoDup(SegIds(p.segs, 0)) && j in SegIds(p.segs, 0) && j.Job?
    ensures Build(p.Toks(), {}).Ok? && Ready(ViewOf(p, {}), Flat(ViewOf(p, {}))) && j in ViewOf(p, {}).s.jobs
    ensures var g := GroupOf(ViewOf(p, {}), Flat(ViewOf(p, {})), j);
      g.Ok? && g.value.jobs == [j] && g.value.labels == [] && g.value.tsize == 12 && g.value.dsize == 0
  {
    hide Build, SegIds, Source.Toks, Plain, Ready, GroupOf, NoDup, Bare, View.Valid, Uses, View.JobToks, View.JobSize;
    BareBuilt(p);
    var v := ViewOf(p, {});
    PlainValid(v);
    KnownIds(v);
    BareSize(v, j);
    LoneGroup(v, j);
    var g := GroupOf(v, Flat(v), j).value;
    forall l ensures !Uses(v, j, l) {
      NoUses(v, j, l);
    }
    NoDupBound(g.labels, {});
  }

  lemma NoUses(v: View, j: JobId, l: Name)
    requires RefsIn(v.JobToks(j), v.pads) == []
    ensures !Uses(v, j, l)
  {
    NothingWanted(LabelsOf(v), l);
  }

  lemma BareSize(v: View, j: JobId)
    requires v.Valid() && j in v.s.jobs && j.Job?
    requires forall t :: t in v.toks ==> t.Eop? || (t.Isa? && t.op in {StartJob, StartJobDeferred, EndJob, Eof})
    ensures v.JobSize(j) == 12 && RefsIn(v.JobToks(j), v.pads) == []
  {
    hide View.Valid, View.JobToks, LaunchesOf, Sizes;
    JobSlice(v, j);
    JobsInside(v, j);
    var t := v.JobToks(j);
    SecondToken(j, t);
    assert t[1] in t;
    BareJob(j, t, v.pads);
  }

  lemma SecondToken(j: JobId, t: seq<Token>)
    requires JobShape(j, t)
    ensures |t| > 2 ==> BodyOp(t[1])
  {}

  lemma BareJob(j: JobId, t: seq<Token>, pads: set<Name>)
    requires JobShape(j, t) && |t| == 2
    ensures Sizes(t) == 12 && RefsIn(t, pads) == []
  {
    hide RefsIn, Refs;
    JobContribution(j, t);
    assert t[1..|t| - 1] == [];
    StartSize(t[0]);
    assert t == [t[0], t[1]];
    RefsOfTwo(t[0], t[1], pads);
    NumbersOnly(t[0], pads);
    NumbersOnly(t[1], pads);
  }

  lemma StartSize(t: Token)
    requires t.Isa? && t.op in {StartJob, StartJobDeferred}
    ensures SizeOf(t) == 8 && Sizes([]) == 0
  {}

  lemma RefsOfTwo(a: Token, b: Token, pads: set<Name>)
    ensures RefsIn([a, b], pads) == Refs(a, pads) + Refs(b, pads)
  {
    hide Refs;
    assert [a, b][1..] == [b] && [b][1..] == [];
    assert RefsIn([b], pads) == Refs(b, pads) + RefsIn([], pads);
  }

  /** A token whose operands are numbers refers to nothing. */
  lemma NumbersOnly(t: Token, pads: set<Name>)
    requires forall a :: a in ArgsOf(t) ==> a.Num?
    ensures Refs(t, pads) == []
  {
    NothingNamed(ArgsOf(t), pads);
  }

  lemma {:induction false} NothingNamed(args: seq<Arg>, pads: set<Name>)
    requires forall a :: a in args ==> a.Num?
    ensures Named(args, pads) == []
  {
    if args != [] {
      assert args[0] in args;
      NothingNamed(args[1..], pads);
    }
  }

  lemma JobsInside(v: View, j: JobId)
    ensures forall t :: t in v.JobToks(j) ==> t in v.toks
  {}

  // ---------- a page flagged last that is not ----------

  /** One empty job, then `.eop`, then `eof`. */
  const TRAILING := Source([JobSeg(0, false, []), EopSeg], [], [])

  /** Two empty jobs in two regions. */
  const TWO := Source([JobSeg(0, false, []), EopSeg, JobSeg(1, false, [])], [], [])

  lemma SampleIds()
    ensures SegIds(TRAILING.segs, 0) == [Job(0), EopJob(0)] && SegIds(TWO.segs, 0) == [Job(0), EopJob(0), Job(1)]
  {
    var a, b := TRAILING.segs, TWO.segs;
    assert a[1..] == [EopSeg] && a[1..][1..] == [];
    assert b[1..] == [EopSeg, JobSeg(1, false, [])] && b[1..][1..] == [JobSeg(1, false, [])] && b[1..][1..][1..] == [];
    assert SegIds([JobSeg(1, false, [])], 1) == [Job(1)] + SegIds([], 1);
    assert SegIds([EopSeg, JobSeg(1, false, [])], 0) == [EopJob(0)] + SegIds([JobSeg(1, false, [])], 1);
  }

  /** What the pager does with an `.eop` when a page is open. */
  lemma PlaceEop(v: View, ranks: Ranks, size: nat, col: nat, base: nat, b: Book, k: nat)
    requires Ready(v, ranks) && EopJob(k) in v.s.jobs && EopJob(k) !in b.placed && EopJob(k) !in b.open.jobs
    requires b.open.jobs != [] && b.open.jobs != [EofJob]
    ensures var r := Place(v, ranks, size, col, base, b, EopJob(k));
      r.Ok? && |r.value.pages| == |b.pages| + 1 && r.value.open == EMPTY
        && r.value.placed.Keys == b.placed.Keys + (set j | j in b.open.jobs)
  {
    hide View.Valid, Ready, GroupOf, MakePage;
    ReadyValid(v, ranks);
    EofToken(v);
  }

  lemma PlaceEof(v: View, ranks: Ranks, size: nat, col: nat, base: nat, b: Book)
    requires Ready(v, ranks) && EofJob in v.s.jobs
    ensures Place(v, ranks, size, col, base, b, EofJob) == Ok(b)
  {
    hide View.Valid, Ready, GroupOf, Conclude;
  }

  lemma SmallFootprint()
    ensures Footprint(12, 0) == 32
  {}

  /** An empty job joins an empty page. */
  lemma PlaceBare(p: Source, j: JobId, base: nat, b: Book)
    requires Bare(p) && NoDup(SegIds(p.segs, 0)) && j in SegIds(p.segs, 0) && j.Job?
    requires b.open == EMPTY && j !in b.placed
    ensures Build(p.Toks(), {}).Ok? && Ready(ViewOf(p, {}), Flat(ViewOf(p, {}))) && j in ViewOf(p, {}).s.jobs
    ensures var r := Place(ViewOf(p, {}), Flat(ViewOf(p, {})), 8192, 0, base, b, j);
      r.Ok? && r.value == b.(open := r.value.open) && r.value.open.jobs == [j]
  {
    hide Build, SegIds, Source.Toks, Ready, GroupOf, NoDup, Bare, Place, Footprint;
    BareGroup(p, j);
    SmallFootprint();
    var g := GroupOf(ViewOf(p, {}), Flat(ViewOf(p, {})), j).value;
    PlaceJoins(ViewOf(p, {}), Flat(ViewOf(p, {})), 8192, 0, base, b, j, g);
    assert [] + [j] == [j];
  }

  /** Job, `.eop`: one page, and nothing left open. */
  lemma FirstRegion(p: Source, before: seq<Page>) returns (b: Book)
    requires Bare(p) && NoDup(SegIds(p.segs, 0)) && [Job(0), EopJob(0)] <= SegIds(p.segs, 0)
    ensures Build(p.Toks(), {}).Ok? && Ready(ViewOf(p, {}), Flat(ViewOf(p, {})))
    ensures forall j :: j in [Job(0), EopJob(0)] ==> j in ViewOf(p, {}).s.jobs
    ensures PlaceAll(ViewOf(p, {}), Flat(ViewOf(p, {})), 8192, 0, |before|, Book(before, map[], EMPTY),
      [Job(0), EopJob(0)]) == Ok(b)
    ensures |b.pages| == |before| + 1 && b.open == EMPTY && b.placed.Keys == {Job(0)}
  {
    hide Build, SegIds, Source.Toks, Ready, GroupOf, NoDup, Bare, Place, Plain, View.Valid;
    var start, ids := Book(before, map[], EMPTY), [Job(0), EopJob(0)];
    assert Job(0) == SegIds(p.segs, 0)[0] && EopJob(0) == SegIds(p.segs, 0)[1];
    BareBuilt(p);
    var v, ranks := ViewOf(p, {}), Flat(ViewOf(p, {}));
    PlainReady(v);
    PlainValid(v);
    KnownIds(v);
    PlaceBare(p, Job(0), |before|, start);
    var b1 := Place(v, ranks, 8192, 0, |before|, start, Job(0)).value;
    PlaceEop(v, ranks, 8192, 0, |before|, b1, 0);
    b := Place(v, ranks, 8192, 0, |before|, b1, EopJob(0)).value;
    assert ids[1..] == [EopJob(0)] && ids[1..][1..] == [];
    assert PlaceAll(v, ranks, 8192, 0, |before|, b, []) == Ok(b);
    assert PlaceAll(v, ranks, 8192, 0, |before|, b1, [EopJob(0)]) == Ok(b);
  }

  lemma {:induction false} PlaceAllAppend(v: View, ranks: Ranks, size: nat, col: nat, base: nat, b: Book,
                                          x: seq<JobId>, y: seq<JobId>)
    requires Ready(v, ranks) && forall j :: j in x + y ==> j in v.s.jobs
    ensures PlaceAll(v, ranks, size, col, base, b, x + y) ==
      (var r := PlaceAll(v, ranks, size, col, base, b, x); if r.Err? then r
        else PlaceAll(v, ranks, size, col, base, r.value, y))
    decreases |x|
  {
    hide Ready, Place;
    if x == [] {
      assert x + y == y;
    } else {
      assert (x + y)[1..] == x[1..] + y;
      var r := Place(v, ranks, size, col, base, b, x[0]);
      if r.Ok? {
        PlaceAllAppend(v, ranks, size, col, base, r.value, x[1..], y);
      }
    }
  }

  lemma {:induction false} EopsShort()
    ensures Eops([]) == 0 && Eops([Job(0), EopJob(0)]) == 1
    ensures Eops([Job(0), EopJob(0), EofJob]) == 1 && Eops([Job(0), EopJob(0), Job(1), EofJob]) == 1
  {
    EopsSnoc([], Job(0));
    EopsSnoc([Job(0)], EopJob(0));
    EopsSnoc([Job(0), EopJob(0)], EofJob);
    EopsSnoc([Job(0), EopJob(0)], Job(1));
    EopsSnoc([Job(0), EopJob(0), Job(1)], EofJob);
    assert [] + [Job(0)] == [Job(0)] && [Job(0)] + [EopJob(0)] == [Job(0), EopJob(0)];
    assert [Job(0), EopJob(0)] + [EofJob] == [Job(0), EopJob(0), EofJob];
    assert [Job(0), EopJob(0)] + [Job(1)] == [Job(0), EopJob(0), Job(1)];
    assert [Job(0), EopJob(0), Job(1)] + [EofJob] == [Job(0), EopJob(0), Job(1), EofJob];
  }

  lemma EopAt(v: View, i: nat)
    requires v.Valid() && i < |v.s.jobids|
    ensures v.s.jobids[i] in v.s.jobs && v.s.jobs[v.s.jobids[i]].eop == Eops(v.s.jobids[..i])
      && v.s.eopnum == Eops(v.s.jobids)
  {
    hide View.Valid, Eops;
    IdFacts(v, i);
    EopnumIs(v);
  }

  /** One page more, and no job after the last `.eop`. */
  lemma TrailingPages(before: seq<Page>)
    ensures TRAILING.Valid() && Build(TRAILING.Toks(), {}).Ok?
    ensures var v := ViewOf(TRAILING, {});
      && Ready(v, Flat(v)) && NoLaunch(v) && !TailJob(v)
      && var r := Pagify(v, Flat(v), 8192, 0, before); r.Ok? && |r.value| == |before| + 1
  {
    hide Build, Source.Toks, Source.Valid, Ready, GroupOf, Place, PlaceAll, Plain, View.Valid, SegIds, Eops;
    SampleIds();
    BareBuilt(TRAILING);
    var b := FirstRegion(TRAILING, before);
    var v, ids := ViewOf(TRAILING, {}), [Job(0), EopJob(0)];
    var ranks := Flat(v);
    PlainValid(v);
    PlainJobs(v);
    KnownIds(v);
    assert v.s.jobids == ids + [EofJob] == [Job(0), EopJob(0), EofJob];
    PlaceAllAppend(v, ranks, 8192, 0, |before|, Book(before, map[], EMPTY), ids, [EofJob]);
    PlaceLast(v, ranks, |before|, b);
    EopsShort();
    EopAt(v, 0);
    assert v.s.jobids[..0] == [];
    OnlyJob(v);
  }

  lemma OnlyJob(v: View)
    requires v.s.jobids == [Job(0), EopJob(0), EofJob] && Job(0) in v.s.jobs && v.s.jobs[Job(0)].eop == 0
      && v.s.eopnum == 1
    ensures !TailJob(v)
  {}

  lemma PlaceLast(v: View, ranks: Ranks, base: nat, b: Book)
    requires Ready(v, ranks) && EofJob in v.s.jobs
    ensures PlaceAll(v, ranks, 8192, 0, base, b, [EofJob]) == Ok(b)
  {
    hide Ready, Place;
    PlaceEof(v, ranks, 8192, 0, base, b);
    assert [EofJob][1..] == [];
  }

  /** Two pages more, the second with the job after the last `.eop`. */
  lemma TwoPages(before: seq<Page>)
    ensures TWO.Valid() && Build(TWO.Toks(), {}).Ok?
    ensures var v := ViewOf(TWO, {});
      && Ready(v, Flat(v)) && NoLaunch(v) && TailJob(v)
      && var r := Pagify(v, Flat(v), 8192, 0, before); r.Ok? && |r.value| == |before| + 2
  {
    hide Build, Source.Toks, Source.Valid, Ready, GroupOf, Place, PlaceAll, Plain, View.Valid, SegIds, Eops, Finish,
      TailJob;
    SampleIds();
    BareBuilt(TWO);
    var b := FirstRegion(TWO, before);
    var v, ids := ViewOf(TWO, {}), [Job(0), EopJob(0)];
    var ranks := Flat(v);
    PlainValid(v);
    PlainJobs(v);
    KnownIds(v);
    assert v.s.jobids == ids + ([Job(1)] + [EofJob]) == [Job(0), EopJob(0), Job(1), EofJob];
    assert Job(1) == SegIds(TWO.segs, 0)[2];
    PlaceBare(TWO, Job(1), |before|, b);
    var b' := Place(v, ranks, 8192, 0, |before|, b, Job(1)).value;
    PlaceAllAppend(v, ranks, 8192, 0, |before|, Book(before, map[], EMPTY), ids, [Job(1)] + [EofJob]);
    PlaceTwo(v, ranks, |before|, b, b');
    FinishOpen(v, |before|, b');
    EopsShort();
    EopAt(v, 2);
    assert v.s.jobids[..2] == [Job(0), EopJob(0)] && v.s.jobids[2] == Job(1);
    SomeJob(v, Job(1));
  }

  lemma SomeJob(v: View, j: JobId)
    requires j in v.s.jobids && j.Job? && j in v.s.jobs && v.s.jobs[j].eop == v.s.eopnum
    ensures TailJob(v)
  {}

  lemma FinishOpen(v: View, base: nat, b: Book)
    requires v.Valid() && b.open.jobs != [] && b.open.jobs != [EofJob]
    ensures var r := Finish(v, 0, base, b); r.Ok? && |r.value| == |b.pages| + 1
  {
    hide View.Valid, MakePage;
    EofToken(v);
  }

  lemma PlaceTwo(v: View, ranks: Ranks, base: nat, b: Book, b': Book)
    requires Ready(v, ranks) && (forall j :: j in [Job(1)] + [EofJob] ==> j in v.s.jobs)
      && Place(v, ranks, 8192, 0, base, b, Job(1)) == Ok(b')
    ensures PlaceAll(v, ranks, 8192, 0, base, b, [Job(1)] + [EofJob]) == Ok(b')
  {
    hide Ready, Place;
    assert EofJob in [Job(1)] + [EofJob];
    PlaceLast(v, ranks, base, b');
    assert ([Job(1)] + [EofJob])[1..] == [EofJob];
  }

  /** Two page labels of one column. The first program yields two pages, of which the second is flagged last.
      Paging the second program after them flags neither its own page nor the last one before it, but
      the column's first page. */
  lemma TrailingEopMisflags()
    ensures TWO.Valid() && TRAILING.Valid() && Build(TWO.Toks(), {}).Ok? && Build(TRAILING.Toks(), {}).Ok?
    ensures var u, v := ViewOf(TWO, {}), ViewOf(TRAILING, {});
      && Ready(u, Flat(u)) && Ready(v, Flat(v)) && Pagify(u, Flat(u), 8192, 0, []).Ok?
      && var first := Pagify(u, Flat(u), 8192, 0, []).value;
        && |first| == 2 && !first[0].last && first[1].last
        && var r := Pagify(v, Flat(v), 8192, 0, first);
          r.Ok? && |r.value| == 3 && r.value[0].last && !r.value[2].last
  {
    hide Build, Source.Toks, Source.Valid, Ready, Pagify, TailJob, NoLaunch;
    TwoPages([]);
    var u := ViewOf(TWO, {});
    var first := Pagify(u, Flat(u), 8192, 0, []).value;
    LastFlag(u, Flat(u), 8192, 0, []);
    TrailingPages(first);
    var v := ViewOf(TRAILING, {});
    LastFlag(v, Flat(v), 8192, 0, first);
  }

  // ---------- a page the writer refuses ----------

  /** Waits for the descriptor of label 0. */
  const USE := Token.Isa(UcDmaWriteDesSync, [Ref(0)])

  /** One descriptor line. */
  const LINE := UcDmaBd([Num(0), Num(0), Num(0), Num(4), Num(0), Num(0)])

  /** Two jobs that share no barrier and use the same descriptor. */
  const SHARED := Source([JobSeg(0, false, [USE]), JobSeg(1, false, [USE])], [], [Block(0, [LINE], [])])

  const SHARED_TOKS: seq<Token> :=
    [Token.Isa(StartJob, [Num(0)]), USE, EndJobTok, Token.Isa(StartJob, [Num(1)]), USE, EndJobTok, EOF, Label(0), LINE]

  lemma SharedToks()
    ensures SHARED.Valid() && SHARED.Toks() == SHARED_TOKS
    ensures SegIds(SHARED.segs, 0) == [Job(0), Job(1)] && LabelNames(SHARED.blocks) == [0]
  {
    var segs, blocks := SHARED.segs, SHARED.blocks;
    assert segs[1..] == [segs[1]] && segs[1..][1..] == [] && blocks[1..] == [];
    assert SegsToks([segs[1]]) == segs[1].Toks() + SegsToks([]);
    assert SegIds([segs[1]], 0) == [Job(1)] + SegIds([], 0);
    assert SegsToks(segs) == segs[0].Toks() + segs[1].Toks();
    assert BlocksToks(blocks) == blocks[0].Toks();
  }

  lemma SharedBuilt()
    ensures SHARED.Valid() && Build(SHARED.Toks(), {}).Ok?
    ensures var v := ViewOf(SHARED, {});
      && v.Valid() && v.toks == SHARED_TOKS && v.pads == {} && v.s.jobids == [Job(0), Job(1), EofJob]
        && v.s.labelList == [0]
  {
    hide ScanFrom, DataInv, Source.Toks, Source.Valid;
    SharedToks();
    BareApplies(SHARED_TOKS);
    assert [0 as Name][..0] == [];
    Built(SHARED, {});
    NoTables([0]);
  }

  lemma InLabelList(v: View, l: Name)
    requires v.Valid()
    ensures l in v.s.labels <==> l in v.s.labelList
  {
    hide JobsOk, EofOk, LabelOk;
  }

  /** The tokens of job `k` of the program. */
  lemma SharedJob(k: u32)
    requires k < 2
    ensures Build(SHARED.Toks(), {}).Ok? && Job(k) in ViewOf(SHARED, {}).s.jobs
    ensures var v := ViewOf(SHARED, {}); v.JobSize(Job(k)) == 16 && RefsIn(v.JobToks(Job(k)), v.pads) == [0]
  {
    hide Build, Source.Toks, Source.Valid, View.Valid, View.JobToks, View.JobSize, Sizes, RefsIn;
    SharedBuilt();
    var v := ViewOf(SHARED, {});
    KnownIds(v);
    assert Job(k) == v.s.jobids[k];
    JobAt(v, Job(k), 3 * k, 3 * k + 2);
    var t := SHARED_TOKS[3 * k..3 * k + 3];
    assert t == [Token.Isa(StartJob, [Num(k)]), USE, EndJobTok];
    UsingJob(k);
  }

  /** A job of one instruction. */
  lemma OneInstruction(k: u32, t: Token, refs: seq<Name>)
    requires Refs(t, {}) == refs
    ensures var job := [Token.Isa(StartJob, [Num(k)]), t, EndJobTok];
        Sizes(job) == 12 + SizeOf(t)
        && RefsIn(job, {}) == refs
  {
    hide Refs, SizeOf;
    var s := Token.Isa(StartJob, [Num(k)]);
    var job := [s, t, EndJobTok];
    assert job[1..] == [t, EndJobTok] && job[1..][1..] == [EndJobTok] && job[1..][1..][1..] == [];
    NumbersOnly(s, {});
    RefsOfTwo(t, EndJobTok, {});
    NumbersOnly(EndJobTok, {});
    StartSize(s);
    assert SizeOf(EndJobTok) == 4 by { BracketsContribute(s); }
    assert Sizes([EndJobTok]) == 4 && Sizes([t, EndJobTok]) == SizeOf(t) + 4;
    assert [] + refs + [] == refs;
  }

  lemma UsingJob(k: u32)
    ensures var t := [Token.Isa(StartJob, [Num(k)]), USE, EndJobTok]; Sizes(t) == 16 && RefsIn(t, {}) == [0]
  {
    assert Refs(USE, {}) == [0] by {
      assert [Ref(0)][1..] == [];
    }
    OneInstruction(k, USE, [0]);
  }

  lemma SharedPlain()
    ensures Build(SHARED.Toks(), {}).Ok?
    ensures var v := ViewOf(SHARED, {}); Plain(v) && v.s.labels.Keys == {0} && v.LabelSize(0) == 16
  {
    hide Build, Source.Toks, Source.Valid, View.Valid, View.LabelToks, View.LabelSize, View.AlignOf, RefsIn;
    SharedBuilt();
    var v := ViewOf(SHARED, {});
    forall l ensures l in v.s.labels <==> l == 0 {
      InLabelList(v, l);
    }
    assert forall t :: t in SHARED_TOKS && t.Isa? ==> t.op !in {LaunchJob, LocalBarrier};
    SharedLine(v);
  }

  lemma SharedLine(v: View)
    requires v.Valid() && v.toks == SHARED_TOKS && v.pads == {} && 0 in v.s.labels
    ensures v.LabelSize(0) == 16 && v.AlignOf(0) == Some(16) && RefsIn(v.LabelToks(0), v.pads) == []
  {
    hide View.Valid, View.LabelToks, View.LabelSize, View.AlignOf, RefsIn, Refs;
    LabelAt(v, 0, 7);
    assert SHARED_TOKS[7..9] == [Label(0), LINE];
    NumbersOnly(LINE, {});
    NumbersOnly(Label(0), {});
    RefsOfTwo(Label(0), LINE, {});
  }

  lemma SharedUses(k: u32)
    requires k < 2
    ensures Build(SHARED.Toks(), {}).Ok? && Job(k) in ViewOf(SHARED, {}).s.jobs && Uses(ViewOf(SHARED, {}), Job(k), 0)
  {
    hide Build, Source.Toks, RefsIn, View.JobToks;
    SharedJob(k);
    var v := ViewOf(SHARED, {});
    Closure.ReachedFirst(LabelsOf(v), [0], 0);
    assert Pulled(LabelsOf(v), 0, 0);
  }

  lemma SharedGroup(k: u32)
    requires k < 2
    ensures Build(SHARED.Toks(), {}).Ok? && Ready(ViewOf(SHARED, {}), Flat(ViewOf(SHARED, {})))
      && Job(k) in ViewOf(SHARED, {}).s.jobs
    ensures var g := GroupOf(ViewOf(SHARED, {}), Flat(ViewOf(SHARED, {})), Job(k));
      g.Ok? && g.value.jobs == [Job(k)] && g.value.tsize == 16 && g.value.dsize <= 16
  {
    hide Build, Source.Toks, Plain, Ready, GroupOf, RefsIn, View.JobToks, View.JobSize, View.LabelSize, Uses;
    SharedJob(k);
    SharedPlain();
    var v := ViewOf(SHARED, {});
    LoneGroup(v, Job(k));
    var g := GroupOf(v, Flat(v), Job(k)).value;
    GroupLabelsKnown(v, Flat(v), Job(k));
    NoDupBound(g.labels, {0});
    ShortLabels(v, g.labels);
  }

  lemma GroupLabelsKnown(v: View, ranks: Ranks, j: JobId)
    requires Ready(v, ranks) && j in v.s.jobs && j.Job? && GroupOf(v, ranks, j).Ok?
    ensures forall l :: l in GroupOf(v, ranks, j).value.labels ==> l in v.s.labels
  {
    hide Ready, GroupOf, JobsToks, JobsSize, LabelsSize, ExternalsFrom, Wanted, Reached, GroupJobs, View.AlignOf;
    GroupHolds(v, ranks, j);
  }

  lemma ShortLabels(v: View, labels: seq<Name>)
    requires |labels| <= 1 && (forall l :: l in labels ==> l == 0) && v.LabelSize(0) == 16
    ensures LabelsSize(v, labels) <= 16
  {
    hide View.LabelSize;
    if |labels| == 1 {
      assert labels[0] in labels;
      assert labels[1..] == [];
    }
  }

  lemma Footprints(a: nat, b: nat)
    requires a <= 32 && b <= 32
    ensures Footprint(a, b) <= 8192
  {}

  /** Both jobs go on one page. */
  lemma SharedPaged()
    ensures Build(SHARED.Toks(), {}).Ok? && Ready(ViewOf(SHARED, {}), Flat(ViewOf(SHARED, {})))
    ensures var r := Pagify(ViewOf(SHARED, {}), Flat(ViewOf(SHARED, {})), 8192, 0, []);
      r.Ok? && |r.value| == 1 && r.value[0].jobs == [Job(0), Job(1)]
  {
    hide Build, Source.Toks, Plain, Ready, GroupOf, Place, Footprint, View.Valid, Finish;
    SharedBuilt();
    SharedGroup(0);
    SharedGroup(1);
    var v := ViewOf(SHARED, {});
    var ranks := Flat(v);
    KnownIds(v);
    var g, h := GroupOf(v, ranks, Job(0)).value, GroupOf(v, ranks, Job(1)).value;
    Footprints(g.tsize, g.dsize);
    Footprints(h.tsize, h.dsize);
    Footprints(g.tsize + h.tsize, g.dsize + h.dsize);
    var start := Book([], map[], EMPTY);
    PlaceJoins(v, ranks, 8192, 0, 0, start, Job(0), g);
    var b := Place(v, ranks, 8192, 0, 0, start, Job(0)).value;
    PlaceJoins(v, ranks, 8192, 0, 0, b, Job(1), h);
    var c := Place(v, ranks, 8192, 0, 0, b, Job(1)).value;
    assert c.open.jobs == [Job(0), Job(1)];
    PlaceLast(v, ranks, 0, c);
    ThreeSteps(v, ranks, start, b, c);
    FinishFirst(v, c);
  }

  lemma ThreeSteps(v: View, ranks: Ranks, start: Book, b: Book, c: Book)
    requires Ready(v, ranks) && v.s.jobids == [Job(0), Job(1), EofJob] && forall j :: j in v.s.jobids ==> j in v.s.jobs
    requires Job(0) in v.s.jobs && Job(1) in v.s.jobs && EofJob in v.s.jobs
    requires Place(v, ranks, 8192, 0, 0, start, Job(0)) == Ok(b) && Place(v, ranks, 8192, 0, 0, b, Job(1)) == Ok(c)
    requires PlaceAll(v, ranks, 8192, 0, 0, c, [EofJob]) == Ok(c)
    ensures PlaceAll(v, ranks, 8192, 0, 0, start, v.s.jobids) == Ok(c)
  {
    hide Ready, Place;
    var ids := v.s.jobids;
    assert ids[1..] == [Job(1), EofJob] && ids[1..][1..] == [EofJob];
    assert PlaceAll(v, ranks, 8192, 0, 0, b, [Job(1), EofJob]) == Ok(c);
  }

  lemma FinishFirst(v: View, b: Book)
    requires v.Valid() && b.open.jobs != [] && b.open.jobs != [EofJob] && b.pages == []
    ensures var r := Finish(v, 0, 0, b); r.Ok? && |r.value| == 1 && r.value[0].jobs == b.open.jobs
  {
    hide View.Valid;
    EofToken(v);
  }

  /** The pager puts both jobs of the program on one page, and the writer refuses that page. */
  lemma SharedLabelProgram(cfg: PageImage.Config)
    ensures SHARED.Valid() && Build(SHARED.Toks(), {}).Ok? && Ready(ViewOf(SHARED, {}), Flat(ViewOf(SHARED, {})))
    ensures var r := Pagify(ViewOf(SHARED, {}), Flat(ViewOf(SHARED, {})), 8192, 0, []);
      && r.Ok? && |r.value| == 1 && r.value[0].jobs == [Job(0), Job(1)]
      && PageImage.DraftPage(cfg, r.value[0]).Err? && PageImage.WritePage(cfg, r.value[0]).Err?
  {
    hide Build, Source.Toks, Source.Valid, Plain, Ready, Pagify, ScanFrom, Uses, NoLaunch, Mates;
    SharedBuilt();
    SharedPaged();
    SharedPlain();
    SharedUses(0);
    SharedUses(1);
    var v := ViewOf(SHARED, {});
    PlainJobs(v);
    OnlyMate(v, Job(0), Job(1));
    PageLayoutAccepted(v, Flat(v), 8192, 0, [], 0);
    var p := Pagify(v, Flat(v), 8192, 0, []).value[0];
    assert p.jobs[0] in p.jobs && p.jobs[1] in p.jobs;
    assert !Unshared(v, p.jobs);
  }

  // ---------- a program the two pagers page differently ----------

  const APPLY := Token.Isa(ApplyOffset57, [Ref(0), Num(2), Num(0)])

  const WORD := Long(Num(0))

  /** A table of two descriptors, of which the job names the first. */
  const TABLE := Source([JobSeg(0, false, [APPLY])], [], [Block(0, [WORD], []), Block(1, [WORD], [])])

  const TABLE_TOKS: seq<Token> :=
    [Token.Isa(StartJob, [Num(0)]), APPLY, EndJobTok, EOF, Label(0), WORD, Label(1), WORD]

  lemma TableToks()
    ensures TABLE.Valid() && TABLE.Toks() == TABLE_TOKS
    ensures SegIds(TABLE.segs, 0) == [Job(0)] && LabelNames(TABLE.blocks) == [0, 1]
  {
    var segs, blocks := TABLE.segs, TABLE.blocks;
    assert segs[1..] == [] && blocks[1..] == [blocks[1]] && blocks[1..][1..] == [];
    assert BlocksToks([blocks[1]]) == blocks[1].Toks() + BlocksToks([]);
    assert LabelNames([blocks[1]]) == [1] + LabelNames([]);
    assert SegsToks(segs) == segs[0].Toks();
    assert BlocksToks(blocks) == blocks[0].Toks() + blocks[1].Toks();
  }

  lemma TableApplies()
    ensures AppliesOf(map[], TABLE_TOKS) == map[0 := 2]
  {
    var t := TABLE_TOKS;
    var rest := t[2..];
    assert t[1..] == [APPLY] + rest && ([APPLY] + rest)[1..] == rest;
    assert AppliesOf(map[], t) == AppliesOf(map[], [APPLY] + rest);
    assert AppliesOf(map[], [APPLY] + rest) == AppliesOf(map[0 := 2], rest);
    AppliesKept(map[0 := 2], rest);
  }

  lemma {:induction false} AppliesKept(m: map<Name, nat>, toks: seq<Token>)
    requires forall t :: t in toks && t.Isa? ==> !t.op.ApplyOffset57?
    ensures AppliesOf(m, toks) == m
    decreases |toks|
  {
    if toks != [] {
      AppliesKept(m, toks[1..]);
    }
  }

  lemma TwoEntries()
    ensures Dependents([0, 1], map[0 := 2]) == Ok(map[0 := [0, 1]])
  {
    var list: seq<Name>, applies: map<Name, nat> := [0, 1], map[0 := 2];
    assert list[0] == 0 && IndexOf(0, list) == 0 && list[0..0 + 2] == list;
    assert TableFits(list, 0, 2);
    assert Dependents(list, applies).Ok?;
    var found: map<Name, seq<Name>>, want: map<Name, seq<Name>> := Dependents(list, applies).value, map[0 := list];
    assert found.Keys == want.Keys && found[0] == list[0..0 + 2];
    assert found == want;
  }

  lemma TableBuilt()
    ensures TABLE.Valid() && Build(TABLE.Toks(), {}).Ok?
    ensures var v := ViewOf(TABLE, {});
      && v.Valid() && v.toks == TABLE_TOKS && v.pads == {} && v.dependents == map[0 := [0, 1]]
      && v.s.jobids == [Job(0), EofJob] && v.s.labelList == [0, 1]
  {
    hide ScanFrom, DataInv, Source.Toks, Source.Valid, AppliesOf, Dependents;
    TableToks();
    TableApplies();
    TwoEntries();
    Built(TABLE, {});
  }

  lemma WordLine(v: View, l: Name, a: nat)
    requires v.Valid() && v.pads == {} && l in v.s.labels && a + 1 < |v.toks| && v.toks[a] == Label(l)
      && v.toks[a + 1] == WORD
    requires forall i :: 0 <= i < |v.toks| && v.toks[i] == Label(l) ==> i == a
    requires a + 2 == |v.toks| || v.toks[a + 2].Label?
    ensures v.LabelSize(l) == 4 && v.AlignOf(l) == Some(4) && RefsIn(v.LabelToks(l), v.pads) == []
  {
    hide View.Valid, View.LabelToks, View.LabelSize, View.AlignOf, RefsIn, Refs;
    LabelAt(v, l, a);
    assert v.toks[a..a + 2] == [Label(l), WORD];
    NumbersOnly(WORD, {});
    NumbersOnly(Label(l), {});
    RefsOfTwo(Label(l), WORD, {});
  }

  lemma TablePlain()
    ensures Build(TABLE.Toks(), {}).Ok?
    ensures var v := ViewOf(TABLE, {});
      Plain(v) && v.s.labels.Keys == {0, 1} && v.LabelSize(0) == 4 && v.LabelSize(1) == 4
  {
    hide Build, Source.Toks, Source.Valid, View.Valid, View.LabelToks, View.LabelSize, View.AlignOf, RefsIn;
    TableBuilt();
    var v := ViewOf(TABLE, {});
    forall l ensures l in v.s.labels <==> l in {0, 1} {
      InLabelList(v, l);
    }
    assert forall t :: t in TABLE_TOKS && t.Isa? ==> t.op !in {LaunchJob, LocalBarrier};
    WordLine(v, 0, 4);
    WordLine(v, 1, 6);
  }

  lemma ApplyingJob()
    ensures var t := [Token.Isa(StartJob, [Num(0)]), APPLY, EndJobTok]; Sizes(t) == 20 && RefsIn(t, {}) == [0]
  {
    assert Refs(APPLY, {}) == [0] by {
      assert [Ref(0), Num(2), Num(0)][1..] == [Num(2), Num(0)];
      NothingNamed([Num(2), Num(0)], {});
    }
    OneInstruction(0, APPLY, [0]);
  }

  lemma TableJob()
    ensures Build(TABLE.Toks(), {}).Ok? && Job(0) in ViewOf(TABLE, {}).s.jobs
    ensures var v := ViewOf(TABLE, {}); v.JobSize(Job(0)) == 20 && RefsIn(v.JobToks(Job(0)), v.pads) == [0]
  {
    hide Build, Source.Toks, Source.Valid, View.Valid, View.JobToks, View.JobSize, Sizes, RefsIn;
    TableBuilt();
    var v := ViewOf(TABLE, {});
    KnownIds(v);
    assert Job(0) == v.s.jobids[0];
    JobAt(v, Job(0), 0, 2);
    assert TABLE_TOKS[0..3] == [Token.Isa(StartJob, [Num(0)]), APPLY, EndJobTok];
    ApplyingJob();
  }

  lemma {:induction false} FewLabels(v: View, labels: seq<Name>)
    requires forall l :: l in labels ==> v.LabelSize(l) == 4
    ensures LabelsSize(v, labels) == 4 * |labels|
  {
    hide View.LabelSize;
    if labels != [] {
      assert labels[0] in labels;
      FewLabels(v, labels[1..]);
    }
  }

  lemma TableFitsPage()
    ensures Build(TABLE.Toks(), {}).Ok? && Ready(ViewOf(TABLE, {}), Flat(ViewOf(TABLE, {})))
    ensures Plain(ViewOf(TABLE, {})) && AllFit(ViewOf(TABLE, {}), Flat(ViewOf(TABLE, {})), 8192)
  {
    hide Build, Source.Toks, Plain, Ready, GroupOf, RefsIn, View.JobToks, View.JobSize, View.LabelSize, Uses,
      Footprint, View.Valid;
    TableBuilt();
    TableJob();
    TablePlain();
    var v := ViewOf(TABLE, {});
    LoneGroup(v, Job(0));
    var g := GroupOf(v, Flat(v), Job(0)).value;
    GroupLabelsKnown(v, Flat(v), Job(0));
    NoDupBound(g.labels, {0, 1});
    FewLabels(v, g.labels);
    Footprints(g.tsize, g.dsize);
    KnownIds(v);
  }

  lemma ForgottenPlain(v: View)
    requires Plain(v)
    ensures Plain(Forgotten(v))
  {
    hide View.LabelToks, View.AlignOf, RefsIn, JobsOk, EofOk, LabelsOk;
    forall l ensures Forgotten(v).LabelToks(l) == v.LabelToks(l) && Forgotten(v).AlignOf(l) == v.AlignOf(l) {
      ForgottenParts(v, Job(0), l);
    }
  }

  /** Without the table the job's class does not use the second label. */
  lemma SecondUnused(w: View)
    requires Plain(w) && w.dependents == map[] && Job(0) in w.s.jobs && RefsIn(w.JobToks(Job(0)), w.pads) == [0]
    ensures !ClassUses(w, Job(0), 1)
  {
    hide Plain, Mates, Reached, RefsIn, View.JobToks;
    forall k ensures Mates(GraphOf(w), Job(0), k) <==> k == Job(0) {
      OnlyMate(w, Job(0), k);
    }
    forall m ensures Reached(LabelsOf(w), [0], m) <==> m in [0] {
      ReachedRefs(w, [0], m);
    }
  }

  lemma SecondUsed(v: View)
    requires v.dependents == map[0 := [0, 1]] && RefsIn(v.JobToks(Job(0)), v.pads) == [0]
    ensures Uses(v, Job(0), 1)
  {
    hide RefsIn, View.JobToks;
    Closure.ReachedFirst(LabelsOf(v), [0], 0);
    assert 1 in v.dependents[0];
    assert Pulled(LabelsOf(v), 0, 1);
  }

  lemma TableAdds()
    ensures Build(TABLE.Toks(), {}).Ok? && !TablesAddNothing(ViewOf(TABLE, {}))
  {
    hide Build, Source.Toks, Plain, RefsIn, View.JobToks, Uses, ClassUses, View.Valid;
    TableBuilt();
    TableJob();
    TablePlain();
    var v := ViewOf(TABLE, {});
    ForgottenPlain(v);
    ForgottenParts(v, Job(0), 0);
    SecondUsed(v);
    SecondUnused(Forgotten(v));
  }

  /** Both pagers accept the program, and their pages hold different labels. */
  lemma PagersDiffer()
    ensures TABLE.Valid() && Build(TABLE.Toks(), {}).Ok? && Ready(ViewOf(TABLE, {}), Flat(ViewOf(TABLE, {})))
      && NoLaunch(ViewOf(TABLE, {}))
    ensures var x, y := PyPagify(ViewOf(TABLE, {}), Flat(ViewOf(TABLE, {})), 8192, 0),
      Pagify(ViewOf(TABLE, {}), Flat(ViewOf(TABLE, {})), 8192, 0, []);
      x.Ok? && y.Ok? && !SimilarPages(x.value, y.value, 0)
  {
    hide Build, Source.Toks, Source.Valid, Plain, Ready, Pagify, PyPagify, NoLaunch, AllFit, TablesAddNothing,
      SimilarPages;
    TableBuilt();
    TableFitsPage();
    var v := ViewOf(TABLE, {});
    PlainJobs(v);
    PagifyAccepts(v, Flat(v), 8192, 0, []);
    PyPager.PagersAgree(v, Flat(v), 8192, 0, []);
    TableAdds();
  }
}
