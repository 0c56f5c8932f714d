/** What the second pager promises of every program, launches included. */
module PyLaws {
  import opened Base
  import opened Program
  import opened Structure
  import opened View
  import opened Jobs
  import opened Labels
  import opened Pages
  import opened PageLaws
  import opened PyPager
  import Closure
  import Packing

  // ---------- one group ----------

  /** Without recursion into launched jobs: the seed's barrier mates and the jobs the seed itself launches, once each,
      seed first; refused exactly when a mate lies behind an `.eop`. */
  lemma PyExtractCloses(g: Graph, j: JobId)
    requires g.Valid() && j in g.jobs
    ensures var r := PyExtract(g, j);
      if r.Ok? then
        && NoDup(r.value) && r.value != [] && r.value[0] == j
        && (forall k :: k in r.value <==> Mates(g, j, k) || k in g.jobs[j].launches)
        && (forall k :: !Torn(g, j, k))
      else exists k :: Torn(g, j, k)
  {
    hide Mates, Torn, LoopInv, Jobs.Graph.Valid, Loop;
    SeedInv(g, j);
    LoopCloses(g, j, g.jobs[j].barriers, [j], 0);
    var ids := Loop(g, g.jobs[j].eop, g.jobs[j].barriers, [j], 0);
    if ids.Ok? {
      DedupHead(ids.value + g.jobs[j].launches);
      NotTorn(g, j, ids.value);
    }
  }

  lemma NotTorn(g: Graph, j: JobId, ids: seq<JobId>)
    requires j in g.jobs && forall k :: k in ids <==> Mates(g, j, k)
    requires forall k :: k in ids ==> k in g.jobs && g.jobs[k].eop == g.jobs[j].eop
    ensures forall k :: !Torn(g, j, k)
  {
    hide Mates;
  }

  /** Whatever the job pulls in is its own barrier mate or launched by the job itself. */
  ghost predicate Shallow(g: Graph, j: JobId)
    requires j in g.jobs
  {
    forall m, k :: Reaches(g, j, m) && Mates(g, m, k) ==> Mates(g, j, k) || k in g.jobs[j].launches
  }

  lemma NeedsLaunched(g: Graph, rank: map<JobId, nat>, j: JobId, k: JobId)
    requires Acyclic(g, rank) && j in g.jobs && (Mates(g, j, k) || k in g.jobs[j].launches)
    ensures Needs(g, j, k)
  {
    hide Mates;
    if Mates(g, j, k) {
      ReachesSelf(g, j);
    } else {
      assert LaunchPath(g, [j, k], j, k);
      MatesSelf(g, k);
    }
  }

  /** The second pager gathers no more than the first and refuses no more; it gathers as much if and only if nothing
      is pulled in at second hand. */
  lemma PyGathersLess(g: Graph, rank: map<JobId, nat>, j: JobId)
    requires g.Valid() && Acyclic(g, rank) && j in g.jobs
    ensures var first, second := Extract(g, rank, j), PyExtract(g, j);
      first.Ok? ==>
        && second.Ok? && (forall k :: k in second.value ==> k in first.value)
        && ((forall k :: k in first.value ==> k in second.value) <==> Shallow(g, j))
  {
    hide Mates, Reaches, Torn, Extract, PyExtract, Acyclic, Jobs.Graph.Valid, NoDup;
    ExtractCloses(g, rank, j);
    PyExtractCloses(g, j);
    ReachesSelf(g, j);
    var first, second := Extract(g, rank, j), PyExtract(g, j);
    if first.Ok? {
      forall k | k in second.value ensures k in first.value {
        NeedsLaunched(g, rank, j, k);
      }
    }
  }

  /** A job that launches a job that launches a third. */
  function Chain(): Graph {
    Graph(map[Job(0) := JobRec(0, 0, 0, 0, 0, [], [Job(1)]), Job(1) := JobRec(0, 0, 0, 0, 0, [], [Job(2)]),
              Job(2) := JobRec(0, 0, 0, 0, 0, [], [])], map[])
  }

  lemma MateShares(g: Graph, a: JobId, b: JobId)
    requires Mates(g, a, b)
    ensures a == b || exists c :: Shares(g, a, c)
  {
    hide Shares;
    var p :| MatePath(g, p, a, b);
    if |p| > 1 {
      assert Shares(g, p[0], p[0 + 1]);
    }
  }

  lemma AloneInChain(a: JobId, b: JobId)
    requires Mates(Chain(), a, b)
    ensures a == b
  {
    hide Mates;
    MateShares(Chain(), a, b);
  }

  /** There the second pager leaves the third job behind. */
  lemma ChainCut()
    ensures var g, rank := Chain(), map[Job(0) := 2, Job(1) := 1, Job(2) := 0];
      && g.Valid() && Acyclic(g, rank)
      && Extract(g, rank, Job(0)).Ok? && Job(2) in Extract(g, rank, Job(0)).value
      && PyExtract(g, Job(0)).Ok? && Job(2) !in PyExtract(g, Job(0)).value
  {
    hide Extract, PyExtract, MatePath, Mates;
    var g, rank := Chain(), map[Job(0) := 2, Job(1) := 1, Job(2) := 0];
    ExtractCloses(g, rank, Job(0));
    PyExtractCloses(g, Job(0));
    forall a, b ensures !Torn(g, a, b) {
      if Mates(g, a, b) {
        AloneInChain(a, b);
      }
    }
    if Mates(g, Job(0), Job(2)) {
      AloneInChain(Job(0), Job(2));
    }
    assert LaunchPath(g, [Job(0), Job(1), Job(2)], Job(0), Job(2));
    MatesSelf(g, Job(2));
    assert Reaches(g, Job(0), Job(2));
  }

  /** Exactly the labels the lines refer to, directly or through data; tables are left alone. */
  ghost predicate Brings(v: View, toks: seq<Token>, labels: seq<Name>) {
    forall l :: l in labels <==> Reached(LabelsOf(v), RefsIn(toks, v.pads), l)
  }

  /** Exactly the page labels the lines branch to. */
  ghost predicate Branching(toks: seq<Token>, externals: seq<Name>) {
    forall l :: l in externals <==> Packing.BranchesTo(toks, l)
  }

  /** Lists that belong to the jobs: ordinary ones, once each, with their labels and page labels. */
  ghost predicate Belongs(v: View, jobs: seq<JobId>, labels: seq<Name>, externals: seq<Name>) {
    && Ordinary(v, jobs) && NoDup(jobs) && Aligned(v, labels)
    && Brings(v, JobsToks(v, jobs), labels) && Branching(JobsToks(v, jobs), externals)
  }

  /** The group a job brings to a page that holds `skip`. */
  ghost predicate PyGroupFacts(v: View, skip: seq<JobId>, j: JobId, g: Group) {
    && j in v.s.jobs && j in g.jobs && Belongs(v, g.jobs, g.labels, g.externals)
    && (forall k :: k in g.jobs <==> k !in skip && (Mates(GraphOf(v), j, k) || k in v.s.jobs[j].launches))
    && g.tsize == JobsSize(v, g.jobs) && g.dsize == LabelsSize(v, g.labels)
  }

  lemma {:induction false} SkipFilters(jobs: seq<JobId>, skip: seq<JobId>)
    requires NoDup(jobs)
    ensures NoDup(Skip(jobs, skip)) && forall k :: k in Skip(jobs, skip) <==> k in jobs && k !in skip
  {
    if jobs != [] {
      assert forall i :: 0 <= i < |jobs[1..]| ==> jobs[1..][i] == jobs[i + 1];
      SkipFilters(jobs[1..], skip);
      assert jobs == [jobs[0]] + jobs[1..];
      assert jobs[0] !in jobs[1..];
    }
  }

  lemma SameReached(v: View, refs: seq<Name>, m: Name)
    ensures Reached(PyLabelsOf(v), refs, m) <==> Reached(LabelsOf(v), refs, m)
  {
    var g, h := PyLabelsOf(v), LabelsOf(v);
    SamePaths(g, h);
    hide RefPath, LabelsOf;
  }

  lemma SamePaths(g: LabelGraph, h: LabelGraph)
    requires g.toks == h.toks && g.pads == h.pads
    ensures forall p, refs, m :: RefPath(g, p, refs, m) <==> RefPath(h, p, refs, m)
  {
    hide RefsIn;
  }

  /** Without tables a label brings itself only. */
  lemma PyCollected(v: View, toks: seq<Token>, labels: seq<Name>)
    requires Collected(PyLabelsOf(v), RefsIn(toks, v.pads), [], Ok(labels))
    ensures Brings(v, toks, labels) && forall l :: l in labels ==> l in v.s.labels
  {
    hide Reached, RefsIn, LabelsOf;
    var g, refs := PyLabelsOf(v), RefsIn(toks, v.pads);
    forall l ensures l in labels <==> Reached(LabelsOf(v), refs, l) {
      SameReached(v, refs, l);
      if Wanted(g, refs, l) {
        var m :| Reached(g, refs, m) && Pulled(g, m, l);
        assert m == l;
      }
      if Reached(g, refs, l) {
        assert Pulled(g, l, l);
      }
    }
    forall l | l in labels ensures l in v.s.labels {
      SameReached(v, refs, l);
      assert l in g.toks;
    }
  }

  lemma ExternalsBranch(toks: seq<Token>)
    ensures Branching(toks, ExternalsFrom(toks, []))
  {
    hide Packing.BranchesTo, Packing.Targets, ExternalsFrom;
    Packing.CollectedTargets(toks, []);
    assert [] + Packing.Targets(toks) == Packing.Targets(toks);
    forall l {
      Packing.TargetsAre(toks, l);
    }
  }

  lemma FoundOrdinary(v: View, j: JobId, k: JobId)
    requires v.Valid() && j in v.s.jobs && j.Job? && Launchable(v)
    requires Mates(GraphOf(v), j, k) || k in v.s.jobs[j].launches
    ensures k.Job? && k in v.s.jobs
  {
    hide View.Valid, Mates;
    if Mates(GraphOf(v), j, k) {
      MateOrdinary(v, j, k);
    } else {
      LaunchTarget(v, j, k);
    }
  }

  /** Launch targets exist. */
  ghost predicate Launchable(v: View) {
    forall j, l :: j in v.s.jobs && l in v.s.jobs[j].launches ==> l in v.s.jobs
  }

  lemma ReadyLaunchable(v: View, ranks: Ranks)
    requires Ready(v, ranks)
    ensures Launchable(v)
  {
    hide Ready, View.Valid, Ranked, Jobs.Graph.Valid, GraphOf, Acyclic;
    ReadyParts(v, ranks);
    GraphFields(v);
    forall j, l | j in v.s.jobs && l in v.s.jobs[j].launches ensures l in v.s.jobs {
      TargetKnown(GraphOf(v), ranks.jobs, j, l);
    }
  }

  lemma TargetKnown(g: Graph, rank: map<JobId, nat>, j: JobId, l: JobId)
    requires Acyclic(g, rank) && j in g.jobs && l in g.jobs[j].launches
    ensures l in g.jobs
  {}

  lemma PyGroupHolds(v: View, ranks: Ranks, j: JobId, skip: seq<JobId>)
    requires Ready(v, ranks) && j in v.s.jobs && j.Job? && j !in skip
    ensures var g := PyGroupOf(v, ranks, j, skip); g.Ok? ==> PyGroupFacts(v, skip, j, g.value)
  {
    hide Ready, View.Valid, Acyclic, Ranked, Jobs.Graph.Valid, PyExtract, FromLines, LabelsOf, Collected, Torn, Mates,
      GraphOf, Below, View.AlignOf, JobsToks, ExternalsFrom, JobsSize, LabelsSize, RefsIn, Branching, Brings, Skip,
      Launchable, NoDup, PyLabelsOf;
    ReadyParts(v, ranks);
    ReadyLaunchable(v, ranks);
    GraphFields(v);
    var g := PyGroupOf(v, ranks, j, skip);
    if g.Ok? {
      var found := PyExtract(GraphOf(v), j).value;
      var toks := JobsToks(v, g.value.jobs);
      PyExtractCloses(GraphOf(v), j);
      SkipFilters(found, skip);
      assert found[0] in found;
      forall k | k in g.value.jobs ensures k.Job? && k in v.s.jobs {
        FoundOrdinary(v, j, k);
      }
      PyBelow(v, ranks, RefsIn(toks, v.pads));
      PyFields(v);
      FromLinesCollects(PyLabelsOf(v), ranks.labels, ranks.top, toks, [], ranks.top);
      PyCollected(v, toks, g.value.labels);
      ExternalsBranch(toks);
    }
  }

  lemma PyFields(v: View)
    ensures PyLabelsOf(v).pads == v.pads
  {}

  // ---------- pages ----------

  /** Gap between `eof` and data. */
  function PyGap(v: View, jobs: seq<JobId>, labels: seq<Name>): nat {
    if LabelsSize(v, labels) > 0 then Aligner(JobsSize(v, jobs)) else 0
  }

  /** A page's token lists, its length field and its bound, in terms of its jobs and labels. */
  ghost predicate PyPageOk(v: View, size: nat, p: PyPage, num: nat) {
    && p.num == num && p.jobs != [] && Belongs(v, p.jobs, p.labels, p.externals) && LabelsSorted(v, p.labels)
    && p.text == JobsToks(v, p.jobs) + [EOF] && p.data == LabelsToks(v, p.labels)
    && p.len == RoundUp4(HEADER + JobsSize(v, p.jobs) + EOF_SIZE + PyGap(v, p.jobs, p.labels) + LabelsSize(v, p.labels))
    && FitsPage(v, size, p.jobs, p.labels)
  }

  ghost predicate PyPagesOk(v: View, size: nat, base: nat, pages: seq<PyPage>) {
    forall i :: 0 <= i < |pages| ==> PyPageOk(v, size, pages[i], base + i)
  }

  function PyLenAt(pages: seq<PyPage>, i: nat): nat {
    if i < |pages| then pages[i].len else 0
  }

  /** Each page announces the length of the next one, the last announces 0. */
  ghost predicate PyChained(pages: seq<PyPage>) {
    forall i :: 0 <= i < |pages| ==> pages[i].nextLen == PyLenAt(pages, i + 1)
  }

  predicate Placed(pages: seq<PyPage>, i: nat, j: JobId) {
    i < |pages| && j in pages[i].jobs
  }

  ghost predicate PyOpenOk(v: View, size: nat, g: Group) {
    && Belongs(v, g.jobs, g.labels, g.externals)
    && g.tsize == JobsSize(v, g.jobs) && g.dsize == LabelsSize(v, g.labels)
    && (g.jobs == [] ==> g == EMPTY)
    && (g.jobs != [] ==> Footprint(g.tsize, g.dsize) <= size)
  }

  ghost predicate PyBookOk(v: View, size: nat, base: nat, b: PyBook) {
    PyPagesOk(v, size, base, b.pages) && PyChained(b.pages) && NoneFlagged(b.pages) && PyOpenOk(v, size, b.open)
  }

  /** Placed jobs are on pages, and ordinary jobs met so far are placed or open. */
  ghost predicate PyCovered(done: seq<JobId>, b: PyBook) {
    && (forall j :: j in b.placed ==> exists i: nat :: Placed(b.pages, i, j))
    && forall j :: j in done && j.Job? ==> j in b.placed || j in b.open.jobs
  }

  ghost predicate PyRun(v: View, size: nat, base: nat, done: seq<JobId>, b: PyBook) {
    PyBookOk(v, size, base, b) && PyCovered(done, b)
  }

  lemma SortedLabels(v: View, jobs: seq<JobId>, labels: seq<Name>, externals: seq<Name>)
    requires Belongs(v, jobs, labels, externals)
    ensures Belongs(v, jobs, Sorted(v, labels), externals) && LabelsSorted(v, Sorted(v, labels))
    ensures LabelsSize(v, Sorted(v, labels)) == LabelsSize(v, labels)
  {
    hide View.AlignOf, Sorted, LabelsSorted, LabelsSize, Reached, Branching, RefsIn, JobsToks, NoDup, Ordinary,
      LabelsOf;
    SortedIsSorted(v, labels);
    SortedSize(v, labels);
    AlignValues(v, labels);
    SortedFacts(v, labels);
    var s := Sorted(v, labels);
    forall l ensures l in s <==> l in labels {
      assert l in multiset(s) <==> l in multiset(labels);
    }
  }

  lemma PyMade(v: View, size: nat, num: nat, g: Group, last: bool)
    requires v.Valid() && PyOpenOk(v, size, g) && g.jobs != [] && EofJob in v.s.jobs
    requires v.s.jobs[EofJob].first < |v.toks|
    ensures PyPageOk(v, size, PyMakePage(v, num, g, last), num)
  {
    hide View.Valid, JobsToks, LabelsToks, JobsSize, LabelsSize, Sorted, LabelsSorted, Aligner, RoundUp4, Footprint,
      Belongs, FitsPage;
    EofToken(v);
    SortedLabels(v, g.jobs, g.labels, g.externals);
    FootprintFits(v, size, g.jobs, Sorted(v, g.labels));
    var gap := TextGap(g);
    assert g.tsize + g.dsize + gap + HEADER + EOF_SIZE == HEADER + g.tsize + EOF_SIZE + gap + g.dsize;
  }

  lemma PyPageFields(v: View, size: nat, p: PyPage, q: PyPage, num: nat)
    requires PyPageOk(v, size, p, num) && q == p.(nextLen := q.nextLen, last := q.last)
    ensures PyPageOk(v, size, q, num)
  {
    hide JobsSize, LabelsSize, JobsToks, LabelsToks, FitsPage, RoundUp4, Belongs, LabelsSorted, PyGap;
  }

  lemma PyPushKeeps(v: View, size: nat, base: nat, pages: seq<PyPage>, p: PyPage)
    requires PyPagesOk(v, size, base, pages) && PyChained(pages) && PyPageOk(v, size, p, base + |pages|)
    requires p.nextLen == 0
    ensures var q := PyPush(pages, p);
      && |q| == |pages| + 1 && q[|pages|] == p && PyPagesOk(v, size, base, q) && PyChained(q)
      && forall i :: 0 <= i < |pages| ==> q[i].jobs == pages[i].jobs && q[i].last == pages[i].last
  {
    hide PyPageOk;
    var q := PyPush(pages, p);
    forall i | 0 <= i < |q| ensures PyPageOk(v, size, q[i], base + i) {
      if i < |pages| {
        PyPageFields(v, size, pages[i], q[i], base + i);
      }
    }
  }

  lemma PyConcludeRun(v: View, size: nat, base: nat, done: seq<JobId>, b: PyBook, last: bool)
    requires v.Valid() && PyRun(v, size, base, done, b) && b.open.jobs != []
    ensures var r := PyConclude(v, base, b, last);
      && r.Ok? && r.value.open == EMPTY && |r.value.pages| == |b.pages| + 1
      && PyPagesOk(v, size, base, r.value.pages) && PyChained(r.value.pages)
      && (forall i :: 0 <= i < |r.value.pages| ==> (r.value.pages[i].last <==> i == |b.pages| && last))
      && PyCovered(done, r.value)
  {
    hide View.Valid, PyPagesOk, PyChained, PyMakePage, PyPush, PyOpenOk, PyCovered, Numbers, PyConclude, PyPageOk;
    EofToken(v);
    PyConcluded(v, base, b, last);
    var p := PyMakePage(v, base + |b.pages|, b.open, last);
    PyMade(v, size, base + |b.pages|, b.open, last);
    PyMadeFields(v, base + |b.pages|, b.open, last);
    PyPushKeeps(v, size, base, b.pages, p);
    PyCoveredAfter(done, b, PyConclude(v, base, b, last).value, base + |b.pages|);
  }

  lemma PyConcluded(v: View, base: nat, b: PyBook, last: bool)
    requires EofJob in v.s.jobs && v.s.jobs[EofJob].first < |v.toks|
    ensures var n := base + |b.pages|;
      PyConclude(v, base, b, last) ==
        Ok(PyBook(PyPush(b.pages, PyMakePage(v, n, b.open, last)), b.placed + Numbers(b.open.jobs, n), EMPTY))
  {
    hide PyMakePage, PyPush, Numbers;
  }

  /** The open jobs are placed on the new page, the others stay where they are. */
  lemma PyCoveredAfter(done: seq<JobId>, b: PyBook, r: PyBook, n: nat)
    requires PyCovered(done, b) && |r.pages| == |b.pages| + 1 && r.pages[|b.pages|].jobs == b.open.jobs
    requires r.placed == b.placed + Numbers(b.open.jobs, n)
    requires forall i :: 0 <= i < |b.pages| ==> r.pages[i].jobs == b.pages[i].jobs
    ensures PyCovered(done, r)
  {
    forall j | j in r.placed ensures exists i: nat :: Placed(r.pages, i, j) {
      if j in b.open.jobs {
        assert Placed(r.pages, |b.pages|, j);
      } else {
        var i: nat :| Placed(b.pages, i, j);
        assert Placed(r.pages, i, j);
      }
    }
  }

  lemma PyMadeFields(v: View, num: nat, g: Group, last: bool)
    requires EofJob in v.s.jobs && v.s.jobs[EofJob].first < |v.toks|
    ensures var p := PyMakePage(v, num, g, last); p.nextLen == 0 && p.last == last && p.jobs == g.jobs
  {}

  // ---------- one job ----------

  lemma PyNothing(v: View, size: nat)
    ensures PyOpenOk(v, size, EMPTY)
  {
    forall m ensures !Reached(LabelsOf(v), [], m) {
      ReachedCases(LabelsOf(v), [], m);
    }
  }

  lemma BelongsBoth(v: View, a: Group, b: Group)
    requires Belongs(v, a.jobs, a.labels, a.externals) && Belongs(v, b.jobs, b.labels, b.externals)
    requires forall k :: k in b.jobs ==> k !in a.jobs
    ensures Belongs(v, a.jobs + b.jobs, a.labels + b.labels, a.externals + b.externals)
  {
    hide View.AlignOf, Brings, Branching, JobsToks, NoDup;
    NoneTwice(a.jobs, b.jobs);
    JobsAppend(v, a.jobs, b.jobs);
    BringsBoth(v, JobsToks(v, a.jobs), JobsToks(v, b.jobs), a.labels, b.labels);
    BranchingBoth(JobsToks(v, a.jobs), JobsToks(v, b.jobs), a.externals, b.externals);
  }

  lemma NoneTwice<T>(a: seq<T>, b: seq<T>)
    requires NoDup(a) && NoDup(b) && forall x :: x in b ==> x !in a
    ensures NoDup(a + b)
  {
    forall i, k | 0 <= i < k < |a + b| ensures (a + b)[i] != (a + b)[k] {
      if k >= |a| {
        assert (a + b)[k] in b;
      }
    }
  }

  lemma BringsBoth(v: View, x: seq<Token>, y: seq<Token>, a: seq<Name>, b: seq<Name>)
    requires Brings(v, x, a) && Brings(v, y, b)
    ensures Brings(v, x + y, a + b)
  {
    hide Reached, RefsIn, LabelsOf;
    Closure.RefsAppend(x, y, v.pads);
    forall l ensures l in a + b <==> Reached(LabelsOf(v), RefsIn(x + y, v.pads), l) {
      ReachedSplit(LabelsOf(v), RefsIn(x, v.pads), RefsIn(y, v.pads), l);
    }
  }

  lemma BranchingBoth(x: seq<Token>, y: seq<Token>, a: seq<Name>, b: seq<Name>)
    requires Branching(x, a) && Branching(y, b)
    ensures Branching(x + y, a + b)
  {
    hide Packing.BranchesTo, Packing.Targets;
    Packing.TargetsAppend(x, y);
    forall l ensures l in a + b <==> Packing.BranchesTo(x + y, l) {
      Packing.TargetsAre(x, l);
      Packing.TargetsAre(y, l);
      Packing.TargetsAre(x + y, l);
    }
  }

  lemma PyJoinKeeps(v: View, size: nat, j: JobId, open: Group, g: Group)
    requires PyOpenOk(v, size, open) && Belongs(v, g.jobs, g.labels, g.externals) && g.jobs != []
    requires g.tsize == JobsSize(v, g.jobs) && g.dsize == LabelsSize(v, g.labels)
    requires forall k :: k in g.jobs ==> k !in open.jobs
    requires Footprint(open.tsize + g.tsize, open.dsize + g.dsize) <= size
    ensures PyOpenOk(v, size, Pages.Join(open, g))
  {
    hide JobsSize, LabelsSize, Footprint, Belongs;
    BelongsBoth(v, open, g);
    JobsAppend(v, open.jobs, g.jobs);
    LabelsAppend(v, open.labels, g.labels);
  }

  lemma PyPlaceJob(v: View, ranks: Ranks, size: nat, base: nat, done: seq<JobId>, b: PyBook, j: JobId)
    requires Ready(v, ranks) && PyRun(v, size, base, done, b) && j in v.s.jobs && j.Job?
    requires j !in b.placed && j !in b.open.jobs
    ensures var r := PyPlace(v, ranks, size, base, b, j); r.Ok? ==> PyRun(v, size, base, done + [j], r.value)
  {
    hide View.Valid, Ready, PyConclude, PyGroupOf, Footprint, Belongs, Mates, PyPagesOk, PyChained, NoneFlagged,
      JobsSize, LabelsSize;
    ReadyValid(v, ranks);
    if PyPlace(v, ranks, size, base, b, j).Ok? {
      PyGroupHolds(v, ranks, j, b.open.jobs);
      var g := PyGroupOf(v, ranks, j, b.open.jobs).value;
      if Footprint(b.open.tsize + g.tsize, b.open.dsize + g.dsize) > size {
        PyNothing(v, size);
        PyConcludeRun(v, size, base, done, b, false);
        PyUnflagged(PyConclude(v, base, b, false).value.pages);
        PyJoinKeeps(v, size, j, EMPTY, g);
      } else {
        PyJoinKeeps(v, size, j, b.open, g);
      }
    }
  }

  lemma PyUnflagged(pages: seq<PyPage>)
    requires forall i :: 0 <= i < |pages| ==> !pages[i].last
    ensures NoneFlagged(pages)
  {}

  lemma PyCoveredMore(done: seq<JobId>, b: PyBook, j: JobId)
    requires PyCovered(done, b) && (j.Job? ==> j in b.placed || j in b.open.jobs)
    ensures PyCovered(done + [j], b)
  {}

  /** Placing one job keeps pages well formed and leaves no ordinary job behind. */
  lemma PyPlaceRun(v: View, ranks: Ranks, size: nat, base: nat, done: seq<JobId>, b: PyBook, j: JobId)
    requires Ready(v, ranks) && PyRun(v, size, base, done, b) && j in v.s.jobs
    ensures var r := PyPlace(v, ranks, size, base, b, j); r.Ok? ==> PyRun(v, size, base, done + [j], r.value)
  {
    hide View.Valid, Ready, PyConclude, PyGroupOf, PyCovered, PyPagesOk, PyChained, NoneFlagged, PyOpenOk;
    ReadyValid(v, ranks);
    if j.Job? && j !in b.placed && j !in b.open.jobs {
      PyPlaceJob(v, ranks, size, base, done, b, j);
    } else {
      PyCoveredMore(done, b, j);
      if j.EopJob? && b.open.jobs != [] {
        PyNothing(v, size);
        PyConcludeRun(v, size, base, done, b, false);
        PyUnflagged(PyConclude(v, base, b, false).value.pages);
        PyCoveredMore(done, PyConclude(v, base, b, false).value, j);
      }
    }
  }

  lemma {:induction false} PyPlaceAllRun(v: View, ranks: Ranks, size: nat, base: nat, done: seq<JobId>, b: PyBook,
                                         ids: seq<JobId>)
    requires Ready(v, ranks) && PyRun(v, size, base, done, b) && forall j :: j in ids ==> j in v.s.jobs
    ensures var r := PyPlaceAll(v, ranks, size, base, b, ids); r.Ok? ==> PyRun(v, size, base, done + ids, r.value)
    decreases |ids|
  {
    hide Ready, PyRun, PyPlace;
    if ids == [] {
      assert done + [] == done;
    } else {
      var r := PyPlace(v, ranks, size, base, b, ids[0]);
      PyPlaceRun(v, ranks, size, base, done, b, ids[0]);
      if r.Ok? {
        PyPlaceAllRun(v, ranks, size, base, done + [ids[0]], r.value, ids[1..]);
        assert done + [ids[0]] + ids[1..] == done + ids;
      }
    }
  }

  // ---------- the whole call ----------

  /** What the second `pagify` guarantees of its pages. */
  ghost predicate PyPaged(v: View, size: nat, base: nat, pages: seq<PyPage>) {
    && PyPagesOk(v, size, base, pages) && PyChained(pages)
    && (forall i :: 0 <= i < |pages| ==> (pages[i].last <==> i == |pages| - 1))
    && forall j :: j in v.s.jobids && j.Job? ==> exists i: nat :: Placed(pages, i, j)
  }

  lemma PyFinished(v: View, size: nat, base: nat, b: PyBook)
    requires v.Valid() && PyRun(v, size, base, v.s.jobids, b)
    ensures var r := PyFinish(v, base, b); r.Ok? && PyPaged(v, size, base, r.value)
  {
    hide View.Valid, PyConclude, PyPagesOk, PyChained, PyOpenOk;
    if b.open.jobs != [] {
      PyConcludeRun(v, size, base, v.s.jobids, b, true);
    } else {
      var pages := PyFinish(v, base, b).value;
      PyFlagged(v, size, base, b.pages, pages);
      forall j | j in v.s.jobids && j.Job? ensures exists i: nat :: Placed(pages, i, j) {
        var i: nat :| Placed(b.pages, i, j);
        assert Placed(pages, i, j);
      }
    }
  }

  lemma PyFlagged(v: View, size: nat, base: nat, a: seq<PyPage>, b: seq<PyPage>)
    requires PyPagesOk(v, size, base, a) && PyChained(a) && |b| == |a|
    requires forall i :: 0 <= i < |a| ==> b[i] == a[i].(last := b[i].last)
    ensures PyPagesOk(v, size, base, b) && PyChained(b)
  {
    hide PyPageOk;
    forall i | 0 <= i < |b| ensures PyPageOk(v, size, b[i], base + i) {
      PyPageFields(v, size, a[i], b[i], base + i);
    }
    forall i | 0 <= i < |b| ensures b[i].nextLen == PyLenAt(b, i + 1) {
      assert a[i].nextLen == PyLenAt(a, i + 1);
    }
  }

  /** On every accepted program, launches included: the pages are numbered in order; each holds the tokens of its jobs
      and an `eof`, exactly the labels these refer to, 16-byte ones first, and the page labels they branch to; it
      fits, records its length, announces its successor's, and only the final one is flagged; and every ordinary
      job is on one. */
  lemma PyPagifyLaws(v: View, ranks: Ranks, size: nat, base: nat)
    requires Ready(v, ranks)
    ensures var r := PyPagify(v, ranks, size, base); r.Ok? ==> PyPaged(v, size, base, r.value)
  {
    hide View.Valid, Ready, PyPlaceAll, PyFinish, PyPaged, PyRun;
    ReadyValid(v, ranks);
    IdsKnown(v);
    var start, ids := PyBook([], map[], EMPTY), v.s.jobids;
    PyStart(v, size, base);
    PyPlaceAllRun(v, ranks, size, base, [], start, ids);
    assert [] + ids == ids;
    var b := PyPlaceAll(v, ranks, size, base, start, ids);
    if b.Ok? {
      PyFinished(v, size, base, b.value);
    }
  }

  lemma PyStart(v: View, size: nat, base: nat)
    ensures PyRun(v, size, base, [], PyBook([], map[], EMPTY))
  {
    PyNothing(v, size);
    hide PyOpenOk;
  }
}
