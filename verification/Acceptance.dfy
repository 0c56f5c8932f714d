/** Which launch-free programs the pager accepts. */
module Acceptance {
  import opened Base
  import opened Program
  import opened Structure
  import opened View
  import opened Jobs
  import opened Labels
  import opened Pages
  import opened PageLaws
  import opened Partition
  import opened SharedLabels
  import Closure

  /** The job's own group can be formed and fits an empty page. */
  ghost predicate Fits(v: View, ranks: Ranks, size: nat, j: JobId)
    requires Ready(v, ranks) && j in v.s.jobs
  {
    var g := GroupOf(v, ranks, j);
    g.Ok? && Footprint(g.value.tsize, g.value.dsize) <= size
  }

  /** Every ordinary job fits. */
  ghost predicate AllFit(v: View, ranks: Ranks, size: nat)
    requires Ready(v, ranks)
  {
    forall j :: j in v.s.jobs && j.Job? ==> Fits(v, ranks, size, j)
  }

  /** That is, its bytes with header, `eof` and the gap in front of the data are at most a page. */
  lemma FitsMeans(v: View, ranks: Ranks, size: nat, j: JobId)
    requires Ready(v, ranks) && j in v.s.jobs && j.Job?
    ensures Fits(v, ranks, size, j) <==>
      var g := GroupOf(v, ranks, j); g.Ok? && FitsPage(v, size, g.value.jobs, g.value.labels)
  {
    hide Ready, GroupOf, Footprint, FitsPage, GroupJobs, GroupLabels, JobsSize, LabelsSize, JobsToks, ExternalsFrom;
    GroupHolds(v, ranks, j);
    if GroupOf(v, ranks, j).Ok? {
      FootprintFits(v, size, GroupOf(v, ranks, j).value.jobs, GroupOf(v, ranks, j).value.labels);
    }
  }

  // ---------- sums do not depend on the order ----------

  lemma SplitAt<T>(s: seq<T>, x: T) returns (i: nat)
    requires x in s
    ensures i < |s| && s[i] == x && s == s[..i] + ([x] + s[i + 1..])
    ensures multiset(s[..i] + s[i + 1..]) == multiset(s) - multiset{x}
  {
    i :| 0 <= i < |s| && s[i] == x;
    assert s == s[..i] + ([x] + s[i + 1..]);
  }

  lemma {:induction false} SameJobsSize(v: View, a: seq<JobId>, b: seq<JobId>)
    requires multiset(a) == multiset(b)
    ensures JobsSize(v, a) == JobsSize(v, b)
    decreases |a|
  {
    hide View.JobSize, View.JobToks;
    if a == [] {
      assert |multiset(b)| == 0;
    } else {
      var x, rest := a[0], a[1..];
      assert a == [x] + rest;
      assert multiset(rest) == multiset(a) - multiset{x};
      assert x in multiset(b);
      var i := SplitAt(b, x);
      SameJobsSize(v, rest, b[..i] + b[i + 1..]);
      JobsAppend(v, b[..i], [x] + b[i + 1..]);
      JobsAppend(v, [x], b[i + 1..]);
      JobsAppend(v, [x], rest);
      JobsAppend(v, b[..i], b[i + 1..]);
    }
  }

  lemma {:induction false} SameLabelsSize(v: View, a: seq<Name>, b: seq<Name>)
    requires multiset(a) == multiset(b)
    ensures LabelsSize(v, a) == LabelsSize(v, b)
    decreases |a|
  {
    hide View.LabelSize, View.LabelToks;
    if a == [] {
      assert |multiset(b)| == 0;
    } else {
      var x, rest := a[0], a[1..];
      assert a == [x] + rest;
      assert multiset(rest) == multiset(a) - multiset{x};
      assert x in multiset(b);
      var i := SplitAt(b, x);
      SameLabelsSize(v, rest, b[..i] + b[i + 1..]);
      LabelsAppend(v, b[..i], [x] + b[i + 1..]);
      LabelsAppend(v, [x], b[i + 1..]);
      LabelsAppend(v, [x], rest);
      LabelsAppend(v, b[..i], b[i + 1..]);
    }
  }

  lemma SameElements<T(!new)>(a: seq<T>, b: seq<T>)
    requires NoDup(a) && NoDup(b) && forall x :: x in a <==> x in b
    ensures multiset(a) == multiset(b)
  {
    forall x ensures multiset(a)[x] == multiset(b)[x] {
      DistinctCount(a, x);
      DistinctCount(b, x);
    }
  }

  // ---------- mates have the same group ----------

  /** The three ways a group can fail, for a launch-free program. */
  ghost predicate Formable(v: View, j: JobId) {
    && (forall k :: !Torn(GraphOf(v), j, k))
    && (forall k, m :: Mates(GraphOf(v), j, k) && Reached(LabelsOf(v), RefsIn(v.JobToks(k), v.pads), m) ==>
          m in v.s.labels)
    && (forall l :: ClassUses(v, j, l) ==> v.AlignOf(l).Some?)
  }

  lemma {:induction false} JobsReached(v: View, jobs: seq<JobId>, m: Name)
    ensures Reached(LabelsOf(v), RefsIn(JobsToks(v, jobs), v.pads), m)
      <==> exists j :: j in jobs && Reached(LabelsOf(v), RefsIn(v.JobToks(j), v.pads), m)
  {
    hide Reached, RefsIn, LabelsOf, View.JobToks;
    if jobs == [] {
      ReachedCases(LabelsOf(v), [], m);
      NoRefs(v.pads);
    } else {
      var first, rest := v.JobToks(jobs[0]), JobsToks(v, jobs[1..]);
      Closure.RefsAppend(first, rest, v.pads);
      ReachedSplit(LabelsOf(v), RefsIn(first, v.pads), RefsIn(rest, v.pads), m);
      JobsReached(v, jobs[1..], m);
      assert jobs == [jobs[0]] + jobs[1..];
      if j :| j in jobs && Reached(LabelsOf(v), RefsIn(v.JobToks(j), v.pads), m) && j != jobs[0] {
        assert j in jobs[1..];
      }
    }
  }

  lemma LaunchFreeExtract(v: View, ranks: Ranks, j: JobId)
    requires Ready(v, ranks) && NoLaunch(v) && j in v.s.jobs
    ensures GraphOf(v).Valid() && Acyclic(GraphOf(v), ranks.jobs)
    ensures var r := Extract(GraphOf(v), ranks.jobs, j);
      && (r.Ok? <==> forall k :: !Torn(GraphOf(v), j, k))
      && (r.Ok? ==> NoDup(r.value) && forall k :: k in r.value <==> Mates(GraphOf(v), j, k))
  {
    hide Ready, View.Valid, Extract, Acyclic, Ranked, Jobs.Graph.Valid, Mates, Reaches, Torn, Needs;
    ReadyParts(v, ranks);
    GraphFields(v);
    ExtractCloses(GraphOf(v), ranks.jobs, j);
    ReachesSelf(GraphOf(v), j);
    forall m | Reaches(GraphOf(v), j, m) ensures m == j {
      ReachesFirst(GraphOf(v), j, m);
    }
    forall k ensures Needs(GraphOf(v), j, k) <==> Mates(GraphOf(v), j, k) {
      NoLaunchGroups(GraphOf(v), j, k);
    }
  }

  /** A launch-free group is formed exactly when the class lies in one region, all labels it reaches are
      defined, and all labels it uses have a known alignment. */
  lemma GroupFormable(v: View, ranks: Ranks, j: JobId)
    requires Ready(v, ranks) && NoLaunch(v) && j in v.s.jobs
    ensures GroupOf(v, ranks, j).Ok? <==> Formable(v, j)
  {
    hide Ready, View.Valid, Extract, FromLines, Acyclic, Ranked, Jobs.Graph.Valid, Mates, Torn, Reached, RefsIn,
      JobsToks, View.AlignOf, View.JobToks, Below, NoLaunch, Wanted, LabelsSize, JobsSize, ExternalsFrom, LabelsOf;
    ReadyParts(v, ranks);
    LaunchFreeExtract(v, ranks, j);
    var jobs := Extract(GraphOf(v), ranks.jobs, j);
    if jobs.Ok? {
      ClassLabels(v, ranks, j, jobs.value);
    }
  }

  lemma ClassLabels(v: View, ranks: Ranks, j: JobId, jobs: seq<JobId>)
    requires Ready(v, ranks) && forall k :: k in jobs <==> Mates(GraphOf(v), j, k)
    ensures Ranked(LabelsOf(v), ranks.labels, ranks.top)
      && Below(LabelsOf(v), ranks.labels, RefsIn(JobsToks(v, jobs), v.pads), ranks.top)
    ensures LabelsOf(v).pads == v.pads
    ensures var r := FromLines(LabelsOf(v), ranks.labels, ranks.top, JobsToks(v, jobs), [], ranks.top);
      && (r.Ok? <==>
          forall k, m :: Mates(GraphOf(v), j, k) && Reached(LabelsOf(v), RefsIn(v.JobToks(k), v.pads), m) ==>
            m in v.s.labels)
      && (r.Ok? ==> NoDup(r.value) && forall l :: l in r.value <==> ClassUses(v, j, l))
  {
    hide Ready, View.Valid, FromLines, Acyclic, Ranked, Jobs.Graph.Valid, Mates, Reached, RefsIn, JobsToks,
      View.JobToks, Below, Wanted;
    ReadyParts(v, ranks);
    GraphFields(v);
    var toks := JobsToks(v, jobs);
    AllBelow(v, ranks, RefsIn(toks, v.pads));
    FromLinesCollects(LabelsOf(v), ranks.labels, ranks.top, toks, [], ranks.top);
    forall m { JobsReached(v, jobs, m); }
    forall l { JobsWanted(v, jobs, l); }
    hide LabelsOf;
  }

  /** Being formable only depends on the barrier class. */
  lemma FormableMate(v: View, j: JobId, k: JobId)
    requires Formable(v, j) && Mates(GraphOf(v), j, k) && j in v.s.jobs && k in v.s.jobs
    ensures Formable(v, k)
  {
    hide Reached, RefsIn, View.AlignOf, View.JobToks, Wanted, LabelsOf, Mates, Uses;
    var g := GraphOf(v);
    forall x | Mates(g, k, x) ensures Mates(g, j, x) {
      MatesTransitive(g, j, k, x);
    }
    assert !Torn(g, j, k);
    forall x ensures !Torn(g, k, x) {
      assert !Torn(g, j, x);
    }
    forall l | ClassUses(v, k, l) ensures ClassUses(v, j, l) {
      var x :| Mates(g, k, x) && Uses(v, x, l);
      assert Mates(g, j, x);
    }
  }

  /** Barrier mates have groups of the same size, or none. */
  lemma SameGroupSize(v: View, ranks: Ranks, j: JobId, k: JobId)
    requires Ready(v, ranks) && NoLaunch(v) && j in v.s.jobs && k in v.s.jobs && j.Job? && k.Job?
      && Mates(GraphOf(v), j, k)
    requires GroupOf(v, ranks, j).Ok?
    ensures var a, b := GroupOf(v, ranks, j), GroupOf(v, ranks, k);
      b.Ok? && a.value.tsize == b.value.tsize && a.value.dsize == b.value.dsize
  {
    hide Ready, View.Valid, GroupOf, Formable, Mates, NoLaunch, ClassUses, JobsSize, LabelsSize, JobsToks, GroupJobs,
      GroupLabels, ExternalsFrom;
    GroupFormable(v, ranks, j);
    FormableMate(v, j, k);
    GroupFormable(v, ranks, k);
    GroupHolds(v, ranks, j);
    GroupHolds(v, ranks, k);
    var a, b := GroupOf(v, ranks, j).value, GroupOf(v, ranks, k).value;
    GroupParts(v, j, a);
    GroupParts(v, k, b);
    MatesSymmetric(GraphOf(v), j, k);
    forall x ensures Mates(GraphOf(v), j, x) <==> Mates(GraphOf(v), k, x) {
      ClassTransitive(v, j, k, x);
    }
    forall l ensures ClassUses(v, j, l) <==> ClassUses(v, k, l) {
      ClassUsesMate(v, j, k, l);
    }
    SameElements(a.jobs, b.jobs);
    SameElements(a.labels, b.labels);
    SameJobsSize(v, a.jobs, b.jobs);
    SameLabelsSize(v, a.labels, b.labels);
  }

  lemma ClassTransitive(v: View, j: JobId, k: JobId, x: JobId)
    requires Mates(GraphOf(v), j, k) && Mates(GraphOf(v), k, j)
    ensures Mates(GraphOf(v), j, x) <==> Mates(GraphOf(v), k, x)
  {
    hide Mates;
    if Mates(GraphOf(v), j, x) {
      MatesTransitive(GraphOf(v), k, j, x);
    }
    if Mates(GraphOf(v), k, x) {
      MatesTransitive(GraphOf(v), j, k, x);
    }
  }

  lemma ClassUsesMate(v: View, j: JobId, k: JobId, l: Name)
    requires forall x :: Mates(GraphOf(v), j, x) <==> Mates(GraphOf(v), k, x)
    ensures ClassUses(v, j, l) <==> ClassUses(v, k, l)
  {
    hide Mates, Uses;
  }

  lemma GroupParts(v: View, j: JobId, g: Group)
    requires GroupFacts(v, j, g) && NoLaunch(v) && j in v.s.jobs
    ensures NoDup(g.jobs) && NoDup(g.labels)
    ensures forall k :: k in g.jobs <==> Mates(GraphOf(v), j, k)
    ensures forall l :: l in g.labels <==> ClassUses(v, j, l)
    ensures g.tsize == JobsSize(v, g.jobs) && g.dsize == LabelsSize(v, g.labels)
  {
    forall l ensures l in g.labels <==> ClassUses(v, j, l) {
      GroupUses(v, j, g, l);
    }
    GroupUses(v, j, g, 0);
    hide Mates, ClassUses, Wanted, Reached, Needs, Reaches, Torn, JobsToks, LabelsOf, JobsSize, LabelsSize,
      ExternalsFrom;
  }

  /** A job fits exactly when its barrier mates do. */
  lemma MatesFit(v: View, ranks: Ranks, size: nat, j: JobId, k: JobId)
    requires Ready(v, ranks) && NoLaunch(v) && j in v.s.jobs && k in v.s.jobs && j.Job? && k.Job?
      && Mates(GraphOf(v), j, k)
    requires Fits(v, ranks, size, j)
    ensures Fits(v, ranks, size, k)
  {
    hide Ready, GroupOf, Mates, NoLaunch, Footprint;
    SameGroupSize(v, ranks, j, k);
  }

  // ---------- the run ----------

  ghost predicate JobsFit(v: View, ranks: Ranks, size: nat, jobs: set<JobId>)
    requires Ready(v, ranks)
  {
    forall j :: j in jobs ==> j in v.s.jobs && Fits(v, ranks, size, j)
  }

  /** The jobs a book holds. */
  function Held(b: Book): set<JobId> {
    b.placed.Keys + (set j | j in b.open.jobs)
  }

  lemma ConcludeHolds(v: View, col: nat, base: nat, b: Book)
    requires v.Valid() && b.open.jobs != [EofJob]
    ensures var r := Conclude(v, col, base, b, false); r.Ok? && Held(r.value) == Held(b)
  {
    hide View.Valid, MakePage, Push;
    EofToken(v);
  }

  /** One job: it is refused exactly when its group does not fit; otherwise the group joins the book. */
  lemma PlaceFits(v: View, ranks: Ranks, size: nat, col: nat, base: nat, b: Book, j: JobId)
    requires Ready(v, ranks) && j in v.s.jobs && b.open.jobs != [EofJob]
    ensures var r := Place(v, ranks, size, col, base, b, j);
      if j.Job? && j !in Held(b) then
        && (r.Ok? <==> Fits(v, ranks, size, j))
        && (r.Ok? ==> Held(r.value) == Held(b) + (set k | k in GroupOf(v, ranks, j).value.jobs))
      else r.Ok? && Held(r.value) == Held(b)
  {
    hide View.Valid, Ready, GroupOf, Conclude, Footprint;
    ReadyValid(v, ranks);
    ConcludeHolds(v, col, base, b);
  }

  lemma OpenNotEof(v: View, size: nat, col: nat, before: seq<Page>, b: Book)
    requires BookOk(v, size, col, before, b)
    ensures b.open.jobs != [EofJob]
  {
    hide PagesOk, Chained, NoneLast, Aligned, JobsSize, LabelsSize, Footprint;
    assert b.open.jobs != [] ==> b.open.jobs[0] in b.open.jobs;
  }

  /** All jobs of a fitting group fit. */
  lemma GroupFits(v: View, ranks: Ranks, size: nat, j: JobId)
    requires Ready(v, ranks) && NoLaunch(v) && j in v.s.jobs && j.Job? && Fits(v, ranks, size, j)
    ensures forall k :: k in GroupOf(v, ranks, j).value.jobs ==> k in v.s.jobs && Fits(v, ranks, size, k)
  {
    hide View.Valid, Ready, GroupOf, Footprint, NoLaunch, Mates, GroupLabels, JobsToks, JobsSize, LabelsSize,
      ExternalsFrom;
    GroupHolds(v, ranks, j);
    var g := GroupOf(v, ranks, j).value;
    GroupParts(v, j, g);
    forall k | k in g.jobs ensures k in v.s.jobs && Fits(v, ranks, size, k) {
      GroupOrdinary(v, j, g, k);
      MatesFit(v, ranks, size, j, k);
    }
  }

  lemma GroupOrdinary(v: View, j: JobId, g: Group, k: JobId)
    requires GroupFacts(v, j, g) && k in g.jobs
    ensures k.Job? && k in v.s.jobs
  {
    hide Needs, Reaches, Torn, GroupLabels, JobsToks, JobsSize, LabelsSize, ExternalsFrom;
  }

  lemma StepFits(v: View, ranks: Ranks, size: nat, col: nat, base: nat, b: Book, j: JobId)
    requires Ready(v, ranks) && NoLaunch(v) && j in v.s.jobs && b.open.jobs != [EofJob]
      && JobsFit(v, ranks, size, Held(b))
    ensures var r := Place(v, ranks, size, col, base, b, j);
      && (r.Ok? ==> JobsFit(v, ranks, size, Held(r.value)))
      && (j.Job? && Fits(v, ranks, size, j) ==> r.Ok?) && (!j.Job? ==> r.Ok?)
  {
    hide View.Valid, Ready, NoLaunch, GroupOf, Place, Fits;
    PlaceFits(v, ranks, size, col, base, b, j);
    if j.Job? && j !in Held(b) && Fits(v, ranks, size, j) {
      GroupFits(v, ranks, size, j);
    }
  }

  lemma {:induction false} RunFits(v: View, ranks: Ranks, size: nat, col: nat, before: seq<Page>, k: nat, b: Book)
    requires Ready(v, ranks) && NoLaunch(v) && k <= |v.s.jobids| && LoopOk(v, size, col, before, k, b)
    requires (forall j :: j in v.s.jobids[k..] ==> j in v.s.jobs) && JobsFit(v, ranks, size, Held(b))
    ensures var r := PlaceAll(v, ranks, size, col, |before|, b, v.s.jobids[k..]);
      && (r.Ok? ==> JobsFit(v, ranks, size, Held(r.value)) && LoopOk(v, size, col, before, |v.s.jobids|, r.value))
      && (AllFit(v, ranks, size) ==> r.Ok?)
    decreases |v.s.jobids| - k
  {
    hide View.Valid, Ready, NoLaunch, LoopOk, Place, Fits, JobsFit, Held;
    var ids := v.s.jobids;
    if k < |ids| {
      LoopKeeps(v, ranks, size, col, before, k, b);
      LoopBook(v, size, col, before, k, b);
      StepFits(v, ranks, size, col, |before|, b, ids[k]);
      assert ids[k..][0] == ids[k] && ids[k..][1..] == ids[k + 1..];
      var r := Place(v, ranks, size, col, |before|, b, ids[k]);
      if r.Ok? {
        RunFits(v, ranks, size, col, before, k + 1, r.value);
      }
    } else {
      assert ids[k..] == [];
    }
  }

  lemma LoopBook(v: View, size: nat, col: nat, before: seq<Page>, k: nat, b: Book)
    requires k <= |v.s.jobids| && LoopOk(v, size, col, before, k, b)
    ensures BookOk(v, size, col, before, b) && Covered(v.s.jobids[..k], b) && b.open.jobs != [EofJob]
  {
    hide BookOk, PlacedOk, Covered, PartOk, BookTallied;
    OpenNotEof(v, size, col, before, b);
  }

  lemma FinishAccepts(v: View, size: nat, col: nat, before: seq<Page>, b: Book)
    requires v.Valid() && BookOk(v, size, col, before, b)
    ensures Finish(v, col, |before|, b).Ok?
  {
    hide View.Valid, BookOk, Conclude;
    if b.open.jobs != [] {
      ConcludeKeeps(v, size, col, before, b, true);
    }
  }

  lemma CoveredHeld(v: View, b: Book)
    requires v.Valid() && Covered(v.s.jobids, b)
    ensures forall j :: j in v.s.jobs && j.Job? ==> j in Held(b)
  {
    hide View.Valid;
    KnownIds(v);
  }

  /** The pager accepts a launch-free program if and only if the group of every ordinary job can be formed
      and fits a page of its own: packing never fails. */
  lemma PagifyAccepts(v: View, ranks: Ranks, size: nat, col: nat, before: seq<Page>)
    requires Ready(v, ranks) && NoLaunch(v)
    ensures Pagify(v, ranks, size, col, before).Ok? <==> AllFit(v, ranks, size)
  {
    hide View.Valid, Ready, NoLaunch, LoopOk, PlaceAll, Finish, Fits, BookOk, Covered, Held;
    ReadyValid(v, ranks);
    IdsKnown(v);
    var start, ids := Book(before, map[], EMPTY), v.s.jobids;
    LoopStarts(v, size, col, before);
    NothingHeld(v, ranks, size, before);
    assert ids[0..] == ids && ids[..|ids|] == ids;
    RunFits(v, ranks, size, col, before, 0, start);
    var b := PlaceAll(v, ranks, size, col, |before|, start, ids);
    if b.Ok? {
      LoopBook(v, size, col, before, |ids|, b.value);
      CoveredHeld(v, b.value);
      FinishAccepts(v, size, col, before, b.value);
    }
  }

  lemma NothingHeld(v: View, ranks: Ranks, size: nat, before: seq<Page>)
    requires Ready(v, ranks)
    ensures JobsFit(v, ranks, size, Held(Book(before, map[], EMPTY)))
  {
    hide Ready, Fits;
    assert Held(Book(before, map[], EMPTY)) == {};
  }
}
