/** Which pages hold a label twice: pages of launch-free programs count every label once for each of their
    barrier classes that uses it. */
module SharedLabels {
  import opened Base
  import opened Program
  import opened Structure
  import opened View
  import opened Jobs
  import opened Labels
  import opened Pages
  import opened PageLaws
  import opened Partition
  import opened Closure
  import opened PageImage

  // ---------- who uses a label ----------

  /** Job `j`'s own instructions refer to label `l`, directly, through data, or as part of a table. */
  ghost predicate Uses(v: View, j: JobId, l: Name) {
    Wanted(LabelsOf(v), RefsIn(v.JobToks(j), v.pads), l)
  }

  /** Some barrier mate of `j` uses `l`. */
  ghost predicate ClassUses(v: View, j: JobId, l: Name) {
    exists k :: Mates(GraphOf(v), j, k) && Uses(v, k, l)
  }

  /** No two of the jobs use a common label, unless they are barrier mates. */
  ghost predicate Unshared(v: View, jobs: seq<JobId>) {
    forall j, k, l :: j in jobs && k in jobs && Uses(v, j, l) && Uses(v, k, l) ==> Mates(GraphOf(v), j, k)
  }

  /** No two jobs of one `.eop` region use a common label, unless they are barrier mates. */
  ghost predicate UnsharedRegions(v: View) {
    forall j, k, l ::
      (j in v.s.jobs && k in v.s.jobs && v.s.jobs[j].eop == v.s.jobs[k].eop && Uses(v, j, l) && Uses(v, k, l)) ==>
        Mates(GraphOf(v), j, k)
  }

  lemma WantedSplit(g: LabelGraph, a: seq<Name>, b: seq<Name>, l: Name)
    ensures Wanted(g, a + b, l) <==> Wanted(g, a, l) || Wanted(g, b, l)
  {
    forall m ensures Reached(g, a + b, m) <==> Reached(g, a, m) || Reached(g, b, m) {
      ReachedSplit(g, a, b, m);
    }
    hide Reached, Pulled;
  }

  lemma NothingWanted(g: LabelGraph, l: Name)
    ensures !Wanted(g, [], l)
  {
    forall m ensures !Reached(g, [], m) {
      ReachedCases(g, [], m);
    }
    hide Reached;
  }

  /** A list of jobs wants what one of them uses. */
  lemma {:induction false} JobsWanted(v: View, jobs: seq<JobId>, l: Name)
    ensures Wanted(LabelsOf(v), RefsIn(JobsToks(v, jobs), v.pads), l) <==> exists j :: j in jobs && Uses(v, j, l)
  {
    hide Wanted, RefsIn, LabelsOf, View.JobToks;
    if jobs == [] {
      NothingWanted(LabelsOf(v), l);
      NoRefs(v.pads);
    } else {
      var first, rest := v.JobToks(jobs[0]), JobsToks(v, jobs[1..]);
      RefsAppend(first, rest, v.pads);
      WantedSplit(LabelsOf(v), RefsIn(first, v.pads), RefsIn(rest, v.pads), l);
      JobsWanted(v, jobs[1..], l);
      assert jobs == [jobs[0]] + jobs[1..];
      assert Uses(v, jobs[0], l) <==> Wanted(LabelsOf(v), RefsIn(first, v.pads), l);
      if j :| j in jobs && Uses(v, j, l) && j != jobs[0] {
        assert j in jobs[1..];
      }
    }
  }

  lemma NoRefs(pads: set<Name>)
    ensures RefsIn([], pads) == []
  {}

  /** A launch-free group holds exactly the labels its seed's class uses, once each. */
  lemma GroupUses(v: View, j: JobId, g: Group, l: Name)
    requires GroupFacts(v, j, g) && NoLaunch(v) && j in v.s.jobs
    ensures l in g.labels <==> ClassUses(v, j, l)
    ensures forall k :: k in g.jobs <==> Mates(GraphOf(v), j, k)
  {
    hide Wanted, Uses, Mates, Reached, Needs, Reaches, Torn, JobsToks, RefsIn, LabelsOf, Aligned, Ordinary, JobsSize,
      LabelsSize, ExternalsFrom;
    JobsWanted(v, g.jobs, l);
    forall k ensures k in g.jobs <==> Mates(GraphOf(v), j, k) {
      NoLaunchGroups(GraphOf(v), j, k);
    }
  }

  // ---------- counting labels ----------

  /** No earlier job of the list is a mate of job `i`. */
  ghost predicate Head(v: View, jobs: seq<JobId>, i: nat)
    requires i < |jobs|
  {
    forall k :: 0 <= k < i ==> !Mates(GraphOf(v), jobs[k], jobs[i])
  }

  ghost predicate Leads(v: View, jobs: seq<JobId>, j: JobId) {
    exists i :: 0 <= i < |jobs| && jobs[i] == j && Head(v, jobs, i)
  }

  /** The first job of each class of the list that uses `l`. */
  ghost function Heads(v: View, jobs: seq<JobId>, l: Name): set<JobId> {
    set j | j in jobs && Leads(v, jobs, j) && ClassUses(v, j, l)
  }

  /** Every label occurs once for each class that uses it. */
  ghost predicate Tallied(v: View, jobs: seq<JobId>, labels: seq<Name>) {
    forall l :: multiset(labels)[l] == |Heads(v, jobs, l)|
  }

  lemma HeadsAppend(v: View, a: seq<JobId>, b: seq<JobId>, l: Name)
    requires b != [] && forall y :: y in b ==> Mates(GraphOf(v), b[0], y)
    requires forall x, y :: x in a && y in b ==> !Mates(GraphOf(v), x, y)
    ensures Heads(v, a + b, l) == Heads(v, a, l) + (if ClassUses(v, b[0], l) then {b[0]} else {})
    ensures b[0] !in a
  {
    hide Mates, ClassUses;
    var c := a + b;
    forall i | 0 <= i < |c|
      ensures Head(v, c, i) <==> if i < |a| then Head(v, a, i) else i == |a|
    {
      HeadAppend(v, a, b, i);
    }
    assert b[0] in b;
    assert b[0] !in a;
    forall j | j in c ensures Leads(v, c, j) <==> Leads(v, a, j) || j == b[0] {
      if i :| 0 <= i < |a| && a[i] == j && Head(v, a, i) {
        assert c[i] == j && Head(v, c, i);
      }
      if j == b[0] {
        assert c[|a|] == j && Head(v, c, |a|);
      }
    }
    assert forall j :: Leads(v, a, j) ==> j in a;
  }

  lemma HeadAppend(v: View, a: seq<JobId>, b: seq<JobId>, i: nat)
    requires b != [] && forall y :: y in b ==> Mates(GraphOf(v), b[0], y)
    requires forall x, y :: x in a && y in b ==> !Mates(GraphOf(v), x, y)
    requires i < |a + b|
    ensures Head(v, a + b, i) <==> if i < |a| then Head(v, a, i) else i == |a|
  {
    hide Mates;
    var c := a + b;
    if i < |a| {
      assert forall k :: 0 <= k <= i ==> c[k] == a[k];
    } else if i > |a| {
      assert c[|a|] == b[0] && c[i] == b[i - |a|] && b[i - |a|] in b;
    } else {
      assert forall k :: 0 <= k < i ==> c[k] == a[k] && a[k] in a;
      assert c[i] == b[0] && b[0] in b;
    }
  }

  /** Adding a group of a new class keeps the tally. */
  lemma TalliedJoin(v: View, j: JobId, open: Group, g: Group)
    requires Tallied(v, open.jobs, open.labels) && GroupFacts(v, j, g) && NoLaunch(v) && j in v.s.jobs
    requires forall x :: x in open.jobs ==> !Mates(GraphOf(v), j, x)
    ensures var both := Pages.Join(open, g); Tallied(v, both.jobs, both.labels)
  {
    hide Mates, ClassUses, Heads, Wanted, Reached, Needs, Reaches, Torn, JobsToks, RefsIn, LabelsOf, Aligned,
      Ordinary, JobsSize, LabelsSize, ExternalsFrom;
    var both := Pages.Join(open, g);
    forall l ensures multiset(both.labels)[l] == |Heads(v, both.jobs, l)| {
      GroupUses(v, j, g, l);
      forall x, y | x in open.jobs && y in g.jobs ensures !Mates(GraphOf(v), x, y) {
        if Mates(GraphOf(v), x, y) {
          MatesSymmetric(GraphOf(v), x, y);
          MatesTransitive(GraphOf(v), j, y, x);
        }
      }
      HeadsAppend(v, open.jobs, g.jobs, l);
      HeadsInside(v, open.jobs, l);
      DistinctCount(g.labels, l);
      assert multiset(open.labels + g.labels) == multiset(open.labels) + multiset(g.labels);
    }
  }

  lemma HeadsInside(v: View, jobs: seq<JobId>, l: Name)
    ensures forall j :: j in Heads(v, jobs, l) ==> j in jobs
  {
    hide Leads, ClassUses;
  }

  lemma TalliedNothing(v: View)
    ensures Tallied(v, [], [])
  {}

  /** Sorting by alignment does not change the tally. */
  lemma TalliedSort(v: View, jobs: seq<JobId>, labels: seq<Name>)
    requires Tallied(v, jobs, labels) && Aligned(v, labels)
    ensures Tallied(v, jobs, Sorted(v, labels))
  {
    hide Heads, View.AlignOf, Sorted;
    AlignValues(v, labels);
    SortedFacts(v, labels);
  }

  // ---------- the run ----------

  ghost predicate PagesTallied(v: View, pages: seq<Page>, base: nat) {
    forall i :: base <= i < |pages| ==> Tallied(v, pages[i].jobs, pages[i].labels)
  }

  ghost predicate BookTallied(v: View, base: nat, b: Book) {
    PagesTallied(v, b.pages, base) && Tallied(v, b.open.jobs, b.open.labels)
  }

  lemma ConcludeTallied(v: View, size: nat, col: nat, before: seq<Page>, b: Book, last: bool)
    requires v.Valid() && BookOk(v, size, col, before, b) && BookTallied(v, |before|, b) && b.open.jobs != []
    ensures var r := Conclude(v, col, |before|, b, last); r.Ok? && BookTallied(v, |before|, r.value)
  {
    hide View.Valid, BookOk, Conclude, Tallied, PagesOk, Chained, NoneLast, Sorted;
    ConcludeKeeps(v, size, col, before, b, last);
    OpenAligned(v, size, col, before, b);
    TalliedSort(v, b.open.jobs, b.open.labels);
    TalliedNothing(v);
  }

  /** A job that is nowhere yet has no mate on the page being filled. */
  lemma NoMateOpen(v: View, base: nat, region: nat, b: Book, j: JobId)
    requires PartOk(v, base, region, b) && j !in b.placed && j !in b.open.jobs
    ensures forall x :: x in b.open.jobs ==> !Mates(GraphOf(v), j, x)
  {
    hide Mates, Rows, RegionsOk, RowsPlaced, RowsOk;
    RowsAt(b, base);
    forall x | x in b.open.jobs ensures !Mates(GraphOf(v), j, x) {
      if Mates(GraphOf(v), j, x) {
        ClassIsNew(v, Rows(b, base), j, |b.pages| - base, x);
      }
    }
  }

  lemma RoomTallied(v: View, size: nat, col: nat, before: seq<Page>, b: Book, g: Group)
    requires v.Valid() && BookOk(v, size, col, before, b) && BookTallied(v, |before|, b)
    ensures var r := MakeRoom(v, size, col, |before|, b, g); r.Ok? ==>
      BookTallied(v, |before|, r.value) && (r.value.open == b.open || r.value.open == EMPTY)
  {
    hide View.Valid, BookOk, Conclude, BookTallied, Footprint;
    if b.open.jobs != [] {
      ConcludeTallied(v, size, col, before, b, false);
      ConcludeEmpties(v, col, |before|, b, false);
    } else {
      OpenEmpty(v, size, col, before, b);
      ConcludeNothing(v, col, |before|, b);
    }
  }

  lemma PlaceJobTallied(v: View, ranks: Ranks, size: nat, col: nat, before: seq<Page>, region: nat, b: Book, j: JobId)
    requires Ready(v, ranks) && NoLaunch(v) && BookOk(v, size, col, before, b) && BookTallied(v, |before|, b)
    requires PartOk(v, |before|, region, b) && j in v.s.jobs && j.Job? && j !in b.placed && j !in b.open.jobs
    ensures var r := Place(v, ranks, size, col, |before|, b, j); r.Ok? ==> BookTallied(v, |before|, r.value)
  {
    hide View.Valid, Ready, NoLaunch, BookOk, PartOk, GroupOf, GroupFacts, MakeRoom, Footprint, Tallied, Mates;
    ReadyValid(v, ranks);
    if Place(v, ranks, size, col, |before|, b, j).Ok? {
      GroupHolds(v, ranks, j);
      var g := GroupOf(v, ranks, j).value;
      RoomTallied(v, size, col, before, b, g);
      NoMateOpen(v, |before|, region, b, j);
      TalliedJoin(v, j, MakeRoom(v, size, col, |before|, b, g).value.open, g);
    }
  }

  lemma PlaceTallied(v: View, ranks: Ranks, size: nat, col: nat, before: seq<Page>, region: nat, b: Book, j: JobId)
    requires Ready(v, ranks) && NoLaunch(v) && BookOk(v, size, col, before, b) && BookTallied(v, |before|, b)
    requires PartOk(v, |before|, region, b) && j in v.s.jobs
    ensures var r := Place(v, ranks, size, col, |before|, b, j); r.Ok? ==> BookTallied(v, |before|, r.value)
  {
    hide View.Valid, Ready, NoLaunch, BookOk, PartOk, GroupOf, Conclude, BookTallied, MakeRoom;
    ReadyValid(v, ranks);
    if j.Job? && j !in b.placed && j !in b.open.jobs {
      PlaceJobTallied(v, ranks, size, col, before, region, b, j);
    } else if b.open.jobs != [] {
      ConcludeTallied(v, size, col, before, b, false);
    }
  }

  /** The invariants of the greedy loop on a launch-free program. */
  ghost predicate LoopOk(v: View, size: nat, col: nat, before: seq<Page>, k: nat, b: Book)
    requires k <= |v.s.jobids|
  {
    && RunOk(v, size, col, before, v.s.jobids[..k], b) && PartOk(v, |before|, Eops(v.s.jobids[..k]), b)
    && BookTallied(v, |before|, b)
  }

  lemma LoopKeeps(v: View, ranks: Ranks, size: nat, col: nat, before: seq<Page>, k: nat, b: Book)
    requires Ready(v, ranks) && NoLaunch(v) && k < |v.s.jobids| && LoopOk(v, size, col, before, k, b)
    ensures v.s.jobids[k] in v.s.jobs
    ensures var r := Place(v, ranks, size, col, |before|, b, v.s.jobids[k]); r.Ok? ==>
      LoopOk(v, size, col, before, k + 1, r.value)
  {
    hide View.Valid, Ready, NoLaunch, BookOk, PlacedOk, Covered, PartOk, Place, BookTallied, Eops;
    ReadyValid(v, ranks);
    IdFacts(v, k);
    var ids := v.s.jobids;
    PlaceRun(v, ranks, size, col, before, ids[..k], b, ids[k]);
    PlacePart(v, ranks, size, col, |before|, Eops(ids[..k]), b, ids[k]);
    PlaceTallied(v, ranks, size, col, before, Eops(ids[..k]), b, ids[k]);
    assert ids[..k + 1] == ids[..k] + [ids[k]];
  }

  lemma {:induction false} LoopAll(v: View, ranks: Ranks, size: nat, col: nat, before: seq<Page>, k: nat, b: Book)
    requires Ready(v, ranks) && NoLaunch(v) && k <= |v.s.jobids| && LoopOk(v, size, col, before, k, b)
    requires forall j :: j in v.s.jobids[k..] ==> j in v.s.jobs
    ensures var r := PlaceAll(v, ranks, size, col, |before|, b, v.s.jobids[k..]);
      r.Ok? ==> LoopOk(v, size, col, before, |v.s.jobids|, r.value)
    decreases |v.s.jobids| - k
  {
    hide View.Valid, Ready, NoLaunch, LoopOk, Place;
    var ids := v.s.jobids;
    if k < |ids| {
      LoopKeeps(v, ranks, size, col, before, k, b);
      assert ids[k..][0] == ids[k] && ids[k..][1..] == ids[k + 1..];
      var r := Place(v, ranks, size, col, |before|, b, ids[k]);
      if r.Ok? {
        LoopAll(v, ranks, size, col, before, k + 1, r.value);
      }
    }
  }

  lemma LoopStarts(v: View, size: nat, col: nat, before: seq<Page>)
    ensures LoopOk(v, size, col, before, 0, Book(before, map[], EMPTY))
  {
    hide RunOk, PartOk, Tallied;
    StartRun(v, size, col, before);
    StartPart(v, |before|, before);
    TalliedNothing(v);
    assert v.s.jobids[..0] == [];
  }

  lemma FinishTallied(v: View, size: nat, col: nat, before: seq<Page>, b: Book)
    requires v.Valid() && BookOk(v, size, col, before, b) && BookTallied(v, |before|, b)
    ensures var r := Finish(v, col, |before|, b); r.Ok? ==> PagesTallied(v, r.value, |before|)
  {
    hide View.Valid, BookOk, Conclude, Tallied;
    if b.open.jobs != [] {
      ConcludeTallied(v, size, col, before, b, true);
    }
  }

  /** On every page of a launch-free program each label occurs once for every barrier class of the page
      that uses it. */
  lemma PagifyTallied(v: View, ranks: Ranks, size: nat, col: nat, before: seq<Page>)
    requires Ready(v, ranks) && NoLaunch(v)
    ensures var r := Pagify(v, ranks, size, col, before); r.Ok? ==> PagesTallied(v, r.value, |before|)
  {
    hide View.Valid, Ready, NoLaunch, BookOk, PlacedOk, Covered, PartOk, PlaceAll, Finish, BookTallied, PagesTallied;
    ReadyValid(v, ranks);
    IdsKnown(v);
    var start, ids := Book(before, map[], EMPTY), v.s.jobids;
    LoopStarts(v, size, col, before);
    assert ids[0..] == ids && ids[..|ids|] == ids;
    LoopAll(v, ranks, size, col, before, 0, start);
    var b := PlaceAll(v, ranks, size, col, |before|, start, ids);
    if b.Ok? {
      FinishTallied(v, size, col, before, b.value);
    }
  }

  // ---------- what the second pass makes of it ----------

  /** The page's mates are all on it. */
  ghost predicate ClassesInside(v: View, jobs: seq<JobId>) {
    forall j, k :: j in jobs && Mates(GraphOf(v), j, k) ==> k in jobs
  }

  lemma FirstMate(v: View, jobs: seq<JobId>, i: nat) returns (h: nat)
    requires i < |jobs| && jobs[i] in v.s.jobs
    ensures h <= i && Head(v, jobs, h) && Mates(GraphOf(v), jobs[h], jobs[i])
  {
    hide Mates;
    MatesSelf(GraphOf(v), jobs[i]);
    h := 0;
    while !Mates(GraphOf(v), jobs[h], jobs[i])
      invariant h <= i && forall k :: 0 <= k < h ==> !Mates(GraphOf(v), jobs[k], jobs[i])
      decreases i - h
    {
      h := h + 1;
    }
    forall k | 0 <= k < h ensures !Mates(GraphOf(v), jobs[k], jobs[h]) {
      if Mates(GraphOf(v), jobs[k], jobs[h]) {
        MatesTransitive(GraphOf(v), jobs[k], jobs[h], jobs[i]);
      }
    }
  }

  lemma UsesOfClass(v: View, j: JobId, k: JobId, l: Name)
    requires Mates(GraphOf(v), j, k) && Uses(v, k, l)
    ensures ClassUses(v, j, l)
  {}

  /** A label used by two different classes has two heads. */
  lemma TwoHeads(v: View, jobs: seq<JobId>, a: nat, b: nat, l: Name)
    requires a < |jobs| && b < |jobs| && jobs[a] in v.s.jobs && jobs[b] in v.s.jobs
    requires Uses(v, jobs[a], l) && Uses(v, jobs[b], l) && !Mates(GraphOf(v), jobs[a], jobs[b])
    ensures |Heads(v, jobs, l)| >= 2
  {
    hide Mates, Uses, Head, ClassUses;
    var x := FirstMate(v, jobs, a);
    var y := FirstMate(v, jobs, b);
    UsesOfClass(v, jobs[x], jobs[a], l);
    UsesOfClass(v, jobs[y], jobs[b], l);
    if jobs[x] == jobs[y] {
      MatesSymmetric(GraphOf(v), jobs[x], jobs[a]);
      MatesTransitive(GraphOf(v), jobs[a], jobs[x], jobs[b]);
    }
    TwoElements(Heads(v, jobs, l), jobs[x], jobs[y]);
  }

  lemma TwoElements<T>(s: set<T>, x: T, y: T)
    requires x in s && y in s && x != y
    ensures |s| >= 2
  {
    assert |s - {x}| >= 1 by { assert y in s - {x}; }
  }

  lemma AtMostOne<T(!new)>(s: set<T>)
    requires forall x, y :: x in s && y in s ==> x == y
    ensures |s| <= 1
  {
    if s != {} {
      var x :| x in s;
      assert s == {x};
    }
  }

  /** Without sharing every label has at most one head. */
  lemma OneHead(v: View, jobs: seq<JobId>, l: Name)
    requires Unshared(v, jobs) && ClassesInside(v, jobs)
    ensures |Heads(v, jobs, l)| <= 1
  {
    hide Mates, Uses, ClassUses, Unshared, ClassesInside;
    var s := Heads(v, jobs, l);
    forall x, y | x in s && y in s ensures x == y {
      var a :| 0 <= a < |jobs| && jobs[a] == x && Head(v, jobs, a);
      var b :| 0 <= b < |jobs| && jobs[b] == y && Head(v, jobs, b);
      if a < b {
        HeadsMate(v, jobs, a, b, l);
      } else if b < a {
        HeadsMate(v, jobs, b, a, l);
      }
    }
    AtMostOne(s);
  }

  lemma HeadsMate(v: View, jobs: seq<JobId>, x: nat, y: nat, l: Name)
    requires Unshared(v, jobs) && ClassesInside(v, jobs) && x < |jobs| && y < |jobs|
    requires ClassUses(v, jobs[x], l) && ClassUses(v, jobs[y], l)
    ensures Mates(GraphOf(v), jobs[x], jobs[y])
  {
    hide Mates, Uses;
    var a :| Mates(GraphOf(v), jobs[x], a) && Uses(v, a, l);
    var b :| Mates(GraphOf(v), jobs[y], b) && Uses(v, b, l);
    assert jobs[x] in jobs && jobs[y] in jobs && Mates(GraphOf(v), a, b);
    MatesTransitive(GraphOf(v), jobs[x], a, b);
    MatesSymmetric(GraphOf(v), jobs[y], b);
    MatesTransitive(GraphOf(v), jobs[x], b, jobs[y]);
  }

  /** A tallied list of labels is free of duplicates exactly when no two classes share a label. */
  lemma DistinctIffUnshared(v: View, jobs: seq<JobId>, labels: seq<Name>)
    requires Tallied(v, jobs, labels) && ClassesInside(v, jobs) && forall j :: j in jobs ==> j in v.s.jobs
    ensures NoDup(labels) <==> Unshared(v, jobs)
  {
    hide Mates, Uses, Heads, ClassesInside;
    CountsDistinct(labels);
    if Unshared(v, jobs) {
      forall l ensures multiset(labels)[l] <= 1 {
        OneHead(v, jobs, l);
      }
    } else {
      var j, k, l :| j in jobs && k in jobs && Uses(v, j, l) && Uses(v, k, l) && !Mates(GraphOf(v), j, k);
      var a :| 0 <= a < |jobs| && jobs[a] == j;
      var b :| 0 <= b < |jobs| && jobs[b] == k;
      TwoHeads(v, jobs, a, b, l);
      assert multiset(labels)[l] >= 2;
    }
  }

  /** The rows of a partition are closed under barrier mates and hold known jobs, once each. */
  lemma PartitionedPage(v: View, base: nat, pages: seq<Page>, i: nat)
    requires base <= i < |pages| && Partitioned(v, base, pages)
    ensures ClassesInside(v, pages[i].jobs) && NoDup(pages[i].jobs)
    ensures forall j :: j in pages[i].jobs ==> j in v.s.jobs
    ensures forall j, k :: j in pages[i].jobs && k in pages[i].jobs ==> v.s.jobs[j].eop == v.s.jobs[k].eop
  {
    hide Mates;
    var rows := JobRows(pages[base..]);
    JobRowsAt(pages[base..]);
    var n := i - base;
    assert pages[base..][n] == pages[i] && rows[n] == pages[i].jobs;
    assert Ordinary(v, rows[n]);
    forall a, c | 0 <= a < c < |rows[n]| ensures rows[n][a] != rows[n][c] {}
  }

  /** For every page of every launch-free program: its second layout pass is accepted if and only if no
      two jobs on it that are not barrier mates use a common label. */
  lemma PageLayoutAccepted(v: View, ranks: Ranks, size: nat, col: nat, before: seq<Page>, i: nat)
    requires Ready(v, ranks) && NoLaunch(v) && Pagify(v, ranks, size, col, before).Ok?
    requires |before| <= i < |Pagify(v, ranks, size, col, before).value|
    ensures var p := Pagify(v, ranks, size, col, before).value[i];
      ScanFrom(START, p.text + p.data, false).Ok? <==> Unshared(v, p.jobs)
  {
    hide View.Valid, Ready, NoLaunch, Pagify, Unshared, PageOk, Tallied, ClassesInside, Partitioned, DataInv, Placed,
      ScanFrom, Chained;
    ReadyValid(v, ranks);
    PagifyLaws(v, ranks, size, col, before);
    PagifyPartitions(v, ranks, size, col, before);
    PagifyTallied(v, ranks, size, col, before);
    var pages := Pagify(v, ranks, size, col, before).value;
    PartitionedPage(v, |before|, pages, i);
    DistinctIffUnshared(v, pages[i].jobs, pages[i].labels);
    PageLayout(v, size, col, pages[i], i);
  }

  /** Checkable before paging: if no label is used by two jobs of one `.eop` region that are not barrier mates, the
      second layout pass refuses no page, however the jobs are packed. */
  lemma UnsharedAccepted(v: View, ranks: Ranks, size: nat, col: nat, before: seq<Page>, i: nat)
    requires Ready(v, ranks) && NoLaunch(v) && UnsharedRegions(v) && Pagify(v, ranks, size, col, before).Ok?
    requires |before| <= i < |Pagify(v, ranks, size, col, before).value|
    ensures var p := Pagify(v, ranks, size, col, before).value[i];
      Unshared(v, p.jobs) && ScanFrom(START, p.text + p.data, false).Ok?
  {
    hide View.Valid, Ready, NoLaunch, Pagify, ScanFrom, Uses, Mates, Partitioned;
    ReadyValid(v, ranks);
    PagifyPartitions(v, ranks, size, col, before);
    var pages := Pagify(v, ranks, size, col, before).value;
    PartitionedPage(v, |before|, pages, i);
    PageLayoutAccepted(v, ranks, size, col, before, i);
  }

  lemma KnownIds(v: View)
    requires v.Valid()
    ensures forall j :: j in v.s.jobids <==> j in v.s.jobs
  {}
}
