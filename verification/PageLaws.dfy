/** What holds of every page of every accepted program. */
module PageLaws {
  import opened Base
  import opened Isa
  import opened Program
  import opened Structure
  import opened View
  import opened Jobs
  import opened Labels
  import opened Pages

  // ---------- one group ----------

  ghost predicate Ordinary(v: View, jobs: seq<JobId>) {
    forall j :: j in jobs ==> j.Job? && j in v.s.jobs
  }

  ghost predicate Aligned(v: View, labels: seq<Name>) {
    forall l :: l in labels ==> l in v.s.labels && v.AlignOf(l).Some?
  }

  lemma {:induction false} LaunchesAreJobs(toks: seq<Token>)
    ensures forall l :: l in LaunchesOf(toks) ==> l.Job?
  {
    if toks != [] {
      LaunchesAreJobs(toks[1..]);
    }
  }

  lemma LaunchTarget(v: View, m: JobId, l: JobId)
    requires v.Valid() && m in v.s.jobs && l in v.s.jobs[m].launches
    ensures l.Job?
  {
    if m.Job? {
      JobSlice(v, m);
      LaunchesAreJobs(v.JobToks(m));
    }
  }

  lemma {:induction false} LaunchedOrdinary(v: View, p: seq<JobId>, j: JobId, m: JobId)
    requires v.Valid() && j.Job? && LaunchPath(GraphOf(v), p, j, m)
    ensures m.Job? && m in v.s.jobs
    decreases |p|
  {
    hide View.Valid, LaunchPath;
    LaunchTail(GraphOf(v), p, j, m);
    if |p| > 1 {
      LaunchTarget(v, j, p[1]);
      LaunchedOrdinary(v, p[1..], p[1], m);
    }
  }

  lemma LaunchTail(g: Graph, p: seq<JobId>, j: JobId, m: JobId)
    requires LaunchPath(g, p, j, m)
    ensures j in g.jobs && p != [] && (|p| == 1 ==> m == j)
    ensures |p| > 1 ==> p[1] in g.jobs[j].launches && LaunchPath(g, p[1..], p[1], m)
  {
    if |p| > 1 {
      assert p[0 + 1] in g.jobs[p[0]].launches;
    }
  }

  lemma MateOrdinary(v: View, m: JobId, k: JobId)
    requires v.Valid() && m.Job? && m in v.s.jobs && Mates(GraphOf(v), m, k)
    ensures k.Job? && k in v.s.jobs
  {
    hide View.Valid;
    var p :| MatePath(GraphOf(v), p, m, k);
    if |p| > 1 {
      assert Shares(GraphOf(v), p[|p| - 2], p[|p| - 2 + 1]);
      NoBarriers(v, k);
    }
  }

  lemma NoBarriers(v: View, k: JobId)
    requires v.Valid() && k in v.s.jobs
    ensures !k.Job? ==> v.s.jobs[k].barriers == []
  {}

  lemma NeededOrdinary(v: View, j: JobId, k: JobId)
    requires v.Valid() && j.Job? && Needs(GraphOf(v), j, k)
    ensures k.Job? && k in v.s.jobs
  {
    var m :| Reaches(GraphOf(v), j, m) && Mates(GraphOf(v), m, k);
    var p :| LaunchPath(GraphOf(v), p, j, m);
    LaunchedOrdinary(v, p, j, m);
    MateOrdinary(v, m, k);
  }

  /** The jobs of a group: exactly what the seed needs, inside one `.eop` region per closure. */
  ghost predicate GroupJobs(v: View, j: JobId, jobs: seq<JobId>) {
    && NoDup(jobs) && jobs != [] && jobs[0] == j && Ordinary(v, jobs)
    && (forall k :: k in jobs <==> Needs(GraphOf(v), j, k))
    && (forall m, k :: Reaches(GraphOf(v), j, m) ==> !Torn(GraphOf(v), m, k))
  }

  /** The labels of a group: exactly what its tokens want. */
  ghost predicate GroupLabels(v: View, toks: seq<Token>, labels: seq<Name>) {
    && NoDup(labels) && Aligned(v, labels)
    && (forall l :: l in labels <==> Wanted(LabelsOf(v), RefsIn(toks, v.pads), l))
    && (forall m :: Reached(LabelsOf(v), RefsIn(toks, v.pads), m) ==> m in labels)
  }

  /** Everything the later passes use about one group. */
  ghost predicate GroupFacts(v: View, j: JobId, g: Group) {
    && GroupJobs(v, j, g.jobs) && GroupLabels(v, JobsToks(v, g.jobs), g.labels)
    && g.tsize == JobsSize(v, g.jobs) && g.dsize == LabelsSize(v, g.labels)
    && g.externals == ExternalsFrom(JobsToks(v, g.jobs), [])
  }

  lemma LabelKnown(v: View, m: Name, l: Name)
    requires v.Valid() && m in v.s.labels && Pulled(LabelsOf(v), m, l)
    ensures l in v.s.labels
  {}

  lemma LabelPart(v: View, toks: seq<Token>, labels: seq<Name>)
    requires v.Valid() && Collected(LabelsOf(v), RefsIn(toks, v.pads), [], Ok(labels))
    requires forall l :: l in labels ==> v.AlignOf(l).Some?
    ensures GroupLabels(v, toks, labels)
  {
    hide View.Valid, Reached, View.AlignOf;
    var refs := RefsIn(toks, v.pads);
    forall l | l in labels ensures l in v.s.labels {
      var m :| Reached(LabelsOf(v), refs, m) && Pulled(LabelsOf(v), m, l);
      LabelKnown(v, m, l);
    }
    forall m | Reached(LabelsOf(v), refs, m) ensures m in labels {
      assert Pulled(LabelsOf(v), m, m);
    }
  }

  lemma JobPart(v: View, j: JobId, jobs: seq<JobId>)
    requires v.Valid() && j.Job? && Extracted(GraphOf(v), j, Ok(jobs))
    ensures GroupJobs(v, j, jobs)
  {
    hide View.Valid, Needs, Torn, Reaches;
    forall k | k in jobs ensures k.Job? && k in v.s.jobs {
      NeededOrdinary(v, j, k);
    }
  }

  lemma ReadyParts(v: View, ranks: Ranks)
    requires Ready(v, ranks)
    ensures v.Valid() && GraphOf(v).Valid() && Acyclic(GraphOf(v), ranks.jobs)
    ensures Ranked(LabelsOf(v), ranks.labels, ranks.top)
  {
    ValidGraph(v);
    hide View.Valid, Acyclic, Ranked, Jobs.Graph.Valid;
  }

  lemma GroupHolds(v: View, ranks: Ranks, j: JobId)
    requires Ready(v, ranks) && j in v.s.jobs && j.Job?
    ensures var g := GroupOf(v, ranks, j); g.Ok? ==> GroupFacts(v, j, g.value)
  {
    hide Ready, View.Valid, Acyclic, Ranked, Jobs.Graph.Valid, Extract, FromLines, Extracted, Collected, LabelsOf,
      GraphOf, Aligned, Below, View.AlignOf, GroupJobs, GroupLabels, JobsToks, ExternalsFrom, JobsSize, LabelsSize;
    ReadyParts(v, ranks);
    var g := GroupOf(v, ranks, j);
    if g.Ok? {
      var toks := JobsToks(v, g.value.jobs);
      GraphFields(v);
      AllBelow(v, ranks, RefsIn(toks, v.pads));
      ExtractCloses(GraphOf(v), ranks.jobs, j);
      FromLinesCollects(LabelsOf(v), ranks.labels, ranks.top, toks, [], ranks.top);
      JobPart(v, j, g.value.jobs);
      LabelPart(v, toks, g.value.labels);
    }
  }

  lemma GraphFields(v: View)
    ensures LabelsOf(v).pads == v.pads && GraphOf(v).jobs == v.s.jobs
  {}

  lemma ValidGraph(v: View)
    requires v.Valid()
    ensures GraphOf(v).Valid()
  {}

  // ---------- sums over lists ----------

  lemma {:induction false} JobsAppend(v: View, a: seq<JobId>, b: seq<JobId>)
    ensures JobsSize(v, a + b) == JobsSize(v, a) + JobsSize(v, b)
    ensures JobsToks(v, a + b) == JobsToks(v, a) + JobsToks(v, b)
  {
    if a == [] {
      assert a + b == b;
    } else {
      assert (a + b)[1..] == a[1..] + b;
      JobsAppend(v, a[1..], b);
    }
  }

  lemma {:induction false} LabelsAppend(v: View, a: seq<Name>, b: seq<Name>)
    ensures LabelsSize(v, a + b) == LabelsSize(v, a) + LabelsSize(v, b)
    ensures LabelsToks(v, a + b) == LabelsToks(v, a) + LabelsToks(v, b)
  {
    if a == [] {
      assert a + b == b;
    } else {
      assert (a + b)[1..] == a[1..] + b;
      LabelsAppend(v, a[1..], b);
    }
  }

  lemma {:induction false} WithAlignFacts(v: View, labels: seq<Name>, a: nat)
    ensures forall l :: l in WithAlign(v, labels, a) <==> l in labels && v.AlignOf(l) == Some(a)
    ensures multiset(WithAlign(v, labels, a)) <= multiset(labels)
    decreases |labels|
  {
    if labels != [] {
      WithAlignFacts(v, labels[1..], a);
      assert labels == [labels[0]] + labels[1..];
    }
  }

  /** The alignment sort keeps every label as often as it occurs, and the total size. */
  lemma {:induction false} SortedFacts(v: View, labels: seq<Name>)
    requires forall l :: l in labels ==> v.AlignOf(l) in {Some(16), Some(4)}
    ensures multiset(Sorted(v, labels)) == multiset(labels)
    ensures LabelsSize(v, Sorted(v, labels)) == LabelsSize(v, labels)
    decreases |labels|
  {
    if labels != [] {
      hide View.AlignOf, LabelsSize, LabelsToks, Sorted, WithAlign;
      var l, rest := labels[0], labels[1..];
      assert labels == [l] + rest;
      SortedFacts(v, rest);
      SortedMoves(v, l, rest);
      SizeMoves(v, WithAlign(v, rest, 16), l, WithAlign(v, rest, 4));
      SortedParts(v, rest);
      LabelsAppend(v, [l], rest);
      LabelsAppend(v, [l], Sorted(v, rest));
    }
  }

  /** The sort puts a first label in front, or between the two groups. */
  lemma SortedMoves(v: View, l: Name, rest: seq<Name>)
    requires v.AlignOf(l) in {Some(16), Some(4)}
    ensures Sorted(v, [l] + rest) == if v.AlignOf(l) == Some(16) then [l] + Sorted(v, rest)
                                     else WithAlign(v, rest, 16) + ([l] + WithAlign(v, rest, 4))
  {
    hide View.AlignOf;
    assert ([l] + rest)[1..] == rest;
  }

  lemma SortedParts(v: View, labels: seq<Name>)
    ensures Sorted(v, labels) == WithAlign(v, labels, 16) + WithAlign(v, labels, 4)
  {}

  lemma SizeMoves(v: View, a: seq<Name>, l: Name, b: seq<Name>)
    ensures LabelsSize(v, a + ([l] + b)) == LabelsSize(v, [l] + (a + b))
    ensures multiset(a + ([l] + b)) == multiset([l] + (a + b))
  {
    hide LabelsSize, LabelsToks;
    LabelsAppend(v, a, [l] + b);
    LabelsAppend(v, [l], b);
    LabelsAppend(v, [l], a + b);
    LabelsAppend(v, a, b);
  }

  lemma AlignValues(v: View, labels: seq<Name>)
    requires Aligned(v, labels)
    ensures forall l :: l in labels ==> v.AlignOf(l) in {Some(16), Some(4)}
  {}

  // ---------- every page fits, and says what it holds ----------

  /** 16-byte labels come before 4-byte labels. */
  ghost predicate LabelsSorted(v: View, labels: seq<Name>) {
    forall a, b :: 0 <= a < b < |labels| && v.AlignOf(labels[a]) == Some(4) ==> v.AlignOf(labels[b]) == Some(4)
  }

  /** Gap `.align` inserted between `eof` and data. */
  function Gap(v: View, p: Page): nat {
    if LabelsSize(v, p.labels) > 0 then Aligner(JobsSize(v, p.jobs)) else 0
  }

  /** A page's token lists, its length field and its bound, in terms of its jobs and labels. */
  ghost predicate PageOk(v: View, size: nat, col: nat, p: Page, num: nat) {
    && p.num == num && p.col == col && p.jobs != [] && Ordinary(v, p.jobs)
    && Aligned(v, p.labels) && LabelsSorted(v, p.labels)
    && p.text == JobsToks(v, p.jobs) + [EOF] + (if Gap(v, p) > 0 then [Align(16)] else [])
    && p.data == LabelsToks(v, p.labels)
    && p.curLen == RoundUp4(HEADER + JobsSize(v, p.jobs) + EOF_SIZE + Gap(v, p) + LabelsSize(v, p.labels))
    && Footprint(JobsSize(v, p.jobs), LabelsSize(v, p.labels)) <= size
  }

  /** Header, text, `eof`, a gap up to a multiple of 16, and the data are at most `size` bytes. */
  predicate FitsWith(text: nat, gap: nat, data: nat, size: nat) {
    gap < 16 && (16 + text + 4 + gap) % 16 == 0 && 16 + text + 4 + gap + data <= size
  }

  /** The jobs and labels fit one page. */
  ghost predicate FitsPage(v: View, size: nat, jobs: seq<JobId>, labels: seq<Name>) {
    exists gap: nat :: FitsWith(JobsSize(v, jobs), gap, LabelsSize(v, labels), size)
  }

  /** That is what the pager computes. */
  lemma FootprintFits(v: View, size: nat, jobs: seq<JobId>, labels: seq<Name>)
    ensures Footprint(JobsSize(v, jobs), LabelsSize(v, labels)) <= size <==> FitsPage(v, size, jobs, labels)
  {
    hide JobsSize, LabelsSize;
    var text, data := JobsSize(v, jobs), LabelsSize(v, labels);
    if Footprint(text, data) <= size {
      assert FitsWith(text, Aligner(text), data, size);
    }
    if gap: nat :| FitsWith(text, gap, data, size) {
      assert gap == Aligner(text);
    }
  }

  ghost predicate OpenOk(v: View, size: nat, g: Group) {
    && Ordinary(v, g.jobs) && Aligned(v, g.labels)
    && g.tsize == JobsSize(v, g.jobs) && g.dsize == LabelsSize(v, g.labels)
    && (g.jobs == [] ==> g == EMPTY)
    && (g.jobs != [] ==> Footprint(g.tsize, g.dsize) <= size)
  }

  /** Each page of this call announces the length of the next one, the last announces 0. */
  ghost predicate Chained(pages: seq<Page>, base: nat) {
    forall i :: base <= i < |pages| ==> pages[i].nextLen == LenAt(pages, i + 1)
  }

  function LenAt(pages: seq<Page>, i: nat): nat {
    if i < |pages| then pages[i].curLen else 0
  }

  ghost predicate BookOk(v: View, size: nat, col: nat, before: seq<Page>, b: Book) {
    && |before| <= |b.pages| && b.pages[..|before|] == before
    && PagesOk(v, size, col, b.pages, |before|) && NoneLast(b.pages, |before|)
    && Chained(b.pages, |before|) && OpenOk(v, size, b.open)
  }

  lemma OpenAligned(v: View, size: nat, col: nat, before: seq<Page>, b: Book)
    requires BookOk(v, size, col, before, b)
    ensures Aligned(v, b.open.labels) && (b.open.jobs == [] ==> b.open == EMPTY)
  {
    hide PagesOk, Chained, NoneLast, Ordinary, JobsSize, LabelsSize, Footprint, Aligned;
  }

  lemma EofToken(v: View)
    requires v.Valid()
    ensures EofJob in v.s.jobs && v.s.jobs[EofJob].first < |v.toks| && v.toks[v.s.jobs[EofJob].first] == EOF
  {}

  lemma SortedIsSorted(v: View, labels: seq<Name>)
    ensures LabelsSorted(v, Sorted(v, labels))
  {
    WithAlignFacts(v, labels, 16);
    WithAlignFacts(v, labels, 4);
    var a, b := WithAlign(v, labels, 16), WithAlign(v, labels, 4);
    assert forall i :: 0 <= i < |a| ==> Sorted(v, labels)[i] in a;
    assert forall i :: |a| <= i < |a + b| ==> Sorted(v, labels)[i] in b;
  }

  lemma SortedSize(v: View, labels: seq<Name>)
    requires Aligned(v, labels)
    ensures Aligned(v, Sorted(v, labels)) && LabelsSize(v, Sorted(v, labels)) == LabelsSize(v, labels)
  {
    AlignValues(v, labels);
    hide View.AlignOf;
    SortedFacts(v, labels);
    WithAlignFacts(v, labels, 16);
    WithAlignFacts(v, labels, 4);
  }

  lemma MadePage(v: View, size: nat, col: nat, num: nat, g: Group, last: bool)
    requires v.Valid() && OpenOk(v, size, g) && g.jobs != [] && EofJob in v.s.jobs && v.s.jobs[EofJob].first < |v.toks|
    ensures PageOk(v, size, col, MakePage(v, col, num, g, last), num)
  {
    hide View.Valid, View.AlignOf, JobsToks, LabelsToks, JobsSize, LabelsSize, Sorted, LabelsSorted, Aligner,
      RoundUp4, Ordinary, Footprint, Aligned;
    EofToken(v);
    SortedIsSorted(v, g.labels);
    SortedSize(v, g.labels);
  }

  ghost predicate PagesOk(v: View, size: nat, col: nat, pages: seq<Page>, base: nat) {
    forall i :: base <= i < |pages| ==> PageOk(v, size, col, pages[i], i)
  }

  ghost predicate NoneLast(pages: seq<Page>, base: nat) {
    forall i :: base <= i < |pages| ==> !pages[i].last
  }

  /** Up to the length of its successor, every old page is what it was. */
  ghost predicate Grown(old_: seq<Page>, new_: seq<Page>) {
    && |old_| <= |new_|
    && forall i :: 0 <= i < |old_| ==> new_[i] == old_[i].(nextLen := new_[i].nextLen)
  }

  lemma PushKeeps(v: View, size: nat, col: nat, pages: seq<Page>, p: Page, base: nat)
    requires base <= |pages| && PagesOk(v, size, col, pages, base) && Chained(pages, base) && NoneLast(pages, base)
    requires PageOk(v, size, col, p, |pages|) && p.nextLen == 0
    ensures var q := Push(pages, p, base);
      && |q| == |pages| + 1 && q[|pages|] == p && Grown(pages, q) && q[..base] == pages[..base]
      && PagesOk(v, size, col, q, base) && Chained(q, base) && NoneLast(q[..|pages|], base)
  {
    hide PageOk;
    var q := Push(pages, p, base);
    forall i | base <= i < |q| ensures PageOk(v, size, col, q[i], i) {
      if i < |pages| {
        PageOkFields(v, size, col, pages[i], q[i], i);
      }
    }
  }

  /** `assignpagenumber` on a non-empty page. */
  lemma ConcludeKeeps(v: View, size: nat, col: nat, before: seq<Page>, b: Book, last: bool)
    requires v.Valid() && BookOk(v, size, col, before, b) && b.open.jobs != []
    ensures var r := Conclude(v, col, |before|, b, last);
      && r.Ok? && r.value.open == EMPTY && |r.value.pages| == |b.pages| + 1 && Grown(b.pages, r.value.pages)
      && r.value.placed == b.placed + Numbers(b.open.jobs, |b.pages|)
      && PagesOk(v, size, col, r.value.pages, |before|) && Chained(r.value.pages, |before|)
      && NoneLast(r.value.pages[..|b.pages|], |before|) && r.value.pages[..|before|] == before
      && var p := r.value.pages[|b.pages|];
        && p.jobs == b.open.jobs && p.labels == Sorted(v, b.open.labels)
        && p.last == last && p.externals == b.open.externals
  {
    hide View.Valid, PageOk, Ordinary, Aligned, MakePage, Push, OpenOk, Sorted, Chained, NoneLast, PagesOk;
    EofToken(v);
    OpenIsOrdinary(v, size, b.open);
    MadePage(v, size, col, |b.pages|, b.open, last);
    PageFields(v, size, col, |b.pages|, b.open, last);
    PushKeeps(v, size, col, b.pages, MakePage(v, col, |b.pages|, b.open, last), |before|);
  }

  lemma OpenIsOrdinary(v: View, size: nat, g: Group)
    requires OpenOk(v, size, g)
    ensures g.jobs != [] ==> g.jobs[0].Job?
  {
    hide JobsSize, LabelsSize, Footprint, Aligned;
    assert g.jobs != [] ==> g.jobs[0] in g.jobs;
  }

  lemma PageFields(v: View, size: nat, col: nat, num: nat, g: Group, last: bool)
    requires EofJob in v.s.jobs && v.s.jobs[EofJob].first < |v.toks|
    ensures var p := MakePage(v, col, num, g, last);
      p.nextLen == 0 && p.last == last && p.jobs == g.jobs && p.externals == g.externals
      && p.labels == Sorted(v, g.labels)
  {}

  lemma PageOkFields(v: View, size: nat, col: nat, p: Page, q: Page, num: nat)
    requires PageOk(v, size, col, p, num)
    requires q == p.(nextLen := q.nextLen, last := q.last)
    ensures PageOk(v, size, col, q, num)
  {
    hide JobsSize, LabelsSize, JobsToks, LabelsToks, Footprint, Aligner, RoundUp4, Ordinary, Aligned, LabelsSorted;
  }

  // ---------- one job of the list ----------

  /** A placed job is on the page it was given. */
  ghost predicate PlacedOk(b: Book) {
    forall j :: j in b.placed ==> b.placed[j] < |b.pages| && j in b.pages[b.placed[j]].jobs
  }

  /** Every ordinary job met so far is on a page or on the page being filled. */
  ghost predicate Covered(done: seq<JobId>, b: Book) {
    forall j :: j in done && j.Job? ==> j in b.placed || j in b.open.jobs
  }

  ghost predicate RunOk(v: View, size: nat, col: nat, before: seq<Page>, done: seq<JobId>, b: Book) {
    BookOk(v, size, col, before, b) && PlacedOk(b) && Covered(done, b)
  }

  lemma ConcludeRun(v: View, size: nat, col: nat, before: seq<Page>, done: seq<JobId>, b: Book)
    requires v.Valid() && RunOk(v, size, col, before, done, b) && b.open.jobs != []
    ensures var r := Conclude(v, col, |before|, b, false); r.Ok? && RunOk(v, size, col, before, done, r.value)
  {
    hide View.Valid, PagesOk, OpenOk, Conclude;
    ConcludeKeeps(v, size, col, before, b, false);
    EmptyOpen(v, size);
    var r := Conclude(v, col, |before|, b, false).value;
    assert r.pages[..|b.pages|] + [r.pages[|b.pages|]] == r.pages;
    forall j | j in r.placed ensures r.placed[j] < |r.pages| && j in r.pages[r.placed[j]].jobs {
      if j !in b.open.jobs {
        assert j in b.placed;
      }
    }
  }

  lemma EmptyOpen(v: View, size: nat)
    ensures OpenOk(v, size, EMPTY)
  {}

  lemma JoinKeeps(v: View, size: nat, j: JobId, open: Group, g: Group)
    requires OpenOk(v, size, open) && GroupFacts(v, j, g)
    requires Footprint(open.tsize + g.tsize, open.dsize + g.dsize) <= size
    ensures OpenOk(v, size, Pages.Join(open, g))
  {
    hide View.AlignOf, JobsSize, LabelsSize, JobsToks, LabelsToks, Footprint, Wanted, Reached, Needs, Torn, Reaches,
      ExternalsFrom;
    JobsAppend(v, open.jobs, g.jobs);
    LabelsAppend(v, open.labels, g.labels);
  }

  lemma JoinRun(v: View, size: nat, col: nat, before: seq<Page>, done: seq<JobId>, b: Book, j: JobId, g: Group)
    requires RunOk(v, size, col, before, done, b) && GroupFacts(v, j, g)
    requires Footprint(b.open.tsize + g.tsize, b.open.dsize + g.dsize) <= size
    ensures RunOk(v, size, col, before, done + [j], b.(open := Pages.Join(b.open, g)))
  {
    hide GroupFacts, OpenOk, PagesOk, Footprint, Chained, NoneLast;
    SeedInside(v, j, g);
    JoinKeeps(v, size, j, b.open, g);
  }

  lemma SeedInside(v: View, j: JobId, g: Group)
    requires GroupFacts(v, j, g)
    ensures j in g.jobs
  {
    assert g.jobs[0] in g.jobs;
  }

  /** Room is made without losing anything, and then the group does fit. */
  lemma RoomRun(v: View, size: nat, col: nat, before: seq<Page>, done: seq<JobId>, b: Book, g: Group)
    requires v.Valid() && RunOk(v, size, col, before, done, b) && Footprint(g.tsize, g.dsize) <= size
    ensures var r := MakeRoom(v, size, col, |before|, b, g);
      && r.Ok? && RunOk(v, size, col, before, done, r.value)
      && Footprint(r.value.open.tsize + g.tsize, r.value.open.dsize + g.dsize) <= size
  {
    hide View.Valid, PlacedOk, Conclude, Footprint, Covered;
    if b.open.jobs == [] {
      OpenEmpty(v, size, col, before, b);
    } else {
      hide BookOk;
      ConcludeRun(v, size, col, before, done, b);
      ConcludeEmpties(v, col, |before|, b, false);
    }
  }

  lemma PlaceJob(v: View, ranks: Ranks, size: nat, col: nat, before: seq<Page>, done: seq<JobId>, b: Book, j: JobId)
    requires Ready(v, ranks) && RunOk(v, size, col, before, done, b) && j in v.s.jobs && j.Job?
    requires j !in b.placed && j !in b.open.jobs
    ensures var r := Place(v, ranks, size, col, |before|, b, j);
      r.Ok? ==> RunOk(v, size, col, before, done + [j], r.value)
  {
    hide View.Valid, Ready, RunOk, MakeRoom, GroupOf, Footprint, GroupFacts;
    ReadyValid(v, ranks);
    if Place(v, ranks, size, col, |before|, b, j).Ok? {
      GroupHolds(v, ranks, j);
      var g := GroupOf(v, ranks, j).value;
      RoomRun(v, size, col, before, done, b, g);
      JoinRun(v, size, col, before, done, MakeRoom(v, size, col, |before|, b, g).value, j, g);
    }
  }

  /** Placing one job keeps pages well formed and leaves no ordinary job behind. */
  lemma PlaceRun(v: View, ranks: Ranks, size: nat, col: nat, before: seq<Page>, done: seq<JobId>, b: Book, j: JobId)
    requires Ready(v, ranks) && RunOk(v, size, col, before, done, b) && j in v.s.jobs
    ensures var r := Place(v, ranks, size, col, |before|, b, j);
      r.Ok? ==> RunOk(v, size, col, before, done + [j], r.value)
  {
    hide View.Valid, Ready, BookOk, PlacedOk, Conclude, GroupOf, Covered;
    ReadyValid(v, ranks);
    if j.Job? && j !in b.placed && j !in b.open.jobs {
      PlaceJob(v, ranks, size, col, before, done, b, j);
    } else {
      CoveredMore(done, b, j);
      if j.EopJob? && b.open.jobs != [] {
        ConcludeRun(v, size, col, before, done, b);
        CoveredMore(done, Conclude(v, col, |before|, b, false).value, j);
      }
    }
  }

  lemma ReadyValid(v: View, ranks: Ranks)
    requires Ready(v, ranks)
    ensures v.Valid()
  {
    hide View.Valid, Acyclic, Ranked;
  }

  lemma CoveredMore(done: seq<JobId>, b: Book, j: JobId)
    requires Covered(done, b) && (j.Job? ==> j in b.placed || j in b.open.jobs)
    ensures Covered(done + [j], b)
  {}

  lemma OpenEmpty(v: View, size: nat, col: nat, before: seq<Page>, b: Book)
    requires BookOk(v, size, col, before, b) && b.open.jobs == []
    ensures b.open == EMPTY
  {}

  lemma ConcludeNothing(v: View, col: nat, base: nat, b: Book)
    requires b.open == EMPTY
    ensures Conclude(v, col, base, b, false) == Ok(b)
  {}

  lemma ConcludeEmpties(v: View, col: nat, base: nat, b: Book, last: bool)
    ensures var r := Conclude(v, col, base, b, last); r.Ok? ==> r.value.open == EMPTY
  {}

  lemma {:induction false} PlaceAllRun(v: View, ranks: Ranks, size: nat, col: nat, before: seq<Page>,
                                       done: seq<JobId>, b: Book, ids: seq<JobId>)
    requires Ready(v, ranks) && RunOk(v, size, col, before, done, b) && forall j :: j in ids ==> j in v.s.jobs
    ensures var r := PlaceAll(v, ranks, size, col, |before|, b, ids);
      r.Ok? ==> RunOk(v, size, col, before, done + ids, r.value)
    decreases |ids|
  {
    hide View.Valid, Ready, RunOk, Place;
    if ids == [] {
      assert done + [] == done;
    } else {
      var r := Place(v, ranks, size, col, |before|, b, ids[0]);
      PlaceRun(v, ranks, size, col, before, done, b, ids[0]);
      if r.Ok? {
        PlaceAllRun(v, ranks, size, col, before, done + [ids[0]], r.value, ids[1..]);
        assert done + [ids[0]] + ids[1..] == done + ids;
      }
    }
  }

  // ---------- the whole call ----------

  /** Job `j` is on page `i`. */
  predicate OnPage(pages: seq<Page>, i: nat, j: JobId) {
    i < |pages| && j in pages[i].jobs
  }

  /** What `pagify` guarantees of the pages it appends to `before`. */
  ghost predicate Paged(v: View, size: nat, col: nat, before: seq<Page>, pages: seq<Page>) {
    && |before| <= |pages|
    && (forall i :: 0 <= i < |before| ==> pages[i] == before[i].(last := pages[i].last))
    && PagesOk(v, size, col, pages, |before|) && Chained(pages, |before|)
    && forall j :: j in v.s.jobids && j.Job? ==> exists i: nat :: |before| <= i && OnPage(pages, i, j)
  }

  lemma {:induction false} StartRun(v: View, size: nat, col: nat, before: seq<Page>)
    ensures RunOk(v, size, col, before, [], Book(before, map[], EMPTY))
  {
    assert before[..|before|] == before;
  }

  /** A placed job's page belongs to this call. */
  ghost predicate PlacedHere(base: nat, b: Book) {
    forall j :: j in b.placed ==> base <= b.placed[j]
  }

  lemma PlaceHere(v: View, ranks: Ranks, size: nat, col: nat, base: nat, b: Book, j: JobId)
    requires Ready(v, ranks) && j in v.s.jobs && PlacedHere(base, b) && base <= |b.pages|
    ensures var r := Place(v, ranks, size, col, base, b, j);
      r.Ok? ==> PlacedHere(base, r.value) && base <= |r.value.pages|
  {
    hide View.Valid, Ready, GroupOf, MakePage, Footprint;
  }

  lemma {:induction false} PlaceAllHere(v: View, ranks: Ranks, size: nat, col: nat, base: nat, b: Book, ids: seq<JobId>)
    requires Ready(v, ranks) && (forall j :: j in ids ==> j in v.s.jobs) && PlacedHere(base, b) && base <= |b.pages|
    ensures var r := PlaceAll(v, ranks, size, col, base, b, ids); r.Ok? ==> PlacedHere(base, r.value)
    decreases |ids|
  {
    hide View.Valid, Ready, Place, PlacedHere;
    if ids != [] {
      PlaceHere(v, ranks, size, col, base, b, ids[0]);
      var r := Place(v, ranks, size, col, base, b, ids[0]);
      if r.Ok? {
        PlaceAllHere(v, ranks, size, col, base, r.value, ids[1..]);
      }
    }
  }

  lemma SameLengths(pages: seq<Page>, flagged: seq<Page>, base: nat)
    requires Chained(pages, base) && |pages| == |flagged|
    requires forall i :: 0 <= i < |pages| ==> flagged[i] == pages[i].(last := flagged[i].last)
    ensures Chained(flagged, base)
  {
    forall i | base <= i < |flagged| ensures flagged[i].nextLen == LenAt(flagged, i + 1) {
      assert pages[i].nextLen == LenAt(pages, i + 1);
    }
  }

  lemma FinishFlag(v: View, size: nat, col: nat, before: seq<Page>, b: Book)
    requires RunOk(v, size, col, before, v.s.jobids, b) && PlacedHere(|before|, b) && b.open.jobs == []
    ensures var r := Finish(v, col, |before|, b); r.Ok? && Paged(v, size, col, before, r.value)
  {
    hide PageOk, OpenOk;
    var r := Finish(v, col, |before|, b).value;
    SameLengths(b.pages, r, |before|);
    forall i | |before| <= i < |r| ensures PageOk(v, size, col, r[i], i) {
      PageOkFields(v, size, col, b.pages[i], r[i], i);
    }
    forall i | 0 <= i < |before| ensures r[i] == before[i].(last := r[i].last) {
      assert b.pages[i] == b.pages[..|before|][i];
    }
    forall j | j in v.s.jobids && j.Job? ensures exists i: nat :: |before| <= i && OnPage(r, i, j) {
      assert OnPage(r, b.placed[j], j);
    }
  }

  lemma FinishPage(v: View, size: nat, col: nat, before: seq<Page>, b: Book)
    requires v.Valid() && RunOk(v, size, col, before, v.s.jobids, b) && PlacedHere(|before|, b) && b.open.jobs != []
    ensures var r := Finish(v, col, |before|, b); r.Ok? && Paged(v, size, col, before, r.value)
  {
    hide View.Valid, PageOk, OpenOk, PagesOk, Conclude, Chained;
    ConcludeKeeps(v, size, col, before, b, true);
    var r := Finish(v, col, |before|, b).value;
    forall i | 0 <= i < |before| ensures r[i] == before[i].(last := r[i].last) {
      assert r[i] == r[..|before|][i];
    }
    forall j | j in v.s.jobids && j.Job? ensures exists i: nat :: |before| <= i && OnPage(r, i, j) {
      if j in b.open.jobs {
        assert OnPage(r, |b.pages|, j);
      } else {
        assert OnPage(r, b.placed[j], j);
      }
    }
  }

  /** For every program the pager accepts: every new page carries its own number, holds exactly the
      tokens of its jobs and of its sorted labels, records its exact length, fits in `size` bytes and
      announces its successor's length; every ordinary job is on one of them; and earlier labels'
      pages keep everything but possibly their last-page flag. */
  lemma PagifyLaws(v: View, ranks: Ranks, size: nat, col: nat, before: seq<Page>)
    requires Ready(v, ranks)
    ensures var r := Pagify(v, ranks, size, col, before); r.Ok? ==> Paged(v, size, col, before, r.value)
  {
    hide View.Valid, Ready, RunOk, PlaceAll, Finish, Paged;
    ReadyValid(v, ranks);
    IdsKnown(v);
    var start := Book(before, map[], EMPTY);
    StartRun(v, size, col, before);
    PlaceAllRun(v, ranks, size, col, before, [], start, v.s.jobids);
    assert PlacedHere(|before|, start);
    PlaceAllHere(v, ranks, size, col, |before|, start, v.s.jobids);
    assert [] + v.s.jobids == v.s.jobids;
    var b := PlaceAll(v, ranks, size, col, |before|, start, v.s.jobids);
    if b.Ok? {
      if b.value.open.jobs == [] {
        FinishFlag(v, size, col, before, b.value);
      } else {
        FinishPage(v, size, col, before, b.value);
      }
    }
  }
}
