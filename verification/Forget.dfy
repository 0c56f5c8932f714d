/** What the tables of multi-entry `apply_offset_57` change: the pager on a launch-free program and on the
    same program with its tables forgotten. */
module Forget {
  import opened Base
  import opened Program
  import opened Structure
  import opened View
  import opened Jobs
  import opened Labels
  import opened Pages
  import opened PageLaws
  import opened Partition
  import opened SharedLabels
  import opened Acceptance

  /** The same program, its tables unknown. */
  function Forgotten(v: View): View {
    v.(dependents := map[])
  }

  /** Every label a job uses, as part of a table or otherwise, some mate of it refers to outside any table. */
  ghost predicate TablesAddNothing(v: View) {
    forall j, l :: j in v.s.jobs && j.Job? && Uses(v, j, l) ==> ClassUses(Forgotten(v), j, l)
  }

  lemma ForgottenReady(v: View, ranks: Ranks)
    requires Ready(v, ranks)
    ensures Ready(Forgotten(v), ranks)
  {
    ForgottenGraphs(v);
    hide JobsOk, EofOk, LabelsOk, LabelsOf, RefsIn;
  }

  lemma ForgottenGraphs(v: View)
    ensures GraphOf(Forgotten(v)) == GraphOf(v)
    ensures LabelsOf(Forgotten(v)).toks == LabelsOf(v).toks && LabelsOf(Forgotten(v)).pads == LabelsOf(v).pads == v.pads
  {
    var w := Forgotten(v);
    assert forall l :: l in v.s.labels ==> w.LabelToks(l) == v.LabelToks(l);
  }

  // ---------- everything but the tables is the same ----------

  lemma ForgottenParts(v: View, j: JobId, l: Name)
    ensures Forgotten(v).JobToks(j) == v.JobToks(j) && Forgotten(v).JobSize(j) == v.JobSize(j)
    ensures Forgotten(v).LabelToks(l) == v.LabelToks(l) && Forgotten(v).LabelSize(l) == v.LabelSize(l)
    ensures Forgotten(v).AlignOf(l) == v.AlignOf(l)
  {}

  lemma {:induction false} ForgottenJobs(v: View, jobs: seq<JobId>)
    ensures JobsToks(Forgotten(v), jobs) == JobsToks(v, jobs) && JobsSize(Forgotten(v), jobs) == JobsSize(v, jobs)
  {
    hide View.JobToks, View.JobSize;
    if jobs != [] {
      ForgottenParts(v, jobs[0], 0);
      ForgottenJobs(v, jobs[1..]);
    }
  }

  lemma {:induction false} ForgottenLabels(v: View, labels: seq<Name>)
    ensures LabelsToks(Forgotten(v), labels) == LabelsToks(v, labels)
      && LabelsSize(Forgotten(v), labels) == LabelsSize(v, labels)
    ensures forall a :: WithAlign(Forgotten(v), labels, a) == WithAlign(v, labels, a)
    ensures DataSize(Forgotten(v), labels) == DataSize(v, labels)
  {
    hide View.LabelToks, View.LabelSize, View.AlignOf;
    if labels != [] {
      ForgottenParts(v, Job(0), labels[0]);
      ForgottenLabels(v, labels[1..]);
    }
  }

  lemma ForgottenReached(v: View, refs: seq<Name>, m: Name)
    ensures Reached(LabelsOf(Forgotten(v)), refs, m) <==> Reached(LabelsOf(v), refs, m)
  {
    ForgottenGraphs(v);
    hide LabelsOf, RefsIn;
    var g, h := LabelsOf(v), LabelsOf(Forgotten(v));
    if p :| RefPath(g, p, refs, m) {
      assert RefPath(h, p, refs, m);
    }
    if p :| RefPath(h, p, refs, m) {
      assert RefPath(g, p, refs, m);
    }
  }

  /** Forgetting tables can only take labels away. */
  lemma UsesLess(v: View, j: JobId, l: Name)
    requires Uses(Forgotten(v), j, l)
    ensures Uses(v, j, l)
  {
    hide Reached, RefsIn, View.JobToks;
    ForgottenParts(v, j, l);
    var w := Forgotten(v);
    var m :| Reached(LabelsOf(w), RefsIn(w.JobToks(j), w.pads), m) && Pulled(LabelsOf(w), m, l);
    ForgottenReached(v, RefsIn(v.JobToks(j), v.pads), m);
    assert Pulled(LabelsOf(v), m, l);
  }

  lemma ClassUsesLess(v: View, j: JobId, l: Name)
    requires ClassUses(Forgotten(v), j, l)
    ensures ClassUses(v, j, l)
  {
    hide Uses, Mates;
    ForgottenGraphs(v);
    var k :| Mates(GraphOf(v), j, k) && Uses(Forgotten(v), k, l);
    UsesLess(v, k, l);
  }

  /** When tables add nothing, classes use the same labels with and without them. */
  lemma SameClassUses(v: View, j: JobId, l: Name)
    requires v.Valid() && TablesAddNothing(v) && j in v.s.jobs && j.Job?
    ensures ClassUses(v, j, l) <==> ClassUses(Forgotten(v), j, l)
  {
    hide Uses, Mates, View.Valid, ClassUses;
    if ClassUses(Forgotten(v), j, l) {
      ClassUsesLess(v, j, l);
    }
    if ClassUses(v, j, l) {
      var k := ClassUser(v, j, l);
      MateOrdinary(v, j, k);
      ForgottenGraphs(v);
      ClassMoves(Forgotten(v), j, k, l);
    }
  }

  lemma ClassUser(v: View, j: JobId, l: Name) returns (k: JobId)
    requires ClassUses(v, j, l)
    ensures Mates(GraphOf(v), j, k) && Uses(v, k, l)
  {
    hide Mates, Uses;
    k :| Mates(GraphOf(v), j, k) && Uses(v, k, l);
  }

  lemma ClassMoves(v: View, j: JobId, k: JobId, l: Name)
    requires Mates(GraphOf(v), j, k) && ClassUses(v, k, l)
    ensures ClassUses(v, j, l)
  {
    hide Mates, Uses;
    var x :| Mates(GraphOf(v), k, x) && Uses(v, x, l);
    MatesTransitive(GraphOf(v), j, k, x);
  }

  // ---------- groups ----------

  lemma {:induction false} Removed(v: View, a: seq<Name>, b: seq<Name>)
    requires NoDup(a) && NoDup(b) && forall l :: l in a ==> l in b
    ensures LabelsSize(v, a) <= LabelsSize(v, b)
    decreases |a|
  {
    hide View.LabelSize, View.LabelToks;
    if a != [] {
      var x, rest := a[0], a[1..];
      assert a == [x] + rest && x in a;
      var i := SplitAt(b, x);
      var c := b[..i] + b[i + 1..];
      WithoutOne(b, i);
      forall l | l in rest ensures l in c {
        assert l in a && l != x;
      }
      Removed(v, rest, c);
      LabelsAppend(v, b[..i], [x] + b[i + 1..]);
      LabelsAppend(v, [x], b[i + 1..]);
      LabelsAppend(v, b[..i], b[i + 1..]);
      LabelsAppend(v, [x], rest);
    }
  }

  lemma WithoutOne<T>(b: seq<T>, i: nat)
    requires NoDup(b) && i < |b|
    ensures NoDup(b[..i] + b[i + 1..]) && forall x :: x in b && x != b[i] ==> x in b[..i] + b[i + 1..]
  {
    var c := b[..i] + b[i + 1..];
    assert b == b[..i] + [b[i]] + b[i + 1..];
    assert forall k :: 0 <= k < |c| ==> c[k] == b[if k < i then k else k + 1];
  }

  lemma FormableLess(v: View, j: JobId)
    requires Formable(v, j)
    ensures Formable(Forgotten(v), j)
  {
    hide Mates, Reached, RefsIn, View.JobToks, View.AlignOf, ClassUses;
    var w := Forgotten(v);
    ForgottenGraphs(v);
    forall k, m | Mates(GraphOf(w), j, k) && Reached(LabelsOf(w), RefsIn(w.JobToks(k), w.pads), m)
      ensures m in w.s.labels {
      ForgottenParts(v, k, 0);
      ForgottenReached(v, RefsIn(v.JobToks(k), v.pads), m);
    }
    forall l | ClassUses(w, j, l) ensures w.AlignOf(l).Some? {
      ClassUsesLess(v, j, l);
      ForgottenParts(v, j, l);
    }
  }

  lemma FormableSame(v: View, j: JobId)
    requires v.Valid() && TablesAddNothing(v) && j in v.s.jobs && j.Job? && Formable(Forgotten(v), j)
    ensures Formable(v, j)
  {
    hide Mates, Reached, RefsIn, View.JobToks, View.AlignOf, ClassUses, View.Valid, TablesAddNothing;
    var w := Forgotten(v);
    ForgottenGraphs(v);
    forall k, m | Mates(GraphOf(v), j, k) && Reached(LabelsOf(v), RefsIn(v.JobToks(k), v.pads), m)
      ensures m in v.s.labels {
      ForgottenParts(v, k, 0);
      ForgottenReached(v, RefsIn(v.JobToks(k), v.pads), m);
    }
    forall l | ClassUses(v, j, l) ensures v.AlignOf(l).Some? {
      SameClassUses(v, j, l);
      ForgottenParts(v, j, l);
    }
    forall k ensures !Torn(GraphOf(v), j, k) {
      assert !Torn(GraphOf(w), j, k);
    }
  }

  /** Two groups with the same jobs and sizes, and the same labels in some order. */
  ghost predicate Alike(a: Group, b: Group) {
    && a.jobs == b.jobs && a.externals == b.externals && a.tsize == b.tsize && a.dsize == b.dsize
    && multiset(a.labels) == multiset(b.labels)
  }

  /** What both groups of a job share, whatever its tables. */
  lemma GroupsCompare(v: View, ranks: Ranks, j: JobId)
    requires Ready(v, ranks) && NoLaunch(v) && j in v.s.jobs && j.Job? && GroupOf(v, ranks, j).Ok?
    ensures Ready(Forgotten(v), ranks) && GroupOf(Forgotten(v), ranks, j).Ok?
    ensures var a, b := GroupOf(v, ranks, j).value, GroupOf(Forgotten(v), ranks, j).value;
      && a.jobs == b.jobs && a.externals == b.externals && a.tsize == b.tsize && b.dsize <= a.dsize
      && NoDup(a.labels) && NoDup(b.labels) && a.dsize == LabelsSize(v, a.labels) && b.dsize == LabelsSize(v, b.labels)
      && (forall l :: l in a.labels <==> ClassUses(v, j, l))
        && (forall l :: l in b.labels <==> ClassUses(Forgotten(v), j, l))
  {
    hide Ready, View.Valid, GroupOf, Formable, NoLaunch, ClassUses, Mates, GroupFacts, JobsSize, LabelsSize, JobsToks,
      ExternalsFrom;
    var w := Forgotten(v);
    ForgottenReady(v, ranks);
    SameNoLaunch(v);
    GroupFormable(v, ranks, j);
    FormableLess(v, j);
    GroupFormable(w, ranks, j);
    GroupHolds(v, ranks, j);
    GroupHolds(w, ranks, j);
    var a, b := GroupOf(v, ranks, j).value, GroupOf(w, ranks, j).value;
    GroupParts(v, j, a);
    GroupParts(w, j, b);
    SameGroupJobs(v, ranks, j);
    ForgottenJobs(v, a.jobs);
    ForgottenLabels(v, b.labels);
    GroupExternals(v, j, a);
    GroupExternals(w, j, b);
    forall l | l in b.labels ensures l in a.labels {
      ClassUsesLess(v, j, l);
    }
    Removed(v, b.labels, a.labels);
  }

  lemma SameNoLaunch(v: View)
    ensures NoLaunch(Forgotten(v)) <==> NoLaunch(v)
  {}

  lemma GroupExternals(v: View, j: JobId, g: Group)
    requires GroupFacts(v, j, g)
    ensures g.externals == ExternalsFrom(JobsToks(v, g.jobs), [])
  {
    hide GroupJobs, GroupLabels, JobsToks, JobsSize, LabelsSize, ExternalsFrom;
  }

  lemma SameGroupJobs(v: View, ranks: Ranks, j: JobId)
    requires Ready(v, ranks) && Ready(Forgotten(v), ranks) && j in v.s.jobs
    requires GroupOf(v, ranks, j).Ok? && GroupOf(Forgotten(v), ranks, j).Ok?
    ensures GroupOf(v, ranks, j).value.jobs == GroupOf(Forgotten(v), ranks, j).value.jobs
  {
    hide Ready, View.Valid, Extract, FromLines, JobsToks, RefsIn, JobsSize, ExternalsFrom, LabelsOf, Acyclic, Ranked,
      Below, Jobs.Graph.Valid;
    ForgottenGraphs(v);
    ReadyParts(v, ranks);
    ReadyParts(Forgotten(v), ranks);
  }

  /** A group that fits still fits without tables. */
  lemma FitsLess(v: View, ranks: Ranks, size: nat, j: JobId)
    requires Ready(v, ranks) && NoLaunch(v) && j in v.s.jobs && j.Job? && Fits(v, ranks, size, j)
    ensures Ready(Forgotten(v), ranks) && Fits(Forgotten(v), ranks, size, j)
  {
    hide Ready, GroupOf, NoLaunch, ClassUses, LabelsSize, Aligner;
    GroupsCompare(v, ranks, j);
  }

  /** Where tables add nothing, a job's groups are alike. */
  lemma GroupsAlike(v: View, ranks: Ranks, j: JobId)
    requires Ready(v, ranks) && NoLaunch(v) && TablesAddNothing(v) && j in v.s.jobs && j.Job?
    ensures Ready(Forgotten(v), ranks)
    ensures var a, b := GroupOf(v, ranks, j), GroupOf(Forgotten(v), ranks, j);
      a.Ok? == b.Ok? && (a.Ok? ==> Alike(a.value, b.value))
  {
    hide Ready, View.Valid, GroupOf, NoLaunch, ClassUses, LabelsSize, Formable, TablesAddNothing;
    var w := Forgotten(v);
    ForgottenReady(v, ranks);
    ReadyValid(v, ranks);
    SameNoLaunch(v);
    GroupFormable(v, ranks, j);
    GroupFormable(w, ranks, j);
    if GroupOf(w, ranks, j).Ok? {
      FormableSame(v, j);
    }
    if GroupOf(v, ranks, j).Ok? {
      GroupsCompare(v, ranks, j);
      forall l ensures ClassUses(v, j, l) <==> ClassUses(w, j, l) {
        SameClassUses(v, j, l);
      }
      var a, b := GroupOf(v, ranks, j).value, GroupOf(w, ranks, j).value;
      SameElements(a.labels, b.labels);
      SameLabelsSize(v, a.labels, b.labels);
    }
  }

  // ---------- the run ----------

  ghost predicate AlikePage(p: Page, q: Page) {
    && p.num == q.num && p.curLen == q.curLen && p.nextLen == q.nextLen && p.externals == q.externals
      && p.jobs == q.jobs
    && p.last == q.last && multiset(p.labels) == multiset(q.labels)
  }

  ghost predicate AlikePages(a: seq<Page>, b: seq<Page>, base: nat) {
    |a| == |b| && forall i :: base <= i < |a| ==> AlikePage(a[i], b[i])
  }

  ghost predicate AlikeBook(a: Book, b: Book, base: nat) {
    AlikePages(a.pages, b.pages, base) && a.placed == b.placed && Alike(a.open, b.open)
  }

  lemma AlikeMade(v: View, col: nat, num: nat, a: Group, b: Group, last: bool)
    requires EofJob in v.s.jobs && v.s.jobs[EofJob].first < |v.toks| && Alike(a, b) && Aligned(v, a.labels)
      && Aligned(Forgotten(v), b.labels)
    ensures AlikePage(MakePage(v, col, num, a, last), MakePage(Forgotten(v), col, num, b, last))
  {
    hide RoundUp4, JobsToks, LabelsToks, Sorted, Aligner, View.AlignOf;
    AlignValues(v, a.labels);
    AlignValues(Forgotten(v), b.labels);
    SortedFacts(v, a.labels);
    SortedFacts(Forgotten(v), b.labels);
  }

  lemma AlikePush(a: seq<Page>, b: seq<Page>, base: nat, p: Page, q: Page)
    requires AlikePages(a, b, base) && AlikePage(p, q)
    ensures AlikePages(Push(a, p, base), Push(b, q, base), base)
  {}

  lemma AlikeConclude(v: View, col: nat, base: nat, a: Book, b: Book, last: bool)
    requires v.Valid() && AlikeBook(a, b, base) && a.open.jobs != [] && a.open.jobs[0].Job?
    requires Aligned(v, a.open.labels) && Aligned(Forgotten(v), b.open.labels)
    ensures var x, y := Conclude(v, col, base, a, last), Conclude(Forgotten(v), col, base, b, last);
      x.Ok? && y.Ok? && AlikeBook(x.value, y.value, base)
  {
    hide View.Valid, AlikePages, MakePage, Push, Aligned;
    EofToken(v);
    SameCount(a, b, base);
    AlikeMade(v, col, |a.pages|, a.open, b.open, last);
    AlikePush(a.pages, b.pages, base, MakePage(v, col, |a.pages|, a.open, last),
      MakePage(Forgotten(v), col, |a.pages|, b.open, last));
  }

  lemma SameCount(a: Book, b: Book, base: nat)
    requires AlikeBook(a, b, base)
    ensures |a.pages| == |b.pages|
  {}

  lemma AlikeJoin(a: Group, b: Group, g: Group, h: Group)
    requires Alike(a, b) && Alike(g, h)
    ensures Alike(Pages.Join(a, g), Pages.Join(b, h))
  {}

  lemma AlikeRoom(v: View, size: nat, col: nat, base: nat, a: Book, b: Book, g: Group, h: Group)
    requires v.Valid() && AlikeBook(a, b, base) && Alike(g, h) && (a.open.jobs != [] ==> a.open.jobs[0].Job?)
    requires (a.open.jobs == [] ==> a.open == EMPTY && b.open == EMPTY)
    requires Aligned(v, a.open.labels) && Aligned(Forgotten(v), b.open.labels)
    ensures var x, y := MakeRoom(v, size, col, base, a, g), MakeRoom(Forgotten(v), size, col, base, b, h);
      x.Ok? && y.Ok? && AlikeBook(x.value, y.value, base)
  {
    hide View.Valid, Conclude, Footprint, Aligned, AlikePages;
    if a.open.jobs != [] {
      AlikeConclude(v, col, base, a, b, false);
    } else {
      ConcludeNothing(v, col, base, a);
      ConcludeNothing(Forgotten(v), col, base, b);
    }
  }

  /** The open page of a run that keeps the invariants. */
  lemma OpenFacts(v: View, size: nat, col: nat, before: seq<Page>, k: nat, b: Book)
    requires k <= |v.s.jobids| && LoopOk(v, size, col, before, k, b)
    ensures Aligned(v, b.open.labels) && (b.open.jobs != [] ==> b.open.jobs[0].Job?)
      && (b.open.jobs == [] ==> b.open == EMPTY)
  {
    hide PlacedOk, Covered, PartOk, BookTallied, PagesOk, Chained, NoneLast, Aligned, JobsSize, LabelsSize, Footprint;
    assert b.open.jobs != [] ==> b.open.jobs[0] in b.open.jobs;
  }

  lemma AlikePlace(v: View, ranks: Ranks, size: nat, col: nat, before: seq<Page>, k: nat, a: Book, b: Book, j: JobId)
    requires Ready(v, ranks) && Ready(Forgotten(v), ranks) && NoLaunch(v) && TablesAddNothing(v) && k <= |v.s.jobids|
      && j in v.s.jobs
    requires LoopOk(v, size, col, before, k, a) && LoopOk(Forgotten(v), size, col, before, k, b)
      && AlikeBook(a, b, |before|)
    ensures var x, y := Place(v, ranks, size, col, |before|, a, j),
      Place(Forgotten(v), ranks, size, col, |before|, b, j);
      x.Ok? == y.Ok? && (x.Ok? ==> AlikeBook(x.value, y.value, |before|))
  {
    hide Ready, View.Valid, NoLaunch, TablesAddNothing, LoopOk, GroupOf, Conclude, Footprint, Aligned, AlikePages,
      MakeRoom;
    ReadyValid(v, ranks);
    OpenFacts(v, size, col, before, k, a);
    OpenFacts(Forgotten(v), size, col, before, k, b);
    if j.EopJob? && a.open.jobs != [] {
      AlikeConclude(v, col, |before|, a, b, false);
    }
    if j.Job? {
      GroupsAlike(v, ranks, j);
      var g, h := GroupOf(v, ranks, j), GroupOf(Forgotten(v), ranks, j);
      if g.Ok? {
        AlikeRoom(v, size, col, |before|, a, b, g.value, h.value);
        AlikeJoin(MakeRoom(v, size, col, |before|, a, g.value).value.open,
          MakeRoom(Forgotten(v), size, col, |before|, b, h.value).value.open,
                  g.value, h.value);
      }
    }
  }

  lemma {:induction false} AlikeRun(v: View, ranks: Ranks, size: nat, col: nat, before: seq<Page>, k: nat, a: Book,
                                    b: Book)
    requires Ready(v, ranks) && Ready(Forgotten(v), ranks) && NoLaunch(v) && TablesAddNothing(v) && k <= |v.s.jobids|
    requires forall j :: j in v.s.jobids[k..] ==> j in v.s.jobs
    requires LoopOk(v, size, col, before, k, a) && LoopOk(Forgotten(v), size, col, before, k, b)
      && AlikeBook(a, b, |before|)
    ensures var x, y := PlaceAll(v, ranks, size, col, |before|, a, v.s.jobids[k..]),
      PlaceAll(Forgotten(v), ranks, size, col, |before|, b, v.s.jobids[k..]);
      && x.Ok? == y.Ok?
      && (x.Ok? ==> AlikeBook(x.value, y.value, |before|) && LoopOk(v, size, col, before, |v.s.jobids|, x.value)
                    && LoopOk(Forgotten(v), size, col, before, |v.s.jobids|, y.value))
    decreases |v.s.jobids| - k
  {
    hide Ready, View.Valid, NoLaunch, TablesAddNothing, LoopOk, Place, AlikeBook;
    var w, ids := Forgotten(v), v.s.jobids;
    SameNoLaunch(v);
    if k < |ids| {
      LoopKeeps(v, ranks, size, col, before, k, a);
      LoopKeeps(w, ranks, size, col, before, k, b);
      AlikePlace(v, ranks, size, col, before, k, a, b, ids[k]);
      assert ids[k..][0] == ids[k] && ids[k..][1..] == ids[k + 1..];
      var x, y := Place(v, ranks, size, col, |before|, a, ids[k]), Place(w, ranks, size, col, |before|, b, ids[k]);
      if x.Ok? {
        AlikeRun(v, ranks, size, col, before, k + 1, x.value, y.value);
      }
    } else {
      assert ids[k..] == [];
    }
  }

  lemma AlikeFinish(v: View, size: nat, col: nat, before: seq<Page>, k: nat, a: Book, b: Book)
    requires v.Valid() && k <= |v.s.jobids| && LoopOk(v, size, col, before, k, a)
      && LoopOk(Forgotten(v), size, col, before, k, b)
    requires AlikeBook(a, b, |before|)
    ensures var x, y := Finish(v, col, |before|, a), Finish(Forgotten(v), col, |before|, b);
      x.Ok? && y.Ok? && AlikePages(x.value, y.value, |before|)
  {
    hide View.Valid, LoopOk, Conclude, Aligned;
    OpenFacts(v, size, col, before, k, a);
    OpenFacts(Forgotten(v), size, col, before, k, b);
    if a.open.jobs != [] {
      AlikeConclude(v, col, |before|, a, b, true);
    }
  }

  /** When tables add nothing, forgetting them changes nothing but the order of labels. */
  lemma ForgettingAlike(v: View, ranks: Ranks, size: nat, col: nat, before: seq<Page>)
    requires Ready(v, ranks) && NoLaunch(v) && TablesAddNothing(v)
    ensures Ready(Forgotten(v), ranks)
    ensures var x, y := Pagify(v, ranks, size, col, before), Pagify(Forgotten(v), ranks, size, col, before);
      x.Ok? == y.Ok? && (x.Ok? ==> AlikePages(x.value, y.value, |before|))
  {
    hide Ready, View.Valid, NoLaunch, TablesAddNothing, LoopOk, PlaceAll, Finish, AlikePages;
    var w, start, ids := Forgotten(v), Book(before, map[], EMPTY), v.s.jobids;
    ForgottenReady(v, ranks);
    ReadyValid(v, ranks);
    ReadyValid(w, ranks);
    IdsKnown(v);
    LoopStarts(v, size, col, before);
    LoopStarts(w, size, col, before);
    NothingDiffers(before);
    assert ids[0..] == ids;
    AlikeRun(v, ranks, size, col, before, 0, start, start);
    var x, y := PlaceAll(v, ranks, size, col, |before|, start, ids),
      PlaceAll(w, ranks, size, col, |before|, start, ids);
    if x.Ok? {
      AlikeFinish(v, size, col, before, |ids|, x.value, y.value);
    }
  }

  lemma NothingDiffers(before: seq<Page>)
    ensures AlikePages(before, before, |before|)
  {}

  // ---------- and otherwise it does ----------

  lemma SameCard<T>(a: set<T>, b: set<T>)
    requires a <= b && |a| == |b|
    ensures a == b
  {
    assert |b - a| == |b| - |a|;
  }

  lemma HeadsLess(v: View, jobs: seq<JobId>, l: Name)
    ensures Heads(Forgotten(v), jobs, l) <= Heads(v, jobs, l)
  {
    hide ClassUses, Mates;
    ForgottenGraphs(v);
    forall j | ClassUses(Forgotten(v), j, l) ensures ClassUses(v, j, l) {
      ClassUsesLess(v, j, l);
    }
    forall j ensures Leads(Forgotten(v), jobs, j) <==> Leads(v, jobs, j) {
      SameLeads(v, jobs, j);
    }
  }

  lemma SameLeads(v: View, jobs: seq<JobId>, j: JobId)
    ensures Leads(Forgotten(v), jobs, j) <==> Leads(v, jobs, j)
  {
    hide Mates;
    ForgottenGraphs(v);
    if i :| 0 <= i < |jobs| && jobs[i] == j && Head(v, jobs, i) {
      assert Head(Forgotten(v), jobs, i);
    }
    if i :| 0 <= i < |jobs| && jobs[i] == j && Head(Forgotten(v), jobs, i) {
      assert Head(v, jobs, i);
    }
  }

  /** On a page that is the same with and without tables, tables add nothing. */
  lemma SamePageUses(v: View, jobs: seq<JobId>, labels: seq<Name>, labels': seq<Name>, j: JobId, l: Name)
    requires Tallied(v, jobs, labels) && Tallied(Forgotten(v), jobs, labels') && multiset(labels) == multiset(labels')
    requires j in jobs && j in v.s.jobs && Uses(v, j, l)
    ensures ClassUses(Forgotten(v), j, l)
  {
    hide Uses, Mates, Head, ClassUses, Heads;
    var w := Forgotten(v);
    HeadsLess(v, jobs, l);
    SameCard(Heads(w, jobs, l), Heads(v, jobs, l));
    var i :| 0 <= i < |jobs| && jobs[i] == j;
    var h := FirstMate(v, jobs, i);
    UsesOfClass(v, jobs[h], j, l);
    InHeads(v, jobs, h, l);
    HeadsUse(w, jobs, jobs[h], l);
    MatesSymmetric(GraphOf(v), jobs[h], j);
    ForgottenGraphs(v);
    ClassMoves(w, j, jobs[h], l);
  }

  lemma InHeads(v: View, jobs: seq<JobId>, i: nat, l: Name)
    requires i < |jobs| && Head(v, jobs, i) && ClassUses(v, jobs[i], l)
    ensures jobs[i] in Heads(v, jobs, l)
  {
    hide Head, ClassUses;
  }

  lemma HeadsUse(v: View, jobs: seq<JobId>, j: JobId, l: Name)
    requires j in Heads(v, jobs, l)
    ensures ClassUses(v, j, l)
  {
    hide Leads, ClassUses;
  }

  /** Pages that are alike with and without tables mean that tables add nothing. */
  lemma AlikeMeansNothing(v: View, ranks: Ranks, size: nat, col: nat, before: seq<Page>)
    requires Ready(v, ranks) && NoLaunch(v) && Ready(Forgotten(v), ranks)
    requires Pagify(v, ranks, size, col, before).Ok? && Pagify(Forgotten(v), ranks, size, col, before).Ok?
    requires AlikePages(Pagify(v, ranks, size, col, before).value, Pagify(Forgotten(v), ranks, size, col, before).value,
      |before|)
    ensures TablesAddNothing(v)
  {
    hide Ready, View.Valid, NoLaunch, Pagify, Tallied, Uses, PagesOk, Chained, ClassUses;
    var w := Forgotten(v);
    SameNoLaunch(v);
    ReadyValid(v, ranks);
    KnownIds(v);
    PagifyLaws(v, ranks, size, col, before);
    PagifyTallied(v, ranks, size, col, before);
    PagifyTallied(w, ranks, size, col, before);
    var x, y := Pagify(v, ranks, size, col, before).value, Pagify(w, ranks, size, col, before).value;
    forall j, l | j in v.s.jobs && j.Job? && Uses(v, j, l) ensures ClassUses(w, j, l) {
      var i: nat :| |before| <= i && OnPage(x, i, j);
      assert AlikePage(x[i], y[i]);
      SamePageUses(v, x[i].jobs, x[i].labels, y[i].labels, j, l);
    }
  }

  /** What forgetting the tables of a launch-free program does: no accepted program is refused, and the pages
      stay the same up to the order of labels if and only if the tables add nothing. */
  lemma Forgetting(v: View, ranks: Ranks, size: nat, col: nat, before: seq<Page>)
    requires Ready(v, ranks) && NoLaunch(v)
    ensures Ready(Forgotten(v), ranks)
    ensures var x, y := Pagify(v, ranks, size, col, before), Pagify(Forgotten(v), ranks, size, col, before);
      && (x.Ok? ==> y.Ok?)
      && (TablesAddNothing(v) ==> x.Ok? == y.Ok?)
      && (x.Ok? && y.Ok? ==> (AlikePages(x.value, y.value, |before|) <==> TablesAddNothing(v)))
  {
    hide Ready, NoLaunch, Pagify, TablesAddNothing, AlikePages, Fits;
    var w := Forgotten(v);
    ForgottenReady(v, ranks);
    SameNoLaunch(v);
    PagifyAccepts(v, ranks, size, col, before);
    PagifyAccepts(w, ranks, size, col, before);
    if AllFit(v, ranks, size) {
      forall j | j in w.s.jobs && j.Job? ensures Fits(w, ranks, size, j) {
        FitsLess(v, ranks, size, j);
      }
    }
    if TablesAddNothing(v) {
      ForgettingAlike(v, ranks, size, col, before);
    }
    var x, y := Pagify(v, ranks, size, col, before), Pagify(w, ranks, size, col, before);
    if x.Ok? && y.Ok? && AlikePages(x.value, y.value, |before|) {
      AlikeMeansNothing(v, ranks, size, col, before);
    }
  }
}
