/** Every page defines the labels its own tokens use. */
module Closure {
  import opened Base
  import opened Isa
  import opened Program
  import opened Structure
  import opened View
  import opened Labels
  import opened Pages
  import opened PageLaws

  /** Dependent labels of a multi-entry `apply_offset_57` hold plain data: no references. */
  ghost predicate PlainDependents(v: View) {
    forall l, d :: l in v.dependents && d in v.dependents[l] ==> RefsIn(v.LabelToks(d), v.pads) == []
  }

  ghost predicate RefsInside(toks: seq<Token>, pads: set<Name>, labels: seq<Name>) {
    forall l :: l in RefsIn(toks, pads) ==> l in labels
  }

  /** What the tokens and the labels refer to is among the labels. */
  ghost predicate Closed(v: View, toks: seq<Token>, labels: seq<Name>) {
    RefsInside(toks, v.pads, labels) && forall l :: l in labels ==> RefsInside(v.LabelToks(l), v.pads, labels)
  }

  lemma {:induction false} RefsAppend(a: seq<Token>, b: seq<Token>, pads: set<Name>)
    ensures RefsIn(a + b, pads) == RefsIn(a, pads) + RefsIn(b, pads)
  {
    if a == [] {
      assert a + b == b;
    } else {
      assert (a + b)[1..] == a[1..] + b;
      RefsAppend(a[1..], b, pads);
    }
  }

  lemma ReachedFirst(g: LabelGraph, refs: seq<Name>, l: Name)
    requires l in refs
    ensures Reached(g, refs, l)
  {
    assert RefPath(g, [l], refs, l);
  }

  lemma ReachedNext(g: LabelGraph, refs: seq<Name>, m: Name, l: Name)
    requires Reached(g, refs, m) && m in g.toks && l in RefsIn(g.toks[m], g.pads)
    ensures Reached(g, refs, l)
  {
    var p :| RefPath(g, p, refs, m);
    assert RefPath(g, p + [l], refs, l);
  }

  lemma GroupClosed(v: View, toks: seq<Token>, labels: seq<Name>)
    requires PlainDependents(v) && GroupLabels(v, toks, labels)
    ensures Closed(v, toks, labels)
  {
    var g, refs := LabelsOf(v), RefsIn(toks, v.pads);
    hide Reached, RefsIn;
    forall l | l in refs ensures l in labels {
      ReachedFirst(g, refs, l);
    }
    forall l, r | l in labels && r in RefsIn(v.LabelToks(l), v.pads) ensures r in labels {
      var m :| Reached(g, refs, m) && Pulled(g, m, l);
      if l == m {
        ReachedNext(g, refs, m, r);
      }
    }
  }

  lemma ClosedJoin(v: View, a: Group, b: Group)
    requires Closed(v, JobsToks(v, a.jobs), a.labels) && Closed(v, JobsToks(v, b.jobs), b.labels)
    ensures Closed(v, JobsToks(v, a.jobs + b.jobs), a.labels + b.labels)
  {
    JobsAppend(v, a.jobs, b.jobs);
    RefsAppend(JobsToks(v, a.jobs), JobsToks(v, b.jobs), v.pads);
    hide JobsToks, RefsIn;
  }

  /** Every label used by the text or the data of a page is defined on that page. */
  ghost predicate SelfContained(v: View, p: Page) {
    RefsInside(p.text + p.data, v.pads, p.labels)
  }

  lemma {:induction false} LabelsClosed(v: View, ls: seq<Name>, labels: seq<Name>)
    requires forall l :: l in ls ==> RefsInside(v.LabelToks(l), v.pads, labels)
    ensures RefsInside(LabelsToks(v, ls), v.pads, labels)
  {
    if ls != [] {
      LabelsClosed(v, ls[1..], labels);
      RefsAppend(v.LabelToks(ls[0]), LabelsToks(v, ls[1..]), v.pads);
    }
  }

  lemma PlainText(tail: seq<Token>, pads: set<Name>)
    requires tail == [EOF] || tail == [EOF] + [Align(16)]
    ensures RefsIn(tail, pads) == []
  {
    assert [Align(16)][1..] == [] && [EOF][1..] == [];
    assert RefsIn([EOF], pads) == [] && RefsIn([Align(16)], pads) == [];
    RefsAppend([EOF], [Align(16)], pads);
  }

  lemma MadeClosed(v: View, size: nat, col: nat, num: nat, g: Group, last: bool)
    requires v.Valid() && OpenOk(v, size, g) && g.jobs != [] && EofJob in v.s.jobs && v.s.jobs[EofJob].first < |v.toks|
    requires Closed(v, JobsToks(v, g.jobs), g.labels)
    ensures SelfContained(v, MakePage(v, col, num, g, last))
  {
    hide View.Valid, View.AlignOf, JobsToks, LabelsToks, Aligner, RefsIn, Sorted, RoundUp4;
    EofToken(v);
    var p := MakePage(v, col, num, g, last);
    AlignValues(v, g.labels);
    SortedMembers(v, g.labels);
    LabelsClosed(v, p.labels, p.labels);
    var tail := if TextGap(g) > 0 then [EOF] + [Align(16)] else [EOF];
    assert p.text == JobsToks(v, g.jobs) + tail;
    PlainText(tail, v.pads);
    RefsAppend(JobsToks(v, g.jobs), tail, v.pads);
    RefsAppend(p.text, p.data, v.pads);
  }

  lemma SortedMembers(v: View, labels: seq<Name>)
    requires forall l :: l in labels ==> v.AlignOf(l) in {Some(16), Some(4)}
    ensures forall l :: l in Sorted(v, labels) <==> l in labels
  {
    WithAlignFacts(v, labels, 16);
    WithAlignFacts(v, labels, 4);
  }

  // ---------- the run ----------

  ghost predicate AllContained(v: View, pages: seq<Page>, base: nat) {
    forall i :: base <= i < |pages| ==> SelfContained(v, pages[i])
  }

  ghost predicate BookClosed(v: View, base: nat, b: Book) {
    AllContained(v, b.pages, base) && Closed(v, JobsToks(v, b.open.jobs), b.open.labels)
  }

  lemma ConcludeClosed(v: View, size: nat, col: nat, before: seq<Page>, b: Book, last: bool)
    requires v.Valid() && BookOk(v, size, col, before, b) && BookClosed(v, |before|, b)
    ensures var r := Conclude(v, col, |before|, b, last); r.Ok? ==> BookClosed(v, |before|, r.value)
  {
    hide View.Valid, SelfContained, PagesOk, Chained, NoneLast, AllContained, Closed, MakePage, OpenOk, Push;
    var r := Conclude(v, col, |before|, b, last);
    ClosedNothing(v);
    if r.Ok? && b.open.jobs != [] && b.open.jobs != [EofJob] {
      MadeClosed(v, size, col, |b.pages|, b.open, last);
      PushContained(v, b.pages, MakePage(v, col, |b.pages|, b.open, last), |before|);
    }
  }

  lemma PushContained(v: View, pages: seq<Page>, p: Page, base: nat)
    requires base <= |pages| && AllContained(v, pages, base) && SelfContained(v, p)
    ensures AllContained(v, Push(pages, p, base), base)
  {
    hide SelfContained;
    var q := Push(pages, p, base);
    forall i | base <= i < |q| ensures SelfContained(v, q[i]) {
      if i < |pages| {
        SameContent(v, pages[i], q[i]);
      }
    }
  }

  lemma ClosedNothing(v: View)
    ensures Closed(v, JobsToks(v, []), [])
  {}

  lemma SameContent(v: View, p: Page, q: Page)
    requires SelfContained(v, p) && q.text == p.text && q.data == p.data && q.labels == p.labels
    ensures SelfContained(v, q)
  {}

  lemma PlaceClosed(v: View, ranks: Ranks, size: nat, col: nat, before: seq<Page>, done: seq<JobId>, b: Book, j: JobId)
    requires Ready(v, ranks) && PlainDependents(v) && RunOk(v, size, col, before, done, b) && j in v.s.jobs
    requires BookClosed(v, |before|, b)
    ensures var r := Place(v, ranks, size, col, |before|, b, j); r.Ok? ==> BookClosed(v, |before|, r.value)
  {
    hide View.Valid, Ready, BookOk, PlacedOk, Covered, Conclude, GroupOf, Closed, Footprint, JobsToks, AllContained,
      PlainDependents, GroupJobs, GroupLabels;
    ReadyValid(v, ranks);
    var r := Place(v, ranks, size, col, |before|, b, j);
    if r.Ok? {
      ConcludeClosed(v, size, col, before, b, false);
      if j.Job? && j !in b.placed && j !in b.open.jobs {
        GroupHolds(v, ranks, j);
        var g := GroupOf(v, ranks, j).value;
        GroupClosed(v, JobsToks(v, g.jobs), g.labels);
        ClosedJoin(v, MakeRoom(v, size, col, |before|, b, g).value.open, g);
      }
    }
  }

  lemma {:induction false} PlaceAllClosed(v: View, ranks: Ranks, size: nat, col: nat, before: seq<Page>,
                                          done: seq<JobId>, b: Book, ids: seq<JobId>)
    requires Ready(v, ranks) && PlainDependents(v) && RunOk(v, size, col, before, done, b)
    requires (forall j :: j in ids ==> j in v.s.jobs) && BookClosed(v, |before|, b)
    ensures var r := PlaceAll(v, ranks, size, col, |before|, b, ids); r.Ok? ==> BookClosed(v, |before|, r.value)
    decreases |ids|
  {
    hide View.Valid, Ready, RunOk, Place, BookClosed, PlainDependents;
    if ids != [] {
      PlaceClosed(v, ranks, size, col, before, done, b, ids[0]);
      PlaceRun(v, ranks, size, col, before, done, b, ids[0]);
      var r := Place(v, ranks, size, col, |before|, b, ids[0]);
      if r.Ok? {
        PlaceAllClosed(v, ranks, size, col, before, done + [ids[0]], r.value, ids[1..]);
      }
    }
  }

  lemma FinishClosed(v: View, size: nat, col: nat, before: seq<Page>, b: Book)
    requires v.Valid() && BookOk(v, size, col, before, b) && BookClosed(v, |before|, b)
    ensures var r := Finish(v, col, |before|, b); r.Ok? ==> AllContained(v, r.value, |before|)
  {
    hide View.Valid, BookOk, SelfContained, Closed, Conclude, JobsToks;
    ConcludeClosed(v, size, col, before, b, true);
    if b.open.jobs == [] && |b.pages| > |before| {
      var r := Finish(v, col, |before|, b).value;
      forall i | |before| <= i < |r| ensures SelfContained(v, r[i]) {
        SameContent(v, b.pages[i], r[i]);
      }
    }
  }

  /** Every page the pager makes is self-contained. */
  lemma PagifyContained(v: View, ranks: Ranks, size: nat, col: nat, before: seq<Page>)
    requires Ready(v, ranks) && PlainDependents(v)
    ensures var r := Pagify(v, ranks, size, col, before); r.Ok? ==> AllContained(v, r.value, |before|)
  {
    hide View.Valid, Ready, BookOk, PlacedOk, Covered, PlaceAll, Finish, PlainDependents, AllContained, Closed,
      JobsToks;
    ReadyValid(v, ranks);
    IdsKnown(v);
    var start := Book(before, map[], EMPTY);
    StartRun(v, size, col, before);
    ClosedNothing(v);
    NothingContained(v, before);
    PlaceAllRun(v, ranks, size, col, before, [], start, v.s.jobids);
    PlaceAllClosed(v, ranks, size, col, before, [], start, v.s.jobids);
    var b := PlaceAll(v, ranks, size, col, |before|, start, v.s.jobids);
    if b.Ok? {
      FinishClosed(v, size, col, before, b.value);
    }
  }

  lemma NothingContained(v: View, before: seq<Page>)
    ensures AllContained(v, before, |before|)
  {}
}
