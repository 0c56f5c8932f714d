/** The second lookup of a descriptor table, on the page the pager made: when it finds the table of the first pass. */
module TableLookup {
  import opened Base
  import opened Isa
  import opened Program
  import opened View
  import opened Jobs
  import opened Labels
  import opened Pages
  import opened PageLaws
  import opened Partition
  import opened SharedLabels
  import opened Serialize
  import opened PageImage
  import opened PageAccepts
  import opened Tables
  import Closure
  import PageProofs

  /** `s` is the first job of the list among the barrier mates of `j`: the pager forms their group for it. */
  ghost predicate SeedOf(v: View, s: JobId, j: JobId) {
    s in v.s.jobs && s.Job? && Mates(GraphOf(v), s, j) && Leads(v, v.s.jobids, s)
  }

  lemma SeedUnique(v: View, s: JobId, t: JobId, j: JobId)
    requires SeedOf(v, s, j) && SeedOf(v, t, j)
    ensures s == t
  {
    hide Mates;
    var ids := v.s.jobids;
    var a :| 0 <= a < |ids| && ids[a] == s && Head(v, ids, a);
    var b :| 0 <= b < |ids| && ids[b] == t && Head(v, ids, b);
    MatesSymmetric(GraphOf(v), s, j);
    MatesSymmetric(GraphOf(v), t, j);
    MatesTransitive(GraphOf(v), s, j, t);
    MatesTransitive(GraphOf(v), t, j, s);
  }

  // ---------- groups stand uninterrupted ----------

  /** The labels of the group of `j`'s seed stand in the list, uninterrupted. */
  ghost predicate Brought(v: View, ranks: Ranks, labels: seq<Name>, j: JobId)
    requires Ready(v, ranks)
  {
    exists s :: SeedOf(v, s, j) && GroupOf(v, ranks, s).Ok? && Run(labels, GroupOf(v, ranks, s).value.labels)
  }

  ghost predicate OpenBrought(v: View, ranks: Ranks, g: Group)
    requires Ready(v, ranks)
  {
    forall j :: j in g.jobs ==> Brought(v, ranks, g.labels, j)
  }

  /** Sorted by alignment, they stand in two uninterrupted parts. */
  ghost predicate SortedBrought(v: View, ranks: Ranks, labels: seq<Name>, j: JobId)
    requires Ready(v, ranks)
  {
    exists s :: SeedOf(v, s, j) && GroupOf(v, ranks, s).Ok?
      && Run(labels, WithAlign(v, GroupOf(v, ranks, s).value.labels, 16))
      && Run(labels, WithAlign(v, GroupOf(v, ranks, s).value.labels, 4))
  }

  ghost predicate PageBrought(v: View, ranks: Ranks, p: Page)
    requires Ready(v, ranks)
  {
    forall j :: j in p.jobs ==> SortedBrought(v, ranks, p.labels, j)
  }

  ghost predicate BookBrought(v: View, ranks: Ranks, base: nat, b: Book)
    requires Ready(v, ranks)
  {
    (forall i :: base <= i < |b.pages| ==> PageBrought(v, ranks, b.pages[i])) && OpenBrought(v, ranks, b.open)
  }

  /** Adding the group of a job none of whose mates came earlier. */
  lemma JoinBrought(v: View, ranks: Ranks, open: Group, g: Group, s: JobId)
    requires Ready(v, ranks) && NoLaunch(v) && OpenBrought(v, ranks, open) && s in v.s.jobs && s.Job?
    requires GroupOf(v, ranks, s) == Ok(g) && GroupFacts(v, s, g) && Leads(v, v.s.jobids, s)
    ensures OpenBrought(v, ranks, Pages.Join(open, g))
  {
    hide Ready, NoLaunch, GroupOf, Mates, Run, GroupFacts, Leads;
    var both := Pages.Join(open, g);
    forall j | j in both.jobs ensures Brought(v, ranks, both.labels, j) {
      if j in open.jobs {
        var t :| SeedOf(v, t, j) && GroupOf(v, ranks, t).Ok? && Run(open.labels, GroupOf(v, ranks, t).value.labels);
        RunBefore(open.labels, g.labels, GroupOf(v, ranks, t).value.labels);
      } else {
        GroupUses(v, s, g, 0);
        RunLast(open.labels, g.labels);
        assert SeedOf(v, s, j);
      }
    }
  }

  lemma RunLast(a: seq<Name>, b: seq<Name>)
    ensures Run(a + b, b)
  {
    assert RunAt(a + b, b, |a|);
  }

  /** Parts of one alignment stay uninterrupted when the list is sorted. */
  lemma SortedPart(v: View, labels: seq<Name>, part: seq<Name>, n: nat)
    requires Run(labels, part) && n in {16, 4}
    ensures Run(Sorted(v, labels), WithAlign(v, part, n))
  {
    hide View.AlignOf, WithAlign;
    var i: nat :| RunAt(labels, part, i);
    var pre, suf := labels[..i], labels[i + |part|..];
    assert labels == pre + part + suf;
    WithAlignAppend(v, pre + part, suf, n);
    WithAlignAppend(v, pre, part, n);
    var mid, all := WithAlign(v, part, n), WithAlign(v, labels, n);
    assert RunAt(mid, mid, 0);
    RunAfter(WithAlign(v, pre, n), mid, WithAlign(v, suf, n), mid);
    if n == 16 {
      RunBefore(all, WithAlign(v, labels, 4), mid);
    } else {
      RunAfter(WithAlign(v, labels, 16), all, [], mid);
      assert WithAlign(v, labels, 16) + all + [] == Sorted(v, labels);
    }
  }

  lemma SortBrought(v: View, ranks: Ranks, g: Group, p: Page)
    requires Ready(v, ranks) && OpenBrought(v, ranks, g) && p.jobs == g.jobs && p.labels == Sorted(v, g.labels)
    ensures PageBrought(v, ranks, p)
  {
    hide Ready, GroupOf, Mates, Run, Leads, Sorted, WithAlign;
    forall j | j in p.jobs ensures SortedBrought(v, ranks, p.labels, j) {
      assert Brought(v, ranks, g.labels, j);
      var s :| SeedOf(v, s, j) && GroupOf(v, ranks, s).Ok? && Run(g.labels, GroupOf(v, ranks, s).value.labels);
      SortedPart(v, g.labels, GroupOf(v, ranks, s).value.labels, 16);
      SortedPart(v, g.labels, GroupOf(v, ranks, s).value.labels, 4);
    }
  }

  lemma NothingBrought(v: View, ranks: Ranks)
    requires Ready(v, ranks)
    ensures OpenBrought(v, ranks, EMPTY)
  {}

  lemma ConcludeBrought(v: View, ranks: Ranks, size: nat, col: nat, before: seq<Page>, b: Book, last: bool)
    requires Ready(v, ranks) && BookOk(v, size, col, before, b) && BookBrought(v, ranks, |before|, b)
      && b.open.jobs != []
    ensures var r := Conclude(v, col, |before|, b, last); r.Ok? && BookBrought(v, ranks, |before|, r.value)
  {
    hide Ready, View.Valid, BookOk, Conclude, SortedBrought, OpenBrought, PagesOk, Chained, NoneLast, Sorted;
    ReadyValid(v, ranks);
    ConcludeKeeps(v, size, col, before, b, last);
    NothingBrought(v, ranks);
    var r := Conclude(v, col, |before|, b, last).value;
    SortBrought(v, ranks, b.open, r.pages[|b.pages|]);
  }

  lemma RoomBrought(v: View, ranks: Ranks, size: nat, col: nat, before: seq<Page>, b: Book, g: Group)
    requires Ready(v, ranks) && BookOk(v, size, col, before, b) && BookBrought(v, ranks, |before|, b)
    ensures var r := MakeRoom(v, size, col, |before|, b, g); r.Ok? ==> BookBrought(v, ranks, |before|, r.value)
  {
    hide Ready, BookOk, Conclude, BookBrought, Footprint;
    if b.open.jobs != [] {
      ConcludeBrought(v, ranks, size, col, before, b, false);
    } else {
      OpenEmpty(v, size, col, before, b);
      ConcludeNothing(v, col, |before|, b);
    }
  }

  /** A job that is nowhere yet has no mate on a finished page. */
  lemma NoMatePlaced(v: View, base: nat, region: nat, b: Book, x: JobId, j: JobId)
    requires PartOk(v, base, region, b) && PlacedHere(base, b) && PlacedOk(b) && x in b.placed && j !in b.placed
    ensures !Mates(GraphOf(v), j, x)
  {
    hide Mates, Rows, RowsOk, RegionsOk;
    RowsAt(b, base);
    if Mates(GraphOf(v), j, x) {
      ClassIsNew(v, Rows(b, base), j, b.placed[x] - base, x);
    }
  }

  /** When a job gets a group, no job of its class came before it in the list. */
  lemma SeedComesFirst(v: View, base: nat, region: nat, b: Book, k: nat, g: Group)
    requires NoLaunch(v) && k < |v.s.jobids| && PartOk(v, base, region, b) && PlacedHere(base, b) && PlacedOk(b)
    requires Covered(v.s.jobids[..k], b) && v.s.jobids[k] in v.s.jobs && GroupFacts(v, v.s.jobids[k], g)
    requires v.s.jobids[k] !in b.placed && v.s.jobids[k] !in b.open.jobs
    ensures Head(v, v.s.jobids, k)
  {
    hide NoLaunch, Mates, PartOk, PlacedHere, PlacedOk, GroupFacts;
    var ids, j := v.s.jobids, v.s.jobids[k];
    GroupUses(v, j, g, 0);
    GroupIsOrdinary(v, j, g);
    NoMateOpen(v, base, region, b, j);
    forall x | 0 <= x < k ensures !Mates(GraphOf(v), ids[x], j) {
      assert ids[..k][x] == ids[x];
      if ids[x] in b.placed {
        NoMatePlaced(v, base, region, b, ids[x], j);
      }
      if Mates(GraphOf(v), ids[x], j) {
        MatesSymmetric(GraphOf(v), ids[x], j);
      }
    }
  }

  lemma GroupIsOrdinary(v: View, j: JobId, g: Group)
    requires GroupFacts(v, j, g)
    ensures forall k :: k in g.jobs ==> k.Job?
  {
    hide Needs, Torn, Reaches, GroupLabels;
  }

  lemma PlaceJobBrought(v: View, ranks: Ranks, size: nat, col: nat, before: seq<Page>, region: nat, k: nat, b: Book)
    requires Ready(v, ranks) && NoLaunch(v) && k < |v.s.jobids| && RunOk(v, size, col, before, v.s.jobids[..k], b)
    requires PartOk(v, |before|, region, b) && PlacedHere(|before|, b) && BookBrought(v, ranks, |before|, b)
    requires var j := v.s.jobids[k]; j in v.s.jobs && j.Job? && j !in b.placed && j !in b.open.jobs
    ensures var r := Place(v, ranks, size, col, |before|, b, v.s.jobids[k]);
      r.Ok? ==> BookBrought(v, ranks, |before|, r.value)
  {
    hide Ready, View.Valid, NoLaunch, BookOk, PartOk, GroupOf, GroupFacts, MakeRoom, Footprint, OpenBrought,
      PageBrought,
      PlacedOk, Covered, PlacedHere, Head;
    ReadyValid(v, ranks);
    var j := v.s.jobids[k];
    if Place(v, ranks, size, col, |before|, b, j).Ok? {
      GroupHolds(v, ranks, j);
      var g := GroupOf(v, ranks, j).value;
      RoomBrought(v, ranks, size, col, before, b, g);
      SeedComesFirst(v, |before|, region, b, k, g);
      assert Leads(v, v.s.jobids, j);
      JoinBrought(v, ranks, MakeRoom(v, size, col, |before|, b, g).value.open, g, j);
    }
  }

  lemma PlaceBrought(v: View, ranks: Ranks, size: nat, col: nat, before: seq<Page>, region: nat, k: nat, b: Book)
    requires Ready(v, ranks) && NoLaunch(v) && k < |v.s.jobids| && RunOk(v, size, col, before, v.s.jobids[..k], b)
    requires PartOk(v, |before|, region, b) && PlacedHere(|before|, b) && BookBrought(v, ranks, |before|, b)
    requires v.s.jobids[k] in v.s.jobs
    ensures var r := Place(v, ranks, size, col, |before|, b, v.s.jobids[k]);
      r.Ok? ==> BookBrought(v, ranks, |before|, r.value)
  {
    hide Ready, View.Valid, NoLaunch, BookOk, PartOk, GroupOf, Conclude, BookBrought, MakeRoom, PlacedOk, Covered,
      PlacedHere;
    var j := v.s.jobids[k];
    if j.Job? && j !in b.placed && j !in b.open.jobs {
      PlaceJobBrought(v, ranks, size, col, before, region, k, b);
    } else if b.open.jobs != [] {
      ConcludeBrought(v, ranks, size, col, before, b, false);
    }
  }

  lemma {:induction false} PlaceAllBrought(v: View, ranks: Ranks, size: nat, col: nat, before: seq<Page>, k: nat,
                                           b: Book)
    requires Ready(v, ranks) && NoLaunch(v) && k <= |v.s.jobids| && LoopOk(v, size, col, before, k, b)
    requires PlacedHere(|before|, b) && BookBrought(v, ranks, |before|, b)
    requires forall j :: j in v.s.jobids[k..] ==> j in v.s.jobs
    ensures var r := PlaceAll(v, ranks, size, col, |before|, b, v.s.jobids[k..]);
      r.Ok? ==> LoopOk(v, size, col, before, |v.s.jobids|, r.value) && BookBrought(v, ranks, |before|, r.value)
    decreases |v.s.jobids| - k
  {
    hide Ready, View.Valid, NoLaunch, LoopOk, Place, BookBrought, PlacedHere;
    var ids := v.s.jobids;
    if k < |ids| {
      LoopKeeps(v, ranks, size, col, before, k, b);
      assert ids[k..][0] == ids[k] && ids[k..][1..] == ids[k + 1..];
      LoopParts(v, size, col, before, k, b);
      PlaceBrought(v, ranks, size, col, before, Eops(ids[..k]), k, b);
      PlaceHere(v, ranks, size, col, |before|, b, ids[k]);
      var r := Place(v, ranks, size, col, |before|, b, ids[k]);
      if r.Ok? {
        PlaceAllBrought(v, ranks, size, col, before, k + 1, r.value);
      }
    }
  }

  lemma LoopParts(v: View, size: nat, col: nat, before: seq<Page>, k: nat, b: Book)
    requires k <= |v.s.jobids| && LoopOk(v, size, col, before, k, b)
    ensures RunOk(v, size, col, before, v.s.jobids[..k], b) && PartOk(v, |before|, Eops(v.s.jobids[..k]), b)
    ensures |before| <= |b.pages| && BookOk(v, size, col, before, b)
  {
    hide PlacedOk, Covered, PartOk, BookTallied, PagesOk, Chained, NoneLast, OpenOk;
  }

  lemma FinishBrought(v: View, ranks: Ranks, size: nat, col: nat, before: seq<Page>, b: Book)
    requires Ready(v, ranks) && BookOk(v, size, col, before, b) && BookBrought(v, ranks, |before|, b)
    ensures var r := Finish(v, col, |before|, b);
      r.Ok? ==> forall i :: |before| <= i < |r.value| ==> PageBrought(v, ranks, r.value[i])
  {
    hide Ready, View.Valid, BookOk, Conclude, SortedBrought, OpenBrought;
    if b.open.jobs != [] {
      ConcludeBrought(v, ranks, size, col, before, b, true);
    }
  }

  /** On every page of a launch-free program, the labels of each group stand in two uninterrupted parts, those
      of each alignment in the order in which the group collected them. */
  lemma PagifyBrings(v: View, ranks: Ranks, size: nat, col: nat, before: seq<Page>)
    requires Ready(v, ranks) && NoLaunch(v)
    ensures var r := Pagify(v, ranks, size, col, before);
      r.Ok? ==> forall i :: |before| <= i < |r.value| ==> PageBrought(v, ranks, r.value[i])
  {
    hide Ready, View.Valid, NoLaunch, BookOk, LoopOk, PlaceAll, Finish, BookBrought, PageBrought;
    ReadyValid(v, ranks);
    IdsKnown(v);
    var start, ids := Book(before, map[], EMPTY), v.s.jobids;
    LoopStarts(v, size, col, before);
    StartBrought(v, ranks, before);
    assert ids[0..] == ids;
    PlaceAllBrought(v, ranks, size, col, before, 0, start);
    var b := PlaceAll(v, ranks, size, col, |before|, start, ids);
    if b.Ok? {
      LoopParts(v, size, col, before, |ids|, b.value);
      FinishBrought(v, ranks, size, col, before, b.value);
    }
  }

  lemma StartBrought(v: View, ranks: Ranks, before: seq<Page>)
    requires Ready(v, ranks)
    ensures BookBrought(v, ranks, |before|, Book(before, map[], EMPTY))
    ensures PlacedHere(|before|, Book(before, map[], EMPTY))
  {
    hide Ready;
  }

  // ---------- what the lookup finds ----------

  /** In a list without duplicates, labels of an uninterrupted part stand one after another exactly when they do in
      that part. */
  lemma RunInside(labels: seq<Name>, part: seq<Name>, table: seq<Name>)
    requires NoDup(labels) && Run(labels, part) && table != [] && forall d :: d in table ==> d in part
    ensures Run(labels, table) <==> Run(part, table)
  {
    hide NoDup, RunAt;
    var i: nat :| RunAt(labels, part, i);
    if Run(part, table) {
      RunOutward(labels, part, table, i);
    }
    if Run(labels, table) {
      var k: nat :| RunAt(labels, table, k);
      RunInward(labels, part, table, i, k);
    }
  }

  lemma RunOutward(labels: seq<Name>, part: seq<Name>, table: seq<Name>, i: nat)
    requires RunAt(labels, part, i) && Run(part, table)
    ensures Run(labels, table)
  {
    assert labels == labels[..i] + part + labels[i + |part|..];
    RunAfter(labels[..i], part, labels[i + |part|..], table);
  }

  lemma RunInward(labels: seq<Name>, part: seq<Name>, table: seq<Name>, i: nat, k: nat)
    requires NoDup(labels) && RunAt(labels, part, i) && RunAt(labels, table, k) && table != []
    requires forall d :: d in table ==> d in part
    ensures Run(part, table)
  {
    var n := |table|;
    ElementAt(labels, table, k, 0);
    ElementAt(labels, table, k, n - 1);
    var a := PlaceIn(labels, part, i, table[0]);
    var b := PlaceIn(labels, part, i, table[n - 1]);
    assert k == i + a && k + n - 1 == i + b;
    SliceOf(labels, i, |part|, a, n);
    assert RunAt(part, table, a);
  }

  lemma ElementAt(labels: seq<Name>, table: seq<Name>, k: nat, x: nat)
    requires RunAt(labels, table, k) && x < |table|
    ensures labels[k + x] == table[x]
  {
    assert labels[k..k + |table|][x] == labels[k + x];
  }

  lemma SliceOf(labels: seq<Name>, i: nat, m: nat, a: nat, n: nat)
    requires i + m <= |labels| && a + n <= m
    ensures labels[i..i + m][a..a + n] == labels[i + a..i + a + n]
  {
    var x, y := labels[i..i + m][a..a + n], labels[i + a..i + a + n];
    assert forall k :: 0 <= k < n ==> x[k] == labels[i..i + m][a + k] == labels[i + (a + k)] == y[k];
    assert x == y;
  }

  lemma PlaceIn(labels: seq<Name>, part: seq<Name>, i: nat, d: Name) returns (a: nat)
    requires RunAt(labels, part, i) && d in part
    ensures a < |part| && labels[i + a] == d
  {
    a :| a < |part| && part[a] == d;
    ElementAt(labels, part, i, a);
  }

  /** The table of an `apply_offset_57` among the tokens of a job; the first pass recorded it under the label. */
  ghost predicate Applies(v: View, t: Token, l: Name) {
    && t.Isa? && t.op.ApplyOffset57? && |t.args| >= 3 && t.args[0] == Ref(l) && l !in v.pads && l in v.dependents
    && t.args[1].Num? && t.args[1].n == |v.dependents[l]|
  }

  /** All labels of a table have the alignment of its first. */
  ghost predicate OneAlignment(v: View, table: seq<Name>) {
    table != [] && forall d :: d in table ==> v.AlignOf(d) == v.AlignOf(table[0])
  }

  lemma {:induction false} WithAlignMembers(v: View, labels: seq<Name>, n: nat)
    ensures forall l :: l in WithAlign(v, labels, n) <==> l in labels && v.AlignOf(l) == Some(n)
  {
    hide View.AlignOf;
    if labels != [] {
      WithAlignMembers(v, labels[1..], n);
      assert labels == [labels[0]] + labels[1..];
    }
  }

  /** Sorting keeps a list free of duplicates. */
  lemma SortedDistinct(v: View, labels: seq<Name>)
    requires NoDup(labels) && Aligned(v, labels)
    ensures NoDup(Sorted(v, labels))
  {
    hide View.AlignOf, Sorted;
    AlignValues(v, labels);
    SortedFacts(v, labels);
    CountsDistinct(labels);
    CountsDistinct(Sorted(v, labels));
  }

  /** The labels of a group's table are all in the group. */
  lemma TableInGroup(v: View, j: JobId, s: JobId, g: Group, t: Token, l: Name)
    requires v.Valid() && NoLaunch(v) && GroupFacts(v, s, g) && s in v.s.jobs && Mates(GraphOf(v), s, j)
    requires t in v.JobToks(j) && Applies(v, t, l)
    ensures forall d :: d in v.dependents[l] ==> d in g.labels
  {
    hide NoLaunch, View.Valid, Mates, GroupFacts, View.JobToks;
    RefsInMember(v.JobToks(j), t, v.pads);
    PageProofs.NamedMember(t.args, v.pads, t.args[0]);
    forall d | d in v.dependents[l] ensures d in g.labels {
      Closure.ReachedFirst(LabelsOf(v), RefsIn(v.JobToks(j), v.pads), l);
      assert Pulled(LabelsOf(v), l, d);
      assert Uses(v, j, d);
      GroupUses(v, s, g, d);
    }
  }

  /** For a table of one alignment: its labels stand one after another in the page's list exactly when they do in the
      sorted list of its job's group. */
  lemma RunOnPage(v: View, ranks: Ranks, labels: seq<Name>, j: JobId, s: JobId, t: Token, l: Name)
    requires Ready(v, ranks) && NoLaunch(v) && NoDup(labels) && SortedBrought(v, ranks, labels, j)
    requires SeedOf(v, s, j) && t in v.JobToks(j) && Applies(v, t, l) && OneAlignment(v, v.dependents[l])
    ensures GroupOf(v, ranks, s).Ok?
    ensures Run(labels, v.dependents[l]) <==> Run(Sorted(v, GroupOf(v, ranks, s).value.labels), v.dependents[l])
  {
    hide Ready, View.Valid, NoLaunch, GroupOf, Run, NoDup, Mates, Leads, WithAlign, View.AlignOf, GroupFacts,
      View.JobToks;
    ReadyValid(v, ranks);
    var x :| SeedOf(v, x, j) && GroupOf(v, ranks, x).Ok?
      && Run(labels, WithAlign(v, GroupOf(v, ranks, x).value.labels, 16))
      && Run(labels, WithAlign(v, GroupOf(v, ranks, x).value.labels, 4));
    SeedUnique(v, s, x, j);
    var g, table := GroupOf(v, ranks, s).value, v.dependents[l];
    GroupHolds(v, ranks, s);
    TableInGroup(v, j, s, g, t, l);
    GroupListed(v, s, g);
    AlignValues(v, g.labels);
    assert table[0] in table;
    var n := v.AlignOf(table[0]).value;
    WithAlignMembers(v, g.labels, n);
    RunInside(labels, WithAlign(v, g.labels, n), table);
    SortedDistinct(v, g.labels);
    WholeRun(g.labels);
    SortedPart(v, g.labels, g.labels, n);
    RunInside(Sorted(v, g.labels), WithAlign(v, g.labels, n), table);
  }

  lemma WholeRun(labels: seq<Name>)
    ensures Run(labels, labels)
  {
    assert RunAt(labels, labels, 0);
  }

  lemma GroupListed(v: View, j: JobId, g: Group)
    requires GroupFacts(v, j, g)
    ensures NoDup(g.labels) && Aligned(v, g.labels)
  {
    hide GroupJobs, Wanted, Reached, NoDup, Aligned, JobsToks;
  }

  /** For every launch-free program and every page that the second layout pass accepts: an `apply_offset_57` whose
      table has one alignment finds the table of the first pass if and only if that table's labels stand one after
      another in the sorted labels of its job's group. */
  lemma LookupAgrees(v: View, ranks: Ranks, size: nat, col: nat, before: seq<Page>, cfg: Config, i: nat, j: JobId,
                     s: JobId, t: Token, l: Name)
    requires Ready(v, ranks) && NoLaunch(v) && Pagify(v, ranks, size, col, before).Ok?
    requires |before| <= i < |Pagify(v, ranks, size, col, before).value|
    requires var p := Pagify(v, ranks, size, col, before).value[i];
      j in p.jobs && ScanFrom(START, p.text + p.data, false).Ok?
    requires SeedOf(v, s, j) && t in v.JobToks(j) && Applies(v, t, l) && OneAlignment(v, v.dependents[l])
    requires v.dependents[l][0] == l
    ensures GroupOf(v, ranks, s).Ok?
    ensures var p := Pagify(v, ranks, size, col, before).value[i];
      var env := EnvOf(cfg, ScanFrom(START, p.text + p.data, false).value);
      Table(env, t.args) == Ok(v.dependents[l]) <==> Run(Sorted(v, GroupOf(v, ranks, s).value.labels), v.dependents[l])
  {
    hide Ready, View.Valid, NoLaunch, Pagify, GroupOf, Run, NoDup, SeedOf, View.AlignOf, SortedBrought, Sorted,
      View.JobToks, ScanFrom, Table, PageOk, Chained, DataInv, Placed;
    ReadyValid(v, ranks);
    PagifyLaws(v, ranks, size, col, before);
    PagifyBrings(v, ranks, size, col, before);
    var p := Pagify(v, ranks, size, col, before).value[i];
    PageLayout(v, size, col, p, i);
    RunOnPage(v, ranks, p.labels, j, s, t, l);
    TableIsPassOnes(EnvOf(cfg, ScanFrom(START, p.text + p.data, false).value), t.args, v.dependents[l]);
  }

  /** The descriptors an `apply_offset_57` names, as the first pass knows them. */
  function PassOneTable(v: View, args: seq<Arg>): seq<Name> {
    if |args| < 2 || !args[0].Ref? || !args[1].Num? || args[1].n == 0 then [] else
    if args[1].n == 1 then [args[0].name] else
    if args[0].name in v.dependents then v.dependents[args[0].name] else []
  }

  lemma ShortTable(env: Env, args: seq<Arg>)
    requires |args| >= 3 && args[0].Ref? && args[1].Num? && args[1].n <= 1
      && TableFits(env.labelList, args[0].name, args[1].n)
    ensures Table(env, args) == Ok(if args[1].n == 1 then [args[0].name] else [])
  {
    var i := IndexOf(args[0].name, env.labelList);
    assert env.labelList[i..i] == [] && (args[1].n == 1 ==> env.labelList[i..i + 1] == [env.labelList[i]]);
  }

  /** A table that stands whole on a page without duplicates is found there. */
  lemma WholeTable(v: View, env: Env, args: seq<Arg>)
    requires TablesApart(v) && NoDup(env.labelList) && Whole(v.dependents, env.labelList)
    requires |args| >= 3 && args[0].Ref? && args[0].name in env.labelList && args[0].name in v.dependents
    requires args[1].Num? && args[1].n == |v.dependents[args[0].name]|
    ensures Table(env, args) == Ok(v.dependents[args[0].name])
  {
    hide Table, View.AlignOf, Refs, HeadOnly, NoDup, Run;
    var table := v.dependents[args[0].name];
    assert table[0] in table;
    TableIsPassOnes(env, args, table);
  }

  /** When tables are apart, every table the writer looks up on a page it encodes is the first pass's. */
  lemma ApartAgrees(v: View, ranks: Ranks, col: nat, before: seq<Page>, cfg: Config, i: nat, t: Token)
    requires Ready(v, ranks) && TablesApart(v) && Pagify(v, ranks, PAGE_SIZE, col, before).Ok?
    requires |before| <= i < |Pagify(v, ranks, PAGE_SIZE, col, before).value|
    requires var p := Pagify(v, ranks, PAGE_SIZE, col, before).value[i];
      DraftPage(cfg, p).Ok? && t in p.text + p.data
    requires t.Isa? && t.op.ApplyOffset57? && TableKnown(v.dependents, t)
    ensures var p := Pagify(v, ranks, PAGE_SIZE, col, before).value[i];
      var s := ScanFrom(START, p.text + p.data, false);
      s.Ok? && Table(EnvOf(cfg, s.value), t.args) == Ok(PassOneTable(v, t.args))
  {
    hide Ready, View.Valid, TablesApart, Pagify, PageOk, DraftPage, ScanFrom, Whole, NoDup, Table, TableFits, Chained,
      DataInv, Placed, ArgsFit;
    ReadyValid(v, ranks);
    PagifyLaws(v, ranks, PAGE_SIZE, col, before);
    PagifyWhole(v, ranks, PAGE_SIZE, col, before);
    var p := Pagify(v, ranks, PAGE_SIZE, col, before).value[i];
    DraftAccepts(v, PAGE_SIZE, col, cfg, p, i);
    PageLayout(v, PAGE_SIZE, col, p, i);
    var env := EnvOf(cfg, ScanFrom(START, p.text + p.data, false).value);
    assert TokenFits(cfg, p.jobs, p.labels, t);
    if t.args[1].n <= 1 {
      ShortTable(env, t.args);
    } else {
      FittingLabel(p.labels, t.args[0].name, t.args[1].n);
      WholeTable(v, env, t.args);
    }
  }

  lemma FittingLabel(labels: seq<Name>, l: Name, n: nat)
    requires TableFits(labels, l, n)
    ensures l in labels
  {}
}
