/** Descriptor tables: when the labels of a multi-entry `apply_offset_57` stay together on a page. */
module Tables {
  import opened Base
  import opened Isa
  import opened Program
  import opened Structure
  import opened View
  import opened Jobs
  import opened Labels
  import opened Pages
  import opened PageLaws
  import opened Partition
  import opened Serialize
  import Closure

  /** The table stands in the list, entry after entry. */
  ghost predicate Run(labels: seq<Name>, table: seq<Name>) {
    exists i: nat :: RunAt(labels, table, i)
  }

  ghost predicate RunAt(labels: seq<Name>, table: seq<Name>, i: nat) {
    i + |table| <= |labels| && labels[i..i + |table|] == table
  }

  /** A table any of whose labels is in the list stands in it as a whole. */
  ghost predicate Whole(tables: map<Name, seq<Name>>, labels: seq<Name>) {
    forall l, d :: l in tables && d in tables[l] && d in labels ==> Run(labels, tables[l])
  }

  /** Tables start with their own label, repeat nothing, and do not overlap. */
  ghost predicate Disjoint(tables: map<Name, seq<Name>>) {
    && (forall l :: l in tables ==> tables[l] != [] && tables[l][0] == l && NoDup(tables[l]))
    && forall l, k, d :: l in tables && k in tables && d in tables[l] && d in tables[k] ==> l == k
  }

  /** A reference that is part of a table is the table's first label. */
  ghost predicate HeadOnly(tables: map<Name, seq<Name>>, refs: seq<Name>) {
    forall l, r :: l in tables && r in refs && r in tables[l] ==> r == l
  }

  /** Tables do not overlap, their labels have one alignment, and nothing but the table's own name refers into it. */
  ghost predicate TablesApart(v: View) {
    && Disjoint(v.dependents)
    && (forall l, d :: l in v.dependents && d in v.dependents[l] ==> v.AlignOf(d) == v.AlignOf(l))
    && forall t :: t in v.toks ==> HeadOnly(v.dependents, Refs(t, v.pads))
  }

  // ---------- lists ----------

  lemma RunAfter(pre: seq<Name>, labels: seq<Name>, suf: seq<Name>, table: seq<Name>)
    requires Run(labels, table)
    ensures Run(pre + labels + suf, table)
  {
    var i: nat :| RunAt(labels, table, i);
    var all := pre + labels + suf;
    assert all[|pre| + i..|pre| + i + |table|] == labels[i..i + |table|];
    assert RunAt(all, table, |pre| + i);
  }

  lemma WholeJoin(tables: map<Name, seq<Name>>, a: seq<Name>, b: seq<Name>)
    requires Whole(tables, a) && Whole(tables, b)
    ensures Whole(tables, a + b)
  {
    forall l, d | l in tables && d in tables[l] && d in a + b ensures Run(a + b, tables[l]) {
      if d in a {
        RunAfter([], a, b, tables[l]);
        assert [] + a + b == a + b;
      } else {
        RunAfter(a, b, [], tables[l]);
        assert a + b + [] == a + b;
      }
    }
  }

  function Without(b: seq<Name>, a: seq<Name>): seq<Name> {
    if b == [] then [] else Without(b[..|b| - 1], a) + (if b[|b| - 1] in a then [] else [b[|b| - 1]])
  }

  /** Adding a duplicate-free list keeps the old one and appends what is new, in order. */
  lemma {:induction false} DedupAppends(a: seq<Name>, b: seq<Name>)
    requires NoDup(a) && NoDup(b)
    ensures Dedup(a + b) == a + Without(b, a)
    ensures forall x :: x in Without(b, a) <==> x in b && x !in a
    decreases |b|
  {
    if b == [] {
      assert a + b == a;
      DedupLength(a);
    } else {
      var init, x := b[..|b| - 1], b[|b| - 1];
      assert b == init + [x];
      assert (a + b)[..|a + b| - 1] == a + init && (a + b)[|a + b| - 1] == x;
      DedupAppends(a, init);
      assert x !in init;
      if x !in a {
        assert a + Without(init, a) + [x] == a + Without(b, a);
      }
    }
  }

  lemma {:induction false} WithoutSplit(x: seq<Name>, y: seq<Name>, a: seq<Name>)
    ensures Without(x + y, a) == Without(x, a) + Without(y, a)
    decreases |y|
  {
    if y == [] {
      assert x + y == x;
    } else {
      assert (x + y)[..|x + y| - 1] == x + y[..|y| - 1];
      WithoutSplit(x, y[..|y| - 1], a);
      Assoc(Without(x, a), Without(y[..|y| - 1], a), if y[|y| - 1] in a then [] else [y[|y| - 1]]);
    }
  }

  lemma {:induction false} WithoutAll(t: seq<Name>, a: seq<Name>)
    requires forall d :: d in t ==> d !in a
    ensures Without(t, a) == t
  {
    if t != [] {
      WithoutAll(t[..|t| - 1], a);
      assert t == t[..|t| - 1] + [t[|t| - 1]];
    }
  }

  /** A run none of whose labels were there before survives being added. */
  lemma RunWithout(b: seq<Name>, a: seq<Name>, table: seq<Name>)
    requires Run(b, table) && forall d :: d in table ==> d !in a
    ensures Run(Without(b, a), table)
  {
    var i: nat :| RunAt(b, table, i);
    var pre, suf := b[..i], b[i + |table|..];
    assert b == pre + table + suf;
    WithoutSplit(pre + table, suf, a);
    WithoutSplit(pre, table, a);
    WithoutAll(table, a);
    assert RunAt(table, table, 0);
    RunAfter(Without(pre, a), table, Without(suf, a), table);
  }

  lemma WholeDedup(tables: map<Name, seq<Name>>, a: seq<Name>, b: seq<Name>)
    requires NoDup(a) && NoDup(b) && Whole(tables, a) && Whole(tables, b)
    ensures Whole(tables, Dedup(a + b))
  {
    hide Dedup, Without, Run;
    DedupAppends(a, b);
    var c := Without(b, a);
    forall l, d | l in tables && d in tables[l] && d in a + c ensures Run(a + c, tables[l]) {
      if x :| x in tables[l] && x in a {
        RunBefore(a, c, tables[l]);
      } else {
        assert d in b;
        RunBehind(a, b, tables[l]);
      }
    }
  }

  lemma RunBefore(a: seq<Name>, c: seq<Name>, table: seq<Name>)
    requires Run(a, table)
    ensures Run(a + c, table)
  {
    RunAfter([], a, c, table);
    assert [] + a + c == a + c;
  }

  lemma RunBehind(a: seq<Name>, b: seq<Name>, table: seq<Name>)
    requires Run(b, table) && forall d :: d in table ==> d !in a
    ensures Run(a + Without(b, a), table)
  {
    hide Without;
    RunWithout(b, a, table);
    RunAfter(a, Without(b, a), [], table);
    assert a + Without(b, a) + [] == a + Without(b, a);
  }

  /** A referenced label together with its table. */
  lemma WholeWith(g: LabelGraph, r: Name)
    requires Disjoint(g.dependents) && HeadOnly(g.dependents, [r])
    ensures Whole(g.dependents, Dedup(With(g, r))) && NoDup(Dedup(With(g, r)))
  {
    var tables := g.dependents;
    if r in tables {
      WithTable(r, tables[r]);
      assert RunAt(tables[r], tables[r], 0);
    } else {
      assert [r] + [] == [r];
      DedupLength([r]);
      assert r in [r];
    }
  }

  lemma {:induction false} WithoutHead(table: seq<Name>)
    requires table != [] && NoDup(table)
    ensures [table[0]] + Without(table, [table[0]]) == table
    decreases |table|
  {
    var r, init, x := table[0], table[..|table| - 1], table[|table| - 1];
    assert table == init + [x];
    if init == [] {
      assert Without(init, [r]) == [] && x == r;
    } else {
      WithoutHead(init);
      assert x != r;
      Assoc([r], Without(init, [r]), [x]);
    }
  }

  lemma WithTable(r: Name, table: seq<Name>)
    requires table != [] && table[0] == r && NoDup(table)
    ensures Dedup([r] + table) == table
  {
    hide Dedup, Without;
    DedupAppends([r], table);
    WithoutHead(table);
  }

  lemma DedupSnoc(s: seq<Name>, x: Name)
    ensures Dedup(s + [x]) == if x in s then Dedup(s) else Dedup(s) + [x]
  {
    assert (s + [x])[..|s + [x]| - 1] == s;
  }

  /** Deduplicating the addition first makes no difference. */
  lemma {:induction false} DedupLater(a: seq<Name>, b: seq<Name>)
    ensures Dedup(a + Dedup(b)) == Dedup(a + b)
    decreases |b|
  {
    if b == [] {
      assert Dedup(b) == [];
    } else {
      hide Dedup;
      var init, x := b[..|b| - 1], b[|b| - 1];
      var d := Dedup(init);
      assert b == init + [x];
      Assoc(a, init, [x]);
      DedupSnoc(init, x);
      DedupSnoc(a + init, x);
      DedupLater(a, init);
      if x !in init {
        Assoc(a, d, [x]);
        DedupSnoc(a + d, x);
      }
    }
  }

  // ---------- the label recursion ----------

  ghost predicate GraphApart(g: LabelGraph) {
    Disjoint(g.dependents) && forall l :: l in g.toks ==> HeadOnly(g.dependents, RefsIn(g.toks[l], g.pads))
  }

  lemma HeadOnlySub(tables: map<Name, seq<Name>>, a: seq<Name>, b: seq<Name>)
    requires HeadOnly(tables, b) && forall r :: r in a ==> r in b
    ensures HeadOnly(tables, a)
  {}

  lemma {:induction false} FromRefsWhole(g: LabelGraph, rank: map<Name, nat>, top: nat, refs: seq<Name>,
                                         acc: seq<Name>, bound: nat)
    requires Ranked(g, rank, top) && Below(g, rank, refs, bound) && GraphApart(g) && HeadOnly(g.dependents, refs)
    requires NoDup(acc) && Whole(g.dependents, acc)
    ensures var r := FromRefs(g, rank, top, refs, acc, bound); r.Ok? ==> NoDup(r.value) && Whole(g.dependents, r.value)
    decreases bound, 0, |refs|
  {
    hide Whole, NoDup, Dedup, With, Disjoint;
    if refs != [] && refs[0] in g.toks {
      var r := refs[0];
      HeadOnlySub(g.dependents, [r], refs);
      HeadOnlySub(g.dependents, refs[1..], refs);
      WholeWith(g, r);
      WholeDedup(g.dependents, acc, Dedup(With(g, r)));
      DedupLater(acc, With(g, r));
      var base := Dedup(acc + With(g, r));
      FromLinesWhole(g, rank, top, g.toks[r], base, rank[r]);
      var mid := FromLines(g, rank, top, g.toks[r], base, rank[r]);
      if mid.Ok? {
        FromRefsWhole(g, rank, top, refs[1..], mid.value, bound);
      }
    }
  }

  lemma {:induction false} FromLinesWhole(g: LabelGraph, rank: map<Name, nat>, top: nat, toks: seq<Token>,
                                          acc: seq<Name>, bound: nat)
    requires Ranked(g, rank, top) && Below(g, rank, RefsIn(toks, g.pads), bound) && GraphApart(g)
    requires HeadOnly(g.dependents, RefsIn(toks, g.pads)) && NoDup(acc) && Whole(g.dependents, acc)
    ensures var r := FromLines(g, rank, top, toks, acc, bound); r.Ok? ==> NoDup(r.value) && Whole(g.dependents, r.value)
    decreases bound, 1, |toks|
  {
    hide Whole, Dedup, GraphApart;
    if toks != [] {
      var a, b := Refs(toks[0], g.pads), RefsIn(toks[1..], g.pads);
      HeadOnlySub(g.dependents, a, a + b);
      HeadOnlySub(g.dependents, b, a + b);
      NothingWhole(g.dependents);
      FromRefsWhole(g, rank, top, a, [], bound);
      var sub := FromRefs(g, rank, top, a, [], bound);
      if sub.Ok? {
        WholeDedup(g.dependents, acc, sub.value);
        FromLinesWhole(g, rank, top, toks[1..], Dedup(acc + sub.value), bound);
      }
    }
  }

  lemma NothingWhole(tables: map<Name, seq<Name>>)
    ensures Whole(tables, []) && NoDup<Name>([])
  {}

  // ---------- groups and pages ----------

  lemma {:induction false} HeadOnlyIn(tables: map<Name, seq<Name>>, toks: seq<Token>, pads: set<Name>)
    requires forall t :: t in toks ==> HeadOnly(tables, Refs(t, pads))
    ensures HeadOnly(tables, RefsIn(toks, pads))
  {
    hide Refs;
    if toks != [] {
      HeadOnlyIn(tables, toks[1..], pads);
      assert HeadOnly(tables, Refs(toks[0], pads));
    }
  }

  lemma ViewApart(v: View)
    requires TablesApart(v)
    ensures GraphApart(LabelsOf(v)) && LabelsOf(v).dependents == v.dependents
  {
    hide Disjoint, HeadOnly, Refs, RefsIn;
    forall l | l in v.s.labels ensures HeadOnly(v.dependents, RefsIn(v.LabelToks(l), v.pads)) {
      HeadOnlyIn(v.dependents, v.LabelToks(l), v.pads);
    }
  }

  lemma {:induction false} JobsInside(v: View, jobs: seq<JobId>)
    ensures forall t :: t in JobsToks(v, jobs) ==> t in v.toks
  {
    if jobs != [] {
      JobsInside(v, jobs[1..]);
    }
  }

  /** Tables stay whole in a group. */
  lemma GroupWhole(v: View, ranks: Ranks, j: JobId)
    requires Ready(v, ranks) && TablesApart(v) && j in v.s.jobs
    ensures var g := GroupOf(v, ranks, j); g.Ok? ==> Whole(v.dependents, g.value.labels)
  {
    hide Ready, View.Valid, Acyclic, Ranked, Jobs.Graph.Valid, Extract, FromLines, LabelsOf, GraphOf, Below, JobsToks,
      ExternalsFrom, JobsSize, LabelsSize, Whole, HeadOnly, GraphApart, RefsIn, Refs, Disjoint, DataSize;
    ReadyParts(v, ranks);
    var g := GroupOf(v, ranks, j);
    if g.Ok? {
      var toks := JobsToks(v, g.value.jobs);
      GraphFields(v);
      AllBelow(v, ranks, RefsIn(toks, v.pads));
      ViewApart(v);
      JobsInside(v, g.value.jobs);
      HeadOnlyIn(v.dependents, toks, v.pads);
      NothingWhole(v.dependents);
      FromLinesWhole(LabelsOf(v), ranks.labels, ranks.top, toks, [], ranks.top);
    }
  }

  lemma {:induction false} WithAlignAppend(v: View, a: seq<Name>, b: seq<Name>, n: nat)
    ensures WithAlign(v, a + b, n) == WithAlign(v, a, n) + WithAlign(v, b, n)
  {
    hide View.AlignOf;
    if a == [] {
      assert a + b == b;
    } else {
      assert (a + b)[1..] == a[1..] + b;
      WithAlignAppend(v, a[1..], b, n);
      Assoc(if v.AlignOf(a[0]) == Some(n) then [a[0]] else [], WithAlign(v, a[1..], n), WithAlign(v, b, n));
    }
  }

  lemma {:induction false} WithAlignAll(v: View, t: seq<Name>, n: nat)
    requires forall d :: d in t ==> v.AlignOf(d) == Some(n)
    ensures WithAlign(v, t, n) == t
  {
    hide View.AlignOf;
    if t != [] {
      assert t[0] in t;
      WithAlignAll(v, t[1..], n);
    }
  }

  lemma RunSorted(v: View, labels: seq<Name>, table: seq<Name>, n: nat)
    requires Run(labels, table) && n in {16, 4} && forall d :: d in table ==> v.AlignOf(d) == Some(n)
    ensures Run(Sorted(v, labels), table)
  {
    hide View.AlignOf, WithAlign;
    var i: nat :| RunAt(labels, table, i);
    var pre, suf := labels[..i], labels[i + |table|..];
    assert labels == pre + table + suf;
    WithAlignAppend(v, pre + table, suf, n);
    WithAlignAppend(v, pre, table, n);
    WithAlignAll(v, table, n);
    assert RunAt(table, table, 0);
    RunAfter(WithAlign(v, pre, n), table, WithAlign(v, suf, n), table);
    var part := WithAlign(v, labels, n);
    if n == 16 {
      RunAfter([], part, WithAlign(v, labels, 4), table);
      assert [] + part + WithAlign(v, labels, 4) == Sorted(v, labels);
    } else {
      RunAfter(WithAlign(v, labels, 16), part, [], table);
      assert WithAlign(v, labels, 16) + part + [] == Sorted(v, labels);
    }
  }

  /** Sorting by alignment keeps tables whole. */
  lemma WholeSorted(v: View, labels: seq<Name>)
    requires TablesApart(v) && Aligned(v, labels) && Whole(v.dependents, labels)
    ensures Whole(v.dependents, Sorted(v, labels))
  {
    hide View.AlignOf, Run, Sorted, HeadOnly, Disjoint, Refs;
    AlignValues(v, labels);
    Closure.SortedMembers(v, labels);
    forall l, d | l in v.dependents && d in v.dependents[l] && d in Sorted(v, labels)
      ensures Run(Sorted(v, labels), v.dependents[l]) {
      RunSorted(v, labels, v.dependents[l], v.AlignOf(d).value);
    }
  }

  ghost predicate PagesWhole(v: View, pages: seq<Page>, base: nat) {
    forall i :: base <= i < |pages| ==> Whole(v.dependents, pages[i].labels)
  }

  ghost predicate BookWhole(v: View, base: nat, b: Book) {
    PagesWhole(v, b.pages, base) && Whole(v.dependents, b.open.labels)
  }

  lemma ConcludeWhole(v: View, size: nat, col: nat, before: seq<Page>, b: Book, last: bool)
    requires v.Valid() && TablesApart(v) && BookOk(v, size, col, before, b) && BookWhole(v, |before|, b)
      && b.open.jobs != []
    ensures var r := Conclude(v, col, |before|, b, last); r.Ok? && BookWhole(v, |before|, r.value)
  {
    hide View.Valid, TablesApart, BookOk, Conclude, Whole, PagesOk, Chained, NoneLast, Sorted, Aligned;
    ConcludeKeeps(v, size, col, before, b, last);
    OpenAligned(v, size, col, before, b);
    WholeSorted(v, b.open.labels);
    NothingWhole(v.dependents);
  }

  lemma RoomWhole(v: View, size: nat, col: nat, before: seq<Page>, b: Book, g: Group)
    requires v.Valid() && TablesApart(v) && BookOk(v, size, col, before, b) && BookWhole(v, |before|, b)
    ensures var r := MakeRoom(v, size, col, |before|, b, g); r.Ok? ==> BookWhole(v, |before|, r.value)
  {
    hide View.Valid, TablesApart, BookOk, Conclude, BookWhole, Footprint;
    OpenAligned(v, size, col, before, b);
    if b.open.jobs != [] {
      ConcludeWhole(v, size, col, before, b, false);
    } else {
      ConcludeNothing(v, col, |before|, b);
    }
  }

  lemma PlaceWhole(v: View, ranks: Ranks, size: nat, col: nat, before: seq<Page>, b: Book, j: JobId)
    requires Ready(v, ranks) && TablesApart(v) && BookOk(v, size, col, before, b) && BookWhole(v, |before|, b)
      && j in v.s.jobs
    ensures var r := Place(v, ranks, size, col, |before|, b, j); r.Ok? ==> BookWhole(v, |before|, r.value)
  {
    hide View.Valid, Ready, TablesApart, BookOk, Conclude, Whole, Footprint, GroupOf, MakeRoom;
    ReadyValid(v, ranks);
    if b.open.jobs != [] {
      ConcludeWhole(v, size, col, before, b, false);
    }
    GroupWhole(v, ranks, j);
    var g := GroupOf(v, ranks, j);
    if g.Ok? {
      RoomWhole(v, size, col, before, b, g.value);
      var room := MakeRoom(v, size, col, |before|, b, g.value);
      if room.Ok? {
        WholeJoin(v.dependents, room.value.open.labels, g.value.labels);
      }
    }
  }

  lemma {:induction false} PlaceAllWhole(v: View, ranks: Ranks, size: nat, col: nat, before: seq<Page>,
                                         done: seq<JobId>, b: Book, ids: seq<JobId>)
    requires Ready(v, ranks) && TablesApart(v) && RunOk(v, size, col, before, done, b) && BookWhole(v, |before|, b)
    requires forall j :: j in ids ==> j in v.s.jobs
    ensures var r := PlaceAll(v, ranks, size, col, |before|, b, ids);
      r.Ok? ==> BookWhole(v, |before|, r.value) && RunOk(v, size, col, before, done + ids, r.value)
    decreases |ids|
  {
    hide View.Valid, Ready, TablesApart, BookOk, PlacedOk, Covered, Place, BookWhole;
    if ids == [] {
      assert done + [] == done;
    } else {
      PlaceWhole(v, ranks, size, col, before, b, ids[0]);
      PlaceRun(v, ranks, size, col, before, done, b, ids[0]);
      var r := Place(v, ranks, size, col, |before|, b, ids[0]);
      if r.Ok? {
        PlaceAllWhole(v, ranks, size, col, before, done + [ids[0]], r.value, ids[1..]);
        assert done + [ids[0]] + ids[1..] == done + ids;
      }
    }
  }

  lemma FinishWhole(v: View, size: nat, col: nat, before: seq<Page>, b: Book)
    requires v.Valid() && TablesApart(v) && BookOk(v, size, col, before, b) && BookWhole(v, |before|, b)
    ensures var r := Finish(v, col, |before|, b); r.Ok? ==> PagesWhole(v, r.value, |before|)
  {
    hide View.Valid, TablesApart, BookOk, Conclude, Whole;
    if b.open.jobs != [] {
      ConcludeWhole(v, size, col, before, b, true);
    }
  }

  /** Tables that are apart stand whole on every page that holds one of their labels. */
  lemma PagifyWhole(v: View, ranks: Ranks, size: nat, col: nat, before: seq<Page>)
    requires Ready(v, ranks) && TablesApart(v)
    ensures var r := Pagify(v, ranks, size, col, before); r.Ok? ==> PagesWhole(v, r.value, |before|)
  {
    hide View.Valid, Ready, TablesApart, BookOk, PlacedOk, Covered, PlaceAll, Finish, Whole;
    ReadyValid(v, ranks);
    IdsKnown(v);
    var start := Book(before, map[], EMPTY);
    StartRun(v, size, col, before);
    NothingWhole(v.dependents);
    PlaceAllWhole(v, ranks, size, col, before, [], start, v.s.jobids);
    var b := PlaceAll(v, ranks, size, col, |before|, start, v.s.jobids);
    if b.Ok? {
      FinishWhole(v, size, col, before, b.value);
    }
  }

  // ---------- the page's table ----------

  lemma {:induction false} FoundAt(labels: seq<Name>, i: nat)
    requires i < |labels| && NoDup(labels)
    ensures IndexOf(labels[i], labels) == i
  {
    var k := IndexOf(labels[i], labels);
    assert labels[k] == labels[i];
  }

  /** On a page without duplicates, the table the writer looks up is the table of the first pass if and only if
      that table's labels stand one after another in the page's label list. */
  lemma TableIsPassOnes(env: Env, args: seq<Arg>, table: seq<Name>)
    requires NoDup(env.labelList) && table != [] && |args| >= 3 && args[0] == Ref(table[0]) && args[1].Num?
      && args[1].n == |table|
    ensures Table(env, args) == Ok(table) <==> Run(env.labelList, table)
  {
    hide IndexOf;
    var labels := env.labelList;
    if Table(env, args) == Ok(table) {
      assert RunAt(labels, table, IndexOf(table[0], labels));
    }
    if Run(labels, table) {
      var i: nat :| RunAt(labels, table, i);
      assert labels[i] == labels[i..i + |table|][0] == table[0];
      FoundAt(labels, i);
    }
  }

  /** The tables the first pass records start with their label and repeat nothing. */
  lemma BuiltTables(toks: seq<Token>, pads: set<Name>)
    requires Build(toks, pads).Ok? && NoDup(Build(toks, pads).value.s.labelList)
    ensures var v := Build(toks, pads).value;
      forall l :: l in v.dependents ==> v.dependents[l] != [] && v.dependents[l][0] == l && NoDup(v.dependents[l])
  {
    hide ScanFrom, IndexOf;
  }
}
