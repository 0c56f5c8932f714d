/** The pager's loops (`pager.cpp`), proved against the specification functions. */
module Pager {
  import opened Base
  import opened Isa
  import opened Program
  import opened Structure
  import opened View
  import opened Jobs
  import opened Labels
  import opened Pages
  import opened PageLaws

  /** `union_of_lists_inorder`. */
  method UnionOfListsInorder<T(==,!new)>(a: seq<T>, b: seq<T>) returns (r: seq<T>)
    ensures r == Dedup(a + b)
    ensures NoDup(r) && forall x :: x in r <==> x in a || x in b
  {
    var seen := {};
    r := [];
    var i := 0;
    while i < |a|
      invariant i <= |a| && r == Dedup((a + b)[..i]) && forall x :: x in seen <==> x in r
    {
      assert (a + b)[..i + 1] == (a + b)[..i] + [a[i]];
      if a[i] !in seen {
        seen := seen + {a[i]};
        r := r + [a[i]];
      }
      i := i + 1;
    }
    i := 0;
    while i < |b|
      invariant i <= |b| && r == Dedup((a + b)[..|a| + i]) && forall x :: x in seen <==> x in r
    {
      assert (a + b)[..|a| + i + 1] == (a + b)[..|a| + i] + [b[i]];
      if b[i] !in seen {
        seen := seen + {b[i]};
        r := r + [b[i]];
      }
      i := i + 1;
    }
    assert (a + b)[..|a| + |b|] == a + b;
  }

  /** The inner loop of the worklist: the jobs waiting on one barrier. */
  method MergeBarriers(g: Graph, eop: nat, bars: seq<nat>, jj: seq<JobId>) returns (r: Result<seq<nat>>)
    requires forall j :: j in jj ==> j in g.jobs
    ensures r == Round(g, eop, bars, jj)
  {
    var b, k := bars, 0;
    while k < |jj|
      invariant k <= |jj| && Round(g, eop, b, jj[k..]) == Round(g, eop, bars, jj)
    {
      assert jj[k..][1..] == jj[k + 1..];
      if g.jobs[jj[k]].eop != eop {
        return Err(AcrossEop);
      }
      b := UnionOfListsInorder(b, g.jobs[jj[k]].barriers);
      k := k + 1;
    }
    return Ok(b);
  }

  /** `extractjobs`: the barrier worklist, then the launched jobs recursively. */
  method ExtractJobs(g: Graph, ghost rank: map<JobId, nat>, j: JobId) returns (r: Result<seq<JobId>>)
    requires g.Valid() && Acyclic(g, rank) && j in g.jobs
    ensures r == Extract(g, rank, j) && Extracted(g, j, r)
    decreases rank[j]
  {
    hide Round, Jobs.Graph.Valid, Extracted;
    ExtractCloses(g, rank, j);
    SeedInv(g, j);
    var ids, bars, eop, i := [j], g.jobs[j].barriers, g.jobs[j].eop, 0;
    while i < |bars|
      invariant Known(g, bars) && i <= |bars| && (i == 0 || NoDup(bars))
      invariant Loop(g, eop, bars, ids, i) == Loop(g, eop, g.jobs[j].barriers, [j], 0)
      decreases |g.barriers.Keys| - i
    {
      Turn(g, eop, bars, i);
      var jj := g.barriers[bars[i]];
      var merged := MergeBarriers(g, eop, bars, jj);
      if merged.Err? {
        return Err(merged.error);
      }
      bars := merged.value;
      ids := UnionOfListsInorder(ids, jj);
      i := i + 1;
    }
    var ls := g.jobs[j].launches;
    ids := UnionOfListsInorder(ids, ls);
    var acc := ids;
    i := 0;
    while i < |ls|
      invariant i <= |ls| && (forall l :: l in ls[i..] ==> l in g.jobs[j].launches)
      invariant Extract(g, rank, j) == Follow(g, rank, j, acc, ls[i..])
    {
      assert ls[i..][0] == ls[i] && ls[i..][1..] == ls[i + 1..];
      var sub := ExtractJobs(g, rank, ls[i]);
      if sub.Err? {
        return Err(sub.error);
      }
      acc := UnionOfListsInorder(acc, sub.value);
      i := i + 1;
    }
    return Ok(acc);
  }

  /** `extract_externallabels`. */
  method ExtractExternalLabels(t: Token) returns (r: seq<Name>)
    ensures r == Externals(t)
  {
    hide Dedup, Named;
    r := [];
    var args, i := ArgsOf(t), 0;
    ExternalStart(args);
    while i < |args|
      invariant i <= |args| && (!OutOfOrder(t) ==> r == [])
      invariant OutOfOrder(t) ==> NoDup(r) && Dedup(r + Named(args[i..], {})) == Dedup(Named(args, {}))
    {
      NamedStep(args, i, {});
      if args[i].Ref? && OutOfOrder(t) {
        ExternalStep(r, args[i].name, Named(args[i + 1..], {}));
        r := UnionOfListsInorder(r, [args[i].name]);
      } else if !args[i].Ref? {
        assert Named(args[i..], {}) == Named(args[i + 1..], {});
      }
      i := i + 1;
    }
    ExternalEnd(r);
    assert args[|args|..] == [];
  }

  lemma ExternalStart(args: seq<Arg>)
    ensures args[0..] == args && [] + Named(args, {}) == Named(args, {})
  {}

  lemma ExternalStep(r: seq<Name>, l: Name, rest: seq<Name>)
    ensures Dedup(r + ([l] + rest)) == Dedup(Dedup(r + [l]) + rest)
  {
    assert r + ([l] + rest) == r + [l] + rest;
    DedupTwice(r + [l], rest);
  }

  lemma ExternalEnd(r: seq<Name>)
    requires NoDup(r)
    ensures Dedup(r + Named([], {})) == r
  {
    DedupLength(r);
    assert r + [] == r;
  }

  /** Removing duplicates early changes nothing. */
  lemma {:induction false} DedupTwice<T(!new)>(a: seq<T>, b: seq<T>)
    ensures Dedup(Dedup(a) + b) == Dedup(a + b)
    decreases |b|
  {
    if b == [] {
      assert Dedup(a) + b == Dedup(a) && a + b == a;
      DedupLength(Dedup(a));
    } else {
      var b' := b[..|b| - 1];
      assert (a + b)[..|a + b| - 1] == a + b';
      assert (Dedup(a) + b)[..|Dedup(a) + b| - 1] == Dedup(a) + b';
      DedupTwice(a, b');
    }
  }

  lemma NamedStep(args: seq<Arg>, k: nat, pads: set<Name>)
    requires k < |args|
    ensures Named(args[k..], pads) ==
      (if args[k].Ref? && args[k].name !in pads then [args[k].name] else []) + Named(args[k + 1..], pads)
  {
    assert args[k..][1..] == args[k + 1..];
  }

  lemma BelowLine(g: LabelGraph, rank: map<Name, nat>, top: nat, l: Name)
    requires Ranked(g, rank, top) && l in g.toks
    ensures Below(g, rank, RefsIn(g.toks[l], g.pads), rank[l])
  {}

  lemma LineRefs(toks: seq<Token>, k: nat, pads: set<Name>)
    requires k < |toks|
    ensures RefsIn(toks[k..], pads) == Refs(toks[k], pads) + RefsIn(toks[k + 1..], pads)
  {
    assert toks[k..][1..] == toks[k + 1..];
  }

  lemma BelowParts(g: LabelGraph, rank: map<Name, nat>, a: seq<Name>, b: seq<Name>, bound: nat)
    requires Below(g, rank, a + b, bound)
    ensures Below(g, rank, a, bound) && Below(g, rank, b, bound)
  {
    assert forall x :: x in a ==> x in a + b;
    assert forall x :: x in b ==> x in a + b;
  }

  /** `extractlabels`: the data labels of a token, and of the lines of the labels found. */
  method ExtractLabels(g: LabelGraph, ghost rank: map<Name, nat>, ghost top: nat, t: Token, ghost bound: nat)
    returns (r: Result<seq<Name>>)
    requires Ranked(g, rank, top) && Below(g, rank, Refs(t, g.pads), bound)
    ensures r == FromRefs(g, rank, top, Refs(t, g.pads), [], bound)
    decreases bound, 0
  {
    hide Ranked, Below, Refs, RefsIn, Named;
    RefsAre(t, g.pads);
    var labels := [];
    var args, i := ArgsOf(t), 0;
    assert args[0..] == args;
    if !OutOfOrder(t) {
      while i < |args|
        invariant i <= |args| && Below(g, rank, Named(args[i..], g.pads), bound)
        invariant FromRefs(g, rank, top, Refs(t, g.pads), [], bound)
               == FromRefs(g, rank, top, Named(args[i..], g.pads), labels, bound)
      {
        NamedStep(args, i, g.pads);
        if args[i].Ref? && args[i].name !in g.pads {
          var l := args[i].name;
          assert Named(args[i..], g.pads)[1..] == Named(args[i + 1..], g.pads);
          BelowParts(g, rank, [l], Named(args[i + 1..], g.pads), bound);
          if l !in g.toks {
            return Err(LabelNotFound);
          }
          BelowFirst(g, rank, l, bound);
          var vlb := [l];
          if l in g.dependents {
            vlb := vlb + g.dependents[l];
          }
          labels := UnionOfListsInorder(labels, vlb);
          assert vlb == With(g, l);
          BelowLine(g, rank, top, l);
          var sub := ExtractFromLines(g, rank, top, g.toks[l], labels, rank[l]);
          if sub.Err? {
            return Err(sub.error);
          }
          labels := sub.value;
        } else {
          assert Named(args[i..], g.pads) == Named(args[i + 1..], g.pads);
        }
        i := i + 1;
      }
      NamedNothing(g.pads);
      assert args[|args|..] == [];
    }
    return Ok(labels);
  }

  lemma NamedNothing(pads: set<Name>)
    ensures Named([], pads) == []
  {}

  lemma RefsAre(t: Token, pads: set<Name>)
    ensures Refs(t, pads) == if OutOfOrder(t) then [] else Named(ArgsOf(t), pads)
  {}

  lemma BelowFirst(g: LabelGraph, rank: map<Name, nat>, l: Name, bound: nat)
    requires Below(g, rank, [l], bound) && l in g.toks
    ensures l in rank && rank[l] < bound
  {
    assert l in [l];
  }

  /** The loop over a run of lines, as in the label recursion and in the job loop. */
  method ExtractFromLines(g: LabelGraph, ghost rank: map<Name, nat>, ghost top: nat, toks: seq<Token>, acc: seq<Name>,
                          ghost bound: nat)
    returns (r: Result<seq<Name>>)
    requires Ranked(g, rank, top) && Below(g, rank, RefsIn(toks, g.pads), bound)
    ensures r == FromLines(g, rank, top, toks, acc, bound)
    decreases bound, 1
  {
    hide Ranked, Below, Refs, RefsIn, FromRefs;
    var labels, i := acc, 0;
    assert toks[0..] == toks;
    while i < |toks|
      invariant i <= |toks| && Below(g, rank, RefsIn(toks[i..], g.pads), bound)
      invariant FromLines(g, rank, top, toks, acc, bound) == FromLines(g, rank, top, toks[i..], labels, bound)
    {
      LineRefs(toks, i, g.pads);
      assert toks[i..][0] == toks[i] && toks[i..][1..] == toks[i + 1..];
      BelowParts(g, rank, Refs(toks[i], g.pads), RefsIn(toks[i + 1..], g.pads), bound);
      var elb := ExtractLabels(g, rank, top, toks[i], bound);
      if elb.Err? {
        return Err(elb.error);
      }
      labels := UnionOfListsInorder(labels, elb.value);
      i := i + 1;
    }
    return Ok(labels);
  }

  /** `getdatasectionsize`. */
  method DataSectionSize(v: View, labels: seq<Name>) returns (r: Result<nat>)
    ensures r == DataSize(v, labels)
  {
    hide View.AlignOf, View.LabelSize;
    var dsize16, dsize4, i := 0, 0, 0;
    while i < |labels|
      invariant i <= |labels|
      invariant DataSize(v, labels[i..]).Ok? == DataSize(v, labels).Ok?
      invariant DataSize(v, labels).Ok? ==>
        DataSize(v, labels).value == dsize16 + dsize4 + DataSize(v, labels[i..]).value
    {
      assert labels[i..][0] == labels[i] && labels[i..][1..] == labels[i + 1..];
      var a := v.AlignOf(labels[i]);
      if a == Some(16) {
        dsize16 := dsize16 + v.LabelSize(labels[i]);
      } else if a.Some? {
        dsize4 := dsize4 + v.LabelSize(labels[i]);
      } else {
        return Err(UnknownAlignment);
      }
      i := i + 1;
    }
    return Ok(dsize4 + dsize16);
  }

  /** One sweep of the sort: the labels of one alignment, in order. */
  method Sweep(v: View, clist: seq<Name>, a: nat, labels: seq<Name>) returns (r: seq<Name>)
    ensures r == labels + WithAlign(v, clist, a)
  {
    hide View.AlignOf;
    r := labels;
    var i := 0;
    while i < |clist|
      invariant i <= |clist| && r + WithAlign(v, clist[i..], a) == labels + WithAlign(v, clist, a)
    {
      assert clist[i..][1..] == clist[i + 1..];
      if v.AlignOf(clist[i]) == Some(a) {
        r := r + [clist[i]];
      }
      i := i + 1;
    }
  }

  /** `labelalignmentsorter`. */
  method LabelAlignmentSorter(v: View, clist: seq<Name>) returns (labels: seq<Name>)
    ensures labels == Sorted(v, clist)
  {
    hide WithAlign;
    labels := Sweep(v, clist, 16, []);
    labels := Sweep(v, clist, 4, labels);
  }

  lemma JobsToksStep(v: View, jobs: seq<JobId>, k: nat)
    requires k < |jobs|
    ensures JobsToks(v, jobs[k..]) == v.JobToks(jobs[k]) + JobsToks(v, jobs[k + 1..])
    ensures JobsSize(v, jobs[k..]) == v.JobSize(jobs[k]) + JobsSize(v, jobs[k + 1..])
  {
    assert jobs[k..][1..] == jobs[k + 1..];
  }

  lemma ExternalsStep(t: seq<Token>, i: nat, rest: seq<Token>, acc: seq<Name>)
    requires i < |t|
    ensures ExternalsFrom(t[i..] + rest, acc) == ExternalsFrom(t[i + 1..] + rest, Dedup(acc + Externals(t[i])))
  {
    assert (t[i..] + rest)[1..] == t[i + 1..] + rest;
  }

  lemma FromLinesStep(g: LabelGraph, rank: map<Name, nat>, top: nat, t: seq<Token>, i: nat, rest: seq<Token>,
                      acc: seq<Name>)
    requires i < |t| && Ranked(g, rank, top) && Below(g, rank, RefsIn(t[i..] + rest, g.pads), top)
    ensures Below(g, rank, Refs(t[i], g.pads), top) && Below(g, rank, RefsIn(t[i + 1..] + rest, g.pads), top)
    ensures FromLines(g, rank, top, t[i..] + rest, acc, top) ==
      (var sub := FromRefs(g, rank, top, Refs(t[i], g.pads), [], top);
       if sub.Err? then Err(sub.error) else FromLines(g, rank, top, t[i + 1..] + rest, Dedup(acc + sub.value), top))
  {
    var all := t[i..] + rest;
    assert all[0] == t[i] && all[1..] == t[i + 1..] + rest;
    BelowParts(g, rank, Refs(t[i], g.pads), RefsIn(all[1..], g.pads), top);
    hide Ranked, Below, Refs, FromRefs;
  }

  /** The loop over the tokens of a group's jobs: labels, page labels and text size. */
  method CollectLabels(v: View, g: LabelGraph, ghost ranks: Ranks, jobs: seq<JobId>)
    returns (e: Option<Error>, labels: seq<Name>, externals: seq<Name>, tsize: nat)
    requires Ranked(g, ranks.labels, ranks.top) && Below(g, ranks.labels, RefsIn(JobsToks(v, jobs), g.pads), ranks.top)
    ensures var l := FromLines(g, ranks.labels, ranks.top, JobsToks(v, jobs), [], ranks.top);
      if l.Err? then e == Some(l.error) else
      && e == None && labels == l.value
      && externals == ExternalsFrom(JobsToks(v, jobs), []) && tsize == JobsSize(v, jobs)
  {
    hide Ranked, Below, FromLines, FromRefs, View.JobToks, View.JobSize, RefsIn, Refs, JobsToks, JobsSize,
      ExternalsFrom, Externals;
    e, labels, externals, tsize := None, [], [], 0;
    ghost var all := JobsToks(v, jobs);
    ListEnds(v, jobs);
    var d := 0;
    while d < |jobs|
      invariant d <= |jobs| && tsize + JobsSize(v, jobs[d..]) == JobsSize(v, jobs) && e == None
      invariant Below(g, ranks.labels, RefsIn(JobsToks(v, jobs[d..]), g.pads), ranks.top)
      invariant FromLines(g, ranks.labels, ranks.top, JobsToks(v, jobs[d..]), labels, ranks.top)
             == FromLines(g, ranks.labels, ranks.top, all, [], ranks.top)
      invariant ExternalsFrom(JobsToks(v, jobs[d..]), externals) == ExternalsFrom(all, [])
    {
      JobsToksStep(v, jobs, d);
      tsize := tsize + v.JobSize(jobs[d]);
      var t, i := v.JobToks(jobs[d]), 0;
      ghost var rest := JobsToks(v, jobs[d + 1..]);
      assert t[0..] == t;
      while i < |t|
        invariant i <= |t| && Below(g, ranks.labels, RefsIn(t[i..] + rest, g.pads), ranks.top) && e == None
        invariant FromLines(g, ranks.labels, ranks.top, t[i..] + rest, labels, ranks.top)
               == FromLines(g, ranks.labels, ranks.top, all, [], ranks.top)
        invariant ExternalsFrom(t[i..] + rest, externals) == ExternalsFrom(all, [])
      {
        FromLinesStep(g, ranks.labels, ranks.top, t, i, rest, labels);
        ExternalsStep(t, i, rest, externals);
        var elb := ExtractLabels(g, ranks.labels, ranks.top, t[i], ranks.top);
        if elb.Err? {
          e := Some(elb.error);
          return;
        }
        labels := UnionOfListsInorder(labels, elb.value);
        var eelb := ExtractExternalLabels(t[i]);
        externals := UnionOfListsInorder(externals, eelb);
        i := i + 1;
      }
      assert t[|t|..] + rest == rest;
      d := d + 1;
    }
    NothingLeft(g, ranks, labels, externals);
  }

  /** `extractjobsandlabels`. */
  method ExtractJobsAndLabels(v: View, ghost ranks: Ranks, j: JobId)
    returns (e: Option<Error>, jobs: seq<JobId>, labels: seq<Name>, externals: seq<Name>, tsize: nat)
    requires Ready(v, ranks) && j in v.s.jobs
    ensures v.Valid() && GraphOf(v).Valid() && Acyclic(GraphOf(v), ranks.jobs)
      && Ranked(LabelsOf(v), ranks.labels, ranks.top)
    ensures var r := Extract(GraphOf(v), ranks.jobs, j);
      if r.Err? then e == Some(r.error) else
      Below(LabelsOf(v), ranks.labels, RefsIn(JobsToks(v, r.value), v.pads), ranks.top) &&
      var l := FromLines(LabelsOf(v), ranks.labels, ranks.top, JobsToks(v, r.value), [], ranks.top);
      if l.Err? then e == Some(l.error) else
      && e == None && jobs == r.value && labels == l.value
      && externals == ExternalsFrom(JobsToks(v, jobs), []) && tsize == JobsSize(v, jobs)
  {
    hide Ready, View.Valid, Jobs.Graph.Valid, Acyclic, Ranked, Below, LabelsOf, GraphOf, FromLines, Extracted, RefsIn,
      JobsToks, JobsSize, ExternalsFrom, Extract;
    ReadyParts(v, ranks);
    GraphFields(v);
    var found := ExtractJobs(GraphOf(v), ranks.jobs, j);
    if found.Err? {
      return Some(found.error), [], [], [], 0;
    }
    jobs := found.value;
    AllBelow(v, ranks, RefsIn(JobsToks(v, jobs), v.pads));
    e, labels, externals, tsize := CollectLabels(v, LabelsOf(v), ranks, jobs);
  }

  lemma ListEnds(v: View, jobs: seq<JobId>)
    ensures jobs[0..] == jobs && jobs[|jobs|..] == [] && JobsToks(v, []) == [] && JobsSize(v, []) == 0
  {}

  lemma NothingLeft(g: LabelGraph, ranks: Ranks, labels: seq<Name>, externals: seq<Name>)
    requires Ranked(g, ranks.labels, ranks.top) && Below(g, ranks.labels, RefsIn([], g.pads), ranks.top)
    ensures FromLines(g, ranks.labels, ranks.top, [], labels, ranks.top) == Ok(labels)
    ensures ExternalsFrom([], externals) == externals
  {}

  /** A job's group with all its sizes. */
  method Gather(v: View, ghost ranks: Ranks, j: JobId) returns (r: Result<Group>)
    requires Ready(v, ranks) && j in v.s.jobs
    ensures r == GroupOf(v, ranks, j)
  {
    hide Ready, View.Valid, Extract, FromLines, LabelsOf, GraphOf, Jobs.Graph.Valid, Acyclic, Ranked, Below, RefsIn,
      JobsToks, JobsSize, ExternalsFrom, DataSize;
    var e, jobs, labels, externals, tsize := ExtractJobsAndLabels(v, ranks, j);
    GraphFields(v);
    if e.Some? {
      return Err(e.value);
    }
    var dsize := DataSectionSize(v, labels);
    if dsize.Err? {
      return Err(dsize.error);
    }
    return Ok(Group(jobs, labels, externals, tsize, dsize.value));
  }

  // ---------- pages ----------

  /** The tokens of a list of jobs, copied one by one. */
  method CollectText(v: View, jobs: seq<JobId>) returns (text: seq<Token>)
    ensures text == JobsToks(v, jobs)
  {
    hide View.JobToks;
    text := [];
    var d := 0;
    ListEnds(v, jobs);
    while d < |jobs|
      invariant d <= |jobs| && text + JobsToks(v, jobs[d..]) == JobsToks(v, jobs)
    {
      JobsToksStep(v, jobs, d);
      text := text + v.JobToks(jobs[d]);
      d := d + 1;
    }
  }

  method CollectData(v: View, labels: seq<Name>) returns (data: seq<Token>)
    ensures data == LabelsToks(v, labels)
  {
    hide View.LabelToks;
    data := [];
    var d := 0;
    assert labels[0..] == labels;
    while d < |labels|
      invariant d <= |labels| && data + LabelsToks(v, labels[d..]) == LabelsToks(v, labels)
    {
      assert labels[d..][1..] == labels[d + 1..];
      data := data + v.LabelToks(labels[d]);
      d := d + 1;
    }
  }

  /** The pages of a column and the page number of every placed job. */
  class Paging {
    var pages: seq<Page>
    var pagenum: map<JobId, nat>

    constructor (before: seq<Page>)
      ensures pages == before && pagenum == map[]
    {
      pages, pagenum := before, map[];
    }

    function Entries(open: Group): Book
      reads this
    {
      Book(pages, pagenum, open)
    }

    method NumberJobs(jobs: seq<JobId>, n: nat)
      modifies `pagenum
      ensures pagenum == old(pagenum) + Numbers(jobs, n)
    {
      var d := 0;
      while d < |jobs|
        invariant d <= |jobs| && pagenum == old(pagenum) + Numbers(jobs[..d], n)
      {
        pagenum := pagenum[jobs[d] := n];
        d := d + 1;
      }
      assert jobs[..|jobs|] == jobs;
    }

    /** `assignpagenumber`. */
    method AssignPageNumber(v: View, col: nat, g: Group, last: bool, base: nat) returns (e: Option<Error>)
      requires v.Valid() && g.jobs != [] && g.jobs[0].Job?
      modifies this
      ensures var r := Conclude(v, col, base, old(Entries(g)), last);
        if e.None? then r == Ok(Entries(EMPTY)) else r == Err(e.value)
    {
      hide View.Valid, Sorted, JobsToks, LabelsToks, Aligner, RoundUp4;
      if g.jobs == [] || g.jobs == [EofJob] {
        return None;
      }
      var labels := LabelAlignmentSorter(v, g.labels);
      var n := |pages|;
      EofToken(v);
      var text := CollectText(v, g.jobs);
      var data := CollectData(v, labels);
      if EofJob !in v.s.jobs || v.s.jobs[EofJob].first >= |v.toks| {
        return Some(NoEof);
      }
      NumberJobs(g.jobs, n);
      text := text + [v.toks[v.s.jobs[EofJob].first]];
      var aligner := if g.dsize > 0 then Aligner(g.tsize) else 0;
      if aligner > 0 {
        text := text + [Align(16)];
      }
      var len := RoundUp4(HEADER + g.tsize + EOF_SIZE + aligner + g.dsize);
      var lpage := Page(col, n, last, len, 0, 0, 0, g.externals, text, data, g.jobs, labels);
      assert lpage == MakePage(v, col, n, g, last);
      pages := pages + [lpage];
      if |pages| > 1 && |pages| - 2 >= base {
        pages := pages[|pages| - 2 := pages[|pages| - 2].(nextLen := len)];
      }
      assert pages == Push(old(pages), lpage, base);
      ghost var b := old(Entries(g));
      assert pagenum == b.placed + Numbers(b.open.jobs, |b.pages|);
      assert Conclude(v, col, base, b, last) == Ok(Entries(EMPTY));
      return None;
    }

    /** `pagify`: the greedy loop. */
    method Pagify(v: View, ghost ranks: Ranks, size: nat, col: nat) returns (e: Option<Error>)
      requires Ready(v, ranks) && pagenum == map[]
      modifies this
      ensures var r := Pages.Pagify(v, ranks, size, col, old(pages));
        if e.None? then r == Ok(pages) else r == Err(e.value)
    {
      hide Ready, View.Valid, Conclude, Place, RunOk, Finish, Footprint;
      ReadyValid(v, ranks);
      IdsKnown(v);
      ghost var before := pages;
      var base, open, ids, i := |pages|, EMPTY, v.s.jobids, 0;
      StartRun(v, size, col, before);
      assert ids[0..] == ids && ids[..0] == [];
      while i < |ids|
        invariant i <= |ids| && RunOk(v, size, col, before, ids[..i], Entries(open))
        invariant PlaceAll(v, ranks, size, col, base, Entries(open), ids[i..])
               == PlaceAll(v, ranks, size, col, base, Book(before, map[], EMPTY), ids)
      {
        assert ids[i..][0] == ids[i] && ids[i..][1..] == ids[i + 1..] && ids[..i + 1] == ids[..i] + [ids[i]];
        assert ids[i] in v.s.jobids;
        PlaceRun(v, ranks, size, col, before, ids[..i], Entries(open), ids[i]);
        e, open := Turn(v, ranks, size, col, base, before, ids[..i], open, ids[i]);
        if e.Some? {
          return;
        }
        i := i + 1;
      }
      assert ids[..i] == ids && ids[i..] == [];
      e := Close(v, size, col, base, before, ids, open);
    }

    /** One job id of the loop. */
    method Turn(v: View, ghost ranks: Ranks, size: nat, col: nat, base: nat, ghost before: seq<Page>,
                ghost done: seq<JobId>,
                open: Group, j: JobId)
      returns (e: Option<Error>, open': Group)
      requires Ready(v, ranks) && j in v.s.jobs && RunOk(v, size, col, before, done, Entries(open)) && base == |before|
      modifies this
      ensures var r := Place(v, ranks, size, col, base, old(Entries(open)), j);
        if e.None? then r == Ok(Entries(open')) else r == Err(e.value)
    {
      hide Ready, View.Valid, Conclude, RunOk, Footprint, GroupOf;
      ReadyValid(v, ranks);
      OpenStarts(v, size, col, before, done, Entries(open));
      e, open' := None, open;
      if j in pagenum || j in open.jobs || j.EofJob? {
        return;
      }
      if j.EopJob? {
        if open.jobs == [] {
          return;
        }
        e := AssignPageNumber(v, col, open, false, base);
        open' := EMPTY;
        return;
      }
      var group := Gather(v, ranks, j);
      if group.Err? {
        e := Some(group.error);
        return;
      }
      var g := group.value;
      if Footprint(g.tsize, g.dsize) > size {
        e := Some(TooBig);
        return;
      }
      if Footprint(open.tsize + g.tsize, open.dsize + g.dsize) > size {
        if open.jobs == [] {
          ConcludeNothing(v, col, base, Entries(open));
        } else {
          e := AssignPageNumber(v, col, open, false, base);
          if e.Some? {
            return;
          }
        }
        open' := EMPTY;
      }
      open' := Pages.Join(open', g);
    }

    /** After the loop: the last open page, or the flag. */
    method Close(v: View, ghost size: nat, col: nat, base: nat, ghost before: seq<Page>, ghost done: seq<JobId>,
                 open: Group)
      returns (e: Option<Error>)
      requires v.Valid() && RunOk(v, size, col, before, done, Entries(open)) && base == |before|
      modifies this
      ensures var r := Finish(v, col, base, old(Entries(open)));
        if e.None? then r == Ok(pages) else r == Err(e.value)
    {
      hide View.Valid, Conclude, RunOk;
      OpenStarts(v, size, col, before, done, Entries(open));
      e := None;
      if open.jobs != [] {
        e := AssignPageNumber(v, col, open, true, base);
      } else if |pages| - base > 0 {
        var k := |pages| - base - 1;
        pages := pages[k := pages[k].(last := true)];
      }
    }
  }

  lemma OpenStarts(v: View, size: nat, col: nat, before: seq<Page>, done: seq<JobId>, b: Book)
    requires RunOk(v, size, col, before, done, b)
    ensures b.open.jobs != [] ==> b.open.jobs[0].Job?
    ensures b.open.jobs == [] ==> b.open == EMPTY
    ensures |b.pages| >= |before|
  {
    hide PlacedOk, Covered, PagesOk, Chained, NoneLast;
  }
}
