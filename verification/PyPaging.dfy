/** The second pager's loops (`pager.py`), proved against `PyPager`. */
module PyPaging {
  import opened Base
  import opened Program
  import opened Structure
  import opened View
  import opened Jobs
  import opened Labels
  import opened Pages
  import opened PageLaws
  import opened PyPager
  import opened Pager

  /** `extractjobs`: the worklist re-reads its length every turn. */
  method PyExtractJobs(g: Graph, j: JobId) returns (r: Result<seq<JobId>>)
    requires g.Valid() && j in g.jobs
    ensures r == PyExtract(g, j)
  {
    hide Round, Jobs.Graph.Valid;
    SeedInv(g, j);
    var ids, bars, eop, i := [j], g.jobs[j].barriers, g.jobs[j].eop, 0;
    while i < |bars|
      invariant Known(g, bars) && i <= |bars| && (i == 0 || NoDup(bars))
      invariant Loop(g, eop, bars, ids, i) == Loop(g, eop, g.jobs[j].barriers, [j], 0)
      decreases |g.barriers.Keys| - i
    {
      Turn(g, eop, bars, i);
      var jj := g.barriers[bars[i]];
      var merged := MergeBarriers(g, eop, bars, jj);
      if merged.Err? {
        return Err(merged.error);
      }
      bars := merged.value;
      ids := UnionOfListsInorder(ids, jj);
      i := i + 1;
    }
    ids := UnionOfListsInorder(ids, g.jobs[j].launches);
    return Ok(ids);
  }

  /** The `skip_jobids` comprehension. */
  method SkipJobs(jobs: seq<JobId>, skip: seq<JobId>) returns (r: seq<JobId>)
    ensures r == Skip(jobs, skip)
  {
    r := [];
    var i := 0;
    assert jobs[0..] == jobs;
    while i < |jobs|
      invariant i <= |jobs| && r + Skip(jobs[i..], skip) == Skip(jobs, skip)
    {
      assert jobs[i..][0] == jobs[i] && jobs[i..][1..] == jobs[i + 1..];
      if jobs[i] !in skip {
        r := r + [jobs[i]];
      }
      i := i + 1;
    }
    assert jobs[i..] == [];
  }

  /** `extractjobsandlabels` and `getdatasectionsize`. */
  method PyGather(v: View, ghost ranks: Ranks, j: JobId, skip: seq<JobId>) returns (r: Result<Group>)
    requires Ready(v, ranks) && j in v.s.jobs
    ensures r == PyGroupOf(v, ranks, j, skip)
  {
    hide Ready, View.Valid, PyExtract, FromLines, GraphOf, Jobs.Graph.Valid, Acyclic, Ranked, Below, RefsIn, JobsToks,
      JobsSize, ExternalsFrom, DataSize, Skip, PyLabelsOf;
    ReadyParts(v, ranks);
    GraphFields(v);
    PyPads(v);
    var found := PyExtractJobs(GraphOf(v), j);
    if found.Err? {
      return Err(found.error);
    }
    var jobs := SkipJobs(found.value, skip);
    PyBelow(v, ranks, RefsIn(JobsToks(v, jobs), v.pads));
    var e, labels, externals, tsize := CollectLabels(v, PyLabelsOf(v), ranks, jobs);
    if e.Some? {
      return Err(e.value);
    }
    var dsize := DataSectionSize(v, labels);
    if dsize.Err? {
      return Err(dsize.error);
    }
    return Ok(Group(jobs, labels, externals, tsize, dsize.value));
  }

  lemma PyPads(v: View)
    ensures PyLabelsOf(v).pads == v.pads
  {}

  /** Pages of one call, and the page of every placed job. */
  class PyPages {
    const base: nat
    var pages: seq<PyPage>
    var pagenum: map<JobId, nat>

    constructor (base: nat)
      ensures this.base == base && pages == [] && pagenum == map[]
    {
      this.base, pages, pagenum := base, [], map[];
    }

    function Entries(open: Group): PyBook
      reads this
    {
      PyBook(pages, pagenum, open)
    }

    /** `assignpagenumber`. */
    method AssignPageNumber(v: View, g: Group, last: bool) returns (e: Option<Error>)
      modifies this
      ensures var r := PyConclude(v, base, old(Entries(g)), last);
        if e.None? then r == Ok(Entries(EMPTY)) else r == Err(e.value)
    {
      hide Sorted, JobsToks, LabelsToks, Aligner, RoundUp4;
      var labels := LabelAlignmentSorter(v, g.labels);
      var text := CollectText(v, g.jobs);
      var data := CollectData(v, labels);
      if EofJob !in v.s.jobs || v.s.jobs[EofJob].first >= |v.toks| {
        return Some(NoEof);
      }
      var n := base + |pages|;
      NumberJobs(g.jobs, n);
      text := text + [v.toks[v.s.jobs[EofJob].first]];
      var len := RoundUp4(g.tsize + g.dsize + (if g.dsize > 0 then Aligner(g.tsize) else 0) + HEADER + EOF_SIZE);
      var page := PyPage(n, last, len, 0, g.externals, g.jobs, labels, text, data);
      assert page == PyMakePage(v, n, g, last);
      pages := pages + [page];
      if |pages| > 1 {
        pages := pages[|pages| - 2 := pages[|pages| - 2].(nextLen := len)];
      }
      assert pages == PyPush(old(pages), page);
      return None;
    }

    method NumberJobs(jobs: seq<JobId>, n: nat)
      modifies `pagenum
      ensures pagenum == old(pagenum) + Numbers(jobs, n)
    {
      var d := 0;
      while d < |jobs|
        invariant d <= |jobs| && pagenum == old(pagenum) + Numbers(jobs[..d], n)
      {
        pagenum := pagenum[jobs[d] := n];
        d := d + 1;
      }
      assert jobs[..|jobs|] == jobs;
    }

    /** One job id of the loop. */
    method Turn(v: View, ghost ranks: Ranks, size: nat, open: Group, j: JobId) returns (e: Option<Error>, open': Group)
      requires Ready(v, ranks) && j in v.s.jobs
      modifies this
      ensures var r := PyPlace(v, ranks, size, base, old(Entries(open)), j);
        if e.None? then r == Ok(Entries(open')) else r == Err(e.value)
    {
      hide Ready, View.Valid, PyConclude, Footprint, PyGroupOf;
      e, open' := None, open;
      if j in pagenum || j in open.jobs || j.EofJob? {
        return;
      }
      if j.EopJob? {
        if |open.jobs| > 0 {
          e := AssignPageNumber(v, open, false);
          open' := EMPTY;
        }
        return;
      }
      var group := PyGather(v, ranks, j, open.jobs);
      if group.Err? {
        e := Some(group.error);
        return;
      }
      var g := group.value;
      if Footprint(g.tsize, g.dsize) > size {
        e := Some(TooBig);
        return;
      }
      if Footprint(open.tsize + g.tsize, open.dsize + g.dsize) > size {
        e := AssignPageNumber(v, open, false);
        if e.Some? {
          return;
        }
        open' := EMPTY;
      }
      open' := Pages.Join(open', g);
    }

    /** `pagify`. */
    method Pagify(v: View, ghost ranks: Ranks, size: nat) returns (e: Option<Error>)
      requires Ready(v, ranks) && pages == [] && pagenum == map[]
      modifies this
      ensures var r := PyPagify(v, ranks, size, base);
        if e.None? then r == Ok(pages) else r == Err(e.value)
    {
      hide Ready, View.Valid, PyConclude, PyPlace;
      ReadyValid(v, ranks);
      IdsKnown(v);
      var open, ids, i := EMPTY, v.s.jobids, 0;
      e := None;
      assert ids[0..] == ids;
      while i < |ids|
        invariant i <= |ids| && e == None
        invariant PyPlaceAll(v, ranks, size, base, Entries(open), ids[i..])
               == PyPlaceAll(v, ranks, size, base, PyBook([], map[], EMPTY), ids)
      {
        assert ids[i..][0] == ids[i] && ids[i..][1..] == ids[i + 1..];
        assert ids[i] in v.s.jobids;
        e, open := Turn(v, ranks, size, open, ids[i]);
        if e.Some? {
          return;
        }
        i := i + 1;
      }
      assert ids[i..] == [];
      if |open.jobs| > 0 {
        e := AssignPageNumber(v, open, true);
      } else if |pages| > 0 {
        pages := pages[|pages| - 1 := pages[|pages| - 1].(last := true)];
      }
    }
  }
}
