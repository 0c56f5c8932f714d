/** The second pager (`pager.py`) and its agreement with the first. */
module PyPager {
  import opened Base
  import opened Program
  import opened Structure
  import opened View
  import opened Jobs
  import opened Labels
  import opened Pages
  import opened PageLaws
  import opened Partition
  import opened Forget
  import opened LastPage

  datatype PyPage = PyPage(num: nat, last: bool, len: nat, nextLen: nat, externals: seq<Name>,
                           jobs: seq<JobId>, labels: seq<Name>, text: seq<Token>, data: seq<Token>)

  /** `extractjobs`: one barrier closure and the jobs the seed itself launches, no recursion. */
  function PyExtract(g: Graph, j: JobId): Result<seq<JobId>>
    requires g.Valid() && j in g.jobs
  {
    SeedInv(g, j);
    var ids :- Loop(g, g.jobs[j].eop, g.jobs[j].barriers, [j], 0);
    Ok(Dedup(ids + g.jobs[j].launches))
  }

  /** `[x for x in … if x not in skip_jobids]`. */
  function Skip(jobs: seq<JobId>, skip: seq<JobId>): seq<JobId> {
    if jobs == [] then [] else (if jobs[0] in skip then [] else [jobs[0]]) + Skip(jobs[1..], skip)
  }

  /** This pager never adds dependent labels. */
  function PyLabelsOf(v: View): LabelGraph {
    LabelsOf(v).(dependents := map[])
  }

  lemma PyBelow(v: View, ranks: Ranks, refs: seq<Name>)
    requires Ready(v, ranks)
    ensures Ranked(PyLabelsOf(v), ranks.labels, ranks.top) && Below(PyLabelsOf(v), ranks.labels, refs, ranks.top)
  {}

  /** `extractjobsandlabels` and `getdatasectionsize`. */
  function PyGroupOf(v: View, ghost ranks: Ranks, j: JobId, skip: seq<JobId>): Result<Group>
    requires Ready(v, ranks) && j in v.s.jobs
  {
    var found :- PyExtract(GraphOf(v), j);
    var jobs := Skip(found, skip);
    var toks := JobsToks(v, jobs);
    PyBelow(v, ranks, RefsIn(toks, v.pads));
    var labels :- FromLines(PyLabelsOf(v), ranks.labels, ranks.top, toks, [], ranks.top);
    var dsize :- DataSize(v, labels);
    Ok(Group(jobs, labels, ExternalsFrom(toks, []), JobsSize(v, jobs), dsize))
  }

  /** Pages of this call only, page numbers of placed jobs, the page being filled. */
  datatype PyBook = PyBook(pages: seq<PyPage>, placed: map<JobId, nat>, open: Group)

  function PyMakePage(v: View, num: nat, g: Group, last: bool): PyPage
    requires EofJob in v.s.jobs && v.s.jobs[EofJob].first < |v.toks|
  {
    var labels := Sorted(v, g.labels);
    PyPage(num, last, RoundUp4(g.tsize + g.dsize + TextGap(g) + HEADER + EOF_SIZE), 0, g.externals, g.jobs, labels,
           JobsToks(v, g.jobs) + [v.toks[v.s.jobs[EofJob].first]], LabelsToks(v, labels))
  }

  function PyPush(pages: seq<PyPage>, p: PyPage): seq<PyPage> {
    if |pages| > 0 then pages[|pages| - 1 := pages[|pages| - 1].(nextLen := p.len)] + [p] else [p]
  }

  /** `assignpagenumber`, and the reset its callers do after it. */
  function PyConclude(v: View, base: nat, b: PyBook, last: bool): Result<PyBook> {
    if EofJob !in v.s.jobs || v.s.jobs[EofJob].first >= |v.toks| then Err(NoEof) else
    var n := base + |b.pages|;
    Ok(PyBook(PyPush(b.pages, PyMakePage(v, n, b.open, last)), b.placed + Numbers(b.open.jobs, n), EMPTY))
  }

  function PyPlace(v: View, ghost ranks: Ranks, size: nat, base: nat, b: PyBook, j: JobId): Result<PyBook>
    requires Ready(v, ranks) && j in v.s.jobs
  {
    if j in b.placed || j in b.open.jobs || j.EofJob? then Ok(b) else
    if j.EopJob? then (if b.open.jobs == [] then Ok(b) else PyConclude(v, base, b, false)) else
    var g :- PyGroupOf(v, ranks, j, b.open.jobs);
    if Footprint(g.tsize, g.dsize) > size then Err(TooBig) else
    var b' :- if Footprint(b.open.tsize + g.tsize, b.open.dsize + g.dsize) > size then PyConclude(v, base, b, false)
      else Ok(b);
    Ok(b'.(open := Pages.Join(b'.open, g)))
  }

  function PyPlaceAll(v: View, ghost ranks: Ranks, size: nat, base: nat, b: PyBook, ids: seq<JobId>): Result<PyBook>
    requires Ready(v, ranks) && forall j :: j in ids ==> j in v.s.jobs
    decreases |ids|
  {
    if ids == [] then Ok(b) else
    var b' :- PyPlace(v, ranks, size, base, b, ids[0]);
    PyPlaceAll(v, ranks, size, base, b', ids[1..])
  }

  function PyFinish(v: View, base: nat, b: PyBook): Result<seq<PyPage>> {
    if b.open.jobs != [] then
      var b' :- PyConclude(v, base, b, true);
      Ok(b'.pages)
    else if |b.pages| > 0 then Ok(b.pages[|b.pages| - 1 := b.pages[|b.pages| - 1].(last := true)])
    else Ok(b.pages)
  }

  /** `pagify`. */
  function PyPagify(v: View, ghost ranks: Ranks, size: nat, base: nat): Result<seq<PyPage>>
    requires Ready(v, ranks)
  {
    IdsKnown(v);
    var b :- PyPlaceAll(v, ranks, size, base, PyBook([], map[], EMPTY), v.s.jobids);
    PyFinish(v, base, b)
  }

  // ---------- agreement ----------

  lemma {:induction false} SkipNothing(jobs: seq<JobId>, skip: seq<JobId>)
    requires forall j :: j in jobs ==> j !in skip
    ensures Skip(jobs, skip) == jobs
  {
    if jobs != [] {
      SkipNothing(jobs[1..], skip);
    }
  }

  /** A group whose seed is nowhere yet shares no job with the page being filled. */
  lemma GroupIsNew(v: View, ranks: Ranks, base: nat, region: nat, b: Book, j: JobId)
    requires Ready(v, ranks) && NoLaunch(v) && j in v.s.jobs && j.Job? && PartOk(v, base, region, b)
    requires j !in b.placed && j !in b.open.jobs
    ensures var r := Extract(GraphOf(v), ranks.jobs, j); r.Ok? ==> forall k :: k in r.value ==> k !in b.open.jobs
  {
    hide Ready, View.Valid, NoLaunch, Extract, Extracted, RegionsOk, Rows, Acyclic, Ranked, Jobs.Graph.Valid;
    ReadyParts(v, ranks);
    GraphFields(v);
    ExtractCloses(GraphOf(v), ranks.jobs, j);
    NotInRows(v, base, region, b, j);
    RowsAt(b, base);
    var r := Extract(GraphOf(v), ranks.jobs, j);
    if r.Ok? {
      forall k | k in r.value ensures k !in b.open.jobs {
        ExtractedMate(v, j, r.value, k);
        if k in b.open.jobs {
          ClassIsNew(v, Rows(b, base), j, |b.pages| - base, k);
        }
      }
    }
  }

  lemma ExtractedMate(v: View, j: JobId, jobs: seq<JobId>, k: JobId)
    requires NoLaunch(v) && Extracted(GraphOf(v), j, Ok(jobs)) && k in jobs && j in v.s.jobs
    ensures Mates(GraphOf(v), j, k)
  {
    NoLaunchGroups(GraphOf(v), j, k);
  }

  lemma SameExtract(v: View, ranks: Ranks, j: JobId)
    requires Ready(v, ranks) && NoLaunch(v) && j in v.s.jobs
    ensures GraphOf(v).Valid() && Acyclic(GraphOf(v), ranks.jobs)
    ensures Extract(GraphOf(v), ranks.jobs, j) == PyExtract(GraphOf(v), j)
  {
    ReadyParts(v, ranks);
    hide Ready, View.Valid, Loop, Jobs.Graph.Valid, Acyclic, Ranked;
    SeedInv(GraphOf(v), j);
    hide LoopInv;
  }

  /** On a launch-free program the `skip_jobids` filter removes nothing: a job that is nowhere yet gets the
      group it would get on an empty page. */
  lemma SkipIsNoOp(v: View, ranks: Ranks, base: nat, region: nat, b: Book, j: JobId)
    requires Ready(v, ranks) && NoLaunch(v) && j in v.s.jobs && j.Job?
    requires PartOk(v, base, region, b) && j !in b.placed && j !in b.open.jobs
    ensures PyGroupOf(v, ranks, j, b.open.jobs) == PyGroupOf(v, ranks, j, [])
  {
    hide Ready, View.Valid, NoLaunch, Extract, PyExtract, FromLines, PartOk, JobsToks, RefsIn, DataSize, Skip,
      ExternalsFrom, JobsSize, Ranked, Acyclic, Below, Jobs.Graph.Valid;
    ReadyParts(v, ranks);
    SameExtract(v, ranks, j);
    GroupIsNew(v, ranks, base, region, b, j);
    var r := Extract(GraphOf(v), ranks.jobs, j);
    if r.Ok? {
      SkipNothing(r.value, b.open.jobs);
      SkipNothing(r.value, []);
    }
  }

  /** Without tables, both pagers form the same groups. */
  lemma SameGroups(v: View, ranks: Ranks, j: JobId)
    requires Ready(v, ranks) && NoLaunch(v) && v.dependents == map[] && j in v.s.jobs
    ensures PyGroupOf(v, ranks, j, []) == GroupOf(v, ranks, j)
  {
    hide Ready, View.Valid, NoLaunch, Extract, PyExtract, FromLines, JobsToks, RefsIn, DataSize, Skip, ExternalsFrom,
      JobsSize, Ranked, Acyclic, Below, Jobs.Graph.Valid;
    ReadyParts(v, ranks);
    SameExtract(v, ranks, j);
    var r := Extract(GraphOf(v), ranks.jobs, j);
    GraphFields(v);
    if r.Ok? {
      SkipNothing(r.value, []);
      AllBelow(v, ranks, RefsIn(JobsToks(v, r.value), v.pads));
      PyBelow(v, ranks, RefsIn(JobsToks(v, r.value), v.pads));
      assert PyLabelsOf(v) == LabelsOf(v);
    }
  }

  /** Page `i` of one pager and of the other hold the same jobs, labels, lengths and number. */
  ghost predicate SamePage(p: PyPage, q: Page) {
    && p.num == q.num && p.len == q.curLen && p.nextLen == q.nextLen && p.externals == q.externals
    && p.jobs == q.jobs && p.labels == q.labels && p.data == q.data
  }

  ghost predicate SamePages(py: seq<PyPage>, cpp: seq<Page>, base: nat) {
    |cpp| == base + |py| && forall i :: 0 <= i < |py| ==> SamePage(py[i], cpp[base + i])
  }

  ghost predicate SameBook(py: PyBook, b: Book, base: nat) {
    SamePages(py.pages, b.pages, base) && py.placed == b.placed && py.open == b.open
  }

  lemma SamePush(py: seq<PyPage>, cpp: seq<Page>, base: nat, p: PyPage, q: Page)
    requires SamePages(py, cpp, base) && SamePage(p, q)
    ensures SamePages(PyPush(py, p), Push(cpp, q, base), base)
  {
    var a, b := PyPush(py, p), Push(cpp, q, base);
    forall i | 0 <= i < |a| ensures SamePage(a[i], b[base + i]) {
      if i < |py| {
        assert SamePage(py[i], cpp[base + i]);
      }
    }
  }

  lemma Concluded(v: View, col: nat, base: nat, b: Book, last: bool)
    requires EofJob in v.s.jobs && v.s.jobs[EofJob].first < |v.toks| && b.open.jobs != [] && b.open.jobs[0].Job?
    ensures Conclude(v, col, base, b, last) ==
      Ok(Book(Push(b.pages, MakePage(v, col, |b.pages|, b.open, last), base),
        b.placed + Numbers(b.open.jobs, |b.pages|), EMPTY))
  {
    hide MakePage, Push, Numbers;
  }

  lemma SameConclude(v: View, col: nat, base: nat, py: PyBook, b: Book, last: bool)
    requires v.Valid() && SameBook(py, b, base) && b.open.jobs != [] && b.open.jobs[0].Job?
    ensures var x, y := PyConclude(v, base, py, last), Conclude(v, col, base, b, last);
      x.Ok? && y.Ok? && SameBook(x.value, y.value, base)
  {
    hide View.Valid, SamePages, PyMakePage, MakePage, Push, PyPush, Numbers, Conclude;
    EofToken(v);
    var p, q := PyMakePage(v, base + |py.pages|, py.open, last), MakePage(v, col, |b.pages|, b.open, last);
    PageCount(py.pages, b.pages, base);
    SameMade(v, col, |b.pages|, b.open, last);
    SamePush(py.pages, b.pages, base, p, q);
    Concluded(v, col, base, b, last);
  }

  lemma ConcludeFlags(v: View, base: nat, py: PyBook, last: bool)
    ensures var x := PyConclude(v, base, py, last); x.Ok? ==>
      && (forall i :: 0 <= i < |py.pages| ==> x.value.pages[i].last == py.pages[i].last)
      && |x.value.pages| == |py.pages| + 1 && x.value.pages[|py.pages|].last == last
  {
    hide PyMakePage, PyPush;
    if PyConclude(v, base, py, last).Ok? {
      PushFlags(py.pages, PyMakePage(v, base + |py.pages|, py.open, last));
      MadeFlag(v, base + |py.pages|, py.open, last);
    }
  }

  lemma PushFlags(pages: seq<PyPage>, p: PyPage)
    ensures var r := PyPush(pages, p);
      |r| == |pages| + 1 && r[|pages|] == p && forall i :: 0 <= i < |pages| ==> r[i].last == pages[i].last
  {}

  lemma MadeFlag(v: View, num: nat, g: Group, last: bool)
    requires EofJob in v.s.jobs && v.s.jobs[EofJob].first < |v.toks|
    ensures PyMakePage(v, num, g, last).last == last
  {}

  lemma PageCount(py: seq<PyPage>, cpp: seq<Page>, base: nat)
    requires SamePages(py, cpp, base)
    ensures |cpp| == base + |py|
  {}

  lemma SameMade(v: View, col: nat, num: nat, g: Group, last: bool)
    requires EofJob in v.s.jobs && v.s.jobs[EofJob].first < |v.toks|
    ensures SamePage(PyMakePage(v, num, g, last), MakePage(v, col, num, g, last))
  {
    hide RoundUp4, JobsToks, LabelsToks, Sorted, Aligner;
    assert g.tsize + g.dsize + TextGap(g) + HEADER + EOF_SIZE == HEADER + g.tsize + EOF_SIZE + TextGap(g) + g.dsize;
  }

  ghost predicate NoneFlagged(pages: seq<PyPage>) {
    forall i :: 0 <= i < |pages| ==> !pages[i].last
  }

  lemma SamePlace(v: View, ranks: Ranks, size: nat, col: nat, base: nat, region: nat, py: PyBook, b: Book, j: JobId)
    requires Ready(v, ranks) && NoLaunch(v) && v.dependents == map[] && j in v.s.jobs && PartOk(v, base, region, b)
    requires SameBook(py, b, base) && NoneFlagged(py.pages)
    ensures var x, y := PyPlace(v, ranks, size, base, py, j), Place(v, ranks, size, col, base, b, j);
      x.Ok? == y.Ok? && (x.Ok? ==> SameBook(x.value, y.value, base) && NoneFlagged(x.value.pages))
  {
    hide Ready, View.Valid, NoLaunch, PartOk, GroupOf, PyGroupOf, Conclude, PyConclude, Footprint, SamePages;
    ReadyValid(v, ranks);
    OpenHead(v, base, region, b);
    EmptyIsEmpty(v, base, region, b);
    if b.open.jobs != [] {
      SameConclude(v, col, base, py, b, false);
      ConcludeFlags(v, base, py, false);
    } else {
      ConcludeNothing(v, col, base, b);
    }
    if j.Job? && j !in b.placed && j !in b.open.jobs {
      SkipIsNoOp(v, ranks, base, region, b, j);
      SameGroups(v, ranks, j);
    }
  }

  lemma EmptyIsEmpty(v: View, base: nat, region: nat, b: Book)
    requires PartOk(v, base, region, b)
    ensures b.open.jobs == [] ==> b.open == EMPTY
  {
    hide RowsOk, RegionsOk, RowsPlaced, Rows;
  }

  lemma {:induction false} SamePlaceAll(v: View, ranks: Ranks, size: nat, col: nat, base: nat, py: PyBook, b: Book,
                                        k: nat)
    requires Ready(v, ranks) && NoLaunch(v) && v.dependents == map[] && k <= |v.s.jobids|
    requires (forall j :: j in v.s.jobids[k..] ==> j in v.s.jobs) && PartOk(v, base, Eops(v.s.jobids[..k]), b)
    requires SameBook(py, b, base) && NoneFlagged(py.pages)
    ensures var x, y := PyPlaceAll(v, ranks, size, base, py, v.s.jobids[k..]),
      PlaceAll(v, ranks, size, col, base, b, v.s.jobids[k..]);
      && x.Ok? == y.Ok?
      && (x.Ok? ==>
          SameBook(x.value, y.value, base) && NoneFlagged(x.value.pages)
          && PartOk(v, base, Eops(v.s.jobids), y.value))
    decreases |v.s.jobids| - k
  {
    hide Ready, View.Valid, NoLaunch, PartOk, Place, PyPlace, SameBook, NoneFlagged, Eops;
    var ids := v.s.jobids;
    if k == |ids| {
      assert ids[..k] == ids;
    } else {
      ReadyValid(v, ranks);
      IdFacts(v, k);
      assert ids[k..][0] == ids[k] && ids[k..][1..] == ids[k + 1..];
      SamePlace(v, ranks, size, col, base, Eops(ids[..k]), py, b, ids[k]);
      PlacePart(v, ranks, size, col, base, Eops(ids[..k]), b, ids[k]);
      var x := PyPlace(v, ranks, size, base, py, ids[k]);
      if x.Ok? {
        SamePlaceAll(v, ranks, size, col, base, x.value, Place(v, ranks, size, col, base, b, ids[k]).value, k + 1);
      }
    }
  }

  lemma SameFinish(v: View, col: nat, base: nat, region: nat, py: PyBook, b: Book)
    requires v.Valid() && PartOk(v, base, region, b) && SameBook(py, b, base) && NoneFlagged(py.pages)
    ensures var x, y := PyFinish(v, base, py), Finish(v, col, base, b);
      && x.Ok? && y.Ok? && SamePages(x.value, y.value, base)
      && forall i :: 0 <= i < |x.value| ==> (x.value[i].last <==> i == |x.value| - 1)
  {
    hide View.Valid, Conclude, PyConclude;
    OpenHead(v, base, region, b);
    hide PartOk;
    if b.open.jobs != [] {
      SameConclude(v, col, base, py, b, true);
      ConcludeFlags(v, base, py, true);
    } else {
      var x, y := PyFinish(v, base, py).value, Finish(v, col, base, b).value;
      forall i | 0 <= i < |x| ensures SamePage(x[i], y[base + i]) {
        assert SamePage(py.pages[i], b.pages[base + i]);
      }
    }
  }

  /** Without launches and tables, the two pagers accept the same programs and produce pages with the same jobs,
      labels, data, numbers and lengths; the second pager flags exactly the final page. */
  lemma SameWithoutTables(v: View, ranks: Ranks, size: nat, col: nat, before: seq<Page>)
    requires Ready(v, ranks) && NoLaunch(v) && v.dependents == map[]
    ensures var x, y := PyPagify(v, ranks, size, |before|), Pagify(v, ranks, size, col, before);
      && x.Ok? == y.Ok?
      && (x.Ok? ==> SamePages(x.value, y.value, |before|)
                    && forall i :: 0 <= i < |x.value| ==> (x.value[i].last <==> i == |x.value| - 1))
  {
    hide Ready, View.Valid, NoLaunch, PartOk, PyPlaceAll, PlaceAll, PyFinish, Finish;
    ReadyValid(v, ranks);
    IdsKnown(v);
    var py, b, ids := PyBook([], map[], EMPTY), Book(before, map[], EMPTY), v.s.jobids;
    StartPart(v, |before|, before);
    assert ids[..0] == [] && ids[0..] == ids;
    SamePlaceAll(v, ranks, size, col, |before|, py, b, 0);
    var x := PyPlaceAll(v, ranks, size, |before|, py, ids);
    if x.Ok? {
      SameFinish(v, col, |before|, Eops(ids), x.value, PlaceAll(v, ranks, size, col, |before|, b, ids).value);
    }
  }

  // ---------- the second pager never looks at the tables ----------

  lemma ForgottenGroup(v: View, ranks: Ranks, j: JobId, skip: seq<JobId>)
    requires Ready(v, ranks) && j in v.s.jobs
    ensures Ready(Forgotten(v), ranks)
    ensures PyGroupOf(Forgotten(v), ranks, j, skip) == PyGroupOf(v, ranks, j, skip)
  {
    hide Ready, View.Valid, PyExtract, FromLines, JobsToks, RefsIn, DataSize, Skip, ExternalsFrom, JobsSize, Ranked,
      Acyclic, Below, Jobs.Graph.Valid, LabelsOf;
    ForgottenReady(v, ranks);
    ReadyParts(v, ranks);
    ForgottenGraphs(v);
    assert PyLabelsOf(Forgotten(v)) == PyLabelsOf(v);
    var found := PyExtract(GraphOf(v), j);
    if found.Ok? {
      var jobs := Skip(found.value, skip);
      ForgottenJobs(v, jobs);
      PyBelow(v, ranks, RefsIn(JobsToks(v, jobs), v.pads));
      var labels := FromLines(PyLabelsOf(v), ranks.labels, ranks.top, JobsToks(v, jobs), [], ranks.top);
      if labels.Ok? {
        ForgottenLabels(v, labels.value);
      }
    }
  }

  lemma ForgottenConclude(v: View, base: nat, b: PyBook, last: bool)
    ensures PyConclude(Forgotten(v), base, b, last) == PyConclude(v, base, b, last)
  {
    hide RoundUp4, JobsToks, LabelsToks, WithAlign, Aligner;
    ForgottenJobs(v, b.open.jobs);
    ForgottenLabels(v, b.open.labels);
    ForgottenLabels(v, Sorted(v, b.open.labels));
  }

  lemma ForgottenPlace(v: View, ranks: Ranks, size: nat, base: nat, b: PyBook, j: JobId)
    requires Ready(v, ranks) && Ready(Forgotten(v), ranks) && j in v.s.jobs
    ensures PyPlace(Forgotten(v), ranks, size, base, b, j) == PyPlace(v, ranks, size, base, b, j)
  {
    hide Ready, PyGroupOf, PyConclude, Footprint;
    ForgottenGroup(v, ranks, j, b.open.jobs);
    ForgottenConclude(v, base, b, false);
  }

  lemma {:induction false} ForgottenPlaceAll(v: View, ranks: Ranks, size: nat, base: nat, b: PyBook, ids: seq<JobId>)
    requires Ready(v, ranks) && Ready(Forgotten(v), ranks) && forall j :: j in ids ==> j in v.s.jobs
    ensures PyPlaceAll(Forgotten(v), ranks, size, base, b, ids) == PyPlaceAll(v, ranks, size, base, b, ids)
    decreases |ids|
  {
    hide Ready, PyPlace;
    if ids != [] {
      ForgottenPlace(v, ranks, size, base, b, ids[0]);
      var r := PyPlace(v, ranks, size, base, b, ids[0]);
      if r.Ok? {
        ForgottenPlaceAll(v, ranks, size, base, r.value, ids[1..]);
      }
    }
  }

  /** Whatever the program, the second pager does the same when its tables are forgotten. */
  lemma TablesIgnored(v: View, ranks: Ranks, size: nat, base: nat)
    requires Ready(v, ranks)
    ensures Ready(Forgotten(v), ranks) && PyPagify(Forgotten(v), ranks, size, base) == PyPagify(v, ranks, size, base)
  {
    hide Ready, View.Valid, PyPlaceAll, PyConclude;
    ForgottenReady(v, ranks);
    ReadyValid(v, ranks);
    IdsKnown(v);
    var start := PyBook([], map[], EMPTY);
    ForgottenPlaceAll(v, ranks, size, base, start, v.s.jobids);
    var b := PyPlaceAll(v, ranks, size, base, start, v.s.jobids);
    if b.Ok? {
      ForgottenConclude(v, base, b.value, true);
    }
  }

  /** A page of the second pager and one of the first agree up to the order of their labels. */
  ghost predicate SimilarPage(p: PyPage, q: Page) {
    && p.num == q.num && p.len == q.curLen && p.nextLen == q.nextLen && p.externals == q.externals
    && p.jobs == q.jobs && multiset(p.labels) == multiset(q.labels)
  }

  ghost predicate SimilarPages(py: seq<PyPage>, cpp: seq<Page>, base: nat) {
    |cpp| == base + |py| && forall i :: 0 <= i < |py| ==> SimilarPage(py[i], cpp[base + i])
  }

  /** Pages equal to one list are similar to another exactly when the two lists are alike, flags aside. */
  lemma SimilarIfAlike(py: seq<PyPage>, w: seq<Page>, v: seq<Page>, base: nat)
    requires SamePages(py, w, base)
    requires |v| == |w| ==> forall i :: base <= i < |w| ==> v[i].last == w[i].last
    ensures SimilarPages(py, v, base) <==> AlikePages(v, w, base)
  {
    if SimilarPages(py, v, base) {
      forall i | base <= i < |v| ensures AlikePage(v[i], w[i]) {
        assert SimilarPage(py[i - base], v[base + (i - base)]) && SamePage(py[i - base], w[base + (i - base)]);
      }
    }
    if AlikePages(v, w, base) {
      forall i | 0 <= i < |py| ensures SimilarPage(py[i], v[base + i]) {
        assert SamePage(py[i], w[base + i]) && AlikePage(v[base + i], w[base + i]);
      }
    }
  }

  /** The flags of both lists are those of the source's index arithmetic. */
  lemma SameFlags(v: View, ranks: Ranks, size: nat, col: nat, before: seq<Page>)
    requires Ready(v, ranks) && Ready(Forgotten(v), ranks) && NoLaunch(v)
    ensures var x, y := Pagify(v, ranks, size, col, before), Pagify(Forgotten(v), ranks, size, col, before);
      x.Ok? && y.Ok? && |x.value| == |y.value| ==> forall i :: |before| <= i < |x.value| ==>
        x.value[i].last == y.value[i].last
  {
    hide Ready, NoLaunch, Pagify, TailJob;
    SameNoLaunch(v);
    LastFlag(v, ranks, size, col, before);
    LastFlag(Forgotten(v), ranks, size, col, before);
    SameTail(v);
  }

  lemma SameTail(v: View)
    ensures TailJob(Forgotten(v)) <==> TailJob(v)
  {}

  /** The two pagers on every launch-free program. The second flags exactly its final page, and accepts whatever
      the first accepts. When a program's tables add nothing, meaning that every label of a table is also
      referred to by a job of the same barrier class, both accept the same programs; and on a program
      both accept, their pages agree up to the order of labels if and only if its tables add nothing. */
  lemma PagersAgree(v: View, ranks: Ranks, size: nat, col: nat, before: seq<Page>)
    requires Ready(v, ranks) && NoLaunch(v)
    ensures var x, y := PyPagify(v, ranks, size, |before|), Pagify(v, ranks, size, col, before);
      && (x.Ok? ==> forall i :: 0 <= i < |x.value| ==> (x.value[i].last <==> i == |x.value| - 1))
      && (y.Ok? ==> x.Ok?)
      && (TablesAddNothing(v) ==> x.Ok? == y.Ok?)
      && (x.Ok? && y.Ok? ==> (SimilarPages(x.value, y.value, |before|) <==> TablesAddNothing(v)))
  {
    hide Ready, NoLaunch, Pagify, PyPagify, TablesAddNothing, AlikePages, SamePages, SimilarPages;
    var w := Forgotten(v);
    TablesIgnored(v, ranks, size, |before|);
    SameNoLaunch(v);
    SameWithoutTables(w, ranks, size, col, before);
    Forgetting(v, ranks, size, col, before);
    SameFlags(v, ranks, size, col, before);
    var x, y, z := PyPagify(v, ranks, size, |before|), Pagify(v, ranks, size, col, before),
      Pagify(w, ranks, size, col, before);
    if x.Ok? && y.Ok? {
      SimilarIfAlike(x.value, z.value, y.value, |before|);
    }
  }
}
