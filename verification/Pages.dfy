/** The pager (`pager::pagify`) as a fold over the job list, and what its pages guarantee. */
module Pages {
  import opened Base
  import opened Isa
  import opened Program
  import opened Structure
  import opened View
  import opened Jobs
  import opened Labels

  const HEADER: nat := 16
  const EOF_SIZE: nat := 4
  const DATA_ALIGNMENT: positive := 16

  /** A page; `jobs` and `labels` are the lists it was built from. */
  datatype Page = Page(col: nat, num: nat, last: bool, curLen: nat, nextLen: nat, ooo1: nat, ooo2: nat,
                       externals: seq<Name>, text: seq<Token>, data: seq<Token>, jobs: seq<JobId>, labels: seq<Name>)

  /** Gap between the `eof` and the data section. */
  function Aligner(size: nat): nat {
    AlignGap(size + EOF_SIZE, DATA_ALIGNMENT)
  }

  function JobsToks(v: View, jobs: seq<JobId>): seq<Token> {
    if jobs == [] then [] else v.JobToks(jobs[0]) + JobsToks(v, jobs[1..])
  }

  function LabelsToks(v: View, labels: seq<Name>): seq<Token> {
    if labels == [] then [] else v.LabelToks(labels[0]) + LabelsToks(v, labels[1..])
  }

  function JobsSize(v: View, jobs: seq<JobId>): nat {
    if jobs == [] then 0 else v.JobSize(jobs[0]) + JobsSize(v, jobs[1..])
  }

  function LabelsSize(v: View, labels: seq<Name>): nat {
    if labels == [] then 0 else v.LabelSize(labels[0]) + LabelsSize(v, labels[1..])
  }

  /** `getdatasectionsize`. */
  function DataSize(v: View, labels: seq<Name>): (r: Result<nat>)
    ensures r == if forall l :: l in labels ==>
      v.AlignOf(l).Some? then Ok(LabelsSize(v, labels)) else Err(UnknownAlignment)
  {
    if labels == [] then Ok(0) else
    if v.AlignOf(labels[0]).None? then Err(UnknownAlignment) else
    var rest := DataSize(v, labels[1..]);
    if rest.Ok? then Ok(v.LabelSize(labels[0]) + rest.value) else rest
  }

  function WithAlign(v: View, labels: seq<Name>, a: nat): seq<Name> {
    if labels == [] then [] else
      (if v.AlignOf(labels[0]) == Some(a) then [labels[0]] else []) + WithAlign(v, labels[1..], a)
  }

  /** `labelalignmentsorter`: 16-byte labels first, both groups in their old order. */
  function Sorted(v: View, labels: seq<Name>): seq<Name> {
    WithAlign(v, labels, 16) + WithAlign(v, labels, 4)
  }

  function ExternalsFrom(toks: seq<Token>, acc: seq<Name>): seq<Name>
    decreases |toks|
  {
    if toks == [] then acc else ExternalsFrom(toks[1..], Dedup(acc + Externals(toks[0])))
  }

  // ---------- the fold ----------

  /** Rankings that witness the absence of launch cycles and of label cycles. */
  datatype Ranks = Ranks(jobs: map<JobId, nat>, labels: map<Name, nat>, top: nat)

  function GraphOf(v: View): Graph {
    Graph(v.s.jobs, v.s.barriers)
  }

  ghost predicate Ready(v: View, ranks: Ranks) {
    && v.Valid() && Acyclic(GraphOf(v), ranks.jobs)
    && Ranked(LabelsOf(v), ranks.labels, ranks.top)
  }

  /** A set of jobs that goes on one page, with their labels and sizes. */
  datatype Group = Group(jobs: seq<JobId>, labels: seq<Name>, externals: seq<Name>, tsize: nat, dsize: nat)

  const EMPTY := Group([], [], [], 0, 0)

  function Join(a: Group, b: Group): Group {
    Group(a.jobs + b.jobs, a.labels + b.labels, a.externals + b.externals, a.tsize + b.tsize, a.dsize + b.dsize)
  }

  lemma AllBelow(v: View, ranks: Ranks, refs: seq<Name>)
    requires Ready(v, ranks)
    ensures Below(LabelsOf(v), ranks.labels, refs, ranks.top)
  {}

  /** `extractjobsandlabels` followed by `getdatasectionsize`. */
  function GroupOf(v: View, ghost ranks: Ranks, j: JobId): Result<Group>
    requires Ready(v, ranks) && j in v.s.jobs
  {
    var jobs :- Extract(GraphOf(v), ranks.jobs, j);
    var toks := JobsToks(v, jobs);
    AllBelow(v, ranks, RefsIn(toks, v.pads));
    var labels :- FromLines(LabelsOf(v), ranks.labels, ranks.top, toks, [], ranks.top);
    var dsize :- DataSize(v, labels);
    Ok(Group(jobs, labels, ExternalsFrom(toks, []), JobsSize(v, jobs), dsize))
  }

  /** Bytes of a page with `tsize` bytes of jobs and `dsize` bytes of labels, alignment included. */
  function Footprint(tsize: nat, dsize: nat): nat {
    HEADER + tsize + EOF_SIZE + Aligner(tsize) + dsize
  }

  /** Pages so far, the page number each placed job got, and the page being filled. */
  datatype Book = Book(pages: seq<Page>, placed: map<JobId, nat>, open: Group)

  function TextGap(g: Group): nat {
    if g.dsize > 0 then Aligner(g.tsize) else 0
  }

  function MakePage(v: View, col: nat, num: nat, g: Group, last: bool): Page
    requires EofJob in v.s.jobs && v.s.jobs[EofJob].first < |v.toks|
  {
    var labels := Sorted(v, g.labels);
    Page(col, num, last, RoundUp4(HEADER + g.tsize + EOF_SIZE + TextGap(g) + g.dsize), 0, 0, 0, g.externals,
         JobsToks(v, g.jobs) + [v.toks[v.s.jobs[EofJob].first]] + (if TextGap(g) > 0 then [Align(16)] else []),
         LabelsToks(v, labels), g.jobs, labels)
  }

  /** The previous page of the same call learns the length of the page that follows it. */
  function Push(pages: seq<Page>, p: Page, base: nat): seq<Page> {
    if |pages| > 0 && |pages| - 1 >= base then pages[|pages| - 1 := pages[|pages| - 1].(nextLen := p.curLen)] + [p]
    else pages + [p]
  }

  /** The page number each of the jobs gets. */
  function Numbers(jobs: seq<JobId>, n: nat): map<JobId, nat> {
    map j | j in jobs :: n
  }

  /** `assignpagenumber`, and the reset its callers do after it. */
  function Conclude(v: View, col: nat, base: nat, b: Book, last: bool): Result<Book> {
    if b.open.jobs == [] || b.open.jobs == [EofJob] then Ok(b.(open := EMPTY)) else
    if EofJob !in v.s.jobs || v.s.jobs[EofJob].first >= |v.toks| then Err(NoEof) else
    var p := MakePage(v, col, |b.pages|, b.open, last);
    Ok(Book(Push(b.pages, p, base), b.placed + Numbers(b.open.jobs, |b.pages|), EMPTY))
  }

  /** Ends the open page when the group does not fit beside what is already there. */
  function MakeRoom(v: View, size: nat, col: nat, base: nat, b: Book, g: Group): Result<Book> {
    if Footprint(b.open.tsize + g.tsize, b.open.dsize + g.dsize) > size then Conclude(v, col, base, b, false) else Ok(b)
  }

  /** One job of the list. */
  function Place(v: View, ghost ranks: Ranks, size: nat, col: nat, base: nat, b: Book, j: JobId): Result<Book>
    requires Ready(v, ranks) && j in v.s.jobs
  {
    if j in b.placed || j in b.open.jobs || j.EofJob? then Ok(b) else
    if j.EopJob? then (if b.open.jobs == [] then Ok(b) else Conclude(v, col, base, b, false)) else
    var g :- GroupOf(v, ranks, j);
    if Footprint(g.tsize, g.dsize) > size then Err(TooBig) else
    var b' :- MakeRoom(v, size, col, base, b, g);
    Ok(b'.(open := Join(b'.open, g)))
  }

  function PlaceAll(v: View, ghost ranks: Ranks, size: nat, col: nat, base: nat, b: Book, ids: seq<JobId>): Result<Book>
    requires Ready(v, ranks) && forall j :: j in ids ==> j in v.s.jobs
    decreases |ids|
  {
    if ids == [] then Ok(b) else
    var b' :- Place(v, ranks, size, col, base, b, ids[0]);
    PlaceAll(v, ranks, size, col, base, b', ids[1..])
  }

  /** `pagify`: pages of earlier labels first, `|pages|` being the relative index it is given. */
  function Pagify(v: View, ghost ranks: Ranks, size: nat, col: nat, pages: seq<Page>): Result<seq<Page>>
    requires Ready(v, ranks)
  {
    IdsKnown(v);
    var b :- PlaceAll(v, ranks, size, col, |pages|, Book(pages, map[], EMPTY), v.s.jobids);
    Finish(v, col, |pages|, b)
  }

  lemma IdsKnown(v: View)
    requires v.Valid()
    ensures forall j :: j in v.s.jobids ==> j in v.s.jobs
  {}

  /** After the loop: the last open page, or the flag on the page the source indexes. */
  function Finish(v: View, col: nat, base: nat, b: Book): Result<seq<Page>> {
    if b.open.jobs != [] then
      var b' :- Conclude(v, col, base, b, true);
      Ok(b'.pages)
    else if |b.pages| > base then
      var k := |b.pages| - base - 1;
      Ok(b.pages[k := b.pages[k].(last := true)])
    else Ok(b.pages)
  }
}
