/** Which page a call of the pager flags as the last one. */
module LastPage {
  import opened Base
  import opened Isa
  import opened Program
  import opened Structure
  import opened View
  import opened Jobs
  import opened Labels
  import opened Pages
  import opened PageLaws
  import opened Partition

  /** Some ordinary job stands after the last `.eop`. */
  ghost predicate TailJob(v: View) {
    exists j :: j in v.s.jobids && j.Job? && j in v.s.jobs && v.s.jobs[j].eop == v.s.eopnum
  }

  /** The page that gets the flag: the final one, or the one the source's index arithmetic names. */
  ghost function Flagged(v: View, before: nat, total: nat): int {
    if TailJob(v) then total - 1 else total - before - 1
  }

  lemma EopnumIs(v: View)
    requires v.Valid()
    ensures Eops(v.s.jobids) == v.s.eopnum && forall j :: j in v.s.jobids ==> j in v.s.jobs
  {}

  lemma OpenMeansTail(v: View, size: nat, col: nat, before: seq<Page>, b: Book)
    requires v.Valid() && RunOk(v, size, col, before, v.s.jobids, b) && PartOk(v, |before|, v.s.eopnum, b)
    requires PlacedHere(|before|, b)
    ensures b.open.jobs != [] <==> TailJob(v)
  {
    hide View.Valid, PagesOk, Chained, NoneLast, Together, Once, OneRegion, Rows;
    EopnumIs(v);
    var rows := Rows(b, |before|);
    RowsAt(b, |before|);
    if b.open.jobs != [] {
      var j := b.open.jobs[0];
      assert j in b.open.jobs && j in rows[|rows| - 1];
      OpenOrdinary(v, size, col, before, b, j);
      assert v.s.jobs[j].eop == v.s.eopnum;
    } else {
      forall j | j in v.s.jobids && j.Job? ensures v.s.jobs[j].eop < v.s.eopnum {
        assert j in b.placed;
        PlacedRow(v, size, col, before, b, j);
      }
    }
  }

  lemma OpenOrdinary(v: View, size: nat, col: nat, before: seq<Page>, b: Book, j: JobId)
    requires v.Valid() && BookOk(v, size, col, before, b) && j in b.open.jobs
    ensures j.Job? && j in v.s.jobs && j in v.s.jobids
  {
    hide PagesOk, Chained, NoneLast, Aligned, JobsSize, LabelsSize, JobOk, LabelsOk, EofOk, BarriersMatch, EopsOk;
  }

  lemma PlacedRow(v: View, size: nat, col: nat, before: seq<Page>, b: Book, j: JobId)
    requires RunOk(v, size, col, before, v.s.jobids, b) && PartOk(v, |before|, v.s.eopnum, b) && PlacedHere(|before|, b)
    requires b.open.jobs == [] && j in b.placed && j in v.s.jobs
    ensures v.s.jobs[j].eop < v.s.eopnum
  {
    hide PagesOk, Chained, NoneLast, Together, Once, OneRegion, Rows;
    RowsAt(b, |before|);
    var rows := Rows(b, |before|);
    var i := b.placed[j];
    assert j in rows[i - |before|];
    assert rows[|rows| - 1] == [];
  }

  /** Flags after the call: only the page `k` gained one. */
  ghost predicate OnlyFlag(before: seq<Page>, pages: seq<Page>, k: int) {
    && |before| <= |pages|
    && forall i :: 0 <= i < |pages| ==> (pages[i].last <==> i == k || (i < |before| && before[i].last))
  }

  lemma FinishFlags(v: View, size: nat, col: nat, before: seq<Page>, b: Book)
    requires v.Valid() && BookOk(v, size, col, before, b) && (b.open.jobs != [] <==> TailJob(v))
    ensures var r := Finish(v, col, |before|, b);
      r.Ok? && |r.value| > |before| ==> OnlyFlag(before, r.value, Flagged(v, |before|, |r.value|))
  {
    hide View.Valid, PagesOk, Chained, OpenOk, TailJob, Conclude;
    BeforeFlags(v, size, col, before, b);
    if b.open.jobs != [] {
      ConcludeKeeps(v, size, col, before, b, true);
      var r := Finish(v, col, |before|, b).value;
      forall i | 0 <= i < |r| ensures r[i].last <==> i == |r| - 1 || (i < |before| && before[i].last) {
        if i < |b.pages| {
          assert r[..|b.pages|][i] == r[i];
        }
      }
    }
  }

  lemma BeforeFlags(v: View, size: nat, col: nat, before: seq<Page>, b: Book)
    requires BookOk(v, size, col, before, b)
    ensures forall i :: 0 <= i < |b.pages| ==> (b.pages[i].last <==> i < |before| && before[i].last)
  {
    hide PagesOk, Chained, OpenOk;
    forall i | 0 <= i < |b.pages| ensures b.pages[i].last <==> i < |before| && before[i].last {
      if i < |before| {
        assert b.pages[..|before|][i] == b.pages[i];
      }
    }
  }

  /** The state of the loop after the last job id. */
  lemma AfterLoop(v: View, ranks: Ranks, size: nat, col: nat, before: seq<Page>)
    requires Ready(v, ranks) && NoLaunch(v)
    ensures v.Valid() && forall j :: j in v.s.jobids ==> j in v.s.jobs
    ensures var r := PlaceAll(v, ranks, size, col, |before|, Book(before, map[], EMPTY), v.s.jobids);
      r.Ok? ==>
        && RunOk(v, size, col, before, v.s.jobids, r.value) && PlacedHere(|before|, r.value)
        && PartOk(v, |before|, v.s.eopnum, r.value)
  {
    hide View.Valid, Ready, RunOk, PlaceAll, PartOk, NoLaunch;
    ReadyValid(v, ranks);
    EopnumIs(v);
    var start := Book(before, map[], EMPTY);
    StartRun(v, size, col, before);
    PlaceAllRun(v, ranks, size, col, before, [], start, v.s.jobids);
    assert PlacedHere(|before|, start);
    PlaceAllHere(v, ranks, size, col, |before|, start, v.s.jobids);
    StartPart(v, |before|, before);
    assert v.s.jobids[..0] == [] && v.s.jobids[0..] == v.s.jobids && [] + v.s.jobids == v.s.jobids;
    PlaceAllPart(v, ranks, size, col, |before|, start, 0);
  }

  /** Which page is flagged, for every launch-free program: the final page when some job follows the
      last `.eop`; otherwise the page whose index is the number of new pages less one, counted from
      the first page of the column. */
  lemma LastFlag(v: View, ranks: Ranks, size: nat, col: nat, before: seq<Page>)
    requires Ready(v, ranks) && NoLaunch(v)
    ensures var r := Pagify(v, ranks, size, col, before);
      r.Ok? && |r.value| > |before| ==> OnlyFlag(before, r.value, Flagged(v, |before|, |r.value|))
  {
    hide View.Valid, Ready, RunOk, PlaceAll, PartOk, NoLaunch, Finish, OnlyFlag, Flagged, TailJob;
    AfterLoop(v, ranks, size, col, before);
    var b := PlaceAll(v, ranks, size, col, |before|, Book(before, map[], EMPTY), v.s.jobids);
    if b.Ok? {
      OpenMeansTail(v, size, col, before, b.value);
      RunBook(v, size, col, before, b.value);
      FinishFlags(v, size, col, before, b.value);
    }
  }

  lemma RunBook(v: View, size: nat, col: nat, before: seq<Page>, b: Book)
    requires RunOk(v, size, col, before, v.s.jobids, b)
    ensures BookOk(v, size, col, before, b)
  {
    hide BookOk;
  }

  /** The final new page carries the flag if and only if some job follows the last `.eop` or the
      column had no pages before the call. */
  lemma FinalPageFlagged(v: View, ranks: Ranks, size: nat, col: nat, before: seq<Page>)
    requires Ready(v, ranks) && NoLaunch(v)
    ensures var r := Pagify(v, ranks, size, col, before);
      r.Ok? && |r.value| > |before| ==> (r.value[|r.value| - 1].last <==> TailJob(v) || |before| == 0)
  {
    hide Ready, NoLaunch, Pagify, TailJob;
    LastFlag(v, ranks, size, col, before);
  }
}
