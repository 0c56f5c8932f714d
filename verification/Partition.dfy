/** Programs without `launch_job`: the pager partitions the jobs into barrier classes. */
module Partition {
  import opened Base
  import opened Program
  import opened View
  import opened Jobs
  import opened Labels
  import opened Pages
  import opened PageLaws

  ghost predicate NoLaunch(v: View) {
    forall j :: j in v.s.jobs ==> v.s.jobs[j].launches == []
  }

  function JobRows(pages: seq<Page>): seq<seq<JobId>> {
    if pages == [] then [] else [pages[0].jobs] + JobRows(pages[1..])
  }

  lemma {:induction false} JobRowsAt(pages: seq<Page>)
    ensures |JobRows(pages)| == |pages|
    ensures forall i :: 0 <= i < |pages| ==> JobRows(pages)[i] == pages[i].jobs
  {
    if pages != [] {
      JobRowsAt(pages[1..]);
    }
  }

  // ---------- rows of jobs ----------

  /** No job occurs twice, on one row or on two. */
  ghost predicate Once(rows: seq<seq<JobId>>) {
    forall i, a, k, c ::
      (0 <= i < |rows| && 0 <= a < |rows[i]| && 0 <= k < |rows| && 0 <= c < |rows[k]| && rows[i][a] == rows[k][c])
      ==> i == k && a == c
  }

  /** Barrier mates share a row. */
  ghost predicate Together(v: View, rows: seq<seq<JobId>>) {
    forall i, j, k :: 0 <= i < |rows| && j in rows[i] && Mates(GraphOf(v), j, k) ==> k in rows[i]
  }

  /** Each row stays inside one `.eop` region. */
  ghost predicate OneRegion(v: View, rows: seq<seq<JobId>>) {
    forall i, j, k :: 0 <= i < |rows| && j in rows[i] && k in rows[i] && j in v.s.jobs && k in v.s.jobs ==>
      v.s.jobs[j].eop == v.s.jobs[k].eop
  }

  ghost predicate RowsOk(v: View, rows: seq<seq<JobId>>) {
    && (forall i :: 0 <= i < |rows| ==> Ordinary(v, rows[i]))
    && Once(rows) && Together(v, rows) && OneRegion(v, rows)
  }

  lemma NewRow(v: View, rows: seq<seq<JobId>>)
    requires RowsOk(v, rows)
    ensures RowsOk(v, rows + [[]])
  {
    hide Mates;
  }

  /** A class whose seed is nowhere yet does not meet any row. */
  lemma ClassIsNew(v: View, rows: seq<seq<JobId>>, j: JobId, i: nat, k: JobId)
    requires RowsOk(v, rows) && i < |rows| && k in rows[i] && Mates(GraphOf(v), j, k)
    ensures j in rows[i]
  {
    MatesSymmetric(GraphOf(v), j, k);
  }

  lemma AddClass(v: View, rows: seq<seq<JobId>>, j: JobId, jobs: seq<JobId>)
    requires RowsOk(v, rows) && |rows| > 0 && GroupJobs(v, j, jobs) && NoLaunch(v)
    requires forall i :: 0 <= i < |rows| ==> j !in rows[i]
    requires forall k :: k in rows[|rows| - 1] && k in v.s.jobs ==> v.s.jobs[k].eop == v.s.jobs[j].eop
    ensures RowsOk(v, rows[|rows| - 1 := rows[|rows| - 1] + jobs])
  {
    var n := |rows| - 1;
    var rows' := rows[n := rows[n] + jobs];
    assert j in jobs by { assert jobs[0] in jobs; }
    forall k ensures k in jobs <==> Mates(GraphOf(v), j, k) {
      NoLaunchGroups(GraphOf(v), j, k);
    }
    forall k | k in jobs ensures v.s.jobs[k].eop == v.s.jobs[j].eop {
      ReachesSelf(GraphOf(v), j);
      assert !Torn(GraphOf(v), j, k);
    }
    forall i, k | 0 <= i < |rows| && k in jobs ensures k !in rows[i] {
      if k in rows[i] {
        ClassIsNew(v, rows, j, i, k);
      }
    }
    hide Needs, Reaches, Torn;
    forall i, x, y | 0 <= i < |rows'| && x in rows'[i] && Mates(GraphOf(v), x, y) ensures y in rows'[i] {
      if i == n && x in jobs {
        MatesTransitive(GraphOf(v), j, x, y);
      }
    }
    hide Mates;
    OnceAppend(rows, jobs);
  }

  lemma OnceAppend(rows: seq<seq<JobId>>, jobs: seq<JobId>)
    requires |rows| > 0 && Once(rows) && NoDup(jobs)
    requires forall i, k :: 0 <= i < |rows| && k in jobs ==> k !in rows[i]
    ensures Once(rows[|rows| - 1 := rows[|rows| - 1] + jobs])
  {
    var n := |rows| - 1;
    var rows' := rows[n := rows[n] + jobs];
    forall i, a, k, c | 0 <= i < |rows'| && 0 <= a < |rows'[i]| && 0 <= k < |rows'| && 0 <= c < |rows'[k]|
      && rows'[i][a] == rows'[k][c]
      ensures i == k && a == c
    {
      var newI, newK := i == n && a >= |rows[n]|, k == n && c >= |rows[n]|;
      assert newI ==> rows'[i][a] in jobs;
      assert newK ==> rows'[k][c] in jobs;
      assert !newI ==> rows'[i][a] == rows[i][a] && rows'[i][a] in rows[i];
      assert !newK ==> rows'[k][c] == rows[k][c] && rows'[k][c] in rows[k];
      if newI && newK {
        assert jobs[a - |rows[n]|] == jobs[c - |rows[n]|];
      }
    }
  }

  // ---------- the run ----------

  function Rows(b: Book, base: nat): seq<seq<JobId>>
    requires base <= |b.pages|
  {
    JobRows(b.pages[base..]) + [b.open.jobs]
  }

  /** Jobs of the pages and of the open page lie in the `.eop` regions met so far. */
  ghost predicate RegionsOk(v: View, rows: seq<seq<JobId>>, region: nat) {
    && (forall i, j :: 0 <= i < |rows| && j in rows[i] && j in v.s.jobs ==> v.s.jobs[j].eop <= region)
    && (|rows| > 0 ==> forall j :: j in rows[|rows| - 1] && j in v.s.jobs ==> v.s.jobs[j].eop == region)
    && (|rows| > 0 && rows[|rows| - 1] == [] ==>
          forall i, j :: 0 <= i < |rows| && j in rows[i] && j in v.s.jobs ==> v.s.jobs[j].eop < region)
  }

  ghost predicate RowsPlaced(b: Book, base: nat)
    requires base <= |b.pages|
  {
    && (forall i, j :: base <= i < |b.pages| && j in b.pages[i].jobs ==> j in b.placed)
    && forall j :: j in b.placed ==> j.Job?
  }

  ghost predicate PartOk(v: View, base: nat, region: nat, b: Book) {
    base <= |b.pages| && RowsOk(v, Rows(b, base)) && RegionsOk(v, Rows(b, base), region) && RowsPlaced(b, base)
    && (b.open.jobs == [] ==> b.open == EMPTY)
  }

  lemma RowsAt(b: Book, base: nat)
    requires base <= |b.pages|
    ensures |Rows(b, base)| == |b.pages| - base + 1
    ensures forall i :: base <= i < |b.pages| ==> Rows(b, base)[i - base] == b.pages[i].jobs
    ensures Rows(b, base)[|b.pages| - base] == b.open.jobs
  {
    JobRowsAt(b.pages[base..]);
    forall i | base <= i < |b.pages| ensures Rows(b, base)[i - base] == b.pages[i].jobs {
      assert b.pages[base..][i - base] == b.pages[i];
    }
  }

  lemma PushRows(pages: seq<Page>, p: Page, base: nat)
    requires base <= |pages|
    ensures |Push(pages, p, base)| == |pages| + 1
    ensures JobRows(Push(pages, p, base)[base..]) == JobRows(pages[base..]) + [p.jobs]
    ensures forall i :: 0 <= i < |pages| ==> Push(pages, p, base)[i].jobs == pages[i].jobs
    ensures Push(pages, p, base)[|pages|] == p
  {
    var q := Push(pages, p, base);
    JobRowsAt(pages[base..]);
    JobRowsAt(q[base..]);
    assert forall i :: 0 <= i < |pages| - base ==> q[base..][i].jobs == pages[base..][i].jobs;
    assert q[base..][|pages| - base] == p;
  }

  /** Concluding a page turns the open row into a finished one. */
  lemma ConcludeRows(v: View, col: nat, base: nat, b: Book, last: bool)
    requires base <= |b.pages| && b.open.jobs != [] && b.open.jobs[0].Job? && forall j :: j in b.open.jobs ==> j.Job?
    ensures var r := Conclude(v, col, base, b, last); r.Ok? ==>
      && base <= |r.value.pages| && Rows(r.value, base) == Rows(b, base) + [[]]
      && (RowsPlaced(b, base) ==> RowsPlaced(r.value, base)) && r.value.open == EMPTY
  {
    var r := Conclude(v, col, base, b, last);
    if r.Ok? {
      MadeJobs(v, col, |b.pages|, b.open, last);
      hide MakePage, Push, JobRows;
      PushRows(b.pages, MakePage(v, col, |b.pages|, b.open, last), base);
    }
  }

  lemma MadeJobs(v: View, col: nat, num: nat, g: Group, last: bool)
    requires EofJob in v.s.jobs && v.s.jobs[EofJob].first < |v.toks|
    ensures MakePage(v, col, num, g, last).jobs == g.jobs
  {}

  lemma OpenHead(v: View, base: nat, region: nat, b: Book)
    requires PartOk(v, base, region, b)
    ensures b.open.jobs != [] ==> b.open.jobs[0].Job?
    ensures forall j :: j in b.open.jobs ==> j.Job?
  {
    RowsAt(b, base);
    hide Rows, Once, Together, OneRegion, RegionsOk;
    assert Ordinary(v, Rows(b, base)[|b.pages| - base]);
  }

  /** Ending the open page at an `.eop` or because the next group does not fit. */
  lemma ConcludePart(v: View, col: nat, base: nat, region: nat, b: Book)
    requires PartOk(v, base, region, b) && b.open.jobs != []
    ensures var r := Conclude(v, col, base, b, false); r.Ok? ==>
      && base <= |r.value.pages| && r.value.open == EMPTY && RowsPlaced(r.value, base)
      && RowsOk(v, Rows(r.value, base)) && Rows(r.value, base) == Rows(b, base) + [[]]
  {
    OpenHead(v, base, region, b);
    hide Rows, RowsOk, Conclude, RowsPlaced, RegionsOk;
    ConcludeRows(v, col, base, b, false);
    NewRow(v, Rows(b, base));
  }

  lemma RegionsMore(v: View, rows: seq<seq<JobId>>, region: nat)
    requires RegionsOk(v, rows, region) && |rows| > 0
    ensures rows[|rows| - 1] == [] ==> RegionsOk(v, rows, region + 1)
    ensures RegionsOk(v, rows + [[]], region + 1)
  {}

  lemma EopPart(v: View, col: nat, base: nat, region: nat, b: Book)
    requires PartOk(v, base, region, b)
    ensures b.open.jobs == [] ==> PartOk(v, base, region + 1, b)
    ensures var r := Conclude(v, col, base, b, false);
      b.open.jobs != [] && r.Ok? ==> PartOk(v, base, region + 1, r.value)
  {
    RowsAt(b, base);
    hide Rows, RowsOk, Conclude, RegionsOk;
    RegionsMore(v, Rows(b, base), region);
    if b.open.jobs != [] {
      ConcludePart(v, col, base, region, b);
    }
  }

  lemma RoomPart(v: View, size: nat, col: nat, base: nat, region: nat, b: Book, g: Group)
    requires PartOk(v, base, region, b)
    ensures var r := MakeRoom(v, size, col, base, b, g); r.Ok? ==>
      && base <= |r.value.pages| && RowsPlaced(r.value, base) && RowsOk(v, Rows(r.value, base))
      && (Rows(r.value, base) == Rows(b, base) || Rows(r.value, base) == Rows(b, base) + [[]])
  {
    hide RowsOk, RowsPlaced, RegionsOk, Conclude, Rows, Footprint;
    if b.open.jobs == [] {
      ConcludeNothing(v, col, base, b);
    } else {
      ConcludePart(v, col, base, region, b);
    }
  }

  lemma RegionsAdd(v: View, rows: seq<seq<JobId>>, region: nat, rows': seq<seq<JobId>>, jobs: seq<JobId>)
    requires RegionsOk(v, rows, region) && |rows| > 0 && (rows' == rows || rows' == rows + [[]])
    requires jobs != [] && forall k :: k in jobs ==> k in v.s.jobs && v.s.jobs[k].eop == region
    ensures RegionsOk(v, rows'[|rows'| - 1 := rows'[|rows'| - 1] + jobs], region)
  {
    var n := |rows'| - 1;
    var new_ := rows'[n := rows'[n] + jobs];
    forall i, j | 0 <= i < |new_| && j in new_[i] && j in v.s.jobs
      ensures v.s.jobs[j].eop <= region && (i == n ==> v.s.jobs[j].eop == region)
    {
      if j !in jobs {
        assert j in rows'[i];
      }
    }
  }

  /** Adding the group of a job that is nowhere yet, after room was made for it. */
  lemma JoinPart(v: View, base: nat, region: nat, b: Book, room: Book, g: Group, j: JobId)
    requires PartOk(v, base, region, b) && j !in b.placed && j !in b.open.jobs
    requires base <= |room.pages| && RowsPlaced(room, base) && RowsOk(v, Rows(room, base))
    requires Rows(room, base) == Rows(b, base) || Rows(room, base) == Rows(b, base) + [[]]
    requires NoLaunch(v) && j in v.s.jobs && v.s.jobs[j].eop == region && GroupJobs(v, j, g.jobs)
    ensures PartOk(v, base, region, room.(open := Pages.Join(room.open, g)))
  {
    hide RowsOk, RegionsOk, Rows, NoLaunch;
    RowsAt(b, base);
    RowsAt(room, base);
    var rows := Rows(room, base);
    NotInRows(v, base, region, b, j);
    assert forall i :: 0 <= i < |rows| ==> j !in rows[i];
    GroupRegion(v, j, g.jobs);
    LastRegion(v, Rows(b, base), region, rows);
    AddClass(v, rows, j, g.jobs);
    RegionsAdd(v, Rows(b, base), region, rows, g.jobs);
    JoinRows(room, base, g);
  }

  lemma JobPartition(v: View, ranks: Ranks, size: nat, col: nat, base: nat, region: nat, b: Book, j: JobId)
    requires Ready(v, ranks) && NoLaunch(v) && j in v.s.jobs && j.Job? && v.s.jobs[j].eop == region
    requires PartOk(v, base, region, b) && j !in b.placed && j !in b.open.jobs
    ensures var r := Place(v, ranks, size, col, base, b, j); r.Ok? ==> PartOk(v, base, region, r.value)
  {
    hide View.Valid, Ready, GroupOf, MakeRoom, Footprint, RowsOk, Rows, RowsPlaced, PartOk, NoLaunch, GroupJobs,
      GroupLabels;
    ReadyValid(v, ranks);
    if Place(v, ranks, size, col, base, b, j).Ok? {
      GroupHolds(v, ranks, j);
      var g := GroupOf(v, ranks, j).value;
      RoomPart(v, size, col, base, region, b, g);
      JoinPart(v, base, region, b, MakeRoom(v, size, col, base, b, g).value, g, j);
    }
  }

  lemma LastRegion(v: View, rows: seq<seq<JobId>>, region: nat, rows': seq<seq<JobId>>)
    requires RegionsOk(v, rows, region) && |rows| > 0 && (rows' == rows || rows' == rows + [[]])
    ensures forall k :: k in rows'[|rows'| - 1] && k in v.s.jobs ==> v.s.jobs[k].eop == region
  {}

  lemma GroupRegion(v: View, j: JobId, jobs: seq<JobId>)
    requires GroupJobs(v, j, jobs) && NoLaunch(v) && j in v.s.jobs
    ensures forall k :: k in jobs ==> k in v.s.jobs && v.s.jobs[k].eop == v.s.jobs[j].eop
  {
    forall k | k in jobs ensures k in v.s.jobs && v.s.jobs[k].eop == v.s.jobs[j].eop {
      NoLaunchGroups(GraphOf(v), j, k);
      ReachesSelf(GraphOf(v), j);
      assert !Torn(GraphOf(v), j, k);
    }
  }

  lemma NotInRows(v: View, base: nat, region: nat, b: Book, j: JobId)
    requires PartOk(v, base, region, b) && j !in b.placed && j !in b.open.jobs
    ensures forall i :: 0 <= i < |Rows(b, base)| ==> j !in Rows(b, base)[i]
  {
    RowsAt(b, base);
    hide Rows, RowsOk, RegionsOk;
    forall i | 0 <= i < |Rows(b, base)| ensures j !in Rows(b, base)[i] {
      if i < |b.pages| - base {
        assert Rows(b, base)[i + base - base] == b.pages[i + base].jobs;
      }
    }
  }

  lemma JoinRows(b: Book, base: nat, g: Group)
    requires base <= |b.pages|
    ensures var rows := Rows(b, base);
      |rows| > 0 && Rows(b.(open := Pages.Join(b.open, g)), base) == rows[|rows| - 1 := rows[|rows| - 1] + g.jobs]
  {}

  /** One step of the loop, `region` counting the `.eop` lines met. */
  lemma PlacePart(v: View, ranks: Ranks, size: nat, col: nat, base: nat, region: nat, b: Book, j: JobId)
    requires Ready(v, ranks) && NoLaunch(v) && j in v.s.jobs && (j.Job? ==> v.s.jobs[j].eop == region)
    requires PartOk(v, base, region, b)
    ensures var r := Place(v, ranks, size, col, base, b, j);
      r.Ok? ==> PartOk(v, base, region + (if j.EopJob? then 1 else 0), r.value)
  {
    hide View.Valid, Ready, GroupOf, Conclude, PartOk, NoLaunch;
    if j.Job? && j !in b.placed && j !in b.open.jobs {
      JobPartition(v, ranks, size, col, base, region, b, j);
    } else if j.EopJob? {
      EopPart(v, col, base, region, b);
      EopNowhere(v, base, region, b, j);
    }
  }

  lemma EopNowhere(v: View, base: nat, region: nat, b: Book, j: JobId)
    requires PartOk(v, base, region, b) && j.EopJob?
    ensures j !in b.open.jobs && j !in b.placed
  {
    OpenHead(v, base, region, b);
    hide Rows, RowsOk, RegionsOk;
  }

  lemma IdFacts(v: View, k: nat)
    requires v.Valid() && k < |v.s.jobids|
    ensures v.s.jobids[k] in v.s.jobs && v.s.jobs[v.s.jobids[k]].eop == Eops(v.s.jobids[..k])
    ensures Eops(v.s.jobids[..k + 1]) == Eops(v.s.jobids[..k]) + (if v.s.jobids[k].EopJob? then 1 else 0)
  {
    hide LabelsOk, EofOk, JobOk, BarriersMatch;
    assert v.s.jobids[k] in v.s.jobids;
    var ids := v.s.jobids[..k + 1];
    assert ids[..|ids| - 1] == v.s.jobids[..k] && ids[|ids| - 1] == v.s.jobids[k];
  }

  lemma {:induction false} PlaceAllPart(v: View, ranks: Ranks, size: nat, col: nat, base: nat, b: Book, k: nat)
    requires Ready(v, ranks) && NoLaunch(v) && k <= |v.s.jobids| && (forall j :: j in v.s.jobids[k..] ==> j in v.s.jobs)
    requires PartOk(v, base, Eops(v.s.jobids[..k]), b)
    ensures var r := PlaceAll(v, ranks, size, col, base, b, v.s.jobids[k..]);
      r.Ok? ==> PartOk(v, base, Eops(v.s.jobids), r.value)
    decreases |v.s.jobids| - k
  {
    hide View.Valid, Ready, PartOk, NoLaunch, Place, Eops;
    var ids := v.s.jobids;
    if k == |ids| {
      assert ids[..k] == ids;
    } else {
      ReadyValid(v, ranks);
      IdFacts(v, k);
      PlacePart(v, ranks, size, col, base, Eops(ids[..k]), b, ids[k]);
      assert ids[k..][0] == ids[k] && ids[k..][1..] == ids[k + 1..];
      var r := Place(v, ranks, size, col, base, b, ids[k]);
      if r.Ok? {
        PlaceAllPart(v, ranks, size, col, base, r.value, k + 1);
      }
    }
  }

  // ---------- the whole call ----------

  /** Every ordinary job sits on exactly one of the new pages, exactly once; its barrier mates sit
      with it; and no page mixes two `.eop` regions. */
  ghost predicate Partitioned(v: View, base: nat, pages: seq<Page>)
    requires base <= |pages|
  {
    && RowsOk(v, JobRows(pages[base..]))
    && forall j :: j in v.s.jobids && j.Job? <==> exists i: nat :: base <= i && OnPage(pages, i, j)
  }

  lemma StartPart(v: View, base: nat, before: seq<Page>)
    requires base == |before|
    ensures PartOk(v, base, 0, Book(before, map[], EMPTY))
  {
    assert before[base..] == [];
    assert JobRows(before[base..]) == [];
  }

  lemma FinishRows(v: View, col: nat, base: nat, region: nat, b: Book)
    requires PartOk(v, base, region, b)
    ensures var r := Finish(v, col, base, b); r.Ok? ==>
      base <= |r.value| && RowsOk(v, JobRows(r.value[base..]))
  {
    var r := Finish(v, col, base, b);
    if r.Ok? {
      hide RowsOk, RegionsOk, RowsPlaced, Rows;
      if b.open.jobs != [] {
        OpenHead(v, base, region, b);
        FinishOpenRows(v, col, base, b);
        RowsTake(v, Rows(b, base), |Rows(b, base)|);
      } else {
        hide Conclude;
        FinishShutRows(v, col, base, b);
        RowsTake(v, Rows(b, base), |Rows(b, base)| - 1);
      }
    }
  }

  lemma FinishOpenRows(v: View, col: nat, base: nat, b: Book)
    requires base <= |b.pages| && b.open.jobs != [] && b.open.jobs[0].Job?
    ensures var r := Finish(v, col, base, b); r.Ok? ==>
      base <= |r.value| && JobRows(r.value[base..]) == Rows(b, base)
    ensures Rows(b, base)[..|Rows(b, base)|] == Rows(b, base)
  {
    var r := Conclude(v, col, base, b, true);
    if r.Ok? {
      MadeJobs(v, col, |b.pages|, b.open, true);
      hide MakePage, Push, JobRows;
      PushRows(b.pages, MakePage(v, col, |b.pages|, b.open, true), base);
    }
  }

  lemma FinishShutRows(v: View, col: nat, base: nat, b: Book)
    requires base <= |b.pages| && b.open.jobs == []
    ensures var r := Finish(v, col, base, b); r.Ok? ==>
      base <= |r.value| && |Rows(b, base)| > 0 && JobRows(r.value[base..]) == Rows(b, base)[..|Rows(b, base)| - 1]
  {
    var r := Finish(v, col, base, b).value;
    JobRowsAt(b.pages[base..]);
    JobRowsAt(r[base..]);
    assert forall i :: 0 <= i < |r| - base ==> r[base..][i].jobs == b.pages[base..][i].jobs;
    assert JobRows(r[base..]) == JobRows(b.pages[base..]);
  }

  lemma RowsTake(v: View, rows: seq<seq<JobId>>, n: nat)
    requires RowsOk(v, rows) && n <= |rows|
    ensures RowsOk(v, rows[..n])
  {
    hide Mates;
  }

  lemma OnPageKnown(v: View, size: nat, col: nat, pages: seq<Page>, base: nat, i: nat, j: JobId)
    requires v.Valid() && PagesOk(v, size, col, pages, base) && base <= i && OnPage(pages, i, j)
    ensures j.Job? && j in v.s.jobids
  {
    assert PageOk(v, size, col, pages[i], i);
    hide JobOk, LabelsOk, EofOk, EopsOk, BarriersMatch;
  }

  /** The pager partitions a launch-free program. */
  lemma PagifyPartitions(v: View, ranks: Ranks, size: nat, col: nat, before: seq<Page>)
    requires Ready(v, ranks) && NoLaunch(v)
    ensures var r := Pagify(v, ranks, size, col, before);
      r.Ok? ==> |before| <= |r.value| && Partitioned(v, |before|, r.value)
  {
    hide View.Valid, Ready, PartOk, NoLaunch, PlaceAll, Finish, PagesOk, Chained, RowsOk;
    ReadyValid(v, ranks);
    IdsKnown(v);
    PagifyLaws(v, ranks, size, col, before);
    var start := Book(before, map[], EMPTY);
    StartPart(v, |before|, before);
    assert v.s.jobids[..0] == [] && v.s.jobids[0..] == v.s.jobids;
    PlaceAllPart(v, ranks, size, col, |before|, start, 0);
    var b := PlaceAll(v, ranks, size, col, |before|, start, v.s.jobids);
    if b.Ok? {
      FinishRows(v, col, |before|, Eops(v.s.jobids), b.value);
      var r := Finish(v, col, |before|, b.value);
      if r.Ok? {
        forall i: nat, j | |before| <= i && OnPage(r.value, i, j) ensures j in v.s.jobids && j.Job? {
          OnPageKnown(v, size, col, r.value, |before|, i, j);
        }
      }
    }
  }
}
