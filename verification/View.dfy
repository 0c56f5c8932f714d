/** The pager's input: the token list together with what the layout pass recorded about it. */
module View {
  import opened Base
  import opened Isa
  import opened Program
  import opened Structure

  /** Job `j`'s record describes a bracketed slice of the tokens. */
  ghost predicate JobOk(toks: seq<Token>, r: JobRec, j: JobId) {
    && r.first <= r.last < |toks|
    && var t := toks[r.first..r.last + 1];
      && JobShape(j, t) && r.end == r.start + Sizes(t)
      && r.barriers == BarriersOf(t) && r.launches == LaunchesOf(t)
  }

  /** Label `l`'s record describes its data lines, `.align` excluded. */
  ghost predicate LabelOk(toks: seq<Token>, r: LabelRec, l: Name) {
    && r.index + r.count < |toks|
    && toks[r.index] == Label(l)
    && var t := toks[r.index + 1..r.index + 1 + r.count];
      && (forall x :: x in t ==> DataOp(x)) && r.size == Sizes(t)
      && (r.count == 0 ==> r.index + 1 == |toks| || toks[r.index + 1].Align? || toks[r.index + 1].Label?)
  }

  /** `m_localbarriermap` and the jobs' own barrier lists say the same. */
  ghost predicate BarriersMatch(jobs: map<JobId, JobRec>, barriers: map<nat, seq<JobId>>) {
    && (forall b, j :: b in barriers && j in barriers[b] ==> j in jobs && b in jobs[j].barriers)
    && (forall j, b :: j in jobs && b in jobs[j].barriers ==> b in barriers && j in barriers[b])
    && (forall b :: b in barriers ==> barriers[b] != [])
  }

  function Eops(ids: seq<JobId>): nat {
    if ids == [] then 0 else Eops(ids[..|ids| - 1]) + (if ids[|ids| - 1].EopJob? then 1 else 0)
  }

  /** Each job carries the number of `.eop` lines before it. */
  ghost predicate EopsOk(s: Scan) {
    && s.eopnum == Eops(s.jobids)
    && forall i :: 0 <= i < |s.jobids| && s.jobids[i] in s.jobs ==> s.jobs[s.jobids[i]].eop == Eops(s.jobids[..i])
  }

  ghost predicate JobsOk(toks: seq<Token>, s: Scan) {
    && (forall j :: j in s.jobs && j.Job? ==> JobOk(toks, s.jobs[j], j))
    && (forall j :: j in s.jobs && !j.Job? ==> s.jobs[j].barriers == [] && s.jobs[j].launches == [])
    && (forall k: nat :: EopJob(k) in s.jobs ==> k < s.eopnum)
    && BarriersMatch(s.jobs, s.barriers) && EopsOk(s)
    && NoDup(s.jobids) && (forall j :: j in s.jobids <==> j in s.jobs)
  }

  lemma SliceExtend<T>(a: seq<T>, b: seq<T>, i: nat, j: nat)
    requires i <= j <= |a|
    ensures (a + b)[i..j] == a[i..j]
  {}

  lemma JobOkExtend(toks: seq<Token>, more: seq<Token>, r: JobRec, j: JobId)
    requires JobOk(toks, r, j)
    ensures JobOk(toks + more, r, j)
  {
    hide JobShape, Sizes, BarriersOf, LaunchesOf;
    SliceExtend(toks, more, r.first, r.last + 1);
  }

  lemma JobsOkExtend(toks: seq<Token>, more: seq<Token>, s: Scan)
    requires JobsOk(toks, s)
    ensures JobsOk(toks + more, s)
  {
    hide JobOk, BarriersMatch, EopsOk, NoDup;
    forall j | j in s.jobs && j.Job? ensures JobOk(toks + more, s.jobs[j], j) {
      JobOkExtend(toks, more, s.jobs[j], j);
    }
  }

  // ---------- the text ----------

  ghost predicate TextInv(done: seq<Token>, s: Scan) {
    && s.index == |done| && s.clabel == None && s.cjob == None && s.labels == map[] && s.labelList == []
    && EofJob !in s.jobs && JobsOk(done, s)
  }

  lemma {:induction false} JoinAllMembers(m: map<nat, seq<JobId>>, bs: seq<nat>, j: JobId)
    ensures var r := JoinAll(m, bs, j);
      && (forall b :: b in r <==> b in m || b in bs)
      && (forall b, k :: b in r && k in r[b] ==> (b in m && k in m[b]) || (b in bs && k == j))
      && (forall b, k :: b in m && k in m[b] ==> k in r[b])
      && (forall b :: b in bs ==> j in r[b])
    decreases |bs|
  {
    if bs != [] {
      JoinAllMembers(Join(m, bs[0], j), bs[1..], j);
      assert j in Join(m, bs[0], j)[bs[0]];
    }
  }

  lemma JoinKeepsMatch(jobs: map<JobId, JobRec>, m: map<nat, seq<JobId>>, j: JobId, r: JobRec)
    requires BarriersMatch(jobs, m) && j !in jobs
    ensures BarriersMatch(jobs[j := r], JoinAll(m, r.barriers, j))
  {
    JoinAllMembers(m, r.barriers, j);
    var m' := JoinAll(m, r.barriers, j);
    forall b | b in m' ensures m'[b] != [] {
      if b in m {
        assert m[b][0] in m[b];
      }
    }
  }

  lemma EopsSnoc(ids: seq<JobId>, j: JobId)
    ensures Eops(ids + [j]) == Eops(ids) + (if j.EopJob? then 1 else 0)
  {
    assert (ids + [j])[..|ids|] == ids;
  }

  lemma AddEop(s: Scan, j: JobId, r: JobRec, s': Scan)
    requires EopsOk(s) && j !in s.jobids && (forall k :: k in s.jobids ==> k in s.jobs)
    requires s'.jobs == s.jobs[j := r] && s'.jobids == s.jobids + [j]
    requires r.eop == s.eopnum && s'.eopnum == s.eopnum + (if j.EopJob? then 1 else 0)
    ensures EopsOk(s')
  {
    hide Eops;
    assert s'.jobids[..|s.jobids|] == s.jobids;
    EopsSnoc(s.jobids, j);
    forall i | 0 <= i < |s'.jobids| && s'.jobids[i] in s'.jobs
      ensures s'.jobs[s'.jobids[i]].eop == Eops(s'.jobids[..i])
    {
      if i < |s.jobids| {
        assert s'.jobids[..i] == s.jobids[..i];
        assert s.jobids[i] in s.jobids;
      }
    }
  }

  /** Adding a job that fits the tokens keeps the whole job table consistent. */
  lemma AddJob(toks: seq<Token>, s: Scan, j: JobId, r: JobRec, s': Scan)
    requires JobsOk(toks, s) && j !in s.jobs
    requires j.Job? ==> JobOk(toks, r, j)
    requires !j.Job? ==> r.barriers == [] && r.launches == []
    requires j.EopJob? ==> j.k < s'.eopnum
    requires s'.jobs == s.jobs[j := r] && s'.jobids == s.jobids + [j]
    requires r.eop == s.eopnum && s'.eopnum == s.eopnum + (if j.EopJob? then 1 else 0)
    requires s'.barriers == JoinAll(s.barriers, r.barriers, j)
    ensures JobsOk(toks, s')
  {
    hide JobOk, JoinAll, BarriersMatch, EopsOk;
    JoinKeepsMatch(s.jobs, s.barriers, j, r);
    AddEop(s, j, r, s');
  }

  lemma AfterJob(done: seq<Token>, s: Scan, j: JobId, t: seq<Token>, s': Scan)
    requires TextInv(done, s) && JobShape(j, t) && j !in s.jobs
    requires s' == s.(pos := s.pos + Sizes(t), index := s.index + |t|, cjob := None,
                      jobids := s.jobids + [j], jobs := s.jobs[j := JobEntry(s, t)],
                      barriers := JoinAll(s.barriers, BarriersOf(t), j), applies := s'.applies)
    ensures TextInv(done + t, s')
  {
    EntryOk(done, s, j, t);
    assert j.Job?;
    hide JobEntry, JoinAll, JobShape, JobsOk, JobOk, Sizes;
    JobsOkExtend(done, t, s);
    AddJob(done + t, s, j, JobEntry(s, t), s');
  }

  lemma EntryOk(done: seq<Token>, s: Scan, j: JobId, t: seq<Token>)
    requires JobShape(j, t) && s.index == |done|
    ensures JobOk(done + t, JobEntry(s, t), j)
    ensures JobEntry(s, t).barriers == BarriersOf(t) && JobEntry(s, t).eop == s.eopnum
  {
    hide Sizes, BarriersOf, LaunchesOf, BodyOp;
    assert (done + t)[|done|..|done| + |t|] == t;
  }

  lemma NoLabelYet(done: seq<Token>, s: Scan)
    requires TextInv(done, s)
    ensures s.clabel == None
  {}

  lemma JobSegScan(done: seq<Token>, s: Scan, j: JobId, t: seq<Token>, unique: bool)
    requires TextInv(done, s) && JobShape(j, t)
    ensures var r := ScanFrom(s, t, unique);
      if j in s.jobs then r.Err? else
      && r.Ok? && TextInv(done + t, r.value) && r.value.jobids == s.jobids + [j] && r.value.eopnum == s.eopnum
  {
    hide TextInv, ScanFrom, JobShape, JobEntry, JoinAll;
    NoLabelYet(done, s);
    JobScan(s, j, t, unique);
    if j !in s.jobs {
      AfterJob(done, s, j, t, ScanFrom(s, t, unique).value);
    }
  }

  lemma EopSegScan(done: seq<Token>, s: Scan, unique: bool)
    requires TextInv(done, s)
    ensures var r := ScanFrom(s, [Eop], unique);
      && r.Ok? && TextInv(done + [Eop], r.value)
      && r.value.jobids == s.jobids + [EopJob(s.eopnum)] && r.value.eopnum == s.eopnum + 1
  {
    ScanOne(s, Eop, unique);
    JobsOkExtend(done, [Eop], s);
    assert EopJob(s.eopnum) !in s.jobs;
    hide JobsOk, ScanFrom;
    AddJob(done + [Eop], s, EopJob(s.eopnum), JobRec(s.pos, s.pos, s.index, s.index, s.eopnum, [], []),
           ScanFrom(s, [Eop], unique).value);
  }

  lemma SegScan(done: seq<Token>, s: Scan, g: Segment, unique: bool)
    requires TextInv(done, s) && g.Valid()
    ensures var r := ScanFrom(s, g.Toks(), unique);
      if g.JobSeg? && Job(g.n, g.form) in s.jobs then r.Err? else
      && r.Ok? && TextInv(done + g.Toks(), r.value)
      && r.value.jobids == s.jobids + [if g.JobSeg? then Job(g.n, g.form) else EopJob(s.eopnum)]
      && r.value.eopnum == s.eopnum + (if g.EopSeg? then 1 else 0)
  {
    hide TextInv, ScanFrom;
    if g.JobSeg? {
      var t := g.Toks();
      assert forall i :: 1 <= i < |t| - 1 ==> t[i] == g.body[i - 1];
      JobSegScan(done, s, Job(g.n, g.form), t, unique);
    } else {
      EopSegScan(done, s, unique);
    }
  }

  /** Names the pass gives to the segments, in order. */
  function SegIds(segs: seq<Segment>, k: nat): seq<JobId>
    decreases |segs|
  {
    if segs == [] then [] else
      [if segs[0].JobSeg? then Job(segs[0].n, segs[0].form) else EopJob(k)]
        + SegIds(segs[1..], if segs[0].EopSeg? then k + 1 else k)
  }

  lemma InJobs(done: seq<Token>, s: Scan, j: JobId)
    requires TextInv(done, s)
    ensures j in s.jobs <==> j in s.jobids
  {}

  lemma Repeated<T>(a: seq<T>, b: seq<T>)
    requires b != [] && b[0] in a
    ensures !NoDup(a + b)
  {
    var i :| 0 <= i < |a| && a[i] == b[0];
    assert (a + b)[i] == (a + b)[|a|];
  }

  lemma SegsStep(segs: seq<Segment>, k: nat)
    requires segs != []
    ensures SegsToks(segs) == segs[0].Toks() + SegsToks(segs[1..])
    ensures SegIds(segs, k) ==
      [if segs[0].JobSeg? then Job(segs[0].n, segs[0].form) else EopJob(k)]
        + SegIds(segs[1..], k + (if segs[0].EopSeg? then 1 else 0))
  {
    hide Segment.Toks;
  }

  lemma {:induction false} SegsScan(done: seq<Token>, s: Scan, segs: seq<Segment>, unique: bool)
    requires TextInv(done, s) && forall g :: g in segs ==> g.Valid()
    ensures var r := ScanFrom(s, SegsToks(segs), unique);
      if r.Ok? then
        && TextInv(done + SegsToks(segs), r.value)
        && r.value.jobids == s.jobids + SegIds(segs, s.eopnum)
      else !NoDup(s.jobids + SegIds(segs, s.eopnum))
    decreases |segs|
  {
    hide JobsOk, NoDup, Step, Segment.Valid, Segment.Toks, TextInv;
    if segs == [] {
      assert done + [] == done && s.jobids + [] == s.jobids;
    } else {
      hide ScanFrom, SegsToks, SegIds;
      var g, rest := segs[0], segs[1..];
      SegScan(done, s, g, unique);
      SegsStep(segs, s.eopnum);
      ScanAppend(s, g.Toks(), SegsToks(rest), unique);
      Assoc(done, g.Toks(), SegsToks(rest));
      if g.JobSeg? && Job(g.n, g.form) in s.jobs {
        InJobs(done, s, Job(g.n, g.form));
        Repeated(s.jobids, SegIds(segs, s.eopnum));
      } else {
        var s' := ScanFrom(s, g.Toks(), unique).value;
        SegsScan(done + g.Toks(), s', rest, unique);
        Assoc(s.jobids, s'.jobids[|s.jobids|..], SegIds(rest, s'.eopnum));
      }
    }
  }

  // ---------- the data ----------

  lemma {:induction false} AlignsScan(s: Scan, aligns: seq<Token>, unique: bool)
    requires forall t :: t in aligns ==> IsAlign(t)
    ensures ScanFrom(s, aligns, unique) == Ok(s.(pos := EndPos(aligns, s.pos), index := s.index + |aligns|))
    decreases |aligns|
  {
    if aligns != [] {
      assert IsAlign(aligns[0]);
      AlignsScan(Step(s, aligns[0], unique).value, aligns[1..], unique);
    }
  }

  lemma DataStep(s: Scan, t: Token, l: Name, unique: bool)
    requires s.clabel == Some(l) && l in s.labels && DataOp(t)
    ensures Step(s, t, unique) == Ok(s.(pos := s.pos + SizeOf(t), index := s.index + 1,
      labels := s.labels[l := s.labels[l].(count := s.labels[l].count + 1, size := s.labels[l].size + SizeOf(t))]))
  {
    hide OpSize;
  }

  lemma {:induction false} OpsScan(s: Scan, ops: seq<Token>, l: Name, unique: bool)
    requires s.clabel == Some(l) && l in s.labels && forall t :: t in ops ==> DataOp(t)
    ensures ScanFrom(s, ops, unique) == Ok(s.(pos := s.pos + Sizes(ops), index := s.index + |ops|,
      labels := s.labels[l := s.labels[l].(count := s.labels[l].count + |ops|, size := s.labels[l].size + Sizes(ops))]))
    decreases |ops|
  {
    hide Step, SizeOf, DataOp;
    if ops == [] {
      assert s.labels[l := s.labels[l]] == s.labels;
    } else {
      DataStep(s, ops[0], l, unique);
      var s' := Step(s, ops[0], unique).value;
      OpsScan(s', ops[1..], l, unique);
      var r := s.labels[l];
      assert s'.labels[l := r.(count := r.count + |ops|, size := r.size + Sizes(ops))]
          == s.labels[l := r.(count := r.count + |ops|, size := r.size + Sizes(ops))];
    }
  }

  /** Scanning a label's block records its position, index, line count and byte size. */
  lemma BlockScan(s: Scan, b: Block, unique: bool)
    requires b.Valid()
    ensures var r := ScanFrom(s, b.Toks(), unique);
      if b.name in s.labels then r == Err(DuplicateLabel) else
      && r.Ok?
      && r.value == s.(pos := r.value.pos, index := s.index + |b.Toks()|, clabel := Some(b.name),
           labels := s.labels[b.name := LabelRec(s.pos, s.index, |b.ops|, Sizes(b.ops))],
           labelList := s.labelList + [b.name])
  {
    assert b.Toks() == [Label(b.name)] + (b.ops + b.aligns);
    ScanAppend(s, [Label(b.name)], b.ops + b.aligns, unique);
    ScanOne(s, Label(b.name), unique);
    if b.name !in s.labels {
      var s1 := Step(s, Label(b.name), unique).value;
      hide ScanFrom, Sizes, Step;
      OpsScan(s1, b.ops, b.name, unique);
      ScanAppend(s1, b.ops, b.aligns, unique);
      var s2 := ScanFrom(s1, b.ops, unique).value;
      AlignsScan(s2, b.aligns, unique);
      assert s2.labels == s.labels[b.name := LabelRec(s.pos, s.index, |b.ops|, Sizes(b.ops))];
    }
  }

  ghost predicate LabelsOk(toks: seq<Token>, s: Scan) {
    && (forall l :: l in s.labels ==> LabelOk(toks, s.labels[l], l))
    && NoDup(s.labelList) && (forall l :: l in s.labelList <==> l in s.labels)
  }

  ghost predicate EofOk(toks: seq<Token>, s: Scan) {
    EofJob in s.jobs && s.jobs[EofJob].first < |toks| && toks[s.jobs[EofJob].first] == EOF
  }

  ghost predicate DataInv(done: seq<Token>, s: Scan) {
    s.index == |done| && JobsOk(done, s) && EofOk(done, s) && LabelsOk(done, s)
  }

  lemma LabelOkExtend(toks: seq<Token>, more: seq<Token>, r: LabelRec, l: Name)
    requires LabelOk(toks, r, l) && more != [] && (more[0].Label? || r.count > 0)
    ensures LabelOk(toks + more, r, l)
  {
    hide DataOp, Sizes;
    SliceExtend(toks, more, r.index + 1, r.index + 1 + r.count);
  }

  lemma AddBlock(done: seq<Token>, s: Scan, b: Block, s': Scan)
    requires LabelsOk(done, s) && b.Valid() && b.name !in s.labels && s.index == |done|
    requires s'.labels == s.labels[b.name := LabelRec(s.pos, s.index, |b.ops|, Sizes(b.ops))]
    requires s'.labelList == s.labelList + [b.name]
    ensures LabelsOk(done + b.Toks(), s')
  {
    var toks := done + b.Toks();
    var r := s'.labels[b.name];
    assert toks[|done|] == Label(b.name);
    assert toks[r.index + 1..r.index + 1 + r.count] == b.ops;
    if r.count == 0 && b.aligns != [] {
      assert toks[r.index + 1] == b.aligns[0] && IsAlign(b.aligns[0]);
    }
    assert LabelOk(toks, r, b.name);
    forall l | l in s.labels ensures LabelOk(toks, s'.labels[l], l) {
      hide LabelOk;
      LabelOkExtend(done, b.Toks(), s.labels[l], l);
    }
  }

  lemma BlockStep(done: seq<Token>, s: Scan, b: Block, unique: bool)
    requires DataInv(done, s) && b.Valid()
    ensures var r := ScanFrom(s, b.Toks(), unique);
      if b.name in s.labels then r.Err? else
      && r.Ok? && DataInv(done + b.Toks(), r.value) && r.value.labelList == s.labelList + [b.name]
      && r.value.jobids == s.jobids
  {
    hide ScanFrom, LabelsOk, JobsOk, Block.Valid, Block.Toks;
    BlockScan(s, b, unique);
    if b.name !in s.labels {
      var r := ScanFrom(s, b.Toks(), unique).value;
      JobsOkExtend(done, b.Toks(), s);
      AddBlock(done, s, b, r);
      JobsOkFields(done + b.Toks(), s, r);
    }
  }

  lemma InLabels(done: seq<Token>, s: Scan, l: Name)
    requires DataInv(done, s)
    ensures l in s.labels <==> l in s.labelList
  {}

  lemma {:induction false} BlocksScan(done: seq<Token>, s: Scan, blocks: seq<Block>, unique: bool)
    requires DataInv(done, s) && forall b :: b in blocks ==> b.Valid()
    ensures var r := ScanFrom(s, BlocksToks(blocks), unique);
      if r.Ok? then
        && DataInv(done + BlocksToks(blocks), r.value)
        && r.value.labelList == s.labelList + LabelNames(blocks) && r.value.jobids == s.jobids
      else !NoDup(s.labelList + LabelNames(blocks))
    decreases |blocks|
  {
    hide NoDup, Step, JobsOk, EofOk, LabelsOk;
    if blocks == [] {
      assert done + [] == done && s.labelList + [] == s.labelList;
    } else {
      hide DataInv, ScanFrom, Block.Valid, Block.Toks;
      var b, rest := blocks[0], blocks[1..];
      BlockStep(done, s, b, unique);
      ScanAppend(s, b.Toks(), BlocksToks(rest), unique);
      Assoc(done, b.Toks(), BlocksToks(rest));
      if b.name in s.labels {
        InLabels(done, s, b.name);
        Repeated(s.labelList, LabelNames(blocks));
      } else {
        var s' := ScanFrom(s, b.Toks(), unique).value;
        Assoc(s.labelList, [b.name], LabelNames(rest));
        BlocksScan(done + b.Toks(), s', rest, unique);
      }
    }
  }

  lemma EofScan(done: seq<Token>, s: Scan, lead: seq<Token>, unique: bool)
    requires TextInv(done, s) && forall t :: t in lead ==> IsAlign(t)
    ensures var r := ScanFrom(s, [EOF] + lead, unique);
      && r.Ok? && DataInv(done + [EOF] + lead, r.value)
      && r.value.jobids == s.jobids + [EofJob] && r.value.labelList == []
  {
    EofStep(done, s, unique);
    hide Step, ScanFrom, TextInv, JobsOk;
    ScanAppend(s, [EOF], lead, unique);
    var s1 := ScanFrom(s, [EOF], unique).value;
    AlignsScan(s1, lead, unique);
    JobsOkExtend(done + [EOF], lead, s1);
    JobsOkFields(done + [EOF] + lead, s1, ScanFrom(s1, lead, unique).value);
  }

  lemma EofStep(done: seq<Token>, s: Scan, unique: bool)
    requires TextInv(done, s)
    ensures var r := ScanFrom(s, [EOF], unique);
      && r.Ok? && r.value.index == |done| + 1 && JobsOk(done + [EOF], r.value) && EofOk(done + [EOF], r.value)
      && r.value.jobids == s.jobids + [EofJob] && r.value.labelList == [] && r.value.labels == map[]
  {
    hide Step, ScanFrom, JobsOk;
    ScanOne(s, EOF, unique);
    EofEffect(s, unique);
    var s1 := Step(s, EOF, unique).value;
    JobsOkExtend(done, [EOF], s);
    AddJob(done + [EOF], s, EofJob, EofEntry(s), s1);
  }

  function EofEntry(s: Scan): JobRec {
    JobRec(s.pos, s.pos + 4, s.index, s.index, s.eopnum, [], [])
  }

  lemma EofEffect(s: Scan, unique: bool)
    requires EofJob !in s.jobs
    ensures Step(s, EOF, unique) ==
      Ok(s.(pos := s.pos + 4, index := s.index + 1, cjob := None,
            jobids := s.jobids + [EofJob], jobs := s.jobs[EofJob := EofEntry(s)]))
  {
    var early := s.jobs[EofJob := JobRec(s.pos, s.pos, s.index, s.index, s.eopnum, [], [])];
    assert early[EofJob := EofEntry(s)] == s.jobs[EofJob := EofEntry(s)];
  }

  lemma JobsOkFields(toks: seq<Token>, s: Scan, s': Scan)
    requires JobsOk(toks, s)
    requires s'.jobs == s.jobs && s'.jobids == s.jobids && s'.barriers == s.barriers && s'.eopnum == s.eopnum
    ensures JobsOk(toks, s')
  {}

  lemma LayoutParts(segs: seq<Segment>, lead: seq<Token>, blocks: seq<Block>, unique: bool)
    requires forall g :: g in segs ==> g.Valid()
    requires forall t :: t in lead ==> IsAlign(t)
    requires forall b :: b in blocks ==> b.Valid()
    ensures var toks := SegsToks(segs) + ([EOF] + lead) + BlocksToks(blocks);
      var r := ScanFrom(START, toks, unique);
      if r.Ok? then
        && DataInv(toks, r.value)
        && r.value.jobids == SegIds(segs, 0) + [EofJob] && r.value.labelList == LabelNames(blocks)
      else !NoDup(SegIds(segs, 0)) || !NoDup(LabelNames(blocks))
  {
    TextStart();
    hide ScanFrom, DataInv, TextInv, SegsToks, BlocksToks, NoDup, LabelNames, SegIds, Segment.Valid, Block.Valid,
      IsAlign;
    var text, data, rest := SegsToks(segs), [EOF] + lead, BlocksToks(blocks);
    SegsScan([], START, segs, unique);
    assert [] + text == text && [] + SegIds(segs, 0) == SegIds(segs, 0);
    ScanAppend(START, text, data, unique);
    ScanAppend(START, text + data, rest, unique);
    var r1 := ScanFrom(START, text, unique);
    if r1.Ok? {
      EofScan(text, r1.value, lead, unique);
      assert text + [EOF] + lead == text + data;
      BlocksScan(text + data, ScanFrom(START, text + data, unique).value, blocks, unique);
      assert [] + LabelNames(blocks) == LabelNames(blocks);
    }
  }

  /** Pass one. The layout pass accepts a well-formed program exactly when its jobs and its labels
      have distinct names, and then every record it leaves behind describes the tokens. */
  lemma LayoutPass(p: Source, unique: bool)
    requires p.Valid()
    ensures var r := ScanFrom(START, p.Toks(), unique);
      if r.Ok? then
        && DataInv(p.Toks(), r.value)
        && r.value.jobids == SegIds(p.segs, 0) + [EofJob] && r.value.labelList == LabelNames(p.blocks)
        && Placed(p.Toks(), |p.Toks()|, r.value)
      else !NoDup(SegIds(p.segs, 0)) || !NoDup(LabelNames(p.blocks))
  {
    LayoutParts(p.segs, p.lead, p.blocks, unique);
    assert p.Toks() == SegsToks(p.segs) + ([EOF] + p.lead) + BlocksToks(p.blocks);
    PlacedStart(p.Toks(), unique);
    hide *;
  }

  lemma PlacedStart(toks: seq<Token>, unique: bool)
    ensures var r := ScanFrom(START, toks, unique); r.Ok? ==> Placed(toks, |toks|, r.value)
  {
    ScanPlaces(toks, 0, START, unique);
    assert toks[0..] == toks;
  }

  lemma TextStart()
    ensures TextInv([], START) && START.jobids == [] && START.eopnum == 0
  {}

  // ---------- the pager's view ----------

  /** Tokens, pass-one records, the dependent-label table and the names of the scratchpads. */
  datatype View = View(toks: seq<Token>, s: Scan, dependents: map<Name, seq<Name>>, pads: set<Name>) {
    ghost predicate Valid() {
      DataInv(toks, s) && forall l :: l in dependents ==>
          l in s.labels
          && forall d :: d in dependents[l] ==> d in s.labels
    }

    /** `m_data[start_index..end_index]` of a job. */
    function JobToks(j: JobId): seq<Token> {
      if j in s.jobs && s.jobs[j].first <= s.jobs[j].last < |toks| then toks[s.jobs[j].first..s.jobs[j].last + 1]
        else []
    }

    function JobSize(j: JobId): nat {
      if j in s.jobs && s.jobs[j].start <= s.jobs[j].end then s.jobs[j].end - s.jobs[j].start else 0
    }

    /** The label line and its data, without the `.align` at the tail. */
    function LabelToks(l: Name): seq<Token> {
      if l in s.labels && s.labels[l].index + s.labels[l].count < |toks| then
        toks[s.labels[l].index..s.labels[l].index + s.labels[l].count + 1]
      else []
    }

    function LabelSize(l: Name): nat {
      if l in s.labels then s.labels[l].size else 0
    }

    /** ALIGNMAP, keyed by the first line after the label; the source fails on anything else. */
    function AlignOf(l: Name): Option<nat> {
      if l !in s.labels then None else
        var k := s.labels[l].index + 1;
        if k < |toks| && toks[k].UcDmaBd? then Some(16)
        else if k < |toks| && toks[k].Long? then Some(4)
        else None
    }
  }

  /** A job's slice is bracketed, and its size is the sum of its instructions. */
  lemma JobSlice(v: View, j: JobId)
    requires v.Valid() && j in v.s.jobs && j.Job?
    ensures JobShape(j, v.JobToks(j)) && v.JobSize(j) == Sizes(v.JobToks(j))
    ensures v.s.jobs[j].launches == LaunchesOf(v.JobToks(j))
  {
    hide JobShape, Sizes, LaunchesOf, BarriersOf, LabelsOk, EofOk, EopsOk, BarriersMatch;
    assert JobOk(v.toks, v.s.jobs[j], j);
  }

  /** A label's slice is the label and its data, and its size is the sum of the data. */
  lemma LabelSlice(v: View, l: Name)
    requires v.Valid() && l in v.s.labels
    ensures var t := v.LabelToks(l);
      && t != [] && t[0] == Label(l) && (forall x :: x in t[1..] ==> DataOp(x))
      && v.LabelSize(l) == Sizes(t)
      && (v.AlignOf(l) == Some(16) ==> |t| > 1 && t[1].UcDmaBd?)
      && (v.AlignOf(l) == Some(4) ==> |t| > 1 && t[1].Long?)
  {
    hide JobsOk, EofOk, DataOp, Sizes;
    var r := v.s.labels[l];
    assert LabelOk(v.toks, r, l);
    var t := v.LabelToks(l);
    assert t[1..] == v.toks[r.index + 1..r.index + 1 + r.count];
    LabelLineSize(t, l);
    assert r.count > 0 ==> t[1] == v.toks[r.index + 1];
  }

  lemma LabelLineSize(t: seq<Token>, l: Name)
    requires t != [] && t[0] == Label(l)
    ensures Sizes(t) == Sizes(t[1..])
  {}

  /** `process` before paging. */
  function Build(toks: seq<Token>, pads: set<Name>): Result<View> {
    var s :- ScanFrom(START, toks, true);
    var dependents :- Dependents(s.labelList, s.applies);
    Ok(View(toks, s, dependents, pads))
  }

  /** The view of an accepted program. */
  function ViewOf(p: Source, pads: set<Name>): View
    requires Build(p.Toks(), pads).Ok?
  {
    Build(p.Toks(), pads).value
  }

  lemma NoTables(list: seq<Name>)
    ensures Dependents(list, map[]) == Ok(map[])
  {}

  lemma DependentsInside(list: seq<Name>, applies: map<Name, nat>)
    ensures var r := Dependents(list, applies);
      r.Ok? ==> forall l :: l in r.value ==> l in list && forall d :: d in r.value[l] ==> d in list
  {
    forall l | l in applies && TableFits(list, l, applies[l])
      ensures forall d :: d in list[IndexOf(l, list)..IndexOf(l, list) + applies[l]] ==> d in list
    {}
  }

  /** A well-formed program yields a view the pager can rely on. */
  lemma BuildValid(p: Source, pads: set<Name>)
    requires p.Valid()
    ensures var v := Build(p.Toks(), pads); v.Ok? ==> v.value.Valid()
  {
    LayoutPass(p, true);
    var r := ScanFrom(START, p.Toks(), true);
    if r.Ok? {
      DependentsInside(r.value.labelList, r.value.applies);
      assert LabelsOk(p.Toks(), r.value);
      hide ScanFrom, DataInv, LabelOk, Placed, LabelNames, SegIds, Dependents;
    }
  }
}
