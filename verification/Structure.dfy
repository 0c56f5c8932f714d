/** Well-formed programs, and what the layout pass records about them. */
module Structure {
  import opened Base
  import opened Isa
  import opened Program

  // ---------- shape of a program ----------

  /** An instruction that may stand inside a job. */
  predicate BodyOp(t: Token) {
    && t.Isa? && t.op !in {StartJob, StartJobDeferred, EndJob, Eof}
    && (t.op.LocalBarrier? ==> |t.args| > 0 && t.args[0].Bar?)
    && (t.op.LaunchJob? ==> |t.args| > 0 && t.args[0].Num?)
    && (t.op.ApplyOffset57? ==> |t.args| > 1 && t.args[0].Ref? && t.args[1].Num?)
  }

  /** A line of a label's data. */
  predicate DataOp(t: Token) {
    t.Long? || t.UcDmaBd? || (BodyOp(t) && t.op !in {LocalBarrier, LaunchJob, ApplyOffset57})
  }

  predicate IsAlign(t: Token) { t.Align? }

  datatype Segment = JobSeg(n: u32, deferred: bool, body: seq<Token>, form: nat := 0) | EopSeg {
    predicate Valid() {
      JobSeg? ==> forall t :: t in body ==> BodyOp(t)
    }

    function Toks(): seq<Token> {
      match this
      case JobSeg(n, deferred, body, form) =>
        [Token.Isa(if deferred then StartJobDeferred else StartJob, [Num(n, form)])] + body + [Token.Isa(EndJob, [])]
      case EopSeg => [Eop]
    }
  }

  /** A label, its data, and the `.align` directives allowed at its tail. */
  datatype Block = Block(name: Name, ops: seq<Token>, aligns: seq<Token>) {
    predicate Valid() {
      (forall t :: t in ops ==> DataOp(t)) && (forall t :: t in aligns ==> IsAlign(t))
    }

    function Toks(): seq<Token> {
      [Label(name)] + ops + aligns
    }
  }

  /** Text (jobs and `.eop`), one `eof`, optional alignment, then the data. */
  datatype Source = Source(segs: seq<Segment>, lead: seq<Token>, blocks: seq<Block>) {
    predicate Valid() {
      && (forall g :: g in segs ==> g.Valid())
      && (forall t :: t in lead ==> IsAlign(t))
      && (forall b :: b in blocks ==> b.Valid())
    }

    function Toks(): seq<Token> {
      SegsToks(segs) + [EOF] + lead + BlocksToks(blocks)
    }
  }

  const EOF := Token.Isa(Eof, [])

  function SegsToks(segs: seq<Segment>): seq<Token> {
    if segs == [] then [] else segs[0].Toks() + SegsToks(segs[1..])
  }

  function BlocksToks(blocks: seq<Block>): seq<Token> {
    if blocks == [] then [] else blocks[0].Toks() + BlocksToks(blocks[1..])
  }

  function LabelNames(blocks: seq<Block>): seq<Name> {
    if blocks == [] then [] else [blocks[0].name] + LabelNames(blocks[1..])
  }

  // ---------- what a token list contributes ----------

  function SizeOf(t: Token): nat {
    if t.Align? then 0 else SizeAt(t, 0)
  }

  function BarrierOf(t: Token): seq<nat> {
    if t.Isa? && t.op.LocalBarrier? && t.args != [] && t.args[0].Bar? then [t.args[0].b] else []
  }

  function LaunchOf(t: Token): seq<JobId> {
    if t.Isa? && t.op.LaunchJob? && t.args != [] && t.args[0].Num? then [Job(t.args[0].n, t.args[0].form)] else []
  }

  /** Byte size of tokens that do not depend on the position. */
  function Sizes(toks: seq<Token>): nat {
    if toks == [] then 0 else SizeOf(toks[0]) + Sizes(toks[1..])
  }

  function BarriersOf(toks: seq<Token>): seq<nat> {
    if toks == [] then [] else BarrierOf(toks[0]) + BarriersOf(toks[1..])
  }

  function LaunchesOf(toks: seq<Token>): seq<JobId> {
    if toks == [] then [] else LaunchOf(toks[0]) + LaunchesOf(toks[1..])
  }

  lemma {:induction false} ContributionAppend(a: seq<Token>, b: seq<Token>)
    ensures Sizes(a + b) == Sizes(a) + Sizes(b)
    ensures BarriersOf(a + b) == BarriersOf(a) + BarriersOf(b)
    ensures LaunchesOf(a + b) == LaunchesOf(a) + LaunchesOf(b)
  {
    hide SizeOf, BarrierOf, LaunchOf, Sizes, BarriersOf, LaunchesOf;
    if a == [] {
      assert a + b == b;
      ContributionNone();
      assert [] + BarriersOf(b) == BarriersOf(b) && [] + LaunchesOf(b) == LaunchesOf(b);
    } else {
      var t, rest := a[0], a[1..];
      assert a == [t] + rest && a + b == [t] + (rest + b);
      ContributionStep(t, rest);
      ContributionStep(t, rest + b);
      ContributionAppend(rest, b);
    }
  }

  lemma ContributionNone()
    ensures Sizes([]) == 0 && BarriersOf([]) == [] && LaunchesOf([]) == []
  {}

  lemma ContributionStep(t: Token, rest: seq<Token>)
    ensures Sizes([t] + rest) == SizeOf(t) + Sizes(rest)
    ensures BarriersOf([t] + rest) == BarrierOf(t) + BarriersOf(rest)
    ensures LaunchesOf([t] + rest) == LaunchOf(t) + LaunchesOf(rest)
  {
    hide SizeOf, BarrierOf, LaunchOf;
    assert ([t] + rest)[1..] == rest;
  }

  lemma ContributionOne(t: Token)
    ensures Sizes([t]) == SizeOf(t) && BarriersOf([t]) == BarrierOf(t) && LaunchesOf([t]) == LaunchOf(t)
  {
    assert [t][1..] == [];
  }

  /** Without `.align`, layout is position independent. */
  lemma {:induction false} EndPosSizes(toks: seq<Token>, pos: nat)
    requires forall t :: t in toks ==> !t.Align?
    ensures EndPos(toks, pos) == pos + Sizes(toks)
    decreases |toks|
  {
    if toks != [] {
      EndPosSizes(toks[1..], pos + SizeAt(toks[0], pos));
    }
  }

  // ---------- one job ----------

  /** The tokens of job `j`: its `start_job`, instructions only, its `end_job`. */
  ghost predicate JobShape(j: JobId, t: seq<Token>) {
    && j.Job? && |t| >= 2
    && t[0].Isa? && t[0].op in {StartJob, StartJobDeferred} && t[0].args == [Num(j.n, j.form)]
    && t[|t| - 1] == Token.Isa(EndJob, [])
    && forall i :: 1 <= i < |t| - 1 ==> BodyOp(t[i])
  }

  function JoinAll(m: map<nat, seq<JobId>>, bs: seq<nat>, j: JobId): map<nat, seq<JobId>>
    decreases |bs|
  {
    if bs == [] then m else JoinAll(Join(m, bs[0], j), bs[1..], j)
  }

  function Credit(s: Scan, j: JobId, bs: seq<nat>, ls: seq<JobId>): map<JobId, JobRec>
    requires j in s.jobs
  {
    s.jobs[j := s.jobs[j].(barriers := s.jobs[j].barriers + bs, launches := s.jobs[j].launches + ls)]
  }

  /** Up to the apply table, what a run of instructions inside job `j` does to the pass. */
  ghost predicate BodyEffect(s: Scan, j: JobId, body: seq<Token>, r: Result<Scan>)
    requires j in s.jobs
  {
    && r.Ok?
    && r.value == s.(pos := s.pos + Sizes(body), index := s.index + |body|,
                     jobs := Credit(s, j, BarriersOf(body), LaunchesOf(body)),
                     barriers := JoinAll(s.barriers, BarriersOf(body), j), applies := r.value.applies)
  }

  lemma OneBodyStep(s: Scan, j: JobId, t: Token, unique: bool)
    requires s.clabel == None && s.cjob == Some(j) && j in s.jobs && BodyOp(t)
    ensures BodyEffect(s, j, [t], Step(s, t, unique))
  {
    ContributionOne(t);
    hide OpSize, Sizes, BarriersOf, LaunchesOf;
    if t.op.LocalBarrier? {
      BarrierStep(s, j, t, unique);
    } else if t.op.LaunchJob? {
      LaunchStep(s, j, t, unique);
    } else {
      PlainStep(s, j, t, unique);
    }
  }

  lemma BarrierStep(s: Scan, j: JobId, t: Token, unique: bool)
    requires s.clabel == None && s.cjob == Some(j) && j in s.jobs && BodyOp(t) && t.op.LocalBarrier?
    ensures Step(s, t, unique) ==
      Ok(s.(pos := s.pos + SizeOf(t), index := s.index + 1, jobs := Credit(s, j, BarrierOf(t), LaunchOf(t)),
            barriers := JoinAll(s.barriers, BarrierOf(t), j)))
  {
    hide OpSize;
    assert s.jobs[j].launches + [] == s.jobs[j].launches;
    assert BarrierOf(t)[1..] == [];
  }

  lemma LaunchStep(s: Scan, j: JobId, t: Token, unique: bool)
    requires s.clabel == None && s.cjob == Some(j) && j in s.jobs && BodyOp(t) && t.op.LaunchJob?
    ensures Step(s, t, unique) ==
      Ok(s.(pos := s.pos + SizeOf(t), index := s.index + 1, jobs := Credit(s, j, BarrierOf(t), LaunchOf(t)),
            barriers := JoinAll(s.barriers, BarrierOf(t), j)))
  {
    hide OpSize;
    assert s.jobs[j].barriers + [] == s.jobs[j].barriers;
  }

  lemma PlainStep(s: Scan, j: JobId, t: Token, unique: bool)
    requires s.clabel == None && s.cjob == Some(j) && j in s.jobs && BodyOp(t) && !t.op.LocalBarrier?
      && !t.op.LaunchJob?
    ensures var r := Step(s, t, unique);
      && r.Ok?
      && r.value == s.(pos := s.pos + SizeOf(t), index := s.index + 1, jobs := Credit(s, j, BarrierOf(t), LaunchOf(t)),
                       barriers := JoinAll(s.barriers, BarrierOf(t), j), applies := r.value.applies)
  {
    hide OpSize;
    assert s.jobs[j].launches + [] == s.jobs[j].launches && s.jobs[j].barriers + [] == s.jobs[j].barriers;
    assert s.jobs == Credit(s, j, [], []);
  }

  lemma JoinAllAppend(m: map<nat, seq<JobId>>, a: seq<nat>, b: seq<nat>, j: JobId)
    ensures JoinAll(m, a + b, j) == JoinAll(JoinAll(m, a, j), b, j)
    decreases |a|
  {
    if a == [] {
      assert a + b == b;
    } else {
      assert (a + b)[1..] == a[1..] + b;
      JoinAllAppend(Join(m, a[0], j), a[1..], b, j);
    }
  }

  lemma {:induction false} BodyScan(s: Scan, j: JobId, body: seq<Token>, unique: bool)
    requires s.clabel == None && s.cjob == Some(j) && j in s.jobs && forall t :: t in body ==> BodyOp(t)
    ensures BodyEffect(s, j, body, ScanFrom(s, body, unique))
    decreases |body|
  {
    hide Step, SizeOf, BarrierOf, LaunchOf, Join;
    if body == [] {
      assert s.jobs[j].launches + [] == s.jobs[j].launches && s.jobs[j].barriers + [] == s.jobs[j].barriers;
      assert s.jobs == Credit(s, j, [], []);
    } else {
      var t, rest := body[0], body[1..];
      assert body == [t] + rest;
      OneBodyStep(s, j, t, unique);
      var s' := Step(s, t, unique).value;
      BodyScan(s', j, rest, unique);
      ContributionAppend([t], rest);
      JoinAllAppend(s.barriers, BarriersOf([t]), BarriersOf(rest), j);
      var bs, ls := BarriersOf([t]), LaunchesOf([t]);
      assert s.jobs[j].barriers + bs + BarriersOf(rest) == s.jobs[j].barriers + BarriersOf(body);
      assert s.jobs[j].launches + ls + LaunchesOf(rest) == s.jobs[j].launches + LaunchesOf(body);
      assert Credit(s', j, BarriersOf(rest), LaunchesOf(rest)) == Credit(s, j, BarriersOf(body), LaunchesOf(body));
    }
  }

  /** A finished job's record, for job tokens `t` met at `s`. */
  function JobEntry(s: Scan, t: seq<Token>): JobRec
    requires t != []
  {
    JobRec(s.pos, s.pos + Sizes(t), s.index, s.index + |t| - 1, s.eopnum, BarriersOf(t), LaunchesOf(t))
  }

  lemma JobContribution(j: JobId, t: seq<Token>)
    requires JobShape(j, t)
    ensures Sizes(t) == SizeOf(t[0]) + Sizes(t[1..|t| - 1]) + 4
    ensures BarriersOf(t) == BarriersOf(t[1..|t| - 1]) && LaunchesOf(t) == LaunchesOf(t[1..|t| - 1])
  {
    hide Sizes, BarriersOf, LaunchesOf, SizeOf, BarrierOf, LaunchOf, BodyOp;
    var body := t[1..|t| - 1];
    assert t == [t[0]] + (body + [EndJobTok]);
    ContributionAppend([t[0]], body + [EndJobTok]);
    ContributionAppend(body, [EndJobTok]);
    ContributionOne(t[0]);
    ContributionOne(EndJobTok);
    BracketsContribute(t[0]);
    assert BarriersOf(body) + [] == BarriersOf(body) && LaunchesOf(body) + [] == LaunchesOf(body);
  }

  lemma BracketsContribute(t: Token)
    requires t.Isa? && t.op in {StartJob, StartJobDeferred}
    ensures BarrierOf(t) == [] && LaunchOf(t) == []
    ensures SizeOf(EndJobTok) == 4 && BarrierOf(EndJobTok) == [] && LaunchOf(EndJobTok) == []
  {}

  lemma StartStep(s: Scan, j: JobId, t: Token, unique: bool)
    requires s.clabel == None && j.Job? && t.Isa? && t.op in {StartJob, StartJobDeferred}
      && t.args == [Num(j.n, j.form)]
    ensures Step(s, t, unique) ==
      if j in s.jobs then Err(DuplicateJob) else
        Ok(NewJob(s.(cjob := Some(j)), j).(pos := s.pos + SizeOf(t), index := s.index + 1))
  {}

  lemma EndStep(s: Scan, j: JobId, unique: bool)
    requires s.clabel == None && s.cjob == Some(j) && j in s.jobs
    ensures Step(s, EndJobTok, unique) ==
      Ok(s.(pos := s.pos + 4, index := s.index + 1, cjob := None,
            jobs := s.jobs[j := s.jobs[j].(end := s.pos + 4, last := s.index)]))
  {}

  lemma ScanOne(s: Scan, t: Token, unique: bool)
    ensures ScanFrom(s, [t], unique) == Step(s, t, unique)
  {
    assert [t][1..] == [];
  }

  /** Scanning a whole job adds exactly its record, its name and its barrier memberships. */
  lemma JobScan(s: Scan, j: JobId, t: seq<Token>, unique: bool)
    requires s.clabel == None && JobShape(j, t)
    ensures var r := ScanFrom(s, t, unique);
      if j in s.jobs then r == Err(DuplicateJob) else
      && r.Ok?
      && r.value == s.(pos := s.pos + Sizes(t), index := s.index + |t|, cjob := None,
                       jobids := s.jobids + [j], jobs := s.jobs[j := JobEntry(s, t)],
                       barriers := JoinAll(s.barriers, BarriersOf(t), j), applies := r.value.applies)
  {
    hide Step, ScanFrom, Sizes, SizeOf, BarriersOf, LaunchesOf, JoinAll, BodyOp;
    var body := t[1..|t| - 1];
    assert t == [t[0]] + (body + [EndJobTok]);
    ScanAppend(s, [t[0]], body + [EndJobTok], unique);
    ScanOne(s, t[0], unique);
    StartStep(s, j, t[0], unique);
    if j !in s.jobs {
      JobContribution(j, t);
      var s1 := Step(s, t[0], unique).value;
      BodyScan(s1, j, body, unique);
      ScanAppend(s1, body, [EndJobTok], unique);
      var s2 := ScanFrom(s1, body, unique).value;
      ScanOne(s2, EndJobTok, unique);
      EndStep(s2, j, unique);
      assert [] + BarriersOf(body) == BarriersOf(body) && [] + LaunchesOf(body) == LaunchesOf(body);
      assert ScanFrom(s, t, unique).value.jobs == s.jobs[j := JobEntry(s, t)];
    }
  }

  const EndJobTok := Token.Isa(EndJob, [])
}
