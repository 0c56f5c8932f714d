/** Tokenised control code and the layout pass (`assembler_state::process`). */
module Program {
  import opened Base
  import opened Isa

  /** Labels, scratchpads and page labels: abstract ids for the source's strings. */
  type Name = nat

  /** Job names of the user, and the two names the pass makes up itself. A user's job is named by the text of a
      number: its value and which spelling of it, so that 1 and 0x1 are two jobs. */
  datatype JobId = Job(n: u32, form: nat := 0) | EopJob(k: nat) | EofJob

  /** An operand after lexing; a number keeps its value and its spelling, registers and barriers (in either
      spelling) carry their parsed number. */
  datatype Arg = Num(n: u32, form: nat := 0) | Ref(name: Name) | Reg(r: nat) | Bar(b: nat)

  type positive = x: int | 0 < x witness 1

  datatype Token =
    | Label(name: Name)
    | Isa(op: Mnemonic, args: seq<Arg>)
    | Long(val: Arg)
    | UcDmaBd(bd: seq<Arg>)
    | Align(n: positive)
    | Eop

  function AlignGap(pos: nat, n: positive): (g: nat)
    ensures g < n && (pos + g) % n == 0
  {
    var gap := if pos % n > 0 then n - pos % n else 0;
    GapAligns(pos, n);
    gap
  }

  lemma GapAligns(pos: nat, n: positive)
    ensures var gap := if pos % n > 0 then n - pos % n else 0; (pos + gap) % n == 0
  {
    var q, r := pos / n, pos % n;
    if r > 0 {
      assert pos + (n - r) == n * (q + 1) + 0;
      DivModUnique(pos + (n - r), n, q + 1, 0);
    }
  }

  /** The `size` of each serializer; only `.align` looks at the position. For instructions this is
      the firmware's constant, which `Isa.StubsAgree` proves equal to the assembler's own sum. */
  function SizeAt(t: Token, pos: nat): nat {
    match t
    case Label(_) => 0
    case Isa(op, _) => OpSize(op)
    case Long(_) => 4
    case UcDmaBd(_) => 16
    case Align(n) => AlignGap(pos, n)
    case Eop => 0
  }

  /** Position after laying out `toks` from `pos`. */
  function EndPos(toks: seq<Token>, pos: nat): (e: nat)
    ensures e >= pos
  {
    if toks == [] then pos else EndPos(toks[1..], pos + SizeAt(toks[0], pos))
  }

  lemma {:induction false} EndPosAppend(a: seq<Token>, b: seq<Token>, pos: nat)
    ensures EndPos(a + b, pos) == EndPos(b, EndPos(a, pos))
    decreases |a|
  {
    if a == [] {
      assert a + b == b;
    } else {
      assert (a + b)[1..] == a[1..] + b;
      EndPosAppend(a[1..], b, pos + SizeAt(a[0], pos));
    }
  }

  // ---------- the layout pass ----------

  datatype JobRec = JobRec(start: nat, end: nat, first: nat, last: nat, eop: nat,
                           barriers: seq<nat>, launches: seq<JobId>)
  datatype LabelRec = LabelRec(pos: nat, index: nat, count: nat, size: nat)

  /** The fields `process` updates while it walks the tokens. */
  datatype Scan = Scan(pos: nat, index: nat, eopnum: nat, clabel: Option<Name>, cjob: Option<JobId>,
                       jobids: seq<JobId>, jobs: map<JobId, JobRec>,
                       labels: map<Name, LabelRec>, labelList: seq<Name>,
                       barriers: map<nat, seq<JobId>>, applies: map<Name, nat>)

  const START := Scan(0, 0, 0, None, None, [], map[], map[], [], map[], map[])

  function NewJob(s: Scan, j: JobId): Scan {
    s.(jobs := s.jobs[j := JobRec(s.pos, s.pos, s.index, s.index, s.eopnum, [], [])], jobids := s.jobids + [j])
  }

  function Join(barriers: map<nat, seq<JobId>>, b: nat, j: JobId): map<nat, seq<JobId>> {
    barriers[b := (if b in barriers then barriers[b] else []) + [j]]
  }

  /** What happens before an instruction's size is added. */
  function Enter(s: Scan, op: Mnemonic, args: seq<Arg>): Result<Scan> {
    if op.StartJob? || op.StartJobDeferred? then
      if |args| == 0 || !args[0].Num? then Err(BadOperand) else
      if Job(args[0].n, args[0].form) in s.jobs then Err(DuplicateJob) else
        Ok(NewJob(s.(clabel := None, cjob := Some(Job(args[0].n, args[0].form))), Job(args[0].n, args[0].form)))
    else if op.Eof? then Ok(NewJob(s, EofJob))
    else Ok(s)
  }

  /** What happens after it; outside a job the source follows a null pointer. */
  function Leave(s: Scan, op: Mnemonic, args: seq<Arg>, unique: bool): Result<Scan> {
    var inJob := s.cjob.Some? && s.cjob.value in s.jobs;
    match op
    case Eof =>
      if EofJob !in s.jobs then Err(Crash) else
      Ok(s.(jobs := s.jobs[EofJob := s.jobs[EofJob].(end := s.pos, last := s.index)], cjob := None))
    case EndJob =>
      if !inJob then Err(Crash) else
      var j := s.cjob.value;
      Ok(s.(jobs := s.jobs[j := s.jobs[j].(end := s.pos, last := s.index)], cjob := None))
    case LocalBarrier =>
      if |args| == 0 || !args[0].Bar? then Err(BadOperand) else
      if !inJob then Err(Crash) else
      var j, b := s.cjob.value, args[0].b;
      Ok(s.(jobs := s.jobs[j := s.jobs[j].(barriers := s.jobs[j].barriers + [b])], barriers := Join(s.barriers, b, j)))
    case LaunchJob =>
      if |args| == 0 || !args[0].Num? then Err(BadOperand) else
      if !inJob then Err(Crash) else
      var j := s.cjob.value;
      Ok(s.(jobs := s.jobs[j := s.jobs[j].(launches := s.jobs[j].launches + [Job(args[0].n, args[0].form)])]))
    case ApplyOffset57 =>
      if !unique then Ok(s) else
      if |args| < 2 || !args[0].Ref? || !args[1].Num? then Err(BadOperand) else
      Ok(s.(applies := s.applies[args[0].name := args[1].n]))
    case _ => Ok(s)
  }

  /** The current label, when there is one, owns the token. */
  function Own(s: Scan, size: nat): Scan {
    if s.clabel.Some? && s.clabel.value in s.labels then
      var r := s.labels[s.clabel.value];
      s.(labels := s.labels[s.clabel.value := r.(count := r.count + 1, size := r.size + size)])
    else s
  }

  function Next(s: Scan): Scan {
    s.(index := s.index + 1)
  }

  function StepIsa(s: Scan, op: Mnemonic, args: seq<Arg>, unique: bool): Result<Scan> {
    var s1 :- Enter(s, op, args);
    var s2 :- Leave(s1.(pos := s1.pos + OpSize(op)), op, args, unique);
    Ok(Next(if op.Eof? then s2 else Own(s2, OpSize(op))))
  }

  /** One iteration; `unique` is set before paging and clear when a page is encoded. */
  function Step(s: Scan, t: Token, unique: bool): Result<Scan> {
    match t
    case Label(l) =>
      if l in s.labels then Err(DuplicateLabel) else
      Ok(Next(s.(clabel := Some(l), labels := s.labels[l := LabelRec(s.pos, s.index, 0, 0)],
                 labelList := s.labelList + [l])))
    case Eop => Ok(Next(NewJob(s, EopJob(s.eopnum)).(eopnum := s.eopnum + 1)))
    case Align(_) => Ok(Next(s.(pos := s.pos + SizeAt(t, s.pos))))
    case Isa(op, args) => StepIsa(s, op, args, unique)
    case _ => Ok(Next(Own(s.(pos := s.pos + SizeAt(t, s.pos)), SizeAt(t, s.pos))))
  }

  function ScanFrom(s: Scan, toks: seq<Token>, unique: bool): Result<Scan>
    decreases |toks|
  {
    if toks == [] then Ok(s) else
      var s' :- Step(s, toks[0], unique);
      ScanFrom(s', toks[1..], unique)
  }

  lemma {:induction false} ScanAppend(s: Scan, a: seq<Token>, b: seq<Token>, unique: bool)
    ensures ScanFrom(s, a + b, unique) ==
      (var r := ScanFrom(s, a, unique); if r.Ok? then ScanFrom(r.value, b, unique) else r)
    decreases |a|
  {
    if a == [] {
      assert a + b == b;
    } else {
      assert (a + b)[1..] == a[1..] + b;
      var r := Step(s, a[0], unique);
      if r.Ok? {
        ScanAppend(r.value, a[1..], b, unique);
      }
    }
  }

  /** Position of a list element (`find_label_entry`). */
  function IndexOf(l: Name, list: seq<Name>): (i: nat)
    requires l in list
    ensures i < |list| && list[i] == l && l !in list[..i]
  {
    if list[0] == l then 0 else 1 + IndexOf(l, list[1..])
  }

  /** A table of `n` descriptors starting at label `l` fits the label list. */
  predicate TableFits(list: seq<Name>, l: Name, n: nat) {
    l in list && IndexOf(l, list) + n <= |list|
  }

  /** Labels that come along with a multi-entry `apply_offset_57`. */
  function Dependents(list: seq<Name>, applies: map<Name, nat>): Result<map<Name, seq<Name>>> {
    if forall l :: l in applies ==> applies[l] == 1 || TableFits(list, l, applies[l]) then
      Ok(map l | l in applies && applies[l] > 1 :: list[IndexOf(l, list)..IndexOf(l, list) + applies[l]])
    else Err(LabelNotFound)
  }

  lemma EnterApplies(s: Scan, op: Mnemonic, args: seq<Arg>)
    ensures var r := Enter(s, op, args); r.Ok? ==> r.value.applies == s.applies
  {}

  // ---------- positions recorded by the pass are offsets ----------

  /** The position reached after the first `k` tokens. */
  ghost function PosAt(toks: seq<Token>, k: nat): nat
    requires k <= |toks|
  {
    EndPos(toks[..k], 0)
  }

  lemma PosAtNext(toks: seq<Token>, k: nat)
    requires k < |toks|
    ensures PosAt(toks, k + 1) == PosAt(toks, k) + SizeAt(toks[k], PosAt(toks, k))
  {
    assert toks[..k + 1] == toks[..k] + [toks[k]];
    EndPosAppend(toks[..k], [toks[k]], 0);
    assert [toks[k]][1..] == [];
  }

  ghost predicate JobsPlaced(toks: seq<Token>, k: nat, jobs: map<JobId, JobRec>)
    requires k <= |toks|
  {
    forall j :: j in jobs ==>
      var r := jobs[j];
      && r.first <= r.last < k && r.start == PosAt(toks, r.first)
      && (r.end == PosAt(toks, r.last + 1) || (r.end == r.start && r.last == r.first))
  }

  ghost predicate LabelsPlaced(toks: seq<Token>, k: nat, labels: map<Name, LabelRec>)
    requires k <= |toks|
  {
    forall l :: l in labels ==>
      && labels[l].index < k && toks[labels[l].index] == Label(l)
      && labels[l].pos == PosAt(toks, labels[l].index)
  }

  ghost predicate Placed(toks: seq<Token>, k: nat, s: Scan)
    requires k <= |toks|
  {
    s.index == k && s.pos == PosAt(toks, k) && LabelsPlaced(toks, k, s.labels) && JobsPlaced(toks, k, s.jobs)
  }

  lemma EnterPlaces(toks: seq<Token>, k: nat, s: Scan, op: Mnemonic, args: seq<Arg>)
    requires k < |toks| && Placed(toks, k, s)
    ensures var r := Enter(s, op, args); r.Ok? ==>
      && JobsPlaced(toks, k + 1, r.value.jobs) && r.value.labels == s.labels
      && r.value.index == k && r.value.pos == s.pos
  {
    hide PosAt;
  }

  lemma LeavePlaces(toks: seq<Token>, k: nat, s: Scan, op: Mnemonic, args: seq<Arg>, unique: bool)
    requires k < |toks| && JobsPlaced(toks, k + 1, s.jobs) && s.index == k && s.pos == PosAt(toks, k + 1)
    ensures var r := Leave(s, op, args, unique); r.Ok? ==>
      && JobsPlaced(toks, k + 1, r.value.jobs) && r.value.labels == s.labels
      && r.value.index == k && r.value.pos == s.pos
  {
    hide PosAt;
  }

  lemma OwnPlaces(toks: seq<Token>, k: nat, s: Scan, size: nat)
    requires k < |toks| && LabelsPlaced(toks, k + 1, s.labels) && JobsPlaced(toks, k + 1, s.jobs)
    requires s.index == k && s.pos == PosAt(toks, k + 1)
    ensures Placed(toks, k + 1, Next(Own(s, size))) && Placed(toks, k + 1, Next(s))
  {}

  lemma IsaPlaces(toks: seq<Token>, k: nat, s: Scan, op: Mnemonic, args: seq<Arg>, unique: bool)
    requires k < |toks| && Placed(toks, k, s) && PosAt(toks, k + 1) == s.pos + OpSize(op)
    ensures var r := StepIsa(s, op, args, unique); r.Ok? ==> Placed(toks, k + 1, r.value)
  {
    hide PosAt, OpSize, Leave, Enter;
    EnterPlaces(toks, k, s, op, args);
    var r := Enter(s, op, args);
    if r.Ok? {
      var s1 := r.value.(pos := r.value.pos + OpSize(op));
      LeavePlaces(toks, k, s1, op, args, unique);
      var q := Leave(s1, op, args, unique);
      if q.Ok? {
        OwnPlaces(toks, k, q.value, OpSize(op));
      }
    }
  }

  lemma DataPlaces(toks: seq<Token>, k: nat, s: Scan, size: nat)
    requires k < |toks| && Placed(toks, k, s) && PosAt(toks, k + 1) == s.pos + size
    ensures Placed(toks, k + 1, Next(Own(s.(pos := s.pos + size), size)))
    ensures Placed(toks, k + 1, Next(s.(pos := s.pos + size)))
  {
    OwnPlaces(toks, k, s.(pos := s.pos + size), size);
  }

  lemma MarkPlaces(toks: seq<Token>, k: nat, s: Scan, unique: bool)
    requires k < |toks| && Placed(toks, k, s) && (toks[k].Eop? || toks[k].Label?)
    ensures Step(s, toks[k], unique).Ok? ==> Placed(toks, k + 1, Step(s, toks[k], unique).value)
  {
    PosAtNext(toks, k);
    hide PosAt;
  }

  lemma StepPlaces(toks: seq<Token>, k: nat, s: Scan, unique: bool)
    requires k < |toks| && Placed(toks, k, s)
    ensures Step(s, toks[k], unique).Ok? ==> Placed(toks, k + 1, Step(s, toks[k], unique).value)
  {
    PosAtNext(toks, k);
    var t := toks[k];
    if t.Isa? {
      IsaPlaces(toks, k, s, t.op, t.args, unique);
    } else if t.Label? || t.Eop? {
      MarkPlaces(toks, k, s, unique);
    } else {
      DataPlaces(toks, k, s, SizeAt(t, s.pos));
    }
  }

  /** For every token list: each label's and job's recorded position is the offset at which a
      second walk with the same sizes meets it, and a closed job ends where its last token ends. */
  lemma {:induction false} ScanPlaces(toks: seq<Token>, k: nat, s: Scan, unique: bool)
    requires k <= |toks| && Placed(toks, k, s)
    ensures var r := ScanFrom(s, toks[k..], unique); r.Ok? ==> Placed(toks, |toks|, r.value)
    decreases |toks| - k
  {
    if k < |toks| {
      StepPlaces(toks, k, s, unique);
      assert toks[k..][1..] == toks[k + 1..];
      var r := Step(s, toks[k], unique);
      if r.Ok? {
        ScanPlaces(toks, k + 1, r.value, unique);
      }
    }
  }
}
