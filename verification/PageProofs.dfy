/** Facts that cross the pager and the page writer. */
module PageProofs {
  import opened Base
  import opened Isa
  import opened Program
  import opened Structure
  import opened View
  import opened Labels
  import opened Pages
  import opened PageLaws
  import opened Serialize
  import opened Patch
  import opened Closure
  import opened PageImage

  // ---------- sizes ----------

  ghost predicate NoAligns(toks: seq<Token>) {
    forall t :: t in toks ==> !t.Align? && !(t.Isa? && t.op.Eof?)
  }

  lemma JobPlain(v: View, j: JobId)
    requires v.Valid() && j in v.s.jobs && j.Job?
    ensures NoAligns(v.JobToks(j)) && forall t :: t in v.JobToks(j) ==> t.Isa?
  {
    hide View.Valid, View.JobToks, Sizes, LaunchesOf;
    JobSlice(v, j);
    var t := v.JobToks(j);
    forall x | x in t ensures x.Isa? && !x.op.Eof? {
      var i :| 0 <= i < |t| && t[i] == x;
      assert 1 <= i < |t| - 1 ==> BodyOp(t[i]);
    }
  }

  lemma {:induction false} JobsPlain(v: View, jobs: seq<JobId>)
    requires v.Valid() && Ordinary(v, jobs)
    ensures NoAligns(JobsToks(v, jobs)) && Sizes(JobsToks(v, jobs)) == JobsSize(v, jobs)
    ensures forall t :: t in JobsToks(v, jobs) ==> t.Isa?
  {
    hide View.Valid, View.JobToks, View.JobSize, JobShape, LaunchesOf, SizeOf;
    if jobs != [] {
      JobPlain(v, jobs[0]);
      JobSlice(v, jobs[0]);
      JobsPlain(v, jobs[1..]);
      ContributionAppend(v.JobToks(jobs[0]), JobsToks(v, jobs[1..]));
    }
  }

  lemma LabelPlain(v: View, l: Name)
    requires v.Valid() && l in v.s.labels
    ensures NoAligns(v.LabelToks(l))
  {
    hide View.Valid, View.LabelToks, View.AlignOf, Sizes;
    LabelSlice(v, l);
    var t := v.LabelToks(l);
    forall x | x in t ensures !x.Align? && !(x.Isa? && x.op.Eof?) {
      if x != t[0] {
        assert x in t[1..];
        assert DataOp(x);
      }
    }
  }

  lemma {:induction false} LabelsPlain(v: View, labels: seq<Name>)
    requires v.Valid() && forall l :: l in labels ==> l in v.s.labels
    ensures NoAligns(LabelsToks(v, labels)) && Sizes(LabelsToks(v, labels)) == LabelsSize(v, labels)
  {
    hide View.Valid, View.LabelToks, View.LabelSize, View.AlignOf, DataOp, SizeOf;
    if labels != [] {
      LabelPlain(v, labels[0]);
      LabelSlice(v, labels[0]);
      LabelsPlain(v, labels[1..]);
      ContributionAppend(v.LabelToks(labels[0]), LabelsToks(v, labels[1..]));
    }
  }

  lemma TailEnd(lead: seq<Token>, pos: nat)
    requires lead == [] || lead == [Align(16)]
    ensures EndPos([EOF] + lead, pos) == pos + 4 + (if lead == [] then 0 else AlignGap(pos + 4, 16))
  {
    EndPosAppend([EOF], lead, pos);
    assert [EOF][1..] == [] && [Align(16)][1..] == [];
    assert EndPos([EOF], pos) == pos + 4;
  }

  /** The layout pass gives a page's text and data the sizes the pager predicted. */
  lemma PageEnds(v: View, size: nat, col: nat, p: Page, num: nat)
    requires v.Valid() && PageOk(v, size, col, p, num)
    ensures EndPos(p.text, 0) == JobsSize(v, p.jobs) + EOF_SIZE + Gap(v, p)
    ensures EndPos(p.text + p.data, 0) == JobsSize(v, p.jobs) + EOF_SIZE + Gap(v, p) + LabelsSize(v, p.labels)
    ensures NoAligns(p.data) && (forall t :: t in p.text ==> t.Isa? || t.Align?)
  {
    hide View.Valid, JobsToks, LabelsToks, JobsSize, LabelsSize, Sizes, RoundUp4, Footprint, LabelsSorted,
      View.AlignOf, AlignGap, SizeOf, SizeAt, EndPos;
    var jt, lead := JobsToks(v, p.jobs), LeadOf(v, p);
    JobsPlain(v, p.jobs);
    LabelsPlain(v, p.labels);
    assert p.text == jt + ([EOF] + lead);
    EndPosAppend(jt, [EOF] + lead, 0);
    EndPosSizes(jt, 0);
    TailEnd(lead, JobsSize(v, p.jobs));
    EndPosAppend(p.text, p.data, 0);
    EndPosSizes(p.data, EndPos(p.text, 0));
  }

  lemma {:induction false} NothingDropped(toks: seq<Token>)
    requires NoAligns(toks)
    ensures DropEof(toks) == toks
  {
    if toks != [] {
      NothingDropped(toks[1..]);
    }
  }

  /** The two sections, put together, are the page's tokens serialized one after another. */
  lemma DraftIsEmit(v: View, size: nat, col: nat, cfg: Config, p: Page, num: nat)
    requires v.Valid() && PageOk(v, size, col, p, num) && DraftPage(cfg, p).Ok?
    ensures var toks, d := p.text + p.data, DraftPage(cfg, p).value;
      var s := ScanFrom(START, toks, false);
      && s.Ok?
      && var e := EmitAll(EnvOf(cfg, s.value), toks, 0);
        && e.Ok? && e.value.bytes == d.text + d.data && |d.text| == EndPos(p.text, 0)
        && |d.text + d.data| == EndPos(toks, 0)
  {
    hide View.Valid, PageOk, ScanFrom, EmitAll, FixesOf, EndPos, JobsSize, LabelsSize, Gap;
    PageEnds(v, size, col, p, num);
    NothingDropped(p.data);
    var env := EnvOf(cfg, ScanFrom(START, p.text + p.data, false).value);
    EmitAllAppend(env, p.text, p.data, 0);
    EmitAllSize(env, p.text, 0);
    EmitAllSize(env, p.text + p.data, 0);
  }

  /** Size prediction is exact and bounded: what the writer emits for a page is header, text, `eof`,
      gap and data as the pager added them up, it agrees with the length field, and it never exceeds
      the page, so padding never fails. */
  lemma PredictionExact(v: View, col: nat, cfg: Config, p: Page, num: nat)
    requires v.Valid() && PageOk(v, PAGE_SIZE, col, p, num)
    ensures var d := DraftPage(cfg, p); d.Ok? ==>
      var used := HEADER + |d.value.text| + |d.value.data|;
      && used == HEADER + JobsSize(v, p.jobs) + EOF_SIZE + Gap(v, p) + LabelsSize(v, p.labels)
      && used <= p.curLen < used + 4 && p.curLen <= PAGE_SIZE
    ensures var d := DraftPage(cfg, p);
      d.Ok? && PatchAll(cfg.family, d.value.data, d.value.fixes).Ok? ==>
        var w := WritePage(cfg, p); w.Ok? && |w.value.text| + |w.value.data| == PAGE_SIZE
  {
    hide View.Valid, JobsToks, LabelsToks, JobsSize, LabelsSize, LabelsSorted, View.AlignOf, EndPos, ScanFrom,
      EmitAll, PatchAll, AlignGap, FixesOf, DraftPage;
    var d := DraftPage(cfg, p);
    if d.Ok? {
      DraftIsEmit(v, PAGE_SIZE, col, cfg, p, num);
      PageEnds(v, PAGE_SIZE, col, p, num);
    }
  }

  // ---------- two-pass agreement ----------

  /** On an encoded page, a label's recorded position is the number of bytes written before it, and
      the label's line is where the record says. */
  lemma LabelOffset(v: View, size: nat, col: nat, cfg: Config, p: Page, num: nat, l: Name)
    requires v.Valid() && PageOk(v, size, col, p, num) && DraftPage(cfg, p).Ok? && l in p.labels
    ensures var toks, d := p.text + p.data, DraftPage(cfg, p).value;
      var s := ScanFrom(START, toks, false);
      && s.Ok? && l in s.value.labels
      && var r := s.value.labels[l];
        && r.index < |toks| && toks[r.index] == Label(l)
        && EmitAll(EnvOf(cfg, s.value), toks[..r.index], 0).Ok?
        && r.pos == |EmitAll(EnvOf(cfg, s.value), toks[..r.index], 0).value.bytes|
        && EmitAll(EnvOf(cfg, s.value), toks[..r.index], 0).value.bytes <= d.text + d.data
  {
    hide View.Valid, PageOk, ScanFrom, EmitAll, FixesOf, EndPos, JobsOk, EofOk, LabelOk, JobsPlaced, DraftPage;
    DraftIsEmit(v, size, col, cfg, p, num);
    PageLayout(v, size, col, p, num);
    var toks, s := p.text + p.data, ScanFrom(START, p.text + p.data, false).value;
    assert l in s.labelList;
    var r := s.labels[l];
    var env := EnvOf(cfg, s);
    assert toks == toks[..r.index] + toks[r.index..];
    EmitAllAppend(env, toks[..r.index], toks[r.index..], 0);
    EmitAllSize(env, toks[..r.index], 0);
  }

  lemma StartSpecs(op: Mnemonic)
    requires op in {StartJob, StartJobDeferred}
    ensures Args(op) == [Spec(NJobId, Const, 16)] + ([Spec(NSize, JobSize, 16)] + ([Spec(Pad_, Kind.Pad, 16)] + []))
  {}

  /** The operands of a `start_job`: its id and the size of its job. */
  lemma StartOperands(env: Env, op: Mnemonic, args: seq<Arg>, j: JobId)
    requires j.Job? && op in {StartJob, StartJobDeferred} && args == [Num(j.n, j.form)]
    requires Values(env, Args(op), args, 0).Ok?
    ensures j in env.jobs && env.jobs[j].start <= env.jobs[j].end && Operands(Args(op)) == 2
    ensures Values(env, Args(op), args, 0).value == [j.n, env.jobs[j].end - env.jobs[j].start]
  {
    hide Args, Values, Operands;
    var a, b, c := Spec(NJobId, Const, 16), Spec(NSize, JobSize, 16), Spec(Pad_, Kind.Pad, 16);
    StartSpecs(op);
    ValuesCons(env, a, [b] + ([c] + []), args, 0);
    ValuesCons(env, b, [c] + [], args, 1);
    ValuesCons(env, c, [], args, 1);
    NoValues(env, args, 1);
    var n := env.jobs[j].end - env.jobs[j].start;
    assert [j.n] + ([n] + []) == [j.n, n];
  }

  lemma NoValues(env: Env, args: seq<Arg>, k: nat)
    ensures Values(env, [], args, k) == Ok([]) && Operands([]) == 0
  {}

  lemma PlainValues(env: Env, t: Token)
    requires t.Isa? && t.op != ApplyOffset57 && EmitTok(env, t, 0).Ok?
    ensures var vals := Values(env, Args(t.op), t.args, 0);
      vals.Ok? && EmitTok(env, t, 0).value.bytes == Encode(Instr(t.op, vals.value))
  {
    hide Args, Values, Encode, Table;
  }

  lemma StartValues(env: Env, t: Token, j: JobId)
    requires j.Job? && t.Isa? && t.op in {StartJob, StartJobDeferred} && t.args == [Num(j.n, j.form)]
      && EmitTok(env, t, 0).Ok?
    ensures j in env.jobs && env.jobs[j].start <= env.jobs[j].end && Operands(Args(t.op)) == 2
    ensures EmitTok(env, t, 0).value.bytes == Encode(Instr(t.op, [j.n, env.jobs[j].end - env.jobs[j].start]))
  {
    hide Args, Values, Encode, EmitTok, Operands;
    PlainValues(env, t);
    StartOperands(env, t.op, t.args, j);
  }

  lemma ValuesCons(env: Env, s: Spec, rest: seq<Spec>, args: seq<Arg>, k: nat)
    ensures Values(env, [s] + rest, args, k) ==
      (var v, r := OperandValue(env, s, args, k), Values(env, rest, args, if TakesArg(s.kind) then k + 1 else k);
       if v.Err? then Err(v.error) else if r.Err? then r else Ok(if s.kind.Pad? then r.value else [v.value] + r.value))
    ensures Operands([s] + rest) == (if s.kind.Pad? then 0 else 1) + Operands(rest)
  {
    hide OperandValue;
    assert ([s] + rest)[1..] == rest;
  }

  /** The size field of an encoded `start_job`. */
  lemma StartSizeField(out: seq<u8>, at: nat, op: Mnemonic, id: nat, n: nat)
    requires op in {StartJob, StartJobDeferred} && Operands(Args(op)) == 2
    requires at + |Encode(Instr(op, [id, n]))| <= |out|
    requires out[at..at + |Encode(Instr(op, [id, n]))|] == Encode(Instr(op, [id, n]))
    requires n < 0x1_0000
    ensures at + 6 <= |out| && Read(out, at + 4, 16) == n
  {
    var i := Instr(op, [id, n]);
    var e := Encode(i);
    StubsAgree(op);
    assert out == out[..at] + e + out[at + |e|..];
    DispatcherReadsOperands(out[..at], i, out[at + |e|..]);
    assert Dispatch(op) == [Slot(NJobId, 2, 16), Slot(NSize, 4, 16)];
    var slots := Dispatch(op);
    assert ReadSlots(out, at, slots)[1] == ReadSlots(out, at, slots[1..])[0] == Read(out, at + 4, 16);
    SizeTruncated(op, id, n);
  }

  lemma SizeTruncated(op: Mnemonic, id: nat, n: nat)
    requires op in {StartJob, StartJobDeferred} && n < 0x1_0000 && Operands(Args(op)) == 2
    ensures var t := Truncated(Args(op), [id, n]); |t| == 2 && t[1] == n
  {
    var specs := Args(op);
    var a, b, c := specs[0], specs[1], specs[2];
    assert specs == [a, b, c] && specs[1..] == [b, c] && specs[1..][1..] == [c] && specs[1..][1..][1..] == [];
    assert [id, n][1..] == [n] && [n][1..] == [];
    assert Pow256(2) == 0x1_0000 by { assert Pow256(1) == 0x100; }
    hide Args;
    assert Truncated([c], []) == [] && Truncated([b, c], [n]) == [n % Pow256(2)] + Truncated([c], []);
  }

  /** The JOBSIZE operand `start_job` carries is the exact byte distance to just past its `end_job`. */
  lemma JobSizeExact(v: View, col: nat, cfg: Config, p: Page, num: nat, j: JobId)
    requires v.Valid() && PageOk(v, PAGE_SIZE, col, p, num) && DraftPage(cfg, p).Ok? && j in p.jobs
    ensures var toks, d := p.text + p.data, DraftPage(cfg, p).value;
      var s := ScanFrom(START, toks, false);
      && s.Ok? && j in s.value.jobs
      && var r := s.value.jobs[j];
        && r.first < r.last < |toks| && JobShape(j, toks[r.first..r.last + 1])
        && r.start == PosAt(toks, r.first)
        && r.start + 6 <= |d.text + d.data|
        && Read(d.text + d.data, r.start + 4, 16) == PosAt(toks, r.last + 1) - PosAt(toks, r.first)
  {
    hide View.Valid, PageOk, ScanFrom, EmitAll, FixesOf, PosAt, JobsPlaced, DraftPage, EmitTok, Encode, Args, Read,
      JobOk, LabelsOk, JobsOk, JobsSize, LabelsSize, Gap, EofOk;
    DraftIsEmit(v, PAGE_SIZE, col, cfg, p, num);
    PageLayout(v, PAGE_SIZE, col, p, num);
    var toks, s := p.text + p.data, ScanFrom(START, p.text + p.data, false).value;
    var env, out := EnvOf(cfg, s), DraftPage(cfg, p).value.text + DraftPage(cfg, p).value.data;
    assert j in s.jobids;
    OrdinaryOn(v, PAGE_SIZE, col, p, num, j);
    JobOnPage(toks, s, j);
    var r := s.jobs[j];
    TokenOffset(env, toks, r.first);
    var t := toks[r.first];
    EmitIsaAnywhere(env, t, r.start);
    StartValues(env, t, j);
    WholePage(v, col, cfg, p, num);
    EndWithin(toks, r.last + 1);
    StartSizeField(out, r.start, t.op, j.n, r.end - r.start);
  }

  lemma OrdinaryOn(v: View, size: nat, col: nat, p: Page, num: nat, j: JobId)
    requires PageOk(v, size, col, p, num) && j in p.jobs
    ensures j.Job?
  {}

  lemma JobOnPage(toks: seq<Token>, s: Scan, j: JobId)
    requires DataInv(toks, s) && Placed(toks, |toks|, s) && j in s.jobids && j.Job?
    ensures j in s.jobs
    ensures var r := s.jobs[j];
      && r.first < r.last < |toks| && JobShape(j, toks[r.first..r.last + 1])
      && r.start == PosAt(toks, r.first) && r.end == PosAt(toks, r.last + 1)
      && toks[r.first].Isa? && toks[r.first].op in {StartJob, StartJobDeferred}
        && toks[r.first].args == [Num(j.n, j.form)]
  {
    hide LabelsOk, EofOk, EopsOk, BarriersMatch, Sizes, BarriersOf, LaunchesOf, LabelsPlaced, PosAt, BodyOp;
    var r := s.jobs[j];
    assert JobOk(toks, r, j);
    var t := toks[r.first..r.last + 1];
    assert t[0] == toks[r.first];
  }

  lemma EmitIsaAnywhere(env: Env, t: Token, pos: nat)
    requires t.Isa?
    ensures EmitTok(env, t, pos) == EmitTok(env, t, 0)
  {
    hide EmitIsa;
  }

  lemma WholePage(v: View, col: nat, cfg: Config, p: Page, num: nat)
    requires v.Valid() && PageOk(v, PAGE_SIZE, col, p, num) && DraftPage(cfg, p).Ok?
    ensures EndPos(p.text + p.data, 0) <= PAGE_SIZE
  {
    hide View.Valid, JobsToks, LabelsToks, JobsSize, LabelsSize, LabelsSorted, View.AlignOf, EndPos, DraftPage,
      AlignGap;
    PageEnds(v, PAGE_SIZE, col, p, num);
  }

  lemma EndWithin(toks: seq<Token>, k: nat)
    requires k <= |toks|
    ensures PosAt(toks, k) <= EndPos(toks, 0)
  {
    assert toks == toks[..k] + toks[k..];
    EndPosAppend(toks[..k], toks[k..], 0);
  }

  // ---------- label lookups ----------

  lemma {:induction false} NamedMember(args: seq<Arg>, pads: set<Name>, a: Arg)
    requires a in args && a.Ref? && a.name !in pads
    ensures a.name in Named(args, pads)
  {
    if args[0] != a {
      NamedMember(args[1..], pads, a);
    }
  }

  /** On a self-contained page no `@` operand can fail to resolve while the page is encoded. */
  lemma LookupsResolve(v: View, size: nat, col: nat, cfg: Config, p: Page, num: nat, t: Token, a: Arg)
    requires v.Valid() && PageOk(v, size, col, p, num) && SelfContained(v, p) && cfg.pads.Keys == v.pads
    requires t in p.text + p.data && !OutOfOrder(t) && a in ArgsOf(t) && a.Ref?
    ensures var s := ScanFrom(START, p.text + p.data, false);
      s.Ok? ==> ParseNum(EnvOf(cfg, s.value), a).Ok?
  {
    hide View.Valid, PageOk, ScanFrom, JobsOk, EofOk, LabelOk, Placed;
    PageLayout(v, size, col, p, num);
    var s := ScanFrom(START, p.text + p.data, false);
    if s.Ok? && a.name !in v.pads {
      NamedMember(ArgsOf(t), v.pads, a);
      RefsInMember(p.text + p.data, t, v.pads);
      assert a.name in p.labels;
      assert a.name in s.value.labelList;
    }
  }

  // ---------- data alignment ----------

  /** Each label holds descriptors only or words only. */
  ghost predicate Homogeneous(v: View) {
    forall l :: l in v.s.labels ==>
      var t := v.LabelToks(l);
      && (v.AlignOf(l) == Some(16) ==> forall x :: x in t ==> x.Label? || x.UcDmaBd?)
      && (v.AlignOf(l) == Some(4) ==> forall x :: x in t ==> x.Label? || x.Long?)
  }

  /** Walking `toks` from `pos`, descriptors meet 16-byte offsets and words 4-byte offsets. */
  predicate AlignedFrom(toks: seq<Token>, pos: nat)
    decreases |toks|
  {
    if toks == [] then true else
    && (toks[0].UcDmaBd? ==> pos % 16 == 0)
    && (toks[0].Long? ==> pos % 4 == 0)
    && AlignedFrom(toks[1..], pos + SizeAt(toks[0], pos))
  }

  lemma {:induction false} AlignedAppend(a: seq<Token>, b: seq<Token>, pos: nat)
    ensures AlignedFrom(a + b, pos) <==> AlignedFrom(a, pos) && AlignedFrom(b, EndPos(a, pos))
    decreases |a|
  {
    hide SizeAt;
    if a == [] {
      assert a + b == b;
    } else {
      assert (a + b)[1..] == a[1..] + b;
      AlignedAppend(a[1..], b, pos + SizeAt(a[0], pos));
    }
  }

  lemma {:induction false} DescriptorsAligned(toks: seq<Token>, pos: nat)
    requires (forall x :: x in toks ==> x.Label? || x.UcDmaBd?) && pos % 16 == 0
    ensures AlignedFrom(toks, pos) && EndPos(toks, pos) % 16 == 0
    decreases |toks|
  {
    if toks != [] {
      DescriptorsAligned(toks[1..], pos + SizeAt(toks[0], pos));
    }
  }

  lemma {:induction false} WordsAligned(toks: seq<Token>, pos: nat)
    requires (forall x :: x in toks ==> x.Label? || x.Long?) && pos % 4 == 0
    ensures AlignedFrom(toks, pos) && EndPos(toks, pos) % 4 == 0
    decreases |toks|
  {
    if toks != [] {
      WordsAligned(toks[1..], pos + SizeAt(toks[0], pos));
    }
  }

  lemma {:induction false} SortedLabelsAligned(v: View, labels: seq<Name>, pos: nat)
    requires v.Valid() && Homogeneous(v) && Aligned(v, labels) && LabelsSorted(v, labels)
    requires pos % 4 == 0
    requires (exists l :: l in labels && v.AlignOf(l) == Some(16)) ==> pos % 16 == 0
    ensures AlignedFrom(LabelsToks(v, labels), pos)
    decreases |labels|
  {
    hide View.Valid, View.LabelToks, View.AlignOf, SizeAt, AlignedFrom, EndPos, LabelsSorted, Aligned, Homogeneous;
    if labels == [] {
      AlignedNothing(pos);
    } else {
      var l, rest := labels[0], labels[1..];
      FirstLabelAligned(v, labels, pos);
      AlignedAppend(v.LabelToks(l), LabelsToks(v, rest), pos);
      SortedRest(v, labels);
      SortedLabelsAligned(v, rest, EndPos(v.LabelToks(l), pos));
    }
  }

  lemma FirstLabelAligned(v: View, labels: seq<Name>, pos: nat)
    requires Homogeneous(v) && Aligned(v, labels) && LabelsSorted(v, labels) && labels != [] && pos % 4 == 0
    requires (exists l :: l in labels && v.AlignOf(l) == Some(16)) ==> pos % 16 == 0
    ensures var end := EndPos(v.LabelToks(labels[0]), pos);
      && AlignedFrom(v.LabelToks(labels[0]), pos) && end % 4 == 0 && Aligned(v, labels[1..])
      && ((exists l :: l in labels[1..] && v.AlignOf(l) == Some(16)) ==> end % 16 == 0)
  {
    hide View.LabelToks, View.AlignOf, AlignedFrom, EndPos;
    var l, rest := labels[0], labels[1..];
    AlignValues(v, labels);
    assert l in labels;
    if v.AlignOf(l) == Some(16) {
      DescriptorsAligned(v.LabelToks(l), pos);
    } else {
      WordsAligned(v.LabelToks(l), pos);
      forall k | k in rest ensures v.AlignOf(k) == Some(4) {
        var i :| 0 <= i < |rest| && rest[i] == k;
        assert labels[0] == l && labels[i + 1] == k;
      }
    }
  }

  lemma AlignedNothing(pos: nat)
    ensures AlignedFrom([], pos)
  {}

  lemma SortedRest(v: View, labels: seq<Name>)
    requires LabelsSorted(v, labels) && labels != []
    ensures LabelsSorted(v, labels[1..])
  {
    hide View.AlignOf;
    var rest := labels[1..];
    forall a, b | 0 <= a < b < |rest| && v.AlignOf(rest[a]) == Some(4) ensures v.AlignOf(rest[b]) == Some(4) {
      assert rest[a] == labels[a + 1] && rest[b] == labels[b + 1];
    }
  }

  lemma {:induction false} AlignedAt(toks: seq<Token>, pos: nat, k: nat)
    requires AlignedFrom(toks, pos) && k < |toks|
    ensures toks[k].UcDmaBd? ==> EndPos(toks[..k], pos) % 16 == 0
    ensures toks[k].Long? ==> EndPos(toks[..k], pos) % 4 == 0
    decreases |toks|
  {
    hide SizeAt;
    if k > 0 {
      assert toks[..k][1..] == toks[1..][..k - 1];
      AlignedAt(toks[1..], pos + SizeAt(toks[0], pos), k - 1);
    }
  }

  /** The alignment sort and the inserted `.align 16` put every descriptor of a page at a multiple of
      16 and every word at a multiple of 4, counted from the start of the text. */
  lemma DataAligned(v: View, size: nat, col: nat, p: Page, num: nat, k: nat)
    requires v.Valid() && Homogeneous(v) && PageOk(v, size, col, p, num) && |p.text| <= k < |p.text + p.data|
    ensures var toks := p.text + p.data;
      && (toks[k].UcDmaBd? ==> PosAt(toks, k) % 16 == 0)
      && (toks[k].Long? ==> PosAt(toks, k) % 4 == 0)
  {
    hide View.Valid, Homogeneous, View.AlignOf, PageOk, EndPos, AlignedFrom, Sizes, Gap, JobsSize, LabelsSize;
    PageEnds(v, size, col, p, num);
    PosInData(p, k);
    var base, i := EndPos(p.text, 0), k - |p.text|;
    if LabelsSize(v, p.labels) > 0 {
      PageDataAligned(v, size, col, p, num);
      AlignedAt(p.data, base, i);
    } else {
      EmptyData(v, size, col, p, num);
      NoSize(p.data, i);
    }
  }

  lemma PosInData(p: Page, k: nat)
    requires |p.text| <= k < |p.text + p.data|
    ensures PosAt(p.text + p.data, k) == EndPos(p.data[..k - |p.text|], EndPos(p.text, 0))
    ensures (p.text + p.data)[k] == p.data[k - |p.text|]
  {
    assert (p.text + p.data)[..k] == p.text + p.data[..k - |p.text|];
    EndPosAppend(p.text, p.data[..k - |p.text|], 0);
  }

  lemma PageDataAligned(v: View, size: nat, col: nat, p: Page, num: nat)
    requires v.Valid() && Homogeneous(v) && PageOk(v, size, col, p, num) && LabelsSize(v, p.labels) > 0
    ensures AlignedFrom(p.data, EndPos(p.text, 0))
  {
    hide *;
    PageEnds(v, size, col, p, num);
    GapPads(v, p);
    Quarter(EndPos(p.text, 0));
    PageData(v, size, col, p, num);
    SortedLabelsAligned(v, p.labels, EndPos(p.text, 0));
  }

  lemma PageData(v: View, size: nat, col: nat, p: Page, num: nat)
    requires PageOk(v, size, col, p, num)
    ensures p.data == LabelsToks(v, p.labels) && Aligned(v, p.labels) && LabelsSorted(v, p.labels)
  {
    hide JobsSize, JobsToks, LabelsToks, LabelsSize, RoundUp4, Footprint, Aligned, LabelsSorted, Gap;
  }

  lemma EmptyData(v: View, size: nat, col: nat, p: Page, num: nat)
    requires v.Valid() && PageOk(v, size, col, p, num) && LabelsSize(v, p.labels) == 0
    ensures Sizes(p.data) == 0
  {
    hide View.Valid, View.AlignOf, JobsSize, JobsToks, LabelsSize, RoundUp4, Footprint, LabelsSorted, Gap, Sizes;
    LabelsPlain(v, p.labels);
  }

  lemma GapPads(v: View, p: Page)
    requires LabelsSize(v, p.labels) > 0
    ensures (JobsSize(v, p.jobs) + EOF_SIZE + Gap(v, p)) % 16 == 0
  {
    hide JobsSize, LabelsSize;
  }

  lemma Quarter(n: nat)
    requires n % 16 == 0
    ensures n % 4 == 0
  {
    DivModUnique(n, 4, 4 * (n / 16), 0);
  }

  lemma {:induction false} NoSize(toks: seq<Token>, i: nat)
    requires i < |toks| && Sizes(toks) == 0
    ensures !toks[i].UcDmaBd? && !toks[i].Long?
  {
    if i > 0 {
      NoSize(toks[1..], i - 1);
    }
  }
}
