/** Which pages the writer can encode. */
module PageAccepts {
  import opened Base
  import opened Isa
  import opened Program
  import opened Structure
  import opened View
  import opened Labels
  import opened Pages
  import opened PageLaws
  import opened Serialize
  import opened Patch
  import opened PageImage
  import opened PageProofs
  import Closure
  import Partition
  import SharedLabels
  import Tables

  // ---------- what serializing demands ----------

  /** A number, a scratchpad, or a label of the page. */
  predicate Resolves(cfg: Config, labels: seq<Name>, a: Arg) {
    a.Num? || (a.Ref? && (a.name in cfg.pads || a.name in labels))
  }

  predicate OperandFits(cfg: Config, labels: seq<Name>, kind: Kind, a: Arg) {
    match kind
    case Const => Resolves(cfg, labels, a)
    case Register => a.Reg?
    case Barrier => a.Bar?
    case PageId => a.Ref? && a.name in cfg.pageIndex
    case _ => true
  }

  /** Kinds of the operands that are written in assembly. */
  function AsmKinds(specs: seq<Spec>): seq<Kind> {
    if specs == [] then [] else (if TakesArg(specs[0].kind) then [specs[0].kind] else []) + AsmKinds(specs[1..])
  }

  /** The operands from `k` on are there and of these kinds. */
  predicate KindsFit(cfg: Config, labels: seq<Name>, kinds: seq<Kind>, args: seq<Arg>, k: nat) {
    kinds != [] ==>
      k + |kinds| <= |args| && forall i :: 0 <= i < |kinds| ==> OperandFits(cfg, labels, kinds[i], args[k + i])
  }

  /** The first operand names a job of the page. */
  predicate SizeNamed(jobs: seq<JobId>, args: seq<Arg>) {
    args != [] && args[0].Num? && Job(args[0].n, args[0].form) in jobs
  }

  /** The operands from `k` on are there and of the right kinds; a size operand belongs to a job of the page. */
  predicate ArgsFit(cfg: Config, jobs: seq<JobId>, labels: seq<Name>, specs: seq<Spec>, args: seq<Arg>, k: nat) {
    KindsFit(cfg, labels, AsmKinds(specs), args, k)
    && ((exists s :: s in specs && s.kind.JobSize?) ==> SizeNamed(jobs, args))
  }

  /** The descriptor table of an `apply_offset_57` lies inside the page's label list. */
  predicate TableInside(labels: seq<Name>, args: seq<Arg>) {
    |args| >= 3 && args[0].Ref? && args[1].Num? && TableFits(labels, args[0].name, args[1].n)
  }

  predicate TokenFits(cfg: Config, jobs: seq<JobId>, labels: seq<Name>, t: Token) {
    match t
    case Isa(op, args) =>
      ArgsFit(cfg, jobs, labels, Args(op), args, 0) && (op.ApplyOffset57? ==> TableInside(labels, args))
    case Long(val) => Resolves(cfg, labels, val)
    case UcDmaBd(bd) => |bd| >= 6 && forall i :: 0 <= i < 6 ==> Resolves(cfg, labels, bd[i])
    case Eop => false
    case _ => true
  }

  ghost predicate AllTokensFit(cfg: Config, jobs: seq<JobId>, labels: seq<Name>, toks: seq<Token>) {
    forall t :: t in toks ==> TokenFits(cfg, jobs, labels, t)
  }

  // ---------- serializers accept exactly that ----------

  /** The page's layout pass recorded its jobs and its labels. */
  ghost predicate Records(cfg: Config, env: Env, jobs: seq<JobId>, labels: seq<Name>) {
    && env.pads == cfg.pads && env.pageIndex == cfg.pageIndex && env.labelList == labels
    && (forall l :: l in env.labels <==> l in labels)
    && (forall j :: j in jobs ==> j in env.jobs && env.jobs[j].start <= env.jobs[j].end)
    && (forall j: JobId :: j.Job? && j in env.jobs ==> j in jobs)
  }

  lemma ParseResolves(cfg: Config, env: Env, jobs: seq<JobId>, labels: seq<Name>, a: Arg)
    requires Records(cfg, env, jobs, labels)
    ensures ParseNum(env, a).Ok? <==> Resolves(cfg, labels, a)
  {}

  lemma {:induction false} ValuesFit(cfg: Config, env: Env, jobs: seq<JobId>, labels: seq<Name>, specs: seq<Spec>,
                                     args: seq<Arg>, k: nat)
    requires Records(cfg, env, jobs, labels)
    ensures Values(env, specs, args, k).Ok? <==> ArgsFit(cfg, jobs, labels, specs, args, k)
    decreases |specs|
  {
    hide OperandValue, OperandFits, Records;
    if specs != [] {
      var s, rest := specs[0], specs[1..];
      assert specs == [s] + rest;
      var k' := if TakesArg(s.kind) then k + 1 else k;
      ValuesFit(cfg, env, jobs, labels, rest, args, k');
      OneFits(cfg, env, jobs, labels, s, args, k);
      ArgsFitStep(cfg, jobs, labels, s, rest, args, k);
    }
  }

  /** What one operand demands. */
  predicate OneArgFits(cfg: Config, jobs: seq<JobId>, labels: seq<Name>, s: Spec, args: seq<Arg>, k: nat) {
    && (TakesArg(s.kind) ==> k < |args| && OperandFits(cfg, labels, s.kind, args[k]))
    && (s.kind.JobSize? ==> SizeNamed(jobs, args))
  }

  lemma OneFits(cfg: Config, env: Env, jobs: seq<JobId>, labels: seq<Name>, s: Spec, args: seq<Arg>, k: nat)
    requires Records(cfg, env, jobs, labels)
    ensures OperandValue(env, s, args, k).Ok? <==> OneArgFits(cfg, jobs, labels, s, args, k)
  {}

  lemma KindsFitStep(cfg: Config, labels: seq<Name>, x: Kind, more: seq<Kind>, args: seq<Arg>, k: nat)
    ensures KindsFit(cfg, labels, [x] + more, args, k) <==>
      k < |args| && OperandFits(cfg, labels, x, args[k]) && KindsFit(cfg, labels, more, args, k + 1)
  {
    hide OperandFits;
    var kinds := [x] + more;
    if KindsFit(cfg, labels, kinds, args, k) {
      assert OperandFits(cfg, labels, kinds[0], args[k + 0]);
      forall i | 0 <= i < |more| ensures OperandFits(cfg, labels, more[i], args[k + 1 + i]) {
        assert OperandFits(cfg, labels, kinds[i + 1], args[k + (i + 1)]);
      }
    }
    if k < |args| && OperandFits(cfg, labels, x, args[k]) && KindsFit(cfg, labels, more, args, k + 1) {
      forall i | 0 <= i < |kinds| && k + |kinds| <= |args| ensures OperandFits(cfg, labels, kinds[i], args[k + i]) {
        if i > 0 {
          assert OperandFits(cfg, labels, more[i - 1], args[k + 1 + (i - 1)]);
        }
      }
    }
  }

  lemma ArgsFitStep(cfg: Config, jobs: seq<JobId>, labels: seq<Name>, s: Spec, rest: seq<Spec>, args: seq<Arg>, k: nat)
    ensures ArgsFit(cfg, jobs, labels, [s] + rest, args, k) <==>
      OneArgFits(cfg, jobs, labels, s, args, k)
      && ArgsFit(cfg, jobs, labels, rest, args, if TakesArg(s.kind) then k + 1 else k)
  {
    hide OperandFits, KindsFit, SizeNamed;
    var specs := [s] + rest;
    assert specs[1..] == rest && specs[0] == s;
    assert forall x :: x in specs <==> x == s || x in rest;
    if TakesArg(s.kind) {
      KindsFitStep(cfg, labels, s.kind, AsmKinds(rest), args, k);
    } else {
      assert AsmKinds(specs) == AsmKinds(rest);
    }
  }

  /** Operands the job bracket already checked. */
  predicate ApplyShaped(t: Token) {
    t.Isa? && t.op.ApplyOffset57? ==> |t.args| > 1 && t.args[0].Ref? && t.args[1].Num?
  }

  lemma {:induction false} PositionsResolve(cfg: Config, env: Env, jobs: seq<JobId>, labels: seq<Name>,
                                            table: seq<Name>)
    requires Records(cfg, env, jobs, labels) && forall l :: l in table ==> l in labels
    ensures Positions(env, table).Ok?
  {
    hide Records, ParseNum;
    if table != [] {
      ParseResolves(cfg, env, jobs, labels, Ref(table[0]));
      PositionsResolve(cfg, env, jobs, labels, table[1..]);
    }
  }

  lemma TableEmits(cfg: Config, env: Env, jobs: seq<JobId>, labels: seq<Name>, args: seq<Arg>)
    requires Records(cfg, env, jobs, labels) && |args| > 1 && args[0].Ref? && args[1].Num?
    ensures Table(env, args).Ok? <==> TableInside(labels, args)
    ensures Table(env, args).Ok? ==> forall l :: l in Table(env, args).value ==> l in labels
  {
    hide IndexOf;
  }

  /** The offset of an `apply_offset_57` has been read by then. */
  lemma OffsetParsed(env: Env, args: seq<Arg>)
    requires Values(env, Args(ApplyOffset57), args, 0).Ok?
    ensures |args| >= 3 && ParseNum(env, args[2]).Ok?
  {
    hide Values, ParseNum;
    var a, b, c := Spec(NTablePtr, Const, 16), Spec(NNumEntries, Const, 16), Spec(NOffset, Const, 16);
    assert Args(ApplyOffset57) == [a] + ([b] + ([c] + []));
    ValuesCons(env, a, [b] + ([c] + []), args, 0);
    ValuesCons(env, b, [c] + [], args, 1);
    ValuesCons(env, c, [], args, 2);
  }

  lemma IsaFits(cfg: Config, env: Env, jobs: seq<JobId>, labels: seq<Name>, t: Token)
    requires Records(cfg, env, jobs, labels) && t.Isa? && ApplyShaped(t)
    ensures EmitIsa(env, t.op, t.args).Ok? <==> TokenFits(cfg, jobs, labels, t)
  {
    hide Values, Table, Args, Encode, Positions, Records, ArgsFit, TableInside, ParseNum, RelocsAt;
    ValuesFit(cfg, env, jobs, labels, Args(t.op), t.args, 0);
    if t.op.ApplyOffset57? {
      if Values(env, Args(t.op), t.args, 0).Ok? {
        OffsetParsed(env, t.args);
      }
      TableEmits(cfg, env, jobs, labels, t.args);
      if Table(env, t.args).Ok? {
        PositionsResolve(cfg, env, jobs, labels, Table(env, t.args).value);
      }
    }
  }

  lemma BdFits(cfg: Config, env: Env, jobs: seq<JobId>, labels: seq<Name>, bd: seq<Arg>, pos: nat)
    requires Records(cfg, env, jobs, labels)
    ensures EmitBd(env, bd, pos).Ok? <==> TokenFits(cfg, jobs, labels, UcDmaBd(bd))
  {
    hide Records, ParseNum, Resolves, EncodeBd;
    forall a ensures ParseNum(env, a).Ok? <==> Resolves(cfg, labels, a) {
      ParseResolves(cfg, env, jobs, labels, a);
    }
  }

  lemma EmitFits(cfg: Config, env: Env, jobs: seq<JobId>, labels: seq<Name>, t: Token, pos: nat)
    requires Records(cfg, env, jobs, labels) && ApplyShaped(t)
    ensures EmitTok(env, t, pos).Ok? <==> TokenFits(cfg, jobs, labels, t)
  {
    hide Records, EmitIsa, EmitBd, ParseNum, Resolves, ArgsFit, TableInside, ApplyShaped;
    match t
    case Isa(op, args) => IsaFits(cfg, env, jobs, labels, t);
    case UcDmaBd(bd) => BdFits(cfg, env, jobs, labels, bd, pos);
    case Long(val) => ParseResolves(cfg, env, jobs, labels, val);
    case _ =>
  }

  lemma {:induction false} EmitAllFits(cfg: Config, env: Env, jobs: seq<JobId>, labels: seq<Name>, toks: seq<Token>,
                                       pos: nat)
    requires Records(cfg, env, jobs, labels) && forall t :: t in toks ==> ApplyShaped(t)
    ensures EmitAll(env, toks, pos).Ok? <==> AllTokensFit(cfg, jobs, labels, toks)
    decreases |toks|
  {
    hide Records, EmitTok, TokenFits, ApplyShaped;
    if toks != [] {
      assert toks == [toks[0]] + toks[1..];
      EmitFits(cfg, env, jobs, labels, toks[0], pos);
      var e := EmitTok(env, toks[0], pos);
      if e.Ok? {
        EmitAllFits(cfg, env, jobs, labels, toks[1..], pos + |e.value.bytes|);
      }
    }
  }

  // ---------- patches ----------

  /** Every patch names a scratchpad and a descriptor label of the page. */
  ghost predicate PatchesNamed(env: Env, patches: seq<PadPatch>) {
    forall x :: x in patches ==> x.pad in env.pads && x.bd in env.labelList
  }

  lemma {:induction false} TablePatches(env: Env, pad: Name, table: seq<Name>)
    requires pad in env.pads && forall l :: l in table ==> l in env.labelList
    ensures PatchesNamed(env, PadPatches(pad, table))
  {
    if table != [] {
      TablePatches(env, pad, table[1..]);
    }
  }

  lemma EmitPatches(env: Env, t: Token, pos: nat)
    requires EmitTok(env, t, pos).Ok?
    ensures PatchesNamed(env, EmitTok(env, t, pos).value.patches)
  {
    hide Values, Args, Encode, Positions, ParseNum, EncodeBd, IndexOf, PatchesNamed;
    NoPatches(env);
    if t.Isa? && t.op.ApplyOffset57? {
      var table := Table(env, t.args).value;
      if |t.args| == 4 && t.args[3].Ref? && t.args[3].name in env.pads {
        TablePatches(env, t.args[3].name, table);
      }
    }
  }

  lemma NoPatches(env: Env)
    ensures PatchesNamed(env, [])
  {}

  lemma MorePatches(env: Env, a: seq<PadPatch>, b: seq<PadPatch>)
    requires PatchesNamed(env, a) && PatchesNamed(env, b)
    ensures PatchesNamed(env, a + b)
  {}

  lemma {:induction false} EmitAllPatches(env: Env, toks: seq<Token>, pos: nat)
    requires EmitAll(env, toks, pos).Ok?
    ensures PatchesNamed(env, EmitAll(env, toks, pos).value.patches)
    decreases |toks|
  {
    hide EmitTok, PatchesNamed;
    NoPatches(env);
    if toks != [] {
      EmitPatches(env, toks[0], pos);
      var e := EmitTok(env, toks[0], pos).value;
      EmitAllPatches(env, toks[1..], pos + |e.bytes|);
      MorePatches(env, e.patches, EmitAll(env, toks[1..], pos + |e.bytes|).value.patches);
    }
  }

  lemma {:induction false} FixesForResolve(cfg: Config, env: Env, jobs: seq<JobId>, labels: seq<Name>, pad: Name,
                                           patches: seq<PadPatch>, textLen: nat)
    requires Records(cfg, env, jobs, labels) && PatchesNamed(env, patches) && pad in env.pads
    ensures FixesFor(env, pad, patches, textLen).Ok?
    decreases |patches|
  {
    hide Records, ParseNum;
    if patches != [] {
      assert patches[0] in patches;
      NamedLabel(cfg, env, jobs, labels, patches[0].bd);
      FixesForResolve(cfg, env, jobs, labels, pad, patches[1..], textLen);
    }
  }

  lemma NamedLabel(cfg: Config, env: Env, jobs: seq<JobId>, labels: seq<Name>, l: Name)
    requires Records(cfg, env, jobs, labels) && l in env.labelList
    ensures ParseNum(env, Ref(l)).Ok?
  {}

  lemma {:induction false} FixesResolve(cfg: Config, env: Env, jobs: seq<JobId>, labels: seq<Name>, pads: seq<Name>,
                                        patches: seq<PadPatch>, textLen: nat)
    requires Records(cfg, env, jobs, labels) && PatchesNamed(env, patches)
    ensures FixesOf(env, pads, patches, textLen).Ok? <==> forall x :: x in pads ==> x in env.pads
    decreases |pads|
  {
    hide Records, FixesFor, PatchesNamed;
    if pads != [] {
      assert pads == [pads[0]] + pads[1..];
      if pads[0] in env.pads {
        FixesForResolve(cfg, env, jobs, labels, pads[0], patches, textLen);
        FixesResolve(cfg, env, jobs, labels, pads[1..], patches, textLen);
      }
    }
  }

  // ---------- pages ----------

  lemma JobApplyShaped(v: View, j: JobId)
    requires v.Valid() && j in v.s.jobs && j.Job?
    ensures forall t :: t in v.JobToks(j) ==> ApplyShaped(t)
  {
    hide View.Valid, View.JobToks, Sizes, LaunchesOf;
    JobSlice(v, j);
    var t := v.JobToks(j);
    forall x | x in t ensures ApplyShaped(x) {
      var i :| 0 <= i < |t| && t[i] == x;
      assert 1 <= i < |t| - 1 ==> BodyOp(t[i]);
    }
  }

  lemma {:induction false} JobsApplyShaped(v: View, jobs: seq<JobId>)
    requires v.Valid() && Ordinary(v, jobs)
    ensures forall t :: t in JobsToks(v, jobs) ==> ApplyShaped(t)
  {
    hide View.Valid, View.JobToks, ApplyShaped;
    if jobs != [] {
      JobApplyShaped(v, jobs[0]);
      JobsApplyShaped(v, jobs[1..]);
    }
  }

  lemma LabelApplyShaped(v: View, l: Name)
    requires v.Valid() && l in v.s.labels
    ensures forall t :: t in v.LabelToks(l) ==> ApplyShaped(t)
  {
    hide View.Valid, View.LabelToks, View.AlignOf, Sizes;
    LabelSlice(v, l);
    var t := v.LabelToks(l);
    forall x | x in t ensures ApplyShaped(x) {
      if x != t[0] {
        assert x in t[1..];
        assert DataOp(x);
      }
    }
  }

  lemma {:induction false} LabelsApplyShaped(v: View, labels: seq<Name>)
    requires v.Valid() && forall l :: l in labels ==> l in v.s.labels
    ensures forall t :: t in LabelsToks(v, labels) ==> ApplyShaped(t)
  {
    hide View.Valid, View.LabelToks, ApplyShaped;
    if labels != [] {
      LabelApplyShaped(v, labels[0]);
      LabelsApplyShaped(v, labels[1..]);
    }
  }

  lemma PageApplyShaped(v: View, size: nat, col: nat, p: Page, num: nat)
    requires v.Valid() && PageOk(v, size, col, p, num)
    ensures forall t :: t in p.text + p.data ==> ApplyShaped(t)
  {
    hide View.Valid, JobsToks, LabelsToks, JobsSize, LabelsSize, Gap, RoundUp4, Footprint, LabelsSorted, View.AlignOf;
    JobsApplyShaped(v, p.jobs);
    LabelsApplyShaped(v, p.labels);
    assert forall t :: t in p.text ==> t in JobsToks(v, p.jobs) || t == EOF || t == Align(16);
  }

  /** An accepted layout pass recorded exactly the page's jobs and labels. */
  lemma PageRecords(v: View, size: nat, col: nat, cfg: Config, p: Page, num: nat)
    requires v.Valid() && PageOk(v, size, col, p, num)
    ensures var s := ScanFrom(START, p.text + p.data, false); s.Ok? ==>
      Records(cfg, EnvOf(cfg, s.value), p.jobs, p.labels)
  {
    hide View.Valid, PageOk, ScanFrom, Placed;
    PageLayout(v, size, col, p, num);
    var s := ScanFrom(START, p.text + p.data, false);
    if s.Ok? {
      OrdinaryPage(v, size, col, p, num);
      DataRecords(p.text + p.data, s.value, p.jobs);
    }
  }

  lemma OrdinaryPage(v: View, size: nat, col: nat, p: Page, num: nat)
    requires PageOk(v, size, col, p, num)
    ensures forall j :: j in p.jobs ==> j.Job?
  {
    hide JobsSize, LabelsSize, JobsToks, LabelsToks, Gap, RoundUp4, Footprint, LabelsSorted, Aligned;
  }

  lemma DataRecords(toks: seq<Token>, s: Scan, jobs: seq<JobId>)
    requires DataInv(toks, s) && s.jobids == jobs + [EofJob] && forall j :: j in jobs ==> j.Job?
    ensures forall l :: l in s.labels <==> l in s.labelList
    ensures forall j :: j in jobs ==> j in s.jobs && s.jobs[j].start <= s.jobs[j].end
    ensures forall j: JobId :: j.Job? && j in s.jobs ==> j in jobs
  {
    hide LabelOk, EofOk, EopsOk, BarriersMatch, JobShape, BarriersOf, LaunchesOf;
    forall j | j in jobs ensures j in s.jobs && s.jobs[j].start <= s.jobs[j].end {
      assert j in s.jobids;
      assert JobOk(toks, s.jobs[j], j);
    }
  }

  /** The writer can encode a page if and only if no job and no label occurs on it twice, every token's operands
      are there, of the right kinds and resolvable on the page, every descriptor table lies inside the
      page's label list, and every listed scratchpad exists. */
  lemma DraftAccepts(v: View, size: nat, col: nat, cfg: Config, p: Page, num: nat)
    requires v.Valid() && PageOk(v, size, col, p, num)
    ensures DraftPage(cfg, p).Ok? <==>
      && NoDup(p.jobs) && NoDup(p.labels) && AllTokensFit(cfg, p.jobs, p.labels, p.text + p.data)
      && forall x :: x in cfg.padList ==> x in cfg.pads
  {
    hide View.Valid, PageOk, ScanFrom, EmitAll, FixesOf, Records, TokenFits, ApplyShaped, PatchesNamed, DataInv,
      Placed, NoDup, EndPos, NoAligns, JobsSize, LabelsSize, Gap;
    PageLayout(v, size, col, p, num);
    PageRecords(v, size, col, cfg, p, num);
    PageApplyShaped(v, size, col, p, num);
    PageEnds(v, size, col, p, num);
    NothingDropped(p.data);
    var s := ScanFrom(START, p.text + p.data, false);
    if s.Ok? {
      var env := EnvOf(cfg, s.value);
      EmitAllFits(cfg, env, p.jobs, p.labels, p.text, 0);
      var text := EmitAll(env, p.text, 0);
      if text.Ok? {
        EmitAllFits(cfg, env, p.jobs, p.labels, p.data, |text.value.bytes|);
        var data := EmitAll(env, p.data, |text.value.bytes|);
        if data.Ok? {
          EmitAllPatches(env, p.text, 0);
          EmitAllPatches(env, p.data, |text.value.bytes|);
          MorePatches(env, text.value.patches, data.value.patches);
          FixesResolve(cfg, env, p.jobs, p.labels, cfg.padList, text.value.patches + data.value.patches,
            |text.value.bytes|);
        }
      }
    }
  }

  /** The patch loop succeeds exactly when every patched descriptor lies inside the data. */
  lemma {:induction false} PatchAllAccepts(f: Family, b: seq<u8>, fixes: seq<Fix>)
    ensures PatchAll(f, b, fixes).Ok? <==> forall i :: 0 <= i < |fixes| ==>
        0 <= fixes[i].at
        && fixes[i].at + f.Span() <= |b|
    decreases |fixes|
  {
    hide Patch57;
    if fixes != [] {
      assert fixes == [fixes[0]] + fixes[1..];
      if 0 <= fixes[0].at && fixes[0].at + f.Span() <= |b| {
        PatchAllAccepts(f, Patch57(f, b, fixes[0].at, fixes[0].addr), fixes[1..]);
      }
    }
  }

  // ---------- checkable before paging ----------

  /** An operand of the right kind; an out-of-order instruction's labels are not on its page. */
  predicate KindOk(cfg: Config, outOfOrder: bool, kind: Kind, a: Arg) {
    match kind
    case Const => a.Num? || (a.Ref? && (a.name in cfg.pads || !outOfOrder))
    case Register => a.Reg?
    case Barrier => a.Bar?
    case PageId => a.Ref? && a.name in cfg.pageIndex
    case _ => true
  }

  /** A token with all its operands, each of the right kind. */
  predicate WellShaped(cfg: Config, t: Token) {
    match t
    case Isa(op, args) =>
      var kinds := AsmKinds(Args(op));
      && |kinds| <= |args| && (forall i :: 0 <= i < |kinds| ==> KindOk(cfg, OutOfOrder(t), kinds[i], args[i]))
      && (op.ApplyOffset57? ==> |args| >= 3 && args[0].Ref? && args[0].name !in cfg.pads && args[1].Num?)
    case Long(val) => val.Num? || val.Ref?
    case UcDmaBd(bd) => |bd| >= 6 && forall i :: 0 <= i < 6 ==> bd[i].Num? || bd[i].Ref?
    case _ => true
  }

  lemma JobSizeOps(op: Mnemonic)
    ensures (exists s :: s in Args(op) && s.kind.JobSize?) ==> op in {StartJob, StartJobDeferred}
  {}

  /** A token's labels are among the page's. */
  predicate Linked(pads: set<Name>, labels: seq<Name>, t: Token) {
    forall l :: l in Refs(t, pads) ==> l in labels
  }

  lemma LinkedResolves(cfg: Config, labels: seq<Name>, t: Token, a: Arg)
    requires Linked(cfg.pads.Keys, labels, t) && a in ArgsOf(t) && (a.Num? || a.Ref?)
    requires OutOfOrder(t) ==> a.Num? || a.name in cfg.pads
    ensures Resolves(cfg, labels, a)
  {
    if a.Ref? && a.name !in cfg.pads {
      NamedMember(ArgsOf(t), cfg.pads.Keys, a);
    }
  }

  /** The first pass knows the table of every `apply_offset_57` with several entries. */
  predicate TableKnown(tables: map<Name, seq<Name>>, t: Token) {
    t.Isa? && t.op.ApplyOffset57? && |t.args| > 1 && t.args[0].Ref? && t.args[1].Num? && t.args[1].n > 1 ==>
      t.args[0].name in tables && |tables[t.args[0].name]| == t.args[1].n
  }

  /** A page without duplicates on which tables stand whole. */
  ghost predicate Tabled(tables: map<Name, seq<Name>>, labels: seq<Name>) {
    NoDup(labels) && Tables.Disjoint(tables) && Tables.Whole(tables, labels)
  }

  lemma TableOnPage(tables: map<Name, seq<Name>>, labels: seq<Name>, l: Name, n: nat)
    requires l in labels && (n > 1 ==> l in tables && |tables[l]| == n && Tabled(tables, labels))
    ensures TableFits(labels, l, n)
  {
    hide IndexOf;
    if n > 1 {
      assert tables[l][0] in tables[l];
      var i: nat :| Tables.RunAt(labels, tables[l], i);
      assert labels[i] == labels[i..i + n][0] == l;
      Tables.FoundAt(labels, i);
    }
  }

  /** A well-shaped token whose labels are on the page fits it, given that a `start_job` is one of the page's. */
  lemma ShapedFits(cfg: Config, tables: map<Name, seq<Name>>, jobs: seq<JobId>, labels: seq<Name>, t: Token)
    requires WellShaped(cfg, t) && Linked(cfg.pads.Keys, labels, t) && TableKnown(tables, t) && Tabled(tables, labels)
      && !t.Eop?
    requires t.Isa? && t.op in {StartJob, StartJobDeferred} ==>
        t.args != [] && t.args[0].Num?
        && Job(t.args[0].n, t.args[0].form) in jobs
    ensures TokenFits(cfg, jobs, labels, t)
  {
    hide Args, Linked, AsmKinds, Resolves, TableFits, Tabled;
    match t
    case Isa(op, args) =>
      JobSizeOps(op);
      var kinds := AsmKinds(Args(op));
      forall i | 0 <= i < |kinds| ensures OperandFits(cfg, labels, kinds[i], args[0 + i]) {
        assert KindOk(cfg, OutOfOrder(t), kinds[i], args[i]);
        assert args[i] in ArgsOf(t);
        if kinds[i].Const? {
          LinkedResolves(cfg, labels, t, args[i]);
        }
      }
      if op.ApplyOffset57? {
        assert args[0] in ArgsOf(t);
        LinkedTable(cfg, labels, t);
        TableOnPage(tables, labels, args[0].name, args[1].n);
      }
    case Long(val) =>
      assert val in ArgsOf(t);
      LinkedResolves(cfg, labels, t, val);
    case UcDmaBd(bd) =>
      forall i | 0 <= i < 6 ensures Resolves(cfg, labels, bd[i]) {
        assert bd[i] in ArgsOf(t);
        LinkedResolves(cfg, labels, t, bd[i]);
      }
    case _ =>
  }

  lemma LinkedTable(cfg: Config, labels: seq<Name>, t: Token)
    requires Linked(cfg.pads.Keys, labels, t) && t.Isa? && t.op.ApplyOffset57?
    requires t.args != [] && t.args[0].Ref? && t.args[0].name !in cfg.pads
    ensures t.args[0].name in labels
  {
    NamedMember(t.args, cfg.pads.Keys, t.args[0]);
  }

  /** Well shaped, its labels on the page, its table known. */
  predicate Fit(v: View, cfg: Config, labels: seq<Name>, t: Token) {
    WellShaped(cfg, t) && Linked(cfg.pads.Keys, labels, t) && TableKnown(v.dependents, t)
  }

  lemma JobFits(v: View, cfg: Config, jobs: seq<JobId>, labels: seq<Name>, j: JobId)
    requires v.Valid() && j in v.s.jobs && j.Job? && j in jobs && Tabled(v.dependents, labels)
    requires forall t :: t in v.JobToks(j) ==> Fit(v, cfg, labels, t)
    ensures AllTokensFit(cfg, jobs, labels, v.JobToks(j))
  {
    hide View.Valid, View.JobToks, Sizes, LaunchesOf, WellShaped, Linked, TokenFits, Tabled, TableKnown;
    JobSlice(v, j);
    var ts := v.JobToks(j);
    forall t | t in ts ensures TokenFits(cfg, jobs, labels, t) {
      var i :| 0 <= i < |ts| && ts[i] == t;
      assert 1 <= i < |ts| - 1 ==> BodyOp(ts[i]);
      ShapedFits(cfg, v.dependents, jobs, labels, t);
    }
  }

  lemma LabelFits(v: View, cfg: Config, jobs: seq<JobId>, labels: seq<Name>, l: Name)
    requires v.Valid() && l in v.s.labels && Tabled(v.dependents, labels)
    requires forall t :: t in v.LabelToks(l) ==> Fit(v, cfg, labels, t)
    ensures AllTokensFit(cfg, jobs, labels, v.LabelToks(l))
  {
    hide View.Valid, View.LabelToks, View.AlignOf, Sizes, WellShaped, Linked, TokenFits, Tabled, TableKnown;
    LabelSlice(v, l);
    var ts := v.LabelToks(l);
    forall t | t in ts ensures TokenFits(cfg, jobs, labels, t) {
      if t != ts[0] {
        assert t in ts[1..];
        assert DataOp(t);
      }
      ShapedFits(cfg, v.dependents, jobs, labels, t);
    }
  }

  lemma {:induction false} JobsFit(v: View, cfg: Config, jobs: seq<JobId>, labels: seq<Name>, some: seq<JobId>)
    requires v.Valid() && Ordinary(v, some) && Tabled(v.dependents, labels) && forall j :: j in some ==> j in jobs
    requires forall t :: t in JobsToks(v, some) ==> Fit(v, cfg, labels, t)
    ensures AllTokensFit(cfg, jobs, labels, JobsToks(v, some))
  {
    hide View.Valid, View.JobToks, Fit, TokenFits, Tabled;
    if some != [] {
      JobFits(v, cfg, jobs, labels, some[0]);
      JobsFit(v, cfg, jobs, labels, some[1..]);
    }
  }

  lemma {:induction false} LabelsFit(v: View, cfg: Config, jobs: seq<JobId>, labels: seq<Name>, some: seq<Name>)
    requires v.Valid() && Tabled(v.dependents, labels) && forall l :: l in some ==> l in v.s.labels
    requires forall t :: t in LabelsToks(v, some) ==> Fit(v, cfg, labels, t)
    ensures AllTokensFit(cfg, jobs, labels, LabelsToks(v, some))
  {
    hide View.Valid, View.LabelToks, Fit, TokenFits, Tabled;
    if some != [] {
      LabelFits(v, cfg, jobs, labels, some[0]);
      LabelsFit(v, cfg, jobs, labels, some[1..]);
    }
  }

  lemma TailFits(cfg: Config, jobs: seq<JobId>, labels: seq<Name>)
    ensures TokenFits(cfg, jobs, labels, EOF) && TokenFits(cfg, jobs, labels, Align(16))
  {}

  /** On a self-contained page every well-shaped token fits. */
  lemma PageTokensFit(v: View, size: nat, col: nat, cfg: Config, p: Page, num: nat)
    requires v.Valid() && PageOk(v, size, col, p, num) && Closure.SelfContained(v, p) && cfg.pads.Keys == v.pads
    requires Tabled(v.dependents, p.labels)
    requires forall t :: t in JobsToks(v, p.jobs) + LabelsToks(v, p.labels) ==>
        WellShaped(cfg, t)
        && TableKnown(v.dependents, t)
    ensures AllTokensFit(cfg, p.jobs, p.labels, p.text + p.data)
  {
    hide View.Valid, JobsToks, LabelsToks, JobsSize, LabelsSize, Gap, RoundUp4, Footprint, LabelsSorted, View.AlignOf,
      WellShaped, TokenFits, Refs, Tabled, TableKnown;
    forall t | t in p.text + p.data ensures Linked(cfg.pads.Keys, p.labels, t) {
      RefsInMember(p.text + p.data, t, v.pads);
    }
    JobsFit(v, cfg, p.jobs, p.labels, p.jobs);
    LabelsFit(v, cfg, p.jobs, p.labels, p.labels);
    TailFits(cfg, p.jobs, p.labels);
    assert forall t :: t in p.text ==> t in JobsToks(v, p.jobs) || t == EOF || t == Align(16);
  }

  lemma {:induction false} LabelsInside(v: View, labels: seq<Name>)
    ensures forall t :: t in LabelsToks(v, labels) ==> t in v.toks
  {
    if labels != [] {
      LabelsInside(v, labels[1..]);
    }
  }

  /** Checkable before paging: when no label is used by two jobs of one region that are not barrier mates, every token
      is well shaped and tables are apart, the writer can encode every page of a launch-free program. */
  lemma PagesEncode(v: View, ranks: Ranks, col: nat, before: seq<Page>, cfg: Config, i: nat)
    requires Ready(v, ranks) && Partition.NoLaunch(v) && Closure.PlainDependents(v)
      && SharedLabels.UnsharedRegions(v)
    requires Tables.TablesApart(v) && cfg.pads.Keys == v.pads && (forall x :: x in cfg.padList ==> x in cfg.pads)
    requires forall t :: t in v.toks ==> WellShaped(cfg, t) && TableKnown(v.dependents, t)
    requires Pagify(v, ranks, PAGE_SIZE, col, before).Ok?
    requires |before| <= i < |Pagify(v, ranks, PAGE_SIZE, col, before).value|
    ensures DraftPage(cfg, Pagify(v, ranks, PAGE_SIZE, col, before).value[i]).Ok?
  {
    hide View.Valid, Ready, Partition.NoLaunch, Closure.PlainDependents, SharedLabels.UnsharedRegions,
      Tables.TablesApart,
      Pagify, PageOk, DraftPage, ScanFrom, WellShaped, AllTokensFit, Closure.SelfContained, NoDup, Chained, DataInv,
      Placed, TableKnown, Tables.Whole;
    ReadyValid(v, ranks);
    PagifyLaws(v, ranks, PAGE_SIZE, col, before);
    Closure.PagifyContained(v, ranks, PAGE_SIZE, col, before);
    SharedLabels.UnsharedAccepted(v, ranks, PAGE_SIZE, col, before, i);
    Tables.PagifyWhole(v, ranks, PAGE_SIZE, col, before);
    var p := Pagify(v, ranks, PAGE_SIZE, col, before).value[i];
    PageLayout(v, PAGE_SIZE, col, p, i);
    PageTabled(v, p);
    Tables.JobsInside(v, p.jobs);
    LabelsInside(v, p.labels);
    PageTokensFit(v, PAGE_SIZE, col, cfg, p, i);
    DraftAccepts(v, PAGE_SIZE, col, cfg, p, i);
  }

  lemma PageTabled(v: View, p: Page)
    requires Tables.TablesApart(v) && NoDup(p.labels) && Tables.Whole(v.dependents, p.labels)
    ensures Tabled(v.dependents, p.labels)
  {
    hide Tables.Disjoint, Tables.Whole, NoDup, Tables.HeadOnly, Refs;
  }
}
