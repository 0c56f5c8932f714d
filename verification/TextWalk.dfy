/** What the firmware reads when it steps through the text of a page that the writer produced. */
module TextWalk {
  import opened Base
  import opened Isa
  import opened Program
  import opened Structure
  import opened View
  import opened Pages
  import opened PageLaws
  import opened Serialize
  import opened PageImage
  import opened PageProofs

  /** The instructions of a list of instruction lines, their operands resolved as the page resolves them. */
  function InstrsOf(env: Env, toks: seq<Token>): (r: Result<seq<Instr>>)
    ensures r.Ok? ==> forall i :: i in r.value ==> Complete(i)
  {
    if toks == [] then Ok([]) else
    if !toks[0].Isa? then Err(InvalidOperation) else
    var i :- InstrOf(env, toks[0].op, toks[0].args);
    var rest :- InstrsOf(env, toks[1..]);
    Ok([i] + rest)
  }

  /** Instruction lines other than `eof`. */
  predicate Lines(toks: seq<Token>) {
    forall t :: t in toks ==> t.Isa? && t.op != Eof
  }

  lemma EmitIsaBytes(env: Env, op: Mnemonic, args: seq<Arg>)
    requires EmitIsa(env, op, args).Ok?
    ensures var i := InstrOf(env, op, args); i.Ok? && EmitIsa(env, op, args).value.bytes == Encode(i.value)
  {
    hide InstrOf, Encode, Table, Positions;
  }

  /** What is written for instruction lines are the encoded instructions. */
  lemma {:induction false} EmitsInstrs(env: Env, toks: seq<Token>, pos: nat)
    requires EmitAll(env, toks, pos).Ok? && Lines(toks)
    ensures var r := InstrsOf(env, toks);
      r.Ok? && EmitAll(env, toks, pos).value.bytes == EncodeAll(r.value)
    decreases |toks|
  {
    hide *;
    if toks == [] {
      NothingEncoded();
      NothingEmitted(env, pos);
      NoInstrs(env);
    } else {
      var t, rest := toks[0], toks[1..];
      FirstLine(toks);
      EmitFirst(env, toks, pos);
      EmitIsaBytes(env, t.op, t.args);
      EmitsInstrs(env, rest, pos + |EmitIsa(env, t.op, t.args).value.bytes|);
      FirstInstr(env, toks);
      EncodeFirst(InstrOf(env, t.op, t.args).value, InstrsOf(env, rest).value);
    }
  }

  lemma FirstLine(toks: seq<Token>)
    requires Lines(toks) && toks != []
    ensures toks[0].Isa? && toks[0].op != Eof && Lines(toks[1..])
  {
    assert toks[0] in toks;
  }

  lemma {:induction false} NoEofAmong(env: Env, toks: seq<Token>)
    requires Lines(toks) && InstrsOf(env, toks).Ok?
    ensures forall i :: i in InstrsOf(env, toks).value ==> i.op != Eof
  {
    hide InstrOf, Complete;
    if toks != [] {
      assert toks[0] in toks;
      NoEofAmong(env, toks[1..]);
    }
  }

  lemma NoInstrs(env: Env)
    ensures InstrsOf(env, []) == Ok([])
  {}

  lemma FirstInstr(env: Env, toks: seq<Token>)
    requires toks != [] && toks[0].Isa? && InstrsOf(env, toks[1..]).Ok?
    requires InstrOf(env, toks[0].op, toks[0].args).Ok?
    ensures var i := InstrOf(env, toks[0].op, toks[0].args).value;
      Complete(i) && i.op == toks[0].op && InstrsOf(env, toks) == Ok([i] + InstrsOf(env, toks[1..]).value)
  {
    hide InstrOf, Complete;
  }

  lemma NothingEmitted(env: Env, pos: nat)
    ensures EmitAll(env, [], pos) == Ok(Emit([], [], []))
  {}

  lemma EmitFirst(env: Env, toks: seq<Token>, pos: nat)
    requires toks != [] && toks[0].Isa? && EmitAll(env, toks, pos).Ok?
    ensures var e := EmitIsa(env, toks[0].op, toks[0].args);
      && e.Ok? && EmitAll(env, toks[1..], pos + |e.value.bytes|).Ok?
      && EmitAll(env, toks, pos).value.bytes
        == e.value.bytes + EmitAll(env, toks[1..], pos + |e.value.bytes|).value.bytes
  {
    hide EmitIsa;
  }

  lemma NothingEncoded()
    ensures EncodeAll([]) == []
  {}

  lemma EncodeFirst(i: Instr, rest: seq<Instr>)
    requires Complete(i) && forall x :: x in rest ==> Complete(x)
    ensures EncodeAll([i] + rest) == Encode(i) + EncodeAll(rest)
  {
    hide Encode;
    assert ([i] + rest)[1..] == rest;
  }

  lemma {:induction false} JobLines(v: View, jobs: seq<JobId>)
    requires v.Valid() && Ordinary(v, jobs)
    ensures Lines(JobsToks(v, jobs))
  {
    hide View.Valid, View.JobToks, Segment.Toks, Segment.Valid, SegOf;
    if jobs != [] {
      SegOfJob(v, jobs[0]);
      SegLines(SegOf(v.JobToks(jobs[0])));
      JobLines(v, jobs[1..]);
    }
  }

  lemma SegLines(g: Segment)
    requires g.JobSeg? && g.Valid()
    ensures Lines(g.Toks())
  {}

  lemma EofBytes(env: Env)
    ensures EmitIsa(env, Eof, []).Ok? && Complete(EOF_INSTR)
      && EmitIsa(env, Eof, []).value.bytes == Encode(EOF_INSTR)
  {
    hide Encode;
    EofComplete();
    var a := Args(Eof);
    assert |a| == 1 && a[1..] == [];
    assert Values(env, [], [], 0) == Ok([]);
    assert Values(env, a, [], 0) == Ok([]);
  }

  /** A list with `eof` in it, emitted in three parts. */
  lemma EmitThree(env: Env, a: seq<Token>, tail: seq<Token>) returns (rest: seq<u8>)
    requires EmitAll(env, a + ([EOF] + tail), 0).Ok?
    ensures EmitAll(env, a, 0).Ok? && Complete(EOF_INSTR)
    ensures EmitAll(env, a + ([EOF] + tail), 0).value.bytes
      == EmitAll(env, a, 0).value.bytes + (Encode(EOF_INSTR) + rest)
  {
    hide EmitAll, Encode, EmitTok, Complete;
    EmitAllAppend(env, a, [EOF] + tail, 0);
    var n := |EmitAll(env, a, 0).value.bytes|;
    EmitAllAppend(env, [EOF], tail, n);
    EofEmitted(env, n);
    rest := EmitAll(env, tail, n + |Encode(EOF_INSTR)|).value.bytes;
  }

  lemma EofEmitted(env: Env, pos: nat)
    ensures Complete(EOF_INSTR) && EmitAll(env, [EOF], pos).Ok?
    ensures EmitAll(env, [EOF], pos).value.bytes == Encode(EOF_INSTR)
  {
    hide EmitAll, Encode, EmitIsa, Complete;
    EmitOne(env, EOF, pos);
    EofBytes(env);
  }

  /** The text of an encoded page, stepped through by opcode size from its first byte to its `eof`, is read as the
      instructions of the page's jobs, every operand resolved and truncated to its field. */
  lemma PageTextWalks(v: View, size: nat, col: nat, cfg: Config, p: Page, num: nat)
    requires v.Valid() && PageOk(v, size, col, p, num) && DraftPage(cfg, p).Ok?
    ensures var s, d := ScanFrom(START, p.text + p.data, false), DraftPage(cfg, p).value;
      && s.Ok?
      && var prog := InstrsOf(EnvOf(cfg, s.value), JobsToks(v, p.jobs));
        prog.Ok? && Walk(d.text, 0) == Ok(AllTruncated(prog.value))
  {
    hide *;
    DraftText(cfg, p);
    var env := EnvOf(cfg, ScanFrom(START, p.text + p.data, false).value);
    var tail := PageTail(v, size, col, p, num);
    var jobs := JobsToks(v, p.jobs);
    JobLines(v, p.jobs);
    var rest := EmitThree(env, jobs, tail);
    EmitsInstrs(env, jobs, 0);
    NoEofAmong(env, jobs);
    WalkRecoversProgram(InstrsOf(env, jobs).value, rest);
  }

  lemma DraftText(cfg: Config, p: Page)
    requires DraftPage(cfg, p).Ok?
    ensures var s := ScanFrom(START, p.text + p.data, false);
      && s.Ok? && EmitAll(EnvOf(cfg, s.value), p.text, 0).Ok?
      && EmitAll(EnvOf(cfg, s.value), p.text, 0).value.bytes == DraftPage(cfg, p).value.text
  {
    hide ScanFrom, EmitAll, FixesOf, DropEof;
  }

  lemma PageTail(v: View, size: nat, col: nat, p: Page, num: nat) returns (tail: seq<Token>)
    requires PageOk(v, size, col, p, num)
    ensures p.text == JobsToks(v, p.jobs) + ([EOF] + tail) && Ordinary(v, p.jobs)
  {
    hide JobsToks, LabelsToks, JobsSize, LabelsSize, Gap, RoundUp4, Footprint, LabelsSorted, Ordinary, Aligned;
    tail := if Gap(v, p) > 0 then [Align(16)] else [];
    Assoc(JobsToks(v, p.jobs), [EOF], tail);
  }
}
