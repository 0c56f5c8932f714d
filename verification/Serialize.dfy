/** Turning tokens into bytes (the serializers of ops.cpp). */
module Serialize {
  import opened Base
  import opened Isa
  import opened Program
  import opened Structure

  /** What a serializer sees: the page's own layout pass, pad addresses, pages of page labels. */
  datatype Env = Env(jobs: map<JobId, JobRec>, labels: map<Name, LabelRec>, labelList: seq<Name>,
                     pads: map<Name, u32>, pageIndex: map<Name, nat>, controlPacket: u32)

  /** A descriptor label whose address gets a pad's address added. */
  datatype PadPatch = PadPatch(pad: Name, bd: Name)

  /** What a relocation names: the control code itself, or the argument that an operand spells. */
  datatype RelocName = ControlCode | Spelled(arg: Arg)

  /** A descriptor whose address is filled in later: its offset in the page, and by what. */
  datatype Reloc = Reloc(name: RelocName, at: nat)

  /** Bytes of a token, relocations and pad patches it asks for. */
  datatype Emit = Emit(bytes: seq<u8>, relocs: seq<Reloc>, patches: seq<PadPatch>)

  /** `parse_num_arg`: pads first, then labels; an operand that is no number is left out of the model. */
  function ParseNum(env: Env, a: Arg): Result<nat> {
    match a
    case Num(n, _) => Ok(n)
    case Ref(l) =>
      if l in env.pads then Ok(env.pads[l]) else
      if l in env.labels then Ok(env.labels[l].pos) else Err(LabelNotFound)
    case _ => Err(BadOperand)
  }

  /** The value of the operand described by `spec`; `k` is the next unread argument. */
  function OperandValue(env: Env, spec: Spec, args: seq<Arg>, k: nat): Result<nat> {
    match spec.kind
    case Pad => Ok(0)
    case JobSize =>
      if args == [] || !args[0].Num? || Job(args[0].n, args[0].form) !in env.jobs then Err(Crash) else
      var r := env.jobs[Job(args[0].n, args[0].form)];
      if r.end < r.start then Err(Crash) else Ok(r.end - r.start)
    case PageId =>
      if k >= |args| || !args[k].Ref? then Err(BadOperand) else
      if args[k].name !in env.pageIndex then Err(InvalidAsm) else Ok(env.pageIndex[args[k].name])
    case Register => if k >= |args| || !args[k].Reg? then Err(BadOperand) else Ok(args[k].r % 0x100)
    case Barrier =>
      if k >= |args| || !args[k].Bar? then Err(BadOperand) else Ok(args[k].b % 0x100)
    case Const => if k >= |args| then Err(BadOperand) else ParseNum(env, args[k])
  }

  predicate TakesArg(kind: Kind) {
    !kind.Pad? && !kind.JobSize?
  }

  function Values(env: Env, specs: seq<Spec>, args: seq<Arg>, k: nat): (r: Result<seq<nat>>)
    ensures r.Ok? ==> |r.value| == Operands(specs)
  {
    if specs == [] then Ok([]) else
    var v :- OperandValue(env, specs[0], args, k);
    var rest :- Values(env, specs[1..], args, if TakesArg(specs[0].kind) then k + 1 else k);
    Ok(if specs[0].kind.Pad? then rest else [v] + rest)
  }

  /** The `offset` operand of `apply_offset_57`: 0xFFFF for the control packet or the control code
      itself, otherwise twice the argument index. */
  function OffsetOperand(env: Env, val: nat): nat {
    if val == env.controlPacket then 0xFFFF else if val == 0xFFFF then val else val * 2
  }

  /** Labels of the descriptor table of an `apply_offset_57`. */
  function Table(env: Env, args: seq<Arg>): (r: Result<seq<Name>>)
    ensures r.Ok? ==> |args| >= 3
  {
    if |args| < 3 || !args[0].Ref? then Err(BadOperand) else
    if args[0].name !in env.labelList then Err(LabelNotFound) else
    var n :- ParseNum(env, args[1]);
    var i := IndexOf(args[0].name, env.labelList);
    if i + n > |env.labelList| then Err(LabelNotFound) else Ok(env.labelList[i..i + n])
  }

  /** Offsets of the table's descriptors, looked up the way operands are. */
  function Positions(env: Env, table: seq<Name>): Result<seq<nat>> {
    if table == [] then Ok([]) else
    var at :- ParseNum(env, Ref(table[0]));
    var rest :- Positions(env, table[1..]);
    Ok([at] + rest)
  }

  /** The control code is named by 0xFFFF or by the index of the control packet. */
  function NameFor(env: Env, a: Arg, val: nat): RelocName {
    if val == env.controlPacket || val == 0xFFFF then ControlCode else Spelled(a)
  }

  function RelocsAt(name: RelocName, at: seq<nat>): (r: seq<Reloc>)
    ensures |r| == |at| && forall i :: 0 <= i < |at| ==> r[i] == Reloc(name, at[i])
  {
    seq(|at|, i requires 0 <= i < |at| => Reloc(name, at[i]))
  }

  function PadPatches(pad: Name, table: seq<Name>): seq<PadPatch> {
    if table == [] then [] else [PadPatch(pad, table[0])] + PadPatches(pad, table[1..])
  }

  /** An instruction line with its operands resolved. */
  function InstrOf(env: Env, op: Mnemonic, args: seq<Arg>): (r: Result<Instr>)
    ensures r.Ok? ==> r.value.op == op && Complete(r.value)
  {
    var vals :- Values(env, Args(op), args, 0);
    assert op.ApplyOffset57? ==> |vals| == Operands(Args(ApplyOffset57)) == 3;
    Ok(Instr(op, if op.ApplyOffset57? then vals[2 := OffsetOperand(env, vals[2])] else vals))
  }

  /** `isa_op_serializer::serialize`. */
  function EmitIsa(env: Env, op: Mnemonic, args: seq<Arg>): Result<Emit> {
    var instr :- InstrOf(env, op, args);
    if op != ApplyOffset57 then Ok(Emit(Encode(instr), [], [])) else
    var table :- Table(env, args);
    var at :- Positions(env, table);
    var val :- ParseNum(env, args[2]);
    var patches := if |args| == 4 && args[3].Ref?
      && args[3].name in env.pads then PadPatches(args[3].name, table) else [];
    Ok(Emit(Encode(instr), RelocsAt(NameFor(env, args[2], val), at), patches))
  }

  /** Local pointers are relative to the descriptor, modulo 2^32. */
  function LocalPointer(absolute: nat, pos: nat): u32 {
    (absolute - pos) % 0x1_0000_0000
  }

  /** `ucDmaBd_op_serializer::serialize`. */
  function EncodeBd(high: nat, low: nat, local: u32, size: nat, external: bool, next: bool): (b: seq<u8>)
    ensures |b| == 16
  {
    [size % 0x100, size / 0x100 % 0x80,
     (if next then 1 else 0) + (if external then 2 else 0) + 4, 0]
    + Bytes(local, 4) + Bytes(low, 4)
    + [high % 0x100, high / 0x100 % 0x100, high / 0x1_0000 % 0x100, high / 0x100_0000 % 0x20]
  }

  function EmitBd(env: Env, bd: seq<Arg>, pos: nat): Result<Emit> {
    if |bd| < 6 then Err(BadOperand) else
    var high :- ParseNum(env, bd[0]);
    var low :- ParseNum(env, bd[1]);
    var local :- ParseNum(env, bd[2]);
    var size :- ParseNum(env, bd[3]);
    var external :- ParseNum(env, bd[4]);
    var next :- ParseNum(env, bd[5]);
    Ok(Emit(EncodeBd(high, low, LocalPointer(local, pos), size, external != 0, next != 0), [], []))
  }

  /** One token serialized at `pos`; labels emit nothing. */
  function EmitTok(env: Env, t: Token, pos: nat): Result<Emit> {
    match t
    case Label(_) => Ok(Emit([], [], []))
    case Isa(op, args) => EmitIsa(env, op, args)
    case Long(val) => var n :- ParseNum(env, val); Ok(Emit(Bytes(n, 4), [], []))
    case UcDmaBd(bd) => EmitBd(env, bd, pos)
    case Align(n) => Ok(Emit(seq(AlignGap(pos, n), _ => 0xA5), [], []))
    case Eop => Err(InvalidOperation)
  }

  function Glue(a: Emit, b: Emit): Emit {
    Emit(a.bytes + b.bytes, a.relocs + b.relocs, a.patches + b.patches)
  }

  /** A run of tokens, each serialized at the offset reached so far. */
  function EmitAll(env: Env, toks: seq<Token>, pos: nat): Result<Emit>
    decreases |toks|
  {
    if toks == [] then Ok(Emit([], [], [])) else
    var e :- EmitTok(env, toks[0], pos);
    var rest :- EmitAll(env, toks[1..], pos + |e.bytes|);
    Ok(Glue(e, rest))
  }

  // ---------- size prediction is exact ----------

  lemma EmitIsaSize(env: Env, op: Mnemonic, args: seq<Arg>)
    ensures var e := EmitIsa(env, op, args); e.Ok? ==> |e.value.bytes| == OpSize(op)
  {
    StubsAgree(op);
    hide Values, Table, Args, Encode, Dispatch, FirmwareOp, Code;
  }

  /** Each serializer emits exactly as many bytes as its `size` promised. */
  lemma EmitTokSize(env: Env, t: Token, pos: nat)
    ensures var e := EmitTok(env, t, pos); e.Ok? ==> |e.value.bytes| == SizeAt(t, pos)
  {
    if t.Isa? {
      EmitIsaSize(env, t.op, t.args);
    }
    hide EmitIsa, ParseNum, EncodeBd;
  }

  /** The emitted length is the length the layout pass computed, wherever it started. */
  lemma {:induction false} EmitAllSize(env: Env, toks: seq<Token>, pos: nat)
    ensures var e := EmitAll(env, toks, pos); e.Ok? ==> pos + |e.value.bytes| == EndPos(toks, pos)
    decreases |toks|
  {
    hide EmitTok, SizeAt;
    if toks != [] {
      EmitTokSize(env, toks[0], pos);
      var e := EmitTok(env, toks[0], pos);
      if e.Ok? {
        EmitAllSize(env, toks[1..], pos + |e.value.bytes|);
      }
    }
  }

  lemma {:induction false} EmitAllAppend(env: Env, a: seq<Token>, b: seq<Token>, pos: nat)
    ensures var r, x := EmitAll(env, a + b, pos), EmitAll(env, a, pos);
      if x.Err? then r == x else
      var y := EmitAll(env, b, pos + |x.value.bytes|);
      if y.Err? then r == y else r == Ok(Glue(x.value, y.value))
    decreases |a|
  {
    hide EmitTok;
    if a == [] {
      assert a + b == b;
      var y := EmitAll(env, b, pos);
      if y.Ok? {
        assert Glue(Emit([], [], []), y.value) == y.value;
      }
    } else {
      assert (a + b)[1..] == a[1..] + b;
      var e := EmitTok(env, a[0], pos);
      if e.Ok? {
        EmitAllAppend(env, a[1..], b, pos + |e.value.bytes|);
        var x := EmitAll(env, a[1..], pos + |e.value.bytes|);
        if x.Ok? {
          var y := EmitAll(env, b, pos + |e.value.bytes| + |x.value.bytes|);
          if y.Ok? {
            GlueAssoc(e.value, x.value, y.value);
          }
        }
      }
    }
  }

  lemma GlueAssoc(a: Emit, b: Emit, c: Emit)
    ensures Glue(Glue(a, b), c) == Glue(a, Glue(b, c))
  {
    assert a.bytes + b.bytes + c.bytes == a.bytes + (b.bytes + c.bytes);
    assert a.relocs + b.relocs + c.relocs == a.relocs + (b.relocs + c.relocs);
    assert a.patches + b.patches + c.patches == a.patches + (b.patches + c.patches);
  }

  /** Two-pass agreement: token `k` of a page is written at exactly the offset the layout pass gave
      it, and there the output holds that token's own bytes. */
  lemma TokenOffset(env: Env, toks: seq<Token>, k: nat)
    requires k < |toks| && EmitAll(env, toks, 0).Ok?
    ensures var out, at := EmitAll(env, toks, 0).value.bytes, PosAt(toks, k);
      var e := EmitTok(env, toks[k], at);
      && e.Ok? && at + |e.value.bytes| == PosAt(toks, k + 1) <= |out|
      && out[at..at + |e.value.bytes|] == e.value.bytes
  {
    hide EmitTok, SizeAt, EmitAll;
    var a, c := toks[..k], toks[k + 1..];
    var at := PosAt(toks, k);
    assert toks == a + ([toks[k]] + c);
    EmitAllAppend(env, a, [toks[k]] + c, 0);
    EmitAllSize(env, a, 0);
    EmitAllAppend(env, [toks[k]], c, at);
    EmitOne(env, toks[k], at);
    EmitTokSize(env, toks[k], at);
    PosAtNext(toks, k);
  }

  lemma EmitOne(env: Env, t: Token, pos: nat)
    ensures EmitAll(env, [t], pos) == EmitTok(env, t, pos)
  {
    hide EmitTok;
    assert [t][1..] == [];
    var e := EmitTok(env, t, pos);
    if e.Ok? {
      assert Glue(e.value, Emit([], [], [])) == e.value;
    }
  }
}
