/** What the firmware reads for the operands of an encoded page, said from the page's own lines. */
module PageValues {
  import opened Base
  import opened Isa
  import opened Program
  import opened Structure
  import opened View
  import opened Pages
  import opened PageLaws
  import opened Serialize
  import opened PageImage
  import opened PageProofs
  import opened TextWalk

  // ---------- what an operand stands for ----------

  /** Token `k` is the line of label `l`, and `n` bytes of the page stand before it. */
  ghost predicate LabelAt(toks: seq<Token>, k: nat, l: Name, n: nat) {
    k < |toks| && toks[k] == Label(l) && n == PosAt(toks, k)
  }

  /** The number an operand stands for: itself, the address of a scratchpad, or where a label of the page stands. */
  ghost predicate Denotes(cfg: Config, toks: seq<Token>, a: Arg, n: nat) {
    match a
    case Num(x, _) => n == x
    case Ref(l) => if l in cfg.pads then n == cfg.pads[l] else exists k: nat :: LabelAt(toks, k, l, n)
    case _ => false
  }

  /** Operands that are registers, by the instruction set's names. */
  predicate IsRegister(op: Mnemonic, name: Operand) {
    || name in {NWaitHandle, NDest} || (op.Read32? && name.NValue?)
    || (op.Read32D? && name in {NAddress, NValue})
  }

  predicate IsBarrier(name: Operand) {
    name in {NLocalBarrierId, NRemoteBarrierId}
  }

  /** Operands that name the first page of a page label. */
  predicate IsPage(name: Operand) {
    name in {NSaveControlCodeOffset, NRestoreControlCodeOffset, NPdiHostAddrOffset, NCoreElfHostAddrOffset}
  }

  /** The firmware reads `got` in a slot of `width` bits for operand `a`. */
  ghost predicate Holds(cfg: Config, toks: seq<Token>, op: Mnemonic, slot: Slot, a: Arg, got: nat) {
    if IsRegister(op, slot.name) then a.Reg? && got == a.r % 0x100
    else if IsBarrier(slot.name) then a.Bar? && got == a.b % 0x100
    else if IsPage(slot.name) then a.Ref? && a.name in cfg.pageIndex && got == cfg.pageIndex[a.name] % 0x1_0000
    else exists n: nat :: Denotes(cfg, toks, a, n) && got == Stored(cfg, op, slot, n)
  }

  /** What a slot holds of a number: its low bits; for the offset of `apply_offset_57`, 0xFFFF when the number names the
      control code or its packet, and twice the number otherwise. */
  function Stored(cfg: Config, op: Mnemonic, slot: Slot, n: nat): nat {
    if op.ApplyOffset57? && slot.name.NOffset? then
      if n == 0xFFFF || n == cfg.controlPacket then 0xFFFF else 2 * n % 0x1_0000
    else n % Pow256(slot.width / 8)
  }

  /** An instruction as the firmware reads it holds the operands of its line, the `n`-th slot the `n`-th of them. The
      size slot of a `start_job` has no operand; `PageProofs.JobSizeExact` says what it holds. */
  ghost predicate ReadsLine(cfg: Config, toks: seq<Token>, line: Token, read: Instr) {
    && line.Isa? && read.op == line.op && |read.vals| == |Dispatch(line.op)|
    && forall n :: 0 <= n < |read.vals| && !Dispatch(line.op)[n].name.NSize? ==>
        n < |line.args| && Holds(cfg, toks, line.op, Dispatch(line.op)[n], line.args[n], read.vals[n])
  }

  // ---------- the table ----------

  /** The operands that are not padding. */
  function Proper(specs: seq<Spec>): (r: seq<Spec>)
    ensures |r| == Operands(specs)
  {
    if specs == [] then [] else (if specs[0].kind.Pad? then [] else [specs[0]]) + Proper(specs[1..])
  }

  lemma {:induction false} ProperPlaces(specs: seq<Spec>, off: nat)
    ensures var p, q := Proper(specs), TablePlaces(specs, off);
      |p| == |q| && forall n :: 0 <= n < |p| ==> q[n].name == p[n].name && q[n].width == p[n].width
  {
    if specs != [] {
      ProperPlaces(specs[1..], off + specs[0].width / 8);
    }
  }

  lemma {:induction false} ProperOnly(specs: seq<Spec>)
    ensures forall s :: s in Proper(specs) <==> s in specs && !s.kind.Pad?
  {
    if specs != [] {
      ProperOnly(specs[1..]);
      assert specs == [specs[0]] + specs[1..];
    }
  }

  lemma {:induction false} TruncatedAt(specs: seq<Spec>, vals: seq<nat>, n: nat)
    requires |vals| == Operands(specs) && n < |vals|
    ensures |Truncated(specs, vals)| == |vals|
    ensures Truncated(specs, vals)[n] == vals[n] % Pow256(Proper(specs)[n].width / 8)
  {
    hide Pow256;
    if specs != [] {
      var s, rest := specs[0], specs[1..];
      if s.kind.Pad? {
        TruncatedAt(rest, vals, n);
      } else if n > 0 {
        TruncatedAt(rest, vals[1..], n - 1);
      } else if |vals| > 1 {
        TruncatedAt(rest, vals[1..], 0);
      } else {
        NoneTruncated(rest, vals[1..]);
      }
    }
  }

  lemma {:induction false} NoneTruncated(specs: seq<Spec>, vals: seq<nat>)
    requires |vals| == Operands(specs) == 0
    ensures Truncated(specs, vals) == []
  {
    if specs != [] {
      NoneTruncated(specs[1..], vals);
    }
  }

  /** The `n`-th value is that of the `n`-th operand, counting from `k`, as long as all before it take one. */
  lemma {:induction false} ValueAt(env: Env, specs: seq<Spec>, args: seq<Arg>, k: nat, n: nat)
    requires Values(env, specs, args, k).Ok? && n < |Proper(specs)|
    requires forall i :: 0 <= i < n ==> !Proper(specs)[i].kind.JobSize?
    ensures n < |Values(env, specs, args, k).value|
    ensures OperandValue(env, Proper(specs)[n], args, k + n) == Ok(Values(env, specs, args, k).value[n])
    decreases |specs|
  {
    hide OperandValue;
    if specs != [] {
      var s, rest := specs[0], specs[1..];
      if s.kind.Pad? {
        assert Proper(specs) == Proper(rest);
        ValueAt(env, rest, args, k, n);
      } else if n > 0 {
        assert Proper(specs) == [s] + Proper(rest) && Proper(specs)[0] == s;
        forall i | 0 <= i < n - 1 ensures !Proper(rest)[i].kind.JobSize? {
          assert Proper(rest)[i] == Proper(specs)[i + 1];
        }
        ValueAt(env, rest, args, k + 1, n - 1);
      }
    }
  }

  /** The table's kinds are those of the names. */
  predicate KindsNamed(op: Mnemonic, s: Spec) {
    && (s.kind.Register? <==> IsRegister(op, s.name)) && (s.kind.Barrier? <==> IsBarrier(s.name))
    && (s.kind.PageId? <==> IsPage(s.name)) && (s.kind.JobSize? <==> s.name.NSize?)
    && (s.kind.Register? || s.kind.Barrier? ==> s.width == 8) && (s.kind.PageId? ==> s.width == 16)
    && (op.ApplyOffset57? && s.name.NOffset? ==> s.width == 16)
  }

  /** Operand `i` of the table, if there is one. */
  predicate KindAt(op: Mnemonic, i: nat) {
    i < |Args(op)| ==> Args(op)[i].kind.Pad? || KindsNamed(op, Args(op)[i])
  }

  lemma TableKind0(op: Mnemonic)
    ensures KindAt(op, 0)
  {}

  lemma TableKind1(op: Mnemonic)
    ensures KindAt(op, 1)
  {}

  lemma TableKind2(op: Mnemonic)
    ensures KindAt(op, 2)
  {}

  lemma TableKind3(op: Mnemonic)
    ensures KindAt(op, 3)
  {}

  lemma TableKind4(op: Mnemonic)
    ensures KindAt(op, 4)
  {}

  lemma TableKinds(op: Mnemonic)
    ensures forall s :: s in Args(op) ==> s.kind.Pad? || KindsNamed(op, s)
  {
    TableKind0(op);
    TableKind1(op);
    TableKind2(op);
    TableKind3(op);
    TableKind4(op);
    ArgCount(op);
    hide Args, KindsNamed;
    var specs := Args(op);
    forall s | s in specs ensures s.kind.Pad? || KindsNamed(op, s) {
      var i: nat :| i < |specs| && specs[i] == s;
      assert i == 0 || i == 1 || i == 2 || i == 3 || i == 4;
    }
  }

  /** A size operand is the last one. */
  lemma SizeLast(op: Mnemonic, n: nat)
    requires n < |Proper(Args(op))|
    ensures forall i :: 0 <= i < n ==> !Proper(Args(op))[i].kind.JobSize?
  {
    if op in {StartJob, StartJobDeferred} {
      var a := Args(op);
      assert a[1..][1..] == [a[2]] && a[1..][1..][1..] == [];
      assert Proper(a[1..][1..]) == [] && Proper(a[1..]) == [a[1]] && Proper(a) == [a[0]] + [a[1]];
    } else {
      NoSize(op);
      ProperOnly(Args(op));
      hide Args;
      assert forall i :: 0 <= i < n ==> Proper(Args(op))[i] in Proper(Args(op));
    }
  }

  lemma NoSize(op: Mnemonic)
    requires op !in {StartJob, StartJobDeferred}
    ensures forall s :: s in Args(op) ==> !s.kind.JobSize?
  {}

  // ---------- instruction operands ----------

  /** What the serializers see of a page whose tokens are `toks`. */
  ghost predicate SeesPage(cfg: Config, toks: seq<Token>, env: Env) {
    && env.pads == cfg.pads && env.pageIndex == cfg.pageIndex && env.controlPacket == cfg.controlPacket
    && forall l :: l in env.labels ==> LabelAt(toks, env.labels[l].index, l, env.labels[l].pos)
  }

  lemma ParseDenotes(cfg: Config, toks: seq<Token>, env: Env, a: Arg)
    requires SeesPage(cfg, toks, env) && ParseNum(env, a).Ok?
    ensures Denotes(cfg, toks, a, ParseNum(env, a).value)
  {
    hide LabelAt;
    if a.Ref? && a.name !in cfg.pads {
      assert LabelAt(toks, env.labels[a.name].index, a.name, env.labels[a.name].pos);
    }
  }

  lemma OperandHolds(cfg: Config, toks: seq<Token>, env: Env, op: Mnemonic, s: Spec, slot: Slot, args: seq<Arg>, n: nat)
    requires SeesPage(cfg, toks, env) && KindsNamed(op, s) && !s.kind.Pad? && !s.kind.JobSize?
    requires slot.name == s.name && slot.width == s.width && OperandValue(env, s, args, n).Ok?
    ensures var v := OperandValue(env, s, args, n).value;
      n < |args| && Holds(cfg, toks, op, slot, args[n],
        (if op.ApplyOffset57? && s.name.NOffset? then OffsetOperand(env, v) else v) % Pow256(s.width / 8))
  {
    hide Denotes, SeesPage, ParseNum, Pow256;
    Pow256Word();
    SeenConfig(cfg, toks, env);
    if s.kind.Const? {
      ParseDenotes(cfg, toks, env, args[n]);
      assert IsRegister(op, s.name) == IsBarrier(s.name) == IsPage(s.name) == false;
    }
  }

  lemma SeenConfig(cfg: Config, toks: seq<Token>, env: Env)
    requires SeesPage(cfg, toks, env)
    ensures env.pads == cfg.pads && env.pageIndex == cfg.pageIndex && env.controlPacket == cfg.controlPacket
  {
    hide LabelAt;
  }

  lemma ApplyNames(n: nat)
    requires n < |Proper(Args(ApplyOffset57))|
    ensures |Proper(Args(ApplyOffset57))| == 3 && (Proper(Args(ApplyOffset57))[n].name.NOffset? <==> n == 2)
  {
    var a := Args(ApplyOffset57);
    assert a[1..][1..] == [a[2]] && a[1..][1..][1..] == [];
    assert Proper(a[1..][1..]) == [a[2]] && Proper(a[1..]) == [a[1]] + [a[2]];
    assert Proper(a) == [a[0]] + ([a[1]] + [a[2]]);
  }

  /** The value kept for operand `n`. */
  lemma KeptValue(env: Env, op: Mnemonic, args: seq<Arg>, n: nat)
    requires InstrOf(env, op, args).Ok? && n < |Proper(Args(op))|
    ensures var i, s := InstrOf(env, op, args).value, Proper(Args(op))[n];
      && i.op == op && n < |i.vals| && OperandValue(env, s, args, n).Ok?
      && var v := OperandValue(env, s, args, n).value;
        i.vals[n] == if op.ApplyOffset57? && s.name.NOffset? then OffsetOperand(env, v) else v
  {
    hide Args, OperandValue, OffsetOperand, Proper, Values;
    SizeLast(op, n);
    ValueAt(env, Args(op), args, 0, n);
    if op.ApplyOffset57? {
      ApplyNames(n);
    }
  }

  lemma InstrReads(cfg: Config, toks: seq<Token>, env: Env, op: Mnemonic, args: seq<Arg>)
    requires SeesPage(cfg, toks, env) && InstrOf(env, op, args).Ok?
    ensures ReadsLine(cfg, toks, Token.Isa(op, args), AsRead(InstrOf(env, op, args).value))
  {
    hide Args, OperandValue, OffsetOperand, Proper, SeesPage, Holds, Dispatch, Truncated, TablePlaces, KindsNamed,
      InstrOf, Pow256;
    var i := InstrOf(env, op, args).value;
    StubsAgree(op);
    ProperPlaces(Args(op), 2);
    var read := AsRead(i);
    TruncatedLength(Args(op), i.vals);
    forall n | 0 <= n < |read.vals| && !Dispatch(op)[n].name.NSize?
      ensures n < |args| && Holds(cfg, toks, op, Dispatch(op)[n], args[n], read.vals[n])
    {
      var s := Proper(Args(op))[n];
      KeptValue(env, op, args, n);
      TruncatedAt(Args(op), i.vals, n);
      TableKinds(op);
      ProperOnly(Args(op));
      assert s in Proper(Args(op));
      NotSize(op, s);
      OperandHolds(cfg, toks, env, op, s, Dispatch(op)[n], args, n);
    }
  }

  lemma NotSize(op: Mnemonic, s: Spec)
    requires KindsNamed(op, s) && !s.name.NSize?
    ensures !s.kind.JobSize?
  {}

  lemma {:induction false} TruncatedLength(specs: seq<Spec>, vals: seq<nat>)
    requires |vals| == Operands(specs)
    ensures |Truncated(specs, vals)| == |vals|
  {
    if vals == [] {
      NoneTruncated(specs, vals);
    } else {
      TruncatedAt(specs, vals, 0);
    }
  }

  lemma {:induction false} LinesRead(cfg: Config, toks: seq<Token>, env: Env, lines: seq<Token>)
    requires SeesPage(cfg, toks, env) && InstrsOf(env, lines).Ok?
    ensures var prog := AllTruncated(InstrsOf(env, lines).value);
      |prog| == |lines| && forall k :: 0 <= k < |lines| ==> ReadsLine(cfg, toks, lines[k], prog[k])
  {
    hide InstrOf, SeesPage, ReadsLine, AsRead, Complete;
    if lines != [] {
      InstrReads(cfg, toks, env, lines[0].op, lines[0].args);
      LinesRead(cfg, toks, env, lines[1..]);
      FirstTruncated(InstrOf(env, lines[0].op, lines[0].args).value, InstrsOf(env, lines[1..]).value);
      FirstInstr(env, lines);
      var rest := AllTruncated(InstrsOf(env, lines[1..]).value);
      forall k | 1 <= k < |lines| ensures ReadsLine(cfg, toks, lines[k], rest[k - 1]) {
        assert lines[k] == lines[1..][k - 1];
      }
    }
  }

  lemma FirstTruncated(i: Instr, rest: seq<Instr>)
    requires Complete(i) && forall x :: x in rest ==> Complete(x)
    ensures AllTruncated([i] + rest) == [AsRead(i)] + AllTruncated(rest)
  {
    hide AsRead, Complete;
    assert ([i] + rest)[1..] == rest;
  }

  lemma PageSeen(v: View, size: nat, col: nat, cfg: Config, p: Page, num: nat)
    requires v.Valid() && PageOk(v, size, col, p, num) && DraftPage(cfg, p).Ok?
    ensures var s := ScanFrom(START, p.text + p.data, false);
      s.Ok? && SeesPage(cfg, p.text + p.data, EnvOf(cfg, s.value)) && s.value.labelList == p.labels
  {
    hide View.Valid, PageOk, ScanFrom, PosAt, JobsPlaced, DataInv, DraftPage;
    DraftText(cfg, p);
    PageLayout(v, size, col, p, num);
  }

  /** The firmware, stepping through the text of an encoded page, reads the instruction lines of the page's jobs one
      after another, each with the numbers its own operands stand for. */
  lemma PageReads(v: View, size: nat, col: nat, cfg: Config, p: Page, num: nat)
    requires v.Valid() && PageOk(v, size, col, p, num) && DraftPage(cfg, p).Ok?
    ensures var read, lines := Walk(DraftPage(cfg, p).value.text, 0), JobsToks(v, p.jobs);
      && read.Ok? && |read.value| == |lines|
      && forall k :: 0 <= k < |lines| ==> ReadsLine(cfg, p.text + p.data, lines[k], read.value[k])
  {
    hide *;
    PageTextWalks(v, size, col, cfg, p, num);
    PageSeen(v, size, col, cfg, p, num);
    LinesRead(cfg, p.text + p.data, EnvOf(cfg, ScanFrom(START, p.text + p.data, false).value), JobsToks(v, p.jobs));
  }
}
