/** The AIE2 transaction assembler (`aie2_asm_preprocessor_input::encode`) and the printer that undoes
    it (`stringify_txn`), at token level. */
module TxnAsm {
  import opened Base
  import opened TxnLayout

  /** A line: a mnemonic with its numbers, a numbered payload line of a block write, or text no
      mnemonic matches. */
  datatype Line = Op(op: Opcode, args: seq<nat>) | Ext(k: nat, val: nat) | Garbled

  /** A program and how many columns its directives attach it to. */
  datatype Asm = Asm(cols: nat, lines: seq<Line>)

  /** Lines before any directive belong to column 0, so a text without directives has one column. */
  function Columns(p: Asm): nat {
    if p.cols == 0 then 1 else p.cols
  }

  /** An operation: its operand values and the payload words of a block write. */
  datatype Instr = Instr(op: Opcode, vals: seq<nat>, words: seq<u32>)

  // ---------- one operation ----------

  /** Mnemonics the assembler knows. */
  predicate Known(op: Opcode) {
    op !in {CreateScratchpad, UpdateStateTable, UpdateReg, UpdateScratch, ReadRegs}
  }

  /** Largest value `to_uinteger` or the keyword tables accept for an operand. */
  function Limit(op: Opcode, k: nat): nat {
    match op
    case Write => if k == 0 then 0xFFFF_FFFF_FFFF_FFFF else 0xFFFF_FFFF
    case BlockWrite => 0xFFFF_FFFF_FFFF_FFFF
    case MaskWrite => if k == 0 then 0xFFFF_FFFF_FFFF_FFFF else 0xFFFF_FFFF
    case MaskPoll => if k == 0 then 0xFFFF_FFFF_FFFF_FFFF else 0xFFFF_FFFF
    case MaskPollBusy => if k == 0 then 0xFFFF_FFFF_FFFF_FFFF else 0xFFFF_FFFF
    case Preempt => 4
    case LoadPdi => if k < 2 then 0xFFFF else 0xFFFF_FFFF_FFFF_FFFF
    case LoadPmStart => 0xFFFF_FFFF
    case Tct => if k < 4 then 0xFF else if k == 4 then 1 else 0xFFFF_FFFF
    case MergeSync => 0xFF
    case _ => 0xFFFF_FFFF_FFFF_FFFF
  }

  /** Operands as the fields can hold them; too large a number is refused. */
  function Operand(l: Layout, op: Opcode, args: seq<nat>, k: nat): Result<nat>
    requires l.Valid() && k < Operands(op) && Operands(op) <= |args|
  {
    assert l.OpValid(op);
    if args[k] > Limit(op, k) then Err(BadOperand) else Ok(args[k] % Pow256(l.fields(op)[k].width))
  }

  function OperandsFrom(l: Layout, op: Opcode, args: seq<nat>, k: nat): (r: Result<seq<nat>>)
    requires l.Valid() && k <= Operands(op) <= |args|
    ensures r.Ok? ==> |r.value| == Operands(op) - k
    decreases Operands(op) - k
  {
    if k == Operands(op) then Ok([]) else
    var v :- Operand(l, op, args, k);
    var rest :- OperandsFrom(l, op, args, k + 1);
    Ok([v] + rest)
  }

  /** The constructor an operation's mnemonic selects; a block write starts with a zero payload. */
  function Assemble(l: Layout, op: Opcode, args: seq<nat>): Result<Instr>
    requires l.Valid()
  {
    if !Known(op) then Err(InvalidAsm) else
    if |args| < Operands(op) || (op.BlockWrite? && |args| < 2) then Err(BadOperand) else
    var vals :- OperandsFrom(l, op, args, 0);
    if !op.BlockWrite? then Ok(Instr(op, vals, [])) else
    if args[1] >= P32 then Err(BadOperand) else Ok(Instr(op, vals, seq(args[1], _ => 0)))
  }

  // ---------- the line loop ----------

  /** Operations so far, and how many payload lines the last one still expects. */
  datatype State = State(ops: seq<Instr>, outstanding: nat)

  function AsmStep(l: Layout, s: State, line: Line): Result<State>
    requires l.Valid()
  {
    if s.ops != [] && s.outstanding > 0 then
      var last := s.ops[|s.ops| - 1];
      if !line.Ext? || s.outstanding > |last.words| || line.k != |last.words| - s.outstanding || line.val >= P32
        then Err(InvalidAsm) else
      Ok(State(s.ops[|s.ops| - 1 := last.(words := last.words[line.k := line.val])], s.outstanding - 1))
    else if !line.Op? then Err(InvalidAsm)
    else
      var i :- Assemble(l, line.op, line.args);
      Ok(State(s.ops + [i], |i.words|))
  }

  function AsmLines(l: Layout, s: State, lines: seq<Line>): Result<State>
    requires l.Valid()
    decreases |lines|
  {
    if lines == [] then Ok(s) else
    var s' :- AsmStep(l, s, lines[0]);
    AsmLines(l, s', lines[1..])
  }

  // ---------- bytes ----------

  function PutAll(b: seq<u8>, fields: seq<Field>, vals: seq<nat>): (r: seq<u8>)
    requires |fields| == |vals| && forall i :: 0 <= i < |fields| ==> fields[i].at + fields[i].width <= |b|
    ensures |r| == |b|
    decreases |fields|
  {
    if fields == [] then b else PutAll(Put(b, fields[0], vals[0]), fields[1..], vals[1..])
  }

  function WordBytesOf(words: seq<u32>): (b: seq<u8>)
    ensures |b| == 4 * |words|
  {
    if words == [] then [] else Bytes(words[0], 4) + WordBytesOf(words[1..])
  }

  predicate Shaped(i: Instr) {
    |i.vals| == Operands(i.op) && (!i.op.BlockWrite? ==> i.words == [])
  }

  function OpBytes(l: Layout, i: Instr): nat {
    l.span(i.op) + 4 * |i.words|
  }

  lemma FieldsFit(l: Layout, op: Opcode)
    requires l.Valid()
    ensures |l.fields(op)| == Operands(op) && l.op < l.span(op)
    ensures forall i :: 0 <= i < |l.fields(op)| ==> l.fields(op)[i].at + l.fields(op)[i].width <= l.span(op)
    ensures !FixedSize(op) ==> l.size(op).width == 4 && l.size(op).at + 4 <= l.span(op)
  {
    assert l.OpValid(op);
    forall i | 0 <= i < |l.fields(op)| ensures l.fields(op)[i].at + l.fields(op)[i].width <= l.span(op) {
      assert l.FieldValid(op, l.fields(op)[i]);
    }
  }

  /** The storage of an operation: zeros, opcode, operand fields, its size, then the payload. */
  function Build(l: Layout, i: Instr): (b: seq<u8>)
    requires l.Valid() && Shaped(i)
    ensures |b| == OpBytes(l, i)
  {
    FieldsFit(l, i.op);
    var zeros := seq(l.span(i.op), _ => 0 as u8);
    var tagged := Put(zeros, Field(l.op, 1), l.code(i.op));
    var sized := if FixedSize(i.op) then tagged else Put(tagged, l.size(i.op), OpBytes(l, i));
    PutAll(sized, l.fields(i.op), i.vals) + WordBytesOf(i.words)
  }

  function BuildAll(l: Layout, ops: seq<Instr>): seq<u8>
    requires l.Valid() && forall i :: 0 <= i < |ops| ==> Shaped(ops[i])
  {
    if ops == [] then [] else Build(l, ops[0]) + BuildAll(l, ops[1..])
  }

  lemma HeaderFields(l: Layout)
    requires l.Valid()
    ensures |l.template| == l.header
    ensures l.numCols.at + l.numCols.width <= l.header && l.txnSize.at + l.txnSize.width <= l.header
      && l.numOps.at + l.numOps.width <= l.header
  {}

  function Header(l: Layout, cols: nat, size: nat, n: nat): (h: seq<u8>)
    requires l.Valid()
    ensures |h| == l.header
  {
    HeaderFields(l);
    Put(Put(Put(l.template, l.numCols, cols), l.txnSize, size), l.numOps, n)
  }

  /** `encode`: the lines, then the header patched with the final size and count; a program without
      lines has no page label and is refused. */
  function Encode(l: Layout, p: Asm): Result<seq<u8>>
    requires l.Valid()
  {
    if p.lines == [] then Err(InvalidAsm) else
    var s :- AsmLines(l, State([], 0), p.lines);
    if !ShapedAll(s.ops) then Err(Crash) else
    var body := BuildAll(l, s.ops);
    Ok(Header(l, Columns(p), l.header + |body|, |s.ops|) + body)
  }

  predicate ShapedAll(ops: seq<Instr>) {
    forall i :: 0 <= i < |ops| ==> Shaped(ops[i])
  }

  // ---------- reading back ----------

  /** Words of a payload. */
  function Words(b: seq<u8>, at: nat, n: nat): (r: seq<u32>)
    requires at + 4 * n <= |b|
    ensures |r| == n
    decreases n
  {
    if n == 0 then [] else
    WordBound(b[at..at + 4]);
    [Value(b[at..at + 4])] + Words(b, at + 4, n - 1)
  }

  /** Word `k` of a payload. */
  lemma {:induction false} WordsRead(b: seq<u8>, at: nat, n: nat, k: nat)
    requires at + 4 * n <= |b| && k < n
    ensures Words(b, at, n)[k] == Value(b[at + 4 * k..at + 4 * k + 4])
    decreases n
  {
    hide Value;
    if k > 0 {
      WordsRead(b, at + 4, n - 1, k - 1);
      assert at + 4 + 4 * (k - 1) == at + 4 * k;
    }
  }

  /** Operations the analyzer's walks know; the others stop them. */
  predicate Walked(op: Opcode) {
    Known(op) || op.ReadRegs?
  }

  /** One operation of the print loop, and how far it advances. */
  function ReadOp(l: Layout, b: seq<u8>, at: nat): Result<(Instr, nat)>
    requires l.Valid()
  {
    if at + l.op >= |b| then Err(Crash) else
    match l.opcodeOf(b[at + l.op])
    case None => Err(InvalidOperation)
    case Some(o) =>
      if !Walked(o) then Err(InvalidOperation) else
      if at + l.span(o) > |b| then Err(Crash) else
      FieldsFit(l, o);
      var vals := GetAll(b, at, l.fields(o));
      var len := if FixedSize(o) then l.span(o) else Get(b, at, l.size(o));
      if !o.BlockWrite? then Ok((Instr(o, vals, []), len)) else
      if len < l.span(o) then Err(Crash) else
      var n := (len - l.span(o)) / 4;
      if at + l.span(o) + 4 * n > |b| then Err(Crash) else
      Ok((Instr(o, vals, Words(b, at + l.span(o), n)), len))
  }

  /** The loop over `n` operations: what was read, where each started, and where the last one ended. */
  function ReadOps(l: Layout, b: seq<u8>, at: nat, n: nat): Result<(seq<Instr>, seq<nat>, nat)>
    requires l.Valid()
    decreases n
  {
    if n == 0 then Ok(([], [], at)) else
    var r :- ReadOp(l, b, at);
    var rest :- ReadOps(l, b, at + r.1, n - 1);
    Ok(([r.0] + rest.0, [at] + rest.1, rest.2))
  }

  /** One operation of the counting loop: it only looks at the opcode and, where there is one, at the size. */
  function SkipOp(l: Layout, b: seq<u8>, at: nat): Result<(Opcode, nat)>
    requires l.Valid()
  {
    if at + l.op >= |b| then Err(Crash) else
    match l.opcodeOf(b[at + l.op])
    case None => Err(InvalidOperation)
    case Some(o) =>
      if !Walked(o) then Err(InvalidOperation) else
      if FixedSize(o) then Ok((o, l.span(o))) else
      if at + l.size(o).at + l.size(o).width > |b| then Err(Crash) else Ok((o, Get(b, at, l.size(o))))
  }

  /** The counting loop over `n` operations: their opcodes, and where the last one ended. */
  function SkipOps(l: Layout, b: seq<u8>, at: nat, n: nat): Result<(seq<Opcode>, nat)>
    requires l.Valid()
    decreases n
  {
    if n == 0 then Ok(([], at)) else
    var o :- SkipOp(l, b, at);
    var rest :- SkipOps(l, b, at + o.1, n - 1);
    Ok(([o.0] + rest.0, rest.1))
  }

  function ExtLines(words: seq<u32>, k: nat): seq<Line>
    decreases |words|
  {
    if words == [] then [] else [Ext(k, words[0])] + ExtLines(words[1..], k + 1)
  }

  /** The text of an operation; a PDI load and a register read print text nothing parses. */
  function LinesOf(i: Instr): seq<Line>
    requires Shaped(i)
  {
    match i.op
    case LoadPdi => [Garbled]
    case ReadRegs => [Garbled]
    case BlockWrite => [Op(BlockWrite, i.vals + [|i.words|])] + ExtLines(i.words, 0)
    case Tct => [Op(Tct, i.vals[4 := if i.vals[4] != 0 then 1 else 0])]
    case _ => [Op(i.op, i.vals)]
  }

  function AllLines(ops: seq<Instr>): seq<Line>
    requires ShapedAll(ops)
  {
    if ops == [] then [] else LinesOf(ops[0]) + AllLines(ops[1..])
  }

  /** Preemption levels index a table of five names. */
  predicate Printable(i: Instr) {
    Shaped(i) && (i.op.Preempt? ==> i.vals[0] <= 4) && Walked(i.op)
  }

  /** The printer: the constructor's size check, then the column directives and the operations. */
  function Print(l: Layout, b: seq<u8>): Result<Asm>
    requires l.Valid()
  {
    if l.header > |b| then Err(Crash) else
    HeaderFields(l);
    if Get(b, 0, l.txnSize) != |b| then Err(InvalidAsm) else
    if Get(b, 0, l.major) == 1 && Get(b, 0, l.minor) == 0 then Err(InvalidOperation) else
    var r :- ReadOps(l, b, l.header, Get(b, 0, l.numOps));
    if !ShapedAll(r.0) || exists i :: 0 <= i < |r.0| && !Printable(r.0[i]) then Err(Crash) else
    Ok(Asm(Get(b, 0, l.numCols), AllLines(r.0)))
  }
}
