/** Binary layout of AIE2 transactions. The headers come from a library that is not part of this
    model, so offsets and sizes are parameters, constrained as C structures are. */
module TxnLayout {
  import opened Base

  const P32: nat := 0x1_0000_0000

  lemma WordBound(b: seq<u8>)
    requires |b| == 4
    ensures Value(b) < P32
  {
    ValueBytes(b);
    Pow256Word();
  }

  datatype Opcode =
    | Write | BlockWrite | MaskWrite | MaskPoll | MaskPollBusy | Noop | Preempt | LoadPdi | LoadPmStart
    | CreateScratchpad | UpdateStateTable | UpdateReg | UpdateScratch
    | Tct | DdrPatch | ReadRegs | RecordTimer | MergeSync

  /** A little-endian field: offset from the start of its structure, and width in bytes. */
  datatype Field = Field(at: nat, width: nat) {
    predicate Apart(other: Field) {
      at + width <= other.at || other.at + other.width <= at
    }
  }

  /** Operations that advance by their header's size; all others by their own `Size` field. */
  predicate FixedSize(op: Opcode) {
    op in {Noop, Preempt, LoadPdi, LoadPmStart, CreateScratchpad, UpdateStateTable, UpdateReg, UpdateScratch}
  }

  /** How many operand fields an operation has, in the order of its assembly operands. */
  function Operands(op: Opcode): nat {
    match op
    case Write => 2          // register, value
    case BlockWrite => 1     // register
    case MaskWrite => 3      // register, mask, value
    case MaskPoll => 3
    case MaskPollBusy => 3
    case Noop => 0
    case Preempt => 1        // level
    case LoadPdi => 3        // id, size, address
    case LoadPmStart => 2    // sequence count, id
    case CreateScratchpad => 2 // size, offset
    case UpdateStateTable => 0
    case UpdateReg => 0
    case UpdateScratch => 0
    case Tct => 6            // row, row count, column, column count, direction, channel
    case DdrPatch => 3       // register, argument index, addend
    case ReadRegs => 0
    case RecordTimer => 1    // id
    case MergeSync => 2      // column, tokens
  }

  /** Offsets and sizes: transaction header, its constant bytes and its fields, the opcode byte, each
      operation's fixed part, its `Size` field and its operand fields. */
  datatype Layout = Layout(header: nat, template: seq<u8>, major: Field, minor: Field, numCols: Field, txnSize: Field,
                           numOps: Field, op: nat,
                           code: Opcode -> u8, opcodeOf: u8 -> Option<Opcode>,
                           span: Opcode -> nat, size: Opcode -> Field, fields: Opcode -> seq<Field>) {
    ghost predicate Valid() {
      && (forall o :: opcodeOf(code(o)) == Some(o))
      && (forall c, o :: opcodeOf(c) == Some(o) ==> c == code(o))
      && (forall o :: OpValid(o)) && |fields(BlockWrite)| == 1 && fields(BlockWrite)[0].width == 4
      && header % 4 == 0 && header > 0 && HeaderValid()
    }

    /** The constant bytes carry version 0.1 and leave the three variable fields alone. */
    ghost predicate HeaderValid() {
      && |template| == header && major.at + major.width <= header && minor.at + minor.width <= header
      && Get(template, 0, major) == 0 && Get(template, 0, minor) == 1
      && (forall f :: f in {numCols, txnSize, numOps} ==> f.Apart(major) && f.Apart(minor))
      && numCols.width == 1 && txnSize.width == 4 && numOps.width == 4
      && numCols.at + 1 <= header && txnSize.at + 4 <= header && numOps.at + 4 <= header
      && numCols.Apart(txnSize) && numCols.Apart(numOps) && txnSize.Apart(numOps)
    }

    /** Fields lie inside the operation and do not overlap. */
    ghost predicate OpValid(o: Opcode) {
      && span(o) % 4 == 0 && op < span(o) && |fields(o)| == Operands(o)
      && (forall i :: 0 <= i < |fields(o)| ==> FieldValid(o, fields(o)[i]))
      && (forall i, k :: 0 <= i < k < |fields(o)| ==> fields(o)[i].Apart(fields(o)[k]))
      && (!FixedSize(o) ==> size(o).width == 4 && size(o).at + 4 <= span(o) && Field(op, 1).Apart(size(o)))
      && (o.Tct? || o.MergeSync? ==> forall i :: 0 <= i < |fields(o)| ==> fields(o)[i].width == 1)
      && (o.LoadPmStart? ==> fields(o)[0].width == 3) && (o.RecordTimer? ==> fields(o)[0].width == 4)
    }

    ghost predicate FieldValid(o: Opcode, f: Field) {
      && f.width > 0 && f.at + f.width <= span(o) && f.Apart(Field(op, 1))
      && (!FixedSize(o) ==> f.Apart(size(o)))
    }
  }

  /** Reading a field of the structure at `at`. */
  function Get(b: seq<u8>, at: nat, f: Field): nat
    requires at + f.at + f.width <= |b|
  {
    Value(b[at + f.at..at + f.at + f.width])
  }

  function GetAll(b: seq<u8>, at: nat, fields: seq<Field>): (r: seq<nat>)
    requires forall i :: 0 <= i < |fields| ==> at + fields[i].at + fields[i].width <= |b|
    ensures |r| == |fields|
    ensures forall i :: 0 <= i < |fields| ==> r[i] == Get(b, at, fields[i])
  {
    seq(|fields|, i requires 0 <= i < |fields| => Get(b, at, fields[i]))
  }

  function Put(b: seq<u8>, f: Field, v: nat): (r: seq<u8>)
    requires f.at + f.width <= |b|
    ensures |r| == |b|
  {
    b[..f.at] + Bytes(v, f.width) + b[f.at + f.width..]
  }

  /** A written field reads back truncated to its width; fields apart from it are untouched. */
  lemma GetPut(b: seq<u8>, f: Field, v: nat, g: Field)
    requires f.at + f.width <= |b| && g.at + g.width <= |b|
    ensures Get(Put(b, f, v), 0, f) == v % Pow256(f.width)
    ensures f.Apart(g) ==> Get(Put(b, f, v), 0, g) == Get(b, 0, g)
  {
    hide Value, Bytes, Pow256;
    var r := Put(b, f, v);
    assert r[f.at..f.at + f.width] == Bytes(v, f.width);
    BytesValue(v, f.width);
    if f.Apart(g) {
      assert r[g.at..g.at + g.width] == b[g.at..g.at + g.width];
    }
  }

  // ---------- the constraints can be met ----------

  function SampleCode(o: Opcode): u8 {
    match o
    case Write => 0
    case BlockWrite => 1
    case MaskWrite => 3
    case MaskPoll => 4
    case Noop => 5
    case Preempt => 6
    case MaskPollBusy => 7
    case LoadPdi => 8
    case LoadPmStart => 9
    case CreateScratchpad => 10
    case UpdateStateTable => 11
    case UpdateReg => 12
    case UpdateScratch => 13
    case Tct => 128
    case DdrPatch => 129
    case ReadRegs => 130
    case RecordTimer => 131
    case MergeSync => 132
  }

  function SampleOpcode(c: u8): Option<Opcode> {
    if c == 0 then Some(Write) else if c == 1 then Some(BlockWrite) else if c == 3 then Some(MaskWrite)
    else if c == 4 then Some(MaskPoll) else if c == 5 then Some(Noop) else if c == 6 then Some(Preempt)
    else if c == 7 then Some(MaskPollBusy) else if c == 8 then Some(LoadPdi) else if c == 9 then Some(LoadPmStart)
    else if c == 10 then Some(CreateScratchpad) else if c == 11 then Some(UpdateStateTable) else if c == 12
      then Some(UpdateReg)
    else if c == 13 then Some(UpdateScratch) else if c == 128 then Some(Tct) else if c == 129 then Some(DdrPatch)
    else if c == 130 then Some(ReadRegs) else if c == 131 then Some(RecordTimer) else if c == 132 then Some(MergeSync)
    else None
  }

  function SampleFields(o: Opcode): seq<Field> {
    match o
    case Write => [Field(8, 8), Field(16, 4)]
    case BlockWrite => [Field(8, 4)]
    case MaskWrite => [Field(8, 8), Field(16, 4), Field(20, 4)]
    case MaskPoll => [Field(8, 8), Field(16, 4), Field(20, 4)]
    case MaskPollBusy => [Field(8, 8), Field(16, 4), Field(20, 4)]
    case Preempt => [Field(1, 1)]
    case LoadPdi => [Field(2, 2), Field(4, 2), Field(8, 8)]
    case LoadPmStart => [Field(1, 3), Field(4, 4)]
    case CreateScratchpad => [Field(4, 4), Field(8, 8)]
    case Tct => [Field(9, 1), Field(13, 1), Field(10, 1), Field(14, 1), Field(8, 1), Field(15, 1)]
    case DdrPatch => [Field(8, 8), Field(16, 8), Field(24, 8)]
    case RecordTimer => [Field(8, 4)]
    case MergeSync => [Field(9, 1), Field(8, 1)]
    case _ => []
  }

  const SAMPLE := Layout(16, [0, 1, 4, 6, 0, 1, 0, 0, 0, 0, 0, 0, 0, 0, 0, 0], Field(0, 1), Field(1, 1), Field(4, 1),
                         Field(8, 4), Field(12, 4), 0, SampleCode, SampleOpcode, _ => 32, _ => Field(4, 4),
                           SampleFields)

  lemma SampleApart(o: Opcode, i: nat, k: nat)
    requires i < k < |SampleFields(o)|
    ensures SampleFields(o)[i].Apart(SampleFields(o)[k])
  {}

  lemma SampleField(o: Opcode, i: nat)
    requires i < |SampleFields(o)|
    ensures SAMPLE.FieldValid(o, SampleFields(o)[i])
  {
    hide SampleCode, SampleOpcode;
  }

  lemma SampleWidths(o: Opcode)
    ensures |SampleFields(o)| == Operands(o)
    ensures o.Tct? || o.MergeSync? ==> forall i :: 0 <= i < |SampleFields(o)| ==> SampleFields(o)[i].width == 1
    ensures (o.LoadPmStart? ==> SampleFields(o)[0].width == 3) && (o.RecordTimer? ==> SampleFields(o)[0].width == 4)
  {}

  lemma SampleOp(o: Opcode)
    ensures SAMPLE.OpValid(o)
  {
    hide SampleCode, SampleOpcode, SampleFields, Operands, Layout.FieldValid, Field.Apart;
    SampleWidths(o);
    SampleSize();
    forall i | 0 <= i < |SampleFields(o)| ensures SAMPLE.FieldValid(o, SampleFields(o)[i]) {
      SampleField(o, i);
    }
    forall i, k | 0 <= i < k < |SampleFields(o)| ensures SampleFields(o)[i].Apart(SampleFields(o)[k]) {
      SampleApart(o, i, k);
    }
  }

  lemma SampleSize()
    ensures Field(0, 1).Apart(Field(4, 4))
  {}

  lemma SampleCodes(o: Opcode, c: u8)
    ensures SampleOpcode(SampleCode(o)) == Some(o)
    ensures SampleOpcode(c) == Some(o) ==> c == SampleCode(o)
  {}

  /** A one-byte field holds its byte. */
  lemma ByteField(b: seq<u8>, f: Field)
    requires f.width == 1 && f.at + 1 <= |b|
    ensures Get(b, 0, f) == b[f.at]
  {
    var one := b[f.at..f.at + 1];
    assert one[1..] == [] && one[0] == b[f.at];
    assert Value(one) == one[0] + 256 * Value([]);
  }

  lemma SampleHeader()
    ensures SAMPLE.HeaderValid()
  {
    hide SampleCode, SampleOpcode, SampleFields, Get;
    ByteField(SAMPLE.template, Field(0, 1));
    ByteField(SAMPLE.template, Field(1, 1));
  }

  lemma SampleReg()
    ensures |SAMPLE.fields(BlockWrite)| == 1 && SAMPLE.fields(BlockWrite)[0].width == 4
  {}

  /** There is a layout: the constraints on headers are not contradictory. */
  lemma SampleIsValid()
    ensures SAMPLE.Valid()
  {
    hide SampleCode, SampleOpcode, SampleFields, Layout.OpValid, Layout.HeaderValid;
    SampleHeader();
    SampleReg();
    forall o ensures SAMPLE.OpValid(o) {
      SampleOp(o);
    }
    forall o ensures SAMPLE.opcodeOf(SAMPLE.code(o)) == Some(o) {
      SampleCodes(o, 0);
    }
    forall c, o | SAMPLE.opcodeOf(c) == Some(o) ensures c == SAMPLE.code(o) {
      SampleCodes(o, c);
    }
  }
}
