/** The AIE2PS instruction table, its encoder, and the firmware's view of the same bytes. */
module Isa {
  import opened Base

  datatype Mnemonic =
    | StartJob | StartJobDeferred | LaunchJob | UcDmaWriteDes | WaitUcDma | MaskWrite32 | Write32 |
      WaitTcts | EndJob | Yield | UcDmaWriteDesSync | Write32D | Read32 | Read32D | ApplyOffset57 |
      Add | Mov | LocalBarrier | RemoteBarrier | Eof | Poll32 | MaskPoll32 | Trace | Nop | Preempt |
      LoadPdi | LoadCores | LoadLastPdi | SaveTimestamps | Sleep | SaveRegister

  /** Operand kinds of the instruction table; widths are in bits. */
  datatype Kind = Const | Register | Pad | JobSize | Barrier | PageId
  /** Operand names of the table and of the dispatchers. */
  datatype Operand =
    | Pad_ | NActorId | NAddress | NCoreElfHostAddrOffset | NCoreElfId | NDescriptorPtr | NDest | NFlags
      | NId | NInfo | NJobId | NLocalBarrierId | NMask | NNumEntries | NNumParticipants | NOffset |
      NPartyMask | NPdiHostAddrOffset | NPdiId | NRemoteBarrierId | NRestoreControlCodeOffset |
      NSaveControlCodeOffset | NSize | NTablePtr | NTarget | NTargetTcts | NTileId | NUnqId | NValue |
      NWaitHandle
  datatype Spec = Spec(name: Operand, kind: Kind, width: nat)

  /** Opcode byte of the assembler's table. */
  function Code(op: Mnemonic): u8 {
    match op
    case StartJob => 0
    case StartJobDeferred => 23
    case LaunchJob => 24
    case UcDmaWriteDes => 1
    case WaitUcDma => 2
    case MaskWrite32 => 3
    case Write32 => 5
    case WaitTcts => 6
    case EndJob => 7
    case Yield => 8
    case UcDmaWriteDesSync => 9
    case Write32D => 11
    case Read32 => 12
    case Read32D => 13
    case ApplyOffset57 => 14
    case Add => 15
    case Mov => 16
    case LocalBarrier => 17
    case RemoteBarrier => 18
    case Eof => 255
    case Poll32 => 19
    case MaskPoll32 => 20
    case Trace => 21
    case Nop => 22
    case Preempt => 25
    case LoadPdi => 26
    case LoadCores => 4
    case LoadLastPdi => 27
    case SaveTimestamps => 28
    case Sleep => 29
    case SaveRegister => 30
  }

  function Args(op: Mnemonic): seq<Spec> {
    match op
    case StartJob => [Spec(NJobId, Const, 16), Spec(NSize, JobSize, 16), Spec(Pad_, Pad, 16)]
    case StartJobDeferred => [Spec(NJobId, Const, 16), Spec(NSize, JobSize, 16), Spec(Pad_, Pad, 16)]
    case LaunchJob => [Spec(NJobId, Const, 16)]
    case UcDmaWriteDes =>
      [Spec(NWaitHandle, Register, 8), Spec(Pad_, Pad, 8), Spec(NDescriptorPtr, Const, 16), Spec(Pad_,
       Pad, 16)]
    case WaitUcDma => [Spec(NWaitHandle, Register, 8), Spec(Pad_, Pad, 8)]
    case MaskWrite32 =>
      [Spec(Pad_, Pad, 16), Spec(NAddress, Const, 32), Spec(NMask, Const, 32), Spec(NValue, Const, 32)]
    case Write32 => [Spec(Pad_, Pad, 16), Spec(NAddress, Const, 32), Spec(NValue, Const, 32)]
    case WaitTcts =>
      [Spec(NTileId, Const, 16), Spec(NActorId, Const, 8), Spec(Pad_, Pad, 8), Spec(NTargetTcts,
       Const, 8), Spec(Pad_, Pad, 8)]
    case EndJob => [Spec(Pad_, Pad, 16)]
    case Yield => [Spec(Pad_, Pad, 16)]
    case UcDmaWriteDesSync => [Spec(NDescriptorPtr, Const, 16)]
    case Write32D =>
      [Spec(NFlags, Const, 8), Spec(Pad_, Pad, 8), Spec(NAddress, Const, 32), Spec(NValue, Const, 32)]
    case Read32 => [Spec(NValue, Register, 8), Spec(Pad_, Pad, 8), Spec(NAddress, Const, 32)]
    case Read32D => [Spec(NAddress, Register, 8), Spec(NValue, Register, 8)]
    case ApplyOffset57 => [Spec(NTablePtr, Const, 16), Spec(NNumEntries, Const, 16), Spec(NOffset, Const, 16)]
    case Add => [Spec(NDest, Register, 8), Spec(Pad_, Pad, 8), Spec(NValue, Const, 32)]
    case Mov => [Spec(NDest, Register, 8), Spec(Pad_, Pad, 8), Spec(NValue, Const, 32)]
    case LocalBarrier => [Spec(NLocalBarrierId, Barrier, 8), Spec(NNumParticipants, Const, 8)]
    case RemoteBarrier => [Spec(NRemoteBarrierId, Barrier, 8), Spec(Pad_, Pad, 8), Spec(NPartyMask, Const, 32)]
    case Eof => [Spec(Pad_, Pad, 16)]
    case Poll32 => [Spec(Pad_, Pad, 16), Spec(NAddress, Const, 32), Spec(NValue, Const, 32)]
    case MaskPoll32 =>
      [Spec(Pad_, Pad, 16), Spec(NAddress, Const, 32), Spec(NMask, Const, 32), Spec(NValue, Const, 32)]
    case Trace => [Spec(NInfo, Const, 16)]
    case Nop => [Spec(Pad_, Pad, 16)]
    case Preempt =>
      [Spec(NId, Const, 16), Spec(NSaveControlCodeOffset, PageId, 16),
       Spec(NRestoreControlCodeOffset, PageId, 16)]
    case LoadPdi =>
      [Spec(Pad_, Pad, 16), Spec(NPdiId, Const, 32), Spec(NPdiHostAddrOffset, PageId, 16),
       Spec(Pad_, Pad, 16)]
    case LoadCores =>
      [Spec(Pad_, Pad, 16), Spec(NCoreElfId, Const, 32), Spec(NCoreElfHostAddrOffset, PageId, 16),
       Spec(Pad_, Pad, 16)]
    case LoadLastPdi => [Spec(Pad_, Pad, 16)]
    case SaveTimestamps => [Spec(Pad_, Pad, 16), Spec(NUnqId, Const, 32)]
    case Sleep => [Spec(Pad_, Pad, 16), Spec(NTarget, Const, 32)]
    case SaveRegister => [Spec(Pad_, Pad, 16), Spec(NAddress, Const, 32), Spec(NUnqId, Const, 32)]
  }

  /** `isa_op_serializer::size`: two bytes for the opcode, then every operand's width. */
  function Size(op: Mnemonic): nat {
    2 + ArgBytes(Args(op))
  }

  function ArgBytes(specs: seq<Spec>): nat {
    if specs == [] then 0 else specs[0].width / 8 + ArgBytes(specs[1..])
  }

  // ---------- what the firmware was generated with ----------

  /** Bytes the firmware advances by after an instruction (ISA_OPSIZE_*). */
  function OpSize(op: Mnemonic): nat {
    match op
    case StartJob => 0x08
    case StartJobDeferred => 0x08
    case LaunchJob => 0x04
    case UcDmaWriteDes => 0x08
    case WaitUcDma => 0x04
    case MaskWrite32 => 0x10
    case Write32 => 0x0c
    case WaitTcts => 0x08
    case EndJob => 0x04
    case Yield => 0x04
    case UcDmaWriteDesSync => 0x04
    case Write32D => 0x0c
    case Read32 => 0x08
    case Read32D => 0x04
    case ApplyOffset57 => 0x08
    case Add => 0x08
    case Mov => 0x08
    case LocalBarrier => 0x04
    case RemoteBarrier => 0x08
    case Eof => 0x04
    case Poll32 => 0x0c
    case MaskPoll32 => 0x10
    case Trace => 0x04
    case Nop => 0x04
    case Preempt => 0x08
    case LoadPdi => 0x0c
    case LoadCores => 0x0c
    case LoadLastPdi => 0x04
    case SaveTimestamps => 0x08
    case Sleep => 0x08
    case SaveRegister => 0x0c
  }

  /** The instruction a firmware opcode selects (ISA_OPCODE_*). */
  function FirmwareOp(code: u8): Option<Mnemonic> {
    if code == 0x00 then Some(StartJob)
    else if code == 0x17 then Some(StartJobDeferred)
    else if code == 0x18 then Some(LaunchJob)
    else if code == 0x01 then Some(UcDmaWriteDes)
    else if code == 0x02 then Some(WaitUcDma)
    else if code == 0x03 then Some(MaskWrite32)
    else if code == 0x05 then Some(Write32)
    else if code == 0x06 then Some(WaitTcts)
    else if code == 0x07 then Some(EndJob)
    else if code == 0x08 then Some(Yield)
    else if code == 0x09 then Some(UcDmaWriteDesSync)
    else if code == 0x0b then Some(Write32D)
    else if code == 0x0c then Some(Read32)
    else if code == 0x0d then Some(Read32D)
    else if code == 0x0e then Some(ApplyOffset57)
    else if code == 0x0f then Some(Add)
    else if code == 0x10 then Some(Mov)
    else if code == 0x11 then Some(LocalBarrier)
    else if code == 0x12 then Some(RemoteBarrier)
    else if code == 0xff then Some(Eof)
    else if code == 0x13 then Some(Poll32)
    else if code == 0x14 then Some(MaskPoll32)
    else if code == 0x15 then Some(Trace)
    else if code == 0x16 then Some(Nop)
    else if code == 0x19 then Some(Preempt)
    else if code == 0x1a then Some(LoadPdi)
    else if code == 0x04 then Some(LoadCores)
    else if code == 0x1b then Some(LoadLastPdi)
    else if code == 0x1c then Some(SaveTimestamps)
    else if code == 0x1d then Some(Sleep)
    else if code == 0x1e then Some(SaveRegister)
    else None
  }

  /** An operand a dispatcher reads: its offset from the opcode and its width in bits. */
  datatype Slot = Slot(name: Operand, offset: nat, width: nat)

  function Dispatch(op: Mnemonic): seq<Slot> {
    match op
    case StartJob => [Slot(NJobId, 2, 16), Slot(NSize, 4, 16)]
    case StartJobDeferred => [Slot(NJobId, 2, 16), Slot(NSize, 4, 16)]
    case LaunchJob => [Slot(NJobId, 2, 16)]
    case UcDmaWriteDes => [Slot(NWaitHandle, 2, 8), Slot(NDescriptorPtr, 4, 16)]
    case WaitUcDma => [Slot(NWaitHandle, 2, 8)]
    case MaskWrite32 => [Slot(NAddress, 4, 32), Slot(NMask, 8, 32), Slot(NValue, 12, 32)]
    case Write32 => [Slot(NAddress, 4, 32), Slot(NValue, 8, 32)]
    case WaitTcts => [Slot(NTileId, 2, 16), Slot(NActorId, 4, 8), Slot(NTargetTcts, 6, 8)]
    case EndJob => []
    case Yield => []
    case UcDmaWriteDesSync => [Slot(NDescriptorPtr, 2, 16)]
    case Write32D => [Slot(NFlags, 2, 8), Slot(NAddress, 4, 32), Slot(NValue, 8, 32)]
    case Read32 => [Slot(NValue, 2, 8), Slot(NAddress, 4, 32)]
    case Read32D => [Slot(NAddress, 2, 8), Slot(NValue, 3, 8)]
    case ApplyOffset57 => [Slot(NTablePtr, 2, 16), Slot(NNumEntries, 4, 16), Slot(NOffset, 6, 16)]
    case Add => [Slot(NDest, 2, 8), Slot(NValue, 4, 32)]
    case Mov => [Slot(NDest, 2, 8), Slot(NValue, 4, 32)]
    case LocalBarrier => [Slot(NLocalBarrierId, 2, 8), Slot(NNumParticipants, 3, 8)]
    case RemoteBarrier => [Slot(NRemoteBarrierId, 2, 8), Slot(NPartyMask, 4, 32)]
    case Eof => []
    case Poll32 => [Slot(NAddress, 4, 32), Slot(NValue, 8, 32)]
    case MaskPoll32 => [Slot(NAddress, 4, 32), Slot(NMask, 8, 32), Slot(NValue, 12, 32)]
    case Trace => [Slot(NInfo, 2, 16)]
    case Nop => []
    case Preempt =>
      [Slot(NId, 2, 16), Slot(NSaveControlCodeOffset, 4, 16), Slot(NRestoreControlCodeOffset, 6, 16)]
    case LoadPdi => [Slot(NPdiId, 4, 32), Slot(NPdiHostAddrOffset, 8, 16)]
    case LoadCores => [Slot(NCoreElfId, 4, 32), Slot(NCoreElfHostAddrOffset, 8, 16)]
    case LoadLastPdi => []
    case SaveTimestamps => [Slot(NUnqId, 4, 32)]
    case Sleep => [Slot(NTarget, 4, 32)]
    case SaveRegister => [Slot(NAddress, 4, 32), Slot(NUnqId, 8, 32)]
  }

  // ---------- encoding ----------

  /** Operand values in table order, padding operands left out. */
  datatype Instr = Instr(op: Mnemonic, vals: seq<nat>)

  function Operands(specs: seq<Spec>): nat {
    if specs == [] then 0 else (if specs[0].kind.Pad? then 0 else 1) + Operands(specs[1..])
  }

  function EncodeArgs(specs: seq<Spec>, vals: seq<nat>): (b: seq<u8>)
    requires |vals| == Operands(specs)
    ensures |b| == ArgBytes(specs)
  {
    if specs == [] then [] else
    if specs[0].kind.Pad? then Bytes(0, specs[0].width / 8) + EncodeArgs(specs[1..], vals)
    else Bytes(vals[0], specs[0].width / 8) + EncodeArgs(specs[1..], vals[1..])
  }

  predicate Complete(i: Instr) {
    |i.vals| == Operands(Args(i.op))
  }

  /** The bytes of one instruction: opcode, a zero byte, the operands. */
  function Encode(i: Instr): (b: seq<u8>)
    requires Complete(i)
    ensures |b| == Size(i.op)
  {
    [Code(i.op), 0] + EncodeArgs(Args(i.op), i.vals)
  }

  // ---------- decoding, as the generated dispatchers do it ----------

  function Read(b: seq<u8>, at: nat, width: nat): nat
    requires at + width / 8 <= |b|
  {
    Value(b[at..at + width / 8])
  }

  function ReadSlots(b: seq<u8>, pc: nat, slots: seq<Slot>): seq<nat>
    requires forall s :: s in slots ==> pc + s.offset + s.width / 8 <= |b|
  {
    if slots == [] then [] else [Read(b, pc + slots[0].offset, slots[0].width)] + ReadSlots(b, pc, slots[1..])
  }

  /** Where the table puts every operand that is not padding, counting from `off`. */
  function TablePlaces(specs: seq<Spec>, off: nat): seq<Slot> {
    if specs == [] then [] else
      var rest := TablePlaces(specs[1..], off + specs[0].width / 8);
      if specs[0].kind.Pad? then rest else [Slot(specs[0].name, off, specs[0].width)] + rest
  }

  lemma PlacedStep(s: Spec, rest: seq<Spec>, off: nat)
    ensures TablePlaces([s] + rest, off) ==
      (if s.kind.Pad? then [] else [Slot(s.name, off, s.width)]) + TablePlaces(rest, off + s.width / 8)
    ensures ArgBytes([s] + rest) == s.width / 8 + ArgBytes(rest)
  {
    assert ([s] + rest)[1..] == rest;
  }

  function One(s: Spec, off: nat): seq<Slot> {
    if s.kind.Pad? then [] else [Slot(s.name, off, s.width)]
  }

  lemma Placed2(a: Spec, b: Spec, off: nat)
    ensures TablePlaces([a, b], off) == One(a, off) + One(b, off + a.width / 8)
    ensures ArgBytes([a, b]) == a.width / 8 + b.width / 8
  {
    PlacedStep(a, [b], off);
    PlacedStep(b, [], off + a.width / 8);
    assert [a, b] == [a] + [b] && [b] == [b] + [];
  }

  lemma Placed3(a: Spec, b: Spec, c: Spec, off: nat)
    ensures TablePlaces([a, b, c], off) == One(a, off) + TablePlaces([b, c], off + a.width / 8)
    ensures ArgBytes([a, b, c]) == a.width / 8 + ArgBytes([b, c])
  {
    PlacedStep(a, [b, c], off);
    assert [a, b, c] == [a] + [b, c];
  }

  lemma Placed45(a: Spec, b: Spec, r: seq<Spec>, off: nat)
    ensures TablePlaces([a, b] + r, off) == One(a, off) + One(b, off + a.width / 8)
      + TablePlaces(r, off + a.width / 8 + b.width / 8)
    ensures ArgBytes([a, b] + r) == a.width / 8 + b.width / 8 + ArgBytes(r)
  {
    hide TablePlaces, ArgBytes;
    PlacedStep(a, [b] + r, off);
    PlacedStep(b, r, off + a.width / 8);
    assert [a, b] + r == [a] + ([b] + r);
    var x, y, z := One(a, off), One(b, off + a.width / 8), TablePlaces(r, off + a.width / 8 + b.width / 8);
    assert x + (y + z) == x + y + z;
  }

  lemma PlacedNothing(off: nat)
    ensures TablePlaces([], off) == [] && ArgBytes([]) == 0
  {}

  lemma Agree1(op: Mnemonic)
    requires |Args(op)| == 1
    ensures Size(op) == OpSize(op)
    ensures Dispatch(op) == TablePlaces(Args(op), 2)
  {
    hide TablePlaces, ArgBytes;
    var a := Args(op);
    assert a == [a[0]] + [];
    PlacedStep(a[0], [], 2);
    PlacedNothing(2 + a[0].width / 8);
  }

  lemma Agree2(op: Mnemonic)
    requires |Args(op)| == 2
    ensures Size(op) == OpSize(op)
    ensures Dispatch(op) == TablePlaces(Args(op), 2)
  {
    hide TablePlaces, ArgBytes;
    var a := Args(op);
    assert a == [a[0], a[1]];
    Placed2(a[0], a[1], 2);
  }

  lemma Agree3(op: Mnemonic)
    requires |Args(op)| == 3
    ensures Size(op) == OpSize(op)
    ensures Dispatch(op) == TablePlaces(Args(op), 2)
  {
    hide TablePlaces, ArgBytes;
    var a := Args(op);
    assert a == [a[0], a[1], a[2]];
    Placed3(a[0], a[1], a[2], 2);
    Placed2(a[1], a[2], 2 + a[0].width / 8);
  }

  lemma Placed4(a: Spec, b: Spec, c: Spec, d: Spec)
    ensures TablePlaces([a, b, c, d], 2) ==
      One(a, 2) + One(b, 2 + a.width / 8) + One(c, 2 + a.width / 8 + b.width / 8)
        + One(d, 2 + a.width / 8 + b.width / 8 + c.width / 8)
    ensures ArgBytes([a, b, c, d]) == a.width / 8 + b.width / 8 + c.width / 8 + d.width / 8
  {
    assert [a, b, c, d] == [a, b] + [c, d];
    Placed45(a, b, [c, d], 2);
    Placed2(c, d, 2 + a.width / 8 + b.width / 8);
  }

  lemma Agree4(op: Mnemonic)
    requires |Args(op)| == 4
    ensures Size(op) == OpSize(op)
    ensures Dispatch(op) == TablePlaces(Args(op), 2)
  {
    hide TablePlaces, ArgBytes;
    var a := Args(op);
    assert a == [a[0], a[1], a[2], a[3]];
    Placed4(a[0], a[1], a[2], a[3]);
  }

  lemma Agree5()
    ensures Size(WaitTcts) == OpSize(WaitTcts)
    ensures Dispatch(WaitTcts) == TablePlaces(Args(WaitTcts), 2)
  {
    var a := Args(WaitTcts);
    assert a == [a[0], a[1]] + [a[2], a[3], a[4]];
    Placed45(a[0], a[1], [a[2], a[3], a[4]], 2);
    Placed3(a[2], a[3], a[4], 5);
    Placed2(a[3], a[4], 6);
  }

  lemma ArgCount(op: Mnemonic)
    ensures |Args(op)| == 5 ==> op == WaitTcts
    ensures 1 <= |Args(op)| <= 5
  {}

  lemma OpcodesAgree(op: Mnemonic)
    ensures FirmwareOp(Code(op)) == Some(op)
  {}

  /** The assembler's table and the generated firmware stubs describe the same instruction set. */
  lemma StubsAgree(op: Mnemonic)
    ensures Size(op) == OpSize(op)
    ensures FirmwareOp(Code(op)) == Some(op)
    ensures Dispatch(op) == TablePlaces(Args(op), 2)
  {
    OpcodesAgree(op);
    ArgCount(op);
    var n := |Args(op)|;
    if n == 1 {
      Agree1(op);
    } else if n == 2 {
      Agree2(op);
    } else if n == 3 {
      Agree3(op);
    } else if n == 4 {
      Agree4(op);
    } else {
      Agree5();
    }
  }

  /** Operand values as the fields can hold them. */
  function Truncated(specs: seq<Spec>, vals: seq<nat>): seq<nat>
    requires |vals| == Operands(specs)
  {
    if specs == [] then [] else
    if specs[0].kind.Pad? then Truncated(specs[1..], vals)
    else [vals[0] % Pow256(specs[0].width / 8)] + Truncated(specs[1..], vals[1..])
  }

  predicate Fits(specs: seq<Spec>, vals: seq<nat>)
    requires |vals| == Operands(specs)
  {
    specs != [] ==>
      if specs[0].kind.Pad? then Fits(specs[1..], vals)
      else vals[0] < Pow256(specs[0].width / 8) && Fits(specs[1..], vals[1..])
  }

  lemma {:induction false} FitsTruncated(specs: seq<Spec>, vals: seq<nat>)
    requires |vals| == Operands(specs) && Fits(specs, vals)
    ensures Truncated(specs, vals) == vals
  {
    if specs == [] {
    } else if specs[0].kind.Pad? {
      FitsTruncated(specs[1..], vals);
    } else {
      FitsTruncated(specs[1..], vals[1..]);
      SmallMod(vals[0], Pow256(specs[0].width / 8));
      assert [vals[0]] + vals[1..] == vals;
    }
  }

  lemma {:induction false} SlotsInside(specs: seq<Spec>, off: nat)
    ensures forall s :: s in TablePlaces(specs, off) ==>
        off <= s.offset
        && s.offset + s.width / 8 <= off + ArgBytes(specs)
  {
    if specs != [] {
      SlotsInside(specs[1..], off + specs[0].width / 8);
    }
  }

  lemma ReadField(b: seq<u8>, at: nat, width: nat, v: nat, tail: seq<u8>, n: nat)
    requires at + width / 8 + n <= |b| && n == |tail|
    requires b[at..at + width / 8 + n] == Bytes(v, width / 8) + tail
    ensures Read(b, at, width) == v % Pow256(width / 8)
    ensures b[at + width / 8..at + width / 8 + n] == tail
  {
    var w := width / 8;
    var all := b[at..at + w + n];
    assert b[at..at + w] == all[..w] == Bytes(v, w);
    assert b[at + w..at + w + n] == all[w..] == tail;
    BytesValue(v, w);
  }

  /** The first operand of a list and the rest, for each of the four functions over it. */
  lemma FirstOperand(specs: seq<Spec>, vals: seq<nat>, off: nat)
    requires specs != [] && |vals| == Operands(specs)
    ensures var s, rest, w := specs[0], specs[1..], specs[0].width / 8;
      ArgBytes(specs) == w + ArgBytes(rest) &&
      if s.kind.Pad? then
        && |vals| == Operands(rest) && EncodeArgs(specs, vals) == Bytes(0, w) + EncodeArgs(rest, vals)
        && TablePlaces(specs, off) == TablePlaces(rest, off + w) && Truncated(specs, vals) == Truncated(rest, vals)
      else
        && |vals| == 1 + Operands(rest) && EncodeArgs(specs, vals) == Bytes(vals[0], w) + EncodeArgs(rest, vals[1..])
        && TablePlaces(specs, off) == [Slot(s.name, off, s.width)] + TablePlaces(rest, off + w)
        && Truncated(specs, vals) == [vals[0] % Pow256(w)] + Truncated(rest, vals[1..])
  {
    hide Bytes, Pow256;
  }

  lemma NothingToRead(b: seq<u8>, pc: nat, off: nat, vals: seq<nat>)
    requires |vals| == Operands([])
    ensures TablePlaces([], off) == [] && ReadSlots(b, pc, []) == Truncated([], vals)
  {}

  lemma ReadOneMore(b: seq<u8>, pc: nat, slot: Slot, rest: seq<Slot>)
    requires forall s :: s in [slot] + rest ==> pc + s.offset + s.width / 8 <= |b|
    ensures ReadSlots(b, pc, [slot] + rest) == [Read(b, pc + slot.offset, slot.width)] + ReadSlots(b, pc, rest)
  {
    assert ([slot] + rest)[1..] == rest;
  }

  /** Every slot of the table, read from where the operands were written, holds its operand. */
  lemma {:induction false} ReadBackArgs(b: seq<u8>, pc: nat, specs: seq<Spec>, off: nat, vals: seq<nat>)
    requires |vals| == Operands(specs)
    requires pc + off + ArgBytes(specs) <= |b|
    requires b[pc + off..pc + off + ArgBytes(specs)] == EncodeArgs(specs, vals)
    ensures forall s :: s in TablePlaces(specs, off) ==> pc + s.offset + s.width / 8 <= |b|
    ensures ReadSlots(b, pc, TablePlaces(specs, off)) == Truncated(specs, vals)
  {
    hide Value, Bytes, Pow256, Read, EncodeArgs, TablePlaces, Truncated, ArgBytes, Operands, ReadSlots;
    SlotsInside(specs, off);
    if specs == [] {
      NothingToRead(b, pc, off, vals);
    } else {
      FirstOperand(specs, vals, off);
      var s, rest, w := specs[0], specs[1..], specs[0].width / 8;
      if s.kind.Pad? {
        ReadField(b, pc + off, s.width, 0, EncodeArgs(rest, vals), ArgBytes(rest));
        ReadBackArgs(b, pc, rest, off + w, vals);
      } else {
        ReadField(b, pc + off, s.width, vals[0], EncodeArgs(rest, vals[1..]), ArgBytes(rest));
        ReadBackArgs(b, pc, rest, off + w, vals[1..]);
        ReadOneMore(b, pc, Slot(s.name, off, s.width), TablePlaces(rest, off + w));
      }
    }
  }

  /** Each firmware dispatcher, pointed at a serialized instruction, reads the encoded operands. */
  lemma DispatcherReadsOperands(pre: seq<u8>, i: Instr, suf: seq<u8>)
    requires Complete(i)
    ensures var b := pre + Encode(i) + suf;
      && |Encode(i)| == OpSize(i.op)
      && FirmwareOp(b[|pre|]) == Some(i.op)
      && (forall s :: s in Dispatch(i.op) ==> |pre| + s.offset + s.width / 8 <= |b|)
      && ReadSlots(b, |pre|, Dispatch(i.op)) == Truncated(Args(i.op), i.vals)
  {
    StubsAgree(i.op);
    var b := pre + Encode(i) + suf;
    var n := ArgBytes(Args(i.op));
    assert b[|pre| + 2..|pre| + 2 + n] == Encode(i)[2..] == EncodeArgs(Args(i.op), i.vals);
    ReadBackArgs(b, |pre|, Args(i.op), 2, i.vals);
  }

  // ---------- walking a text section ----------

  function EncodeAll(prog: seq<Instr>): seq<u8>
    requires forall i :: i in prog ==> Complete(i)
  {
    if prog == [] then [] else Encode(prog[0]) + EncodeAll(prog[1..])
  }

  const EOF_INSTR := Instr(Eof, [])

  /** Dispatch at `pc`, advance by the opcode's size, until `eof`. */
  function Walk(b: seq<u8>, pc: nat): Result<seq<Instr>>
    decreases |b| - pc
  {
    if pc >= |b| then Err(ReadBeyondData) else
    match FirmwareOp(b[pc])
    case None => Err(InvalidOperation)
    case Some(op) =>
      if op.Eof? then Ok([]) else
      if pc + OpSize(op) > |b| || exists s :: s in Dispatch(op) && pc + s.offset + s.width / 8 > |b| then
        Err(ReadBeyondData)
      else
        var rest :- Walk(b, pc + OpSize(op));
        Ok([Instr(op, ReadSlots(b, pc, Dispatch(op)))] + rest)
  }

  /** An instruction as its fields can hold it. */
  function AsRead(i: Instr): Instr
    requires Complete(i)
  {
    Instr(i.op, Truncated(Args(i.op), i.vals))
  }

  function AllTruncated(prog: seq<Instr>): (r: seq<Instr>)
    requires forall i :: i in prog ==> Complete(i)
  {
    if prog == [] then [] else
      assert Complete(prog[0]);
      [AsRead(prog[0])] + AllTruncated(prog[1..])
  }

  lemma WalkStops(b: seq<u8>, pc: nat)
    requires pc < |b| && FirmwareOp(b[pc]) == Some(Eof)
    ensures Walk(b, pc) == Ok([])
  {
    hide FirmwareOp, Dispatch, OpSize, ReadSlots;
  }

  lemma WalkOne(b: seq<u8>, pc: nat, op: Mnemonic)
    requires pc < |b| && FirmwareOp(b[pc]) == Some(op) && op != Eof && pc + OpSize(op) <= |b|
    requires forall s :: s in Dispatch(op) ==> pc + s.offset + s.width / 8 <= |b|
    ensures var rest := Walk(b, pc + OpSize(op));
      Walk(b, pc) == if rest.Err? then rest else Ok([Instr(op, ReadSlots(b, pc, Dispatch(op)))] + rest.value)
  {
    hide FirmwareOp, Dispatch, OpSize, ReadSlots;
  }

  lemma EofComplete()
    ensures Complete(EOF_INSTR)
  {
    var a := Args(Eof);
    assert |a| == 1 && a[1..] == [];
  }

  /** Where the text ends: the opcode of `eof` with whatever behind it. */
  lemma WalkEnds(pre: seq<u8>, suf: seq<u8>)
    ensures Complete(EOF_INSTR) && Walk(pre + (Encode(EOF_INSTR) + suf), |pre|) == Ok([])
  {
    hide Encode, Dispatch, FirmwareOp, ReadSlots, OpSize, Walk, Args;
    EofComplete();
    DispatcherReadsOperands(pre, EOF_INSTR, suf);
    Assoc(pre, Encode(EOF_INSTR), suf);
    SizePositive(Eof);
    WalkStops(pre + (Encode(EOF_INSTR) + suf), |pre|);
  }

  lemma SizePositive(op: Mnemonic)
    ensures OpSize(op) > 0
  {}

  lemma {:induction false} WalkFrom(pre: seq<u8>, prog: seq<Instr>, suf: seq<u8>)
    requires (forall i :: i in prog ==> Complete(i) && i.op != Eof) && Complete(EOF_INSTR)
    ensures Walk(pre + (EncodeAll(prog) + (Encode(EOF_INSTR) + suf)), |pre|) == Ok(AllTruncated(prog))
    decreases |prog|
  {
    hide Encode, Args, Truncated, Dispatch, OpSize, FirmwareOp, Code, ReadSlots, Walk;
    var tail := Encode(EOF_INSTR) + suf;
    if prog == [] {
      assert [] + tail == tail;
      WalkEnds(pre, suf);
    } else {
      var x, rest := Encode(prog[0]), EncodeAll(prog[1..]) + tail;
      assert prog[0] in prog;
      Assoc(x, EncodeAll(prog[1..]), tail);
      Assoc(pre, x, rest);
      DispatcherReadsOperands(pre, prog[0], rest);
      SizePositive(prog[0].op);
      WalkOne(pre + (x + rest), |pre|, prog[0].op);
      WalkFrom(pre + x, prog[1..], suf);
    }
  }

  /** Stepping by opcode size over serialized text, whatever stands behind its `eof`, recovers the instruction sequence,
      every operand truncated to its field. */
  lemma WalkRecoversProgram(prog: seq<Instr>, suf: seq<u8>)
    requires forall i :: i in prog ==> Complete(i) && i.op != Eof
    ensures Complete(EOF_INSTR) && Walk(EncodeAll(prog) + (Encode(EOF_INSTR) + suf), 0) == Ok(AllTruncated(prog))
  {
    EofComplete();
    WalkFrom([], prog, suf);
    var all := EncodeAll(prog) + (Encode(EOF_INSTR) + suf);
    assert [] + all == all;
  }

  /** Operands that fit their fields come back as they were. */
  lemma {:induction false} FittingRecovered(prog: seq<Instr>)
    requires forall i :: i in prog ==> Complete(i) && Fits(Args(i.op), i.vals)
    ensures AllTruncated(prog) == prog
  {
    hide Args, Truncated, Fits;
    if prog != [] {
      assert prog[0] in prog;
      FitsTruncated(Args(prog[0].op), prog[0].vals);
      FittingRecovered(prog[1..]);
      assert [prog[0]] + prog[1..] == prog;
    }
  }
}
