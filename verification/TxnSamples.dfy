/** Concrete transactions on which the relocation walk disturbs itself, in the sample layout. */
module TxnSamples {
  import opened Base
  import opened TxnLayout
  import opened Txn
  import opened TxnBuffer
  import opened TxnRoom
  import opened TxnHarmless

  const CFG := Txn.Config(map[0 := 0], {}, map[], 0, Anonymous)

  /** The walk and its parts, in the sample layout. */
  function ReadAt(b: seq<u8>, at: nat): Result<Item> {
    SampleIsValid();
    Decode(SAMPLE, b, at)
  }

  function Take(m: Machine, i: Item): Result<Machine>
    requires WellFormed(i)
  {
    SampleIsValid();
    Step(CFG, SAMPLE, m, i)
  }

  function WalkFrom(b: seq<u8>, at: nat, n: nat, m: Machine): Result<(seq<u8>, Machine)> {
    SampleIsValid();
    Run(CFG, SAMPLE, b, at, n, m)
  }

  function Walk(b: seq<u8>): Result<(seq<u8>, Machine)> {
    SampleIsValid();
    Process(CFG, SAMPLE, b)
  }

  function OpsOf(b: seq<u8>): Result<seq<Item>> {
    SampleIsValid();
    Operations(SAMPLE, b)
  }

  /** One loop iteration, given what it reads, does and clears. */
  lemma RunOne(b: seq<u8>, at: nat, n: nat, m: Machine, i: Item, m': Machine, b': seq<u8>)
    requires n > 0 && ReadAt(b, at) == Ok(i) && WellFormed(i) && Take(m, i) == Ok(m') && |m.syms| <= |m'.syms|
    requires ClearAll(b, ClearsOf(m'.syms[|m.syms|..])) == Ok(b')
    ensures WalkFrom(b, at, n, m) == WalkFrom(b', at + i.len, n - 1, m')
  {
    hide Layout.Valid, Decode, Step, ClearAll;
    SampleIsValid();
  }

  lemma RunNone(b: seq<u8>, at: nat, m: Machine)
    ensures WalkFrom(b, at, 0, m) == Ok((b, m))
  {
    hide Layout.Valid;
    SampleIsValid();
  }

  /** A run that cannot read its next operation. */
  lemma RunStops(b: seq<u8>, at: nat, n: nat, m: Machine)
    requires n > 0 && ReadAt(b, at).Err?
    ensures WalkFrom(b, at, n, m).Err?
  {
    hide Layout.Valid, Decode, Step, ClearAll;
    SampleIsValid();
  }

  lemma WalkIs(b: seq<u8>, n: nat)
    requires |b| >= 16 && Get(b, 0, Field(12, 4)) == n
    ensures Walk(b) == WalkFrom(b, 16, n, START)
  {
    hide Layout.Valid, Run, Get;
    SampleIsValid();
    HeaderPlaces();
  }

  lemma HeaderPlaces()
    ensures SAMPLE.header == 16 && SAMPLE.numOps == Field(12, 4)
  {}

  lemma OpsTwo(b: seq<u8>, x: Item, y: Item)
    requires |b| >= 16 && Get(b, 0, Field(12, 4)) == 2 && ReadAt(b, 16) == Ok(x) && ReadAt(b, 16 + x.len) == Ok(y)
    ensures OpsOf(b) == Ok([x, y])
  {
    hide Layout.Valid, Decode, Get;
    SampleIsValid();
    HeaderPlaces();
    assert [y] + [] == [y] && [x] + [y] == [x, y];
    assert Trace(SAMPLE, b, 16 + x.len + y.len, 0) == Ok([]);
    assert Trace(SAMPLE, b, 16 + x.len, 1) == Ok([y]);
  }

  lemma OpsThree(b: seq<u8>, x: Item, y: Item, z: Item)
    requires |b| >= 16 && Get(b, 0, Field(12, 4)) == 3 && ReadAt(b, 16) == Ok(x) && ReadAt(b, 16 + x.len) == Ok(y)
    requires ReadAt(b, 16 + x.len + y.len) == Ok(z)
    ensures OpsOf(b) == Ok([x, y, z])
  {
    hide Layout.Valid, Decode, Get;
    SampleIsValid();
    HeaderPlaces();
    assert [z] + [] == [z] && [y] + [z] == [y, z] && [x] + [y, z] == [x, y, z];
    assert Trace(SAMPLE, b, 16 + x.len + y.len + z.len, 0) == Ok([]);
    assert Trace(SAMPLE, b, 16 + x.len + y.len, 1) == Ok([z]);
    assert Trace(SAMPLE, b, 16 + x.len, 2) == Ok([y, z]);
  }

  /** The walk accepts the buffer although it clears something outside the payload it relocates. */
  ghost predicate Spills(b: seq<u8>) {
    SampleIsValid();
    && OpsOf(b).Ok? && AllSound(SAMPLE, b, OpsOf(b).value) && AllWellFormed(OpsOf(b).value)
    && !AllRoom(CFG, OpsOf(b).value) && Walk(b).Ok?
  }

  /** A walk that leaves other operations behind, or cannot be repeated, had no room. */
  lemma SpillsWhen(b: seq<u8>)
    requires OpsOf(b).Ok? && AllSound(SAMPLE, b, OpsOf(b).value) && AllWellFormed(OpsOf(b).value) && Walk(b).Ok?
    requires OpsOf(Walk(b).value.0) != OpsOf(b) || Walk(Walk(b).value.0).Err?
    ensures Spills(b)
  {
    hide Layout.Valid, Process, Operations, AllSound, WellFormed, RoomAt;
    SampleIsValid();
    if AllRoom(CFG, OpsOf(b).value) {
      ClearingHarmless(CFG, SAMPLE, b);
    }
  }

  // ---------- reading fields ----------

  lemma Word4(b: seq<u8>, at: nat)
    requires at + 4 <= |b|
    ensures Value(b[at..at + 4]) ==
      b[at] + 0x100 * (b[at + 1] as int) + 0x1_0000 * (b[at + 2] as int) + 0x100_0000 * (b[at + 3] as int)
  {
    var w := b[at..at + 4];
    assert w[0] == b[at] && w[1] == b[at + 1] && w[2] == b[at + 2] && w[3] == b[at + 3];
    assert w[1..][0] == w[1] && w[1..][1..] == w[2..] && w[2..][0] == w[2] && w[2..][1..] == w[3..];
    assert w[3..][0] == w[3] && w[3..][1..] == [];
    assert Value(w[3..]) == w[3];
    assert Value(w[2..]) == w[2] + 0x100 * (w[3] as int);
    assert Value(w[1..]) == w[1] + 0x100 * Value(w[2..]);
  }

  lemma {:induction false} ZeroHigh(a: seq<u8>, z: seq<u8>)
    requires forall x :: x in z ==> x == 0
    ensures Value(a + z) == Value(a)
  {
    if a != [] {
      assert (a + z)[1..] == a[1..] + z;
      ZeroHigh(a[1..], z);
    } else {
      assert a + z == z;
      ZeroValue(z);
    }
  }

  lemma {:induction false} ZeroValue(z: seq<u8>)
    requires forall x :: x in z ==> x == 0
    ensures Value(z) == 0
  {
    if z != [] {
      assert z[0] in z && forall x :: x in z[1..] ==> x in z;
      ZeroValue(z[1..]);
    }
  }

  /** An eight-byte field whose upper half is zero. */
  lemma Word8(b: seq<u8>, at: nat)
    requires at + 8 <= |b| && forall k :: at + 4 <= k < at + 8 ==> b[k] == 0
    ensures Value(b[at..at + 8]) == Value(b[at..at + 4])
  {
    var z := b[at + 4..at + 8];
    assert b[at..at + 8] == b[at..at + 4] + z;
    forall x | x in z ensures x == 0 {
      var k :| 0 <= k < |z| && z[k] == x;
      assert b[at + 4 + k] == z[k];
    }
    ZeroHigh(b[at..at + 4], z);
  }

  /** The value of such a field. */
  lemma Eight(b: seq<u8>, at: nat)
    requires at + 8 <= |b| && forall k :: at + 4 <= k < at + 8 ==> b[k] == 0
    ensures Value(b[at..at + 8]) ==
      b[at] + 0x100 * (b[at + 1] as int) + 0x1_0000 * (b[at + 2] as int) + 0x100_0000 * (b[at + 3] as int)
  {
    hide Value;
    Word8(b, at);
    Word4(b, at);
  }

  // ---------- a descriptor that its payload holds only in part ----------

  /** A block write of 36 bytes to register 0x1D000, then a patch of register 0x1D024. */
  function SpillByte(k: nat): u8 {
    if k == 1 then 1 else if k == 2 then 4 else if k == 3 then 6 else if k == 8 then 116 else if k == 12 then 2
    else if k == 16 then 1 else if k == 20 then 68 else if k == 25 then 0xD0 else if k == 26 then 1
    else if k == 84 then 129 else if k == 88 then 32 else if k == 92 then 0x24 else if k == 93 then 0xD0
    else if k == 94 then 1 else 0
  }

  const SPILL := seq<u8>(116, k requires 0 <= k => SpillByte(k))

  const SPILL_WRITE := Item(BlockWrite, 16, 68, [0x1D000], 48, 36, [0, 0], Some(0))
  const SPILL_PATCH := Item(DdrPatch, 84, 32, [0x1D024, 0, 0], 0, 0, [], None)

  const SPILL_SYM := Symbol(Argument(0), 80, 0, 0, ShimDma48)

  lemma SpillBytes(k: nat)
    requires k < 116
    ensures |SPILL| == 116 && SPILL[k] == SpillByte(k)
  {}

  /** The buffer's first operation, also after bytes behind its payload have been cleared. */
  lemma SpillFirst(b: seq<u8>)
    requires |b| == 116 && forall k :: 0 <= k < 84 ==> b[k] == SpillByte(k)
    ensures Get(b, 0, Field(12, 4)) == 2 && ReadAt(b, 16) == Ok(SPILL_WRITE)
  {
    hide Layout.Valid, Value;
    SampleIsValid();
    Word4(b, 12);
    Word4(b, 20);
    Word4(b, 24);
    Word4(b, 48);
    Word4(b, 80);
    assert GetAll(b, 16, SampleFields(BlockWrite)) == [0x1D000];
    assert Firsts(b, 48, 36) == [0, 0];
  }

  lemma SpillOperands()
    ensures GetAll(SPILL, 84, SampleFields(DdrPatch)) == [0x1D024, 0, 0]
  {
    hide Value;
    Eight(SPILL, 92);
    Eight(SPILL, 100);
    Eight(SPILL, 108);
    assert SampleFields(DdrPatch) == [Field(8, 8), Field(16, 8), Field(24, 8)];
  }

  lemma SpillSize()
    ensures Get(SPILL, 84, Field(4, 4)) == 32
  {
    hide Value;
    Word4(SPILL, 88);
  }

  lemma SpillSecond()
    ensures ReadAt(SPILL, 84) == Ok(SPILL_PATCH)
  {
    hide Layout.Valid, Value, GetAll, Get, SampleFields, SampleCode;
    SampleIsValid();
    SpillOperands();
    SpillSize();
    assert SPILL[84] == 129;
  }

  const SPILL_INDEX: map<nat, (nat, nat)> := map[0x1D000 := (48, 0), 0x1D020 := (80, 0)]
  const SPILL_MID := Machine(0, false, 0, SPILL_INDEX, [], false)
  const SPILL_END := Machine(0, false, 0, SPILL_INDEX, [SPILL_SYM], false)

  lemma SpillIndexed()
    ensures WellFormed(SPILL_WRITE) && IndexSlots(map[], SPILL_WRITE, 0) == SPILL_INDEX
  {
    var m0: map<nat, (nat, nat)> := map[];
    var m1 := m0[0x1D000 := (48, 0)];
    var m2 := m1[0x1D020 := (80, 0)];
    assert m2 == SPILL_INDEX;
    assert IndexSlots(m2, SPILL_WRITE, 2) == m2;
    assert IndexSlots(m1, SPILL_WRITE, 1) == m2;
  }

  lemma SpillFirstStep()
    ensures WellFormed(SPILL_WRITE) && Take(START, SPILL_WRITE) == Ok(SPILL_MID)
  {
    hide Layout.Valid, IndexSlots;
    SampleIsValid();
    SpillIndexed();
    NothingAdded([]);
  }

  lemma NothingAdded(syms: seq<Symbol>)
    ensures syms + [] == syms
  {}

  lemma SpillPatched()
    ensures PatchHelper(CFG, Anonymous, 0x1D024, 0, 80, 0, 0) == Ok([SPILL_SYM])
  {}

  lemma SpillSecondStep()
    ensures WellFormed(SPILL_PATCH) && Take(SPILL_MID, SPILL_PATCH) == Ok(SPILL_END)
  {
    hide Layout.Valid, IndexSlots, PatchHelper;
    SampleIsValid();
    SpillPatched();
    assert PatchKey(0x1D024) == 0x1D020;
    assert Find(SPILL_INDEX, 0x1D020) == Some((80, 0));
    assert [] + [SPILL_SYM] == [SPILL_SYM];
  }

  lemma OneClear(x: Symbol)
    requires x.schema.ShimDma48?
    ensures ClearsOf([x]) == [x.pos]
  {
    assert [x][1..] == [];
  }

  lemma OneCleared(b: seq<u8>, at: nat)
    requires at + 10 <= |b|
    ensures ClearAll(b, [at]) == Ok(ClearAt(b, at))
  {
    hide ClearAt;
    assert [at][1..] == [];
  }

  lemma SpillRun()
    ensures Walk(SPILL) == Ok((ClearAt(SPILL, 80), SPILL_END)) && OpsOf(SPILL) == Ok([SPILL_WRITE, SPILL_PATCH])
  {
    hide ReadAt, Take, Walk, WalkFrom, OpsOf, Get, WellFormed, ClearAt, SpillByte, ClearAll, ClearsOf;
    SpillFirst(SPILL);
    SpillSecond();
    SpillFirstStep();
    SpillSecondStep();
    NoClears(SPILL);
    OneClear(SPILL_SYM);
    OneCleared(SPILL, 80);
    assert SPILL_MID.syms[|START.syms|..] == [] && SPILL_END.syms[|SPILL_MID.syms|..] == [SPILL_SYM];
    RunOne(SPILL, 16, 2, START, SPILL_WRITE, SPILL_MID, SPILL);
    RunOne(SPILL, 84, 1, SPILL_MID, SPILL_PATCH, SPILL_END, ClearAt(SPILL, 80));
    RunNone(ClearAt(SPILL, 80), 116, SPILL_END);
    WalkIs(SPILL, 2);
    OpsTwo(SPILL, SPILL_WRITE, SPILL_PATCH);
  }

  lemma NoClears(b: seq<u8>)
    ensures ClearsOf([]) == [] && ClearAll(b, []) == Ok(b)
  {}

  /** The cleared bytes reach into the patch operation, which now reads as a block write without a size. */
  lemma SpillAgain()
    ensures Walk(ClearAt(SPILL, 80)).Err?
  {
    hide ReadAt, Take, Walk, WalkFrom, Get, WellFormed, ClearAt, ClearAll, ClearsOf;
    var after := ClearAt(SPILL, 80);
    ClearAtBytes(SPILL, 80);
    SpillFirst(after);
    SpillFirstStep();
    NoClears(after);
    assert SPILL_MID.syms[|START.syms|..] == [];
    RunOne(after, 16, 2, START, SPILL_WRITE, SPILL_MID, after);
    ZeroSize(after);
    RunStops(after, 84, 1, SPILL_MID);
    WalkIs(after, 2);
  }

  lemma ZeroSize(b: seq<u8>)
    requires |b| == 116 && b[84] == 1 && b[88] == b[89] == b[90] == b[91] == 0
    ensures ReadAt(b, 84).Err?
  {
    hide Layout.Valid, Value, GetAll;
    SampleIsValid();
    Word4(b, 88);
  }

  lemma SampleSound(b: seq<u8>, i: Item)
    requires i.len >= 32 && (i.op.BlockWrite? ==> i.at + i.len <= |b| && i.payload == i.at + 32 && i.size == i.len - 32)
    ensures Sound(SAMPLE, b, i)
  {}

  /** The walk accepts a 36-byte payload and a patch of the descriptor that its last four bytes start. Clearing that
      descriptor turns the patch operation into a block write, and a second walk is refused. */
  lemma PartialSlotSpills()
    ensures Spills(SPILL) && SPILL[84] == SampleCode(DdrPatch)
    ensures var r := Walk(SPILL);
      && r.Ok? && |r.value.0| == 116 && r.value.0[84] == SampleCode(BlockWrite) && Walk(r.value.0).Err?
  {
    hide OpsOf, Walk, ClearAt, WellFormed, Spills, Sound;
    SpillRun();
    SpillAgain();
    SpillFirstStep();
    SpillSecondStep();
    ClearAtBytes(SPILL, 80);
    SampleSound(SPILL, SPILL_WRITE);
    SampleSound(SPILL, SPILL_PATCH);
    SpillsWhen(SPILL);
  }

  // ---------- an empty block write inside a PM sequence ----------

  /** A start of a supplied PM sequence of two operations, an empty block write to register 0x1D000, a write. */
  function EmptyByte(k: nat): u8 {
    if k == 1 then 1 else if k == 2 then 4 else if k == 3 then 6 else if k == 8 then 112 else if k == 12 then 3
    else if k == 16 then 9 else if k == 17 then 2
    else if k == 48 then 1 else if k == 52 then 32 else if k == 57 then 0xD0 else if k == 58 then 1
    else if k == 84 then 32 else 0
  }

  const EMPTY_PM := seq<u8>(112, k requires 0 <= k => EmptyByte(k))

  const EMPTY_START := Item(LoadPmStart, 16, 32, [2, 0], 0, 0, [], None)
  const EMPTY_WRITE := Item(BlockWrite, 48, 32, [0x1D000], 80, 0, [], Some(0))
  const EMPTY_NEXT := Item(Write, 80, 32, [0, 0], 0, 0, [], None)

  const EMPTY_SYM := Symbol(PmPacket(0), 80, 0, 0, ShimDma48)

  const EMPTY_ON := Machine(2, true, 0, map[], [], false)
  const EMPTY_MID := Machine(1, true, 0, map[], [EMPTY_SYM], false)
  const EMPTY_END := Machine(0, true, 0, map[], [EMPTY_SYM], false)

  lemma Word3(b: seq<u8>, at: nat)
    requires at + 4 <= |b| && b[at + 3] == 0
    ensures Value(b[at..at + 3]) == Value(b[at..at + 4])
  {
    assert b[at..at + 4] == b[at..at + 3] + [0];
    ZeroHigh(b[at..at + 3], [0]);
  }

  /** The first two operations, also after the third has been touched behind its first four bytes. */
  lemma EmptyFirst(b: seq<u8>)
    requires |b| == 112 && forall k :: 0 <= k < 84 ==> b[k] == EmptyByte(k)
    ensures Get(b, 0, Field(12, 4)) == 3 && ReadAt(b, 16) == Ok(EMPTY_START)
  {
    hide Layout.Valid, Value;
    SampleIsValid();
    Word4(b, 12);
    Word4(b, 17);
    Word3(b, 17);
    Word4(b, 20);
    assert GetAll(b, 16, SampleFields(LoadPmStart)) == [2, 0];
  }

  lemma EmptySecond(b: seq<u8>)
    requires |b| == 112 && forall k :: 0 <= k < 84 ==> b[k] == EmptyByte(k)
    ensures ReadAt(b, 48) == Ok(EMPTY_WRITE)
  {
    hide Layout.Valid, Value;
    SampleIsValid();
    Word4(b, 52);
    Word4(b, 56);
    Word4(b, 80);
    assert GetAll(b, 48, SampleFields(BlockWrite)) == [0x1D000];
    assert Firsts(b, 80, 0) == [];
  }

  /** The last operation, whose size field the walk has cleared or not. */
  lemma EmptyThird(b: seq<u8>)
    requires |b| == 112 && forall k :: 80 <= k < 112 && k != 84 ==> b[k] == 0
    ensures ReadAt(b, 80) == Ok(EMPTY_NEXT.(len := b[84]))
  {
    hide Layout.Valid, Value;
    SampleIsValid();
    Word4(b, 84);
    Eight(b, 88);
    Word4(b, 96);
    assert GetAll(b, 80, SampleFields(Write)) == [0, 0];
  }

  lemma EmptyPatched()
    ensures PatchHelper(CFG, PmPacket(0), 0x1D004, 0, 80, 0, 0) == Ok([EMPTY_SYM])
  {}

  lemma EmptyStarts()
    ensures WellFormed(EMPTY_START) && Take(START, EMPTY_START) == Ok(EMPTY_ON)
  {
    hide Layout.Valid, IndexSlots, PatchHelper;
    SampleIsValid();
    NothingAdded([]);
  }

  lemma EmptyWrites()
    ensures WellFormed(EMPTY_WRITE) && Take(EMPTY_ON, EMPTY_WRITE) == Ok(EMPTY_MID)
  {
    hide Layout.Valid, IndexSlots, PatchHelper;
    SampleIsValid();
    EmptyPatched();
    assert Length(0) == 0 && LowReg(0x1D000) + 4 == 0x1D004;
    assert [] + [EMPTY_SYM] == [EMPTY_SYM];
  }

  lemma EmptyEnds(n: nat)
    ensures WellFormed(EMPTY_NEXT.(len := n)) && Take(EMPTY_MID, EMPTY_NEXT.(len := n)) == Ok(EMPTY_END)
  {
    hide Layout.Valid, IndexSlots, PatchHelper;
    SampleIsValid();
    NothingAdded([EMPTY_SYM]);
  }

  lemma EmptyRun()
    ensures Walk(EMPTY_PM) == Ok((ClearAt(EMPTY_PM, 80), EMPTY_END))
    ensures OpsOf(EMPTY_PM) == Ok([EMPTY_START, EMPTY_WRITE, EMPTY_NEXT])
    ensures OpsOf(ClearAt(EMPTY_PM, 80)) == Ok([EMPTY_START, EMPTY_WRITE, EMPTY_NEXT.(len := 0)])
  {
    hide ReadAt, Take, Walk, WalkFrom, OpsOf, Get, WellFormed, ClearAt, ClearAll, ClearsOf;
    var after := ClearAt(EMPTY_PM, 80);
    ClearAtBytes(EMPTY_PM, 80);
    EmptyFirst(EMPTY_PM);
    EmptyFirst(after);
    EmptySecond(EMPTY_PM);
    EmptySecond(after);
    EmptyThird(EMPTY_PM);
    EmptyThird(after);
    EmptyStarts();
    EmptyWrites();
    EmptyEnds(32);
    EmptyEnds(0);
    NoClears(EMPTY_PM);
    NoClears(after);
    OneClear(EMPTY_SYM);
    OneCleared(EMPTY_PM, 80);
    assert EMPTY_ON.syms[|START.syms|..] == [] && EMPTY_MID.syms[|EMPTY_ON.syms|..] == [EMPTY_SYM];
    assert EMPTY_END.syms[|EMPTY_MID.syms|..] == [];
    RunOne(EMPTY_PM, 16, 3, START, EMPTY_START, EMPTY_ON, EMPTY_PM);
    RunOne(EMPTY_PM, 48, 2, EMPTY_ON, EMPTY_WRITE, EMPTY_MID, after);
    RunOne(after, 80, 1, EMPTY_MID, EMPTY_NEXT.(len := 0), EMPTY_END, after);
    RunNone(after, 80, EMPTY_END);
    WalkIs(EMPTY_PM, 3);
    OpsThree(EMPTY_PM, EMPTY_START, EMPTY_WRITE, EMPTY_NEXT);
    OpsThree(after, EMPTY_START, EMPTY_WRITE, EMPTY_NEXT.(len := 0));
  }

  /** Every payload of the buffer is a multiple of 32 bytes, and yet the walk clears the size of the operation behind
      an empty block write in a PM sequence. */
  lemma EmptyWriteSpills()
    ensures Spills(EMPTY_PM)
    ensures forall i :: i in OpsOf(EMPTY_PM).value && i.op.BlockWrite? ==> i.size % BD_SIZE == 0
    ensures var x, r := OpsOf(EMPTY_PM), Walk(EMPTY_PM);
      && x.Ok? && |x.value| == 3 && r.Ok?
      && OpsOf(r.value.0) == Ok(x.value[2 := x.value[2].(len := 0)]) && x.value[2].len == 32
  {
    hide OpsOf, Walk, ClearAt, WellFormed, Spills, Sound;
    EmptyRun();
    EmptyStarts();
    EmptyWrites();
    EmptyEnds(32);
    assert [EMPTY_START, EMPTY_WRITE, EMPTY_NEXT][2 := EMPTY_NEXT.(len := 0)]
      == [EMPTY_START, EMPTY_WRITE, EMPTY_NEXT.(len := 0)];
    SampleSound(EMPTY_PM, EMPTY_START);
    SampleSound(EMPTY_PM, EMPTY_WRITE);
    SampleSound(EMPTY_PM, EMPTY_NEXT);
    SpillsWhen(EMPTY_PM);
  }
}
