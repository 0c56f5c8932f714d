/** The transaction walker (`process_txn`): register index, PM countdown, relocations, clearing. */
module Txn {
  import opened Base
  import opened TxnLayout

  const SHIM_BD0: nat := 0x1D000
  const SHIM_BDS: nat := 16
  const MEM_BD0: nat := 0xA0000
  const MEM_BDS: nat := 48
  const BD_SIZE: nat := 0x20
  const MAX_ARG_INDEX: nat := 512

  /** Names the walker gives a relocation. */
  datatype SymName =
    | Anonymous | Scratchpad | PmPacket(id: nat) | ScratchControl | PdiImage(id: nat) | XrtBuffer(id: nat)
    | Argument(n: nat)

  datatype Schema = Scaler32 | ShimDma48 | Address64

  /** For `Scaler32` the size is a mask. */
  datatype Symbol = Symbol(name: SymName, pos: nat, addend: u32, size: nat, schema: Schema)

  /** Supplied control packets with their sizes, known PDIs, external buffer ids, argument offset, and
      the name given to address patches of the walked section. */
  datatype Config = Config(pms: map<nat, nat>, pdis: set<nat>, xrt: map<nat, nat>, argOffset: nat, argname: SymName)

  // ---------- one operation ----------

  /** An operation as the walker reads it: its operand fields and, for a block write, the first word of
      every 32-byte slot of the payload and the payload's first word. */
  datatype Item = Item(op: Opcode, at: nat, len: nat, vals: seq<nat>, payload: nat, size: nat, firsts: seq<u32>,
                       head: Option<u32>)

  function WordAt(b: seq<u8>, at: nat): u32
    requires at + 4 <= |b|
  {
    WordBound(b[at..at + 4]);
    Value(b[at..at + 4])
  }

  /** Number of 32-byte slots a payload of `size` bytes starts. */
  function Slots(size: nat): nat {
    (size + 31) / 32
  }

  function Firsts(b: seq<u8>, payload: nat, size: nat): (r: seq<u32>)
    requires Slots(size) > 0 ==> payload + 32 * (Slots(size) - 1) + 4 <= |b|
    ensures |r| == Slots(size) && forall i :: 0 <= i < |r| ==> r[i] == WordAt(b, payload + 32 * i)
  {
    seq(Slots(size), i requires 0 <= i < Slots(size) => WordAt(b, payload + 32 * i))
  }

  /** Reads past the buffer, and a block write shorter than its header, are left undefined by the
      source. */
  function Decode(l: Layout, b: seq<u8>, at: nat): Result<Item>
    requires l.Valid()
  {
    if at + l.op >= |b| then Err(Crash) else
    match l.opcodeOf(b[at + l.op])
    case None => Err(InvalidOperation)
    case Some(o) =>
      assert l.OpValid(o);
      if at + l.span(o) > |b| then Err(Crash) else
      assert forall i :: 0 <= i < |l.fields(o)| ==> l.FieldValid(o, l.fields(o)[i]);
      var vals := GetAll(b, at, l.fields(o));
      var len := if FixedSize(o) then l.span(o) else Get(b, at, l.size(o));
      if !o.BlockWrite? then Ok(Item(o, at, len, vals, 0, 0, [], None)) else
      if len < l.span(o) then Err(Crash) else
      var payload, size := at + l.span(o), len - l.span(o);
      if Slots(size) > 0 && payload + 32 * (Slots(size) - 1) + 4 > |b| then Err(Crash) else
      Ok(Item(o, at, len, vals, payload, size, Firsts(b, payload, size), if payload + 4 <= |b|
        then Some(WordAt(b, payload)) else None))
  }

  predicate WellFormed(i: Item) {
    && |i.vals| == Operands(i.op)
    && (i.op.BlockWrite? ==> i.vals[0] < P32 && i.size < P32 && |i.firsts| == Slots(i.size))
  }

  lemma DecodeWellFormed(l: Layout, b: seq<u8>, at: nat)
    requires l.Valid()
    ensures Decode(l, b, at).Ok? ==> WellFormed(Decode(l, b, at).value)
  {
    hide Value, GetAll, Firsts;
    if Decode(l, b, at).Ok? {
      var o := l.opcodeOf(b[at + l.op]).value;
      assert l.OpValid(o);
      if o.BlockWrite? {
        assert l.FieldValid(o, l.fields(o)[0]);
        GetWord(b, at, l.fields(o)[0]);
        GetWord(b, at, l.size(o));
      }
    }
  }

  lemma GetWord(b: seq<u8>, at: nat, f: Field)
    requires at + f.at + f.width <= |b| && f.width == 4
    ensures Get(b, at, f) < P32
  {
    WordBound(b[at + f.at..at + f.at + 4]);
  }

  // ---------- the state of the walk ----------

  datatype Machine = Machine(left: nat, pmExist: bool, pmId: nat, index: map<nat, (nat, nat)>, syms: seq<Symbol>,
                             preempt: bool)

  const START := Machine(0, false, 0, map[], [], false)

  predicate IsBd(base: nat, count: nat, reg: int) {
    base <= reg < base + BD_SIZE * count && (reg - base) % BD_SIZE == 0
  }

  /** `patch_helper`: at most one relocation; a `ShimDma48` one also clears the descriptor. */
  function PatchHelper(cfg: Config, name: SymName, reg: nat, argidx: nat, offset: nat, length: nat,
                       addend: nat): Result<seq<Symbol>> {
    if addend >= P32 then Err(InvalidAsm) else
    if argidx > MAX_ARG_INDEX + cfg.argOffset then Err(InvalidAsm) else
    if name.ScratchControl? then Ok([Symbol(name, offset, addend, length, Address64)]) else
    if IsBd(MEM_BD0, MEM_BDS, reg) then Ok([Symbol(Argument(argidx), offset, addend, 0x1FFFF, Scaler32)]) else
    if IsBd(MEM_BD0, MEM_BDS, reg - 4) then Ok([Symbol(Argument(argidx), offset + 4, addend, 0x7FFFF, Scaler32)]) else
    if IsBd(SHIM_BD0, SHIM_BDS, reg) then Ok([Symbol(Argument(argidx), offset, addend, 0xFFFF_FFFF, Scaler32)]) else
    if IsBd(SHIM_BD0, SHIM_BDS, reg - 4) then
      var arg := (argidx - cfg.argOffset) % P32;
      Ok([Symbol(if name != Anonymous then name else if arg in cfg.xrt then XrtBuffer(cfg.xrt[arg])
        else Argument(argidx),
                 offset, addend, length, ShimDma48)])
    else Ok([])
  }

  /** Lengths are 32-bit products. */
  function Length(word: u32): nat {
    word * 4 % P32
  }

  /** The key of slot `k` of a block write, a 32-bit sum. */
  function Key(reg: nat, k: nat): nat {
    (reg + BD_SIZE * k) % P32
  }

  /** The index after the slots from `k` on. */
  function IndexSlots(m: map<nat, (nat, nat)>, i: Item, k: nat): map<nat, (nat, nat)>
    requires WellFormed(i) && i.op.BlockWrite? && k <= |i.firsts|
    decreases |i.firsts| - k
  {
    if k == |i.firsts| then m else
      IndexSlots(m[Key(i.vals[0], k) := (i.payload + BD_SIZE * k, Length(i.firsts[k]))], i, k + 1)
  }

  /** The registers of `DDR_PATCH` point at the first or second word of a descriptor. */
  function PatchKey(regaddr: nat): nat {
    regaddr % P32 / 16 * 16
  }

  function LowReg(reg: nat): nat {
    reg % 0x10_0000
  }

  /** Relocations of one operation, given the PM state and the index. */
  function Relocate(cfg: Config, l: Layout, i: Item, inPm: bool, pmId: nat,
                    found: Option<(nat, nat)>): Result<seq<Symbol>>
    requires l.Valid() && WellFormed(i)
  {
    match i.op
    case BlockWrite =>
      if !inPm then Ok([]) else
      if i.head.None? then Err(Crash) else
      var length := Length(i.head.value);
      if (if pmId in cfg.pms then cfg.pms[pmId] else 0) < length then Err(InvalidAsm) else
      PatchHelper(cfg, PmPacket(pmId), LowReg(i.vals[0]) + 4, 0, i.payload, length, 0)
    case LoadPdi =>
      assert l.OpValid(LoadPdi);
      if i.vals[0] !in cfg.pdis then Err(InvalidAsm) else
      Ok([Symbol(PdiImage(i.vals[0]), i.at + l.fields(LoadPdi)[2].at, 0, i.vals[1], Address64)])
    case CreateScratchpad =>
      assert l.OpValid(CreateScratchpad);
      PatchHelper(cfg, ScratchControl, 0, 0, i.at + l.fields(CreateScratchpad)[1].at, i.vals[0], 0)
    case LoadPmStart => if i.vals[0] == 0 then Err(InvalidAsm) else Ok([])
    case DdrPatch =>
      if inPm then Err(InvalidAsm) else
      if found.None? then Err(InvalidAsm) else
      PatchHelper(cfg, cfg.argname, LowReg(i.vals[0]), (i.vals[1] + cfg.argOffset) % P32, found.value.0, found.value.1,
        i.vals[2])
    case _ => Ok([])
  }

  function Find(m: map<nat, (nat, nat)>, key: nat): Option<(nat, nat)> {
    if key in m then Some(m[key]) else None
  }

  /** The key a `DDR_PATCH` looks up. */
  function KeyOf(i: Item): nat
    requires WellFormed(i)
  {
    if i.op.DdrPatch? then PatchKey(i.vals[0]) else 0
  }

  /** One operation of the loop. */
  function Step(cfg: Config, l: Layout, m: Machine, i: Item): Result<Machine>
    requires l.Valid() && WellFormed(i)
  {
    var inPm := m.left > 0 && m.pmExist;
    var syms :- Relocate(cfg, l, i, inPm, m.pmId, Find(m.index, KeyOf(i)));
    var m1 := m.(syms := m.syms + syms);
    var m2 := if i.op.BlockWrite? && !inPm then m1.(index := IndexSlots(m.index, i, 0))
      else if i.op.LoadPmStart? then m1.(left := i.vals[0] + 1, pmExist := i.vals[1] in cfg.pms, pmId := i.vals[1])
      else if i.op.Preempt? then m1.(preempt := true)
      else m1;
    Ok(m2.(left := if m2.left > 0 then m2.left - 1 else 0))
  }

  function Steps(cfg: Config, l: Layout, m: Machine, items: seq<Item>): Result<Machine>
    requires l.Valid() && forall i :: i in items ==> WellFormed(i)
    decreases |items|
  {
    if items == [] then Ok(m) else
    var m' :- Step(cfg, l, m, items[0]);
    Steps(cfg, l, m', items[1..])
  }

  // ---------- what the walk means, looking backwards ----------

  /** Index of the latest `LOAD_PM_START` before operation `k`, or -1. */
  ghost function LastPm(items: seq<Item>, k: nat): (r: int)
    requires k <= |items|
    ensures -1 <= r < k && (r >= 0 ==> items[r].op.LoadPmStart?)
    ensures forall i :: r < i < k ==> !items[i].op.LoadPmStart?
  {
    if k == 0 then -1 else if items[k - 1].op.LoadPmStart? then k - 1 else LastPm(items, k - 1)
  }

  ghost predicate AllWellFormed(items: seq<Item>) {
    forall i :: 0 <= i < |items| ==> WellFormed(items[i])
  }

  /** Operation `k` is one of the `count` operations that follow the latest `LOAD_PM_START`, and that
      start names a supplied control packet. */
  ghost predicate InPm(cfg: Config, items: seq<Item>, k: nat)
    requires k <= |items| && AllWellFormed(items)
  {
    var s := LastPm(items, k);
    s >= 0 && k - s <= items[s].vals[0] && items[s].vals[1] in cfg.pms
  }

  ghost function PmIdAt(items: seq<Item>, k: nat): nat
    requires k <= |items| && AllWellFormed(items)
  {
    var s := LastPm(items, k);
    if s >= 0 then items[s].vals[1] else 0
  }

  /** The block write covers register `reg` at stride 0x20. */
  ghost predicate Covers(i: Item, reg: nat)
    requires WellFormed(i)
  {
    i.op.BlockWrite? && var d := (reg - i.vals[0]) % P32; d % BD_SIZE == 0 && d / BD_SIZE < |i.firsts|
  }

  /** Payload offset and transfer length of the descriptor of `reg` in a block write that covers it. */
  ghost function SlotOf(i: Item, reg: nat): (nat, nat)
    requires WellFormed(i) && Covers(i, reg)
  {
    var k := (reg - i.vals[0]) % P32 / BD_SIZE;
    (i.payload + BD_SIZE * k, Length(i.firsts[k]))
  }

  /** The latest earlier block write outside a supplied PM sequence that covers `reg`. */
  ghost function Latest(cfg: Config, items: seq<Item>, k: nat, reg: nat): Option<(nat, nat)>
    requires k <= |items| && AllWellFormed(items)
  {
    if k == 0 then None else
    if Covers(items[k - 1], reg) && !InPm(cfg, items, k - 1) then Some(SlotOf(items[k - 1], reg))
    else Latest(cfg, items, k - 1, reg)
  }

  /** What operation `k` contributes, without any running state. */
  ghost function Contribution(cfg: Config, l: Layout, items: seq<Item>, k: nat): Result<seq<Symbol>>
    requires l.Valid() && k < |items| && AllWellFormed(items)
  {
    Relocate(cfg, l, items[k], InPm(cfg, items, k), PmIdAt(items, k), Latest(cfg, items, k, KeyOf(items[k])))
  }

  /** Contributions of the first `k` operations. */
  ghost function Contributions(cfg: Config, l: Layout, items: seq<Item>, k: nat): Result<seq<Symbol>>
    requires l.Valid() && k <= |items| && AllWellFormed(items)
  {
    if k == 0 then Ok([]) else
    var before :- Contributions(cfg, l, items, k - 1);
    var here :- Contribution(cfg, l, items, k - 1);
    Ok(before + here)
  }

  /** The running state before operation `k` says what looking backwards says. */
  ghost predicate Agrees(cfg: Config, items: seq<Item>, k: nat, m: Machine)
    requires k <= |items| && AllWellFormed(items)
  {
    && (var s := LastPm(items, k);
        if s < 0 then m.left == 0
        else m.left == (if items[s].vals[0] + 1 >= k - s then items[s].vals[0] + 1 - (k - s) else 0)
             && m.pmExist == (items[s].vals[1] in cfg.pms))
    && m.pmId == PmIdAt(items, k)
    && forall reg: nat :: reg < P32 ==> Find(m.index, reg) == Latest(cfg, items, k, reg)
  }

  lemma SlotKey(reg: nat, base: nat, k: nat)
    requires reg < P32 && base < P32 && BD_SIZE * k < P32
    ensures Key(base, k) == reg <==> (reg - base) % P32 == BD_SIZE * k
  {}

  /** Indexing the slots of a block write is the same as asking whether it covers the register. */
  lemma {:induction false} IndexFinds(m: map<nat, (nat, nat)>, i: Item, k: nat, reg: nat)
    requires WellFormed(i) && i.op.BlockWrite? && k <= |i.firsts| && reg < P32
    ensures var d := (reg - i.vals[0]) % P32;
      Find(IndexSlots(m, i, k), reg) ==
        if d % BD_SIZE == 0 && k <= d / BD_SIZE < |i.firsts| then Some((i.payload + d, Length(i.firsts[d / BD_SIZE])))
          else Find(m, reg)
    decreases |i.firsts| - k
  {
    if k < |i.firsts| {
      SlotKey(reg, i.vals[0], k);
      IndexFinds(m[Key(i.vals[0], k) := (i.payload + BD_SIZE * k, Length(i.firsts[k]))], i, k + 1, reg);
    }
  }

  lemma PmAgrees(cfg: Config, items: seq<Item>, k: nat, m: Machine)
    requires k <= |items| && AllWellFormed(items) && Agrees(cfg, items, k, m)
    ensures m.left > 0 && m.pmExist <==> InPm(cfg, items, k)
  {}

  lemma PmNext(cfg: Config, l: Layout, items: seq<Item>, k: nat, m: Machine)
    requires l.Valid() && k < |items| && AllWellFormed(items) && Agrees(cfg, items, k, m)
    ensures var r := Step(cfg, l, m, items[k]); r.Ok? ==>
      && (var s := LastPm(items, k + 1);
          if s < 0 then r.value.left == 0
          else r.value.left == (if items[s].vals[0] + 1 >= k + 1 - s then items[s].vals[0] + 1 - (k + 1 - s) else 0)
               && r.value.pmExist == (items[s].vals[1] in cfg.pms))
      && r.value.pmId == PmIdAt(items, k + 1)
  {
    hide Relocate, IndexSlots, Layout.Valid, Latest;
  }

  lemma IndexNext(cfg: Config, l: Layout, items: seq<Item>, k: nat, m: Machine, reg: nat)
    requires l.Valid() && k < |items| && AllWellFormed(items) && Agrees(cfg, items, k, m) && reg < P32
    ensures var r := Step(cfg, l, m, items[k]); r.Ok? ==> Find(r.value.index, reg) == Latest(cfg, items, k + 1, reg)
  {
    hide Relocate, IndexSlots, Layout.Valid;
    PmAgrees(cfg, items, k, m);
    var i := items[k];
    if i.op.BlockWrite? {
      IndexFinds(m.index, i, 0, reg);
      hide InPm;
    }
  }

  /** One operation: the running state leads to the same relocations as looking backwards. */
  lemma StepAgrees(cfg: Config, l: Layout, items: seq<Item>, k: nat, m: Machine)
    requires l.Valid() && k < |items| && AllWellFormed(items) && Agrees(cfg, items, k, m)
    ensures var r, c := Step(cfg, l, m, items[k]), Contribution(cfg, l, items, k);
      r.Ok? == c.Ok? && (r.Err? ==> r.error == c.error)
      && (r.Ok? ==> r.value.syms == m.syms + c.value && Agrees(cfg, items, k + 1, r.value))
  {
    hide Relocate, IndexSlots, Layout.Valid, InPm, Latest;
    PmAgrees(cfg, items, k, m);
    PmNext(cfg, l, items, k, m);
    forall reg: nat | reg < P32
      ensures Step(cfg, l, m, items[k]).Ok? ==>
        Find(Step(cfg, l, m, items[k]).value.index, reg) == Latest(cfg, items, k + 1, reg)
    {
      IndexNext(cfg, l, items, k, m, reg);
    }
    assert KeyOf(items[k]) < P32;
  }

  lemma {:induction false} ContributionsFail(cfg: Config, l: Layout, items: seq<Item>, k: nat, n: nat)
    requires l.Valid() && k <= n <= |items| && AllWellFormed(items)
    ensures Contributions(cfg, l, items, k).Err? ==> Contributions(cfg, l, items, n) == Contributions(cfg, l, items, k)
  {
    hide Contribution;
    if k < n {
      ContributionsFail(cfg, l, items, k, n - 1);
    }
  }

  lemma {:induction false} WalkFrom(cfg: Config, l: Layout, items: seq<Item>, k: nat, m: Machine)
    requires l.Valid() && k <= |items| && AllWellFormed(items) && Agrees(cfg, items, k, m)
    requires Contributions(cfg, l, items, k) == Ok(m.syms)
    ensures var r, c := Steps(cfg, l, m, items[k..]), Contributions(cfg, l, items, |items|);
      r.Ok? == c.Ok? && (if r.Ok? then r.value.syms == c.value
        && Agrees(cfg, items, |items|, r.value) else r.error == c.error)
    decreases |items| - k
  {
    hide Step, Contribution, Agrees, Layout.Valid;
    if k < |items| {
      assert items[k..][0] == items[k] && items[k..][1..] == items[k + 1..];
      StepAgrees(cfg, l, items, k, m);
      var r := Step(cfg, l, m, items[k]);
      if r.Ok? {
        WalkFrom(cfg, l, items, k + 1, r.value);
      } else {
        ContributionsFail(cfg, l, items, k + 1, |items|);
      }
    }
  }

  /** For every stream of operations the walk agrees with looking backwards: it accepts, rejects and
      relocates exactly as if each operation searched the earlier ones for its PM start and for the
      latest block write covering its register, and its final index is that search for every register. */
  lemma WalkLooksBack(cfg: Config, l: Layout, items: seq<Item>)
    requires l.Valid() && AllWellFormed(items)
    ensures var r, c := Steps(cfg, l, START, items), Contributions(cfg, l, items, |items|);
      && r.Ok? == c.Ok?
      && (r.Err? ==> r.error == c.error)
      && (r.Ok? ==> r.value.syms == c.value)
      && (r.Ok? ==> forall reg: nat :: reg < P32 ==> Find(r.value.index, reg) == Latest(cfg, items, |items|, reg))
  {
    assert items[0..] == items;
    assert Agrees(cfg, items, 0, START);
    WalkFrom(cfg, l, items, 0, START);
    hide Steps, Contributions, Latest, LastPm;
  }

  /** A `DDR_PATCH` outside a PM sequence is rejected for want of a block write exactly when no
      earlier block write outside a supplied PM sequence covers its register. */
  lemma {:induction false} LatestMeans(cfg: Config, items: seq<Item>, k: nat, reg: nat)
    requires k <= |items| && AllWellFormed(items)
    ensures var f := Latest(cfg, items, k, reg);
      if f.None? then forall j :: 0 <= j < k ==> !Covers(items[j], reg) || InPm(cfg, items, j)
      else exists j :: (0 <= j < k && Covers(items[j], reg) && !InPm(cfg, items, j) && f.value == SlotOf(items[j], reg)
                        && forall i :: j < i < k ==> !Covers(items[i], reg) || InPm(cfg, items, i))
  {
    hide Covers, InPm, SlotOf;
    if k > 0 && !(Covers(items[k - 1], reg) && !InPm(cfg, items, k - 1)) {
      LatestMeans(cfg, items, k - 1, reg);
    }
  }

  /** The countdown of the walk: after a start of count `c` at `s` with no other start since, the running
      state treats the operations `s + 1` to `s + c` as part of a supplied sequence and no others. */
  lemma PmMarksCount(cfg: Config, l: Layout, items: seq<Item>, s: nat, k: nat)
    requires l.Valid() && s < k <= |items| && AllWellFormed(items) && items[s].op.LoadPmStart?
    requires forall i :: s < i < k ==> !items[i].op.LoadPmStart?
    requires Steps(cfg, l, START, items[..k]).Ok?
    ensures var m := Steps(cfg, l, START, items[..k]).value;
      (m.left > 0 && m.pmExist) <==> k <= s + items[s].vals[0] && items[s].vals[1] in cfg.pms
  {
    hide Contributions, Latest, Steps, Layout.Valid;
    var before := items[..k];
    assert before[0..] == before && before[s] == items[s];
    assert Agrees(cfg, before, 0, START) by { AgreesStart(cfg, before); }
    assert Contributions(cfg, l, before, 0) == Ok([]) by { NothingYet(cfg, l, before); }
    WalkFrom(cfg, l, before, 0, START);
    assert LastPm(before, k) == s;
  }

  lemma AgreesStart(cfg: Config, items: seq<Item>)
    requires AllWellFormed(items)
    ensures Agrees(cfg, items, 0, START)
  {}

  lemma NothingYet(cfg: Config, l: Layout, items: seq<Item>)
    requires l.Valid() && AllWellFormed(items)
    ensures Contributions(cfg, l, items, 0) == Ok([])
  {}
}
