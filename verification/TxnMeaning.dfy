/** What the relocations of a walk contain, operation by operation, said without the walk's own helpers. */
module TxnMeaning {
  import opened Base
  import opened TxnLayout
  import opened Txn
  import opened TxnBuffer
  import TxnHarmless

  // ---------- registers ----------

  /** `reg` is word `word` of descriptor `bd` of a bank of `count` descriptors, 32 bytes each, from `base` on. */
  ghost predicate WordOf(base: nat, count: nat, bd: nat, word: nat, reg: nat) {
    bd < count && reg == base + 0x20 * bd + 4 * word
  }

  /** Word `word` of a descriptor of a memory tile. */
  ghost predicate MemWord(reg: nat, word: nat) {
    exists bd: nat :: WordOf(0xA0000, 48, bd, word, reg)
  }

  /** Word `word` of a descriptor of a shim tile. */
  ghost predicate ShimWord(reg: nat, word: nat) {
    exists bd: nat :: WordOf(0x1D000, 16, bd, word, reg)
  }

  lemma BankWord(base: nat, count: nat, word: nat, reg: nat)
    requires word < 8
    ensures (exists bd: nat :: WordOf(base, count, bd, word, reg)) <==> IsBd(base, count, reg - 4 * word)
  {
    if IsBd(base, count, reg - 4 * word) {
      assert WordOf(base, count, (reg - 4 * word - base) / 0x20, word, reg);
    }
  }

  /** The four register classes exclude each other. */
  lemma ClassesApart(reg: nat)
    ensures MemWord(reg, 0) ==> !MemWord(reg, 1) && !ShimWord(reg, 0) && !ShimWord(reg, 1)
    ensures MemWord(reg, 1) ==> !ShimWord(reg, 0) && !ShimWord(reg, 1)
    ensures ShimWord(reg, 0) ==> !ShimWord(reg, 1)
  {}

  /** What is recorded for a register in the descriptor at `pos`: the length or the address word of a memory tile's
      descriptor, the length or the address of a shim tile's, and nothing for any other register. */
  ghost predicate RecordsFor(reg: nat, pos: nat, index: nat, addend: u32, length: nat, name: SymName,
                             syms: seq<Symbol>) {
    && (MemWord(reg, 0) ==> syms == [Symbol(Argument(index), pos, addend, 0x1FFFF, Scaler32)])
    && (MemWord(reg, 1) ==> syms == [Symbol(Argument(index), pos + 4, addend, 0x7FFFF, Scaler32)])
    && (ShimWord(reg, 0) ==> syms == [Symbol(Argument(index), pos, addend, 0xFFFF_FFFF, Scaler32)])
    && (ShimWord(reg, 1) ==> syms == [Symbol(name, pos, addend, length, ShimDma48)])
    && (!MemWord(reg, 0) && !MemWord(reg, 1) && !ShimWord(reg, 0) && !ShimWord(reg, 1) ==> syms == [])
  }

  // ---------- one operation ----------

  /** Slot `s` of the block write is the descriptor at register `key`: the slots follow each other at 32 bytes. */
  ghost predicate SlotAt(i: Item, s: nat, key: nat)
    requires WellFormed(i)
  {
    i.op.BlockWrite? && 0x20 * s < i.size && (i.vals[0] + 0x20 * s) % 0x1_0000_0000 == key
  }

  ghost predicate HasSlot(i: Item, key: nat)
    requires WellFormed(i)
  {
    exists s: nat :: SlotAt(i, s, key)
  }

  /** `j` is the latest operation before `k` that writes the descriptor at register `key`, supplied PM sequences
      aside. */
  ghost predicate Writes(cfg: Config, items: seq<Item>, k: nat, key: nat, j: nat)
    requires k <= |items| && AllWellFormed(items)
  {
    && j < k && HasSlot(items[j], key) && !InPm(cfg, items, j)
    && forall x :: j < x < k && HasSlot(items[x], key) ==> InPm(cfg, items, x)
  }

  /** The register with its low four bits cleared. */
  function DescriptorOf(reg: nat): nat {
    reg % 0x1_0000_0000 - reg % 16
  }

  /** The name given to the address of a shim descriptor. */
  function AddressName(cfg: Config, argument: nat): SymName {
    if cfg.argname != Anonymous then cfg.argname
    else if argument % 0x1_0000_0000 in cfg.xrt then XrtBuffer(cfg.xrt[argument % 0x1_0000_0000])
    else Argument((argument + cfg.argOffset) % 0x1_0000_0000)
  }

  /** The walk goes past operation `k`. */
  ghost predicate Accepts(cfg: Config, items: seq<Item>, k: nat)
    requires k < |items| && AllWellFormed(items)
  {
    var i := items[k];
    match i.op
    case BlockWrite =>
      InPm(cfg, items, k) ==>
        i.head.Some? && PmIdAt(items, k) in cfg.pms
        && (i.head.value as nat) * 4 % 0x1_0000_0000 <= cfg.pms[PmIdAt(items, k)]
    case LoadPdi => i.vals[0] in cfg.pdis
    case LoadPmStart => i.vals[0] > 0
    case DdrPatch =>
      && !InPm(cfg, items, k) && (exists j: nat :: Writes(cfg, items, k, DescriptorOf(i.vals[0]), j))
      && i.vals[2] <= 0xFFFF_FFFF && (i.vals[1] + cfg.argOffset) % 0x1_0000_0000 <= 512 + cfg.argOffset
    case _ => true
  }

  /** A `DDR_PATCH`: the descriptor that slot `s` of operation `j` writes gets the operand's addend and the length that
      the descriptor's first word holds, in words. */
  ghost predicate PatchOf(cfg: Config, items: seq<Item>, k: nat, j: nat, s: nat, syms: seq<Symbol>)
    requires k < |items| && AllWellFormed(items) && items[k].op.DdrPatch?
  {
    && Writes(cfg, items, k, DescriptorOf(items[k].vals[0]), j) && SlotAt(items[j], s, DescriptorOf(items[k].vals[0]))
    && items[k].vals[2] <= 0xFFFF_FFFF
    && var i, pos, length := items[k], items[j].payload + 0x20 * s, (items[j].firsts[s] as nat) * 4 % 0x1_0000_0000;
      if cfg.argname.ScratchControl? then syms == [Symbol(ScratchControl, pos, i.vals[2], length, Address64)]
      else RecordsFor(i.vals[0] % 0x10_0000, pos, (i.vals[1] + cfg.argOffset) % 0x1_0000_0000, i.vals[2], length,
                      AddressName(cfg, i.vals[1]), syms)
  }

  /** What operation `k` adds to the relocations. */
  ghost predicate Adds(cfg: Config, l: Layout, items: seq<Item>, k: nat, syms: seq<Symbol>)
    requires l.Valid() && k < |items| && AllWellFormed(items)
  {
    var i := items[k];
    match i.op
    case BlockWrite =>
      if InPm(cfg, items, k) then
        i.head.Some? && RecordsFor(i.vals[0] % 0x10_0000 + 4, i.payload, 0, 0,
                                   (i.head.value as nat) * 4 % 0x1_0000_0000, PmPacket(PmIdAt(items, k)), syms)
      else syms == []
    case LoadPdi =>
      assert l.OpValid(LoadPdi);
      syms == [Symbol(PdiImage(i.vals[0]), i.at + l.fields(LoadPdi)[2].at, 0, i.vals[1], Address64)]
    case CreateScratchpad =>
      assert l.OpValid(CreateScratchpad);
      syms == [Symbol(ScratchControl, i.at + l.fields(CreateScratchpad)[1].at, 0, i.vals[0], Address64)]
    case DdrPatch => exists j: nat, s: nat :: PatchOf(cfg, items, k, j, s, syms)
    case _ => syms == []
  }

  // ---------- the helper ----------

  lemma HelperRecords(cfg: Config, name: SymName, reg: nat, index: nat, pos: nat, length: nat, addend: nat,
                      shim: SymName)
    requires !name.ScratchControl?
    requires shim == if name != Anonymous then name
      else if (index - cfg.argOffset) % P32 in cfg.xrt then XrtBuffer(cfg.xrt[(index - cfg.argOffset) % P32])
      else Argument(index)
    ensures var r := PatchHelper(cfg, name, reg, index, pos, length, addend);
      && (r.Ok? <==> addend <= 0xFFFF_FFFF && index <= 512 + cfg.argOffset)
      && (r.Ok? ==> RecordsFor(reg, pos, index, addend, length, shim, r.value))
  {
    BankWord(0xA0000, 48, 0, reg);
    BankWord(0xA0000, 48, 1, reg);
    BankWord(0x1D000, 16, 0, reg);
    BankWord(0x1D000, 16, 1, reg);
    ClassesApart(reg);
    hide MemWord, ShimWord, IsBd;
  }

  lemma ScratchRecords(cfg: Config, reg: nat, index: nat, pos: nat, length: nat, addend: nat)
    ensures var r := PatchHelper(cfg, ScratchControl, reg, index, pos, length, addend);
      && (r.Ok? <==> addend <= 0xFFFF_FFFF && index <= 512 + cfg.argOffset)
      && (r.Ok? ==> r.value == [Symbol(ScratchControl, pos, addend, length, Address64)])
  {
    hide IsBd;
  }

  // ---------- the search ----------

  lemma SlotCovers(i: Item, s: nat, key: nat)
    requires WellFormed(i) && key < P32 && SlotAt(i, s, key)
    ensures s < |i.firsts| && Covers(i, key)
    ensures SlotOf(i, key) == (i.payload + 0x20 * s, (i.firsts[s] as nat) * 4 % 0x1_0000_0000)
  {
    SlotKey(key, i.vals[0], s);
  }

  /** Covering a register is having a slot for it. */
  lemma CoversIsSlot(i: Item, key: nat)
    requires WellFormed(i) && key < P32
    ensures Covers(i, key) <==> HasSlot(i, key)
  {
    if Covers(i, key) {
      var s := (key - i.vals[0]) % P32 / BD_SIZE;
      SlotKey(key, i.vals[0], s);
      assert SlotAt(i, s, key);
    }
    if s: nat :| SlotAt(i, s, key) {
      SlotCovers(i, s, key);
    }
  }

  lemma WritesFirst(cfg: Config, items: seq<Item>, k: nat, key: nat)
    requires 0 < k <= |items| && AllWellFormed(items)
    ensures var here := HasSlot(items[k - 1], key) && !InPm(cfg, items, k - 1);
      forall j: nat :: Writes(cfg, items, k, key, j) <==> if here then j == k - 1 else Writes(cfg, items, k - 1, key, j)
  {
    hide InPm, HasSlot;
  }

  /** The backward search finds something exactly when there is a latest write. */
  lemma {:induction false} LatestFinds(cfg: Config, items: seq<Item>, k: nat, key: nat)
    requires k <= |items| && AllWellFormed(items) && key < P32
    ensures Latest(cfg, items, k, key).Some? <==> exists j: nat :: Writes(cfg, items, k, key, j)
  {
    hide InPm, Covers, HasSlot, Writes, WellFormed;
    if k == 0 {
      forall j: nat ensures !Writes(cfg, items, 0, key, j) {
        if Writes(cfg, items, 0, key, j) {
          WritesBefore(cfg, items, 0, key, j);
        }
      }
    } else {
      assert WellFormed(items[k - 1]);
      var before := k - 1;
      LatestFinds(cfg, items, before, key);
      CoversIsSlot(items[k - 1], key);
      WritesFirst(cfg, items, k, key);
      if HasSlot(items[k - 1], key) && !InPm(cfg, items, k - 1) {
        assert Writes(cfg, items, k, key, k - 1);
      } else if Latest(cfg, items, k, key).Some? {
        var j: nat :| Writes(cfg, items, before, key, j);
        assert Writes(cfg, items, k, key, j);
      }
    }
  }

  /** What it finds is that write's slot. */
  lemma {:induction false} LatestSlot(cfg: Config, items: seq<Item>, k: nat, key: nat, j: nat, s: nat)
    requires k <= |items| && AllWellFormed(items) && key < P32
    requires Writes(cfg, items, k, key, j) && SlotAt(items[j], s, key)
    ensures Latest(cfg, items, k, key) ==
      Some((items[j].payload + 0x20 * s, (items[j].firsts[s] as nat) * 4 % 0x1_0000_0000))
  {
    SlotCovers(items[j], s, key);
    hide InPm, Covers, HasSlot, Writes, WellFormed, SlotOf;
    assert k > 0 && WellFormed(items[k - 1]) by { WritesBefore(cfg, items, k, key, j); }
    CoversIsSlot(items[k - 1], key);
    WritesFirst(cfg, items, k, key);
    if !(HasSlot(items[k - 1], key) && !InPm(cfg, items, k - 1)) {
      LatestSlot(cfg, items, k - 1, key, j, s);
    }
  }

  lemma WritesBefore(cfg: Config, items: seq<Item>, k: nat, key: nat, j: nat)
    requires k <= |items| && AllWellFormed(items) && Writes(cfg, items, k, key, j)
    ensures j < k && (k > 0 ==> WellFormed(items[k - 1]))
  {
    hide InPm, HasSlot;
  }

  lemma KeyIsDescriptor(reg: nat)
    ensures PatchKey(reg) == DescriptorOf(reg) < P32
  {}

  /** Taking the argument offset off again gives the operand, modulo 2^32. */
  lemma OffsetBack(argument: nat, offset: nat)
    ensures ((argument + offset) % P32 - offset) % P32 == argument % P32
  {}

  // ---------- one operation, from the walk ----------

  lemma DdrMeans(cfg: Config, l: Layout, items: seq<Item>, k: nat)
    requires l.Valid() && k < |items| && AllWellFormed(items) && items[k].op.DdrPatch?
    ensures var c := Contribution(cfg, l, items, k);
      (c.Ok? <==> Accepts(cfg, items, k)) && (c.Ok? ==> Adds(cfg, l, items, k, c.value))
  {
    hide Layout.Valid, InPm, Latest, PatchHelper, SlotAt, RecordsFor, WellFormed, Covers;
    var i := items[k];
    assert WellFormed(i);
    DdrFields(i);
    var key := DescriptorOf(i.vals[0]);
    KeyIsDescriptor(i.vals[0]);
    OffsetBack(i.vals[1], cfg.argOffset);
    LatestFinds(cfg, items, k, key);
    var c := Contribution(cfg, l, items, k);
    if exists j: nat :: Writes(cfg, items, k, key, j) {
      var j: nat :| Writes(cfg, items, k, key, j);
      WritesBefore(cfg, items, k, key, j);
      var s: nat :| SlotAt(items[j], s, key);
      SlotInside(items[j], s, key);
      LatestSlot(cfg, items, k, key, j, s);
      var pos, length := items[j].payload + 0x20 * s, (items[j].firsts[s] as nat) * 4 % 0x1_0000_0000;
      var index := (i.vals[1] + cfg.argOffset) % P32;
      if cfg.argname.ScratchControl? {
        ScratchRecords(cfg, LowReg(i.vals[0]), index, pos, length, i.vals[2]);
      } else {
        HelperRecords(cfg, cfg.argname, LowReg(i.vals[0]), index, pos, length, i.vals[2], AddressName(cfg, i.vals[1]));
      }
      if c.Ok? {
        assert PatchOf(cfg, items, k, j, s, c.value);
      }
    }
  }

  lemma DdrFields(i: Item)
    requires WellFormed(i) && i.op.DdrPatch?
    ensures |i.vals| == 3
  {}

  lemma SlotInside(i: Item, s: nat, key: nat)
    requires WellFormed(i) && SlotAt(i, s, key)
    ensures s < |i.firsts|
  {}

  lemma BlockMeans(cfg: Config, l: Layout, items: seq<Item>, k: nat)
    requires l.Valid() && k < |items| && AllWellFormed(items) && items[k].op.BlockWrite?
    ensures var c := Contribution(cfg, l, items, k);
      (c.Ok? <==> Accepts(cfg, items, k)) && (c.Ok? ==> Adds(cfg, l, items, k, c.value))
  {
    hide Layout.Valid, Latest, PatchHelper, RecordsFor, LastPm;
    var i := items[k];
    assert WellFormed(i);
    if InPm(cfg, items, k) && i.head.Some? {
      var id := PmIdAt(items, k);
      HelperRecords(cfg, PmPacket(id), LowReg(i.vals[0]) + 4, 0, i.payload, Length(i.head.value), 0, PmPacket(id));
    }
  }

  lemma OtherMeans(cfg: Config, l: Layout, items: seq<Item>, k: nat)
    requires l.Valid() && k < |items| && AllWellFormed(items) && !items[k].op.BlockWrite? && !items[k].op.DdrPatch?
    ensures var c := Contribution(cfg, l, items, k);
      (c.Ok? <==> Accepts(cfg, items, k)) && (c.Ok? ==> Adds(cfg, l, items, k, c.value))
  {
    hide Layout.Valid, Latest, PatchHelper, RecordsFor, LastPm, InPm;
    var i := items[k];
    assert WellFormed(i);
    if i.op.CreateScratchpad? {
      OffsetField(l);
      ScratchRecords(cfg, 0, 0, i.at + l.fields(CreateScratchpad)[1].at, i.vals[0], 0);
    }
  }

  lemma OffsetField(l: Layout)
    requires l.Valid()
    ensures |l.fields(CreateScratchpad)| == 2
  {
    assert l.OpValid(CreateScratchpad);
  }

  /** The walk goes past an operation exactly when it is accepted, and then adds what it should. */
  lemma OperationMeans(cfg: Config, l: Layout, items: seq<Item>, k: nat)
    requires l.Valid() && k < |items| && AllWellFormed(items)
    ensures var c := Contribution(cfg, l, items, k);
      (c.Ok? <==> Accepts(cfg, items, k)) && (c.Ok? ==> Adds(cfg, l, items, k, c.value))
  {
    hide *;
    if items[k].op.BlockWrite? {
      BlockMeans(cfg, l, items, k);
    } else if items[k].op.DdrPatch? {
      DdrMeans(cfg, l, items, k);
    } else {
      OtherMeans(cfg, l, items, k);
    }
  }

  // ---------- the whole walk ----------

  /** The relocations are the parts that the operations add, in order. */
  ghost predicate Explained(cfg: Config, l: Layout, items: seq<Item>, syms: seq<Symbol>, parts: seq<seq<Symbol>>)
    requires l.Valid() && AllWellFormed(items)
  {
    |parts| <= |items| && Concat(parts) == syms && forall k :: 0 <= k < |parts| ==> Adds(cfg, l, items, k, parts[k])
  }

  lemma {:induction false} ContributionsMean(cfg: Config, l: Layout, items: seq<Item>, k: nat)
    returns (parts: seq<seq<Symbol>>)
    requires l.Valid() && k <= |items| && AllWellFormed(items)
    ensures var c := Contributions(cfg, l, items, k);
      && (c.Ok? <==> forall x :: 0 <= x < k ==> Accepts(cfg, items, x))
      && (c.Ok? ==> |parts| == k && Explained(cfg, l, items, c.value, parts))
  {
    hide Layout.Valid, Contribution, Accepts, Adds, Concat;
    if k == 0 {
      parts := [];
      assert Concat<Symbol>([]) == [] by { NothingConcat(); }
    } else {
      var before := ContributionsMean(cfg, l, items, k - 1);
      OperationMeans(cfg, l, items, k - 1);
      parts := before;
      if Contributions(cfg, l, items, k).Ok? {
        parts := before + [Contribution(cfg, l, items, k - 1).value];
        ConcatSnoc(before, Contribution(cfg, l, items, k - 1).value);
      }
    }
  }

  lemma NothingConcat()
    ensures Concat<Symbol>([]) == []
  {}

  /** For every stream of operations: the walk accepts it exactly when it accepts every operation, and then its
      relocations are what the operations add, one after another. */
  lemma WalkMeans(cfg: Config, l: Layout, items: seq<Item>) returns (parts: seq<seq<Symbol>>)
    requires l.Valid() && AllWellFormed(items)
    ensures var r := Steps(cfg, l, START, items);
      && (r.Ok? <==> forall k :: 0 <= k < |items| ==> Accepts(cfg, items, k))
      && (r.Ok? ==> |parts| == |items| && Explained(cfg, l, items, r.value.syms, parts))
  {
    hide *;
    WalkLooksBack(cfg, l, items);
    parts := ContributionsMean(cfg, l, items, |items|);
  }

  /** The walk reports preemption exactly when some operation preempts. */
  lemma {:induction false} PreemptionSeen(cfg: Config, l: Layout, m: Machine, items: seq<Item>)
    requires l.Valid() && forall i :: i in items ==> WellFormed(i)
    ensures var r := Steps(cfg, l, m, items);
      r.Ok? ==> (r.value.preempt <==> m.preempt || exists i :: i in items && i.op.Preempt?)
    decreases |items|
  {
    hide Layout.Valid, Relocate, IndexSlots, WellFormed;
    if items != [] && Step(cfg, l, m, items[0]).Ok? {
      PreemptionSeen(cfg, l, Step(cfg, l, m, items[0]).value, items[1..]);
      assert items == [items[0]] + items[1..];
    }
  }

  // ---------- a buffer ----------

  /** The operations as the walk reads them, while it clears descriptors. */
  ghost function Visited(cfg: Config, l: Layout, b: seq<u8>, at: nat, n: nat, m: Machine): (items: seq<Item>)
    requires l.Valid()
    ensures AllWellFormed(items)
    decreases n
  {
    hide WellFormed, Layout.Valid, Step, Decode, ClearAll;
    if n == 0 || Decode(l, b, at).Err? then [] else
    var i := Decode(l, b, at).value;
    DecodeWellFormed(l, b, at);
    var m' := Step(cfg, l, m, i);
    if m'.Err? then [] else
    StepExtends(cfg, l, m, i);
    var b' := ClearAll(b, ClearsOf(m'.value.syms[|m.syms|..]));
    if b'.Err? then [] else [i] + Visited(cfg, l, b'.value, at + i.len, n - 1, m'.value)
  }

  lemma {:induction false} RunVisits(cfg: Config, l: Layout, b: seq<u8>, at: nat, n: nat, m: Machine)
    requires l.Valid() && Run(cfg, l, b, at, n, m).Ok?
    ensures var items := Visited(cfg, l, b, at, n, m);
      |items| == n && Steps(cfg, l, m, items) == Ok(Run(cfg, l, b, at, n, m).value.1)
    decreases n
  {
    hide WellFormed, Layout.Valid, Step, Decode, ClearAll;
    if n > 0 {
      var i := Decode(l, b, at).value;
      DecodeWellFormed(l, b, at);
      var m' := Step(cfg, l, m, i).value;
      StepExtends(cfg, l, m, i);
      var b' := ClearAll(b, ClearsOf(m'.syms[|m.syms|..])).value;
      RunVisits(cfg, l, b', at + i.len, n - 1, m');
      var rest := Visited(cfg, l, b', at + i.len, n - 1, m');
      assert ([i] + rest)[1..] == rest;
    }
  }

  /** For every accepted buffer: the relocations are what the operations the walk reads add, one after another. */
  lemma ProcessMeans(cfg: Config, l: Layout, b: seq<u8>) returns (parts: seq<seq<Symbol>>)
    requires l.Valid() && Process(cfg, l, b).Ok?
    ensures l.header <= |b| && l.numOps.at + l.numOps.width <= |b|
    ensures var items := Visited(cfg, l, b, l.header, Get(b, 0, l.numOps), START);
      && |items| == |parts| == Get(b, 0, l.numOps)
      && Explained(cfg, l, items, Process(cfg, l, b).value.1.syms, parts)
  {
    hide Run, Steps, Layout.Valid, Explained, Visited, Get, Accepts;
    HeaderFits(l);
    RunVisits(cfg, l, b, l.header, Get(b, 0, l.numOps), START);
    parts := WalkMeans(cfg, l, Visited(cfg, l, b, l.header, Get(b, 0, l.numOps), START));
  }

  /** When whatever is cleared has room in its payload, these are the operations the buffer holds, and the buffer is
      accepted exactly when each of them is. */
  lemma ClearableMeans(cfg: Config, l: Layout, b: seq<u8>) returns (parts: seq<seq<Symbol>>)
    requires l.Valid() && TxnHarmless.Clearable(cfg, l, b)
    ensures var items, r := TxnHarmless.Operations(l, b).value, Process(cfg, l, b);
      && AllWellFormed(items)
      && (r.Ok? <==> forall k :: 0 <= k < |items| ==> Accepts(cfg, items, k))
      && (r.Ok? ==> |parts| == |items| && Explained(cfg, l, items, r.value.1.syms, parts))
  {
    hide Process, Steps, Layout.Valid, Explained, TxnHarmless.Operations, Accepts, WellFormed;
    TxnHarmless.ProcessIsSteps(cfg, l, b);
    parts := WalkMeans(cfg, l, TxnHarmless.Operations(l, b).value);
  }
}
