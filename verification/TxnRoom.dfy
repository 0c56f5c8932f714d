/** Which descriptors the walk clears, and whether their ten bytes fit the payload they stand in. */
module TxnRoom {
  import opened Base
  import opened TxnLayout
  import opened Txn
  import opened TxnBuffer

  /** The size field covers the header, and a block write ends inside the buffer. */
  ghost predicate Sound(l: Layout, b: seq<u8>, i: Item) {
    && i.len >= l.span(i.op)
    && (i.op.BlockWrite? ==>
        i.at + i.len <= |b| && i.payload == i.at + l.span(i.op) && i.size == i.len - l.span(i.op))
  }

  ghost predicate AllSound(l: Layout, b: seq<u8>, items: seq<Item>) {
    forall i :: 0 <= i < |items| ==> Sound(l, b, items[i])
  }

  /** Operations stand one behind another. */
  ghost predicate Ordered(items: seq<Item>) {
    forall i, k :: 0 <= i < k < |items| ==> items[i].at + items[i].len <= items[k].at
  }

  /** `at` is the start of a slot of one of the payloads, and ten bytes of that payload are left from there on. */
  ghost predicate Held(items: seq<Item>, at: nat) {
    exists i, k: nat :: 0 <= i < |items| && HeldBy(items[i], k, at)
  }

  ghost predicate HeldBy(i: Item, k: nat, at: nat) {
    i.op.BlockWrite? && BD_SIZE * k + 10 <= i.size && at == i.payload + BD_SIZE * k
  }

  /** Every descriptor the relocations clear is held by the payload it stands in. */
  ghost predicate ClearsHeld(items: seq<Item>, syms: seq<Symbol>) {
    forall s :: s in syms && s.schema.ShimDma48? ==> Held(items, s.pos)
  }

  /** The register of a shim descriptor's address word: relocating it clears the descriptor. */
  predicate AddressWord(reg: nat) {
    IsBd(SHIM_BD0, SHIM_BDS, reg - 4)
  }

  /** Bytes of payload left from the slot that `Latest` finds. */
  ghost function LatestRoom(cfg: Config, items: seq<Item>, k: nat, reg: nat): int
    requires k <= |items| && AllWellFormed(items)
  {
    if k == 0 then 0 else
    if Covers(items[k - 1], reg) && !InPm(cfg, items, k - 1) then
      items[k - 1].size - BD_SIZE * ((reg - items[k - 1].vals[0]) % P32 / BD_SIZE)
    else LatestRoom(cfg, items, k - 1, reg)
  }

  /** When operation `k` clears a descriptor, ten bytes of payload are left for it. */
  ghost predicate RoomAt(cfg: Config, items: seq<Item>, k: nat)
    requires k < |items| && AllWellFormed(items)
  {
    var i := items[k];
    match i.op
    case BlockWrite => InPm(cfg, items, k) && AddressWord(LowReg(i.vals[0]) + 4) ==> i.size >= 10
    case DdrPatch =>
      !cfg.argname.ScratchControl? && AddressWord(LowReg(i.vals[0])) && Latest(cfg, items, k, KeyOf(i)).Some? ==>
        LatestRoom(cfg, items, k, KeyOf(i)) >= 10
    case _ => true
  }

  ghost predicate AllRoom(cfg: Config, items: seq<Item>)
    requires AllWellFormed(items)
  {
    forall k :: 0 <= k < |items| ==> RoomAt(cfg, items, k)
  }

  // ---------- slots ----------

  /** A slot start is held exactly when ten bytes of its own payload are left. */
  lemma SlotHeld(l: Layout, b: seq<u8>, items: seq<Item>, j: nat, s: nat)
    requires l.Valid() && AllSound(l, b, items) && Ordered(items) && j < |items| && items[j].op.BlockWrite?
    requires s == 0 || BD_SIZE * s < items[j].size
    ensures Held(items, items[j].payload + BD_SIZE * s) <==> BD_SIZE * s + 10 <= items[j].size
  {
    hide Layout.Valid;
    var at := items[j].payload + BD_SIZE * s;
    assert Sound(l, b, items[j]);
    if BD_SIZE * s + 10 <= items[j].size {
      assert HeldBy(items[j], s, at);
    }
    if Held(items, at) {
      var i, k: nat :| 0 <= i < |items| && HeldBy(items[i], k, at);
      assert Sound(l, b, items[i]);
      BlockSpan(l);
    }
  }

  lemma BlockSpan(l: Layout)
    requires l.Valid()
    ensures l.span(BlockWrite) > 0
  {
    assert l.OpValid(BlockWrite);
  }

  /** The slot a search finds is held exactly when it has room. */
  lemma {:induction false} LatestHeld(cfg: Config, l: Layout, b: seq<u8>, items: seq<Item>, k: nat, reg: nat)
    requires l.Valid() && AllWellFormed(items) && AllSound(l, b, items) && Ordered(items) && k <= |items|
    ensures var f := Latest(cfg, items, k, reg);
      f.Some? ==> (Held(items, f.value.0) <==> LatestRoom(cfg, items, k, reg) >= 10)
  {
    hide Layout.Valid, AllSound, Ordered, Held, InPm;
    if k > 0 {
      if Covers(items[k - 1], reg) && !InPm(cfg, items, k - 1) {
        var s := (reg - items[k - 1].vals[0]) % P32 / BD_SIZE;
        CoveredSlot(items[k - 1], reg);
        SlotHeld(l, b, items, k - 1, s);
      } else {
        LatestHeld(cfg, l, b, items, k - 1, reg);
      }
    }
  }

  lemma CoveredSlot(i: Item, reg: nat)
    requires WellFormed(i) && Covers(i, reg)
    ensures i.op.BlockWrite? && var s := (reg - i.vals[0]) % P32 / BD_SIZE;
      BD_SIZE * s < i.size && SlotOf(i, reg).0 == i.payload + BD_SIZE * s
  {}

  // ---------- what one operation clears ----------

  lemma PatchClears(cfg: Config, name: SymName, reg: nat, argidx: nat, offset: nat, length: nat, addend: nat)
    ensures var r := PatchHelper(cfg, name, reg, argidx, offset, length, addend); r.Ok? ==>
      && (forall s :: s in r.value && s.schema.ShimDma48? ==> s.pos == offset)
      && ((exists s :: s in r.value && s.schema.ShimDma48?) <==> !name.ScratchControl? && AddressWord(reg))
  {
    var r := PatchHelper(cfg, name, reg, argidx, offset, length, addend);
    if r.Ok? && r.value != [] {
      assert r.value[0] in r.value;
    }
  }

  lemma ScratchNeverClears(cfg: Config, l: Layout, i: Item, inPm: bool, pmId: nat, found: Option<(nat, nat)>)
    requires l.Valid() && WellFormed(i) && i.op.CreateScratchpad?
    ensures var r := Relocate(cfg, l, i, inPm, pmId, found); r.Ok? ==> forall s :: s in r.value ==> !s.schema.ShimDma48?
  {
    hide Layout.Valid;
  }

  /** A block write inside a PM sequence clears the start of its payload, if anything. */
  lemma BlockClears(cfg: Config, l: Layout, i: Item, inPm: bool, pmId: nat, found: Option<(nat, nat)>)
    requires l.Valid() && WellFormed(i) && i.op.BlockWrite?
    ensures var r := Relocate(cfg, l, i, inPm, pmId, found); r.Ok? ==>
      && (forall s :: s in r.value && s.schema.ShimDma48? ==> s.pos == i.payload)
      && ((exists s :: s in r.value && s.schema.ShimDma48?) <==> inPm && AddressWord(LowReg(i.vals[0]) + 4))
  {
    hide PatchHelper, Layout.Valid, AddressWord;
    if inPm && i.head.Some? {
      PatchClears(cfg, PmPacket(pmId), LowReg(i.vals[0]) + 4, 0, i.payload, Length(i.head.value), 0);
    }
  }

  /** A `DDR_PATCH` clears the slot it found, if anything. */
  lemma DdrClears(cfg: Config, l: Layout, i: Item, inPm: bool, pmId: nat, found: Option<(nat, nat)>)
    requires l.Valid() && WellFormed(i) && i.op.DdrPatch?
    ensures var r := Relocate(cfg, l, i, inPm, pmId, found); r.Ok? ==>
      && found.Some?
      && (forall s :: s in r.value && s.schema.ShimDma48? ==> s.pos == found.value.0)
      && ((exists s :: s in r.value && s.schema.ShimDma48?) <==>
            !cfg.argname.ScratchControl? && AddressWord(LowReg(i.vals[0])))
  {
    hide PatchHelper, Layout.Valid, AddressWord;
    if found.Some? {
      PatchClears(cfg, cfg.argname, LowReg(i.vals[0]), (i.vals[1] + cfg.argOffset) % P32, found.value.0, found.value.1,
        i.vals[2]);
    }
  }

  /** What an operation clears is held by its payload exactly when there is room for it. */
  lemma ContributionHeld(cfg: Config, l: Layout, b: seq<u8>, items: seq<Item>, k: nat)
    requires l.Valid() && AllWellFormed(items) && AllSound(l, b, items) && Ordered(items) && k < |items|
    ensures var c := Contribution(cfg, l, items, k); c.Ok? ==> (ClearsHeld(items, c.value) <==> RoomAt(cfg, items, k))
  {
    hide Layout.Valid, Held, Relocate, AllSound, Ordered, Latest, LatestRoom, InPm, AddressWord, WellFormed, PmIdAt;
    var i, c := items[k], Contribution(cfg, l, items, k);
    assert WellFormed(i);
    var inPm, pmId, found := InPm(cfg, items, k), PmIdAt(items, k), Latest(cfg, items, k, KeyOf(i));
    match i.op
    case BlockWrite =>
      BlockClears(cfg, l, i, inPm, pmId, found);
      SlotHeld(l, b, items, k, 0);
    case DdrPatch =>
      DdrClears(cfg, l, i, inPm, pmId, found);
      LatestHeld(cfg, l, b, items, k, KeyOf(i));
    case CreateScratchpad =>
      ScratchNeverClears(cfg, l, i, inPm, pmId, found);
    case _ =>
      NeverClears(cfg, l, i, inPm, pmId, found);
  }

  lemma NeverClears(cfg: Config, l: Layout, i: Item, inPm: bool, pmId: nat, found: Option<(nat, nat)>)
    requires l.Valid() && WellFormed(i) && i.op !in {BlockWrite, DdrPatch, CreateScratchpad}
    ensures var r := Relocate(cfg, l, i, inPm, pmId, found); r.Ok? ==> forall s :: s in r.value ==> !s.schema.ShimDma48?
  {
    hide Layout.Valid, PatchHelper;
  }

  // ---------- payload sizes that always have room ----------

  /** A last slot that is whole or has at least ten bytes. */
  predicate Roomy(size: nat) {
    size % BD_SIZE == 0 || size % BD_SIZE >= 10
  }

  /** Exactly these payload sizes have room for every slot they start. */
  lemma RoomyExactly(size: nat)
    ensures Roomy(size) <==> forall k: nat :: k < Slots(size) ==> BD_SIZE * k + 10 <= size
  {
    if !Roomy(size) {
      var k := Slots(size) - 1;
      assert BD_SIZE * k + 10 > size;
    }
  }

  /** Roomy payloads, none of them empty inside a supplied PM sequence, have room for whatever is cleared. */
  lemma RoomyHasRoom(cfg: Config, items: seq<Item>)
    requires AllWellFormed(items)
    requires forall k :: 0 <= k < |items| && items[k].op.BlockWrite? ==>
        Roomy(items[k].size) && (items[k].size == 0 ==> !InPm(cfg, items, k))
    ensures AllRoom(cfg, items)
  {
    hide InPm, Latest, LatestRoom, AddressWord, WellFormed;
    forall k | 0 <= k < |items| ensures RoomAt(cfg, items, k) {
      assert WellFormed(items[k]);
      RoomyLatest(cfg, items, k, KeyOf(items[k]));
    }
  }

  lemma {:induction false} RoomyLatest(cfg: Config, items: seq<Item>, k: nat, reg: nat)
    requires AllWellFormed(items) && k <= |items|
    requires forall j :: 0 <= j < |items| && items[j].op.BlockWrite? ==> Roomy(items[j].size)
    ensures Latest(cfg, items, k, reg).Some? ==> LatestRoom(cfg, items, k, reg) >= 10
  {
    hide InPm, Roomy;
    if k > 0 {
      RoomyLatest(cfg, items, k - 1, reg);
      if Covers(items[k - 1], reg) {
        RoomyExactly(items[k - 1].size);
        CoveredSlot(items[k - 1], reg);
      }
    }
  }
}
