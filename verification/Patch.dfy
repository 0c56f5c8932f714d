/** In-place 57-bit address patching of buffer descriptors (`patch57` of both encoders). */
module Patch {
  import opened Base

  // ---------- little-endian words inside a byte string ----------

  function Word(b: seq<u8>, at: nat): u32
    requires at + 4 <= |b|
  {
    Join4(b[at], b[at + 1], b[at + 2], b[at + 3])
  }

  function Join4(b0: u8, b1: u8, b2: u8, b3: u8): u32 {
    (b0 as int) + 0x100 * (b1 as int) + 0x1_0000 * (b2 as int) + 0x100_0000 * (b3 as int)
  }

  function Byte(w: u32, k: nat): u8 {
    if k == 0 then w % 0x100 else if k == 1 then w / 0x100 % 0x100
    else if k == 2 then w / 0x1_0000 % 0x100 else w / 0x100_0000 % 0x100
  }

  function Put(b: seq<u8>, at: nat, w: u32): (r: seq<u8>)
    requires at + 4 <= |b|
    ensures |r| == |b|
  {
    b[..at] + [Byte(w, 0), Byte(w, 1), Byte(w, 2), Byte(w, 3)] + b[at + 4..]
  }

  lemma JoinBytes(w: u32)
    ensures Join4(Byte(w, 0), Byte(w, 1), Byte(w, 2), Byte(w, 3)) == w
  {
    SplitMod(w, 0x100, 0x100_0000);
    SplitMod(w / 0x100, 0x100, 0x1_0000);
    SplitMod(w / 0x100 / 0x100, 0x100, 0x100);
    ShiftTwice(w);
  }

  /** A written word reads back; words that do not overlap it are untouched. */
  lemma PutWord(b: seq<u8>, at: nat, w: u32, other: nat)
    requires at + 4 <= |b| && other + 4 <= |b|
    ensures Word(Put(b, at, w), at) == w
    ensures other + 4 <= at || at + 4 <= other ==> Word(Put(b, at, w), other) == Word(b, other)
    ensures forall k :: 0 <= k < |b| && (k < at || at + 4 <= k) ==> Put(b, at, w)[k] == b[k]
  {
    hide Join4, Byte;
    JoinBytes(w);
  }

  // ---------- descriptor layouts ----------

  /** Where the two chip families keep the 57-bit address of a descriptor. */
  datatype Family = Aie2ps | Aie4 {
    /** Bytes from the start of a descriptor to the end of its last address word. */
    function Span(): nat {
      match this
      case Aie2ps => 36
      case Aie4 => 8
    }
  }

  const P57: nat := 0x200_0000_0000_0000

  /** The address: words 1, 2 and 8 on AIE2PS, words 1 and 0 on AIE4. */
  function Address(f: Family, b: seq<u8>, at: nat): nat
    requires at + f.Span() <= |b|
  {
    match f
    case Aie2ps =>
      Word(b, at + 4) + 0x1_0000_0000 * (Word(b, at + 8) % 0x1_0000)
        + 0x1_0000_0000_0000 * (Word(b, at + 32) % 0x200)
    case Aie4 => Word(b, at + 4) + 0x1_0000_0000 * (Word(b, at) % 0x200_0000)
  }

  /** The bits that share the address words but are not address. */
  function Sharing(f: Family, b: seq<u8>, at: nat): (nat, nat)
    requires at + f.Span() <= |b|
  {
    match f
    case Aie2ps => (Word(b, at + 8) / 0x1_0000, Word(b, at + 32) / 0x200)
    case Aie4 => (Word(b, at) / 0x200_0000, 0)
  }

  /** Byte `k` belongs to an address word of the descriptor at `at`. */
  predicate AddressByte(f: Family, at: nat, k: int) {
    match f
    case Aie2ps => at + 4 <= k < at + 12 || at + 32 <= k < at + 36
    case Aie4 => at <= k < at + 8
  }

  /** The three AIE2PS words after the sum is stored; bits above the fields are kept. */
  function NewWords(sum: u64, bd2: u32, bd8: u32): (u32, u32, u32) {
    (sum % 0x1_0000_0000,
     sum / 0x1_0000_0000 % 0x1_0000 + bd2 / 0x1_0000 * 0x1_0000,
     sum / 0x1_0000_0000_0000 % 0x200 + bd8 / 0x200 * 0x200)
  }

  /** The two AIE4 words. */
  function NewWords4(sum: u64, bd0: u32): (u32, u32) {
    (sum % 0x1_0000_0000, sum / 0x1_0000_0000 % 0x200_0000 + bd0 / 0x200_0000 * 0x200_0000)
  }

  /** `patch57`: read the address, add in 64 bits, store the low 57 bits back. */
  function Patch57(f: Family, b: seq<u8>, at: nat, addr: u64): (r: seq<u8>)
    requires at + f.Span() <= |b|
    ensures |r| == |b|
  {
    var sum := (Address(f, b, at) + addr) % 0x1_0000_0000_0000_0000;
    match f
    case Aie2ps =>
      var w := NewWords(sum, Word(b, at + 8), Word(b, at + 32));
      Put(Put(Put(b, at + 4, w.0), at + 8, w.1), at + 32, w.2)
    case Aie4 =>
      var w := NewWords4(sum, Word(b, at));
      Put(Put(b, at + 4, w.0), at, w.1)
  }

  lemma NewWordsSplit(sum: u64, bd2: u32, bd8: u32)
    ensures var w := NewWords(sum, bd2, bd8);
      && w.0 + 0x1_0000_0000 * (w.1 % 0x1_0000) + 0x1_0000_0000_0000 * (w.2 % 0x200) == sum % P57
      && w.1 / 0x1_0000 == bd2 / 0x1_0000 && w.2 / 0x200 == bd8 / 0x200
  {
    Field(sum / 0x1_0000_0000, 0x1_0000, bd2);
    Field(sum / 0x1_0000_0000_0000, 0x200, bd8);
    Split57(sum);
  }

  lemma NewWords4Split(sum: u64, bd0: u32)
    ensures var w := NewWords4(sum, bd0);
      && w.0 + 0x1_0000_0000 * (w.1 % 0x200_0000) == sum % P57
      && w.1 / 0x200_0000 == bd0 / 0x200_0000
  {
    Field(sum / 0x1_0000_0000, 0x200_0000, bd0);
    Split57(sum);
  }

  /** Replacing the low part of a word: the field reads back, the rest stays. */
  lemma Field(v: nat, d: nat, old_: nat)
    requires d > 0
    ensures (v % d + old_ / d * d) % d == v % d && (v % d + old_ / d * d) / d == old_ / d
  {
    DivModUnique(v % d + old_ / d * d, d, old_ / d, v % d);
  }

  lemma Split57(sum: nat)
    ensures sum % 0x1_0000_0000 + 0x1_0000_0000 * (sum / 0x1_0000_0000 % 0x1_0000)
      + 0x1_0000_0000_0000 * (sum / 0x1_0000_0000_0000 % 0x200) == sum % P57
    ensures sum % 0x1_0000_0000 + 0x1_0000_0000 * (sum / 0x1_0000_0000 % 0x200_0000) == sum % P57
  {
    var x := sum / 0x1_0000_0000;
    SplitMod(sum, 0x1_0000_0000, 0x200_0000);
    SplitMod(x, 0x1_0000, 0x200);
    DivTwice(sum);
  }

  lemma DivTwice(sum: nat)
    ensures sum / 0x1_0000_0000 / 0x1_0000 == sum / 0x1_0000_0000_0000
  {}

  lemma Wrap64(s: nat)
    ensures s % 0x1_0000_0000_0000_0000 % P57 == s % P57
  {}

  /** `patch57` adds modulo 2^57 to the address and preserves every other bit of the section. */
  lemma Patch57Adds(f: Family, b: seq<u8>, at: nat, addr: u64)
    requires at + f.Span() <= |b|
    ensures var r := Patch57(f, b, at, addr);
      && Address(f, r, at) == (Address(f, b, at) + addr) % P57
      && Sharing(f, r, at) == Sharing(f, b, at)
      && forall k :: 0 <= k < |b| && !AddressByte(f, at, k) ==> r[k] == b[k]
  {
    hide Word, Put, NewWords, NewWords4;
    var s := Address(f, b, at) + addr;
    var sum := s % 0x1_0000_0000_0000_0000;
    Wrap64(s);
    match f
    case Aie2ps =>
      var w := NewWords(sum, Word(b, at + 8), Word(b, at + 32));
      NewWordsSplit(sum, Word(b, at + 8), Word(b, at + 32));
      var b1 := Put(b, at + 4, w.0);
      var b2 := Put(b1, at + 8, w.1);
      PutWord(b, at + 4, w.0, at + 8);
      PutWord(b1, at + 8, w.1, at + 4);
      PutWord(b2, at + 32, w.2, at + 4);
      PutWord(b2, at + 32, w.2, at + 8);
    case Aie4 =>
      var w := NewWords4(sum, Word(b, at));
      NewWords4Split(sum, Word(b, at));
      PutWord(b, at + 4, w.0, at);
      PutWord(Put(b, at + 4, w.0), at, w.1, at + 4);
  }

  // ---------- the patch loop of `page_writer` ----------

  /** One pending patch: the descriptor's offset in the data section and the pad address to add. */
  datatype Fix = Fix(at: int, addr: u64)

  /** Apply the patches in order; `read_word` throws when a descriptor runs past the data. */
  function PatchAll(f: Family, b: seq<u8>, fixes: seq<Fix>): (r: Result<seq<u8>>)
    ensures r.Ok? ==> |r.value| == |b|
    decreases |fixes|
  {
    if fixes == [] then Ok(b) else
    if fixes[0].at < 0 || fixes[0].at + f.Span() > |b| then Err(ReadBeyondData) else
    PatchAll(f, Patch57(f, b, fixes[0].at, fixes[0].addr), fixes[1..])
  }

  /** Sum of the pad addresses destined for the descriptor at `at`. */
  function SumAt(fixes: seq<Fix>, at: int): nat {
    if fixes == [] then 0 else (if fixes[0].at == at then fixes[0].addr else 0) + SumAt(fixes[1..], at)
  }

  /** The patched descriptors do not overlap the one at `at`. */
  ghost predicate Apart(f: Family, fixes: seq<Fix>, at: int) {
    forall i :: 0 <= i < |fixes| ==>
      fixes[i].at == at || fixes[i].at + f.Span() <= at || at + f.Span() <= fixes[i].at
  }

  lemma OtherDescriptor(f: Family, b: seq<u8>, at: nat, addr: u64, other: nat)
    requires at + f.Span() <= |b| && other + f.Span() <= |b|
    requires other + f.Span() <= at || at + f.Span() <= other
    ensures var r := Patch57(f, b, at, addr);
      Address(f, r, other) == Address(f, b, other) && Sharing(f, r, other) == Sharing(f, b, other)
  {
    Patch57Adds(f, b, at, addr);
    hide Patch57, Join4;
  }

  lemma AddMod(a: nat, x: nat, y: nat)
    ensures ((a + x) % P57 + y) % P57 == (a + x + y) % P57
  {
    var s := a + x;
    assert s == s / P57 * P57 + s % P57;
    var t := s % P57 + y;
    assert s + y == s / P57 * P57 + t;
    DivModUnique(s + y, P57, s / P57 + t / P57, t % P57);
  }

  /** After the patch loop each descriptor holds its original address plus the sum of its pad
      addresses, and keeps every bit that is not address. */
  lemma {:induction false} PatchAllSums(f: Family, b: seq<u8>, fixes: seq<Fix>, at: nat)
    requires at + f.Span() <= |b| && Apart(f, fixes, at)
    ensures var r := PatchAll(f, b, fixes); r.Ok? ==>
      && Address(f, r.value, at) == (Address(f, b, at) + SumAt(fixes, at)) % P57
      && Sharing(f, r.value, at) == Sharing(f, b, at)
    decreases |fixes|
  {
    hide Address, Sharing, Patch57;
    AddressBelow(f, b, at);
    if fixes != [] && PatchAll(f, b, fixes).Ok? {
      var x := fixes[0];
      OneFix(f, b, x, at);
      assert Apart(f, fixes[1..], at);
      PatchAllSums(f, Patch57(f, b, x.at, x.addr), fixes[1..], at);
      AddMod(Address(f, b, at), if x.at == at then x.addr else 0, SumAt(fixes[1..], at));
    }
  }

  lemma OneFix(f: Family, b: seq<u8>, x: Fix, at: nat)
    requires at + f.Span() <= |b| && 0 <= x.at && x.at + f.Span() <= |b|
    requires x.at == at || x.at + f.Span() <= at || at + f.Span() <= x.at
    ensures var r := Patch57(f, b, x.at, x.addr);
      && Address(f, r, at) == (Address(f, b, at) + (if x.at == at then x.addr else 0)) % P57
      && Sharing(f, r, at) == Sharing(f, b, at)
  {
    hide Address, Sharing, Patch57, AddressByte;
    AddressBelow(f, b, at);
    Patch57Adds(f, b, x.at, x.addr);
    if x.at != at {
      OtherDescriptor(f, b, x.at, x.addr, at);
    }
  }

  lemma AddressBelow(f: Family, b: seq<u8>, at: nat)
    requires at + f.Span() <= |b|
    ensures Address(f, b, at) < P57
  {
    hide Join4;
  }

  /** Bytes outside every patched address field are untouched by the loop. */
  lemma {:induction false} PatchAllKeeps(f: Family, b: seq<u8>, fixes: seq<Fix>, k: nat)
    requires k < |b| && forall i :: 0 <= i < |fixes| && fixes[i].at >= 0 ==> !AddressByte(f, fixes[i].at, k)
    ensures var r := PatchAll(f, b, fixes); r.Ok? ==> r.value[k] == b[k]
    decreases |fixes|
  {
    if fixes != [] && PatchAll(f, b, fixes).Ok? {
      Patch57Adds(f, b, fixes[0].at, fixes[0].addr);
      hide Patch57, AddressByte;
      PatchAllKeeps(f, Patch57(f, b, fixes[0].at, fixes[0].addr), fixes[1..], k);
    }
  }
}
