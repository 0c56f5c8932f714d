/** An assembled transaction goes through the relocation walk undisturbed. */
module TxnPipeline {
  import opened Base
  import opened TxnLayout
  import opened TxnAsm
  import opened TxnRoundTrip
  import Txn
  import TxnBuffer
  import TxnHarmless
  import TxnMeaning
  import TxnRoom

  /** The walker reads the assembled operation: same opcode, operands and length, and of a payload the first word of
      every 32 bytes. */
  ghost predicate SameOp(i: Instr, item: Txn.Item, l: Layout) {
    && item.op == i.op && item.vals == i.vals && item.len == OpBytes(l, i)
    && (i.op.BlockWrite? ==> SamePayload(i, item))
  }

  ghost predicate SamePayload(i: Instr, item: Txn.Item) {
    && item.size == 4 * |i.words|
    && (forall s: nat :: 8 * s < |i.words| ==> s < |item.firsts| && item.firsts[s] == i.words[8 * s])
    && (i.words != [] ==> item.head == Some(i.words[0]))
  }

  /** The walker's view of a payload agrees with its words. */
  lemma PayloadRead(l: Layout, b: seq<u8>, at: nat, i: Instr)
    requires l.Valid() && i.op.BlockWrite? && at + OpBytes(l, i) <= |b|
    requires i.words == Words(b, at + l.span(BlockWrite), |i.words|)
    requires var d := Txn.Decode(l, b, at);
      d.Ok? && d.value.op.BlockWrite? && d.value.len == OpBytes(l, i)
      && d.value.payload == at + l.span(BlockWrite) && d.value.size == 4 * |i.words|
    ensures SamePayload(i, Txn.Decode(l, b, at).value)
  {
    hide Layout.Valid, Words, Get, Value;
    var item, p, n := Txn.Decode(l, b, at).value, at + l.span(BlockWrite), |i.words|;
    forall s: nat | 8 * s < n ensures s < |item.firsts| && item.firsts[s] == i.words[8 * s] {
      WordsRead(b, p, n, 8 * s);
    }
    if n > 0 {
      WordsRead(b, p, n, 0);
    }
  }

  /** The walker and the printer read an operation alike. */
  lemma WalkerReads(l: Layout, b: seq<u8>, at: nat, i: Instr)
    requires l.Valid() && ReadOp(l, b, at) == Ok((i, OpBytes(l, i))) && at + OpBytes(l, i) <= |b|
    requires Shaped(i)
    ensures var d := Txn.Decode(l, b, at); d.Ok? && SameOp(i, d.value, l) && TxnRoom.Sound(l, b, d.value)
  {
    hide Get, Value, Words, Txn.Firsts, Txn.WordAt, Layout.Valid, SamePayload;
    FieldsFit(l, i.op);
    if i.op.BlockWrite? {
      LastSlot(|i.words|);
    }
    TxnHarmless.DecodePlace(l, b, at);
    if i.op.BlockWrite? {
      PayloadRead(l, b, at, i);
    }
  }

  /** The last slot of a payload of whole words has its first word. */
  lemma LastSlot(words: nat)
    ensures Txn.Slots(4 * words) > 0 ==> 32 * (Txn.Slots(4 * words) - 1) + 4 <= 4 * words
  {
    var s := Txn.Slots(4 * words);
    if s > 0 {
      assert 32 * (s - 1) < 4 * words;
      assert 4 * (words - 8 * (s - 1)) > 0;
    }
  }

  lemma {:induction false} WalkerReadsAll(l: Layout, b: seq<u8>, at: nat, ops: seq<Instr>)
    requires l.Valid() && CanonAll(l, ops) && ShapedAll(ops)
    requires at <= |b| < P32 && b[at..] == BuildAll(l, ops)
    ensures var t := TxnHarmless.Trace(l, b, at, |ops|);
      && t.Ok? && |t.value| == |ops| && TxnRoom.AllSound(l, b, t.value)
      && forall k :: 0 <= k < |ops| ==> SameOp(ops[k], t.value[k], l)
    decreases |ops|
  {
    hide Layout.Valid, Build, ReadOp, Canon, Shaped, Txn.Decode, TxnRoom.Sound, SameOp;
    if ops != [] {
      assert Canon(l, ops[0]);
      var x, n := Build(l, ops[0]), OpBytes(l, ops[0]);
      assert |b[at..]| == |x| + |BuildAll(l, ops[1..])|;
      assert b[at..at + n] == b[at..][..n] == x;
      assert b[at + n..] == b[at..][n..] == BuildAll(l, ops[1..]);
      ReadBuilt(l, b, at, ops[0]);
      WalkerReads(l, b, at, ops[0]);
      ItemLength(l, ops[0], Txn.Decode(l, b, at).value);
      WalkerReadsAll(l, b, at + n, ops[1..]);
      var t := TxnHarmless.Trace(l, b, at, |ops|).value;
      assert forall k :: 1 <= k < |ops| ==> ops[k] == ops[1..][k - 1] && t[k] == t[1..][k - 1];
    }
  }

  lemma ItemLength(l: Layout, i: Instr, item: Txn.Item)
    requires SameOp(i, item, l)
    ensures item.len == OpBytes(l, i)
  {}

  /** Assemble, then relocate: the walk sees exactly the assembled operations. When every slot it relocates has ten
      bytes of payload left, it accepts exactly when every operation is accepted, relocates what the operations ask
      for, changes only the address bits of relocated descriptors, and is repeatable. */
  lemma AssembledWalks(cfg: Txn.Config, l: Layout, p: Asm, b: seq<u8>, ops: seq<Instr>)
    returns (parts: seq<seq<Txn.Symbol>>)
    requires l.Valid() && Assembled(l, p, b, ops) && |b| < P32
    ensures var t := TxnHarmless.Operations(l, b);
      && t.Ok? && |t.value| == |ops| && Txn.AllWellFormed(t.value)
      && (forall k :: 0 <= k < |ops| ==> SameOp(ops[k], t.value[k], l))
      && var r := TxnBuffer.Process(cfg, l, b);
        && (TxnRoom.AllRoom(cfg, t.value) ==>
          && (r.Ok? <==> forall k :: 0 <= k < |ops| ==> TxnMeaning.Accepts(cfg, t.value, k))
          && (r.Ok? ==> |parts| == |ops| && TxnMeaning.Explained(cfg, l, t.value, r.value.1.syms, parts)
                        && TxnHarmless.Harmless(cfg, l, b, r.value.0, r.value.1)))
        && (r.Ok? ==> (TxnRoom.ClearsHeld(t.value, r.value.1.syms) <==> TxnRoom.AllRoom(cfg, t.value)))
  {
    hide Layout.Valid, TxnBuffer.Process, TxnHarmless.Trace, TxnRoom.AllSound, BuildAll, Header,
      CanonAll, SameOp, TxnHarmless.Harmless, Txn.Steps, AsmLines, ReadOps, TxnRoom.AllRoom, TxnRoom.ClearsHeld,
      TxnMeaning.Accepts, TxnMeaning.Explained;
    parts := [];
    WalksVisitAll(l, p, b, ops);
    assert b[l.header..] == BuildAll(l, ops);
    WalkerReadsAll(l, b, l.header, ops);
    TxnHarmless.OperationsWellFormed(l, b);
    if TxnBuffer.Process(cfg, l, b).Ok? {
      TxnHarmless.ClearsStayInside(cfg, l, b);
    }
    if TxnRoom.AllRoom(cfg, TxnHarmless.Operations(l, b).value) {
      parts := TxnMeaning.ClearableMeans(cfg, l, b);
      TxnHarmless.ClearingHarmless(cfg, l, b);
    }
  }
}
