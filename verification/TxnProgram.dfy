/** Which assembly programs the transaction assembler accepts, and what their transactions hold, said line by line. */
module TxnProgram {
  import opened Base
  import opened TxnLayout
  import opened TxnAsm
  import opened TxnRoundTrip

  // ---------- one mnemonic line ----------

  const TWO_TO_8: nat := 0x100
  const TWO_TO_16: nat := 0x1_0000
  const TWO_TO_32: nat := 0x1_0000_0000
  const TWO_TO_64: nat := 0x1_0000_0000_0000_0000

  /** The mnemonic has an operation, enough operands, and each of them fits the type it is read into or is in its
      table of keywords. */
  predicate OperandsOk(op: Opcode, args: seq<nat>) {
    match op
    case Write => |args| >= 2 && args[0] < TWO_TO_64 && args[1] < TWO_TO_32
    case BlockWrite => |args| >= 2 && args[0] < TWO_TO_64 && args[1] < TWO_TO_32
    case MaskWrite => |args| >= 3 && args[0] < TWO_TO_64 && args[1] < TWO_TO_32 && args[2] < TWO_TO_32
    case MaskPoll => |args| >= 3 && args[0] < TWO_TO_64 && args[1] < TWO_TO_32 && args[2] < TWO_TO_32
    case MaskPollBusy => |args| >= 3 && args[0] < TWO_TO_64 && args[1] < TWO_TO_32 && args[2] < TWO_TO_32
    case Noop => true
    case Preempt => |args| >= 1 && args[0] < 5
    case LoadPdi => |args| >= 3 && args[0] < TWO_TO_16 && args[1] < TWO_TO_16 && args[2] < TWO_TO_64
    case LoadPmStart => |args| >= 2 && args[0] < TWO_TO_32 && args[1] < TWO_TO_32
    case Tct =>
      |args| >= 6 && args[0] < TWO_TO_8 && args[1] < TWO_TO_8 && args[2] < TWO_TO_8 && args[3] < TWO_TO_8 && args[4] < 2
      && args[5] < TWO_TO_32
    case MergeSync => |args| >= 2 && args[0] < TWO_TO_8 && args[1] < TWO_TO_8
    case DdrPatch => |args| >= 3 && args[0] < TWO_TO_64 && args[1] < TWO_TO_64 && args[2] < TWO_TO_64
    case RecordTimer => |args| >= 1 && args[0] < TWO_TO_64
    case _ => false
  }

  /** Words a mnemonic line announces. */
  function Announced(line: Line): nat {
    if line.Op? && line.op.BlockWrite? && |line.args| > 1 then line.args[1] else 0
  }

  lemma {:induction false} OperandsAccepted(l: Layout, op: Opcode, args: seq<nat>, k: nat)
    requires l.Valid() && k <= Operands(op) <= |args|
    ensures OperandsFrom(l, op, args, k).Ok? <==> forall j :: k <= j < Operands(op) ==> args[j] <= Limit(op, j)
    decreases Operands(op) - k
  {
    hide Limit, Layout.Valid, Operands, Pow256;
    if k < Operands(op) {
      OperandsAccepted(l, op, args, k + 1);
    }
  }

  /** The limits in table order, for operations with as many operands. */
  lemma LimitsMean(op: Opcode, args: seq<nat>)
    requires Operands(op) <= |args| && Known(op) && (op.BlockWrite? ==> |args| >= 2 && args[1] < P32)
    ensures (forall j :: 0 <= j < Operands(op) ==> args[j] <= Limit(op, j)) <==> OperandsOk(op, args)
  {
    var fit := forall j :: 0 <= j < Operands(op) ==> args[j] <= Limit(op, j);
    if fit {
      assert Operands(op) > 0 ==> args[0] <= Limit(op, 0);
      assert Operands(op) > 1 ==> args[1] <= Limit(op, 1);
      assert Operands(op) > 2 ==> args[2] <= Limit(op, 2);
      assert Operands(op) > 3 ==> args[3] <= Limit(op, 3);
      assert Operands(op) > 4 ==> args[4] <= Limit(op, 4);
      assert Operands(op) > 5 ==> args[5] <= Limit(op, 5);
    }
  }

  lemma EnoughOperands(op: Opcode, args: seq<nat>)
    requires OperandsOk(op, args)
    ensures Known(op) && Operands(op) <= |args| && (op.BlockWrite? ==> |args| >= 2 && args[1] < P32)
  {}

  /** A mnemonic line is assembled exactly when its operands are acceptable. */
  lemma AssembleAccepts(l: Layout, op: Opcode, args: seq<nat>)
    requires l.Valid()
    ensures Assemble(l, op, args).Ok? <==> OperandsOk(op, args)
  {
    hide Layout.Valid, Limit, Operands, OperandsOk, OperandsFrom, Known;
    if OperandsOk(op, args) {
      EnoughOperands(op, args);
    }
    if Known(op) && Operands(op) <= |args| && (op.BlockWrite? ==> |args| >= 2 && args[1] < P32) {
      OperandsAccepted(l, op, args, 0);
      LimitsMean(op, args);
    }
  }

  /** The operation holds the line's operands, each cut to its field, and as many words as the line announces. */
  ghost predicate HoldsLine(l: Layout, i: Instr, line: Line) {
    && line.Op? && i.op == line.op && |i.words| == Announced(line)
    && |i.vals| == |l.fields(i.op)| <= |line.args|
    && forall k :: 0 <= k < |i.vals| ==> i.vals[k] == line.args[k] % Pow256(l.fields(i.op)[k].width)
  }

  lemma AssembleHolds(l: Layout, op: Opcode, args: seq<nat>)
    requires l.Valid() && Assemble(l, op, args).Ok?
    ensures var i := Assemble(l, op, args).value;
      HoldsLine(l, i, Op(op, args)) && forall j :: 0 <= j < |i.words| ==> i.words[j] == 0
  {
    hide Layout.Valid, Limit, Pow256, OperandsFrom, Known;
    FieldsFit(l, op);
    OperandsCanon(l, op, args);
  }

  // ---------- all lines ----------

  /** Line `h` is the mnemonic that line `k` belongs to. */
  ghost predicate HeadOf(lines: seq<Line>, k: nat, h: nat) {
    h <= k < |lines| && lines[h].Op? && forall i :: h < i <= k ==> !lines[i].Op?
  }

  /** The mnemonic that line `k` belongs to has got all its words there. */
  ghost predicate Finished(lines: seq<Line>, k: nat) {
    exists h: nat :: HeadOf(lines, k, h) && h + Announced(lines[h]) == k
  }

  /** A mnemonic line with acceptable operands, standing where the mnemonic before it has got all its words; or the next
      word of a mnemonic that still waits for some. */
  ghost predicate LineOk(lines: seq<Line>, k: nat)
    requires k < |lines|
  {
    match lines[k]
    case Op(op, args) =>
      OperandsOk(op, args) && (k > 0 ==> Finished(lines, k - 1))
    case Ext(j, val) =>
      val < TWO_TO_32 && exists h: nat :: HeadOf(lines, k, h) && h + 1 + j == k && j < Announced(lines[h])
    case Garbled => false
  }

  /** The word that line `h + 1 + j` gives, or 0 when the program ends before it. */
  ghost function WordOf(lines: seq<Line>, k: nat, h: nat, j: nat): nat
    requires k <= |lines|
  {
    if h + 1 + j < k && lines[h + 1 + j].Ext? then lines[h + 1 + j].val else 0
  }

  /** Operation `n` comes from line `heads[n]`, and the lines behind it give its words. */
  ghost predicate Made(l: Layout, lines: seq<Line>, k: nat, h: nat, i: Instr)
    requires k <= |lines|
  {
    h < k && HoldsLine(l, i, lines[h]) && forall j :: 0 <= j < |i.words| ==> i.words[j] == WordOf(lines, k, h, j)
  }

  /** The operations come from the mnemonic lines, one from each, in order. */
  ghost predicate FromLines(l: Layout, lines: seq<Line>, k: nat, ops: seq<Instr>, heads: seq<nat>)
    requires k <= |lines|
  {
    && |heads| == |ops| && (forall n :: 0 <= n < |ops| ==> Made(l, lines, k, heads[n], ops[n]))
    && (forall m, n :: 0 <= m < n < |heads| ==> heads[m] < heads[n])
    && forall i :: 0 <= i < k && lines[i].Op? ==> i in heads
  }

  /** After `k` lines. */
  ghost predicate Tracks(l: Layout, lines: seq<Line>, k: nat, s: State, heads: seq<nat>) {
    && k <= |lines| && FromLines(l, lines, k, s.ops, heads) && (heads == [] <==> k == 0)
    && (heads == [] ==> s.outstanding == 0)
    && (heads != [] ==> heads[|heads| - 1] + 1 + Announced(lines[heads[|heads| - 1]]) == k + s.outstanding)
    && forall n :: 0 <= n < |heads| - 1 ==> heads[n] + 1 + Announced(lines[heads[n]]) <= k
  }

  /** The last mnemonic is the one the last line belongs to. */
  lemma LastHead(l: Layout, lines: seq<Line>, k: nat, s: State, heads: seq<nat>, before: nat)
    requires Tracks(l, lines, k, s, heads) && k == before + 1
    ensures heads != [] && forall h: nat :: HeadOf(lines, before, h) <==> h == heads[|heads| - 1]
  {
    hide Made;
    var last := heads[|heads| - 1];
    MadeLast(l, lines, k, s.ops, heads);
    forall i | 0 <= i <= before && lines[i].Op? ensures i <= last {
      HeadKnown(l, lines, k, s.ops, heads, i);
    }
    assert HeadOf(lines, before, last);
  }

  lemma HeadKnown(l: Layout, lines: seq<Line>, k: nat, ops: seq<Instr>, heads: seq<nat>, i: nat)
    requires k <= |lines| && FromLines(l, lines, k, ops, heads) && i < k && lines[i].Op?
    ensures heads != [] && i <= heads[|heads| - 1]
  {
    hide Made;
    var n :| 0 <= n < |heads| && heads[n] == i;
  }

  lemma MadeLast(l: Layout, lines: seq<Line>, k: nat, ops: seq<Instr>, heads: seq<nat>)
    requires k <= |lines| && FromLines(l, lines, k, ops, heads) && heads != []
    ensures var h := heads[|heads| - 1]; h < k && lines[h].Op? && |ops[|ops| - 1].words| == Announced(lines[h])
  {
    hide Pow256;
    assert Made(l, lines, k, heads[|heads| - 1], ops[|ops| - 1]);
  }

  lemma HeadNext(lines: seq<Line>, k: nat, h: nat)
    requires 0 < k < |lines| && !lines[k].Op?
    ensures HeadOf(lines, k, h) <==> HeadOf(lines, k - 1, h)
  {}

  /** What a step demands is what the line must be. */
  lemma StepAccepts(l: Layout, lines: seq<Line>, k: nat, s: State, heads: seq<nat>)
    requires l.Valid() && Tracks(l, lines, k, s, heads) && k < |lines|
    ensures AsmStep(l, s, lines[k]).Ok? <==> LineOk(lines, k)
  {
    hide Layout.Valid, Assemble, OperandsOk, HeadOf, FromLines;
    var line := lines[k];
    TracksSizes(l, lines, k, s, heads);
    if line.Op? {
      AssembleAccepts(l, line.op, line.args);
    }
    if k > 0 {
      LastHead(l, lines, k, s, heads, k - 1);
      var last := heads[|heads| - 1];
      assert HeadOf(lines, k - 1, last);
      if line.Ext? {
        forall h: nat {
          HeadNext(lines, k, h);
        }
        assert HeadOf(lines, k, last);
      }
    } else if line.Ext? {
      NoHead(lines);
    }
  }

  lemma NoHead(lines: seq<Line>)
    requires lines != [] && !lines[0].Op?
    ensures forall h: nat :: !HeadOf(lines, 0, h)
  {}

  lemma TracksSizes(l: Layout, lines: seq<Line>, k: nat, s: State, heads: seq<nat>)
    requires Tracks(l, lines, k, s, heads)
    ensures |s.ops| == |heads|
    ensures s.ops != [] ==> |s.ops[|s.ops| - 1].words| == Announced(lines[heads[|heads| - 1]])
  {
    hide Made;
    if heads != [] {
      MadeLast(l, lines, k, s.ops, heads);
    }
  }

  // ---------- what the operations become ----------

  /** A line behind all the words of an operation changes nothing for it. */
  lemma MadeLater(l: Layout, lines: seq<Line>, k: nat, h: nat, i: Instr)
    requires k < |lines| && Made(l, lines, k, h, i) && h + 1 + Announced(lines[h]) <= k
    ensures Made(l, lines, k + 1, h, i)
  {
    hide Pow256;
  }

  /** A word line gives its word to the last operation. */
  lemma MadeWord(l: Layout, lines: seq<Line>, k: nat, h: nat, i: Instr)
    requires k < |lines| && Made(l, lines, k, h, i) && lines[k].Ext? && lines[k].val < P32
    requires h + 1 + lines[k].k == k && lines[k].k < |i.words|
    ensures Made(l, lines, k + 1, h, i.(words := i.words[lines[k].k := lines[k].val]))
  {
    hide Pow256;
  }

  lemma WordTracks(l: Layout, lines: seq<Line>, k: nat, s: State, heads: seq<nat>)
    requires l.Valid() && Tracks(l, lines, k, s, heads) && k < |lines|
    requires heads != [] && s.outstanding > 0 && AsmStep(l, s, lines[k]).Ok?
    ensures Tracks(l, lines, k + 1, AsmStep(l, s, lines[k]).value, heads)
  {
    hide Layout.Valid, Assemble, Made;
    TracksSizes(l, lines, k, s, heads);
    var r, n := AsmStep(l, s, lines[k]).value, |heads| - 1;
    MadeWord(l, lines, k, heads[n], s.ops[n]);
    forall m | 0 <= m < |r.ops| ensures Made(l, lines, k + 1, heads[m], r.ops[m]) {
      if m < n {
        MadeLater(l, lines, k, heads[m], s.ops[m]);
      }
    }
  }

  /** A new operation has no words yet. */
  lemma MadeNew(l: Layout, lines: seq<Line>, k: nat)
    requires l.Valid() && k < |lines| && lines[k].Op? && Assemble(l, lines[k].op, lines[k].args).Ok?
    ensures Made(l, lines, k + 1, k, Assemble(l, lines[k].op, lines[k].args).value)
  {
    hide Layout.Valid, Assemble, HoldsLine;
    AssembleHolds(l, lines[k].op, lines[k].args);
  }

  lemma NewTracks(l: Layout, lines: seq<Line>, k: nat, s: State, heads: seq<nat>) returns (heads': seq<nat>)
    requires l.Valid() && Tracks(l, lines, k, s, heads) && k < |lines|
    requires heads == [] || s.outstanding == 0
    requires AsmStep(l, s, lines[k]).Ok?
    ensures Tracks(l, lines, k + 1, AsmStep(l, s, lines[k]).value, heads')
  {
    hide Layout.Valid, Assemble, Made;
    TracksSizes(l, lines, k, s, heads);
    heads' := heads + [k];
    var r, i := AsmStep(l, s, lines[k]).value, Assemble(l, lines[k].op, lines[k].args).value;
    MadeNew(l, lines, k);
    NewWords(l, lines[k].op, lines[k].args);
    assert r == State(s.ops + [i], |i.words|);
    forall m | 0 <= m < |r.ops| ensures Made(l, lines, k + 1, heads'[m], r.ops[m]) {
      if m < |heads| {
        MadeLater(l, lines, k, heads[m], s.ops[m]);
      }
    }
    forall m, n | 0 <= m < n < |heads'| ensures heads'[m] < heads'[n] {
      MadeBefore(l, lines, k, s.ops, heads, m);
    }
  }

  lemma NewWords(l: Layout, op: Opcode, args: seq<nat>)
    requires l.Valid() && Assemble(l, op, args).Ok?
    ensures |Assemble(l, op, args).value.words| == Announced(Op(op, args))
  {
    hide Layout.Valid, OperandsFrom;
  }

  lemma MadeBefore(l: Layout, lines: seq<Line>, k: nat, ops: seq<Instr>, heads: seq<nat>, m: nat)
    requires k <= |lines| && FromLines(l, lines, k, ops, heads) && m < |heads|
    ensures heads[m] < k
  {
    hide HoldsLine;
    assert Made(l, lines, k, heads[m], ops[m]);
  }

  lemma {:induction false} RunAccepts(l: Layout, lines: seq<Line>, k: nat, s: State, heads: seq<nat>)
    returns (all: seq<nat>)
    requires l.Valid() && Tracks(l, lines, k, s, heads)
    ensures var r := AsmLines(l, s, lines[k..]);
      && (r.Ok? <==> forall i :: k <= i < |lines| ==> LineOk(lines, i))
      && (r.Ok? ==> FromLines(l, lines, |lines|, r.value.ops, all))
    decreases |lines| - k
  {
    hide Layout.Valid, AsmStep, Tracks, LineOk, FromLines;
    all := heads;
    if k == |lines| {
      TracksFrom(l, lines, k, s, heads);
      assert lines[k..] == [];
    } else {
      TracksFrom(l, lines, k, s, heads);
      assert lines[k..][0] == lines[k] && lines[k..][1..] == lines[k + 1..];
      StepAccepts(l, lines, k, s, heads);
      var r := AsmStep(l, s, lines[k]);
      if r.Ok? {
        var next := heads;
        if heads != [] && s.outstanding > 0 {
          WordTracks(l, lines, k, s, heads);
        } else {
          next := NewTracks(l, lines, k, s, heads);
        }
        all := RunAccepts(l, lines, k + 1, r.value, next);
      }
    }
  }

  lemma TracksFrom(l: Layout, lines: seq<Line>, k: nat, s: State, heads: seq<nat>)
    requires Tracks(l, lines, k, s, heads)
    ensures k <= |lines| && FromLines(l, lines, k, s.ops, heads)
  {
    hide FromLines;
  }

  /** A program is encoded if and only if it has lines and every one of them is in order: known mnemonics with
      acceptable operands, and behind each block write its words, numbered from 0 on, except that the program may
      end before the last of them. Its operations are then those of the mnemonic lines, one from each, in order, with
      these operands and words. */
  lemma EncodeAccepts(l: Layout, p: Asm) returns (heads: seq<nat>)
    requires l.Valid()
    ensures Encode(l, p).Ok? <==> p.lines != [] && forall k :: 0 <= k < |p.lines| ==> LineOk(p.lines, k)
    ensures Encode(l, p).Ok? ==>
      AsmLines(l, State([], 0), p.lines).Ok?
      && FromLines(l, p.lines, |p.lines|, AsmLines(l, State([], 0), p.lines).value.ops, heads)
  {
    hide Layout.Valid, AsmLines, LineOk, FromLines, ShapedAll, BuildAll, Header;
    NothingTracked(l, p.lines);
    assert p.lines[0..] == p.lines;
    heads := RunAccepts(l, p.lines, 0, State([], 0), []);
    AsmLinesShaped(l, p.lines);
  }

  lemma NothingTracked(l: Layout, lines: seq<Line>)
    ensures Tracks(l, lines, 0, State([], 0), [])
  {}

  lemma AsmLinesShaped(l: Layout, lines: seq<Line>)
    requires l.Valid()
    ensures var r := AsmLines(l, State([], 0), lines); r.Ok? ==> ShapedAll(r.value.ops)
  {
    hide Layout.Valid, AsmLines, ShapedAll, Canon;
    AsmLinesCanon(l, State([], 0), lines);
    if AsmLines(l, State([], 0), lines).Ok? {
      CanonShaped(l, AsmLines(l, State([], 0), lines).value.ops);
    }
  }

  /** Byte `k` belongs to the field. */
  predicate Within(f: Field, k: nat) {
    f.at <= k < f.at + f.width
  }

  /** The header holds the column count, the size and the number of operations, and is constant elsewhere. */
  ghost predicate HeaderHolds(l: Layout, b: seq<u8>, cols: nat, n: nat)
    requires l.Valid()
  {
    HeaderFields(l);
    && l.header <= |b|
    && Get(b, 0, l.numCols) == cols % 0x100 && Get(b, 0, l.txnSize) == |b| && Get(b, 0, l.numOps) == n
    && forall k :: 0 <= k < l.header && !Within(l.numCols, k) && !Within(l.txnSize, k) && !Within(l.numOps, k) ==>
         b[k] == l.template[k]
  }

  lemma PutOutside(b: seq<u8>, f: Field, v: nat, k: nat)
    requires f.at + f.width <= |b| && k < |b| && !Within(f, k)
    ensures TxnLayout.Put(b, f, v)[k] == b[k]
  {
    hide Bytes;
  }

  lemma HeaderConstant(l: Layout, cols: nat, size: nat, n: nat, k: nat)
    requires l.Valid() && k < l.header && !Within(l.numCols, k) && !Within(l.txnSize, k) && !Within(l.numOps, k)
    ensures |l.template| == l.header && Header(l, cols, size, n)[k] == l.template[k]
  {
    hide Layout.Valid, TxnLayout.Put, Within;
    HeaderFields(l);
    var x := TxnLayout.Put(l.template, l.numCols, cols);
    var y := TxnLayout.Put(x, l.txnSize, size);
    PutOutside(l.template, l.numCols, cols, k);
    PutOutside(x, l.txnSize, size, k);
    PutOutside(y, l.numOps, n, k);
  }

  lemma HeaderWritten(l: Layout, p: Asm, b: seq<u8>, ops: seq<Instr>)
    requires l.Valid() && Assembled(l, p, b, ops) && |b| < P32
    ensures HeaderHolds(l, b, if p.cols == 0 then 1 else p.cols, |ops|)
  {
    hide Layout.Valid, AsmLines, BuildAll, Header, Get, ReadOps, CanonAll, ShapedAll, Within;
    HeaderFields(l);
    WalksVisitAll(l, p, b, ops);
    forall k | 0 <= k < l.header && !Within(l.numCols, k) && !Within(l.txnSize, k) && !Within(l.numOps, k)
      ensures b[k] == l.template[k]
    {
      HeaderConstant(l, Columns(p), |b|, |ops|, k);
    }
  }

  /** Walking an encoded transaction reads the operations of the program's mnemonic lines, one from each, in order,
      each with the line's operands cut to their fields and with the words of the lines behind it; the header holds the
      number of columns, the size and the number of operations. */
  lemma EncodeMeans(l: Layout, p: Asm) returns (heads: seq<nat>)
    requires l.Valid() && Encode(l, p).Ok? && |Encode(l, p).value| < P32
    ensures var b := Encode(l, p).value;
      && l.numOps.at + l.numOps.width <= |b|
      && var r := ReadOps(l, b, l.header, Get(b, 0, l.numOps));
        && r.Ok? && r.value.2 == |b| && FromLines(l, p.lines, |p.lines|, r.value.0, heads)
        && HeaderHolds(l, b, if p.cols == 0 then 1 else p.cols, |heads|)
  {
    hide Layout.Valid, AsmLines, FromLines, BuildAll, Header, Get, ReadOps, Encode, Canon, Shaped, HeaderHolds;
    heads := EncodeAccepts(l, p);
    EncodeAssembles(l, p);
    var ops :| Assembled(l, p, Encode(l, p).value, ops);
    WalksVisitAll(l, p, Encode(l, p).value, ops);
    HeaderWritten(l, p, Encode(l, p).value, ops);
    SameCount(l, p.lines, ops, heads);
  }

  lemma SameCount(l: Layout, lines: seq<Line>, ops: seq<Instr>, heads: seq<nat>)
    requires FromLines(l, lines, |lines|, ops, heads)
    ensures |heads| == |ops|
  {
    hide Made;
  }
}
