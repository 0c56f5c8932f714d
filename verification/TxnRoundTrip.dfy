/** Printing an assembled transaction and assembling the text again gives the same bytes. */
module TxnRoundTrip {
  import opened Base
  import opened TxnLayout
  import opened TxnAsm

  /** Values the fields hold and the assembler accepts. */
  ghost predicate Canon(l: Layout, i: Instr)
    requires l.Valid()
  {
    && Shaped(i) && Known(i.op) && |i.words| < P32
    && |l.fields(i.op)| == Operands(i.op)
    && forall k :: 0 <= k < |i.vals| ==> i.vals[k] <= Limit(i.op, k) && i.vals[k] < Pow256(l.fields(i.op)[k].width)
  }

  ghost predicate CanonAll(l: Layout, ops: seq<Instr>)
    requires l.Valid()
  {
    forall i :: 0 <= i < |ops| ==> Canon(l, ops[i])
  }

  // ---------- the assembler makes canonical operations ----------

  lemma ModLe(v: nat, p: nat)
    requires p > 0
    ensures v % p <= v && v % p < p
  {
    var q := v / p;
    assert v == p * q + v % p;
    MulLe(p, 0, q);
  }

  /** Operand `j` as its field holds it. */
  ghost function Narrowed(l: Layout, op: Opcode, args: seq<nat>, j: nat): nat
    requires |l.fields(op)| == Operands(op) && j < Operands(op) <= |args|
  {
    args[j] % Pow256(l.fields(op)[j].width)
  }

  lemma {:induction false} OperandsAre(l: Layout, op: Opcode, args: seq<nat>, k: nat)
    requires l.Valid() && k <= Operands(op) <= |args| && |l.fields(op)| == Operands(op)
    ensures var r := OperandsFrom(l, op, args, k); r.Ok? ==>
      forall j :: k <= j < Operands(op) ==> r.value[j - k] == Narrowed(l, op, args, j) && args[j] <= Limit(op, j)
    decreases Operands(op) - k
  {
    hide Limit, Layout.Valid, Operands, Pow256;
    if k < Operands(op) {
      OperandsAre(l, op, args, k + 1);
      var all, rest := OperandsFrom(l, op, args, k), OperandsFrom(l, op, args, k + 1);
      if all.Ok? {
        assert all.value[0] == Narrowed(l, op, args, k);
        hide Narrowed;
        forall j | k <= j < Operands(op) ensures all.value[j - k] == Narrowed(l, op, args, j)
          && args[j] <= Limit(op, j) {
          if j > k {
            assert all.value[j - k] == rest.value[j - (k + 1)];
          }
        }
      }
    }
  }

  lemma StoredFits(l: Layout, op: Opcode, args: seq<nat>, j: nat)
    requires |l.fields(op)| == Operands(op) && j < Operands(op) <= |args|
    ensures Narrowed(l, op, args, j) <= args[j] && Narrowed(l, op, args, j) < Pow256(l.fields(op)[j].width)
  {
    hide Pow256;
    ModLe(args[j], Pow256(l.fields(op)[j].width));
  }

  /** The operands a mnemonic's constructor keeps fit their fields and its limits. */
  lemma OperandsCanon(l: Layout, op: Opcode, args: seq<nat>)
    requires l.Valid() && Operands(op) <= |args| && |l.fields(op)| == Operands(op)
    ensures var r := OperandsFrom(l, op, args, 0); r.Ok? ==>
      forall j :: 0 <= j < |r.value| ==>
        r.value[j] == Narrowed(l, op, args, j) && r.value[j] <= Limit(op, j)
          && r.value[j] < Pow256(l.fields(op)[j].width)
  {
    hide Limit, Layout.Valid, Operands, Pow256, Narrowed, OperandsFrom;
    OperandsAre(l, op, args, 0);
    var r := OperandsFrom(l, op, args, 0);
    if r.Ok? {
      forall j | 0 <= j < |r.value|
        ensures r.value[j] == Narrowed(l, op, args, j) && r.value[j] <= Limit(op, j)
          && r.value[j] < Pow256(l.fields(op)[j].width)
      {
        StoredFits(l, op, args, j);
        assert r.value[j - 0] == Narrowed(l, op, args, j);
      }
    }
  }

  lemma AssembleCanon(l: Layout, op: Opcode, args: seq<nat>)
    requires l.Valid()
    ensures var r := Assemble(l, op, args); r.Ok? ==> Canon(l, r.value) && r.value.op == op
  {
    hide Layout.Valid, Limit, OperandsFrom, Pow256;
    FieldsFit(l, op);
    if |args| >= Operands(op) {
      OperandsCanon(l, op, args);
    }
  }

  /** What assembling loses: a channel keeps 8 bits, a timer id 32, a sequence count 24. */
  lemma Truncations(l: Layout, op: Opcode, args: seq<nat>)
    requires l.Valid() && Assemble(l, op, args).Ok?
    ensures |args| >= Operands(op)
    ensures var v := Assemble(l, op, args).value.vals;
      && |v| == Operands(op)
      && (op.Tct? ==> v[5] == args[5] % 0x100 && forall k :: 0 <= k < 5 ==> v[k] == args[k])
      && (op.RecordTimer? ==> v[0] == args[0] % P32)
      && (op.LoadPmStart? ==> v[0] == args[0] % 0x100_0000)
  {
    hide Layout.Valid, Pow256, OperandsFrom;
    FieldsFit(l, op);
    Widths(l, op);
    OperandsCanon(l, op, args);
    OperandsAre(l, op, args, 0);
    Pow256Word();
    if op.Tct? {
      forall k | 0 <= k < 5 ensures args[k] % 0x100 == args[k] {
        assert args[k] <= Limit(op, k);
      }
    }
  }

  lemma Widths(l: Layout, op: Opcode)
    requires l.Valid()
    ensures |l.fields(op)| == Operands(op)
    ensures op.Tct? ==> forall k :: 0 <= k < 6 ==> l.fields(op)[k].width == 1
    ensures (op.LoadPmStart? ==> l.fields(op)[0].width == 3) && (op.RecordTimer? ==> l.fields(op)[0].width == 4)
  {
    assert l.OpValid(op);
  }

  ghost predicate StateOk(l: Layout, s: State)
    requires l.Valid()
  {
    CanonAll(l, s.ops) && (s.ops != [] ==> s.outstanding <= |s.ops[|s.ops| - 1].words|)
  }

  lemma AsmStepCanon(l: Layout, s: State, line: Line)
    requires l.Valid() && StateOk(l, s)
    ensures var r := AsmStep(l, s, line); r.Ok? ==> StateOk(l, r.value)
  {
    hide Layout.Valid, Assemble, Limit, Known;
    if line.Op? {
      AssembleCanon(l, line.op, line.args);
    }
  }

  lemma {:induction false} AsmLinesCanon(l: Layout, s: State, lines: seq<Line>)
    requires l.Valid() && StateOk(l, s)
    ensures var r := AsmLines(l, s, lines); r.Ok? ==> StateOk(l, r.value)
    decreases |lines|
  {
    hide Layout.Valid, AsmStep, StateOk;
    if lines != [] {
      AsmStepCanon(l, s, lines[0]);
      var r := AsmStep(l, s, lines[0]);
      if r.Ok? {
        AsmLinesCanon(l, r.value, lines[1..]);
      }
    }
  }

  lemma CanonShaped(l: Layout, ops: seq<Instr>)
    requires l.Valid() && CanonAll(l, ops)
    ensures ShapedAll(ops)
  {
    hide Layout.Valid, Limit;
    forall i | 0 <= i < |ops| ensures Shaped(ops[i]) {
      assert Canon(l, ops[i]);
    }
  }

  // ---------- reading back what was built ----------

  ghost predicate FieldsApart(fields: seq<Field>) {
    forall i, k :: 0 <= i < k < |fields| ==> fields[i].Apart(fields[k])
  }

  lemma {:induction false} PutAllKeeps(b: seq<u8>, fields: seq<Field>, vals: seq<nat>, g: Field)
    requires |fields| == |vals| && forall i :: 0 <= i < |fields| ==> fields[i].at + fields[i].width <= |b|
    requires g.at + g.width <= |b| && forall i :: 0 <= i < |fields| ==> fields[i].Apart(g)
    ensures Get(PutAll(b, fields, vals), 0, g) == Get(b, 0, g)
    decreases |fields|
  {
    hide Get, TxnLayout.Put;
    if fields != [] {
      GetPut(b, fields[0], vals[0], g);
      PutAllKeeps(TxnLayout.Put(b, fields[0], vals[0]), fields[1..], vals[1..], g);
    }
  }

  lemma {:induction false} PutAllGets(b: seq<u8>, fields: seq<Field>, vals: seq<nat>, k: nat)
    requires |fields| == |vals| && forall i :: 0 <= i < |fields| ==> fields[i].at + fields[i].width <= |b|
    requires FieldsApart(fields) && k < |fields|
    ensures Get(PutAll(b, fields, vals), 0, fields[k]) == vals[k] % Pow256(fields[k].width)
    decreases |fields|
  {
    hide Get, TxnLayout.Put, Pow256;
    var c, rest := TxnLayout.Put(b, fields[0], vals[0]), fields[1..];
    assert forall i :: 0 <= i < |rest| ==> rest[i] == fields[i + 1];
    if k == 0 {
      GetPut(b, fields[0], vals[0], fields[0]);
      forall i | 0 <= i < |rest| ensures rest[i].Apart(fields[0]) {
        assert fields[0].Apart(fields[i + 1]);
      }
      PutAllKeeps(c, rest, vals[1..], fields[0]);
    } else {
      PutAllGets(c, rest, vals[1..], k - 1);
    }
  }

  /** The fixed part of an operation's storage. */
  function Fixed(l: Layout, i: Instr): (b: seq<u8>)
    requires l.Valid() && Shaped(i)
    ensures |b| == l.span(i.op)
  {
    FieldsFit(l, i.op);
    var zeros := seq(l.span(i.op), _ => 0 as u8);
    var tagged := TxnLayout.Put(zeros, Field(l.op, 1), l.code(i.op));
    PutAll(if FixedSize(i.op) then tagged
      else TxnLayout.Put(tagged, l.size(i.op), OpBytes(l, i)), l.fields(i.op), i.vals)
  }

  lemma BuildParts(l: Layout, i: Instr)
    requires l.Valid() && Shaped(i)
    ensures Build(l, i) == Fixed(l, i) + WordBytesOf(i.words)
  {
    hide Layout.Valid, TxnLayout.Put, PutAll;
    var z1 := seq(l.span(i.op), _ => 0 as u8);
    FieldsFit(l, i.op);
  }

  lemma OneByte(b: seq<u8>, at: nat)
    requires at < |b|
    ensures Get(b, 0, Field(at, 1)) == b[at]
  {
    assert b[at..at + 1] == [b[at]];
    assert Value([b[at]]) == b[at] + 256 * Value([b[at]][1..]);
    assert [b[at]][1..] == [];
  }

  lemma FixedOpcode(l: Layout, i: Instr)
    requires l.Valid() && Shaped(i)
    ensures l.op < l.span(i.op) && Fixed(l, i)[l.op] == l.code(i.op)
  {
    hide Get, Value, TxnLayout.Put, PutAll;
    FieldsFit(l, i.op);
    var f := Field(l.op, 1);
    var zeros := seq(l.span(i.op), _ => 0 as u8);
    var tagged := TxnLayout.Put(zeros, f, l.code(i.op));
    GetPut(zeros, f, l.code(i.op), f);
    CodeByte(l.code(i.op));
    ApartFacts(l, i.op);
    var sized := if FixedSize(i.op) then tagged else TxnLayout.Put(tagged, l.size(i.op), OpBytes(l, i));
    if !FixedSize(i.op) {
      GetPut(tagged, l.size(i.op), OpBytes(l, i), f);
    }
    PutAllKeeps(sized, l.fields(i.op), i.vals, f);
    OneByte(Fixed(l, i), l.op);
    assert Fixed(l, i) == PutAll(sized, l.fields(i.op), i.vals);
  }

  lemma CodeByte(c: u8)
    ensures c % Pow256(1) == c
  {
    assert Pow256(1) == 256;
  }

  lemma ApartFacts(l: Layout, op: Opcode)
    requires l.Valid()
    ensures FieldsApart(l.fields(op)) && forall k :: 0 <= k < |l.fields(op)| ==> l.fields(op)[k].Apart(Field(l.op, 1))
    ensures !FixedSize(op) ==> l.size(op).Apart(Field(l.op, 1)) && Field(l.op, 1).Apart(l.size(op))
    ensures !FixedSize(op) ==> forall k :: 0 <= k < |l.fields(op)| ==> l.fields(op)[k].Apart(l.size(op))
  {
    assert l.OpValid(op);
    assert forall k :: 0 <= k < |l.fields(op)| ==> l.FieldValid(op, l.fields(op)[k]);
  }

  lemma FixedSizeField(l: Layout, i: Instr)
    requires l.Valid() && Shaped(i) && !FixedSize(i.op) && OpBytes(l, i) < P32
    ensures l.size(i.op).at + l.size(i.op).width <= l.span(i.op) && Get(Fixed(l, i), 0, l.size(i.op)) == OpBytes(l, i)
  {
    hide Get, Value, TxnLayout.Put, PutAll, OpBytes;
    FieldsFit(l, i.op);
    ApartFacts(l, i.op);
    var zeros := seq(l.span(i.op), _ => 0 as u8);
    var tagged := TxnLayout.Put(zeros, Field(l.op, 1), l.code(i.op));
    GetPut(tagged, l.size(i.op), OpBytes(l, i), l.size(i.op));
    SmallWord(OpBytes(l, i));
    PutAllKeeps(TxnLayout.Put(tagged, l.size(i.op), OpBytes(l, i)), l.fields(i.op), i.vals, l.size(i.op));
  }

  lemma SmallWord(v: nat)
    requires v < P32
    ensures v % Pow256(4) == v
  {
    assert Pow256(4) == P32 by { assert Pow256(2) == 0x1_0000; }
  }

  lemma FixedOperands(l: Layout, i: Instr, k: nat)
    requires l.Valid() && Canon(l, i) && k < |i.vals|
    ensures l.fields(i.op)[k].at + l.fields(i.op)[k].width <= l.span(i.op)
    ensures Get(Fixed(l, i), 0, l.fields(i.op)[k]) == i.vals[k]
  {
    hide Get, Value, TxnLayout.Put, PutAll, OpBytes, Pow256, Limit;
    FieldsFit(l, i.op);
    ApartFacts(l, i.op);
    var zeros := seq(l.span(i.op), _ => 0 as u8);
    var tagged := TxnLayout.Put(zeros, Field(l.op, 1), l.code(i.op));
    var sized := if FixedSize(i.op) then tagged else TxnLayout.Put(tagged, l.size(i.op), OpBytes(l, i));
    PutAllGets(sized, l.fields(i.op), i.vals, k);
    SmallMod(i.vals[k], Pow256(l.fields(i.op)[k].width));
  }

  lemma GetShift(b: seq<u8>, at: nat, x: seq<u8>, f: Field)
    requires at + |x| <= |b| && b[at..at + |x|] == x && f.at + f.width <= |x|
    ensures Get(b, at, f) == Get(x, 0, f)
  {
    hide Value;
    var all, part := b[at..at + |x|], b[at + f.at..at + f.at + f.width];
    assert |part| == f.width && forall k :: 0 <= k < |part| ==> part[k] == all[f.at + k];
    assert part == x[f.at..f.at + f.width];
  }

  lemma {:induction false} WordsBack(b: seq<u8>, at: nat, words: seq<u32>)
    requires at + 4 * |words| <= |b| && b[at..at + 4 * |words|] == WordBytesOf(words)
    ensures Words(b, at, |words|) == words
    decreases |words|
  {
    if words != [] {
      var all := b[at..at + 4 * |words|];
      var head, tail := Bytes(words[0], 4), WordBytesOf(words[1..]);
      assert all == head + tail;
      assert b[at..at + 4] == all[..4] == head;
      assert all[4..] == tail;
      assert b[at + 4..at + 4 + 4 * |words[1..]|] == all[4..];
      WordBytes(words[0]);
      WordsBack(b, at + 4, words[1..]);
    }
  }

  lemma TwoParts(b: seq<u8>, at: nat, x: seq<u8>, y: seq<u8>)
    requires at + |x| + |y| <= |b| && b[at..at + |x| + |y|] == x + y
    ensures b[at..at + |x|] == x && b[at + |x|..at + |x| + |y|] == y
  {
    var all := b[at..at + |x| + |y|];
    assert all[..|x|] == x && all[|x|..] == y;
    assert b[at..at + |x|] == all[..|x|] && b[at + |x|..at + |x| + |y|] == all[|x|..];
  }

  lemma ByteOf(b: seq<u8>, at: nat, x: seq<u8>, k: nat)
    requires at + |x| <= |b| && b[at..at + |x|] == x && k < |x|
    ensures b[at + k] == x[k]
  {
    assert b[at..at + |x|][k] == b[at + k];
  }

  /** Reading a built operation gives it back and advances by its size. */
  lemma ReadBuilt(l: Layout, b: seq<u8>, at: nat, i: Instr)
    requires l.Valid() && Canon(l, i) && OpBytes(l, i) < P32 && at + OpBytes(l, i) <= |b|
    requires b[at..at + OpBytes(l, i)] == Build(l, i)
    ensures ReadOp(l, b, at) == Ok((i, OpBytes(l, i)))
  {
    hide Get, Value, Build, Fixed, Layout.Valid, Limit, Words, Pow256, WordBytesOf;
    BuildParts(l, i);
    var n := l.span(i.op);
    FixedOpcode(l, i);
    TwoParts(b, at, Fixed(l, i), WordBytesOf(i.words));
    ByteOf(b, at, Fixed(l, i), l.op);
    CodeOf(l, i.op);
    FieldsFit(l, i.op);
    forall k | 0 <= k < |i.vals| ensures Get(b, at, l.fields(i.op)[k]) == i.vals[k] {
      FixedOperands(l, i, k);
      GetShift(b, at, Fixed(l, i), l.fields(i.op)[k]);
    }
    assert GetAll(b, at, l.fields(i.op)) == i.vals;
    if !FixedSize(i.op) {
      FixedSizeField(l, i);
      GetShift(b, at, Fixed(l, i), l.size(i.op));
    }
    WordsBack(b, at + n, i.words);
  }

  lemma CodeOf(l: Layout, op: Opcode)
    requires l.Valid()
    ensures l.opcodeOf(l.code(op)) == Some(op)
  {}

  /** Where consecutive operations start. */
  function Starts(l: Layout, ops: seq<Instr>, at: nat): seq<nat>
    decreases |ops|
  {
    if ops == [] then [] else [at] + Starts(l, ops[1..], at + OpBytes(l, ops[0]))
  }

  lemma {:induction false} ReadBuiltAll(l: Layout, b: seq<u8>, at: nat, ops: seq<Instr>)
    requires l.Valid() && CanonAll(l, ops) && ShapedAll(ops) && at <= |b| < P32 && b[at..] == BuildAll(l, ops)
    ensures ReadOps(l, b, at, |ops|) == Ok((ops, Starts(l, ops, at), |b|))
    decreases |ops|
  {
    hide Layout.Valid, Build, ReadOp, Canon, Shaped;
    if ops != [] {
      assert Canon(l, ops[0]);
      var x, n := Build(l, ops[0]), OpBytes(l, ops[0]);
      assert |b[at..]| == |x| + |BuildAll(l, ops[1..])|;
      assert b[at..at + n] == b[at..][..n] == x;
      assert b[at + n..] == b[at..][n..] == BuildAll(l, ops[1..]);
      ReadBuilt(l, b, at, ops[0]);
      ReadBuiltAll(l, b, at + n, ops[1..]);
      assert [ops[0]] + ops[1..] == ops;
    }
  }

  // ---------- assembling the printed text ----------

  lemma {:induction false} OperandsAgain(l: Layout, op: Opcode, vals: seq<nat>, args: seq<nat>, k: nat)
    requires l.Valid() && k <= Operands(op) == |vals| <= |args| && vals == args[..|vals|]
      && |l.fields(op)| == Operands(op)
    requires forall j :: 0 <= j < |vals| ==> vals[j] <= Limit(op, j) && vals[j] < Pow256(l.fields(op)[j].width)
    ensures OperandsFrom(l, op, args, k) == Ok(vals[k..])
    decreases Operands(op) - k
  {
    hide Limit, Layout.Valid, Pow256;
    if k < Operands(op) {
      assert args[k] == vals[k];
      SmallMod(args[k], Pow256(l.fields(op)[k].width));
      OperandsAgain(l, op, vals, args, k + 1);
      assert [vals[k]] + vals[k + 1..] == vals[k..];
    } else {
      assert vals[k..] == [];
    }
  }

  lemma AssembleAgain(l: Layout, i: Instr)
    requires l.Valid() && Canon(l, i)
    ensures !i.op.BlockWrite? ==> Assemble(l, i.op, i.vals) == Ok(i)
    ensures i.op.BlockWrite? ==>
      Assemble(l, i.op, i.vals + [|i.words|]) == Ok(Instr(i.op, i.vals, seq(|i.words|, _ => 0)))
  {
    hide Limit, Layout.Valid, Pow256;
    FieldsFit(l, i.op);
    var args := if i.op.BlockWrite? then i.vals + [|i.words|] else i.vals;
    OperandsAgain(l, i.op, i.vals, args, 0);
    assert i.vals[0..] == i.vals;
  }

  lemma {:induction false} AsmLinesAppend(l: Layout, s: State, a: seq<Line>, b: seq<Line>)
    requires l.Valid()
    ensures AsmLines(l, s, a + b) == (var r := AsmLines(l, s, a); if r.Err? then r else AsmLines(l, r.value, b))
    decreases |a|
  {
    hide Layout.Valid, AsmStep;
    if a == [] {
      assert a + b == b;
    } else {
      assert (a + b)[1..] == a[1..] + b;
      var r := AsmStep(l, s, a[0]);
      if r.Ok? {
        AsmLinesAppend(l, r.value, a[1..], b);
      }
    }
  }

  /** The payload lines fill the payload in order. */
  lemma {:induction false} ExtAgain(l: Layout, acc: seq<Instr>, i: Instr, words: seq<u32>, k: nat)
    requires l.Valid() && k <= |words| == |i.words| && forall j :: 0 <= j < k ==> i.words[j] == words[j]
    ensures AsmLines(l, State(acc + [i], |words| - k), ExtLines(words[k..], k)) ==
      Ok(State(acc + [i.(words := words)], 0))
    decreases |words| - k
  {
    hide Layout.Valid;
    if k == |words| {
      assert i.words == words;
    } else {
      var s := State(acc + [i], |words| - k);
      var lines := ExtLines(words[k..], k);
      assert words[k..][0] == words[k] && words[k..][1..] == words[k + 1..];
      assert lines == [Ext(k, words[k])] + ExtLines(words[k + 1..], k + 1);
      assert lines[1..] == ExtLines(words[k + 1..], k + 1);
      var i' := i.(words := i.words[k := words[k]]);
      assert (acc + [i])[|acc| := i'] == acc + [i'];
      ExtAgain(l, acc, i', words, k + 1);
    }
  }

  lemma LinesAgain(l: Layout, acc: seq<Instr>, i: Instr)
    requires l.Valid() && Canon(l, i) && !i.op.LoadPdi?
    ensures AsmLines(l, State(acc, 0), LinesOf(i)) == Ok(State(acc + [i], 0))
  {
    hide Layout.Valid, Assemble, ExtLines, Pow256;
    AssembleAgain(l, i);
    if i.op.BlockWrite? {
      var z := Instr(i.op, i.vals, seq(|i.words|, _ => 0));
      var first := [Op(BlockWrite, i.vals + [|i.words|])];
      AsmLinesAppend(l, State(acc, 0), first, ExtLines(i.words, 0));
      OneLine(l, State(acc, 0), first[0]);
      ExtAgain(l, acc, z, i.words, 0);
      assert i.words[0..] == i.words;
    } else {
      DirKept(l, i);
      OneLine(l, State(acc, 0), Op(i.op, i.vals));
    }
  }

  lemma DirKept(l: Layout, i: Instr)
    requires l.Valid() && Canon(l, i) && !i.op.LoadPdi? && !i.op.BlockWrite?
    ensures LinesOf(i) == [Op(i.op, i.vals)]
  {
    hide Layout.Valid, Pow256;
    if i.op.Tct? {
      assert i.vals[4] <= Limit(Tct, 4);
      assert i.vals[4 := i.vals[4]] == i.vals;
    }
  }

  lemma OneLine(l: Layout, s: State, line: Line)
    requires l.Valid()
    ensures AsmLines(l, s, [line]) == AsmStep(l, s, line)
  {
    hide Layout.Valid, AsmStep;
    assert [line][1..] == [];
  }

  ghost predicate NoPdi(ops: seq<Instr>) {
    forall i :: 0 <= i < |ops| ==> !ops[i].op.LoadPdi?
  }

  lemma {:induction false} AllLinesAgain(l: Layout, acc: seq<Instr>, ops: seq<Instr>)
    requires l.Valid() && CanonAll(l, ops) && ShapedAll(ops)
    ensures var r := AsmLines(l, State(acc, 0), AllLines(ops));
      if NoPdi(ops) then r == Ok(State(acc + ops, 0)) else r.Err?
    decreases |ops|
  {
    hide Layout.Valid, Canon, Shaped, LinesOf, AsmStep;
    if ops == [] {
      assert acc + [] == acc;
    } else {
      assert Canon(l, ops[0]);
      AsmLinesAppend(l, State(acc, 0), LinesOf(ops[0]), AllLines(ops[1..]));
      if ops[0].op.LoadPdi? {
        GarbledFails(l, acc, ops[0]);
      } else {
        LinesAgain(l, acc, ops[0]);
        AllLinesAgain(l, acc + [ops[0]], ops[1..]);
        assert acc + [ops[0]] + ops[1..] == acc + ops;
        assert NoPdi(ops) <==> NoPdi(ops[1..]) by {
          assert forall k :: 1 <= k < |ops| ==> ops[k] == ops[1..][k - 1];
        }
      }
    }
  }

  lemma GarbledFails(l: Layout, acc: seq<Instr>, i: Instr)
    requires l.Valid() && Shaped(i) && i.op.LoadPdi?
    ensures AsmLines(l, State(acc, 0), LinesOf(i)).Err?
  {
    hide Layout.Valid;
    OneLine(l, State(acc, 0), Garbled);
  }

  // ---------- the header ----------

  lemma HeaderReads(l: Layout, cols: nat, size: nat, n: nat)
    requires l.Valid() && size < P32 && n < P32
    ensures var h := Header(l, cols, size, n);
      && l.numCols.at + l.numCols.width <= |h| && l.txnSize.at + l.txnSize.width <= |h|
        && l.numOps.at + l.numOps.width <= |h|
      && l.major.at + l.major.width <= |h| && l.minor.at + l.minor.width <= |h|
      && Get(h, 0, l.numCols) == cols % 0x100 && Get(h, 0, l.txnSize) == size && Get(h, 0, l.numOps) == n
      && Get(h, 0, l.major) == 0 && Get(h, 0, l.minor) == 1
  {
    hide Get, TxnLayout.Put, Value;
    HeaderFields(l);
    var a := TxnLayout.Put(l.template, l.numCols, cols);
    var b := TxnLayout.Put(a, l.txnSize, size);
    SmallWord(size);
    SmallWord(n);
    assert Pow256(1) == 0x100;
    assert l.numCols in {l.numCols, l.txnSize, l.numOps} && l.txnSize in {l.numCols, l.txnSize, l.numOps}
      && l.numOps in {l.numCols, l.txnSize, l.numOps};
    forall f | f in {l.numCols, l.txnSize, l.numOps, l.major, l.minor} && f.at + f.width <= l.header
      ensures l.numCols.Apart(f) ==> Get(a, 0, f) == Get(l.template, 0, f)
      ensures l.txnSize.Apart(f) ==> Get(b, 0, f) == Get(a, 0, f)
      ensures l.numOps.Apart(f) ==> Get(Header(l, cols, size, n), 0, f) == Get(b, 0, f)
    {
      GetPut(l.template, l.numCols, cols, f);
      GetPut(a, l.txnSize, size, f);
      GetPut(b, l.numOps, n, f);
    }
    GetPut(l.template, l.numCols, cols, l.numCols);
    GetPut(a, l.txnSize, size, l.txnSize);
    GetPut(b, l.numOps, n, l.numOps);
  }

  /** The header keeps the low eight bits of the column count and nothing else of it. */
  lemma SameCols(l: Layout, a: nat, b: nat, size: nat, n: nat)
    requires l.Valid() && size < P32 && n < P32
    ensures Header(l, a, size, n) == Header(l, b, size, n) <==> a % 0x100 == b % 0x100
  {
    hide Get, Value, Layout.Valid;
    HeaderFields(l);
    HeaderReads(l, a, size, n);
    HeaderReads(l, b, size, n);
    OneByteField(l);
    ColsByte(a);
    ColsByte(b);
  }

  lemma OneByteField(l: Layout)
    requires l.Valid()
    ensures l.numCols.width == 1
  {}

  lemma ColsByte(c: nat)
    ensures Bytes(c, 1) == [c % 0x100]
  {
    BytesStep(c, 1);
  }

  // ---------- the theorem ----------

  /** What an accepted program turns into. */
  ghost predicate Assembled(l: Layout, p: Asm, b: seq<u8>, ops: seq<Instr>)
    requires l.Valid()
  {
    && AsmLines(l, State([], 0), p.lines).Ok? && AsmLines(l, State([], 0), p.lines).value.ops == ops
    && CanonAll(l, ops) && ShapedAll(ops)
    && b == Header(l, Columns(p), |b|, |ops|) + BuildAll(l, ops) && |ops| <= |b|
  }

  lemma {:induction false} BuildAllLength(l: Layout, ops: seq<Instr>)
    requires l.Valid() && ShapedAll(ops)
    ensures |BuildAll(l, ops)| >= |ops|
    decreases |ops|
  {
    hide Build, Shaped;
    if ops != [] {
      FieldsFit(l, ops[0].op);
      hide Layout.Valid;
      BuildAllLength(l, ops[1..]);
    }
  }

  lemma EncodeAssembles(l: Layout, p: Asm)
    requires l.Valid() && Encode(l, p).Ok?
    ensures exists ops :: Assembled(l, p, Encode(l, p).value, ops)
  {
    hide Layout.Valid, AsmLines, Build, Canon, Shaped, Header;
    AsmLinesCanon(l, State([], 0), p.lines);
    var ops := AsmLines(l, State([], 0), p.lines).value.ops;
    BuildAllLength(l, ops);
    assert Assembled(l, p, Encode(l, p).value, ops);
  }

  /** The size and count fields are exact, both walks visit every operation at its start, and they end
      at the end of the transaction. */
  lemma WalksVisitAll(l: Layout, p: Asm, b: seq<u8>, ops: seq<Instr>)
    requires l.Valid() && Assembled(l, p, b, ops) && |b| < P32
    ensures l.header <= |b| && l.txnSize.at + l.txnSize.width <= |b| && l.numOps.at + l.numOps.width <= |b|
      && l.numCols.at + l.numCols.width <= |b|
    ensures Get(b, 0, l.txnSize) == |b| && Get(b, 0, l.numOps) == |ops| && Get(b, 0, l.numCols) == Columns(p) % 0x100
    ensures ReadOps(l, b, l.header, |ops|) == Ok((ops, Starts(l, ops, l.header), |b|))
  {
    hide Layout.Valid, AsmLines, Build, Canon, Shaped, Header, Get, ReadOps;
    var h := Header(l, Columns(p), |b|, |ops|);
    HeaderReads(l, Columns(p), |b|, |ops|);
    assert b[0..0 + |h|] == h && b[l.header..] == BuildAll(l, ops);
    GetShift(b, 0, h, l.txnSize);
    GetShift(b, 0, h, l.numOps);
    GetShift(b, 0, h, l.numCols);
    ReadBuiltAll(l, b, l.header, ops);
  }

  lemma PrintsLines(l: Layout, p: Asm, b: seq<u8>, ops: seq<Instr>)
    requires l.Valid() && Assembled(l, p, b, ops) && |b| < P32
    ensures Print(l, b) == Ok(Asm(Columns(p) % 0x100, AllLines(ops)))
  {
    hide AsmLines, Build, Canon, Header, Get, ReadOps, AllLines;
    WalksVisitAll(l, p, b, ops);
    var h := Header(l, Columns(p), |b|, |ops|);
    HeaderReads(l, Columns(p), |b|, |ops|);
    assert b[0..0 + |h|] == h;
    GetShift(b, 0, h, l.major);
    HeaderFields(l);
    forall i | 0 <= i < |ops| ensures Printable(ops[i]) {
      CanonPrintable(l, ops[i]);
    }
  }

  lemma CanonPrintable(l: Layout, i: Instr)
    requires l.Valid() && Canon(l, i)
    ensures Printable(i)
  {
    hide Layout.Valid, Pow256;
  }

  lemma {:induction false} OpsGrow(l: Layout, s: State, lines: seq<Line>)
    requires l.Valid() && AsmLines(l, s, lines).Ok?
    ensures |AsmLines(l, s, lines).value.ops| >= |s.ops|
    ensures lines != [] ==> AsmLines(l, s, lines).value.ops != []
    decreases |lines|
  {
    hide Layout.Valid, Assemble;
    if lines != [] {
      OpsGrow(l, AsmStep(l, s, lines[0]).value, lines[1..]);
    }
  }

  lemma SomeLines(ops: seq<Instr>)
    requires ShapedAll(ops) && ops != []
    ensures AllLines(ops) != []
  {
    assert Shaped(ops[0]);
  }

  /** Encoding a program, printing the result and encoding the text again is refused if the program loads
      a PDI. Otherwise it yields the same transaction if and only if the header's eight bits of the
      column count are not zero: text attached to no column is taken to mean column 0. */
  lemma ReassemblyFixedPoint(l: Layout, p: Asm)
    requires l.Valid() && Encode(l, p).Ok? && |Encode(l, p).value| < P32
    ensures var b := Encode(l, p).value; Print(l, b).Ok?
    ensures var b := Encode(l, p).value;
      var again := Encode(l, Print(l, b).value);
      if NoPdi(AsmLines(l, State([], 0), p.lines).value.ops) then again.Ok?
        && (again.value == b <==> p.cols == 0 || p.cols % 0x100 != 0)
      else again.Err?
  {
    hide Layout.Valid, AsmLines, Build, Canon, Shaped, Header, Get, ReadOps, AllLines, Print, BuildAll;
    EncodeAssembles(l, p);
    var b := Encode(l, p).value;
    var ops :| Assembled(l, p, b, ops);
    PrintsLines(l, p, b, ops);
    AllLinesAgain(l, [], ops);
    assert [] + ops == ops;
    OpsGrow(l, State([], 0), p.lines);
    SomeLines(ops);
    var q := Asm(Columns(p) % 0x100, AllLines(ops));
    if NoPdi(ops) {
      SameCols(l, Columns(q), Columns(p), |b|, |ops|);
      HeadersDiffer(Header(l, Columns(q), |b|, |ops|), Header(l, Columns(p), |b|, |ops|), BuildAll(l, ops));
    }
  }

  lemma HeadersDiffer(x: seq<u8>, y: seq<u8>, body: seq<u8>)
    requires |x| == |y|
    ensures x + body == y + body <==> x == y
  {
    if x + body == y + body {
      assert x == (x + body)[..|x|] && y == (y + body)[..|y|];
    }
  }

  /** One PDI load in one column. */
  const PDI := Asm(1, [Op(LoadPdi, [1, 2, 3])])

  lemma PdiOperands(l: Layout)
    requires l.Valid()
    ensures var r := Assemble(l, LoadPdi, [1, 2, 3]); r.Ok? && r.value.op == LoadPdi && Shaped(r.value)
  {
    hide Layout.Valid;
    var args: seq<nat> := [1, 2, 3];
    assert OperandsFrom(l, LoadPdi, args, 3) == Ok([]);
    assert OperandsFrom(l, LoadPdi, args, 2).Ok?;
    assert OperandsFrom(l, LoadPdi, args, 1).Ok?;
  }

  lemma PdiLines(l: Layout)
    requires l.Valid()
    ensures var s := AsmLines(l, State([], 0), PDI.lines);
      s.Ok? && |s.value.ops| == 1 && s.value.ops[0].op == LoadPdi && Shaped(s.value.ops[0])
  {
    hide Layout.Valid, Assemble, Shaped;
    PdiOperands(l);
    assert PDI.lines[1..] == [];
    var i := Assemble(l, LoadPdi, [1, 2, 3]).value;
    assert [] + [i] == [i];
    assert AsmStep(l, State([], 0), PDI.lines[0]) == Ok(State([i], |i.words|));
  }

  lemma OneBuilt(l: Layout, i: Instr)
    requires l.Valid() && Shaped(i) && i.op.LoadPdi?
    ensures |BuildAll(l, [i])| == l.span(LoadPdi)
  {
    hide Layout.Valid, Build;
    assert [i][1..] == [];
  }

  /** Whatever the layout: the program is assembled and printed, and what is printed is refused. */
  lemma PdiNotReassembled(l: Layout)
    requires l.Valid() && l.header + l.span(LoadPdi) < P32
    ensures var b := Encode(l, PDI);
      b.Ok? && Print(l, b.value).Ok? && Encode(l, Print(l, b.value).value).Err?
  {
    hide Layout.Valid, AsmLines, Build, Shaped, Header, Print, BuildAll;
    PdiLines(l);
    var ops := AsmLines(l, State([], 0), PDI.lines).value.ops;
    assert ops == [ops[0]];
    OneBuilt(l, ops[0]);
    ReassemblyFixedPoint(l, PDI);
  }
}
