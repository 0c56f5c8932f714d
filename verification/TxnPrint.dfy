/** Which transactions the printer accepts, and what it prints of them, said byte by byte. */
module TxnPrint {
  import opened Base
  import opened TxnLayout
  import opened TxnAsm

  // ---------- one operation in the buffer ----------

  /** Operations the analyzer's walks go past. */
  predicate Listed(o: Opcode) {
    o in {Write, BlockWrite, MaskWrite, MaskPoll, MaskPollBusy, Noop, Preempt, LoadPdi, LoadPmStart, Tct, DdrPatch,
          ReadRegs, RecordTimer, MergeSync}
  }

  /** Operation `o` stands at `at`. */
  ghost predicate Stands(l: Layout, b: seq<u8>, at: nat, o: Opcode) {
    at + l.op < |b| && l.opcodeOf(b[at + l.op]) == Some(o)
  }

  /** Where the operation behind it stands: a few have a fixed size, the others carry theirs. */
  ghost predicate Leads(l: Layout, b: seq<u8>, at: nat, o: Opcode, next: nat) {
    if o in {Noop, Preempt, LoadPdi, LoadPmStart} then next == at + l.span(o)
    else at + l.size(o).at + l.size(o).width <= |b| && next == at + Get(b, at, l.size(o))
  }

  /** The counting loop goes from `at` to `next`. */
  ghost predicate Counts(l: Layout, b: seq<u8>, at: nat, o: Opcode, next: nat) {
    Listed(o) && Stands(l, b, at, o) && Leads(l, b, at, o, next)
  }

  /** The print loop does: the operation's header is inside the buffer, and a block write's words are. */
  ghost predicate Reads(l: Layout, b: seq<u8>, at: nat, o: Opcode, next: nat) {
    && Counts(l, b, at, o, next) && at + l.span(o) <= |b|
    && (o.BlockWrite? ==> next >= at + l.span(o) && at + l.span(o) + 4 * ((next - (at + l.span(o))) / 4) <= |b|)
  }

  /** The walks' own lists say the same. */
  lemma ListsAgree(o: Opcode)
    ensures Walked(o) <==> Listed(o)
    ensures Listed(o) ==> (FixedSize(o) <==> o in {Noop, Preempt, LoadPdi, LoadPmStart})
  {}

  lemma SkipCounts(l: Layout, b: seq<u8>, at: nat)
    requires l.Valid() && SkipOp(l, b, at).Ok?
    ensures var r := SkipOp(l, b, at).value; Counts(l, b, at, r.0, at + r.1)
  {
    hide Get, Layout.Valid, Walked, Listed, FixedSize;
    ListsAgree(SkipOp(l, b, at).value.0);
  }

  lemma CountsSkip(l: Layout, b: seq<u8>, at: nat, o: Opcode, next: nat)
    requires l.Valid() && Counts(l, b, at, o, next)
    ensures var r := SkipOp(l, b, at); r.Ok? && r.value.0 == o && at + r.value.1 == next
  {
    hide Get, Layout.Valid, Walked, Listed, FixedSize;
    ListsAgree(o);
  }

  lemma ReadReads(l: Layout, b: seq<u8>, at: nat)
    requires l.Valid() && ReadOp(l, b, at).Ok?
    ensures var r := ReadOp(l, b, at).value; Reads(l, b, at, r.0.op, at + r.1)
  {
    hide Get, GetAll, Words, Layout.Valid, Walked, Listed, FixedSize;
    var o := ReadOp(l, b, at).value.0.op;
    ListsAgree(o);
    FieldsFit(l, o);
  }

  lemma ReadsRead(l: Layout, b: seq<u8>, at: nat, o: Opcode, next: nat)
    requires l.Valid() && Reads(l, b, at, o, next)
    ensures var r := ReadOp(l, b, at); r.Ok? && r.value.0.op == o && at + r.value.1 == next
  {
    hide Get, GetAll, Words, Layout.Valid, Walked, Listed, FixedSize;
    ListsAgree(o);
    FieldsFit(l, o);
  }

  // ---------- a run of operations ----------

  /** The counting loop meets `ops` at `starts`; the last start is where it ends. */
  ghost predicate CountedRun(l: Layout, b: seq<u8>, at: nat, ops: seq<Opcode>, starts: seq<nat>) {
    && |starts| == |ops| + 1 && starts[0] == at
    && forall k :: 0 <= k < |ops| ==> Counts(l, b, starts[k], ops[k], starts[k + 1])
  }

  lemma CountedRest(l: Layout, b: seq<u8>, at: nat, ops: seq<Opcode>, starts: seq<nat>)
    requires CountedRun(l, b, at, ops, starts) && ops != []
    ensures Counts(l, b, at, ops[0], starts[1]) && CountedRun(l, b, starts[1], ops[1..], starts[1..])
  {
    hide Counts;
    assert Counts(l, b, starts[0], ops[0], starts[0 + 1]);
    forall k | 0 <= k < |ops[1..]| ensures Counts(l, b, starts[1..][k], ops[1..][k], starts[1..][k + 1]) {
      assert Counts(l, b, starts[k + 1], ops[k + 1], starts[(k + 1) + 1]);
    }
  }

  lemma CountedMore(l: Layout, b: seq<u8>, at: nat, o: Opcode, ops: seq<Opcode>, starts: seq<nat>)
    requires starts != [] && Counts(l, b, at, o, starts[0]) && CountedRun(l, b, starts[0], ops, starts)
    ensures CountedRun(l, b, at, [o] + ops, [at] + starts)
  {
    hide Counts;
    var all, s := [o] + ops, [at] + starts;
    forall k | 0 <= k < |all| ensures Counts(l, b, s[k], all[k], s[k + 1]) {
      if k > 0 {
        assert Counts(l, b, starts[k - 1], ops[k - 1], starts[(k - 1) + 1]);
      }
    }
  }

  /** The counting loop succeeds exactly when `n` operations follow each other from `at` on, and then it meets these. */
  lemma {:induction false} SkipsRun(l: Layout, b: seq<u8>, at: nat, n: nat) returns (starts: seq<nat>)
    requires l.Valid()
    ensures var r := SkipOps(l, b, at, n);
      && (r.Ok? ==> |r.value.0| == n && CountedRun(l, b, at, r.value.0, starts) && starts[n] == r.value.1)
      && forall ops: seq<Opcode>, s: seq<nat> :: |ops| == n && CountedRun(l, b, at, ops, s) ==>
           r.Ok? && ops == r.value.0 && s == starts
    decreases n
  {
    hide Layout.Valid, SkipOp, Counts;
    if SkipOp(l, b, at).Ok? {
      SkipCounts(l, b, at);
    }
    starts := [at];
    if n > 0 {
      var o := SkipOp(l, b, at);
      if o.Ok? {
        var rest := SkipsRun(l, b, at + o.value.1, n - 1);
        if SkipOps(l, b, at + o.value.1, n - 1).Ok? {
          starts := [at] + rest;
          CountedMore(l, b, at, o.value.0, SkipOps(l, b, at + o.value.1, n - 1).value.0, rest);
        }
      }
      forall ops: seq<Opcode>, s: seq<nat> | |ops| == n && CountedRun(l, b, at, ops, s)
        ensures SkipOps(l, b, at, n).Ok? && ops == SkipOps(l, b, at, n).value.0 && s == starts
      {
        CountedRest(l, b, at, ops, s);
        CountsSkip(l, b, at, ops[0], s[1]);
        assert ops == [ops[0]] + ops[1..] && s == [s[0]] + s[1..];
      }
    } else {
      forall ops: seq<Opcode>, s: seq<nat> | |ops| == n && CountedRun(l, b, at, ops, s)
        ensures ops == [] && s == [at]
      {}
    }
  }

  // ---------- what is printed ----------

  /** The lines printed for operation `o` that stands at `at`, the next one at `next`: the mnemonic with the numbers in
      the operation's fields; for a block write also the number of its words, and a numbered line for each; a task
      completion's direction as one of two keywords. A PDI load and a register read print text that is no line. */
  ghost predicate Prints(l: Layout, b: seq<u8>, at: nat, o: Opcode, next: nat, part: seq<Line>)
    requires l.Valid() && Reads(l, b, at, o, next)
  {
    FieldsFit(l, o);
    match o
    case LoadPdi => part == [Garbled]
    case ReadRegs => part == [Garbled]
    case BlockWrite =>
      var p := at + l.span(o);
      var n := (next - p) / 4;
      && |part| == 1 + n && part[0] == Op(BlockWrite, [Get(b, at, l.fields(o)[0]), n])
      && forall j: nat :: j < n ==> part[1 + j] == Ext(j, Value(b[p + 4 * j..p + 4 * j + 4]))
    case Tct =>
      |part| == 1 && part[0].Op? && part[0].op == Tct && |part[0].args| == 6
      && (forall k :: 0 <= k < 6 && k != 4 ==> part[0].args[k] == Get(b, at, l.fields(o)[k]))
      && part[0].args[4] == if Get(b, at, l.fields(o)[4]) == 0 then 0 else 1
    case _ =>
      |part| == 1 && part[0].Op? && part[0].op == o && |part[0].args| == |l.fields(o)|
      && forall k :: 0 <= k < |l.fields(o)| ==> part[0].args[k] == Get(b, at, l.fields(o)[k])
  }

  lemma {:induction false} ExtLinesAt(words: seq<u32>, k: nat, j: nat)
    requires j < |words|
    ensures |ExtLines(words, k)| == |words| && ExtLines(words, k)[j] == Ext(k + j, words[j])
  {
    if j > 0 {
      ExtLinesAt(words[1..], k + 1, j - 1);
    } else if |words| > 1 {
      ExtLinesAt(words[1..], k + 1, 0);
    } else {
      assert words[1..] == [];
      assert ExtLines(words[1..], k + 1) == [];
    }
  }

  lemma {:induction false} ExtLinesLength(words: seq<u32>, k: nat)
    ensures |ExtLines(words, k)| == |words|
  {
    if words != [] {
      ExtLinesAt(words, k, 0);
    }
  }

  lemma ReadParts(l: Layout, b: seq<u8>, at: nat)
    requires l.Valid() && ReadOp(l, b, at).Ok?
    ensures var i := ReadOp(l, b, at).value.0;
      && at + l.span(i.op) <= |b| && |l.fields(i.op)| == Operands(i.op) == |i.vals| && Shaped(i)
      && (forall k :: 0 <= k < |i.vals| ==>
            l.fields(i.op)[k].at + l.fields(i.op)[k].width <= l.span(i.op)
            && i.vals[k] == Get(b, at, l.fields(i.op)[k]))
  {
    hide Get, Words, Layout.Valid;
    FieldsFit(l, ReadOp(l, b, at).value.0.op);
  }

  lemma ReadWords(l: Layout, b: seq<u8>, at: nat)
    requires l.Valid() && ReadOp(l, b, at).Ok? && ReadOp(l, b, at).value.0.op.BlockWrite?
    ensures var i, len := ReadOp(l, b, at).value.0, ReadOp(l, b, at).value.1;
      && len >= l.span(BlockWrite) && at + l.span(BlockWrite) + 4 * ((len - l.span(BlockWrite)) / 4) <= |b|
      && i.words == Words(b, at + l.span(BlockWrite), (len - l.span(BlockWrite)) / 4)
  {
    hide Get, GetAll, Words, Layout.Valid;
    FieldsFit(l, BlockWrite);
  }

  lemma BlockPrints(l: Layout, b: seq<u8>, at: nat)
    requires l.Valid() && ReadOp(l, b, at).Ok? && ReadOp(l, b, at).value.0.op.BlockWrite?
    requires Reads(l, b, at, BlockWrite, at + ReadOp(l, b, at).value.1) && Shaped(ReadOp(l, b, at).value.0)
    ensures var r := ReadOp(l, b, at).value; Prints(l, b, at, BlockWrite, at + r.1, LinesOf(r.0))
  {
    hide Get, GetAll, Words, Layout.Valid, ReadOp, Value, Reads, ExtLines;
    ReadParts(l, b, at);
    ReadWords(l, b, at);
    var i, len := ReadOp(l, b, at).value.0, ReadOp(l, b, at).value.1;
    var p, n := at + l.span(BlockWrite), (len - l.span(BlockWrite)) / 4;
    var part := LinesOf(i);
    ExtLinesLength(i.words, 0);
    assert i.vals == [Get(b, at, l.fields(BlockWrite)[0])];
    assert i.vals + [n] == [Get(b, at, l.fields(BlockWrite)[0]), n];
    forall j: nat | j < n ensures part[1 + j] == Ext(j, Value(b[p + 4 * j..p + 4 * j + 4])) {
      ExtLinesAt(i.words, 0, j);
      WordsRead(b, p, n, j);
    }
  }

  /** What is printed of an operation that was read. */
  lemma OpPrints(l: Layout, b: seq<u8>, at: nat)
    requires l.Valid() && ReadOp(l, b, at).Ok?
    ensures var r := ReadOp(l, b, at).value;
      Reads(l, b, at, r.0.op, at + r.1) && Shaped(r.0) && Prints(l, b, at, r.0.op, at + r.1, LinesOf(r.0))
  {
    hide Get, GetAll, Words, Layout.Valid, ReadOp, Value, Reads, ExtLines;
    ReadReads(l, b, at);
    ReadParts(l, b, at);
    var i := ReadOp(l, b, at).value.0;
    if i.op.BlockWrite? {
      BlockPrints(l, b, at);
    }
  }

  // ---------- a whole transaction ----------

  /** The print loop reads `ops` at `starts`. */
  ghost predicate ReadRun(l: Layout, b: seq<u8>, at: nat, ops: seq<Opcode>, starts: seq<nat>) {
    && |starts| == |ops| + 1 && starts[0] == at
    && forall k :: 0 <= k < |ops| ==> Reads(l, b, starts[k], ops[k], starts[k + 1])
  }

  /** It prints these parts. */
  ghost predicate PrintedRun(l: Layout, b: seq<u8>, ops: seq<Opcode>, starts: seq<nat>, parts: seq<seq<Line>>)
    requires l.Valid() && starts != [] && ReadRun(l, b, starts[0], ops, starts)
  {
    |parts| == |ops| && forall k :: 0 <= k < |ops| ==> Prints(l, b, starts[k], ops[k], starts[k + 1], parts[k])
  }

  lemma ReadRest(l: Layout, b: seq<u8>, at: nat, ops: seq<Opcode>, starts: seq<nat>)
    requires ReadRun(l, b, at, ops, starts) && ops != []
    ensures Reads(l, b, at, ops[0], starts[1]) && ReadRun(l, b, starts[1], ops[1..], starts[1..])
  {
    hide Reads;
    assert Reads(l, b, starts[0], ops[0], starts[0 + 1]);
    forall k | 0 <= k < |ops[1..]| ensures Reads(l, b, starts[1..][k], ops[1..][k], starts[1..][k + 1]) {
      assert Reads(l, b, starts[k + 1], ops[k + 1], starts[(k + 1) + 1]);
    }
  }

  lemma ReadMore(l: Layout, b: seq<u8>, at: nat, o: Opcode, ops: seq<Opcode>, starts: seq<nat>)
    requires starts != [] && Reads(l, b, at, o, starts[0]) && ReadRun(l, b, starts[0], ops, starts)
    ensures ReadRun(l, b, at, [o] + ops, [at] + starts)
  {
    hide Reads;
    var all, s := [o] + ops, [at] + starts;
    forall k | 0 <= k < |all| ensures Reads(l, b, s[k], all[k], s[k + 1]) {
      if k > 0 {
        assert Reads(l, b, starts[k - 1], ops[k - 1], starts[(k - 1) + 1]);
      }
    }
  }

  lemma PrintedMore(l: Layout, b: seq<u8>, at: nat, o: Opcode, ops: seq<Opcode>, starts: seq<nat>, part: seq<Line>,
                    parts: seq<seq<Line>>)
    requires l.Valid() && starts != [] && Reads(l, b, at, o, starts[0]) && ReadRun(l, b, starts[0], ops, starts)
    requires Prints(l, b, at, o, starts[0], part) && PrintedRun(l, b, ops, starts, parts)
    ensures ReadRun(l, b, at, [o] + ops, [at] + starts)
    ensures PrintedRun(l, b, [o] + ops, [at] + starts, [part] + parts)
  {
    hide Reads, Layout.Valid, Prints;
    ReadMore(l, b, at, o, ops, starts);
    var all, s, ps := [o] + ops, [at] + starts, [part] + parts;
    forall k | 0 <= k < |all| ensures Prints(l, b, s[k], all[k], s[k + 1], ps[k]) {
      if k > 0 {
        assert Prints(l, b, starts[k - 1], ops[k - 1], starts[(k - 1) + 1], parts[k - 1]);
      }
    }
  }

  /** The opcodes of what was read. */
  function OpcodesOf(ops: seq<Instr>): (r: seq<Opcode>)
    ensures |r| == |ops| && forall k :: 0 <= k < |ops| ==> r[k] == ops[k].op
  {
    seq(|ops|, k requires 0 <= k < |ops| => ops[k].op)
  }

  lemma FirstRead(l: Layout, b: seq<u8>, at: nat, n: nat)
    requires l.Valid() && n > 0 && ReadOps(l, b, at, n).Ok?
    ensures var o := ReadOp(l, b, at);
      && o.Ok? && var rest := ReadOps(l, b, at + o.value.1, n - 1);
        && rest.Ok? && ReadOps(l, b, at, n).value.0 == [o.value.0] + rest.value.0
        && ReadOps(l, b, at, n).value.2 == rest.value.2
  {
    hide Layout.Valid, ReadOp;
  }

  lemma FirstLines(i: Instr, ops: seq<Instr>)
    requires Shaped(i) && ShapedAll(ops)
    ensures ShapedAll([i] + ops) && AllLines([i] + ops) == LinesOf(i) + AllLines(ops)
  {
    hide LinesOf, Shaped;
    var all := [i] + ops;
    assert forall k :: 0 <= k < |all| ==> Shaped(all[k]);
    assert all[1..] == ops;
  }

  lemma FirstPart(part: seq<Line>, parts: seq<seq<Line>>)
    ensures Concat([part] + parts) == part + Concat(parts)
  {
    assert ([part] + parts)[1..] == parts;
  }

  lemma NothingRead(l: Layout, b: seq<u8>, at: nat)
    requires l.Valid()
    ensures var r := ReadOps(l, b, at, 0);
      r.Ok? && r.value.0 == [] && r.value.2 == at && AllLines([]) == Concat<Line>([]) && OpcodesOf([]) == []
  {
    hide Layout.Valid;
  }

  lemma {:induction false} RunReads(l: Layout, b: seq<u8>, at: nat, n: nat)
    returns (starts: seq<nat>, parts: seq<seq<Line>>)
    requires l.Valid() && ReadOps(l, b, at, n).Ok?
    ensures var r := ReadOps(l, b, at, n).value;
      && |r.0| == n && ShapedAll(r.0) && |starts| == n + 1 && starts[0] == at
      && ReadRun(l, b, at, OpcodesOf(r.0), starts)
      && starts[n] == r.2 && PrintedRun(l, b, OpcodesOf(r.0), starts, parts) && AllLines(r.0) == Concat(parts)
    decreases n
  {
    hide Layout.Valid, ReadOp, Reads, Prints, LinesOf, Shaped, ReadOps, AllLines, Concat;
    if n == 0 {
      starts, parts := [at], [];
      NothingRead(l, b, at);
    } else {
      hide PrintedRun, ReadRun, OpcodesOf, ShapedAll;
      FirstRead(l, b, at, n);
      OpPrints(l, b, at);
      var i, len := ReadOp(l, b, at).value.0, ReadOp(l, b, at).value.1;
      var more, rest := RunReads(l, b, at + len, n - 1);
      var ops := ReadOps(l, b, at + len, n - 1).value.0;
      starts, parts := [at] + more, [LinesOf(i)] + rest;
      PrintedMore(l, b, at, i.op, OpcodesOf(ops), more, LinesOf(i), rest);
      assert OpcodesOf([i] + ops) == [i.op] + OpcodesOf(ops);
      FirstLines(i, ops);
      FirstPart(LinesOf(i), rest);
    }
  }

  lemma {:induction false} RunIsRead(l: Layout, b: seq<u8>, at: nat, ops: seq<Opcode>, starts: seq<nat>)
    requires l.Valid() && ReadRun(l, b, at, ops, starts)
    ensures ReadOps(l, b, at, |ops|).Ok? && OpcodesOf(ReadOps(l, b, at, |ops|).value.0) == ops
    decreases |ops|
  {
    hide Layout.Valid, ReadOp, Reads;
    if ops != [] {
      ReadRest(l, b, at, ops, starts);
      ReadsRead(l, b, at, ops[0], starts[1]);
      RunIsRead(l, b, starts[1], ops[1..], starts[1..]);
    }
  }

  /** A preemption level of the operation at `at` is one of the five that have names. */
  ghost predicate LevelNamed(l: Layout, b: seq<u8>, at: nat, o: Opcode) {
    o.Preempt? ==>
      (|l.fields(o)| == 1 && at + l.fields(o)[0].at + l.fields(o)[0].width <= |b| && Get(b, at, l.fields(o)[0]) < 5)
  }

  /** The operations of the transaction are `ops`, at `starts`, and all of them have names for what they print. */
  ghost predicate Holds(l: Layout, b: seq<u8>, n: nat, ops: seq<Opcode>, starts: seq<nat>) {
    && |ops| == n && ReadRun(l, b, l.header, ops, starts)
    && forall k :: 0 <= k < n ==> LevelNamed(l, b, starts[k], ops[k])
  }

  /** The header is inside the buffer, holds the buffer's size, and is not of the optimized form. */
  ghost predicate HeaderOk(l: Layout, b: seq<u8>)
    requires l.Valid()
  {
    HeaderFields(l);
    l.header <= |b| && Get(b, 0, l.txnSize) == |b| && !(Get(b, 0, l.major) == 1 && Get(b, 0, l.minor) == 0)
  }

  lemma LevelRead(l: Layout, b: seq<u8>, at: nat)
    requires l.Valid() && ReadOp(l, b, at).Ok?
    ensures var i := ReadOp(l, b, at).value.0; Printable(i) <==> LevelNamed(l, b, at, i.op)
  {
    hide Layout.Valid, Get, Words;
    ReadParts(l, b, at);
  }

  lemma {:induction false} LevelsRead(l: Layout, b: seq<u8>, at: nat, n: nat, starts: seq<nat>)
    requires l.Valid() && ReadOps(l, b, at, n).Ok? && |ReadOps(l, b, at, n).value.0| == n
    requires ReadRun(l, b, at, OpcodesOf(ReadOps(l, b, at, n).value.0), starts)
    ensures var ops := ReadOps(l, b, at, n).value.0;
      forall k :: 0 <= k < n ==> (Printable(ops[k]) <==> LevelNamed(l, b, starts[k], ops[k].op))
    decreases n
  {
    hide Layout.Valid, ReadOp, Reads, Printable, LevelNamed;
    if n > 0 {
      var ops := ReadOps(l, b, at, n).value.0;
      LevelRead(l, b, at);
      ReadRest(l, b, at, OpcodesOf(ops), starts);
      ReadsRead(l, b, at, ops[0].op, starts[1]);
      var rest := ReadOps(l, b, starts[1], n - 1).value.0;
      assert ops == [ops[0]] + rest;
      assert OpcodesOf(ops)[1..] == OpcodesOf(rest);
      LevelsRead(l, b, starts[1], n - 1, starts[1..]);
      forall k | 1 <= k < n ensures Printable(ops[k]) <==> LevelNamed(l, b, starts[k], ops[k].op) {
        assert ops[k] == rest[k - 1] && starts[k] == starts[1..][k - 1];
      }
    }
  }

  /** A transaction is printed if and only if its header is in order, as many operations as it counts follow each other
      behind it, each readable, and every preemption level has a name. What is printed is the column count and, one
      after another, what each operation prints. */
  lemma PrintMeans(l: Layout, b: seq<u8>) returns (ops: seq<Opcode>, starts: seq<nat>, parts: seq<seq<Line>>)
    requires l.Valid()
    ensures Print(l, b).Ok? ==> HeaderOk(l, b)
    ensures HeaderOk(l, b) ==> l.numOps.at + l.numOps.width <= |b| && l.numCols.at + l.numCols.width <= |b|
    ensures HeaderOk(l, b) ==> var n := Get(b, 0, l.numOps);
      && (Print(l, b).Ok? ==> Holds(l, b, n, ops, starts) && PrintedRun(l, b, ops, starts, parts)
                              && Print(l, b).value == Asm(Get(b, 0, l.numCols), Concat(parts)))
      && forall os: seq<Opcode>, ss: seq<nat> :: Holds(l, b, n, os, ss) ==> Print(l, b).Ok?
  {
    hide Layout.Valid, ReadOps, Printable, LevelNamed, ReadRun, PrintedRun, AllLines, Get, ShapedAll;
    HeaderFields(l);
    ops, starts, parts := [], [], [];
    if HeaderOk(l, b) {
      var n := Get(b, 0, l.numOps);
      if ReadOps(l, b, l.header, n).Ok? {
        starts, parts := RunReads(l, b, l.header, n);
        var r := ReadOps(l, b, l.header, n).value;
        ops := OpcodesOf(r.0);
        LevelsRead(l, b, l.header, n, starts);
      }
      forall os: seq<Opcode>, ss: seq<nat> | Holds(l, b, n, os, ss) ensures Print(l, b).Ok? {
        HeldPrints(l, b, n, os, ss);
      }
    }
  }

  lemma HeldPrints(l: Layout, b: seq<u8>, n: nat, os: seq<Opcode>, ss: seq<nat>)
    requires l.Valid() && HeaderOk(l, b) && n == Get(b, 0, l.numOps) && Holds(l, b, n, os, ss)
    ensures Print(l, b).Ok?
  {
    hide Layout.Valid, ReadOps, Printable, LevelNamed, ReadRun, AllLines, Get, ShapedAll;
    HeaderFields(l);
    RunIsRead(l, b, l.header, os, ss);
    var starts, parts := RunReads(l, b, l.header, n);
    var r := ReadOps(l, b, l.header, n).value;
    LevelsRead(l, b, l.header, n, ss);
    assert forall k :: 0 <= k < n ==> Printable(r.0[k]);
  }
}
