/** The assembler's and the analyzer's loops over AIE2 transactions. */
module TxnTools {
  import opened Base
  import opened TxnLayout
  import opened TxnAsm
  import opened TxnRoundTrip

  /** Stores a little-endian field into a heap buffer. */
  method PutInto(a: array<u8>, f: Field, v: nat)
    requires f.at + f.width <= a.Length
    modifies a
    ensures a[..] == TxnLayout.Put(old(a[..]), f, v)
  {
    hide Bytes;
    var i: nat, rest: nat := 0, v;
    ghost var b := old(a[..]);
    NothingStored(b, f, v);
    while i < f.width
      invariant i <= f.width && a[..] == PartlyStored(b, f, v, i) && Bytes(v, f.width)[i..] == Bytes(rest, f.width - i)
    {
      BytesStep(rest, f.width - i);
      assert Bytes(v, f.width)[i] == rest % 256 && Bytes(v, f.width)[i + 1..] == Bytes(rest / 256, f.width - i - 1);
      a[f.at + i] := rest % 256;
      OneStored(b, f, v, i);
      rest := rest / 256;
      i := i + 1;
    }
    AllStored(b, f, v);
  }

  /** The buffer when `i` bytes of the field have been stored. */
  ghost function PartlyStored(b: seq<u8>, f: Field, v: nat, i: nat): seq<u8>
    requires f.at + f.width <= |b| && i <= f.width
  {
    b[..f.at] + Bytes(v, f.width)[..i] + b[f.at + i..]
  }

  lemma NothingStored(b: seq<u8>, f: Field, v: nat)
    requires f.at + f.width <= |b|
    ensures PartlyStored(b, f, v, 0) == b && Bytes(v, f.width)[0..] == Bytes(v, f.width)
  {
    hide Bytes;
  }

  lemma OneStored(b: seq<u8>, f: Field, v: nat, i: nat)
    requires f.at + f.width <= |b| && i < f.width
    ensures PartlyStored(b, f, v, i + 1) == PartlyStored(b, f, v, i)[f.at + i := Bytes(v, f.width)[i]]
  {
    hide Bytes;
  }

  lemma AllStored(b: seq<u8>, f: Field, v: nat)
    requires f.at + f.width <= |b|
    ensures PartlyStored(b, f, v, f.width) == TxnLayout.Put(b, f, v)
  {
    hide Bytes;
    assert Bytes(v, f.width)[..f.width] == Bytes(v, f.width);
  }

  method PutFields(a: array<u8>, fields: seq<Field>, vals: seq<nat>)
    requires |fields| == |vals| && forall i :: 0 <= i < |fields| ==> fields[i].at + fields[i].width <= a.Length
    modifies a
    ensures a[..] == PutAll(old(a[..]), fields, vals)
  {
    hide TxnLayout.Put;
    var i := 0;
    assert fields[0..] == fields && vals[0..] == vals;
    while i < |fields|
      invariant i <= |fields|
      invariant PutAll(a[..], fields[i..], vals[i..]) == PutAll(old(a[..]), fields, vals)
    {
      assert fields[i..][0] == fields[i] && fields[i..][1..] == fields[i + 1..];
      assert vals[i..][0] == vals[i] && vals[i..][1..] == vals[i + 1..];
      PutInto(a, fields[i], vals[i]);
      i := i + 1;
    }
    assert fields[i..] == [];
  }

  /** An operation under construction (`aie2_isa_op`): its heap storage and the payload words a block
      write still expects. */
  class Operation {
    const op: Opcode
    const vals: seq<nat>
    const storage: array<u8>
    var outstanding: nat
    ghost var instr: Instr

    ghost predicate Valid(l: Layout)
      reads this, storage
      requires l.Valid()
    {
      instr.op == op && Shaped(instr) && storage[..] == Build(l, instr) && outstanding <= |instr.words|
    }

    /** Allocates zeroed storage and fills in opcode, size and operands. */
    constructor (l: Layout, i: Instr)
      requires l.Valid() && Shaped(i) && forall k :: 0 <= k < |i.words| ==> i.words[k] == 0
      ensures Valid(l) && instr == i && outstanding == |i.words| && fresh(storage)
    {
      op := i.op;
      vals := i.vals;
      storage := new u8[OpBytes(l, i)](_ => 0);
      outstanding := |i.words|;
      instr := i;
      new;
      Fill(l);
    }

    /** Fills zeroed storage with opcode, size and operands. */
    method Fill(l: Layout)
      requires l.Valid() && Shaped(instr) && instr.op == op
        && forall k :: 0 <= k < |instr.words| ==> instr.words[k] == 0
      requires storage[..] == seq(OpBytes(l, instr), _ => 0) && vals == instr.vals && outstanding == |instr.words|
      modifies storage
      ensures Valid(l)
    {
      hide Layout.Valid, TxnLayout.Put, PutAll, Fixed, Build;
      FieldsFit(l, op);
      ghost var tail := WordBytesOf(instr.words);
      ZeroWords(instr.words);
      ghost var zeros := seq(l.span(op), _ => 0 as u8);
      assert storage[..] == zeros + tail;
      PutFront(zeros, tail, Field(l.op, 1), l.code(op));
      PutInto(storage, Field(l.op, 1), l.code(op));
      ghost var tagged := TxnLayout.Put(zeros, Field(l.op, 1), l.code(op));
      if !FixedSize(op) {
        PutFront(tagged, tail, l.size(op), OpBytes(l, instr));
        PutInto(storage, l.size(op), storage.Length);
      }
      ghost var sized := if FixedSize(op) then tagged else TxnLayout.Put(tagged, l.size(op), OpBytes(l, instr));
      PutAllFront(sized, tail, l.fields(op), vals);
      PutFields(storage, l.fields(op), vals);
      BuildParts(l, instr);
      FixedIs(l, instr, sized);
    }

    /** `process_outstanding_ext_op`. */
    method ProcessOutstanding(l: Layout, line: Line) returns (ok: bool)
      requires l.Valid() && Valid(l)
      modifies this, storage
      ensures ok <==>
          old(outstanding) > 0 && line.Ext? && line.k == |old(instr).words| - old(outstanding)
          && line.val < P32
      ensures Valid(l)
      ensures if ok then outstanding == old(outstanding) - 1
        && instr == old(instr).(words := old(instr).words[line.k := line.val])
              else instr == old(instr) && outstanding == old(outstanding)
    {
      hide Layout.Valid, TxnLayout.Put, Build, Fixed;
      FieldsFit(l, op);
      if outstanding == 0 || !line.Ext? {
        return false;
      }
      var index := (storage.Length - l.span(op)) / 4 - outstanding;
      assert storage.Length == OpBytes(l, instr);
      assert index == |instr.words| - outstanding;
      if line.k != index || line.val >= P32 {
        return false;
      }
      BuildParts(l, instr);
      PutWord(Fixed(l, instr), instr.words, index, line.val);
      PutInto(storage, Field(l.span(op) + 4 * index, 4), line.val);
      ghost var next := instr.(words := instr.words[index := line.val]);
      SameFixed(l, instr, next);
      BuildParts(l, next);
      instr := next;
      outstanding := outstanding - 1;
      return true;
    }
  }

  lemma {:induction false} ZeroWords(words: seq<u32>)
    requires forall k :: 0 <= k < |words| ==> words[k] == 0
    ensures WordBytesOf(words) == seq(4 * |words|, _ => 0 as u8)
  {
    if words != [] {
      ZeroWords(words[1..]);
      WordBytes(0);
      assert Bytes(words[0], 4) == [0, 0, 0, 0];
    }
  }

  lemma PutFront(a: seq<u8>, tail: seq<u8>, f: Field, v: nat)
    requires f.at + f.width <= |a|
    ensures TxnLayout.Put(a + tail, f, v) == TxnLayout.Put(a, f, v) + tail
  {
    assert (a + tail)[f.at + f.width..] == a[f.at + f.width..] + tail;
  }

  lemma {:induction false} PutAllFront(a: seq<u8>, tail: seq<u8>, fields: seq<Field>, vals: seq<nat>)
    requires |fields| == |vals| && forall i :: 0 <= i < |fields| ==> fields[i].at + fields[i].width <= |a|
    ensures PutAll(a + tail, fields, vals) == PutAll(a, fields, vals) + tail
    decreases |fields|
  {
    hide TxnLayout.Put;
    if fields != [] {
      PutFront(a, tail, fields[0], vals[0]);
      PutAllFront(TxnLayout.Put(a, fields[0], vals[0]), tail, fields[1..], vals[1..]);
    }
  }

  lemma FixedIs(l: Layout, i: Instr, sized: seq<u8>)
    requires l.Valid() && Shaped(i) && |sized| == l.span(i.op) && |l.fields(i.op)| == |i.vals|
    requires forall k :: 0 <= k < |l.fields(i.op)| ==> l.fields(i.op)[k].at + l.fields(i.op)[k].width <= l.span(i.op)
    requires l.op + 1 <= l.span(i.op) && (!FixedSize(i.op) ==> l.size(i.op).at + l.size(i.op).width <= l.span(i.op))
    requires var tagged := TxnLayout.Put(seq(l.span(i.op), _ => 0 as u8), Field(l.op, 1), l.code(i.op));
      sized == if FixedSize(i.op) then tagged else TxnLayout.Put(tagged, l.size(i.op), OpBytes(l, i))
    ensures Fixed(l, i) == PutAll(sized, l.fields(i.op), i.vals)
  {
    hide Layout.Valid, TxnLayout.Put, PutAll;
    var z1, z2 := seq(l.span(i.op), _ => 0 as u8), seq(l.span(i.op), _ => 0 as u8);
    assert z1 == z2;
  }

  /** Only the size of an operation's payload shows in its fixed part. */
  lemma SameFixed(l: Layout, a: Instr, b: Instr)
    requires l.Valid() && Shaped(a) && Shaped(b) && a.op == b.op && a.vals == b.vals && |a.words| == |b.words|
    ensures Fixed(l, a) == Fixed(l, b)
  {
    hide Layout.Valid, TxnLayout.Put, PutAll;
  }

  lemma {:induction false} WordBytesJoin(a: seq<u32>, b: seq<u32>)
    ensures WordBytesOf(a + b) == WordBytesOf(a) + WordBytesOf(b)
    decreases |a|
  {
    hide Bytes;
    if a == [] {
      assert a + b == b;
    } else {
      assert (a + b)[1..] == a[1..] + b;
      WordBytesJoin(a[1..], b);
      Assoc(Bytes(a[0], 4), WordBytesOf(a[1..]), WordBytesOf(b));
    }
  }

  lemma WordBytesHead(words: seq<u32>)
    requires words != []
    ensures WordBytesOf(words) == Bytes(words[0], 4) + WordBytesOf(words[1..])
  {}

  lemma Cut<T>(s: seq<T>, k: nat)
    requires k < |s|
    ensures s == s[..k] + s[k..] && s[k..][0] == s[k] && s[k..][1..] == s[k + 1..]
  {}

  lemma WordBytesSplit(words: seq<u32>, k: nat)
    requires k < |words|
    ensures WordBytesOf(words)
      == WordBytesOf(words[..k]) + Bytes(words[k], 4) + WordBytesOf(words[k + 1..])
  {
    hide Bytes, WordBytesOf;
    Cut(words, k);
    WordBytesHead(words[k..]);
    WordBytesJoin(words[..k], words[k..]);
    Assoc(WordBytesOf(words[..k]), Bytes(words[k], 4), WordBytesOf(words[k + 1..]));
  }

  lemma Parts<T>(a: seq<T>, b: seq<T>, c: seq<T>)
    ensures (a + b + c)[..|a|] == a && (a + b + c)[|a| + |b|..] == c
  {}

  lemma WordBytesSet(words: seq<u32>, k: nat, v: u32)
    requires k < |words|
    ensures WordBytesOf(words[k := v]) == WordBytesOf(words)[..4 * k] + Bytes(v, 4) + WordBytesOf(words)[4 * k + 4..]
  {
    hide Bytes, WordBytesOf;
    WordBytesSplit(words, k);
    WordBytesSplit(words[k := v], k);
    assert words[k := v][..k] == words[..k] && words[k := v][k + 1..] == words[k + 1..];
    Parts(WordBytesOf(words[..k]), Bytes(words[k], 4), WordBytesOf(words[k + 1..]));
  }

  lemma PutWord(front: seq<u8>, words: seq<u32>, k: nat, v: u32)
    requires k < |words|
    ensures TxnLayout.Put(front + WordBytesOf(words), Field(|front| + 4 * k, 4), v) == front
      + WordBytesOf(words[k := v])
  {
    WordBytesSet(words, k, v);
    var w := WordBytesOf(words);
    assert (front + w)[..|front| + 4 * k] == front + w[..4 * k];
    assert (front + w)[|front| + 4 * k + 4..] == w[4 * k + 4..];
  }

  // ---------- encode ----------

  /** The list of operations: valid, and with storages of their own. */
  ghost predicate Listed(l: Layout, list: seq<Operation>, ops: seq<Instr>)
    requires l.Valid()
    reads list, set o | o in list :: o.storage
  {
    && |list| == |ops|
    && (forall i :: 0 <= i < |list| ==> list[i].Valid(l) && list[i].instr == ops[i])
    && (forall i, k :: 0 <= i < k < |list| ==> list[i] != list[k] && list[i].storage != list[k].storage)
  }

  /** A payload line goes to the last operation. */
  method ExtendLast(l: Layout, list: seq<Operation>, ghost s: State, line: Line) returns (ok: bool)
    requires l.Valid() && StateOk(l, s) && Listed(l, list, s.ops) && list != []
    requires list[|list| - 1].outstanding == s.outstanding > 0
    modifies list[|list| - 1], list[|list| - 1].storage
    ensures var r := AsmStep(l, s, line);
      ok == r.Ok? && (ok ==> Listed(l, list, r.value.ops) && list[|list| - 1].outstanding == r.value.outstanding)
  {
    hide Layout.Valid, Assemble, Build, Shaped, Canon;
    var n := |list| - 1;
    LastWithin(l, s);
    assert list[n].instr == s.ops[n];
    assert forall i :: 0 <= i < n ==> list[i].Valid(l) && list[i] != list[n] && list[i].storage != list[n].storage;
    ok := list[n].ProcessOutstanding(l, line);
    assert forall i :: 0 <= i < n ==> list[i].Valid(l) && list[i].instr == s.ops[i];
  }

  /** A mnemonic line makes a new operation. */
  method AppendNew(l: Layout, list: seq<Operation>, ghost s: State, line: Line) returns (r: Option<Operation>)
    requires l.Valid() && StateOk(l, s) && Listed(l, list, s.ops) && (list != [] ==> s.outstanding == 0)
    ensures var spec := AsmStep(l, s, line);
      if r.None? then spec.Err? else
      && spec.Ok? && fresh(r.value) && fresh(r.value.storage)
      && Listed(l, list + [r.value], spec.value.ops) && r.value.outstanding == spec.value.outstanding
  {
    hide Layout.Valid, Assemble, Build, Shaped, Canon;
    if !line.Op? {
      return None;
    }
    var i := Assemble(l, line.op, line.args);
    if i.Err? {
      return None;
    }
    AssembleCanon(l, line.op, line.args);
    CanonIsShaped(l, i.value);
    ZeroPayload(l, line.op, line.args);
    var operation := new Operation(l, i.value);
    assert forall k :: 0 <= k < |list| ==> list[k].Valid(l) && list[k].instr == s.ops[k];
    return Some(operation);
  }

  /** `encode`: build the list line by line, serialize it, patch the header. */
  method EncodeLines(l: Layout, p: Asm) returns (r: Option<seq<u8>>)
    requires l.Valid()
    ensures var spec := Encode(l, p); if spec.Ok? then r == Some(spec.value) else r == None
  {
    hide Layout.Valid, AsmStep, Build, CanonAll, Header, Shaped, Operation.Valid, StateOk, Columns;
    if |p.lines| == 0 {
      return None;
    }
    var list: seq<Operation> := [];
    ghost var s := State([], 0);
    StartOk(l);
    var k := 0;
    assert p.lines[0..] == p.lines;
    while k < |p.lines|
      invariant k <= |p.lines| && StateOk(l, s) && Listed(l, list, s.ops)
      invariant forall i :: 0 <= i < |list| ==> fresh(list[i]) && fresh(list[i].storage)
      invariant list != [] ==> list[|list| - 1].outstanding == s.outstanding
      invariant AsmLines(l, State([], 0), p.lines) == AsmLines(l, s, p.lines[k..])
    {
      var line := p.lines[k];
      assert p.lines[k..][0] == line && p.lines[k..][1..] == p.lines[k + 1..];
      AsmStepCanon(l, s, line);
      if |list| > 0 && list[|list| - 1].outstanding > 0 {
        var ok := ExtendLast(l, list, s, line);
        if !ok {
          return None;
        }
      } else {
        var operation := AppendNew(l, list, s, line);
        if operation.None? {
          return None;
        }
        list := list + [operation.value];
      }
      s := AsmStep(l, s, line).value;
      k := k + 1;
    }
    assert p.lines[k..] == [];
    StateShaped(l, s);
    var body := Serialize(l, list, s.ops);
    return Some(Header(l, Columns(p), l.header + |body|, |list|) + body);
  }

  lemma StateShaped(l: Layout, s: State)
    requires l.Valid() && StateOk(l, s)
    ensures ShapedAll(s.ops)
  {
    hide CanonAll;
    CanonShaped(l, s.ops);
  }

  lemma StartOk(l: Layout)
    requires l.Valid()
    ensures StateOk(l, State([], 0))
  {}

  lemma LastWithin(l: Layout, s: State)
    requires l.Valid() && StateOk(l, s) && s.ops != []
    ensures s.outstanding <= |s.ops[|s.ops| - 1].words|
  {}

  lemma CanonIsShaped(l: Layout, i: Instr)
    requires l.Valid() && Canon(l, i)
    ensures Shaped(i)
  {
    hide Limit;
  }

  lemma ZeroPayload(l: Layout, op: Opcode, args: seq<nat>)
    requires l.Valid()
    ensures var r := Assemble(l, op, args); r.Ok? ==> forall k :: 0 <= k < |r.value.words| ==> r.value.words[k] == 0
  {
    hide Layout.Valid, OperandsFrom;
  }

  method Serialize(l: Layout, list: seq<Operation>, ghost ops: seq<Instr>) returns (body: seq<u8>)
    requires l.Valid() && Listed(l, list, ops) && ShapedAll(ops)
    ensures body == BuildAll(l, ops)
  {
    hide Layout.Valid, Build, Shaped;
    body := [];
    var i := 0;
    assert ops[0..] == ops;
    while i < |list|
      invariant i <= |list| && body + BuildAll(l, ops[i..]) == BuildAll(l, ops)
    {
      assert ops[i..][0] == ops[i] && ops[i..][1..] == ops[i + 1..];
      body := body + list[i].storage[..];
      i := i + 1;
    }
    assert ops[i..] == [];
  }

  // ---------- the analyzer ----------

  /** `count_tnx`: how often each opcode occurs, and where the walk ends. */
  method CountOps(l: Layout, b: seq<u8>) returns (r: Result<(map<Opcode, nat>, nat)>)
    requires l.Valid() && l.header <= |b| && l.numOps.at + l.numOps.width <= |b|
    ensures var ops := SkipOps(l, b, l.header, Get(b, 0, l.numOps));
      if ops.Err? then r.Err?
      else r.Ok? && r.value.1 == ops.value.1 && forall o :: CountAt(r.value.0, o) == Occurs(ops.value.0, o)
  {
    hide Layout.Valid, SkipOp;
    var counts: map<Opcode, nat> := map[];
    var n := Get(b, 0, l.numOps);
    var at: nat, i: nat := l.header, 0;
    ghost var all := SkipOps(l, b, l.header, n);
    while i < n
      invariant i <= n
      invariant var rest := SkipOps(l, b, at, n - i);
        && all.Ok? == rest.Ok?
        && (all.Ok? ==> (all.value.1 == rest.value.1
              && forall o :: Occurs(all.value.0, o) == CountAt(counts, o) + Occurs(rest.value.0, o)))
    {
      var op := SkipOp(l, b, at);
      if op.Err? {
        return Err(op.error);
      }
      var o := op.value.0;
      ghost var rest := SkipOps(l, b, at + op.value.1, n - i - 1);
      assert rest.Ok? ==> ([o] + rest.value.0)[1..] == rest.value.0;
      counts := counts[o := CountAt(counts, o) + 1];
      at := at + op.value.1;
      i := i + 1;
    }
    return Ok((counts, at));
  }

  function CountAt(counts: map<Opcode, nat>, o: Opcode): nat {
    if o in counts then counts[o] else 0
  }

  /** How often `o` is in the list. */
  function Occurs(ops: seq<Opcode>, o: Opcode): nat {
    if ops == [] then 0 else (if ops[0] == o then 1 else 0) + Occurs(ops[1..], o)
  }

  /** `stringify_txn`: the constructor's size check, then one operation's text after another. */
  method Stringify(l: Layout, b: seq<u8>) returns (r: Option<Asm>)
    requires l.Valid()
    ensures var spec := Print(l, b); if spec.Ok? then r == Some(spec.value) else r == None
  {
    hide Layout.Valid, ReadOp, LinesOf, Printable, Get, Shaped;
    HeaderFields(l);
    VersionFits(l);
    if l.header > |b| || Get(b, 0, l.txnSize) != |b| || (Get(b, 0, l.major) == 1 && Get(b, 0, l.minor) == 0) {
      return None;
    }
    var n := Get(b, 0, l.numOps);
    var at: nat, i: nat, text := l.header, 0, [];
    ghost var all := ReadOps(l, b, l.header, n);
    while i < n
      invariant i <= n
      invariant var rest := ReadOps(l, b, at, n - i);
        && all.Ok? == rest.Ok?
        && (all.Ok? ==> PrintableAll(all.value.0) == PrintableAll(rest.value.0)
                        && (PrintableAll(all.value.0) ==> AllText(all.value.0) == text + AllText(rest.value.0)))
    {
      var op := ReadOp(l, b, at);
      if op.Err? {
        return None;
      }
      ghost var rest := ReadOps(l, b, at + op.value.1, n - i - 1);
      if rest.Ok? {
        PrintableFirst(op.value.0, rest.value.0);
      }
      if !Printable(op.value.0) {
        PrintableMeans(all);
        return None;
      }
      PrintableShaped(op.value.0);
      text := text + LinesOf(op.value.0);
      at := at + op.value.1;
      i := i + 1;
    }
    PrintableMeans(all);
    assert text + [] == text;
    return Some(Asm(Get(b, 0, l.numCols), text));
  }

  lemma VersionFits(l: Layout)
    requires l.Valid()
    ensures l.major.at + l.major.width <= l.header && l.minor.at + l.minor.width <= l.header
  {}

  predicate PrintableAll(ops: seq<Instr>) {
    ops == [] || (Printable(ops[0]) && PrintableAll(ops[1..]))
  }

  lemma {:induction false} PrintableIff(ops: seq<Instr>)
    ensures PrintableAll(ops) <==> forall i :: 0 <= i < |ops| ==> Printable(ops[i])
    ensures PrintableAll(ops) ==> ShapedAll(ops)
  {
    if ops != [] {
      PrintableIff(ops[1..]);
      hide Printable, Shaped;
      assert forall i :: 1 <= i < |ops| ==> ops[i] == ops[1..][i - 1];
      if Printable(ops[0]) {
        PrintableShaped(ops[0]);
      }
    }
  }

  lemma PrintableShaped(i: Instr)
    requires Printable(i)
    ensures Shaped(i)
  {}

  function AllText(ops: seq<Instr>): seq<Line>
    requires PrintableAll(ops)
  {
    PrintableIff(ops);
    AllLines(ops)
  }

  lemma PrintableFirst(i: Instr, rest: seq<Instr>)
    ensures PrintableAll([i] + rest) <==> Printable(i) && PrintableAll(rest)
    ensures PrintableAll([i] + rest) ==> Shaped(i) && AllText([i] + rest) == LinesOf(i) + AllText(rest)
  {
    assert ([i] + rest)[1..] == rest;
    hide LinesOf;
  }

  lemma PrintableMeans(all: Result<(seq<Instr>, seq<nat>, nat)>)
    ensures all.Ok? ==>
      var ops := all.value.0;
      (PrintableAll(ops) <==> ShapedAll(ops) && !exists i :: 0 <= i < |ops| && !Printable(ops[i]))
  {
    if all.Ok? {
      PrintableIff(all.value.0);
    }
  }
}
