/** `uc_dma_bd` descriptors: two encoders and the decoder of a chain. */
module UcDma {
  import opened Base
  import opened Serialize

  /** A descriptor as written in assembly; `local` is an absolute position. */
  datatype Bd = Bd(high: u32, low: u32, local: u32, size: u32, external: bool, next: bool)

  // ---------- encoders ----------

  /** The byte encoder, for a descriptor at `pos`. */
  function CppBytes(d: Bd, pos: nat): (b: seq<u8>)
    ensures |b| == 16
  {
    EncodeBd(d.high, d.low, LocalPointer(d.local, pos), d.size, d.external, d.next)
  }

  /** The word encoder; it checks alignment and that the local data follows the descriptor. */
  function PyWords(d: Bd, pos: nat): Result<seq<u32>> {
    if pos % 16 != 0 || d.local <= pos then Err(BadOperand) else
    Ok([d.size % 0x8000 + (if d.next then 0x1_0000 else 0) + (if d.external then 0x2_0000 else 0) + 0x4_0000,
        d.local - pos, d.low, d.high % 0x2000_0000])
  }

  function WordsToBytes(words: seq<u32>): seq<u8> {
    if words == [] then [] else Bytes(words[0], 4) + WordsToBytes(words[1..])
  }

  lemma FourWords(a: u32, b: u32, c: u32, d: u32)
    ensures WordsToBytes([a, b, c, d]) == Bytes(a, 4) + Bytes(b, 4) + Bytes(c, 4) + Bytes(d, 4)
  {
    hide Bytes, WordsToBytes;
    FirstWord(a, [b, c, d], [a, b, c, d]);
    FirstWord(b, [c, d], [b, c, d]);
    FirstWord(c, [d], [c, d]);
    LastWord(d);
    Assoc(Bytes(a, 4), Bytes(b, 4), Bytes(c, 4) + Bytes(d, 4));
    Assoc(Bytes(a, 4) + Bytes(b, 4), Bytes(c, 4), Bytes(d, 4));
  }

  lemma FirstWord(w: u32, rest: seq<u32>, all: seq<u32>)
    requires all == [w] + rest
    ensures WordsToBytes(all) == Bytes(w, 4) + WordsToBytes(rest)
  {
    hide Bytes;
    assert all[1..] == rest;
  }

  lemma LastWord(w: u32)
    ensures WordsToBytes([w]) == Bytes(w, 4)
  {
    hide Bytes;
    assert [w][1..] == [];
  }

  lemma Digits(w: u32, b0: u8, b1: u8, b2: u8, b3: u8)
    requires w == b0 + 0x100 * (b1 as int) + 0x1_0000 * (b2 as int) + 0x100_0000 * (b3 as int)
    ensures Bytes(w, 4) == [b0, b1, b2, b3]
  {
    hide Bytes, Value;
    WordBytes(w);
    DigitAt(w, 1, 0, b0, b1 + 0x100 * (b2 as int) + 0x1_0000 * (b3 as int));
    DigitAt(w, 0x100, b0, b1, b2 + 0x100 * (b3 as int));
    DigitAt(w, 0x1_0000, b0 + 0x100 * (b1 as int), b2, b3);
    DigitAt(w, 0x100_0000, b0 + 0x100 * (b1 as int) + 0x1_0000 * (b2 as int), b3, 0);
  }

  lemma DigitAt(w: nat, d: nat, low: nat, b: u8, high: nat)
    requires low < d && w == d * (b + 0x100 * high) + low
    ensures w / d % 0x100 == b
  {
    DivModUnique(w, d, b + 0x100 * high, low);
    DivModUnique(b + 0x100 * high, 0x100, high, b);
  }

  lemma SplitLow(w: nat, m: nat)
    requires m > 0
    ensures w % (0x100 * m) == w % 0x100 + 0x100 * (w / 0x100 % m)
  {
    ModSplit(w, m);
  }

  lemma ControlWord(size: u32, next: bool, external: bool)
    ensures var w := size % 0x8000 + (if next then 0x1_0000 else 0) + (if external then 0x2_0000 else 0) + 0x4_0000;
      Bytes(w, 4) == [size % 0x100, size / 0x100 % 0x80, (if next then 1 else 0) + (if external then 2 else 0) + 4, 0]
  {
    hide Bytes;
    var c: u8 := (if next then 1 else 0) + (if external then 2 else 0) + 4;
    SplitLow(size, 0x80);
    Digits(size % 0x8000 + 0x1_0000 * (c as int), size % 0x100, size / 0x100 % 0x80, c, 0);
  }

  lemma HighWord(high: u32)
    ensures Bytes(high % 0x2000_0000, 4) ==
      [high % 0x100, high / 0x100 % 0x100, high / 0x1_0000 % 0x100, high / 0x100_0000 % 0x20]
  {
    hide Bytes;
    SplitLow(high, 0x20_0000);
    SplitLow(high / 0x100, 0x2000);
    SplitLow(high / 0x100 / 0x100, 0x20);
    Shifts(high);
    Digits(high % 0x2000_0000, high % 0x100, high / 0x100 % 0x100, high / 0x1_0000 % 0x100, high / 0x100_0000 % 0x20);
  }

  lemma Shifts(w: nat)
    ensures w / 0x100 / 0x100 == w / 0x1_0000 && w / 0x1_0000 / 0x100 == w / 0x100_0000
  {}

  /** Whenever the word encoder accepts a descriptor, both encoders produce the same sixteen bytes. */
  lemma EncodersAgree(d: Bd, pos: nat)
    ensures PyWords(d, pos).Ok? <==> pos % 16 == 0 && d.local > pos
    ensures PyWords(d, pos).Ok? ==> WordsToBytes(PyWords(d, pos).value) == CppBytes(d, pos)
  {
    hide Bytes;
    if PyWords(d, pos).Ok? {
      var w := PyWords(d, pos).value;
      FourWords(w[0], w[1], w[2], w[3]);
      ControlWord(d.size, d.next, d.external);
      HighWord(d.high);
      assert LocalPointer(d.local, pos) == d.local - pos;
    }
  }

  // ---------- decoder ----------

  /** A decoded line; the local pointer is printed as a numbered label. */
  datatype Row = Row(high: nat, low: nat, mark: nat, size: nat, external: bool, next: bool)

  /** Labels given to local addresses so far, and the next number. */
  datatype Marks = Marks(at: map<nat, nat>, next: nat) {
    /** Numbers are distinct and below the next one. */
    ghost predicate Valid() {
      && (forall a :: a in at ==> at[a] < next)
      && forall a, b :: a in at && b in at && at[a] == at[b] ==> a == b
    }

    function Mark(address: nat): (r: (Marks, nat))
      ensures address in r.0.at && r.0.at[address] == r.1
    {
      if address in at then (this, at[address]) else (Marks(at[address := next], next + 1), next)
    }
  }

  /** `read_integer`: past the end it reads nothing, and zero. */
  function ReadInt(b: seq<u8>, i: nat, n: nat): (r: (nat, nat))
    ensures i <= r.1 && (r.0 != 0 ==> r.1 == i + n <= |b|)
  {
    if i + n > |b| then (0, i) else (Value(b[i..i + n]), i + n)
  }

  /** One descriptor: its row, the labels after it, and the reader's index after it. */
  function DecodeOne(b: seq<u8>, i: nat, pos: nat, marks: Marks): (r: (Row, Marks, nat))
    ensures i <= r.2 && (r.0.next ==> i < r.2 && i < |b|)
  {
    var size := ReadInt(b, i, 2);
    var ctrl := ReadInt(b, size.1, 2);
    var local := ReadInt(b, ctrl.1, 4);
    var low := ReadInt(b, local.1, 4);
    var high := ReadInt(b, low.1, 4);
    var m := marks.Mark(local.0 + pos);
    (Row(high.0, low.0, m.1, size.0, ctrl.0 / 2 % 2 == 1, ctrl.0 % 2 == 1), m.0, high.1)
  }

  /** The `while ctrl_next_BD` loop from reader index `i` and position `pos`. */
  function DecodeChain(b: seq<u8>, i: nat, pos: nat, marks: Marks): (seq<Row>, Marks, nat)
    decreases if i <= |b| then |b| - i else 0
  {
    var d := DecodeOne(b, i, pos, marks);
    if d.0.next then
      var rest := DecodeChain(b, d.2, pos + 16, d.1);
      ([d.0] + rest.0, rest.1, rest.2)
    else ([d.0], d.1, pos + 16)
  }

  /** The rows so far, continued by `rest`, are the whole result. */
  ghost predicate Continues(all: (seq<Row>, Marks, nat), rows: seq<Row>, rest: (seq<Row>, Marks, nat)) {
    all == (rows + rest.0, rest.1, rest.2)
  }

  lemma ContinueStart(all: (seq<Row>, Marks, nat))
    ensures Continues(all, [], all)
  {
    assert [] + all.0 == all.0;
  }

  lemma ContinueWith(all: (seq<Row>, Marks, nat), rows: seq<Row>, row: Row, rest: (seq<Row>, Marks, nat))
    requires Continues(all, rows, ([row] + rest.0, rest.1, rest.2))
    ensures Continues(all, rows + [row], rest)
  {
    assert rows + ([row] + rest.0) == rows + [row] + rest.0;
  }

  /** The chain that starts at the byte before the reader's index: the label of its position, then its rows.
      A position that is not a multiple of 16, or has no label, is refused. */
  function Deserialized(b: seq<u8>, i: nat, pos: nat, labels: map<nat, nat>, marks: Marks): Result<(nat,
                        (seq<Row>, Marks, nat))> {
    if pos % 16 != 0 then Err(BadOperand) else
    if pos !in labels then Err(LabelNotFound) else
    if i == 0 || i - 1 >= |b| then Err(Crash) else
    Ok((labels[pos], DecodeChain(b, i - 1, pos, marks)))
  }

  /** `deserialize`. */
  method Deserialize(b: seq<u8>, i: nat, startPos: nat, labels: map<nat, nat>, startMarks: Marks)
    returns (r: Result<nat>, rows: seq<Row>, marks: Marks, pos: nat)
    ensures var spec := Deserialized(b, i, startPos, labels, startMarks);
      if spec.Err? then r == Err(spec.error) else r == Ok(spec.value.0) && (rows, marks, pos) == spec.value.1
  {
    rows, marks, pos := [], startMarks, startPos;
    if startPos % 16 != 0 {
      return Err(BadOperand), rows, marks, pos;
    }
    if startPos !in labels {
      return Err(LabelNotFound), rows, marks, pos;
    }
    if i == 0 || i - 1 >= |b| {
      return Err(Crash), rows, marks, pos;
    }
    rows, marks, pos := ReadChain(b, i - 1, startPos, startMarks);
    r := Ok(labels[startPos]);
  }

  /** The loop over a chain, descriptor by descriptor. */
  method ReadChain(b: seq<u8>, start: nat, startPos: nat, startMarks: Marks)
    returns (rows: seq<Row>, marks: Marks, pos: nat)
    ensures (rows, marks, pos) == DecodeChain(b, start, startPos, startMarks)
  {
    hide Continues, DecodeOne;
    rows, marks, pos := [], startMarks, startPos;
    var i, ctrlNext := start, true;
    ghost var all := DecodeChain(b, start, startPos, startMarks);
    ContinueStart(all);
    while ctrlNext
      invariant i >= 0
      invariant ctrlNext ==> Continues(all, rows, DecodeChain(b, i, pos, marks))
      invariant !ctrlNext ==> all == (rows, marks, pos)
      decreases ctrlNext, if i <= |b| then |b| - i else 0
    {
      ghost var one := DecodeOne(b, i, pos, marks);
      ghost var rest := if one.0.next then DecodeChain(b, one.2, pos + 16, one.1) else ([], one.1, pos + 16);
      assert [one.0] + [] == [one.0];
      ContinueWith(all, rows, one.0, rest);
      var row;
      row, marks, i := ReadOne(b, i, pos, marks);
      rows := rows + [row];
      pos := pos + 16;
      ctrlNext := row.next;
      if !ctrlNext {
        ContinueEnd(all, rows, marks, pos);
      }
    }
  }

  lemma ContinueEnd(all: (seq<Row>, Marks, nat), rows: seq<Row>, marks: Marks, pos: nat)
    requires Continues(all, rows, ([], marks, pos))
    ensures all == (rows, marks, pos)
  {
    assert rows + [] == rows;
  }

  method ReadOne(b: seq<u8>, start: nat, pos: nat, marks: Marks) returns (row: Row, marks': Marks, i: nat)
    ensures (row, marks', i) == DecodeOne(b, start, pos, marks)
    ensures row.next ==> start < i && start < |b|
  {
    var size := ReadInt(b, start, 2);
    var ctrl := ReadInt(b, size.1, 2);
    var local := ReadInt(b, ctrl.1, 4);
    var low := ReadInt(b, local.1, 4);
    var high := ReadInt(b, low.1, 4);
    var marked := marks.Mark(local.0 + pos);
    marks' := marked.0;
    i := high.1;
    row := Row(high.0, low.0, marked.1, size.0, ctrl.0 / 2 % 2 == 1, ctrl.0 % 2 == 1);
  }

  /** A descriptor cut short by the end of the file: fields that are whole are read, the others are zero, and the reader
      stays behind the last whole one. */
  lemma CutShort(b: seq<u8>, i: nat, pos: nat, marks: Marks)
    requires i <= |b| < i + 16
    ensures var r, left := DecodeOne(b, i, pos, marks), |b| - i;
      && r.0.high == 0
      && r.0.low == (if left >= 12 then Value(b[i + 8..i + 12]) else 0)
      && r.0.size == (if left >= 2 then Value(b[i..i + 2]) else 0)
      && (r.0.next <==> left >= 4 && Value(b[i + 2..i + 4]) % 2 == 1)
      && (r.0.external <==> left >= 4 && Value(b[i + 2..i + 4]) / 2 % 2 == 1)
      && r.2 == i + (if left >= 12 then 12 else if left >= 8 then 8 else if left >= 4 then 4 else if left >= 2 then 2
                     else 0)
  {
    hide Value, Marks.Mark;
  }

  /** Labels were added, numbered one after another from the next number on; the old ones stayed. */
  ghost predicate Numbered(m: Marks, more: Marks) {
    && m.at.Keys <= more.at.Keys && more.next - m.next == |more.at.Keys| - |m.at.Keys|
    && (forall a :: a in more.at && a !in m.at ==> m.next <= more.at[a] < more.next)
    && (forall a :: a in m.at ==> more.at[a] == m.at[a])
  }

  lemma NumberedOne(m: Marks, address: nat)
    ensures Numbered(m, m.Mark(address).0)
  {
    var more := m.Mark(address).0;
    if address !in m.at {
      assert more.at.Keys == m.at.Keys + {address};
    }
  }

  lemma NumberedBoth(a: Marks, b: Marks, c: Marks)
    requires Numbered(a, b) && Numbered(b, c) && a.next <= b.next <= c.next
    ensures Numbered(a, c)
  {}

  /** Decoding a chain numbers the labels it adds one after another. */
  lemma {:induction false} LabelsNumbered(b: seq<u8>, i: nat, pos: nat, marks: Marks)
    ensures var m := DecodeChain(b, i, pos, marks).1; Numbered(marks, m) && marks.next <= m.next
    decreases if i <= |b| then |b| - i else 0
  {
    hide DecodeOne, Numbered;
    var d := DecodeOne(b, i, pos, marks);
    var local := LocalOf(b, i, pos, marks);
    NumberedOne(marks, local);
    if d.0.next {
      LabelsNumbered(b, d.2, pos + 16, d.1);
      NumberedBoth(marks, d.1, DecodeChain(b, d.2, pos + 16, d.1).1);
    }
  }

  /** The address a row's label stands for. */
  lemma LocalOf(b: seq<u8>, i: nat, pos: nat, marks: Marks) returns (local: nat)
    ensures DecodeOne(b, i, pos, marks).1 == marks.Mark(local).0
  {
    hide Value, ReadInt;
    var size := ReadInt(b, i, 2);
    var ctrl := ReadInt(b, size.1, 2);
    local := ReadInt(b, ctrl.1, 4).0 + pos;
  }

  // ---------- round trip ----------

  /** A chain of descriptors laid out one after another from `pos`. */
  function ChainBytes(ds: seq<Bd>, pos: nat): (b: seq<u8>)
    ensures |b| == 16 * |ds|
    decreases |ds|
  {
    if ds == [] then [] else CppBytes(ds[0], pos) + ChainBytes(ds[1..], pos + 16)
  }

  /** All descriptors but the last link to the next; fields fit; local data follows its descriptor. */
  ghost predicate Chain(ds: seq<Bd>, pos: nat) {
    && ds != [] && (forall k :: 0 <= k < |ds| ==> (ds[k].next <==> k < |ds| - 1))
    && forall k :: 0 <= k < |ds| ==> ds[k].size < 0x8000 && ds[k].high < 0x2000_0000 && ds[k].local > pos + 16 * k
  }

  /** The row shows the descriptor, and its label stands for the absolute local address. */
  ghost predicate Shows(row: Row, d: Bd, marks: Marks) {
    && row.high == d.high && row.low == d.low && row.size == d.size && row.external == d.external && row.next == d.next
    && d.local in marks.at && marks.at[d.local] == row.mark
  }

  lemma TwoBytes(x: u8, y: u8)
    ensures Value([x, y]) == x + 256 * (y as int)
  {
    assert [x, y][1..] == [y] && [y][1..] == [];
    assert Value([y]) == y + 256 * Value([]);
  }

  lemma WordBack(w: u32)
    ensures Value(Bytes(w, 4)) == w
  {
    WordBytes(w);
  }

  lemma Part(b: seq<u8>, i: nat, x: seq<u8>, from: nat, to: nat)
    requires i + |x| <= |b| && b[i..i + |x|] == x && from <= to <= |x|
    ensures b[i + from..i + to] == x[from..to]
  {
    var all, part := b[i..i + |x|], b[i + from..i + to];
    assert |part| == to - from;
    assert forall k :: 0 <= k < |part| ==> part[k] == all[from + k];
  }

  /** The five integers the decoder reads from an encoded descriptor: its fields, cut to 15, 32, 32 and 29 bits. */
  lemma ReadsFields(b: seq<u8>, i: nat, d: Bd, pos: nat)
    requires i + 16 <= |b| && b[i..i + 16] == CppBytes(d, pos)
    ensures Value(b[i..i + 2]) == d.size % 0x8000
    ensures Value(b[i + 2..i + 4]) == (if d.next then 1 else 0) + (if d.external then 2 else 0) + 4
    ensures Value(b[i + 4..i + 8]) == (d.local - pos) % 0x1_0000_0000
    ensures Value(b[i + 8..i + 12]) == d.low && Value(b[i + 12..i + 16]) == d.high % 0x2000_0000
  {
    hide Value, Bytes;
    var x := CppBytes(d, pos);
    var c: u8 := (if d.next then 1 else 0) + (if d.external then 2 else 0) + 4;
    Part(b, i, x, 0, 2);
    assert x[0..2] == [d.size % 0x100, d.size / 0x100 % 0x80];
    TwoBytes(d.size % 0x100, d.size / 0x100 % 0x80);
    SplitLow(d.size, 0x80);
    Part(b, i, x, 2, 4);
    assert x[2..4] == [c, 0];
    TwoBytes(c, 0);
    Part(b, i, x, 4, 8);
    assert x[4..8] == Bytes(LocalPointer(d.local, pos), 4);
    WordBack(LocalPointer(d.local, pos));
    Part(b, i, x, 8, 12);
    assert x[8..12] == Bytes(d.low, 4);
    WordBack(d.low);
    HighWord(d.high);
    Part(b, i, x, 12, 16);
    assert x[12..16] == Bytes(d.high % 0x2000_0000, 4);
    WordBack(d.high % 0x2000_0000);
  }

  /** Fields that fit are read as they are. */
  lemma ReadsBack(b: seq<u8>, i: nat, d: Bd, pos: nat)
    requires i + 16 <= |b| && b[i..i + 16] == CppBytes(d, pos) && d.size < 0x8000 && d.high < 0x2000_0000
      && d.local > pos
    ensures Value(b[i..i + 2]) == d.size
    ensures Value(b[i + 2..i + 4]) == (if d.next then 1 else 0) + (if d.external then 2 else 0) + 4
    ensures Value(b[i + 4..i + 8]) == d.local - pos
    ensures Value(b[i + 8..i + 12]) == d.low && Value(b[i + 12..i + 16]) == d.high
  {
    hide Value, CppBytes;
    ReadsFields(b, i, d, pos);
  }

  /** Decoding one encoded descriptor. */
  lemma OneBack(b: seq<u8>, i: nat, d: Bd, pos: nat, marks: Marks)
    requires i + 16 <= |b| && b[i..i + 16] == CppBytes(d, pos) && d.size < 0x8000 && d.high < 0x2000_0000
      && d.local > pos
    ensures var r, m := DecodeOne(b, i, pos, marks), marks.Mark(d.local);
      r == (Row(d.high, d.low, m.1, d.size, d.external, d.next), m.0, i + 16)
  {
    hide Value, CppBytes;
    ReadsBack(b, i, d, pos);
  }

  /** The row shows the descriptor at `pos` with each field cut to its bits; the local address is where the pointer,
      taken modulo 2^32, leads from the descriptor. */
  ghost predicate ShowsCut(row: Row, d: Bd, pos: nat, marks: Marks) {
    && row.high == d.high % 0x2000_0000 && row.low == d.low && row.size == d.size % 0x8000
    && row.external == d.external && row.next == d.next
    && var local := (d.local - pos) % 0x1_0000_0000 + pos; local in marks.at && marks.at[local] == row.mark
  }

  /** Decoding a descriptor whose fields need not fit. */
  lemma RowReads(b: seq<u8>, i: nat, d: Bd, pos: nat, marks: Marks)
    requires i + 16 <= |b| && b[i..i + 16] == CppBytes(d, pos)
    ensures var r := DecodeOne(b, i, pos, marks); r.2 == i + 16 && ShowsCut(r.0, d, pos, r.1)
  {
    hide Value, CppBytes;
    ReadsFields(b, i, d, pos);
  }

  ghost predicate Extends(a: Marks, b: Marks) {
    forall x :: x in a.at ==> x in b.at && b.at[x] == a.at[x]
  }

  /** Rows and later rows show the descriptors, also after more labels were given. */
  lemma RowsShow(row: Row, rows: seq<Row>, ds: seq<Bd>, m: Marks, m': Marks)
    requires |ds| == |rows| + 1 && Shows(row, ds[0], m) && Extends(m, m')
    requires forall k :: 0 <= k < |rows| ==> Shows(rows[k], ds[1..][k], m')
    ensures forall k :: 0 <= k < |ds| ==> Shows(([row] + rows)[k], ds[k], m')
  {
    forall k | 0 <= k < |ds| ensures Shows(([row] + rows)[k], ds[k], m') {
      if k > 0 {
        assert ds[1..][k - 1] == ds[k] && ([row] + rows)[k] == rows[k - 1];
      }
    }
  }

  /** Decoding an encoded chain recovers every field of every descriptor, gives equal local addresses
      equal labels and different ones different labels, and stops right after the last descriptor. */
  lemma {:induction false} ChainRoundTrip(b: seq<u8>, i: nat, ds: seq<Bd>, pos: nat, marks: Marks)
    requires Chain(ds, pos) && i + 16 * |ds| <= |b| && b[i..i + 16 * |ds|] == ChainBytes(ds, pos) && marks.Valid()
    ensures var r := DecodeChain(b, i, pos, marks);
      && |r.0| == |ds| && r.2 == pos + 16 * |ds|
      && r.1.Valid() && Extends(marks, r.1)
      && forall k :: 0 <= k < |ds| ==> Shows(r.0[k], ds[k], r.1)
    decreases |ds|
  {
    hide CppBytes, DecodeOne;
    var d, rest := ds[0], ds[1..];
    var all := ChainBytes(ds, pos);
    Part(b, i, all, 0, 16);
    assert all[..16] == CppBytes(d, pos);
    assert d.size < 0x8000 && d.high < 0x2000_0000 && d.local > pos + 16 * 0;
    OneBack(b, i, d, pos, marks);
    var m := marks.Mark(d.local).0;
    MarkKeeps(marks, d.local);
    if |ds| > 1 {
      Part(b, i, all, 16, 16 * |ds|);
      assert all[16..] == ChainBytes(rest, pos + 16);
      ChainRest(ds, pos);
      ChainRoundTrip(b, i + 16, rest, pos + 16, m);
      var r := DecodeChain(b, i + 16, pos + 16, m);
      RowsShow(DecodeOne(b, i, pos, marks).0, r.0, ds, m, r.1);
    }
  }

  lemma MarkKeeps(marks: Marks, a: nat)
    requires marks.Valid()
    ensures var m := marks.Mark(a).0; m.Valid() && Extends(marks, m)
  {}

  lemma ChainRest(ds: seq<Bd>, pos: nat)
    requires Chain(ds, pos) && |ds| > 1
    ensures Chain(ds[1..], pos + 16) && ds[0].next
  {
    var rest := ds[1..];
    assert forall k :: 0 <= k < |rest| ==> rest[k] == ds[k + 1];
    forall k | 0 <= k < |rest| ensures rest[k].local > pos + 16 + 16 * k {
      assert ds[k + 1].local > pos + 16 * (k + 1);
    }
  }
}
