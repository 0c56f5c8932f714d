/** Control packets built from their bit fields: what is recognised and what is printed of them. */
module PacketFields {
  import opened Base
  import opened Packets

  // ---------- the two leading words ----------

  /** The fields of a packet header, from the lowest bits on; `a`, `b` and `c` are reserved. */
  datatype Header = Header(stream: nat, order: nat, a: nat, rtn: nat, b: nat, row: nat, col: nat, c: nat, parity: nat) {
    predicate Valid() {
      stream < 32 && order < 64 && a < 2 && rtn < 8 && b < 2 && row < 32 && col < 128 && c < 8 && parity < 2
    }

    /** 5, 6, 1, 3, 1, 5, 7, 3 and 1 bits. */
    function Word(): u32
      requires Valid()
    {
      stream + 0x20 * (order + 0x40 * (a + 2 * (rtn + 8 * (b + 2 * (row + 0x20 * (col + 0x80 * (c + 8 * parity)))))))
    }
  }

  /** The fields of a control word; `reserved` is. */
  datatype Info = Info(address: nat, beats: nat, operation: nat, rtn: nat, reserved: nat, parity: nat) {
    predicate Valid() {
      address < 0x10_0000 && beats < 4 && operation < 4 && rtn < 32 && reserved < 4 && parity < 2
    }

    /** 20, 2, 2, 5, 2 and 1 bits. */
    function Word(): u32
      requires Valid()
    {
      address + 0x10_0000 * (beats + 4 * (operation + 4 * (rtn + 0x20 * (reserved + 4 * parity))))
    }
  }

  /** The field that starts at bit position `at` of a word: `low` below it, `high` above it. */
  lemma FieldAt(w: nat, at: nat, width: nat, low: nat, field: nat, high: nat)
    requires low < at && field < width && w == at * (field + width * high) + low
    ensures w / at % width == field
  {
    DivModUnique(w, at, field + width * high, low);
    DivModUnique(field + width * high, width, high, field);
  }

  lemma ReservedA(h: Header)
    requires h.Valid()
    ensures h.Word() / 0x800 % 2 == h.a
  {
    FieldAt(h.Word(), 0x800, 2, h.stream + 0x20 * h.order, h.a,
      h.rtn + 8 * (h.b + 2 * (h.row + 0x20 * (h.col + 0x80 * (h.c + 8 * h.parity)))));
  }

  lemma ReservedB(h: Header)
    requires h.Valid()
    ensures h.Word() / 0x8000 % 2 == h.b
  {
    FieldAt(h.Word(), 0x8000, 2, h.stream + 0x20 * h.order + 0x800 * h.a + 0x1000 * h.rtn, h.b,
      h.row + 0x20 * (h.col + 0x80 * (h.c + 8 * h.parity)));
  }

  lemma ReservedC(h: Header)
    requires h.Valid()
    ensures h.Word() / 0x1000_0000 % 8 == h.c
  {
    FieldAt(h.Word(), 0x1000_0000, 8,
      h.stream + 0x20 * h.order + 0x800 * h.a + 0x1000 * h.rtn + 0x8000 * h.b + 0x1_0000 * h.row + 0x20_0000 * h.col,
      h.c, h.parity);
  }

  /** A header is accepted exactly when its three reserved fields are zero. */
  lemma ReservedMeans(h: Header)
    requires h.Valid()
    ensures HeaderReserved(h.Word()) <==> h.a == 0 && h.b == 0 && h.c == 0
  {
    hide Header.Word;
    ReservedA(h);
    ReservedB(h);
    ReservedC(h);
  }

  lemma SourceRow(h: Header)
    requires h.Valid()
    ensures h.Word() / 0x1_0000 % 0x20 == h.row
  {
    FieldAt(h.Word(), 0x1_0000, 0x20, h.stream + 0x20 * h.order + 0x800 * h.a + 0x1000 * h.rtn + 0x8000 * h.b, h.row,
      h.col + 0x80 * (h.c + 8 * h.parity));
  }

  lemma SourceCol(h: Header)
    requires h.Valid()
    ensures h.Word() / 0x20_0000 % 0x80 == h.col
  {
    FieldAt(h.Word(), 0x20_0000, 0x80,
      h.stream + 0x20 * h.order + 0x800 * h.a + 0x1000 * h.rtn + 0x8000 * h.b + 0x1_0000 * h.row,
      h.col, h.c + 8 * h.parity);
  }

  lemma StreamId(h: Header)
    requires h.Valid()
    ensures h.Word() % 0x20 == h.stream
  {}

  lemma OperationOf(i: Info)
    requires i.Valid()
    ensures i.Word() / 0x40_0000 % 4 == i.operation && i.Word() % 0x10_0000 == i.address
  {
    FieldAt(i.Word(), 0x40_0000, 4, i.address + 0x10_0000 * i.beats, i.operation,
      i.rtn + 0x20 * (i.reserved + 4 * i.parity));
  }

  /** A control word's packet has one data word more than its beat field says, and the word is accepted exactly when its
      reserved field is zero. */
  lemma InfoMeans(i: Info)
    requires i.Valid()
    ensures Beats(i.Word()) == i.beats && PacketSize(i.Word()) == 4 * (3 + i.beats)
    ensures InfoReserved(i.Word()) <==> i.reserved == 0
  {
    FieldAt(i.Word(), 0x10_0000, 4, i.address, i.beats,
      i.operation + 4 * (i.rtn + 0x20 * (i.reserved + 4 * i.parity)));
    FieldAt(i.Word(), 0x2000_0000, 4,
      i.address + 0x10_0000 * i.beats + 0x40_0000 * i.operation + 0x100_0000 * i.rtn, i.reserved, i.parity);
  }

  // ---------- parity ----------

  function Pow2(n: nat): (p: nat)
    ensures p > 0
  {
    if n == 0 then 1 else 2 * Pow2(n - 1)
  }

  /** How many of the `n` low bits are set. */
  function BitsSet(w: nat, n: nat): nat {
    if n == 0 then 0 else w / Pow2(n - 1) % 2 + BitsSet(w, n - 1)
  }

  lemma HalfDiv(w: nat, p: nat)
    requires p > 0
    ensures w / 2 / p == w / (2 * p)
  {
    var q, r := w / 2, w % 2;
    var x, y := q / p, q % p;
    assert q == p * x + y && y < p;
    assert 2 * (p * x) == 2 * p * x;
    DivModUnique(w, 2 * p, x, 2 * y + r);
  }

  lemma HalfBit(w: nat, n: nat)
    ensures w / 2 / Pow2(n) == w / Pow2(n + 1)
  {
    HalfDiv(w, Pow2(n));
  }

  /** The bits of a word are its lowest bit and those of the rest. */
  lemma {:induction false} BitsShift(w: nat, n: nat)
    ensures BitsSet(w, n + 1) == w % 2 + BitsSet(w / 2, n)
  {
    if n == 0 {
      assert Pow2(0) == 1 && BitsSet(w, 0) == 0;
    } else {
      BitsShift(w, n - 1);
      HalfBit(w, n - 1);
    }
  }

  lemma {:induction false} OnesCount(w: nat, n: nat)
    requires w < Pow2(n)
    ensures Ones(w) == BitsSet(w, n)
    decreases n
  {
    if n > 0 {
      OnesCount(w / 2, n - 1);
      BitsShift(w, n - 1);
      ZeroOnes(w);
    }
  }

  lemma ZeroOnes(w: nat)
    ensures Ones(w) == w % 2 + Ones(w / 2)
  {
    if w == 0 {
      assert Ones(0) == 0;
    }
  }

  lemma WordBits()
    ensures Pow2(32) == 0x1_0000_0000
  {
    assert Pow2(8) == 0x100 by { assert Pow2(4) == 16; }
    assert Pow2(16) == 0x1_0000 by { assert Pow2(12) == 0x1000; }
    assert Pow2(24) == 0x100_0000 by { assert Pow2(20) == 0x10_0000; }
    assert Pow2(28) == 0x1000_0000;
  }

  /** Parity is odd exactly when an odd number of the 32 bits is set. */
  lemma ParityMeans(w: u32)
    ensures OddParity(w) <==> BitsSet(w, 32) % 2 == 1
  {
    hide Ones, BitsSet, Pow2;
    WordBits();
    OnesCount(w, 32);
  }

  // ---------- packets ----------

  /** Two words begin a packet exactly when their reserved fields are zero and each has an odd number of set bits. */
  lemma StartsMeans(h: Header, i: Info)
    requires h.Valid() && i.Valid()
    ensures Starts(h.Word(), i.Word()) <==>
      && h.a == 0 && h.b == 0 && h.c == 0 && i.reserved == 0
      && BitsSet(h.Word(), 32) % 2 == 1 && BitsSet(i.Word(), 32) % 2 == 1
  {
    hide HeaderReserved, InfoReserved, OddParity, BitsSet, Header.Word, Info.Word, Beats;
    ReservedMeans(h);
    InfoMeans(i);
    ParityMeans(h.Word());
    ParityMeans(i.Word());
  }

  /** The letter of an operation. */
  predicate LetterOf(operation: nat, letter: char) {
    && (operation == 0 ==> letter == 'P') && (operation == 1 ==> letter == 'R')
    && (operation == 2 ==> letter == 'W') && (operation >= 3 ==> letter == 'U')
  }

  /** The row shows these fields. */
  predicate Shows(row: Packets.Row, h: Header, i: Info, data: seq<u32>) {
    && row.stream == h.stream && row.row == h.row && row.col == h.col && row.address == i.address
    && LetterOf(i.operation, row.operation) && row.data == data
  }

  lemma RowMeans(h: Header, i: Info, data: seq<u32>)
    requires h.Valid() && i.Valid()
    ensures Shows(RowOf(h.Word(), i.Word(), data), h, i, data)
  {
    hide Header.Word, Info.Word;
    StreamId(h);
    SourceRow(h);
    SourceCol(h);
    OperationOf(i);
  }

  lemma {:induction false} RowsAt(ps: seq<Packet>, k: nat)
    requires k < |ps|
    ensures |RowsOf(ps)| == |ps| && RowsOf(ps)[k] == RowOf(ps[k].header, ps[k].info, ps[k].data)
  {
    hide RowOf;
    if k > 0 {
      RowsAt(ps[1..], k - 1);
    } else if |ps| > 1 {
      RowsAt(ps[1..], 0);
    } else {
      assert ps[1..] == [];
    }
  }

  /** The dump of a concatenation of packets has a row for each, and it shows the packet's fields and data words. */
  lemma DumpShows(words: seq<u32>, beyond: nat -> u32, ps: seq<Packet>, k: nat, h: Header, i: Info)
    requires Concatenation(words, ps) && k < |ps|
    requires h.Valid() && i.Valid() && h.Word() == ps[k].header && i.Word() == ps[k].info
    ensures var rows := Dump(Memory(words, beyond), 4 * |words|, ControlPacket, 0);
      |rows| == |ps| && Shows(rows[k], h, i, ps[k].data) && |ps[k].data| == i.beats + 1
  {
    hide Dump, RowOf, Header.Word, Info.Word, Flatten, Starts, Beats, Shows;
    assert words[0..] == words;
    DumpVisitsPackets(words, beyond, 0, ps);
    RowsAt(ps, k);
    RowMeans(h, i, ps[k].data);
    InfoMeans(i);
    assert ps[k].Valid();
  }

  /** A packet cut short by the end of the buffer is printed with the words that lie behind it. */
  lemma CutPacketShows(h: Header, i: Info, part: seq<u32>, rest: seq<u32>, beyond: nat -> u32, kind: Kind)
    requires h.Valid() && i.Valid() && |part| + |rest| == i.beats + 1 && rest != [] && !kind.Unspecified?
    requires forall n :: 0 <= n < |rest| ==> rest[n] == beyond(2 + |part| + n)
    ensures var words := [h.Word(), i.Word()] + part;
      var rows := Dump(Memory(words, beyond), 4 * |words|, kind, 0);
      |rows| == 1 && Shows(rows[0], h, i, part + rest)
  {
    hide RowOf, Header.Word, Info.Word, Shows;
    var m := Memory([h.Word(), i.Word()] + part, beyond);
    InfoMeans(i);
    RowMeans(h, i, part + rest);
    OneRow(m, kind);
    var data := DataAt(m, 0, Beats(i.Word()) + 1);
    forall n | 0 <= n < |data| ensures data[n] == (part + rest)[n] {
      assert data[n] == m.At(2 + n);
    }
    assert data == part + rest;
    hide *;
  }

  lemma OneRow(m: Memory, kind: Kind)
    requires |m.words| >= 2 && 4 * |m.words| <= PacketSize(m.At(1)) && !kind.Unspecified?
    ensures Dump(m, 4 * |m.words|, kind, 0) == [RowAt(m, 0)]
  {
    hide RowAt, PacketSize;
    var next := Onward(m, kind, 0);
    assert Dump(m, 4 * |m.words|, kind, next) == [];
  }

  /** Every word is the word of some fields. */
  lemma HeaderOf(w: u32) returns (h: Header)
    ensures h.Valid() && h.Word() == w
  {
    var w1 := w / 0x20;
    var w2 := w1 / 0x40;
    var w3 := w2 / 2;
    var w4 := w3 / 8;
    var w5 := w4 / 2;
    var w6 := w5 / 0x20;
    var w7 := w6 / 0x80;
    h := Header(w % 0x20, w1 % 0x40, w2 % 2, w3 % 8, w4 % 2, w5 % 0x20, w6 % 0x80, w7 % 8, w7 / 8);
  }

  lemma InfoOf(w: u32) returns (i: Info)
    ensures i.Valid() && i.Word() == w
  {
    var w1 := w / 0x10_0000;
    var w2 := w1 / 4;
    var w3 := w2 / 4;
    var w4 := w3 / 0x20;
    i := Info(w % 0x10_0000, w1 % 4, w2 % 4, w3 % 0x20, w4 % 4, w4 / 4);
  }
}
