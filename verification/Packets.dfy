/** Control packets: recognising a buffer of them and walking it (`identify_control_packet`,
    `packets::get_dump`). */
module Packets {
  import opened Base

  const WORD: nat := 4
  const MAGIC: nat := 16
  const AIE2_STRIDE: nat := 32

  datatype Kind = Unspecified | ControlPacket | ControlPacketAie2

  function Ones(w: nat): nat {
    if w == 0 then 0 else w % 2 + Ones(w / 2)
  }

  /** `odd_parity_check`. */
  predicate OddParity(w: u32) {
    Ones(w) % 2 == 1
  }

  /** Reserved bits 11, 15 and 28 to 30 of the packet header. */
  predicate HeaderReserved(w: u32) {
    w / 0x800 % 2 == 0 && w / 0x8000 % 2 == 0 && w / 0x1000_0000 % 8 == 0
  }

  /** Reserved bits 29 and 30 of the control word. */
  predicate InfoReserved(w: u32) {
    w / 0x2000_0000 % 4 == 0
  }

  /** Number of data beats less one, bits 20 and 21 of the control word. */
  function Beats(w: u32): nat {
    w / 0x10_0000 % 4
  }

  /** A header word and a control word that begin a packet. */
  predicate Starts(header: u32, info: u32) {
    HeaderReserved(header) && InfoReserved(info) && OddParity(header) && OddParity(info)
  }

  /** Bytes of the packet a control word belongs to: two words and its beats. */
  function PacketSize(info: u32): (n: nat)
    ensures 12 <= n <= 24 && n % 4 == 0
  {
    (2 + Beats(info) + 1) * WORD
  }

  /** Memory as the loops read it: the words of the buffer, and whatever lies behind it. */
  datatype Memory = Memory(words: seq<u32>, beyond: nat -> u32) {
    function At(k: nat): u32 {
      if k < |words| then words[k] else beyond(k)
    }
  }

  /** A packet starts at byte `at`. */
  predicate PacketAt(m: Memory, at: nat) {
    Starts(m.At(at / WORD), m.At(at / WORD + 1))
  }

  // ---------- the loops ----------

  /** Where the packet at byte `at` ends. */
  function After(m: Memory, at: nat): (next: nat)
    requires at % WORD == 0
    ensures next > at && next % WORD == 0
  {
    at + PacketSize(m.At(at / WORD + 1))
  }

  /** The AIE2P loop from byte `count`: where it stops. */
  function Scan(m: Memory, size: nat, count: nat): (r: nat)
    requires count % WORD == 0
    ensures r >= count
    decreases if count < size then size - count else 0
  {
    if count >= size || !PacketAt(m, count) then count
    else Scan(m, size, After(m, count))
  }

  /** The AIE2 loop: fixed 32-byte packets. */
  function ScanAie2(m: Memory, size: nat, count: nat): bool
    requires count % WORD == 0
    decreases if count < size then size - count else 0
  {
    count >= size || (PacketAt(m, count) && ScanAie2(m, size, count + AIE2_STRIDE))
  }

  function Identify(m: Memory, size: nat): Kind {
    if size < MAGIC then Unspecified
    else if Scan(m, size, 0) == size then ControlPacket
    else if ScanAie2(m, size, 0) then ControlPacketAie2
    else Unspecified
  }

  method ScanPackets(m: Memory, size: nat) returns (count: nat)
    ensures count == Scan(m, size, 0)
  {
    hide PacketAt, After;
    count := 0;
    while count < size
      invariant count >= 0 && count % WORD == 0 && Scan(m, size, count) == Scan(m, size, 0)
      decreases if count < size then size - count else 0
    {
      if !PacketAt(m, count) {
        break;
      }
      count := After(m, count);
    }
  }

  /** `identify_control_packet`. */
  method IdentifyControlPacket(m: Memory, size: nat) returns (kind: Kind)
    ensures kind == Identify(m, size)
  {
    hide Scan, PacketAt;
    if size < MAGIC {
      return Unspecified;
    }
    var count := ScanPackets(m, size);
    if count == size {
      return ControlPacket;
    }
    count := 0;
    while count < size
      invariant count % WORD == 0 && ScanAie2(m, size, count) == ScanAie2(m, size, 0)
      decreases if count < size then size - count else 0
    {
      if !PacketAt(m, count) {
        return Unspecified;
      }
      count := count + AIE2_STRIDE;
    }
    return ControlPacketAie2;
  }

  // ---------- what it means ----------

  /** A packet: its two leading words and its data. */
  datatype Packet = Packet(header: u32, info: u32, data: seq<u32>) {
    predicate Valid() {
      Starts(header, info) && |data| == Beats(info) + 1
    }

    function Words(): seq<u32> {
      [header, info] + data
    }
  }

  function Flatten(ps: seq<Packet>): seq<u32> {
    if ps == [] then [] else ps[0].Words() + Flatten(ps[1..])
  }

  /** The words from `k` on are a concatenation of packets. */
  ghost predicate Concatenation(words: seq<u32>, ps: seq<Packet>) {
    (forall i :: 0 <= i < |ps| ==> ps[i].Valid()) && Flatten(ps) == words
  }

  /** The first packet of a concatenation that starts at word `k`. */
  lemma FirstPacket(words: seq<u32>, k: nat, ps: seq<Packet>)
    requires k <= |words| && ps != [] && Concatenation(words[k..], ps)
    ensures var p := ps[0]; var n := |p.Words()|;
      && p.Valid() && n >= 3 && k + n <= |words| && words[k] == p.header && words[k + 1] == p.info
      && WORD * n == PacketSize(p.info) && Concatenation(words[k + n..], ps[1..])
  {
    hide Starts, Beats, Packet.Valid;
    var p, rest := ps[0], Flatten(ps[1..]);
    assert p.Valid();
    SizeOfPacket(p);
    var w := words[k..];
    assert w == p.Words() + rest;
    assert words[k] == w[0] && words[k + 1] == w[1];
    assert words[k + |p.Words()|..] == w[|p.Words()|..] == rest;
  }

  lemma {:induction false} ConcatenationScans(words: seq<u32>, beyond: nat -> u32, k: nat, ps: seq<Packet>)
    requires k <= |words| && Concatenation(words[k..], ps)
    ensures Scan(Memory(words, beyond), WORD * |words|, WORD * k) == WORD * |words|
    decreases |ps|
  {
    hide PacketAt, Starts, Beats, Concatenation, Packet.Valid, PacketSize, Packet.Words, Scan;
    var m, size := Memory(words, beyond), WORD * |words|;
    if ps == [] {
      NoPackets(words, k);
      ScanStops(m, size, WORD * k);
    } else {
      FirstPacket(words, k, ps);
      PacketStarts(m, k, ps[0]);
      ScanOne(m, size, k);
      ConcatenationScans(words, beyond, k + |ps[0].Words()|, ps[1..]);
    }
  }

  lemma NoPackets(words: seq<u32>, k: nat)
    requires k <= |words| && Concatenation(words[k..], [])
    ensures k == |words|
  {}

  lemma ScanStops(m: Memory, size: nat, count: nat)
    requires count % WORD == 0 && count >= size
    ensures Scan(m, size, count) == count
  {}

  /** One turn of the loop, word by word. */
  lemma ScanOne(m: Memory, size: nat, k: nat)
    requires WORD * k < size
    ensures if PacketAt(m, WORD * k)
      then Scan(m, size, WORD * k) == Scan(m, size, WORD * k + PacketSize(m.At(k + 1)))
      else Scan(m, size, WORD * k) == WORD * k
  {
    hide PacketAt, PacketSize, After;
    AfterWord(m, k);
  }

  lemma AfterWord(m: Memory, k: nat)
    ensures After(m, WORD * k) == WORD * k + PacketSize(m.At(k + 1))
  {
    hide PacketSize;
    assert WORD * k / WORD == k;
  }

  lemma SizeOfPacket(p: Packet)
    requires p.Valid()
    ensures WORD * |p.Words()| == PacketSize(p.info)
  {}

  lemma PacketStarts(m: Memory, k: nat, p: Packet)
    requires p.Valid() && m.At(k) == p.header && m.At(k + 1) == p.info
    ensures PacketAt(m, WORD * k)
  {
    assert WORD * k / WORD == k;
    hide Starts;
  }

  /** The packets the scan steps over. */
  lemma {:induction false} Parsed(words: seq<u32>, beyond: nat -> u32, k: nat) returns (ps: seq<Packet>)
    requires k <= |words| && Scan(Memory(words, beyond), WORD * |words|, WORD * k) == WORD * |words|
    ensures Concatenation(words[k..], ps)
    decreases |words| - k
  {
    hide Scan, Packet.Valid, PacketAt, Beats;
    if k == |words| {
      ps := [];
    } else {
      ParsedStep(words, beyond, k);
      var n := Beats(Memory(words, beyond).At(k + 1)) + 3;
      var p := Packet(words[k], words[k + 1], words[k + 2..k + n]);
      var rest := Parsed(words, beyond, k + n);
      assert words[k..] == p.Words() + words[k + n..];
      ps := [p] + rest;
      assert ps[1..] == rest;
    }
  }

  lemma ParsedStep(words: seq<u32>, beyond: nat -> u32, k: nat)
    requires k < |words| && Scan(Memory(words, beyond), WORD * |words|, WORD * k) == WORD * |words|
    ensures var m := Memory(words, beyond); var n := Beats(m.At(k + 1)) + 3;
      && k + n <= |words| && PacketAt(m, WORD * k) && m.At(k + 1) == words[k + 1] && m.At(k) == words[k]
      && Packet(words[k], words[k + 1], words[k + 2..k + n]).Valid()
      && Scan(m, WORD * |words|, WORD * (k + n)) == WORD * |words|
  {
    hide Starts, Beats, Scan, PacketAt, PacketSize;
    var m := Memory(words, beyond);
    var n := Beats(m.At(k + 1)) + 3;
    ScanOne(m, WORD * |words|, k);
    Beats3(m.At(k + 1));
    assert WORD * k + WORD * n == WORD * (k + n);
    PacketBegins(m, k);
  }

  lemma PacketBegins(m: Memory, k: nat)
    requires PacketAt(m, WORD * k)
    ensures Starts(m.At(k), m.At(k + 1))
  {
    hide Starts, Memory.At;
    assert WORD * k / WORD == k;
  }

  lemma Beats3(info: u32)
    ensures PacketSize(info) == WORD * (Beats(info) + 3)
  {}

  /** A buffer of at least four whole words is called a control packet exactly when it is a
      concatenation of packets with zero reserved bits and odd parity, whatever lies behind it. */
  lemma IdentifiesConcatenations(words: seq<u32>, beyond: nat -> u32)
    requires |words| >= 4
    ensures Identify(Memory(words, beyond), WORD * |words|) == ControlPacket
      <==> exists ps :: Concatenation(words, ps)
  {
    hide Scan, ScanAie2;
    assert words[0..] == words;
    if ps :| Concatenation(words, ps) {
      ConcatenationScans(words, beyond, 0, ps);
    }
    if Identify(Memory(words, beyond), WORD * |words|) == ControlPacket {
      var ps := Parsed(words, beyond, 0);
    }
  }

  /** A buffer whose size is not a multiple of four is never called one. */
  lemma {:induction false} OddSizeRefused(m: Memory, size: nat, count: nat)
    requires count % WORD == 0 && size % WORD != 0
    ensures Scan(m, size, count) != size
    decreases if count < size then size - count else 0
  {
    hide PacketAt, After;
    if count < size && PacketAt(m, count) {
      OddSizeRefused(m, size, After(m, count));
    }
  }

  // ---------- the dump ----------

  /** What is printed of a packet. */
  datatype Row = Row(stream: nat, row: nat, col: nat, address: nat, operation: char, data: seq<u32>)

  /** `control_packet_operations_map`. */
  function Operation(op: nat): char {
    if op == 0 then 'P' else if op == 1 then 'R' else if op == 2 then 'W' else 'U'
  }

  function RowOf(header: u32, info: u32, data: seq<u32>): Row {
    Row(header % 0x20, header / 0x1_0000 % 0x20, header / 0x20_0000 % 0x80,
        info % 0x10_0000, Operation(info / 0x40_0000 % 4), data)
  }

  /** The data words of the packet whose header is word `k`. */
  function DataAt(m: Memory, k: nat, n: nat): (data: seq<u32>)
    ensures |data| == n && forall i :: 0 <= i < n ==> data[i] == m.At(k + 2 + i)
  {
    seq<u32>(n, i requires i >= 0 => m.At(k + 2 + i))
  }

  /** The row printed for the packet that starts at byte `at`. */
  function RowAt(m: Memory, at: nat): Row {
    var k := at / WORD;
    RowOf(m.At(k), m.At(k + 1), DataAt(m, k, Beats(m.At(k + 1)) + 1))
  }

  /** Where the loop goes on after a packet. */
  function Onward(m: Memory, kind: Kind, at: nat): (next: nat)
    requires at % WORD == 0
    ensures next > at && next % WORD == 0
  {
    if kind.ControlPacket? then After(m, at) else at + AIE2_STRIDE
  }

  /** Rows printed from byte `at` on; an unknown buffer prints no packet. */
  function Dump(m: Memory, size: nat, kind: Kind, at: nat): seq<Row>
    requires at % WORD == 0
    decreases if at < size then size - at else 0
  {
    if at >= size || kind.Unspecified? then [] else [RowAt(m, at)] + Dump(m, size, kind, Onward(m, kind, at))
  }

  /** `packets::serialize`: one packet, and the byte behind it. */
  method Serialize(m: Memory, at: nat) returns (row: Row, next: nat)
    requires at % WORD == 0
    ensures row == RowAt(m, at) && next == After(m, at)
  {
    hide Beats;
    var k := at / WORD;
    var header, info := m.At(k), m.At(k + 1);
    var data: seq<u32>, i: nat := [], 0;
    next := at + 2 * WORD;
    while i <= Beats(info)
      invariant i <= Beats(info) + 1 && |data| == i && next == at + (2 + i) * WORD
      invariant forall x: nat :: x < i ==> data[x] == m.At(k + 2 + x)
    {
      data := data + [m.At(k + 2 + i)];
      next := next + WORD;
      i := i + 1;
    }
    assert data == DataAt(m, k, Beats(info) + 1);
    row := RowOf(header, info, data);
  }

  /** `get_dump`. */
  method GetDump(m: Memory, size: nat, kind: Kind) returns (rows: seq<Row>)
    ensures rows == Dump(m, size, kind, 0)
  {
    hide RowAt, After;
    rows := [];
    if kind.Unspecified? {
      return;
    }
    var at := 0;
    ghost var all := Dump(m, size, kind, 0);
    while at < size
      invariant at >= 0 && at % WORD == 0 && all == rows + Dump(m, size, kind, at)
      decreases if at < size then size - at else 0
    {
      Assoc(rows, [RowAt(m, at)], Dump(m, size, kind, Onward(m, kind, at)));
      var row, next := Serialize(m, at);
      rows := rows + [row];
      at := if kind.ControlPacket? then next else at + AIE2_STRIDE;
    }
  }

  /** The rows of a list of packets. */
  function RowsOf(ps: seq<Packet>): seq<Row> {
    if ps == [] then [] else [RowOf(ps[0].header, ps[0].info, ps[0].data)] + RowsOf(ps[1..])
  }

  /** On a concatenation of packets the dump prints exactly the packets, in order, and stops at the end. */
  lemma {:induction false} DumpVisitsPackets(words: seq<u32>, beyond: nat -> u32, k: nat, ps: seq<Packet>)
    requires k <= |words| && Concatenation(words[k..], ps)
    ensures Dump(Memory(words, beyond), WORD * |words|, ControlPacket, WORD * k) == RowsOf(ps)
    decreases |ps|
  {
    hide Starts, Beats, Concatenation, Packet.Valid, PacketSize, Packet.Words, Dump, RowOf, RowAt;
    var m, size := Memory(words, beyond), WORD * |words|;
    if ps == [] {
      NoPackets(words, k);
      DumpStops(m, size, WORD * k);
    } else {
      FirstPacket(words, k, ps);
      DumpOne(m, size, k);
      RowIs(words, beyond, k, ps);
      DumpVisitsPackets(words, beyond, k + |ps[0].Words()|, ps[1..]);
    }
  }

  lemma DumpStops(m: Memory, size: nat, at: nat)
    requires at % WORD == 0 && at >= size
    ensures Dump(m, size, ControlPacket, at) == []
  {}

  lemma DumpOne(m: Memory, size: nat, k: nat)
    requires WORD * k < size
    ensures Dump(m, size, ControlPacket, WORD * k) ==
      [RowAt(m, WORD * k)] + Dump(m, size, ControlPacket, WORD * k + PacketSize(m.At(k + 1)))
  {
    hide PacketSize, RowAt, After;
    AfterWord(m, k);
  }

  /** The first packet's row. */
  lemma RowIs(words: seq<u32>, beyond: nat -> u32, k: nat, ps: seq<Packet>)
    requires k <= |words| && ps != [] && Concatenation(words[k..], ps)
    ensures RowAt(Memory(words, beyond), WORD * k) == RowOf(ps[0].header, ps[0].info, ps[0].data)
  {
    hide Starts, Beats, RowOf;
    FirstPacket(words, k, ps);
    var m, p := Memory(words, beyond), ps[0];
    assert WORD * k / WORD == k;
    assert p.Valid();
    assert words[k..] == p.Words() + Flatten(ps[1..]);
    forall i | 0 <= i < |p.data| ensures m.At(k + 2 + i) == p.data[i] {
      assert p.Words()[2 + i] == p.data[i] && words[k..][2 + i] == words[k + 2 + i];
    }
    assert p.data == DataAt(m, k, Beats(m.At(k + 1)) + 1);
  }

  /** The other family prints the packet of every 32-byte stride. */
  lemma {:induction false} DumpStrides(m: Memory, size: nat, at: nat)
    requires at % WORD == 0
    ensures var rows := Dump(m, size, ControlPacketAie2, at);
      && |rows| == (if at < size then (size - at + AIE2_STRIDE - 1) / AIE2_STRIDE else 0)
      && forall k :: 0 <= k < |rows| ==> rows[k] == RowAt(m, at + AIE2_STRIDE * k)
    decreases if at < size then size - at else 0
  {
    hide RowAt;
    if at < size {
      DumpStrides(m, size, at + AIE2_STRIDE);
      var rows, rest := Dump(m, size, ControlPacketAie2, at), Dump(m, size, ControlPacketAie2, at + AIE2_STRIDE);
      assert rows == [RowAt(m, at)] + rest;
      forall k | 0 <= k < |rows| ensures rows[k] == RowAt(m, at + AIE2_STRIDE * k) {
        if k > 0 {
          assert rows[k] == rest[k - 1] && at + AIE2_STRIDE + AIE2_STRIDE * (k - 1) == at + AIE2_STRIDE * k;
        }
      }
    }
  }

  // ---------- the other family ----------

  /** The AIE2 form: every 32-byte stride starts a packet. */
  lemma {:induction false} Aie2Strides(m: Memory, size: nat, count: nat)
    requires count % WORD == 0
    ensures ScanAie2(m, size, count) <==> forall k: nat :: count + AIE2_STRIDE * k < size ==>
      PacketAt(m, count + AIE2_STRIDE * k)
    decreases if count < size then size - count else 0
  {
    hide PacketAt;
    if count < size {
      Aie2Strides(m, size, count + AIE2_STRIDE);
      assert count + AIE2_STRIDE * 0 == count;
      assert forall k: nat :: count + AIE2_STRIDE + AIE2_STRIDE * k == count + AIE2_STRIDE * (k + 1);
      if ScanAie2(m, size, count) {
        forall k: nat | count + AIE2_STRIDE * k < size ensures PacketAt(m, count + AIE2_STRIDE * k) {
          if k > 0 {
            assert count + AIE2_STRIDE + AIE2_STRIDE * (k - 1) == count + AIE2_STRIDE * k;
          }
        }
      }
      if forall k: nat :: count + AIE2_STRIDE * k < size ==> PacketAt(m, count + AIE2_STRIDE * k) {
        assert PacketAt(m, count + AIE2_STRIDE * 0);
        forall k: nat | count + AIE2_STRIDE + AIE2_STRIDE * k < size
          ensures PacketAt(m, count + AIE2_STRIDE + AIE2_STRIDE * k)
        {
          assert PacketAt(m, count + AIE2_STRIDE * (k + 1));
        }
      }
    }
  }
}
