/** Clearing descriptor addresses during the walk: when it stays inside the payloads, and that it then never disturbs
    the walk. */
module TxnHarmless {
  import opened Base
  import opened TxnLayout
  import opened Txn
  import opened TxnBuffer
  import opened TxnRoom

  /** The operations of a buffer, read without clearing anything. */
  function Trace(l: Layout, b: seq<u8>, at: nat, n: nat): Result<seq<Item>>
    requires l.Valid()
    decreases n
  {
    if n == 0 then Ok([]) else
    var i :- Decode(l, b, at);
    var rest :- Trace(l, b, at + i.len, n - 1);
    Ok([i] + rest)
  }

  /** Byte `k` is an address byte of some slot of the payload. */
  ghost predicate Spot(i: Item, k: int) {
    i.op.BlockWrite? && i.payload <= k < i.payload + i.size && 4 <= (k - i.payload) % BD_SIZE < 10
  }

  ghost predicate SpotIn(items: seq<Item>, k: int) {
    exists i :: 0 <= i < |items| && Spot(items[i], k)
  }

  /** The buffers agree from `at` on, except in address bytes of the operations. */
  ghost predicate SameBut(items: seq<Item>, at: nat, b: seq<u8>, c: seq<u8>) {
    |b| == |c| && forall k :: at <= k < |b| && b[k] != c[k] ==> SpotIn(items, k)
  }

  lemma {:induction false} TraceFacts(l: Layout, b: seq<u8>, at: nat, n: nat)
    requires l.Valid()
    ensures var t := Trace(l, b, at, n); t.Ok? ==>
      && |t.value| == n && AllWellFormed(t.value)
      && (n > 0 ==> t.value[0].at == at)
    decreases n
  {
    hide Layout.Valid, Decode, WellFormed;
    if n > 0 {
      DecodeWellFormed(l, b, at);
      DecodePlace(l, b, at);
      var i := Decode(l, b, at);
      if i.Ok? {
        TraceFacts(l, b, at + i.value.len, n - 1);
      }
    }
  }

  lemma DecodePlace(l: Layout, b: seq<u8>, at: nat)
    requires l.Valid()
    ensures var i := Decode(l, b, at); i.Ok? ==>
      && i.value.at == at && at + l.span(i.value.op) <= |b|
      && (i.value.op.BlockWrite? ==>
          i.value.payload == at + l.span(BlockWrite)
          && i.value.size == i.value.len - l.span(BlockWrite))
  {
    hide Value, GetAll, Firsts;
  }

  lemma {:induction false} SpotsAhead(l: Layout, b: seq<u8>, at: nat, n: nat, k: int)
    requires l.Valid() && Trace(l, b, at, n).Ok? && SpotIn(Trace(l, b, at, n).value, k)
    ensures k >= at + 4
    decreases n
  {
    hide Layout.Valid, Decode;
    if n > 0 {
      var i := Decode(l, b, at).value;
      DecodePlace(l, b, at);
      var rest := Trace(l, b, at + i.len, n - 1).value;
      var items := [i] + rest;
      var j :| 0 <= j < |items| && Spot(items[j], k);
      if j > 0 {
        assert Spot(rest[j - 1], k);
        SpotsAhead(l, b, at + i.len, n - 1, k);
      }
    }
  }

  lemma GetSame(b: seq<u8>, c: seq<u8>, at: nat, f: Field)
    requires at + f.at + f.width <= |b| == |c| && forall k :: at + f.at <= k < at + f.at + f.width ==> b[k] == c[k]
    ensures Get(b, at, f) == Get(c, at, f)
  {
    hide Value;
    assert b[at + f.at..at + f.at + f.width] == c[at + f.at..at + f.at + f.width];
  }

  lemma WordSame(b: seq<u8>, c: seq<u8>, at: nat)
    requires at + 4 <= |b| == |c| && forall k :: at <= k < at + 4 ==> b[k] == c[k]
    ensures WordAt(b, at) == WordAt(c, at)
  {
    hide Value;
    assert b[at..at + 4] == c[at..at + 4];
  }

  /** Clearing address bytes inside an operation's own payload leaves it readable as before. */
  lemma DecodeSame(l: Layout, b: seq<u8>, c: seq<u8>, at: nat)
    requires l.Valid() && Decode(l, b, at).Ok? && |b| == |c|
    requires Sound(l, b, Decode(l, b, at).value)
    requires var i := Decode(l, b, at).value;
      && (forall k :: at <= k < at + i.len && k < |b| && b[k] != c[k] ==> Spot(i, k))
      && (forall k :: at + i.len <= k < at + i.len + 4 && k < |b| ==> b[k] == c[k])
    ensures Decode(l, c, at) == Decode(l, b, at)
  {
    hide Value;
    var i := Decode(l, b, at).value;
    DecodePlace(l, b, at);
    var o := i.op;
    assert l.OpValid(o);
    assert forall k :: at <= k < at + l.span(o) ==> b[k] == c[k];
    FieldsSame(l, b, c, at, o);
    if o.BlockWrite? {
      PayloadSame(b, c, i);
      assert Firsts(b, i.payload, i.size) == Firsts(c, i.payload, i.size);
    }
  }

  lemma FieldsSame(l: Layout, b: seq<u8>, c: seq<u8>, at: nat, o: Opcode)
    requires l.Valid() && at + l.span(o) <= |b| == |c| && forall k :: at <= k < at + l.span(o) ==> b[k] == c[k]
    ensures forall i :: 0 <= i < |l.fields(o)| ==> l.fields(o)[i].at + l.fields(o)[i].width <= l.span(o)
    ensures GetAll(b, at, l.fields(o)) == GetAll(c, at, l.fields(o))
    ensures !FixedSize(o) ==>
        l.size(o).at + 4 == l.size(o).at + l.size(o).width <= l.span(o)
        && Get(b, at, l.size(o)) == Get(c, at, l.size(o))
  {
    hide Value, Get;
    assert l.OpValid(o);
    forall i | 0 <= i < |l.fields(o)|
      ensures l.fields(o)[i].at + l.fields(o)[i].width <= l.span(o)
      ensures Get(b, at, l.fields(o)[i]) == Get(c, at, l.fields(o)[i])
    {
      assert l.FieldValid(o, l.fields(o)[i]);
      GetSame(b, c, at, l.fields(o)[i]);
    }
    if !FixedSize(o) {
      GetSame(b, c, at, l.size(o));
    }
  }

  /** The first words of all slots and of the payload are no address bytes, even when they reach past the end of
      the payload. */
  lemma PayloadSame(b: seq<u8>, c: seq<u8>, i: Item)
    requires i.op.BlockWrite? && i.payload + i.size <= |b| == |c|
    requires Slots(i.size) > 0 ==> i.payload + BD_SIZE * (Slots(i.size) - 1) + 4 <= |b|
    requires forall k :: i.payload <= k < i.payload + i.size && b[k] != c[k] ==> Spot(i, k)
    requires forall k :: i.payload + i.size <= k < i.payload + i.size + 4 && k < |b| ==> b[k] == c[k]
    ensures Firsts(b, i.payload, i.size) == Firsts(c, i.payload, i.size)
    ensures i.payload + 4 <= |b| ==> WordAt(b, i.payload) == WordAt(c, i.payload)
  {
    hide WordAt;
    forall k | 0 <= k < Slots(i.size)
      ensures i.payload + BD_SIZE * k + 4 <= |b|
        && WordAt(b, i.payload + BD_SIZE * k) == WordAt(c, i.payload + BD_SIZE * k)
    {
      assert BD_SIZE * k < i.size;
      SlotWordSame(b, c, i, k);
    }
    if i.payload + 4 <= |b| {
      SlotWordSame(b, c, i, 0);
    }
  }

  lemma SlotWordSame(b: seq<u8>, c: seq<u8>, i: Item, k: nat)
    requires i.op.BlockWrite? && i.payload + i.size <= |b| == |c|
    requires i.payload + BD_SIZE * k + 4 <= |b| && (k == 0 || BD_SIZE * k < i.size)
    requires forall k :: i.payload <= k < i.payload + i.size && b[k] != c[k] ==> Spot(i, k)
    requires forall k :: i.payload + i.size <= k < i.payload + i.size + 4 && k < |b| ==> b[k] == c[k]
    ensures WordAt(b, i.payload + BD_SIZE * k) == WordAt(c, i.payload + BD_SIZE * k)
  {
    hide WordAt;
    var at := i.payload + BD_SIZE * k;
    forall x | at <= x < at + 4 ensures b[x] == c[x] {
      if x < i.payload + i.size {
        SlotRemainder(x - i.payload, k, x - at);
      }
    }
    WordSame(b, c, at);
  }

  lemma SplitSpots(l: Layout, b: seq<u8>, at: nat, n: nat, c: seq<u8>, i: Item, rest: seq<Item>)
    requires l.Valid() && Decode(l, b, at) == Ok(i) && Trace(l, b, at + i.len, n) == Ok(rest)
    requires SameBut([i] + rest, at, b, c) && AllSound(l, b, [i] + rest)
    ensures Sound(l, b, i) && AllSound(l, b, rest)
    ensures forall k :: at <= k < at + i.len && k < |b| && b[k] != c[k] ==> Spot(i, k)
    ensures forall k :: at + i.len <= k < at + i.len + 4 && k < |b| ==> b[k] == c[k]
    ensures SameBut(rest, at + i.len, b, c)
  {
    hide Layout.Valid, Decode, Spot, Trace, Sound;
    var items := [i] + rest;
    assert items[0] == i && forall j :: 0 <= j < |rest| ==> items[j + 1] == rest[j];
    forall k | at <= k < |b| && b[k] != c[k]
      ensures if k < at + i.len then Spot(i, k) else (SpotIn(rest, k) && k >= at + i.len + 4) || Spot(i, k)
    {
      var j :| 0 <= j < |items| && Spot(items[j], k);
      if j > 0 {
        assert Spot(rest[j - 1], k);
        SpotsAhead(l, b, at + i.len, n, k);
      }
    }
    OwnSpots(l, b, at, i);
  }

  lemma OwnSpots(l: Layout, b: seq<u8>, at: nat, i: Item)
    requires l.Valid() && Decode(l, b, at) == Ok(i) && Sound(l, b, i)
    ensures forall k :: Spot(i, k) ==> k < at + i.len
  {
    hide Layout.Valid, Decode;
    DecodePlace(l, b, at);
  }

  /** Buffers that differ only in address bytes hold the same operations. */
  lemma {:induction false} TraceSame(l: Layout, b: seq<u8>, c: seq<u8>, at: nat, n: nat)
    requires l.Valid() && Trace(l, b, at, n).Ok? && AllSound(l, b, Trace(l, b, at, n).value)
    requires SameBut(Trace(l, b, at, n).value, at, b, c)
    ensures Trace(l, c, at, n) == Trace(l, b, at, n)
    decreases n
  {
    hide Layout.Valid, Decode, Sound, AllSound, SameBut, Spot;
    if n > 0 {
      var i := Decode(l, b, at).value;
      SplitSpots(l, b, at, n - 1, c, i, Trace(l, b, at + i.len, n - 1).value);
      LengthSame(l, b, c, at, n);
      DecodeSame(l, b, c, at);
      TraceSame(l, b, c, at + i.len, n - 1);
    }
  }

  lemma LengthSame(l: Layout, b: seq<u8>, c: seq<u8>, at: nat, n: nat)
    requires l.Valid() && Trace(l, b, at, n).Ok? && SameBut(Trace(l, b, at, n).value, at, b, c)
    ensures |b| == |c|
  {}

  // ---------- where clears go ----------

  // ---------- clearing ----------

  lemma {:induction false} ClearsSplit(a: seq<Symbol>, b: seq<Symbol>)
    ensures ClearsOf(a + b) == ClearsOf(a) + ClearsOf(b)
  {
    if a == [] {
      assert a + b == b;
    } else {
      assert (a + b)[1..] == a[1..] + b;
      ClearsSplit(a[1..], b);
      Assoc(if a[0].schema.ShimDma48? then [a[0].pos] else [], ClearsOf(a[1..]), ClearsOf(b));
    }
  }

  lemma {:induction false} ClearAllSplit(b: seq<u8>, x: seq<nat>, y: seq<nat>)
    ensures ClearAll(b, x + y) == (var r := ClearAll(b, x); if r.Err? then r else ClearAll(r.value, y))
    decreases |x|
  {
    hide ClearAt;
    if x == [] {
      assert x + y == y;
    } else {
      assert (x + y)[1..] == x[1..] + y;
      if x[0] + 10 <= |b| {
        ClearAllSplit(ClearAt(b, x[0]), x[1..], y);
      }
    }
  }

  ghost predicate ClearedByte(at: seq<nat>, k: int) {
    exists j :: 0 <= j < |at| && at[j] + 4 <= k < at[j] + 10
  }

  /** Clearing touches only the address bytes of the cleared descriptors and keeps the two low bits of
      the first of them. */
  lemma {:induction false} ClearAllBytes(b: seq<u8>, at: seq<nat>, k: nat)
    requires k < |b| && ClearAll(b, at).Ok?
    ensures var r := ClearAll(b, at).value;
      && (!ClearedByte(at, k) ==> r[k] == b[k])
      && r[k] % 4 in {b[k] % 4, 0}
    decreases |at|
  {
    if at != [] {
      ClearAtBytes(b, at[0]);
      var c := ClearAt(b, at[0]);
      hide ClearAt;
      ClearAllBytes(c, at[1..], k);
      if !ClearedByte(at, k) {
        assert !(at[0] + 4 <= k < at[0] + 10);
        assert !ClearedByte(at[1..], k) by {
          assert forall j :: 0 <= j < |at[1..]| ==> at[1..][j] == at[j + 1];
        }
      }
    }
  }

  /** The descriptor at `at` has no address. */
  ghost predicate Blank(b: seq<u8>, at: nat) {
    at + 10 <= |b| && b[at + 4] < 4 && forall k :: at + 5 <= k < at + 10 ==> b[k] == 0
  }

  lemma BlankKept(b: seq<u8>, at: nat, other: nat)
    requires at + 10 <= |b| && other + 10 <= |b|
    ensures Blank(ClearAt(b, at), at)
    ensures Blank(b, other) ==> Blank(ClearAt(b, at), other)
    ensures Blank(b, at) ==> ClearAt(b, at) == b
  {
    ClearAtBytes(b, at);
    hide ClearAt;
    if Blank(b, at) {
      var r := ClearAt(b, at);
      assert forall k :: 0 <= k < |b| ==> r[k] == b[k];
    }
  }

  lemma {:induction false} BlankStays(b: seq<u8>, at: seq<nat>, other: nat)
    requires ClearAll(b, at).Ok? && Blank(b, other)
    ensures Blank(ClearAll(b, at).value, other)
    decreases |at|
  {
    hide ClearAt, Blank;
    if at != [] {
      BlankFits(b, other);
      BlankKept(b, at[0], other);
      BlankStays(ClearAt(b, at[0]), at[1..], other);
    }
  }

  lemma BlankFits(b: seq<u8>, at: nat)
    requires Blank(b, at)
    ensures at + 10 <= |b|
  {}

  lemma {:induction false} AllBlank(b: seq<u8>, at: seq<nat>)
    requires ClearAll(b, at).Ok?
    ensures forall j :: 0 <= j < |at| ==> Blank(ClearAll(b, at).value, at[j])
    decreases |at|
  {
    hide ClearAt, Blank;
    if at != [] {
      BlankKept(b, at[0], at[0]);
      BlankStays(ClearAt(b, at[0]), at[1..], at[0]);
      AllBlank(ClearAt(b, at[0]), at[1..]);
      assert forall j :: 1 <= j < |at| ==> at[j] == at[1..][j - 1];
    }
  }

  lemma {:induction false} ClearNothing(b: seq<u8>, at: seq<nat>)
    requires forall j :: 0 <= j < |at| ==> Blank(b, at[j])
    ensures ClearAll(b, at) == Ok(b)
    decreases |at|
  {
    hide ClearAt, Blank;
    if at != [] {
      assert Blank(b, at[0]);
      BlankFits(b, at[0]);
      BlankKept(b, at[0], at[0]);
      ClearNothing(b, at[1..]);
    }
  }

  /** Clearing twice is clearing once. */
  lemma ClearTwice(b: seq<u8>, at: seq<nat>)
    requires ClearAll(b, at).Ok?
    ensures ClearAll(ClearAll(b, at).value, at) == ClearAll(b, at)
  {
    AllBlank(b, at);
    ClearNothing(ClearAll(b, at).value, at);
  }

  // ---------- the run over the buffer ----------

  ghost predicate AllHeld(items: seq<Item>, at: seq<nat>) {
    forall j :: 0 <= j < |at| ==> Held(items, at[j])
  }

  lemma {:induction false} ClearsStart(items: seq<Item>, syms: seq<Symbol>)
    requires ClearsHeld(items, syms)
    ensures AllHeld(items, ClearsOf(syms))
  {
    hide Held;
    if syms != [] {
      assert syms[0] in syms && forall s :: s in syms[1..] ==> s in syms;
      ClearsStart(items, syms[1..]);
    }
  }

  lemma SlotFits(l: Layout, b: seq<u8>, items: seq<Item>, at: nat)
    requires AllSound(l, b, items) && Held(items, at)
    ensures at + 10 <= |b| && forall k :: at + 4 <= k < at + 10 ==> SpotIn(items, k)
  {
    hide Layout.Valid;
    var i, j: nat :| 0 <= i < |items| && HeldBy(items[i], j, at);
    assert Sound(l, b, items[i]);
    forall k | at + 4 <= k < at + 10 ensures SpotIn(items, k) {
      assert (k - items[i].payload) % BD_SIZE == k - at by { SlotRemainder(k - items[i].payload, j, k - at); }
      assert Spot(items[i], k);
    }
  }

  lemma SlotRemainder(x: int, j: nat, r: nat)
    requires x == BD_SIZE * j + r && r < BD_SIZE
    ensures x % BD_SIZE == r
  {}

  /** Clears held by payloads always succeed and change address bytes only. */
  lemma {:induction false} ClearsChange(l: Layout, b: seq<u8>, items: seq<Item>, c: seq<u8>, at: seq<nat>, from: nat)
    requires AllSound(l, b, items) && AllHeld(items, at) && SameBut(items, from, b, c)
    ensures ClearAll(c, at).Ok? && SameBut(items, from, b, ClearAll(c, at).value)
    decreases |at|
  {
    hide Held, AllSound, SpotIn;
    if at != [] {
      assert Held(items, at[0]);
      SlotFits(l, b, items, at[0]);
      ClearAtBytes(c, at[0]);
      var d := ClearAt(c, at[0]);
      hide ClearAt;
      assert forall k :: from <= k < |b| && b[k] != d[k] ==> SpotIn(items, k) by {
        forall k | from <= k < |b| && b[k] != d[k] ensures SpotIn(items, k) {
          if !(at[0] + 4 <= k < at[0] + 10) {
            assert d[k] == c[k];
          }
        }
      }
      ClearsChange(l, b, items, d, at[1..], from);
    }
  }

  /** The whole-buffer context of a run: where the walk is and which operations remain. */
  ghost predicate Remaining(l: Layout, b: seq<u8>, items: seq<Item>, k: nat, at: nat)
    requires l.Valid()
  {
    k <= |items| && Trace(l, b, at, |items| - k) == Ok(items[k..])
  }

  lemma NextItem(l: Layout, b: seq<u8>, c: seq<u8>, items: seq<Item>, k: nat, at: nat, from: nat)
    requires l.Valid() && k < |items| && Remaining(l, b, items, k, at) && AllSound(l, b, items)
      && SameBut(items, from, b, c)
    requires from <= at && forall j :: 0 <= j < k ==> items[j].at + items[j].len <= at && OwnSpotsEnd(items[j])
    ensures Decode(l, c, at) == Ok(items[k]) && Decode(l, b, at) == Ok(items[k])
    ensures Remaining(l, b, items, k + 1, at + items[k].len) && items[k].at == at && OwnSpotsEnd(items[k])
  {
    hide Layout.Valid, Decode, Sound, Spot;
    var rest := items[k + 1..];
    assert items[k..][0] == items[k] && items[k..][1..] == rest && items[k..] == [items[k]] + rest;
    var i := Decode(l, b, at).value;
    assert i == items[k];
    LaterSpots(l, b, c, items, k, at, from);
    SplitSpots(l, b, at, |rest|, c, i, rest);
    DecodeSame(l, b, c, at);
    DecodePlace(l, b, at);
    OwnSpots(l, b, at, i);
  }

  /** An operation's address bytes end where the operation ends. */
  ghost predicate OwnSpotsEnd(i: Item) {
    forall k :: Spot(i, k) ==> k < i.at + i.len
  }

  lemma LaterSpots(l: Layout, b: seq<u8>, c: seq<u8>, items: seq<Item>, k: nat, at: nat, from: nat)
    requires k < |items| && AllSound(l, b, items) && SameBut(items, from, b, c) && from <= at
    requires forall j :: 0 <= j < k ==> items[j].at + items[j].len <= at && OwnSpotsEnd(items[j])
    ensures SameBut([items[k]] + items[k + 1..], at, b, c) && AllSound(l, b, [items[k]] + items[k + 1..])
  {
    hide Sound, Spot;
    var rest := [items[k]] + items[k + 1..];
    assert forall j :: 0 <= j < |rest| ==> rest[j] == items[j + k];
    forall x | at <= x < |b| && b[x] != c[x] ensures SpotIn(rest, x) {
      var j :| 0 <= j < |items| && Spot(items[j], x);
      assert j >= k;
      assert Spot(rest[j - k], x);
    }
  }

  ghost predicate Walked(items: seq<Item>, k: nat, at: nat)
    requires k <= |items|
  {
    forall j :: 0 <= j < k ==> items[j].at + items[j].len <= at && OwnSpotsEnd(items[j])
  }

  /** Where a run over a buffer stands: `c` is the buffer `b` with what has been relocated so far cleared. */
  ghost predicate Midway(cfg: Config, l: Layout, b: seq<u8>, items: seq<Item>, k: nat, at: nat, from: nat, c: seq<u8>,
                         m: Machine)
    requires l.Valid() && k <= |items| && AllWellFormed(items)
  {
    && AllSound(l, b, items) && Ordered(items) && Remaining(l, b, items, k, at) && Walked(items, k, at)
    && SameBut(items, from, b, c) && from <= at && ClearAll(b, ClearsOf(m.syms)) == Ok(c) && Agrees(cfg, items, k, m)
  }

  /** The next operation is read as from the original buffer, and clears what it would there. */
  lemma MidwayReads(cfg: Config, l: Layout, b: seq<u8>, items: seq<Item>, k: nat, at: nat, from: nat, c: seq<u8>,
                    m: Machine)
    requires l.Valid() && k < |items| && AllWellFormed(items) && Midway(cfg, l, b, items, k, at, from, c, m)
    ensures Decode(l, c, at) == Ok(items[k])
    ensures var r := Step(cfg, l, m, items[k]); r.Ok? ==>
      && |m.syms| <= |r.value.syms| && m.syms + r.value.syms[|m.syms|..] == r.value.syms
      && (ClearsHeld(items, r.value.syms[|m.syms|..]) <==> RoomAt(cfg, items, k))
  {
    hide Layout.Valid, Decode, AllSound, Ordered, SameBut, Remaining, Agrees, OwnSpotsEnd, ClearAll, Step, Contribution,
      Held, RoomAt, WellFormed;
    NextItem(l, b, c, items, k, at, from);
    StepAgrees(cfg, l, items, k, m);
    ContributionHeld(cfg, l, b, items, k);
    var r := Step(cfg, l, m, items[k]);
    if r.Ok? {
      assert r.value.syms[|m.syms|..] == Contribution(cfg, l, items, k).value;
    }
  }

  /** An operation with room keeps the run on its way. */
  lemma MidwayNext(cfg: Config, l: Layout, b: seq<u8>, items: seq<Item>, k: nat, at: nat, from: nat, c: seq<u8>,
                   m: Machine)
    requires l.Valid() && k < |items| && AllWellFormed(items) && Midway(cfg, l, b, items, k, at, from, c, m)
    requires RoomAt(cfg, items, k)
    ensures var r := Step(cfg, l, m, items[k]); r.Ok? ==>
      && |m.syms| <= |r.value.syms| && m.syms + r.value.syms[|m.syms|..] == r.value.syms
      && var added := ClearsOf(r.value.syms[|m.syms|..]);
        ClearAll(c, added).Ok?
        && Midway(cfg, l, b, items, k + 1, at + items[k].len, from, ClearAll(c, added).value, r.value)
  {
    hide Layout.Valid, Decode, AllSound, Ordered, SameBut, Remaining, Agrees, OwnSpotsEnd, ClearAll, Step, Held, RoomAt,
      WellFormed;
    MidwayReads(cfg, l, b, items, k, at, from, c, m);
    NextItem(l, b, c, items, k, at, from);
    StepAgrees(cfg, l, items, k, m);
    var r := Step(cfg, l, m, items[k]);
    if r.Ok? {
      var added := r.value.syms[|m.syms|..];
      ClearsStart(items, added);
      ClearsChange(l, b, items, c, ClearsOf(added), from);
      ClearsSplit(m.syms, added);
      ClearAllSplit(b, ClearsOf(m.syms), ClearsOf(added));
    }
  }

  /** Walking the buffer while clearing it is walking the operations read from it at the start, and
      then clearing. */
  lemma {:induction false} RunIsSteps(cfg: Config, l: Layout, b: seq<u8>, items: seq<Item>, k: nat, at: nat, from: nat,
                                      c: seq<u8>, m: Machine)
    requires l.Valid() && k <= |items| && AllWellFormed(items) && Midway(cfg, l, b, items, k, at, from, c, m)
    requires AllRoom(cfg, items)
    ensures var r, s := Run(cfg, l, c, at, |items| - k, m), Steps(cfg, l, m, items[k..]);
      && r.Ok? == s.Ok?
      && (r.Ok? ==> r.value.1 == s.value && ClearAll(b, ClearsOf(s.value.syms)) == Ok(r.value.0)
                    && SameBut(items, from, b, r.value.0))
    decreases |items| - k
  {
    hide Layout.Valid, Decode, Step, SameBut, Remaining, Walked, Held, WellFormed, ClearAll, AllSound, Ordered, Agrees,
      RoomAt;
    if k < |items| {
      assert items[k..][0] == items[k] && items[k..][1..] == items[k + 1..];
      MidwayReads(cfg, l, b, items, k, at, from, c, m);
      MidwayNext(cfg, l, b, items, k, at, from, c, m);
      var r := Step(cfg, l, m, items[k]);
      if r.Ok? {
        var added := ClearsOf(r.value.syms[|m.syms|..]);
        RunIsSteps(cfg, l, b, items, k + 1, at + items[k].len, from, ClearAll(c, added).value, r.value);
      }
    } else {
      assert items[k..] == [];
    }
  }

  /** A run only adds relocations. */
  lemma {:induction false} RunExtends(cfg: Config, l: Layout, c: seq<u8>, at: nat, n: nat, m: Machine)
    requires l.Valid() && Run(cfg, l, c, at, n, m).Ok?
    ensures var r := Run(cfg, l, c, at, n, m).value.1; |m.syms| <= |r.syms| && m.syms == r.syms[..|m.syms|]
    decreases n
  {
    hide Layout.Valid, Decode, Step, ClearAll;
    if n > 0 {
      var i := Decode(l, c, at).value;
      DecodeWellFormed(l, c, at);
      StepExtends(cfg, l, m, i);
      var m' := Step(cfg, l, m, i).value;
      RunExtends(cfg, l, ClearAll(c, ClearsOf(m'.syms[|m.syms|..])).value, at + i.len, n - 1, m');
    }
  }

  lemma HeldSome(items: seq<Item>, all: seq<Symbol>, x: nat, y: nat)
    requires x <= y <= |all| && ClearsHeld(items, all)
    ensures ClearsHeld(items, all[x..y])
  {
    hide Held;
    assert forall s :: s in all[x..y] ==> s in all;
  }

  /** A run all of whose clears are held had room for each of them. */
  lemma {:induction false} RunHadRoom(cfg: Config, l: Layout, b: seq<u8>, items: seq<Item>, k: nat, at: nat, from: nat,
                                      c: seq<u8>, m: Machine)
    requires l.Valid() && k <= |items| && AllWellFormed(items) && Midway(cfg, l, b, items, k, at, from, c, m)
    requires var r := Run(cfg, l, c, at, |items| - k, m); r.Ok? && ClearsHeld(items, r.value.1.syms)
    ensures forall j :: k <= j < |items| ==> RoomAt(cfg, items, j)
    decreases |items| - k
  {
    hide Layout.Valid, Decode, Step, Midway, ClearsHeld, WellFormed, ClearAll, RoomAt;
    if k < |items| {
      MidwayReads(cfg, l, b, items, k, at, from, c, m);
      assert WellFormed(items[k]);
      var m' := Step(cfg, l, m, items[k]).value;
      var all := Run(cfg, l, c, at, |items| - k, m).value.1.syms;
      var added := m'.syms[|m.syms|..];
      RunExtends(cfg, l, ClearAll(c, ClearsOf(added)).value, at + items[k].len, |items| - k - 1, m');
      assert added == all[|m.syms|..|m'.syms|];
      HeldSome(items, all, |m.syms|, |m'.syms|);
      MidwayNext(cfg, l, b, items, k, at, from, c, m);
      RunHadRoom(cfg, l, b, items, k + 1, at + items[k].len, from, ClearAll(c, ClearsOf(added)).value, m');
    }
  }

  /** The operations of a whole buffer. */
  function Operations(l: Layout, b: seq<u8>): Result<seq<Item>>
    requires l.Valid()
  {
    if l.header > |b| then Err(Crash) else Trace(l, b, l.header, Get(b, 0, l.numOps))
  }

  lemma OperationsWellFormed(l: Layout, b: seq<u8>)
    requires l.Valid() && Operations(l, b).Ok?
    ensures AllWellFormed(Operations(l, b).value)
  {
    hide Layout.Valid, Trace;
    HeaderFits(l);
    TraceFacts(l, b, l.header, Get(b, 0, l.numOps));
  }

  /** Operations end inside the buffer, and whatever is cleared has room in its payload. */
  ghost predicate Clearable(cfg: Config, l: Layout, b: seq<u8>)
    requires l.Valid()
  {
    && Operations(l, b).Ok? && AllSound(l, b, Operations(l, b).value)
    && AllWellFormed(Operations(l, b).value) && AllRoom(cfg, Operations(l, b).value)
  }

  lemma MidwayStarts(cfg: Config, l: Layout, b: seq<u8>)
    requires l.Valid() && Operations(l, b).Ok? && AllSound(l, b, Operations(l, b).value)
    ensures l.header <= |b| && l.numOps.at + l.numOps.width <= l.header
    ensures var items := Operations(l, b).value;
      && AllWellFormed(items) && |items| == Get(b, 0, l.numOps)
      && Midway(cfg, l, b, items, 0, l.header, l.header, b, START) && Ordered(items) && Agrees(cfg, items, 0, START)
  {
    hide Layout.Valid, Trace, AllSound, SpotIn, Agrees, Ordered;
    var items := Operations(l, b).value;
    HeaderFits(l);
    TraceFacts(l, b, l.header, Get(b, 0, l.numOps));
    TraceOrder(l, b, l.header, Get(b, 0, l.numOps));
    AgreesStart(cfg, items);
    assert items[0..] == items;
  }

  lemma ProcessIsSteps(cfg: Config, l: Layout, b: seq<u8>)
    requires l.Valid() && Clearable(cfg, l, b)
    ensures var items := Operations(l, b).value;
      var r, s := Process(cfg, l, b), Steps(cfg, l, START, items);
      && r.Ok? == s.Ok?
      && (r.Ok? ==> r.value.1 == s.value && ClearAll(b, ClearsOf(s.value.syms)) == Ok(r.value.0)
                    && SameBut(items, l.header, b, r.value.0))
  {
    hide Layout.Valid, Operations, Run, Steps, AllSound, SameBut, AllRoom, Midway;
    var items := Operations(l, b).value;
    MidwayStarts(cfg, l, b);
    assert items[0..] == items;
    RunIsSteps(cfg, l, b, items, 0, l.header, l.header, b, START);
  }

  lemma {:induction false} StepsInside(cfg: Config, l: Layout, b: seq<u8>, items: seq<Item>, k: nat, m: Machine)
    requires l.Valid() && AllWellFormed(items) && k <= |items| && AllSound(l, b, items) && Ordered(items)
      && ClearsHeld(items, m.syms)
    requires AllRoom(cfg, items) && Agrees(cfg, items, k, m)
    ensures var r := Steps(cfg, l, m, items[k..]); r.Ok? ==> ClearsHeld(items, r.value.syms)
    decreases |items| - k
  {
    hide Layout.Valid, Step, Held, WellFormed, Agrees, RoomAt, AllSound, Ordered, Contribution;
    if k < |items| {
      assert items[k..][0] == items[k] && items[k..][1..] == items[k + 1..];
      assert RoomAt(cfg, items, k);
      StepAgrees(cfg, l, items, k, m);
      ContributionHeld(cfg, l, b, items, k);
      var r := Step(cfg, l, m, items[k]);
      if r.Ok? {
        HeldBoth(items, m.syms, Contribution(cfg, l, items, k).value);
        StepsInside(cfg, l, b, items, k + 1, r.value);
      }
    } else {
      assert items[k..] == [];
    }
  }

  lemma HeldBoth(items: seq<Item>, a: seq<Symbol>, b: seq<Symbol>)
    requires ClearsHeld(items, a) && ClearsHeld(items, b)
    ensures ClearsHeld(items, a + b)
  {
    hide Held;
  }

  /** For every accepted buffer whose operations end inside it: every descriptor that the walk clears is held by
      the payload it stands in if and only if every relocated slot, found by searching backwards, has ten
      bytes of payload left. */
  lemma ClearsStayInside(cfg: Config, l: Layout, b: seq<u8>)
    requires l.Valid() && Operations(l, b).Ok? && AllSound(l, b, Operations(l, b).value) && Process(cfg, l, b).Ok?
    ensures AllWellFormed(Operations(l, b).value)
    ensures ClearsHeld(Operations(l, b).value, Process(cfg, l, b).value.1.syms)
      <==> AllRoom(cfg, Operations(l, b).value)
  {
    hide Layout.Valid, Operations, Run, Steps, AllSound, SameBut, Midway, ClearsHeld, RoomAt;
    var items := Operations(l, b).value;
    MidwayStarts(cfg, l, b);
    assert items[0..] == items;
    if AllRoom(cfg, items) {
      RunIsSteps(cfg, l, b, items, 0, l.header, l.header, b, START);
      NothingHeld(items);
      StepsInside(cfg, l, b, items, 0, START);
    }
    if ClearsHeld(items, Process(cfg, l, b).value.1.syms) {
      RunHadRoom(cfg, l, b, items, 0, l.header, l.header, b, START);
    }
  }

  lemma NothingHeld(items: seq<Item>)
    ensures ClearsHeld(items, START.syms)
  {}

  // ---------- exactly which bits change ----------

  lemma {:induction false} TraceOrder(l: Layout, b: seq<u8>, at: nat, n: nat)
    requires l.Valid() && Trace(l, b, at, n).Ok?
    ensures var items := Trace(l, b, at, n).value;
      && (forall i :: 0 <= i < |items| ==> at <= items[i].at)
      && Ordered(items)
    decreases n
  {
    hide Layout.Valid, Decode;
    if n > 0 {
      DecodePlace(l, b, at);
      TraceOrder(l, b, at + Decode(l, b, at).value.len, n - 1);
    }
  }

  /** Slots held by payloads of a buffer are equal or at least ten bytes apart. */
  lemma SlotsApart(l: Layout, b: seq<u8>, items: seq<Item>, x: nat, y: nat)
    requires AllSound(l, b, items) && Held(items, x) && Held(items, y) && Ordered(items)
    ensures x == y || x + 10 <= y || y + 10 <= x
  {
    hide Layout.Valid;
    var i, j: nat :| 0 <= i < |items| && HeldBy(items[i], j, x);
    var i', j': nat :| 0 <= i' < |items| && HeldBy(items[i'], j', y);
    assert Sound(l, b, items[i]) && Sound(l, b, items[i']);
  }

  ghost predicate Separate(at: seq<nat>) {
    forall i, k :: 0 <= i < k < |at| ==> at[i] == at[k] || at[i] + 10 <= at[k] || at[k] + 10 <= at[i]
  }

  /** What a byte becomes. */
  ghost function AfterClears(b: seq<u8>, at: seq<nat>, k: nat): u8
    requires k < |b|
  {
    if exists j :: 0 <= j < |at| && k == at[j] + 4 then b[k] % 4
    else if ClearedByte(at, k) then 0
    else b[k]
  }

  lemma {:induction false} ClearAllExact(b: seq<u8>, at: seq<nat>, k: nat)
    requires k < |b| && ClearAll(b, at).Ok? && Separate(at)
    ensures ClearAll(b, at).value[k] == AfterClears(b, at, k)
    decreases |at|
  {
    if at != [] {
      ClearAtBytes(b, at[0]);
      var c, rest := ClearAt(b, at[0]), at[1..];
      assert forall j :: 0 <= j < |rest| ==> rest[j] == at[j + 1];
      assert Separate(rest);
      hide ClearAt;
      ClearAllExact(c, rest, k);
      AfterFirst(b, c, at, k);
    }
  }

  lemma AfterFirst(b: seq<u8>, c: seq<u8>, at: seq<nat>, k: nat)
    requires at != [] && |b| == |c| && k < |b| && at[0] + 10 <= |b| && Separate(at)
    requires c[at[0] + 4] == b[at[0] + 4] % 4 && forall k :: at[0] + 5 <= k < at[0] + 10 ==> c[k] == 0
    requires !(at[0] + 4 <= k < at[0] + 10) ==> c[k] == b[k]
    ensures AfterClears(c, at[1..], k) == AfterClears(b, at, k)
  {
    var rest := at[1..];
    assert forall j :: 0 <= j < |rest| ==> rest[j] == at[j + 1];
    assert forall j :: 1 <= j < |at| ==> at[j] == rest[j - 1];
    if at[0] + 4 <= k < at[0] + 10 {
      assert ClearedByte(at, k);
      assert forall j :: 0 <= j < |rest| && rest[j] + 4 <= k < rest[j] + 10 ==> rest[j] == at[0];
    } else {
      ClearedRest(at, k);
    }
  }

  lemma ClearedRest(at: seq<nat>, k: nat)
    requires at != [] && !(at[0] + 4 <= k < at[0] + 10)
    ensures ClearedByte(at, k) <==> ClearedByte(at[1..], k)
    ensures (exists j :: 0 <= j < |at| && k == at[j] + 4) <==> exists j :: 0 <= j < |at[1..]| && k == at[1..][j] + 4
  {
    var rest := at[1..];
    if j :| 0 <= j < |at| && at[j] + 4 <= k < at[j] + 10 {
      assert rest[j - 1] == at[j];
    }
    if j :| 0 <= j < |rest| && rest[j] + 4 <= k < rest[j] + 10 {
      assert at[j + 1] == rest[j];
    }
    if j :| 0 <= j < |at| && k == at[j] + 4 {
      assert rest[j - 1] == at[j];
    }
    if j :| 0 <= j < |rest| && k == rest[j] + 4 {
      assert at[j + 1] == rest[j];
    }
  }

  /** What is guaranteed of an accepted buffer and the buffer the walk leaves. */
  ghost predicate Harmless(cfg: Config, l: Layout, b: seq<u8>, after: seq<u8>, m: Machine)
    requires l.Valid()
  {
    && |after| == |b| && Operations(l, after) == Operations(l, b)
    && (forall k :: 0 <= k < |b| ==> after[k] == AfterClears(b, ClearsOf(m.syms), k))
    && Process(cfg, l, after) == Ok((after, m))
  }

  /** For every buffer whose operations end inside it and whose relocated slots have ten bytes of payload left:
      the walk changes exactly the address bits of the descriptors it relocates, no operation reads differently
      afterwards, and a second walk yields the same relocations and leaves the buffer as it is. */
  lemma ClearingHarmless(cfg: Config, l: Layout, b: seq<u8>)
    requires l.Valid() && Clearable(cfg, l, b)
    ensures var r := Process(cfg, l, b); r.Ok? ==> Harmless(cfg, l, b, r.value.0, r.value.1)
  {
    hide Layout.Valid, Process, Operations, Steps, AllSound, Held, SameBut, ClearAll, AfterClears, RoomAt, AllRoom,
      ClearsHeld;
    var items := Operations(l, b).value;
    ProcessIsSteps(cfg, l, b);
    var r := Process(cfg, l, b);
    if r.Ok? {
      var (after, m) := r.value;
      ClearsStayInside(cfg, l, b);
      ClearsStart(items, ClearsList(m));
      ClearedOnce(l, b, items, m.syms);
      forall k | 0 <= k < |b| ensures after[k] == AfterClears(b, ClearsOf(m.syms), k) {
        ClearAllExact(b, ClearsOf(m.syms), k);
      }
      SameOperations(l, b, after, items, ClearsOf(m.syms));
      ProcessIsSteps(cfg, l, after);
      ClearTwice(b, ClearsOf(m.syms));
    }
  }

  function ClearsList(m: Machine): seq<Symbol> {
    m.syms
  }

  lemma ClearedOnce(l: Layout, b: seq<u8>, items: seq<Item>, syms: seq<Symbol>)
    requires l.Valid() && Operations(l, b) == Ok(items) && AllSound(l, b, items) && AllHeld(items, ClearsOf(syms))
    ensures Separate(ClearsOf(syms))
  {
    hide Layout.Valid, AllSound, Held, Trace;
    var at := ClearsOf(syms);
    HeaderFits(l);
    TraceOrder(l, b, l.header, Get(b, 0, l.numOps));
    forall i, k | 0 <= i < k < |at| ensures at[i] == at[k] || at[i] + 10 <= at[k] || at[k] + 10 <= at[i] {
      SlotsApart(l, b, items, at[i], at[k]);
    }
  }

  /** The cleared buffer holds the same operations, and they are still sound. */
  lemma SameOperations(l: Layout, b: seq<u8>, after: seq<u8>, items: seq<Item>, at: seq<nat>)
    requires l.Valid() && Operations(l, b) == Ok(items) && AllSound(l, b, items) && AllHeld(items, at)
    requires ClearAll(b, at) == Ok(after) && SameBut(items, l.header, b, after)
    ensures Operations(l, after) == Ok(items) && AllSound(l, after, items)
  {
    hide Layout.Valid, Trace, Held, ClearAll, SameBut, SpotIn, ClearedByte;
    HeaderFits(l);
    forall k | 0 <= k < l.header ensures after[k] == b[k] {
      HeaderUntouched(l, b, items, at, k);
      ClearAllBytes(b, at, k);
    }
    GetSame(b, after, 0, l.numOps);
    TraceSame(l, b, after, l.header, Get(b, 0, l.numOps));
    SoundSame(l, b, after, items);
  }

  lemma SoundSame(l: Layout, b: seq<u8>, after: seq<u8>, items: seq<Item>)
    requires AllSound(l, b, items) && |b| == |after|
    ensures AllSound(l, after, items)
  {
    forall i | 0 <= i < |items| ensures Sound(l, after, items[i]) {
      assert Sound(l, b, items[i]);
    }
  }

  lemma HeaderUntouched(l: Layout, b: seq<u8>, items: seq<Item>, at: seq<nat>, k: nat)
    requires l.Valid() && Operations(l, b) == Ok(items) && AllSound(l, b, items) && AllHeld(items, at)
      && k < l.header
    ensures !ClearedByte(at, k)
  {
    hide Layout.Valid, Trace, Held, AllSound, SpotIn;
    HeaderFits(l);
    if ClearedByte(at, k) {
      var j :| 0 <= j < |at| && at[j] + 4 <= k < at[j] + 10;
      SlotFits(l, b, items, at[j]);
      SpotsAhead(l, b, l.header, Get(b, 0, l.numOps), k);
    }
  }
}
