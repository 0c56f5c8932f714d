/** The walk over the byte buffer it also clears (`process_txn`, `clear_shimBD_address_bits`). */
module TxnBuffer {
  import opened Base
  import opened TxnLayout
  import opened Txn

  /** Clears the 46 address bits of the descriptor at `at`. */
  function ClearAt(b: seq<u8>, at: nat): (r: seq<u8>)
    requires at + 10 <= |b|
    ensures |r| == |b|
  {
    b[..at + 4] + [b[at + 4] % 4, 0, 0, 0, 0, 0] + b[at + 10..]
  }

  /** Only the six address bytes change, the two low bits of the first stay, and the rest are zero. */
  lemma ClearAtBytes(b: seq<u8>, at: nat)
    requires at + 10 <= |b|
    ensures var r := ClearAt(b, at);
      && r[at + 4] == b[at + 4] % 4 && (forall k :: at + 5 <= k < at + 10 ==> r[k] == 0)
      && forall k :: 0 <= k < |b| && !(at + 4 <= k < at + 10) ==> r[k] == b[k]
  {}

  /** The relocations that also clear their descriptor. */
  function ClearsOf(syms: seq<Symbol>): seq<nat> {
    if syms == [] then [] else (if syms[0].schema.ShimDma48? then [syms[0].pos] else []) + ClearsOf(syms[1..])
  }

  /** Writing past the buffer is left undefined by the source. */
  function ClearAll(b: seq<u8>, at: seq<nat>): (r: Result<seq<u8>>)
    ensures r.Ok? ==> |r.value| == |b|
    decreases |at|
  {
    if at == [] then Ok(b) else
    if at[0] + 10 > |b| then Err(Crash) else ClearAll(ClearAt(b, at[0]), at[1..])
  }

  /** The loop over the buffer: decode at the current position, relocate, clear, advance. */
  function Run(cfg: Config, l: Layout, b: seq<u8>, at: nat, n: nat, m: Machine): Result<(seq<u8>, Machine)>
    requires l.Valid()
    decreases n
  {
    if n == 0 then Ok((b, m)) else
    var i :- Decode(l, b, at);
    DecodeWellFormed(l, b, at);
    var m' :- Step(cfg, l, m, i);
    StepExtends(cfg, l, m, i);
    var b' :- ClearAll(b, ClearsOf(m'.syms[|m.syms|..]));
    Run(cfg, l, b', at + i.len, n - 1, m')
  }

  lemma StepExtends(cfg: Config, l: Layout, m: Machine, i: Item)
    requires l.Valid() && WellFormed(i)
    ensures var r := Step(cfg, l, m, i); r.Ok? ==> |m.syms| <= |r.value.syms| && m.syms == r.value.syms[..|m.syms|]
  {
    hide Relocate, IndexSlots, Layout.Valid;
  }

  /** `process_txn` on a whole buffer: the final buffer, the relocations, the preemption flag. */
  function Process(cfg: Config, l: Layout, b: seq<u8>): Result<(seq<u8>, Machine)>
    requires l.Valid()
  {
    if l.header > |b| then Err(Crash) else Run(cfg, l, b, l.header, Get(b, 0, l.numOps), START)
  }

  // ---------- the loop, in place ----------

  method ClearInPlace(buf: array<u8>, at: nat) returns (ok: bool)
    modifies buf
    ensures ok <==> at + 10 <= buf.Length
    ensures buf[..] == if ok then ClearAt(old(buf[..]), at) else old(buf[..])
  {
    if at + 10 > buf.Length {
      return false;
    }
    buf[at + 4] := buf[at + 4] % 4;
    buf[at + 5] := 0;
    buf[at + 6] := 0;
    buf[at + 7] := 0;
    buf[at + 8] := 0;
    buf[at + 9] := 0;
    assert buf[..] == ClearAt(old(buf[..]), at);
    return true;
  }

  /** The register-index loop of a block write. */
  method IndexPayload(m: map<nat, (nat, nat)>, i: Item) returns (r: map<nat, (nat, nat)>)
    requires WellFormed(i) && i.op.BlockWrite?
    ensures r == IndexSlots(m, i, 0)
  {
    r := m;
    var k := 0;
    while k < |i.firsts|
      invariant k <= |i.firsts| && IndexSlots(r, i, k) == IndexSlots(m, i, 0)
    {
      r := r[Key(i.vals[0], k) := (i.payload + BD_SIZE * k, Length(i.firsts[k]))];
      k := k + 1;
    }
  }

  /** The walker object: what `process_txn` keeps between operations. */
  class Walker {
    var left: nat
    var pmExist: bool
    var pmId: nat
    var index: map<nat, (nat, nat)>
    var syms: seq<Symbol>
    var preempt: bool

    constructor ()
      ensures State() == START
    {
      left, pmExist, pmId, index, syms, preempt := 0, false, 0, map[], [], false;
    }

    function State(): Machine
      reads this
    {
      Machine(left, pmExist, pmId, index, syms, preempt)
    }

    /** One operation of the `switch`, with the countdown after it. */
    method Visit(cfg: Config, l: Layout, i: Item) returns (r: Result<seq<Symbol>>)
      requires l.Valid() && WellFormed(i)
      modifies this
      ensures var s := Step(cfg, l, old(State()), i);
        if s.Err? then r == Err(s.error)
        else r.Ok? && State() == s.value && s.value.syms == old(syms) + r.value
    {
      hide Layout.Valid, Relocate, IndexSlots;
      var inPm := left > 0 && pmExist;
      r := Relocate(cfg, l, i, inPm, pmId, Find(index, KeyOf(i)));
      if r.Err? {
        return;
      }
      syms := syms + r.value;
      if i.op.BlockWrite? && !inPm {
        index := IndexPayload(index, i);
      } else if i.op.LoadPmStart? {
        pmId := i.vals[1];
        left := i.vals[0];
        left := left + 1;
        pmExist := true;
        if i.vals[1] !in cfg.pms {
          pmExist := false;
        }
      } else if i.op.Preempt? {
        preempt := true;
      }
      left := if left > 0 then left - 1 else 0;
    }

    /** `process_txn`. */
    method ProcessTxn(cfg: Config, l: Layout, buf: array<u8>) returns (ok: bool)
      requires l.Valid() && State() == START
      modifies this, buf
      ensures var r := Process(cfg, l, old(buf[..]));
        ok == r.Ok? && (ok ==> buf[..] == r.value.0 && State() == r.value.1)
    {
      hide Layout.Valid, Step, Decode, ClearAt;
      if l.header > buf.Length {
        return false;
      }
      HeaderFits(l);
      var n := Get(buf[..], 0, l.numOps);
      var at: nat, num: nat := l.header, 0;
      while num < n
        invariant num <= n
        invariant Run(cfg, l, buf[..], at, n - num, State()) == Process(cfg, l, old(buf[..]))
      {
        ghost var before := State();
        var i := Decode(l, buf[..], at);
        if i.Err? {
          return false;
        }
        DecodeWellFormed(l, buf[..], at);
        StepExtends(cfg, l, before, i.value);
        var added := Visit(cfg, l, i.value);
        if added.Err? {
          return false;
        }
        assert syms[|before.syms|..] == added.value;
        var done := ClearSymbols(buf, added.value);
        if !done {
          return false;
        }
        at := at + i.value.len;
        num := num + 1;
      }
      return true;
    }
  }

  lemma HeaderFits(l: Layout)
    requires l.Valid()
    ensures l.numOps.at + l.numOps.width <= l.header
  {}

  method ClearSymbols(buf: array<u8>, syms: seq<Symbol>) returns (ok: bool)
    modifies buf
    ensures var r := ClearAll(old(buf[..]), ClearsOf(syms)); ok == r.Ok? && (ok ==> buf[..] == r.value)
  {
    hide ClearAt;
    var k := 0;
    assert syms[0..] == syms;
    while k < |syms|
      invariant k <= |syms| && ClearAll(buf[..], ClearsOf(syms[k..])) == ClearAll(old(buf[..]), ClearsOf(syms))
    {
      assert syms[k..][0] == syms[k] && syms[k..][1..] == syms[k + 1..];
      if syms[k].schema.ShimDma48? {
        var rest := ClearsOf(syms[k + 1..]);
        assert ([syms[k].pos] + rest)[1..] == rest;
        var done := ClearInPlace(buf, syms[k].pos);
        if !done {
          return false;
        }
      } else {
        assert [] + ClearsOf(syms[k + 1..]) == ClearsOf(syms[k + 1..]);
      }
      k := k + 1;
    }
    assert syms[k..] == [];
    return true;
  }
}
