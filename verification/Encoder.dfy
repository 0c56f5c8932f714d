/** The serializers' and the page writer's loops, proved against `Serialize` and `PageImage`. */
module Encoder {
  import opened Base
  import opened Isa
  import opened Program
  import opened Structure
  import opened Labels
  import opened Pages
  import opened Serialize
  import opened Patch
  import opened PageImage
  import opened AssemblerState
  import opened Writer
  import View

  // ---------- isa_op_serializer ----------

  /** What is stored for an operand: only the `offset` of `apply_offset_57` is rewritten. */
  function FieldValue(env: Env, op: Mnemonic, s: Spec, val: nat): nat {
    if op.ApplyOffset57? && s.name.NOffset? then OffsetOperand(env, val) else val
  }

  function StoredAll(env: Env, op: Mnemonic, specs: seq<Spec>, vals: seq<nat>): (r: seq<nat>)
    requires |vals| == Operands(specs)
    ensures |r| == |vals|
  {
    if specs == [] then [] else
    if specs[0].kind.Pad? then StoredAll(env, op, specs[1..], vals)
    else [FieldValue(env, op, specs[0], vals[0])] + StoredAll(env, op, specs[1..], vals[1..])
  }

  lemma {:induction false} StoredElsewhere(env: Env, op: Mnemonic, specs: seq<Spec>, vals: seq<nat>)
    requires |vals| == Operands(specs) && !op.ApplyOffset57?
    ensures StoredAll(env, op, specs, vals) == vals
  {
    if specs == [] {
    } else if specs[0].kind.Pad? {
      StoredElsewhere(env, op, specs[1..], vals);
    } else {
      StoredElsewhere(env, op, specs[1..], vals[1..]);
    }
  }

  lemma StoredApply(env: Env, vals: seq<nat>)
    requires |vals| == Operands(Args(ApplyOffset57))
    ensures |vals| == 3 && StoredAll(env, ApplyOffset57, Args(ApplyOffset57), vals) ==
      vals[2 := OffsetOperand(env, vals[2])]
  {
    var a, b, c := Spec(NTablePtr, Const, 16), Spec(NNumEntries, Const, 16), Spec(NOffset, Const, 16);
    var specs := Args(ApplyOffset57);
    assert specs == [a, b, c] && specs[1..] == [b, c] && specs[1..][1..] == [c] && specs[1..][1..][1..] == [];
    hide Args;
    assert Operands([c]) == 1 && Operands([b, c]) == 2;
    var v1, v2 := vals[1..], vals[1..][1..];
    assert StoredAll(env, ApplyOffset57, [c], v2) == [OffsetOperand(env, v2[0])]
      + StoredAll(env, ApplyOffset57, [], v2[1..]);
    assert StoredAll(env, ApplyOffset57, [b, c], v1) == [v1[0]] + StoredAll(env, ApplyOffset57, [c], v2);
  }

  lemma WidthsKnown(op: Mnemonic)
    ensures forall s :: s in Args(op) ==>
        s.width in {8, 16, 32}
        && (s.kind.Register? || s.kind.Barrier? ==> s.width == 8)
  {}

  lemma ByteOf(v: nat)
    ensures Bytes(v, 1) == [v % 0x100] && Bytes(v, 2) == [v % 0x100, v / 0x100 % 0x100]
    ensures Bytes(v, 4) == [v % 0x100, v / 0x100 % 0x100, v / 0x1_0000 % 0x100, v / 0x100_0000 % 0x100]
  {
    FourBytes(v);
    BytesStep(v, 1);
    BytesStep(v, 2);
    BytesStep(v / 0x100, 1);
  }

  /** One operand's bytes, least significant first. */
  method PushValue(ret: seq<u8>, val: nat, width: nat) returns (r: seq<u8>)
    requires width in {8, 16, 32}
    ensures r == ret + Bytes(val, width / 8)
  {
    ByteOf(val);
    if width == 8 {
      r := ret + [val % 0x100];
    } else if width == 16 {
      r := ret + [val % 0x100] + [val / 0x100 % 0x100];
    } else {
      r := ret + [val % 0x100] + [val / 0x100 % 0x100] + [val / 0x1_0000 % 0x100] + [val / 0x100_0000 % 0x100];
    }
  }

  /** The operand bytes still to come, or the failure. */
  ghost function Tail(env: Env, op: Mnemonic, specs: seq<Spec>, args: seq<Arg>, k: nat): Result<seq<u8>> {
    var vals :- Values(env, specs, args, k);
    Ok(EncodeArgs(specs, StoredAll(env, op, specs, vals)))
  }

  lemma TailStep(env: Env, op: Mnemonic, specs: seq<Spec>, args: seq<Arg>, k: nat)
    requires specs != []
    ensures var s, v := specs[0], OperandValue(env, specs[0], args, k);
      var rest := Tail(env, op, specs[1..], args, if TakesArg(s.kind) then k + 1 else k);
      Tail(env, op, specs, args, k) ==
        if v.Err? then Err(v.error) else if rest.Err? then rest
        else Ok(Bytes(if s.kind.Pad? then 0 else FieldValue(env, op, s, v.value), s.width / 8) + rest.value)
  {
    hide OperandValue, FieldValue, Bytes;
    var s, v := specs[0], OperandValue(env, specs[0], args, k);
    var rest := Values(env, specs[1..], args, if TakesArg(s.kind) then k + 1 else k);
    if v.Ok? && rest.Ok? && !s.kind.Pad? {
      assert ([v.value] + rest.value)[1..] == rest.value;
      var st := StoredAll(env, op, specs[1..], rest.value);
      assert ([FieldValue(env, op, s, v.value)] + st)[1..] == st;
    }
  }

  lemma TailEnds(env: Env, op: Mnemonic, args: seq<Arg>, k: nat)
    ensures Tail(env, op, [], args, k) == Ok([])
  {}

  lemma TailIs(env: Env, op: Mnemonic, specs: seq<Spec>, args: seq<Arg>)
    ensures var vals := Values(env, specs, args, 0);
      Tail(env, op, specs, args, 0) ==
        if vals.Err? then Err(vals.error) else Ok(EncodeArgs(specs, StoredAll(env, op, specs, vals.value)))
  {}

  /** What is written so far, followed by what is still to come, is the whole. */
  ghost predicate Continues(all: Result<seq<u8>>, done: seq<u8>, rest: Result<seq<u8>>) {
    if rest.Err? then all == rest else all == Ok(done + rest.value)
  }

  lemma ContinueWith(all: Result<seq<u8>>, done: seq<u8>, here: seq<u8>, tail: Result<seq<u8>>, rest: Result<seq<u8>>)
    requires Continues(all, done, tail) && tail == if rest.Err? then rest else Ok(here + rest.value)
    ensures Continues(all, done + here, rest)
  {
    if rest.Ok? {
      assert done + here + rest.value == done + (here + rest.value);
    }
  }

  lemma ContinueStart(all: Result<seq<u8>>)
    ensures Continues(all, [], all)
  {
    if all.Ok? {
      assert [] + all.value == all.value;
    }
  }

  /** `isa_op_serializer::serialize`, operand loop. */
  method OperandBytes(env: Env, op: Mnemonic, args: seq<Arg>) returns (r: Result<seq<u8>>)
    ensures var vals := Values(env, Args(op), args, 0);
      if vals.Err? then r == Err(vals.error)
      else r == Ok([Code(op), 0] + EncodeArgs(Args(op), StoredAll(env, op, Args(op), vals.value)))
  {
    WidthsKnown(op);
    hide Args, Code, OperandValue, Bytes, FieldValue, Values, EncodeArgs, StoredAll, Tail, Continues;
    var specs := Args(op);
    var ret: seq<u8> := [Code(op), 0];
    ghost var done: seq<u8> := [];
    var i, argIndex := 0, 0;
    assert specs[0..] == specs;
    ContinueStart(Tail(env, op, specs, args, 0));
    TailIs(env, op, specs, args);
    while i < |specs|
      invariant i <= |specs| && ret == [Code(op), 0] + done
      invariant Continues(Tail(env, op, specs, args, 0), done, Tail(env, op, specs[i..], args, argIndex))
    {
      var s := specs[i];
      assert specs[i..][0] == s && specs[i..][1..] == specs[i + 1..];
      TailStep(env, op, specs[i..], args, argIndex);
      var v := OperandValue(env, s, args, argIndex);
      if v.Err? {
        ContinueFails(Tail(env, op, specs, args, 0), done, v.error);
        return Err(v.error);
      }
      ghost var tail := Tail(env, op, specs[i..], args, argIndex);
      ghost var here := Bytes(if s.kind.Pad? then 0 else FieldValue(env, op, s, v.value), s.width / 8);
      if s.kind.Pad? {
        ret := PushValue(ret, 0, s.width);
      } else {
        ret := PushValue(ret, FieldValue(env, op, s, v.value), s.width);
        if TakesArg(s.kind) {
          argIndex := argIndex + 1;
        }
      }
      ContinueWith(Tail(env, op, specs, args, 0), done, here, tail, Tail(env, op, specs[i + 1..], args, argIndex));
      done := done + here;
      i := i + 1;
    }
    assert specs[i..] == [];
    TailEnds(env, op, args, argIndex);
    ContinueEnd(Tail(env, op, specs, args, 0), done);
    return Ok(ret);
  }

  lemma ContinueEnd(all: Result<seq<u8>>, done: seq<u8>)
    requires Continues(all, done, Ok([]))
    ensures all == Ok(done)
  {
    assert done + [] == done;
  }

  lemma ContinueFails(all: Result<seq<u8>>, done: seq<u8>, e: Error)
    requires Continues(all, done, Err(e))
    ensures all == Err(e)
  {}

  /** Descriptors asked to be patched for one pad. */
  function BdsOf(pad: Name, asked: seq<PadPatch>): seq<Name> {
    if asked == [] then [] else
      (if asked[0].pad == pad then [asked[0].bd] else []) + BdsOf(pad, asked[1..])
  }

  lemma {:induction false} BdsAppend(pad: Name, a: seq<PadPatch>, b: seq<PadPatch>)
    ensures BdsOf(pad, a + b) == BdsOf(pad, a) + BdsOf(pad, b)
  {
    if a == [] {
      assert a + b == b;
    } else {
      assert (a + b)[1..] == a[1..] + b;
      BdsAppend(pad, a[1..], b);
      Assoc(if a[0].pad == pad then [a[0].bd] else [], BdsOf(pad, a[1..]), BdsOf(pad, b));
    }
  }

  lemma {:induction false} BdsOfTable(pad: Name, table: seq<Name>)
    ensures BdsOf(pad, PadPatches(pad, table)) == table
    ensures forall other :: other != pad ==> BdsOf(other, PadPatches(pad, table)) == []
  {
    if table != [] {
      BdsOfTable(pad, table[1..]);
      var p := PadPatches(pad, table);
      assert p[1..] == PadPatches(pad, table[1..]);
    }
  }

  /** `m_patch` lists, for every pad, what was asked for it, in order. */
  ghost predicate Recorded(patch: map<Name, seq<Name>>, asked: seq<PadPatch>) {
    forall pad :: (if pad in patch then patch[pad] else []) == BdsOf(pad, asked)
  }

  lemma RecordTable(patch: map<Name, seq<Name>>, asked: seq<PadPatch>, pad: Name, table: seq<Name>)
    requires Recorded(patch, asked)
    ensures Recorded(patch[pad := (if pad in patch then patch[pad] else []) + table], asked + PadPatches(pad, table))
  {
    BdsOfTable(pad, table);
    var patch' := patch[pad := (if pad in patch then patch[pad] else []) + table];
    forall other
      ensures (if other in patch' then patch'[other] else []) == BdsOf(other, asked + PadPatches(pad, table))
    {
      BdsAppend(other, asked, PadPatches(pad, table));
    }
  }

  /** The part of the page state the serializers write to. */
  class Requests {
    var patch: map<Name, seq<Name>>
    var relocs: seq<Reloc>
    ghost var asked: seq<PadPatch>

    ghost predicate Valid()
      reads this
    {
      Recorded(patch, asked)
    }

    constructor ()
      ensures Valid() && asked == [] && relocs == []
    {
      patch, relocs, asked := map[], [], [];
    }

    method Ask(pad: Name, table: seq<Name>)
      requires Valid()
      modifies `patch, `asked
      ensures Valid() && asked == old(asked) + PadPatches(pad, table)
    {
      RecordTable(patch, asked, pad, table);
      patch := patch[pad := (if pad in patch then patch[pad] else []) + table];
      asked := asked + PadPatches(pad, table);
    }

    /** One relocation for every descriptor of a table. */
    method Relocate(name: RelocName, at: seq<nat>)
      modifies `relocs
      ensures relocs == old(relocs) + RelocsAt(name, at)
    {
      var i := 0;
      ghost var all := RelocsAt(name, at);
      while i < |at|
        invariant i <= |at| && relocs == old(relocs) + all[..i]
      {
        relocs := relocs + [Reloc(name, at[i])];
        i := i + 1;
      }
      assert all[..i] == all;
    }

    method SerializeIsa(env: Env, op: Mnemonic, args: seq<Arg>) returns (r: Result<seq<u8>>)
      requires Valid()
      modifies this
      ensures Valid()
      ensures var e := EmitIsa(env, op, args);
        if e.Err? then r.Err? else
        r == Ok(e.value.bytes) && asked == old(asked) + e.value.patches && relocs == old(relocs) + e.value.relocs
    {
      hide Args, Values, Code, StoredAll, Recorded, EncodeArgs, OffsetOperand, Table, Positions, ParseNum, RelocsAt;
      r := OperandBytes(env, op, args);
      if r.Err? {
        return;
      }
      ghost var vals := Values(env, Args(op), args, 0).value;
      if op != ApplyOffset57 {
        StoredElsewhere(env, op, Args(op), vals);
        assert asked + [] == asked && relocs + [] == relocs;
        return;
      }
      StoredApply(env, vals);
      var table := Table(env, args);
      if table.Err? {
        return Err(table.error);
      }
      var at := Positions(env, table.value);
      if at.Err? {
        return Err(at.error);
      }
      var val := ParseNum(env, args[2]);
      if val.Err? {
        return Err(val.error);
      }
      assert asked + [] == asked;
      Relocate(NameFor(env, args[2], val.value), at.value);
      if |args| == 4 && args[3].Ref? && args[3].name in env.pads {
        Ask(args[3].name, table.value);
      }
    }

    /** The serializer a token's operation selects. */
    method Serialize(env: Env, t: Token, pos: nat) returns (r: Result<seq<u8>>)
      requires Valid()
      modifies this
      ensures Valid()
      ensures var e := EmitTok(env, t, pos);
        if e.Err? then r.Err? else
        r == Ok(e.value.bytes) && asked == old(asked) + e.value.patches && relocs == old(relocs) + e.value.relocs
    {
      hide EmitIsa, Recorded, ParseNum, EncodeBd, LocalPointer;
      assert asked + [] == asked && relocs + [] == relocs;
      match t
      case Label(_) => r := Ok([]);
      case Isa(op, args) => r := SerializeIsa(env, op, args);
      case Long(val) =>
        var n := ParseNum(env, val);
        r := if n.Err? then Err(n.error) else Ok(Bytes(n.value, 4));
      case UcDmaBd(bd) =>
        var e := EmitBd(env, bd, pos);
        r := if e.Err? then Err(e.error) else Ok(e.value.bytes);
      case Align(n) =>
        var gap, ret := AlignGap(pos, n), [];
        for i := 0 to gap
          invariant ret == seq(i, _ => 0xA5)
        {
          ret := ret + [0xA5];
        }
        r := Ok(ret);
      case Eop => r := Err(InvalidOperation);
    }
  }

  // ---------- patch57 ----------

  /** `patch57` of the AIE2PS encoder, on the data section's writer. */
  method PatchAie2ps(w: SectionWriter, at: nat, addr: u64) returns (r: Result<()>)
    modifies w
    ensures if at + 36 > |old(w.data)| then r.Err? else r == Ok(()) && w.data == Patch57(Aie2ps, old(w.data), at, addr)
  {
    hide Word, Put, NewWords;
    var bd1 := w.ReadWord(at + 4);
    var bd2 := w.ReadWord(at + 8);
    var bd8 := w.ReadWord(at + 32);
    if bd1.Err? || bd2.Err? || bd8.Err? {
      return Err(ReadBeyondData);
    }
    var arg := (bd8.value as int) % 0x200 * 0x1_0000_0000_0000 + (bd2.value as int) % 0x1_0000 * 0x1_0000_0000
      + bd1.value;
    var sum: u64 := (arg + addr) % 0x1_0000_0000_0000_0000;
    var words := NewWords(sum, bd2.value, bd8.value);
    w.WriteWordAt(at + 4, words.0);
    w.WriteWordAt(at + 8, words.1);
    w.WriteWordAt(at + 32, words.2);
    return Ok(());
  }

  /** `patch57` of the AIE4 encoder. */
  method PatchAie4(w: SectionWriter, at: nat, addr: u64) returns (r: Result<()>)
    modifies w
    ensures if at + 8 > |old(w.data)| then r.Err? else r == Ok(()) && w.data == Patch57(Aie4, old(w.data), at, addr)
  {
    hide Word, Put, NewWords4;
    var bd0 := w.ReadWord(at);
    var bd1 := w.ReadWord(at + 4);
    if bd0.Err? || bd1.Err? {
      return Err(ReadBeyondData);
    }
    var arg := bd1.value + (bd0.value as int) % 0x200_0000 * 0x1_0000_0000;
    var sum: u64 := (arg + addr) % 0x1_0000_0000_0000_0000;
    var words := NewWords4(sum, bd0.value);
    w.WriteWordAt(at + 4, words.0);
    w.WriteWordAt(at, words.1);
    return Ok(());
  }

  method PatchInPlace(w: SectionWriter, f: Family, at: int, addr: u64) returns (r: Result<()>)
    modifies w
    ensures if at < 0 || at + f.Span() > |old(w.data)| then r.Err? else
        r == Ok(())
        && w.data == Patch57(f, old(w.data), at, addr)
  {
    hide Patch57;
    if at < 0 {
      return Err(ReadBeyondData);
    }
    match f
    case Aie2ps => r := PatchAie2ps(w, at, addr);
    case Aie4 => r := PatchAie4(w, at, addr);
  }

  // ---------- page_writer ----------

  /** A run of tokens written to `w`, each serialized at the number of bytes since `origin`. */
  method WriteTokens(w: SectionWriter, requests: Requests, env: Env, toks: seq<Token>, origin: int, inText: bool)
    returns (ok: bool)
    requires requests.Valid() && 0 <= |w.data| - origin
    modifies w, requests
    ensures requests.Valid()
    ensures var e := EmitAll(env, if inText then toks else DropEof(toks), old(|w.data|) - origin);
      && (ok <==> e.Ok? && (inText ==> forall t :: t in toks ==> !t.Label? && !t.Eop?))
      && (ok ==>
          w.data == old(w.data) + e.value.bytes && requests.asked == old(requests.asked) + e.value.patches
          && requests.relocs == old(requests.relocs) + e.value.relocs)
  {
    hide EmitTok, EmitAll, Recorded, DropEof;
    var i := 0;
    ghost var all := if inText then toks else DropEof(toks);
    ghost var start := |w.data| - origin;
    ghost var before := Output(w.data, requests.asked, requests.relocs);
    EmitStart(env, all, start, before);
    assert toks[0..] == toks;
    while i < |toks|
      invariant i <= |toks| && requests.Valid() && 0 <= |w.data| - origin
      invariant inText ==> forall k :: 0 <= k < i ==> !toks[k].Label? && !toks[k].Eop?
      invariant EmitRest(env, all, start, before, if inText then toks[i..] else DropEof(toks[i..]), |w.data| - origin,
                         Output(w.data, requests.asked, requests.relocs))
    {
      var t := toks[i];
      assert toks[i..][0] == t && toks[i..][1..] == toks[i + 1..];
      DropOne(toks, i);
      if inText && (t.Label? || t.Eop?) {
        assert t in toks;
        return false;
      }
      if inText || !(t.Isa? && t.op.Eof?) {
        var pos := |w.data| - origin;
        ghost var rest := if inText then toks[i + 1..] else DropEof(toks[i + 1..]);
        EmitNext(env, all, start, before, t, rest, pos, Output(w.data, requests.asked, requests.relocs));
        var bytes := requests.Serialize(env, t, pos);
        if bytes.Err? {
          return false;
        }
        w.WriteBytes(bytes.value);
      } else {
        assert [] + DropEof(toks[i + 1..]) == DropEof(toks[i + 1..]);
      }
      i := i + 1;
    }
    assert toks[i..] == [];
    DropNothing();
    EmitEnds(env, all, start, before, |w.data| - origin, Output(w.data, requests.asked, requests.relocs));
    return true;
  }

  /** What a run of serializers leaves behind. */
  datatype Output = Output(data: seq<u8>, asked: seq<PadPatch>, relocs: seq<Reloc>) {
    ghost function With(e: Emit): Output {
      Output(data + e.bytes, asked + e.patches, relocs + e.relocs)
    }
  }

  /** What was left behind so far, continued with `rest`, is the whole run. */
  ghost predicate EmitRest(env: Env, all: seq<Token>, start: nat, before: Output, rest: seq<Token>, pos: nat,
                           now: Output) {
    var a, r := EmitAll(env, all, start), EmitAll(env, rest, pos);
    a.Ok? == r.Ok? && (a.Ok? ==> before.With(a.value) == now.With(r.value))
  }

  lemma EmitStart(env: Env, all: seq<Token>, start: nat, before: Output)
    ensures EmitRest(env, all, start, before, all, start, before)
  {
    hide EmitAll;
  }

  lemma EmitNext(env: Env, all: seq<Token>, start: nat, before: Output, t: Token, rest: seq<Token>, pos: nat,
                 now: Output)
    requires EmitRest(env, all, start, before, [t] + rest, pos, now)
    ensures var e := EmitTok(env, t, pos);
      if e.Err? then EmitAll(env, all, start).Err? else
      EmitRest(env, all, start, before, rest, pos + |e.value.bytes|, now.With(e.value))
  {
    hide EmitAll, EmitTok;
    EmitAllAppend(env, [t], rest, pos);
    EmitOne(env, t, pos);
    var e := EmitTok(env, t, pos);
    if e.Ok? {
      var r := EmitAll(env, rest, pos + |e.value.bytes|);
      if r.Ok? {
        Regroup(now.data, e.value.bytes, r.value.bytes);
        Regroup(now.asked, e.value.patches, r.value.patches);
        Regroup(now.relocs, e.value.relocs, r.value.relocs);
      }
    }
  }

  lemma Regroup<T>(a: seq<T>, b: seq<T>, c: seq<T>)
    ensures a + b + c == a + (b + c)
  {}

  lemma EmitEnds(env: Env, all: seq<Token>, start: nat, before: Output, pos: nat, now: Output)
    requires EmitRest(env, all, start, before, [], pos, now)
    ensures var a := EmitAll(env, all, start); a.Ok? && now == before.With(a.value)
  {
    assert now.data + [] == now.data && now.asked + [] == now.asked && now.relocs + [] == now.relocs;
  }

  lemma DropOne(toks: seq<Token>, i: nat)
    requires i < |toks|
    ensures toks[i..] == [toks[i]] + toks[i + 1..]
    ensures DropEof(toks[i..]) == (if toks[i].Isa? && toks[i].op.Eof? then [] else [toks[i]]) + DropEof(toks[i + 1..])
  {
    assert toks[i..][1..] == toks[i + 1..];
  }

  lemma DropNothing()
    ensures DropEof([]) == []
  {}

  /** Without the file prefix nothing is noted about `apply_offset_57`. */
  lemma {:induction false} NoApplies(s: Scan, toks: seq<Token>)
    requires s.applies == map[]
    ensures var r := ScanFrom(s, toks, false); r.Ok? ==> r.value.applies == map[]
    decreases |toks|
  {
    hide Step;
    if toks != [] {
      StepNoApplies(s, toks[0]);
      var r := Step(s, toks[0], false);
      if r.Ok? {
        NoApplies(r.value, toks[1..]);
      }
    }
  }

  lemma StepNoApplies(s: Scan, t: Token)
    requires s.applies == map[]
    ensures var r := Step(s, t, false); r.Ok? ==> r.value.applies == map[]
  {
    hide OpSize, Enter, Leave;
    if t.Isa? {
      var s1 := Enter(s, t.op, t.args);
      EnterApplies(s, t.op, t.args);
      if s1.Ok? {
        LeaveNoApplies(s1.value.(pos := s1.value.pos + OpSize(t.op)), t.op, t.args);
      }
    }
  }

  lemma LeaveNoApplies(s: Scan, op: Mnemonic, args: seq<Arg>)
    ensures var r := Leave(s, op, args, false); r.Ok? ==> r.value.applies == s.applies
  {}

  /** The patch loop for one pad. */
  method PatchPad(w: SectionWriter, f: Family, env: Env, pad: Name, bds: seq<Name>, textLen: nat,
                  ghost asked: seq<PadPatch>)
    returns (ok: bool)
    requires pad in env.pads && bds == BdsOf(pad, asked)
    modifies w
    ensures var fixes := FixesFor(env, pad, asked, textLen);
      var all := if fixes.Err? then Err(fixes.error) else PatchAll(f, old(w.data), fixes.value);
      ok == all.Ok? && (ok ==> w.data == all.value)
  {
    hide PatchAll, Patch57, ParseNum, FixesFor, BdFixes;
    ghost var fixes := FixesFor(env, pad, asked, textLen);
    FixesOfBds(env, pad, asked, textLen);
    var i := 0;
    assert bds[0..] == bds;
    while i < |bds|
      invariant i <= |bds|
      invariant var rest := BdFixes(env, pad, bds[i..], textLen);
        && fixes.Ok? == rest.Ok?
        && (fixes.Ok? ==> PatchAll(f, old(w.data), fixes.value) == PatchAll(f, w.data, rest.value))
    {
      BdsStep(env, pad, bds, i, textLen);
      var at := ParseNum(env, Ref(bds[i]));
      if at.Err? {
        return false;
      }
      ghost var rest := BdFixes(env, pad, bds[i + 1..], textLen);
      if rest.Ok? {
        PatchFirst(f, w.data, Fix(at.value - textLen, env.pads[pad]), rest.value);
      }
      var r := PatchInPlace(w, f, at.value - textLen, env.pads[pad]);
      if r.Err? {
        return false;
      }
      i := i + 1;
    }
    BdsDone(env, pad, bds, textLen);
    PatchNone(f, w.data);
    return true;
  }

  lemma PatchNone(f: Family, b: seq<u8>)
    ensures PatchAll(f, b, []) == Ok(b)
  {}

  lemma PatchFirst(f: Family, b: seq<u8>, x: Fix, rest: seq<Fix>)
    ensures PatchAll(f, b, [x] + rest) ==
      if x.at < 0 || x.at + f.Span() > |b| then Err(ReadBeyondData) else PatchAll(f, Patch57(f, b, x.at, x.addr), rest)
  {
    hide Patch57;
    assert ([x] + rest)[1..] == rest;
  }

  /** The fixes of one pad, from the list recorded for it. */
  function BdFixes(env: Env, pad: Name, bds: seq<Name>, textLen: nat): Result<seq<Fix>>
    requires pad in env.pads
  {
    if bds == [] then Ok([]) else
    var at :- ParseNum(env, Ref(bds[0]));
    var rest :- BdFixes(env, pad, bds[1..], textLen);
    Ok([Fix(at - textLen, env.pads[pad])] + rest)
  }

  lemma BdsStep(env: Env, pad: Name, bds: seq<Name>, i: nat, textLen: nat)
    requires pad in env.pads && i < |bds|
    ensures var at, rest := ParseNum(env, Ref(bds[i])), BdFixes(env, pad, bds[i + 1..], textLen);
      BdFixes(env, pad, bds[i..], textLen) ==
        if at.Err? then Err(at.error) else if rest.Err? then rest
          else Ok([Fix(at.value - textLen, env.pads[pad])] + rest.value)
  {
    hide ParseNum;
    assert bds[i..][0] == bds[i] && bds[i..][1..] == bds[i + 1..];
  }

  lemma BdsDone(env: Env, pad: Name, bds: seq<Name>, textLen: nat)
    requires pad in env.pads
    ensures BdFixes(env, pad, bds[|bds|..], textLen) == Ok([])
  {}

  lemma {:induction false} FixesOfBds(env: Env, pad: Name, asked: seq<PadPatch>, textLen: nat)
    requires pad in env.pads
    ensures FixesFor(env, pad, asked, textLen) == BdFixes(env, pad, BdsOf(pad, asked), textLen)
  {
    hide ParseNum;
    if asked != [] {
      FixesOfBds(env, pad, asked[1..], textLen);
      if asked[0].pad == pad {
        assert BdsOf(pad, asked)[1..] == BdsOf(pad, asked[1..]);
      } else {
        assert BdsOf(pad, asked) == BdsOf(pad, asked[1..]);
      }
    }
  }

  lemma {:induction false} PatchAppend(f: Family, b: seq<u8>, x: seq<Fix>, y: seq<Fix>)
    ensures PatchAll(f, b, x + y) == (var r := PatchAll(f, b, x); if r.Err? then r else PatchAll(f, r.value, y))
    decreases |x|
  {
    hide Patch57;
    if x == [] {
      assert x + y == y;
    } else {
      assert (x + y)[1..] == x[1..] + y;
      if x[0].at >= 0 && x[0].at + f.Span() <= |b| {
        PatchAppend(f, Patch57(f, b, x[0].at, x[0].addr), x[1..], y);
      }
    }
  }

  /** The loop over the pads something was asked for, in map order. */
  method PatchPads(w: SectionWriter, requests: Requests, f: Family, env: Env, pads: seq<Name>, textLen: nat)
    returns (ok: bool)
    requires requests.Valid()
    modifies w
    ensures var fixes := FixesOf(env, pads, requests.asked, textLen);
      var all := if fixes.Err? then Err(fixes.error) else PatchAll(f, old(w.data), fixes.value);
      ok == all.Ok? && (ok ==> w.data == all.value)
  {
    hide PatchAll, FixesFor;
    var i := 0;
    ghost var fixes := FixesOf(env, pads, requests.asked, textLen);
    assert pads[0..] == pads;
    while i < |pads|
      invariant i <= |pads|
      invariant var rest := FixesOf(env, pads[i..], requests.asked, textLen);
        && fixes.Ok? == rest.Ok?
        && (fixes.Ok? ==> PatchAll(f, old(w.data), fixes.value) == PatchAll(f, w.data, rest.value))
    {
      assert pads[i..][0] == pads[i] && pads[i..][1..] == pads[i + 1..];
      if pads[i] !in env.pads {
        return false;
      }
      ghost var a := FixesFor(env, pads[i], requests.asked, textLen);
      ghost var rest := FixesOf(env, pads[i + 1..], requests.asked, textLen);
      if a.Ok? && rest.Ok? {
        PatchAppend(f, w.data, a.value, rest.value);
      }
      var bds := if pads[i] in requests.patch then requests.patch[pads[i]] else [];
      var done := PatchPad(w, f, env, pads[i], bds, textLen, requests.asked);
      if !done {
        return false;
      }
      i := i + 1;
    }
    assert pads[i..] == [];
    PatchNone(f, w.data);
    return true;
  }

  /** The layout pass over a finished page. */
  method SecondPass(cfg: Config, p: Page) returns (ok: bool, env: Env)
    ensures var r := ScanFrom(START, p.text + p.data, false);
      ok == r.Ok? && env.pads == cfg.pads && (ok ==> env == EnvOf(cfg, r.value))
  {
    hide ScanFrom, Dependents;
    var state := new State();
    var processed := state.Process(p.text + p.data, false);
    NoApplies(START, p.text + p.data);
    ghost var scanned := ScanFrom(START, p.text + p.data, false);
    if scanned.Ok? {
      View.NoTables(scanned.value.labelList);
    }
    env := Env(state.jobmap, state.labelmap, state.labellist, cfg.pads, cfg.pageIndex, cfg.controlPacket);
    ok := processed.Ok?;
  }

  /** The first half of `page_writer`: the page's own layout pass, then the text and the data. */
  method EncodeSections(cfg: Config, p: Page)
    returns (ok: bool, textwriter: SectionWriter, datawriter: SectionWriter, requests: Requests, env: Env)
    ensures fresh(textwriter) && fresh(datawriter) && fresh(requests) && textwriter != datawriter && requests.Valid()
    ensures !ok ==> DraftPage(cfg, p).Err?
    ensures ok ==>
      && env.pads == cfg.pads && |textwriter.data| >= HEADER
      && var textLen := |textwriter.data| - HEADER;
        var fixes := FixesOf(env, cfg.padList, requests.asked, textLen);
        && textwriter.data == Header(p) + textwriter.data[HEADER..]
        && DraftPage(cfg, p) == if fixes.Err? then Err(fixes.error)
          else Ok(Draft(textwriter.data[HEADER..], datawriter.data, fixes.value, requests.relocs))
  {
    hide ScanFrom, EmitAll, FixesOf, Header, DropEof, DraftPage, Recorded, EnvOf;
    ok, env := SecondPass(cfg, p);
    DraftFails(cfg, p);
    textwriter := new SectionWriter();
    datawriter := new SectionWriter();
    requests := new Requests();
    if !ok {
      return;
    }
    textwriter.WriteBytes(Header(p));
    var offset := textwriter.Tell();
    assert |textwriter.data| - offset == 0;
    ok := WriteTokens(textwriter, requests, env, p.text, offset, true);
    if !ok {
      return;
    }
    var textLen := |textwriter.data| - offset;
    ghost var text := EmitAll(env, p.text, 0).value;
    assert textLen == |text.bytes| && |datawriter.data| - (-textLen) == |text.bytes|;
    ok := WriteTokens(datawriter, requests, env, p.data, -textLen, false);
    if !ok {
      return;
    }
    ghost var data := EmitAll(env, DropEof(p.data), |text.bytes|).value;
    assert textwriter.data[HEADER..] == text.bytes;
    assert requests.asked == text.patches + data.patches && datawriter.data == data.bytes;
    assert requests.relocs == text.relocs + data.relocs;
    DraftParts(cfg, p, env, text, data);
  }

  /** `page_writer`: the second pass over a page, its two sections, the patches and the padding. Which
      of several failures is reported first is not fixed. */
  method WritePageSections(cfg: Config, p: Page) returns (r: Option<Image>)
    ensures var spec := WritePage(cfg, p); if spec.Ok? then r == Some(spec.value) else r == None
  {
    hide FixesOf, PatchAll, Header, DraftPage, Recorded;
    var ok, textwriter, datawriter, requests, env := EncodeSections(cfg, p);
    if !ok {
      return None;
    }
    var textLen := |textwriter.data| - HEADER;
    ok := PatchPads(datawriter, requests, cfg.family, env, cfg.padList, textLen);
    if !ok || |textwriter.data| > PAGE_SIZE {
      return None;
    }
    ghost var data := datawriter.data;
    var padded := datawriter.Padding(PAGE_SIZE - |textwriter.data|);
    if padded.Err? {
      return None;
    }
    assert datawriter.data == data + seq(PAGE_SIZE - (HEADER + textLen + |data|), _ => 0);
    return Some(Image(textwriter.data, datawriter.data, requests.relocs));
  }

  lemma DraftParts(cfg: Config, p: Page, env: Env, text: Emit, data: Emit)
    requires var s := ScanFrom(START, p.text + p.data, false); s.Ok? && env == EnvOf(cfg, s.value)
    requires !(exists t :: t in p.text && (t.Label? || t.Eop?))
    requires EmitAll(env, p.text, 0) == Ok(text) && EmitAll(env, DropEof(p.data), |text.bytes|) == Ok(data)
    ensures var fixes := FixesOf(env, cfg.padList, text.patches + data.patches, |text.bytes|);
      DraftPage(cfg, p) == if fixes.Err? then Err(fixes.error)
        else Ok(Draft(text.bytes, data.bytes, fixes.value, text.relocs + data.relocs))
  {
    hide ScanFrom, EmitAll, FixesOf, DropEof;
  }

  lemma DraftFails(cfg: Config, p: Page)
    ensures var s := ScanFrom(START, p.text + p.data, false);
      DraftPage(cfg, p).Ok? ==>
        && s.Ok? && !(exists t :: t in p.text && (t.Label? || t.Eop?))
        && var env := EnvOf(cfg, s.value);
          && EmitAll(env, p.text, 0).Ok? && EmitAll(env, DropEof(p.data), |EmitAll(env, p.text, 0).value.bytes|).Ok?
  {
    hide ScanFrom, EmitAll, FixesOf, DropEof;
  }
}
