/** What an encoded page holds besides instructions, said from the page's own lines: words, fill bytes, descriptors
    and their chains, and the relocations the writer hands on. */
module PageData {
  import opened Base
  import opened Isa
  import opened Program
  import opened Structure
  import opened View
  import opened Pages
  import opened PageLaws
  import opened Serialize
  import opened PageImage
  import opened PageProofs
  import opened Patch
  import opened PageValues
  import opened UcDma

  // ---------- descriptors, words and fill bytes ----------

  /** Token `k` of an encoded page is written at its layout position. */
  lemma TokenWritten(v: View, col: nat, cfg: Config, p: Page, num: nat, k: nat) returns (env: Env)
    requires v.Valid() && PageOk(v, PAGE_SIZE, col, p, num) && DraftPage(cfg, p).Ok? && k < |p.text + p.data|
    ensures var toks, d := p.text + p.data, DraftPage(cfg, p).value;
      var out, at := d.text + d.data, PosAt(toks, k);
      var e := EmitTok(env, toks[k], at);
      && SeesPage(cfg, toks, env) && e.Ok? && PosAt(toks, k + 1) == at + |e.value.bytes| <= |out| <= PAGE_SIZE
      && out[at..at + |e.value.bytes|] == e.value.bytes
  {
    hide *;
    DraftIsEmit(v, PAGE_SIZE, col, cfg, p, num);
    PageSeen(v, PAGE_SIZE, col, cfg, p, num);
    WholePage(v, col, cfg, p, num);
    env := EnvOf(cfg, ScanFrom(START, p.text + p.data, false).value);
    TokenOffset(env, p.text + p.data, k);
  }

  /** A word of data holds the number its operand stands for. */
  lemma WordReads(v: View, col: nat, cfg: Config, p: Page, num: nat, k: nat)
    requires v.Valid() && PageOk(v, PAGE_SIZE, col, p, num) && DraftPage(cfg, p).Ok?
    requires k < |p.text + p.data| && (p.text + p.data)[k].Long?
    ensures var toks, out := p.text + p.data, DraftPage(cfg, p).value.text + DraftPage(cfg, p).value.data;
      && PosAt(toks, k) + 4 <= |out|
      && exists n: nat :: Denotes(cfg, toks, toks[k].val, n) && Read(out, PosAt(toks, k), 32) == n % 0x1_0000_0000
  {
    hide PageOk, DraftPage, ParseNum, Denotes, PosAt, SeesPage, Bytes, Value, EmitTok, View.Valid;
    var toks := p.text + p.data;
    var env := TokenWritten(v, col, cfg, p, num, k);
    LongBytes(env, toks[k], PosAt(toks, k));
    ParseDenotes(cfg, toks, env, toks[k].val);
    BytesValue(ParseNum(env, toks[k].val).value, 4);
    Pow256Word();
  }

  lemma LongBytes(env: Env, t: Token, pos: nat)
    requires t.Long? && EmitTok(env, t, pos).Ok?
    ensures ParseNum(env, t.val).Ok? && EmitTok(env, t, pos).value.bytes == Bytes(ParseNum(env, t.val).value, 4)
  {
    hide ParseNum, Bytes;
  }

  /** `.align` is written as 0xA5 bytes up to the next multiple. */
  lemma FillReads(v: View, col: nat, cfg: Config, p: Page, num: nat, k: nat)
    requires v.Valid() && PageOk(v, PAGE_SIZE, col, p, num) && DraftPage(cfg, p).Ok?
    requires k < |p.text + p.data| && (p.text + p.data)[k].Align?
    ensures var toks, out := p.text + p.data, DraftPage(cfg, p).value.text + DraftPage(cfg, p).value.data;
      && PosAt(toks, k) <= PosAt(toks, k + 1) <= |out| && PosAt(toks, k + 1) % toks[k].n == 0
      && PosAt(toks, k + 1) - PosAt(toks, k) < toks[k].n
      && forall i :: PosAt(toks, k) <= i < PosAt(toks, k + 1) ==> out[i] == 0xA5
  {
    hide PageOk, DraftPage, PosAt, SeesPage, View.Valid;
    var toks, out := p.text + p.data, DraftPage(cfg, p).value.text + DraftPage(cfg, p).value.data;
    var at := PosAt(toks, k);
    var env := TokenWritten(v, col, cfg, p, num, k);
    var fill := EmitTok(env, toks[k], at).value.bytes;
    forall i | at <= i < PosAt(toks, k + 1) ensures out[i] == 0xA5 {
      assert out[at..at + |fill|][i - at] == fill[i - at];
    }
  }

  /** The descriptor shows its operands: high and low remote address, local address, size, and the two flags. */
  ghost predicate Describes(cfg: Config, toks: seq<Token>, bd: seq<Arg>, d: Bd) {
    && |bd| >= 6 && Denotes(cfg, toks, bd[0], d.high) && Denotes(cfg, toks, bd[1], d.low)
    && Denotes(cfg, toks, bd[2], d.local) && Denotes(cfg, toks, bd[3], d.size)
    && Flag(cfg, toks, bd[4], d.external) && Flag(cfg, toks, bd[5], d.next)
  }

  ghost predicate Flag(cfg: Config, toks: seq<Token>, a: Arg, set_: bool) {
    exists n: nat :: Denotes(cfg, toks, a, n) && (set_ <==> n != 0)
  }

  lemma FlagIs(cfg: Config, toks: seq<Token>, a: Arg, n: nat)
    requires Denotes(cfg, toks, a, n)
    ensures Flag(cfg, toks, a, n != 0)
  {
    hide Denotes;
  }

  /** Operands of a page are 32-bit numbers. */
  lemma SmallNumber(cfg: Config, toks: seq<Token>, env: Env, a: Arg)
    requires SeesPage(cfg, toks, env) && ParseNum(env, a).Ok? && EndPos(toks, 0) <= PAGE_SIZE
    ensures ParseNum(env, a).value < 0x1_0000_0000 && Denotes(cfg, toks, a, ParseNum(env, a).value)
  {
    ParseDenotes(cfg, toks, env, a);
    if a.Ref? && a.name !in cfg.pads {
      assert LabelAt(toks, env.labels[a.name].index, a.name, env.labels[a.name].pos);
      hide EndPos;
      EndWithin(toks, env.labels[a.name].index);
    }
  }

  /** What the serializer of a descriptor writes. */
  lemma BdBytes(cfg: Config, toks: seq<Token>, env: Env, bd: seq<Arg>, pos: nat) returns (d: Bd)
    requires SeesPage(cfg, toks, env) && EmitBd(env, bd, pos).Ok? && EndPos(toks, 0) <= PAGE_SIZE
    ensures EmitBd(env, bd, pos).value.bytes == CppBytes(d, pos) && Describes(cfg, toks, bd, d)
  {
    hide SeesPage, Denotes, ParseNum, EncodeBd, LocalPointer, EndPos, Flag;
    forall i | 0 <= i < 6
      ensures ParseNum(env, bd[i]).Ok? && ParseNum(env, bd[i]).value < 0x1_0000_0000
        && Denotes(cfg, toks, bd[i], ParseNum(env, bd[i]).value)
    {
      SmallNumber(cfg, toks, env, bd[i]);
    }
    d := Bd(ParseNum(env, bd[0]).value, ParseNum(env, bd[1]).value, ParseNum(env, bd[2]).value,
            ParseNum(env, bd[3]).value, ParseNum(env, bd[4]).value != 0, ParseNum(env, bd[5]).value != 0);
    FlagIs(cfg, toks, bd[4], ParseNum(env, bd[4]).value);
    FlagIs(cfg, toks, bd[5], ParseNum(env, bd[5]).value);
  }

  /** A descriptor of an encoded page holds what its six operands stand for. */
  lemma BdWritten(v: View, col: nat, cfg: Config, p: Page, num: nat, k: nat) returns (d: Bd)
    requires v.Valid() && PageOk(v, PAGE_SIZE, col, p, num) && DraftPage(cfg, p).Ok?
    requires k < |p.text + p.data| && (p.text + p.data)[k].UcDmaBd?
    ensures var toks, out := p.text + p.data, DraftPage(cfg, p).value.text + DraftPage(cfg, p).value.data;
      && PosAt(toks, k + 1) == PosAt(toks, k) + 16 <= |out|
      && out[PosAt(toks, k)..PosAt(toks, k) + 16] == CppBytes(d, PosAt(toks, k))
      && Describes(cfg, toks, toks[k].bd, d)
  {
    hide PageOk, DraftPage, PosAt, SeesPage, View.Valid, EmitBd, CppBytes, Describes, EndPos;
    var toks := p.text + p.data;
    var env := TokenWritten(v, col, cfg, p, num, k);
    WholePage(v, col, cfg, p, num);
    d := BdBytes(cfg, toks, env, toks[k].bd, PosAt(toks, k));
  }

  // ---------- chains ----------

  lemma {:induction false} RunWritten(v: View, col: nat, cfg: Config, p: Page, num: nat, k: nat, n: nat)
    returns (ds: seq<Bd>)
    requires v.Valid() && PageOk(v, PAGE_SIZE, col, p, num) && DraftPage(cfg, p).Ok?
    requires k + n <= |p.text + p.data| && forall x :: k <= x < k + n ==> (p.text + p.data)[x].UcDmaBd?
    ensures var toks, out := p.text + p.data, DraftPage(cfg, p).value.text + DraftPage(cfg, p).value.data;
      var at := PosAt(toks, k);
      && |ds| == n && at + 16 * n <= |out| && out[at..at + 16 * n] == ChainBytes(ds, at)
      && forall x :: 0 <= x < n ==> Describes(cfg, toks, toks[k + x].bd, ds[x])
    decreases n
  {
    hide PageOk, DraftPage, PosAt, View.Valid, CppBytes, Describes;
    var toks, out := p.text + p.data, DraftPage(cfg, p).value.text + DraftPage(cfg, p).value.data;
    if n == 0 {
      ds := [];
      PositionInside(v, col, cfg, p, num, k);
    } else {
      var d := BdWritten(v, col, cfg, p, num, k);
      var rest := RunWritten(v, col, cfg, p, num, k + 1, n - 1);
      ds := [d] + rest;
      var at := PosAt(toks, k);
      assert ds[1..] == rest;
      assert out[at..at + 16 * n] == out[at..at + 16] + out[at + 16..at + 16 + 16 * (n - 1)];
      forall x | 0 <= x < n ensures Describes(cfg, toks, toks[k + x].bd, ds[x]) {
        if x > 0 {
          assert ds[x] == rest[x - 1] && toks[k + 1 + (x - 1)] == toks[k + x];
        }
      }
    }
  }

  lemma PositionInside(v: View, col: nat, cfg: Config, p: Page, num: nat, k: nat)
    requires v.Valid() && PageOk(v, PAGE_SIZE, col, p, num) && DraftPage(cfg, p).Ok? && k <= |p.text + p.data|
    ensures PosAt(p.text + p.data, k) <= |DraftPage(cfg, p).value.text + DraftPage(cfg, p).value.data|
  {
    hide *;
    DraftIsEmit(v, PAGE_SIZE, col, cfg, p, num);
    EndWithin(p.text + p.data, k);
  }

  /** Where the data starts. */
  lemma DataStarts(v: View, col: nat, cfg: Config, p: Page, num: nat, k: nat)
    requires v.Valid() && PageOk(v, PAGE_SIZE, col, p, num) && DraftPage(cfg, p).Ok?
      && |p.text| <= k <= |p.text + p.data|
    ensures |DraftPage(cfg, p).value.text| <= PosAt(p.text + p.data, k)
  {
    hide View.Valid, PageOk, DraftPage, EndPos;
    DraftIsEmit(v, PAGE_SIZE, col, cfg, p, num);
    var toks := p.text + p.data;
    assert toks[..k] == p.text + toks[|p.text|..k];
    EndPosAppend(p.text, toks[|p.text|..k], 0);
  }

  /** The decoder, pointed at a run of descriptors in the data of an encoded page, recovers what the operands of every
      one of them stand for, when they are linked as a chain and fit their fields: high and low remote address, size
      and flags as they are, and the absolute local address behind the label it prints. */
  lemma ChainReads(v: View, col: nat, cfg: Config, p: Page, num: nat, k: nat, n: nat, marks: Marks)
    returns (ds: seq<Bd>)
    requires v.Valid() && PageOk(v, PAGE_SIZE, col, p, num) && DraftPage(cfg, p).Ok? && marks.Valid()
    requires |p.text| <= k && k + n <= |p.text + p.data|
    requires forall x :: k <= x < k + n ==> (p.text + p.data)[x].UcDmaBd?
    ensures var toks, d := p.text + p.data, DraftPage(cfg, p).value;
      && |ds| == n && |d.text| <= PosAt(toks, k)
      && (forall x :: 0 <= x < n ==> Describes(cfg, toks, toks[k + x].bd, ds[x]))
      && (Chain(ds, PosAt(toks, k)) ==>
            var r := DecodeChain(d.data, PosAt(toks, k) - |d.text|, PosAt(toks, k), marks);
            && |r.0| == n && r.2 == PosAt(toks, k) + 16 * n && Extends(marks, r.1)
            && forall x :: 0 <= x < n ==> Shows(r.0[x], ds[x], r.1))
  {
    hide PageOk, DraftPage, PosAt, View.Valid, CppBytes, Describes, DecodeChain, Chain, Shows, Extends, ChainBytes;
    ds := RunWritten(v, col, cfg, p, num, k, n);
    DataStarts(v, col, cfg, p, num, k);
    var toks, d := p.text + p.data, DraftPage(cfg, p).value;
    var at := PosAt(toks, k);
    InData(d.text, d.data, at, 16 * n);
    if Chain(ds, at) {
      ChainRoundTrip(d.data, at - |d.text|, ds, at, marks);
    }
  }

  lemma InData(text: seq<u8>, data: seq<u8>, at: nat, n: nat)
    requires |text| <= at && at + n <= |text + data|
    ensures at - |text| + n <= |data| && data[at - |text|..at - |text| + n] == (text + data)[at..at + n]
  {}

  /** Any single descriptor is read with its fields cut to their bits. */
  lemma DescriptorReads(v: View, col: nat, cfg: Config, p: Page, num: nat, k: nat, marks: Marks) returns (d: Bd)
    requires v.Valid() && PageOk(v, PAGE_SIZE, col, p, num) && DraftPage(cfg, p).Ok?
    requires |p.text| <= k < |p.text + p.data| && (p.text + p.data)[k].UcDmaBd?
    ensures var toks, draft := p.text + p.data, DraftPage(cfg, p).value;
      var at := PosAt(toks, k);
      && Describes(cfg, toks, toks[k].bd, d) && |draft.text| <= at
      && var r := DecodeOne(draft.data, at - |draft.text|, at, marks); ShowsCut(r.0, d, at, r.1)
  {
    hide PageOk, DraftPage, PosAt, View.Valid, CppBytes, Describes, DecodeOne, ShowsCut;
    d := BdWritten(v, col, cfg, p, num, k);
    DataStarts(v, col, cfg, p, num, k);
    var toks, draft := p.text + p.data, DraftPage(cfg, p).value;
    InData(draft.text, draft.data, PosAt(toks, k), 16);
    RowReads(draft.data, PosAt(toks, k) - |draft.text|, d, PosAt(toks, k), marks);
  }

  // ---------- relocations ----------

  /** What an `apply_offset_57` line is relocated by: the control code when its offset names it, the argument that the
      offset spells otherwise. */
  ghost predicate NamedBy(cfg: Config, toks: seq<Token>, a: Arg, name: RelocName) {
    exists n: nat :: Denotes(cfg, toks, a, n)
      && name == if n == 0xFFFF || n == cfg.controlPacket then ControlCode else Spelled(a)
  }

  /** The relocations of one line: for an `apply_offset_57 @l, n, a`, one for each of the `n` labels of the page from
      `l` on, at the offset where that label stands; none for any other line. */
  ghost predicate RelocatesLine(cfg: Config, p: Page, t: Token, relocs: seq<Reloc>) {
    if t.Isa? && t.op.ApplyOffset57? then
      |t.args| >= 3 && t.args[0].Ref? && exists i: nat :: RelocatesFrom(cfg, p, t, i, relocs)
    else relocs == []
  }

  ghost predicate RelocatesFrom(cfg: Config, p: Page, t: Token, i: nat, relocs: seq<Reloc>)
    requires t.Isa? && |t.args| >= 3 && t.args[0].Ref?
  {
    && i < |p.labels| && p.labels[i] == t.args[0].name && t.args[0].name !in p.labels[..i]
    && Denotes(cfg, p.text + p.data, t.args[1], |relocs|) && i + |relocs| <= |p.labels|
    && forall x :: 0 <= x < |relocs| ==>
        && Denotes(cfg, p.text + p.data, Ref(p.labels[i + x]), relocs[x].at)
        && NamedBy(cfg, p.text + p.data, t.args[2], relocs[x].name)
  }

  lemma {:induction false} PositionsDenote(cfg: Config, toks: seq<Token>, env: Env, table: seq<Name>)
    requires SeesPage(cfg, toks, env) && Positions(env, table).Ok?
    ensures var at := Positions(env, table).value;
      |at| == |table| && forall x :: 0 <= x < |at| ==> Denotes(cfg, toks, Ref(table[x]), at[x])
  {
    hide SeesPage, Denotes, ParseNum;
    if table != [] {
      ParseDenotes(cfg, toks, env, Ref(table[0]));
      PositionsDenote(cfg, toks, env, table[1..]);
    }
  }

  lemma ApplyRelocs(env: Env, args: seq<Arg>)
    requires EmitIsa(env, ApplyOffset57, args).Ok?
    ensures |args| >= 3 && args[0].Ref? && args[0].name in env.labelList && ParseNum(env, args[1]).Ok?
      && ParseNum(env, args[2]).Ok?
    ensures var i, n := IndexOf(args[0].name, env.labelList), ParseNum(env, args[1]).value;
      && i + n <= |env.labelList| && Positions(env, env.labelList[i..i + n]).Ok?
      && EmitIsa(env, ApplyOffset57, args).value.relocs ==
           RelocsAt(NameFor(env, args[2], ParseNum(env, args[2]).value), Positions(env, env.labelList[i..i + n]).value)
  {
    hide InstrOf, ParseNum, Positions, RelocsAt, NameFor, Encode;
  }

  lemma LineRelocates(cfg: Config, p: Page, env: Env, t: Token, pos: nat)
    requires SeesPage(cfg, p.text + p.data, env) && env.labelList == p.labels && EmitTok(env, t, pos).Ok?
    ensures RelocatesLine(cfg, p, t, EmitTok(env, t, pos).value.relocs)
  {
    hide SeesPage, Denotes, ParseNum, IndexOf, Positions, EmitIsa, RelocsAt, EncodeBd;
    var toks, relocs := p.text + p.data, EmitTok(env, t, pos).value.relocs;
    if t.Isa? && t.op.ApplyOffset57? {
      var args := t.args;
      ApplyRelocs(env, args);
      var i, n := IndexOf(args[0].name, env.labelList), ParseNum(env, args[1]).value;
      ParseDenotes(cfg, toks, env, args[1]);
      ParseDenotes(cfg, toks, env, args[2]);
      PositionsDenote(cfg, toks, env, env.labelList[i..i + n]);
      SeenConfig(cfg, toks, env);
      assert NamedBy(cfg, toks, args[2], NameFor(env, args[2], ParseNum(env, args[2]).value));
      assert RelocatesFrom(cfg, p, t, i, relocs);
    } else if t.Isa? {
      NoRelocs(env, t.op, t.args);
    }
  }

  lemma NoRelocs(env: Env, op: Mnemonic, args: seq<Arg>)
    requires EmitIsa(env, op, args).Ok? && !op.ApplyOffset57?
    ensures EmitIsa(env, op, args).value.relocs == []
  {
    hide InstrOf, Encode;
  }

  lemma {:induction false} RunRelocates(cfg: Config, p: Page, env: Env, toks: seq<Token>, pos: nat)
    returns (parts: seq<seq<Reloc>>)
    requires SeesPage(cfg, p.text + p.data, env) && env.labelList == p.labels && EmitAll(env, toks, pos).Ok?
    ensures |parts| == |toks| && EmitAll(env, toks, pos).value.relocs == Concat(parts)
    ensures forall k :: 0 <= k < |toks| ==> RelocatesLine(cfg, p, toks[k], parts[k])
    decreases |toks|
  {
    hide SeesPage, EmitTok, RelocatesLine;
    parts := [];
    if toks != [] {
      var e := EmitTok(env, toks[0], pos).value;
      LineRelocates(cfg, p, env, toks[0], pos);
      var rest := RunRelocates(cfg, p, env, toks[1..], pos + |e.bytes|);
      parts := [e.relocs] + rest;
      assert parts[1..] == rest;
      forall k | 0 <= k < |toks| ensures RelocatesLine(cfg, p, toks[k], parts[k]) {
        if k > 0 {
          assert toks[k] == toks[1..][k - 1];
        }
      }
    }
  }

  lemma DraftRelocs(v: View, col: nat, cfg: Config, p: Page, num: nat)
    requires v.Valid() && PageOk(v, PAGE_SIZE, col, p, num) && DraftPage(cfg, p).Ok?
    ensures var s := ScanFrom(START, p.text + p.data, false);
      s.Ok? && EmitAll(EnvOf(cfg, s.value), p.text + p.data, 0).Ok?
      && DraftPage(cfg, p).value.relocs == EmitAll(EnvOf(cfg, s.value), p.text + p.data, 0).value.relocs
  {
    hide View.Valid, PageOk, ScanFrom, EmitAll, FixesOf, EndPos, JobsSize, LabelsSize, Gap;
    PageEnds(v, PAGE_SIZE, col, p, num);
    NothingDropped(p.data);
    EmitAllAppend(EnvOf(cfg, ScanFrom(START, p.text + p.data, false).value), p.text, p.data, 0);
  }

  /** The relocations handed on with an encoded page are those of its lines, one after another. */
  lemma PageRelocates(v: View, col: nat, cfg: Config, p: Page, num: nat) returns (parts: seq<seq<Reloc>>)
    requires v.Valid() && PageOk(v, PAGE_SIZE, col, p, num) && DraftPage(cfg, p).Ok?
    ensures var toks := p.text + p.data;
      && |parts| == |toks| && DraftPage(cfg, p).value.relocs == Concat(parts)
      && forall k :: 0 <= k < |toks| ==> RelocatesLine(cfg, p, toks[k], parts[k])
    ensures WritePage(cfg, p).Ok? ==> WritePage(cfg, p).value.relocs == DraftPage(cfg, p).value.relocs
  {
    hide View.Valid, PageOk, DraftPage, ScanFrom, EmitAll, RelocatesLine, PatchAll, SeesPage;
    DraftRelocs(v, col, cfg, p, num);
    PageSeen(v, PAGE_SIZE, col, cfg, p, num);
    parts := RunRelocates(cfg, p, EnvOf(cfg, ScanFrom(START, p.text + p.data, false).value), p.text + p.data, 0);
  }
}
