/** The page writer (`aie2ps_encoder::page_writer`): pass two over each page. */
module PageImage {
  import opened Base
  import opened Isa
  import opened Program
  import opened Structure
  import opened View
  import opened Labels
  import opened Pages
  import opened PageLaws
  import opened Serialize
  import opened Patch
  import opened Closure

  const PAGE_SIZE: nat := 8192

  /** Chip family, scratchpads in map order with their addresses, page-label table, control packet. */
  datatype Config = Config(family: Family, padList: seq<Name>, pads: map<Name, u32>, pageIndex: map<Name, nat>,
                           controlPacket: u32)

  function Low8(n: nat): u8 { n % 0x100 }
  function High8(n: nat): u8 { n / 0x100 % 0x100 }

  function Header(p: Page): (h: seq<u8>)
    ensures |h| == HEADER
  {
    [0xFF, 0xFF, Low8(p.num), High8(p.num), Low8(p.ooo1), High8(p.ooo1), Low8(p.ooo2), High8(p.ooo2),
     Low8(p.curLen), High8(p.curLen), Low8(p.nextLen), High8(p.nextLen), 0, 0, 0, 0]
  }

  /** The header starts with two 0xFF bytes and ends with four zeros; in between its 16-bit fields decode to the page
      number and the lengths. */
  lemma HeaderDecodes(p: Page)
    requires p.num < 0x1_0000 && p.ooo1 < 0x1_0000 && p.ooo2 < 0x1_0000 && p.curLen < 0x1_0000 && p.nextLen < 0x1_0000
    ensures var h := Header(p);
      && Read(h, 2, 16) == p.num && Read(h, 4, 16) == p.ooo1 && Read(h, 6, 16) == p.ooo2
      && Read(h, 8, 16) == p.curLen && Read(h, 10, 16) == p.nextLen
      && |h| == 16 && h[0] == h[1] == 0xFF && h[12] == h[13] == h[14] == h[15] == 0
  {
    var h := Header(p);
    Read16(h, 2, p.num);
    Read16(h, 4, p.ooo1);
    Read16(h, 6, p.ooo2);
    Read16(h, 8, p.curLen);
    Read16(h, 10, p.nextLen);
  }

  lemma Read16(h: seq<u8>, at: nat, n: nat)
    requires at + 2 <= |h| && h[at] == Low8(n) && h[at + 1] == High8(n) && n < 0x1_0000
    ensures Read(h, at, 16) == n
  {
    var b := h[at..at + 2];
    assert b == [h[at], h[at + 1]] && b[1..] == [h[at + 1]] && b[1..][1..] == [];
    assert Value(b) == h[at] + 256 * Value(b[1..]);
    assert Value([h[at + 1]]) == h[at + 1] by { assert [h[at + 1]][1..] == []; }
    assert n == n % 256 + 256 * (n / 256 % 256);
  }

  /** The page's own layout pass, as the serializers see it. */
  function EnvOf(cfg: Config, s: Scan): Env {
    Env(s.jobs, s.labels, s.labelList, cfg.pads, cfg.pageIndex, cfg.controlPacket)
  }

  function DropEof(toks: seq<Token>): seq<Token> {
    if toks == [] then [] else (if toks[0].Isa? && toks[0].op.Eof? then [] else [toks[0]]) + DropEof(toks[1..])
  }

  /** Patches of one pad, in the order the serializers asked for them. */
  function FixesFor(env: Env, pad: Name, patches: seq<PadPatch>, textLen: nat): Result<seq<Fix>>
    requires pad in env.pads
  {
    if patches == [] then Ok([]) else
    if patches[0].pad != pad then FixesFor(env, pad, patches[1..], textLen) else
    var at :- ParseNum(env, Ref(patches[0].bd));
    var rest :- FixesFor(env, pad, patches[1..], textLen);
    Ok([Fix(at - textLen, env.pads[pad])] + rest)
  }

  function FixesOf(env: Env, pads: seq<Name>, patches: seq<PadPatch>, textLen: nat): Result<seq<Fix>> {
    if pads == [] then Ok([]) else
    if pads[0] !in env.pads then Err(Crash) else
    var a :- FixesFor(env, pads[0], patches, textLen);
    var b :- FixesOf(env, pads[1..], patches, textLen);
    Ok(a + b)
  }

  /** A page's text and data sections, and its relocations. */
  datatype Image = Image(text: seq<u8>, data: seq<u8>, relocs: seq<Reloc>)

  /** Bytes of the two sections before patching and padding, the patches, and the relocations. */
  datatype Draft = Draft(text: seq<u8>, data: seq<u8>, fixes: seq<Fix>, relocs: seq<Reloc>)

  function DraftPage(cfg: Config, p: Page): Result<Draft> {
    var s :- ScanFrom(START, p.text + p.data, false);
    var env := EnvOf(cfg, s);
    if exists t :: t in p.text && (t.Label? || t.Eop?) then Err(InvalidOperation) else
    var text :- EmitAll(env, p.text, 0);
    var data :- EmitAll(env, DropEof(p.data), |text.bytes|);
    var fixes :- FixesOf(env, cfg.padList, text.patches + data.patches, |text.bytes|);
    Ok(Draft(text.bytes, data.bytes, fixes, text.relocs + data.relocs))
  }

  function WritePage(cfg: Config, p: Page): Result<Image> {
    var d :- DraftPage(cfg, p);
    var data :- PatchAll(cfg.family, d.data, d.fixes);
    var used := HEADER + |d.text| + |data|;
    if used > PAGE_SIZE then Err(PageOverflow) else
    Ok(Image(Header(p) + d.text, data + seq(PAGE_SIZE - used, _ => 0), d.relocs))
  }

  // ---------- a page is a well-formed program ----------

  function SegOf(t: seq<Token>): Segment {
    if |t| >= 2 && t[0].Isa? && t[0].args != [] && t[0].args[0].Num? then
      JobSeg(t[0].args[0].n, t[0].op.StartJobDeferred?, t[1..|t| - 1], t[0].args[0].form)
    else EopSeg
  }

  function SegsOf(v: View, jobs: seq<JobId>): seq<Segment> {
    if jobs == [] then [] else [SegOf(v.JobToks(jobs[0]))] + SegsOf(v, jobs[1..])
  }

  function BlockOf(t: seq<Token>): Block {
    if t != [] && t[0].Label? then Block(t[0].name, t[1..], []) else Block(0, [], [])
  }

  function BlocksOf(v: View, labels: seq<Name>): seq<Block> {
    if labels == [] then [] else [BlockOf(v.LabelToks(labels[0]))] + BlocksOf(v, labels[1..])
  }

  lemma SegOfJob(v: View, j: JobId)
    requires v.Valid() && j in v.s.jobs && j.Job?
    ensures var g := SegOf(v.JobToks(j)); g.JobSeg? && Job(g.n, g.form) == j && g.Valid() && g.Toks() == v.JobToks(j)
  {
    hide View.Valid, BodyOp, View.JobToks, Sizes, LaunchesOf;
    JobSlice(v, j);
    var t := v.JobToks(j);
    var g := SegOf(t);
    assert g.body == t[1..|t| - 1];
    forall x | x in g.body ensures BodyOp(x) {
      var i :| 0 <= i < |g.body| && g.body[i] == x;
      assert t[i + 1] == x;
    }
    assert t == [t[0]] + g.body + [t[|t| - 1]];
  }

  lemma {:induction false} SegsOfJobs(v: View, jobs: seq<JobId>, k: nat)
    requires v.Valid() && Ordinary(v, jobs)
    ensures var segs := SegsOf(v, jobs);
      && (forall g :: g in segs ==> g.Valid()) && SegsToks(segs) == JobsToks(v, jobs) && SegIds(segs, k) == jobs
  {
    hide View.Valid, View.JobToks, Segment.Toks, Segment.Valid, SegOf;
    if jobs != [] {
      SegOfJob(v, jobs[0]);
      SegsOfJobs(v, jobs[1..], k);
      assert jobs == [jobs[0]] + jobs[1..];
    }
  }

  lemma BlockOfLabel(v: View, l: Name)
    requires v.Valid() && l in v.s.labels
    ensures var b := BlockOf(v.LabelToks(l)); b.name == l && b.Valid() && b.Toks() == v.LabelToks(l) && b.aligns == []
  {
    hide View.Valid, View.LabelToks, View.AlignOf, DataOp, Sizes;
    LabelSlice(v, l);
    var t := v.LabelToks(l);
    assert t == [t[0]] + t[1..] + [];
  }

  lemma {:induction false} BlocksOfLabels(v: View, labels: seq<Name>)
    requires v.Valid() && forall l :: l in labels ==> l in v.s.labels
    ensures var blocks := BlocksOf(v, labels);
      && (forall b :: b in blocks ==> b.Valid()) && BlocksToks(blocks) == LabelsToks(v, labels)
        && LabelNames(blocks) == labels
  {
    hide View.Valid, View.LabelToks, Block.Toks, Block.Valid, BlockOf;
    if labels != [] {
      BlockOfLabel(v, labels[0]);
      BlocksOfLabels(v, labels[1..]);
      assert labels == [labels[0]] + labels[1..];
    }
  }

  function LeadOf(v: View, p: Page): seq<Token> {
    if Gap(v, p) > 0 then [Align(16)] else []
  }

  function SourceOf(v: View, p: Page): Source {
    Source(SegsOf(v, p.jobs), LeadOf(v, p), BlocksOf(v, p.labels))
  }

  lemma PageIsSource(v: View, size: nat, col: nat, p: Page, num: nat)
    requires v.Valid() && PageOk(v, size, col, p, num)
    ensures var src := SourceOf(v, p);
      && src.Valid() && src.Toks() == p.text + p.data && SegIds(src.segs, 0) == p.jobs
        && LabelNames(src.blocks) == p.labels
  {
    hide View.Valid, SegsOf, BlocksOf, SegsToks, BlocksToks, JobsToks, LabelsToks, Gap, JobsSize, LabelsSize,
      RoundUp4, Footprint, LabelsSorted, Segment.Valid, Block.Valid, View.AlignOf;
    SegsOfJobs(v, p.jobs, 0);
    BlocksOfLabels(v, p.labels);
    var src := SourceOf(v, p);
    assert forall t :: t in src.lead ==> IsAlign(t);
    assert p.text == JobsToks(v, p.jobs) + [EOF] + src.lead;
  }

  /** Pass two accepts a page exactly when no job and no label occurs on it twice, and then its
      records describe the page's own tokens. */
  lemma PageLayout(v: View, size: nat, col: nat, p: Page, num: nat)
    requires v.Valid() && PageOk(v, size, col, p, num)
    ensures var toks, r := p.text + p.data, ScanFrom(START, p.text + p.data, false);
      && (r.Ok? <==> NoDup(p.jobs) && NoDup(p.labels))
      && (r.Ok? ==> (DataInv(toks, r.value) && Placed(toks, |toks|, r.value)
                     && r.value.jobids == p.jobs + [EofJob] && r.value.labelList == p.labels))
  {
    hide View.Valid, PageOk, SourceOf, ScanFrom, Placed, Source.Valid, Source.Toks, JobsOk, EofOk, LabelOk;
    PageIsSource(v, size, col, p, num);
    LayoutPass(SourceOf(v, p), false);
    var r := ScanFrom(START, p.text + p.data, false);
    if r.Ok? {
      DistinctJobs(p.text + p.data, r.value);
      NoDupPrefix(p.jobs, [EofJob]);
    }
  }

  lemma DistinctJobs(toks: seq<Token>, s: Scan)
    requires DataInv(toks, s)
    ensures NoDup(s.jobids) && NoDup(s.labelList)
  {}

  lemma NoDupPrefix<T>(a: seq<T>, b: seq<T>)
    requires NoDup(a + b)
    ensures NoDup(a)
  {
    assert forall i :: 0 <= i < |a| ==> (a + b)[i] == a[i];
  }
}
