/** The pages of a call as a packing of groups: which groups a page holds, why it ends where it ends, and which page
    labels it branches to. */
module Packing {
  import opened Base
  import opened Isa
  import opened Program
  import opened View
  import opened Jobs
  import opened Labels
  import opened Pages
  import opened PageLaws
  import opened Partition
  import Pager
  import Tables

  // ---------- the page labels named by a run of tokens ----------

  /** Names of the `@` operands, in order. */
  function AtNames(args: seq<Arg>): seq<Name> {
    if args == [] then [] else (if args[0].Ref? then [args[0].name] else []) + AtNames(args[1..])
  }

  /** Names of the `@` operands of the `load_pdi` and `preempt` lines, in order of appearance. */
  function Targets(toks: seq<Token>): seq<Name> {
    if toks == [] then [] else
      (if toks[0].Isa? && toks[0].op in {LoadPdi, Preempt} then AtNames(toks[0].args) else []) + Targets(toks[1..])
  }

  lemma {:induction false} AtNamesAre(args: seq<Arg>, l: Name)
    ensures l in AtNames(args) <==> Ref(l) in args
  {
    if args != [] {
      AtNamesAre(args[1..], l);
      assert args == [args[0]] + args[1..];
    }
  }

  /** A token of the run branches to page label `l`. */
  ghost predicate BranchesTo(toks: seq<Token>, l: Name) {
    exists t :: t in toks && t.Isa? && t.op in {LoadPdi, Preempt} && Ref(l) in t.args
  }

  lemma {:induction false} TargetsAre(toks: seq<Token>, l: Name)
    ensures l in Targets(toks) <==> BranchesTo(toks, l)
  {
    if toks != [] {
      var t, rest := toks[0], toks[1..];
      assert toks == [t] + rest;
      TargetsAre(rest, l);
      if t.Isa? {
        AtNamesAre(t.args, l);
      }
      if BranchesTo(rest, l) {
        var x :| x in rest && x.Isa? && x.op in {LoadPdi, Preempt} && Ref(l) in x.args;
        assert x in toks;
      }
    }
  }

  lemma {:induction false} TargetsAppend(a: seq<Token>, b: seq<Token>)
    ensures Targets(a + b) == Targets(a) + Targets(b)
  {
    if a == [] {
      assert a + b == b;
    } else {
      hide AtNames;
      assert (a + b)[1..] == a[1..] + b;
      TargetsAppend(a[1..], b);
    }
  }

  lemma {:induction false} NamedIsAll(args: seq<Arg>)
    ensures Named(args, {}) == AtNames(args)
  {
    if args != [] {
      NamedIsAll(args[1..]);
    }
  }

  lemma DedupChain(acc: seq<Name>, here: seq<Name>, rest: seq<Name>)
    ensures Dedup(Dedup(acc + Dedup(here)) + rest) == Dedup(acc + (here + rest))
  {
    hide Dedup;
    Tables.DedupLater(acc, here);
    Pager.DedupTwice(acc + here, rest);
    Assoc(acc, here, rest);
  }

  lemma DedupPlain(acc: seq<Name>, here: seq<Name>, rest: seq<Name>)
    ensures Dedup(Dedup(acc + here) + rest) == Dedup(acc + (here + rest))
  {
    hide Dedup;
    Pager.DedupTwice(acc + here, rest);
    Assoc(acc, here, rest);
  }

  /** What the pager collects for one run: each target once, in order of first appearance. */
  lemma {:induction false} CollectedTargets(toks: seq<Token>, acc: seq<Name>)
    requires NoDup(acc)
    ensures ExternalsFrom(toks, acc) == Dedup(acc + Targets(toks))
    decreases |toks|
  {
    hide Dedup, AtNames, Targets, NoDup, Externals, ExternalsFrom;
    if toks == [] {
      NoTargets(acc);
    } else {
      var t, rest := toks[0], toks[1..];
      var here := FirstTargets(t, rest, toks);
      ExternalsAre(t, here);
      var acc' := Dedup(acc + Dedup(here));
      CollectedTargets(rest, acc');
      DedupChain(acc, here, Targets(rest));
      CollectStep(toks, acc);
    }
  }

  lemma NoTargets(acc: seq<Name>)
    requires NoDup(acc)
    ensures ExternalsFrom([], acc) == Dedup(acc + Targets([]))
  {
    DedupLength(acc);
    assert acc + [] == acc;
  }

  lemma CollectStep(toks: seq<Token>, acc: seq<Name>)
    requires toks != []
    ensures ExternalsFrom(toks, acc) == ExternalsFrom(toks[1..], Dedup(acc + Externals(toks[0])))
  {
    hide Dedup, Externals;
  }

  lemma FirstTargets(t: Token, rest: seq<Token>, toks: seq<Token>) returns (here: seq<Name>)
    requires toks == [t] + rest
    ensures here == (if t.Isa? && t.op in {LoadPdi, Preempt} then AtNames(t.args) else [])
    ensures Targets(toks) == here + Targets(rest)
  {
    hide AtNames;
    here := if t.Isa? && t.op in {LoadPdi, Preempt} then AtNames(t.args) else [];
    assert toks[1..] == rest;
  }

  lemma ExternalsAre(t: Token, here: seq<Name>)
    requires here == if t.Isa? && t.op in {LoadPdi, Preempt} then AtNames(t.args) else []
    ensures Externals(t) == Dedup(here)
  {
    if t.Isa? {
      NamedIsAll(t.args);
    }
  }

  // ---------- groups of a page ----------

  function AllJobs(gs: seq<Group>): seq<JobId> {
    if gs == [] then [] else AllJobs(gs[..|gs| - 1]) + gs[|gs| - 1].jobs
  }

  function AllLabels(gs: seq<Group>): seq<Name> {
    if gs == [] then [] else AllLabels(gs[..|gs| - 1]) + gs[|gs| - 1].labels
  }

  /** The targets of every group, each group listing its own once. */
  function AllTargets(v: View, gs: seq<Group>): seq<Name> {
    if gs == [] then [] else AllTargets(v, gs[..|gs| - 1]) + Dedup(Targets(JobsToks(v, gs[|gs| - 1].jobs)))
  }

  /** Each is what its first job needs. */
  ghost predicate Formed(v: View, gs: seq<Group>) {
    forall k :: 0 <= k < |gs| ==> gs[k].jobs != [] && GroupFacts(v, gs[k].jobs[0], gs[k])
  }

  /** The page holds exactly these groups, one after another. */
  ghost predicate Holds(v: View, p: Page, gs: seq<Group>) {
    && gs != [] && Formed(v, gs)
    && p.jobs == AllJobs(gs) && p.labels == Sorted(v, AllLabels(gs)) && p.externals == AllTargets(v, gs)
  }

  ghost predicate OpenHolds(v: View, open: Group, gs: seq<Group>) {
    && Formed(v, gs) && (gs == [] <==> open == EMPTY)
    && open.jobs == AllJobs(gs) && open.labels == AllLabels(gs) && open.externals == AllTargets(v, gs)
  }

  /** The `.eop` region of a group's first job. */
  ghost function RegionOf(v: View, g: Group): int {
    if g.jobs != [] && g.jobs[0] in v.s.jobs then v.s.jobs[g.jobs[0]].eop else -1
  }

  /** The page could not have taken the next group as well: that group lies behind an `.eop`, or it does not fit. */
  ghost predicate Full(v: View, size: nat, gs: seq<Group>, next: Group) {
    gs != [] && (RegionOf(v, gs[|gs| - 1]) < RegionOf(v, next)
                 || !FitsPage(v, size, AllJobs(gs) + next.jobs, AllLabels(gs) + next.labels))
  }

  /** The new pages hold these groups, and each ends where it must. */
  ghost predicate Packed(v: View, size: nat, packs: seq<seq<Group>>, pages: seq<Page>, base: nat) {
    && |pages| == base + |packs| && (forall i :: 0 <= i < |packs| ==> Holds(v, pages[base + i], packs[i]))
    && forall i :: 0 <= i < |packs| - 1 ==> Full(v, size, packs[i], packs[i + 1][0])
  }

  // ---------- the loop ----------

  /** The book after some jobs, `region` counting the `.eop` lines met. */
  ghost predicate Packing(v: View, size: nat, base: nat, region: nat, b: Book, packs: seq<seq<Group>>, gs: seq<Group>) {
    && Packed(v, size, packs, b.pages, base) && OpenHolds(v, b.open, gs)
    && (gs != [] ==> RegionOf(v, gs[|gs| - 1]) <= region)
    && (gs != [] && packs != [] ==> Full(v, size, packs[|packs| - 1], gs[0]))
    && (gs == [] && packs != [] ==> Ended(v, packs[|packs| - 1], region))
  }

  /** The page was ended by an `.eop`. */
  ghost predicate Ended(v: View, gs: seq<Group>, region: nat) {
    gs != [] && RegionOf(v, gs[|gs| - 1]) < region
  }

  lemma HoldsFields(v: View, p: Page, q: Page, gs: seq<Group>)
    requires Holds(v, p, gs) && q.jobs == p.jobs && q.labels == p.labels && q.externals == p.externals
    ensures Holds(v, q, gs)
  {
    hide Formed;
  }

  lemma HoldsFirst(v: View, p: Page, gs: seq<Group>)
    requires Holds(v, p, gs)
    ensures gs != []
  {}

  /** Ending the open page. */
  lemma ConcludePacks(v: View, size: nat, col: nat, before: seq<Page>, region: nat, b: Book, packs: seq<seq<Group>>,
                      gs: seq<Group>, last: bool)
    requires v.Valid() && BookOk(v, size, col, before, b) && gs != []
    requires Packing(v, size, |before|, region, b, packs, gs)
    ensures var r := Conclude(v, col, |before|, b, last);
      r.Ok? && r.value.open == EMPTY && Packed(v, size, packs + [gs], r.value.pages, |before|)
  {
    hide View.Valid, BookOk, PagesOk, Chained, NoneLast, Conclude, Sorted, Full, Formed, AllJobs, AllLabels, AllTargets,
      Ended;
    OpenStarts(v, size, col, before, b, gs);
    ConcludeKeeps(v, size, col, before, b, last);
    var r, all := Conclude(v, col, |before|, b, last).value, packs + [gs];
    var base := |before|;
    forall i | 0 <= i < |all| ensures Holds(v, r.pages[base + i], all[i]) {
      if i < |packs| {
        HoldsFields(v, b.pages[base + i], r.pages[base + i], packs[i]);
      }
    }
  }

  lemma OpenStarts(v: View, size: nat, col: nat, before: seq<Page>, b: Book, gs: seq<Group>)
    requires BookOk(v, size, col, before, b) && OpenHolds(v, b.open, gs) && gs != []
    ensures b.open.jobs != []
  {
    hide PagesOk, Chained, NoneLast, Formed, AllLabels, AllTargets;
    var last := gs[|gs| - 1];
    assert last.jobs != [] by { LastFormed(v, gs); }
  }

  lemma LastFormed(v: View, gs: seq<Group>)
    requires Formed(v, gs) && gs != []
    ensures gs[|gs| - 1].jobs != []
  {}

  lemma JoinHolds(v: View, open: Group, gs: seq<Group>, j: JobId, g: Group)
    requires OpenHolds(v, open, gs) && GroupFacts(v, j, g)
    ensures OpenHolds(v, Pages.Join(open, g), gs + [g])
  {
    hide Dedup, Targets, GroupFacts, Formed, JobsToks;
    var all := gs + [g];
    assert all[..|all| - 1] == gs && all[|all| - 1] == g;
    GroupStarts(v, j, g);
    FormedMore(v, gs, g);
    assert Pages.Join(open, g).jobs != [];
  }

  lemma FormedMore(v: View, gs: seq<Group>, g: Group)
    requires Formed(v, gs) && g.jobs != [] && GroupFacts(v, g.jobs[0], g)
    ensures Formed(v, gs + [g])
  {
    hide GroupFacts;
  }

  lemma GroupStarts(v: View, j: JobId, g: Group)
    requires GroupFacts(v, j, g)
    ensures g.jobs != [] && g.jobs[0] == j && g.externals == Dedup(Targets(JobsToks(v, g.jobs)))
    ensures g.tsize == JobsSize(v, g.jobs) && g.dsize == LabelsSize(v, g.labels)
  {
    hide Dedup, Targets, Needs, Torn, Reaches, GroupLabels, JobsSize, LabelsSize;
    CollectedTargets(JobsToks(v, g.jobs), []);
    assert [] + Targets(JobsToks(v, g.jobs)) == Targets(JobsToks(v, g.jobs));
  }

  lemma StartPacks(v: View, size: nat, before: seq<Page>)
    ensures Packing(v, size, |before|, 0, Book(before, map[], EMPTY), [], [])
  {}

  lemma LastSeed(gs: seq<Group>, g: Group)
    ensures (gs + [g])[|gs + [g]| - 1] == g && (gs != [] ==> (gs + [g])[0] == gs[0])
  {}

  /** The group does not fit beside the open ones. */
  lemma NoRoom(v: View, size: nat, col: nat, before: seq<Page>, b: Book, gs: seq<Group>, j: JobId, g: Group)
    requires BookOk(v, size, col, before, b) && OpenHolds(v, b.open, gs) && GroupFacts(v, j, g)
    ensures Footprint(b.open.tsize + g.tsize, b.open.dsize + g.dsize) <= size
      <==> FitsPage(v, size, AllJobs(gs) + g.jobs, AllLabels(gs) + g.labels)
  {
    hide Footprint, JobsSize, LabelsSize, Formed, AllJobs, AllLabels, AllTargets, FitsPage, JobsToks, LabelsToks,
      GroupFacts;
    OpenSizes(v, size, col, before, b);
    GroupStarts(v, j, g);
    JobsAppend(v, b.open.jobs, g.jobs);
    LabelsAppend(v, b.open.labels, g.labels);
    FootprintFits(v, size, b.open.jobs + g.jobs, b.open.labels + g.labels);
  }

  lemma OpenSizes(v: View, size: nat, col: nat, before: seq<Page>, b: Book)
    requires BookOk(v, size, col, before, b)
    ensures b.open.tsize == JobsSize(v, b.open.jobs) && b.open.dsize == LabelsSize(v, b.open.labels)
    ensures b.open.jobs == [] ==> b.open == EMPTY
  {
    hide PagesOk, Chained, NoneLast, Ordinary, JobsSize, LabelsSize, Footprint, Aligned;
  }

  /** A group of a job of region `region` joins the open page, or starts the next one. */
  lemma JoinPacks(v: View, size: nat, col: nat, before: seq<Page>, region: nat, b: Book, packs: seq<seq<Group>>,
                  gs: seq<Group>, j: JobId, g: Group)
    returns (packs': seq<seq<Group>>, gs': seq<Group>)
    requires v.Valid() && BookOk(v, size, col, before, b) && Packing(v, size, |before|, region, b, packs, gs)
    requires GroupFacts(v, j, g) && j in v.s.jobs && v.s.jobs[j].eop == region
    ensures var r := MakeRoom(v, size, col, |before|, b, g);
      r.Ok? && Packing(v, size, |before|, region, r.value.(open := Pages.Join(r.value.open, g)), packs', gs')
  {
    hide View.Valid, BookOk, Conclude, Footprint, Packed, OpenHolds, GroupFacts, FitsPage, AllJobs, AllLabels;
    NoRoom(v, size, col, before, b, gs, j, g);
    GroupStarts(v, j, g);
    NothingOpen(v);
    if Footprint(b.open.tsize + g.tsize, b.open.dsize + g.dsize) <= size {
      packs', gs' := packs, gs + [g];
      JoinHolds(v, b.open, gs, j, g);
      LastSeed(gs, g);
    } else {
      gs' := [g];
      JoinHolds(v, EMPTY, [], j, g);
      assert [] + [g] == [g];
      if gs == [] {
        packs' := packs;
        OpenIsEmpty(v, b.open);
        ConcludeNothing(v, col, |before|, b);
      } else {
        packs' := packs + [gs];
        ConcludePacks(v, size, col, before, region, b, packs, gs, false);
        LastPack(packs, gs);
      }
    }
  }

  lemma LastPack(packs: seq<seq<Group>>, gs: seq<Group>)
    ensures (packs + [gs])[|packs + [gs]| - 1] == gs
  {}

  lemma NothingOpen(v: View)
    ensures OpenHolds(v, EMPTY, [])
  {}

  lemma OpenIsEmpty(v: View, open: Group)
    requires OpenHolds(v, open, [])
    ensures open == EMPTY
  {
    hide Formed, AllJobs, AllLabels, AllTargets;
  }

  /** An `.eop` line is never placed. */
  lemma EopIsNew(v: View, size: nat, col: nat, before: seq<Page>, done: seq<JobId>, b: Book, j: JobId)
    requires RunOk(v, size, col, before, done, b) && PlacedHere(|before|, b) && j.EopJob?
    ensures j !in b.placed && j !in b.open.jobs
  {
    hide Covered, Chained, NoneLast, JobsSize, LabelsSize, JobsToks, LabelsToks, Gap, Footprint, RoundUp4, Aligned,
      LabelsSorted;
    assert forall i :: |before| <= i < |b.pages| ==> PageOk(v, size, col, b.pages[i], i);
  }

  /** An `.eop` line ends the open page. */
  lemma EopPacks(v: View, size: nat, col: nat, before: seq<Page>, region: nat, b: Book, packs: seq<seq<Group>>,
                 gs: seq<Group>)
    returns (packs': seq<seq<Group>>)
    requires v.Valid() && BookOk(v, size, col, before, b) && Packing(v, size, |before|, region, b, packs, gs)
    ensures b.open.jobs == [] ==> Packing(v, size, |before|, region + 1, b, packs', [])
    ensures b.open.jobs != [] ==>
      var r := Conclude(v, col, |before|, b, false);
      r.Ok? && Packing(v, size, |before|, region + 1, r.value, packs', [])
  {
    hide View.Valid, BookOk, Conclude, Packed, OpenHolds, AllJobs, AllLabels, Full;
    NothingOpen(v);
    OpenSizes(v, size, col, before, b);
    if gs == [] {
      packs' := packs;
      OpenIsEmpty(v, b.open);
    } else {
      packs' := packs + [gs];
      OpenStarts(v, size, col, before, b, gs);
      ConcludePacks(v, size, col, before, region, b, packs, gs, false);
      LastPack(packs, gs);
    }
  }

  /** One job of the list. */
  lemma PlacePacks(v: View, ranks: Ranks, size: nat, col: nat, before: seq<Page>, done: seq<JobId>, region: nat,
                   b: Book, packs: seq<seq<Group>>, gs: seq<Group>, j: JobId)
    returns (packs': seq<seq<Group>>, gs': seq<Group>)
    requires Ready(v, ranks) && RunOk(v, size, col, before, done, b) && PlacedHere(|before|, b)
    requires j in v.s.jobs && v.s.jobs[j].eop == region && Packing(v, size, |before|, region, b, packs, gs)
    ensures var r := Place(v, ranks, size, col, |before|, b, j);
      r.Ok? ==> Packing(v, size, |before|, if j.EopJob? then region + 1 else region, r.value, packs', gs')
  {
    hide Ready, View.Valid, BookOk, Conclude, Footprint, Packing, GroupOf, MakeRoom, PlacedOk, Covered, GroupFacts,
      PlacedHere;
    ReadyValid(v, ranks);
    packs', gs' := packs, gs;
    if j.EopJob? {
      EopIsNew(v, size, col, before, done, b, j);
      packs' := EopPacks(v, size, col, before, region, b, packs, gs);
      gs' := [];
    } else if j.Job? && j !in b.placed && j !in b.open.jobs {
      if Place(v, ranks, size, col, |before|, b, j).Ok? {
        GroupHolds(v, ranks, j);
        packs', gs' := JoinPacks(v, size, col, before, region, b, packs, gs, j, GroupOf(v, ranks, j).value);
      }
    }
  }

  lemma {:induction false} PlaceAllPacks(v: View, ranks: Ranks, size: nat, col: nat, before: seq<Page>, k: nat, b: Book,
                                         packs: seq<seq<Group>>, gs: seq<Group>)
    returns (packs': seq<seq<Group>>, gs': seq<Group>)
    requires Ready(v, ranks) && k <= |v.s.jobids| && RunOk(v, size, col, before, v.s.jobids[..k], b)
    requires PlacedHere(|before|, b) && Packing(v, size, |before|, Eops(v.s.jobids[..k]), b, packs, gs)
    requires forall j :: j in v.s.jobids[k..] ==> j in v.s.jobs
    ensures var r := PlaceAll(v, ranks, size, col, |before|, b, v.s.jobids[k..]);
      r.Ok? ==>
        (BookOk(v, size, col, before, r.value) && Packing(v, size, |before|, Eops(v.s.jobids), r.value, packs', gs'))
    decreases |v.s.jobids| - k
  {
    hide Ready, View.Valid, RunOk, PlacedHere, Packing, Place, Eops;
    var ids := v.s.jobids;
    ReadyValid(v, ranks);
    packs', gs' := packs, gs;
    if k == |ids| {
      assert ids[..k] == ids && ids[k..] == [];
      RunIsBook(v, size, col, before, ids, b);
    } else {
      IdFacts(v, k);
      assert ids[k..][0] == ids[k] && ids[k..][1..] == ids[k + 1..] && ids[..k + 1] == ids[..k] + [ids[k]];
      PlaceRun(v, ranks, size, col, before, ids[..k], b, ids[k]);
      RunIsBook(v, size, col, before, ids[..k], b);
      PlaceHere(v, ranks, size, col, |before|, b, ids[k]);
      var more, open := PlacePacks(v, ranks, size, col, before, ids[..k], Eops(ids[..k]), b, packs, gs, ids[k]);
      var r := Place(v, ranks, size, col, |before|, b, ids[k]);
      if r.Ok? {
        packs', gs' := PlaceAllPacks(v, ranks, size, col, before, k + 1, r.value, more, open);
      }
    }
  }

  lemma RunIsBook(v: View, size: nat, col: nat, before: seq<Page>, done: seq<JobId>, b: Book)
    requires RunOk(v, size, col, before, done, b)
    ensures BookOk(v, size, col, before, b) && |before| <= |b.pages|
  {
    hide PagesOk, Chained, NoneLast, OpenOk, PlacedOk, Covered;
  }

  /** Setting a flag changes nothing of this. */
  lemma FlagPacks(v: View, size: nat, pages: seq<Page>, flagged: seq<Page>, base: nat, packs: seq<seq<Group>>)
    requires Packed(v, size, packs, pages, base) && |flagged| == |pages|
    requires forall i :: 0 <= i < |pages| ==> flagged[i] == pages[i].(last := flagged[i].last)
    ensures Packed(v, size, packs, flagged, base)
  {
    hide Full, Holds;
    forall i | 0 <= i < |packs| ensures Holds(v, flagged[base + i], packs[i]) {
      HoldsFields(v, pages[base + i], flagged[base + i], packs[i]);
    }
  }

  lemma FinishPacks(v: View, size: nat, col: nat, before: seq<Page>, region: nat, b: Book, packs: seq<seq<Group>>,
                    gs: seq<Group>)
    returns (all: seq<seq<Group>>)
    requires v.Valid() && BookOk(v, size, col, before, b) && Packing(v, size, |before|, region, b, packs, gs)
    ensures var r := Finish(v, col, |before|, b); r.Ok? && Packed(v, size, all, r.value, |before|)
  {
    hide View.Valid, BookOk, Conclude, OpenHolds, Full;
    OpenSizes(v, size, col, before, b);
    if gs == [] {
      hide Packed;
      all := packs;
      OpenIsEmpty(v, b.open);
      FlagPacks(v, size, b.pages, Finish(v, col, |before|, b).value, |before|, packs);
    } else {
      hide Packed;
      all := packs + [gs];
      OpenStarts(v, size, col, before, b, gs);
      ConcludePacks(v, size, col, before, region, b, packs, gs, true);
    }
  }

  /** The pages of every accepted call are a packing: each new page holds a list of groups, each formed for its first
      job, in order and nothing else; it branches to what these groups name; and it ends because an `.eop` follows
      or because the first group of the next page does not fit beside them. */
  lemma PagifyPacks(v: View, ranks: Ranks, size: nat, col: nat, before: seq<Page>) returns (packs: seq<seq<Group>>)
    requires Ready(v, ranks)
    ensures var r := Pagify(v, ranks, size, col, before); r.Ok? ==> Packed(v, size, packs, r.value, |before|)
  {
    hide Ready, View.Valid, RunOk, PlacedHere, Packing, PlaceAll, Finish, Packed, BookOk;
    ReadyValid(v, ranks);
    IdsKnown(v);
    var start, ids := Book(before, map[], EMPTY), v.s.jobids;
    StartRun(v, size, col, before);
    StartPacks(v, size, before);
    StartHere(before);
    assert ids[0..] == ids && ids[..0] == [];
    var all, gs := PlaceAllPacks(v, ranks, size, col, before, 0, start, [], []);
    packs := [];
    var b := PlaceAll(v, ranks, size, col, |before|, start, ids);
    if b.Ok? {
      packs := FinishPacks(v, size, col, before, Eops(ids), b.value, all, gs);
    }
  }

  lemma StartHere(before: seq<Page>)
    ensures PlacedHere(|before|, Book(before, map[], EMPTY))
  {}

  // ---------- which page labels a page branches to ----------

  lemma {:induction false} TargetsOfGroups(v: View, gs: seq<Group>)
    ensures Dedup(AllTargets(v, gs)) == Dedup(Targets(JobsToks(v, AllJobs(gs))))
  {
    hide Dedup, Targets, JobsToks;
    if gs == [] {
      NoJobs(v);
    } else {
      var init, jobs := gs[..|gs| - 1], gs[|gs| - 1].jobs;
      var a, b := Targets(JobsToks(v, AllJobs(init))), Targets(JobsToks(v, jobs));
      TargetsOfGroups(v, init);
      JobsAppend(v, AllJobs(init), jobs);
      TargetsAppend(JobsToks(v, AllJobs(init)), JobsToks(v, jobs));
      Pager.DedupTwice(AllTargets(v, init), Dedup(b));
      Pager.DedupTwice(a, Dedup(b));
      Tables.DedupLater(a, b);
    }
  }

  lemma NoJobs(v: View)
    ensures Targets(JobsToks(v, [])) == []
  {}

  /** The page labels of a page: a name is among them exactly when a `load_pdi` or `preempt` line of the page's jobs has
      it as an `@` operand; they come in the order in which these lines first name them. */
  ghost predicate BranchesAre(v: View, p: Page) {
    && (forall l :: l in p.externals <==> BranchesTo(JobsToks(v, p.jobs), l))
    && Dedup(p.externals) == Dedup(Targets(JobsToks(v, p.jobs)))
  }

  lemma HeldBranches(v: View, p: Page, gs: seq<Group>)
    requires Holds(v, p, gs)
    ensures BranchesAre(v, p)
  {
    hide Dedup, Targets, JobsToks, AllJobs, AllTargets, Formed, BranchesTo;
    TargetsOfGroups(v, gs);
    var toks := JobsToks(v, p.jobs);
    forall l ensures l in p.externals <==> BranchesTo(toks, l) {
      TargetsAre(toks, l);
      assert l in Dedup(p.externals) <==> l in p.externals;
      assert l in Dedup(Targets(toks)) <==> l in Targets(toks);
    }
  }

  /** On every page of every accepted program. */
  lemma PagifyBranches(v: View, ranks: Ranks, size: nat, col: nat, before: seq<Page>)
    requires Ready(v, ranks)
    ensures var r := Pagify(v, ranks, size, col, before);
      r.Ok? ==> |before| <= |r.value| && forall i :: |before| <= i < |r.value| ==> BranchesAre(v, r.value[i])
  {
    hide Ready, Pagify, Holds, BranchesAre, Full;
    var r := Pagify(v, ranks, size, col, before);
    var packs := PagifyPacks(v, ranks, size, col, before);
    if r.Ok? {
      forall i | |before| <= i < |r.value| ensures BranchesAre(v, r.value[i]) {
        HeldBranches(v, r.value[|before| + (i - |before|)], packs[i - |before|]);
      }
    }
  }

  /** Every group that branches anywhere lists a label of its own, also when another group has listed it already. */
  lemma {:induction false} ListedPerGroup(v: View, gs: seq<Group>)
    requires forall k :: 0 <= k < |gs| ==> Targets(JobsToks(v, gs[k].jobs)) != []
    ensures |AllTargets(v, gs)| >= |gs|
  {
    hide Targets, JobsToks;
    if gs != [] {
      var here := Targets(JobsToks(v, gs[|gs| - 1].jobs));
      ListedPerGroup(v, gs[..|gs| - 1]);
      assert here[0] in Dedup(here);
    }
  }
}
