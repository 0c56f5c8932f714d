/** In which order a group's labels come, and which operands bring them. */
module Listing {
  import opened Base
  import opened Isa
  import opened Program
  import opened View
  import opened Labels
  import opened Pages
  import opened PageLaws
  import Packing

  // ---------- references ----------

  /** A line names the label as an `@` operand; the operands of `load_pdi` and `preempt` name pages, not labels. */
  ghost predicate Mentions(t: Token, l: Name) {
    || (t.Isa? && t.op !in {LoadPdi, Preempt} && Ref(l) in t.args)
    || (t.UcDmaBd? && Ref(l) in t.bd)
    || (t.Long? && t.val == Ref(l))
  }

  lemma {:induction false} NamedAre(args: seq<Arg>, pads: set<Name>, l: Name)
    ensures l in Named(args, pads) <==> Ref(l) in args && l !in pads
  {
    if args != [] {
      NamedAre(args[1..], pads, l);
      assert args == [args[0]] + args[1..];
    }
  }

  lemma RefsOfLine(t: Token, pads: set<Name>, l: Name)
    ensures l in Refs(t, pads) <==> l !in pads && Mentions(t, l)
  {
    NamedAre(ArgsOf(t), pads, l);
  }

  /** The labels the lines refer to: those some line names, scratchpads excepted. */
  lemma {:induction false} RefsAre(toks: seq<Token>, pads: set<Name>, l: Name)
    ensures l in RefsIn(toks, pads) <==> l !in pads && exists t :: t in toks && Mentions(t, l)
  {
    hide Mentions, Refs;
    if toks != [] {
      var t, rest := toks[0], toks[1..];
      RefsAre(rest, pads, l);
      RefsOfLine(t, pads, l);
      assert forall x :: x in toks <==> x == t || x in rest;
    }
  }

  // ---------- order ----------

  /** The references depth first: each label, the rest of its table, whatever its own data refers to, and then the
      next reference; labels come as often as they are met. */
  ghost function Listing(g: LabelGraph, rank: map<Name, nat>, top: nat, refs: seq<Name>, bound: nat): seq<Name>
    requires Ranked(g, rank, top) && Below(g, rank, refs, bound)
    decreases bound, |refs|
  {
    if refs == [] then [] else
    var r := refs[0];
    var table := if r in g.dependents then g.dependents[r] else [];
    var own := if r in g.toks then Listing(g, rank, top, RefsIn(g.toks[r], g.pads), rank[r]) else [];
    ([r] + table + own) + Listing(g, rank, top, refs[1..], bound)
  }

  /** What one reference brings. */
  ghost function Brought(g: LabelGraph, rank: map<Name, nat>, top: nat, r: Name): seq<Name>
    requires Ranked(g, rank, top)
  {
    [r] + (if r in g.dependents then g.dependents[r] else [])
    + (if r in g.toks then Listing(g, rank, top, RefsIn(g.toks[r], g.pads), rank[r]) else [])
  }

  lemma ListingStep(g: LabelGraph, rank: map<Name, nat>, top: nat, refs: seq<Name>, bound: nat)
    requires Ranked(g, rank, top) && Below(g, rank, refs, bound) && refs != []
    ensures Below(g, rank, refs[1..], bound)
    ensures Listing(g, rank, top, refs, bound) ==
      Brought(g, rank, top, refs[0]) + Listing(g, rank, top, refs[1..], bound)
  {
    hide RefsIn;
  }

  lemma BelowAppends(g: LabelGraph, rank: map<Name, nat>, a: seq<Name>, b: seq<Name>, bound: nat)
    requires Below(g, rank, a, bound) && Below(g, rank, b, bound)
    ensures Below(g, rank, a + b, bound)
  {}

  lemma {:induction false} ListingAppends(g: LabelGraph, rank: map<Name, nat>, top: nat, a: seq<Name>, b: seq<Name>,
                                          bound: nat)
    requires Ranked(g, rank, top) && Below(g, rank, a, bound) && Below(g, rank, b, bound)
    requires Below(g, rank, a + b, bound)
    ensures Listing(g, rank, top, a + b, bound) == Listing(g, rank, top, a, bound) + Listing(g, rank, top, b, bound)
    decreases |a|
  {
    hide RefsIn, Ranked, Below, Brought;
    if a == [] {
      assert a + b == b;
      NothingListed(g, rank, top, a, bound);
    } else {
      hide Listing;
      assert (a + b)[1..] == a[1..] + b && (a + b)[0] == a[0];
      ListingStep(g, rank, top, a, bound);
      ListingStep(g, rank, top, a + b, bound);
      ListingAppends(g, rank, top, a[1..], b, bound);
      Assoc(Brought(g, rank, top, a[0]), Listing(g, rank, top, a[1..], bound), Listing(g, rank, top, b, bound));
    }
  }

  lemma NothingListed(g: LabelGraph, rank: map<Name, nat>, top: nat, refs: seq<Name>, bound: nat)
    requires Ranked(g, rank, top) && Below(g, rank, refs, bound) && refs == []
    ensures Listing(g, rank, top, refs, bound) == []
  {}

  lemma BelowOwn(g: LabelGraph, rank: map<Name, nat>, top: nat, r: Name)
    requires Ranked(g, rank, top) && r in g.toks
    ensures r in rank && Below(g, rank, RefsIn(g.toks[r], g.pads), rank[r])
  {
    hide RefsIn;
  }

  lemma DedupMore(acc: seq<Name>, here: seq<Name>, rest: seq<Name>)
    ensures Dedup(Dedup(acc + here) + rest) == Dedup(acc + (here + rest))
    ensures Dedup(Dedup(acc + Dedup(here)) + rest) == Dedup(acc + (here + rest))
  {
    hide Dedup;
    Packing.DedupChain(acc, here, rest);
    Packing.DedupPlain(acc, here, rest);
  }

  lemma {:induction false} FromRefsLists(g: LabelGraph, rank: map<Name, nat>, top: nat, refs: seq<Name>,
                                         acc: seq<Name>, bound: nat)
    requires Ranked(g, rank, top) && Below(g, rank, refs, bound) && NoDup(acc)
    ensures var r := FromRefs(g, rank, top, refs, acc, bound);
      r.Ok? ==> r.value == Dedup(acc + Listing(g, rank, top, refs, bound))
    decreases bound, 0, |refs|
  {
    hide Dedup, RefsIn, Ranked, NoDup;
    if refs == [] {
      Nothing(acc);
    } else if refs[0] in g.toks {
      var r := refs[0];
      BelowOwn(g, rank, top, r);
      var with := [r] + if r in g.dependents then g.dependents[r] else [];
      var own := Listing(g, rank, top, RefsIn(g.toks[r], g.pads), rank[r]);
      FromLinesLists(g, rank, top, g.toks[r], Dedup(acc + with), rank[r]);
      DedupMore(acc, with, own);
      var mid := FromLines(g, rank, top, g.toks[r], Dedup(acc + with), rank[r]);
      if mid.Ok? {
        FromRefsLists(g, rank, top, refs[1..], mid.value, bound);
        DedupMore(acc, with + own, Listing(g, rank, top, refs[1..], bound));
      }
    }
  }

  lemma Nothing(acc: seq<Name>)
    requires NoDup(acc)
    ensures acc + [] == acc && Dedup(acc) == acc
  {
    DedupLength(acc);
  }

  /** The labels collected for some lines are those listed depth first, each where it is met first. */
  lemma {:induction false} FromLinesLists(g: LabelGraph, rank: map<Name, nat>, top: nat, toks: seq<Token>,
                                          acc: seq<Name>, bound: nat)
    requires Ranked(g, rank, top) && Below(g, rank, RefsIn(toks, g.pads), bound) && NoDup(acc)
    ensures var r := FromLines(g, rank, top, toks, acc, bound);
      r.Ok? ==> r.value == Dedup(acc + Listing(g, rank, top, RefsIn(toks, g.pads), bound))
    decreases bound, 1, |toks|
  {
    hide Dedup, Ranked, NoDup, Refs;
    if toks == [] {
      Nothing(acc);
    } else {
      var a, b := Refs(toks[0], g.pads), RefsIn(toks[1..], g.pads);
      NoneTwice();
      FromRefsLists(g, rank, top, a, [], bound);
      assert [] + Listing(g, rank, top, a, bound) == Listing(g, rank, top, a, bound);
      var sub := FromRefs(g, rank, top, a, [], bound);
      if sub.Ok? {
        FromLinesLists(g, rank, top, toks[1..], Dedup(acc + sub.value), bound);
        BelowAppends(g, rank, a, b, bound);
        ListingAppends(g, rank, top, a, b, bound);
        DedupMore(acc, Listing(g, rank, top, a, bound), Listing(g, rank, top, b, bound));
      }
    }
  }

  lemma NoneTwice()
    ensures NoDup<Name>([])
  {}

  /** So are the labels of every group the pager forms. */
  lemma GroupLists(v: View, ranks: Ranks, j: JobId)
    requires Ready(v, ranks) && j in v.s.jobs
    ensures var g := GroupOf(v, ranks, j);
      g.Ok? ==>
        var refs := RefsIn(JobsToks(v, g.value.jobs), v.pads);
        && Ranked(LabelsOf(v), ranks.labels, ranks.top) && Below(LabelsOf(v), ranks.labels, refs, ranks.top)
        && g.value.labels == Dedup(Listing(LabelsOf(v), ranks.labels, ranks.top, refs, ranks.top))
  {
    hide View.Valid, Jobs.Graph.Valid, Jobs.Extract, FromLines, LabelsOf, GraphOf, Below, Ready, Ranked, JobsToks,
      ExternalsFrom, JobsSize, LabelsSize, DataSize, RefsIn, Dedup, NoDup;
    ReadyParts(v, ranks);
    var g := GroupOf(v, ranks, j);
    if g.Ok? {
      var toks := JobsToks(v, g.value.jobs);
      GraphFields(v);
      AllBelow(v, ranks, RefsIn(toks, v.pads));
      NoneTwice();
      FromLinesLists(LabelsOf(v), ranks.labels, ranks.top, toks, [], ranks.top);
      var all := Listing(LabelsOf(v), ranks.labels, ranks.top, RefsIn(toks, v.pads), ranks.top);
      assert [] + all == all;
    }
  }

  // ---------- the sort ----------

  /** `b` stands behind `a`. */
  ghost predicate Behind(labels: seq<Name>, a: Name, b: Name) {
    exists i, k :: 0 <= i < k < |labels| && labels[i] == a && labels[k] == b
  }

  /** All are of alignment `a` and come in the order of the list. */
  ghost predicate InOrder(v: View, labels: seq<Name>, part: seq<Name>, a: nat) {
    && (forall i :: 0 <= i < |part| ==> v.AlignOf(part[i]) == Some(a))
    && forall i, k :: 0 <= i < k < |part| ==> Behind(labels, part[i], part[k])
  }

  lemma BehindMore(labels: seq<Name>, a: Name, b: Name)
    requires labels != [] && (Behind(labels[1..], a, b) || (labels[0] == a && b in labels[1..]))
    ensures Behind(labels, a, b)
  {
    var rest := labels[1..];
    if Behind(rest, a, b) {
      var i, k :| 0 <= i < k < |rest| && rest[i] == a && rest[k] == b;
      assert labels[i + 1] == a && labels[k + 1] == b;
    } else {
      var k :| 0 <= k < |rest| && rest[k] == b;
      assert labels[k + 1] == b;
    }
  }

  lemma {:induction false} WithAlignOrder(v: View, labels: seq<Name>, a: nat)
    ensures InOrder(v, labels, WithAlign(v, labels, a), a)
    ensures forall l :: l in WithAlign(v, labels, a) <==> l in labels && v.AlignOf(l) == Some(a)
    decreases |labels|
  {
    hide View.AlignOf, Behind;
    if labels != [] {
      WithAlignOrder(v, labels[1..], a);
      assert labels == [labels[0]] + labels[1..];
      var w, more := WithAlign(v, labels, a), WithAlign(v, labels[1..], a);
      forall i, k | 0 <= i < k < |w| ensures Behind(labels, w[i], w[k]) {
        var d := |w| - |more|;
        assert w[k] == more[k - d];
        if d == 0 {
          assert w[i] == more[i];
        } else if i > 0 {
          assert w[i] == more[i - 1];
        }
        BehindMore(labels, w[i], w[k]);
      }
    }
  }

  /** The alignment sort: first the labels of 16 bytes, then those of 4, both in the order they had. */
  lemma SortedOrder(v: View, labels: seq<Name>) returns (n: nat)
    ensures var s := Sorted(v, labels);
      n <= |s| && InOrder(v, labels, s[..n], 16) && InOrder(v, labels, s[n..], 4)
  {
    hide WithAlign, InOrder;
    WithAlignOrder(v, labels, 16);
    WithAlignOrder(v, labels, 4);
    var a, b := WithAlign(v, labels, 16), WithAlign(v, labels, 4);
    n := |a|;
    assert (a + b)[..n] == a && (a + b)[n..] == b;
  }
}
