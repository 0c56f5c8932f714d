/** Which labels must travel with a token: the recursion of `extractlabels`. */
module Labels {
  import opened Base
  import opened Isa
  import opened Program
  import opened View

  /** Label lines, dependent labels and scratchpad names. */
  datatype LabelGraph = LabelGraph(toks: map<Name, seq<Token>>, dependents: map<Name, seq<Name>>, pads: set<Name>)

  function LabelsOf(v: View): (g: LabelGraph)
    ensures g.toks.Keys == v.s.labels.Keys
  {
    LabelGraph(map l | l in v.s.labels :: v.LabelToks(l), v.dependents, v.pads)
  }

  function ArgsOf(t: Token): seq<Arg> {
    match t
    case Isa(_, args) => args
    case UcDmaBd(bd) => bd
    case Long(val) => [val]
    case _ => []
  }

  /** Instructions whose `@` operand names another page. */
  predicate OutOfOrder(t: Token) {
    t.Isa? && t.op in {LoadPdi, Preempt}
  }

  function Named(args: seq<Arg>, pads: set<Name>): seq<Name> {
    if args == [] then [] else
      (if args[0].Ref? && args[0].name !in pads then [args[0].name] else []) + Named(args[1..], pads)
  }

  /** Data labels a token refers to, in operand order. */
  function Refs(t: Token, pads: set<Name>): seq<Name> {
    if OutOfOrder(t) then [] else Named(ArgsOf(t), pads)
  }

  /** Page labels a token refers to (`extract_externallabels`). */
  function Externals(t: Token): seq<Name> {
    if OutOfOrder(t) then Dedup(Named(ArgsOf(t), {})) else []
  }

  function RefsIn(toks: seq<Token>, pads: set<Name>): seq<Name> {
    if toks == [] then [] else Refs(toks[0], pads) + RefsIn(toks[1..], pads)
  }

  lemma {:induction false} RefsInMember(toks: seq<Token>, t: Token, pads: set<Name>)
    requires t in toks
    ensures forall l :: l in Refs(t, pads) ==> l in RefsIn(toks, pads)
  {
    if toks[0] != t {
      RefsInMember(toks[1..], t, pads);
    }
  }

  // ---------- reference definitions ----------

  ghost predicate RefPath(g: LabelGraph, p: seq<Name>, refs: seq<Name>, m: Name) {
    && p != [] && p[0] in refs && p[|p| - 1] == m
    && forall i :: 0 <= i < |p| - 1 ==> p[i] in g.toks && p[i + 1] in RefsIn(g.toks[p[i]], g.pads)
  }

  /** `m` is referred to, directly or through the data of labels that are. */
  ghost predicate Reached(g: LabelGraph, refs: seq<Name>, m: Name) {
    exists p :: RefPath(g, p, refs, m)
  }

  /** `l` comes along with label `m`. */
  ghost predicate Pulled(g: LabelGraph, m: Name, l: Name) {
    l == m || (m in g.dependents && l in g.dependents[m])
  }

  ghost predicate Wanted(g: LabelGraph, refs: seq<Name>, l: Name) {
    exists m :: Reached(g, refs, m) && Pulled(g, m, l)
  }

  lemma ReachedCases(g: LabelGraph, refs: seq<Name>, m: Name)
    ensures Reached(g, refs, m) <==>
      exists r :: r in refs && (r == m || (r in g.toks && Reached(g, RefsIn(g.toks[r], g.pads), m)))
  {
    if Reached(g, refs, m) {
      var p :| RefPath(g, p, refs, m);
      if |p| > 1 {
        var q := p[1..];
        assert p[0 + 1] in RefsIn(g.toks[p[0]], g.pads);
        assert RefPath(g, q, RefsIn(g.toks[p[0]], g.pads), m);
      }
    }
    if r :| r in refs && (r == m || (r in g.toks && Reached(g, RefsIn(g.toks[r], g.pads), m))) {
      if r == m {
        assert RefPath(g, [m], refs, m);
      } else {
        var q :| RefPath(g, q, RefsIn(g.toks[r], g.pads), m);
        assert RefPath(g, [r] + q, refs, m);
      }
    }
  }

  lemma ReachedOne(g: LabelGraph, r: Name, m: Name)
    ensures Reached(g, [r], m) <==> m == r || (r in g.toks && Reached(g, RefsIn(g.toks[r], g.pads), m))
  {
    ReachedCases(g, [r], m);
    assert r in [r];
  }

  lemma ReachedSplit(g: LabelGraph, a: seq<Name>, b: seq<Name>, m: Name)
    ensures Reached(g, a + b, m) <==> Reached(g, a, m) || Reached(g, b, m)
  {
    if p :| RefPath(g, p, a + b, m) {
      assert RefPath(g, p, a, m) || RefPath(g, p, b, m);
    }
    if p :| RefPath(g, p, a, m) {
      assert RefPath(g, p, a + b, m);
    }
    if p :| RefPath(g, p, b, m) {
      assert RefPath(g, p, a + b, m);
    }
  }

  // ---------- the recursion ----------

  /** No label refers to itself through its data, as witnessed by a ranking below `top`. */
  ghost predicate Ranked(g: LabelGraph, rank: map<Name, nat>, top: nat) {
    && (forall l :: l in g.toks ==> l in rank && rank[l] < top)
    && forall l, r :: l in g.toks && r in RefsIn(g.toks[l], g.pads) && r in g.toks ==> rank[r] < rank[l]
  }

  ghost predicate Below(g: LabelGraph, rank: map<Name, nat>, refs: seq<Name>, bound: nat) {
    forall r :: r in refs && r in g.toks ==> r in rank && rank[r] < bound
  }

  function With(g: LabelGraph, l: Name): seq<Name> {
    [l] + if l in g.dependents then g.dependents[l] else []
  }

  /** The operand loop of `extractlabels`. */
  function FromRefs(g: LabelGraph, ghost rank: map<Name, nat>, ghost top: nat, refs: seq<Name>, acc: seq<Name>,
                    ghost bound: nat): Result<seq<Name>>
    requires Ranked(g, rank, top) && Below(g, rank, refs, bound)
    decreases bound, 0, |refs|
  {
    if refs == [] then Ok(acc) else
    if refs[0] !in g.toks then Err(LabelNotFound) else
    var acc' :- FromLines(g, rank, top, g.toks[refs[0]], Dedup(acc + With(g, refs[0])), rank[refs[0]]);
    FromRefs(g, rank, top, refs[1..], acc', bound)
  }

  /** Its inner loop over a label's own lines, and the pager's loop over a job's tokens. */
  function FromLines(g: LabelGraph, ghost rank: map<Name, nat>, ghost top: nat, toks: seq<Token>, acc: seq<Name>,
                     ghost bound: nat): Result<seq<Name>>
    requires Ranked(g, rank, top) && Below(g, rank, RefsIn(toks, g.pads), bound)
    decreases bound, 1, |toks|
  {
    if toks == [] then Ok(acc) else
    var sub :- FromRefs(g, rank, top, Refs(toks[0], g.pads), [], bound);
    FromLines(g, rank, top, toks[1..], Dedup(acc + sub), bound)
  }

  /** What the recursion promises for a list of references. */
  ghost predicate Collected(g: LabelGraph, refs: seq<Name>, acc: seq<Name>, r: Result<seq<Name>>) {
    if r.Ok? then
      && (NoDup(acc) ==> NoDup(r.value))
      && (forall l :: l in r.value <==> l in acc || Wanted(g, refs, l))
      && (forall m :: Reached(g, refs, m) ==> m in g.toks)
    else r == Err(LabelNotFound) && exists m :: Reached(g, refs, m) && m !in g.toks
  }

  lemma CollectedSplit(g: LabelGraph, a: seq<Name>, b: seq<Name>, acc: seq<Name>, mid: seq<Name>, r: Result<seq<Name>>)
    requires NoDup(acc) ==> NoDup(mid)
    requires forall l :: l in mid <==> l in acc || Wanted(g, a, l)
    requires forall m :: Reached(g, a, m) ==> m in g.toks
    requires Collected(g, b, mid, r)
    ensures Collected(g, a + b, acc, r)
  {
    forall m ensures Reached(g, a + b, m) <==> Reached(g, a, m) || Reached(g, b, m) {
      ReachedSplit(g, a, b, m);
    }
    hide Reached, Pulled;
    if r.Ok? {
      forall l ensures Wanted(g, a + b, l) <==> Wanted(g, a, l) || Wanted(g, b, l) {}
    }
  }

  lemma WantedOne(g: LabelGraph, r: Name, l: Name)
    requires r in g.toks
    ensures Wanted(g, [r], l) <==> l in With(g, r) || Wanted(g, RefsIn(g.toks[r], g.pads), l)
  {
    forall m ensures Reached(g, [r], m) <==> m == r || Reached(g, RefsIn(g.toks[r], g.pads), m) {
      ReachedOne(g, r, m);
    }
    hide Reached;
    if Wanted(g, [r], l) {
      var m :| Reached(g, [r], m) && Pulled(g, m, l);
      assert m == r ==> l in With(g, r);
    }
    if l in With(g, r) {
      assert Reached(g, [r], r) && Pulled(g, r, l);
    }
    if Wanted(g, RefsIn(g.toks[r], g.pads), l) {
      var m :| Reached(g, RefsIn(g.toks[r], g.pads), m) && Pulled(g, m, l);
      assert Reached(g, [r], m);
    }
  }

  lemma {:induction false} FromRefsCollects(g: LabelGraph, rank: map<Name, nat>, top: nat, refs: seq<Name>,
                                            acc: seq<Name>, bound: nat)
    requires Ranked(g, rank, top) && Below(g, rank, refs, bound)
    ensures Collected(g, refs, acc, FromRefs(g, rank, top, refs, acc, bound))
    decreases bound, 0, |refs|
  {
    if refs == [] {
      forall m ensures !Reached(g, refs, m) { ReachedCases(g, refs, m); }
    } else {
      var r, rest := refs[0], refs[1..];
      assert refs == [r] + rest;
      forall m ensures Reached(g, [r], m) <==> m == r || (r in g.toks && Reached(g, RefsIn(g.toks[r], g.pads), m)) {
        ReachedOne(g, r, m);
      }
      forall m ensures Reached(g, refs, m) <==> Reached(g, [r], m) || Reached(g, rest, m) {
        ReachedSplit(g, [r], rest, m);
      }
      if r !in g.toks {
        assert Reached(g, refs, r);
      } else {
        var base := Dedup(acc + With(g, r));
        FromLinesCollects(g, rank, top, g.toks[r], base, rank[r]);
        var mid := FromLines(g, rank, top, g.toks[r], base, rank[r]);
        if mid.Err? {
          var m :| Reached(g, RefsIn(g.toks[r], g.pads), m) && m !in g.toks;
          assert Reached(g, refs, m);
        } else {
          forall l {
            WantedOne(g, r, l);
          }
          FromRefsCollects(g, rank, top, rest, mid.value, bound);
          hide Wanted, Reached, With;
          CollectedSplit(g, [r], rest, acc, mid.value, FromRefs(g, rank, top, rest, mid.value, bound));
        }
      }
    }
  }

  /** `extractlabels` returns, without repetition, exactly the labels reachable through references
      together with their dependents; it fails exactly when one of them is not defined. */
  lemma {:induction false} FromLinesCollects(g: LabelGraph, rank: map<Name, nat>, top: nat, toks: seq<Token>,
                                             acc: seq<Name>, bound: nat)
    requires Ranked(g, rank, top) && Below(g, rank, RefsIn(toks, g.pads), bound)
    ensures Collected(g, RefsIn(toks, g.pads), acc, FromLines(g, rank, top, toks, acc, bound))
    decreases bound, 1, |toks|
  {
    if toks == [] {
      forall m ensures !Reached(g, [], m) { ReachedCases(g, [], m); }
    } else {
      var a, b := Refs(toks[0], g.pads), RefsIn(toks[1..], g.pads);
      FromRefsCollects(g, rank, top, a, [], bound);
      var sub := FromRefs(g, rank, top, a, [], bound);
      forall m ensures Reached(g, a + b, m) <==> Reached(g, a, m) || Reached(g, b, m) {
        ReachedSplit(g, a, b, m);
      }
      if sub.Ok? {
        var mid := Dedup(acc + sub.value);
        FromLinesCollects(g, rank, top, toks[1..], mid, bound);
        hide Wanted, Reached;
        CollectedSplit(g, a, b, acc, mid, FromLines(g, rank, top, toks[1..], mid, bound));
      }
    }
  }
}
