/** Which descriptor tables the layout pass records, and which well-formed programs it builds. */
module Applied {
  import opened Base
  import opened Isa
  import opened Program
  import opened Structure
  import opened View

  /** The table `process` fills while it meets `apply_offset_57`. */
  function AppliesOf(applies: map<Name, nat>, toks: seq<Token>): map<Name, nat>
    decreases |toks|
  {
    if toks == [] then applies else AppliesOf(ApplyOf(applies, toks[0]), toks[1..])
  }

  function ApplyOf(applies: map<Name, nat>, t: Token): map<Name, nat> {
    if t.Isa? && t.op.ApplyOffset57? && |t.args| >= 2 && t.args[0].Ref? && t.args[1].Num? then
      applies[t.args[0].name := t.args[1].n]
    else applies
  }

  lemma LeaveApplies(s: Scan, op: Mnemonic, args: seq<Arg>)
    ensures var r := Leave(s, op, args, true); r.Ok? ==> r.value.applies == ApplyOf(s.applies, Token.Isa(op, args))
  {}

  lemma StepApplies(s: Scan, t: Token)
    ensures var r := Step(s, t, true); r.Ok? ==> r.value.applies == ApplyOf(s.applies, t)
  {
    hide OpSize, Enter, Leave;
    if t.Isa? {
      var s1 := Enter(s, t.op, t.args);
      EnterApplies(s, t.op, t.args);
      if s1.Ok? {
        LeaveApplies(s1.value.(pos := s1.value.pos + OpSize(t.op)), t.op, t.args);
      }
    }
  }

  lemma {:induction false} ScanApplies(s: Scan, toks: seq<Token>)
    ensures var r := ScanFrom(s, toks, true); r.Ok? ==> r.value.applies == AppliesOf(s.applies, toks)
    decreases |toks|
  {
    hide Step;
    if toks != [] {
      StepApplies(s, toks[0]);
      var r := Step(s, toks[0], true);
      if r.Ok? {
        ScanApplies(r.value, toks[1..]);
      }
    }
  }

  /** The line applies an offset to `n` descriptors from the label on. */
  ghost predicate Applies(t: Token, l: Name, n: nat) {
    t.Isa? && t.op.ApplyOffset57? && |t.args| >= 2 && t.args[0] == Ref(l) && t.args[1].Num? && t.args[1].n == n
  }

  ghost predicate Unapplied(toks: seq<Token>, l: Name) {
    forall k, n: nat :: 0 <= k < |toks| ==> !Applies(toks[k], l, n)
  }

  /** The last `apply_offset_57` that names the label announces `n` descriptors. */
  ghost predicate LastApply(toks: seq<Token>, l: Name, n: nat) {
    exists k :: 0 <= k < |toks| && Applies(toks[k], l, n) && Unapplied(toks[k + 1..], l)
  }

  lemma UnappliedSplit(toks: seq<Token>, l: Name)
    requires toks != []
    ensures Unapplied(toks, l) <==> Unapplied(toks[1..], l) && forall n: nat :: !Applies(toks[0], l, n)
  {
    hide Applies;
    assert toks == [toks[0]] + toks[1..];
  }

  lemma LastSplit(toks: seq<Token>, l: Name, n: nat)
    requires toks != []
    ensures LastApply(toks, l, n) <==>
      LastApply(toks[1..], l, n) || (Applies(toks[0], l, n) && Unapplied(toks[1..], l))
  {
    hide Applies, Unapplied;
    var rest := toks[1..];
    if LastApply(toks, l, n) {
      var k :| 0 <= k < |toks| && Applies(toks[k], l, n) && Unapplied(toks[k + 1..], l);
      if k > 0 {
        assert rest[k - 1] == toks[k] && rest[k - 1 + 1..] == toks[k + 1..];
      }
    }
    if LastApply(rest, l, n) {
      var k :| 0 <= k < |rest| && Applies(rest[k], l, n) && Unapplied(rest[k + 1..], l);
      assert toks[k + 1] == rest[k] && toks[k + 1 + 1..] == rest[k + 1..];
    }
  }

  lemma {:induction false} AppliesLast(applies: map<Name, nat>, toks: seq<Token>, l: Name, n: nat)
    ensures var m := AppliesOf(applies, toks);
      l in m && m[l] == n <==> LastApply(toks, l, n) || (l in applies && applies[l] == n && Unapplied(toks, l))
    decreases |toks|
  {
    hide LastApply, Unapplied;
    if toks == [] {
      NeverApplied(l, n);
    } else {
      LastSplit(toks, l, n);
      UnappliedSplit(toks, l);
      AppliesLast(ApplyOf(applies, toks[0]), toks[1..], l, n);
      OneApplied(applies, toks[0], l, n);
    }
  }

  lemma NeverApplied(l: Name, n: nat)
    ensures Unapplied([], l) && !LastApply([], l, n)
  {}

  lemma OneApplied(applies: map<Name, nat>, t: Token, l: Name, n: nat)
    ensures var m := ApplyOf(applies, t);
      l in m && m[l] == n <==>
        Applies(t, l, n) || (l in applies && applies[l] == n && forall k: nat :: !Applies(t, l, k))
  {
    if t.Isa? && t.op.ApplyOffset57? && |t.args| >= 2 && t.args[0] == Ref(l) && t.args[1].Num? {
      assert Applies(t, l, t.args[1].n);
    }
  }

  // ---------- what is built ----------

  /** `n` labels stand in the list from the label on. */
  ghost predicate Follow(list: seq<Name>, l: Name, n: nat) {
    exists i :: 0 <= i < |list| && list[i] == l && i + n <= |list|
  }

  /** Every announced table is there. */
  ghost predicate TablesThere(toks: seq<Token>, list: seq<Name>) {
    forall l: Name, n: nat :: LastApply(toks, l, n) && n != 1 ==> Follow(list, l, n)
  }

  /** The tables are those of the labels whose last announcement is of two or more, and hold the labels that stand
      from theirs on. */
  ghost predicate TablesAre(toks: seq<Token>, list: seq<Name>, tables: map<Name, seq<Name>>) {
    && (forall l :: l in tables ==> exists n: nat :: n > 1 && LastApply(toks, l, n))
    && forall l: Name, n: nat, i :: LastApply(toks, l, n) && n > 1 && 0 <= i < |list| && list[i] == l ==>
         l in tables && i + n <= |list| && tables[l] == list[i..i + n]
  }

  lemma FollowFits(list: seq<Name>, l: Name, n: nat)
    requires NoDup(list)
    ensures Follow(list, l, n) <==> TableFits(list, l, n)
  {
    if Follow(list, l, n) {
      var i :| 0 <= i < |list| && list[i] == l && i + n <= |list|;
      assert list[IndexOf(l, list)] == list[i];
    }
    if TableFits(list, l, n) {
      assert list[IndexOf(l, list)] == l;
    }
  }

  lemma DependentsAre(toks: seq<Token>, list: seq<Name>)
    requires NoDup(list)
    ensures var r := Dependents(list, AppliesOf(map[], toks));
      (r.Ok? <==> TablesThere(toks, list)) && (r.Ok? ==> TablesAre(toks, list, r.value))
  {
    hide AppliesOf, LastApply, Follow, TableFits, IndexOf;
    var applies := AppliesOf(map[], toks);
    forall l: Name, n: nat ensures LastApply(toks, l, n) <==> l in applies && applies[l] == n {
      AppliesLast(map[], toks, l, n);
    }
    forall l: Name, n: nat ensures Follow(list, l, n) <==> TableFits(list, l, n) {
      FollowFits(list, l, n);
    }
    var r := Dependents(list, applies);
    if r.Ok? {
      forall l | l in r.value ensures exists n: nat :: n > 1 && LastApply(toks, l, n) {
        assert LastApply(toks, l, applies[l]);
      }
      forall l: Name, n: nat, i | LastApply(toks, l, n) && n > 1 && 0 <= i < |list| && list[i] == l
        ensures l in r.value && i + n <= |list| && r.value[l] == list[i..i + n]
      {
        TableIs(list, l, n, i);
      }
    }
  }

  lemma TableIs(list: seq<Name>, l: Name, n: nat, i: nat)
    requires NoDup(list) && TableFits(list, l, n) && i < |list| && list[i] == l
    ensures i == IndexOf(l, list) && i + n <= |list|
  {
    assert list[IndexOf(l, list)] == list[i];
  }

  /** A well-formed program is built if and only if its jobs have distinct names, its labels have distinct names, and
      every table its last `apply_offset_57` announces is there; and then the tables are these. */
  lemma BuildAccepts(p: Source, pads: set<Name>)
    requires p.Valid()
    ensures var r, list := Build(p.Toks(), pads), LabelNames(p.blocks);
      && (r.Ok? <==> NoDup(SegIds(p.segs, 0)) && NoDup(list) && TablesThere(p.Toks(), list))
      && (r.Ok? ==> TablesAre(p.Toks(), list, r.value.dependents))
  {
    hide ScanFrom, SegIds, LabelNames, Source.Toks, DataInv, Placed, Dependents, Source.Valid, AppliesOf, TablesThere,
      TablesAre, NoDup;
    LayoutPass(p, true);
    ScanApplies(START, p.Toks());
    var r, list := ScanFrom(START, p.Toks(), true), LabelNames(p.blocks);
    if r.Ok? {
      RecordedOnce(p.Toks(), r.value, SegIds(p.segs, 0));
      DependentsAre(p.Toks(), list);
    }
  }

  lemma RecordedOnce(toks: seq<Token>, s: Scan, ids: seq<JobId>)
    requires DataInv(toks, s) && s.jobids == ids + [EofJob]
    ensures NoDup(ids) && NoDup(s.labelList)
  {
    hide JobOk, LabelOk, BarriersMatch, EopsOk, EofOk;
    forall i, k | 0 <= i < k < |ids| ensures ids[i] != ids[k] {
      assert s.jobids[i] == ids[i] && s.jobids[k] == ids[k];
    }
  }
}
