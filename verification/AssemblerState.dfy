/** The state object that walks the tokens (`assembler_state`), proved against `Program.ScanFrom`. */
module AssemblerState {
  import opened Base
  import opened Isa
  import opened Program

  /** Labels of a table that fits the label list. */
  function TableOf(list: seq<Name>, l: Name, n: nat): seq<Name> {
    if TableFits(list, l, n) then list[IndexOf(l, list)..IndexOf(l, list) + n] else []
  }

  /** The tables outside `todo` fit the label list and are recorded. */
  ghost predicate Resolved(list: seq<Name>, applies: map<Name, nat>, todo: set<Name>, found: map<Name, seq<Name>>) {
    && (forall l :: l in applies && l !in todo ==> applies[l] == 1 || TableFits(list, l, applies[l]))
    && found == map l | l in applies && l !in todo && applies[l] > 1 :: TableOf(list, l, applies[l])
  }

  lemma NothingResolved(list: seq<Name>, applies: map<Name, nat>)
    ensures Resolved(list, applies, applies.Keys, map[])
  {}

  lemma TableFails(list: seq<Name>, applies: map<Name, nat>, l: Name)
    requires l in applies && applies[l] != 1 && !TableFits(list, l, applies[l])
    ensures Dependents(list, applies) == Err(LabelNotFound)
  {
    hide TableFits, IndexOf;
  }

  lemma TableTurn(list: seq<Name>, applies: map<Name, nat>, todo: set<Name>, found: map<Name, seq<Name>>, l: Name)
    requires Resolved(list, applies, todo, found) && l in todo && l in applies
    requires applies[l] == 1 || TableFits(list, l, applies[l])
    ensures Resolved(list, applies, todo - {l}, if applies[l] > 1 then found[l := TableOf(list, l, applies[l])]
      else found)
  {
    hide TableFits, TableOf;
    var next := if applies[l] > 1 then found[l := TableOf(list, l, applies[l])] else found;
    assert next == map k | k in applies && k !in todo - {l} && applies[k] > 1 :: TableOf(list, k, applies[k]);
  }

  lemma AllResolved(list: seq<Name>, applies: map<Name, nat>, found: map<Name, seq<Name>>)
    requires Resolved(list, applies, {}, found)
    ensures Dependents(list, applies) == Ok(found)
  {
    hide IndexOf, TableFits;
    var r := Dependents(list, applies);
    assert forall l :: l in applies && applies[l] > 1 ==> TableFits(list, l, applies[l]);
    assert r.Ok? && r.value == found;
  }

  /** The three stages of an instruction line, put together. */
  lemma Stages(start: Scan, inside: Scan, closed: Scan, op: Mnemonic, args: seq<Arg>, unique: bool)
    requires Enter(start, op, args) == Ok(inside)
    requires Leave(inside.(pos := inside.pos + OpSize(op)), op, args, unique) == Ok(closed)
    ensures StepIsa(start, op, args, unique) == Ok(Next(if op.Eof? then closed else Own(closed, OpSize(op))))
  {
    hide Enter, Leave, Own, OpSize, Next;
  }

  lemma EnterFails(start: Scan, op: Mnemonic, args: seq<Arg>, unique: bool, e: Error)
    requires Enter(start, op, args) == Err(e)
    ensures StepIsa(start, op, args, unique) == Err(e)
  {
    hide Enter, Leave, Own, OpSize, Next;
  }

  lemma LeaveFails(start: Scan, inside: Scan, op: Mnemonic, args: seq<Arg>, unique: bool, e: Error)
    requires Enter(start, op, args) == Ok(inside)
    requires Leave(inside.(pos := inside.pos + OpSize(op)), op, args, unique) == Err(e)
    ensures StepIsa(start, op, args, unique) == Err(e)
  {
    hide Enter, Leave, Own, OpSize, Next;
  }

  class State {
    var pos: nat
    var jobids: seq<JobId>
    var jobmap: map<JobId, JobRec>
    var labelmap: map<Name, LabelRec>
    var labellist: seq<Name>
    var barriermap: map<nat, seq<JobId>>
    var dependents: map<Name, seq<Name>>

    constructor ()
      ensures Clean()
    {
      pos, jobids, jobmap, labelmap, labellist, barriermap, dependents := 0, [], map[], map[], [], map[], map[];
    }

    predicate Clean()
      reads this
    {
      && pos == 0 && jobids == [] && jobmap == map[] && labelmap == map[] && labellist == []
      && barriermap == map[] && dependents == map[]
    }

    /** The fields together with the locals of `process`. */
    function Snapshot(index: nat, eopnum: nat, clabel: Option<Name>, cjob: Option<JobId>, applies: map<Name, nat>): Scan
      reads this
    {
      Scan(pos, index, eopnum, clabel, cjob, jobids, jobmap, labelmap, labellist, barriermap, applies)
    }

    function AddJob(j: JobId, index: nat, eopnum: nat): map<JobId, JobRec>
      reads this
    {
      jobmap[j := JobRec(pos, pos, index, index, eopnum, [], [])]
    }

    /** An instruction: what is recorded before its size is added to the position. */
    method Open(op: Mnemonic, args: seq<Arg>, index: nat, eopnum: nat, clabel: Option<Name>, cjob: Option<JobId>,
                ghost applies: map<Name, nat>)
      returns (e: Option<Error>, clabel': Option<Name>, cjob': Option<JobId>)
      modifies this
      ensures var r := Enter(old(Snapshot(index, eopnum, clabel, cjob, applies)), op, args);
        if e.None? then r == Ok(Snapshot(index, eopnum, clabel', cjob', applies)) else r == Err(e.value)
      ensures dependents == old(dependents)
    {
      clabel', cjob' := clabel, cjob;
      if op.StartJob? || op.StartJobDeferred? {
        if |args| == 0 || !args[0].Num? {
          return Some(BadOperand), clabel, cjob;
        }
        clabel' := None;
        var j := Job(args[0].n, args[0].form);
        cjob' := Some(j);
        if j in jobmap {
          return Some(DuplicateJob), clabel, cjob;
        }
        jobmap := AddJob(j, index, eopnum);
        jobids := jobids + [j];
      }
      if op.Eof? {
        jobmap := AddJob(EofJob, index, eopnum);
        jobids := jobids + [EofJob];
      }
      e := None;
    }

    method AwaitBarrier(lbid: nat, j: JobId)
      requires j in jobmap
      modifies `jobmap, `barriermap
      ensures jobmap == old(jobmap)[j := old(jobmap)[j].(barriers := old(jobmap)[j].barriers + [lbid])]
      ensures barriermap == Join(old(barriermap), lbid, j)
    {
      if lbid !in barriermap {
        barriermap := barriermap[lbid := []];
      }
      jobmap := jobmap[j := jobmap[j].(barriers := jobmap[j].barriers + [lbid])];
      barriermap := barriermap[lbid := barriermap[lbid] + [j]];
    }

    method EndOf(j: JobId, index: nat)
      requires j in jobmap
      modifies `jobmap
      ensures jobmap == old(jobmap)[j := old(jobmap)[j].(end := pos, last := index)]
    {
      jobmap := jobmap[j := jobmap[j].(end := pos)];
      jobmap := jobmap[j := jobmap[j].(last := index)];
    }

    /** What is recorded after it. */
    method Close(op: Mnemonic, args: seq<Arg>, unique: bool, index: nat, ghost eopnum: nat, ghost clabel: Option<Name>,
                 cjob: Option<JobId>, applies: map<Name, nat>)
      returns (e: Option<Error>, cjob': Option<JobId>, applies': map<Name, nat>)
      modifies this
      ensures var r := Leave(old(Snapshot(index, eopnum, clabel, cjob, applies)), op, args, unique);
        if e.None? then r == Ok(Snapshot(index, eopnum, clabel, cjob', applies')) else r == Err(e.value)
      ensures dependents == old(dependents)
    {
      e, cjob', applies' := None, cjob, applies;
      if op.Eof? {
        if EofJob !in jobmap {
          return Some(Crash), cjob, applies;
        }
        EndOf(EofJob, index);
        cjob' := None;
      }
      if op.LocalBarrier? {
        if |args| == 0 || !args[0].Bar? {
          return Some(BadOperand), cjob, applies;
        }
        if cjob.None? || cjob.value !in jobmap {
          return Some(Crash), cjob, applies;
        }
        AwaitBarrier(args[0].b, cjob.value);
      }
      if op.LaunchJob? {
        if |args| == 0 || !args[0].Num? {
          return Some(BadOperand), cjob, applies;
        }
        if cjob.None? || cjob.value !in jobmap {
          return Some(Crash), cjob, applies;
        }
        jobmap := jobmap[cjob.value := jobmap[cjob.value].(launches := jobmap[cjob.value].launches
          + [Job(args[0].n, args[0].form)])];
      }
      if op.EndJob? {
        if cjob.None? || cjob.value !in jobmap {
          return Some(Crash), cjob, applies;
        }
        EndOf(cjob.value, index);
        cjob' := None;
      }
      if op.ApplyOffset57? && unique {
        if |args| < 2 || !args[0].Ref? || !args[1].Num? {
          return Some(BadOperand), cjob, applies;
        }
        applies' := applies[args[0].name := args[1].n];
      }
    }

    /** The tail of the loop: a token after a label counts towards it. */
    method Count(t: Token, size: nat, clabel: Option<Name>, ghost index: nat, ghost eopnum: nat,
                 ghost cjob: Option<JobId>,
                 ghost applies: map<Name, nat>)
      modifies `labelmap
      ensures var s := old(Snapshot(index, eopnum, clabel, cjob, applies));
        Snapshot(index, eopnum, clabel, cjob, applies) ==
          if t.Align? || t.Eop? || (t.Isa? && t.op.Eof?) then s else Own(s, size)
      ensures labelmap ==
        if clabel.Some? && clabel.value in old(labelmap) && !t.Align? && !t.Eop? && !(t.Isa? && t.op.Eof?) then
          old(labelmap)[clabel.value :=
            LabelRec(old(labelmap)[clabel.value].pos, old(labelmap)[clabel.value].index,
                     old(labelmap)[clabel.value].count + 1, old(labelmap)[clabel.value].size + size)]
        else old(labelmap)
    {
      if clabel.Some? && clabel.value in labelmap && !t.Align? && !t.Eop? && !(t.Isa? && t.op.Eof?) {
        var l := clabel.value;
        labelmap := labelmap[l := labelmap[l].(count := labelmap[l].count + 1)];
        labelmap := labelmap[l := labelmap[l].(size := labelmap[l].size + size)];
      }
    }

    /** An instruction: opened, added to the position, closed, and counted for its label. */
    method Instruction(op: Mnemonic, args: seq<Arg>, unique: bool, index: nat, eopnum: nat, clabel: Option<Name>,
                       cjob: Option<JobId>, applies: map<Name, nat>)
      returns (e: Option<Error>, clabel': Option<Name>, cjob': Option<JobId>, applies': map<Name, nat>)
      modifies this
      ensures var r := StepIsa(old(Snapshot(index, eopnum, clabel, cjob, applies)), op, args, unique);
        if e.None? then r == Ok(Snapshot(index + 1, eopnum, clabel', cjob', applies')) else r == Err(e.value)
      ensures dependents == old(dependents)
    {
      hide OpSize, Enter, Leave, Own, StepIsa;
      applies' := applies;
      ghost var start := Snapshot(index, eopnum, clabel, cjob, applies);
      e, clabel', cjob' := Open(op, args, index, eopnum, clabel, cjob, applies);
      if e.Some? {
        EnterFails(start, op, args, unique, e.value);
        return;
      }
      ghost var inside := Snapshot(index, eopnum, clabel', cjob', applies);
      assert Enter(start, op, args) == Ok(inside);
      pos := pos + OpSize(op);
      assert Snapshot(index, eopnum, clabel', cjob', applies) == inside.(pos := inside.pos + OpSize(op));
      e, cjob', applies' := Close(op, args, unique, index, eopnum, clabel', cjob', applies);
      if e.Some? {
        LeaveFails(start, inside, op, args, unique, e.value);
        return;
      }
      ghost var closed := Snapshot(index, eopnum, clabel', cjob', applies');
      Stages(start, inside, closed, op, args, unique);
      Count(Token.Isa(op, args), OpSize(op), clabel', index, eopnum, cjob', applies');
    }

    /** One iteration of the loop. */
    method Visit(t: Token, unique: bool, index: nat, eopnum: nat, clabel: Option<Name>, cjob: Option<JobId>,
                 applies: map<Name, nat>)
      returns (e: Option<Error>, eopnum': nat, clabel': Option<Name>, cjob': Option<JobId>, applies': map<Name, nat>)
      modifies this
      ensures var r := Step(old(Snapshot(index, eopnum, clabel, cjob, applies)), t, unique);
        if e.None? then r == Ok(Snapshot(index + 1, eopnum', clabel', cjob', applies')) else r == Err(e.value)
      ensures dependents == old(dependents)
    {
      hide Enter, Leave, SizeAt, StepIsa;
      e, eopnum', clabel', cjob', applies' := None, eopnum, clabel, cjob, applies;
      if t.Label? {
        clabel' := Some(t.name);
        if t.name in labelmap {
          e := Some(DuplicateLabel);
          return;
        }
        labelmap := labelmap[t.name := LabelRec(pos, index, 0, 0)];
        labellist := labellist + [t.name];
      } else if t.Isa? {
        e, clabel', cjob', applies' := Instruction(t.op, t.args, unique, index, eopnum, clabel, cjob, applies);
      } else {
        var size := SizeAt(t, pos);
        if t.Eop? {
          jobmap := AddJob(EopJob(eopnum), index, eopnum);
          jobids := jobids + [EopJob(eopnum)];
          eopnum' := eopnum + 1;
        } else {
          pos := pos + size;
        }
        Count(t, size, clabel', index, eopnum', cjob', applies');
      }
    }

    /** Labels of one table, read entry by entry. */
    method TableAt(l: Name, n: nat) returns (r: Result<seq<Name>>)
      ensures r == if TableFits(labellist, l, n) then Ok(TableOf(labellist, l, n)) else Err(LabelNotFound)
    {
      hide IndexOf;
      if l !in labellist {
        return Err(LabelNotFound);
      }
      var index, i := IndexOf(l, labellist), 0;
      var table := [];
      while i < n
        invariant i <= n && index + i <= |labellist| && table == labellist[index..index + i]
      {
        if index + i >= |labellist| {
          return Err(LabelNotFound);
        }
        table := table + [labellist[index + i]];
        i := i + 1;
      }
      return Ok(table);
    }

    /** The loop that turns table sizes into lists of dependent labels. */
    method Resolve(applies: map<Name, nat>) returns (r: Result<()>)
      requires dependents == map[]
      modifies `dependents
      ensures match Dependents(labellist, applies)
        case Err(e) => r == Err(e)
        case Ok(d) => r == Ok(()) && dependents == d
    {
      hide TableFits, TableOf, Resolved, Dependents;
      var todo := applies.Keys;
      NothingResolved(labellist, applies);
      while todo != {}
        invariant todo <= applies.Keys && Resolved(labellist, applies, todo, dependents)
        decreases |todo|
      {
        var l :| l in todo;
        ghost var before := dependents;
        if applies[l] != 1 {
          var table := TableAt(l, applies[l]);
          if table.Err? {
            TableFails(labellist, applies, l);
            return Err(table.error);
          }
          if applies[l] > 1 {
            dependents := dependents[l := table.value];
          }
        }
        TableTurn(labellist, applies, todo, before, l);
        todo := todo - {l};
      }
      AllResolved(labellist, applies, dependents);
      return Ok(());
    }

    /** `process`: one pass over the tokens. A failure leaves the object unusable, as the source's
        constructor throws. */
    method Process(toks: seq<Token>, unique: bool) returns (r: Result<()>)
      requires Clean()
      modifies this
      ensures match ScanFrom(START, toks, unique)
        case Err(e) => r == Err(e)
        case Ok(s) =>
          match Dependents(s.labelList, s.applies)
          case Err(e) => r == Err(e)
          case Ok(d) =>
            && r == Ok(()) && dependents == d
            && s == Snapshot(s.index, s.eopnum, s.clabel, s.cjob, s.applies)
    {
      hide Step, Dependents;
      var index, eopnum := 0, 0;
      var clabel, cjob := None, None;
      var applies := map[];
      var k := 0;
      assert toks[0..] == toks;
      while k < |toks|
        invariant k <= |toks| && dependents == map[]
        invariant ScanFrom(START, toks, unique) ==
          ScanFrom(Snapshot(index, eopnum, clabel, cjob, applies), toks[k..], unique)
      {
        assert toks[k..][0] == toks[k] && toks[k..][1..] == toks[k + 1..];
        var e;
        e, eopnum, clabel, cjob, applies := Visit(toks[k], unique, index, eopnum, clabel, cjob, applies);
        if e.Some? {
          return Err(e.value);
        }
        index := index + 1;
        k := k + 1;
      }
      r := Resolve(applies);
    }
  }
}
