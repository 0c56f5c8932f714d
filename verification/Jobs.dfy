/** Which jobs must share a page: the barrier worklist and the launch recursion of `extractjobs`. */
module Jobs {
  import opened Base
  import opened Program
  import opened View

  datatype Graph = Graph(jobs: map<JobId, JobRec>, barriers: map<nat, seq<JobId>>) {
    ghost predicate Valid() {
      BarriersMatch(jobs, barriers)
    }
  }

  // ---------- reference definitions ----------

  /** Two jobs wait on a common local barrier. */
  ghost predicate Shares(g: Graph, a: JobId, b: JobId) {
    a in g.jobs && b in g.jobs && exists x :: x in g.jobs[a].barriers && x in g.jobs[b].barriers
  }

  ghost predicate MatePath(g: Graph, p: seq<JobId>, a: JobId, b: JobId) {
    && p != [] && p[0] == a && p[|p| - 1] == b && a in g.jobs
    && forall i :: 0 <= i < |p| - 1 ==> Shares(g, p[i], p[i + 1])
  }

  /** Transitively connected through local barriers. */
  ghost predicate Mates(g: Graph, a: JobId, b: JobId) {
    exists p :: MatePath(g, p, a, b)
  }

  ghost predicate LaunchPath(g: Graph, p: seq<JobId>, a: JobId, b: JobId) {
    && p != [] && p[0] == a && p[|p| - 1] == b
    && (forall i :: 0 <= i < |p| ==> p[i] in g.jobs)
    && forall i :: 0 <= i < |p| - 1 ==> p[i + 1] in g.jobs[p[i]].launches
  }

  /** Reachable through `launch_job`. */
  ghost predicate Reaches(g: Graph, a: JobId, b: JobId) {
    exists p :: LaunchPath(g, p, a, b)
  }

  /** `k` is a barrier mate of a job reachable from `j` by launches. */
  ghost predicate Needs(g: Graph, j: JobId, k: JobId) {
    exists m :: Reaches(g, j, m) && Mates(g, m, k)
  }

  /** A job `j` pulls in that lies in another `.eop` region than the job it is a mate of. */
  ghost predicate Torn(g: Graph, m: JobId, k: JobId) {
    Mates(g, m, k) && k in g.jobs && m in g.jobs && g.jobs[k].eop != g.jobs[m].eop
  }

  lemma MatesSelf(g: Graph, a: JobId)
    requires a in g.jobs
    ensures Mates(g, a, a)
  {
    assert MatePath(g, [a], a, a);
  }

  lemma MatesStep(g: Graph, a: JobId, b: JobId, c: JobId)
    requires Mates(g, a, b) && Shares(g, b, c)
    ensures Mates(g, a, c)
  {
    var p :| MatePath(g, p, a, b);
    assert MatePath(g, p + [c], a, c);
  }

  lemma {:induction false} MatesInside(g: Graph, p: seq<JobId>, a: JobId, b: JobId)
    requires MatePath(g, p, a, b)
    ensures b in g.jobs
  {
    if |p| > 1 {
      assert Shares(g, p[|p| - 2], p[|p| - 2 + 1]);
    }
  }

  /** Barrier mates form equivalence classes. */
  lemma {:induction false} MatesSymmetric(g: Graph, a: JobId, b: JobId)
    requires Mates(g, a, b)
    ensures Mates(g, b, a)
  {
    var p :| MatePath(g, p, a, b);
    MatesInside(g, p, a, b);
    var q := seq(|p|, i requires 0 <= i < |p| => p[|p| - 1 - i]);
    forall i | 0 <= i < |q| - 1 ensures Shares(g, q[i], q[i + 1]) {
      var k := |p| - 2 - i;
      assert Shares(g, p[k], p[k + 1]);
    }
    assert MatePath(g, q, b, a);
  }

  lemma MatesTransitive(g: Graph, a: JobId, b: JobId, c: JobId)
    requires Mates(g, a, b) && Mates(g, b, c)
    ensures Mates(g, a, c)
  {
    var p :| MatePath(g, p, a, b);
    var q :| MatePath(g, q, b, c);
    var r := p + q[1..];
    forall i | 0 <= i < |r| - 1 ensures Shares(g, r[i], r[i + 1]) {
      if i < |p| - 1 {
        assert Shares(g, p[i], p[i + 1]);
      } else {
        var k := i - (|p| - 1);
        assert Shares(g, q[k], q[k + 1]);
      }
    }
    assert MatePath(g, r, a, c);
  }

  /** A set that contains `a` and is closed under sharing contains all of `a`'s mates. */
  lemma {:induction false} ClosedHasMates(g: Graph, ids: seq<JobId>, p: seq<JobId>, a: JobId, b: JobId)
    requires a in ids && MatePath(g, p, a, b)
    requires forall k, k' :: k in ids && Shares(g, k, k') ==> k' in ids
    ensures b in ids
    decreases |p|
  {
    if |p| > 1 {
      var q := p[..|p| - 1];
      assert MatePath(g, q, a, q[|q| - 1]);
      ClosedHasMates(g, ids, q, a, q[|q| - 1]);
      assert Shares(g, p[|p| - 2], p[|p| - 2 + 1]);
    }
  }

  // ---------- the worklist ----------

  /** One barrier's jobs: refuse other `.eop` regions, append their barriers. */
  function Round(g: Graph, eop: nat, bars: seq<nat>, jj: seq<JobId>): Result<seq<nat>>
    requires forall j :: j in jj ==> j in g.jobs
    decreases |jj|
  {
    if jj == [] then Ok(bars) else
    if g.jobs[jj[0]].eop != eop then Err(AcrossEop) else
    Round(g, eop, Dedup(bars + g.jobs[jj[0]].barriers), jj[1..])
  }

  lemma {:induction false} RoundAdds(g: Graph, eop: nat, bars: seq<nat>, jj: seq<JobId>)
    requires forall j :: j in jj ==> j in g.jobs
    ensures var r := Round(g, eop, bars, jj);
      if r.Ok? then
        && (forall x :: x in r.value <==> x in bars || exists j :: j in jj && x in g.jobs[j].barriers)
        && (NoDup(bars) ==> bars <= r.value)
        && (jj != [] ==> NoDup(r.value))
        && (bars != [] ==> r.value != [] && r.value[0] == bars[0])
        && (forall j :: j in jj ==> g.jobs[j].eop == eop)
      else r == Err(AcrossEop) && exists j :: j in jj && g.jobs[j].eop != eop
    decreases |jj|
  {
    if jj != [] && g.jobs[jj[0]].eop == eop {
      var b := g.jobs[jj[0]].barriers;
      var next := Dedup(bars + b);
      RoundAdds(g, eop, next, jj[1..]);
      if NoDup(bars) {
        DedupKeepsPrefix(bars, b);
      }
      if bars != [] {
        DedupHead(bars + b);
      }
      var r := Round(g, eop, next, jj[1..]);
      if r.Ok? {
        forall x ensures x in r.value <==> x in bars || exists j :: j in jj && x in g.jobs[j].barriers {
          if exists j :: j in jj[1..] && x in g.jobs[j].barriers {
            var j :| j in jj[1..] && x in g.jobs[j].barriers;
            assert j in jj;
          }
        }
      } else {
        var j :| j in jj[1..] && g.jobs[j].eop != eop;
        assert j in jj;
      }
    }
  }

  ghost predicate Known(g: Graph, bars: seq<nat>) {
    forall x :: x in bars ==> x in g.barriers
  }

  /** Facts one turn of the worklist needs: it has not run past the known barriers, and goes on. */
  lemma Turn(g: Graph, eop: nat, bars: seq<nat>, i: nat)
    requires g.Valid() && Known(g, bars) && i < |bars| && (i == 0 || NoDup(bars))
    ensures i < |g.barriers.Keys|
    ensures var jj := g.barriers[bars[i]];
      && jj != [] && (forall j :: j in jj ==> j in g.jobs)
      && var r := Round(g, eop, bars, jj);
        r.Ok? ==> Known(g, r.value) && NoDup(r.value) && i + 1 <= |r.value|
  {
    assert bars[i] in bars;
    RoundAdds(g, eop, bars, g.barriers[bars[i]]);
    if i > 0 {
      NoDupBound(bars, g.barriers.Keys);
    }
  }

  /** The worklist loop from index `i`. */
  function Loop(g: Graph, eop: nat, bars: seq<nat>, ids: seq<JobId>, i: nat): Result<seq<JobId>>
    requires g.Valid() && Known(g, bars) && i <= |bars| && (i == 0 || NoDup(bars))
    decreases |g.barriers.Keys| - i
  {
    if i == |bars| then Ok(ids) else
    Turn(g, eop, bars, i);
    var jj := g.barriers[bars[i]];
    var bars' :- Round(g, eop, bars, jj);
    Loop(g, eop, bars', Dedup(ids + jj), i + 1)
  }

  ghost predicate LoopInv(g: Graph, seed: JobId, bars: seq<nat>, ids: seq<JobId>, i: nat) {
    && g.Valid() && Known(g, bars) && i <= |bars| && (i == 0 || NoDup(bars)) && NoDup(ids)
    && seed in g.jobs && ids != [] && ids[0] == seed
    && (forall x :: x in g.jobs[seed].barriers ==> x in bars)
    && (forall x :: x in bars ==> exists m :: Mates(g, seed, m) && m in g.jobs && x in g.jobs[m].barriers)
    && (forall k :: k in ids ==> Mates(g, seed, k) && k in g.jobs && g.jobs[k].eop == g.jobs[seed].eop)
    && (forall t, k :: 0 <= t < i && k in g.barriers[bars[t]] ==> k in ids)
    && (forall k, x :: k in ids && x in g.jobs[k].barriers ==> x in bars)
  }

  lemma BarrierMate(g: Graph, seed: JobId, bars: seq<nat>, ids: seq<JobId>, i: nat, k: JobId)
    requires LoopInv(g, seed, bars, ids, i) && i < |bars| && k in g.barriers[bars[i]]
    ensures k in g.jobs && Mates(g, seed, k)
  {
    var x := bars[i];
    assert x in bars;
    var m :| Mates(g, seed, m) && m in g.jobs && x in g.jobs[m].barriers;
    assert Shares(g, m, k);
    MatesStep(g, seed, m, k);
  }

  lemma LoopAdvance(g: Graph, seed: JobId, bars: seq<nat>, bars': seq<nat>, ids: seq<JobId>, i: nat)
    requires LoopInv(g, seed, bars, ids, i) && i < |bars| && i + 1 <= |bars'|
    requires Known(g, bars') && NoDup(bars') && (forall t :: 0 <= t <= i ==> bars'[t] == bars[t])
    requires var jj := g.barriers[bars[i]];
      && (forall k :: k in jj ==> k in g.jobs && Mates(g, seed, k) && g.jobs[k].eop == g.jobs[seed].eop)
      && (forall x :: x in bars' <==> x in bars || exists k :: k in jj && x in g.jobs[k].barriers)
    ensures LoopInv(g, seed, bars', Dedup(ids + g.barriers[bars[i]]), i + 1)
  {
    var jj := g.barriers[bars[i]];
    DedupHead(ids + jj);
    var ids' := Dedup(ids + jj);
    hide Mates, Dedup;
    forall x | x in bars' ensures exists m :: Mates(g, seed, m) && m in g.jobs && x in g.jobs[m].barriers {
      if x !in bars {
        var k :| k in jj && x in g.jobs[k].barriers;
      }
    }
    forall k, x | k in ids' && x in g.jobs[k].barriers ensures x in bars' {}
    forall t, k | 0 <= t < i + 1 && k in g.barriers[bars'[t]] ensures k in ids' {
      assert bars'[t] == bars[t];
    }
  }

  lemma LoopTurn(g: Graph, seed: JobId, bars: seq<nat>, ids: seq<JobId>, i: nat)
    requires LoopInv(g, seed, bars, ids, i) && i < |bars|
    ensures var eop, jj := g.jobs[seed].eop, g.barriers[bars[i]];
      (forall j :: j in jj ==> j in g.jobs) &&
      var r := Round(g, eop, bars, jj);
      if r.Ok? then LoopInv(g, seed, r.value, Dedup(ids + jj), i + 1)
      else r == Err(AcrossEop) && exists k :: Torn(g, seed, k)
  {
    var eop, jj := g.jobs[seed].eop, g.barriers[bars[i]];
    Turn(g, eop, bars, i);
    forall k | k in jj ensures k in g.jobs && Mates(g, seed, k) {
      BarrierMate(g, seed, bars, ids, i, k);
    }
    RoundAdds(g, eop, bars, jj);
    var r := Round(g, eop, bars, jj);
    hide LoopInv, Mates, Round;
    if r.Ok? {
      LoopAdvance(g, seed, bars, r.value, ids, i);
    } else {
      var j :| j in jj && g.jobs[j].eop != eop;
      assert Torn(g, seed, j);
    }
  }

  lemma LoopDone(g: Graph, seed: JobId, bars: seq<nat>, ids: seq<JobId>, k: JobId)
    requires LoopInv(g, seed, bars, ids, |bars|) && Mates(g, seed, k)
    ensures k in ids
  {
    var p :| MatePath(g, p, seed, k);
    forall a, b | a in ids && Shares(g, a, b) ensures b in ids {
      var x :| x in g.jobs[a].barriers && x in g.jobs[b].barriers;
      assert x in bars;
      var t :| 0 <= t < |bars| && bars[t] == x;
    }
    hide LoopInv, Shares;
    assert seed in ids by { SeedIn(g, seed, bars, ids); }
    ClosedHasMates(g, ids, p, seed, k);
  }

  lemma SeedIn(g: Graph, seed: JobId, bars: seq<nat>, ids: seq<JobId>)
    requires LoopInv(g, seed, bars, ids, |bars|)
    ensures seed in ids
  {}

  lemma LoopParts(g: Graph, seed: JobId, bars: seq<nat>, ids: seq<JobId>, i: nat)
    requires LoopInv(g, seed, bars, ids, i)
    ensures g.Valid() && Known(g, bars) && i <= |bars| && (i == 0 || NoDup(bars)) && seed in g.jobs
    ensures i < |bars| ==> bars[i] in g.barriers
  {}

  lemma LoopStep(g: Graph, eop: nat, bars: seq<nat>, ids: seq<JobId>, i: nat)
    requires g.Valid() && Known(g, bars) && i < |bars| && (i == 0 || NoDup(bars))
    ensures i < |g.barriers.Keys| && bars[i] in g.barriers && forall j :: j in g.barriers[bars[i]] ==> j in g.jobs
    ensures var r := Round(g, eop, bars, g.barriers[bars[i]]);
      if r.Err? then Loop(g, eop, bars, ids, i) == Err(r.error)
      else
        && Known(g, r.value) && i + 1 <= |r.value| && NoDup(r.value)
        && Loop(g, eop, bars, ids, i) == Loop(g, eop, r.value, Dedup(ids + g.barriers[bars[i]]), i + 1)
  {
    hide Known, Round, NoDup, Dedup;
    assert bars[i] in g.barriers by { TurnKnown(g, bars, i); }
    Turn(g, eop, bars, i);
  }

  lemma TurnKnown(g: Graph, bars: seq<nat>, i: nat)
    requires Known(g, bars) && i < |bars|
    ensures bars[i] in g.barriers
  {}

  lemma LoopEnds(g: Graph, seed: JobId, bars: seq<nat>, ids: seq<JobId>)
    requires LoopInv(g, seed, bars, ids, |bars|)
    ensures Loop(g, g.jobs[seed].eop, bars, ids, |bars|) == Ok(ids) && NoDup(ids) && ids != [] && ids[0] == seed
    ensures forall k :: k in ids <==> Mates(g, seed, k)
    ensures forall k :: k in ids ==> k in g.jobs && g.jobs[k].eop == g.jobs[seed].eop
  {
    hide Mates;
    forall k | Mates(g, seed, k) ensures k in ids {
      LoopDone(g, seed, bars, ids, k);
    }
  }

  /** The worklist ends with exactly the barrier mates of the seed, or finds one across an `.eop`. */
  lemma {:induction false} LoopCloses(g: Graph, seed: JobId, bars: seq<nat>, ids: seq<JobId>, i: nat)
    requires LoopInv(g, seed, bars, ids, i)
    ensures var r := Loop(g, g.jobs[seed].eop, bars, ids, i);
      if r.Ok? then
        && NoDup(r.value) && r.value != [] && r.value[0] == seed
        && (forall k :: k in r.value <==> Mates(g, seed, k))
        && (forall k :: k in r.value ==> k in g.jobs && g.jobs[k].eop == g.jobs[seed].eop)
      else r == Err(AcrossEop) && exists k :: Torn(g, seed, k)
    decreases |g.barriers.Keys| - i
  {
    hide *;
    LoopParts(g, seed, bars, ids, i);
    var eop := g.jobs[seed].eop;
    if i == |bars| {
      LoopEnds(g, seed, bars, ids);
    } else {
      var jj := g.barriers[bars[i]];
      LoopTurn(g, seed, bars, ids, i);
      LoopStep(g, eop, bars, ids, i);
      var r := Round(g, eop, bars, jj);
      if r.Ok? {
        LoopCloses(g, seed, r.value, Dedup(ids + jj), i + 1);
      }
    }
  }

  // ---------- launches ----------

  /** Launch targets exist and the launch graph has no cycle, as witnessed by a ranking. */
  ghost predicate Acyclic(g: Graph, rank: map<JobId, nat>) {
    && (forall j :: j in g.jobs ==> j in rank)
    && forall j, l :: j in g.jobs && l in g.jobs[j].launches ==> l in g.jobs && rank[l] < rank[j]
  }

  lemma SeedInv(g: Graph, j: JobId)
    requires g.Valid() && j in g.jobs
    ensures LoopInv(g, j, g.jobs[j].barriers, [j], 0)
  {
    MatesSelf(g, j);
  }

  /** `extractjobs`. */
  function Extract(g: Graph, ghost rank: map<JobId, nat>, j: JobId): Result<seq<JobId>>
    requires g.Valid() && Acyclic(g, rank) && j in g.jobs
    decreases rank[j], |g.jobs[j].launches| + 1
  {
    SeedInv(g, j);
    var ids :- Loop(g, g.jobs[j].eop, g.jobs[j].barriers, [j], 0);
    Follow(g, rank, j, Dedup(ids + g.jobs[j].launches), g.jobs[j].launches)
  }

  function Follow(g: Graph, ghost rank: map<JobId, nat>, j: JobId, acc: seq<JobId>, ls: seq<JobId>): Result<seq<JobId>>
    requires g.Valid() && Acyclic(g, rank) && j in g.jobs
    requires forall l :: l in ls ==> l in g.jobs[j].launches
    decreases rank[j], |ls|
  {
    if ls == [] then Ok(acc) else
    var sub :- Extract(g, rank, ls[0]);
    Follow(g, rank, j, Dedup(acc + sub), ls[1..])
  }

  lemma ReachesSelf(g: Graph, a: JobId)
    requires a in g.jobs
    ensures Reaches(g, a, a)
  {
    assert LaunchPath(g, [a], a, a);
  }

  lemma ReachesStep(g: Graph, a: JobId, b: JobId, c: JobId)
    requires a in g.jobs && b in g.jobs[a].launches && Reaches(g, b, c)
    ensures Reaches(g, a, c)
  {
    var p :| LaunchPath(g, p, b, c);
    assert LaunchPath(g, [a] + p, a, c);
  }

  lemma ReachesFirst(g: Graph, a: JobId, c: JobId)
    requires Reaches(g, a, c)
    ensures a in g.jobs && (a == c || exists b :: b in g.jobs[a].launches && Reaches(g, b, c))
  {
    var p :| LaunchPath(g, p, a, c);
    if |p| > 1 {
      var q := p[1..];
      assert p[0 + 1] in g.jobs[p[0]].launches;
      assert LaunchPath(g, q, q[0], c);
    }
  }

  /** What `Extract` promises for one seed. */
  ghost predicate Extracted(g: Graph, j: JobId, r: Result<seq<JobId>>) {
    if r.Ok? then
      && NoDup(r.value) && r.value != [] && r.value[0] == j
      && (forall k :: k in r.value <==> Needs(g, j, k))
      && (forall m, k :: Reaches(g, j, m) ==> !Torn(g, m, k))
    else r == Err(AcrossEop) && exists m, k :: Reaches(g, j, m) && Torn(g, m, k)
  }

  /** `extractjobs` returns, without repetition and seed first, exactly the barrier closures of the
      jobs reachable by launches; it fails exactly when one of those closures crosses an `.eop`. */
  lemma {:induction false} ExtractCloses(g: Graph, rank: map<JobId, nat>, j: JobId)
    requires g.Valid() && Acyclic(g, rank) && j in g.jobs
    ensures Extracted(g, j, Extract(g, rank, j))
    decreases rank[j], |g.jobs[j].launches| + 1
  {
    hide Loop, LoopInv, Mates, Reaches, Torn, Needs, Followed, Graph.Valid;
    SeedInv(g, j);
    LoopCloses(g, j, g.jobs[j].barriers, [j], 0);
    var r := Loop(g, g.jobs[j].eop, g.jobs[j].barriers, [j], 0);
    if r.Ok? {
      ClosureStarts(g, rank, j, r.value);
      FollowCloses(g, rank, j, Dedup(r.value + g.jobs[j].launches), g.jobs[j].launches, []);
    } else {
      ReachesSelf(g, j);
    }
  }

  /** The seed's barrier closure and the jobs it launches, before any launch is followed. */
  lemma ClosureStarts(g: Graph, rank: map<JobId, nat>, j: JobId, ids: seq<JobId>)
    requires Acyclic(g, rank) && j in g.jobs && NoDup(ids) && ids != [] && ids[0] == j
    requires forall k :: k in ids <==> Mates(g, j, k)
    requires forall k :: k in ids ==> k in g.jobs && g.jobs[k].eop == g.jobs[j].eop
    ensures Followed(g, j, Dedup(ids + g.jobs[j].launches), [])
    ensures [] + g.jobs[j].launches == g.jobs[j].launches
  {
    hide Mates, Reaches, Torn, Needs;
    DedupHead(ids + g.jobs[j].launches);
    forall l | l in g.jobs[j].launches ensures Needs(g, j, l) {
      LaunchedNeeded(g, rank, j, l);
    }
    forall k | Mates(g, j, k) ensures Needs(g, j, k) && !Torn(g, j, k) {
      MateNeeded(g, j, k);
    }
  }

  lemma LaunchedNeeded(g: Graph, rank: map<JobId, nat>, j: JobId, l: JobId)
    requires Acyclic(g, rank) && j in g.jobs && l in g.jobs[j].launches
    ensures Needs(g, j, l)
  {
    hide Mates, Reaches;
    ReachesSelf(g, l);
    ReachesStep(g, j, l, l);
    MatesSelf(g, l);
  }

  lemma MateNeeded(g: Graph, j: JobId, k: JobId)
    requires j in g.jobs && Mates(g, j, k)
    ensures Needs(g, j, k) && (k in g.jobs && g.jobs[k].eop == g.jobs[j].eop ==> !Torn(g, j, k))
  {
    hide Mates, Reaches;
    ReachesSelf(g, j);
  }

  /** All jobs needed through the launches already followed are in `acc`. */
  ghost predicate Followed(g: Graph, j: JobId, acc: seq<JobId>, done: seq<JobId>) {
    && NoDup(acc) && acc != [] && acc[0] == j
    && (forall k :: k in acc ==> Needs(g, j, k))
    && (forall k :: Mates(g, j, k) ==> k in acc && !Torn(g, j, k))
    && (forall l, k :: l in done && Needs(g, l, k) ==> k in acc)
    && (forall l, m, k :: l in done && Reaches(g, l, m) ==> !Torn(g, m, k))
  }

  lemma {:induction false} FollowCloses(g: Graph, rank: map<JobId, nat>, j: JobId, acc: seq<JobId>, ls: seq<JobId>,
                                        done: seq<JobId>)
    requires g.Valid() && Acyclic(g, rank) && j in g.jobs
    requires done + ls == g.jobs[j].launches
    requires Followed(g, j, acc, done)
    ensures Extracted(g, j, Follow(g, rank, j, acc, ls))
    decreases rank[j], |ls|
  {
    hide Followed, Extracted, Torn, Reaches, Graph.Valid;
    if ls == [] {
      assert done == g.jobs[j].launches;
      FollowEnds(g, j, acc);
    } else {
      assert ls[0] in done + ls;
      ExtractCloses(g, rank, ls[0]);
      var sub := Extract(g, rank, ls[0]);
      if sub.Ok? {
        FollowAdds(g, j, acc, ls[0], sub.value, done);
        assert done + [ls[0]] + ls[1..] == done + ls;
        FollowCloses(g, rank, j, Dedup(acc + sub.value), ls[1..], done + [ls[0]]);
      } else {
        FollowFails(g, j, ls[0], sub);
      }
    }
  }

  lemma FollowEnds(g: Graph, j: JobId, acc: seq<JobId>)
    requires j in g.jobs && Followed(g, j, acc, g.jobs[j].launches)
    ensures Extracted(g, j, Ok(acc))
  {
    hide Mates, Reaches;
    forall m | Reaches(g, j, m) ensures m == j || exists l :: l in g.jobs[j].launches && Reaches(g, l, m) {
      ReachesFirst(g, j, m);
    }
    forall k | Needs(g, j, k) ensures k in acc {
      var m :| Reaches(g, j, m) && Mates(g, m, k);
      if m != j {
        var l :| l in g.jobs[j].launches && Reaches(g, l, m);
        assert Needs(g, l, k);
      }
    }
  }

  lemma FollowFails(g: Graph, j: JobId, l: JobId, sub: Result<seq<JobId>>)
    requires j in g.jobs && l in g.jobs[j].launches && Extracted(g, l, sub) && sub.Err?
    ensures Extracted(g, j, sub)
  {
    hide Torn, Reaches, Needs;
    var m, k :| Reaches(g, l, m) && Torn(g, m, k);
    ReachesStep(g, j, l, m);
  }

  lemma FollowAdds(g: Graph, j: JobId, acc: seq<JobId>, l: JobId, sub: seq<JobId>, done: seq<JobId>)
    requires j in g.jobs && l in g.jobs[j].launches
    requires Followed(g, j, acc, done) && Extracted(g, l, Ok(sub))
    ensures Followed(g, j, Dedup(acc + sub), done + [l])
  {
    DedupHead(acc + sub);
    forall k | Needs(g, l, k) ensures Needs(g, j, k) {
      var m :| Reaches(g, l, m) && Mates(g, m, k);
      ReachesStep(g, j, l, m);
    }
    hide Needs, Mates, Reaches, Torn;
  }

  /** Without launches a group is one barrier class. */
  lemma NoLaunchGroups(g: Graph, j: JobId, k: JobId)
    requires j in g.jobs && forall m :: m in g.jobs ==> g.jobs[m].launches == []
    ensures Needs(g, j, k) <==> Mates(g, j, k)
  {
    ReachesSelf(g, j);
    forall m | Reaches(g, j, m) ensures m == j {
      ReachesFirst(g, j, m);
    }
  }
}
