/** Labels that come to a page as entries of a table only: the label recursion does not follow what they refer to. */
module Unfollowed {
  import opened Base
  import opened Isa
  import opened Program
  import opened View
  import opened Jobs
  import opened Labels
  import opened Pages
  import opened PageLaws
  import opened Partition
  import opened SharedLabels
  import opened Closure

  /** One of the jobs uses the label. */
  ghost predicate SomeUse(v: View, jobs: seq<JobId>, l: Name) {
    exists j :: j in jobs && Uses(v, j, l)
  }

  /** The jobs use `d`, but only as an entry of a table: none of them reaches it through references. */
  ghost predicate Unfollowed(v: View, jobs: seq<JobId>, d: Name) {
    && SomeUse(v, jobs, d)
    && forall j :: j in jobs ==> !Reached(LabelsOf(v), RefsIn(v.JobToks(j), v.pads), d)
  }

  /** What an unfollowed label refers to, some job on the page uses as well. */
  ghost predicate UnfollowedUsed(v: View, jobs: seq<JobId>) {
    forall d, r :: Unfollowed(v, jobs, d) && r in RefsIn(v.LabelToks(d), v.pads) ==> SomeUse(v, jobs, r)
  }

  /** A page of a launch-free program holds exactly the labels its jobs use. */
  lemma PageLabels(v: View, jobs: seq<JobId>, labels: seq<Name>, l: Name)
    requires Tallied(v, jobs, labels) && ClassesInside(v, jobs) && forall j :: j in jobs ==> j in v.s.jobs
    ensures l in labels <==> SomeUse(v, jobs, l)
  {
    hide Mates, Uses, Head, Leads, ClassUses;
    assert multiset(labels)[l] == |Heads(v, jobs, l)|;
    if l in labels {
      assert Heads(v, jobs, l) != {};
      var h :| h in Heads(v, jobs, l);
      var k := ClassUser(v, h, l);
      assert k in jobs;
    }
    if j :| j in jobs && Uses(v, j, l) {
      var i :| 0 <= i < |jobs| && jobs[i] == j;
      var h := FirstMate(v, jobs, i);
      UsesOfClass(v, jobs[h], j, l);
      assert Leads(v, jobs, jobs[h]) by { HeadLeads(v, jobs, h); }
      assert jobs[h] in Heads(v, jobs, l);
    }
  }

  lemma HeadLeads(v: View, jobs: seq<JobId>, h: nat)
    requires h < |jobs| && Head(v, jobs, h)
    ensures Leads(v, jobs, jobs[h])
  {}

  lemma ClassUser(v: View, j: JobId, l: Name) returns (k: JobId)
    requires ClassUses(v, j, l)
    ensures Mates(GraphOf(v), j, k) && Uses(v, k, l)
  {
    hide Mates, Uses;
    k :| Mates(GraphOf(v), j, k) && Uses(v, k, l);
  }

  /** A label reached through references has what it refers to followed. */
  lemma ReachedUses(v: View, j: JobId, d: Name, r: Name)
    requires v.Valid() && Reached(LabelsOf(v), RefsIn(v.JobToks(j), v.pads), d) && d in v.s.labels
    requires r in RefsIn(v.LabelToks(d), v.pads)
    ensures Uses(v, j, r)
  {
    hide View.Valid, Reached, RefsIn, View.JobToks, View.LabelToks;
    ReachedNext(LabelsOf(v), RefsIn(v.JobToks(j), v.pads), d, r);
    assert Pulled(LabelsOf(v), r, r);
  }

  lemma NamedUses(v: View, j: JobId, r: Name)
    requires r in RefsIn(v.JobToks(j), v.pads)
    ensures Uses(v, j, r)
  {
    hide RefsIn, Reached, View.JobToks;
    ReachedFirst(LabelsOf(v), RefsIn(v.JobToks(j), v.pads), r);
    assert Pulled(LabelsOf(v), r, r);
  }

  // ---------- references of token lists ----------

  lemma {:induction false} JobsRefs(v: View, jobs: seq<JobId>, r: Name)
    ensures r in RefsIn(JobsToks(v, jobs), v.pads) <==> exists j :: j in jobs && r in RefsIn(v.JobToks(j), v.pads)
  {
    hide RefsIn, View.JobToks;
    if jobs == [] {
      NoRefs(v.pads);
    } else {
      JobsRefs(v, jobs[1..], r);
      RefsAppend(v.JobToks(jobs[0]), JobsToks(v, jobs[1..]), v.pads);
      assert jobs == [jobs[0]] + jobs[1..];
      if j :| j in jobs && r in RefsIn(v.JobToks(j), v.pads) && j != jobs[0] {
        assert j in jobs[1..];
      }
    }
  }

  lemma {:induction false} LabelsRefs(v: View, labels: seq<Name>, r: Name)
    ensures r in RefsIn(LabelsToks(v, labels), v.pads) <==>
      exists d :: d in labels && r in RefsIn(v.LabelToks(d), v.pads)
  {
    hide RefsIn, View.LabelToks;
    if labels == [] {
      NoRefs(v.pads);
    } else {
      LabelsRefs(v, labels[1..], r);
      RefsAppend(v.LabelToks(labels[0]), LabelsToks(v, labels[1..]), v.pads);
      assert labels == [labels[0]] + labels[1..];
      if d :| d in labels && r in RefsIn(v.LabelToks(d), v.pads) && d != labels[0] {
        assert d in labels[1..];
      }
    }
  }

  /** A page refers to what its jobs and its labels refer to. */
  lemma PageRefs(v: View, size: nat, col: nat, p: Page, num: nat, r: Name)
    requires v.Valid() && PageOk(v, size, col, p, num)
    ensures r in RefsIn(p.text + p.data, v.pads) <==>
      (exists j :: j in p.jobs && r in RefsIn(v.JobToks(j), v.pads))
      || exists d :: d in p.labels && r in RefsIn(v.LabelToks(d), v.pads)
  {
    hide View.Valid, RefsIn, View.JobToks, View.LabelToks, JobsToks, LabelsToks, JobsSize, LabelsSize, Gap, RoundUp4,
      Footprint, LabelsSorted, Ordinary, Aligned;
    var tail := p.text[|JobsToks(v, p.jobs)|..];
    assert p.text == JobsToks(v, p.jobs) + tail;
    PlainText(tail, v.pads);
    RefsAppend(JobsToks(v, p.jobs), tail, v.pads);
    RefsAppend(p.text, p.data, v.pads);
    JobsRefs(v, p.jobs, r);
    LabelsRefs(v, p.labels, r);
  }

  /** For every page of every launch-free program: all labels its text and data refer to are on it if and only if
      whatever its unfollowed labels refer to is used by its jobs otherwise. */
  lemma PageContained(v: View, ranks: Ranks, size: nat, col: nat, before: seq<Page>, i: nat)
    requires Ready(v, ranks) && NoLaunch(v) && Pagify(v, ranks, size, col, before).Ok?
    requires |before| <= i < |Pagify(v, ranks, size, col, before).value|
    ensures var p := Pagify(v, ranks, size, col, before).value[i]; SelfContained(v, p) <==> UnfollowedUsed(v, p.jobs)
  {
    hide View.Valid, Ready, NoLaunch, Pagify, PageOk, Tallied, ClassesInside, Partitioned, Chained, Uses, RefsIn,
      View.JobToks, View.LabelToks, Reached;
    ReadyValid(v, ranks);
    PagifyLaws(v, ranks, size, col, before);
    PagifyPartitions(v, ranks, size, col, before);
    PagifyTallied(v, ranks, size, col, before);
    var pages := Pagify(v, ranks, size, col, before).value;
    var p := pages[i];
    PartitionedPage(v, |before|, pages, i);
    forall l ensures l in p.labels <==> SomeUse(v, p.jobs, l) {
      PageLabels(v, p.jobs, p.labels, l);
    }
    forall r ensures r in RefsIn(p.text + p.data, v.pads) <==>
        (exists j :: j in p.jobs && r in RefsIn(v.JobToks(j), v.pads))
        || exists d :: d in p.labels && r in RefsIn(v.LabelToks(d), v.pads)
    {
      PageRefs(v, size, col, p, i, r);
    }
    LabelsKnown(v, size, col, p, i);
    ContainedIff(v, p);
  }

  lemma LabelsKnown(v: View, size: nat, col: nat, p: Page, num: nat)
    requires v.Valid() && PageOk(v, size, col, p, num)
    ensures forall l :: l in p.labels ==> l in v.s.labels
  {
    hide View.Valid, JobsSize, LabelsSize, JobsToks, LabelsToks, Footprint, RoundUp4, Ordinary, LabelsSorted,
      View.AlignOf;
  }

  lemma ContainedIff(v: View, p: Page)
    requires v.Valid() && (forall l :: l in p.labels ==> l in v.s.labels)
      && forall l :: l in p.labels <==> SomeUse(v, p.jobs, l)
    requires forall r :: r in RefsIn(p.text + p.data, v.pads) <==>
        (exists j :: j in p.jobs && r in RefsIn(v.JobToks(j), v.pads))
        || exists d :: d in p.labels && r in RefsIn(v.LabelToks(d), v.pads)
    ensures SelfContained(v, p) <==> UnfollowedUsed(v, p.jobs)
  {
    hide View.Valid, Uses, RefsIn, View.JobToks, View.LabelToks, Reached;
    if UnfollowedUsed(v, p.jobs) {
      forall r | r in RefsIn(p.text + p.data, v.pads) ensures r in p.labels {
        if j :| j in p.jobs && r in RefsIn(v.JobToks(j), v.pads) {
          NamedUses(v, j, r);
        } else {
          var d :| d in p.labels && r in RefsIn(v.LabelToks(d), v.pads);
          if j :| j in p.jobs && Reached(LabelsOf(v), RefsIn(v.JobToks(j), v.pads), d) {
            ReachedUses(v, j, d, r);
          }
        }
      }
    }
    if SelfContained(v, p) {
      forall d, r | Unfollowed(v, p.jobs, d) && r in RefsIn(v.LabelToks(d), v.pads) ensures SomeUse(v, p.jobs, r) {
        assert d in p.labels;
      }
    }
  }
}
