/** Readiness of user stories: `readiness_engine.py`. */
module Readiness {
  import opened Ordering
  import opened Domain
  import opened Dag

  datatype Classification = Eligible | WaitingDependencies | OwnStatusBlocks | Ineligible | Terminal

  predicate TerminalStatus(s: StoryStatus) {
    s == Certified || s == Cancelled
  }

  predicate BlockedStatus(s: StoryStatus) {
    s == Proposed || s == Blocked || s == Rejected || s == RemediationRequired
  }

  predicate CandidateStatus(s: StoryStatus) {
    s == Planned || s == Ready
  }

  /** The `statuses` dictionary of `evaluate`; with duplicate ids the last story wins. */
  function Statuses(stories: seq<Story>): (m: map<string, StoryStatus>)
    ensures forall id :: id in m <==> id in Ids(stories)
  {
    if stories == [] then map[]
    else
      var last := |stories| - 1;
      assert Ids(stories) == Ids(stories[..last]) + [stories[last].id];
      Statuses(stories[..last])[stories[last].id := stories[last].status]
  }

  predicate Satisfied(story: Story, statuses: map<string, StoryStatus>) {
    forall d | d in story.dependsOn :: d in statuses && statuses[d] == Certified
  }

  /** `_classify`; Eligible is the source's READY classification. */
  function Classify(story: Story, statuses: map<string, StoryStatus>): Classification {
    if TerminalStatus(story.status) then Terminal
    else if BlockedStatus(story.status) then OwnStatusBlocks
    else if !story.approvalApplied then OwnStatusBlocks
    else if !CandidateStatus(story.status) then Ineligible
    else if !Satisfied(story, statuses) then WaitingDependencies
    else Eligible
  }

  /** A story of the list under an id that is certified. */
  predicate CertifiedThere(stories: seq<Story>, id: string) {
    exists i | 0 <= i < |stories| :: stories[i].id == id && stories[i].status == Certified
  }

  /**
    Which stories are READY, waiting, or held back by themselves: READY are exactly those planned or ready
    ones with their approval, all of whose dependencies are certified stories.
   */
  lemma ClassesInWords(stories: seq<Story>, s: Story)
    requires Distinct(Ids(stories))
    ensures var candidate := (s.status == Planned || s.status == Ready) && s.approvalApplied;
      var supported := forall d :: d in s.dependsOn ==> CertifiedThere(stories, d);
      && (Classify(s, Statuses(stories)) == Eligible <==> candidate && supported)
      && (Classify(s, Statuses(stories)) == WaitingDependencies <==> candidate && !supported)
      && (Classify(s, Statuses(stories)) == Terminal <==> s.status == Certified || s.status == Cancelled)
      && (Classify(s, Statuses(stories)) == OwnStatusBlocks <==>
            s.status != Certified && s.status != Cancelled
            && (!s.approvalApplied || s.status in {Proposed, Blocked, Rejected, RemediationRequired}))
  {
    forall d
      ensures d in Statuses(stories) && Statuses(stories)[d] == Certified <==> CertifiedThere(stories, d)
    {
      CertifiedStatus(stories, d);
    }
    hide Statuses;
  }

  lemma CertifiedStatus(stories: seq<Story>, d: string)
    requires Distinct(Ids(stories))
    ensures d in Statuses(stories) && Statuses(stories)[d] == Certified <==> CertifiedThere(stories, d)
  {
    if d in Statuses(stories) {
      var k :| 0 <= k < |stories| && Ids(stories)[k] == d;
      StatusOf(stories, stories[k]);
    }
    if i :| 0 <= i < |stories| && stories[i].id == d && stories[i].status == Certified {
      StatusOf(stories, stories[i]);
    }
  }

  // ---------- progress on a validated graph ----------

  /** Nothing but its dependencies holds a story back. */
  ghost predicate Unhindered(stories: seq<Story>) {
    forall s :: s in stories ==> s.status == Certified || (CandidateStatus(s.status) && s.approvalApplied)
  }

  ghost function Pending(stories: seq<Story>): set<string> {
    set s | s in stories && s.status != Certified :: s.id
  }

  lemma {:induction false} StatusOf(stories: seq<Story>, s: Story)
    requires Distinct(Ids(stories)) && s in stories
    ensures s.id in Statuses(stories) && Statuses(stories)[s.id] == s.status
  {
    var last := |stories| - 1;
    assert Ids(stories)[..last] == Ids(stories[..last]);
    if s in stories[..last] {
      StatusOf(stories[..last], s);
      var i :| 0 <= i < last && stories[i] == s;
      assert Ids(stories)[i] != Ids(stories)[last];
    } else {
      assert stories == stories[..last] + [stories[last]];
    }
  }

  lemma PendingStory(stories: seq<Story>, id: string) returns (s: Story)
    requires id in Pending(stories)
    ensures s in stories && s.id == id && s.status != Certified
  {
    s :| s in stories && s.status != Certified && s.id == id;
  }

  /** Meeting a node of a walk again, one edge before its start, closes a walk. */
  lemma RepetitionClosesWalk(edges: set<Edge>, walk: seq<string>, d: string)
    requires Walk(edges, walk) && walk != [] && Edge(d, walk[0]) in edges && d in walk
    ensures !Acyclic(edges)
  {
    var i :| 0 <= i < |walk| && walk[i] == d;
    var cycle := walk[..i + 1];
    assert forall k :: 0 <= k < |cycle| ==> cycle[k] == walk[k];
    assert ClosedWalk(edges, cycle);
  }

  lemma ExtendWalk(edges: set<Edge>, walk: seq<string>, d: string)
    requires Walk(edges, walk) && walk != [] && Edge(d, walk[0]) in edges && d !in walk && Distinct(walk)
    ensures Walk(edges, [d] + walk) && Distinct([d] + walk)
  {
    var longer := [d] + walk;
    assert forall k :: 1 <= k < |longer| ==> longer[k] == walk[k - 1];
  }

  /**
    Following uncertified dependencies from a walk of pending stories ends in a story whose
    dependencies are all certified: a repetition would close a walk of the graph.
   */
  lemma {:induction false} FollowDependencies(stories: seq<Story>, walk: seq<string>) returns (s: Story)
    requires ValidDag(stories)
    requires walk != [] && Distinct(walk) && Walk(EdgeSet(stories), walk)
    requires forall x :: x in walk ==> x in Pending(stories)
    ensures s in stories && s.status != Certified && Satisfied(s, Statuses(stories))
    decreases |Pending(stories)| - |walk|
  {
    hide Walk;
    hide Distinct;
    hide Pending;
    hide Acyclic;
    s := PendingStory(stories, walk[0]);
    if !Satisfied(s, Statuses(stories)) {
      var d :| d in s.dependsOn && !(d in Statuses(stories) && Statuses(stories)[d] == Certified);
      UncertifiedDependencyIsPending(stories, s, d);
      assert Edge(d, walk[0]) in EdgeSet(stories);
      if d in walk {
        RepetitionClosesWalk(EdgeSet(stories), walk, d);
        assert false;
      }
      var longer := [d] + walk;
      ExtendWalk(EdgeSet(stories), walk, d);
      DistinctCardinality(longer);
      SubsetCardinality(Elements(longer), Pending(stories));
      s := FollowDependencies(stories, longer);
    }
  }

  lemma UncertifiedDependencyIsPending(stories: seq<Story>, s: Story, d: string)
    requires ValidDag(stories) && s in stories && d in s.dependsOn
    requires !(d in Statuses(stories) && Statuses(stories)[d] == Certified)
    ensures d in Pending(stories)
  {
    var i :| 0 <= i < |stories| && Ids(stories)[i] == d;
    StatusOf(stories, stories[i]);
  }

  /** On a validated graph some pending story is classified READY, unless none is pending. */
  lemma SomeStoryIsReady(stories: seq<Story>) returns (s: Story)
    requires ValidDag(stories) && Unhindered(stories) && Pending(stories) != {}
    ensures s in stories && Classify(s, Statuses(stories)) == Eligible
  {
    var id :| id in Pending(stories);
    s := FollowDependencies(stories, [id]);
    assert s.status != Certified;
  }

  // ---------- rounds ----------

  /** Certify every story that is classified READY. */
  function CertifyReady(stories: seq<Story>): (next: seq<Story>)
    ensures |next| == |stories|
    ensures forall i :: 0 <= i < |stories| ==>
      next[i] == if Classify(stories[i], Statuses(stories)) == Eligible then stories[i].(status := Certified) else stories[i]
  {
    seq(|stories|, i requires 0 <= i < |stories| =>
      if Classify(stories[i], Statuses(stories)) == Eligible then stories[i].(status := Certified) else stories[i])
  }

  function Rounds(stories: seq<Story>, n: nat): seq<Story>
    decreases n
  {
    if n == 0 then stories else Rounds(CertifyReady(stories), n - 1)
  }

  lemma RoundKeepsGraph(stories: seq<Story>)
    requires ValidDag(stories) && Unhindered(stories)
    ensures ValidDag(CertifyReady(stories)) && Unhindered(CertifyReady(stories))
  {
    var next := CertifyReady(stories);
    assert Ids(next) == Ids(stories);
    forall e
      ensures e in EdgeSet(next) <==> e in EdgeSet(stories)
    {
      if e in EdgeSet(stories) {
        var s :| s in stories && e.dependency in s.dependsOn && e.dependent == s.id;
        var i :| 0 <= i < |stories| && stories[i] == s;
        assert next[i] in next;
      }
    }
    assert EdgeSet(next) == EdgeSet(stories);
  }

  lemma RoundShrinksPending(stories: seq<Story>)
    requires ValidDag(stories) && Unhindered(stories) && Pending(stories) != {}
    ensures |Pending(CertifyReady(stories))| < |Pending(stories)|
  {
    var next := CertifyReady(stories);
    var s := SomeStoryIsReady(stories);
    forall id | id in Pending(next)
      ensures id in Pending(stories) && id != s.id
    {
      var t := PendingStory(next, id);
      var i :| 0 <= i < |next| && next[i] == t;
      var k :| 0 <= k < |stories| && stories[k] == s;
      assert stories[i] in stories && i != k;
      assert Ids(stories)[i] != Ids(stories)[k];
    }
    assert s.id in Pending(stories);
    SubsetCardinality(Pending(next), Pending(stories) - {s.id});
  }

  /** Certifying the READY set as many times as there are pending stories certifies all of them. */
  lemma {:induction false} RoundsCertifyEverything(stories: seq<Story>, n: nat)
    requires ValidDag(stories) && Unhindered(stories) && n >= |Pending(stories)|
    ensures |Rounds(stories, n)| == |stories| && forall s :: s in Rounds(stories, n) ==> s.status == Certified
    decreases n
  {
    hide ValidDag;
    hide Unhindered;
    hide Pending;
    if Pending(stories) == {} {
      AllCertifiedStaysCertified(stories, n);
    } else {
      RoundKeepsGraph(stories);
      RoundShrinksPending(stories);
      RoundsCertifyEverything(CertifyReady(stories), n - 1);
    }
  }

  lemma {:induction false} AllCertifiedStaysCertified(stories: seq<Story>, n: nat)
    requires Pending(stories) == {}
    ensures Rounds(stories, n) == stories && forall s :: s in stories ==> s.status == Certified
  {
    forall s | s in stories
      ensures s.status == Certified
    {
      assert s.id !in Pending(stories);
    }
    if n > 0 {
      assert CertifyReady(stories) == stories;
      AllCertifiedStaysCertified(stories, n - 1);
    }
  }

  /** n rounds suffice for n stories. */
  lemma RoundsWithinStoryCount(stories: seq<Story>)
    requires ValidDag(stories) && Unhindered(stories)
    ensures forall s :: s in Rounds(stories, |stories|) ==> s.status == Certified
  {
    assert Pending(stories) <= Elements(Ids(stories)) by {
      forall id | id in Pending(stories)
        ensures id in Ids(stories)
      {
        var s := PendingStory(stories, id);
        var i :| 0 <= i < |stories| && stories[i] == s;
        assert Ids(stories)[i] == id;
      }
    }
    DistinctCardinality(Ids(stories));
    SubsetCardinality(Pending(stories), Elements(Ids(stories)));
    RoundsCertifyEverything(stories, |stories|);
  }

  /** However many rounds are certified, a story without its approval, or not planned or ready, is never touched. */
  lemma {:induction false} RoundsRespectApproval(stories: seq<Story>, n: nat, i: nat)
    requires i < |stories| && (!stories[i].approvalApplied || (stories[i].status != Planned && stories[i].status != Ready))
    ensures |Rounds(stories, n)| == |stories| && Rounds(stories, n)[i] == stories[i]
    decreases n
  {
    if n > 0 {
      assert CertifyReady(stories)[i] == stories[i];
      RoundsRespectApproval(CertifyReady(stories), n - 1, i);
    }
  }

  /** Certified stories depend only on certified stories. */
  ghost predicate CertifiedClosed(stories: seq<Story>) {
    forall s :: s in stories && s.status == Certified ==> Satisfied(s, Statuses(stories))
  }

  /** No round certifies a story before its dependencies, so closure is kept for ever. */
  lemma {:induction false} RoundsKeepClosure(stories: seq<Story>, n: nat)
    requires Distinct(Ids(stories)) && CertifiedClosed(stories)
    ensures CertifiedClosed(Rounds(stories, n))
    decreases n
  {
    hide CertifiedClosed;
    if n > 0 {
      RoundKeepsClosure(stories);
      assert Ids(CertifyReady(stories)) == Ids(stories);
      RoundsKeepClosure(CertifyReady(stories), n - 1);
    }
  }

  lemma RoundKeepsClosure(stories: seq<Story>)
    requires Distinct(Ids(stories)) && CertifiedClosed(stories)
    ensures CertifiedClosed(CertifyReady(stories))
  {
    var next := CertifyReady(stories);
    forall t | t in next && t.status == Certified
      ensures Satisfied(t, Statuses(next))
    {
      var i :| 0 <= i < |next| && next[i] == t;
      assert stories[i] in stories;
      assert Satisfied(stories[i], Statuses(stories)) && t.dependsOn == stories[i].dependsOn;
      forall d | d in t.dependsOn
        ensures d in Statuses(next) && Statuses(next)[d] == Certified
      {
        CertifiedStaysCertified(stories, d);
      }
    }
  }

  lemma CertifiedStaysCertified(stories: seq<Story>, id: string)
    requires Distinct(Ids(stories)) && id in Statuses(stories) && Statuses(stories)[id] == Certified
    ensures id in Statuses(CertifyReady(stories)) && Statuses(CertifyReady(stories))[id] == Certified
  {
    var next := CertifyReady(stories);
    assert Ids(next) == Ids(stories);
    var i :| 0 <= i < |stories| && Ids(stories)[i] == id;
    StatusOf(stories, stories[i]);
    StatusOf(next, next[i]);
  }
}
