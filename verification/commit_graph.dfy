/** Immutable commits: a commit is its parents and its content, so no graph of them has a cycle. */
module CommitGraph {

  datatype Commit = Commit(parents: seq<Commit>, content: int)

  /** `git merge-base --is-ancestor`. */
  predicate Ancestor(a: Commit, c: Commit) {
    a == c || exists i | 0 <= i < |c.parents| :: Ancestor(a, c.parents[i])
  }

  function Size(c: Commit): nat {
    1 + Sizes(c.parents)
  }

  function Sizes(cs: seq<Commit>): nat {
    if cs == [] then 0 else Size(cs[0]) + Sizes(cs[1..])
  }

  lemma {:induction false} MemberIsSmaller(cs: seq<Commit>, i: nat)
    requires i < |cs|
    ensures Size(cs[i]) <= Sizes(cs)
  {
    if i > 0 {
      MemberIsSmaller(cs[1..], i - 1);
    }
  }

  lemma {:induction false} AncestorIsSmaller(a: Commit, c: Commit)
    requires Ancestor(a, c) && a != c
    ensures Size(a) < Size(c)
  {
    var i :| 0 <= i < |c.parents| && Ancestor(a, c.parents[i]);
    MemberIsSmaller(c.parents, i);
    if a != c.parents[i] {
      AncestorIsSmaller(a, c.parents[i]);
    }
  }

  /** No two commits contain each other. */
  lemma AncestryIsAntisymmetric(a: Commit, c: Commit)
    requires Ancestor(a, c) && Ancestor(c, a)
    ensures a == c
  {
    if a != c {
      AncestorIsSmaller(a, c);
      AncestorIsSmaller(c, a);
    }
  }

  // ---------- merging members one after the other ----------

  /** The commit obtained from `baseline` by merging the members in order, each with its own content. */
  function Fold(baseline: Commit, members: seq<Commit>, contents: seq<int>): Commit
    requires |contents| == |members|
  {
    if members == [] then baseline
    else
      var n := |members| - 1;
      Commit([Fold(baseline, members[..n], contents[..n]), members[n]], contents[n])
  }

  /** `c` merges exactly the members, in exactly this order, on top of `baseline`. */
  ghost predicate Integrates(baseline: Commit, members: seq<Commit>, c: Commit) {
    exists contents :: |contents| == |members| && Fold(baseline, members, contents) == c
  }

  lemma IntegratesNothing(baseline: Commit, c: Commit)
    ensures Integrates(baseline, [], c) <==> c == baseline
  {
    if c == baseline {
      assert Fold(baseline, [], []) == c;
    }
  }

  /** One merge more, on either side. */
  lemma IntegratesOneMore(baseline: Commit, members: seq<Commit>, member: Commit, c: Commit)
    ensures Integrates(baseline, members + [member], c)
       <==> |c.parents| == 2 && c.parents[1] == member && Integrates(baseline, members, c.parents[0])
  {
    var all := members + [member];
    assert all[..|members|] == members;
    if Integrates(baseline, all, c) {
      var contents :| |contents| == |all| && Fold(baseline, all, contents) == c;
      assert Fold(baseline, members, contents[..|members|]) == c.parents[0];
    }
    if |c.parents| == 2 && c.parents[1] == member && Integrates(baseline, members, c.parents[0]) {
      var contents :| |contents| == |members| && Fold(baseline, members, contents) == c.parents[0];
      var more := contents + [c.content];
      assert more[..|members|] == contents;
      assert c == Commit([c.parents[0], member], c.content);
      assert Fold(baseline, all, more) == c;
    }
  }

  /** `Integrates` for a given last member. */
  lemma IntegratesLast(baseline: Commit, members: seq<Commit>, c: Commit)
    requires members != []
    ensures var n := |members| - 1;
      Integrates(baseline, members, c)
      <==> |c.parents| == 2 && c.parents[1] == members[n] && Integrates(baseline, members[..n], c.parents[0])
  {
    var n := |members| - 1;
    assert members == members[..n] + [members[n]];
    IntegratesOneMore(baseline, members[..n], members[n], c);
  }

  /** An integration contains its baseline and every member. */
  lemma {:induction false} IntegrationContains(baseline: Commit, members: seq<Commit>, c: Commit)
    requires Integrates(baseline, members, c)
    ensures Ancestor(baseline, c) && forall i :: 0 <= i < |members| ==> Ancestor(members[i], c)
    decreases |members|
  {
    if members == [] {
      IntegratesNothing(baseline, c);
    } else {
      var n := |members| - 1;
      IntegratesLast(baseline, members, c);
      IntegrationContains(baseline, members[..n], c.parents[0]);
      forall i | 0 <= i < |members|
        ensures Ancestor(members[i], c)
      {
        if i < n {
          assert members[..n][i] == members[i];
        } else {
          assert Ancestor(members[i], c.parents[1]);
        }
      }
    }
  }

  /** Length of the chain of first parents. */
  function Depth(c: Commit): nat {
    if c.parents == [] then 0 else 1 + Depth(c.parents[0])
  }

  lemma {:induction false} IntegrationDepth(baseline: Commit, members: seq<Commit>, c: Commit)
    requires Integrates(baseline, members, c)
    ensures Depth(c) == Depth(baseline) + |members|
    decreases |members|
  {
    if members == [] {
      IntegratesNothing(baseline, c);
    } else {
      IntegratesLast(baseline, members, c);
      IntegrationDepth(baseline, members[..|members| - 1], c.parents[0]);
    }
  }

  /** A commit integrates at most one list of members: neither a part of it nor another order will do. */
  lemma {:induction false} IntegrationIsUnique(baseline: Commit, members: seq<Commit>, others: seq<Commit>, c: Commit)
    requires Integrates(baseline, members, c) && Integrates(baseline, others, c)
    ensures members == others
    decreases |members|
  {
    IntegrationDepth(baseline, members, c);
    IntegrationDepth(baseline, others, c);
    if members != [] {
      var n := |members| - 1;
      IntegratesLast(baseline, members, c);
      IntegratesLast(baseline, others, c);
      IntegrationIsUnique(baseline, members[..n], others[..n], c.parents[0]);
      assert members == members[..n] + [members[n]];
      assert others == others[..n] + [others[n]];
    }
  }

  /** Staging that stopped early is not an integration of all members. */
  lemma PartialIsNotWhole(baseline: Commit, members: seq<Commit>, k: nat, c: Commit)
    requires k < |members| && Integrates(baseline, members[..k], c)
    ensures !Integrates(baseline, members, c)
  {
    IntegrationDepth(baseline, members[..k], c);
    if Integrates(baseline, members, c) {
      IntegrationDepth(baseline, members, c);
    }
  }

  // ---------- what `git merge --no-ff` does ----------

  /** A member that is already contained is skipped; any other gets a merge commit of its own. */
  ghost predicate MergeStep(head: Commit, member: Commit, after: Commit) {
    if Ancestor(member, head) then after == head
    else after.parents == [head, member]
  }

  /** The heads of a staging run without conflicts. */
  ghost predicate Staging(baseline: Commit, members: seq<Commit>, heads: seq<Commit>) {
    && |heads| == |members| + 1 && heads[0] == baseline
    && forall i, j :: 0 <= i < |members| && j == i + 1 ==> MergeStep(heads[i], members[i], heads[j])
  }

  /** Staging deepens the chain of first parents by one for each member it did not skip. */
  lemma {:induction false} StagingDepth(baseline: Commit, members: seq<Commit>, heads: seq<Commit>)
    requires Staging(baseline, members, heads)
    ensures Depth(heads[|members|]) <= Depth(baseline) + |members|
    ensures Depth(heads[|members|]) == Depth(baseline) + |members| <==>
      forall i :: 0 <= i < |members| ==> !Ancestor(members[i], heads[i])
    decreases |members|
  {
    if members != [] {
      var n := |members| - 1;
      StagingDepth(baseline, members[..n], heads[..|members|]);
      assert MergeStep(heads[n], members[n], heads[|members|]);
      assert forall i :: 0 <= i < n ==> members[..n][i] == members[i] && heads[..|members|][i] == heads[i];
      if forall i :: 0 <= i < n ==> !Ancestor(members[..n][i], heads[..|members|][i]) {
      } else {
        var i :| 0 <= i < n && Ancestor(members[..n][i], heads[..|members|][i]);
        assert Ancestor(members[i], heads[i]);
      }
    }
  }

  /** A staged result is an exact integration exactly when no member was already contained. */
  lemma {:induction false} StagingIntegratesExactly(baseline: Commit, members: seq<Commit>, heads: seq<Commit>)
    requires Staging(baseline, members, heads)
    ensures Integrates(baseline, members, heads[|members|]) <==>
      forall i :: 0 <= i < |members| ==> !Ancestor(members[i], heads[i])
  {
    StagingDepth(baseline, members, heads);
    if Integrates(baseline, members, heads[|members|]) {
      IntegrationDepth(baseline, members, heads[|members|]);
    }
    if forall i :: 0 <= i < |members| ==> !Ancestor(members[i], heads[i]) {
      NewMembersIntegrate(baseline, members, heads);
    }
  }

  lemma {:induction false} NewMembersIntegrate(baseline: Commit, members: seq<Commit>, heads: seq<Commit>)
    requires Staging(baseline, members, heads)
    requires forall i :: 0 <= i < |members| ==> !Ancestor(members[i], heads[i])
    ensures Integrates(baseline, members, heads[|members|])
    decreases |members|
  {
    if members == [] {
      IntegratesNothing(baseline, heads[0]);
    } else {
      var n := |members| - 1;
      NewMembersIntegrate(baseline, members[..n], heads[..|members|]);
      assert MergeStep(heads[n], members[n], heads[|members|]);
      IntegratesLast(baseline, members, heads[|members|]);
    }
  }

  // ---------- what a caller can see before the merge ----------

  lemma {:induction false} AncestryIsTransitive(a: Commit, b: Commit, c: Commit)
    requires Ancestor(a, b) && Ancestor(b, c)
    ensures Ancestor(a, c)
    decreases c
  {
    if b != c {
      var i :| 0 <= i < |c.parents| && Ancestor(b, c.parents[i]);
      AncestryIsTransitive(a, b, c.parents[i]);
    }
  }

  /** The member at a position is contained in the baseline, or in a member before it. */
  predicate ContainedAt(baseline: Commit, members: seq<Commit>, i: nat)
    requires i < |members|
  {
    Ancestor(members[i], baseline) || exists j | 0 <= j < i :: Ancestor(members[i], members[j])
  }

  predicate SomeContained(baseline: Commit, members: seq<Commit>) {
    exists i | 0 <= i < |members| :: ContainedAt(baseline, members, i)
  }

  /** The merge commits that a staging run makes are none of some commits that were there before. */
  ghost predicate MakesNew(heads: seq<Commit>, earlier: set<Commit>) {
    forall i, j :: 0 <= i < |heads| && j == i + 1 && j < |heads| ==> heads[j] == heads[i] || heads[j] !in earlier
  }

  lemma StagedOneMore(baseline: Commit, members: seq<Commit>, i: nat, heads: seq<Commit>, head: Commit, earlier: set<Commit>)
    requires i < |members| && Staging(baseline, members[..i], heads) && MakesNew(heads, earlier)
    requires MergeStep(heads[i], members[i], head) && (head == heads[i] || head !in earlier)
    ensures Staging(baseline, members[..i + 1], heads + [head]) && MakesNew(heads + [head], earlier)
  {
    hide Ancestor;
  }

  /** What a staged head contains of the commits that were there before: what its parts contain. */
  lemma {:induction false} HeadContains(baseline: Commit, members: seq<Commit>, heads: seq<Commit>, earlier: set<Commit>, m: Commit, i: nat)
    requires Staging(baseline, members, heads) && MakesNew(heads, earlier) && m in earlier && i <= |members|
    ensures Ancestor(m, heads[i]) <==> Ancestor(m, baseline) || exists j | 0 <= j < i :: Ancestor(m, members[j])
    decreases i
  {
    if i > 0 {
      var n := i - 1;
      HeadContains(baseline, members, heads, earlier, m, n);
      assert MergeStep(heads[n], members[n], heads[i]);
      assert heads[i] == heads[n] || heads[i] !in earlier;
      if Ancestor(members[n], heads[n]) {
        if Ancestor(m, members[n]) {
          AncestryIsTransitive(m, members[n], heads[n]);
        }
      } else {
        assert Depth(heads[i]) == 1 + Depth(heads[n]);
        OneMergeContains(m, heads[n], members[n], heads[i]);
      }
    }
  }

  lemma OneMergeContains(m: Commit, head: Commit, member: Commit, after: Commit)
    requires after.parents == [head, member] && m != after
    ensures Ancestor(m, after) <==> Ancestor(m, head) || Ancestor(m, member)
  {
    assert after.parents[0] == head && after.parents[1] == member;
  }

  /**
    A staged result is an exact integration if and only if no member is contained in the baseline or
    in an earlier member: a caller can see it before the merge.
   */
  lemma IntegratesUnlessContained(baseline: Commit, members: seq<Commit>, heads: seq<Commit>, earlier: set<Commit>)
    requires Staging(baseline, members, heads) && MakesNew(heads, earlier) && forall i :: 0 <= i < |members| ==> members[i] in earlier
    ensures Integrates(baseline, members, heads[|members|]) <==> !SomeContained(baseline, members)
  {
    StagingIntegratesExactly(baseline, members, heads);
    forall i | 0 <= i < |members|
      ensures Ancestor(members[i], heads[i]) <==> ContainedAt(baseline, members, i)
    {
      HeadContains(baseline, members, heads, earlier, members[i], i);
    }
  }

  /** There is always a merge commit that was not there before. */
  lemma {:induction false} NewContent(parents: seq<Commit>, earlier: set<Commit>) returns (content: int)
    ensures forall c :: c >= content ==> Commit(parents, c) !in earlier
    decreases |earlier|
  {
    if earlier == {} {
      content := 0;
    } else {
      var e :| e in earlier;
      content := NewContent(parents, earlier - {e});
      if content <= e.content {
        content := e.content + 1;
      }
    }
  }

  const ROOT: Commit := Commit([], 0)
  const WORK: Commit := Commit([ROOT], 1)

  /** The same work twice: Git makes one merge of it, and the walk refuses the result, whatever the merge is. */
  lemma SameWorkTwiceIsRefused()
    ensures SomeContained(ROOT, [WORK, WORK])
    ensures Staging(ROOT, [WORK, WORK], [ROOT, Commit([ROOT, WORK], 2), Commit([ROOT, WORK], 2)])
    ensures forall heads :: Staging(ROOT, [WORK, WORK], heads) ==> !Integrates(ROOT, [WORK, WORK], heads[2])
  {
    var members, merge := [WORK, WORK], Commit([ROOT, WORK], 2);
    assert Ancestor(members[1], members[0]);
    assert ContainedAt(ROOT, members, 1);
    assert !Ancestor(WORK, ROOT);
    assert Ancestor(WORK, merge.parents[1]);
    var run := [ROOT, merge, merge];
    assert MergeStep(run[0], members[0], run[1]) && MergeStep(run[1], members[1], run[2]);
    forall heads: seq<Commit> | Staging(ROOT, members, heads)
      ensures !Integrates(ROOT, members, heads[2])
    {
      assert MergeStep(heads[0], members[0], heads[1]);
      assert Ancestor(members[1], heads[1].parents[1]);
      StagingIntegratesExactly(ROOT, members, heads);
    }
  }
}
