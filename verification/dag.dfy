/** Dependency graphs of user stories: `dag_validator.py`. */
module Dag {
  import opened Wrappers
  import opened Ordering
  import opened Domain

  /** The fields of a user story that the dependency graph reads. */
  datatype Story = Story(id: string, status: StoryStatus, dependsOn: seq<string>, approvalApplied: bool)

  /** A directed edge from a dependency to its dependent. */
  datatype Edge = Edge(dependency: string, dependent: string)

  datatype Color = White | Grey | Black

  type Adjacency = map<string, seq<string>>

  // ---------- walks ----------

  ghost predicate Walk(edges: set<Edge>, w: seq<string>) {
    forall i, j :: 0 <= i < j < |w| && j == i + 1 ==> Edge(w[i], w[j]) in edges
  }

  ghost predicate ClosedWalk(edges: set<Edge>, w: seq<string>) {
    w != [] && Walk(edges, w) && Edge(w[|w| - 1], w[0]) in edges
  }

  ghost predicate Acyclic(edges: set<Edge>) {
    forall w :: !ClosedWalk(edges, w)
  }

  /** A finishing order: every edge leads to a node that was finished earlier. */
  ghost predicate Finishing(edges: set<Edge>, rank: map<string, nat>) {
    forall e :: e in edges ==> e.dependency in rank && e.dependent in rank && rank[e.dependent] < rank[e.dependency]
  }

  lemma {:induction false} RankFallsAlongWalk(edges: set<Edge>, rank: map<string, nat>, w: seq<string>)
    requires Finishing(edges, rank) && Walk(edges, w) && w != [] && w[0] in rank
    ensures w[|w| - 1] in rank && rank[w[|w| - 1]] <= rank[w[0]]
  {
    if |w| > 1 {
      var front := w[..|w| - 1];
      assert forall i :: 0 <= i < |front| ==> front[i] == w[i];
      RankFallsAlongWalk(edges, rank, front);
      assert Edge(w[|w| - 2], w[|w| - 1]) in edges;
    }
  }

  lemma FinishingMeansAcyclic(edges: set<Edge>, rank: map<string, nat>)
    requires Finishing(edges, rank)
    ensures Acyclic(edges)
  {
    forall w | ClosedWalk(edges, w)
      ensures false
    {
      RankFallsAlongWalk(edges, rank, w);
    }
  }

  // ---------- _find_cycle ----------

  ghost function EdgesOf(adjacency: Adjacency): set<Edge> {
    set n, x | n in adjacency && x in adjacency[n] :: Edge(n, x)
  }

  ghost predicate Closed(adjacency: Adjacency) {
    forall n, x :: n in adjacency && x in adjacency[n] ==> x in adjacency
  }

  /** The first two loops of `_find_cycle`. */
  method BuildAdjacency(nodes: seq<string>, edges: seq<Edge>) returns (adjacency: Adjacency)
    requires forall e :: e in edges ==> e.dependency in nodes && e.dependent in nodes
    ensures adjacency.Keys == Elements(nodes)
    ensures EdgesOf(adjacency) == Elements(edges)
    ensures Closed(adjacency)
    ensures forall n :: n in adjacency ==> SortedBy(StringLeq, adjacency[n])
  {
    var lists: Adjacency := map n | n in nodes :: [];
    for i := 0 to |edges|
      invariant lists.Keys == Elements(nodes)
      invariant EdgesOf(lists) == Elements(edges[..i])
    {
      var e := edges[i];
      ghost var earlier := lists;
      lists := lists[e.dependency := lists[e.dependency] + [e.dependent]];
      EdgesAfterAppend(earlier, lists, e);
      assert edges[..i + 1] == edges[..i] + [e];
    }
    assert edges[..|edges|] == edges;
    adjacency := map n | n in lists :: SortStrings(lists[n]);
    assert EdgesOf(adjacency) == EdgesOf(lists);
    forall n, x | n in adjacency && x in adjacency[n]
      ensures x in adjacency
    {
      assert Edge(n, x) in EdgesOf(adjacency);
    }
  }

  lemma EdgesAfterAppend(before: Adjacency, after: Adjacency, e: Edge)
    requires e.dependency in before
    requires after == before[e.dependency := before[e.dependency] + [e.dependent]]
    ensures EdgesOf(after) == EdgesOf(before) + {e}
  {
    forall f
      ensures f in EdgesOf(after) <==> f in EdgesOf(before) + {e}
    {
      assert f in EdgesOf(before) <==> f.dependency in before && f.dependent in before[f.dependency];
      assert f in EdgesOf(after) <==> f.dependency in after && f.dependent in after[f.dependency];
    }
  }

  /** Black nodes have only black dependents, each finished before them. */
  ghost predicate Finished(adjacency: Adjacency, colors: map<string, Color>, rank: map<string, nat>) {
    && colors.Keys == adjacency.Keys
    && (forall n :: n in adjacency ==> (colors[n] == Black <==> n in rank))
    && (forall n :: n in rank ==> n in adjacency && rank[n] < |rank|)
    && (forall n, x :: n in rank && x in adjacency[n] ==> x in rank && rank[x] < rank[n])
  }

  /** The grey nodes are the search path, which follows edges. */
  ghost predicate OnPath(adjacency: Adjacency, colors: map<string, Color>, path: seq<string>, positions: map<string, nat>)
    requires colors.Keys == adjacency.Keys
  {
    && positions.Keys == Elements(path)
    && (forall n :: n in adjacency ==> (colors[n] == Grey <==> n in positions))
    && (forall i :: 0 <= i < |path| ==> path[i] in adjacency && positions[path[i]] == i)
    && (forall i, j :: 0 <= i < j < |path| && j == i + 1 ==> path[j] in adjacency[path[i]])
  }

  /** A dependent that is finished, or is being explored as the next node of the path. */
  ghost predicate Behind(colors: map<string, Color>, path: seq<string>, i: nat, x: string)
    requires x in colors
  {
    colors[x] == Black || (i + 1 < |path| && x == path[i + 1])
  }

  /** Each frame has only black dependents behind its index, but for the next path node. */
  ghost predicate Explored(adjacency: Adjacency, colors: map<string, Color>, path: seq<string>, frames: seq<(string, nat)>)
    requires colors.Keys == adjacency.Keys && Closed(adjacency)
    requires forall i :: 0 <= i < |path| ==> path[i] in adjacency
  {
    && |frames| == |path|
    && (forall i {:trigger frames[i]} :: 0 <= i < |path| ==> frames[i].0 == path[i] && frames[i].1 <= |adjacency[path[i]]|)
    && (forall i, j :: 0 <= i < |path| && 0 <= j < frames[i].1 ==>
          Behind(colors, path, i, adjacency[path[i]][j]))
  }

  ghost predicate Searching(adjacency: Adjacency, colors: map<string, Color>, path: seq<string>, positions: map<string, nat>,
                            frames: seq<(string, nat)>, rank: map<string, nat>)
    requires Closed(adjacency)
  {
    && colors.Keys == adjacency.Keys
    && Finished(adjacency, colors, rank)
    && OnPath(adjacency, colors, path, positions)
    && Explored(adjacency, colors, path, frames)
  }

  ghost function Whites(colors: map<string, Color>): set<string> {
    set n | n in colors && colors[n] == White
  }

  lemma StartKeepsSearching(adjacency: Adjacency, colors: map<string, Color>, n: string, rank: map<string, nat>)
    requires Closed(adjacency) && Searching(adjacency, colors, [], map[], [], rank)
    requires n in adjacency && colors[n] == White
    ensures Searching(adjacency, colors[n := Grey], [n], map[n := 0], [(n, 0)], rank)
  {
  }

  /** A node may be finished once all its dependents are. */
  lemma FinishNode(adjacency: Adjacency, colors: map<string, Color>, n: string, rank: map<string, nat>)
    requires Finished(adjacency, colors, rank)
    requires n in adjacency && colors[n] != Black
    requires forall x :: x in adjacency[n] ==> x in colors && colors[x] == Black
    ensures Finished(adjacency, colors[n := Black], rank[n := |rank|])
  {
    assert n !in rank;
    OneRankMore(rank, n);
  }

  lemma OneRankMore(rank: map<string, nat>, n: string)
    requires n !in rank
    ensures |rank[n := |rank|]| == |rank| + 1
  {
    var after := rank[n := |rank|];
    assert after.Keys == rank.Keys + {n};
    assert |after| == |after.Keys| == |rank| + 1;
  }

  lemma LastFrameIsBehind(adjacency: Adjacency, colors: map<string, Color>, path: seq<string>, frames: seq<(string, nat)>)
    requires Closed(adjacency) && colors.Keys == adjacency.Keys
    requires path != [] && forall i :: 0 <= i < |path| ==> path[i] in adjacency
    requires Explored(adjacency, colors, path, frames)
    requires frames[|path| - 1].1 == |adjacency[path[|path| - 1]]|
    ensures forall x :: x in adjacency[path[|path| - 1]] ==> x in colors && colors[x] == Black
  {
    var last := |path| - 1;
    forall x | x in adjacency[path[last]]
      ensures x in colors && colors[x] == Black
    {
      var j :| 0 <= j < |adjacency[path[last]]| && adjacency[path[last]][j] == x;
      assert Behind(colors, path, last, adjacency[path[last]][j]);
    }
  }

  lemma PopKeepsPath(adjacency: Adjacency, colors: map<string, Color>, path: seq<string>, positions: map<string, nat>)
    requires colors.Keys == adjacency.Keys && OnPath(adjacency, colors, path, positions) && path != []
    ensures var n := path[|path| - 1];
      OnPath(adjacency, colors[n := Black], path[..|path| - 1], positions - {n})
  {
    var last := |path| - 1;
    var n := path[last];
    assert path == path[..last] + [n];
    assert forall i :: 0 <= i < last ==> positions[path[i]] == i;
    assert Elements(path[..last]) == Elements(path) - {n};
    assert (positions - {n}).Keys == positions.Keys - {n};
  }

  lemma PopKeepsExplored(adjacency: Adjacency, colors: map<string, Color>, path: seq<string>, frames: seq<(string, nat)>)
    requires Closed(adjacency) && colors.Keys == adjacency.Keys
    requires path != [] && forall i :: 0 <= i < |path| ==> path[i] in adjacency
    requires Explored(adjacency, colors, path, frames)
    ensures Explored(adjacency, colors[path[|path| - 1] := Black], path[..|path| - 1], frames[..|frames| - 1])
  {
    var last := |path| - 1;
    var after := colors[path[last] := Black];
    forall i, j | 0 <= i < last && 0 <= j < frames[i].1
      ensures Behind(after, path[..last], i, adjacency[path[i]][j])
    {
      assert Behind(colors, path, i, adjacency[path[i]][j]);
    }
  }

  /** The last frame is about the last node of the path, which is grey. */
  lemma TopOfPath(adjacency: Adjacency, colors: map<string, Color>, path: seq<string>, positions: map<string, nat>, frames: seq<(string, nat)>)
    requires Closed(adjacency) && colors.Keys == adjacency.Keys && OnPath(adjacency, colors, path, positions)
    requires Explored(adjacency, colors, path, frames) && frames != []
    ensures |frames| == |path| && frames[|frames| - 1].0 == path[|path| - 1] && path[|path| - 1] in adjacency
    ensures colors[path[|path| - 1]] == Grey
    ensures forall i :: 0 <= i < |path| ==> path[i] in adjacency
  {
    assert path[|path| - 1] in positions;
  }

  lemma PopKeepsSearching(adjacency: Adjacency, colors: map<string, Color>, path: seq<string>, positions: map<string, nat>,
                          frames: seq<(string, nat)>, rank: map<string, nat>, n: string, index: nat)
    requires Closed(adjacency) && Searching(adjacency, colors, path, positions, frames, rank)
    requires frames != [] && frames[|frames| - 1] == (n, index) && index == |adjacency[n]|
    ensures Searching(adjacency, colors[n := Black], path[..|path| - 1], positions - {n}, frames[..|frames| - 1], rank[n := |rank|])
    ensures Whites(colors[n := Black]) == Whites(colors)
    ensures n == path[|path| - 1]
  {
    TopOfPath(adjacency, colors, path, positions, frames);
    hide Finished;
    hide OnPath;
    hide Explored;
    hide Closed;
    LastFrameIsBehind(adjacency, colors, path, frames);
    FinishNode(adjacency, colors, n, rank);
    PopKeepsPath(adjacency, colors, path, positions);
    PopKeepsExplored(adjacency, colors, path, frames);
  }

  lemma AdvanceKeepsSearching(adjacency: Adjacency, colors: map<string, Color>, path: seq<string>, positions: map<string, nat>,
                              frames: seq<(string, nat)>, rank: map<string, nat>, n: string, index: nat)
    requires Closed(adjacency) && Searching(adjacency, colors, path, positions, frames, rank)
    requires frames != [] && frames[|frames| - 1] == (n, index) && index < |adjacency[n]|
    requires colors[adjacency[n][index]] == Black
    ensures Searching(adjacency, colors, path, positions, frames[|frames| - 1 := (n, index + 1)], rank)
  {
  }

  lemma PushKeepsPath(adjacency: Adjacency, colors: map<string, Color>, path: seq<string>, positions: map<string, nat>, x: string)
    requires colors.Keys == adjacency.Keys && OnPath(adjacency, colors, path, positions)
    requires path != [] && x in adjacency && x in adjacency[path[|path| - 1]] && colors[x] == White
    ensures OnPath(adjacency, colors[x := Grey], path + [x], positions[x := |path|])
  {
    assert x !in positions && x !in Elements(path);
    assert Elements(path + [x]) == Elements(path) + {x};
  }

  lemma PushKeepsExplored(adjacency: Adjacency, colors: map<string, Color>, path: seq<string>, frames: seq<(string, nat)>, x: string)
    requires Closed(adjacency) && colors.Keys == adjacency.Keys
    requires path != [] && forall i :: 0 <= i < |path| ==> path[i] in adjacency
    requires Explored(adjacency, colors, path, frames)
    requires frames[|path| - 1].1 < |adjacency[path[|path| - 1]]| && x == adjacency[path[|path| - 1]][frames[|path| - 1].1]
    requires colors[x] == White
    ensures var (n, index) := frames[|path| - 1];
      Explored(adjacency, colors[x := Grey], path + [x], frames[|frames| - 1 := (n, index + 1)] + [(x, 0)])
  {
    var last := |path| - 1;
    var (n, index) := frames[last];
    var after, longer := colors[x := Grey], path + [x];
    var deeper := frames[last := (n, index + 1)] + [(x, 0)];
    forall i, j | 0 <= i < |longer| && 0 <= j < deeper[i].1
      ensures Behind(after, longer, i, adjacency[longer[i]][j])
    {
      if i < last || j < index {
        assert Behind(colors, path, i, adjacency[path[i]][j]);
      }
    }
  }

  lemma PushKeepsSearching(adjacency: Adjacency, colors: map<string, Color>, path: seq<string>, positions: map<string, nat>,
                           frames: seq<(string, nat)>, rank: map<string, nat>, n: string, index: nat, x: string)
    requires Closed(adjacency) && Searching(adjacency, colors, path, positions, frames, rank)
    requires frames != [] && frames[|frames| - 1] == (n, index) && index < |adjacency[n]|
    requires x == adjacency[n][index] && colors[x] == White
    ensures Searching(adjacency, colors[x := Grey], path + [x], positions[x := |path|],
                      frames[|frames| - 1 := (n, index + 1)] + [(x, 0)], rank)
    ensures Whites(colors[x := Grey]) < Whites(colors)
  {
    assert x in Whites(colors) && x !in Whites(colors[x := Grey]);
    PushKeepsPath(adjacency, colors, path, positions, x);
    PushKeepsExplored(adjacency, colors, path, frames, x);
    assert Finished(adjacency, colors[x := Grey], rank);
  }

  /** Meeting a grey dependent closes a walk along the path. */
  lemma GreyDependentClosesWalk(adjacency: Adjacency, colors: map<string, Color>, path: seq<string>, positions: map<string, nat>,
                                frames: seq<(string, nat)>, rank: map<string, nat>, n: string, x: string)
    requires Closed(adjacency) && Searching(adjacency, colors, path, positions, frames, rank)
    requires path != [] && n == path[|path| - 1] && x in adjacency[n] && colors[x] == Grey
    ensures x in positions && positions[x] < |path|
    ensures path[positions[x]..] != []
    ensures Distinct(path[positions[x]..]) && ClosedWalk(EdgesOf(adjacency), path[positions[x]..])
  {
    assert x in Elements(path);
    var cycle := path[positions[x]..];
    assert forall i :: 0 <= i < |cycle| ==> cycle[i] == path[positions[x] + i];
    assert Edge(path[|path| - 1], x) in EdgesOf(adjacency);
    forall i, j | 0 <= i < j < |cycle| && j == i + 1
      ensures Edge(cycle[i], cycle[j]) in EdgesOf(adjacency)
    {
      assert path[positions[x] + j] in adjacency[path[positions[x] + i]];
    }
  }

  lemma TopFrame(adjacency: Adjacency, colors: map<string, Color>, path: seq<string>, positions: map<string, nat>,
                 frames: seq<(string, nat)>, rank: map<string, nat>)
    requires Closed(adjacency) && Searching(adjacency, colors, path, positions, frames, rank)
    ensures |frames| == |path| && colors.Keys == adjacency.Keys && positions.Keys == Elements(path)
    ensures frames != [] ==>
      var (n, index) := frames[|frames| - 1];
      n == path[|path| - 1] && n in adjacency && n in positions && index <= |adjacency[n]|
  {
  }

  lemma InitiallySearching(adjacency: Adjacency, colors: map<string, Color>)
    requires Closed(adjacency) && colors.Keys == adjacency.Keys
    requires forall n :: n in colors ==> colors[n] == White
    ensures Searching(adjacency, colors, [], map[], [], map[])
  {
  }

  /** Between two passes of the outer loop no node is grey. */
  lemma IdleNodeIsFinished(adjacency: Adjacency, colors: map<string, Color>, rank: map<string, nat>, n: string)
    requires Closed(adjacency) && Searching(adjacency, colors, [], map[], [], rank)
    requires n in adjacency && colors[n] != White
    ensures n in rank
  {
  }

  lemma EverythingFinished(adjacency: Adjacency, colors: map<string, Color>, order: seq<string>, rank: map<string, nat>)
    requires Closed(adjacency) && Searching(adjacency, colors, [], map[], [], rank)
    requires forall n :: n in adjacency ==> n in order
    requires forall n :: n in order[..|order|] ==> n in rank
    ensures Finishing(EdgesOf(adjacency), rank)
  {
    forall e | e in EdgesOf(adjacency)
      ensures e.dependency in rank && e.dependent in rank && rank[e.dependent] < rank[e.dependency]
    {
      assert e.dependency in order;
    }
  }

  /**
    `_find_cycle`: terminates, reports no cycle exactly on an acyclic graph, and otherwise
    reports distinct nodes that form a closed walk.
   */
  method FindCycle(nodes: seq<string>, edges: seq<Edge>) returns (cycle: seq<string>)
    requires forall e :: e in edges ==> e.dependency in nodes && e.dependent in nodes
    ensures cycle == [] <==> Acyclic(Elements(edges))
    ensures cycle != [] ==> Distinct(cycle) && ClosedWalk(Elements(edges), cycle)
  {
    var adjacency := BuildAdjacency(nodes, edges);
    cycle := SearchAll(adjacency, SortStrings(nodes));
  }

  /** The outer loop of `_find_cycle`. */
  method SearchAll(adjacency: Adjacency, order: seq<string>) returns (cycle: seq<string>)
    requires Closed(adjacency) && forall n :: n in adjacency <==> n in order
    ensures cycle == [] ==> Acyclic(EdgesOf(adjacency))
    ensures cycle != [] ==> Distinct(cycle) && ClosedWalk(EdgesOf(adjacency), cycle)
  {
    hide Searching;
    hide ClosedWalk;
    hide Acyclic;
    hide EdgesOf;
    var colors: map<string, Color> := map n | n in adjacency :: White;
    ghost var rank: map<string, nat> := map[];
    InitiallySearching(adjacency, colors);
    for k := 0 to |order|
      invariant Searching(adjacency, colors, [], map[], [], rank)
      invariant colors.Keys == adjacency.Keys
      invariant forall n :: n in order[..k] ==> n in rank
    {
      var identifier := order[k];
      assert order[..k + 1] == order[..k] + [identifier];
      if colors[identifier] != White {
        IdleNodeIsFinished(adjacency, colors, rank, identifier);
        continue;
      }
      cycle, colors, rank := SearchFrom(adjacency, colors, identifier, rank);
      if cycle != [] {
        return;
      }
    }
    cycle := [];
    EverythingFinished(adjacency, colors, order, rank);
    FinishingMeansAcyclic(EdgesOf(adjacency), rank);
  }

  /** One pass of the outer loop of `_find_cycle`: the explicit-stack search from one node. */
  method SearchFrom(adjacency: Adjacency, before: map<string, Color>, identifier: string, ghost finished: map<string, nat>)
    returns (cycle: seq<string>, colors: map<string, Color>, ghost rank: map<string, nat>)
    requires Closed(adjacency) && Searching(adjacency, before, [], map[], [], finished)
    requires identifier in adjacency && before[identifier] == White
    ensures cycle == [] ==> Searching(adjacency, colors, [], map[], [], rank)
    ensures cycle == [] ==> identifier in rank && finished.Keys <= rank.Keys && colors.Keys == adjacency.Keys
    ensures cycle != [] ==> Distinct(cycle) && ClosedWalk(EdgesOf(adjacency), cycle)
  {
    hide Searching;
    hide ClosedWalk;
    rank := finished;
    var path := [identifier];
    var positions: map<string, nat> := map[identifier := 0];
    colors := before[identifier := Grey];
    var frames: seq<(string, nat)> := [(identifier, 0)];
    StartKeepsSearching(adjacency, before, identifier, rank);
    TopFrame(adjacency, colors, path, positions, frames, rank);
    while frames != []
      invariant |frames| == |path| && colors.Keys == adjacency.Keys && positions.Keys == Elements(path)
      invariant path != [] ==> path[|path| - 1] in adjacency
      invariant Searching(adjacency, colors, path, positions, frames, rank)
      invariant finished.Keys <= rank.Keys
      invariant if path == [] then identifier in rank else path[0] == identifier
      decreases Whites(colors), |frames|, if frames == [] then 0 else |adjacency[path[|path| - 1]]| - frames[|frames| - 1].1
    {
      var (current, nextIndex) := frames[|frames| - 1];
      TopFrame(adjacency, colors, path, positions, frames, rank);
      var dependents := adjacency[current];
      if nextIndex == |dependents| {
        PopKeepsSearching(adjacency, colors, path, positions, frames, rank, current, nextIndex);
        rank := rank[current := |rank|];
        frames := frames[..|frames| - 1];
        path := path[..|path| - 1];
        positions := positions - {current};
        colors := colors[current := Black];
      } else {
        var dependent := dependents[nextIndex];
        if colors[dependent] == White {
          PushKeepsSearching(adjacency, colors, path, positions, frames, rank, current, nextIndex, dependent);
          colors := colors[dependent := Grey];
          positions := positions[dependent := |path|];
          path := path + [dependent];
          frames := frames[|frames| - 1 := (current, nextIndex + 1)] + [(dependent, 0)];
        } else if colors[dependent] == Grey {
          GreyDependentClosesWalk(adjacency, colors, path, positions, frames, rank, current, dependent);
          cycle := path[positions[dependent]..];
          return;
        } else {
          AdvanceKeepsSearching(adjacency, colors, path, positions, frames, rank, current, nextIndex);
          frames := frames[|frames| - 1 := (current, nextIndex + 1)];
        }
      }
      TopFrame(adjacency, colors, path, positions, frames, rank);
    }
    cycle := [];
    assert path == [] && positions == map[];
  }

  // ---------- DAGValidator.build ----------

  datatype Snapshot = Snapshot(nodes: seq<string>, edges: seq<Edge>)

  datatype DagError =
    | SelfDependency(story: string)
    | DuplicateNode(ids: set<string>)
    | MissingDependency(ids: set<string>)
    | CycleDetected(cycle: seq<string>)

  function Ids(stories: seq<Story>): (ids: seq<string>)
    ensures |ids| == |stories| && forall i :: 0 <= i < |ids| ==> ids[i] == stories[i].id
  {
    seq(|stories|, i requires 0 <= i < |stories| => stories[i].id)
  }

  /** Every dependency exactly once per declaration, as an edge. */
  ghost function EdgeSet(stories: seq<Story>): set<Edge> {
    set s, d | s in stories && d in s.dependsOn :: Edge(d, s.id)
  }

  predicate SelfDependent(story: Story) {
    story.id in story.dependsOn
  }

  function MissingDependencies(stories: seq<Story>): set<string> {
    set s, d | s in stories && d in s.dependsOn && d !in Ids(stories) :: d
  }

  /** What `build` accepts. */
  ghost predicate ValidDag(stories: seq<Story>) {
    && Distinct(Ids(stories))
    && (forall s :: s in stories ==> !SelfDependent(s) && forall d :: d in s.dependsOn ==> d in Ids(stories))
    && Acyclic(EdgeSet(stories))
  }

  /** `_duplicates`. */
  method Duplicates(values: seq<string>) returns (duplicates: set<string>)
    ensures forall v :: v in duplicates <==> exists i, j :: 0 <= i < j < |values| && values[i] == v == values[j]
    ensures duplicates == {} <==> Distinct(values)
  {
    var seen: set<string> := {};
    duplicates := {};
    for k := 0 to |values|
      invariant forall v :: v in seen <==> v in values[..k]
      invariant forall v :: v in duplicates <==> exists i, j :: 0 <= i < j < k && values[i] == v == values[j]
    {
      assert values[..k + 1] == values[..k] + [values[k]];
      if values[k] in seen {
        duplicates := duplicates + {values[k]};
      }
      seen := seen + {values[k]};
    }
    if !Distinct(values) {
      var i, j :| 0 <= i < j < |values| && values[i] == values[j];
      assert values[i] in duplicates;
    }
  }

  predicate EdgeLeq(e: Edge, f: Edge) {
    if e.dependency == f.dependency then StringLeq(e.dependent, f.dependent)
    else StringLeq(e.dependency, f.dependency)
  }

  lemma EdgeOrder()
    ensures TotalOrder(EdgeLeq)
  {
    StringOrder();
  }

  function StoryEdges(story: Story): (edges: seq<Edge>)
    ensures forall e :: e in edges <==> e.dependent == story.id && e.dependency in story.dependsOn
  {
    var edges := seq(|story.dependsOn|, i requires 0 <= i < |story.dependsOn| => Edge(story.dependsOn[i], story.id));
    assert forall i :: 0 <= i < |edges| ==> edges[i] == Edge(story.dependsOn[i], story.id);
    assert forall d :: d in story.dependsOn ==> Edge(d, story.id) in edges by {
      forall d | d in story.dependsOn
        ensures Edge(d, story.id) in edges
      {
        var i :| 0 <= i < |story.dependsOn| && story.dependsOn[i] == d;
        assert edges[i] == Edge(d, story.id);
      }
    }
    edges
  }

  function AllEdges(stories: seq<Story>): (edges: seq<Edge>)
    ensures forall e :: e in edges <==> e in EdgeSet(stories)
  {
    if stories == [] then []
    else
      assert stories == [stories[0]] + stories[1..];
      StoryEdges(stories[0]) + AllEdges(stories[1..])
  }

  /** The identifiers that occur more than once. */
  function Repeated(ids: seq<string>): set<string> {
    set i, j | 0 <= i < j < |ids| && ids[i] == ids[j] :: ids[i]
  }

  /** `DAGValidator.build`: the checks, in the order the source performs them. */
  method Build(stories: seq<Story>) returns (result: Result<Snapshot, DagError>)
    ensures result.Ok? <==> ValidDag(stories)
    ensures result.Ok? ==>
      && SortedBy(StringLeq, result.value.nodes) && multiset(result.value.nodes) == multiset(Ids(stories))
      && SortedBy(EdgeLeq, result.value.edges) && Elements(result.value.edges) == EdgeSet(stories)
    ensures result.Err? ==>
      match result.error
      case SelfDependency(id) => exists s :: s in stories && s.id == id && SelfDependent(s)
      case DuplicateNode(ids) => ids == Repeated(Ids(stories)) != {} && forall s :: s in stories ==> !SelfDependent(s)
      case MissingDependency(ids) => ids == MissingDependencies(stories) != {} && Distinct(Ids(stories))
      case CycleDetected(cycle) => cycle != [] && Distinct(cycle) && ClosedWalk(EdgeSet(stories), cycle)
  {
    hide ClosedWalk;
    for k := 0 to |stories|
      invariant forall i :: 0 <= i < k ==> !SelfDependent(stories[i])
    {
      if SelfDependent(stories[k]) {
        return Err(SelfDependency(stories[k].id));
      }
    }
    var identifiers := Ids(stories);
    var duplicates := Duplicates(identifiers);
    if duplicates != {} {
      return Err(DuplicateNode(duplicates));
    }
    var missing := MissingDependencies(stories);
    MissingIsReported(stories);
    if missing != {} {
      return Err(MissingDependency(missing));
    }
    var nodes := SortStrings(identifiers);
    var edges := SortEdges(stories);
    EdgeEndpointsAreNodes(stories, edges, nodes);
    var cycle := FindCycle(nodes, edges);
    if cycle != [] {
      return Err(CycleDetected(cycle));
    }
    return Ok(Snapshot(nodes, edges));
  }

  function SortEdges(stories: seq<Story>): (edges: seq<Edge>)
    ensures SortedBy(EdgeLeq, edges) && Elements(edges) == EdgeSet(stories)
  {
    EdgeOrder();
    SortKeepsElements(EdgeLeq, AllEdges(stories));
    Sort(EdgeLeq, AllEdges(stories))
  }

  lemma SortKeepsElements<T(!new)>(leq: (T, T) -> bool, s: seq<T>)
    requires TotalOrder(leq)
    ensures Elements(Sort(leq, s)) == Elements(s)
  {
    forall x
      ensures x in Sort(leq, s) <==> x in s
    {
      assert x in multiset(Sort(leq, s)) <==> x in multiset(s);
    }
  }

  lemma MissingIsReported(stories: seq<Story>)
    ensures MissingDependencies(stories) == {} <==> forall s, d :: s in stories && d in s.dependsOn ==> d in Ids(stories)
  {
    if MissingDependencies(stories) == {} {
      forall s, d | s in stories && d in s.dependsOn
        ensures d in Ids(stories)
      {
        assert d !in MissingDependencies(stories);
      }
    }
  }

  lemma EdgeEndpointsAreNodes(stories: seq<Story>, edges: seq<Edge>, nodes: seq<string>)
    requires Elements(edges) == EdgeSet(stories)
    requires forall s, d :: s in stories && d in s.dependsOn ==> d in Ids(stories)
    requires forall x :: x in nodes <==> x in Ids(stories)
    ensures forall e :: e in edges ==> e.dependency in nodes && e.dependent in nodes
  {
    forall e | e in edges
      ensures e.dependency in nodes && e.dependent in nodes
    {
      assert e in EdgeSet(stories);
      var s :| s in stories && e.dependency in s.dependsOn && e.dependent == s.id;
      var i :| 0 <= i < |stories| && stories[i] == s;
      assert Ids(stories)[i] == s.id;
    }
  }
}
