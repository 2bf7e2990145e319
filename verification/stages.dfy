/** What it means that a history passes some stages in their order. */
module Stages {
  /** The stages are passed in their order, whatever is passed in between. */
  ghost predicate Passes<T>(history: seq<T>, stages: seq<T>)
    decreases |stages|
  {
    stages == [] || exists k :: 0 <= k < |history| && history[k] == stages[0] && Passes(history[k + 1..], stages[1..])
  }

  lemma PassesLater<T>(history: seq<T>, stages: seq<T>, first: T)
    requires Passes(history, stages)
    ensures Passes([first] + history, stages)
  {
    if stages != [] {
      var k :| 0 <= k < |history| && history[k] == stages[0] && Passes(history[k + 1..], stages[1..]);
      var longer := [first] + history;
      assert longer[k + 1] == stages[0] && longer[k + 2..] == history[k + 1..];
    }
  }

  lemma PassesFirst<T>(history: seq<T>, stages: seq<T>)
    requires history != [] && stages != [] && history[0] == stages[0] && Passes(history[1..], stages[1..])
    ensures Passes(history, stages)
  {
    assert history[0 + 1..] == history[1..];
  }

  /** Who passes some stages passes their last ones. */
  lemma {:induction false} PassesSuffix<T>(history: seq<T>, stages: seq<T>, n: nat)
    requires Passes(history, stages) && n <= |stages|
    ensures Passes(history, stages[n..])
    decreases n
  {
    if n > 0 {
      var k :| 0 <= k < |history| && history[k] == stages[0] && Passes(history[k + 1..], stages[1..]);
      PassesSuffix(history[k + 1..], stages[1..], n - 1);
      assert stages[1..][n - 1..] == stages[n..];
      PassesAfter(history, k + 1, stages[n..]);
    }
  }

  lemma PassesAfter<T>(history: seq<T>, from: nat, stages: seq<T>)
    requires from <= |history| && Passes(history[from..], stages)
    ensures Passes(history, stages)
  {
    if stages != [] {
      var k :| 0 <= k < |history[from..]| && history[from..][k] == stages[0] && Passes(history[from..][k + 1..], stages[1..]);
      assert history[from + k] == stages[0] && history[from + k + 1..] == history[from..][k + 1..];
    }
  }
}
