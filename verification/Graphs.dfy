/** Chains and cycles in a finite graph of names. */
module Graphs {
  type Graph = map<string, seq<string>>

  /** Every successor is a node. */
  ghost predicate Closed(g: Graph) {
    forall x, i | x in g && 0 <= i < |g[x]| :: g[x][i] in g
  }

  /** A chain of n steps starts at x. */
  ghost predicate HasChain(g: Graph, x: string, n: nat)
    requires Closed(g) && x in g
    decreases n
  {
    n == 0 || exists i | 0 <= i < |g[x]| :: HasChain(g, g[x][i], n - 1)
  }

  ghost predicate IsWalk(g: Graph, w: seq<string>) {
    && w != []
    && (forall i | 0 <= i < |w| :: w[i] in g)
    && (forall i | 0 <= i < |w| - 1 :: w[i + 1] in g[w[i]])
  }

  ghost predicate Repeats(w: seq<string>) { exists i, j :: 0 <= i < j < |w| && w[i] == w[j] }

  /** Some walk from x visits a node twice. */
  ghost predicate ReachesCycle(g: Graph, x: string) {
    exists w :: IsWalk(g, w) && w[0] == x && Repeats(w)
  }

  lemma WalkGoesOn(g: Graph, w: seq<string>)
    requires IsWalk(g, w) && |w| > 1
    ensures IsWalk(g, w[1..])
  {
    forall k | 0 <= k < |w| - 2 ensures w[1..][k + 1] in g[w[1..][k]] {
      assert w[k + 1 + 1] in g[w[k + 1]];
    }
  }

  lemma {:induction false} ChainFromWalk(g: Graph, w: seq<string>)
    requires Closed(g) && IsWalk(g, w)
    ensures HasChain(g, w[0], |w| - 1)
    decreases |w|
  {
    if |w| > 1 {
      var i :| 0 <= i < |g[w[0]]| && g[w[0]][i] == w[1];
      WalkGoesOn(g, w);
      ChainFromWalk(g, w[1..]);
    }
  }

  lemma {:induction false} WalkFromChain(g: Graph, x: string, n: nat) returns (w: seq<string>)
    requires Closed(g) && x in g && HasChain(g, x, n)
    ensures IsWalk(g, w) && w[0] == x && |w| == n + 1
    decreases n
  {
    if n == 0 {
      w := [x];
    } else {
      var i :| 0 <= i < |g[x]| && HasChain(g, g[x][i], n - 1);
      var rest := WalkFromChain(g, g[x][i], n - 1);
      w := [x] + rest;
    }
  }

  lemma {:induction false} ShorterChain(g: Graph, x: string, n: nat, m: nat)
    requires Closed(g) && x in g && HasChain(g, x, n) && m <= n
    ensures HasChain(g, x, m)
    decreases m
  {
    if m > 0 {
      var i :| 0 <= i < |g[x]| && HasChain(g, g[x][i], n - 1);
      ShorterChain(g, g[x][i], n - 1, m - 1);
    }
  }

  /** On a walk that comes back from j to i, chains never end. */
  lemma {:induction false} EndlessChain(g: Graph, w: seq<string>, i: nat, j: nat, k: nat, n: nat)
    requires Closed(g) && IsWalk(g, w) && i < j < |w| && w[i] == w[j] && k < j
    ensures HasChain(g, w[k], n)
    decreases n
  {
    if n > 0 {
      var next := if k + 1 < j then k + 1 else i;
      EndlessChain(g, w, i, j, next, n - 1);
      assert w[k + 1] == w[next] && w[k + 1] in g[w[k]];
      var s :| 0 <= s < |g[w[k]]| && g[w[k]][s] == w[next];
    }
  }

  lemma CycleHasEndlessChain(g: Graph, x: string, n: nat)
    requires Closed(g) && x in g && ReachesCycle(g, x)
    ensures HasChain(g, x, n)
  {
    var w :| IsWalk(g, w) && w[0] == x && Repeats(w);
    var i, j :| 0 <= i < j < |w| && w[i] == w[j];
    EndlessChain(g, w, i, j, 0, n);
  }

  /** More places than values: some value comes twice. */
  lemma {:induction false} PigeonHole(w: seq<string>, values: set<string>)
    requires (forall i | 0 <= i < |w| :: w[i] in values) && |w| > |values|
    ensures Repeats(w)
    decreases |w|
  {
    var last := w[|w| - 1];
    var rest := w[..|w| - 1];
    if i :| 0 <= i < |rest| && rest[i] == last {
      assert w[i] == w[|w| - 1];
    } else {
      PigeonHole(rest, values - {last});
      var i, j :| 0 <= i < j < |rest| && rest[i] == rest[j];
      assert w[i] == w[j];
    }
  }

  lemma LongChainHasCycle(g: Graph, x: string, n: nat)
    requires Closed(g) && x in g && HasChain(g, x, n) && n >= |g.Keys|
    ensures ReachesCycle(g, x)
  {
    var w := WalkFromChain(g, x, n);
    PigeonHole(w, g.Keys);
  }

  /** In a graph of at most n nodes, a chain of n steps is a cycle, and the other way round. */
  lemma ChainsAreCycles(g: Graph, x: string, n: nat)
    requires Closed(g) && x in g && n >= |g.Keys|
    ensures HasChain(g, x, n) <==> ReachesCycle(g, x)
  {
    if HasChain(g, x, n) {
      LongChainHasCycle(g, x, n);
    } else if ReachesCycle(g, x) {
      CycleHasEndlessChain(g, x, n);
    }
  }
}
