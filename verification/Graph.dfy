/**
 Dependency graphs of pipeline jobs, stated without reference to any algorithm:
 paths, cycles, topological orders and longest dependency chains.
 */
module Graph {

  type Name = string

  /** Every job name with the names it depends on. */
  type Deps = map<Name, seq<Name>>

  /** Every dependency is itself a job. */
  ghost predicate Closed(g: Deps) {
    forall n, d :: n in g && d in g[n] ==> d in g
  }

  /** Each element of `p` depends directly on the next one. */
  ghost predicate IsPath(g: Deps, p: seq<Name>) {
    forall i :: 0 <= i < |p| - 1 ==> p[i] in g && p[i + 1] in g[p[i]]
  }

  ghost predicate IsCycle(g: Deps, p: seq<Name>) {
    IsPath(g, p) && |p| >= 2 && p[0] == p[|p| - 1]
  }

  ghost predicate Acyclic(g: Deps) {
    forall p :: !IsCycle(g, p)
  }

  ghost predicate Distinct<T(!new)>(s: seq<T>) {
    forall i, j :: 0 <= i < j < |s| ==> s[i] != s[j]
  }

  /** Dependencies come strictly earlier in `order`. */
  ghost predicate Topological(g: Deps, order: seq<Name>) {
    && Distinct(order)
    && forall i :: 0 <= i < |order| ==> order[i] in g && forall d :: d in g[order[i]] ==> d in order[..i]
  }

  /** Appending a job whose dependencies are all listed keeps an order topological. */
  lemma TopologicalExtend(g: Deps, order: seq<Name>, n: Name)
    requires Topological(g, order) && n in g && n !in order
    requires forall d :: d in g[n] ==> d in order
    ensures Topological(g, order + [n])
  {
    var longer := order + [n];
    forall i | 0 <= i < |longer|
      ensures longer[i] in g && forall d :: d in g[longer[i]] ==> d in longer[..i]
    {
      assert i < |order| ==> longer[..i] == order[..i];
      assert i == |order| ==> longer[..i] == order;
    }
  }

  /** A topological order of all jobs rules out every cycle. */
  lemma TopologicalIsAcyclic(g: Deps, order: seq<Name>)
    requires Topological(g, order)
    requires forall n :: n in g ==> n in order
    ensures Acyclic(g)
  {
    forall p | IsCycle(g, p)
      ensures false
    {
      PathGoesBack(g, order, p, |p| - 1);
    }
  }

  /** Along a path, positions in a topological order strictly decrease. */
  lemma {:induction false} PathGoesBack(g: Deps, order: seq<Name>, p: seq<Name>, k: nat)
    requires Topological(g, order)
    requires forall n :: n in g ==> n in order
    requires IsPath(g, p) && 1 <= k < |p|
    ensures exists i, j :: 0 <= j < i < |order| && order[i] == p[0] && order[j] == p[k]
  {
    if k == 1 {
      assert p[0] in g && p[1] in g[p[0]];
      var i :| 0 <= i < |order| && order[i] == p[0];
      assert p[1] in order[..i];
      var j :| 0 <= j < i && order[..i][j] == p[1];
      assert order[j] == p[k];
    } else {
      PathGoesBack(g, order, p, k - 1);
      var i, m :| 0 <= m < i < |order| && order[i] == p[0] && order[m] == p[k - 1];
      assert p[k - 1] in g && p[k - 1 + 1] in g[p[k - 1]];
      assert p[k] in order[..m];
      var j :| 0 <= j < m && order[..m][j] == p[k];
      assert order[j] == p[k];
    }
  }

  /** There is a chain of `k` dependencies starting at `n`. */
  ghost predicate HasChain(g: Deps, n: Name, k: nat)
    decreases k
  {
    n in g && (k == 0 || exists d :: d in g[n] && HasChain(g, d, k - 1))
  }

  /** A chain of `k` dependencies is a path over `k + 1` jobs. */
  lemma {:induction false} ChainPath(g: Deps, n: Name, k: nat) returns (p: seq<Name>)
    requires HasChain(g, n, k)
    ensures |p| == k + 1 && p[0] == n && IsPath(g, p)
    ensures forall x :: x in p ==> x in g
    decreases k
  {
    if k == 0 {
      p := [n];
    } else {
      var d :| d in g[n] && HasChain(g, d, k - 1);
      var q := ChainPath(g, d, k - 1);
      p := [n] + q;
    }
  }

  lemma {:induction false} ChainShorter(g: Deps, n: Name, k: nat, l: nat)
    requires HasChain(g, n, k) && l <= k
    ensures HasChain(g, n, l)
    decreases k
  {
    if l > 0 {
      var d :| d in g[n] && HasChain(g, d, k - 1);
      ChainShorter(g, d, k - 1, l - 1);
    }
  }

  /** Pigeonhole: a duplicate-free sequence over a finite set is no longer than the set. */
  lemma {:induction false} DistinctBounded<T(!new)>(s: seq<T>, xs: set<T>)
    requires Distinct(s) && forall x :: x in s ==> x in xs
    ensures |s| <= |xs|
  {
    if s != [] {
      var last := s[|s| - 1];
      DistinctBounded(s[..|s| - 1], xs - {last});
    }
  }

  /** In an acyclic graph no chain has as many dependencies as there are jobs. */
  lemma ChainBounded(g: Deps, n: Name, k: nat)
    requires Acyclic(g) && HasChain(g, n, k)
    ensures k < |g.Keys|
  {
    var p := ChainPath(g, n, k);
    if i, j :| 0 <= i < j < |p| && p[i] == p[j] {
      var c := p[i..j + 1];
      assert IsPath(g, c) by {
        forall m | 0 <= m < |c| - 1
          ensures c[m] in g && c[m + 1] in g[c[m]]
        {
          assert c[m] == p[i + m] && c[m + 1] == p[i + m + 1];
        }
      }
      assert IsCycle(g, c);
      assert false;
    }
    DistinctBounded(p, g.Keys);
  }

  /** The number of dependencies on the longest chain starting at `n`. */
  ghost function Depth(g: Deps, n: Name): (k: nat)
    requires Acyclic(g) && n in g
    ensures HasChain(g, n, k) && !HasChain(g, n, k + 1)
  {
    ChainEnds(g, n, 0);
    var k: nat :| HasChain(g, n, k) && !HasChain(g, n, k + 1);
    k
  }

  lemma {:induction false} ChainEnds(g: Deps, n: Name, k: nat)
    requires Acyclic(g) && HasChain(g, n, k)
    ensures exists l: nat :: HasChain(g, n, l) && !HasChain(g, n, l + 1)
    decreases |g.Keys| - k
  {
    ChainBounded(g, n, k);
    if HasChain(g, n, k + 1) {
      ChainEnds(g, n, k + 1);
    }
  }

  /** `Depth` is the only chain length that cannot be extended, and bounds all chains. */
  lemma DepthIsLongest(g: Deps, n: Name, k: nat)
    requires Acyclic(g) && n in g
    ensures HasChain(g, n, k) <==> k <= Depth(g, n)
  {
    if HasChain(g, n, k) && k > Depth(g, n) {
      ChainShorter(g, n, k, Depth(g, n) + 1);
    } else if k <= Depth(g, n) {
      ChainShorter(g, n, Depth(g, n), k);
    }
  }

  /** A dependency lies strictly deeper down: its own longest chain is shorter. */
  lemma DependencyShallower(g: Deps, n: Name, d: Name)
    requires Acyclic(g) && Closed(g) && n in g && d in g[n]
    ensures Depth(g, d) < Depth(g, n)
  {
    assert HasChain(g, n, Depth(g, d) + 1);
    DepthIsLongest(g, n, Depth(g, d) + 1);
  }

  /** A job that is not a root has a dependency exactly one level below it. */
  lemma DependencyBelow(g: Deps, n: Name) returns (d: Name)
    requires Acyclic(g) && Closed(g) && n in g && Depth(g, n) > 0
    ensures d in g[n] && d in g && Depth(g, d) == Depth(g, n) - 1
  {
    var k := Depth(g, n);
    d :| d in g[n] && HasChain(g, d, k - 1);
    DepthIsLongest(g, d, k - 1);
    DependencyShallower(g, n, d);
  }
}
