/** Functional graphs: every node has at most one successor.  `Ends` says that
    the walk from a node comes to a stop; this is the form of acyclicity that
    the kernel's deadlock walk needs. */
module WaitGraph {

  datatype Edge = Stop | To(node: nat)

  type Graph = seq<Edge>

  predicate Closed(g: Graph) {
    forall p :: 0 <= p < |g| && g[p].To? ==> g[p].node < |g|
  }

  /** The walk from `p` stops within `k` steps. */
  predicate Ends(g: Graph, p: nat, k: nat)
    requires Closed(g) && p < |g|
    decreases k
  {
    g[p].Stop? || (k > 0 && Ends(g, g[p].node, k - 1))
  }

  predicate AllEnd(g: Graph) {
    Closed(g) && forall p :: 0 <= p < |g| ==> Ends(g, p, |g|)
  }

  /** The walk from `p` reaches `t`, having made at least one and at most `k` steps. */
  predicate Reaches(g: Graph, p: nat, t: nat, k: nat)
    requires Closed(g) && p < |g|
    decreases k
  {
    k > 0 && g[p].To? && (g[p].node == t || Reaches(g, g[p].node, t, k - 1))
  }

  lemma {:induction false} EndsMono(g: Graph, p: nat, k: nat, m: nat)
    requires Closed(g) && p < |g| && k <= m && Ends(g, p, k)
    ensures Ends(g, p, m)
    decreases k
  {
    if g[p].To? {
      EndsMono(g, g[p].node, k - 1, m - 1);
    }
  }

  /** A walk that takes exactly `k` steps visits `k + 1` nodes. */
  lemma {:induction false} WalkNodes(g: Graph, p: nat, k: nat) returns (nodes: set<nat>)
    requires Closed(g) && p < |g| && Ends(g, p, k) && (k > 0 ==> !Ends(g, p, k - 1))
    ensures |nodes| == k + 1
    ensures forall q :: q in nodes ==> q < |g| && Ends(g, q, k)
    decreases k
  {
    if k == 0 {
      nodes := {p};
    } else {
      var rest := WalkNodes(g, g[p].node, k - 1);
      assert p !in rest;
      nodes := rest + {p};
      forall q | q in rest ensures Ends(g, q, k) { EndsMono(g, q, k - 1, k); }
    }
  }

  lemma {:induction false} SetBound(nodes: set<nat>, n: nat)
    requires forall q :: q in nodes ==> q < n
    ensures |nodes| <= n
  {
    if n > 0 {
      var rest := nodes - {n - 1};
      SetBound(rest, n - 1);
      assert nodes <= rest + {n - 1};
      assert n - 1 in nodes ==> nodes == rest + {n - 1};
      assert n - 1 !in nodes ==> nodes == rest;
    } else {
      assert nodes == {};
    }
  }

  /** A walk that stops at all stops before it runs out of nodes: it visits one
      node more than it makes steps. */
  lemma {:induction false} Tight(g: Graph, p: nat, k: nat)
    requires Closed(g) && p < |g| && Ends(g, p, k)
    ensures Ends(g, p, |g| - 1)
  {
    if k < |g| {
      EndsMono(g, p, k, |g| - 1);
    } else if Ends(g, p, k - 1) {
      Tight(g, p, k - 1);
    } else {
      var nodes := WalkNodes(g, p, k);
      SetBound(nodes, |g|);
    }
  }

  /** No node lies on a cycle, when all walks stop. */
  lemma {:induction false} NoCycle(g: Graph, p: nat, k: nat)
    requires AllEnd(g) && p < |g|
    ensures !Reaches(g, p, p, k)
  {
    if Reaches(g, p, p, k) {
      Endless(g, p, p, k, |g|);
    }
  }

  /** From a node on a cycle, and from all that leads there, no walk stops. */
  lemma {:induction false} Endless(g: Graph, q: nat, p: nat, k: nat, m: nat)
    requires Closed(g) && p < |g| && q < |g|
    requires Reaches(g, p, p, k) && (q == p || Reaches(g, q, p, k))
    ensures !Ends(g, q, m)
    decreases m
  {
    if m > 0 {
      var next := g[q].node;
      if next != p {
        ReachesMono(g, next, p, k - 1, k);
      }
      Endless(g, next, p, k, m - 1);
    }
  }

  lemma {:induction false} ReachesMono(g: Graph, p: nat, t: nat, k: nat, m: nat)
    requires Closed(g) && p < |g| && k <= m && Reaches(g, p, t, k)
    ensures Reaches(g, p, t, m)
    decreases k
  {
    if g[p].node != t {
      ReachesMono(g, g[p].node, t, k - 1, m - 1);
    }
  }

  /** Removing edges keeps every walk finite. */
  lemma {:induction false} Fewer(g: Graph, g': Graph, p: nat, k: nat)
    requires Closed(g) && Closed(g') && |g'| == |g| && p < |g| && Ends(g, p, k)
    requires forall q :: 0 <= q < |g| ==> g'[q] == g[q] || g'[q].Stop?
    ensures Ends(g', p, k)
    decreases k
  {
    if g'[p].To? {
      Fewer(g, g', g[p].node, k - 1);
    }
  }

  lemma FewerEdges(g: Graph, g': Graph)
    requires AllEnd(g) && |g'| == |g|
    requires forall q :: 0 <= q < |g| ==> g'[q] == g[q] || g'[q].Stop?
    ensures AllEnd(g')
  {
    forall p | 0 <= p < |g| ensures Ends(g', p, |g|) { Fewer(g, g', p, |g|); }
  }

  /** A walk that misses `c` is not changed by a new edge of `c`. */
  lemma {:induction false} Misses(g: Graph, c: nat, e: nat, p: nat, k: nat)
    requires Closed(g) && c < |g| && e < |g| && p < |g| && p != c
    requires Ends(g, p, k) && !Reaches(g, p, c, k)
    ensures Ends(g[c := To(e)], p, k)
    decreases k
  {
    if g[p].To? {
      Misses(g, c, e, g[p].node, k - 1);
    }
  }

  /** A walk that may come to `c` goes on along the new edge, and then stops. */
  lemma {:induction false} Through(g: Graph, c: nat, e: nat, p: nat, k: nat, m: nat)
    requires Closed(g) && c < |g| && e < |g| && p < |g| && Ends(g, p, k)
    requires Ends(g[c := To(e)], e, m)
    ensures Ends(g[c := To(e)], p, k + m + 1)
    decreases k
  {
    var g' := g[c := To(e)];
    if p == c {
      EndsMono(g', e, m, k + m);
    } else if g[p].To? {
      Through(g, c, e, g[p].node, k - 1, m);
    }
  }

  /** A new edge from `c` to `e` keeps all walks finite when the walk from `e`
      does not come to `c`. */
  lemma AddEdge(g: Graph, c: nat, e: nat)
    requires AllEnd(g) && c < |g| && e < |g| && c != e
    requires !Reaches(g, e, c, |g|)
    ensures AllEnd(g[c := To(e)])
  {
    var g' := g[c := To(e)];
    Misses(g, c, e, e, |g|);
    forall p | 0 <= p < |g| ensures Ends(g', p, |g|) {
      Through(g, c, e, p, |g|, |g|);
      Tight(g', p, |g| + |g| + 1);
      EndsMono(g', p, |g| - 1, |g|);
    }
  }
}
