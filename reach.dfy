/**
 * Reachability in the two graphs of the transform buffer: the directed
 * parent-to-children map of static edges, which must stay acyclic, and the
 * undirected graph of edge keys that path finding walks.
 */
module Reach {
  import Strings

  /** Parent frame to its set of child frames (`static_graph`). */
  type Graph = map<string, set<string>>

  /** An edge key (parent, child). */
  type Edge = (string, string)

  // ---------------------------------------------------------------------
  // Key order
  // ---------------------------------------------------------------------

  /** `Ord` on the `(String, String)` keys of a `BTreeMap`: by parent, then
    * by child. */
  predicate EdgeLe(x: Edge, y: Edge)
  {
    (Strings.StrLe(x.0, y.0) && x.0 != y.0) || (x.0 == y.0 && Strings.StrLe(x.1, y.1))
  }

  lemma EdgeLeAntisym(x: Edge, y: Edge)
    requires EdgeLe(x, y) && EdgeLe(y, x)
    ensures x == y
  {
    if x.0 == y.0 {
      Strings.StrLeAntisym(x.1, y.1);
    } else {
      Strings.StrLeAntisym(x.0, y.0);
    }
  }

  lemma EdgeLeTrans(x: Edge, y: Edge, z: Edge)
    requires EdgeLe(x, y) && EdgeLe(y, z)
    ensures EdgeLe(x, z)
  {
    if x.0 == y.0 && y.0 == z.0 {
      Strings.StrLeTrans(x.1, y.1, z.1);
    } else {
      Strings.StrLeRefl(x.0);
      Strings.StrLeRefl(y.0);
      Strings.StrLeTrans(x.0, y.0, z.0);
      if x.0 == z.0 {
        Strings.StrLeAntisym(x.0, y.0);
      }
    }
  }

  lemma EdgeLeTotal(x: Edge, y: Edge)
    ensures EdgeLe(x, y) || EdgeLe(y, x)
  {
    Strings.StrLeTotal(x.0, y.0);
    Strings.StrLeTotal(x.1, y.1);
  }

  /** `m` is the first key of `s` in key order. */
  predicate Least(s: set<Edge>, m: Edge)
  {
    m in s && forall y :: y in s ==> EdgeLe(m, y)
  }

  /** Every nonempty set of keys has exactly one first key. */
  lemma {:induction false} LeastExists(s: set<Edge>)
    requires s != {}
    ensures exists m :: Least(s, m)
    ensures forall a, b :: Least(s, a) && Least(s, b) ==> a == b
    decreases |s|
  {
    forall a, b | Least(s, a) && Least(s, b)
      ensures a == b
    {
      EdgeLeAntisym(a, b);
    }
    var x :| x in s;
    if s == {x} {
      Strings.StrLeRefl(x.1);
      assert Least(s, x);
    } else {
      var rest := s - {x};
      LeastExists(rest);
      var m :| Least(rest, m);
      EdgeLeTotal(x, m);
      if EdgeLe(x, m) {
        forall y | y in s
          ensures EdgeLe(x, y)
        {
          if y == x {
            Strings.StrLeRefl(x.1);
          } else {
            EdgeLeTrans(x, m, y);
          }
        }
        assert Least(s, x);
      } else {
        assert Least(s, m);
      }
    }
  }

  /** The keys of a `BTreeMap` in the order its `keys()` iterator yields
    * them: every key once, strictly increasing. */
  function SortedKeys(s: set<Edge>): (r: seq<Edge>)
    ensures forall e :: e in r <==> e in s
    ensures forall i, j :: 0 <= i < j < |r| ==> EdgeLe(r[i], r[j]) && r[i] != r[j]
    decreases |s|
  {
    if s == {} then []
    else
      LeastExists(s);
      var m :| Least(s, m);
      [m] + SortedKeys(s - {m})
  }

  // ---------------------------------------------------------------------
  // Directed reachability
  // ---------------------------------------------------------------------

  /** A walk along directed edges; a single node is a walk of length 0. */
  ghost predicate IsPath(g: Graph, p: seq<string>)
  {
    |p| >= 1 && forall i :: 0 <= i < |p| - 1 ==> p[i] in g && p[i + 1] in g[p[i]]
  }

  /** `b` can be reached from `a`; every node reaches itself. */
  ghost predicate Reachable(g: Graph, a: string, b: string)
  {
    exists p :: IsPath(g, p) && p[0] == a && p[|p| - 1] == b
  }

  /** No edge closes a cycle: the child never reaches back to the parent. */
  ghost predicate Acyclic(g: Graph)
  {
    forall a, b :: a in g && b in g[a] ==> !Reachable(g, b, a)
  }

  /** Recording the static edge p -> c: `p` gains the child `c`, creating
    * its entry when it has none. */
  function AddEdge(g: Graph, p: string, c: string): (r: Graph)
    ensures r.Keys == g.Keys + {p}
    ensures forall a :: a in g && a != p ==> r[a] == g[a]
    ensures r[p] == (if p in g then g[p] else {}) + {c}
  {
    g[p := (if p in g then g[p] else {}) + {c}]
  }

  lemma ReachRefl(g: Graph, a: string)
    ensures Reachable(g, a, a)
  {
    assert IsPath(g, [a]);
  }

  lemma ReachStep(g: Graph, a: string, b: string, c: string)
    requires a in g && b in g[a] && Reachable(g, b, c)
    ensures Reachable(g, a, c)
  {
    var p :| IsPath(g, p) && p[0] == b && p[|p| - 1] == c;
    var q := [a] + p;
    assert forall i :: 1 <= i < |q| ==> q[i] == p[i - 1];
    assert IsPath(g, q);
  }

  lemma {:induction false} ReachTrans(g: Graph, a: string, b: string, c: string)
    requires Reachable(g, a, b) && Reachable(g, b, c)
    ensures Reachable(g, a, c)
  {
    var p :| IsPath(g, p) && p[0] == a && p[|p| - 1] == b;
    ReachAlong(g, p, c);
  }

  lemma {:induction false} ReachAlong(g: Graph, p: seq<string>, c: string)
    requires IsPath(g, p) && Reachable(g, p[|p| - 1], c)
    ensures Reachable(g, p[0], c)
    decreases |p|
  {
    if |p| > 1 {
      assert IsPath(g, p[1..]);
      ReachAlong(g, p[1..], c);
      ReachStep(g, p[0], p[1], c);
    }
  }

  /** A node without children reaches only itself. */
  lemma Leaf(g: Graph, a: string, b: string)
    requires a !in g || g[a] == {}
    ensures Reachable(g, a, b) <==> a == b
  {
    if a == b {
      ReachRefl(g, a);
    }
    if Reachable(g, a, b) {
      var p :| IsPath(g, p) && p[0] == a && p[|p| - 1] == b;
      if |p| > 1 {
        assert p[0] in g && p[1] in g[p[0]];
      }
    }
  }

  /** A walk after adding p -> c either avoids the new edge or passes through
    * it once: it goes from x to p and then from c to y in the old graph. */
  lemma {:induction false} AddEdgeReach(g: Graph, p: string, c: string, q: seq<string>)
    requires IsPath(AddEdge(g, p, c), q)
    ensures Reachable(g, q[0], q[|q| - 1])
            || (Reachable(g, q[0], p) && Reachable(g, c, q[|q| - 1]))
    decreases |q|
  {
    var h := AddEdge(g, p, c);
    if |q| == 1 {
      ReachRefl(g, q[0]);
    } else {
      assert IsPath(h, q[1..]);
      AddEdgeReach(g, p, c, q[1..]);
      var x, y := q[0], q[1];
      assert q[1..][0] == y && q[1..][|q[1..]| - 1] == q[|q| - 1];
      if x in g && y in g[x] {
        if Reachable(g, y, q[|q| - 1]) {
          ReachStep(g, x, y, q[|q| - 1]);
        } else {
          ReachStep(g, x, y, p);
        }
      } else {
        assert x == p && y == c;
        ReachRefl(g, p);
      }
    }
  }

  /** Adding p -> c when p is not reachable from c keeps the graph acyclic. */
  lemma AddEdgeAcyclic(g: Graph, p: string, c: string)
    requires Acyclic(g) && !Reachable(g, c, p)
    ensures Acyclic(AddEdge(g, p, c))
  {
    var h := AddEdge(g, p, c);
    forall a, b | a in h && b in h[a]
      ensures !Reachable(h, b, a)
    {
      if Reachable(h, b, a) {
        var q :| IsPath(h, q) && q[0] == b && q[|q| - 1] == a;
        AddEdgeReach(g, p, c, q);
        if !(a == p && b == c) {
          assert a in g && b in g[a];
          if !Reachable(g, b, a) {
            ReachStep(g, a, b, p);
            ReachTrans(g, c, a, p);
          }
        }
      }
    }
  }

  /** A subset missing some element of the larger set is smaller. */
  lemma SubsetWithout<T>(a: set<T>, b: set<T>, x: T)
    requires a <= b && x in b && x !in a
    ensures |a| < |b|
  {
    assert b == a + (b - a);
    assert {x} <= b - a;
  }

  /** A set of nodes closed under the children relation. */
  ghost predicate Closed(g: Graph, s: set<string>)
  {
    forall v, w :: v in s && v in g && w in g[v] ==> w in s
  }

  lemma {:induction false} ClosedPath(g: Graph, s: set<string>, p: seq<string>)
    requires Closed(g, s) && IsPath(g, p) && p[0] in s
    ensures p[|p| - 1] in s
    decreases |p|
  {
    if |p| > 1 {
      assert IsPath(g, p[1..]);
      ClosedPath(g, s, p[1..]);
    }
  }

  /** A closed set holds everything reachable from its members. */
  lemma ClosedReach(g: Graph, s: set<string>, a: string, b: string)
    requires Closed(g, s) && a in s && Reachable(g, a, b)
    ensures b in s
  {
    var p :| IsPath(g, p) && p[0] == a && p[|p| - 1] == b;
    ClosedPath(g, s, p);
  }

  // ---------------------------------------------------------------------
  // The undirected key graph
  // ---------------------------------------------------------------------

  /** The step `e.0` to `e.1` follows some key, in either direction. */
  predicate Linked(keys: set<Edge>, e: Edge)
  {
    e in keys || (e.1, e.0) in keys
  }

  /** A chain of steps from `s` to `t`: each step follows a key and starts
    * where the previous one ended; the empty chain goes from a frame to
    * itself. */
  ghost predicate IsChain(keys: set<Edge>, path: seq<Edge>, s: string, t: string)
  {
    (|path| == 0 ==> s == t)
    && (|path| > 0 ==> path[0].0 == s && path[|path| - 1].1 == t)
    && (forall i :: 0 <= i < |path| ==> Linked(keys, path[i]))
    && (forall i :: 0 <= i < |path| - 1 ==> path[i].1 == path[i + 1].0)
  }

  ghost predicate Connected(keys: set<Edge>, s: string, t: string)
  {
    exists path :: IsChain(keys, path, s, t)
  }

  /** A step into the start of a chain extends it backwards. */
  lemma ChainPrepend(keys: set<Edge>, e: Edge, path: seq<Edge>, t: string)
    requires Linked(keys, e) && IsChain(keys, path, e.1, t)
    ensures IsChain(keys, [e] + path, e.0, t)
  {
    var q := [e] + path;
    assert forall i :: 1 <= i < |q| ==> q[i] == path[i - 1];
  }

  /** Dropping the last step of a chain leaves a chain to where it started. */
  lemma ChainPrefix(keys: set<Edge>, path: seq<Edge>, s: string, t: string)
    requires IsChain(keys, path, s, t) && |path| > 0
    ensures IsChain(keys, path[..|path| - 1], s, path[|path| - 1].0)
  {
  }

  /** A set closed under key steps. */
  ghost predicate LinkClosed(keys: set<Edge>, s: set<string>)
  {
    forall e :: e in keys ==> (e.0 in s <==> e.1 in s)
  }

  lemma {:induction false} LinkClosedChain(keys: set<Edge>, s: set<string>, path: seq<Edge>, a: string, b: string)
    requires LinkClosed(keys, s) && IsChain(keys, path, a, b) && a in s
    ensures b in s
    decreases |path|
  {
    if |path| > 0 {
      var e := path[0];
      assert Linked(keys, e);
      assert e.1 in s;
      if |path| > 1 {
        assert IsChain(keys, path[1..], e.1, b) by {
          assert forall i :: 0 <= i < |path| - 1 ==> path[1..][i] == path[i + 1];
        }
        LinkClosedChain(keys, s, path[1..], e.1, b);
      }
    }
  }

  /** A set closed under key steps holds every frame connected to a member. */
  lemma LinkClosedConnected(keys: set<Edge>, s: set<string>, a: string, b: string)
    requires LinkClosed(keys, s) && a in s && Connected(keys, a, b)
    ensures b in s
  {
    var path :| IsChain(keys, path, a, b);
    LinkClosedChain(keys, s, path, a, b);
  }
}
