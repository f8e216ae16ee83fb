/**
 * The transform buffer of `/tf` and `/tf_static` (`TfGraph`): dynamic edges
 * keep a time-ordered list of samples pruned to a time window, static edges
 * keep one sample and may never close a directed cycle, and a transform
 * between two frames is resolved by breadth-first search over all edge keys
 * followed by composition along the path found.
 */
module Tf {
  import opened Options
  import opened Wire
  import opened Strings
  import opened TfMessage
  import opened TfSelect
  import opened Reach

  /** Static edge keys and the parent-to-children graph describe the same
    * edges. */
  ghost predicate Consistent(edges: map<Edge, TfSample>, g: Graph)
  {
    forall e :: e in edges <==> (e.0 in g && e.1 in g[e.0])
  }

  /** Every frame named in the graph. */
  ghost function Nodes(g: Graph): set<string>
  {
    g.Keys + (set a, b | a in g && b in g[a] :: b)
  }

  function EdgeOf(tf: TransformStamped): Edge
  {
    (tf.parent, tf.child)
  }

  // ---------------------------------------------------------------------
  // Static ingestion, as a function of the old static state
  // ---------------------------------------------------------------------

  /** One transform of a `/tf_static` message: skipped when the child already
    * reaches the parent, otherwise stored with time 0 (replacing any earlier
    * sample of the edge) and added to the graph. */
  ghost function StaticStep(edges: map<Edge, TfSample>, g: Graph, tf: TransformStamped): (map<Edge, TfSample>, Graph)
  {
    if Reachable(g, tf.child, tf.parent) then (edges, g)
    else (edges[EdgeOf(tf) := TfSample(0.0, tf.transform)], AddEdge(g, tf.parent, tf.child))
  }

  ghost function StaticAfter(edges: map<Edge, TfSample>, g: Graph, tfs: seq<TransformStamped>): (map<Edge, TfSample>, Graph)
  {
    if |tfs| == 0 then (edges, g)
    else
      var (e, h) := StaticAfter(edges, g, tfs[..|tfs| - 1]);
      StaticStep(e, h, tfs[|tfs| - 1])
  }

  /** The state after one more transform is one more step. */
  lemma StaticAfterStep(edges: map<Edge, TfSample>, g: Graph, tfs: seq<TransformStamped>, i: nat)
    requires i < |tfs|
    ensures StaticAfter(edges, g, tfs[..i + 1])
            == StaticStep(StaticAfter(edges, g, tfs[..i]).0, StaticAfter(edges, g, tfs[..i]).1, tfs[i])
  {
    assert tfs[..i + 1][..i] == tfs[..i];
  }

  /** One static transform keeps the edges consistent and the graph acyclic;
    * it is skipped exactly when it would close a cycle, and otherwise its
    * edge then holds its transform at time 0. */
  lemma StaticStepValid(edges: map<Edge, TfSample>, g: Graph, tf: TransformStamped)
    requires Consistent(edges, g) && Acyclic(g)
    ensures Consistent(StaticStep(edges, g, tf).0, StaticStep(edges, g, tf).1)
    ensures Acyclic(StaticStep(edges, g, tf).1)
    ensures Reachable(g, tf.child, tf.parent) ==> StaticStep(edges, g, tf) == (edges, g)
    ensures !Reachable(g, tf.child, tf.parent) ==>
      StaticStep(edges, g, tf).0 == edges[EdgeOf(tf) := TfSample(0.0, tf.transform)]
  {
    if !Reachable(g, tf.child, tf.parent) {
      AddEdgeAcyclic(g, tf.parent, tf.child);
    }
  }

  /** However many static messages arrive, the static graph never holds a
    * directed cycle and agrees with the static edge keys. */
  lemma {:induction false} StaticAfterValid(edges: map<Edge, TfSample>, g: Graph, tfs: seq<TransformStamped>)
    requires Consistent(edges, g) && Acyclic(g)
    ensures Consistent(StaticAfter(edges, g, tfs).0, StaticAfter(edges, g, tfs).1)
    ensures Acyclic(StaticAfter(edges, g, tfs).1)
  {
    if |tfs| > 0 {
      StaticAfterValid(edges, g, tfs[..|tfs| - 1]);
      var (e, h) := StaticAfter(edges, g, tfs[..|tfs| - 1]);
      StaticStepValid(e, h, tfs[|tfs| - 1]);
    }
  }

  /** A -> B and then B -> A: the second edge is rejected, the first kept. */
  lemma StaticCycleRejected(ab: Transform, ba: Transform)
    ensures StaticAfter(map[], map[], [TransformStamped("A", "B", ab), TransformStamped("B", "A", ba)]).0
            == map[("A", "B") := TfSample(0.0, ab)]
  {
    var tfs := [TransformStamped("A", "B", ab), TransformStamped("B", "A", ba)];
    assert tfs[..1][..0] == [] && tfs[..1][0] == tfs[0] && tfs[..2] == tfs;
    Leaf(map[], "B", "A");
    var g1: Graph := map["A" := {"B"}];
    assert AddEdge(map[], "A", "B") == g1 by {
      assert AddEdge(map[], "A", "B").Keys == g1.Keys;
      assert AddEdge(map[], "A", "B")["A"] == {"B"};
    }
    assert StaticAfter(map[], map[], tfs[..1]) == StaticStep(map[], map[], tfs[0]);
    assert StaticAfter(map[], map[], tfs[..1]) == (map[("A", "B") := TfSample(0.0, ab)], g1);
    ReachRefl(g1, "B");
    ReachStep(g1, "A", "B", "B");
  }

  // ---------------------------------------------------------------------
  // Dynamic ingestion and pruning, as functions of the old dynamic state
  // ---------------------------------------------------------------------

  /** `samples.retain(|s| s.t >= cutoff)`. */
  function Retain(samples: seq<TfSample>, cutoff: real): (r: seq<TfSample>)
    ensures |r| <= |samples|
    ensures forall x :: x in r <==> x in samples && x.t >= cutoff
  {
    if |samples| == 0 then []
    else
      var rest := Retain(samples[1..], cutoff);
      assert forall x :: x in samples <==> x == samples[0] || x in samples[1..];
      if samples[0].t >= cutoff then [samples[0]] + rest else rest
  }

  /** Retaining keeps the list unchanged when nothing is too old, so pruning
    * twice with the same cutoff is the same as pruning once. */
  lemma {:induction false} RetainKeepsRecent(samples: seq<TfSample>, cutoff: real)
    ensures (forall i :: 0 <= i < |samples| ==> samples[i].t >= cutoff) ==> Retain(samples, cutoff) == samples
    ensures Retain(Retain(samples, cutoff), cutoff) == Retain(samples, cutoff)
  {
    if |samples| > 0 {
      RetainKeepsRecent(samples[1..], cutoff);
      assert forall i :: 1 <= i < |samples| ==> samples[1..][i - 1] == samples[i];
      var rest := Retain(samples[1..], cutoff);
      if samples[0].t >= cutoff {
        assert ([samples[0]] + rest)[1..] == rest;
      }
    }
  }

  /** `prune_dynamic`: every edge keeps only its samples at or after the
    * cutoff; edges whose lists become empty stay. */
  function Prune(d: map<Edge, seq<TfSample>>, cutoff: real): (r: map<Edge, seq<TfSample>>)
    ensures r.Keys == d.Keys
  {
    map e | e in d :: Retain(d[e], cutoff)
  }

  /** The loop of `prune_dynamic` over every edge's sample list. */
  method PruneLoop(d: map<Edge, seq<TfSample>>, cutoff: real) returns (out: map<Edge, seq<TfSample>>)
    ensures out == Prune(d, cutoff)
  {
    out := map[];
    var todo := d.Keys;
    while todo != {}
      invariant todo <= d.Keys
      invariant out.Keys == d.Keys - todo
      invariant forall e :: e in out ==> out[e] == Retain(d[e], cutoff)
      decreases |todo|
    {
      var e :| e in todo;
      out := out[e := Retain(d[e], cutoff)];
      todo := todo - {e};
    }
  }

  /** The samples one `/tf` message adds to edge `e`, in message order. */
  function SamplesFor(e: Edge, ts: real, tfs: seq<TransformStamped>): seq<TfSample>
  {
    if |tfs| == 0 then []
    else
      var last := tfs[|tfs| - 1];
      SamplesFor(e, ts, tfs[..|tfs| - 1]) + (if EdgeOf(last) == e then [TfSample(ts, last.transform)] else [])
  }

  /** `dynamic.entry(edge).or_default().push(sample)` for each transform. */
  function Appended(d: map<Edge, seq<TfSample>>, ts: real, tfs: seq<TransformStamped>): map<Edge, seq<TfSample>>
  {
    if |tfs| == 0 then d
    else
      var m := Appended(d, ts, tfs[..|tfs| - 1]);
      var last := tfs[|tfs| - 1];
      var e := EdgeOf(last);
      m[e := (if e in m then m[e] else []) + [TfSample(ts, last.transform)]]
  }
  /** Appending one more transform is one more step. */
  lemma {:induction false} AppendedStep(d: map<Edge, seq<TfSample>>, ts: real, tfs: seq<TransformStamped>, i: nat)
    requires i < |tfs|
    ensures var m := Appended(d, ts, tfs[..i]); var e := EdgeOf(tfs[i]);
      Appended(d, ts, tfs[..i + 1]) == m[e := (if e in m then m[e] else []) + [TfSample(ts, tfs[i].transform)]]
  {
    assert tfs[..i + 1][..i] == tfs[..i];
  }

  /** After a message an edge is present iff it was before or the message
    * names it, and its list is the old list followed by the message's
    * samples for it. */
  lemma {:induction false} AppendedEdge(d: map<Edge, seq<TfSample>>, ts: real, tfs: seq<TransformStamped>, e: Edge)
    ensures e in Appended(d, ts, tfs) <==> e in d || exists i :: 0 <= i < |tfs| && EdgeOf(tfs[i]) == e
    ensures e !in Appended(d, ts, tfs) ==> SamplesFor(e, ts, tfs) == []
    ensures e in Appended(d, ts, tfs) ==>
      Appended(d, ts, tfs)[e] == (if e in d then d[e] else []) + SamplesFor(e, ts, tfs)
  {
    if |tfs| > 0 {
      var front := tfs[..|tfs| - 1];
      AppendedEdge(d, ts, front, e);
      assert forall i :: 0 <= i < |front| ==> front[i] == tfs[i];
      var m := Appended(d, ts, front);
      if EdgeOf(tfs[|tfs| - 1]) == e {
        var old0 := if e in d then d[e] else [];
        var sf := SamplesFor(e, ts, front);
        assert (if e in m then m[e] else []) == old0 + sf;
        assert old0 + sf + [TfSample(ts, tfs[|tfs| - 1].transform)] == old0 + (sf + [TfSample(ts, tfs[|tfs| - 1].transform)]);
      } else {
        assert SamplesFor(e, ts, tfs) == SamplesFor(e, ts, front) + [];
      }
    } else {
      if e in d {
        assert d[e] + [] == d[e];
      }
    }
  }

  lemma {:induction false} SamplesForHas(e: Edge, ts: real, tfs: seq<TransformStamped>, i: nat)
    requires i < |tfs| && EdgeOf(tfs[i]) == e
    ensures TfSample(ts, tfs[i].transform) in SamplesFor(e, ts, tfs)
  {
    if i < |tfs| - 1 {
      SamplesForHas(e, ts, tfs[..|tfs| - 1], i);
    }
  }

  /** With a non-negative buffer, every transform of a `/tf` message is still
    * buffered after the message's pruning. */
  lemma {:induction false} FreshSamplesKept(d: map<Edge, seq<TfSample>>, ts: real, tfs: seq<TransformStamped>, buffer: real, i: nat)
    requires buffer >= 0.0 && i < |tfs|
    ensures EdgeOf(tfs[i]) in Prune(Appended(d, ts, tfs), ts - buffer)
    ensures TfSample(ts, tfs[i].transform) in Prune(Appended(d, ts, tfs), ts - buffer)[EdgeOf(tfs[i])]
  {
    var e := EdgeOf(tfs[i]);
    AppendedEdge(d, ts, tfs, e);
    SamplesForHas(e, ts, tfs, i);
  }

  // ---------------------------------------------------------------------
  // Evaluating translations
  // ---------------------------------------------------------------------

  datatype Vec = Vec(x: real, y: real, z: real)

  function Plus(a: Vec, b: Vec): Vec
  {
    Vec(a.x + b.x, a.y + b.y, a.z + b.z)
  }

  function Minus(a: Vec, b: Vec): Vec
  {
    Vec(a.x - b.x, a.y - b.y, a.z - b.z)
  }

  /** Differences add up along a chain of three points. */
  lemma MinusChain(a: Vec, b: Vec, c: Vec)
    ensures Plus(Minus(c, b), Minus(b, a)) == Minus(c, a)
  {
  }

  function Scaled(f: real, a: Vec): Vec
  {
    Vec(f * a.x, f * a.y, f * a.z)
  }

  function TranslationOf(s: TfSample): Vec
  {
    Vec(Real(s.transform.translation.x), Real(s.transform.translation.y), Real(s.transform.translation.z))
  }

  /** The translation an isometry term stands for when every rotation in it
    * is the identity: composition adds, inversion negates and interpolation
    * is linear in the fraction. */
  function Shift(iso: Iso): Vec
  {
    match iso
    case Identity => Vec(0.0, 0.0, 0.0)
    case Of(s) => TranslationOf(s)
    case Inverse(i) => Minus(Vec(0.0, 0.0, 0.0), Shift(i))
    case Compose(a, b) => Plus(Shift(a), Shift(b))
    case Interp(b, a, f) => Plus(TranslationOf(b), Scaled(f, Minus(TranslationOf(a), TranslationOf(b))))
    case Local(t) => TranslationOf(TfSample(0.0, t))
  }

  // ---------------------------------------------------------------------
  // Small helpers of the mapping
  // ---------------------------------------------------------------------

  /** `map_frame_to_path`: the entity path of the first `frame=path` entry
    * of `--map-frame`, otherwise the frame under the root frame. */
  function MapFrameToPath(frame: string, root: string, mapFrame: seq<string>): (r: string)
    ensures (forall i :: 0 <= i < |mapFrame| ==> !MapsKey(mapFrame[i], frame)) ==> r == "/" + root + "/" + frame
    ensures (exists i :: 0 <= i < |mapFrame| && MapsKey(mapFrame[i], frame)) ==>
      exists i :: 0 <= i < |mapFrame| && Maps(mapFrame[i], frame, r)
                  && forall j :: 0 <= j < i ==> !MapsKey(mapFrame[j], frame)
  {
    match Lookup(frame, mapFrame)
    case Some(p) => p
    case None => "/" + root + "/" + frame
  }

  function ModeName(m: TfMode): string
  {
    match m
    case Nearest => "nearest"
    case Interpolate => "interpolate"
    case Exact => "none"
  }

  /** `parse_tf_mode`: exactly the three lower-case names are accepted. */
  function ParseTfMode(s: string): (r: Result<TfMode>)
    ensures r.Ok? <==> s in {"nearest", "interpolate", "none"}
    ensures r.Ok? ==> ModeName(r.value) == s
  {
    if s == "nearest" then Ok(Nearest)
    else if s == "interpolate" then Ok(Interpolate)
    else if s == "none" then Ok(Exact)
    else Err(Invalid("Invalid tf-mode: " + s))
  }

  lemma ModeNameRoundTrip(m: TfMode)
    ensures ParseTfMode(ModeName(m)) == Ok(m)
  {
  }

  // ---------------------------------------------------------------------
  // Depth-first search state
  // ---------------------------------------------------------------------

  /** What the search from `child` knows: everything stacked or visited is
    * reachable, the parent has not been visited, and the children of a
    * visited frame are visited or still stacked. */
  ghost predicate DfsInv(g: Graph, child: string, parent: string, nodes: set<string>,
                         visited: set<string>, stack: seq<string>)
  {
    visited <= nodes
    && (forall x :: x in stack ==> x in nodes && Reachable(g, child, x))
    && (forall x :: x in visited ==> Reachable(g, child, x))
    && parent !in visited
    && (child in visited || child in stack)
    && (forall v, w :: v in visited && v in g && w in g[v] ==> w in visited || w in stack)
  }

  /** `for child in children { stack.push(child.clone()) }`, in some order. */
  method PushChildren(children: set<string>, stack: seq<string>) returns (pushed: seq<string>)
    ensures |stack| <= |pushed| && pushed[..|stack|] == stack
    ensures forall w :: w in children ==> w in pushed
    ensures forall i :: |stack| <= i < |pushed| ==> pushed[i] in children
  {
    pushed := stack;
    var rest := children;
    while rest != {}
      invariant rest <= children
      invariant |stack| <= |pushed| && pushed[..|stack|] == stack
      invariant forall w :: w in children && w !in rest ==> w in pushed
      invariant forall i :: |stack| <= i < |pushed| ==> pushed[i] in children
      decreases |rest|
    {
      var w :| w in rest;
      pushed := pushed + [w];
      rest := rest - {w};
    }
  }

  /** A stack is what lies below its top, then the top. */
  lemma LastSplit(stack: seq<string>)
    requires |stack| > 0
    ensures stack == stack[..|stack| - 1] + [stack[|stack| - 1]]
  {
  }

  /** The search starts with the child on the stack and nothing visited. */
  lemma DfsStart(g: Graph, child: string, parent: string, nodes: set<string>)
    requires nodes == Nodes(g) + {child}
    ensures DfsInv(g, child, parent, nodes, {}, [child])
  {
    ReachRefl(g, child);
  }

  /** Every stacked frame is reachable from the child. */
  lemma DfsFound(g: Graph, child: string, parent: string, nodes: set<string>,
                 visited: set<string>, rest: seq<string>, node: string)
    requires DfsInv(g, child, parent, nodes, visited, rest + [node])
    ensures Reachable(g, child, node)
  {
    assert node in rest + [node];
  }

  /** Visiting a new frame leaves fewer frames to visit. */
  lemma VisitShrinks(nodes: set<string>, visited: set<string>, node: string)
    requires node in nodes && node !in visited
    ensures |nodes - (visited + {node})| < |nodes - visited|
  {
    SubsetWithout(nodes - (visited + {node}), nodes - visited, node);
  }

  /** Popping a frame already visited keeps the invariant. */
  lemma DfsSkip(g: Graph, child: string, parent: string, nodes: set<string>,
                visited: set<string>, rest: seq<string>, node: string)
    requires DfsInv(g, child, parent, nodes, visited, rest + [node]) && node in visited
    ensures DfsInv(g, child, parent, nodes, visited, rest)
  {
    assert forall x :: x in rest + [node] <==> x in rest || x == node;
  }

  /** Visiting a new frame other than the parent and stacking its children. */
  lemma DfsVisit(g: Graph, child: string, parent: string, nodes: set<string>,
                 visited: set<string>, rest: seq<string>, node: string, pushed: seq<string>)
    requires DfsInv(g, child, parent, nodes, visited, rest + [node])
    requires node !in visited && node != parent && Nodes(g) <= nodes
    requires |rest| <= |pushed| && pushed[..|rest|] == rest
    requires node in g ==> forall w :: w in g[node] ==> w in pushed
    requires forall i :: |rest| <= i < |pushed| ==> node in g && pushed[i] in g[node]
    ensures DfsInv(g, child, parent, nodes, visited + {node}, pushed)
  {
    assert forall x :: x in rest + [node] <==> x in rest || x == node;
    assert Reachable(g, child, node);
    assert node in nodes;
    forall x | x in pushed
      ensures x in nodes && Reachable(g, child, x)
    {
      var i :| 0 <= i < |pushed| && pushed[i] == x;
      if i < |rest| {
        assert rest[i] == x;
      } else {
        assert node in g && x in g[node];
        assert x in Nodes(g);
        ReachRefl(g, x);
        ReachStep(g, node, x, x);
        ReachTrans(g, child, node, x);
      }
    }
    forall x | x in rest
      ensures x in pushed
    {
      var i :| 0 <= i < |rest| && rest[i] == x;
      assert pushed[i] == x;
    }
  }

  /** An empty stack: the visited set is closed, so the parent is not
    * reachable. */
  lemma DfsDone(g: Graph, child: string, parent: string, nodes: set<string>, visited: set<string>)
    requires DfsInv(g, child, parent, nodes, visited, [])
    ensures !Reachable(g, child, parent)
  {
    assert Closed(g, visited);
    if Reachable(g, child, parent) {
      ClosedReach(g, visited, child, parent);
    }
  }

  // ---------------------------------------------------------------------
  // Breadth-first search state
  // ---------------------------------------------------------------------

  /** The parent links of the search: every discovered frame other than
    * the source points back along a key to a frame discovered earlier. */
  ghost predicate Tree(keys: set<Edge>, source: string, visited: set<string>,
                       parentMap: map<string, Edge>, rank: map<string, nat>)
  {
    source in visited && source !in parentMap
    && parentMap.Keys == visited - {source}
    && rank.Keys == visited
    && forall x :: x in parentMap ==>
         parentMap[x].1 == x && parentMap[x].0 in visited && Linked(keys, parentMap[x])
         && rank[parentMap[x].0] < rank[x]
  }

  /** The visited set and the queue only grow: old queue entries stay in
    * front, new entries are visited, newly visited frames are queued, and
    * nothing is queued without discovering a frame. */
  ghost predicate Grown(visited0: set<string>, queue0: seq<string>, visited: set<string>, queue: seq<string>)
  {
    visited0 <= visited
    && |queue0| <= |queue| && queue[..|queue0|] == queue0
    && (forall x :: x in visited && x !in visited0 ==> x in queue)
    && (forall i :: |queue0| <= i < |queue| ==> queue[i] in visited)
    && (visited == visited0 ==> queue == queue0)
  }
  /** Discovering frame `k.1` from the visited frame `k.0` over a key: it is
    * visited, queued, pointed back along `k` and ranked after everything
    * so far. */
  lemma Discover(all: set<Edge>, source: string, nodes: set<string>, visited0: set<string>, queue0: seq<string>,
                 visited: set<string>, queue: seq<string>, parentMap: map<string, Edge>,
                 rank: map<string, nat>, next: nat, k: Edge)
    requires Tree(all, source, visited, parentMap, rank)
    requires forall z :: z in rank ==> rank[z] < next
    requires Grown(visited0, queue0, visited, queue) && visited <= nodes
    requires Linked(all, k) && k.0 in visited && k.1 !in visited && k.1 in nodes
    ensures Tree(all, source, visited + {k.1}, parentMap[k.1 := k], rank[k.1 := next])
    ensures Grown(visited0, queue0, visited + {k.1}, queue + [k.1]) && visited + {k.1} <= nodes
  {
    var q := queue + [k.1];
    assert q[..|queue0|] == queue[..|queue0|];
    assert forall i :: 0 <= i < |queue| ==> q[i] == queue[i];
  }

  lemma GrownTrans(v0: set<string>, q0: seq<string>, v1: set<string>, q1: seq<string>, v2: set<string>, q2: seq<string>)
    requires Grown(v0, q0, v1, q1) && Grown(v1, q1, v2, q2)
    ensures Grown(v0, q0, v2, q2)
  {
    assert q2[..|q0|] == q1[..|q1|][..|q0|];
    forall x | x in v2 && x !in v0
      ensures x in q2
    {
      if x in v1 {
        var k :| 0 <= k < |q1| && q1[k] == x;
        assert q2[k] == x;
      }
    }
    forall i | |q0| <= i < |q2|
      ensures q2[i] in v2
    {
      if i < |q1| {
        assert q2[i] == q1[i];
      }
    }
  }

  /** What the search from `source` knows: the parent links form a tree,
    * queued frames are visited, visited frames are done or queued, every key
    * touching a done frame leads to a visited one, and the target is not
    * done. */
  ghost predicate BfsInv(all: set<Edge>, source: string, target: string, nodes: set<string>,
                         visited: set<string>, queue: seq<string>, parentMap: map<string, Edge>,
                         rank: map<string, nat>, next: nat, done: set<string>)
  {
    Tree(all, source, visited, parentMap, rank)
    && (forall x :: x in rank ==> rank[x] < next)
    && KeyNodes(all) <= nodes && visited <= nodes && done <= visited
    && (forall x :: x in queue ==> x in visited)
    && (forall x :: x in visited ==> x in done || x in queue)
    && (forall e :: e in all ==> (e.0 in done ==> e.1 in visited) && (e.1 in done ==> e.0 in visited))
    && target !in done
    && (source == target ==> queue == [source])
  }

  /** Dequeuing a frame other than the target and discovering its
    * neighbours keeps the invariant, and either discovers a frame or
    * shortens the queue. */
  lemma BfsAdvance(all: set<Edge>, source: string, target: string, nodes: set<string>,
                   visited: set<string>, queue: seq<string>, parentMap: map<string, Edge>,
                   rank: map<string, nat>, next: nat, done: set<string>, current: string, rest: seq<string>,
                   visited2: set<string>, queue2: seq<string>, parentMap2: map<string, Edge>,
                   rank2: map<string, nat>, next2: nat)
    requires BfsInv(all, source, target, nodes, visited, queue, parentMap, rank, next, done)
    requires |queue| > 0 && current == queue[0] && rest == queue[1..] && current != target
    requires Tree(all, source, visited2, parentMap2, rank2) && (forall x :: x in rank2 ==> rank2[x] < next2)
    requires visited2 <= nodes && Grown(visited, rest, visited2, queue2)
    requires forall e :: e in all ==> (e.0 == current ==> e.1 in visited2) && (e.1 == current ==> e.0 in visited2)
    ensures BfsInv(all, source, target, nodes, visited2, queue2, parentMap2, rank2, next2, done + {current})
    ensures visited2 == visited ==> queue2 == rest
    ensures visited2 != visited ==> |nodes - visited2| < |nodes - visited|
  {
    assert queue == [current] + rest;
    assert forall x :: x in queue <==> x == current || x in rest;
    forall x | x in rest
      ensures x in queue2
    {
      var k :| 0 <= k < |rest| && rest[k] == x;
      assert queue2[k] == x;
    }
    forall x | x in queue2
      ensures x in visited2
    {
      var k :| 0 <= k < |queue2| && queue2[k] == x;
      if k < |rest| {
        assert rest[k] == x;
      }
    }
    if visited2 != visited {
      var x :| x in visited2 && x !in visited;
      assert x in nodes - visited && x !in nodes - visited2;
      SubsetWithout(nodes - visited2, nodes - visited, x);
    }
  }

  /** An empty queue: the visited frames are closed under key steps, so the
    * target is not connected to the source. */
  lemma BfsDone(all: set<Edge>, source: string, target: string, nodes: set<string>,
                visited: set<string>, parentMap: map<string, Edge>, rank: map<string, nat>, next: nat, done: set<string>)
    requires BfsInv(all, source, target, nodes, visited, [], parentMap, rank, next, done)
    ensures !Connected(all, source, target)
  {
    assert LinkClosed(all, visited);
    if Connected(all, source, target) {
      LinkClosedConnected(all, visited, source, target);
    }
  }

  /** The reconstruction loop of `find_path`: the steps back from the target
    * along the parent links, each put in front of the path so far (the
    * source pushes them and reverses at the end). */
  method Reconstruct(parentMap: map<string, Edge>, ghost rank: map<string, nat>, ghost all: set<Edge>,
                     ghost source: string, ghost visited: set<string>, target: string)
    returns (steps: seq<Edge>)
    requires Tree(all, source, visited, parentMap, rank) && target in visited
    ensures IsChain(all, steps, source, target)
    ensures source == target ==> steps == []
  {
    steps := [];
    var node := target;
    while node in parentMap
      invariant node in visited
      invariant IsChain(all, steps, node, target)
      invariant source == target ==> steps == [] && node == target
      decreases rank[node]
    {
      var e := parentMap[node];
      ChainPrepend(all, e, steps, target);
      steps := [e] + steps;
      node := e.0;
    }
  }

  /** Every frame a key names. */
  ghost function KeyNodes(keys: set<Edge>): set<string>
  {
    (set e | e in keys :: e.0) + (set e | e in keys :: e.1)
  }

  class TfGraph {
    var dynamic: map<Edge, seq<TfSample>>
    var staticEdges: map<Edge, TfSample>
    var staticGraph: Graph

    ghost predicate Valid()
      reads this
    {
      Consistent(staticEdges, staticGraph) && Acyclic(staticGraph)
    }

    /** All edge keys, static and dynamic. */
    function Keys(): set<Edge>
      reads this
    {
      staticEdges.Keys + dynamic.Keys
    }

    constructor()
      ensures Valid()
      ensures dynamic == map[] && staticEdges == map[] && staticGraph == map[]
    {
      dynamic := map[];
      staticEdges := map[];
      staticGraph := map[];
    }

    /** `would_create_cycle`: a depth-first search from the child for the
      * parent over the static graph. */
    method WouldCreateCycle(parent: string, child: string) returns (cyc: bool)
      ensures cyc <==> Reachable(staticGraph, child, parent)
    {
      ghost var g := staticGraph;
      ghost var nodes := Nodes(g) + {child};
      var visited: set<string> := {};
      var stack := [child];
      DfsStart(g, child, parent, nodes);
      while |stack| > 0
        invariant DfsInv(g, child, parent, nodes, visited, stack)
        decreases |nodes - visited|, |stack|
      {
        var node := stack[|stack| - 1];
        var rest := stack[..|stack| - 1];
        LastSplit(stack);
        if node in visited {
          DfsSkip(g, child, parent, nodes, visited, rest, node);
          stack := rest;
          continue;
        }
        if node == parent {
          DfsFound(g, child, parent, nodes, visited, rest, node);
          return true;
        }
        var pushed := rest;
        if node in staticGraph {
          pushed := PushChildren(staticGraph[node], rest);
        }
        DfsVisit(g, child, parent, nodes, visited, rest, node, pushed);
        VisitShrinks(nodes, visited, node);
        visited := visited + {node};
        stack := pushed;
      }
      DfsDone(g, child, parent, nodes, visited);
      return false;
    }

    /** `ingest_tf_static_msg`: a message that does not parse changes
      * nothing; otherwise each transform is stored as a static edge unless
      * it would close a cycle. */
    method IngestTfStaticMsg(payload: Bytes) returns (r: Result<()>)
      requires Valid()
      modifies this
      ensures Valid()
      ensures dynamic == old(dynamic)
      ensures TfMessageOf(payload).Err? ==>
        r == Err(TfMessageOf(payload).error) && staticEdges == old(staticEdges) && staticGraph == old(staticGraph)
      ensures TfMessageOf(payload).Ok? ==>
        r == Ok(()) && (staticEdges, staticGraph) == StaticAfter(old(staticEdges), old(staticGraph), TfMessageOf(payload).value)
    {
      var parsed := ParseTfMessage(payload);
      if parsed.Err? {
        return Err(parsed.error);
      }
      var tfs := parsed.value;
      var i := 0;
      while i < |tfs|
        invariant 0 <= i <= |tfs|
        invariant Valid()
        invariant dynamic == old(dynamic)
        invariant (staticEdges, staticGraph) == StaticAfter(old(staticEdges), old(staticGraph), tfs[..i])
      {
        StaticAfterStep(old(staticEdges), old(staticGraph), tfs, i);
        var tf := tfs[i];
        var sample := TfSample(0.0, tf.transform);
        var cyc := WouldCreateCycle(tf.parent, tf.child);
        StaticStepValid(staticEdges, staticGraph, tf);
        if !cyc {
          staticEdges := staticEdges[(tf.parent, tf.child) := sample];
          staticGraph := AddEdge(staticGraph, tf.parent, tf.child);
        }
        i := i + 1;
      }
      assert tfs[..i] == tfs;
      return Ok(());
    }

    /** `prune_dynamic`. */
    method PruneDynamic(latest: real, buffer: real)
      modifies this
      ensures dynamic == Prune(old(dynamic), latest - buffer)
      ensures staticEdges == old(staticEdges) && staticGraph == old(staticGraph)
    {
      var out := PruneLoop(dynamic, latest - buffer);
      dynamic := out;
    }

    /** `ingest_tf_msg`: every transform of the message is appended to its
      * edge with the message time, then all edges are pruned to the window
      * `[ts - buffer, ...)`; a message that does not parse changes nothing. */
    method IngestTfMsg(ts: real, payload: Bytes, buffer: real) returns (r: Result<()>)
      requires Valid()
      modifies this
      ensures Valid()
      ensures staticEdges == old(staticEdges) && staticGraph == old(staticGraph)
      ensures TfMessageOf(payload).Err? ==> r == Err(TfMessageOf(payload).error) && dynamic == old(dynamic)
      ensures TfMessageOf(payload).Ok? ==>
        r == Ok(()) && dynamic == Prune(Appended(old(dynamic), ts, TfMessageOf(payload).value), ts - buffer)
    {
      var parsed := ParseTfMessage(payload);
      if parsed.Err? {
        return Err(parsed.error);
      }
      var tfs := parsed.value;
      var i := 0;
      while i < |tfs|
        invariant 0 <= i <= |tfs|
        invariant staticEdges == old(staticEdges) && staticGraph == old(staticGraph)
        invariant dynamic == Appended(old(dynamic), ts, tfs[..i])
      {
        AppendedStep(old(dynamic), ts, tfs, i);
        var tf := tfs[i];
        var key := (tf.parent, tf.child);
        var samples := if key in dynamic then dynamic[key] else [];
        dynamic := dynamic[key := samples + [TfSample(ts, tf.transform)]];
        i := i + 1;
      }
      assert tfs[..i] == tfs;
      PruneDynamic(ts, buffer);
      return Ok(());
    }

    // -------------------------------------------------------------------
    // Resolution
    // -------------------------------------------------------------------

    /** One neighbour loop of `find_path` over `keys`, in their order: each
      * unvisited frame one key away from `current` is discovered, pointed
      * back at `current` and queued. */
    method Expand(keys: seq<Edge>, ghost all: set<Edge>, ghost nodes: set<string>, source: string, current: string,
                  visited0: set<string>, queue0: seq<string>, parentMap0: map<string, Edge>,
                  ghost rank0: map<string, nat>, ghost next0: nat)
      returns (visited: set<string>, queue: seq<string>, parentMap: map<string, Edge>,
               ghost rank: map<string, nat>, ghost next: nat)
      requires (forall e :: e in keys ==> e in all) && KeyNodes(all) <= nodes && visited0 <= nodes
      requires current in visited0
      requires Tree(all, source, visited0, parentMap0, rank0)
      requires forall x :: x in rank0 ==> rank0[x] < next0
      ensures Tree(all, source, visited, parentMap, rank)
      ensures forall x :: x in rank ==> rank[x] < next
      ensures visited <= nodes && Grown(visited0, queue0, visited, queue)
      ensures forall e :: e in keys ==> (e.0 == current ==> e.1 in visited) && (e.1 == current ==> e.0 in visited)
    {
      visited, queue, parentMap, rank, next := visited0, queue0, parentMap0, rank0, next0;
      for i := 0 to |keys|
        invariant Tree(all, source, visited, parentMap, rank)
        invariant forall x :: x in rank ==> rank[x] < next
        invariant visited <= nodes && Grown(visited0, queue0, visited, queue)
        invariant forall j :: 0 <= j < i ==>
                    (keys[j].0 == current ==> keys[j].1 in visited) && (keys[j].1 == current ==> keys[j].0 in visited)
      {
        var e := keys[i];
        var (p, c) := e;
        assert e in all;
        assert e.0 in KeyNodes(all) && e.1 in KeyNodes(all);
        if p == current && c !in visited {
          Discover(all, source, nodes, visited0, queue0, visited, queue, parentMap, rank, next, (p, c));
          visited := visited + {c};
          parentMap := parentMap[c := (p, c)];
          rank := rank[c := next];
          next := next + 1;
          queue := queue + [c];
        }
        if c == current && p !in visited {
          Discover(all, source, nodes, visited0, queue0, visited, queue, parentMap, rank, next, (current, p));
          visited := visited + {p};
          parentMap := parentMap[p := (current, p)];
          rank := rank[p := next];
          next := next + 1;
          queue := queue + [p];
        }
      }
    }

    /** One round of `find_path`'s queue loop: the front frame, which is
      * not the target, is dequeued and its neighbours over the static and
      * then the dynamic keys are discovered. */
    method Visit(ghost all: set<Edge>, ghost nodes: set<string>, source: string, ghost target: string,
                 visited: set<string>, queue: seq<string>, parentMap: map<string, Edge>,
                 ghost rank: map<string, nat>, ghost next: nat, ghost done: set<string>)
      returns (visited2: set<string>, queue2: seq<string>, parentMap2: map<string, Edge>,
               ghost rank2: map<string, nat>, ghost next2: nat)
      requires all == Keys() && |queue| > 0 && queue[0] != target
      requires BfsInv(all, source, target, nodes, visited, queue, parentMap, rank, next, done)
      ensures BfsInv(all, source, target, nodes, visited2, queue2, parentMap2, rank2, next2, done + {queue[0]})
      ensures visited2 == visited ==> queue2 == queue[1..]
      ensures visited2 != visited ==> |nodes - visited2| < |nodes - visited|
    {
      var current, rest := queue[0], queue[1..];
      var visited1, queue1, parentMap1, rank1, next1 :=
        Expand(SortedKeys(staticEdges.Keys), all, nodes, source, current, visited, rest, parentMap, rank, next);
      visited2, queue2, parentMap2, rank2, next2 :=
        Expand(SortedKeys(dynamic.Keys), all, nodes, source, current, visited1, queue1, parentMap1, rank1, next1);
      GrownTrans(visited, rest, visited1, queue1, visited2, queue2);
      BfsAdvance(all, source, target, nodes, visited, queue, parentMap, rank, next, done, current, rest,
                 visited2, queue2, parentMap2, rank2, next2);
    }

    /** `find_path`: breadth-first search from the source over all keys, in
      * either direction, and the steps back from the target to the source
      * along the parent links. */
    method FindPath(source: string, target: string) returns (path: Option<seq<Edge>>)
      ensures path.Some? ==> IsChain(Keys(), path.value, source, target)
      ensures path == Some([]) <==> source == target
      ensures path.None? ==> !Connected(Keys(), source, target)
    {
      ghost var all := Keys();
      ghost var nodes := KeyNodes(all) + {source};
      var visited: set<string> := {source};
      var queue := [source];
      var parentMap: map<string, Edge> := map[];
      ghost var rank: map<string, nat> := map[source := 0];
      ghost var next: nat := 1;
      ghost var done: set<string> := {};
      assert Tree(all, source, visited, parentMap, rank);
      assert KeyNodes(all) <= nodes;
      while |queue| > 0
        invariant BfsInv(all, source, target, nodes, visited, queue, parentMap, rank, next, done)
        decreases |nodes - visited|, |queue|
      {
        var current := queue[0];
        if current == target {
          var steps := Reconstruct(parentMap, rank, all, source, visited, target);
          return Some(steps);
        }
        visited, queue, parentMap, rank, next := Visit(all, nodes, source, target, visited, queue, parentMap, rank, next, done);
        done := done + {current};
      }
      BfsDone(all, source, target, nodes, visited, parentMap, rank, next, done);
      return None;
    }

    /** `get_edge_transform`: a static edge in either direction wins over a
      * dynamic one; a dynamic edge stored forwards is used as selected (even
      * when the selection is empty), one stored backwards is inverted. */
    function EdgeTransform(parent: string, child: string, at: real, mode: TfMode): (r: Option<Iso>)
      reads this
      ensures r.Some? ==> Linked(Keys(), (parent, child))
      ensures Linked(staticEdges.Keys, (parent, child)) ==> r.Some?
    {
      if (parent, child) in staticEdges then Some(Of(staticEdges[(parent, child)]))
      else if (child, parent) in staticEdges then Some(Inverse(Of(staticEdges[(child, parent)])))
      else if (parent, child) in dynamic then Select(dynamic[(parent, child)], at, mode)
      else if (child, parent) in dynamic then
        (match Select(dynamic[(child, parent)], at, mode)
         case None => None
         case Some(iso) => Some(Inverse(iso)))
      else None
    }

    /** A static edge stored forwards is used as stored. */
    lemma StaticForward(parent: string, child: string, at: real, mode: TfMode)
      requires (parent, child) in staticEdges
      ensures EdgeTransform(parent, child, at, mode) == Some(Of(staticEdges[(parent, child)]))
    {
    }

    /** A static edge stored backwards is inverted, whatever dynamic samples
      * exist for the pair. */
    lemma StaticBackward(parent: string, child: string, at: real, mode: TfMode)
      requires (parent, child) !in staticEdges && (child, parent) in staticEdges
      ensures EdgeTransform(parent, child, at, mode) == Some(Inverse(Of(staticEdges[(child, parent)])))
    {
    }

    method GetEdgeTransform(parent: string, child: string, at: real, mode: TfMode) returns (r: Option<Iso>)
      ensures r == EdgeTransform(parent, child, at, mode)
    {
      if (parent, child) in staticEdges {
        return Some(Of(staticEdges[(parent, child)]));
      }
      if (child, parent) in staticEdges {
        return Some(Inverse(Of(staticEdges[(child, parent)])));
      }
      if (parent, child) in dynamic {
        r := InterpolateSamples(dynamic[(parent, child)], at, mode);
        return r;
      }
      if (child, parent) in dynamic {
        var iso := InterpolateSamples(dynamic[(child, parent)], at, mode);
        if iso.None? {
          return None;
        }
        return Some(Inverse(iso.value));
      }
      return None;
    }

    /** The transforms of a path composed in order, each new edge applied
      * after the ones before it; none if some edge has none. */
    function ComposeAlong(path: seq<Edge>, at: real, mode: TfMode): Option<Iso>
      reads this
    {
      if |path| == 0 then Some(Identity)
      else
        var acc := ComposeAlong(path[..|path| - 1], at, mode);
        var e := path[|path| - 1];
        var x := EdgeTransform(e.0, e.1, at, mode);
        if acc.None? || x.None? then None else Some(Compose(x.value, acc.value))
    }

    /** A path has a composed transform iff every one of its edges has one. */
    lemma {:induction false} ComposeAlongSome(path: seq<Edge>, at: real, mode: TfMode)
      ensures ComposeAlong(path, at, mode).Some? <==>
        forall i :: 0 <= i < |path| ==> EdgeTransform(path[i].0, path[i].1, at, mode).Some?
    {
      if |path| > 0 {
        var front := path[..|path| - 1];
        ComposeAlongSome(front, at, mode);
        assert forall i :: 0 <= i < |front| ==> front[i] == path[i];
      }
    }

    /** With identity rotations, composition telescopes: if every edge of a
      * chain moves by the difference of two frame positions, the composed
      * transform moves by the difference between the chain's ends. */
    lemma {:induction false} Telescope(path: seq<Edge>, s: string, t: string, at: real, mode: TfMode, pos: string -> Vec)
      requires IsChain(Keys(), path, s, t)
      requires forall i :: 0 <= i < |path| ==>
        EdgeTransform(path[i].0, path[i].1, at, mode).Some?
        && Shift(EdgeTransform(path[i].0, path[i].1, at, mode).value) == Minus(pos(path[i].1), pos(path[i].0))
      ensures ComposeAlong(path, at, mode).Some?
      ensures Shift(ComposeAlong(path, at, mode).value) == Minus(pos(t), pos(s))
    {
      if |path| > 0 {
        var front := path[..|path| - 1];
        var e := path[|path| - 1];
        ChainPrefix(Keys(), path, s, t);
        assert forall i :: 0 <= i < |front| ==> front[i] == path[i];
        Telescope(front, s, e.0, at, mode, pos);
        ComposeAlongLast(path, at, mode);
        MinusChain(pos(s), pos(e.0), pos(t));
      }
    }

    /** A path whose front and last edge have transforms composes them. */
    lemma {:induction false} ComposeAlongLast(path: seq<Edge>, at: real, mode: TfMode)
      requires |path| > 0
      requires ComposeAlong(path[..|path| - 1], at, mode).Some?
      requires EdgeTransform(path[|path| - 1].0, path[|path| - 1].1, at, mode).Some?
      ensures ComposeAlong(path, at, mode)
              == Some(Compose(EdgeTransform(path[|path| - 1].0, path[|path| - 1].1, at, mode).value,
                              ComposeAlong(path[..|path| - 1], at, mode).value))
      ensures Shift(ComposeAlong(path, at, mode).value)
              == Plus(Shift(EdgeTransform(path[|path| - 1].0, path[|path| - 1].1, at, mode).value),
                      Shift(ComposeAlong(path[..|path| - 1], at, mode).value))
    {
    }

    /** `resolve`: the transform from the source frame to the target frame,
      * the edges of the path found composed in order. */
    method Resolve(target: string, source: string, at: real, mode: TfMode)
      returns (r: Option<Iso>, ghost path: Option<seq<Edge>>)
      ensures path.None? ==> r.None? && !Connected(Keys(), source, target)
      ensures path.Some? ==> IsChain(Keys(), path.value, source, target) && r == ComposeAlong(path.value, at, mode)
      ensures source == target ==> r == Some(Identity)
    {
      var found := FindPath(source, target);
      path := found;
      if found.None? {
        return None, path;
      }
      var steps := found.value;
      var iso := Identity;
      var i := 0;
      while i < |steps|
        invariant 0 <= i <= |steps|
        invariant ComposeAlong(steps[..i], at, mode) == Some(iso)
      {
        assert steps[..i + 1][..i] == steps[..i];
        var edge := GetEdgeTransform(steps[i].0, steps[i].1, at, mode);
        if edge.None? {
          ComposeAlongNoneFinal(steps, i + 1, at, mode);
          return None, path;
        }
        iso := Compose(edge.value, iso);
        i := i + 1;
      }
      assert steps[..i] == steps;
      return Some(iso), path;
    }

    lemma {:induction false} ComposeAlongNoneFinal(path: seq<Edge>, k: nat, at: real, mode: TfMode)
      requires k <= |path| && ComposeAlong(path[..k], at, mode).None?
      ensures ComposeAlong(path, at, mode).None?
      decreases |path| - k
    {
      if k < |path| {
        assert path[..k + 1][..k] == path[..k];
        ComposeAlongNoneFinal(path, k + 1, at, mode);
      } else {
        assert path[..k] == path;
      }
    }
  }

  // ---------------------------------------------------------------------
  // Worked examples
  // ---------------------------------------------------------------------

  function Frame(c: char): Bytes
    requires c as int < 256
  {
    [c as int]
  }

  /** A pure translation. */
  function Move(x: F64, y: F64, z: F64): Transform
  {
    Transform(Vector3(x, y, z), Quaternion(ZERO, ZERO, ZERO, ONE))
  }

  /** Ingests a static message that carries the one transform p -> c. */
  method IngestSingle(g: TfGraph, p: char, c: char, tr: Transform) returns (r: Result<()>)
    requires g.Valid() && p as int < 256 && c as int < 256
    modifies g
    ensures g.Valid() && g.dynamic == old(g.dynamic) && r == Ok(())
    ensures (g.staticEdges, g.staticGraph)
            == StaticStep(old(g.staticEdges), old(g.staticGraph), TransformStamped([p], [c], tr))
  {
    PayloadRoundTrip(Frame(p), Frame(c), tr);
    assert Text(Frame(p)) == [p] && Text(Frame(c)) == [c];
    r := g.IngestTfStaticMsg(Payload(Frame(p), Frame(c), tr));
    assert [TransformStamped([p], [c], tr)][..0] == [];
  }

  /** Adding the static edge parent -> child to a graph where the child has
    * no children of its own. */
  lemma StaticLeafAdded(edges: map<Edge, TfSample>, g: Graph, parent: string, child: string, tr: Transform)
    requires child !in g && child != parent
    ensures StaticStep(edges, g, TransformStamped(parent, child, tr))
            == (edges[(parent, child) := TfSample(0.0, tr)], AddEdge(g, parent, child))
  {
    Leaf(g, child, parent);
  }

  /** With A -> B in the graph, the transform B -> A would close a cycle. */
  lemma BackEdgeSkipped(edges: map<Edge, TfSample>, tr: Transform)
    ensures StaticStep(edges, AddEdge(map[], "A", "B"), TransformStamped("B", "A", tr))
            == (edges, AddEdge(map[], "A", "B"))
  {
    var g := AddEdge(map[], "A", "B");
    assert "A" in g && "B" in g["A"];
    ReachRefl(g, "B");
    ReachStep(g, "A", "B", "B");
  }

  /** Static A -> B then B -> A: the second message is accepted but its edge
    * is skipped. */
  method CycleExample() returns (first: Result<()>, second: Result<()>, edges: set<Edge>)
    ensures first == Ok(()) && second == Ok(())
    ensures edges == {("A", "B")}
  {
    var g := new TfGraph();
    var ab := Move(ONE, ZERO, ZERO);
    var ba := Move(ZERO, ONE, ZERO);
    StaticLeafAdded(map[], map[], "A", "B", ab);
    first := IngestSingle(g, 'A', 'B', ab);
    BackEdgeSkipped(g.staticEdges, ba);
    second := IngestSingle(g, 'B', 'A', ba);
    assert g.staticEdges == map[("A", "B") := TfSample(0.0, ab)];
    edges := g.staticEdges.Keys;
  }

  /** Static A -> B and then B -> C. */
  method ChainGraph(ab: Transform, bc: Transform) returns (g: TfGraph)
    ensures g.Valid() && g.dynamic == map[]
    ensures g.staticEdges == map[("A", "B") := TfSample(0.0, ab), ("B", "C") := TfSample(0.0, bc)]
  {
    g := new TfGraph();
    StaticLeafAdded(map[], map[], "A", "B", ab);
    var first := IngestSingle(g, 'A', 'B', ab);
    StaticLeafAdded(g.staticEdges, g.staticGraph, "B", "C", bc);
    var second := IngestSingle(g, 'B', 'C', bc);
  }

  /** Where the chain puts each frame: A at the origin, B moved by the first
    * translation, C by both. */
  function ChainPos(ab: Transform, bc: Transform, f: string): Vec
  {
    var b := TranslationOf(TfSample(0.0, ab));
    if f == "B" then b
    else if f == "C" then Plus(b, TranslationOf(TfSample(0.0, bc)))
    else Vec(0.0, 0.0, 0.0)
  }

  /** The chain graph links exactly two frame pairs, in both directions. */
  lemma ChainLinks(g: TfGraph, ab: Transform, bc: Transform, e: Edge)
    requires g.dynamic == map[]
    requires g.staticEdges == map[("A", "B") := TfSample(0.0, ab), ("B", "C") := TfSample(0.0, bc)]
    requires Linked(g.Keys(), e)
    ensures e == ("A", "B") || e == ("B", "A") || e == ("B", "C") || e == ("C", "B")
  {
    assert g.Keys() == {("A", "B"), ("B", "C")};
  }

  /** Each step the chain graph links moves by the difference of the chain
    * positions of its ends. */
  lemma ChainStep(g: TfGraph, ab: Transform, bc: Transform, e: Edge)
    requires g.dynamic == map[]
    requires g.staticEdges == map[("A", "B") := TfSample(0.0, ab), ("B", "C") := TfSample(0.0, bc)]
    requires Linked(g.Keys(), e)
    ensures g.EdgeTransform(e.0, e.1, 0.0, Nearest).Some?
    ensures Shift(g.EdgeTransform(e.0, e.1, 0.0, Nearest).value) == Minus(ChainPos(ab, bc, e.1), ChainPos(ab, bc, e.0))
  {
    ChainLinks(g, ab, bc, e);
    var (p, c) := e;
    if e == ("A", "B") || e == ("B", "C") {
      ChainForward(g, ab, bc, p, c);
    } else {
      ChainBackward(g, ab, bc, p, c);
    }
  }

  /** A step that follows one of the two chain edges forwards. */
  lemma ChainForward(g: TfGraph, ab: Transform, bc: Transform, p: string, c: string)
    requires g.staticEdges == map[("A", "B") := TfSample(0.0, ab), ("B", "C") := TfSample(0.0, bc)]
    requires (p, c) == ("A", "B") || (p, c) == ("B", "C")
    ensures g.EdgeTransform(p, c, 0.0, Nearest).Some?
    ensures Shift(g.EdgeTransform(p, c, 0.0, Nearest).value) == Minus(ChainPos(ab, bc, c), ChainPos(ab, bc, p))
  {
    assert "A"[0] != "B"[0] && "B"[0] != "C"[0] && "A"[0] != "C"[0];
    g.StaticForward(p, c, 0.0, Nearest);
    ChainPositions(ab, bc);
    PlusMinus(TranslationOf(TfSample(0.0, ab)), TranslationOf(TfSample(0.0, bc)));
  }

  /** A step that follows one of the two chain edges backwards. */
  lemma ChainBackward(g: TfGraph, ab: Transform, bc: Transform, p: string, c: string)
    requires g.staticEdges == map[("A", "B") := TfSample(0.0, ab), ("B", "C") := TfSample(0.0, bc)]
    requires (p, c) == ("B", "A") || (p, c) == ("C", "B")
    ensures g.EdgeTransform(p, c, 0.0, Nearest).Some?
    ensures Shift(g.EdgeTransform(p, c, 0.0, Nearest).value) == Minus(ChainPos(ab, bc, c), ChainPos(ab, bc, p))
  {
    assert "A"[0] != "B"[0] && "B"[0] != "C"[0] && "A"[0] != "C"[0];
    g.StaticBackward(p, c, 0.0, Nearest);
    ChainPositions(ab, bc);
    MinusPlus(TranslationOf(TfSample(0.0, ab)), TranslationOf(TfSample(0.0, bc)));
  }

  /** Going from b to b + t is going by t, and from the origin to b is
    * going by b. */
  lemma PlusMinus(b: Vec, t: Vec)
    ensures Minus(Plus(b, t), b) == t && Minus(b, Vec(0.0, 0.0, 0.0)) == b
  {
  }

  /** Going back from b + t to b is going back by t. */
  lemma MinusPlus(b: Vec, t: Vec)
    ensures Minus(b, Plus(b, t)) == Minus(Vec(0.0, 0.0, 0.0), t)
  {
  }

  /** Where the chain puts A, B and C. */
  lemma ChainPositions(ab: Transform, bc: Transform)
    ensures ChainPos(ab, bc, "A") == Vec(0.0, 0.0, 0.0)
    ensures ChainPos(ab, bc, "B") == TranslationOf(TfSample(0.0, ab))
    ensures ChainPos(ab, bc, "C") == Plus(TranslationOf(TfSample(0.0, ab)), TranslationOf(TfSample(0.0, bc)))
  {
    assert "A"[0] != "B"[0] && "B"[0] != "C"[0] && "A"[0] != "C"[0];
  }

  /** With identity rotations, the transform from A to C, resolved from C's
    * side, moves by the sum of the two translations. */
  method ChainExample(ab: Transform, bc: Transform) returns (r: Option<Iso>)
    ensures r.Some?
    ensures Shift(r.value) == Plus(TranslationOf(TfSample(0.0, ab)), TranslationOf(TfSample(0.0, bc)))
  {
    var g := ChainGraph(ab, bc);
    assert g.Keys() == {("A", "B"), ("B", "C")};
    assert IsChain(g.Keys(), [("A", "B"), ("B", "C")], "A", "C");
    ghost var path;
    r, path := g.Resolve("C", "A", 0.0, Nearest);
    ghost var steps := path.value;
    forall i | 0 <= i < |steps|
      ensures g.EdgeTransform(steps[i].0, steps[i].1, 0.0, Nearest).Some?
      ensures Shift(g.EdgeTransform(steps[i].0, steps[i].1, 0.0, Nearest).value)
              == Minus(ChainPos(ab, bc, steps[i].1), ChainPos(ab, bc, steps[i].0))
    {
      ChainStep(g, ab, bc, steps[i]);
    }
    g.Telescope(steps, "A", "C", 0.0, Nearest, (f: string) => ChainPos(ab, bc, f));
    assert "A"[0] != "B"[0] && "A"[0] != "C"[0];
  }

  lemma UnitTranslations()
    ensures TranslationOf(TfSample(0.0, Move(ONE, ZERO, ZERO))) == Vec(1.0, 0.0, 0.0)
    ensures TranslationOf(TfSample(0.0, Move(ZERO, ONE, ZERO))) == Vec(0.0, 1.0, 0.0)
  {
    ConstantValues();
  }

  /** One along x and then one along y: the transform from A to C moves by
    * (1, 1, 0). */
  method UnitChainExample() returns (r: Option<Iso>)
    ensures r.Some? && Shift(r.value) == Vec(1.0, 1.0, 0.0)
  {
    var ab, bc := Move(ONE, ZERO, ZERO), Move(ZERO, ONE, ZERO);
    r := ChainExample(ab, bc);
    UnitTranslations();
    assert Plus(Vec(1.0, 0.0, 0.0), Vec(0.0, 1.0, 0.0)) == Vec(1.0, 1.0, 0.0);
  }
}
