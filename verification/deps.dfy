/** The graph algorithms of llvm/utils/check_ninja_deps.py: topological sorting and the sets of
    ancestors. */
module Deps {

  type Vertex = string

  /** A directed graph; parallel edges are allowed. */
  datatype Graph = Graph(nodes: set<Vertex>, edges: seq<(Vertex, Vertex)>) {
    predicate Valid() {
      forall i :: 0 <= i < |edges| ==> edges[i].0 in nodes && edges[i].1 in nodes
    }
  }

  predicate Edge(g: Graph, v: Vertex, w: Vertex) {
    (v, w) in g.edges
  }

  /** The targets of the edges from v. */
  function OutNeighbors(edges: seq<(Vertex, Vertex)>, v: Vertex): seq<Vertex> {
    if edges == [] then []
    else
      var e := edges[|edges| - 1];
      OutNeighbors(edges[..|edges| - 1], v) + if e.0 == v then [e.1] else []
  }

  /** The sources of the edges to v. */
  function InNeighbors(edges: seq<(Vertex, Vertex)>, v: Vertex): seq<Vertex> {
    if edges == [] then []
    else
      var e := edges[|edges| - 1];
      InNeighbors(edges[..|edges| - 1], v) + if e.1 == v then [e.0] else []
  }

  lemma {:induction false} OutNeighborsAre(edges: seq<(Vertex, Vertex)>, v: Vertex, w: Vertex)
    ensures w in OutNeighbors(edges, v) <==> (v, w) in edges
  {
    if edges != [] {
      OutNeighborsAre(edges[..|edges| - 1], v, w);
      assert edges == edges[..|edges| - 1] + [edges[|edges| - 1]];
    }
  }

  lemma {:induction false} InNeighborsAre(edges: seq<(Vertex, Vertex)>, v: Vertex, w: Vertex)
    ensures w in InNeighbors(edges, v) <==> (w, v) in edges
  {
    if edges != [] {
      InNeighborsAre(edges[..|edges| - 1], v, w);
      assert edges == edges[..|edges| - 1] + [edges[|edges| - 1]];
    }
  }

  /** How many edges to w come from outside of `done`. */
  function Pending(edges: seq<(Vertex, Vertex)>, done: set<Vertex>, w: Vertex): nat {
    if edges == [] then 0
    else
      var e := edges[|edges| - 1];
      Pending(edges[..|edges| - 1], done, w) + if e.1 == w && e.0 !in done then 1 else 0
  }

  function Occurrences(s: seq<Vertex>, w: Vertex): nat {
    if s == [] then 0 else Occurrences(s[..|s| - 1], w) + if s[|s| - 1] == w then 1 else 0
  }

  lemma {:induction false} PendingIn(edges: seq<(Vertex, Vertex)>, w: Vertex)
    ensures Pending(edges, {}, w) == |InNeighbors(edges, w)|
  {
    if edges != [] {
      PendingIn(edges[..|edges| - 1], w);
    }
  }

  lemma {:induction false} PendingZero(edges: seq<(Vertex, Vertex)>, done: set<Vertex>, w: Vertex)
    ensures Pending(edges, done, w) == 0 <==> forall v :: (v, w) in edges ==> v in done
  {
    if edges != [] {
      var n := |edges| - 1;
      PendingZero(edges[..n], done, w);
      assert edges == edges[..n] + [edges[n]];
      assert edges[n] in edges;
    }
  }

  /** Outputting v takes away one pending edge for each occurrence among v's successors. */
  lemma {:induction false} PendingMore(edges: seq<(Vertex, Vertex)>, done: set<Vertex>, v: Vertex, w: Vertex)
    requires v !in done
    ensures Pending(edges, done, w) == Pending(edges, done + {v}, w) + Occurrences(OutNeighbors(edges, v), w)
  {
    if edges != [] {
      var n := |edges| - 1;
      PendingMore(edges[..n], done, v, w);
      var ns := OutNeighbors(edges[..n], v);
      assert (ns + [edges[n].1])[..|ns|] == ns;
      assert ns + [] == ns;
    }
  }

  lemma {:induction false} OccurrencesMono(s: seq<Vertex>, k: nat, w: Vertex)
    requires k <= |s|
    ensures Occurrences(s[..k], w) <= Occurrences(s, w)
    ensures k < |s| && s[k] == w ==> Occurrences(s[..k], w) < Occurrences(s, w)
  {
    if k < |s| {
      assert s[..|s| - 1][..k] == s[..k];
      OccurrencesMono(s[..|s| - 1], k, w);
    } else {
      assert s[..k] == s;
    }
  }

  // ----- paths -----

  predicate Path(g: Graph, p: seq<Vertex>) {
    |p| >= 1 && forall i :: 0 < i < |p| ==> Edge(g, p[i - 1], p[i])
  }

  ghost predicate PathFromTo(g: Graph, p: seq<Vertex>, a: Vertex, b: Vertex) {
    |p| >= 2 && Path(g, p) && p[0] == a && p[|p| - 1] == b
  }

  /** There is a path of at least one edge. */
  ghost predicate Reaches(g: Graph, a: Vertex, b: Vertex) {
    exists p :: PathFromTo(g, p, a, b)
  }

  ghost predicate Acyclic(g: Graph) {
    forall v :: !Reaches(g, v, v)
  }

  /** The last edge of a path to w. */
  lemma ReachesLast(g: Graph, a: Vertex, w: Vertex)
    ensures Reaches(g, a, w) <==> exists v :: Edge(g, v, w) && (a == v || Reaches(g, a, v))
  {
    if Reaches(g, a, w) {
      var p :| PathFromTo(g, p, a, w);
      var v := p[|p| - 2];
      assert Edge(g, v, p[|p| - 1]);
      if |p| > 2 {
        assert PathFromTo(g, p[..|p| - 1], a, v);
      }
    }
    if v :| Edge(g, v, w) && (a == v || Reaches(g, a, v)) {
      if a == v {
        assert PathFromTo(g, [a, w], a, w);
      } else {
        var p :| PathFromTo(g, p, a, v);
        assert PathFromTo(g, p + [w], a, w);
      }
    }
  }

  // ----- topological sorting -----

  function Elements(s: seq<Vertex>): set<Vertex> {
    set x | x in s
  }

  /** Every vertex comes once, after all its predecessors. */
  ghost predicate InOrder(g: Graph, out: seq<Vertex>) {
    && (forall i, j :: 0 <= i < j < |out| ==> out[i] != out[j])
    && (forall i, v :: 0 <= i < |out| && Edge(g, v, out[i]) ==> v in out[..i])
  }

  /** The counter of each vertex, and the vertices ready to be output. */
  ghost predicate Counted(g: Graph, done: set<Vertex>, ideg: map<Vertex, int>, ready: set<Vertex>) {
    && ideg.Keys == g.nodes
    && (forall w :: w in g.nodes ==> ideg[w] == Pending(g.edges, done, w))
    && (forall w :: w in ready <==> w in g.nodes && w !in done && ideg[w] == 0)
    && (forall w :: w in g.nodes && w in done ==> ideg[w] == 0)
  }

  ghost predicate HasLeftOver(g: Graph, out: seq<Vertex>, w: Vertex) {
    exists v :: Edge(g, v, w) && v !in out
  }

  /** Whatever is left over has a predecessor that is left over. */
  ghost predicate Exhausted(g: Graph, out: seq<Vertex>) {
    forall w {:trigger HasLeftOver(g, out, w)} :: w in g.nodes && w !in out ==> HasLeftOver(g, out, w)
  }

  lemma LeftOver(g: Graph, out: seq<Vertex>, w: Vertex) returns (v: Vertex)
    requires g.Valid() && Exhausted(g, out) && w in g.nodes && w !in out
    ensures Edge(g, v, w) && v in g.nodes && v !in out
  {
    assert HasLeftOver(g, out, w);
    v :| Edge(g, v, w) && v !in out;
  }

  lemma OneMore(out: seq<Vertex>, v: Vertex)
    ensures Elements(out + [v]) == Elements(out) + {v}
    ensures Elements([]) == {}
  {
  }

  /** Output vertices as long as one is ready. What is output is in order; nothing is left over
      that has all its predecessors in the output. */
  method Toposort(g: Graph) returns (out: seq<Vertex>)
    requires g.Valid()
    ensures Elements(out) <= g.nodes && InOrder(g, out)
    ensures Exhausted(g, out)
  {
    hide Pending, InOrder, Elements, Graph.Valid;
    var ideg: map<Vertex, int> := map v | v in g.nodes :: |InNeighbors(g.edges, v)|;
    var ready := set v | v in g.nodes && ideg[v] == 0;
    out := [];
    forall w | w in g.nodes
      ensures ideg[w] == Pending(g.edges, {}, w)
    {
      PendingIn(g.edges, w);
    }
    OneMore(out, "");
    NothingOut(g);
    while |ready| > 0
      invariant Elements(out) <= g.nodes && InOrder(g, out) && Counted(g, Elements(out), ideg, ready)
      decreases |g.nodes - Elements(out)|
    {
      var v :| v in ready;
      ghost var done := Elements(out);
      ElementsAre(out);
      NextInOrder(g, out, v);
      OneMore(out, v);
      out := out + [v];
      SubsetSmaller(g.nodes - Elements(out), g.nodes - done);
      ideg, ready := Release(g, done, v, ideg, ready);
    }
    forall w | w in g.nodes && w !in out
      ensures HasLeftOver(g, out, w)
    {
      ElementsAre(out);
      assert w !in ready;
      PendingZero(g.edges, Elements(out), w);
    }
  }

  lemma ElementsAre(out: seq<Vertex>)
    ensures forall v :: v in Elements(out) <==> v in out
  {
  }

  lemma SubsetSmaller(a: set<Vertex>, b: set<Vertex>)
    requires a < b
    ensures |a| < |b|
  {
    assert b == a + (b - a);
  }

  lemma NothingOut(g: Graph)
    ensures InOrder(g, [])
  {
  }

  lemma NextInOrder(g: Graph, out: seq<Vertex>, v: Vertex)
    requires InOrder(g, out) && v !in out && Pending(g.edges, Elements(out), v) == 0
    ensures InOrder(g, out + [v])
  {
    var out' := out + [v];
    PendingZero(g.edges, Elements(out), v);
    forall i, u | 0 <= i < |out'| && Edge(g, u, out'[i])
      ensures u in out'[..i]
    {
      assert out'[..i] == if i < |out| then out[..i] else out;
    }
  }

  /** Output v: remove it from the ready vertices, and count down its successors. */
  method Release(g: Graph, ghost done: set<Vertex>, v: Vertex, ideg0: map<Vertex, int>, ready0: set<Vertex>)
    returns (ideg: map<Vertex, int>, ready: set<Vertex>)
    requires g.Valid() && v in ready0 && Counted(g, done, ideg0, ready0)
    ensures Counted(g, done + {v}, ideg, ready)
  {
    hide Pending, Occurrences, OutNeighbors;
    ideg, ready := ideg0, ready0 - {v};
    var ns := OutNeighbors(g.edges, v);
    forall w
      ensures Pending(g.edges, done, w) == Pending(g.edges, done + {v}, w) + Occurrences(ns, w)
      ensures w in ns <==> Edge(g, v, w)
    {
      PendingMore(g.edges, done, v, w);
      OutNeighborsAre(g.edges, v, w);
    }
    NoOccurrences();
    for k := 0 to |ns|
      invariant ideg.Keys == g.nodes
      invariant forall w :: w in g.nodes ==> ideg[w] == Pending(g.edges, done, w) - Occurrences(ns[..k], w)
      invariant forall w :: w in ready <==> w in g.nodes && w !in done + {v} && ideg[w] == 0
    {
      var w := ns[k];
      assert Edge(g, v, w);
      CountOne(ns, k);
      OccurrencesMono(ns, k, w);
      PendingZero(g.edges, done, w);
      NotYet(g, done, v, w, ideg0);
      ideg := ideg[w := ideg[w] - 1];
      if ideg[w] == 0 {
        ready := ready + {w};
      }
    }
    assert ns[..|ns|] == ns;
  }

  lemma NoOccurrences()
    ensures forall w :: Occurrences([], w) == 0
  {
  }

  lemma CountOne(ns: seq<Vertex>, k: nat)
    requires k < |ns|
    ensures forall w :: Occurrences(ns[..k + 1], w) == Occurrences(ns[..k], w) + if w == ns[k] then 1 else 0
  {
    assert ns[..k + 1][..k] == ns[..k];
  }

  /** A successor of v has not been output before v. */
  lemma NotYet(g: Graph, done: set<Vertex>, v: Vertex, w: Vertex, ideg: map<Vertex, int>)
    requires Edge(g, v, w) && v !in done && ideg.Keys == g.nodes && w in g.nodes && v in g.nodes
    requires ideg[v] == Pending(g.edges, done, v) == 0
    requires w in done ==> ideg[w] == 0 == Pending(g.edges, done, w)
    ensures Pending(g.edges, done, w) > 0 && w != v && w !in done
  {
    PendingZero(g.edges, done, w);
  }

  // ----- cycles -----

  /** Every vertex on a path to an output vertex was output before it. */
  lemma {:induction false} PathForward(g: Graph, out: seq<Vertex>, p: seq<Vertex>, j: nat)
    requires InOrder(g, out) && |p| >= 2 && Path(g, p) && j < |out| && p[|p| - 1] == out[j]
    ensures p[0] in out[..j]
    decreases |p|
  {
    var v := p[|p| - 2];
    assert Edge(g, v, out[j]);
    if |p| > 2 {
      var i :| 0 <= i < j && out[..j][i] == v;
      PathForward(g, out, p[..|p| - 1], i);
    }
  }

  lemma {:induction false} Pigeonhole(s: seq<Vertex>, nodes: set<Vertex>)
    requires (forall i :: 0 <= i < |s| ==> s[i] in nodes) && forall i, j :: 0 <= i < j < |s| ==> s[i] != s[j]
    ensures |s| <= |nodes|
    decreases |s|
  {
    if s != [] {
      var x := s[|s| - 1];
      Pigeonhole(s[..|s| - 1], nodes - {x});
    }
  }

  /** Going back from a vertex that is left over, over vertices that are left over. */
  lemma {:induction false} BackWalk(g: Graph, out: seq<Vertex>, w: Vertex, n: nat) returns (p: seq<Vertex>)
    requires g.Valid() && w in g.nodes && w !in out
    requires Exhausted(g, out)
    ensures |p| == n + 1 && Path(g, p) && p[n] == w && forall i :: 0 <= i < |p| ==> p[i] in g.nodes && p[i] !in out
  {
    hide Exhausted, Edge;
    if n == 0 {
      p := [w];
    } else {
      var q := BackWalk(g, out, w, n - 1);
      var v := LeftOver(g, out, q[0]);
      p := [v] + q;
    }
  }

  lemma SubPath(g: Graph, p: seq<Vertex>, i: nat, j: nat)
    requires Path(g, p) && i < j < |p|
    ensures Reaches(g, p[i], p[j])
  {
    hide Edge;
    var q := p[i..j + 1];
    forall k | 0 < k < |q|
      ensures Edge(g, q[k - 1], q[k])
    {
      assert q[k] == p[i + k] && q[k - 1] == p[i + k - 1];
    }
    assert PathFromTo(g, q, p[i], p[j]);
  }

  /** On, or reachable from, a cycle. */
  ghost predicate BehindCycle(g: Graph, w: Vertex) {
    exists c :: Reaches(g, c, c) && (c == w || Reaches(g, c, w))
  }

  lemma CycleFound(g: Graph, out: seq<Vertex>, w: Vertex)
    requires g.Valid() && w in g.nodes && w !in out
    requires Exhausted(g, out)
    ensures BehindCycle(g, w)
  {
    hide Exhausted, Edge;
    var n := |g.nodes|;
    var p := BackWalk(g, out, w, n);
    if forall i, j :: 0 <= i < j < |p| ==> p[i] != p[j] {
      Pigeonhole(p, g.nodes);
    }
    var i, j :| 0 <= i < j < |p| && p[i] == p[j];
    SubPath(g, p, i, j);
    SubPath(g, p, i, n);
  }

  lemma NoCycleBefore(g: Graph, out: seq<Vertex>, w: Vertex)
    requires InOrder(g, out) && w in out
    ensures !BehindCycle(g, w)
  {
    if c :| Reaches(g, c, c) && (c == w || Reaches(g, c, w)) {
      var j :| 0 <= j < |out| && out[j] == w;
      if c != w {
        var p :| PathFromTo(g, p, c, w);
        PathForward(g, out, p, j);
      }
      var i :| 0 <= i < |out| && out[i] == c;
      var p :| PathFromTo(g, p, c, c);
      PathForward(g, out, p, i);
    }
  }

  /** Exactly the vertices that are not behind a cycle are output; so all are, if and only if the
      graph has no cycle. */
  lemma Complete(g: Graph, out: seq<Vertex>)
    requires g.Valid() && Elements(out) <= g.nodes && InOrder(g, out)
    requires Exhausted(g, out)
    ensures forall w :: w in g.nodes ==> (w in out <==> !BehindCycle(g, w))
    ensures Elements(out) == g.nodes <==> Acyclic(g)
  {
    forall w | w in g.nodes
      ensures w in out <==> !BehindCycle(g, w)
    {
      if w in out {
        NoCycleBefore(g, out, w);
      } else {
        CycleFound(g, out, w);
      }
    }
    if Acyclic(g) {
      assert g.nodes <= Elements(out);
    } else {
      var v :| Reaches(g, v, v);
      ReachesLast(g, v, v);
      assert BehindCycle(g, v) && v in g.nodes;
    }
  }

  // ----- ancestors -----

  /** l is the label of v or of an ancestor of v. */
  ghost predicate LabelAbove(g: Graph, translate: Vertex -> string, v: Vertex, l: string) {
    exists u :: translate(u) == l && (u == v || Reaches(g, u, v))
  }

  lemma LabelAboveStep(g: Graph, translate: Vertex -> string, v: Vertex, l: string)
    ensures LabelAbove(g, translate, v, l) <==>
            l == translate(v) || exists w :: Edge(g, w, v) && LabelAbove(g, translate, w, l)
  {
    if LabelAbove(g, translate, v, l) && l != translate(v) {
      var u :| translate(u) == l && Reaches(g, u, v);
      ReachesLast(g, u, v);
      var w :| Edge(g, w, v) && (u == w || Reaches(g, u, w));
      assert LabelAbove(g, translate, w, l);
    }
    if w :| Edge(g, w, v) && LabelAbove(g, translate, w, l) {
      var u :| translate(u) == l && (u == w || Reaches(g, u, w));
      ReachesLast(g, u, v);
    }
  }

  /** The sets made so far. */
  ghost predicate SetsOK(g: Graph, translate: Vertex -> string, a: map<Vertex, set<string>>) {
    forall v, l :: v in a ==> (l in a[v] <==> LabelAbove(g, translate, v, l))
  }

  /** The set for v, from those of its predecessors. */
  method CollectAbove(g: Graph, translate: Vertex -> string, v: Vertex, a: map<Vertex, set<string>>)
      returns (av: set<string>)
    requires SetsOK(g, translate, a) && forall w :: w in InNeighbors(g.edges, v) ==> w in a
    ensures forall l :: l in av <==> LabelAbove(g, translate, v, l)
  {
    hide InNeighbors, LabelAbove;
    var ws := InNeighbors(g.edges, v);
    av := {translate(v)};
    for k := 0 to |ws|
      invariant forall l :: l in av <==> l == translate(v) || exists j :: 0 <= j < k && l in a[ws[j]]
    {
      av := av + a[ws[k]];
    }
    forall l
      ensures l in av <==> LabelAbove(g, translate, v, l)
    {
      LabelAboveStep(g, translate, v, l);
      if l in av && l != translate(v) {
        var j :| 0 <= j < |ws| && l in a[ws[j]];
        InNeighborsAre(g.edges, v, ws[j]);
        assert Edge(g, ws[j], v) && LabelAbove(g, translate, ws[j], l);
      }
      if w :| Edge(g, w, v) && LabelAbove(g, translate, w, l) {
        InNeighborsAre(g.edges, v, w);
        var j :| 0 <= j < |ws| && ws[j] == w;
        assert l in a[ws[j]];
      }
    }
  }

  /** What is output for a vertex: exactly the labels of the vertices from which a nonempty path
      leads to it, less its own label. */
  ghost predicate AncestorsOf(g: Graph, translate: Vertex -> string, v: Vertex, r: (string, set<string>)) {
    && r.0 == translate(v)
    && forall l :: l in r.1 <==> l != translate(v) && exists u :: translate(u) == l && Reaches(g, u, v)
  }

  lemma ProperAncestors(g: Graph, translate: Vertex -> string, v: Vertex, av: set<string>)
    requires forall l :: l in av <==> LabelAbove(g, translate, v, l)
    ensures AncestorsOf(g, translate, v, (translate(v), av - {translate(v)}))
  {
    hide Reaches;
  }

  /** One result for each vertex that is not behind a cycle. */
  method Ancestors(g: Graph, translate: Vertex -> string)
      returns (res: seq<(string, set<string>)>, ghost order: seq<Vertex>)
    requires g.Valid()
    ensures Elements(order) <= g.nodes && InOrder(g, order)
    ensures forall w :: w in g.nodes ==> (w in order <==> !BehindCycle(g, w))
    ensures |res| == |order| && forall i :: 0 <= i < |res| ==> AncestorsOf(g, translate, order[i], res[i])
    ensures forall v :: v in g.nodes && !BehindCycle(g, v) ==>
              exists i :: 0 <= i < |res| && AncestorsOf(g, translate, v, res[i])
  {
    hide InOrder, BehindCycle, Reaches, AncestorsOf, LabelAbove, Elements, Exhausted, InNeighbors, Graph.Valid;
    OneMore([], "");
    var out := Toposort(g);
    order := out;
    Complete(g, out);
    var a: map<Vertex, set<string>> := map[];
    res := [];
    for i := 0 to |out|
      invariant a.Keys == Elements(out[..i]) && |res| == i && SetsOK(g, translate, a)
      invariant forall k :: 0 <= k < i ==> AncestorsOf(g, translate, out[k], res[k])
    {
      var v := out[i];
      var vm := translate(v);
      PredecessorsDone(g, out, i);
      var av := CollectAbove(g, translate, v, a);
      ProperAncestors(g, translate, v, av);
      OneMore(out[..i], v);
      assert out[..i + 1] == out[..i] + [v];
      a := a[v := av];
      res := res + [(vm, av - {vm})];
    }
    forall v | v in g.nodes && !BehindCycle(g, v)
      ensures exists i :: 0 <= i < |res| && AncestorsOf(g, translate, v, res[i])
    {
      var i :| 0 <= i < |out| && out[i] == v;
      assert AncestorsOf(g, translate, v, res[i]);
    }
  }

  lemma PredecessorsDone(g: Graph, out: seq<Vertex>, i: nat)
    requires InOrder(g, out) && i < |out|
    ensures forall w :: w in InNeighbors(g.edges, out[i]) ==> w in Elements(out[..i])
    ensures out[i] !in Elements(out[..i])
  {
    forall w | w in InNeighbors(g.edges, out[i])
      ensures w in out[..i]
    {
      InNeighborsAre(g.edges, out[i], w);
      assert Edge(g, w, out[i]);
    }
  }
}
