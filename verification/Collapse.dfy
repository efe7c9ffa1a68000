/** `simplify_cfg`: every function is collapsed by hiding its internal edges and adding
    fastpaths from each block to the exits it reaches. The collapsed graph shows exactly what
    the original one shows, unless a block is stranded.
 */
module Collapse {
  import opened ControlFlow

  // ----- The meaning of a collapse

  /** A graph as it is built: nothing hidden, no fastpaths, edges filed under their source. */
  ghost predicate Fresh(g: Graph) {
    && g.hidden == {}
    && (forall b, e :: e in Out(g, b) ==> e.source == b && !e.kind.Fastpath?)
  }

  /** Block c is reached from b over internal edges only. */
  ghost predicate Reaches(g: Graph, b: Block, c: Block) {
    exists w :: Walk(g, b, w) && Visible(w) == [] && End(b, w) == c
  }

  ghost predicate HasVisible(g: Graph, c: Block) {
    exists e :: e in Out(g, c) && IsVisible(e)
  }

  ghost predicate IsExit(g: Graph, c: Block) {
    Out(g, c) == [] || HasVisible(g, c)
  }

  ghost predicate HasFastpath(g: Graph, b: Block, c: Block) {
    exists e :: e in Out(g, b) && e.kind.Fastpath? && e.target == c
  }

  ghost predicate IsFastpathFor(g0: Graph, roots: set<Block>, b: Block, e: Edge) {
    && e.kind.Fastpath? && b in roots && b != e.target
    && Reaches(g0, b, e.target) && IsExit(g0, e.target)
  }

  /** Block c is reached from one of the collapsed blocks. */
  ghost predicate Covered(g0: Graph, roots: set<Block>, c: Block) {
    exists b :: b in roots && Reaches(g0, b, c)
  }

  /** g is g0 with some fastpaths of the roots added and some internal edges reached from the
      roots hidden; nothing else differs. */
  ghost predicate Partial(g0: Graph, roots: set<Block>, g: Graph) {
    && (forall b, e :: e in Out(g0, b) ==> e in Out(g, b))
    && (forall b, e :: e in Out(g, b) ==> e in Out(g0, b) || IsFastpathFor(g0, roots, b, e))
    && (forall e :: e in g.hidden ==> !IsVisible(e) && !e.kind.Fastpath? && Covered(g0, roots, e.source))
  }

  /** Block c is collapsed as far as root b is concerned. */
  ghost predicate Done(g0: Graph, g: Graph, b: Block, c: Block) {
    && (forall e :: e in Out(g0, c) && !IsVisible(e) ==> e in g.hidden)
    && (IsExit(g0, c) && b != c ==> HasFastpath(g, b, c))
  }

  ghost predicate Collapsed(g0: Graph, roots: set<Block>, g: Graph) {
    && Partial(g0, roots, g)
    && (forall b, c :: b in roots && Reaches(g0, b, c) ==> Done(g0, g, b, c))
  }

  /** No block outside the collapsed ones lost its internal edges while it still needed them
      to reach a visible edge. */
  ghost predicate NoneStranded(g0: Graph, roots: set<Block>) {
    forall b, c :: b !in roots && Covered(g0, roots, b) && Reaches(g0, b, c) && HasVisible(g0, c) ==> b == c
  }

  ghost predicate SameBehaviour(g0: Graph, g: Graph) {
    forall b, vis :: Realisable(g0, b, vis) <==> Realisable(g, b, vis)
  }

  // ----- Reachability

  lemma ReachesSelf(g: Graph, b: Block)
    ensures Reaches(g, b, b)
  {
    var w: seq<Edge> := [];
    assert Walk(g, b, w) && Visible(w) == [] && End(b, w) == b;
  }

  lemma ReachesStep(g: Graph, b: Block, c: Block, e: Edge)
    requires Reaches(g, b, c) && e in Out(g, c) && e !in g.hidden && !IsVisible(e)
    ensures Reaches(g, b, e.target)
  {
    var w :| Walk(g, b, w) && Visible(w) == [] && End(b, w) == c;
    assert [e][1..] == [];
    WalkConcat(g, b, w, [e]);
    VisibleConcat(w, [e]);
    assert Walk(g, b, w + [e]) && Visible(w + [e]) == [] && End(b, w + [e]) == e.target;
  }

  /** What a block reaches, it can show the visible edges of. */
  lemma ReachesShows(g: Graph, b: Block, c: Block, e: Edge)
    requires Reaches(g, b, c) && e in Out(g, c) && e !in g.hidden && IsVisible(e)
    ensures Realisable(g, b, [e])
  {
    var u :| Walk(g, b, u) && Visible(u) == [] && End(b, u) == c;
    assert [e][1..] == [];
    WalkConcat(g, b, u, [e]);
    VisibleConcat(u, [e]);
    assert Walk(g, b, u + [e]) && Visible(u + [e]) == [e];
  }

  lemma ReachesFromDeadEnd(g: Graph, b: Block, c: Block)
    requires Reaches(g, b, c) && Out(g, b) == []
    ensures b == c
  {
  }

  /** A set that contains b and is closed under internal edges contains what b reaches. */
  lemma {:induction false} ReachesClosed(g: Graph, s: set<Block>, b: Block, w: seq<Edge>)
    requires b in s && Walk(g, b, w) && Visible(w) == []
    requires forall c, e :: c in s && e in Out(g, c) && !IsVisible(e) ==> e.target in s
    ensures End(b, w) in s
    decreases w
  {
    if w != [] {
      ReachesClosed(g, s, w[0].target, w[1..]);
    }
  }

  // ----- Collapsing adds no behaviour

  lemma {:induction false} CollapsedSound(g0: Graph, roots: set<Block>, g: Graph, b: Block, w: seq<Edge>) returns (w0: seq<Edge>)
    requires Fresh(g0) && Partial(g0, roots, g) && Walk(g, b, w)
    ensures Walk(g0, b, w0) && Visible(w0) == Visible(w)
    decreases w
  {
    if w == [] { return []; }
    var rest := CollapsedSound(g0, roots, g, w[0].target, w[1..]);
    if w[0] in Out(g0, b) {
      w0 := [w[0]] + rest;
      assert w0[1..] == rest;
    } else {
      var u :| Walk(g0, b, u) && Visible(u) == [] && End(b, u) == w[0].target;
      w0 := u + rest;
      WalkConcat(g0, b, u, rest);
      VisibleConcat(u, rest);
    }
  }

  // ----- Collapsing loses no behaviour, unless a block is stranded

  /** The internal walk u to a block with a visible edge is still possible after the collapse. */
  lemma {:induction false} MoveToExit(g0: Graph, roots: set<Block>, g: Graph, b: Block, u: seq<Edge>) returns (m: seq<Edge>)
    requires Fresh(g0) && Collapsed(g0, roots, g) && NoneStranded(g0, roots)
    requires Walk(g0, b, u) && Visible(u) == [] && HasVisible(g0, End(b, u))
    ensures Walk(g, b, m) && Visible(m) == [] && End(b, m) == End(b, u)
    decreases u
  {
    var c := End(b, u);
    assert Reaches(g0, b, c);
    if b == c { return []; }
    if b in roots {
      assert Done(g0, g, b, c);
      var f :| f in Out(g, b) && f.kind.Fastpath? && f.target == c;
      m := [f];
      assert m[1..] == [];
    } else {
      assert !Covered(g0, roots, b);
      assert u[0].source == b;
      var rest := MoveToExit(g0, roots, g, u[0].target, u[1..]);
      m := [u[0]] + rest;
      assert m[1..] == rest;
    }
  }

  /** A walk that shows something splits at its first visible edge. */
  lemma {:induction false} SplitAtVisible(g: Graph, b: Block, w: seq<Edge>) returns (k: nat)
    requires Walk(g, b, w) && Visible(w) != []
    ensures k < |w| && IsVisible(w[k]) && Visible(w[..k]) == []
    ensures Walk(g, b, w[..k]) && w[k] in Out(g, End(b, w[..k])) && w[k] !in g.hidden
    ensures Walk(g, w[k].target, w[k + 1..]) && Visible(w) == [w[k]] + Visible(w[k + 1..])
    decreases w
  {
    if IsVisible(w[0]) { return 0; }
    var j := SplitAtVisible(g, w[0].target, w[1..]);
    k := j + 1;
    assert w[..k] == [w[0]] + w[1..][..j];
    assert w[..k][1..] == w[1..][..j];
    assert w[1..][j + 1..] == w[k + 1..];
  }

  lemma {:induction false} CollapsedComplete(g0: Graph, roots: set<Block>, g: Graph, b: Block, w0: seq<Edge>) returns (w: seq<Edge>)
    requires Fresh(g0) && Collapsed(g0, roots, g) && NoneStranded(g0, roots) && Walk(g0, b, w0)
    ensures Walk(g, b, w) && Visible(w) == Visible(w0)
    decreases |w0|
  {
    if Visible(w0) == [] { return []; }
    var k := SplitAtVisible(g0, b, w0);
    var m := MoveToExit(g0, roots, g, b, w0[..k]);
    var rest := CollapsedComplete(g0, roots, g, w0[k].target, w0[k + 1..]);
    var tail := [w0[k]] + rest;
    assert tail[1..] == rest;
    w := m + tail;
    WalkConcat(g, b, m, tail);
    VisibleConcat(m, tail);
  }

  /** A stranded block b can no longer show the visible edges of a block c that it reached. */
  lemma {:induction false} StrandedLoses(g0: Graph, roots: set<Block>, g: Graph, b: Block, c: Block, e: Edge)
    requires Fresh(g0) && Collapsed(g0, roots, g)
    requires b !in roots && Covered(g0, roots, b) && Reaches(g0, b, c) && b != c
    requires e in Out(g0, c) && IsVisible(e)
    ensures Realisable(g0, b, [e]) && !Realisable(g, b, [e])
  {
    ReachesShows(g0, b, c, e);
    var r :| r in roots && Reaches(g0, r, b);
    assert Done(g0, g, r, b);
    forall w: seq<Edge> | Walk(g, b, w)
      ensures Visible(w) != [e]
    {
      if w != [] {
        assert w[0] in Out(g0, b);
        assert IsVisible(w[0]);
        assert Visible(w)[0] == w[0] && w[0].source == b;
      }
    }
  }

  /** The main result: behaviour is preserved exactly when no block is stranded. */
  lemma {:induction false} CollapsePreserves(g0: Graph, roots: set<Block>, g: Graph)
    requires Fresh(g0) && Collapsed(g0, roots, g)
    ensures SameBehaviour(g0, g) <==> NoneStranded(g0, roots)
    ensures forall b, vis :: Realisable(g, b, vis) ==> Realisable(g0, b, vis)
  {
    forall b, vis | Realisable(g, b, vis)
      ensures Realisable(g0, b, vis)
    {
      var w :| Walk(g, b, w) && Visible(w) == vis;
      var w0 := CollapsedSound(g0, roots, g, b, w);
    }
    if NoneStranded(g0, roots) {
      forall b, vis | Realisable(g0, b, vis)
        ensures Realisable(g, b, vis)
      {
        var w0 :| Walk(g0, b, w0) && Visible(w0) == vis;
        var w := CollapsedComplete(g0, roots, g, b, w0);
      }
    } else {
      var b, c :| b !in roots && Covered(g0, roots, b) && Reaches(g0, b, c) && HasVisible(g0, c) && b != c;
      var e :| e in Out(g0, c) && IsVisible(e);
      StrandedLoses(g0, roots, g, b, c, e);
    }
  }

  /** When every block with an internal edge is collapsed, none is stranded. */
  lemma AllInternalCollapsed(g0: Graph, roots: set<Block>)
    requires forall b, e :: e in Out(g0, b) && !IsVisible(e) ==> b in roots
    ensures NoneStranded(g0, roots)
  {
  }

  /** A stub 2 outside the collapsed functions, jumped through by the function at 1 on the way to the
      indirect call in 3, is stranded: however the graph is collapsed, the call is lost to it. */
  lemma {:induction false} StrandedExample() returns (g0: Graph, roots: set<Block>, vis: seq<Edge>)
    ensures Fresh(g0) && !NoneStranded(g0, roots) && Realisable(g0, 2, vis)
    ensures forall g :: Collapsed(g0, roots, g) ==> !Realisable(g, 2, vis)
  {
    var into, onward, call := Edge(0, 1, 2, DirectJmp), Edge(1, 2, 3, DirectJmp), Edge(2, 3, 4, IndirectCall);
    g0 := Graph(map[1 := [into], 2 := [onward], 3 := [call]], map[], {}, map[]);
    roots := {1};
    ReachesSelf(g0, 1);
    ReachesStep(g0, 1, 1, into);
    ReachesSelf(g0, 2);
    ReachesStep(g0, 2, 2, onward);
    assert Covered(g0, roots, 2) && call in Out(g0, 3);
    vis := [call];
    ReachesShows(g0, 2, 3, call);
    forall g | Collapsed(g0, roots, g)
      ensures !Realisable(g, 2, vis)
    {
      StrandedLoses(g0, roots, g, 2, 3, call);
    }
  }
}
