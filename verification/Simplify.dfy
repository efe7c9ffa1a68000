/** The code of `simplify_cfg` and `collapse_function`: a breadth-first search from every block
    of every collapsed function, changing the graph as it goes.
 */
module Simplify {
  import opened ControlFlow
  import opened Collapse

  /** A function of the program, with its basic blocks in iteration order. */
  datatype Function = Function(isPlt: bool, isLibDummy: bool, blocks: seq<Block>)

  /** The blocks of the functions that are collapsed: not PLT stubs, not library dummies. */
  ghost function Roots(functions: seq<Function>): set<Block> {
    set f, b | f in functions && !f.isPlt && !f.isLibDummy && b in f.blocks :: b
  }

  /** Some function that is neither a PLT stub nor a library dummy has this block. */
  ghost predicate Ordinary(functions: seq<Function>, b: Block) {
    exists f :: f in functions && !f.isPlt && !f.isLibDummy && b in f.blocks
  }

  /** What simplifying does to the graph, edge by edge: the internal edges reached from ordinary blocks,
      and no others, are hidden; every ordinary block has fastpaths to exactly the other blocks it
      reaches that have no outgoing edge or a recorded one; nothing else changes. */
  ghost predicate Simplified(g0: Graph, functions: seq<Function>, g: Graph) {
    && (forall b, c, e :: Ordinary(functions, b) && Reaches(g0, b, c) && e in Out(g0, c) && !IsVisible(e) ==> e in g.hidden)
    && (forall e :: e in g.hidden ==> !IsVisible(e) && exists b :: Ordinary(functions, b) && Reaches(g0, b, e.source))
    && (forall b, c :: Ordinary(functions, b) && Reaches(g0, b, c) && b != c && Out(g0, c) == [] ==> HasFastpath(g, b, c))
    && (forall b, c, e :: Ordinary(functions, b) && Reaches(g0, b, c) && b != c && e in Out(g0, c) && IsVisible(e) ==> HasFastpath(g, b, c))
    && (forall b, e :: e in Out(g, b) && e !in Out(g0, b) ==>
          && e.kind == Fastpath && Ordinary(functions, b) && Reaches(g0, b, e.target) && b != e.target
          && (Out(g0, e.target) == [] || exists x :: x in Out(g0, e.target) && IsVisible(x)))
    && (forall b, e :: e in Out(g0, b) ==> e in Out(g, b))
  }

  lemma RootsAreOrdinary(functions: seq<Function>, b: Block)
    ensures b in Roots(functions) <==> Ordinary(functions, b)
  {
  }

  lemma {:induction false} CollapsedIsSimplified(g0: Graph, functions: seq<Function>, g: Graph)
    requires Collapsed(g0, Roots(functions), g)
    ensures Simplified(g0, functions, g)
  {
    hide Reaches, Out;
    var roots := Roots(functions);
    forall b ensures b in roots <==> Ordinary(functions, b) { RootsAreOrdinary(functions, b); }
    forall b, c | Ordinary(functions, b) && Reaches(g0, b, c)
      ensures Done(g0, g, b, c)
    {
    }
  }

  ghost predicate Grows(g: Graph, g': Graph) {
    && g.hidden <= g'.hidden && g'.fallthrough == g.fallthrough
    && (forall b, e :: e in Out(g, b) ==> e in Out(g', b))
  }

  lemma SameFallthrough(g: Graph, g': Graph)
    requires Grows(g, g')
    ensures g'.fallthrough == g.fallthrough
  {
  }

  lemma DoneGrows(g0: Graph, roots: set<Block>, g: Graph, g': Graph)
    requires Collapsed(g0, roots, g) && Grows(g, g')
    ensures forall b, c :: b in roots && Reaches(g0, b, c) ==> Done(g0, g', b, c)
  {
  }

  ghost function Targets(g: Graph): set<Block> {
    set b, e | b in g.out && e in g.out[b] :: e.target
  }

  lemma TargetIn(g: Graph, b: Block, e: Edge)
    requires e in Out(g, b)
    ensures e.target in Targets(g)
  {
  }

  lemma PartialWider(g0: Graph, roots: set<Block>, more: set<Block>, g: Graph)
    requires Partial(g0, roots, g) && roots <= more
    ensures Partial(g0, more, g)
  {
  }

  lemma GrowsTrans(g: Graph, g1: Graph, g2: Graph)
    requires Grows(g, g1) && Grows(g1, g2)
    ensures Grows(g, g2)
  {
  }

  /** Nothing has been searched from bb yet. */
  lemma SearchStart(g0: Graph, g: Graph, bb: Block)
    ensures Grows(g, g) && ExitsLinked(g, bb, {})
    ensures Frontier(g0, bb, [bb], {bb}, {}) && Finished(g0, g, bb, {bb}, {})
  {
    ReachesSelf(g0, bb);
  }

  /** All edges of c that collapsing looks at are the original ones. */
  lemma EdgesOf(g0: Graph, roots: set<Block>, g: Graph, c: Block)
    requires Fresh(g0) && Partial(g0, roots, g)
    ensures forall e :: e in Out(g, c) && !e.kind.Fastpath? <==> e in Out(g0, c)
    ensures Out(g, c) == [] <==> Out(g0, c) == []
  {
    if Out(g0, c) == [] && Out(g, c) != [] {
      assert IsFastpathFor(g0, roots, c, Out(g, c)[0]);
      ReachesFromDeadEnd(g0, c, Out(g, c)[0].target);
    }
    if Out(g0, c) != [] {
      assert Out(g0, c)[0] in Out(g, c);
    }
  }

  ghost predicate ExitsLinked(g: Graph, bb: Block, exits: set<Block>) {
    forall c :: c in exits && c != bb ==> HasFastpath(g, bb, c)
  }

  lemma ExitsGrow(g: Graph, g': Graph, bb: Block, exits: set<Block>)
    requires ExitsLinked(g, bb, exits) && Grows(g, g')
    ensures ExitsLinked(g', bb, exits)
  {
  }

  /** Newly seen blocks are reached and queued, each once. */
  ghost predicate Scheduled(g0: Graph, bb: Block, q: seq<Block>, seen: set<Block>, q': seq<Block>, seen': set<Block>) {
    && seen <= seen'
    && (forall c :: c in q' ==> c in q || c in seen')
    && (forall c :: c in q || c in seen' - seen ==> c in q')
    && (forall c :: c in seen' - seen ==> c in Targets(g0) && Reaches(g0, bb, c))
    && |q'| + |Targets(g0) - seen'| == |q| + |Targets(g0) - seen|
  }

  ghost predicate Visited(g: Graph, cc: Block, e: Edge, seen: set<Block>, exits: set<Block>) {
    if IsVisible(e) then cc in exits else e in g.hidden && e.target in seen
  }

  ghost predicate AllVisited(es: seq<Edge>, g: Graph, cc: Block, seen: set<Block>, exits: set<Block>) {
    forall e :: e in es && !e.kind.Fastpath? ==> Visited(g, cc, e, seen, exits)
  }

  lemma AllVisitedStep(es: seq<Edge>, e: Edge, cc: Block, g: Graph, seen: set<Block>, exits: set<Block>,
                       g': Graph, seen': set<Block>, exits': set<Block>)
    requires AllVisited(es, g, cc, seen, exits)
    requires g.hidden <= g'.hidden && seen <= seen' && exits <= exits'
    requires e.kind.Fastpath? || Visited(g', cc, e, seen', exits')
    ensures AllVisited(es + [e], g', cc, seen', exits')
  {
  }

  lemma ScheduledTrans(g0: Graph, bb: Block, q: seq<Block>, seen: set<Block>, q1: seq<Block>, seen1: set<Block>,
                       q2: seq<Block>, seen2: set<Block>)
    requires Scheduled(g0, bb, q, seen, q1, seen1) && Scheduled(g0, bb, q1, seen1, q2, seen2)
    ensures Scheduled(g0, bb, q, seen, q2, seen2)
  {
  }

  lemma ScheduledGrows(g0: Graph, bb: Block, q: seq<Block>, seen: set<Block>, q': seq<Block>, seen': set<Block>)
    requires Scheduled(g0, bb, q, seen, q', seen')
    ensures seen <= seen'
  {
  }

  lemma GrowsHidden(g: Graph, g': Graph)
    requires Grows(g, g')
    ensures g.hidden <= g'.hidden
  {
  }

  lemma VisitStart(g0: Graph, g: Graph, bb: Block, q: seq<Block>, seen: set<Block>, cc: Block, exits: set<Block>)
    ensures Grows(g, g) && Scheduled(g0, bb, q, seen, q, seen) && AllVisited([], g, cc, seen, exits)
  {
  }

  lemma ScheduledPush(g0: Graph, bb: Block, q: seq<Block>, seen: set<Block>, c: Block)
    requires c !in seen && c in Targets(g0) && Reaches(g0, bb, c)
    ensures Scheduled(g0, bb, q, seen, q + [c], seen + {c})
  {
    assert Targets(g0) - seen == (Targets(g0) - (seen + {c})) + {c};
  }

  /** The search state: seen blocks are reached, and each is either done or still queued. */
  ghost predicate Frontier(g0: Graph, bb: Block, q: seq<Block>, seen: set<Block>, done: set<Block>) {
    && bb in seen && done <= seen
    && (forall c :: c in q ==> c in seen)
    && (forall c :: c in seen ==> Reaches(g0, bb, c) && (c in done || c in q))
  }

  /** The done blocks are collapsed, and their internal edges lead to seen ones. */
  ghost predicate Finished(g0: Graph, g: Graph, bb: Block, seen: set<Block>, done: set<Block>) {
    && (forall c :: c in done ==> Done(g0, g, bb, c))
    && (forall c, e :: c in done && e in Out(g0, c) && !IsVisible(e) ==> e.target in seen)
  }

  lemma DoneKept(g0: Graph, g: Graph, g': Graph, bb: Block, done: set<Block>)
    requires Grows(g, g') && forall c :: c in done ==> Done(g0, g, bb, c)
    ensures forall c :: c in done ==> Done(g0, g', bb, c)
  {
  }

  lemma FrontierStep(g0: Graph, bb: Block, q: seq<Block>, seen: set<Block>, done: set<Block>, q': seq<Block>, seen': set<Block>)
    requires q != [] && Frontier(g0, bb, q, seen, done) && Scheduled(g0, bb, q[1..], seen, q', seen')
    ensures Frontier(g0, bb, q', seen', done + {q[0]}) && seen <= seen'
    ensures |q'| + |Targets(g0) - seen'| == |q| - 1 + |Targets(g0) - seen|
  {
  }

  lemma FrontierEmpty(g0: Graph, g: Graph, bb: Block, seen: set<Block>, done: set<Block>)
    requires Frontier(g0, bb, [], seen, done) && Finished(g0, g, bb, seen, done)
    ensures forall c :: Reaches(g0, bb, c) ==> Done(g0, g, bb, c)
  {
    forall c | Reaches(g0, bb, c)
      ensures Done(g0, g, bb, c)
    {
      var w :| Walk(g0, bb, w) && Visible(w) == [] && End(bb, w) == c;
      ReachesClosed(g0, seen, bb, w);
    }
  }

  lemma AllVisitedDone(g0: Graph, roots: set<Block>, g: Graph, bb: Block, cc: Block, seen: set<Block>, exits: set<Block>)
    requires Fresh(g0) && Partial(g0, roots, g) && ExitsLinked(g, bb, exits)
    requires AllVisited(Out(g, cc), g, cc, seen, exits) && (Out(g, cc) == [] ==> cc in exits)
    ensures Done(g0, g, bb, cc)
    ensures forall e :: e in Out(g0, cc) && !IsVisible(e) ==> e.target in seen
  {
    EdgesOf(g0, roots, g, cc);
    forall e | e in Out(g0, cc)
      ensures Visited(g, cc, e, seen, exits)
    {
    }
  }

  class Cfg {
    var g: Graph
    var nextId: nat
    const functions: seq<Function>

    constructor (g: Graph, functions: seq<Function>, nextId: nat)
      ensures this.g == g && this.functions == functions && this.nextId == nextId
    {
      this.g, this.functions, this.nextId := g, functions, nextId;
    }

    /** File an edge under its source and its target. The edge sets are ordered by address, so the
        place of the new edge among the others is arbitrary. */
    method AddEdge(f: Edge)
      modifies this`g
      ensures g.hidden == old(g.hidden) && g.fallthrough == old(g.fallthrough)
      ensures forall b :: b != f.source ==> Out(g, b) == Out(old(g), b)
      ensures forall e :: e in Out(g, f.source) <==> e in Out(old(g), f.source) || e == f
      ensures forall b :: b != f.target ==> Inc(g, b) == Inc(old(g), b)
      ensures forall e :: e in Inc(g, f.target) <==> e in Inc(old(g), f.target) || e == f
    {
      var o, n := Out(g, f.source), Inc(g, f.target);
      var i: nat :| i <= |o|;
      var j: nat :| j <= |n|;
      assert o == o[..i] + o[i..] && n == n[..j] + n[j..];
      g := g.(out := g.out[f.source := o[..i] + [f] + o[i..]], inc := g.inc[f.target := n[..j] + [f] + n[j..]]);
    }

    /** `create_fastpath`. */
    method CreateFastpath(bb: Block, cc: Block) returns (f: Edge)
      modifies this
      ensures f == Edge(old(nextId), bb, cc, Fastpath) && nextId == old(nextId) + 1
      ensures g.hidden == old(g.hidden) && g.fallthrough == old(g.fallthrough)
      ensures forall b :: b != bb ==> Out(g, b) == Out(old(g), b)
      ensures forall e :: e in Out(g, bb) <==> e in Out(old(g), bb) || e == f
      ensures forall b :: b != cc ==> Inc(g, b) == Inc(old(g), b)
      ensures forall e :: e in Inc(g, cc) <==> e in Inc(old(g), cc) || e == f
    {
      f := Edge(nextId, bb, cc, Fastpath);
      nextId := nextId + 1;
      AddEdge(f);
    }

    /** Record cc as an exit of bb, once, with a fastpath when it is another block. */
    method AddExit(bb: Block, cc: Block, exits: set<Block>, ghost g0: Graph, ghost roots: set<Block>)
      returns (exits': set<Block>)
      requires Partial(g0, roots, g) && bb in roots && Reaches(g0, bb, cc) && IsExit(g0, cc)
      requires ExitsLinked(g, bb, exits)
      modifies this
      ensures Partial(g0, roots, g) && Grows(old(g), g) && Out(g, cc) == Out(old(g), cc)
      ensures exits' == exits + {cc} && ExitsLinked(g, bb, exits')
    {
      exits' := exits;
      if cc !in exits {
        exits' := exits + {cc};
        if bb != cc {
          var f := CreateFastpath(bb, cc);
          assert f in Out(g, bb);
          ExitsGrow(old(g), g, bb, exits);
        }
      }
    }

    /** One outgoing edge of a dequeued block: an exit edge gives a fastpath, an internal edge is
        hidden and its target scheduled. */
    method VisitEdge(bb: Block, cc: Block, e: Edge, q: seq<Block>, seen: set<Block>, exits: set<Block>,
                     ghost g0: Graph, ghost roots: set<Block>)
      returns (q': seq<Block>, seen': set<Block>, exits': set<Block>)
      requires Fresh(g0) && Partial(g0, roots, g) && bb in roots && Reaches(g0, bb, cc)
      requires ExitsLinked(g, bb, exits) && e in Out(g0, cc)
      modifies this
      ensures Partial(g0, roots, g) && Grows(old(g), g) && Out(g, cc) == Out(old(g), cc)
      ensures exits <= exits' && ExitsLinked(g, bb, exits')
      ensures Scheduled(g0, bb, q, seen, q', seen')
      ensures IsVisible(e) ==> cc in exits'
      ensures !IsVisible(e) ==> e in g.hidden && e.target in seen'
    {
      q', seen', exits' := q, seen, exits;
      if IsVisible(e) {
        exits' := AddExit(bb, cc, exits', g0, roots);
      } else {
        g := g.(hidden := g.hidden + {e});
        ExitsGrow(old(g), g, bb, exits);
        ReachesStep(g0, bb, cc, e);
        TargetIn(g0, cc, e);
        if e.target !in seen {
          q', seen' := q + [e.target], seen + {e.target};
          ScheduledPush(g0, bb, q, seen, e.target);
        }
      }
    }

    method VisitEdges(bb: Block, cc: Block, q: seq<Block>, seen: set<Block>, exits: set<Block>,
                      ghost g0: Graph, ghost roots: set<Block>)
      returns (q': seq<Block>, seen': set<Block>, exits': set<Block>)
      requires Fresh(g0) && Partial(g0, roots, g) && bb in roots && Reaches(g0, bb, cc)
      requires ExitsLinked(g, bb, exits)
      modifies this
      ensures Partial(g0, roots, g) && Grows(old(g), g) && Out(g, cc) == Out(old(g), cc)
      ensures exits <= exits' && ExitsLinked(g, bb, exits')
      ensures Scheduled(g0, bb, q, seen, q', seen')
      ensures AllVisited(Out(g, cc), g, cc, seen', exits')
    {
      hide Grows, Scheduled, ExitsLinked, AllVisited, Targets;
      EdgesOf(g0, roots, g, cc);
      VisitStart(g0, g, bb, q, seen, cc, exits);
      q', seen', exits' := q, seen, exits;
      ghost var edges := Out(g, cc);
      var j := 0;
      while j < |Out(g, cc)|
        invariant 0 <= j <= |edges| && Out(g, cc) == edges
        invariant Partial(g0, roots, g) && Grows(old(g), g)
        invariant exits <= exits' && ExitsLinked(g, bb, exits')
        invariant Scheduled(g0, bb, q, seen, q', seen')
        invariant AllVisited(edges[..j], g, cc, seen', exits')
      {
        var e := Out(g, cc)[j];
        assert edges[..j + 1] == edges[..j] + [e];
        ghost var g1, q1, seen1, exits1 := g, q', seen', exits';
        if !e.kind.Fastpath? {
          q', seen', exits' := VisitEdge(bb, cc, e, q', seen', exits', g0, roots);
          ScheduledTrans(g0, bb, q, seen, q1, seen1, q', seen');
          ScheduledGrows(g0, bb, q1, seen1, q', seen');
          GrowsTrans(old(g), g1, g);
          GrowsHidden(g1, g);
        }
        AllVisitedStep(edges[..j], e, cc, g1, seen1, exits1, g, seen', exits');
        j := j + 1;
      }
      assert edges[..j] == edges;
    }

    method VisitBlock(bb: Block, cc: Block, q: seq<Block>, seen: set<Block>, exits: set<Block>,
                      ghost g0: Graph, ghost roots: set<Block>)
      returns (q': seq<Block>, seen': set<Block>, exits': set<Block>)
      requires Fresh(g0) && Partial(g0, roots, g) && bb in roots && Reaches(g0, bb, cc)
      requires ExitsLinked(g, bb, exits)
      modifies this
      ensures Partial(g0, roots, g) && Grows(old(g), g) && ExitsLinked(g, bb, exits')
      ensures Scheduled(g0, bb, q, seen, q', seen')
      ensures Done(g0, g, bb, cc)
      ensures forall e :: e in Out(g0, cc) && !IsVisible(e) ==> e.target in seen'
    {
      EdgesOf(g0, roots, g, cc);
      exits' := exits;
      if |Out(g, cc)| == 0 {
        exits' := AddExit(bb, cc, exits', g0, roots);
      }
      q', seen', exits' := VisitEdges(bb, cc, q, seen, exits', g0, roots);
      AllVisitedDone(g0, roots, g, bb, cc, seen', exits');
    }

    /** The search from one block of a function. */
    method CollapseBlock(bb: Block, ghost g0: Graph, ghost roots: set<Block>)
      requires Fresh(g0) && Collapsed(g0, roots, g)
      modifies this
      ensures Collapsed(g0, roots + {bb}, g) && g.fallthrough == old(g.fallthrough)
    {
      hide Partial, Grows, Done, Scheduled, ExitsLinked, Targets;
      ghost var all := roots + {bb};
      PartialWider(g0, roots, all, g);
      SearchStart(g0, g, bb);
      var q, seen, exits := [bb], {bb}, {};
      ghost var done: set<Block> := {};
      while q != []
        invariant Partial(g0, all, g) && Grows(old(g), g) && ExitsLinked(g, bb, exits)
        invariant Frontier(g0, bb, q, seen, done) && Finished(g0, g, bb, seen, done)
        decreases |q| + |Targets(g0) - seen|
      {
        ghost var g1, seen1, q1 := g, seen, q;
        assert q[0] in q;
        q, seen, exits := VisitBlock(bb, q[0], q[1..], seen, exits, g0, all);
        GrowsTrans(old(g), g1, g);
        FrontierStep(g0, bb, q1, seen1, done, q, seen);
        DoneKept(g0, g1, g, bb, done);
        done := done + {q1[0]};
      }
      SameFallthrough(old(g), g);
      FrontierEmpty(g0, g, bb, seen, done);
      DoneGrows(g0, roots, old(g), g);
    }

    method CollapseFunction(f: Function, ghost g0: Graph, ghost roots: set<Block>)
      requires Fresh(g0) && Collapsed(g0, roots, g)
      modifies this
      ensures Collapsed(g0, roots + Roots([f]), g) && g.fallthrough == old(g.fallthrough)
    {
      if f.isPlt || f.isLibDummy {
        assert roots + Roots([f]) == roots;
        return;
      }
      var blocks := f.blocks;
      ghost var done := roots;
      while blocks != []
        invariant Collapsed(g0, done, g) && g.fallthrough == old(g.fallthrough)
        invariant done + (set b | b in blocks) == roots + (set b | b in f.blocks)
        decreases |blocks|
      {
        var bb := blocks[|blocks| - 1];
        assert blocks == blocks[..|blocks| - 1] + [bb];
        blocks := blocks[..|blocks| - 1];
        CollapseBlock(bb, g0, done);
        done := done + {bb};
      }
      assert done == roots + Roots([f]);
    }

    /** `simplify_cfg`: the graph ends up collapsed at all blocks of all functions that are
        neither PLT stubs nor library dummies. */
    method SimplifyCfg()
      requires Fresh(g)
      modifies this
      ensures Collapsed(old(g), Roots(functions), g) && g.fallthrough == old(g.fallthrough)
      ensures Simplified(old(g), functions, g)
      ensures SameBehaviour(old(g), g) <==> NoneStranded(old(g), Roots(functions))
    {
      hide Simplified, SameBehaviour, NoneStranded;
      ghost var g0, done := g, {};
      var i := 0;
      while i < |functions|
        invariant 0 <= i <= |functions|
        invariant Fresh(g0) && Collapsed(g0, done, g) && g.fallthrough == g0.fallthrough && done == Roots(functions[..i])
      {
        CollapseFunction(functions[i], g0, done);
        done := done + Roots([functions[i]]);
        assert functions[..i + 1] == functions[..i] + [functions[i]];
        i := i + 1;
      }
      assert functions[..i] == functions;
      CollapsePreserves(g0, done, g);
      CollapsedIsSimplified(g0, functions, g);
    }
  }
}
