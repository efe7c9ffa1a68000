/** The analyser as the daemon uses it: simplify the graph once, add the edges that it finds out to be
    allowed, and search the result for each LBR. */
module Analyser {
  import opened ControlFlow
  import opened Collapse
  import opened LateEdges
  import opened Simplify
  import opened PathSearch
  import opened Validation

  ghost function EdgeSet(edges: seq<Edge>): set<Edge> {
    set e | e in edges
  }

  /** File late edges one by one. */
  method AddEdges(cfg: Cfg, added: seq<Edge>)
    modifies cfg`g
    ensures Extended(old(cfg.g), EdgeSet(added), cfg.g)
  {
    for i := 0 to |added|
      invariant Extended(old(cfg.g), EdgeSet(added[..i]), cfg.g)
    {
      ghost var before := cfg.g;
      cfg.AddEdge(added[i]);
      ExtendedNext(old(cfg.g), EdgeSet(added[..i]), before, added[i], cfg.g);
      assert EdgeSet(added[..i + 1]) == EdgeSet(added[..i]) + {added[i]};
    }
    assert added[..|added|] == added;
  }

  /** Collapsing adds no calls, so call sites keep their fall-through blocks. */
  lemma StillReturn(g: Graph, roots: set<Block>, simplified: Graph, xs: set<Edge>, g1: Graph, h: Graph)
    requires Collapsed(g, roots, simplified) && simplified.fallthrough == g.fallthrough
    requires Extended(g, xs, g1) && Extended(simplified, xs, h) && CallsReturn(g1)
    ensures CallsReturn(h)
  {
    hide Reaches, IsExit, Done, Covered;
    forall b, e | e in Out(h, b) && IsCall(e)
      ensures FallthroughOf(h, e.source).Some?
    {
      Filed(simplified, xs, h, b, e);
      Filed(g, xs, g1, b, e);
      assert e in Out(g1, b);
    }
  }

  /** Searching the simplified and extended graph accepts only what the original graph with the late
      edges can show. When the call/return matching is harmless it accepts exactly that, if every
      late edge starts at an exit or at a block no other collapsed block reaches, and no block is
      stranded. */
  method SimplifyAndValidate(g: Graph, functions: seq<Function>, nextId: nat, added: seq<Edge>, ghost g1: Graph,
                             matching: bool, lbr: seq<Edge>) returns (r: Outcome)
    requires Fresh(g) && |lbr| <= LBR_SIZE && AllVisible(EdgeSet(added)) && Extended(g, EdgeSet(added), g1)
    ensures |lbr| < 2 ==> r == Found
    ensures |lbr| >= 2 && r == Found ==> Realisable(g1, lbr[0].target, lbr[1..])
    ensures |lbr| >= 2 && Harmless(g1, matching, lbr) &&
            AllReady(g, Roots(functions), EdgeSet(added)) && NoneStranded(g1, Roots(functions)) ==>
              (r == Found <==> Realisable(g1, lbr[0].target, lbr[1..]))
  {
    hide Realisable, Fresh, Collapsed, NoneStranded, AllReady, Extended, EdgeSet, EnterOutcome, CallsReturn;
    var cfg := new Cfg(g, functions, nextId);
    cfg.SimplifyCfg();
    ghost var simplified := cfg.g;
    AddEdges(cfg, added);
    ExtensionPreserves(g, Roots(functions), simplified, EdgeSet(added), g1, cfg.g);
    if CallsReturn(g1) { StillReturn(g, Roots(functions), simplified, EdgeSet(added), g1, cfg.g); }
    r := ValidatePath(cfg.g, matching, lbr);
  }
}
