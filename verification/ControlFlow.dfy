/** The control-flow graph the LBR analyser works on: typed edges between basic blocks,
    walks over the edges that are not hidden, and the part of a walk that the
    last-branch record shows.
 */
module ControlFlow {

  /** The number of entries of the last-branch record. */
  const LBR_SIZE: nat := 16

  datatype Option<+T> = None | Some(value: T)

  /** A basic block, named by its internal id. */
  type Block = nat

  datatype EdgeKind =
    | DirectCall | IndirectCall | InterDirectJmp | InterIndirectJmp
    | CondTaken | CondNotTaken | DirectJmp | IndirectJmp | Fallthrough
    | Catch | CallFallthrough | Ret | NoEdge | Fastpath | Unknown

  /** An edge object. Two edges between the same blocks differ in their id. */
  datatype Edge = Edge(id: nat, source: Block, target: Block, kind: EdgeKind)

  predicate IsCall(e: Edge) {
    e.kind.DirectCall? || e.kind.IndirectCall?
  }

  predicate IsReturn(e: Edge) {
    e.kind.Ret?
  }

  predicate IsIndirect(e: Edge) {
    e.kind.IndirectJmp? || e.kind.IndirectCall? || e.kind.InterIndirectJmp? || e.kind.Ret?
  }

  /** The edges the hardware records: indirect jumps, returns and all calls. */
  predicate IsVisible(e: Edge) {
    IsIndirect(e) || IsCall(e)
  }

  /** All fifteen kinds: what is recorded, and as what. Direct jumps, branches, fall-throughs and
      fastpaths are not; a direct call is, although it is no indirect branch; a return is no call. */
  lemma RecordedKinds(e: Edge)
    ensures !IsVisible(e) <==> e.kind in {InterDirectJmp, CondTaken, CondNotTaken, DirectJmp, Fallthrough, Catch,
                                          CallFallthrough, NoEdge, Fastpath, Unknown}
    ensures IsVisible(e) && !IsIndirect(e) <==> e.kind == DirectCall
    ensures IsCall(e) && IsIndirect(e) <==> e.kind == IndirectCall
    ensures IsIndirect(e) && !IsCall(e) && !IsReturn(e) <==> e.kind in {IndirectJmp, InterIndirectJmp}
    ensures IsReturn(e) <==> e.kind == Ret
    ensures IsReturn(e) ==> IsIndirect(e) && !IsCall(e)
  {
  }

  /** Outgoing and incoming edges per block, each in iteration order; the hidden edges;
      and the block that follows a call site, where there is one.
   */
  datatype Graph = Graph(
    out: map<Block, seq<Edge>>,
    inc: map<Block, seq<Edge>>,
    hidden: set<Edge>,
    fallthrough: map<Block, Block>)

  function Out(g: Graph, b: Block): seq<Edge> {
    if b in g.out then g.out[b] else []
  }

  function Inc(g: Graph, b: Block): seq<Edge> {
    if b in g.inc then g.inc[b] else []
  }

  function FallthroughOf(g: Graph, b: Block): Option<Block> {
    if b in g.fallthrough then Some(g.fallthrough[b]) else None
  }

  /** A walk from block b over edges that are not hidden. */
  ghost predicate Walk(g: Graph, b: Block, w: seq<Edge>)
    decreases w
  {
    w == [] || (w[0] in Out(g, b) && w[0] !in g.hidden && Walk(g, w[0].target, w[1..]))
  }

  function End(b: Block, w: seq<Edge>): Block {
    if w == [] then b else w[|w| - 1].target
  }

  /** What the last-branch record shows of a walk. */
  ghost function Visible(w: seq<Edge>): seq<Edge> {
    if w == [] then []
    else if IsVisible(w[0]) then [w[0]] + Visible(w[1..])
    else Visible(w[1..])
  }

  /** Some walk from b shows exactly vis. */
  ghost predicate Realisable(g: Graph, b: Block, vis: seq<Edge>) {
    exists w :: Walk(g, b, w) && Visible(w) == vis
  }

  lemma {:induction false} WalkConcat(g: Graph, b: Block, u: seq<Edge>, v: seq<Edge>)
    ensures Walk(g, b, u + v) <==> Walk(g, b, u) && Walk(g, End(b, u), v)
    decreases u
  {
    if u == [] {
      assert u + v == v;
    } else {
      assert (u + v)[1..] == u[1..] + v;
      WalkConcat(g, u[0].target, u[1..], v);
    }
  }

  lemma {:induction false} VisibleConcat(u: seq<Edge>, v: seq<Edge>)
    ensures Visible(u + v) == Visible(u) + Visible(v)
  {
    if u == [] {
      assert u + v == v;
    } else {
      assert (u + v)[1..] == u[1..] + v;
      VisibleConcat(u[1..], v);
    }
  }
}
