/** The two call/return matchers of the analyser agree: the level-counting scan that the
    backward search runs for every call, and the stack that the forward search replays.
    Paths are in execution order here.
 */
module CallMatching {
  import opened ControlFlow
  import opened PathSearch

  /** The scan of `edge_is_traversable` for a call returning to ft, over the edges after it. */
  predicate Scan(ft: Option<Block>, later: seq<Edge>, level: nat) {
    if later == [] then true
    else if IsCall(later[0]) then Scan(ft, later[1..], level + 1)
    else if IsReturn(later[0]) then
      if level != 0 then Scan(ft, later[1..], level - 1) else ft == Some(later[0].target)
    else Scan(ft, later[1..], level)
  }

  /** Every call on the path passes the scan of the edges after it. */
  ghost predicate AllCallsPass(g: Graph, p: seq<Edge>) {
    p != [] ==>
      && (IsCall(p[0]) ==> Scan(FallthroughOf(g, p[0].source), p[1..], 0))
      && AllCallsPass(g, p[1..])
  }

  /** A straight run of the tracker over the path that neither rejects nor aborts. */
  ghost predicate Replay(g: Graph, stack: seq<Option<Block>>, p: seq<Edge>)
    decreases p
  {
    p == [] ||
    var (verdict, stack') := Track(g, stack, p[0], false);
    (verdict == Accept || verdict == AcceptUnmatched) && Replay(g, stack', p[1..])
  }

  /** The targets of the returns whose calls lie before the path. */
  ghost function Unmatched(p: seq<Edge>): seq<Block> {
    if p == [] then []
    else
      var u := Unmatched(p[1..]);
      if IsCall(p[0]) then if u == [] then [] else u[1..]
      else if IsReturn(p[0]) then [p[0].target] + u
      else u
  }

  lemma {:induction false} ScanMeaning(ft: Option<Block>, p: seq<Edge>, level: nat)
    ensures Scan(ft, p, level) <==> |Unmatched(p)| <= level || ft == Some(Unmatched(p)[level])
    decreases p
  {
    if p != [] {
      if IsCall(p[0]) {
        ScanMeaning(ft, p[1..], level + 1);
      } else if IsReturn(p[0]) {
        if level != 0 { ScanMeaning(ft, p[1..], level - 1); }
      } else {
        ScanMeaning(ft, p[1..], level);
      }
    }
  }

  /** Unmatched returns find their targets on the stack, for as long as the stack lasts. */
  ghost predicate Agrees(u: seq<Block>, stack: seq<Option<Block>>) {
    forall i :: 0 <= i < |u| && i < |stack| ==> stack[|stack| - 1 - i] == Some(u[i])
  }

  lemma AgreesPush(u: seq<Block>, stack: seq<Option<Block>>, top: Option<Block>)
    ensures Agrees(u, stack + [top]) <==>
            u == [] || (top == Some(u[0]) && Agrees(u[1..], stack))
  {
  }

  lemma {:induction false} ReplayMeaning(g: Graph, stack: seq<Option<Block>>, p: seq<Edge>)
    ensures Replay(g, stack, p) <==> AllCallsPass(g, p) && Agrees(Unmatched(p), stack)
    decreases p
  {
    if p != [] {
      var u := Unmatched(p[1..]);
      if IsCall(p[0]) {
        var ft := FallthroughOf(g, p[0].source);
        ReplayMeaning(g, stack + [ft], p[1..]);
        ScanMeaning(ft, p[1..], 0);
        AgreesPush(u, stack, ft);
      } else if IsReturn(p[0]) && stack != [] {
        var rest, top := stack[..|stack| - 1], stack[|stack| - 1];
        ReplayMeaning(g, rest, p[1..]);
        assert stack == rest + [top];
        AgreesPush(Unmatched(p), rest, top);
        assert Unmatched(p)[1..] == u;
      } else {
        ReplayMeaning(g, stack, p[1..]);
      }
    }
  }

  /** Every call passes the backward scan iff the forward replay from an empty stack goes through. */
  lemma ScanAgreesWithReplay(g: Graph, p: seq<Edge>)
    ensures AllCallsPass(g, p) <==> Replay(g, [], p)
  {
    ReplayMeaning(g, [], p);
  }

  /** What one call of the tracker means: a return is refused iff the innermost open call goes on
      elsewhere, and aborts iff that call has no block to go on at; all other edges are accepted. */
  lemma VerdictMeaning(g: Graph, stack: seq<Option<Block>>, e: Edge, unroll: bool)
    ensures var v := Track(g, stack, e, unroll).0;
            && (v == Abort <==> e.kind == Ret && stack != [] && stack[|stack| - 1] == None)
            && (v == Reject <==> e.kind == Ret && stack != [] && stack[|stack| - 1] != None && stack[|stack| - 1] != Some(e.target))
            && (v == AcceptUnmatched <==> e.kind == Ret && stack == [])
    ensures var stack' := Track(g, stack, e, unroll).1;
            && (e.kind == Ret && stack != [] && stack[|stack| - 1] in {None, Some(e.target)} ==> stack' + [stack[|stack| - 1]] == stack)
            && (IsCall(e) && !unroll ==> stack' == stack + [FallthroughOf(g, e.source)])
            && (IsCall(e) && unroll && stack != [] ==> stack' + [stack[|stack| - 1]] == stack)
            && (IsCall(e) && unroll && stack == [] ==> stack' == [])
            && (!IsCall(e) && e.kind != Ret ==> stack' == stack)
  {
  }

  /** Undoing an accepted edge brings the stack back unless the edge is a return that popped it. The
      search relies on undoing only for calls, so with matching it may prune too much; what it
      accepts is sound in any case. */
  lemma UndoExact(g: Graph, stack: seq<Option<Block>>, e: Edge)
    requires Track(g, stack, e, false).0 in {Accept, AcceptUnmatched}
    ensures Track(g, Track(g, stack, e, false).1, e, true).1 == stack <==> !(IsReturn(e) && stack != [])
  {
  }
}
