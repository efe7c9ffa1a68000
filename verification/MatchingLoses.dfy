/** With call/return matching compiled in, the path search can reject a record that has a walk on
    which every return goes back to its call: trying a return and giving it up pops the call stack.
 */
module MatchingLoses {
  import opened ControlFlow
  import opened PathSearch
  import opened Validation
  import opened CallMatching

  const INTO := Edge(0, 0, 1, IndirectJmp)
  const OUTER := Edge(1, 1, 2, DirectCall)
  const INNER := Edge(2, 2, 3, DirectCall)
  const ASIDE := Edge(3, 3, 4, DirectJmp)
  const OTHER := Edge(4, 4, 6, Ret)
  const BACK := Edge(5, 3, 6, Ret)

  /** Block 1 calls 2, which calls 3; block 3 returns itself, or jumps to 4 and returns from there.
      Call sites 1 and 2 go on at 5 and 6. */
  const NESTED := Graph(
    map[1 := [OUTER], 2 := [INNER], 3 := [ASIDE, BACK], 4 := [OTHER]],
    map[],
    {},
    map[1 := 5, 2 := 6])

  const RECORD := [INTO, OUTER, INNER, BACK]

  /** Trying a single outgoing edge. */
  lemma OneEdge(lbr: seq<Edge>, path: seq<Edge>, f: Edge, stack: Stack, depth: nat)
    requires |lbr| >= 2
    ensures var (r, stack') := TryOutcome(NESTED, true, lbr, path, f, stack, depth);
            EdgesOutcome(NESTED, true, lbr, path, [f], stack, depth) == (r, stack')
  {
    hide TryOutcome;
    EdgesNext(NESTED, true, lbr, path, [f], 0, stack, depth);
    assert [f][0..] == [f] && [f][1..] == [];
  }

  lemma NotCapped(path: seq<Edge>, e: Edge)
    requires e !in path
    ensures multiset(path)[e] == 0
  {
  }

  /** In block 4 the other return pops the call stack, and giving it up does not bring it back. */
  lemma TryAside(path: seq<Edge>, depth: nat)
    requires ASIDE !in path && depth >= 1
    ensures TryOutcome(NESTED, true, [INNER, BACK], path, ASIDE, [Some(5), Some(6)], depth) == (NotFound, [Some(5)])
  {
    hide EdgesOutcome;
    var stack: Stack := [Some(5), Some(6)];
    NotCapped(path, ASIDE);
    assert stack[..1] == [Some(5)];
    OneEdge([INNER, BACK], path + [ASIDE], OTHER, stack, depth - 1);
    assert TryOutcome(NESTED, true, [INNER, BACK], path + [ASIDE], OTHER, stack, depth - 1) == (NotFound, [Some(5)]);
  }

  /** The recorded return is then compared with the wrong call and rejected. */
  lemma EnterInner(path: seq<Edge>, depth: nat)
    requires ASIDE !in path && INNER !in path && depth >= 2
    ensures EnterOutcome(NESTED, true, [INNER, BACK], path, INNER, [Some(5), Some(6)], depth) == (NotFound, [])
  {
    hide EdgesOutcome;
    var lbr, fs, p := [INNER, BACK], [ASIDE, BACK], path + [INNER];
    NotCapped(path, INNER);
    TryAside(p, depth - 1);
    assert fs[0..] == fs && fs[1..] == [BACK];
    EdgesNext(NESTED, true, lbr, p, fs, 0, [Some(5), Some(6)], depth - 1);
    OneEdge(lbr, p, BACK, [Some(5)], depth - 1);
    assert TryOutcome(NESTED, true, lbr, p, BACK, [Some(5)], depth - 1) == (NotFound, [Some(5)]);
  }

  lemma EnterOuter(path: seq<Edge>, depth: nat)
    requires ASIDE !in path && INNER !in path && OUTER !in path && depth >= 3
    ensures EnterOutcome(NESTED, true, [OUTER, INNER, BACK], path, OUTER, [Some(5)], depth) == (NotFound, [])
  {
    hide EdgesOutcome;
    var lbr, p := [OUTER, INNER, BACK], path + [OUTER];
    NotCapped(path, OUTER);
    EnterInner(p, depth - 1);
    assert lbr[1..] == [INNER, BACK];
    var stack: Stack := [Some(5)];
    assert stack + [Some(6)] == [Some(5), Some(6)];
    OneEdge(lbr, p, INNER, stack, depth - 1);
  }

  lemma EnterInto(depth: nat)
    requires depth >= 4
    ensures EnterOutcome(NESTED, true, RECORD, [], INTO, [], depth) == (NotFound, [])
  {
    hide EdgesOutcome;
    EnterOuter([INTO], depth - 1);
    assert RECORD[1..] == [OUTER, INNER, BACK];
    var none: Stack := [];
    assert none + [Some(5)] == [Some(5)] && [] + [INTO] == [INTO];
    OneEdge(RECORD, [INTO], OUTER, none, depth - 1);
  }

  lemma WalkFrom(b: Block, w: seq<Edge>)
    requires w == []
    ensures Walk(NESTED, b, w) && Visible(w) == []
  {
  }

  lemma Prepend(e: Edge, w: seq<Edge>)
    requires Walk(NESTED, e.target, w) && e in Out(NESTED, e.source) && IsVisible(e)
    ensures Walk(NESTED, e.source, [e] + w) && Visible([e] + w) == [e] + Visible(w)
  {
    assert ([e] + w)[1..] == w;
  }

  /** A walk shows the record and replays without mismatch. */
  lemma ConsistentWalk()
    ensures exists w :: Matches(NESTED, RECORD, INTO, w) && Replay(NESTED, [], w)
  {
    var w := [OUTER, INNER, BACK];
    assert w[1..] == [INNER, BACK] && [INNER, BACK][1..] == [BACK] && [BACK][1..] == [];
    WalkFrom(6, []);
    Prepend(BACK, []);
    Prepend(INNER, [BACK]);
    Prepend(OUTER, [INNER, BACK]);
    assert [BACK] + [] == [BACK] && [INNER] + [BACK] == [INNER, BACK] && [OUTER] + [INNER, BACK] == w;
    var none: Stack := [];
    assert none + [Some(5)] == [Some(5)] && [Some(5)] + [Some(6)] == [Some(5), Some(6)];
    assert [Some(5), Some(6)][..1] == [Some(5)];
    assert Replay(NESTED, [Some(5), Some(6)], [BACK]);
    assert Replay(NESTED, [Some(5)], [INNER, BACK]);
    assert Matches(NESTED, RECORD, INTO, w) && Replay(NESTED, [], w);
  }

  lemma SitesReturn()
    ensures CallsReturn(NESTED)
  {
  }

  /** The validator with matching compiled in rejects this record. */
  method RejectsConsistentRecord() returns (r: Outcome)
    ensures r == NotFound && CallsReturn(NESTED)
    ensures exists w :: Matches(NESTED, RECORD, INTO, w) && Replay(NESTED, [], w)
  {
    hide EnterOutcome, Replay, Matches, CallsReturn, Undisturbed, EdgesOnce, Fits, Realisable, Harmless;
    r := ValidatePath(NESTED, true, RECORD);
    SitesReturn();
    assert |AllEdges(NESTED) + {INTO}| >= 1 by { assert INTO in AllEdges(NESTED) + {INTO}; }
    EnterInto(Depth(AllEdges(NESTED) + {INTO}, []));
    ConsistentWalk();
  }
}
