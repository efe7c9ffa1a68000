/** The just-in-time validator's path search, `jit_path_exists`: a depth-first search for a
    walk whose visible edges are the recorded ones, with a cap on the visits per edge and,
    when call/return matching is compiled in, a call stack that may prune the search.
 */
module PathSearch {
  import opened ControlFlow

  // ----- The call-stack tracker

  datatype Verdict = Reject | Accept | AcceptUnmatched | Abort

  /** One call of `jit_track_callstack`; the top of the stack is its last element. */
  function Track(g: Graph, stack: seq<Option<Block>>, e: Edge, unroll: bool): (Verdict, seq<Option<Block>>)
  {
    if IsCall(e) then
      if unroll then (Accept, if stack == [] then [] else stack[..|stack| - 1])
      else (Accept, stack + [FallthroughOf(g, e.source)])
    else if IsReturn(e) then
      if stack == [] then (AcceptUnmatched, stack)
      else
        var top := stack[|stack| - 1];
        if top.None? then (Abort, stack[..|stack| - 1])
        else if e.target != top.value then (Reject, stack)
        else (Accept, stack[..|stack| - 1])
    else (Accept, stack)
  }

  // ----- What the search looks for

  /** The walk w after edge e shows the records after the first, and stops at the last one. */
  ghost predicate Matches(g: Graph, lbr: seq<Edge>, e: Edge, w: seq<Edge>) {
    && w != [] && |lbr| >= 2
    && Walk(g, e.target, w)
    && Visible(w) == lbr[1..]
    && w[|w| - 1] == lbr[|lbr| - 1]
  }

  /** No edge is entered more than LBR_SIZE times. */
  ghost predicate Capped(path: seq<Edge>) {
    forall x :: multiset(path)[x] <= LBR_SIZE
  }

  /** A matching walk that stays within the cap when it continues path and e. Its last edge is
      recognised before it is entered. */
  ghost predicate Fits(g: Graph, lbr: seq<Edge>, path: seq<Edge>, e: Edge, w: seq<Edge>) {
    Matches(g, lbr, e, w) && Capped(path + [e] + w[..|w| - 1])
  }

  function Count(visited: map<Edge, nat>, e: Edge): nat {
    if e in visited then visited[e] else 0
  }

  ghost function AllEdges(g: Graph): set<Edge> {
    set b, e | b in g.out && e in g.out[b] :: e
  }

  lemma OutInAll(g: Graph, b: Block, f: Edge)
    requires f in Out(g, b)
    ensures f in AllEdges(g)
  {
  }

  // ----- Termination: visits are bounded, so paths are

  lemma {:induction false} PathBound(universe: set<Edge>, path: seq<Edge>)
    requires forall x :: x in path ==> x in universe
    requires Capped(path)
    ensures |path| <= LBR_SIZE * |universe|
  {
    BagBound(universe, multiset(path));
  }

  lemma {:induction false} BagBound(universe: set<Edge>, bag: multiset<Edge>)
    requires forall x :: x in bag ==> x in universe
    requires forall x :: bag[x] <= LBR_SIZE
    ensures |bag| <= LBR_SIZE * |universe|
    decreases |universe|
  {
    if universe == {} {
      assert bag == multiset{};
    } else {
      var y :| y in universe;
      var rest := bag[y := 0];
      BagBound(universe - {y}, rest);
      assert bag == rest[y := bag[y]];
    }
  }

  // ----- One step of the search, read both ways

  lemma FitsInternal(g: Graph, lbr: seq<Edge>, path: seq<Edge>, e: Edge, w: seq<Edge>)
    requires |w| >= 2 && !IsVisible(w[0])
    ensures Fits(g, lbr, path, e, w) <==>
            w[0] in Out(g, e.target) && w[0] !in g.hidden && Fits(g, lbr, path + [e], w[0], w[1..])
  {
    assert path + [e] + w[..|w| - 1] == path + [e] + [w[0]] + w[1..][..|w| - 2];
    assert w[1..][|w| - 2] == w[|w| - 1];
  }

  lemma FitsVisible(g: Graph, lbr: seq<Edge>, path: seq<Edge>, e: Edge, w: seq<Edge>)
    requires |w| >= 2 && |lbr| >= 3 && w[0] == lbr[1] && IsVisible(w[0])
    ensures Fits(g, lbr, path, e, w) <==>
            w[0] in Out(g, e.target) && w[0] !in g.hidden && Fits(g, lbr[1..], path + [e], w[0], w[1..])
  {
    assert path + [e] + w[..|w| - 1] == path + [e] + [w[0]] + w[1..][..|w| - 2];
    assert w[1..][|w| - 2] == w[|w| - 1];
    assert lbr[1..] == [lbr[1]] + lbr[2..];
    assert lbr[1..][1..] == lbr[2..];
    assert lbr[1..][|lbr| - 2] == lbr[|lbr| - 1];
    if Visible(w) == lbr[1..] {
      assert Visible(w)[1..] == Visible(w[1..]);
    }
  }

  /** No fitting walk starts with f. */
  ghost predicate Hopeless(g: Graph, lbr: seq<Edge>, path: seq<Edge>, e: Edge, f: Edge) {
    forall w :: w != [] && w[0] == f ==> !Fits(g, lbr, path, e, w)
  }

  lemma HopelessInternal(g: Graph, lbr: seq<Edge>, path: seq<Edge>, e: Edge, f: Edge)
    requires |lbr| >= 2 && !IsVisible(f)
    requires forall w :: !Fits(g, lbr, path + [e], f, w)
    ensures Hopeless(g, lbr, path, e, f)
  {
    forall w | w != [] && w[0] == f
      ensures !Fits(g, lbr, path, e, w)
    {
      if |w| >= 2 {
        FitsInternal(g, lbr, path, e, w);
      } else {
        assert Visible(w) == Visible(w[1..]) == [];
      }
    }
  }

  lemma HopelessVisible(g: Graph, lbr: seq<Edge>, path: seq<Edge>, e: Edge, f: Edge)
    requires |lbr| >= 3 && f == lbr[1] && IsVisible(f)
    requires forall w :: !Fits(g, lbr[1..], path + [e], f, w)
    ensures Hopeless(g, lbr, path, e, f)
  {
    forall w | w != [] && w[0] == f
      ensures !Fits(g, lbr, path, e, w)
    {
      if |w| >= 2 {
        FitsVisible(g, lbr, path, e, w);
      } else {
        assert Visible(w) == [f] + Visible(w[1..]) == [f];
      }
    }
  }

  lemma HopelessMismatch(g: Graph, lbr: seq<Edge>, path: seq<Edge>, e: Edge, f: Edge)
    requires |lbr| >= 2 && IsVisible(f) && f != lbr[1]
    ensures Hopeless(g, lbr, path, e, f)
  {
  }

  /** The search's path, with the last record appended, continues old path and e by a fitting walk. */
  ghost predicate Holds(g: Graph, lbr: seq<Edge>, path: seq<Edge>, e: Edge, edge: seq<Edge>)
    requires |lbr| >= 2
  {
    path + [e] <= edge && Fits(g, lbr, path, e, edge[|path| + 1..] + [lbr[|lbr| - 1]])
  }

  lemma HoldsInternal(g: Graph, lbr: seq<Edge>, path: seq<Edge>, e: Edge, f: Edge, edge: seq<Edge>)
    requires |lbr| >= 2 && !IsVisible(f) && f in Out(g, e.target) && f !in g.hidden
    requires Holds(g, lbr, path + [e], f, edge)
    ensures Holds(g, lbr, path, e, edge)
  {
    var w := edge[|path| + 1..] + [lbr[|lbr| - 1]];
    assert w[1..] == edge[|path| + 2..] + [lbr[|lbr| - 1]];
    FitsInternal(g, lbr, path, e, w);
  }

  lemma HoldsVisible(g: Graph, lbr: seq<Edge>, path: seq<Edge>, e: Edge, f: Edge, edge: seq<Edge>)
    requires |lbr| >= 3 && f == lbr[1] && IsVisible(f) && f in Out(g, e.target) && f !in g.hidden
    requires Holds(g, lbr[1..], path + [e], f, edge)
    ensures Holds(g, lbr, path, e, edge)
  {
    var w := edge[|path| + 1..] + [lbr[|lbr| - 1]];
    assert w[1..] == edge[|path| + 2..] + [lbr[|lbr| - 1]];
    FitsVisible(g, lbr, path, e, w);
  }

  lemma CapReached(g: Graph, lbr: seq<Edge>, path: seq<Edge>, e: Edge)
    requires multiset(path)[e] >= LBR_SIZE
    ensures forall w :: !Fits(g, lbr, path, e, w)
  {
    forall w | w != []
      ensures !Capped(path + [e] + w[..|w| - 1])
    {
      assert multiset(path + [e] + w[..|w| - 1])[e] > LBR_SIZE;
    }
  }

  lemma NoneFits(g: Graph, lbr: seq<Edge>, path: seq<Edge>, e: Edge)
    requires forall f :: f in Out(g, e.target) && f !in g.hidden ==> Hopeless(g, lbr, path, e, f)
    ensures forall w :: !Fits(g, lbr, path, e, w)
  {
  }

  lemma FitsLast(g: Graph, lbr: seq<Edge>, path: seq<Edge>, e: Edge, f: Edge)
    requires |lbr| == 2 && f == lbr[1] && IsVisible(f)
    requires f in Out(g, e.target) && f !in g.hidden
    requires Capped(path + [e])
    ensures Holds(g, lbr, path, e, path + [e])
  {
  }

  datatype Outcome = NotFound | Found | Aborted

  // ----- The search as a function, with what the tracker leaves on the stack

  type Stack = seq<Option<Block>>

  function Tracked(g: Graph, matching: bool, stack: Stack, e: Edge, unroll: bool): (Verdict, Stack) {
    if matching then Track(g, stack, e, unroll) else (Accept, stack)
  }

  /** The edge is given up; the tracker unrolls it. */
  function GivenUp(g: Graph, matching: bool, stack: Stack, e: Edge): (Outcome, Stack) {
    var (v, stack') := Tracked(g, matching, stack, e, true);
    (if v == Abort then Aborted else NotFound, stack')
  }

  /** Entering e after path. The depth is what the cap leaves of the longest possible path. */
  ghost function EnterOutcome(g: Graph, matching: bool, lbr: seq<Edge>, path: seq<Edge>, e: Edge, stack: Stack,
                              depth: nat): (Outcome, Stack)
    decreases depth, 0, 0
  {
    if |lbr| < 2 then (Found, stack)
    else if multiset(path)[e] >= LBR_SIZE || depth == 0 then (NotFound, stack)
    else
      var (r, stack') := EdgesOutcome(g, matching, lbr, path + [e], Out(g, e.target), stack, depth - 1);
      if r == NotFound then GivenUp(g, matching, stack', e) else (r, stack')
  }

  /** Trying these outgoing edges in turn. */
  ghost function EdgesOutcome(g: Graph, matching: bool, lbr: seq<Edge>, path: seq<Edge>, fs: seq<Edge>, stack: Stack,
                              depth: nat): (Outcome, Stack)
    requires |lbr| >= 2
    decreases depth, 2, |fs|
  {
    if fs == [] then (NotFound, stack)
    else if fs[0] in g.hidden then EdgesOutcome(g, matching, lbr, path, fs[1..], stack, depth)
    else
      var (r, stack') := TryOutcome(g, matching, lbr, path, fs[0], stack, depth);
      if r == NotFound then EdgesOutcome(g, matching, lbr, path, fs[1..], stack', depth) else (r, stack')
  }

  ghost function TryOutcome(g: Graph, matching: bool, lbr: seq<Edge>, path: seq<Edge>, f: Edge, stack: Stack, depth: nat): (Outcome, Stack)
    requires |lbr| >= 2
    decreases depth, 1, 0
  {
    var (v, stack') := Tracked(g, matching, stack, f, false);
    if v == Abort then (Aborted, stack')
    else if v == Reject || (IsVisible(f) && f != lbr[1]) then GivenUp(g, matching, stack', f)
    else if IsVisible(f) && |lbr| == 2 then (Found, stack')
    else EnterOutcome(g, matching, if IsVisible(f) then lbr[1..] else lbr, path, f, stack', depth)
  }

  /** What the cap leaves of the longest possible path. */
  ghost function Depth(universe: set<Edge>, path: seq<Edge>): nat {
    if |path| <= LBR_SIZE * |universe| then LBR_SIZE * |universe| - |path| else 0
  }

  lemma EnterStops(g: Graph, matching: bool, lbr: seq<Edge>, path: seq<Edge>, e: Edge, stack: Stack, depth: nat)
    ensures |lbr| < 2 ==> EnterOutcome(g, matching, lbr, path, e, stack, depth) == (Found, stack)
    ensures |lbr| >= 2 && multiset(path)[e] >= LBR_SIZE ==> EnterOutcome(g, matching, lbr, path, e, stack, depth) == (NotFound, stack)
  {
  }

  lemma EnterGoesOn(g: Graph, matching: bool, lbr: seq<Edge>, path: seq<Edge>, e: Edge, stack: Stack, universe: set<Edge>)
    requires |lbr| >= 2 && multiset(path)[e] < LBR_SIZE && |path| + 1 <= LBR_SIZE * |universe|
    ensures EnterOutcome(g, matching, lbr, path, e, stack, Depth(universe, path)) ==
            var (r, stack') := EdgesOutcome(g, matching, lbr, path + [e], Out(g, e.target), stack, Depth(universe, path + [e]));
            if r == NotFound then GivenUp(g, matching, stack', e) else (r, stack')
  {
    hide EdgesOutcome;
  }

  lemma EdgesNext(g: Graph, matching: bool, lbr: seq<Edge>, path: seq<Edge>, fs: seq<Edge>, i: nat, stack: Stack, depth: nat)
    requires |lbr| >= 2 && i < |fs|
    ensures EdgesOutcome(g, matching, lbr, path, fs[i..], stack, depth) ==
            if fs[i] in g.hidden then EdgesOutcome(g, matching, lbr, path, fs[i + 1..], stack, depth)
            else
              var (r, stack') := TryOutcome(g, matching, lbr, path, fs[i], stack, depth);
              if r == NotFound then EdgesOutcome(g, matching, lbr, path, fs[i + 1..], stack', depth) else (r, stack')
  {
    hide TryOutcome;
    assert fs[i..][1..] == fs[i + 1..];
  }

  lemma EdgesDone(g: Graph, matching: bool, lbr: seq<Edge>, path: seq<Edge>, fs: seq<Edge>, stack: Stack, depth: nat)
    requires |lbr| >= 2
    ensures EdgesOutcome(g, matching, lbr, path, fs[|fs|..], stack, depth) == (NotFound, stack)
  {
  }

  lemma GivenUpIs(g: Graph, matching: bool, stack: Stack, e: Edge)
    ensures GivenUp(g, matching, stack, e).1 == Tracked(g, matching, stack, e, true).1
    ensures GivenUp(g, matching, stack, e).0 == if Tracked(g, matching, stack, e, true).0 == Abort then Aborted else NotFound
  {
  }

  /** Every call site has a block to return to. */
  ghost predicate CallsReturn(g: Graph) {
    forall b, e :: e in Out(g, b) && IsCall(e) ==> FallthroughOf(g, e.source).Some?
  }

  ghost predicate StackOk(g: Graph, stack: Stack) {
    CallsReturn(g) ==> forall i :: 0 <= i < |stack| ==> stack[i].Some?
  }

  /** The tracker prunes nothing: it is compiled out, or the record has no return to go wrong. */
  ghost predicate Harmless(g: Graph, matching: bool, lbr: seq<Edge>) {
    matching ==> CallsReturn(g) && forall i :: 1 <= i < |lbr| ==> !IsReturn(lbr[i])
  }

  /** The search state: the current path with its visit counts, and the call stack. */
  class Searcher {
    const g: Graph
    const matching: bool                // CALL_RET_MATCHING
    var edge: seq<Edge>
    var visited: map<Edge, nat>
    var stack: seq<Option<Block>>

    constructor (g: Graph, matching: bool)
      ensures this.g == g && this.matching == matching
      ensures edge == [] && stack == [] && Valid()
    {
      this.g := g;
      this.matching := matching;
      edge, visited, stack := [], map[], [];
    }

    /** Visit counts are the multiplicities in the current path, and none exceeds the cap. */
    ghost predicate Valid()
      reads this
    {
      && (forall x :: Count(visited, x) == multiset(edge)[x])
      && Capped(edge)
    }

    method TrackCallstack(e: Edge, unroll: bool) returns (r: Verdict)
      requires StackOk(g, stack) && (IsCall(e) && !unroll && CallsReturn(g) ==> FallthroughOf(g, e.source).Some?)
      modifies this`stack
      ensures (r, stack) == Tracked(g, matching, old(stack), e, unroll)
      ensures StackOk(g, stack) && (!matching || CallsReturn(g) ==> r != Abort)
    {
      if !matching { return Accept; }
      if IsCall(e) {
        if unroll {
          if stack != [] { stack := stack[..|stack| - 1]; }
        } else {
          stack := stack + [FallthroughOf(g, e.source)];
        }
      } else if IsReturn(e) {
        if stack == [] { return AcceptUnmatched; }
        var bb := stack[|stack| - 1];
        stack := stack[..|stack| - 1];
        if bb.None? { return Abort; }
        if e.target != bb.value {
          stack := stack + [bb];
          assert stack == old(stack);
          return Reject;
        }
      }
      return Accept;
    }

    method Enter(e: Edge)
      requires Valid() && multiset(edge)[e] < LBR_SIZE
      modifies this`edge, this`visited
      ensures Valid() && edge == old(edge) + [e]
    {
      visited := visited[e := Count(visited, e) + 1];
      edge := edge + [e];
    }

    method Leave(ghost path: seq<Edge>, e: Edge)
      requires Valid() && edge == path + [e]
      modifies this`edge, this`visited
      ensures Valid() && edge == path
    {
      ghost var before := visited;
      visited := visited[e := Count(visited, e) - 1];
      edge := edge[..|edge| - 1];
      assert edge == path && multiset(path + [e]) == multiset(path) + multiset{e};
      forall x ensures Count(visited, x) == multiset(path)[x] && multiset(path)[x] <= LBR_SIZE {
        assert Count(before, x) == multiset(path + [e])[x];
      }
    }

    /** `jit_path_exists`. A Found result leaves the walk in `edge`, up to its last edge,
        whatever the tracker pruned; a NotFound result restores path and counts, and when the
        tracker is harmless it means that no walk fits.
     */
    method PathExists(lbr: seq<Edge>, e: Edge, ghost universe: set<Edge>) returns (r: Outcome)
      requires Valid() && StackOk(g, stack)
      requires AllEdges(g) <= universe && e in universe
      requires forall x :: x in edge ==> x in universe
      modifies this
      ensures |lbr| < 2 ==> r == Found
      ensures r == Found && |lbr| >= 2 ==> Holds(g, lbr, old(edge), e, edge)
      ensures r == NotFound ==> Valid() && edge == old(edge)
      ensures StackOk(g, stack) && (!matching || CallsReturn(g) ==> r != Aborted)
      ensures Harmless(g, matching, lbr) && r == NotFound ==> forall w :: !Fits(g, lbr, edge, e, w)
      ensures (r, stack) == EnterOutcome(g, matching, lbr, old(edge), e, old(stack), Depth(universe, old(edge)))
      decreases LBR_SIZE * |universe| - |edge|, 0
    {
      hide EnterOutcome, Depth, EdgesOutcome, TryOutcome, GivenUp, Fits, Harmless, CallsReturn, StackOk, Hopeless, Holds, Tracked, AllEdges;
      EnterStops(g, matching, lbr, edge, e, stack, Depth(universe, edge));
      if |lbr| < 2 { return Found; }
      if Count(visited, e) >= LBR_SIZE {
        CapReached(g, lbr, edge, e);
        return NotFound;
      }

      ghost var path := edge;
      Enter(e);
      PathBound(universe, edge);
      EnterGoesOn(g, matching, lbr, path, e, stack, universe);

      var i := 0;
      var bb := e.target;
      ghost var fs, depth := Out(g, bb), Depth(universe, edge);
      assert fs[0..] == fs;
      while i < |Out(g, bb)|
        invariant 0 <= i <= |fs|
        invariant edge == path + [e] && Valid() && StackOk(g, stack)
        invariant Harmless(g, matching, lbr) ==> forall j :: 0 <= j < i && fs[j] !in g.hidden ==> Hopeless(g, lbr, path, e, fs[j])
        invariant EdgesOutcome(g, matching, lbr, edge, fs[i..], stack, depth) ==
                  EdgesOutcome(g, matching, lbr, edge, fs, old(stack), depth)
      {
        var f := Out(g, bb)[i];
        EdgesNext(g, matching, lbr, edge, fs, i, stack, depth);
        if f !in g.hidden {
          r := TryEdge(lbr, path, e, f, universe);
          if r != NotFound { return; }
        }
        i := i + 1;
      }
      EdgesDone(g, matching, lbr, edge, fs, stack, depth);

      Leave(path, e);
      GivenUpIs(g, matching, stack, e);
      var v := TrackCallstack(e, true);
      if v == Abort { return Aborted; }
      if Harmless(g, matching, lbr) { NoneFits(g, lbr, path, e); }
      return NotFound;
    }

    /** The search through one outgoing edge f of the edge e entered last. */
    method TryEdge(lbr: seq<Edge>, ghost path: seq<Edge>, e: Edge, f: Edge, ghost universe: set<Edge>)
      returns (r: Outcome)
      requires Valid() && StackOk(g, stack) && edge == path + [e] && |lbr| >= 2
      requires f in Out(g, e.target) && f !in g.hidden
      requires AllEdges(g) <= universe
      requires forall x :: x in edge ==> x in universe
      modifies this
      ensures r == Found ==> Holds(g, lbr, path, e, edge)
      ensures r == NotFound ==> Valid() && edge == old(edge)
      ensures StackOk(g, stack) && (!matching || CallsReturn(g) ==> r != Aborted)
      ensures Harmless(g, matching, lbr) && r == NotFound ==> Hopeless(g, lbr, path, e, f)
      ensures (r, stack) == TryOutcome(g, matching, lbr, old(edge), f, old(stack), Depth(universe, old(edge)))
      decreases LBR_SIZE * |universe| - |edge|, 1
    {
      hide EnterOutcome, Fits, StackOk, Holds, Hopeless, Capped, Depth;
      OutInAll(g, e.target, f);
      var v := TrackCallstack(f, false);
      if v == Abort { return Aborted; }
      if v == Reject || (IsVisible(f) && f != lbr[1]) {
        if Harmless(g, matching, lbr) { HopelessMismatch(g, lbr, path, e, f); }
        v := TrackCallstack(f, true);
        return if v == Abort then Aborted else NotFound;
      } else if IsVisible(f) {
        if |lbr| == 2 {
          FitsLast(g, lbr, path, e, f);
          return Found;
        }
        r := PathExists(lbr[1..], f, universe);
        if r == Found {
          HoldsVisible(g, lbr, path, e, f, edge);
        } else if r == NotFound && Harmless(g, matching, lbr) {
          HopelessVisible(g, lbr, path, e, f);
        }
      } else {
        r := PathExists(lbr, f, universe);
        if r == Found {
          HoldsInternal(g, lbr, path, e, f, edge);
        } else if r == NotFound && Harmless(g, matching, lbr) {
          HopelessInternal(g, lbr, path, e, f);
        }
      }
    }
  }

  // ----- The cap loses no walk

  /** An edge occurs at i and again at j with no visible edge on the way. */
  ghost predicate Loop(s: seq<Edge>, i: int, j: int) {
    0 <= i < j < |s| && s[i] == s[j] && Visible(s[i + 1..j + 1]) == []
  }

  ghost predicate LoopFree(s: seq<Edge>) {
    forall i, j :: !Loop(s, i, j)
  }

  lemma LoopFreePrefix(s: seq<Edge>, n: nat)
    requires LoopFree(s) && n <= |s|
    ensures LoopFree(s[..n])
  {
    forall i, j
      ensures !Loop(s[..n], i, j)
    {
      if 0 <= i < j < n {
        assert s[..n][i + 1..j + 1] == s[i + 1..j + 1];
        assert !Loop(s, i, j);
      }
    }
  }

  lemma LastOccurrence(s: seq<Edge>, x: Edge) returns (j: nat)
    requires x in s
    ensures j < |s| && s[j] == x && x !in s[j + 1..]
  {
    j := |s| - 1;
    while s[j] != x
      decreases j
      invariant j < |s| && x !in s[j + 1..] && x in s[..j + 1]
    {
      assert s[..j + 1] == s[..j] + [s[j]];
      assert s[j..] == [s[j]] + s[j + 1..];
      j := j - 1;
    }
  }

  lemma VisibleSplit(s: seq<Edge>, n: nat)
    requires 1 <= n <= |s|
    ensures Visible(s[1..]) == Visible(s[..n][1..]) + Visible(s[n..])
  {
    assert s[1..] == s[..n][1..] + s[n..];
    VisibleConcat(s[..n][1..], s[n..]);
  }

  /** The last two occurrences of the last edge are at j and at the end. */
  lemma OccurrencesUpTo(s: seq<Edge>, j: nat)
    requires j < |s| - 1 && s[|s| - 1] !in s[..|s| - 1][j + 1..]
    ensures multiset(s)[s[|s| - 1]] == multiset(s[..j + 1])[s[|s| - 1]] + 1
  {
    var u := s[..|s| - 1];
    assert s == u + [s[|s| - 1]];
    assert u == s[..j + 1] + u[j + 1..];
  }

  lemma {:induction false} MultiplicityAtEnd(s: seq<Edge>)
    requires s != [] && LoopFree(s)
    ensures multiset(s)[s[|s| - 1]] <= 1 + |Visible(s[1..])|
    decreases |s|
  {
    var n := |s| - 1;
    if s[n] !in s[..n] {
      assert s == s[..n] + [s[n]];
    } else {
      var j := LastOccurrence(s[..n], s[n]);
      OccurrencesUpTo(s, j);
      LoopFreePrefix(s, j + 1);
      MultiplicityAtEnd(s[..j + 1]);
      VisibleSplit(s, j + 1);
      assert s[j + 1..n + 1] == s[j + 1..];
      assert !Loop(s, j, n);
    }
  }

  /** In a loop-free path an edge occurs at most once per gap between visible edges. */
  lemma Multiplicity(s: seq<Edge>, x: Edge)
    requires s != [] && LoopFree(s)
    ensures multiset(s)[x] <= 1 + |Visible(s[1..])|
  {
    if x in s {
      var j := LastOccurrence(s, x);
      assert s == s[..j + 1] + s[j + 1..];
      LoopFreePrefix(s, j + 1);
      MultiplicityAtEnd(s[..j + 1]);
      VisibleSplit(s, j + 1);
    }
  }

  /** Cutting loops turns any matching walk into a loop-free one. */
  lemma {:induction false} CutLoops(g: Graph, lbr: seq<Edge>, e: Edge, w: seq<Edge>) returns (w': seq<Edge>)
    requires Matches(g, lbr, e, w)
    ensures Matches(g, lbr, e, w') && LoopFree([e] + w'[..|w'| - 1])
    decreases |w|
  {
    var s := [e] + w[..|w| - 1];
    if LoopFree(s) { return w; }
    var i, j :| Loop(s, i, j);
    assert w[i..j] == s[i + 1..j + 1];
    assert End(e.target, w[..i]) == s[i].target && End(e.target, w[..j]) == s[j].target;
    CutOne(g, e.target, w, i, j);
    w' := CutLoops(g, lbr, e, w[..i] + w[j..]);
  }

  lemma CutOne(g: Graph, b: Block, w: seq<Edge>, i: nat, j: nat)
    requires Walk(g, b, w) && i < j < |w|
    requires End(b, w[..i]) == End(b, w[..j]) && Visible(w[i..j]) == []
    ensures Walk(g, b, w[..i] + w[j..]) && Visible(w[..i] + w[j..]) == Visible(w)
  {
    assert w == w[..j] + w[j..] && w[..j] == w[..i] + w[i..j];
    WalkConcat(g, b, w[..j], w[j..]);
    WalkConcat(g, b, w[..i], w[i..j]);
    WalkConcat(g, b, w[..i], w[j..]);
    VisibleConcat(w[..j], w[j..]);
    VisibleConcat(w[..i], w[i..j]);
    VisibleConcat(w[..i], w[j..]);
  }

  lemma {:induction false} TrimTail(g: Graph, lbr: seq<Edge>, e: Edge, w: seq<Edge>) returns (w': seq<Edge>)
    requires |lbr| >= 2 && Walk(g, e.target, w) && Visible(w) == lbr[1..]
    ensures Matches(g, lbr, e, w')
    decreases |w|
  {
    var n := |w| - 1;
    var u, t := w[..n], [w[n]];
    assert w == u + t;
    WalkConcat(g, e.target, u, t);
    VisibleConcat(u, t);
    assert Visible(t) == if IsVisible(w[n]) then t else [] by { assert t[1..] == []; }
    if IsVisible(w[n]) {
      w' := w;
    } else {
      w' := TrimTail(g, lbr, e, u);
    }
  }

  /** A walk exists iff one exists that enters no edge more than LBR_SIZE times. */
  lemma CapLosesNothing(g: Graph, lbr: seq<Edge>, e: Edge)
    requires 2 <= |lbr| <= LBR_SIZE
    ensures Realisable(g, e.target, lbr[1..]) <==> exists w :: Fits(g, lbr, [], e, w)
  {
    if Realisable(g, e.target, lbr[1..]) {
      var w0 :| Walk(g, e.target, w0) && Visible(w0) == lbr[1..];
      var w1 := TrimTail(g, lbr, e, w0);
      var w := CutLoops(g, lbr, e, w1);
      var u := w[..|w| - 1];
      var s := [e] + u;
      assert w == u + [w[|w| - 1]];
      VisibleConcat(u, [w[|w| - 1]]);
      assert s[1..] == u;
      forall x ensures multiset(s)[x] <= LBR_SIZE { Multiplicity(s, x); }
      assert [] + [e] + w[..|w| - 1] == s;
      assert Fits(g, lbr, [], e, w);
    }
  }
}
