/** The path search as the validator starts it, and what it decides. With call/return matching compiled
    in, a walk that nothing disturbs is accepted if and only if its calls and returns match.
 */
module Validation {
  import opened ControlFlow
  import opened Collapse
  import opened PathSearch
  import opened CallMatching

  /** Trying f leads nowhere and leaves the call stack as it was: f is recorded, no return and not the
      next record; or it is internal, and so are all recorded edges that internal moves lead to. */
  ghost predicate Dead(g: Graph, next: Edge, f: Edge) {
    if IsVisible(f) then !IsReturn(f) && f != next
    else forall c, h :: Reaches(g, f.target, c) && h in Out(g, c) && h !in g.hidden && IsVisible(h) ==> !IsReturn(h) && h != next
  }

  /** At every block the walk leaves, all other edges are dead. */
  ghost predicate Undisturbed(g: Graph, lbr: seq<Edge>, e: Edge, w: seq<Edge>)
    decreases w
  {
    w != [] ==>
      && |lbr| >= 2
      && (forall f :: f in Out(g, e.target) && f !in g.hidden && f != w[0] ==> Dead(g, lbr[1], f))
      && Undisturbed(g, if IsVisible(w[0]) then lbr[1..] else lbr, w[0], w[1..])
  }

  // ----- Dead edges

  lemma ReachesBefore(g: Graph, b: Block, f: Edge, c: Block)
    requires f in Out(g, b) && f !in g.hidden && !IsVisible(f) && Reaches(g, f.target, c)
    ensures Reaches(g, b, c)
  {
    var w :| Walk(g, f.target, w) && Visible(w) == [] && End(f.target, w) == c;
    var v := [f] + w;
    assert v[1..] == w;
    assert Walk(g, b, v) && Visible(v) == [] && End(b, v) == c;
  }

  /** What follows a dead internal edge is dead. */
  lemma DeadNext(g: Graph, next: Edge, f: Edge, h: Edge)
    requires !IsVisible(f) && Dead(g, next, f) && h in Out(g, f.target) && h !in g.hidden
    ensures Dead(g, next, h)
  {
    ReachesSelf(g, f.target);
    if !IsVisible(h) {
      forall c, x | Reaches(g, h.target, c) && x in Out(g, c) && x !in g.hidden && IsVisible(x)
        ensures !IsReturn(x) && x != next
      {
        ReachesBefore(g, f.target, h, c);
      }
    }
  }

  lemma {:induction false} DeadTry(g: Graph, lbr: seq<Edge>, path: seq<Edge>, f: Edge, stack: Stack, depth: nat)
    requires |lbr| >= 2 && Dead(g, lbr[1], f)
    ensures TryOutcome(g, true, lbr, path, f, stack, depth) == (NotFound, stack)
    decreases depth, 1, 0
  {
    hide EdgesOutcome, Reaches;
    if IsVisible(f) {
      assert (stack + [FallthroughOf(g, f.source)])[..|stack|] == stack;
    } else if depth > 0 {
      forall h | h in Out(g, f.target) && h !in g.hidden
        ensures Dead(g, lbr[1], h)
      {
        DeadNext(g, lbr[1], f, h);
      }
      DeadEdges(g, lbr, path + [f], Out(g, f.target), stack, depth - 1);
    }
  }

  lemma {:induction false} DeadEdges(g: Graph, lbr: seq<Edge>, path: seq<Edge>, fs: seq<Edge>, stack: Stack, depth: nat)
    requires |lbr| >= 2 && forall h :: h in fs && h !in g.hidden ==> Dead(g, lbr[1], h)
    ensures EdgesOutcome(g, true, lbr, path, fs, stack, depth) == (NotFound, stack)
    decreases depth, 2, |fs|
  {
    hide TryOutcome, Dead;
    if fs != [] {
      if fs[0] !in g.hidden { DeadTry(g, lbr, path, fs[0], stack, depth); }
      DeadEdges(g, lbr, path, fs[1..], stack, depth);
    }
  }

  // ----- No aborts when every call site has a fall-through block

  lemma TrackedSafe(g: Graph, stack: Stack, e: Edge, unroll: bool)
    requires CallsReturn(g) && StackOk(g, stack) && (IsCall(e) && !unroll ==> FallthroughOf(g, e.source).Some?)
    ensures StackOk(g, Track(g, stack, e, unroll).1) && Track(g, stack, e, unroll).0 != Abort
  {
  }

  lemma {:induction false} EnterSafe(g: Graph, lbr: seq<Edge>, path: seq<Edge>, e: Edge, stack: Stack, depth: nat)
    requires CallsReturn(g) && StackOk(g, stack)
    ensures var (r, stack') := EnterOutcome(g, true, lbr, path, e, stack, depth); r != Aborted && StackOk(g, stack')
    decreases depth, 0, 0
  {
    hide EdgesOutcome, StackOk, CallsReturn, Track;
    if |lbr| >= 2 && multiset(path)[e] < LBR_SIZE && depth > 0 {
      EdgesSafe(g, lbr, path + [e], e.target, Out(g, e.target), stack, depth - 1);
      TrackedSafe(g, EdgesOutcome(g, true, lbr, path + [e], Out(g, e.target), stack, depth - 1).1, e, true);
    }
  }

  lemma {:induction false} EdgesSafe(g: Graph, lbr: seq<Edge>, path: seq<Edge>, b: Block, fs: seq<Edge>, stack: Stack, depth: nat)
    requires |lbr| >= 2 && CallsReturn(g) && StackOk(g, stack) && forall f :: f in fs ==> f in Out(g, b)
    ensures var (r, stack') := EdgesOutcome(g, true, lbr, path, fs, stack, depth); r != Aborted && StackOk(g, stack')
    decreases depth, 2, |fs|
  {
    hide TryOutcome, StackOk, CallsReturn;
    if fs != [] {
      TrySafe(g, lbr, path, b, fs[0], stack, depth);
      EdgesSafe(g, lbr, path, b, fs[1..], TryOutcome(g, true, lbr, path, fs[0], stack, depth).1, depth);
      EdgesSafe(g, lbr, path, b, fs[1..], stack, depth);
    }
  }

  lemma {:induction false} TrySafe(g: Graph, lbr: seq<Edge>, path: seq<Edge>, b: Block, f: Edge, stack: Stack, depth: nat)
    requires |lbr| >= 2 && CallsReturn(g) && StackOk(g, stack) && f in Out(g, b)
    ensures var (r, stack') := TryOutcome(g, true, lbr, path, f, stack, depth); r != Aborted && StackOk(g, stack')
    decreases depth, 1, 0
  {
    hide EnterOutcome, StackOk, Track;
    var stack' := Track(g, stack, f, false).1;
    TrackedSafe(g, stack, f, false);
    TrackedSafe(g, stack', f, true);
    EnterSafe(g, if IsVisible(f) then lbr[1..] else lbr, path, f, stack', depth);
  }

  // ----- An undisturbed walk

  /** No outgoing edge is listed twice. */
  ghost predicate EdgesOnce(g: Graph) {
    forall b, i, j :: 0 <= i < j < |Out(g, b)| ==> Out(g, b)[i] != Out(g, b)[j]
  }

  /** The straight replay of the walk comes to a return whose call has no block to go on at. */
  ghost predicate ReplayAborts(g: Graph, stack: Stack, w: seq<Edge>)
    decreases w
  {
    w != [] &&
    var (v, stack') := Track(g, stack, w[0], false);
    v == Abort || ((v == Accept || v == AcceptUnmatched) && ReplayAborts(g, stack', w[1..]))
  }

  /** Giving up a return that matched is taking it once more: the call below it is popped as well if it
      goes on at the same block, and the search aborts if that call has no such block. */
  lemma TriedReturn(g: Graph, lbr: seq<Edge>, path: seq<Edge>, f: Edge, rest: Stack, depth: nat)
    requires |lbr| >= 2 && IsReturn(f) && f != lbr[1]
    ensures var (r, stack') := TryOutcome(g, true, lbr, path, f, rest + [Some(f.target)], depth);
            && (r == Aborted <==> rest != [] && rest[|rest| - 1] == None) && r != Found
            && stack' == if rest != [] && rest[|rest| - 1] in {None, Some(f.target)} then rest[..|rest| - 1] else rest
  {
    assert (rest + [Some(f.target)])[..|rest|] == rest;
  }

  /** Trying outgoing edges that are all dead but one comes to what that one comes to. */
  lemma {:induction false} OnlyOneLives(g: Graph, lbr: seq<Edge>, path: seq<Edge>, fs: seq<Edge>, x: Edge, stack: Stack, depth: nat)
    requires |lbr| >= 2 && x in fs && x !in g.hidden
    requires forall f :: f in fs && f !in g.hidden && f != x ==> Dead(g, lbr[1], f)
    ensures var r := TryOutcome(g, true, lbr, path, x, stack, depth).0;
            r != NotFound ==> EdgesOutcome(g, true, lbr, path, fs, stack, depth).0 == r
    ensures var r := TryOutcome(g, true, lbr, path, x, stack, depth).0;
            r == NotFound && (forall i, j :: 0 <= i < j < |fs| ==> fs[i] != fs[j]) ==>
              EdgesOutcome(g, true, lbr, path, fs, stack, depth).0 == NotFound
    decreases |fs|
  {
    hide TryOutcome, Dead;
    if fs[0] == x {
      var (r, stack') := TryOutcome(g, true, lbr, path, x, stack, depth);
      if r == NotFound && forall i, j :: 0 <= i < j < |fs| ==> fs[i] != fs[j] {
        assert x !in fs[1..];
        DeadEdges(g, lbr, path, fs[1..], stack', depth);
      }
    } else {
      if fs[0] !in g.hidden { DeadTry(g, lbr, path, fs[0], stack, depth); }
      OnlyOneLives(g, lbr, path, fs[1..], x, stack, depth);
    }
  }

  /** How a matching walk starts. */
  lemma FirstOfWalk(g: Graph, lbr: seq<Edge>, path: seq<Edge>, e: Edge, w: seq<Edge>)
    requires Fits(g, lbr, path, e, w)
    ensures |lbr| >= 2 && w != [] && w[0] in Out(g, e.target) && w[0] !in g.hidden
    ensures !IsVisible(w[0]) ==> |w| >= 2 && Fits(g, lbr, path + [e], w[0], w[1..])
    ensures IsVisible(w[0]) ==> w[0] == lbr[1] && (|lbr| == 2 ==> |w| == 1)
    ensures IsVisible(w[0]) && |lbr| > 2 ==> |w| >= 2 && Fits(g, lbr[1..], path + [e], w[0], w[1..])
    ensures multiset(path)[e] < LBR_SIZE
  {
    var n := |w| - 1;
    assert Visible(w) == if IsVisible(w[0]) then [w[0]] + Visible(w[1..]) else Visible(w[1..]);
    assert multiset(path + [e] + w[..n])[e] <= LBR_SIZE;
    assert lbr[1..] == [lbr[1]] + lbr[2..];
    if IsVisible(w[0]) {
      assert Visible(w)[0] == w[0] && Visible(w[1..]) == lbr[2..];
      if |lbr| == 2 && |w| > 1 {
        LastShown(w[1..]);
      }
      if |lbr| > 2 { FitsVisible(g, lbr, path, e, w); }
    } else if |w| >= 2 {
      FitsInternal(g, lbr, path, e, w);
    }
  }

  lemma {:induction false} LastShown(w: seq<Edge>)
    requires w != [] && IsVisible(w[|w| - 1])
    ensures Visible(w) != []
    decreases w
  {
    if |w| > 1 { LastShown(w[1..]); }
  }

  lemma ReplayFirst(g: Graph, stack: Stack, w: seq<Edge>)
    requires w != []
    ensures var (v, stack') := Track(g, stack, w[0], false);
            && (Replay(g, stack, w) <==> (v == Accept || v == AcceptUnmatched) && Replay(g, stack', w[1..]))
            && (ReplayAborts(g, stack, w) <==> v == Abort || ((v == Accept || v == AcceptUnmatched) && ReplayAborts(g, stack', w[1..])))
  {
  }

  ghost predicate Dependable(g: Graph, stack: Stack) {
    CallsReturn(g) && StackOk(g, stack) && EdgesOnce(g)
  }

  lemma {:induction false} FollowTry(g: Graph, lbr: seq<Edge>, path: seq<Edge>, e: Edge, w: seq<Edge>, stack: Stack, depth: nat)
    requires Fits(g, lbr, path, e, w) && Undisturbed(g, lbr, e, w) && depth + 1 >= |w|
    ensures |lbr| >= 2 && w != []
    ensures Replay(g, stack, w) ==> TryOutcome(g, true, lbr, path + [e], w[0], stack, depth).0 == Found
    ensures ReplayAborts(g, stack, w) ==> TryOutcome(g, true, lbr, path + [e], w[0], stack, depth).0 == Aborted
    ensures Dependable(g, stack) && !Replay(g, stack, w) ==> TryOutcome(g, true, lbr, path + [e], w[0], stack, depth).0 == NotFound
    decreases |w|, 0
  {
    hide EnterOutcome, Fits, Dead, Replay, ReplayAborts, Track, CallsReturn, StackOk, EdgesOnce;
    FirstOfWalk(g, lbr, path, e, w);
    ReplayFirst(g, stack, w);
    var x := w[0];
    var (v, stack') := Track(g, stack, x, false);
    var accepted := v == Accept || v == AcceptUnmatched;
    if Dependable(g, stack) {
      CallHasFallthrough(g, e.target, x);
      TrackedSafe(g, stack, x, false);
      TrySafe(g, lbr, path + [e], e.target, x, stack, depth);
    }
    if accepted {
      if IsVisible(x) && |lbr| == 2 {
        ReplayEnd(g, stack');
        assert w[1..] == [];
      } else {
        Follow(g, if IsVisible(x) then lbr[1..] else lbr, path + [e], x, w[1..], stack', depth);
      }
    }
  }

  lemma ReplayEnd(g: Graph, stack: Stack)
    ensures Replay(g, stack, []) && !ReplayAborts(g, stack, [])
  {
  }

  lemma CallHasFallthrough(g: Graph, b: Block, f: Edge)
    requires CallsReturn(g) && f in Out(g, b)
    ensures IsCall(f) ==> FallthroughOf(g, f.source).Some?
  {
  }

  lemma {:induction false} Follow(g: Graph, lbr: seq<Edge>, path: seq<Edge>, e: Edge, w: seq<Edge>, stack: Stack, depth: nat)
    requires Fits(g, lbr, path, e, w) && Undisturbed(g, lbr, e, w) && depth >= |w|
    ensures Replay(g, stack, w) ==> EnterOutcome(g, true, lbr, path, e, stack, depth).0 == Found
    ensures ReplayAborts(g, stack, w) ==> EnterOutcome(g, true, lbr, path, e, stack, depth).0 == Aborted
    ensures Dependable(g, stack) && !Replay(g, stack, w) ==> EnterOutcome(g, true, lbr, path, e, stack, depth).0 == NotFound
    decreases |w|, 1
  {
    hide EdgesOutcome, TryOutcome, Fits, Dead, Replay, ReplayAborts, Track, CallsReturn, StackOk;
    FirstOfWalk(g, lbr, path, e, w);
    FollowTry(g, lbr, path, e, w, stack, depth - 1);
    OnlyOneLives(g, lbr, path + [e], Out(g, e.target), w[0], stack, depth - 1);
    if Dependable(g, stack) { EnterSafe(g, lbr, path, e, stack, depth); }
  }

  // ----- The validator

  lemma {:induction false} WalkEdges(g: Graph, b: Block, w: seq<Edge>)
    requires Walk(g, b, w)
    ensures forall x :: x in w ==> x in AllEdges(g)
    decreases w
  {
    if w != [] {
      OutInAll(g, b, w[0]);
      WalkEdges(g, w[0].target, w[1..]);
    }
  }

  /** The depth the search starts with suffices for a walk within the cap. */
  lemma DepthSuffices(g: Graph, lbr: seq<Edge>, e: Edge, w: seq<Edge>)
    requires Fits(g, lbr, [], e, w)
    ensures Depth(AllEdges(g) + {e}, []) >= |w|
  {
    WalkEdges(g, e.target, w);
    var p := [] + [e] + w[..|w| - 1];
    assert forall x :: x in p ==> x in AllEdges(g) + {e};
    PathBound(AllEdges(g) + {e}, p);
  }

  lemma {:induction false} StraightSearch(g: Graph, lbr: seq<Edge>, w: seq<Edge>)
    requires |lbr| >= 2 && Fits(g, lbr, [], lbr[0], w) && Undisturbed(g, lbr, lbr[0], w)
    ensures var r := EnterOutcome(g, true, lbr, [], lbr[0], [], Depth(AllEdges(g) + {lbr[0]}, [])).0;
            && (Replay(g, [], w) ==> r == Found) && (ReplayAborts(g, [], w) ==> r == Aborted)
            && (CallsReturn(g) && EdgesOnce(g) && !Replay(g, [], w) ==> r == NotFound)
  {
    hide EnterOutcome, Fits, Undisturbed, Replay, ReplayAborts, CallsReturn, EdgesOnce;
    DepthSuffices(g, lbr, lbr[0], w);
    Follow(g, lbr, [], lbr[0], w, [], Depth(AllEdges(g) + {lbr[0]}, []));
  }

  /** The search as the validator starts it: fresh state, first record as the first edge. It
      accepts only realisable records. It accepts all of them when call/return matching is compiled
      out, or when the record holds no return and every call site has a fall-through block. With
      matching, a record with an undisturbed walk is accepted if its calls and returns match; when every
      call site has a fall-through block, only then; and it aborts if the walk returns from a call
      without one.
   */
  method ValidatePath(g: Graph, matching: bool, lbr: seq<Edge>) returns (r: Outcome)
    requires |lbr| <= LBR_SIZE
    ensures |lbr| < 2 ==> r == Found
    ensures r == Found && |lbr| >= 2 ==> Realisable(g, lbr[0].target, lbr[1..])
    ensures !matching || CallsReturn(g) ==> r != Aborted
    ensures Harmless(g, matching, lbr) && |lbr| >= 2 ==> (r == Found <==> Realisable(g, lbr[0].target, lbr[1..]))
    ensures forall w :: matching && |lbr| >= 2 && Fits(g, lbr, [], lbr[0], w) && Undisturbed(g, lbr, lbr[0], w) ==>
              && (Replay(g, [], w) ==> r == Found) && (ReplayAborts(g, [], w) ==> r == Aborted)
              && (CallsReturn(g) && EdgesOnce(g) && !Replay(g, [], w) ==> r == NotFound)
    ensures lbr != [] ==> r == EnterOutcome(g, matching, lbr, [], lbr[0], [], Depth(AllEdges(g) + {lbr[0]}, [])).0
  {
    hide EnterOutcome, Replay, ReplayAborts, Undisturbed, EdgesOnce, Depth, AllEdges;
    if lbr == [] { return Found; }
    var dfs := new Searcher(g, matching);
    r := dfs.PathExists(lbr, lbr[0], AllEdges(g) + {lbr[0]});
    if |lbr| >= 2 {
      CapLosesNothing(g, lbr, lbr[0]);
      forall w | matching && Fits(g, lbr, [], lbr[0], w) && Undisturbed(g, lbr, lbr[0], w)
        ensures (Replay(g, [], w) ==> r == Found) && (ReplayAborts(g, [], w) ==> r == Aborted)
        ensures CallsReturn(g) && EdgesOnce(g) && !Replay(g, [], w) ==> r == NotFound
      {
        StraightSearch(g, lbr, w);
      }
    }
  }
}
