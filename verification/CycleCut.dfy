/** Cutting direct cycles in the static search. The source expects that it costs no states. That is
    so when no direct cycle contains a call; with recursion over direct calls a state can be lost.
 */
module CycleCut {
  import opened ControlFlow
  import opened CallMatching
  import opened PathSearch
  import opened StaticPaths

  // ----- Concatenation

  lemma {:induction false} ReverseConcat(a: seq<Edge>, b: seq<Edge>)
    ensures Reverse(a + b) == Reverse(b) + Reverse(a)
    decreases |b|
  {
    if b == [] {
      assert a + b == a;
    } else {
      var n := |b| - 1;
      assert (a + b)[..|a + b| - 1] == a + b[..n];
      ReverseConcat(a, b[..n]);
    }
  }

  lemma {:induction false} NoIndirect(c: seq<Edge>)
    requires forall e :: e in c ==> !IsIndirect(e)
    ensures Indirect(c) == []
    decreases |c|
  {
    if c != [] {
      NoIndirect(c[..|c| - 1]);
    }
  }

  ghost predicate Neutral(c: seq<Edge>) {
    forall e :: e in c ==> !IsCall(e) && !IsReturn(e)
  }

  lemma {:induction false} NeutralReverse(c: seq<Edge>)
    requires Neutral(c)
    ensures Neutral(Reverse(c))
    decreases |c|
  {
    if c != [] {
      NeutralReverse(c[..|c| - 1]);
    }
  }

  /** Edges that are neither calls nor returns do not matter to the replay. */
  lemma {:induction false} NeutralReplay(g: Graph, stack: seq<Option<Block>>, x: seq<Edge>, c: seq<Edge>, y: seq<Edge>)
    requires Neutral(c)
    ensures Replay(g, stack, x + c + y) <==> Replay(g, stack, x + y)
    decreases |x| + |c|
  {
    if x != [] {
      assert (x + c + y)[1..] == x[1..] + c + y && (x + y)[1..] == x[1..] + y;
      NeutralReplay(g, Track(g, stack, x[0], false).1, x[1..], c, y);
    } else if c != [] {
      assert x + c + y == [c[0]] + (c[1..] + y) && x + y == y && [] + c[1..] + y == c[1..] + y && [] + y == y;
      assert (x + c + y)[1..] == c[1..] + y;
      NeutralReplay(g, stack, [], c[1..], y);
    } else {
      assert x + c + y == x + y;
    }
  }

  // ----- Cutting

  /** A closed path of direct edges that are not hidden. */
  ghost predicate DirectCycle(g: Graph, b: Block, c: seq<Edge>) {
    && c != [] && Connected(g, b, c) && c[0] in Inc(g, Tip(b, c))
    && forall e :: e in c ==> !IsIndirect(e) && e !in g.hidden
  }

  ghost predicate NoCallInCycles(g: Graph) {
    forall b, c, e :: DirectCycle(g, b, c) && e in c ==> !IsCall(e)
  }

  /** Where a path starts matters to its first edge only. */
  lemma ConnectedFrom(g: Graph, x: Block, y: Block, b: seq<Edge>)
    requires Connected(g, x, b) && b != [] && b[0] in Inc(g, y)
    ensures Connected(g, y, b)
  {
    forall i | 0 <= i < |b|
      ensures b[i] in Inc(g, Tip(y, b[..i]))
    {
      assert b[i] in Inc(g, Tip(x, b[..i]));
    }
  }

  lemma StartsIn(g: Graph, x: Block, b: seq<Edge>)
    requires Connected(g, x, b) && b != []
    ensures b[0] in Inc(g, x)
  {
    assert b[..0] == [];
  }

  /** The path a + c + b without its direct cycle c is connected. */
  lemma CutConnected(g: Graph, root: Block, a: seq<Edge>, c: seq<Edge>, b: seq<Edge>)
    requires Connected(g, root, a + c + b) && c != [] && b != [] && c[0] == b[0]
    requires forall e :: e in c ==> !IsIndirect(e) && e !in g.hidden
    ensures Connected(g, root, a + b) && DirectCycle(g, Tip(root, a), c)
  {
    hide Connected;
    ConnectedConcat(g, root, a + c, b);
    ConnectedConcat(g, root, a, c);
    ConnectedConcat(g, root, a, b);
    StartsIn(g, Tip(root, a), c);
    StartsIn(g, Tip(root, a + c), b);
    ConnectedFrom(g, Tip(root, a + c), Tip(root, a), b);
  }

  lemma CutIndirect(a: seq<Edge>, c: seq<Edge>, b: seq<Edge>)
    requires forall e :: e in c ==> !IsIndirect(e)
    ensures Indirect(a + c + b) == Indirect(a + b)
  {
    hide Indirect;
    IndirectConcat(a + c, b);
    IndirectConcat(a, c);
    IndirectConcat(a, b);
    NoIndirect(c);
  }

  /** Every part of the shorter path has the state of a part of the longer one. */
  lemma CutPrefix(a: seq<Edge>, c: seq<Edge>, b: seq<Edge>, k: nat) returns (m: nat)
    requires (forall e :: e in c ==> !IsIndirect(e)) && 1 <= k < |a + b|
    ensures 1 <= m < |a + c + b| && Indirect((a + b)[..k]) == Indirect((a + c + b)[..m]) && (a + b)[k] == (a + c + b)[m]
  {
    hide Indirect;
    if k < |a| {
      m := k;
      assert (a + b)[..k] == a[..k] == (a + c + b)[..k];
    } else {
      m := k + |c|;
      assert (a + b)[..k] == a + b[..k - |a|];
      assert (a + c + b)[..m] == a + c + b[..k - |a|];
      CutIndirect(a, c, b[..k - |a|]);
    }
  }

  lemma CutReplays(g: Graph, a: seq<Edge>, c: seq<Edge>, b: seq<Edge>)
    requires Replay(g, [], Reverse(a + c + b)) && Neutral(c)
    ensures Replay(g, [], Reverse(a + b))
  {
    hide Replay, Reverse;
    ReverseConcat(a + c, b);
    ReverseConcat(a, c);
    ReverseConcat(a, b);
    NeutralReverse(c);
    assert Reverse(a + c + b) == Reverse(b) + Reverse(c) + Reverse(a);
    NeutralReplay(g, [], Reverse(b), Reverse(c), Reverse(a));
  }

  /** A path with a direct repeat is a + c + b, with a direct cycle c that b starts again. */
  lemma AtRepeat(p: seq<Edge>, i: int, j: int) returns (a: seq<Edge>, c: seq<Edge>, b: seq<Edge>)
    requires RepeatsDirectly(p, i, j)
    ensures p == a + c + b && c != [] && b != [] && c[0] == b[0]
    ensures forall e :: e in c ==> !IsIndirect(e)
    ensures forall e :: e in c ==> exists k :: 1 <= k < |p| && p[k] == e
  {
    a, c, b := p[..i], p[i..j], p[j..];
    forall e | e in c
      ensures !IsIndirect(e) && exists k :: 1 <= k < |p| && p[k] == e
    {
      var k :| 0 <= k < |c| && c[k] == e;
      assert p[i + k] == e && !IsIndirect(p[i + k]);
      assert i + k == 0 ==> p[j] == e;
    }
  }

  /** The conditions on the inner parts of a genuine path. */
  ghost predicate InnerOk(g: Graph, window: nat, p: seq<Edge>) {
    forall k :: 1 <= k < |p| ==> p[k] !in g.hidden && |Indirect(p[..k])| != window
  }

  lemma CutInner(g: Graph, window: nat, a: seq<Edge>, c: seq<Edge>, b: seq<Edge>)
    requires InnerOk(g, window, a + c + b) && forall e :: e in c ==> !IsIndirect(e)
    ensures InnerOk(g, window, a + b)
  {
    hide Indirect;
    var p, q := a + c + b, a + b;
    forall k | 1 <= k < |q|
      ensures q[k] !in g.hidden && |Indirect(q[..k])| != window
    {
      var m := CutPrefix(a, c, b, k);
      assert p[m] !in g.hidden && |Indirect(p[..m])| != window;
    }
  }

  /** The path ends here: the window is full, or nothing comes in. */
  ghost predicate Ends(g: Graph, window: nat, p: seq<Edge>) {
    p != [] && (|Indirect(p)| == window || Inc(g, p[|p| - 1].source) == [])
  }

  lemma CutEnds(g: Graph, window: nat, a: seq<Edge>, c: seq<Edge>, b: seq<Edge>)
    requires Ends(g, window, a + c + b) && b != [] && Indirect(a + b) == Indirect(a + c + b)
    ensures Ends(g, window, a + b)
  {
    hide Indirect;
  }

  lemma GenuineParts(g: Graph, window: nat, root: Block, p: seq<Edge>)
    ensures Genuine(g, window, root, p) <==>
            Connected(g, root, p) && InnerOk(g, window, p) && Replay(g, [], Reverse(p)) && Ends(g, window, p)
  {
    hide Replay, Reverse, Indirect, Connected;
  }

  lemma CycleNeutral(g: Graph, b: Block, c: seq<Edge>)
    requires NoCallInCycles(g) && DirectCycle(g, b, c)
    ensures Neutral(c)
  {
  }

  lemma {:induction false} CutGenuine(g: Graph, window: nat, root: Block, a: seq<Edge>, c: seq<Edge>, b: seq<Edge>)
    requires Genuine(g, window, root, a + c + b) && NoCallInCycles(g)
    requires c != [] && b != [] && c[0] == b[0] && forall e :: e in c ==> !IsIndirect(e) && e !in g.hidden
    ensures Genuine(g, window, root, a + b) && Indirect(a + b) == Indirect(a + c + b)
  {
    hide Genuine, Replay, Reverse, Indirect, Connected, DirectCycle, NoCallInCycles, InnerOk, Ends, Neutral;
    GenuineParts(g, window, root, a + c + b);
    GenuineParts(g, window, root, a + b);
    CutConnected(g, root, a, c, b);
    CycleNeutral(g, Tip(root, a), c);
    CutReplays(g, a, c, b);
    CutIndirect(a, c, b);
    CutInner(g, window, a, c, b);
    CutEnds(g, window, a, c, b);
  }

  /** Without calls in direct cycles, the search ends on a path with the same state and the same last
      edge for every genuine path. */
  lemma {:induction false} CutCycles(g: Graph, window: nat, root: Block, p: seq<Edge>) returns (q: seq<Edge>)
    requires Genuine(g, window, root, p) && NoCallInCycles(g)
    ensures Completion(g, window, root, [], q) && Indirect(q) == Indirect(p)
    ensures q != [] && p != [] && q[|q| - 1] == p[|p| - 1]
    decreases |p|
  {
    hide Genuine, NoCallInCycles, Indirect, Completion;
    CompletionMeaning(g, window, root, p);
    assert p != [] by { EndsSomewhere(g, window, root, p); }
    if NoDirectRepeat(p) { return p; }
    var i, j :| RepeatsDirectly(p, i, j);
    var a, c, b := AtRepeat(p, i, j);
    UnhiddenAfterFirst(g, window, root, p);
    CutGenuine(g, window, root, a, c, b);
    q := CutCycles(g, window, root, a + b);
  }

  lemma UnhiddenAfterFirst(g: Graph, window: nat, root: Block, p: seq<Edge>)
    requires Genuine(g, window, root, p)
    ensures forall k :: 1 <= k < |p| ==> p[k] !in g.hidden
  {
  }

  lemma EndsSomewhere(g: Graph, window: nat, root: Block, p: seq<Edge>)
    requires Genuine(g, window, root, p)
    ensures p != []
  {
  }

  /** Cutting direct cycles loses no state when no direct cycle contains a call. */
  lemma {:induction false} CutLosesNothing(g: Graph, window: nat, root: Block, s: seq<Edge>)
    requires NoCallInCycles(g)
    ensures (exists p :: Completion(g, window, root, [], p) && Indirect(p) == s) <==>
            (exists p :: Genuine(g, window, root, p) && Indirect(p) == s)
  {
    hide Genuine, NoCallInCycles, Indirect, Completion;
    if p :| Completion(g, window, root, [], p) && Indirect(p) == s {
      CompletionMeaning(g, window, root, p);
    }
    if p :| Genuine(g, window, root, p) && Indirect(p) == s {
      var q := CutCycles(g, window, root, p);
    }
  }

  // ----- A state that is lost

  const CALL := Edge(0, 0, 1, IndirectCall)
  const AGAIN := Edge(1, 1, 1, DirectCall)
  const DOWN := Edge(2, 1, 2, DirectJmp)
  const BACK := Edge(3, 2, 2, Ret)
  const LEAVE := Edge(4, 2, 3, Ret)

  /** Function 1 is called from 0, may call itself directly, and returns from 2; call sites 0 and 1 go
      on at 3 and 2. */
  const RECURSION := Graph(
    map[0 := [CALL], 1 := [AGAIN, DOWN], 2 := [BACK, LEAVE]],
    map[1 := [CALL, AGAIN], 2 := [DOWN, BACK], 3 := [LEAVE]],
    {},
    map[0 := 3, 1 := 2])

  lemma Pushed(u: seq<Edge>, e: Edge)
    ensures Reverse(u + [e]) == [e] + Reverse(u)
    ensures Indirect(u + [e]) == Indirect(u) + if IsIndirect(e) then [e] else []
    ensures DirectSuffix(u + [e]) == if IsIndirect(e) then [] else DirectSuffix(u) + [e]
  {
    assert (u + [e])[..|u|] == u;
  }

  /** What the search does after u on its way to p. */
  lemma Onward(p: seq<Edge>, u: seq<Edge>)
    requires Completion(RECURSION, 4, 3, [], p) && u <= p
    ensures Terminal(RECURSION, 4, u) ==> p == u
    ensures !Terminal(RECURSION, 4, u) ==>
              && |p| > |u| && u + [p[|u|]] <= p && p[|u|] in Inc(RECURSION, Tip(3, u))
              && (u != [] ==> Traversable(RECURSION, u, p[|u|])) && !ClosesDirectCycle(u, p[|u|])
  {
    hide Legal, Indirect, ClosesDirectCycle, Traversable;
    assert p[..|u|] == u;
    LegalPrefix(RECURSION, 4, 3, p, |u|);
    if |p| == |u| { assert p == u; }
  }

  const LOST := [LEAVE, BACK, BACK, CALL]

  /** The search starts with the return to 3, and then goes on with the recursive return or down. */
  lemma FirstStep(p: seq<Edge>)
    requires Completion(RECURSION, 4, 3, [], p) && Indirect(p) == LOST
    ensures [LEAVE] + [BACK] <= p || [LEAVE] + [DOWN] <= p
  {
    hide Legal, ClosesDirectCycle, Traversable;
    Onward(p, []);
    Pushed([], LEAVE);
    assert [] + [LEAVE] == [LEAVE];
    Onward(p, [LEAVE]);
  }

  lemma ScanSkips(ft: Option<Block>, e: Edge, later: seq<Edge>, level: nat)
    ensures IsCall(e) ==> Scan(ft, [e] + later, level) == Scan(ft, later, level + 1)
    ensures IsReturn(e) ==> Scan(ft, [e] + later, level) == if level != 0 then Scan(ft, later, level - 1) else ft == Some(e.target)
    ensures !IsCall(e) && !IsReturn(e) ==> Scan(ft, [e] + later, level) == Scan(ft, later, level)
  {
    assert ([e] + later)[1..] == later;
  }

  /** Which call edges may follow when the search stands in function 1, after a return `ret`. */
  lemma InFunction(u: seq<Edge>, ret: Edge, e: Edge)
    requires Reverse(u) != [] && Reverse(u)[0] == ret && IsReturn(ret)
    requires e == CALL || e == AGAIN
    ensures Traversable(RECURSION, u + [DOWN], e) <==> (if e == CALL then 3 else 2) == ret.target
  {
    hide Reverse, Scan;
    Pushed(u, DOWN);
    var ft := FallthroughOf(RECURSION, e.source);
    ScanSkips(ft, DOWN, Reverse(u), 0);
    var rest := Reverse(u)[1..];
    assert Reverse(u) == [ret] + rest;
    ScanSkips(ft, ret, rest, 0);
  }

  lemma ScanRecursion(ft: Option<Block>, u: seq<Edge>, ret: Edge, ret': Edge, rest: seq<Edge>)
    requires Reverse(u) == [ret] + ([ret'] + rest) && IsReturn(ret) && IsReturn(ret')
    ensures Scan(ft, Reverse(u + [DOWN] + [AGAIN]), 0) <==> ft == Some(ret'.target)
  {
    hide Reverse, Scan, Indirect, DirectSuffix;
    Pushed(u, DOWN);
    Pushed(u + [DOWN], AGAIN);
    ScanSkips(ft, AGAIN, [DOWN] + Reverse(u), 0);
    ScanSkips(ft, DOWN, Reverse(u), 1);
    ScanSkips(ft, ret, [ret'] + rest, 1);
    ScanSkips(ft, ret', rest, 0);
  }

  /** The same after one recursive call, which the return `ret` closes. */
  lemma InRecursion(u: seq<Edge>, ret: Edge, ret': Edge)
    requires |Reverse(u)| >= 2 && Reverse(u)[0] == ret && Reverse(u)[1] == ret' && IsReturn(ret) && IsReturn(ret')
    ensures Traversable(RECURSION, u + [DOWN] + [AGAIN], CALL) <==> ret'.target == 3
  {
    hide Reverse, Scan;
    assert Reverse(u) == [ret] + ([ret'] + Reverse(u)[2..]);
    ScanRecursion(Some(3), u, ret, ret', Reverse(u)[2..]);
  }

  /** From function 1 the search can only go on with the two calls, and not with the recursive one twice. */
  lemma FromFunction(p: seq<Edge>, u: seq<Edge>)
    requires Completion(RECURSION, 4, 3, [], p) && u + [DOWN] <= p && |Indirect(u)| < 4
    ensures u + [DOWN] + [CALL] <= p || u + [DOWN] + [AGAIN] + [CALL] <= p
    ensures u + [DOWN] + [CALL] <= p ==> Traversable(RECURSION, u + [DOWN], CALL) && Indirect(p) == Indirect(u) + [CALL]
    ensures u + [DOWN] + [AGAIN] + [CALL] <= p ==>
              && Traversable(RECURSION, u + [DOWN], AGAIN) && Traversable(RECURSION, u + [DOWN] + [AGAIN], CALL)
              && Indirect(p) == Indirect(u) + [CALL]
  {
    hide Legal, Traversable, Reverse, Indirect, DirectSuffix, Completion;
    Pushed(u, DOWN);
    Pushed(u + [DOWN], CALL);
    Pushed(u + [DOWN], AGAIN);
    Pushed(u + [DOWN] + [AGAIN], CALL);
    Onward(p, u + [DOWN]);
    if u + [DOWN] + [CALL] <= p {
      Onward(p, u + [DOWN] + [CALL]);
    } else {
      Onward(p, u + [DOWN] + [AGAIN]);
      Onward(p, u + [DOWN] + [AGAIN] + [CALL]);
    }
  }

  lemma {:induction false} NeverFound(p: seq<Edge>)
    requires Completion(RECURSION, 4, 3, [], p)
    ensures Indirect(p) != LOST
  {
    hide Completion, Indirect, Reverse, DirectSuffix, Traversable, ClosesDirectCycle;
    if Indirect(p) == LOST {
      var u1, u2, u3 := [LEAVE], [LEAVE] + [BACK], [LEAVE] + [BACK] + [BACK];
      Unfolded();
      FirstStep(p);
      if u1 + [DOWN] <= p { FromFunction(p, u1); }
      Onward(p, u2);
      if u2 + [DOWN] <= p { FromFunction(p, u2); }
      Onward(p, u3);
      if u3 + [BACK] <= p { Onward(p, u3 + [BACK]); }
      FromFunction(p, u3);
      InFunction(u3, BACK, CALL);
      InRecursion(u3, BACK, BACK);
    }
  }

  lemma Unfolded()
    ensures Indirect([LEAVE]) == [LEAVE] && Indirect([LEAVE] + [BACK]) == [LEAVE, BACK]
    ensures Indirect([LEAVE] + [BACK] + [BACK]) == [LEAVE, BACK, BACK]
    ensures Reverse([LEAVE] + [BACK] + [BACK]) == [BACK, BACK, LEAVE]
    ensures Indirect([LEAVE] + [BACK] + [BACK] + [BACK]) == [LEAVE, BACK, BACK, BACK]
  {
    assert [] + [LEAVE] == [LEAVE];
    Pushed([], LEAVE);
    Pushed([LEAVE], BACK);
    Pushed([LEAVE] + [BACK], BACK);
    Pushed([LEAVE] + [BACK] + [BACK], BACK);
  }

  const TWICE := [LEAVE, BACK, BACK, DOWN, AGAIN, AGAIN, CALL]

  lemma ReplayNext(stack: seq<Option<Block>>, e: Edge, rest: seq<Edge>)
    ensures Replay(RECURSION, stack, [e] + rest) <==>
            var (verdict, stack') := Track(RECURSION, stack, e, false);
            (verdict == Accept || verdict == AcceptUnmatched) && Replay(RECURSION, stack', rest)
  {
    assert ([e] + rest)[1..] == rest;
  }

  /** Calling twice recursively and returning twice is consistent. */
  lemma TwiceReplays()
    ensures Replay(RECURSION, [], Reverse(TWICE)) && Indirect(TWICE) == LOST
  {
    hide Replay, Reverse, Indirect;
    TwiceUnfolded();
    var out := [BACK] + ([BACK] + ([LEAVE] + []));
    assert Reverse(TWICE) == [CALL] + ([AGAIN] + ([AGAIN] + ([DOWN] + out)));
    var none: seq<Option<Block>> := [];
    assert none + [Some(3)] == [Some(3)] && [Some(3)][..0] == none;
    assert [Some(3)] + [Some(2)] == [Some(3), Some(2)];
    assert [Some(3), Some(2)] + [Some(2)] == [Some(3), Some(2), Some(2)];
    ReplayNext([], CALL, [AGAIN] + ([AGAIN] + ([DOWN] + out)));
    ReplayNext([Some(3)], AGAIN, [AGAIN] + ([DOWN] + out));
    ReplayNext([Some(3), Some(2)], AGAIN, [DOWN] + out);
    ReplayNext([Some(3), Some(2), Some(2)], DOWN, out);
    ReplayNext([Some(3), Some(2), Some(2)], BACK, [BACK] + ([LEAVE] + []));
    assert [Some(3), Some(2), Some(2)][..2] == [Some(3), Some(2)];
    ReplayNext([Some(3), Some(2)], BACK, [LEAVE] + []);
    assert [Some(3), Some(2)][..1] == [Some(3)];
    ReplayNext([Some(3)], LEAVE, []);
    assert Replay(RECURSION, [], []) by { ReplayNothing([]); }
  }

  lemma TwiceUnfolded()
    ensures Reverse(TWICE) == [CALL, AGAIN, AGAIN, DOWN, BACK, BACK, LEAVE] && Indirect(TWICE) == LOST
  {
    hide Reverse, Indirect, DirectSuffix;
    var u := [LEAVE] + [BACK] + [BACK];
    Unfolded();
    Pushed(u, DOWN);
    Pushed(u + [DOWN], AGAIN);
    Pushed(u + [DOWN] + [AGAIN], AGAIN);
    Pushed(u + [DOWN] + [AGAIN] + [AGAIN], CALL);
    assert TWICE == u + [DOWN] + [AGAIN] + [AGAIN] + [CALL];
  }

  lemma ReplayNothing(stack: seq<Option<Block>>)
    ensures Replay(RECURSION, stack, [])
  {
  }

  lemma {:induction false} FewerBefore(p: seq<Edge>, k: nat)
    requires k < |p| && IsIndirect(p[|p| - 1])
    ensures |Indirect(p[..k])| < |Indirect(p)|
  {
    assert p == p[..k] + p[k..];
    IndirectConcat(p[..k], p[k..]);
    var c := p[k..];
    assert Indirect(c) == Indirect(c[..|c| - 1]) + [c[|c| - 1]];
  }

  /** Cutting a recursive call loses a state: the path that calls twice is genuine, and the search from
      3 with window 4 ends on no path with its state. */
  lemma {:induction false} RecursionLosesState()
    ensures Genuine(RECURSION, 4, 3, TWICE) && Indirect(TWICE) == LOST
    ensures forall p :: Completion(RECURSION, 4, 3, [], p) ==> Indirect(p) != LOST
  {
    hide Replay, Reverse, Indirect, Completion;
    TwiceReplays();
    forall k | 0 <= k < 7
      ensures |Indirect(TWICE[..k])| != 4 && TWICE[k] in Inc(RECURSION, Tip(3, TWICE[..k]))
    {
      FewerBefore(TWICE, k);
    }
    forall p | Completion(RECURSION, 4, 3, [], p)
      ensures Indirect(p) != LOST
    {
      NeverFound(p);
    }
  }
}
