/** What the static search explores: paths that run backwards from a root block, cut at direct
    cycles, at calls that mismatch a later return, at a full window, and at blocks without
    incoming edges. Search order is backwards; execution order is its reverse.
 */
module StaticPaths {
  import opened ControlFlow
  import opened CallMatching

  ghost function Reverse(p: seq<Edge>): (r: seq<Edge>) {
    if p == [] then [] else [p[|p| - 1]] + Reverse(p[..|p| - 1])
  }

  /** The edges of a path that an LBR state records. */
  ghost function Indirect(p: seq<Edge>): seq<Edge> {
    if p == [] then []
    else Indirect(p[..|p| - 1]) + if IsIndirect(p[|p| - 1]) then [p[|p| - 1]] else []
  }

  /** The edges after the last indirect one. */
  ghost function DirectSuffix(p: seq<Edge>): seq<Edge> {
    if p == [] || IsIndirect(p[|p| - 1]) then [] else DirectSuffix(p[..|p| - 1]) + [p[|p| - 1]]
  }

  /** Going on with e would close a cycle of direct edges. */
  ghost predicate ClosesDirectCycle(p: seq<Edge>, e: Edge) {
    !IsIndirect(e) && e in DirectSuffix(p)
  }

  /** `edge_is_traversable`: a call does not mismatch a return searched before it. */
  ghost predicate Traversable(g: Graph, p: seq<Edge>, e: Edge) {
    IsCall(e) ==> Scan(FallthroughOf(g, e.source), Reverse(p), 0)
  }

  ghost function Tip(root: Block, p: seq<Edge>): Block {
    if p == [] then root else p[|p| - 1].source
  }

  /** The search goes no further: the window is full, or nothing comes in. */
  ghost predicate Terminal(g: Graph, window: nat, p: seq<Edge>) {
    p != [] && (|Indirect(p)| == window || Inc(g, p[|p| - 1].source) == [])
  }

  /** The search calls itself for e; the first edge is not filtered. */
  ghost predicate Offered(g: Graph, window: nat, root: Block, p: seq<Edge>, e: Edge) {
    && !Terminal(g, window, p)
    && e in Inc(g, Tip(root, p))
    && (p != [] ==> e !in g.hidden && Traversable(g, p, e))
  }

  ghost predicate Legal(g: Graph, window: nat, root: Block, p: seq<Edge>) {
    p != [] ==>
      var u, e := p[..|p| - 1], p[|p| - 1];
      Legal(g, window, root, u) && Offered(g, window, root, u, e) && !ClosesDirectCycle(u, e)
  }

  /** p is a path the search ends on, and it starts with prefix. */
  ghost predicate Completion(g: Graph, window: nat, root: Block, prefix: seq<Edge>, p: seq<Edge>) {
    prefix <= p && Legal(g, window, root, p) && Terminal(g, window, p)
  }

  // ----- How completions unfold

  lemma {:induction false} LegalPrefix(g: Graph, window: nat, root: Block, p: seq<Edge>, k: nat)
    requires Legal(g, window, root, p) && k <= |p|
    ensures Legal(g, window, root, p[..k])
    ensures k < |p| ==> Offered(g, window, root, p[..k], p[k]) && !ClosesDirectCycle(p[..k], p[k])
    decreases |p|
  {
    if k == |p| {
      assert p[..k] == p;
    } else {
      var u := p[..|p| - 1];
      if k < |u| { LegalPrefix(g, window, root, u, k); }
      assert u[..k] == p[..k];
    }
  }

  lemma CompletionTerminal(g: Graph, window: nat, root: Block, u: seq<Edge>, p: seq<Edge>)
    requires Legal(g, window, root, u) && Terminal(g, window, u)
    ensures Completion(g, window, root, u, p) <==> p == u
  {
    if Completion(g, window, root, u, p) && p != u {
      assert p[..|u|] == u;
      LegalPrefix(g, window, root, p, |u|);
    }
  }

  lemma CompletionStep(g: Graph, window: nat, root: Block, u: seq<Edge>, p: seq<Edge>)
    requires !Terminal(g, window, u)
    ensures Completion(g, window, root, u, p) <==>
            exists i :: 0 <= i < |Inc(g, Tip(root, u))| && Completion(g, window, root, u + [Inc(g, Tip(root, u))[i]], p)
  {
    hide Legal, Indirect, ClosesDirectCycle, Traversable;
    if Completion(g, window, root, u, p) {
      assert p != u && p[..|u|] == u;
      LegalPrefix(g, window, root, p, |u|);
      var i :| 0 <= i < |Inc(g, Tip(root, u))| && Inc(g, Tip(root, u))[i] == p[|u|];
      assert Completion(g, window, root, u + [Inc(g, Tip(root, u))[i]], p);
    }
  }

  lemma CompletionNone(g: Graph, window: nat, root: Block, u: seq<Edge>, e: Edge, p: seq<Edge>)
    requires !Offered(g, window, root, u, e) || ClosesDirectCycle(u, e)
    ensures !Completion(g, window, root, u + [e], p)
  {
    if Completion(g, window, root, u + [e], p) {
      assert p[..|u|] == u && p[|u|] == e;
      LegalPrefix(g, window, root, p, |u|);
    }
  }

  // ----- What a completion is worth

  /** Consecutive edges of the path meet; it runs backwards from root. */
  ghost predicate Connected(g: Graph, root: Block, p: seq<Edge>) {
    forall i :: 0 <= i < |p| ==> p[i] in Inc(g, Tip(root, p[..i]))
  }

  lemma ConnectedPush(g: Graph, root: Block, p: seq<Edge>, e: Edge)
    ensures Connected(g, root, p + [e]) <==> Connected(g, root, p) && e in Inc(g, Tip(root, p))
  {
    var q := p + [e];
    assert q[..|p|] == p && q[|p|] == e;
    assert forall i :: 0 <= i < |p| ==> q[..i] == p[..i] && q[i] == p[i];
    if Connected(g, root, q) {
      forall i | 0 <= i < |p| ensures p[i] in Inc(g, Tip(root, p[..i])) {
        assert q[i] in Inc(g, Tip(root, q[..i]));
      }
    }
  }

  lemma {:induction false} ConnectedConcat(g: Graph, root: Block, a: seq<Edge>, b: seq<Edge>)
    ensures Connected(g, root, a + b) <==> Connected(g, root, a) && Connected(g, Tip(root, a), b)
    ensures Tip(root, a + b) == Tip(Tip(root, a), b)
    decreases |b|
  {
    hide Connected;
    if b == [] {
      assert a + b == a;
      NothingConnected(g, Tip(root, a));
    } else {
      var u, e := b[..|b| - 1], b[|b| - 1];
      assert b == u + [e] && a + b == (a + u) + [e];
      ConnectedConcat(g, root, a, u);
      ConnectedPush(g, root, a + u, e);
      ConnectedPush(g, Tip(root, a), u, e);
    }
  }

  lemma NothingConnected(g: Graph, root: Block)
    ensures Connected(g, root, [])
  {
  }

  lemma {:induction false} IndirectConcat(a: seq<Edge>, b: seq<Edge>)
    ensures Indirect(a + b) == Indirect(a) + Indirect(b)
    decreases |b|
  {
    if b == [] {
      assert a + b == a;
    } else {
      var n := |b| - 1;
      assert (a + b)[..|a + b| - 1] == a + b[..n];
      IndirectConcat(a, b[..n]);
    }
  }

  lemma {:induction false} LegalCallsPass(g: Graph, window: nat, root: Block, p: seq<Edge>)
    requires Legal(g, window, root, p)
    ensures AllCallsPass(g, Reverse(p))
    decreases |p|
  {
    if p != [] {
      var u, e := p[..|p| - 1], p[|p| - 1];
      LegalCallsPass(g, window, root, u);
      assert Reverse(p)[1..] == Reverse(u);
    }
  }

  /** A connected path of the graph, not hidden after its first edge, on which every return goes back
      to its call, and whose state fills the window, or whose first block has no incoming edge, for
      the first time at its end. */
  ghost predicate Genuine(g: Graph, window: nat, root: Block, p: seq<Edge>) {
    && Connected(g, root, p)
    && (forall i :: 1 <= i < |p| ==> p[i] !in g.hidden)
    && Replay(g, [], Reverse(p))
    && (forall i :: 1 <= i < |p| ==> |Indirect(p[..i])| != window)
    && p != [] && (|Indirect(p)| == window || Inc(g, p[|p| - 1].source) == [])
  }

  /** An edge occurs at i and again at j, with only direct edges from one to the other. */
  ghost predicate RepeatsDirectly(p: seq<Edge>, i: int, j: int) {
    0 <= i < j < |p| && p[i] == p[j] && forall k :: i <= k < j ==> !IsIndirect(p[k])
  }

  ghost predicate NoDirectRepeat(p: seq<Edge>) {
    forall i, j :: !RepeatsDirectly(p, i, j)
  }

  /** A genuine path in which no edge repeats over direct edges only. */
  ghost predicate Recordable(g: Graph, window: nat, root: Block, p: seq<Edge>) {
    Genuine(g, window, root, p) && NoDirectRepeat(p)
  }

  lemma {:induction false} DirectSuffixMeaning(p: seq<Edge>, x: Edge)
    ensures x in DirectSuffix(p) <==> exists i :: 0 <= i < |p| && p[i] == x && forall k :: i <= k < |p| ==> !IsIndirect(p[k])
    decreases |p|
  {
    if p != [] && !IsIndirect(p[|p| - 1]) {
      var u := p[..|p| - 1];
      DirectSuffixMeaning(u, x);
      if x in DirectSuffix(u) {
        var i :| 0 <= i < |u| && u[i] == x && forall k :: i <= k < |u| ==> !IsIndirect(u[k]);
        assert p[i] == x && forall k :: i <= k < |p| ==> !IsIndirect(p[k]);
      } else if x == p[|p| - 1] {
        assert p[|p| - 1] == x && forall k :: |p| - 1 <= k < |p| ==> !IsIndirect(p[k]);
      }
      if i :| 0 <= i < |u| && p[i] == x && forall k :: i <= k < |p| ==> !IsIndirect(p[k]) {
        assert u[i] == x && forall k :: i <= k < |u| ==> !IsIndirect(u[k]);
      }
    }
  }

  /** The last edge closes a direct cycle iff it repeats directly. */
  lemma ClosesMeaning(p: seq<Edge>, j: nat)
    requires j < |p|
    ensures ClosesDirectCycle(p[..j], p[j]) <==> exists i :: RepeatsDirectly(p, i, j)
  {
    var u := p[..j];
    DirectSuffixMeaning(u, p[j]);
    if ClosesDirectCycle(u, p[j]) {
      var i :| 0 <= i < |u| && u[i] == p[j] && forall k :: i <= k < |u| ==> !IsIndirect(u[k]);
      assert forall k :: i <= k < j ==> p[k] == u[k];
      assert RepeatsDirectly(p, i, j);
    }
    if i :| RepeatsDirectly(p, i, j) {
      assert u[i] == p[j] && forall k :: i <= k < |u| ==> !IsIndirect(u[k]);
    }
  }

  /** A genuine path without direct repeats that need not have ended. */
  ghost predicate Candidate(g: Graph, window: nat, root: Block, p: seq<Edge>) {
    && Connected(g, root, p) && NoDirectRepeat(p) && AllCallsPass(g, Reverse(p))
    && forall i :: 1 <= i < |p| ==> p[i] !in g.hidden && |Indirect(p[..i])| != window
  }

  lemma NoRepeatPrefix(p: seq<Edge>, n: nat)
    requires NoDirectRepeat(p) && n <= |p|
    ensures NoDirectRepeat(p[..n])
  {
    forall i, j
      ensures !RepeatsDirectly(p[..n], i, j)
    {
      assert !RepeatsDirectly(p, i, j);
    }
  }

  lemma CandidatePrefix(g: Graph, window: nat, root: Block, p: seq<Edge>)
    requires Candidate(g, window, root, p) && p != []
    ensures Candidate(g, window, root, p[..|p| - 1])
  {
    hide Indirect, Scan, Connected, NoDirectRepeat;
    var u := p[..|p| - 1];
    assert Reverse(p)[1..] == Reverse(u);
    assert p == u + [p[|p| - 1]];
    ConnectedConcat(g, root, u, [p[|p| - 1]]);
    NoRepeatPrefix(p, |p| - 1);
    assert forall i :: 0 <= i < |u| ==> u[i] == p[i] && u[..i] == p[..i];
  }

  lemma LastIsOffered(g: Graph, window: nat, root: Block, p: seq<Edge>)
    requires Candidate(g, window, root, p) && p != []
    ensures Offered(g, window, root, p[..|p| - 1], p[|p| - 1]) && !ClosesDirectCycle(p[..|p| - 1], p[|p| - 1])
  {
    hide Indirect, Scan, DirectSuffix, RepeatsDirectly;
    ClosesMeaning(p, |p| - 1);
    assert Reverse(p)[0] == p[|p| - 1] && Reverse(p)[1..] == Reverse(p[..|p| - 1]);
  }

  lemma {:induction false} CandidateIsLegal(g: Graph, window: nat, root: Block, p: seq<Edge>)
    requires Candidate(g, window, root, p)
    ensures Legal(g, window, root, p)
    decreases |p|
  {
    hide Candidate, Offered, ClosesDirectCycle;
    if p != [] {
      CandidatePrefix(g, window, root, p);
      CandidateIsLegal(g, window, root, p[..|p| - 1]);
      LastIsOffered(g, window, root, p);
    }
  }

  /** The paths the search ends on are exactly the genuine ones in which no edge repeats directly. */
  lemma {:induction false} CompletionMeaning(g: Graph, window: nat, root: Block, p: seq<Edge>)
    ensures Completion(g, window, root, [], p) <==> Recordable(g, window, root, p)
  {
    hide Reverse, Indirect, DirectSuffix, AllCallsPass, Replay, ClosesDirectCycle;
    ScanAgreesWithReplay(g, Reverse(p));
    if Completion(g, window, root, [], p) {
      forall i | 0 <= i < |p|
        ensures p[i] in Inc(g, Tip(root, p[..i]))
        ensures i >= 1 ==> p[i] !in g.hidden && |Indirect(p[..i])| != window
        ensures !ClosesDirectCycle(p[..i], p[i])
      {
        LegalPrefix(g, window, root, p, i);
      }
      LegalCallsPass(g, window, root, p);
      forall i, j
        ensures !RepeatsDirectly(p, i, j)
      {
        if RepeatsDirectly(p, i, j) { ClosesMeaning(p, j); }
      }
    }
    if Genuine(g, window, root, p) && NoDirectRepeat(p) {
      CandidateIsLegal(g, window, root, p);
    }
  }

  // ----- Termination

  ghost function AllIncoming(g: Graph): set<Edge> {
    set b, e | b in g.inc && e in g.inc[b] :: e
  }

  ghost function Elements(s: seq<Edge>): set<Edge> {
    set e | e in s
  }

  /** Direct edges since the last indirect one do not repeat, so there are finitely many. */
  lemma {:induction false} DirectSuffixBound(g: Graph, window: nat, root: Block, p: seq<Edge>)
    requires Legal(g, window, root, p) && window >= 1
    ensures |DirectSuffix(p)| == |Elements(DirectSuffix(p))| && Elements(DirectSuffix(p)) <= AllIncoming(g)
    ensures |DirectSuffix(p)| <= |AllIncoming(g)|
    ensures |Indirect(p)| <= window
    decreases |p|
  {
    if p != [] {
      var u, e := p[..|p| - 1], p[|p| - 1];
      DirectSuffixBound(g, window, root, u);
      if !IsIndirect(e) {
        assert Elements(DirectSuffix(p)) == Elements(DirectSuffix(u)) + {e};
        assert Tip(root, u) in g.inc && e in g.inc[Tip(root, u)];
      }
    }
    SubsetSize(Elements(DirectSuffix(p)), AllIncoming(g));
  }

  lemma {:induction false} SubsetSize(a: set<Edge>, b: set<Edge>)
    requires a <= b
    ensures |a| <= |b|
  {
    assert b == a + (b - a);
  }
}
