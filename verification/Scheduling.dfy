/** The bookkeeping of the static search: which paths were explored from which roots, and the
    breadth-first order in which roots are scheduled.
 */
module Scheduling {
  import opened ControlFlow
  import opened StaticPaths

  /** A path the search ended on, with its root and the window shift it was searched under. */
  datatype Visit = Visit(shift: nat, root: Block, path: seq<Edge>)

  ghost function Visits(g: Graph, window: nat, shift: nat, root: Block, prefix: seq<Edge>): iset<Visit> {
    iset v: Visit | v.shift == shift && v.root == root && Completion(g, window, root, prefix, v.path)
  }

  ghost function VisitsUpTo(g: Graph, window: nat, shift: nat, root: Block, u: seq<Edge>, i: nat): iset<Visit>
    requires i <= |Inc(g, Tip(root, u))|
    decreases i
  {
    if i == 0 then iset{}
    else VisitsUpTo(g, window, shift, root, u, i - 1) + Visits(g, window, shift, root, u + [Inc(g, Tip(root, u))[i - 1]])
  }

  lemma {:induction false} VisitsUpToMember(g: Graph, window: nat, shift: nat, root: Block, u: seq<Edge>, i: nat, v: Visit)
    requires i <= |Inc(g, Tip(root, u))|
    ensures v in VisitsUpTo(g, window, shift, root, u, i) <==>
            v.shift == shift && v.root == root &&
            exists j :: 0 <= j < i && Completion(g, window, root, u + [Inc(g, Tip(root, u))[j]], v.path)
    decreases i
  {
    hide Completion;
    if i > 0 {
      VisitsUpToMember(g, window, shift, root, u, i - 1, v);
    }
  }

  lemma VisitsTerminal(g: Graph, window: nat, shift: nat, root: Block, u: seq<Edge>)
    requires Legal(g, window, root, u) && Terminal(g, window, u)
    ensures Visits(g, window, shift, root, u) == iset{Visit(shift, root, u)}
  {
    forall v: Visit
      ensures v in Visits(g, window, shift, root, u) <==> v == Visit(shift, root, u)
    {
      CompletionTerminal(g, window, root, u, v.path);
    }
  }

  lemma VisitsNone(g: Graph, window: nat, shift: nat, root: Block, u: seq<Edge>, e: Edge)
    requires !Offered(g, window, root, u, e) || ClosesDirectCycle(u, e)
    ensures Visits(g, window, shift, root, u + [e]) == iset{}
  {
    forall v: Visit
      ensures v !in Visits(g, window, shift, root, u + [e])
    {
      CompletionNone(g, window, root, u, e, v.path);
    }
  }

  lemma VisitsStep(g: Graph, window: nat, shift: nat, root: Block, u: seq<Edge>)
    requires !Terminal(g, window, u)
    ensures Visits(g, window, shift, root, u) == VisitsUpTo(g, window, shift, root, u, |Inc(g, Tip(root, u))|)
  {
    var n := |Inc(g, Tip(root, u))|;
    forall v: Visit
      ensures v in Visits(g, window, shift, root, u) <==> v in VisitsUpTo(g, window, shift, root, u, n)
    {
      CompletionStep(g, window, root, u, v.path);
      VisitsUpToMember(g, window, shift, root, u, n, v);
    }
  }

  // ----- Scheduling

  /** Nodes scheduled under this shift can still be reached before the LBR is full. */
  predicate InReach(window: nat, shift: nat)
    requires window >= 1
  {
    1 + shift * (window - 1) < LBR_SIZE
  }

  /** The visit makes the search schedule block b. */
  ghost predicate Hops(window: nat, v: Visit, b: Block)
    requires window >= 1
  {
    && v.path != [] && |Indirect(v.path)| == window && InReach(window, v.shift)
    && v.path[|v.path| - 1].target == b
  }

  /** The scheduled blocks are the entries and the hop targets of the explored paths, each with the
      least shift it was asked for. */
  ghost predicate Accounted(window: nat, entries: set<Block>, explored: iset<Visit>, when: map<Block, nat>)
    requires window >= 1
  {
    && (forall b :: b in entries ==> b in when && when[b] == 0)
    && (forall v, b :: v in explored && Hops(window, v, b) ==> b in when && when[b] <= v.shift)
    && (forall b {:trigger Asked(window, explored, b, when[b])} :: b in when ==> (b in entries && when[b] == 0) || Asked(window, explored, b, when[b]))
  }

  ghost predicate Asked(window: nat, explored: iset<Visit>, b: Block, shift: nat)
    requires window >= 1
  {
    exists v :: v in explored && Hops(window, v, b) && v.shift == shift
  }

  /** The schedule: blocks in the order they were scheduled, each once, by ascending shift. */
  ghost predicate Ordered(order: seq<Block>, when: map<Block, nat>) {
    && (forall b :: b in order <==> b in when)
    && (forall i, j :: 0 <= i < j < |order| ==> order[i] != order[j] && when[order[i]] <= when[order[j]])
  }

  lemma OrderedPush(order: seq<Block>, when: map<Block, nat>, b: Block, shift: nat)
    requires Ordered(order, when) && b !in when
    requires forall c :: c in when ==> when[c] <= shift
    ensures Ordered(order + [b], when[b := shift])
  {
  }

  /** The next block is new, and no scheduled shift exceeds its own by more than one. */
  lemma NextInOrder(order: seq<Block>, when: map<Block, nat>, n: nat, shift: nat)
    requires Ordered(order, when) && n < |order|
    requires (forall b :: b in when ==> when[b] <= shift) && shift <= when[order[n]] + 1
    ensures order[n] in when && order[n] !in order[..n]
    ensures forall b :: b in when ==> when[b] <= when[order[n]] + 1
  {
  }

  lemma AfterInOrder(order0: seq<Block>, when0: map<Block, nat>, order: seq<Block>, when: map<Block, nat>, n: nat)
    requires Ordered(order, when) && Extends(order0, when0, order, when) && n < |order0| && order0[n] in when0
    ensures n < |order| && order[..n + 1] == order0[..n] + [order0[n]]
    ensures n + 1 < |order| ==> order[n + 1] in when && when0[order0[n]] <= when[order[n + 1]]
  {
  }

  /** Before the search, an entry is scheduled with shift zero. */
  lemma AccountedEntry(window: nat, entries: set<Block>, when: map<Block, nat>, b: Block)
    requires window >= 1 && Accounted(window, entries, iset{}, when) && forall c :: c in when ==> when[c] <= 0
    ensures Accounted(window, entries + {b}, iset{}, if b in when then when else when[b := 0])
  {
  }

  lemma AccountedVisit(window: nat, entries: set<Block>, explored: iset<Visit>, when: map<Block, nat>, v: Visit)
    requires window >= 1 && Accounted(window, entries, explored, when)
    requires forall b :: Hops(window, v, b) ==> b in when && when[b] <= v.shift
    ensures Accounted(window, entries, explored + iset{v}, when)
  {
    forall b | b in when && !(b in entries && when[b] == 0)
      ensures Asked(window, explored + iset{v}, b, when[b])
    {
      assert Asked(window, explored, b, when[b]);
      var u :| u in explored && Hops(window, u, b) && u.shift == when[b];
      assert u in explored + iset{v};
    }
  }

  lemma AccountedSchedule(window: nat, entries: set<Block>, explored: iset<Visit>, when: map<Block, nat>, v: Visit, b: Block)
    requires window >= 1 && Accounted(window, entries, explored, when)
    requires b !in when && Hops(window, v, b)
    ensures Accounted(window, entries, explored + iset{v}, when[b := v.shift])
  {
    forall c | c in when && !(c in entries && when[c] == 0)
      ensures Asked(window, explored + iset{v}, c, when[c])
    {
      assert Asked(window, explored, c, when[c]);
      var u :| u in explored && Hops(window, u, c) && u.shift == when[c];
      assert u in explored + iset{v};
    }
    assert v in explored + iset{v};
  }

  // ----- The breadth-first distance

  /** A path from r that fills the window starts at an edge into b. */
  ghost predicate Hop(g: Graph, window: nat, r: Block, b: Block) {
    exists p: seq<Edge> :: Recordable(g, window, r, p) && |Indirect(p)| == window && p != [] && p[|p| - 1].target == b
  }

  /** Block b is k hops away from an entry block. */
  ghost predicate Chain(g: Graph, window: nat, entries: set<Block>, b: Block, k: nat)
    decreases k
  {
    if k == 0 then b in entries
    else exists r :: Chain(g, window, entries, r, k - 1) && Hop(g, window, r, b)
  }

  /** So many hops still fit into the LBR. */
  ghost predicate InRange(window: nat, k: nat)
    requires window >= 1
  {
    k == 0 || 1 + k * (window - 1) < LBR_SIZE
  }

  lemma InRangeReach(window: nat, k: nat)
    requires window >= 1
    ensures InRange(window, k) <==> k == 0 || InReach(window, k)
  {
  }

  /** Everything scheduled has been searched, under its shift plus one. */
  ghost predicate Searched(g: Graph, window: nat, explored: iset<Visit>, when: map<Block, nat>) {
    forall v: Visit :: v in explored <==>
      v.root in when && v.shift == when[v.root] + 1 && Completion(g, window, v.root, [], v.path)
  }

  /** The blocks in done have been searched, and no others. */
  ghost predicate SearchedOnly(g: Graph, window: nat, explored: iset<Visit>, when: map<Block, nat>, done: seq<Block>) {
    && (forall b :: b in done ==> b in when)
    && (forall v: Visit :: v in explored <==>
         v.root in done && v.shift == when[v.root] + 1 && Completion(g, window, v.root, [], v.path))
  }

  /** A schedule grows without changing what it holds. */
  ghost predicate Extends(order: seq<Block>, when: map<Block, nat>, order': seq<Block>, when': map<Block, nat>) {
    && order <= order'
    && (forall b :: b in when ==> b in when' && when'[b] == when[b])
  }

  lemma SearchedNext(g: Graph, window: nat, explored: iset<Visit>, when: map<Block, nat>, done: seq<Block>, r: Block, when': map<Block, nat>)
    requires SearchedOnly(g, window, explored, when, done) && r in when && r !in done
    requires forall b :: b in when ==> b in when' && when'[b] == when[b]
    ensures SearchedOnly(g, window, explored + Visits(g, window, when[r] + 1, r, []), when', done + [r])
  {
  }

  ghost function Blocks(g: Graph, entries: set<Block>): set<Block> {
    entries + set e | e in AllIncoming(g) :: e.target
  }

  /** Only finitely many blocks can be scheduled. */
  lemma ScheduleBound(g: Graph, window: nat, entries: set<Block>, explored: iset<Visit>, when: map<Block, nat>, order: seq<Block>, done: seq<Block>)
    requires window >= 1 && Accounted(window, entries, explored, when)
    requires SearchedOnly(g, window, explored, when, done) && Ordered(order, when)
    ensures |order| <= |Blocks(g, entries)|
  {
    forall b | b in order
      ensures b in Blocks(g, entries)
    {
      if !(b in entries && when[b] == 0) {
        assert Asked(window, explored, b, when[b]);
        var v :| v in explored && Hops(window, v, b) && v.shift == when[b];
        LegalEdgesIncoming(g, window, v.root, v.path);
      }
    }
    DistinctFit(order, Blocks(g, entries));
  }

  lemma LegalEdgesIncoming(g: Graph, window: nat, root: Block, p: seq<Edge>)
    requires Legal(g, window, root, p) && p != []
    ensures p[|p| - 1] in AllIncoming(g)
  {
  }

  lemma {:induction false} DistinctFit(s: seq<Block>, universe: set<Block>)
    requires forall b :: b in s ==> b in universe
    requires forall i, j :: 0 <= i < j < |s| ==> s[i] != s[j]
    ensures |s| <= |universe|
    decreases |s|
  {
    if s != [] {
      var n := |s| - 1;
      assert s[n] in s;
      forall b | b in s[..n]
        ensures b in universe - {s[n]}
      {
        var i :| 0 <= i < n && s[i] == b;
      }
      DistinctFit(s[..n], universe - {s[n]});
    }
  }

  lemma InReachDown(window: nat, j: nat, k: nat)
    requires window >= 1 && j <= k && InReach(window, k)
    ensures InReach(window, j)
  {
  }

  lemma HopScheduled(g: Graph, window: nat, entries: set<Block>, explored: iset<Visit>, when: map<Block, nat>, r: Block, b: Block)
    requires window >= 1 && Accounted(window, entries, explored, when) && Searched(g, window, explored, when)
    requires r in when && Hop(g, window, r, b) && InReach(window, when[r] + 1)
    ensures b in when && when[b] <= when[r] + 1
  {
    hide Recordable, Completion, Indirect, Asked;
    var p: seq<Edge> :| Recordable(g, window, r, p) && |Indirect(p)| == window && p != [] && p[|p| - 1].target == b;
    CompletionMeaning(g, window, r, p);
    var v := Visit(when[r] + 1, r, p);
    assert v in explored && Hops(window, v, b);
  }

  lemma {:induction false} AskedByHop(g: Graph, window: nat, explored: iset<Visit>, when: map<Block, nat>, b: Block, shift: nat) returns (r: Block)
    requires window >= 1 && Searched(g, window, explored, when) && Asked(window, explored, b, shift)
    ensures r in when && when[r] + 1 == shift && Hop(g, window, r, b) && InReach(window, shift)
  {
    var v :| v in explored && Hops(window, v, b) && v.shift == shift;
    r := v.root;
    CompletionMeaning(g, window, r, v.path);
  }

  lemma Justified(window: nat, entries: set<Block>, explored: iset<Visit>, when: map<Block, nat>, b: Block)
    requires window >= 1 && Accounted(window, entries, explored, when) && b in when
    ensures (b in entries && when[b] == 0) || Asked(window, explored, b, when[b])
  {
  }

  lemma EntriesScheduled(window: nat, entries: set<Block>, explored: iset<Visit>, when: map<Block, nat>, b: Block)
    requires window >= 1 && Accounted(window, entries, explored, when) && b in entries
    ensures b in when && when[b] == 0
  {
  }

  lemma {:induction false} ChainScheduled(g: Graph, window: nat, entries: set<Block>, explored: iset<Visit>, when: map<Block, nat>, b: Block, k: nat)
    requires window >= 1 && Accounted(window, entries, explored, when) && Searched(g, window, explored, when)
    requires Chain(g, window, entries, b, k) && InRange(window, k)
    ensures b in when && when[b] <= k
    decreases k
  {
    hide Accounted, Searched, Hop, InReach, InRange;
    InRangeReach(window, k);
    if k == 0 {
      EntriesScheduled(window, entries, explored, when, b);
    } else {
      var r :| Chain(g, window, entries, r, k - 1) && Hop(g, window, r, b);
      InReachDown(window, k - 1, k);
      InRangeReach(window, k - 1);
      ChainScheduled(g, window, entries, explored, when, r, k - 1);
      InReachDown(window, when[r] + 1, k);
      HopScheduled(g, window, entries, explored, when, r, b);
    }
  }

  lemma {:induction false} ScheduledChain(g: Graph, window: nat, entries: set<Block>, explored: iset<Visit>, when: map<Block, nat>, b: Block)
    requires window >= 1 && Accounted(window, entries, explored, when) && Searched(g, window, explored, when)
    requires b in when
    ensures Chain(g, window, entries, b, when[b]) && InRange(window, when[b])
    decreases when[b]
  {
    hide Accounted, Searched, Asked, Hop, InReach, InRange;
    InRangeReach(window, when[b]);
    Justified(window, entries, explored, when, b);
    if !(b in entries && when[b] == 0) {
      var r := AskedByHop(g, window, explored, when, b, when[b]);
      ScheduledChain(g, window, entries, explored, when, r);
    }
  }

  /** Each block is scheduled with its least number of hops, and all blocks in range are. */
  lemma LeastShift(g: Graph, window: nat, entries: set<Block>, explored: iset<Visit>, when: map<Block, nat>)
    requires window >= 1 && Accounted(window, entries, explored, when) && Searched(g, window, explored, when)
    ensures forall b :: b in when <==> exists k :: InRange(window, k) && Chain(g, window, entries, b, k)
    ensures forall b :: b in when ==> InRange(window, when[b]) && Chain(g, window, entries, b, when[b])
    ensures forall b, k :: b in when && InRange(window, k) && Chain(g, window, entries, b, k) ==> when[b] <= k
  {
    forall b, k | InRange(window, k) && Chain(g, window, entries, b, k)
      ensures b in when && when[b] <= k
    {
      ChainScheduled(g, window, entries, explored, when, b, k);
    }
    forall b | b in when
      ensures InRange(window, when[b]) && Chain(g, window, entries, b, when[b])
    {
      ScheduledChain(g, window, entries, explored, when, b);
    }
  }

  // ----- Hops are walks

  lemma {:induction false} HopIsWalk(g: Graph, window: nat, r: Block, b: Block) returns (u: seq<Edge>)
    requires window >= 1 && Hop(g, window, r, b)
    requires forall c, e :: e in Inc(g, c) ==> e.target == c
    ensures Connected(g, r, u) && Tip(r, u) == b && |Indirect(u)| == window - 1
  {
    var q: seq<Edge> :| Recordable(g, window, r, q) && |Indirect(q)| == window && q != [] && q[|q| - 1].target == b;
    CompletionMeaning(g, window, r, q);
    hide Recordable, Connected, DirectSuffix;
    u := q[..|q| - 1];
    LegalPrefix(g, window, r, q, |u|);
    DirectSuffixBound(g, window, r, u);
    forall i | 0 <= i < |u|
      ensures u[i] in Inc(g, Tip(r, u[..i]))
    {
      assert u[..i] == q[..i];
      LegalPrefix(g, window, r, q, i);
    }
  }

  /** A block k hops away has a path of the graph to an entry block with exactly k * (window - 1)
      indirect edges. */
  lemma {:induction false} ChainIsWalk(g: Graph, window: nat, entries: set<Block>, b: Block, k: nat) returns (entry: Block, p: seq<Edge>)
    requires window >= 1 && Chain(g, window, entries, b, k)
    requires forall c, e :: e in Inc(g, c) ==> e.target == c
    ensures entry in entries && Connected(g, entry, p) && Tip(entry, p) == b
    ensures |Indirect(p)| == k * (window - 1)
    decreases k
  {
    hide Hop, Inc;
    if k == 0 { return b, []; }
    var r :| Chain(g, window, entries, r, k - 1) && Hop(g, window, r, b);
    var u := HopIsWalk(g, window, r, b);
    var p0;
    entry, p0 := ChainIsWalk(g, window, entries, r, k - 1);
    ConnectedConcat(g, entry, p0, u);
    IndirectConcat(p0, u);
    p := p0 + u;
    assert k * (window - 1) == (k - 1) * (window - 1) + (window - 1);
  }
}
