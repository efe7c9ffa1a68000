/** The static search itself: `search_inbound_edges` and the loop over scheduled roots in
    `get_func_lbr_states`.
 */
module StaticSearch {
  import opened ControlFlow
  import opened CallMatching
  import opened StaticPaths
  import opened Scheduling
  import opened StateSet
  import opened PathSearch

  ghost predicate Produces(explored: iset<Visit>, s: seq<Edge>) {
    exists v :: v in explored && Indirect(v.path) == s
  }

  /** The stored states are the indirect edges of the explored paths. */
  ghost predicate StoredIs(stored: set<seq<Edge>>, explored: iset<Visit>) {
    forall s :: s in stored <==> s != [] && Produces(explored, s)
  }

  lemma StoredVisit(stored: set<seq<Edge>>, explored: iset<Visit>, v: Visit)
    requires StoredIs(stored, explored)
    ensures StoredIs(stored + if Indirect(v.path) == [] then {} else {Indirect(v.path)}, explored + iset{v})
  {
  }

  lemma SuffixStep(p: seq<Edge>, i: nat, e: Edge)
    requires i < |p|
    ensures e in p[..i + 1] <==> e in p[..i] || e == p[i]
    ensures IsIndirect(p[i]) ==> DirectSuffix(p[..i + 1]) == []
    ensures !IsIndirect(p[i]) ==> (e in DirectSuffix(p[..i + 1]) <==> e in DirectSuffix(p[..i]) || e == p[i])
  {
    assert p[..i + 1] == p[..i] + [p[i]];
    assert p[..i + 1][..i] == p[..i];
  }

  lemma {:induction false} SuffixOnPath(p: seq<Edge>, e: Edge)
    requires e !in p
    ensures e !in DirectSuffix(p)
    decreases |p|
  {
    if p != [] && !IsIndirect(p[|p| - 1]) {
      SuffixOnPath(p[..|p| - 1], e);
      assert p[|p| - 1] in p;
    }
  }

  /** Going on with e fits into the window and decreases the measure of the search. */
  lemma PushLegal(g: Graph, window: nat, root: Block, p: seq<Edge>, e: Edge)
    requires window >= 1 && Legal(g, window, root, p) && Offered(g, window, root, p, e) && !ClosesDirectCycle(p, e)
    ensures Legal(g, window, root, p + [e])
    ensures IsIndirect(e) ==> |Indirect(p)| < window && |Indirect(p + [e])| == |Indirect(p)| + 1
    ensures !IsIndirect(e) ==> Indirect(p + [e]) == Indirect(p) && |DirectSuffix(p + [e])| == |DirectSuffix(p)| + 1
    ensures |Indirect(p + [e])| <= window && |DirectSuffix(p + [e])| <= |AllIncoming(g)|
  {
    assert (p + [e])[..|p|] == p;
    DirectSuffixBound(g, window, root, p);
    DirectSuffixBound(g, window, root, p + [e]);
  }

  lemma ExtendsKeeps(order: seq<Block>, when: map<Block, nat>, order': seq<Block>, when': map<Block, nat>)
    requires Extends(order, when, order', when')
    ensures forall b :: b in when ==> b in when' && when'[b] == when[b]
  {
  }

  lemma AllSearched(g: Graph, window: nat, explored: iset<Visit>, when: map<Block, nat>, order: seq<Block>)
    requires SearchedOnly(g, window, explored, when, order) && Ordered(order, when)
    ensures Searched(g, window, explored, when)
  {
  }

  lemma ExtendsItself(order: seq<Block>, when: map<Block, nat>)
    ensures Extends(order, when, order, when)
  {
  }

  /** The books of a search that has not started. */
  lemma EmptyBooks(window: nat)
    requires window >= 1
    ensures StoredIs({}, iset{}) && Ordered([], map[]) && Accounted(window, {}, iset{}, map[])
  {
  }

  ghost function EntrySet(entryPoints: seq<Block>): set<Block> {
    set b | b in entryPoints
  }

  class Search {
    const g: Graph
    const window: nat
    var edge: seq<Edge>
    var visited: map<Edge, nat>
    const lbrEdge: array<Edge>
    var len: nat
    const stateSet: LbrStateSet
    var windowShift: nat
    var queue: seq<Block>
    var when: map<Block, nat>
    ghost var entries: set<Block>
    ghost var root: Block
    ghost var order: seq<Block>
    ghost var explored: iset<Visit>

    /** The current path, its visit counts, and the LBR prefix it fills. */
    ghost predicate PathValid()
      reads this`edge, this`visited, this`len, lbrEdge
    {
      && 2 <= window <= LBR_SIZE == lbrEdge.Length
      && len == |Indirect(edge)| <= window && lbrEdge[..len] == Indirect(edge)
      && (forall x :: Count(visited, x) == multiset(edge)[x])
    }

    /** The books: stored states and schedule agree with what was explored. */
    ghost predicate BookValid()
      reads this`windowShift, this`queue, this`when, this`order, this`entries, this`explored, stateSet
    {
      && 2 <= window <= LBR_SIZE
      && stateSet.Valid() && stateSet.Distinct() && StoredIs(stateSet.Stored(), explored)
      && Ordered(order, when) && (forall b :: b in when ==> when[b] <= windowShift)
      && |queue| <= |order| && queue == order[|order| - |queue|..]
      && Accounted(window, entries, explored, when)
    }

    constructor (g: Graph, window: nat)
      requires 2 <= window <= LBR_SIZE
      ensures this.g == g && this.window == window && windowShift == 0
      ensures PathValid() && BookValid() && fresh(lbrEdge) && fresh(stateSet)
      ensures edge == [] && queue == order == [] && when == map[] && entries == {} && explored == iset{}
    {
      hide Accounted, Ordered, StoredIs;
      EmptyBooks(window);
      this.g, this.window := g, window;
      edge, visited, len := [], map[], 0;
      lbrEdge := new Edge[LBR_SIZE](_ => Edge(0, 0, 0, NoEdge));
      stateSet := new LbrStateSet();
      windowShift, queue, when := 0, [], map[];
      entries, root, order, explored := {}, 0, [], iset{};
    }

    // ----- Tests on the current path

    /** `edge_is_traversable`: the loop over the path with its level counter. */
    method EdgeIsTraversable(e: Edge) returns (r: bool)
      ensures r <==> Traversable(g, edge, e)
    {
      if !IsCall(e) { return true; }
      var ft := FallthroughOf(g, e.source);
      var level := 0;
      var i := |edge|;
      assert edge[..i] == edge;
      while i > 0
        invariant 0 <= i <= |edge| && level >= 0
        invariant Scan(ft, Reverse(edge), 0) == Scan(ft, Reverse(edge[..i]), level)
      {
        var f := edge[i - 1];
        assert edge[..i][..i - 1] == edge[..i - 1];
        assert Reverse(edge[..i])[1..] == Reverse(edge[..i - 1]);
        if IsCall(f) {
          level := level + 1;
        } else if IsReturn(f) {
          if level == 0 { return ft == Some(f.target); }
          level := level - 1;
        }
        i := i - 1;
      }
      return true;
    }

    /** `is_direct_cycle`: a visited edge lies on the path, so the scan stops inside it. */
    method IsDirectCycle(e: Edge) returns (r: bool)
      requires e in edge
      ensures r <==> ClosesDirectCycle(edge, e)
    {
      if IsIndirect(e) { return false; }
      var i := |edge| - 1;
      assert edge[..i + 1] == edge;
      while true
        invariant 0 <= i < |edge| && e in edge[..i + 1]
        invariant e in DirectSuffix(edge) <==> e in DirectSuffix(edge[..i + 1])
        decreases i
      {
        var f := edge[i];
        SuffixStep(edge, i, e);
        if IsIndirect(f) { return false; }
        if f == e { return true; }
        i := i - 1;
      }
    }

    /** Only an edge visited before can close a cycle. */
    method ClosesCycle(e: Edge) returns (r: bool)
      requires PathValid()
      ensures r <==> ClosesDirectCycle(edge, e)
    {
      r := false;
      if Count(visited, e) > 0 {
        r := IsDirectCycle(e);
      } else {
        SuffixOnPath(edge, e);
      }
    }

    /** The window is full, or nothing comes in. */
    method AtEnd() returns (r: bool)
      requires PathValid() && edge != []
      ensures r <==> Terminal(g, window, edge)
      ensures r <==> |Indirect(edge)| == window || Inc(g, edge[|edge| - 1].source) == []
    {
      r := len == window || |Inc(g, edge[|edge| - 1].source)| == 0;
    }

    method Push(e: Edge)
      requires PathValid() && (IsIndirect(e) ==> |Indirect(edge)| < window)
      modifies this`edge, this`visited, this`len, lbrEdge
      ensures PathValid() && edge == old(edge) + [e]
    {
      if IsIndirect(e) {
        lbrEdge[len] := e;
        len := len + 1;
      }
      visited := visited[e := Count(visited, e) + 1];
      edge := edge + [e];
      assert edge[..|edge| - 1] == old(edge);
      assert lbrEdge[..old(len)] == old(lbrEdge[..len]);
    }

    method Pop(ghost path: seq<Edge>, e: Edge)
      requires PathValid() && edge == path + [e]
      modifies this`edge, this`visited, this`len
      ensures PathValid() && edge == path
    {
      ghost var before := visited;
      edge := edge[..|edge| - 1];
      visited := visited[e := Count(visited, e) - 1];
      assert edge == path && multiset(path + [e]) == multiset(path) + multiset{e};
      forall x ensures Count(visited, x) == multiset(path)[x] {
        assert Count(before, x) == multiset(path + [e])[x];
      }
      if IsIndirect(e) { len := len - 1; }
    }

    // ----- The books

    method ScheduleNode(b: Block)
      requires Ordered(order, when) && |queue| <= |order| && queue == order[|order| - |queue|..]
      requires forall c :: c in when ==> when[c] <= windowShift
      modifies this`queue, this`when, this`order
      ensures when == if b in old(when) then old(when) else old(when)[b := windowShift]
      ensures Ordered(order, when) && |queue| <= |order| && queue == order[|order| - |queue|..]
      ensures Extends(old(order), old(when), order, when) && |order| - |queue| == old(|order| - |queue|)
    {
      if b !in when {
        OrderedPush(order, when, b, windowShift);
        queue := queue + [b];
        when := when[b := windowShift];
        order := order + [b];
      }
    }

    /** The last edge of a full window starts the next root, if that is still in reach. */
    method ScheduleNext(ghost v: Visit)
      requires PathValid() && BookValid() && Terminal(g, window, edge) && v == Visit(windowShift, root, edge)
      modifies this`queue, this`when, this`order
      ensures Accounted(window, entries, explored + iset{v}, when)
      ensures Ordered(order, when) && |queue| <= |order| && queue == order[|order| - |queue|..]
      ensures forall b :: b in when ==> when[b] <= windowShift
      ensures Extends(old(order), old(when), order, when) && |order| - |queue| == old(|order| - |queue|)
    {
      hide Ordered, StoredIs;
      if len == window && InReach(window, windowShift) {
        var b := edge[|edge| - 1].target;
        if b in when {
          AccountedVisit(window, entries, explored, when, v);
        } else {
          AccountedSchedule(window, entries, explored, when, v, b);
        }
        ScheduleNode(b);
      } else {
        AccountedVisit(window, entries, explored, when, v);
      }
    }

    /** The search ends on the current path: schedule the next root and store the state. */
    method Finish()
      requires PathValid() && BookValid() && Terminal(g, window, edge)
      modifies this`queue, this`when, this`order, this`explored, stateSet
      ensures BookValid()
      ensures explored == old(explored) + iset{Visit(windowShift, root, edge)}
      ensures Extends(old(order), old(when), order, when) && |order| - |queue| == old(|order| - |queue|)
    {
      hide Accounted, Ordered, Extends;
      ghost var v := Visit(windowShift, root, edge);
      ScheduleNext(v);
      StoredVisit(stateSet.Stored(), explored, v);
      stateSet.Store(lbrEdge[..len]);
      explored := explored + iset{v};
    }

    // ----- The search

    /** `search_inbound_edges`: afterwards the search has ended on exactly the paths that complete
        the current path followed by e, and path and counts are as before. */
    method SearchInboundEdges(e: Edge)
      requires PathValid() && BookValid() && window >= 1
      requires Legal(g, window, root, edge) && Offered(g, window, root, edge, e)
      modifies this`edge, this`visited, this`len, this`queue, this`when, this`order, this`explored, lbrEdge, stateSet
      ensures PathValid() && BookValid() && edge == old(edge)
      ensures explored == old(explored) + Visits(g, window, windowShift, root, edge + [e])
      ensures Extends(old(order), old(when), order, when) && |order| - |queue| == old(|order| - |queue|)
      decreases window - |Indirect(edge)|, |AllIncoming(g)| - |DirectSuffix(edge)|, 1
    {
      hide PathValid, BookValid, Visits, Offered, Legal, Terminal, Extends, Indirect, DirectSuffix;
      ghost var path := edge;
      ExtendsItself(order, when);
      var cyclic := ClosesCycle(e);
      if cyclic {
        VisitsNone(g, window, windowShift, root, path, e);
        return;
      }
      PushLegal(g, window, root, path, e);
      Push(e);
      var atEnd := AtEnd();
      if atEnd {
        VisitsTerminal(g, window, windowShift, root, edge);
        Finish();
      } else {
        SearchAll();
      }
      Pop(path, e);
    }

    /** The loop over the incoming edges of the current block. */
    method SearchAll()
      requires PathValid() && BookValid()
      requires Legal(g, window, root, edge) && !Terminal(g, window, edge) && edge != []
      modifies this`edge, this`visited, this`len, this`queue, this`when, this`order, this`explored, lbrEdge, stateSet
      ensures PathValid() && BookValid() && edge == old(edge)
      ensures explored == old(explored) + Visits(g, window, windowShift, root, edge)
      ensures Extends(old(order), old(when), order, when) && |order| - |queue| == old(|order| - |queue|)
      decreases window - |Indirect(edge)|, |AllIncoming(g)| - |DirectSuffix(edge)|, 2
    {
      hide BookValid, Visits;
      var inc := Inc(g, edge[|edge| - 1].source);
      var i := 0;
      while i < |inc|
        invariant 0 <= i <= |inc|
        invariant PathValid() && BookValid() && edge == old(edge)
        invariant explored == old(explored) + VisitsUpTo(g, window, windowShift, root, edge, i)
        invariant Extends(old(order), old(when), order, when) && |order| - |queue| == old(|order| - |queue|)
      {
        var f := inc[i];
        var traversable := EdgeIsTraversable(f);
        if f in g.hidden || !traversable {
          VisitsNone(g, window, windowShift, root, edge, f);
        } else {
          SearchInboundEdges(f);
        }
        i := i + 1;
      }
      VisitsStep(g, window, windowShift, root, edge);
    }

    /** Schedule an entry point of the function. */
    method ScheduleEntry(b: Block)
      requires BookValid() && explored == iset{} && windowShift == 0
      modifies this`queue, this`when, this`order, this`entries
      ensures BookValid() && entries == old(entries) + {b}
      ensures |order| - |queue| == old(|order| - |queue|)
    {
      hide Accounted, Ordered, StoredIs, Extends, StateSet.Indexed;
      AccountedEntry(window, entries, when, b);
      ScheduleNode(b);
      entries := entries + {b};
    }

    method ScheduleEntries(entryPoints: seq<Block>)
      requires BookValid() && explored == iset{} && windowShift == 0 && entries == {} && queue == order
      modifies this`queue, this`when, this`order, this`entries
      ensures RunValid() && entries == EntrySet(entryPoints) && queue == order
    {
      hide Accounted, Ordered, StoredIs, StateSet.Indexed;
      var i := 0;
      while i < |entryPoints|
        invariant 0 <= i <= |entryPoints| && BookValid() && queue == order
        invariant entries == EntrySet(entryPoints[..i])
      {
        ScheduleEntry(entryPoints[i]);
        assert entryPoints[..i + 1] == entryPoints[..i] + [entryPoints[i]];
        i := i + 1;
      }
      assert entryPoints[..i] == entryPoints;
      NothingSearched(g, window, when, order);
    }

    /** All incoming edges of a root. */
    method SearchRoot(bb: Block)
      requires PathValid() && BookValid() && edge == [] && root == bb && window >= 1
      modifies this`edge, this`visited, this`len, this`queue, this`when, this`order, this`explored, lbrEdge, stateSet
      ensures PathValid() && BookValid() && edge == []
      ensures explored == old(explored) + Visits(g, window, windowShift, bb, [])
      ensures Extends(old(order), old(when), order, when) && |order| - |queue| == old(|order| - |queue|)
    {
      hide PathValid, BookValid, Visits;
      var inc := Inc(g, bb);
      var i := 0;
      while i < |inc|
        invariant 0 <= i <= |inc|
        invariant PathValid() && BookValid() && edge == []
        invariant explored == old(explored) + VisitsUpTo(g, window, windowShift, bb, [], i)
        invariant Extends(old(order), old(when), order, when) && |order| - |queue| == old(|order| - |queue|)
      {
        SearchInboundEdges(inc[i]);
        i := i + 1;
      }
      VisitsStep(g, window, windowShift, bb, []);
    }

    /** The blocks before the queue are searched; the shift is that of the last of them plus one. */
    ghost predicate RunValid()
      reads this, stateSet
    {
      && BookValid()
      && SearchedOnly(g, window, explored, when, order[..|order| - |queue|])
      && (queue != [] ==> order[|order| - |queue|] in when && windowShift <= when[order[|order| - |queue|]] + 1)
    }

    /** Take the next root off the queue. */
    method NextNode() returns (bb: Block)
      requires RunValid() && queue != []
      modifies this`queue, this`windowShift, this`root
      ensures BookValid() && |queue| == |old(queue)| - 1
      ensures bb == root == order[old(|order| - |queue|)] && bb in when && windowShift == when[bb] + 1
      ensures bb !in order[..old(|order| - |queue|)]
      ensures SearchedOnly(g, window, explored, when, order[..old(|order| - |queue|)])
    {
      hide Accounted, StoredIs, SearchedOnly, Ordered;
      NextInOrder(order, when, |order| - |queue|, windowShift);
      bb := queue[0];
      queue := queue[1..];
      windowShift := when[bb] + 1;
      root := bb;
    }

    /** Search one scheduled root. */
    method SearchNext()
      requires PathValid() && RunValid() && edge == [] && queue != []
      modifies this, lbrEdge, stateSet
      ensures PathValid() && RunValid() && edge == [] && entries == old(entries)
      ensures |order| - |queue| == old(|order| - |queue|) + 1
    {
      hide Accounted, StoredIs, SearchedOnly, PathValid, Visits, Ordered, Extends, StateSet.Indexed;
      ghost var n := |order| - |queue|;
      ghost var when0, order0, explored0 := when, order, explored;
      var bb := NextNode();
      SearchRoot(bb);
      AfterInOrder(order0, when0, order, when, n);
      ExtendsKeeps(order0, when0, order, when);
      SearchedNext(g, window, explored0, when0, order0[..n], bb, when);
    }

    /** The loop over scheduled roots: every scheduled block is searched once, by ascending shift. */
    method Run()
      requires PathValid() && RunValid() && edge == [] && queue == order
      modifies this, lbrEdge, stateSet
      ensures BookValid() && Searched(g, window, explored, when) && entries == old(entries)
    {
      hide Accounted, StoredIs, SearchedOnly, Searched, Ordered, PathValid, StateSet.Indexed;
      while queue != []
        invariant PathValid() && RunValid() && edge == [] && entries == old(entries)
        decreases |Blocks(g, entries)| - (|order| - |queue|)
      {
        ScheduleBound(g, window, entries, explored, when, order, order[..|order| - |queue|]);
        SearchNext();
      }
      assert order[..|order|] == order;
      AllSearched(g, window, explored, when, order);
    }

    /** What the books say at the end of a run. */
    lemma BooksResult()
      requires BookValid() && Searched(g, window, explored, when)
      ensures stateSet.Valid() && stateSet.Distinct() && window >= 1
      ensures forall s :: s in stateSet.Stored() <==> s != [] && Recorded(g, window, entries, s)
    {
      hide Accounted, Searched, Recorded;
      forall s
        ensures s in stateSet.Stored() <==> s != [] && Recorded(g, window, entries, s)
      {
        RecordedIsProduced(g, window, entries, explored, when, s);
      }
    }
  }

  // ----- The states of a library function

  /** A block some number of hops from an entry, as many as fit into the LBR. */
  ghost predicate IsRoot(g: Graph, window: nat, entries: set<Block>, r: Block)
    requires window >= 1
  {
    exists k :: InRange(window, k) && Chain(g, window, entries, r, k)
  }

  /** The state is what some recordable path from some root records. */
  ghost predicate Recorded(g: Graph, window: nat, entries: set<Block>, s: seq<Edge>)
    requires window >= 1
  {
    exists r, p :: IsRoot(g, window, entries, r) && Recordable(g, window, r, p) && Indirect(p) == s
  }

  lemma RecordedIsProduced(g: Graph, window: nat, entries: set<Block>, explored: iset<Visit>, when: map<Block, nat>, s: seq<Edge>)
    requires window >= 1 && Accounted(window, entries, explored, when) && Searched(g, window, explored, when)
    ensures Produces(explored, s) <==> Recorded(g, window, entries, s)
  {
    hide Accounted, Completion, Recordable;
    LeastShift(g, window, entries, explored, when);
    if Produces(explored, s) {
      var v :| v in explored && Indirect(v.path) == s;
      assert IsRoot(g, window, entries, v.root);
      CompletionMeaning(g, window, v.root, v.path);
    }
    if Recorded(g, window, entries, s) {
      var r, p :| IsRoot(g, window, entries, r) && Recordable(g, window, r, p) && Indirect(p) == s;
      CompletionMeaning(g, window, r, p);
      assert Visit(when[r] + 1, r, p) in explored;
    }
  }

  /** `get_func_lbr_states` for a library function with these entry points: the states found are
      exactly the non-empty ones recorded by some path from some root, each once. */
  method GetFuncLbrStates(g: Graph, window: nat, entryPoints: seq<Block>) returns (states: seq<seq<Edge>>)
    requires 2 <= window <= LBR_SIZE
    ensures forall i, j :: 0 <= i < j < |states| ==> states[i] != states[j]
    ensures forall s :: s in states <==> s != [] && Recorded(g, window, EntrySet(entryPoints), s)
  {
    hide Searched, Recorded, EntrySet, Search.PathValid, Search.RunValid, Search.BookValid;
    var dfs := new Search(g, window);
    dfs.ScheduleEntries(entryPoints);
    dfs.Run();
    dfs.BooksResult();
    states := dfs.stateSet.ToSequence();
  }

  lemma NothingSearched(g: Graph, window: nat, when: map<Block, nat>, order: seq<Block>)
    requires Ordered(order, when)
    ensures SearchedOnly(g, window, iset{}, when, order[..0])
    ensures order != [] ==> order[0] in when
  {
  }
}
