/** `LBRStateSet`: a vector of LBR states with a secondary index by the id of the last edge. */
module StateSet {
  import opened ControlFlow

  type Hash = seq<nat>

  // ----- LBRHash::compare

  /** Lexicographic comparison of two digests of the same length, from byte i on. */
  function Compare(a: Hash, b: Hash, i: nat): int
    requires |a| == |b| && i <= |a|
    decreases |a| - i
  {
    if i == |a| then 0
    else if a[i] < b[i] then -1
    else if a[i] > b[i] then 1
    else Compare(a, b, i + 1)
  }

  lemma {:induction false} CompareOrder(a: Hash, b: Hash, i: nat)
    requires |a| == |b| && i <= |a|
    ensures Compare(a, b, i) == -Compare(b, a, i)
    ensures Compare(a, b, i) == 0 <==> a[i..] == b[i..]
    decreases |a| - i
  {
    if i < |a| {
      CompareOrder(a, b, i + 1);
      assert a[i..] == [a[i]] + a[i + 1..] && b[i..] == [b[i]] + b[i + 1..];
    }
  }

  /** The first difference from i on is at k, where a is smaller. */
  ghost predicate LessAt(a: Hash, b: Hash, i: nat, k: int)
    requires |a| == |b|
  {
    i <= k < |a| && a[i..k] == b[i..k] && a[k] < b[k]
  }

  lemma LessAtNext(a: Hash, b: Hash, i: nat, k: int)
    requires |a| == |b| && i < k
    ensures LessAt(a, b, i, k) <==> LessAt(a, b, i + 1, k) && a[i] == b[i]
  {
    if k < |a| {
      assert a[i..k] == [a[i]] + a[i + 1..k] && b[i..k] == [b[i]] + b[i + 1..k];
    }
  }

  /** Comparison is lexicographic: negative iff the first difference makes a smaller. */
  lemma {:induction false} CompareMeaning(a: Hash, b: Hash, i: nat)
    requires |a| == |b| && i <= |a|
    ensures Compare(a, b, i) < 0 <==> exists k :: LessAt(a, b, i, k)
    decreases |a| - i
  {
    if i == |a| { return; }
    CompareMeaning(a, b, i + 1);
    if a[i] < b[i] {
      assert LessAt(a, b, i, i);
    } else if Compare(a, b, i) < 0 {
      var k :| LessAt(a, b, i + 1, k);
      LessAtNext(a, b, i, k);
    }
    forall k | LessAt(a, b, i, k)
      ensures Compare(a, b, i) < 0
    {
      if k > i { LessAtNext(a, b, i, k); }
    }
  }

  lemma {:induction false} CompareTrans(a: Hash, b: Hash, c: Hash, i: nat)
    requires |a| == |b| == |c| && i <= |a|
    requires Compare(a, b, i) <= 0 && Compare(b, c, i) <= 0
    ensures Compare(a, c, i) <= 0
    decreases |a| - i
  {
    if i < |a| && a[i] == b[i] == c[i] {
      CompareTrans(a, b, c, i + 1);
    }
  }

  // ----- The state set

  class LbrState {
    const edges: seq<Edge>

    constructor (edges: seq<Edge>)
      ensures this.edges == edges
    {
      this.edges := edges;
    }
  }

  function LastId(edges: seq<Edge>): nat
    requires edges != []
  {
    edges[|edges| - 1].id
  }

  ghost predicate NoDup<T>(s: seq<T>) {
    forall i, j :: 0 <= i < j < |s| ==> s[i] != s[j]
  }

  /** Overwrite the entry at i by the last one and drop the last one. */
  function SwapRemove<T>(s: seq<T>, i: nat): seq<T>
    requires i < |s|
  {
    s[i := s[|s| - 1]][..|s| - 1]
  }

  lemma SwapRemoveDrops<T>(s: seq<T>, i: nat)
    requires i < |s| && NoDup(s)
    ensures NoDup(SwapRemove(s, i))
    ensures forall x :: x in SwapRemove(s, i) <==> x in s && x != s[i]
    ensures |SwapRemove(s, i)| == |s| - 1
    ensures forall k :: 0 <= k < |s| - 1 ==> SwapRemove(s, i)[k] == if k == i then s[|s| - 1] else s[k]
  {
    var r := SwapRemove(s, i);
    forall x | x in s && x != s[i] ensures x in r {
      var k :| 0 <= k < |s| && s[k] == x;
      assert if k == |s| - 1 then r[i] == x else r[k] == x;
    }
  }

  function Candidates(byLast: map<nat, seq<LbrState>>, id: nat): seq<LbrState> {
    if id in byLast then byLast[id] else []
  }

  /** The index holds exactly the vector's states, each once, under its last edge. */
  ghost predicate Indexed(state: seq<LbrState>, byLast: map<nat, seq<LbrState>>) {
    && NoDup(state)
    && (forall t :: t in state ==> t.edges != [] && t in Candidates(byLast, LastId(t.edges)))
    && (forall id, t :: t in Candidates(byLast, id) ==> t in state && LastId(t.edges) == id)
    && (forall id :: NoDup(Candidates(byLast, id)))
  }

  lemma IndexedAppend(state: seq<LbrState>, byLast: map<nat, seq<LbrState>>, t: LbrState)
    requires Indexed(state, byLast) && t !in state && t.edges != []
    ensures Indexed(state + [t], byLast[LastId(t.edges) := Candidates(byLast, LastId(t.edges)) + [t]])
  {
    var key := LastId(t.edges);
    var after := byLast[key := Candidates(byLast, key) + [t]];
    forall id
      ensures NoDup(Candidates(after, id))
      ensures forall u :: u in Candidates(after, id) ==> u in state + [t] && LastId(u.edges) == id
    {
      assert NoDup(Candidates(byLast, id));
      assert id != key ==> Candidates(after, id) == Candidates(byLast, id);
    }
  }

  lemma IndexedRemove(state: seq<LbrState>, byLast: map<nat, seq<LbrState>>, i: nat, j: nat)
    requires Indexed(state, byLast) && i < |state|
    requires j < |Candidates(byLast, LastId(state[i].edges))| && Candidates(byLast, LastId(state[i].edges))[j] == state[i]
    ensures Indexed(SwapRemove(state, i), byLast[LastId(state[i].edges) := SwapRemove(Candidates(byLast, LastId(state[i].edges)), j)])
  {
    var key := LastId(state[i].edges);
    var after := byLast[key := SwapRemove(Candidates(byLast, key), j)];
    SwapRemoveDrops(state, i);
    SwapRemoveDrops(Candidates(byLast, key), j);
    forall id
      ensures NoDup(Candidates(after, id))
      ensures forall u :: u in Candidates(after, id) ==> u in SwapRemove(state, i) && LastId(u.edges) == id
    {
      assert NoDup(Candidates(byLast, id));
      assert id != key ==> Candidates(after, id) == Candidates(byLast, id);
    }
  }

  // ----- The order of sort_by_hash

  /** Digests have a fixed length. */
  ghost predicate SameLength(hash: seq<Edge> -> Hash) {
    forall s, t :: |hash(s)| == |hash(t)|
  }

  ghost predicate Leq(hash: seq<Edge> -> Hash, s: LbrState, t: LbrState)
    requires SameLength(hash)
  {
    Compare(hash(s.edges), hash(t.edges), 0) <= 0
  }

  ghost predicate LeqAll(hash: seq<Edge> -> Hash, s: LbrState, v: seq<LbrState>)
    requires SameLength(hash)
  {
    forall t :: t in v ==> Leq(hash, s, t)
  }

  lemma BubbleStep(hash: seq<Edge> -> Hash, v: seq<LbrState>, i: nat, j: nat)
    requires SameLength(hash) && i < j < |v| && LeqAll(hash, v[j], v[j..])
    ensures var v' := if Compare(hash(v[j - 1].edges), hash(v[j].edges), 0) > 0 then v[j - 1 := v[j]][j := v[j - 1]] else v;
            v'[..i] == v[..i] && multiset(v'[i..]) == multiset(v[i..]) && LeqAll(hash, v'[j - 1], v'[j - 1..])
  {
    hide Compare;
    var sl, sr := v[j - 1], v[j];
    CompareOrder(hash(sl.edges), hash(sr.edges), 0);
    CompareOrder(hash(sl.edges), hash(sl.edges), 0);
    CompareOrder(hash(sr.edges), hash(sr.edges), 0);
    assert v[i..] == v[i..j - 1] + [sl, sr] + v[j + 1..];
    assert v[j..] == [sr] + v[j + 1..];
    if Compare(hash(sl.edges), hash(sr.edges), 0) > 0 {
      var v' := v[j - 1 := sr][j := sl];
      assert v'[i..] == v[i..j - 1] + [sr, sl] + v[j + 1..];
      assert v'[j - 1..] == [sr, sl] + v[j + 1..];
    } else {
      assert v[j - 1..] == [sl] + v[j..];
      LeqAllTrans(hash, sl, sr, v[j..]);
    }
  }

  lemma LeqAllTrans(hash: seq<Edge> -> Hash, s: LbrState, t: LbrState, v: seq<LbrState>)
    requires SameLength(hash) && Leq(hash, s, t) && LeqAll(hash, t, v)
    ensures LeqAll(hash, s, v)
  {
    forall x | x in v ensures Leq(hash, s, x) {
      CompareTrans(hash(s.edges), hash(t.edges), hash(x.edges), 0);
    }
  }

  class LbrStateSet {
    var state: seq<LbrState>
    var byLast: map<nat, seq<LbrState>>

    ghost predicate Valid()
      reads this
    {
      Indexed(state, byLast)
    }

    ghost function Stored(): set<seq<Edge>>
      reads this
    {
      set t | t in state :: t.edges
    }

    /** No two states hold the same edges. */
    ghost predicate Distinct()
      reads this
    {
      forall s, t :: s in state && t in state && s.edges == t.edges ==> s == t
    }

    constructor ()
      ensures Valid() && Distinct() && state == [] && Stored() == {}
    {
      state, byLast := [], map[];
    }

    method AppendState(edges: seq<Edge>)
      requires Valid() && edges != []
      modifies this
      ensures Valid() && |state| == |old(state)| + 1 && state[..|old(state)|] == old(state)
      ensures fresh(state[|old(state)|]) && state[|old(state)|].edges == edges
    {
      var t := new LbrState(edges);
      var id := LastId(edges);
      IndexedAppend(state, byLast, t);
      byLast := byLast[id := Candidates(byLast, id) + [t]];
      state := state + [t];
    }

    /** Deleting in range drops one state, the last one taking its place, from vector and index. */
    method DeleteState(i: nat)
      requires Valid() && i != |state|
      modifies this
      ensures Valid()
      ensures state == if i < |old(state)| then SwapRemove(old(state), i) else old(state)
    {
      if i > |state| { return; }
      var s := state[i];
      var id := LastId(s.edges);
      var v := Candidates(byLast, id);
      var j := 0;
      while v[j] != s
        invariant 0 <= j < |v| && s !in v[..j]
        decreases |v| - j
      {
        assert v[..j + 1] == v[..j] + [v[j]];
        assert v == v[..j + 1] + v[j + 1..];
        j := j + 1;
      }
      IndexedRemove(state, byLast, i, j);
      byLast := byLast[id := SwapRemove(v, j)];
      state := SwapRemove(state, i);
    }

    /** The indexed lookup finds a state with these edges iff the vector holds one. */
    method FindState(edges: seq<Edge>) returns (r: LbrState?)
      requires Valid() && edges != []
      ensures r != null ==> r in state && r.edges == edges
      ensures r == null ==> forall t :: t in state ==> t.edges != edges
    {
      var v := Candidates(byLast, LastId(edges));
      var i := 0;
      while i < |v|
        invariant 0 <= i <= |v|
        invariant forall k :: 0 <= k < i ==> v[k].edges != edges
      {
        if v[i].edges == edges { return v[i]; }
        i := i + 1;
      }
      return null;
    }

    /** `store_lbr_state`: new states are added, known and empty ones are ignored. */
    method Store(edges: seq<Edge>)
      requires Valid() && Distinct()
      modifies this
      ensures Valid() && Distinct()
      ensures Stored() == old(Stored()) + if edges == [] then {} else {edges}
    {
      if edges == [] { return; }
      var known := FindState(edges);
      if known != null { return; }
      ghost var before := state;
      AppendState(edges);
      assert state == before + [state[|before|]];
    }

    /** The edges of the stored states, in vector order. */
    method ToSequence() returns (r: seq<seq<Edge>>)
      requires Valid() && Distinct()
      ensures forall i, j :: 0 <= i < j < |r| ==> r[i] != r[j]
      ensures forall s :: s in r <==> s in Stored()
    {
      r := [];
      for i := 0 to |state|
        invariant |r| == i && forall k :: 0 <= k < i ==> r[k] == state[k].edges
      {
        r := r + [state[i].edges];
      }
      forall i, j | 0 <= i < j < |r|
        ensures r[i] != r[j]
      {
        assert state[i] != state[j];
      }
    }

    /** One round of the bubble sort: the least of the tail bubbles down to i. */
    method BubbleDown(hash: seq<Edge> -> Hash, i: nat)
      requires SameLength(hash) && i < |state|
      modifies this`state
      ensures |state| == |old(state)| && state[..i] == old(state)[..i]
      ensures multiset(state[i..]) == multiset(old(state)[i..])
      ensures LeqAll(hash, state[i], state[i..])
    {
      var j := |state| - 1;
      CompareOrder(hash(state[j].edges), hash(state[j].edges), 0);
      while j > i
        invariant i <= j < |state| == |old(state)| && state[..i] == old(state)[..i]
        invariant multiset(state[i..]) == multiset(old(state)[i..])
        invariant LeqAll(hash, state[j], state[j..])
        decreases j
      {
        var sl, sr := state[j - 1], state[j];
        BubbleStep(hash, state, i, j);
        if Compare(hash(sl.edges), hash(sr.edges), 0) > 0 {
          state := state[j - 1 := sr][j := sl];
        }
        j := j - 1;
      }
    }

    /** `sort_by_hash` permutes the vector into ascending digest order. */
    method SortByHash(hash: seq<Edge> -> Hash)
      requires SameLength(hash)
      modifies this`state
      ensures multiset(state) == multiset(old(state))
      ensures forall k :: 0 <= k < |state| ==> LeqAll(hash, state[k], state[k..])
      ensures forall k, l :: 0 <= k < l < |state| ==> Compare(hash(state[k].edges), hash(state[l].edges), 0) <= 0
    {
      var i := 0;
      while i < |state|
        invariant 0 <= i <= |state|
        invariant multiset(state) == multiset(old(state))
        invariant forall k :: 0 <= k < i ==> LeqAll(hash, state[k], state[k..])
      {
        ghost var before := state;
        BubbleDown(hash, i);
        assert before == before[..i] + before[i..] && state == state[..i] + state[i..];
        forall k | 0 <= k < i ensures LeqAll(hash, state[k], state[k..]) {
          assert before[k..] == before[k..i] + before[i..];
          assert state[k..] == before[k..i] + state[i..];
          assert multiset(before[k..]) == multiset(state[k..]);
          forall t | t in state[k..] ensures Leq(hash, state[k], t) {
            assert t in multiset(before[k..]);
          }
        }
        i := i + 1;
      }
      forall k, l | 0 <= k < l < |state|
        ensures Compare(hash(state[k].edges), hash(state[l].edges), 0) <= 0
      {
        assert LeqAll(hash, state[k], state[k..]) && state[k..][l - k] in state[k..];
      }
    }
  }
}
