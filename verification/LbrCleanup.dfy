/** `remove_lib_enter_edges`: the in-place removal of all LBR entries with a given target from a
    circular buffer, with a second pass over an unrolled copy when the first hits the wrap.
 */
module LbrCleanup {
  import opened ControlFlow
  import opened Lbr

  // ----- What cleaning means

  ghost function Keep(v: seq<Entry>, target: nat): (r: seq<Entry>)
    ensures |r| <= |v|
  {
    if v == [] then []
    else Keep(v[..|v| - 1], target) + if v[|v| - 1].to == target then [] else [v[|v| - 1]]
  }

  ghost function Padding(n: nat): (r: seq<Entry>)
    ensures |r| == n && forall i :: 0 <= i < n ==> r[i] == EMPTY
  {
    seq(n, _ => EMPTY)
  }

  /** Empty entries, then the entries that stay, in order. */
  ghost function Clean(v: seq<Entry>, target: nat): seq<Entry> {
    Padding(|v| - |Keep(v, target)|) + Keep(v, target)
  }

  lemma CleanNext(v: seq<Entry>, x: Entry, target: nat)
    ensures Clean(v + [x], target) == if x.to == target then [EMPTY] + Clean(v, target) else Clean(v, target) + [x]
  {
  }

  lemma {:induction false} KeepConcat(u: seq<Entry>, v: seq<Entry>, target: nat)
    ensures Keep(u + v, target) == Keep(u, target) + Keep(v, target)
    decreases |v|
  {
    if v == [] {
      assert u + v == u;
    } else {
      assert (u + v)[..|u + v| - 1] == u + v[..|v| - 1];
      KeepConcat(u, v[..|v| - 1], target);
    }
  }

  lemma {:induction false} KeepIdempotent(v: seq<Entry>, target: nat)
    ensures Keep(Keep(v, target), target) == Keep(v, target)
    decreases |v|
  {
    if v != [] {
      var u, x := v[..|v| - 1], v[|v| - 1];
      KeepIdempotent(u, target);
      KeepConcat(Keep(u, target), if x.to == target then [] else [x], target);
      assert [x][..0] == [];
    }
  }

  lemma {:induction false} KeepPadding(n: nat, target: nat)
    ensures Keep(Padding(n), target) == if target == 0 then [] else Padding(n)
  {
    if n > 0 {
      KeepPadding(n - 1, target);
      assert Padding(n)[..n - 1] == Padding(n - 1);
    }
  }

  /** The positions of the entries with another target. */
  ghost function Staying(v: seq<Entry>, target: nat): set<nat> {
    set i: nat | i < |v| && v[i].to != target
  }

  lemma StayingNext(u: seq<Entry>, x: Entry, target: nat)
    ensures |Staying(u + [x], target)| == |Staying(u, target)| + if x.to == target then 0 else 1
  {
    var v := u + [x];
    assert Staying(v, target) == Staying(u, target) + if x.to == target then {} else {|u|};
  }

  /** What stays is one entry for each of these positions, in ascending order. */
  lemma {:induction false} KeptPositions(v: seq<Entry>, target: nat) returns (at: seq<nat>)
    ensures |at| == |Keep(v, target)| == |Staying(v, target)|
    ensures forall i, j :: 0 <= i < j < |at| ==> at[i] < at[j]
    ensures forall k :: 0 <= k < |at| ==> at[k] < |v| && v[at[k]].to != target && Keep(v, target)[k] == v[at[k]]
    decreases |v|
  {
    if v == [] { return []; }
    var n := |v| - 1;
    var below := KeptPositions(v[..n], target);
    hide Staying;
    StayingNext(v[..n], v[n], target);
    assert v == v[..n] + [v[n]];
    at := if v[n].to == target then below else below + [n];
  }

  /** What cleaning means for single entries: the entries with another target are at the end, in their
      order, and all else is empty. */
  lemma CleanMeaning(v: seq<Entry>, target: nat) returns (at: seq<nat>)
    ensures |Clean(v, target)| == |v| && |at| == |Staying(v, target)| <= |v|
    ensures forall i, j :: 0 <= i < j < |at| ==> at[i] < at[j]
    ensures forall k :: 0 <= k < |at| ==> at[k] < |v| && v[at[k]].to != target
    ensures forall k :: 0 <= k < |v| - |at| ==> Clean(v, target)[k] == Entry(0, 0)
    ensures forall k :: 0 <= k < |at| ==> Clean(v, target)[|v| - |at| + k] == v[at[k]]
  {
    hide Keep, Staying;
    at := KeptPositions(v, target);
  }

  lemma KeepAll(v: seq<Entry>, target: nat)
    requires forall i :: 0 <= i < |v| ==> v[i].to != target
    ensures Keep(v, target) == v
  {
  }

  lemma CleanIs(v: seq<Entry>, target: nat, n: nat, kept: seq<Entry>)
    requires Keep(v, target) == Padding(n) + kept
    ensures |kept| <= |v| && Clean(v, target) == Padding(|v| - |kept|) + kept
  {
  }

  /** Cleaning a first part that is already clean loses nothing. */
  lemma CleanResume(u: seq<Entry>, v: seq<Entry>, target: nat)
    ensures Clean(Clean(u, target) + v, target) == Clean(u + v, target)
  {
    hide Keep;
    var n, kept := |u| - |Keep(u, target)|, Keep(u, target) + Keep(v, target);
    KeepConcat(u, v, target);
    KeepConcat(Clean(u, target), v, target);
    KeepConcat(Padding(n), Keep(u, target), target);
    KeepPadding(n, target);
    KeepIdempotent(u, target);
    assert Keep(Clean(u, target) + v, target) == Padding(if target == 0 then 0 else n) + kept;
    CleanIs(Clean(u, target) + v, target, if target == 0 then 0 else n, kept);
  }

  lemma CleanPrefix(u: seq<Entry>, v: seq<Entry>, target: nat)
    requires forall i :: 0 <= i < |v| ==> v[i].to != target
    ensures Clean(u + v, target) == Clean(u, target) + v
  {
    KeepConcat(u, v, target);
    KeepAll(v, target);
  }

  /** The slots after i steps from start, before the wrap. */
  ghost function Swept(s: seq<Entry>, start: nat, i: nat, target: nat): (r: seq<Entry>)
    requires start + i <= |s|
    ensures |r| == |s|
  {
    CleanLength(s[start..start + i], target);
    s[..start] + Clean(s[start..start + i], target) + s[start + i..]
  }

  lemma SweptNext(s: seq<Entry>, start: nat, i: nat, target: nat)
    requires start + i < |s|
    ensures Swept(s, start, i, target)[start + i] == s[start + i]
    ensures var e, index := Swept(s, start, i, target), start + i;
            Swept(s, start, i + 1, target) ==
            if s[index].to == target then e[..start] + [EMPTY] + e[start..index] + e[index + 1..] else e
  {
    hide Keep, Clean;
    var a, m, x, b := s[..start], s[start..start + i], s[start + i], s[start + i + 1..];
    CleanNext(m, x, target);
    CleanLength(m, target);
    CleanLength(m + [x], target);
    assert s[start..start + i + 1] == m + [x];
    assert s[start + i..] == [x] + b;
    var c := Clean(m, target);
    var e := Swept(s, start, i, target);
    assert e == a + c + [x] + b;
    assert e[..start] == a && e[start..start + i] == c && e[start + i + 1..] == b;
  }

  lemma CleanLength(v: seq<Entry>, target: nat)
    ensures |Clean(v, target)| == |v|
  {
  }

  lemma SweptNone(s: seq<Entry>, start: nat, target: nat)
    requires start <= |s|
    ensures Swept(s, start, 0, target) == s
  {
  }

  /** A sweep that reached the wrap, read from start. */
  lemma SweptAll(s: seq<Entry>, start: nat, target: nat)
    requires start <= |s|
    ensures var r := Swept(s, start, |s| - start, target);
            r[start..] == Clean(s[start..], target) && r[..start] == s[..start]
  {
    hide Keep, Clean;
    CleanLength(s[start..], target);
    assert s[start..start + (|s| - start)] == s[start..];
  }

  // ----- The buffer

  /** The slot of the i-th oldest entry. */
  function Slot(tos: nat, i: nat): nat {
    (tos + i + 1) % LBR_SIZE
  }

  lemma SlotFromStart(tos: nat, i: nat)
    requires tos < LBR_SIZE && i < LBR_SIZE
    ensures var start := Slot(tos, 0);
            start < LBR_SIZE && Slot(tos, i) == (if i < LBR_SIZE - start then start + i else i - (LBR_SIZE - start))
    ensures Slot(tos, 0) == if tos == LBR_SIZE - 1 then 0 else tos + 1
  {
  }

  lemma SplitBack(u: seq<Entry>, v: seq<Entry>)
    ensures (u + v)[..|u|] == u && (u + v)[|u|..] == v
  {
  }

  class LbrBuffer {
    var tos: nat
    const from: array<nat>
    const to: array<nat>

    ghost predicate Valid()
      reads this
    {
      tos < LBR_SIZE == from.Length == to.Length && from != to
    }

    /** The slots in memory order. */
    ghost function Slots(): (s: seq<Entry>)
      requires from.Length == to.Length
      reads from, to
      ensures |s| == from.Length && forall i :: 0 <= i < |s| ==> s[i] == Entry(from[i], to[i])
    {
      seq(from.Length, i requires 0 <= i < from.Length reads from, to => Entry(from[i], to[i]))
    }

    /** The entries from oldest to newest. */
    ghost function View(): (v: seq<Entry>)
      requires Valid()
      reads this, from, to
    {
      seq(LBR_SIZE, i requires 0 <= i < LBR_SIZE reads this, from, to => Entry(from[Slot(tos, i)], to[Slot(tos, i)]))
    }

    constructor (tos: nat)
      requires tos < LBR_SIZE
      ensures Valid() && this.tos == tos && fresh(from) && fresh(to)
    {
      this.tos := tos;
      from := new nat[LBR_SIZE];
      to := new nat[LBR_SIZE];
    }

    lemma ViewIsRotation()
      requires Valid()
      ensures View() == Slots()[Slot(tos, 0)..] + Slots()[..Slot(tos, 0)]
    {
    }

    lemma ViewOfSwept(s: seq<Entry>, target: nat)
      requires Valid() && |s| == LBR_SIZE && Slot(tos, 0) < LBR_SIZE
      requires Slots() == Swept(s, Slot(tos, 0), LBR_SIZE - Slot(tos, 0), target)
      ensures View() == Clean(s[Slot(tos, 0)..], target) + s[..Slot(tos, 0)]
    {
      hide Keep, Clean, Swept;
      ViewIsRotation();
      SweptAll(s, Slot(tos, 0), target);
    }

    /** Shift the slots from start up to index right by one and empty the slot at start. */
    method ShiftIn(start: nat, index: nat)
      requires Valid() && start <= index < LBR_SIZE
      modifies from, to
      ensures Slots() == old(Slots())[..start] + [EMPTY] + old(Slots())[start..index] + old(Slots())[index + 1..]
    {
      forall i | start < i <= index { from[i] := from[i - 1]; }
      forall i | start < i <= index { to[i] := to[i - 1]; }
      from[start] := 0;
      to[start] := 0;
    }

    /** `moveblocks`: cleans the buffer, or gives up at the wrap with the part before it cleaned. */
    method MoveBlocks(target: nat) returns (ok: bool)
      requires Valid()
      modifies from, to
      ensures ok ==> View() == Clean(old(View()), target)
      ensures !ok ==> exists k :: 0 <= k < LBR_SIZE && View() == Clean(old(View())[..k], target) + old(View())[k..]
      ensures tos == LBR_SIZE - 1 ==> ok
    {
      hide Keep, Clean, Swept, Slot, LbrBuffer.View, LbrBuffer.Slots;
      var start := Slot(tos, 0);
      ghost var s, k := Slots(), LBR_SIZE - start;
      ghost var swept := 0;
      SlotFromStart(tos, 0);
      ViewIsRotation();
      SweptNone(s, start, target);
      var i := 0;
      while i < LBR_SIZE
        invariant 0 <= i <= LBR_SIZE && swept == (if i <= k then i else k)
        invariant Slots() == Swept(s, start, swept, target)
        invariant forall j :: 0 <= j < i - k ==> s[j].to != target
      {
        var index := Slot(tos, i);
        SlotFromStart(tos, i);
        if i < k {
          SweptNext(s, start, i, target);
        } else {
          SweptAll(s, start, target);
          assert Slots()[index] == s[..start][index];
        }
        if to[index] == target {
          if start > index {
            ViewOfSwept(s, target);
            SplitBack(s[start..], s[..start]);
            return false;
          }
          ShiftIn(start, index);
        }
        if i < k { swept := i + 1; }
        i := i + 1;
      }
      ViewOfSwept(s, target);
      CleanPrefix(s[start..], s[..start], target);
      return true;
    }

    /** Unroll the buffer into a copy that does not wrap. */
    method Unroll() returns (copy: LbrBuffer)
      requires Valid()
      ensures fresh(copy) && fresh(copy.from) && fresh(copy.to)
      ensures copy.Valid() && copy.tos == LBR_SIZE - 1 && copy.View() == View()
    {
      copy := new LbrBuffer(LBR_SIZE - 1);
      var i := 0;
      while i < LBR_SIZE
        invariant 0 <= i <= LBR_SIZE && copy.Valid() && copy.tos == LBR_SIZE - 1
        invariant forall j :: 0 <= j < i ==> copy.from[j] == from[Slot(tos, j)] && copy.to[j] == to[Slot(tos, j)]
      {
        copy.from[i] := from[Slot(tos, i)];
        copy.to[i] := to[Slot(tos, i)];
        i := i + 1;
      }
    }

    /** Copy an unrolled buffer back. */
    method RollUp(copy: LbrBuffer)
      requires Valid() && copy.Valid() && copy.tos == LBR_SIZE - 1
      requires {from, to} !! {copy.from, copy.to}
      modifies from, to
      ensures View() == copy.View()
    {
      var i := 0;
      while i < LBR_SIZE
        invariant 0 <= i <= LBR_SIZE
        invariant forall j :: 0 <= j < i ==> from[Slot(tos, j)] == copy.from[j] && to[Slot(tos, j)] == copy.to[j]
      {
        from[Slot(tos, i)] := copy.from[i];
        to[Slot(tos, i)] := copy.to[i];
        i := i + 1;
      }
    }

    /** `remove_lib_enter_edges` always succeeds, and leaves the buffer clean. */
    method RemoveLibEnterEdges(target: nat) returns (ok: bool)
      requires Valid()
      modifies from, to
      ensures ok && View() == Clean(old(View()), target)
    {
      hide Keep, Clean;
      ghost var v := View();
      ok := MoveBlocks(target);
      if ok { return; }
      ghost var k :| 0 <= k < LBR_SIZE && View() == Clean(v[..k], target) + v[k..];
      var copy := Unroll();
      ok := copy.MoveBlocks(target);
      if !ok { return false; }
      RollUp(copy);
      assert v == v[..k] + v[k..];
      CleanResume(v[..k], v[k..], target);
      return true;
    }
  }
}
