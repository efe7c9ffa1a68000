/** The fixed arrays in which the kernel module keeps per-task data: each slot is free or belongs
    to a task. A table represents a map from tasks to their data.
 */
module SlotTable {
  import opened ControlFlow

  /** A `task_struct`, named by its address. */
  type Task = nat

  datatype Slot<P> = Slot(task: Option<Task>, payload: P)

  /** The first slot with this owner, or the table size. */
  function Find<P>(s: seq<Slot<P>>, owner: Option<Task>): (i: nat)
    ensures i <= |s|
    ensures i < |s| ==> s[i].task == owner
    ensures forall j :: 0 <= j < i ==> s[j].task != owner
    decreases |s|
  {
    if s == [] then 0
    else if s[0].task == owner then 0
    else
      var k := Find(s[1..], owner);
      assert forall j :: 1 <= j < k + 1 ==> s[j] == s[1..][j - 1];
      k + 1
  }

  /** No task owns two slots. */
  ghost predicate Distinct<P>(s: seq<Slot<P>>) {
    forall i, j :: 0 <= i < j < |s| && s[i].task.Some? ==> s[i].task != s[j].task
  }

  /** Table s holds exactly the map m, one slot per task. */
  ghost predicate Represents<P>(s: seq<Slot<P>>, m: map<Task, P>) {
    && Distinct(s)
    && (forall i :: 0 <= i < |s| && s[i].task.Some? ==> s[i].task.value in m && m[s[i].task.value] == s[i].payload)
    && (forall t :: t in m ==> Find(s, Some(t)) < |s|)
  }

  lemma FindAt<P>(s: seq<Slot<P>>, i: nat)
    requires i < |s| && s[i].task.Some? && Distinct(s)
    ensures Find(s, s[i].task) == i
  {
  }

  lemma PutDistinct<P>(s: seq<Slot<P>>, i: nat, t: Task, p: P)
    requires Distinct(s) && i < |s|
    requires forall j :: 0 <= j < |s| && j != i ==> s[j].task != Some(t)
    ensures Distinct(s[i := Slot(Some(t), p)])
  {
  }

  lemma Put<P>(s: seq<Slot<P>>, m: map<Task, P>, i: nat, t: Task, p: P)
    requires Represents(s, m) && i < |s|
    requires s[i].task == Some(t) || (s[i].task == None && t !in m)
    ensures Represents(s[i := Slot(Some(t), p)], m[t := p])
  {
    hide Distinct;
    var s' := s[i := Slot(Some(t), p)];
    forall j | 0 <= j < |s| && j != i
      ensures s[j].task != Some(t)
    {
      if s[j].task == Some(t) {
        FindAt(s, i);
        FindAt(s, j);
      }
    }
    PutDistinct(s, i, t, p);
    forall u | u in m[t := p]
      ensures Find(s', Some(u)) < |s'|
    {
      var j := if u == t then i else Find(s, Some(u));
      assert s'[j].task == Some(u);
    }
  }

  lemma Drop<P>(s: seq<Slot<P>>, m: map<Task, P>, i: nat, t: Task, p: P)
    requires Represents(s, m) && i < |s| && s[i].task == Some(t)
    ensures Represents(s[i := Slot(None, p)], m - {t})
  {
    var s' := s[i := Slot(None, p)];
    forall u | u in m - {t}
      ensures Find(s', Some(u)) < |s'|
    {
      assert s'[Find(s, Some(u))].task == Some(u);
    }
  }

  /** The owners of the occupied slots. */
  ghost function Owners<P>(s: seq<Slot<P>>): set<Task> {
    if s == [] then {}
    else Owners(s[..|s| - 1]) + if s[|s| - 1].task.Some? then {s[|s| - 1].task.value} else {}
  }

  lemma {:induction false} OwnersMember<P>(s: seq<Slot<P>>, t: Task)
    ensures t in Owners(s) <==> exists i :: 0 <= i < |s| && s[i].task == Some(t)
    decreases |s|
  {
    if s != [] {
      var u := s[..|s| - 1];
      OwnersMember(u, t);
      if t in Owners(u) {
        var i :| 0 <= i < |u| && u[i].task == Some(t);
        assert s[i].task == Some(t);
      } else if exists i :: 0 <= i < |s| && s[i].task == Some(t) {
        var i :| 0 <= i < |s| && s[i].task == Some(t);
        assert i < |u| ==> u[i].task == Some(t);
      }
    }
  }

  lemma {:induction false} OwnersCount<P>(s: seq<Slot<P>>)
    requires Distinct(s)
    ensures |Owners(s)| <= |s|
    ensures |Owners(s)| == |s| <==> forall i :: 0 <= i < |s| ==> s[i].task.Some?
    decreases |s|
  {
    if s != [] {
      var u, x := s[..|s| - 1], s[|s| - 1];
      OwnersCount(u);
      if x.task.Some? {
        OwnersMember(u, x.task.value);
        assert forall i :: 0 <= i < |u| ==> s[i].task == u[i].task;
      }
    }
  }

  /** There is a free slot exactly while there are fewer tasks than slots. */
  lemma {:induction false} FreeSlot<P>(s: seq<Slot<P>>, m: map<Task, P>)
    requires Represents(s, m)
    ensures Find(s, None) < |s| <==> |m| < |s|
  {
    hide Owners, Distinct;
    forall t
      ensures t in Owners(s) <==> t in m
    {
      OwnersMember(s, t);
      if t in m { assert s[Find(s, Some(t))].task == Some(t); }
    }
    assert Owners(s) == m.Keys;
    OwnersCount(s);
    if Find(s, None) < |s| { assert s[Find(s, None)].task.None?; }
  }
}
