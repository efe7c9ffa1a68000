/** How the library, callback and signal tables of the kernel module hold the stacks of the tasks. */
module StackTables {
  import opened ControlFlow
  import opened Lbr
  import opened SlotTable
  import opened KernelSteps
  import opened PrivateMachine

  /** The table holds these stacks, none of them empty, and its free slots are empty. */
  ghost predicate Holds(s: seq<Slot<Stacks>>, m: map<Task, Stacks>) {
    && Represents(s, m)
    && (forall i :: 0 <= i < |s| && s[i].task == None ==> s[i].payload == NO_STACKS)
    && (forall t :: t in m ==> m[t] != NO_STACKS)
  }

  function Current(m: map<Task, Stacks>, t: Task): Stacks {
    if t in m then m[t] else NO_STACKS
  }

  function Update(m: map<Task, Stacks>, t: Task, st: Stacks): map<Task, Stacks> {
    if st == NO_STACKS then m - {t} else m[t := st]
  }

  // ----- Table operations

  lemma HoldsPut(s: seq<Slot<Stacks>>, m: map<Task, Stacks>, i: nat, t: Task, st: Stacks)
    requires Holds(s, m) && i < |s| && st != NO_STACKS
    requires s[i].task == Some(t) || (s[i].task == None && t !in m)
    ensures Holds(s[i := Slot(Some(t), st)], m[t := st])
  {
    hide Represents;
    Put(s, m, i, t, st);
  }

  lemma HoldsDrop(s: seq<Slot<Stacks>>, m: map<Task, Stacks>, i: nat, t: Task)
    requires Holds(s, m) && i < |s| && s[i].task == Some(t)
    ensures Holds(s[i := Slot(None, NO_STACKS)], m - {t})
  {
    hide Represents;
    Drop(s, m, i, t, NO_STACKS);
  }

  lemma HoldsFound(s: seq<Slot<Stacks>>, m: map<Task, Stacks>, t: Task)
    requires Holds(s, m)
    ensures t in m <==> Find(s, Some(t)) < |s|
    ensures t in m ==> s[Find(s, Some(t))].payload == m[t]
  {
  }

  /** With room, `find_cache_entry_init` finds a slot with the stacks of t, empty if new. */
  lemma FindEntryHolds(s: Table, m: map<Task, Stacks>, t: Task, st: Stacks)
    requires Holds(s, m) && (t in m || |m| < |s|) && st != NO_STACKS
    ensures var (s1, i, killed) := FindEntry(s, t);
            !killed && s1[i].task == Some(t) && s1[i].payload == Current(m, t) && Holds(s1[i := Slot(Some(t), st)], m[t := st])
  {
    HoldsFound(s, m, t);
    if t in m {
      HoldsPut(s, m, Find(s, Some(t)), t, st);
    } else {
      FreeSlot(s, m);
      var free := Find(s, None);
      HoldsPut(s, m, free, t, st);
      assert s[free := Slot(Some(t), s[free].payload)][free := Slot(Some(t), st)] == s[free := Slot(Some(t), st)];
    }
  }

  lemma LibInitHolds(s: Table, m: map<Task, Stacks>, t: Task, ret: U64)
    requires Holds(s, m) && (t in m || |m| < |s|) && |Current(m, t).rets| < STACKSIZE
    ensures var (s', killed) := LibInit(s, t, ret);
            !killed && |s'| == |s| && Holds(s', Update(m, t, Current(m, t).(rets := Current(m, t).rets + [ret])))
  {
    hide Holds;
    FindEntryHolds(s, m, t, Current(m, t).(rets := Current(m, t).rets + [ret]));
  }

  lemma CbkInitHolds(s: Table, m: map<Task, Stacks>, t: Task, ret: U64, image: Image)
    requires Holds(s, m) && (t in m || |m| < |s|)
    requires |Current(m, t).rets| < STACKSIZE && |Current(m, t).lbrs| < STACKSIZE
    ensures var (s', killed) := CbkInit(s, t, ret, image);
            !killed && |s'| == |s| &&
            Holds(s', Update(m, t, Stacks(Current(m, t).rets + [ret], Current(m, t).lbrs + [image])))
  {
    hide Holds;
    FindEntryHolds(s, m, t, Stacks(Current(m, t).rets + [ret], Current(m, t).lbrs + [image]));
  }

  lemma SigInitHolds(s: Table, m: map<Task, Stacks>, t: Task, image: Image)
    requires Holds(s, m) && (t in m || |m| < |s|) && |Current(m, t).lbrs| < STACKSIZE
    ensures var (s', killed) := SigInit(s, t, image);
            !killed && |s'| == |s| && Holds(s', Update(m, t, Current(m, t).(lbrs := Current(m, t).lbrs + [image])))
  {
    hide Holds;
    FindEntryHolds(s, m, t, Current(m, t).(lbrs := Current(m, t).lbrs + [image]));
  }

  /** Writing back shorter stacks frees the slot exactly when they are empty. */
  lemma {:induction false} HoldsShrink(s: seq<Slot<Stacks>>, m: map<Task, Stacks>, t: Task, st: Stacks)
    requires Holds(s, m) && t in m
    ensures var i := Find(s, Some(t));
            i < |s| && s[i].payload == m[t] &&
            Holds(s[i := Slot(if st == NO_STACKS then None else Some(t), st)], Update(m, t, st))
  {
    HoldsFound(s, m, t);
    var i := Find(s, Some(t));
    if st == NO_STACKS {
      HoldsDrop(s, m, i, t);
    } else {
      HoldsPut(s, m, i, t, st);
    }
  }

  lemma LibExitHolds(s: Table, m: map<Task, Stacks>, t: Task, below: seq<U64>, ret: U64)
    requires Holds(s, m) && t in m && m[t] == Stacks(below + [ret], [])
    ensures var (s', r, killed) := LibExit(s, t);
            !killed && r == ret && |s'| == |s| && Holds(s', Update(m, t, Stacks(below, [])))
  {
    hide Holds;
    HoldsShrink(s, m, t, Stacks(below, []));
    assert (below + [ret])[..|below|] == below;
  }

  lemma CbkExitHolds(s: Table, m: map<Task, Stacks>, t: Task, hw: Image, below: Stacks, ret: U64, image: Image)
    requires Holds(s, m) && t in m && m[t] == Stacks(below.rets + [ret], below.lbrs + [image])
    requires |below.rets| == |below.lbrs|
    ensures var (s', r, hw', killed) := CbkExit(s, t, hw);
            !killed && r == ret && hw' == image && |s'| == |s| && Holds(s', Update(m, t, below))
  {
    hide Holds;
    HoldsShrink(s, m, t, below);
    assert (below.rets + [ret])[..|below.rets|] == below.rets;
    assert (below.lbrs + [image])[..|below.lbrs|] == below.lbrs;
  }

  lemma SigExitHolds(s: Table, m: map<Task, Stacks>, t: Task, hw: Image, below: seq<Image>, image: Image)
    requires Holds(s, m) && t in m && m[t] == Stacks([], below + [image])
    ensures var (s', hw', killed) := SigExit(s, t, hw);
            !killed && hw' == image && |s'| == |s| && Holds(s', Update(m, t, Stacks([], below)))
  {
    hide Holds;
    HoldsShrink(s, m, t, Stacks([], below));
    assert (below + [image])[..|below|] == below;
  }

  lemma FindLastHolds(s: seq<Slot<Stacks>>, m: map<Task, Stacks>, t: Task)
    requires Holds(s, m)
    ensures t in m <==> FindLast(s, t) < |s|
    ensures t in m ==> s[FindLast(s, t)].payload == m[t]
  {
  }

  /** A fork leaves the child with the parent's stacks; what is not copied was empty. */
  lemma {:induction false} CopyEntryHolds(s: Table, m: map<Task, Stacks>, parent: Task, child: Task, rets: bool, lbrs: bool)
    requires Holds(s, m) && child !in m && (parent in m ==> |m| < |s|)
    requires parent in m ==> (rets || m[parent].rets == []) && (lbrs || m[parent].lbrs == [])
    ensures var (s', killed) := CopyEntry(s, parent, child, rets, lbrs);
            !killed && |s'| == |s| && Holds(s', Update(m, child, Current(m, parent)))
  {
    FindLastHolds(s, m, parent);
    if parent in m {
      FindEntryHolds(s, m, child, m[parent]);
      var ours := FindLast(s, parent);
      var (s1, i, killed) := FindEntry(s, child);
      HoldsFound(s, m, child);
      assert i != ours && s1[ours] == s[ours];
    } else {
      assert m - {child} == m;
    }
  }

  lemma {:induction false} WipeEntryHolds(s: Table, m: map<Task, Stacks>, t: Task)
    requires Holds(s, m)
    ensures |WipeEntry(s, t)| == |s| && Holds(WipeEntry(s, t), m - {t})
  {
    HoldsFound(s, m, t);
    if t in m {
      HoldsDrop(s, m, Find(s, Some(t)), t);
    } else {
      assert m - {t} == m;
    }
  }

  // ----- Stacks of open frames

  /** Library frames save no image, signal frames no address, callback frames both. */
  lemma {:induction false} StacksShape(kind: Kind, frames: seq<Frame>)
    ensures kind == Lib ==> StacksOf(kind, frames).lbrs == []
    ensures kind == Sig ==> StacksOf(kind, frames).rets == []
    ensures kind == Cbk ==> |StacksOf(kind, frames).rets| == |StacksOf(kind, frames).lbrs|
    decreases |frames|
  {
    if frames != [] {
      StacksShape(kind, frames[..|frames| - 1]);
    }
  }

  lemma StacksOfPush(kind: Kind, frames: seq<Frame>, f: Frame)
    ensures StacksOf(kind, frames + [f]) == Pushed(kind, StacksOf(kind, frames), f)
  {
  }

  lemma TableOfUpdate(kind: Kind, w: World, t: Task, ts: TaskState)
    ensures TableOf(kind, w.(tasks := w.tasks[t := ts])) == Update(TableOf(kind, w), t, StacksOf(kind, ts.frames))
  {
  }

  lemma TableOfCurrent(kind: Kind, w: World, t: Task)
    ensures t in w.tasks ==> Current(TableOf(kind, w), t) == StacksOf(kind, w.tasks[t].frames)
    ensures t !in w.tasks ==> t !in TableOf(kind, w)
  {
  }

  lemma TableOfSame(kind: Kind, w: World, t: Task, frames: seq<Frame>)
    requires t in w.tasks && StacksOf(kind, frames) == StacksOf(kind, w.tasks[t].frames)
    ensures Update(TableOf(kind, w), t, StacksOf(kind, frames)) == TableOf(kind, w)
  {
    hide StacksOf;
    var m: map<Task, Stacks> := TableOf(kind, w);
    if StacksOf(kind, frames) == NO_STACKS {
      assert t !in m && m - {t} == m;
    } else {
      assert t in m && m[t := m[t]] == m;
    }
  }
}
