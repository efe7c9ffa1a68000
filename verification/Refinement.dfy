/** The kernel module refines the private machine: over every run it gives the same replies, and
    every task finds the LBR it would have had on private hardware, up to the flag bits that
    `LBR_FROM` clears.
 */
module Refinement {
  import opened ControlFlow
  import opened Lbr
  import opened SlotTable
  import opened KernelSteps
  import opened PrivateMachine
  import opened StackTables

  function TableIn(k: Kernel, kind: Kind): Table {
    match kind case Lib => k.lib case Cbk => k.cbk case Sig => k.sig
  }

  /** Running tasks are alive, run on one CPU each, and its registers show their LBR. */
  ghost predicate Placed(k: Kernel, w: World) {
    && k.on == w.on
    && (forall c :: c in w.on ==> w.on[c] in w.tasks && w.tasks[w.on[c]].alive)
    && (forall c :: c in w.on ==> Normal(Hw(k, c)) == Normal(w.tasks[w.on[c]].lbr))
    && (forall c, d :: c in w.on && d in w.on && w.on[c] == w.on[d] ==> c == d)
  }

  /** Each parked task owns exactly one cache slot, holding its LBR; no other task owns one. */
  ghost predicate CacheOk(k: Kernel, w: World) {
    |k.cache| == LBR_CACHE_SIZE && Represents(k.cache, Parked(w))
  }

  ghost predicate TableOk(kind: Kind, k: Kernel, w: World) {
    |TableIn(k, kind)| == Size(kind) && Holds(TableIn(k, kind), TableOf(kind, w))
  }

  ghost predicate Simulates(k: Kernel, w: World) {
    Placed(k, w) && CacheOk(k, w) && forall kind :: TableOk(kind, k, w)
  }

  // ----- Registers and normalisation

  /** Two images that differ only in flag bits behave alike. */
  lemma SameUpToFlags(a: Image, b: Image, from: U64, to: U64)
    requires Normal(a) == Normal(b)
    ensures a.debug == b.debug && a.select == b.select && a.tos == b.tos && a.to == b.to
    ensures Normal(Branch(a, from, to)) == Normal(Branch(b, from, to))
    ensures forall d: U64 :: Normal(a.(debug := d)) == Normal(b.(debug := d))
  {
    assert Normal(a).tos == Normal(b).tos && Normal(a).debug == Normal(b).debug;
    var t := (a.tos + 1) % LBR_SIZE;
    var x, y := a.from[t := from], b.from[t := from];
    forall i | 0 <= i < LBR_SIZE
      ensures Cleared(x)[i] == Cleared(y)[i]
    {
      assert Cleared(a.from)[i] == Cleared(b.from)[i];
    }
    assert Cleared(x) == Cleared(y);
  }

  lemma SameStart(cfg: Config, a: Image, b: Image, handler: U64)
    requires Normal(a) == Normal(b)
    ensures Flush(a, true) == Flush(b, true) && SigStart(cfg, a, handler) == SigStart(cfg, b, handler)
  {
  }

  // ----- Steps of a running task

  lemma ParkedSame(w: World, t: Task, ts: TaskState)
    requires t in w.on.Values
    ensures Parked(w.(tasks := w.tasks[t := ts])) == Parked(w)
  {
  }

  lemma TableUpdated(kind: Kind, k: Kernel, w: World, t: Task, ts: TaskState)
    requires |TableIn(k, kind)| == Size(kind)
    requires Holds(TableIn(k, kind), Update(TableOf(kind, w), t, StacksOf(kind, ts.frames)))
    ensures TableOk(kind, k, w.(tasks := w.tasks[t := ts]))
  {
    hide Holds, TableOf, StacksOf;
    TableOfUpdate(kind, w, t, ts);
  }

  lemma TableKept(kind: Kind, k: Kernel, k': Kernel, w: World, t: Task, ts: TaskState)
    requires TableOk(kind, k, w) && TableIn(k', kind) == TableIn(k, kind)
    requires t in w.tasks && StacksOf(kind, ts.frames) == StacksOf(kind, w.tasks[t].frames)
    ensures TableOk(kind, k', w.(tasks := w.tasks[t := ts]))
  {
    hide Holds, TableOf, StacksOf;
    TableOfSame(kind, w, t, ts.frames);
    TableUpdated(kind, k', w, t, ts);
  }

  lemma RunningUpdated(k: Kernel, w: World, c: Cpu, ts: TaskState, hw: Image, k': Kernel)
    requires Placed(k, w) && CacheOk(k, w) && c in w.on && ts.alive
    requires k'.on == k.on && k'.cache == k.cache && k'.hw == k.hw[c := hw]
    requires Normal(hw) == Normal(ts.lbr)
    ensures Placed(k', w.(tasks := w.tasks[w.on[c] := ts])) && CacheOk(k', w.(tasks := w.tasks[w.on[c] := ts]))
  {
    hide Represents, Normal, Parked;
    ParkedSame(w, w.on[c], ts);
  }

  /** The table of kind changes as the private frames do; the other tables and stacks stay. */
  ghost predicate OnlyTable(kind: Kind, k: Kernel, k': Kernel, frames: seq<Frame>, frames': seq<Frame>) {
    forall other :: other != kind ==>
      TableIn(k', other) == TableIn(k, other) && StacksOf(other, frames') == StacksOf(other, frames)
  }

  lemma EventSimulated(k: Kernel, w: World, c: Cpu, kind: Kind, ts: TaskState, hw: Image, k': Kernel)
    requires Simulates(k, w) && c in w.on && ts.alive
    requires k'.on == k.on && k'.cache == k.cache && k'.hw == k.hw[c := hw] && Normal(hw) == Normal(ts.lbr)
    requires w.on[c] in w.tasks && OnlyTable(kind, k, k', w.tasks[w.on[c]].frames, ts.frames)
    requires |TableIn(k', kind)| == Size(kind)
    requires Holds(TableIn(k', kind), Update(TableOf(kind, w), w.on[c], StacksOf(kind, ts.frames)))
    ensures Simulates(k', w.(tasks := w.tasks[w.on[c] := ts]))
  {
    hide Placed, CacheOk, TableOk, Holds, TableOf, StacksOf, Normal;
    RunningUpdated(k, w, c, ts, hw, k');
    var w' := w.(tasks := w.tasks[w.on[c] := ts]);
    forall other
      ensures TableOk(other, k', w')
    {
      if other == kind {
        TableUpdated(kind, k', w, w.on[c], ts);
      } else {
        TableKept(other, k, k', w, w.on[c], ts);
      }
    }
  }

  /** The running task's state, as the kernel sees it. */
  lemma Running(k: Kernel, w: World, c: Cpu)
    requires Simulates(k, w) && c in w.on
    ensures k.on == w.on && w.on[c] in w.tasks && w.tasks[w.on[c]].alive
    ensures Normal(Hw(k, c)) == Normal(w.tasks[w.on[c]].lbr)
  {
  }

  lemma TableFacts(kind: Kind, k: Kernel, w: World, t: Task)
    requires Simulates(k, w) && t in w.tasks
    ensures |TableIn(k, kind)| == Size(kind) && Holds(TableIn(k, kind), TableOf(kind, w))
    ensures Current(TableOf(kind, w), t) == StacksOf(kind, w.tasks[t].frames)
    ensures t in TableOf(kind, w) <==> StacksOf(kind, w.tasks[t].frames) != NO_STACKS
  {
    assert TableOk(kind, k, w);
    TableOfCurrent(kind, w, t);
  }

  /** Both machines take this event in step. */
  ghost predicate InStep(cfg: Config, k: Kernel, w: World, act: Action)
    requires Enabled(w, act)
  {
    var (k', r) := Step(cfg, k, act);
    var (w', r') := WorldStep(cfg, w, act);
    Simulates(k', w') && r == r'
  }

  lemma QuietInStep(cfg: Config, k: Kernel, w: World, c: Cpu, ev: Event)
    requires Simulates(k, w) && Enabled(w, Do(c, ev)) && (ev.Jump? || ev.Validate? || ev == SigEnter(0))
    ensures InStep(cfg, k, w, Do(c, ev))
  {
    hide Simulates, Holds, TableOf, StacksOf, Normal, Branch, Room;
    Running(k, w, c);
    var t := w.on[c];
    var ts := w.tasks[t];
    TableFacts(Lib, k, w, t);
    TableOfSame(Lib, w, t, ts.frames);
    if ev.Jump? {
      SameUpToFlags(Hw(k, c), ts.lbr, ev.from, ev.to);
      EventSimulated(k, w, c, Lib, ts.(lbr := Branch(ts.lbr, ev.from, ev.to)), Branch(Hw(k, c), ev.from, ev.to),
                     Step(cfg, k, Do(c, ev)).0);
    } else {
      assert w.tasks[t := ts] == w.tasks;
    }
  }

  lemma {:induction false} LibEnterInStep(cfg: Config, k: Kernel, w: World, c: Cpu, ret: U64)
    requires Simulates(k, w) && Enabled(w, Do(c, LibEnter(ret)))
    ensures InStep(cfg, k, w, Do(c, LibEnter(ret)))
  {
    hide Simulates, Holds, TableOf, StacksOf, Normal, LibInit;
    Running(k, w, c);
    var t := w.on[c];
    var ts := w.tasks[t];
    TableFacts(Lib, k, w, t);
    SameUpToFlags(Hw(k, c), ts.lbr, 0, 0);
    var f := if ret != 0 then LibFrame(ret) else BareLibFrame;
    forall kind ensures StacksOf(kind, ts.frames + [f]) == Pushed(kind, StacksOf(kind, ts.frames), f) {
      StacksOfPush(kind, ts.frames, f);
    }
    if ret != 0 {
      LibInitHolds(k.lib, TableOf(Lib, w), t, ret);
    } else {
      TableOfSame(Lib, w, t, ts.frames + [f]);
    }
    EventSimulated(k, w, c, Lib, Enter(ts, f, ts.lbr.(debug := 0)), Hw(k, c).(debug := 0), Step(cfg, k, Do(c, LibEnter(ret))).0);
  }

  lemma {:induction false} LibReturnInStep(cfg: Config, k: Kernel, w: World, c: Cpu, wanted: bool)
    requires Simulates(k, w) && Enabled(w, Do(c, LibReturn(wanted)))
    ensures InStep(cfg, k, w, Do(c, LibReturn(wanted)))
  {
    hide Simulates, Holds, TableOf, StacksOf, Normal, LibExit;
    Running(k, w, c);
    var t := w.on[c];
    var ts := w.tasks[t];
    TableFacts(Lib, k, w, t);
    SameUpToFlags(Hw(k, c), ts.lbr, 0, 0);
    var below, f := ts.frames[..|ts.frames| - 1], Top(ts.frames);
    assert ts.frames == below + [f];
    forall kind ensures StacksOf(kind, ts.frames) == Pushed(kind, StacksOf(kind, below), f) {
      StacksOfPush(kind, below, f);
    }
    if wanted {
      StacksShape(Lib, below);
      LibExitHolds(k.lib, TableOf(Lib, w), t, StacksOf(Lib, below).rets, f.ret);
    } else {
      TableOfSame(Lib, w, t, below);
    }
    EventSimulated(k, w, c, Lib, Leave(ts, ts.lbr.(debug := 1)), Hw(k, c).(debug := 1), Step(cfg, k, Do(c, LibReturn(wanted))).0);
  }

  lemma {:induction false} CbkEnterInStep(cfg: Config, k: Kernel, w: World, c: Cpu, ret: U64)
    requires Simulates(k, w) && Enabled(w, Do(c, CbkEnter(ret)))
    ensures InStep(cfg, k, w, Do(c, CbkEnter(ret)))
  {
    hide Simulates, Holds, TableOf, StacksOf, Normal, CbkInit, Flush;
    Running(k, w, c);
    var t := w.on[c];
    var ts := w.tasks[t];
    TableFacts(Cbk, k, w, t);
    SameStart(cfg, Hw(k, c), ts.lbr, 0);
    var f := CbkFrame(ret, ts.lbr);
    forall kind ensures StacksOf(kind, ts.frames + [f]) == Pushed(kind, StacksOf(kind, ts.frames), f) {
      StacksOfPush(kind, ts.frames, f);
    }
    StacksShape(Cbk, ts.frames);
    CbkInitHolds(k.cbk, TableOf(Cbk, w), t, ret, Normal(Hw(k, c)));
    EventSimulated(k, w, c, Cbk, Enter(ts, f, Flush(ts.lbr, true)), Flush(Hw(k, c), true), Step(cfg, k, Do(c, CbkEnter(ret))).0);
  }

  lemma {:induction false} CbkReturnInStep(cfg: Config, k: Kernel, w: World, c: Cpu)
    requires Simulates(k, w) && Enabled(w, Do(c, CbkReturn))
    ensures InStep(cfg, k, w, Do(c, CbkReturn))
  {
    hide Simulates, Holds, TableOf, StacksOf, Normal, CbkExit;
    Running(k, w, c);
    var t := w.on[c];
    var ts := w.tasks[t];
    TableFacts(Cbk, k, w, t);
    var below, f := ts.frames[..|ts.frames| - 1], Top(ts.frames);
    assert ts.frames == below + [f];
    forall kind ensures StacksOf(kind, ts.frames) == Pushed(kind, StacksOf(kind, below), f) {
      StacksOfPush(kind, below, f);
    }
    StacksShape(Cbk, below);
    NormalIdempotent(f.saved);
    CbkExitHolds(k.cbk, TableOf(Cbk, w), t, Hw(k, c), StacksOf(Cbk, below), f.ret, Normal(f.saved));
    EventSimulated(k, w, c, Cbk, Leave(ts, f.saved), Normal(f.saved), Step(cfg, k, Do(c, CbkReturn)).0);
  }

  lemma {:induction false} SigEnterInStep(cfg: Config, k: Kernel, w: World, c: Cpu, handler: U64)
    requires Simulates(k, w) && Enabled(w, Do(c, SigEnter(handler))) && handler != 0
    ensures InStep(cfg, k, w, Do(c, SigEnter(handler)))
  {
    hide Simulates, Holds, TableOf, StacksOf, Normal, SigInit, SigStart;
    Running(k, w, c);
    var t := w.on[c];
    var ts := w.tasks[t];
    TableFacts(Sig, k, w, t);
    SameStart(cfg, Hw(k, c), ts.lbr, handler);
    var f := SigFrame(InTargetCode(cfg, handler), ts.lbr);
    forall kind ensures StacksOf(kind, ts.frames + [f]) == Pushed(kind, StacksOf(kind, ts.frames), f) {
      StacksOfPush(kind, ts.frames, f);
    }
    SigInitHolds(k.sig, TableOf(Sig, w), t, Normal(Hw(k, c)));
    EventSimulated(k, w, c, Sig, Enter(ts, f, SigStart(cfg, ts.lbr, handler)), SigStart(cfg, Hw(k, c), handler),
                   Step(cfg, k, Do(c, SigEnter(handler))).0);
  }

  lemma {:induction false} SigReturnInStep(cfg: Config, k: Kernel, w: World, c: Cpu)
    requires Simulates(k, w) && Enabled(w, Do(c, SigReturn))
    ensures InStep(cfg, k, w, Do(c, SigReturn))
  {
    hide Simulates, Holds, TableOf, StacksOf, Normal, SigExit;
    Running(k, w, c);
    var t := w.on[c];
    var ts := w.tasks[t];
    TableFacts(Sig, k, w, t);
    var below, f := ts.frames[..|ts.frames| - 1], Top(ts.frames);
    assert ts.frames == below + [f];
    forall kind ensures StacksOf(kind, ts.frames) == Pushed(kind, StacksOf(kind, below), f) {
      StacksOfPush(kind, below, f);
    }
    StacksShape(Sig, below);
    NormalIdempotent(f.saved);
    SigExitHolds(k.sig, TableOf(Sig, w), t, Hw(k, c), StacksOf(Sig, below).lbrs, Normal(f.saved));
    EventSimulated(k, w, c, Sig, Leave(ts, f.saved), Normal(f.saved), Step(cfg, k, Do(c, SigReturn)).0);
  }

  // ----- Context switches, fork and exit

  lemma TablesByTasks(k: Kernel, w: World, k': Kernel, w': World)
    requires Simulates(k, w) && w'.tasks == w.tasks
    requires k'.lib == k.lib && k'.cbk == k.cbk && k'.sig == k.sig
    ensures forall kind :: TableOk(kind, k', w')
  {
    hide Holds, StacksOf;
    forall kind
      ensures TableOk(kind, k', w')
    {
      assert TableOk(kind, k, w);
      assert TableOf(kind, w') == TableOf(kind, w);
    }
  }

  /** Only a full cache makes a save fail. */
  lemma SaveParks(cache: seq<Slot<Image>>, m: map<Task, Image>, t: Task, hw: Image)
    requires Represents(cache, m) && t !in m
    ensures var (cache', saved) := SaveLbr(cache, t, hw);
            && (saved <==> |m| < |cache|) && |cache'| == |cache|
            && (saved ==> Represents(cache', m[t := Normal(hw)]))
  {
    hide Normal;
    FreeSlot(cache, m);
    var i := Find(cache, None);
    if i < |cache| { Put(cache, m, i, t, Normal(hw)); }
  }

  lemma ParkedOut(w: World, c: Cpu)
    requires c in w.on && w.on[c] in w.tasks && w.tasks[w.on[c]].alive
    requires forall d :: d in w.on && w.on[d] == w.on[c] ==> d == c
    ensures w.on[c] !in Parked(w)
    ensures Parked(w.(on := w.on - {c})) == Parked(w)[w.on[c] := Normal(w.tasks[w.on[c]].lbr)]
  {
    hide Normal;
    var w' := w.(on := w.on - {c});
    forall t ensures t in w'.on.Values <==> t in w.on.Values && t != w.on[c] {
      if t in w.on.Values && t != w.on[c] {
        var d :| d in w.on && w.on[d] == t;
        assert d in w'.on && w'.on[d] == t;
      }
    }
  }

  lemma ParkedIn(w: World, c: Cpu, t: Task)
    requires c !in w.on && t in Parked(w)
    ensures Parked(w.(on := w.on[c := t])) == Parked(w) - {t}
  {
    hide Normal;
    var on' := w.on[c := t];
    forall u ensures u in on'.Values <==> u in w.on.Values || u == t {
      if u in w.on.Values {
        var d :| d in w.on && w.on[d] == u;
        assert on'[d] == u;
      }
      assert on'[c] == t;
    }
  }

  lemma {:induction false} SchedOutInStep(cfg: Config, k: Kernel, w: World, c: Cpu)
    requires Simulates(k, w) && Enabled(w, SchedOut(c))
    ensures InStep(cfg, k, w, SchedOut(c))
  {
    hide Represents, Normal, Parked, TableOk, SaveLbr;
    Running(k, w, c);
    ParkedOut(w, c);
    SaveParks(k.cache, Parked(w), w.on[c], Hw(k, c));
    TablesByTasks(k, w, Step(cfg, k, SchedOut(c)).0, WorldStep(cfg, w, SchedOut(c)).0);
  }

  lemma RestoreUnparks(cache: seq<Slot<Image>>, m: map<Task, Image>, t: Task, hw: Image)
    requires Represents(cache, m) && t in m
    ensures var (cache', hw') := RestoreLbr(cache, t, hw);
            hw' == m[t] && |cache'| == |cache| && Represents(cache', m - {t})
  {
    var i := Find(cache, Some(t));
    Drop(cache, m, i, t, cache[i].payload);
  }

  lemma ParkedFacts(w: World, t: Task)
    requires t in Parked(w)
    ensures t in w.tasks && w.tasks[t].alive && t !in w.on.Values && Parked(w)[t] == Normal(w.tasks[t].lbr)
  {
  }

  lemma {:induction false} SchedInInStep(cfg: Config, k: Kernel, w: World, c: Cpu, t: Task)
    requires Simulates(k, w) && Enabled(w, SchedIn(c, t))
    ensures InStep(cfg, k, w, SchedIn(c, t))
  {
    hide Represents, Normal, TableOk, RestoreLbr, Parked;
    ParkedFacts(w, t);
    ParkedIn(w, c, t);
    RestoreUnparks(k.cache, Parked(w), t, Hw(k, c));
    NormalIdempotent(w.tasks[t].lbr);
    TablesByTasks(k, w, Step(cfg, k, SchedIn(c, t)).0, WorldStep(cfg, w, SchedIn(c, t)).0);
  }

  lemma CopyInStep(kind: Kind, k: Kernel, w: World, parent: Task, child: Task)
    requires Simulates(k, w) && parent in w.tasks && child !in w.tasks
    requires parent in TableOf(kind, w) ==> |TableOf(kind, w)| < Size(kind)
    ensures var (s, killed) := CopyEntry(TableIn(k, kind), parent, child, kind != Sig, kind != Lib);
            !killed && |s| == Size(kind) && Holds(s, Update(TableOf(kind, w), child, StacksOf(kind, w.tasks[parent].frames)))
  {
    hide Simulates, Holds, TableOf, StacksOf, CopyEntry;
    TableFacts(kind, k, w, parent);
    TableOfCurrent(kind, w, child);
    StacksShape(kind, w.tasks[parent].frames);
    CopyEntryHolds(TableIn(k, kind), TableOf(kind, w), parent, child, kind != Sig, kind != Lib);
  }

  lemma ParkedFork(w: World, child: Task, ts: TaskState)
    requires child !in w.tasks && ts.alive && (forall c :: c in w.on ==> w.on[c] in w.tasks)
    ensures child !in Parked(w)
    ensures Parked(w.(tasks := w.tasks[child := ts])) == Parked(w)[child := Normal(ts.lbr)]
  {
    hide Normal;
    assert child !in w.on.Values;
  }

  lemma {:induction false} ForkTables(cfg: Config, k: Kernel, w: World, c: Cpu, child: Task)
    requires Simulates(k, w) && Enabled(w, Fork(c, child))
    ensures var (k', r) := Step(cfg, k, Fork(c, child));
            var w' := WorldStep(cfg, w, Fork(c, child)).0;
            (forall kind :: TableOk(kind, k', w')) && (r.killed <==> !SaveLbr(k.cache, child, Hw(k, c)).1)
  {
    hide Simulates, Holds, TableOf, StacksOf, CopyEntry, SaveLbr, Parked;
    Running(k, w, c);
    var parent := w.on[c];
    var (k', r) := Step(cfg, k, Fork(c, child));
    var w' := WorldStep(cfg, w, Fork(c, child)).0;
    CopyInStep(Lib, k, w, parent, child);
    CopyInStep(Cbk, k, w, parent, child);
    CopyInStep(Sig, k, w, parent, child);
    forall kind
      ensures TableOk(kind, k', w')
    {
      TableUpdated(kind, k', w, child, w.tasks[parent]);
    }
  }

  lemma {:induction false} ForkInStep(cfg: Config, k: Kernel, w: World, c: Cpu, child: Task)
    requires Simulates(k, w) && Enabled(w, Fork(c, child))
    ensures InStep(cfg, k, w, Fork(c, child))
  {
    hide Represents, Normal, Parked, TableOk, TableOf, CopyEntry, SaveLbr;
    Running(k, w, c);
    ForkTables(cfg, k, w, c, child);
    ParkedFork(w, child, w.tasks[w.on[c]]);
    SaveParks(k.cache, Parked(w), child, Hw(k, c));
  }

  lemma ParkedExit(w: World, c: Cpu)
    requires c in w.on && w.on[c] in w.tasks
    requires forall d :: d in w.on && w.on[d] == w.on[c] ==> d == c
    ensures Parked(World(w.tasks[w.on[c] := w.tasks[w.on[c]].(alive := false)], w.on - {c})) == Parked(w)
  {
    hide Normal;
    var on' := w.on - {c};
    forall t ensures t in on'.Values <==> t in w.on.Values && t != w.on[c] {
      if t in w.on.Values && t != w.on[c] {
        var d :| d in w.on && w.on[d] == t;
        assert d in on' && on'[d] == t;
      }
    }
  }

  lemma {:induction false} ExitInStep(cfg: Config, k: Kernel, w: World, c: Cpu)
    requires Simulates(k, w) && Enabled(w, Exit(c))
    ensures InStep(cfg, k, w, Exit(c))
  {
    hide Represents, Normal, Parked, TableOk;
    var t := w.on[c];
    var ts := w.tasks[t].(alive := false);
    var k' := Step(cfg, k, Exit(c)).0;
    var w' := WorldStep(cfg, w, Exit(c)).0;
    ParkedExit(w, c);
    forall kind
      ensures TableOk(kind, k', w')
    {
      TableKept(kind, k, k', w, t, ts);
      SameTables(kind, k', w.(tasks := w.tasks[t := ts]), w');
    }
  }

  lemma SameTables(kind: Kind, k: Kernel, w: World, w': World)
    requires TableOk(kind, k, w) && w'.tasks == w.tasks
    ensures TableOk(kind, k, w')
  {
    hide Holds, StacksOf;
    assert TableOf(kind, w') == TableOf(kind, w);
  }

  lemma ParkedReap(w: World, t: Task)
    requires t in w.tasks && !w.tasks[t].alive
    ensures Parked(w.(tasks := w.tasks - {t})) == Parked(w)
  {
    hide Normal;
  }

  lemma {:induction false} WipeInStep(kind: Kind, k: Kernel, w: World, t: Task, k': Kernel)
    requires TableOk(kind, k, w) && TableIn(k', kind) == WipeEntry(TableIn(k, kind), t)
    ensures TableOk(kind, k', w.(tasks := w.tasks - {t}))
  {
    hide StacksOf, Holds, WipeEntry;
    WipeEntryHolds(TableIn(k, kind), TableOf(kind, w), t);
    assert TableOf(kind, w.(tasks := w.tasks - {t})) == TableOf(kind, w) - {t};
  }

  lemma {:induction false} ReapInStep(cfg: Config, k: Kernel, w: World, t: Task)
    requires Simulates(k, w) && Enabled(w, Reap(t))
    ensures InStep(cfg, k, w, Reap(t))
  {
    hide Represents, Normal, TableOk, Parked, WipeEntry;
    var k' := Step(cfg, k, Reap(t)).0;
    var w' := WorldStep(cfg, w, Reap(t)).0;
    ParkedReap(w, t);
    forall kind
      ensures TableOk(kind, k', w')
    {
      WipeInStep(kind, k, w, t, k');
    }
  }

  lemma ForeignInStep(cfg: Config, k: Kernel, w: World, c: Cpu, from: U64, to: U64)
    requires Simulates(k, w) && Enabled(w, Foreign(c, from, to))
    ensures InStep(cfg, k, w, Foreign(c, from, to))
  {
    hide Represents, Normal, TableOk, Branch;
    TablesByTasks(k, w, Step(cfg, k, Foreign(c, from, to)).0, w);
  }

  // ----- Runs

  /** Every enabled action keeps the machines in step, and the kernel never kills for it. */
  lemma {:induction false} EveryActionInStep(cfg: Config, k: Kernel, w: World, act: Action)
    requires Simulates(k, w) && Enabled(w, act)
    ensures InStep(cfg, k, w, act)
  {
    hide Simulates, Enabled, InStep;
    match act {
      case Do(c, ev) =>
        match ev {
          case Jump(_, _) => QuietInStep(cfg, k, w, c, ev);
          case Validate => QuietInStep(cfg, k, w, c, ev);
          case LibEnter(ret) => LibEnterInStep(cfg, k, w, c, ret);
          case LibReturn(wanted) => LibReturnInStep(cfg, k, w, c, wanted);
          case CbkEnter(ret) => CbkEnterInStep(cfg, k, w, c, ret);
          case CbkReturn => CbkReturnInStep(cfg, k, w, c);
          case SigEnter(handler) =>
            if handler == 0 { QuietInStep(cfg, k, w, c, ev); } else { SigEnterInStep(cfg, k, w, c, handler); }
          case SigReturn => SigReturnInStep(cfg, k, w, c);
        }
      case SchedOut(c) => SchedOutInStep(cfg, k, w, c);
      case SchedIn(c, t) => SchedInInStep(cfg, k, w, c, t);
      case Fork(c, child) => ForkInStep(cfg, k, w, c, child);
      case Exit(c) => ExitInStep(cfg, k, w, c);
      case Reap(t) => ReapInStep(cfg, k, w, t);
      case Foreign(c, from, to) => ForeignInStep(cfg, k, w, c, from, to);
    }
  }

  /** Every running task finds the branches of its private LBR in the registers, every waiting one in
      its cache slot. */
  ghost predicate OwnBranches(k: Kernel, w: World) {
    && (forall c :: c in w.on && w.on[c] in w.tasks ==> SameBranches(Hw(k, c), w.tasks[w.on[c]].lbr))
    && (forall i :: 0 <= i < |k.cache| && k.cache[i].task.Some? && k.cache[i].task.value in w.tasks ==>
         Shows(k.cache[i].payload, w.tasks[k.cache[i].task.value].lbr))
  }

  lemma SimulatesOwn(k: Kernel, w: World)
    requires Simulates(k, w)
    ensures OwnBranches(k, w)
  {
    hide Normal, Shows, SameBranches, TableOk;
    forall c | c in w.on && w.on[c] in w.tasks
      ensures SameBranches(Hw(k, c), w.tasks[w.on[c]].lbr)
    {
      NormalAgrees(Hw(k, c), w.tasks[w.on[c]].lbr);
    }
    forall i | 0 <= i < |k.cache| && k.cache[i].task.Some? && k.cache[i].task.value in w.tasks
      ensures Shows(k.cache[i].payload, w.tasks[k.cache[i].task.value].lbr)
    {
      var t := k.cache[i].task.value;
      assert t in Parked(w) && k.cache[i].payload == Normal(w.tasks[t].lbr);
      NormalShows(w.tasks[t].lbr);
    }
  }

  /** A validation reads the branches of the private LBR. */
  lemma ValidateReads(cfg: Config, k: Kernel, w: World, c: Cpu)
    requires Simulates(k, w) && c in w.on
    ensures w.on[c] in w.tasks
    ensures var r := Step(cfg, k, Do(c, Validate)).1;
            r.image.Some? && Shows(r.image.value, w.tasks[w.on[c]].lbr) && r == SILENT.(image := r.image)
  {
    hide Simulates, Normal, Shows;
    Running(k, w, c);
    NormalShows(w.tasks[w.on[c]].lbr);
  }

  /** The main result: over every enabled run, of any length and interleaving, the kernel module
      and the private machine give the same replies and end in corresponding states. */
  lemma {:induction false} RunsRefine(cfg: Config, k: Kernel, w: World, actions: seq<Action>)
    requires Simulates(k, w) && EnabledRun(cfg, w, actions)
    ensures Run(cfg, k, actions).1 == WorldRun(cfg, w, actions).1
    ensures Simulates(Run(cfg, k, actions).0, WorldRun(cfg, w, actions).0)
    ensures OwnBranches(Run(cfg, k, actions).0, WorldRun(cfg, w, actions).0)
    decreases actions
  {
    hide Simulates, Enabled, Step, WorldStep, OwnBranches;
    SimulatesOwn(k, w);
    if actions != [] {
      EveryActionInStep(cfg, k, w, actions[0]);
      RunsRefine(cfg, Step(cfg, k, actions[0]).0, WorldStep(cfg, w, actions[0]).0, actions[1..]);
    }
  }

  // ----- The start, and the exact limits

  /** `ARMOR_IOC_INIT`: empty tables, and one task on a CPU with a flushed, enabled LBR. */
  ghost predicate Booted(k: Kernel, w: World, c: Cpu, t: Task) {
    && k.on == map[c := t] && w == World(map[t := TaskState(Hw(k, c), [], true)], map[c := t])
    && |k.cache| == LBR_CACHE_SIZE && (forall i :: 0 <= i < |k.cache| ==> k.cache[i].task == None)
    && (forall kind :: |TableIn(k, kind)| == Size(kind) && forall i :: 0 <= i < Size(kind) ==> TableIn(k, kind)[i] == Slot(None, NO_STACKS))
  }

  lemma BootSimulates(k: Kernel, w: World, c: Cpu, t: Task)
    requires Booted(k, w, c, t)
    ensures Simulates(k, w)
  {
  }

  /** A context switch keeps a task's LBR if and only if the cache is not full. */
  lemma {:induction false} SchedOutExact(cfg: Config, k: Kernel, w: World, c: Cpu)
    requires Simulates(k, w) && c in w.on
    ensures Simulates(Step(cfg, k, SchedOut(c)).0, w.(on := w.on - {c})) <==> |Parked(w)| < LBR_CACHE_SIZE
    ensures Step(cfg, k, SchedOut(c)).1 == SILENT
  {
    hide Normal, TableOk, Parked, Placed;
    Running(k, w, c);
    if |Parked(w)| < LBR_CACHE_SIZE {
      SchedOutInStep(cfg, k, w, c);
    } else {
      assert Represents(k.cache, Parked(w));
      OneCpu(k, w, c);
      ParkedOut(w, c);
      SaveParks(k.cache, Parked(w), w.on[c], Hw(k, c));
      assert Step(cfg, k, SchedOut(c)).0.cache == k.cache;
      assert Find(k.cache, Some(w.on[c])) == |k.cache|;
    }
  }

  /** What each event of a running task does to the registers it finds: a branch is appended if recording
      is on; library calls only switch recording; a callback starts with an empty, enabled LBR, a
      signal handler with the call to it; signals without a handler do nothing. */
  lemma {:induction false} RegistersAfter(cfg: Config, k: Kernel, c: Cpu, ev: Event)
    requires c in k.on && !ev.CbkReturn? && !ev.SigReturn?
    ensures var k' := Step(cfg, k, Do(c, ev)).0;
            var before, after := OldestFirst(Hw(k, c)), OldestFirst(Hw(k', c));
            && (forall d :: d != c ==> Hw(k', d) == Hw(k, d)) && k'.on == k.on && k'.cache == k.cache
            && (ev.Jump? ==> after == (if Recording(Hw(k, c)) then before[1..] + [Entry(ev.from, ev.to)] else before))
            && (ev.Jump? || ev.Validate? || ev == SigEnter(0) ==> (Recording(Hw(k', c)) <==> Recording(Hw(k, c))))
            && (ev.Validate? || ev.LibEnter? || ev.LibReturn? || ev == SigEnter(0) ==> after == before)
            && (ev.LibEnter? ==> !Recording(Hw(k', c))) && (ev.LibReturn? ==> Recording(Hw(k', c)))
            && (ev.CbkEnter? ==> Recording(Hw(k', c)) && forall i :: 0 <= i < LBR_SIZE ==> after[i] == EMPTY)
            && (ev.SigEnter? && ev.handler != 0 ==>
                 && after[LBR_SIZE - 1] == Entry(cfg.callSource, ev.handler) && (forall i :: 0 <= i < LBR_SIZE - 1 ==> after[i] == EMPTY)
                 && (Recording(Hw(k', c)) <==> ev.handler > cfg.codeStart && ev.handler < cfg.codeEnd))
            && (ev == LibEnter(0) || ev == LibReturn(false) || ev == SigEnter(0) || ev.Jump? || ev.Validate? ==>
                 k'.lib == k.lib && k'.cbk == k.cbk && k'.sig == k.sig && Step(cfg, k, Do(c, ev)).1.(image := None) == SILENT)
  {
    hide LibInit, LibExit, CbkInit, SigInit, Normal, Flush, SigStart, Branch, OldestFirst;
    match ev {
      case Jump(from, to) => BranchAppends(Hw(k, c), from, to);
      case CbkEnter(_) => FlushView(Hw(k, c));
      case SigEnter(handler) => SigStartView(cfg, Hw(k, c), handler);
      case LibEnter(_) => DebugView(Hw(k, c), 0);
      case LibReturn(_) => DebugView(Hw(k, c), 1);
      case Validate =>
    }
  }

  lemma FlushView(l: Image)
    ensures Recording(Flush(l, true)) && forall i :: 0 <= i < LBR_SIZE ==> OldestFirst(Flush(l, true))[i] == EMPTY
  {
  }

  lemma DebugView(l: Image, d: U64)
    ensures OldestFirst(l.(debug := d)) == OldestFirst(l)
  {
  }

  /** After a context switch other processes leave no branches in the registers. */
  lemma SwitchedOutIsSilent(cfg: Config, k: Kernel, c: Cpu, from: U64, to: U64)
    requires c in k.on
    ensures var k' := Step(cfg, k, SchedOut(c)).0;
            && c !in k'.on && !Recording(Hw(k', c))
            && Hw(Step(cfg, k', Foreign(c, from, to)).0, c) == Hw(k', c)
            && OldestFirst(Hw(k', c)) == OldestFirst(Hw(k, c))
  {
  }

  /** A task whose LBR was not saved goes on with the registers as it finds them. */
  lemma LostLbrStaysLost(cfg: Config, k: Kernel, c: Cpu, t: Task)
    requires forall i :: 0 <= i < |k.cache| ==> k.cache[i].task != Some(t)
    ensures var k' := Step(cfg, k, SchedIn(c, t)).0; Hw(k', c) == Hw(k, c) && k'.cache == k.cache
  {
  }

  lemma OneCpu(k: Kernel, w: World, c: Cpu)
    requires Placed(k, w) && c in w.on
    ensures forall d :: d in w.on && w.on[d] == w.on[c] ==> d == c
  {
  }

  /** Entering a frame kills a task if and only if its stack is full or, for its first frame of
      that kind, all slots are taken. */
  lemma EnterKillsExactly(cfg: Config, k: Kernel, w: World, c: Cpu, ev: Event)
    requires Simulates(k, w) && c in w.on && Needs(ev).Some?
    ensures w.on[c] in w.tasks
    ensures Step(cfg, k, Do(c, ev)).1.killed <==>
            !(Room(Needs(ev).value, w, w.on[c]) && CanDo(w.tasks[w.on[c]], ev))
  {
    hide Simulates, TableOf, StacksOf, Holds, Normal;
    Running(k, w, c);
    var t, kind := w.on[c], Needs(ev).value;
    TableFacts(kind, k, w, t);
    StacksShape(kind, w.tasks[t].frames);
    EntryKilledExactly(TableIn(k, kind), TableOf(kind, w), t);
  }

  /** The kind of frame an event leaves, if the kernel looks one up. */
  function Leaves(ev: Event): Option<Kind> {
    match ev
    case LibReturn(wanted) => if wanted then Some(Lib) else None
    case CbkReturn => Some(Cbk)
    case SigReturn => Some(Sig)
    case _ => None
  }

  predicate IsOfKind(kind: Kind, f: Frame) {
    match kind case Lib => f.LibFrame? case Cbk => f.CbkFrame? case Sig => f.SigFrame?
  }

  lemma {:induction false} NoFrameNoStacks(kind: Kind, frames: seq<Frame>)
    ensures StacksOf(kind, frames) == NO_STACKS <==> forall f :: f in frames ==> !IsOfKind(kind, f)
    decreases |frames|
  {
    if frames != [] {
      var below, f := frames[..|frames| - 1], Top(frames);
      NoFrameNoStacks(kind, below);
      assert frames == below + [f];
      if IsOfKind(kind, f) {
        assert f in frames && StacksOf(kind, frames) != NO_STACKS;
      } else {
        assert StacksOf(kind, frames) == StacksOf(kind, below);
        assert forall h :: h in frames <==> h in below || h == f;
      }
    }
  }

  /** Leaving a frame kills a task if and only if it has no open frame of that kind; then the reply is a
      zero return address, nothing is popped, and no image is written back. */
  lemma {:induction false} ExitKillsExactly(cfg: Config, k: Kernel, w: World, c: Cpu, ev: Event)
    requires Simulates(k, w) && c in w.on && Leaves(ev).Some?
    ensures w.on[c] in w.tasks
    ensures var (k', r) := Step(cfg, k, Do(c, ev));
            && (r.killed <==> forall f :: f in w.tasks[w.on[c]].frames ==> !IsOfKind(Leaves(ev).value, f))
            && (r.killed ==> r.ret == 0 && k'.lib == k.lib && k'.cbk == k.cbk && k'.sig == k.sig)
            && (r.killed && !ev.LibReturn? ==> Hw(k', c) == Hw(k, c))
  {
    hide Simulates, TableOf, StacksOf, Holds, Normal;
    Running(k, w, c);
    var t, kind := w.on[c], Leaves(ev).value;
    TableFacts(kind, k, w, t);
    HoldsFound(TableIn(k, kind), TableOf(kind, w), t);
    StacksShape(kind, w.tasks[t].frames);
    NoFrameNoStacks(kind, w.tasks[t].frames);
    CurrentIs(TableOf(kind, w), t);
  }

  lemma CurrentIs(m: map<Task, Stacks>, t: Task)
    ensures t in m ==> Current(m, t) == m[t]
  {
  }

  /** An enter that kills for a full stack changes no table; one that kills for lack of a slot has used
      slot 0 of another task, as the source says, and changes no other slot. */
  lemma {:induction false} KilledEnter(cfg: Config, k: Kernel, w: World, c: Cpu, ret: U64)
    requires Simulates(k, w) && c in w.on && ret != 0
    ensures var (k', r) := Step(cfg, k, Do(c, LibEnter(ret)));
            && w.on[c] in w.tasks && k'.cbk == k.cbk && k'.sig == k.sig
            && (r.killed && Room(Lib, w, w.on[c]) ==> k'.lib == k.lib)
            && (r.killed && !Room(Lib, w, w.on[c]) ==>
                 && |k.lib| == |k'.lib| == LIB_CACHE_SIZE && (forall i :: 1 <= i < LIB_CACHE_SIZE ==> k'.lib[i] == k.lib[i])
                 && k.lib[0].task.Some? && k.lib[0].task != Some(w.on[c]) && k'.lib[0].task == k.lib[0].task
                 && k'.lib[0].payload.lbrs == k.lib[0].payload.lbrs
                 && k'.lib[0].payload.rets == k.lib[0].payload.rets + if |k.lib[0].payload.rets| < STACKSIZE then [ret] else [])
  {
    hide Simulates, TableOf, StacksOf, Holds, Normal;
    Running(k, w, c);
    var t := w.on[c];
    TableFacts(Lib, k, w, t);
    HoldsFound(k.lib, TableOf(Lib, w), t);
    SlotIfRoom(k.lib, TableOf(Lib, w));
    CurrentIs(TableOf(Lib, w), t);
    FreeIsEmpty(k.lib, TableOf(Lib, w));
  }

  lemma SlotIfRoom(s: Table, m: map<Task, Stacks>)
    requires Holds(s, m)
    ensures Find(s, None) < |s| <==> |m| < |s|
  {
    FreeSlot(s, m);
  }

  lemma FreeIsEmpty(s: Table, m: map<Task, Stacks>)
    requires Holds(s, m)
    ensures forall i :: 0 <= i < |s| && s[i].task == None ==> s[i].payload == NO_STACKS
  {
  }

  lemma EntryKilledExactly(s: Table, m: map<Task, Stacks>, t: Task)
    requires Holds(s, m)
    ensures FindEntry(s, t).2 <==> !(t in m || |m| < |s|)
    ensures !FindEntry(s, t).2 ==> FindEntry(s, t).0[FindEntry(s, t).1].payload == Current(m, t)
  {
    hide Represents;
    HoldsFound(s, m, t);
    FreeSlot(s, m);
  }

  lemma CopyKilledExactly(s: Table, m: map<Task, Stacks>, parent: Task, child: Task, rets: bool, lbrs: bool)
    requires Holds(s, m) && child !in m
    ensures CopyEntry(s, parent, child, rets, lbrs).1 <==> parent in m && |m| >= |s|
  {
    FindLastHolds(s, m, parent);
    EntryKilledExactly(s, m, child);
  }

  /** A fork kills the parent if and only if one of the tables or the LBR cache has no slot for the
      child. */
  lemma ForkKillsExactly(cfg: Config, k: Kernel, w: World, c: Cpu, child: Task)
    requires Simulates(k, w) && c in w.on && child !in w.tasks
    ensures Step(cfg, k, Fork(c, child)).1.killed <==> !Enabled(w, Fork(c, child))
  {
    hide Simulates, TableOf, StacksOf, Holds, Normal, CopyEntry, SaveLbr, Represents, Parked;
    Running(k, w, c);
    var parent := w.on[c];
    forall kind
      ensures CopyEntry(TableIn(k, kind), parent, child, kind != Sig, kind != Lib).1 <==>
              parent in TableOf(kind, w) && |TableOf(kind, w)| >= Size(kind)
    {
      TableFacts(kind, k, w, parent);
      TableOfCurrent(kind, w, child);
      CopyKilledExactly(TableIn(k, kind), TableOf(kind, w), parent, child, kind != Sig, kind != Lib);
    }
    CacheFacts(k, w, child);
    SaveParks(k.cache, Parked(w), child, Hw(k, c));
    assert TableIn(k, Lib) == k.lib && TableIn(k, Cbk) == k.cbk && TableIn(k, Sig) == k.sig;
  }

  lemma CacheFacts(k: Kernel, w: World, t: Task)
    requires Simulates(k, w)
    ensures |k.cache| == LBR_CACHE_SIZE && Represents(k.cache, Parked(w))
    ensures t !in w.tasks ==> t !in Parked(w)
  {
  }

  /** What holds of the arrays in every simulated state: no task owns two slots of an array, running
      tasks own no cache slot, free slots hold no stacks, and callback slots hold as many return
      addresses as images. */
  lemma ArraysOk(k: Kernel, w: World)
    requires Simulates(k, w)
    ensures Distinct(k.cache) && forall kind :: Distinct(TableIn(k, kind))
    ensures forall t :: t in w.on.Values ==> Find(k.cache, Some(t)) == |k.cache|
    ensures forall t :: t in w.tasks && w.tasks[t].alive && t !in w.on.Values ==> Find(k.cache, Some(t)) < |k.cache|
    ensures forall kind, i :: 0 <= i < |TableIn(k, kind)| && TableIn(k, kind)[i].task == None ==>
              TableIn(k, kind)[i].payload == NO_STACKS
    ensures forall i :: 0 <= i < |k.cbk| ==> |k.cbk[i].payload.rets| == |k.cbk[i].payload.lbrs|
  {
    forall kind
      ensures Distinct(TableIn(k, kind))
      ensures forall i :: 0 <= i < |TableIn(k, kind)| && TableIn(k, kind)[i].task == None ==>
                TableIn(k, kind)[i].payload == NO_STACKS
    {
      assert TableOk(kind, k, w);
    }
    forall t | t in w.on.Values
      ensures Find(k.cache, Some(t)) == |k.cache|
    {
      assert t !in Parked(w);
    }
    forall t | t in w.tasks && w.tasks[t].alive && t !in w.on.Values
      ensures Find(k.cache, Some(t)) < |k.cache|
    {
      assert t in Parked(w);
    }
    assert TableOk(Cbk, k, w);
    forall i | 0 <= i < |k.cbk|
      ensures |k.cbk[i].payload.rets| == |k.cbk[i].payload.lbrs|
    {
      if k.cbk[i].task.Some? {
        var t := k.cbk[i].task.value;
        assert t in TableOf(Cbk, w);
        StacksShape(Cbk, w.tasks[t].frames);
      }
    }
  }
}
