/** What an exit brings back: whatever happened since the matching enter, in this task, in its forked
    children and in all other tasks, leaving a frame yields the return address and the LBR of its
    enter, in the kernel's replies and registers.
 */
module FrameNesting {
  import opened ControlFlow
  import opened Lbr
  import opened SlotTable
  import opened KernelSteps
  import opened PrivateMachine
  import opened Refinement
  import opened RecordingInvariant

  predicate IsLib(f: Frame) {
    f.LibFrame? || f.BareLibFrame?
  }

  /** Only library calls were entered from frame n on. */
  predicate InLibrary(frames: seq<Frame>, n: nat)
    requires n <= |frames|
  {
    forall i :: n <= i < |frames| ==> IsLib(frames[i])
  }

  /** This event is a branch recorded in library code directly above depth n. */
  predicate Leaks(ts: TaskState, n: nat, ev: Event)
    requires n <= |ts.frames|
  {
    ev.Jump? && Recording(ts.lbr) && InLibrary(ts.frames, n)
  }

  /** The tasks inside a frame at depth n: the one that entered it and the children forked in it,
      until they leave it or are cleaned up; each with the branches recorded in library code there. */
  ghost function InsideStep(cfg: Config, w: World, inside: map<Task, nat>, n: nat, act: Action): map<Task, nat>
    requires Enabled(w, act)
  {
    match act
    case Do(c, ev) =>
      var t := w.on[c];
      if t !in inside || |w.tasks[t].frames| < n then inside
      else if |PrivateStep(cfg, w.tasks[t], ev).0.frames| < n then inside - {t}
      else if Leaks(w.tasks[t], n, ev) then inside[t := inside[t] + 1]
      else inside
    case Fork(c, child) => if w.on[c] in inside then inside[child := inside[w.on[c]]] else inside
    case Reap(t) => inside - {t}
    case _ => inside
  }

  ghost function Inside(cfg: Config, w: World, inside: map<Task, nat>, n: nat, actions: seq<Action>): map<Task, nat>
    requires EnabledRun(cfg, w, actions)
    decreases actions
  {
    if actions == [] then inside
    else Inside(cfg, WorldStep(cfg, w, actions[0]).0, InsideStep(cfg, w, inside, n, actions[0]), n, actions[1..])
  }

  // ----- What stays the same inside a frame

  /** The LBR at depth n: the one saved by the first callback or signal frame above, or the current. */
  ghost function LbrAt(lbr: Image, frames: seq<Frame>, n: nat): Image
    requires n <= |frames|
    decreases |frames|
  {
    if |frames| == n then lbr
    else
      var f := Top(frames);
      LbrAt(if IsLib(f) then lbr else f.saved, frames[..|frames| - 1], n)
  }

  /** Up to its enable bit, the LBR at depth n is the one of the enter plus the leaked branches. */
  ghost predicate Kept(lbr: Image, now: Image, leaks: nat) {
    now.tos == (lbr.tos + leaks) % LBR_SIZE && (leaks == 0 ==> now.(debug := 0) == lbr.(debug := 0))
  }

  /** Inside: the frames up to depth n are those of the enter. */
  ghost predicate Holding(ts: TaskState, frames: seq<Frame>, lbr: Image, leaks: nat) {
    |ts.frames| >= |frames| && ts.frames[..|frames|] == frames && Kept(lbr, LbrAt(ts.lbr, ts.frames, |frames|), leaks)
  }

  lemma {:induction false} LbrAtCases(a: Image, b: Image, frames: seq<Frame>, n: nat)
    requires n <= |frames|
    ensures if InLibrary(frames, n) then LbrAt(a, frames, n) == a else LbrAt(a, frames, n) == LbrAt(b, frames, n)
    decreases |frames|
  {
    if |frames| > n {
      var below := frames[..|frames| - 1];
      if IsLib(Top(frames)) {
        LbrAtCases(a, b, below, n);
        assert InLibrary(below, n) <==> InLibrary(frames, n);
      }
    }
  }

  /** Switching recording on or off does not touch the rest. */
  lemma DebugKept(lbr: Image, l: Image, d: U64, frames: seq<Frame>, n: nat, leaks: nat)
    requires n <= |frames| && Kept(lbr, LbrAt(l, frames, n), leaks)
    ensures Kept(lbr, LbrAt(l.(debug := d), frames, n), leaks)
  {
    LbrAtCases(l, l.(debug := d), frames, n);
    LbrAtCases(l.(debug := d), l, frames, n);
  }

  lemma JumpKept(lbr: Image, ts: TaskState, ev: Event, n: nat, leaks: nat)
    requires n <= |ts.frames| && ev.Jump? && Kept(lbr, LbrAt(ts.lbr, ts.frames, n), leaks)
    ensures Kept(lbr, LbrAt(Branch(ts.lbr, ev.from, ev.to), ts.frames, n), if Leaks(ts, n, ev) then leaks + 1 else leaks)
  {
    LbrAtCases(ts.lbr, Branch(ts.lbr, ev.from, ev.to), ts.frames, n);
    LbrAtCases(Branch(ts.lbr, ev.from, ev.to), ts.lbr, ts.frames, n);
  }

  lemma PushKept(ts: TaskState, f: Frame, lbr': Image, n: nat)
    requires n <= |ts.frames|
    ensures LbrAt(lbr', ts.frames + [f], n) == LbrAt(if IsLib(f) then lbr' else f.saved, ts.frames, n)
    ensures (ts.frames + [f])[..n] == ts.frames[..n]
  {
    assert (ts.frames + [f])[..|ts.frames|] == ts.frames;
  }

  lemma EnterHolding(cfg: Config, ts: TaskState, ev: Event, frames: seq<Frame>, lbr: Image, leaks: nat)
    requires Holding(ts, frames, lbr, leaks) && CanDo(ts, ev) && (ev.LibEnter? || ev.CbkEnter? || ev.SigEnter?)
    ensures Holding(PrivateStep(cfg, ts, ev).0, frames, lbr, leaks)
  {
    hide Kept, StacksOf, Flush, SigStart;
    var n, l := |frames|, ts.lbr;
    if ev.LibEnter? {
      PushKept(ts, if ev.ret != 0 then LibFrame(ev.ret) else BareLibFrame, l.(debug := 0), n);
      DebugKept(lbr, l, 0, ts.frames, n, leaks);
    } else if ev.CbkEnter? {
      PushKept(ts, CbkFrame(ev.ret, l), Flush(l, true), n);
    } else if ev.handler != 0 {
      PushKept(ts, SigFrame(InTargetCode(cfg, ev.handler), l), SigStart(cfg, l, ev.handler), n);
    }
  }

  /** A step that stays in the frame keeps what its exit needs. */
  lemma {:induction false} StepHolding(cfg: Config, ts: TaskState, ev: Event, frames: seq<Frame>, lbr: Image, leaks: nat)
    requires Holding(ts, frames, lbr, leaks) && CanDo(ts, ev)
    requires |PrivateStep(cfg, ts, ev).0.frames| >= |frames|
    ensures Holding(PrivateStep(cfg, ts, ev).0, frames, lbr, if Leaks(ts, |frames|, ev) then leaks + 1 else leaks)
  {
    hide Kept, StacksOf, InLibrary, Branch, Flush, SigStart;
    var n := |frames|;
    if ev.LibEnter? || ev.CbkEnter? || ev.SigEnter? {
      EnterHolding(cfg, ts, ev, frames, lbr, leaks);
    } else if ev.Jump? {
      JumpKept(lbr, ts, ev, n, leaks);
    } else if ev.LibReturn? {
      DebugKept(lbr, ts.lbr, 1, ts.frames[..|ts.frames| - 1], n, leaks);
    }
  }

  // ----- Whole runs, with all other tasks

  ghost predicate AllHolding(w: World, inside: map<Task, nat>, frames: seq<Frame>, lbr: Image) {
    forall t :: t in inside ==> t in w.tasks && Holding(w.tasks[t], frames, lbr, inside[t])
  }

  lemma ActionHolding(cfg: Config, w: World, inside: map<Task, nat>, act: Action, frames: seq<Frame>, lbr: Image)
    requires Enabled(w, act) && AllHolding(w, inside, frames, lbr)
    ensures AllHolding(WorldStep(cfg, w, act).0, InsideStep(cfg, w, inside, |frames|, act), frames, lbr)
  {
    hide Kept, CanDo, Room, PrivateStep, LbrAt, Leaks;
    if act.Do? && w.on[act.cpu] in inside {
      var t := w.on[act.cpu];
      if |PrivateStep(cfg, w.tasks[t], act.ev).0.frames| >= |frames| {
        StepHolding(cfg, w.tasks[t], act.ev, frames, lbr, inside[t]);
      }
    }
  }

  lemma {:induction false} RunHolding(cfg: Config, w: World, inside: map<Task, nat>, actions: seq<Action>, frames: seq<Frame>, lbr: Image)
    requires EnabledRun(cfg, w, actions) && AllHolding(w, inside, frames, lbr)
    ensures AllHolding(WorldRun(cfg, w, actions).0, Inside(cfg, w, inside, |frames|, actions), frames, lbr)
    decreases actions
  {
    hide Enabled, WorldStep, AllHolding, InsideStep;
    if actions != [] {
      ActionHolding(cfg, w, inside, actions[0], frames, lbr);
      RunHolding(cfg, WorldStep(cfg, w, actions[0]).0, InsideStep(cfg, w, inside, |frames|, actions[0]), actions[1..], frames, lbr);
    }
  }

  predicate OpensFrame(ev: Event) {
    ev.LibEnter? || ev.CbkEnter? || (ev.SigEnter? && ev.handler != 0)
  }

  /** The exit that belongs to an enter. */
  function Closing(enter: Event): Event
    requires OpensFrame(enter)
  {
    match enter
    case LibEnter(ret) => LibReturn(ret != 0)
    case CbkEnter(_) => CbkReturn
    case SigEnter(_) => SigReturn
  }

  /** A frame is entered on CPU c0, then anything happens, and on CPU c1 runs a task that is inside
      that frame and in no deeper one. */
  ghost predicate AboutToLeave(cfg: Config, w: World, c0: Cpu, enter: Event, actions: seq<Action>, c1: Cpu) {
    && OpensFrame(enter) && Enabled(w, Do(c0, enter))
    && var n := |w.tasks[w.on[c0]].frames| + 1;
    var w1 := WorldStep(cfg, w, Do(c0, enter)).0;
    && EnabledRun(cfg, w1, actions)
    && var w2 := WorldRun(cfg, w1, actions).0;
    && c1 in w2.on && w2.on[c1] in w2.tasks && |w2.tasks[w2.on[c1]].frames| == n
    && w2.on[c1] in Inside(cfg, w1, map[w.on[c0] := 0], n, actions)
  }

  /** How many branches were recorded in library code directly inside the frame. */
  ghost function Leaked(cfg: Config, w: World, c0: Cpu, enter: Event, actions: seq<Action>, c1: Cpu): nat
    requires AboutToLeave(cfg, w, c0, enter, actions, c1)
  {
    var n := |w.tasks[w.on[c0]].frames| + 1;
    var w1 := WorldStep(cfg, w, Do(c0, enter)).0;
    Inside(cfg, w1, map[w.on[c0] := 0], n, actions)[WorldRun(cfg, w1, actions).0.on[c1]]
  }

  /** A task about to leave has the frames of the enter, and its LBR is that of the enter plus the
      leaked branches. */
  lemma {:induction false} LeavingState(cfg: Config, w: World, c0: Cpu, enter: Event, actions: seq<Action>, c1: Cpu)
    requires AboutToLeave(cfg, w, c0, enter, actions, c1)
    ensures var entered := PrivateStep(cfg, w.tasks[w.on[c0]], enter).0;
            var w2 := WorldRun(cfg, WorldStep(cfg, w, Do(c0, enter)).0, actions).0;
            var inner := w2.tasks[w2.on[c1]];
            inner.frames == entered.frames && Kept(entered.lbr, inner.lbr, Leaked(cfg, w, c0, enter, actions, c1))
  {
    hide EnabledRun, WorldRun, Inside, Kept, StacksOf, Room, Flush, SigStart;
    var t := w.on[c0];
    var entered := PrivateStep(cfg, w.tasks[t], enter).0;
    var n := |w.tasks[t].frames| + 1;
    var w1 := WorldStep(cfg, w, Do(c0, enter)).0;
    assert |entered.frames| == n && entered.frames[..n] == entered.frames;
    assert Kept(entered.lbr, entered.lbr, 0) by { KeptAtFirst(entered.lbr); }
    RunHolding(cfg, w1, map[t := 0], actions, entered.frames, entered.lbr);
    var w2 := WorldRun(cfg, w1, actions).0;
    var inner := w2.tasks[w2.on[c1]];
    assert Holding(inner, entered.frames, entered.lbr, Leaked(cfg, w, c0, enter, actions, c1));
    assert inner.frames[..n] == inner.frames;
  }

  lemma KeptAtFirst(lbr: Image)
    ensures Kept(lbr, lbr, 0)
  {
  }

  /** What the private machine does on leaving. */
  lemma {:induction false} PrivateExit(cfg: Config, ts: TaskState, enter: Event, inner: TaskState)
    requires OpensFrame(enter) && CanDo(ts, enter) && inner.frames == PrivateStep(cfg, ts, enter).0.frames
    ensures CanDo(inner, Closing(enter))
    ensures var (out, r) := PrivateStep(cfg, inner, Closing(enter));
            && out.frames == ts.frames && r == SILENT.(ret := if enter.SigEnter? then 0 else enter.ret)
            && out.lbr == if enter.LibEnter? then inner.lbr.(debug := 1) else ts.lbr
  {
    hide StacksOf, Flush, SigStart;
    assert inner.frames[..|ts.frames|] == ts.frames;
  }

  /** The kernel's state when the frame is left. */
  ghost function Meanwhile(cfg: Config, k: Kernel, c0: Cpu, enter: Event, actions: seq<Action>): Kernel {
    Run(cfg, Step(cfg, k, Do(c0, enter)).0, actions).0
  }

  /** The exit in the kernel is the exit in the private machine. */
  lemma {:induction false} KernelExit(cfg: Config, k: Kernel, w: World, c0: Cpu, enter: Event, actions: seq<Action>, c1: Cpu)
    requires Simulates(k, w) && AboutToLeave(cfg, w, c0, enter, actions, c1)
    ensures w.on[c0] in w.tasks && Normal(Hw(k, c0)) == Normal(w.tasks[w.on[c0]].lbr)
    ensures var w2 := WorldRun(cfg, WorldStep(cfg, w, Do(c0, enter)).0, actions).0;
            var inner := w2.tasks[w2.on[c1]];
            && CanDo(inner, Closing(enter))
            && var (k3, r) := Step(cfg, Meanwhile(cfg, k, c0, enter, actions), Do(c1, Closing(enter)));
            var (out, r') := PrivateStep(cfg, inner, Closing(enter));
            r == r' && Normal(Hw(k3, c1)) == Normal(out.lbr)
  {
    hide Simulates, PrivateStep, TaskEvent, Normal, Room, EnabledRun, WorldRun, Run, Inside;
    Running(k, w, c0);
    LeavingState(cfg, w, c0, enter, actions, c1);
    var k1, w1 := Step(cfg, k, Do(c0, enter)).0, WorldStep(cfg, w, Do(c0, enter)).0;
    EveryActionInStep(cfg, k, w, Do(c0, enter));
    RunsRefine(cfg, k1, w1, actions);
    var k2, w2 := Run(cfg, k1, actions).0, WorldRun(cfg, w1, actions).0;
    var leave := Closing(enter);
    PrivateExit(cfg, w.tasks[w.on[c0]], enter, w2.tasks[w2.on[c1]]);
    assert Enabled(w2, Do(c1, leave));
    EveryActionInStep(cfg, k2, w2, Do(c1, leave));
    Running(Step(cfg, k2, Do(c1, leave)).0, WorldStep(cfg, w2, Do(c1, leave)).0, c1);
  }

  // ----- The results, on the kernel's replies and registers

  /** Every exit yields the return address of its matching enter and does not kill, in the entering
      task and in every child forked in between, whatever all tasks did meanwhile; leaving a
      callback or signal frame brings back the LBR registers of the enter. */
  lemma {:induction false} ExitUndoesEnter(cfg: Config, k: Kernel, w: World, c0: Cpu, enter: Event, actions: seq<Action>, c1: Cpu)
    requires Simulates(k, w) && AboutToLeave(cfg, w, c0, enter, actions, c1)
    ensures var (k3, r) := Step(cfg, Meanwhile(cfg, k, c0, enter, actions), Do(c1, Closing(enter)));
            && r == SILENT.(ret := if enter.SigEnter? then 0 else enter.ret)
            && (!enter.LibEnter? ==> Normal(Hw(k3, c1)) == Normal(Hw(k, c0)))
  {
    hide Simulates, PrivateStep, Step, Meanwhile, Normal, Room, CanDo, EnabledRun, WorldRun, Inside;
    KernelExit(cfg, k, w, c0, enter, actions, c1);
    LeavingState(cfg, w, c0, enter, actions, c1);
    var w2 := WorldRun(cfg, WorldStep(cfg, w, Do(c0, enter)).0, actions).0;
    PrivateExit(cfg, w.tasks[w.on[c0]], enter, w2.tasks[w2.on[c1]]);
  }

  /** Leaving a library call: the LBR is that of the call, recording on, if no branch was recorded in
      library code meanwhile; and otherwise its top has moved by that many entries. */
  lemma {:induction false} LibReturnFindsCall(cfg: Config, k: Kernel, w: World, c0: Cpu, ret: U64, actions: seq<Action>, c1: Cpu)
    requires Simulates(k, w) && AboutToLeave(cfg, w, c0, LibEnter(ret), actions, c1)
    ensures var k3 := Step(cfg, Meanwhile(cfg, k, c0, LibEnter(ret), actions), Do(c1, LibReturn(ret != 0))).0;
            var leaked := Leaked(cfg, w, c0, LibEnter(ret), actions, c1);
            && Hw(k3, c1).tos == (Hw(k, c0).tos + leaked) % LBR_SIZE
            && (leaked < LBR_SIZE ==> (Normal(Hw(k3, c1)) == Normal(Hw(k, c0)).(debug := 1) <==> leaked == 0))
  {
    hide Simulates, Step, Meanwhile, Room, CanDo, EnabledRun, WorldRun, Inside, Cleared;
    KernelExit(cfg, k, w, c0, LibEnter(ret), actions, c1);
    LeavingState(cfg, w, c0, LibEnter(ret), actions, c1);
    var w2 := WorldRun(cfg, WorldStep(cfg, w, Do(c0, LibEnter(ret))).0, actions).0;
    PrivateExit(cfg, w.tasks[w.on[c0]], LibEnter(ret), w2.tasks[w2.on[c1]]);
  }

  // ----- When nothing leaks, and when something does

  lemma LibraryIsSilent(ts: TaskState, frames: seq<Frame>, lbr: Image, ev: Event)
    requires Tracks(ts) && Holding(ts, frames, lbr, 0) && frames != [] && IsLib(Top(frames))
    ensures !Leaks(ts, |frames|, ev)
  {
    hide Kept, LbrAt;
    if InLibrary(ts.frames, |frames|) {
      assert ts.frames[|frames| - 1] == frames[|frames| - 1];
      assert IsLib(Top(ts.frames));
    }
  }

  ghost predicate NoneLeaked(inside: map<Task, nat>) {
    forall t :: t in inside ==> inside[t] == 0
  }

  lemma SilentStep(cfg: Config, w: World, inside: map<Task, nat>, act: Action, frames: seq<Frame>, lbr: Image)
    requires Enabled(w, act) && WorldTracks(w) && AllHolding(w, inside, frames, lbr) && NoneLeaked(inside)
    requires frames != [] && IsLib(Top(frames))
    ensures NoneLeaked(InsideStep(cfg, w, inside, |frames|, act))
  {
    hide Tracks, Holding, PrivateStep, Leaks, CanDo, Room, IsLib;
    if act.Do? && w.on[act.cpu] in inside {
      LibraryIsSilent(w.tasks[w.on[act.cpu]], frames, lbr, act.ev);
    }
  }

  lemma {:induction false} SilentRun(cfg: Config, w: World, inside: map<Task, nat>, actions: seq<Action>, frames: seq<Frame>, lbr: Image)
    requires EnabledRun(cfg, w, actions) && HomeRun(cfg, w, actions) && WorldTracks(w)
    requires AllHolding(w, inside, frames, lbr) && NoneLeaked(inside) && frames != [] && IsLib(Top(frames))
    ensures NoneLeaked(Inside(cfg, w, inside, |frames|, actions))
    decreases actions
  {
    hide Enabled, WorldStep, AllHolding, InsideStep, WorldTracks, NoneLeaked, HomeAction;
    if actions != [] {
      ActionHolding(cfg, w, inside, actions[0], frames, lbr);
      SilentStep(cfg, w, inside, actions[0], frames, lbr);
      WorldStepTracks(cfg, w, actions[0]);
      SilentRun(cfg, WorldStep(cfg, w, actions[0]).0, InsideStep(cfg, w, inside, |frames|, actions[0]), actions[1..], frames, lbr);
    }
  }

  /** No branch is recorded in library code while library returns go back to target code; so each
      library return then finds the LBR of its call. */
  lemma {:induction false} HomeRunsLeakNothing(cfg: Config, w: World, c0: Cpu, ret: U64, actions: seq<Action>, c1: Cpu)
    requires AboutToLeave(cfg, w, c0, LibEnter(ret), actions, c1) && WorldTracks(w)
    requires HomeRun(cfg, WorldStep(cfg, w, Do(c0, LibEnter(ret))).0, actions)
    ensures Leaked(cfg, w, c0, LibEnter(ret), actions, c1) == 0
  {
    hide EnabledRun, HomeRun, WorldRun, Inside, Kept, StacksOf, Room, Tracks;
    var enter, t := LibEnter(ret), w.on[c0];
    var entered := PrivateStep(cfg, w.tasks[t], enter).0;
    var n := |w.tasks[t].frames| + 1;
    var w1 := WorldStep(cfg, w, Do(c0, enter)).0;
    assert |entered.frames| == n && entered.frames[..n] == entered.frames;
    KeptAtFirst(entered.lbr);
    WorldStepTracks(cfg, w, Do(c0, enter));
    SilentRun(cfg, w1, map[t := 0], actions, entered.frames, entered.lbr);
  }

  /** A library function that itself calls a library function leaks: its next branch is recorded. */
  lemma {:induction false} NestedLibraryLeaks(cfg: Config, ts: TaskState, outer: U64, inner: U64, from: U64, to: U64)
    requires ts.frames == [] && outer != 0 && inner != 0
    ensures CanDo(ts, LibEnter(outer))
    ensures var ts1 := PrivateStep(cfg, ts, LibEnter(outer)).0;
            && CanDo(ts1, LibEnter(inner))
            && var ts2 := PrivateStep(cfg, ts1, LibEnter(inner)).0;
            && CanDo(ts2, LibReturn(true))
            && var ts3 := PrivateStep(cfg, ts2, LibReturn(true)).0;
            && ts3.frames == ts1.frames && Leaks(ts3, 1, Jump(from, to))
  {
    hide StacksOf, Normal, Flush, SigStart, Branch, InTargetCode;
    FewLibFrames(outer);
    var ts1 := PrivateStep(cfg, ts, LibEnter(outer)).0;
    assert ts1.frames == [LibFrame(outer)];
    var ts2 := PrivateStep(cfg, ts1, LibEnter(inner)).0;
    assert ts2.frames[..1] == ts1.frames;
  }

  lemma FewLibFrames(ret: U64)
    ensures StacksOf(Lib, []).rets == [] && StacksOf(Lib, [LibFrame(ret)]).rets == [ret]
  {
    assert [LibFrame(ret)][..0] == [];
  }
}
