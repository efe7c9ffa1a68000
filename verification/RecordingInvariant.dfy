/** When branches are recorded: exactly while the innermost open frame of a task is target code. */
module RecordingInvariant {
  import opened ControlFlow
  import opened Lbr
  import opened SlotTable
  import opened KernelSteps
  import opened PrivateMachine
  import opened Refinement

  /** The innermost open frame runs target code. */
  predicate InTarget(frames: seq<Frame>) {
    frames == [] ||
    match Top(frames)
    case LibFrame(_) => false
    case BareLibFrame => false
    case CbkFrame(_, _) => true
    case SigFrame(inTarget, _) => inTarget
  }

  /** Below a callback or signal frame, the saved image says what runs. */
  ghost predicate FrameOk(frames: seq<Frame>, i: nat)
    requires i < |frames|
  {
    match frames[i]
    case LibFrame(_) => true
    case BareLibFrame => true
    case CbkFrame(_, saved) => Recording(saved) <==> InTarget(frames[..i])
    case SigFrame(_, saved) => Recording(saved) <==> InTarget(frames[..i])
  }

  ghost predicate Tracks(ts: TaskState) {
    (Recording(ts.lbr) <==> InTarget(ts.frames)) && forall i :: 0 <= i < |ts.frames| ==> FrameOk(ts.frames, i)
  }

  /** If the event is a library return, it goes back to target code. */
  predicate GoesHome(ts: TaskState, ev: Event) {
    ev.LibReturn? && ts.frames != [] ==> InTarget(ts.frames[..|ts.frames| - 1])
  }

  lemma EnterTracks(ts: TaskState, f: Frame, lbr: Image)
    requires Tracks(ts) && FrameOk(ts.frames + [f], |ts.frames|) && (Recording(lbr) <==> InTarget(ts.frames + [f]))
    ensures Tracks(Enter(ts, f, lbr))
  {
    var frames := ts.frames + [f];
    forall i | 0 <= i < |frames|
      ensures FrameOk(frames, i)
    {
      if i < |ts.frames| {
        assert FrameOk(ts.frames, i) && frames[..i] == ts.frames[..i];
      }
    }
  }

  lemma LeaveTracks(ts: TaskState, lbr: Image)
    requires Tracks(ts) && ts.frames != [] && (Recording(lbr) <==> InTarget(ts.frames[..|ts.frames| - 1]))
    ensures Tracks(Leave(ts, lbr))
  {
    var frames := ts.frames[..|ts.frames| - 1];
    forall i | 0 <= i < |frames|
      ensures FrameOk(frames, i)
    {
      assert FrameOk(ts.frames, i) && frames[..i] == ts.frames[..i];
    }
  }

  lemma {:induction false} PrivateStepTracks(cfg: Config, ts: TaskState, ev: Event)
    requires Tracks(ts) && CanDo(ts, ev) && GoesHome(ts, ev)
    ensures Tracks(PrivateStep(cfg, ts, ev).0)
  {
    var frames, l := ts.frames, ts.lbr;
    match ev {
      case Jump(_, _) =>
      case Validate =>
      case LibEnter(ret) =>
        var f := if ret != 0 then LibFrame(ret) else BareLibFrame;
        assert (frames + [f])[..|frames|] == frames;
        EnterTracks(ts, f, l.(debug := 0));
      case CbkEnter(ret) =>
        var f := CbkFrame(ret, l);
        assert (frames + [f])[..|frames|] == frames;
        EnterTracks(ts, f, Flush(l, true));
      case SigEnter(handler) =>
        if handler != 0 {
          var f := SigFrame(InTargetCode(cfg, handler), l);
          assert (frames + [f])[..|frames|] == frames;
          EnterTracks(ts, f, SigStart(cfg, l, handler));
        }
      case LibReturn(_) =>
        assert FrameOk(frames, |frames| - 1);
        LeaveTracks(ts, l.(debug := 1));
      case CbkReturn =>
        assert FrameOk(frames, |frames| - 1);
        LeaveTracks(ts, Top(frames).saved);
      case SigReturn =>
        assert FrameOk(frames, |frames| - 1);
        LeaveTracks(ts, Top(frames).saved);
    }
  }

  /** A library call from a signal handler outside the target leaves recording on in that handler. */
  lemma HandlerExample(cfg: Config, ts: TaskState, saved: Image, ret: U64)
    requires Tracks(ts) && ts.frames == [SigFrame(false, saved)] && ret != 0
    ensures CanDo(ts, LibEnter(ret)) && CanDo(PrivateStep(cfg, ts, LibEnter(ret)).0, LibReturn(true))
    ensures var after := PrivateStep(cfg, PrivateStep(cfg, ts, LibEnter(ret)).0, LibReturn(true)).0;
            after.frames == ts.frames && Recording(after.lbr) && !Recording(ts.lbr)
  {
    assert ts.frames[..0] == [];
    assert StacksOf(Lib, ts.frames) == NO_STACKS;
  }

  // ----- Whole runs

  ghost predicate WorldTracks(w: World) {
    forall t :: t in w.tasks ==> Tracks(w.tasks[t])
  }

  ghost predicate HomeAction(w: World, act: Action) {
    act.Do? && act.cpu in w.on && w.on[act.cpu] in w.tasks ==> GoesHome(w.tasks[w.on[act.cpu]], act.ev)
  }

  /** Every library return of the run, by any task, goes back to target code. */
  ghost predicate HomeRun(cfg: Config, w: World, actions: seq<Action>)
    requires EnabledRun(cfg, w, actions)
    decreases actions
  {
    actions != [] ==> HomeAction(w, actions[0]) && HomeRun(cfg, WorldStep(cfg, w, actions[0]).0, actions[1..])
  }

  lemma WorldStepTracks(cfg: Config, w: World, act: Action)
    requires Enabled(w, act) && WorldTracks(w) && HomeAction(w, act)
    ensures WorldTracks(WorldStep(cfg, w, act).0)
  {
    hide Tracks, PrivateStep, GoesHome;
    if act.Do? {
      PrivateStepTracks(cfg, w.tasks[w.on[act.cpu]], act.ev);
    } else if act.Exit? {
      KeepsTracking(w.tasks[w.on[act.cpu]]);
    }
  }

  lemma KeepsTracking(ts: TaskState)
    requires Tracks(ts)
    ensures Tracks(ts.(alive := false))
  {
  }

  /** The registers of a CPU record, and the cached image of a parked task will record again, exactly
      when its innermost open frame is target code. */
  ghost predicate RecordsTarget(k: Kernel, w: World) {
    && (forall c :: c in w.on && w.on[c] in w.tasks ==>
         (Recording(Hw(k, c)) <==> InTarget(w.tasks[w.on[c]].frames)))
    && (forall i :: 0 <= i < |k.cache| && k.cache[i].task.Some? && k.cache[i].task.value in w.tasks ==>
         (Recording(k.cache[i].payload) <==> InTarget(w.tasks[k.cache[i].task.value].frames)))
  }

  lemma TrackedRecords(k: Kernel, w: World)
    requires Simulates(k, w) && WorldTracks(w)
    ensures RecordsTarget(k, w)
  {
    forall c | c in w.on && w.on[c] in w.tasks
      ensures Recording(Hw(k, c)) <==> InTarget(w.tasks[w.on[c]].frames)
    {
      assert Normal(Hw(k, c)).debug == Normal(w.tasks[w.on[c]].lbr).debug;
      assert Tracks(w.tasks[w.on[c]]);
    }
    forall i | 0 <= i < |k.cache| && k.cache[i].task.Some? && k.cache[i].task.value in w.tasks
      ensures Recording(k.cache[i].payload) <==> InTarget(w.tasks[k.cache[i].task.value].frames)
    {
      var t := k.cache[i].task.value;
      assert t in Parked(w) && k.cache[i].payload == Normal(w.tasks[t].lbr);
      assert Tracks(w.tasks[t]);
    }
  }

  /** Recording is right in every state along the run. */
  ghost predicate AlwaysRecords(cfg: Config, k: Kernel, w: World, actions: seq<Action>)
    requires EnabledRun(cfg, w, actions)
    decreases actions
  {
    && RecordsTarget(k, w)
    && (actions != [] ==> AlwaysRecords(cfg, Step(cfg, k, actions[0]).0, WorldStep(cfg, w, actions[0]).0, actions[1..]))
  }

  /** A library return switches recording on, so afterwards recording is right only in target code. */
  lemma RecordsMeansHome(cfg: Config, k: Kernel, w: World, act: Action)
    requires Simulates(k, w) && Enabled(w, act)
    requires RecordsTarget(Step(cfg, k, act).0, WorldStep(cfg, w, act).0)
    ensures HomeAction(w, act)
  {
    hide Simulates, InTarget, CanDo, Room, LibExit;
    if act.Do? && act.ev.LibReturn? {
      Running(k, w, act.cpu);
      assert Recording(Hw(Step(cfg, k, act).0, act.cpu));
    }
  }

  lemma {:induction false} RecordsIffHome(cfg: Config, k: Kernel, w: World, actions: seq<Action>)
    requires Simulates(k, w) && WorldTracks(w) && EnabledRun(cfg, w, actions)
    ensures AlwaysRecords(cfg, k, w, actions) <==> HomeRun(cfg, w, actions)
    decreases actions
  {
    hide Simulates, Enabled, Step, WorldStep, WorldTracks, RecordsTarget, HomeAction;
    TrackedRecords(k, w);
    if actions != [] {
      var act, rest := actions[0], actions[1..];
      var k1, w1 := Step(cfg, k, act).0, WorldStep(cfg, w, act).0;
      EveryActionInStep(cfg, k, w, act);
      if HomeAction(w, act) {
        WorldStepTracks(cfg, w, act);
        RecordsIffHome(cfg, k1, w1, rest);
      } else if RecordsTarget(k1, w1) {
        RecordsMeansHome(cfg, k, w, act);
      } else {
        assert !AlwaysRecords(cfg, k1, w1, rest);
      }
    }
  }

  /** From boot, through nesting, signals, context switches, forks and exits: recording is on exactly
      in target code in every state along the run, if and only if every library return of the run
      goes back to target code. */
  lemma {:induction false} RecordingExact(cfg: Config, k: Kernel, w: World, c: Cpu, t: Task, actions: seq<Action>)
    requires Booted(k, w, c, t) && Recording(Hw(k, c)) && EnabledRun(cfg, w, actions)
    ensures AlwaysRecords(cfg, k, w, actions) <==> HomeRun(cfg, w, actions)
  {
    hide EnabledRun, HomeRun, AlwaysRecords, Simulates;
    BootSimulates(k, w, c, t);
    RecordsIffHome(cfg, k, w, actions);
  }
}
