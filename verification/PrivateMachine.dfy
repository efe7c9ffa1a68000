/** The machine the kernel module is to look like: every task has its own LBR and its own stack of
    open frames, and nothing is shared.
 */
module PrivateMachine {
  import opened ControlFlow
  import opened Lbr
  import opened SlotTable
  import opened KernelSteps

  /** An open frame, with what its exit has to bring back. */
  datatype Frame =
    | LibFrame(ret: U64)
    | BareLibFrame
    | CbkFrame(ret: U64, saved: Image)
    | SigFrame(inTarget: bool, saved: Image)

  datatype TaskState = TaskState(lbr: Image, frames: seq<Frame>, alive: bool)

  datatype World = World(tasks: map<Task, TaskState>, on: map<Cpu, Task>)

  function Top(frames: seq<Frame>): Frame
    requires frames != []
  {
    frames[|frames| - 1]
  }

  function Enter(ts: TaskState, f: Frame, lbr: Image): TaskState {
    ts.(frames := ts.frames + [f], lbr := lbr)
  }

  function Leave(ts: TaskState, lbr: Image): TaskState
    requires ts.frames != []
  {
    ts.(frames := ts.frames[..|ts.frames| - 1], lbr := lbr)
  }

  // ----- Proper nesting, within the stack bounds

  datatype Kind = Lib | Cbk | Sig

  /** What the stacks of one kind hold after one more frame. */
  function Pushed(kind: Kind, st: Stacks, f: Frame): Stacks {
    match (kind, f)
    case (Lib, LibFrame(ret)) => st.(rets := st.rets + [ret])
    case (Cbk, CbkFrame(ret, saved)) => Stacks(st.rets + [ret], st.lbrs + [Normal(saved)])
    case (Sig, SigFrame(_, saved)) => st.(lbrs := st.lbrs + [Normal(saved)])
    case _ => st
  }

  /** The return addresses and normalised images of the open frames of one kind. */
  function StacksOf(kind: Kind, frames: seq<Frame>): Stacks {
    if frames == [] then NO_STACKS else Pushed(kind, StacksOf(kind, frames[..|frames| - 1]), Top(frames))
  }

  /** The event respects nesting and the depth the stacks allow. */
  predicate CanDo(ts: TaskState, ev: Event) {
    match ev
    case Jump(_, _) => true
    case Validate => true
    case LibEnter(ret) => ret != 0 ==> |StacksOf(Lib, ts.frames).rets| < STACKSIZE
    case LibReturn(wanted) => ts.frames != [] && if wanted then Top(ts.frames).LibFrame? else Top(ts.frames).BareLibFrame?
    case CbkEnter(_) => |StacksOf(Cbk, ts.frames).rets| < STACKSIZE
    case CbkReturn => ts.frames != [] && Top(ts.frames).CbkFrame?
    case SigEnter(handler) => handler != 0 ==> |StacksOf(Sig, ts.frames).lbrs| < STACKSIZE
    case SigReturn => ts.frames != [] && Top(ts.frames).SigFrame?
  }

  /** One event of one task, on its own LBR and frames. */
  function PrivateStep(cfg: Config, ts: TaskState, ev: Event): (TaskState, Reply)
    requires CanDo(ts, ev)
  {
    var l := ts.lbr;
    match ev
    case Jump(from, to) => (ts.(lbr := Branch(l, from, to)), SILENT)
    case Validate => (ts, SILENT.(image := Some(Normal(l))))
    case LibEnter(ret) =>
      (Enter(ts, if ret != 0 then LibFrame(ret) else BareLibFrame, l.(debug := 0)), SILENT)
    case LibReturn(wanted) =>
      (Leave(ts, l.(debug := 1)), SILENT.(ret := if wanted then Top(ts.frames).ret else 0))
    case CbkEnter(ret) => (Enter(ts, CbkFrame(ret, l), Flush(l, true)), SILENT)
    case CbkReturn => (Leave(ts, Top(ts.frames).saved), SILENT.(ret := Top(ts.frames).ret))
    case SigEnter(handler) =>
      if handler == 0 then (ts, SILENT)
      else (Enter(ts, SigFrame(InTargetCode(cfg, handler), l), SigStart(cfg, l, handler)), SILENT)
    case SigReturn => (Leave(ts, Top(ts.frames).saved), SILENT)
  }

  // ----- The world: tasks come, go and take turns on the CPUs

  /** Living tasks that do not run, with the LBR they are to find again. */
  ghost function Parked(w: World): map<Task, Image> {
    map t | t in w.tasks && w.tasks[t].alive && t !in w.on.Values :: Normal(w.tasks[t].lbr)
  }

  /** The tasks with open frames of one kind. */
  ghost function TableOf(kind: Kind, w: World): map<Task, Stacks> {
    map t | t in w.tasks && StacksOf(kind, w.tasks[t].frames) != NO_STACKS :: StacksOf(kind, w.tasks[t].frames)
  }

  function Size(kind: Kind): nat {
    match kind case Lib => LIB_CACHE_SIZE case Cbk => CBK_CACHE_SIZE case Sig => SIG_CACHE_SIZE
  }

  /** The tables of a kind have room for this task. */
  ghost predicate Room(kind: Kind, w: World, t: Task) {
    t in TableOf(kind, w) || |TableOf(kind, w)| < Size(kind)
  }

  /** The table an event needs a slot in. */
  function Needs(ev: Event): Option<Kind> {
    match ev
    case LibEnter(ret) => if ret != 0 then Some(Lib) else None
    case CbkEnter(_) => Some(Cbk)
    case SigEnter(handler) => if handler != 0 then Some(Sig) else None
    case _ => None
  }

  ghost predicate Enabled(w: World, act: Action) {
    match act
    case Do(c, ev) =>
      c in w.on && w.on[c] in w.tasks && CanDo(w.tasks[w.on[c]], ev) &&
      (Needs(ev).Some? ==> Room(Needs(ev).value, w, w.on[c]))
    case SchedOut(c) => c in w.on && |Parked(w)| < LBR_CACHE_SIZE
    case SchedIn(c, t) => c !in w.on && t in Parked(w)
    case Fork(c, child) =>
      && c in w.on && w.on[c] in w.tasks && child !in w.tasks && |Parked(w)| < LBR_CACHE_SIZE
      && forall kind :: w.on[c] in TableOf(kind, w) ==> |TableOf(kind, w)| < Size(kind)
    case Exit(c) => c in w.on && w.on[c] in w.tasks
    case Reap(t) => t in w.tasks && !w.tasks[t].alive
    case Foreign(c, _, _) => c !in w.on
  }

  ghost function WorldStep(cfg: Config, w: World, act: Action): (World, Reply)
    requires Enabled(w, act)
  {
    match act
    case Do(c, ev) =>
      var (ts, r) := PrivateStep(cfg, w.tasks[w.on[c]], ev);
      (w.(tasks := w.tasks[w.on[c] := ts]), r)
    case SchedOut(c) => (w.(on := w.on - {c}), SILENT)
    case SchedIn(c, t) => (w.(on := w.on[c := t]), SILENT)
    case Fork(c, child) => (w.(tasks := w.tasks[child := w.tasks[w.on[c]]]), SILENT)
    case Exit(c) => (World(w.tasks[w.on[c] := w.tasks[w.on[c]].(alive := false)], w.on - {c}), SILENT)
    case Reap(t) => (w.(tasks := w.tasks - {t}), SILENT)
    case Foreign(_, _, _) => (w, SILENT)
  }

  ghost predicate EnabledRun(cfg: Config, w: World, actions: seq<Action>)
    decreases actions
  {
    actions != [] ==> Enabled(w, actions[0]) && EnabledRun(cfg, WorldStep(cfg, w, actions[0]).0, actions[1..])
  }

  ghost function WorldRun(cfg: Config, w: World, actions: seq<Action>): (World, seq<Reply>)
    requires EnabledRun(cfg, w, actions)
    decreases actions
  {
    if actions == [] then (w, [])
    else
      var (w1, r) := WorldStep(cfg, w, actions[0]);
      var (w2, rs) := WorldRun(cfg, w1, actions[1..]);
      (w2, [r] + rs)
  }
}
