/** What the kernel module does on each event, as functions of its tables and of the LBR registers
    of the CPUs. Enter, exit, context switch and fork are atomic steps.
 */
module KernelSteps {
  import opened ControlFlow
  import opened Lbr
  import opened SlotTable

  const STACKSIZE: nat := 8
  const LBR_CACHE_SIZE: nat := 1024
  const LIB_CACHE_SIZE: nat := 1024
  const CBK_CACHE_SIZE: nat := 64
  const SIG_CACHE_SIZE: nat := 64

  type Cpu = nat

  /** Saved return addresses and LBR images of a task, innermost last. */
  datatype Stacks = Stacks(rets: seq<U64>, lbrs: seq<Image>)

  const NO_STACKS := Stacks([], [])

  type Table = s: seq<Slot<Stacks>> | s != [] witness [Slot(None, NO_STACKS)]

  // ----- Bounded stacks; the flag says that a kill is sent

  function RetPush(st: Stacks, u: U64): (Stacks, bool) {
    if |st.rets| >= STACKSIZE then (st, true) else (st.(rets := st.rets + [u]), false)
  }

  function RetPop(st: Stacks): (Stacks, U64, bool) {
    if st.rets == [] then (st, 0, true)
    else (st.(rets := st.rets[..|st.rets| - 1]), st.rets[|st.rets| - 1], false)
  }

  function LbrPush(st: Stacks, image: Image): (Stacks, bool) {
    if |st.lbrs| >= STACKSIZE then (st, true) else (st.(lbrs := st.lbrs + [image]), false)
  }

  function LbrPop(st: Stacks, hw: Image): (Stacks, Image, bool) {
    if st.lbrs == [] then (st, hw, true)
    else (st.(lbrs := st.lbrs[..|st.lbrs| - 1]), st.lbrs[|st.lbrs| - 1], false)
  }

  /** A pop brings back what the push before it put there. Pushing onto a full stack and popping from
      an empty one kill and change nothing. */
  lemma PushPop(st: Stacks, ret: U64, image: Image, hw: Image)
    ensures |st.rets| < STACKSIZE ==> !RetPush(st, ret).1 && RetPop(RetPush(st, ret).0) == (st, ret, false)
    ensures |st.lbrs| < STACKSIZE ==> !LbrPush(st, image).1 && LbrPop(LbrPush(st, image).0, hw) == (st, image, false)
    ensures |st.rets| >= STACKSIZE ==> RetPush(st, ret) == (st, true)
    ensures |st.lbrs| >= STACKSIZE ==> LbrPush(st, image) == (st, true)
    ensures st.rets == [] ==> RetPop(st) == (st, 0, true)
    ensures st.lbrs == [] ==> LbrPop(st, hw) == (st, hw, true)
  {
    assert (st.rets + [ret])[..|st.rets|] == st.rets;
    assert (st.lbrs + [image])[..|st.lbrs|] == st.lbrs;
  }

  // ----- Library, callback and signal tables

  /** `find_cache_entry_init`: the slot of task t, or the first free one, or slot 0 and a kill. */
  function FindEntry(s: Table, t: Task): (r: (Table, nat, bool))
    ensures r.1 < |r.0| == |s|
  {
    var mine, free := Find(s, Some(t)), Find(s, None);
    if mine < |s| then (s, mine, false)
    else if free < |s| then (s[free := Slot(Some(t), s[free].payload)], free, false)
    else (s, 0, true)
  }

  function LibInit(s: Table, t: Task, ret: U64): (Table, bool) {
    var (s1, i, k1) := FindEntry(s, t);
    var (st, k2) := RetPush(s1[i].payload, ret);
    (s1[i := s1[i].(payload := st)], k1 || k2)
  }

  function CbkInit(s: Table, t: Task, ret: U64, image: Image): (Table, bool) {
    var (s1, i, k1) := FindEntry(s, t);
    var (st, k2) := RetPush(s1[i].payload, ret);
    var (st', k3) := LbrPush(st, image);
    (s1[i := s1[i].(payload := st')], k1 || k2 || k3)
  }

  function SigInit(s: Table, t: Task, image: Image): (Table, bool) {
    var (s1, i, k1) := FindEntry(s, t);
    var (st, k2) := LbrPush(s1[i].payload, image);
    (s1[i := s1[i].(payload := st)], k1 || k2)
  }

  function LibExit(s: Table, t: Task): (Table, U64, bool) {
    var i := Find(s, Some(t));
    if i == |s| then (s, 0, true)
    else
      var st := s[i].payload;
      var owner := if |st.rets| == 1 then None else Some(t);
      var (st', ret, k) := RetPop(st);
      (s[i := Slot(owner, st')], ret, k)
  }

  function CbkExit(s: Table, t: Task, hw: Image): (Table, U64, Image, bool) {
    var i := Find(s, Some(t));
    if i == |s| then (s, 0, hw, true)
    else
      var st := s[i].payload;
      var owner := if |st.rets| == 1 then None else Some(t);
      var (st1, hw', k1) := LbrPop(st, hw);
      var (st2, ret, k2) := RetPop(st1);
      (s[i := Slot(owner, st2)], ret, hw', k1 || k2)
  }

  function SigExit(s: Table, t: Task, hw: Image): (Table, Image, bool) {
    var i := Find(s, Some(t));
    if i == |s| then (s, hw, true)
    else
      var st := s[i].payload;
      var owner := if |st.lbrs| == 1 then None else Some(t);
      var (st', hw', k) := LbrPop(st, hw);
      (s[i := Slot(owner, st')], hw', k)
  }

  /** The last slot of a task, or the table size. */
  function FindLast(s: seq<Slot<Stacks>>, t: Task): (i: nat)
    ensures i <= |s|
    ensures i < |s| ==> s[i].task == Some(t)
    ensures i == |s| ==> forall j :: 0 <= j < |s| ==> s[j].task != Some(t)
  {
    if s == [] then 0
    else if s[|s| - 1].task == Some(t) then |s| - 1
    else
      var i := FindLast(s[..|s| - 1], t);
      if i == |s| - 1 then |s| else i
  }

  /** Fork: the child gets a slot with a copy of the parent's stacks, if the parent has one. */
  function CopyEntry(s: Table, parent: Task, child: Task, rets: bool, lbrs: bool): (Table, bool) {
    var ours := FindLast(s, parent);
    if ours == |s| then (s, false)
    else
      var (s1, i, k) := FindEntry(s, child);
      var from, into := s1[ours].payload, s1[i].payload;
      var st := Stacks(if rets then from.rets else into.rets, if lbrs then from.lbrs else into.lbrs);
      (s1[i := s1[i].(payload := st)], k)
  }

  /** Deferred exit: the dead task's slot is wiped. */
  function WipeEntry(s: Table, t: Task): Table {
    var i := Find(s, Some(t));
    if i == |s| then s else s[i := Slot(None, NO_STACKS)]
  }

  // ----- The LBR cache

  function SaveLbr(cache: seq<Slot<Image>>, t: Task, hw: Image): (seq<Slot<Image>>, bool) {
    var i := Find(cache, None);
    if i == |cache| then (cache, false) else (cache[i := Slot(Some(t), Normal(hw))], true)
  }

  function RestoreLbr(cache: seq<Slot<Image>>, t: Task, hw: Image): (seq<Slot<Image>>, Image) {
    var i := Find(cache, Some(t));
    if i == |cache| then (cache, hw) else (cache[i := cache[i].(task := None)], cache[i].payload)
  }

  // ----- The module's state and its steps

  /** What `tocopy` and the target's mm tell the module. */
  datatype Config = Config(callSource: U64, codeStart: U64, codeEnd: U64)

  predicate InTargetCode(cfg: Config, handler: U64) {
    cfg.codeStart < handler < cfg.codeEnd
  }

  datatype Kernel = Kernel(
    hw: map<Cpu, Image>,
    on: map<Cpu, Task>,
    cache: seq<Slot<Image>>,
    lib: Table,
    cbk: Table,
    sig: Table)

  function Hw(k: Kernel, c: Cpu): Image {
    if c in k.hw then k.hw[c] else NO_IMAGE
  }

  /** What happens in a running task. */
  datatype Event =
    | Jump(from: U64, to: U64)
    | Validate
    | LibEnter(ret: U64)
    | LibReturn(wanted: bool)
    | CbkEnter(ret: U64)
    | CbkReturn
    | SigEnter(handler: U64)
    | SigReturn

  datatype Action =
    | Do(cpu: Cpu, ev: Event)
    | SchedOut(cpu: Cpu)
    | SchedIn(cpu: Cpu, task: Task)
    | Fork(cpu: Cpu, child: Task)
    | Exit(cpu: Cpu)
    | Reap(task: Task)
    | Foreign(cpu: Cpu, from: U64, to: U64)

  /** What a step gives back: a return address, an LBR image, and whether a task is killed. */
  datatype Reply = Reply(ret: U64, image: Option<Image>, killed: bool)

  const SILENT := Reply(0, None, false)

  /** The first LBR entry of a signal handler. */
  function SigStart(cfg: Config, l: Image, handler: U64): Image {
    var f := Flush(l, InTargetCode(cfg, handler));
    f.(tos := 0, from := f.from[0 := cfg.callSource], to := f.to[0 := handler])
  }

  /** A signal handler starts with one entry, the call to it, and records if and only if it lies strictly
      between the start and the end of the target's code. */
  lemma SigStartView(cfg: Config, l: Image, handler: U64)
    ensures Recording(SigStart(cfg, l, handler)) <==> handler > cfg.codeStart && handler < cfg.codeEnd
    ensures OldestFirst(SigStart(cfg, l, handler))[LBR_SIZE - 1] == Entry(cfg.callSource, handler)
    ensures forall i :: 0 <= i < LBR_SIZE - 1 ==> OldestFirst(SigStart(cfg, l, handler))[i] == EMPTY
  {
  }

  function TaskEvent(cfg: Config, k: Kernel, c: Cpu, t: Task, ev: Event): (Kernel, Reply) {
    var hw := Hw(k, c);
    match ev
    case Jump(from, to) => (k.(hw := k.hw[c := Branch(hw, from, to)]), SILENT)
    case Validate => (k, SILENT.(image := Some(Normal(hw))))
    case LibEnter(ret) =>
      var (lib, killed) := if ret != 0 then LibInit(k.lib, t, ret) else (k.lib, false);
      (k.(lib := lib, hw := k.hw[c := hw.(debug := 0)]), SILENT.(killed := killed))
    case LibReturn(wanted) =>
      var (lib, ret, killed) := if wanted then LibExit(k.lib, t) else (k.lib, 0, false);
      (k.(lib := lib, hw := k.hw[c := hw.(debug := 1)]), Reply(ret, None, killed))
    case CbkEnter(ret) =>
      var (cbk, killed) := CbkInit(k.cbk, t, ret, Normal(hw));
      (k.(cbk := cbk, hw := k.hw[c := Flush(hw, true)]), SILENT.(killed := killed))
    case CbkReturn =>
      var (cbk, ret, hw', killed) := CbkExit(k.cbk, t, hw);
      (k.(cbk := cbk, hw := k.hw[c := hw']), Reply(ret, None, killed))
    case SigEnter(handler) =>
      if handler == 0 then (k, SILENT)
      else
        var (sig, killed) := SigInit(k.sig, t, Normal(hw));
        (k.(sig := sig, hw := k.hw[c := SigStart(cfg, hw, handler)]), SILENT.(killed := killed))
    case SigReturn =>
      var (sig, hw', killed) := SigExit(k.sig, t, hw);
      (k.(sig := sig, hw := k.hw[c := hw']), SILENT.(killed := killed))
  }

  function Step(cfg: Config, k: Kernel, act: Action): (Kernel, Reply) {
    match act
    case Do(c, ev) => if c in k.on then TaskEvent(cfg, k, c, k.on[c], ev) else (k, SILENT)
    case SchedOut(c) =>
      if c !in k.on then (k, SILENT)
      else
        var (cache, _) := SaveLbr(k.cache, k.on[c], Hw(k, c));
        (k.(cache := cache, hw := k.hw[c := Hw(k, c).(debug := 0)], on := k.on - {c}), SILENT)
    case SchedIn(c, t) =>
      var (cache, hw) := RestoreLbr(k.cache, t, Hw(k, c));
      (k.(cache := cache, hw := k.hw[c := hw], on := k.on[c := t]), SILENT)
    case Fork(c, child) =>
      if c !in k.on then (k, SILENT)
      else
        var (lib, k1) := CopyEntry(k.lib, k.on[c], child, true, false);
        var (cbk, k2) := CopyEntry(k.cbk, k.on[c], child, true, true);
        var (sig, k3) := CopyEntry(k.sig, k.on[c], child, false, true);
        var (cache, saved) := SaveLbr(k.cache, child, Hw(k, c));
        (k.(lib := lib, cbk := cbk, sig := sig, cache := cache), SILENT.(killed := k1 || k2 || k3 || !saved))
    case Exit(c) => (k.(on := k.on - {c}), SILENT)
    case Reap(t) => (k.(lib := WipeEntry(k.lib, t), cbk := WipeEntry(k.cbk, t), sig := WipeEntry(k.sig, t)), SILENT)
    case Foreign(c, from, to) => (k.(hw := k.hw[c := Branch(Hw(k, c), from, to)]), SILENT)
  }

  /** A run, with its replies. */
  function Run(cfg: Config, k: Kernel, actions: seq<Action>): (Kernel, seq<Reply>)
    decreases actions
  {
    if actions == [] then (k, [])
    else
      var (k1, r) := Step(cfg, k, actions[0]);
      var (k2, rs) := Run(cfg, k1, actions[1..]);
      (k2, [r] + rs)
  }
}
