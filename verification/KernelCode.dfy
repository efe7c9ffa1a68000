/** The code of the kernel module: loops over its global arrays and over the LBR registers. Each
    operation does what its step function says.
 */
module KernelCode {
  import opened ControlFlow
  import opened Lbr
  import opened SlotTable
  import opened KernelSteps
  import opened PrivateMachine
  import opened Refinement

  /** The first match is unique. */
  lemma FindIs<P>(s: seq<Slot<P>>, owner: Option<Task>, i: nat)
    requires i <= |s| && (i < |s| ==> s[i].task == owner)
    requires forall j :: 0 <= j < i ==> s[j].task != owner
    ensures Find(s, owner) == i
  {
  }

  /** `get_lbr`: read the registers one by one, clearing the flags of each source. */
  method GetLbr(hw: Image) returns (image: Image)
    ensures image == Normal(hw) && Shows(image, hw)
  {
    var from, to := hw.from, hw.to;
    var i := 0;
    while i < LBR_SIZE
      invariant 0 <= i <= LBR_SIZE && |from| == LBR_SIZE && to == hw.to
      invariant forall j :: 0 <= j < LBR_SIZE ==> from[j] == if j < i then LbrFrom(hw.from[j]) else hw.from[j]
    {
      from := from[i := LbrFrom(from[i])];
      i := i + 1;
    }
    assert from == Cleared(hw.from);
    image := Image(hw.debug, hw.select, hw.tos, from, to);
    NormalShows(hw);
  }

  /** `flush_lbr`: clear all registers and switch recording on or off. */
  method FlushLbr(hw: Image, enable: bool) returns (r: Image)
    ensures r == Flush(hw, enable) && (Recording(r) <==> enable) && r.select == hw.select && r.tos == 0
    ensures forall i :: 0 <= i < LBR_SIZE ==> r.from[i] == 0 && r.to[i] == 0
  {
    var from, to := hw.from, hw.to;
    var i := 0;
    while i < LBR_SIZE
      invariant 0 <= i <= LBR_SIZE && |from| == |to| == LBR_SIZE
      invariant forall j :: 0 <= j < i ==> from[j] == 0 && to[j] == 0
    {
      from := from[i := 0];
      to := to[i := 0];
      i := i + 1;
    }
    assert from == ZEROS && to == ZEROS;
    r := Image(if enable then 1 else 0, hw.select, 0, from, to);
  }

  /** The search loop of the exit paths and of the cache: the first slot with this owner. */
  method Search<P>(data: array<Slot<P>>, owner: Option<Task>) returns (i: nat)
    ensures i == Find(data[..], owner)
  {
    i := 0;
    while i < data.Length && data[i].task != owner
      invariant 0 <= i <= data.Length
      invariant forall j :: 0 <= j < i ==> data[j].task != owner
    {
      i := i + 1;
    }
    FindIs(data[..], owner, i);
  }

  /** `find_cache_entry_init`: one pass that remembers the first free slot. */
  method FindCacheEntryInit(data: array<Slot<Stacks>>, t: Task) returns (i: nat, killed: bool)
    requires data.Length > 0
    modifies data
    ensures (data[..], i, killed) == FindEntry(old(data[..]), t)
  {
    var tmp: nat := data.Length;
    i := 0;
    while i < data.Length
      invariant 0 <= i <= data.Length && tmp <= data.Length && data[..] == old(data[..])
      invariant forall j :: 0 <= j < i ==> data[j].task != Some(t)
      invariant tmp == data.Length ==> forall j :: 0 <= j < i ==> data[j].task != None
      invariant tmp < data.Length ==> tmp < i && data[tmp].task == None && forall j :: 0 <= j < tmp ==> data[j].task != None
    {
      if data[i].task == Some(t) {
        FindIs(data[..], Some(t), i);
        return i, false;
      }
      if data[i].task == None && tmp == data.Length { tmp := i; }
      i := i + 1;
    }
    FindIs(data[..], Some(t), data.Length);
    FindIs(data[..], None, tmp);
    if tmp == data.Length { return 0, true; }
    data[tmp] := Slot(Some(t), data[tmp].payload);
    return tmp, false;
  }

  method DoLibInit(data: array<Slot<Stacks>>, t: Task, ret: U64) returns (killed: bool)
    requires data.Length > 0
    modifies data
    ensures (data[..], killed) == LibInit(old(data[..]), t, ret)
  {
    var i, k1 := FindCacheEntryInit(data, t);
    var (st, k2) := RetPush(data[i].payload, ret);
    data[i] := data[i].(payload := st);
    return k1 || k2;
  }

  method DoCbkInit(data: array<Slot<Stacks>>, t: Task, ret: U64, hw: Image) returns (killed: bool)
    requires data.Length > 0
    modifies data
    ensures (data[..], killed) == CbkInit(old(data[..]), t, ret, Normal(hw))
  {
    var i, k1 := FindCacheEntryInit(data, t);
    var (st, k2) := RetPush(data[i].payload, ret);
    var image := GetLbr(hw);
    var (st', k3) := LbrPush(st, image);
    data[i] := data[i].(payload := st');
    return k1 || k2 || k3;
  }

  method DoSigInit(data: array<Slot<Stacks>>, t: Task, hw: Image) returns (killed: bool)
    requires data.Length > 0
    modifies data
    ensures (data[..], killed) == SigInit(old(data[..]), t, Normal(hw))
  {
    var i, k1 := FindCacheEntryInit(data, t);
    var image := GetLbr(hw);
    var (st, k2) := LbrPush(data[i].payload, image);
    data[i] := data[i].(payload := st);
    return k1 || k2;
  }

  method DoLibExit(data: array<Slot<Stacks>>, t: Task) returns (ret: U64, killed: bool)
    requires data.Length > 0
    modifies data
    ensures (data[..], ret, killed) == LibExit(old(data[..]), t)
  {
    var i := Search(data, Some(t));
    if i == data.Length { return 0, true; }
    var st := data[i].payload;
    if |st.rets| == 1 { data[i] := data[i].(task := None); }
    var (st', r, k) := RetPop(st);
    data[i] := data[i].(payload := st');
    assert data[..] == old(data[..])[i := data[i]];
    return r, k;
  }

  method DoCbkExit(data: array<Slot<Stacks>>, t: Task, hw: Image) returns (ret: U64, hw': Image, killed: bool)
    requires data.Length > 0
    modifies data
    ensures (data[..], ret, hw', killed) == CbkExit(old(data[..]), t, hw)
  {
    var i := Search(data, Some(t));
    if i == data.Length { return 0, hw, true; }
    var st := data[i].payload;
    if |st.rets| == 1 { data[i] := data[i].(task := None); }
    var (st1, image, k1) := LbrPop(st, hw);
    var (st2, r, k2) := RetPop(st1);
    data[i] := data[i].(payload := st2);
    assert data[..] == old(data[..])[i := data[i]];
    return r, image, k1 || k2;
  }

  method DoSigExit(data: array<Slot<Stacks>>, t: Task, hw: Image) returns (hw': Image, killed: bool)
    requires data.Length > 0
    modifies data
    ensures (data[..], hw', killed) == SigExit(old(data[..]), t, hw)
  {
    var i := Search(data, Some(t));
    if i == data.Length { return hw, true; }
    var st := data[i].payload;
    if |st.lbrs| == 1 { data[i] := data[i].(task := None); }
    var (st', image, k) := LbrPop(st, hw);
    data[i] := data[i].(payload := st');
    assert data[..] == old(data[..])[i := data[i]];
    return image, k;
  }

  lemma {:induction false} FindLastIs(s: seq<Slot<Stacks>>, t: Task, i: nat)
    requires i <= |s| && (i < |s| ==> s[i].task == Some(t))
    requires forall j :: 0 <= j < |s| && (i == |s| || j > i) ==> s[j].task != Some(t)
    ensures FindLast(s, t) == i
    decreases |s|
  {
    if s != [] && s[|s| - 1].task != Some(t) {
      FindLastIs(s[..|s| - 1], t, if i == |s| then |s| - 1 else i);
    }
  }

  /** The loop of `wake_up_new_task` for one table: it goes on after a match, so the last one counts. */
  method DoCopyEntry(data: array<Slot<Stacks>>, parent: Task, child: Task, rets: bool, lbrs: bool) returns (killed: bool)
    requires data.Length > 0
    modifies data
    ensures (data[..], killed) == CopyEntry(old(data[..]), parent, child, rets, lbrs)
  {
    var ours := data.Length;
    var i := 0;
    while i < data.Length
      invariant 0 <= i <= data.Length && 0 <= ours <= data.Length && data[..] == old(data[..])
      invariant ours < data.Length ==> ours < i && data[ours].task == Some(parent)
      invariant forall j :: 0 <= j < i && (ours == data.Length || j > ours) ==> data[j].task != Some(parent)
    {
      if data[i].task == Some(parent) { ours := i; }
      i := i + 1;
    }
    FindLastIs(data[..], parent, ours);
    if ours == data.Length { return false; }
    i, killed := FindCacheEntryInit(data, child);
    var from, into := data[ours].payload, data[i].payload;
    data[i] := data[i].(payload := Stacks(if rets then from.rets else into.rets, if lbrs then from.lbrs else into.lbrs));
  }

  method DoWipeEntry(data: array<Slot<Stacks>>, t: Task)
    requires data.Length > 0
    modifies data
    ensures data[..] == WipeEntry(old(data[..]), t)
  {
    var i := Search(data, Some(t));
    if i < data.Length { data[i] := Slot(None, NO_STACKS); }
  }

  method DoSaveLbr(cache: array<Slot<Image>>, t: Task, hw: Image) returns (saved: bool)
    modifies cache
    ensures (cache[..], saved) == SaveLbr(old(cache[..]), t, hw)
  {
    var i := Search(cache, None);
    if i == cache.Length { return false; }
    var image := GetLbr(hw);
    cache[i] := Slot(Some(t), image);
    return true;
  }

  method DoRestoreLbr(cache: array<Slot<Image>>, t: Task, hw: Image) returns (hw': Image)
    modifies cache
    ensures (cache[..], hw') == RestoreLbr(old(cache[..]), t, hw)
  {
    var i := Search(cache, Some(t));
    if i == cache.Length { return hw; }
    hw' := cache[i].payload;
    cache[i] := cache[i].(task := None);
  }

  /** The module with its global arrays, and the registers of the CPUs. */
  class Module {
    const cfg: Config
    var hw: map<Cpu, Image>
    var on: map<Cpu, Task>
    const cache: array<Slot<Image>>
    const lib: array<Slot<Stacks>>
    const cbk: array<Slot<Stacks>>
    const sig: array<Slot<Stacks>>

    ghost predicate Valid() {
      && lib.Length > 0 && cbk.Length > 0 && sig.Length > 0
      && lib != cbk && lib != sig && cbk != sig
    }

    ghost function State(): Kernel
      requires Valid()
      reads this, cache, lib, cbk, sig
    {
      Kernel(hw, on, cache[..], lib[..], cbk[..], sig[..])
    }

    /** `ARMOR_IOC_INIT`: all arrays zeroed, and the LBR flushed and enabled. */
    constructor (cfg: Config, c: Cpu, t: Task, select: U64)
      ensures Valid() && this.cfg == cfg && Recording(Hw(State(), c))
      ensures forall i :: 0 <= i < LBR_SIZE ==> OldestFirst(Hw(State(), c))[i] == EMPTY
      ensures Booted(State(), World(map[t := TaskState(Hw(State(), c), [], true)], map[c := t]), c, t)
      ensures fresh(cache) && fresh(lib) && fresh(cbk) && fresh(sig)
    {
      this.cfg := cfg;
      hw := map[c := Flush(Image(0, select, 0, ZEROS, ZEROS), true)];
      on := map[c := t];
      cache := new Slot<Image>[LBR_CACHE_SIZE](_ => Slot(None, NO_IMAGE));
      lib := new Slot<Stacks>[LIB_CACHE_SIZE](_ => Slot(None, NO_STACKS));
      cbk := new Slot<Stacks>[CBK_CACHE_SIZE](_ => Slot(None, NO_STACKS));
      sig := new Slot<Stacks>[SIG_CACHE_SIZE](_ => Slot(None, NO_STACKS));
    }

    method Registers(c: Cpu) returns (r: Image)
      requires Valid()
      ensures r == Hw(State(), c)
    {
      r := if c in hw then hw[c] else NO_IMAGE;
    }

    /** An event of task t running on c. */
    method OnEvent(c: Cpu, t: Task, ev: Event) returns (r: Reply)
      requires Valid()
      modifies this`hw, lib, cbk, sig
      ensures (State(), r) == TaskEvent(cfg, old(State()), c, t, ev)
    {
      hide Normal, Branch, Flush, LibInit, LibExit, CbkInit, CbkExit, SigInit, SigExit;
      var h := Registers(c);
      r := SILENT;
      match ev {
        case Jump(from, to) =>
          hw := hw[c := Branch(h, from, to)];
        case Validate =>
          var image := GetLbr(h);
          r := SILENT.(image := Some(image));
        case LibEnter(ret) =>
          var killed := false;
          if ret != 0 { killed := DoLibInit(lib, t, ret); }
          hw := hw[c := h.(debug := 0)];
          r := SILENT.(killed := killed);
        case LibReturn(wanted) =>
          var ret, killed := 0, false;
          if wanted { ret, killed := DoLibExit(lib, t); }
          hw := hw[c := h.(debug := 1)];
          r := Reply(ret, None, killed);
        case CbkEnter(ret) =>
          var killed := DoCbkInit(cbk, t, ret, h);
          var flushed := FlushLbr(h, true);
          hw := hw[c := flushed];
          r := SILENT.(killed := killed);
        case CbkReturn =>
          var ret, h', killed := DoCbkExit(cbk, t, h);
          hw := hw[c := h'];
          r := Reply(ret, None, killed);
        case SigEnter(handler) =>
          if handler != 0 {
            var killed := DoSigInit(sig, t, h);
            var f := FlushLbr(h, InTargetCode(cfg, handler));
            hw := hw[c := f.(tos := 0, from := f.from[0 := cfg.callSource], to := f.to[0 := handler])];
            r := SILENT.(killed := killed);
          }
        case SigReturn =>
          var h', killed := DoSigExit(sig, t, h);
          hw := hw[c := h'];
          r := SILENT.(killed := killed);
      }
    }

    /** Every action of the module does what the step function says. */
    method Perform(act: Action) returns (r: Reply)
      requires Valid()
      modifies this, cache, lib, cbk, sig
      ensures (State(), r) == Step(cfg, old(State()), act)
    {
      hide Normal, Branch, CopyEntry, WipeEntry, SaveLbr, RestoreLbr, TaskEvent;
      r := SILENT;
      match act {
        case Do(c, ev) =>
          if c in on { r := OnEvent(c, on[c], ev); }
        case SchedOut(c) =>
          if c in on {
            var h := Registers(c);
            var saved := DoSaveLbr(cache, on[c], h);
            hw := hw[c := h.(debug := 0)];
            on := on - {c};
          }
        case SchedIn(c, t) =>
          var h := Registers(c);
          var h' := DoRestoreLbr(cache, t, h);
          hw := hw[c := h'];
          on := on[c := t];
        case Fork(c, child) =>
          if c in on {
            var k1 := DoCopyEntry(lib, on[c], child, true, false);
            var k2 := DoCopyEntry(cbk, on[c], child, true, true);
            var k3 := DoCopyEntry(sig, on[c], child, false, true);
            var h := Registers(c);
            var saved := DoSaveLbr(cache, child, h);
            r := SILENT.(killed := k1 || k2 || k3 || !saved);
          }
        case Exit(c) =>
          on := on - {c};
        case Reap(t) =>
          DoWipeEntry(lib, t);
          DoWipeEntry(cbk, t);
          DoWipeEntry(sig, t);
        case Foreign(c, from, to) =>
          var h := Registers(c);
          hw := hw[c := Branch(h, from, to)];
      }
    }
  }
}
