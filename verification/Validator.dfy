/** `validate_lbr` and the analysis daemon: a mutex, two semaphores and a wrapping digest cache,
    as interleaved steps of any number of validators and one daemon. No wait times out.
 */
module Validator {
  import opened ControlFlow
  import opened Lbr

  const JIT_CACHE_SIZE: nat := 512

  type Proc = nat
  type Digest = seq<nat>

  // ----- The digest cache

  datatype JitCache = JitCache(hash: seq<Digest>, hashes: nat)

  /** The digests a lookup can match. */
  ghost function Matchable(c: JitCache): seq<Digest>
    requires c.hashes <= |c.hash|
  {
    c.hash[..c.hashes]
  }

  method Lookup(c: JitCache, d: Digest) returns (hit: bool)
    requires c.hashes <= |c.hash|
    ensures hit <==> d in Matchable(c)
  {
    for i := 0 to c.hashes
      invariant d !in c.hash[..i]
    {
      assert c.hash[..i + 1] == c.hash[..i] + [c.hash[i]];
      if c.hash[i] == d {
        assert c.hash[i] in Matchable(c);
        return true;
      }
    }
    return false;
  }

  function Insert(c: JitCache, d: Digest): JitCache
    requires c.hashes < |c.hash|
  {
    JitCache(c.hash[c.hashes := d], (c.hashes + 1) % JIT_CACHE_SIZE)
  }

  ghost predicate Distinct(s: seq<Digest>) {
    forall i, j :: 0 <= i < j < |s| ==> s[i] != s[j]
  }

  /** After these insertions the cache matches the last |inserted| mod JIT_CACHE_SIZE of them, all
      different. */
  ghost predicate CacheHolds(c: JitCache, inserted: seq<Digest>) {
    && |c.hash| == JIT_CACHE_SIZE && c.hashes == |inserted| % JIT_CACHE_SIZE
    && Matchable(c) == inserted[|inserted| - c.hashes..]
    && Distinct(Matchable(c))
  }

  lemma InsertHolds(c: JitCache, inserted: seq<Digest>, d: Digest)
    requires CacheHolds(c, inserted) && d !in Matchable(c)
    ensures CacheHolds(Insert(c, d), inserted + [d])
  {
  }

  // ----- The protocol

  /** Where a validator is: outside, before the lock, in the lookup, missed, request stored, waiting,
      woken. */
  datatype Pc = Idle | Wanting | Locked | Missed | Posted | Waiting | Got

  datatype Local = Local(pc: Pc, lbr: Image)

  /** Where the daemon is: waiting for work, woken, analysing its copy, answer stored. */
  datatype Daemon = Resting | Woken | Analysing(copy: Image) | Stored

  datatype Answer = Answer(lbr: Image, result: nat)

  datatype State = State(
    procs: map<Proc, Local>,
    holder: Option<Proc>,        // validation_lock
    work: nat,                   // jit_work_cond
    done: nat,                   // jit_result_cond
    jitWork: Option<Proc>,       // whose LBR jit_work points to
    jitResult: nat,
    daemon: Daemon,
    cache: JitCache,
    answers: seq<Answer>,        // history: what the daemon answered
    consumed: seq<Answer>)       // history: what validators took, with their own LBR

  datatype Move =
    | Begin(p: Proc, lbr: Image) | Lock(p: Proc) | Look(p: Proc) | Post(p: Proc)
    | Up(p: Proc) | Down(p: Proc) | Finish(p: Proc)
    | Wake | Copy | Put(result: nat) | Signal

  predicate At(s: State, p: Proc, pc: Pc) {
    p in s.procs && s.procs[p].pc == pc
  }

  predicate Enabled(s: State, m: Move) {
    match m
    case Begin(p, _) => At(s, p, Idle)
    case Lock(p) => At(s, p, Wanting) && s.holder == None
    case Look(p) => At(s, p, Locked)
    case Post(p) => At(s, p, Missed)
    case Up(p) => At(s, p, Posted)
    case Down(p) => At(s, p, Waiting) && s.done > 0
    case Finish(p) => At(s, p, Got)
    case Wake => s.daemon == Resting && s.work > 0
    case Copy => s.daemon == Woken && s.jitWork.Some? && s.jitWork.value in s.procs
    case Put(_) => s.daemon.Analysing?
    case Signal => s.daemon == Stored
  }

  function Goto(s: State, p: Proc, pc: Pc): State
    requires p in s.procs
  {
    s.(procs := s.procs[p := s.procs[p].(pc := pc)])
  }

  /** Results 0, 1 and 2 are all cached: an invalid or unsupported LBR is assumed valid. */
  predicate Cached(result: nat) {
    result <= 2
  }

  function Next(digest: Image -> Digest, s: State, m: Move): State
    requires Enabled(s, m) && s.cache.hashes < |s.cache.hash|
  {
    match m
    case Begin(p, lbr) => s.(procs := s.procs[p := Local(Wanting, lbr)])
    case Lock(p) => Goto(s, p, Locked).(holder := Some(p))
    case Look(p) =>
      if digest(s.procs[p].lbr) in s.cache.hash[..s.cache.hashes] then Goto(s, p, Idle).(holder := None)
      else Goto(s, p, Missed)
    case Post(p) => Goto(s, p, Posted).(jitWork := Some(p))
    case Up(p) => Goto(s, p, Waiting).(work := s.work + 1)
    case Down(p) => Goto(s, p, Got).(done := s.done - 1)
    case Finish(p) =>
      var s' := Goto(s, p, Idle).(holder := None, consumed := s.consumed + [Answer(s.procs[p].lbr, s.jitResult)]);
      if Cached(s.jitResult) then s'.(cache := Insert(s.cache, digest(s.procs[p].lbr))) else s'
    case Wake => s.(work := s.work - 1, daemon := Woken)
    case Copy => s.(daemon := Analysing(s.procs[s.jitWork.value].lbr))
    case Put(result) => s.(jitResult := result, daemon := Stored, answers := s.answers + [Answer(s.daemon.copy, result)])
    case Signal => s.(done := s.done + 1, daemon := Resting)
  }

  // ----- The invariant

  predicate InSection(pc: Pc) {
    pc != Idle && pc != Wanting
  }

  /** Only the lock holder is between lock and unlock. */
  ghost predicate Exclusive(s: State) {
    forall p :: (p in s.procs && InSection(s.procs[p].pc)) <==> s.holder == Some(p)
  }

  /** Nothing is on its way between validator and daemon. */
  predicate Quiet(s: State) {
    s.work == 0 && s.done == 0 && s.daemon == Resting
  }

  /** The one outstanding request: posted, being worked on, or answered but not yet collected. */
  ghost predicate Outstanding(s: State, lbr: Image) {
    || (s.work == 1 && s.done == 0 && s.daemon == Resting && s.answers == s.consumed)
    || (s.work == 0 && s.done == 0 && s.daemon == Woken && s.answers == s.consumed)
    || (s.work == 0 && s.done == 0 && s.daemon == Analysing(lbr) && s.answers == s.consumed)
    || (s.work == 0 && s.done == 0 && s.daemon == Stored && s.answers == s.consumed + [Answer(lbr, s.jitResult)])
    || (s.work == 0 && s.done == 1 && s.daemon == Resting && s.answers == s.consumed + [Answer(lbr, s.jitResult)])
  }

  /** What the holder's place in the code says about the shared variables. */
  ghost predicate HolderOk(digest: Image -> Digest, s: State, p: Proc)
    requires p in s.procs && s.cache.hashes <= |s.cache.hash|
  {
    var me := s.procs[p];
    && (me.pc == Locked || me.pc == Missed || me.pc == Posted ==> Quiet(s) && s.answers == s.consumed)
    && (me.pc == Posted || me.pc == Waiting ==> s.jitWork == Some(p))
    && (me.pc == Waiting ==> Outstanding(s, me.lbr))
    && (me.pc == Got ==> Quiet(s) && s.answers == s.consumed + [Answer(me.lbr, s.jitResult)])
    && (me.pc != Locked ==> digest(me.lbr) !in Matchable(s.cache))
  }

  /** The digests inserted so far: those of the consumed answers invalid (0), valid (1) and
      unsupported (2), in order. */
  ghost function Inserted(digest: Image -> Digest, consumed: seq<Answer>): seq<Digest> {
    if consumed == [] then []
    else
      var a := consumed[|consumed| - 1];
      Inserted(digest, consumed[..|consumed| - 1]) + if a.result in {0, 1, 2} then [digest(a.lbr)] else []
  }

  ghost predicate Inv(digest: Image -> Digest, s: State) {
    && Exclusive(s)
    && CacheHolds(s.cache, Inserted(digest, s.consumed))
    && (s.holder == None ==> Quiet(s) && s.answers == s.consumed)
    && (s.holder.Some? ==> s.holder.value in s.procs && HolderOk(digest, s, s.holder.value))
  }

  lemma InsertedNext(digest: Image -> Digest, consumed: seq<Answer>, a: Answer)
    ensures Inserted(digest, consumed + [a]) == Inserted(digest, consumed) + if a.result in {0, 1, 2} then [digest(a.lbr)] else []
  {
  }

  lemma {:induction false} FinishKeepsCache(digest: Image -> Digest, s: State, p: Proc)
    requires Inv(digest, s) && Enabled(s, Finish(p))
    ensures var s' := Next(digest, s, Finish(p)); CacheHolds(s'.cache, Inserted(digest, s'.consumed))
  {
    hide CacheHolds, Inserted, Matchable, Outstanding;
    var a := Answer(s.procs[p].lbr, s.jitResult);
    InsertedNext(digest, s.consumed, a);
    assert s.holder == Some(p);
    if Cached(s.jitResult) {
      InsertHolds(s.cache, Inserted(digest, s.consumed), digest(a.lbr));
    } else {
      assert Inserted(digest, s.consumed) + [] == Inserted(digest, s.consumed);
    }
  }

  lemma OutsideKeepsInv(digest: Image -> Digest, s: State, m: Move)
    requires Inv(digest, s) && Enabled(s, m) && (m.Begin? || m.Lock?)
    ensures Inv(digest, Next(digest, s, m))
  {
    hide CacheHolds, Inserted, Insert;
  }

  lemma {:induction false} HolderKeepsInv(digest: Image -> Digest, s: State, m: Move)
    requires Inv(digest, s) && Enabled(s, m) && (m.Look? || m.Post? || m.Up? || m.Down?)
    ensures Inv(digest, Next(digest, s, m))
  {
    hide CacheHolds, Inserted, Insert;
    assert s.holder == Some(m.p);
  }

  lemma {:induction false} FinishKeepsInv(digest: Image -> Digest, s: State, p: Proc)
    requires Inv(digest, s) && Enabled(s, Finish(p))
    ensures Inv(digest, Next(digest, s, Finish(p)))
  {
    hide CacheHolds, Inserted, Insert, Matchable, Outstanding;
    FinishKeepsCache(digest, s, p);
    assert s.holder == Some(p);
  }

  lemma DaemonKeepsInv(digest: Image -> Digest, s: State, m: Move)
    requires Inv(digest, s) && Enabled(s, m) && (m.Wake? || m.Copy? || m.Put? || m.Signal?)
    ensures Inv(digest, Next(digest, s, m))
  {
    hide CacheHolds, Inserted, Insert;
  }

  /** Every step of every validator and of the daemon keeps the invariant. */
  lemma {:induction false} StepKeepsInv(digest: Image -> Digest, s: State, m: Move)
    requires Inv(digest, s) && Enabled(s, m)
    ensures Inv(digest, Next(digest, s, m))
  {
    hide Inv, Enabled, Next;
    if m.Begin? || m.Lock? {
      OutsideKeepsInv(digest, s, m);
    } else if m.Finish? {
      FinishKeepsInv(digest, s, m.p);
    } else if m.Look? || m.Post? || m.Up? || m.Down? {
      HolderKeepsInv(digest, s, m);
    } else {
      DaemonKeepsInv(digest, s, m);
    }
  }

  // ----- Whole runs

  ghost predicate Init(s: State) {
    && (forall p :: p in s.procs ==> s.procs[p].pc == Idle)
    && s.holder == None && Quiet(s) && s.answers == s.consumed == []
    && s.cache.hashes == 0 && |s.cache.hash| == JIT_CACHE_SIZE
  }

  /** Any interleaving of steps. */
  ghost predicate IsRun(digest: Image -> Digest, states: seq<State>, moves: seq<Move>) {
    && |states| == |moves| + 1 && Init(states[0])
    && forall i :: 0 <= i < |moves| ==>
         && states[i].cache.hashes < |states[i].cache.hash| && Enabled(states[i], moves[i])
         && states[i + 1] == Next(digest, states[i], moves[i])
  }

  /** At most one request is outstanding; a validator that is woken finds the answer to its own LBR;
      answers are taken once and in order; and the cache matches the latest digests only, each of
      them answered before. */
  ghost predicate Safe(digest: Image -> Digest, s: State) {
    && s.work + s.done + (if s.daemon == Resting then 0 else 1) <= 1
    && (forall p :: At(s, p, Got) ==> s.answers == s.consumed + [Answer(s.procs[p].lbr, s.jitResult)])
    && s.consumed <= s.answers && |s.answers| <= |s.consumed| + 1
    && CacheHolds(s.cache, Inserted(digest, s.consumed))
    && (forall d :: d in Matchable(s.cache) ==> exists a :: a in s.answers && a.result in {0, 1, 2} && digest(a.lbr) == d)
  }

  lemma {:induction false} InsertedAnswered(digest: Image -> Digest, consumed: seq<Answer>, d: Digest)
    requires d in Inserted(digest, consumed)
    ensures exists a :: a in consumed && a.result in {0, 1, 2} && digest(a.lbr) == d
    decreases |consumed|
  {
    var a := consumed[|consumed| - 1];
    if d in Inserted(digest, consumed[..|consumed| - 1]) {
      InsertedAnswered(digest, consumed[..|consumed| - 1], d);
    } else {
      assert a in consumed && a.result in {0, 1, 2} && digest(a.lbr) == d;
    }
  }

  lemma InvSafe(digest: Image -> Digest, s: State)
    requires Inv(digest, s)
    ensures Safe(digest, s)
  {
    hide Inserted, Distinct;
    forall p | At(s, p, Got)
      ensures s.answers == s.consumed + [Answer(s.procs[p].lbr, s.jitResult)]
    {
      assert s.holder == Some(p);
    }
    forall d | d in Matchable(s.cache)
      ensures exists a :: a in s.answers && a.result in {0, 1, 2} && digest(a.lbr) == d
    {
      InsertedAnswered(digest, s.consumed, d);
    }
  }

  lemma {:induction false} InvAlways(digest: Image -> Digest, states: seq<State>, moves: seq<Move>, i: nat)
    requires IsRun(digest, states, moves) && i < |states|
    ensures Inv(digest, states[i])
    decreases i
  {
    if i > 0 {
      InvAlways(digest, states, moves, i - 1);
      StepKeepsInv(digest, states[i - 1], moves[i - 1]);
      assert states[i - 1 + 1] == Next(digest, states[i - 1], moves[i - 1]);
    } else {
      assert Inserted(digest, states[0].consumed) == [];
    }
  }

  /** The main result: every state of every interleaving is safe. */
  lemma ProtocolSafe(digest: Image -> Digest, states: seq<State>, moves: seq<Move>)
    requires IsRun(digest, states, moves)
    ensures forall i :: 0 <= i < |states| ==> Safe(digest, states[i])
  {
    hide Safe, IsRun;
    forall i | 0 <= i < |states|
      ensures Safe(digest, states[i])
    {
      InvAlways(digest, states, moves, i);
      InvSafe(digest, states[i]);
    }
  }

  /** No deadlock: while a validator is not idle, some validator or the daemon can go on. */
  lemma NeverStuck(digest: Image -> Digest, s: State, p: Proc) returns (m: Move)
    requires Inv(digest, s) && p in s.procs && s.procs[p].pc != Idle
    ensures !m.Begin? && Enabled(s, m)
  {
    hide CacheHolds, Inserted;
    if s.holder == None { return Lock(p); }
    var h := s.holder.value;
    var pc := s.procs[h].pc;
    if pc == Locked { return Look(h); }
    if pc == Missed { return Post(h); }
    if pc == Posted { return Up(h); }
    if pc == Got { return Finish(h); }
    if s.done > 0 { return Down(h); }
    if s.work > 0 { return Wake; }
    if s.daemon == Woken { return Copy; }
    if s.daemon == Stored { return Signal; }
    return Put(0);
  }

  // ----- Nobody passes unchecked

  /** The latest digests that a lookup can match after these answers. */
  ghost function Remembered(digest: Image -> Digest, consumed: seq<Answer>): seq<Digest> {
    var inserted := Inserted(digest, consumed);
    inserted[|inserted| - |inserted| % JIT_CACHE_SIZE..]
  }

  /** How the place of a validator in the code changes, if it does: it begins with an LBR, takes the lock,
      leaves at once if its digest is remembered, else asks, waits for the daemon, and leaves with
      the answer for its own LBR. */
  ghost predicate Follows(digest: Image -> Digest, s: State, s': State, p: Proc)
    requires p in s.procs && p in s'.procs
  {
    var me, me', known := s.procs[p], s'.procs[p], digest(s.procs[p].lbr) in Remembered(digest, s.consumed);
    && (me.pc != Idle ==> me'.lbr == me.lbr)
    && match me.pc
       case Idle => me'.pc == Wanting
       case Wanting => me'.pc == Locked && s.holder == None && s'.holder == Some(p)
       case Locked => me'.pc == (if known then Idle else Missed) && s'.consumed == s.consumed
       case Missed => me'.pc == Posted && s'.jitWork == Some(p)
       case Posted => me'.pc == Waiting && s'.work == s.work + 1
       case Waiting => me'.pc == Got && s.answers == s.consumed + [Answer(me.lbr, s.jitResult)]
       case Got => me'.pc == Idle && s'.consumed == s'.answers == s.consumed + [Answer(me.lbr, s.jitResult)]
  }

  lemma RememberedMatchable(digest: Image -> Digest, c: JitCache, consumed: seq<Answer>)
    requires CacheHolds(c, Inserted(digest, consumed))
    ensures Remembered(digest, consumed) == Matchable(c)
  {
  }

  lemma {:induction false} StepFollows(digest: Image -> Digest, s: State, m: Move, p: Proc)
    requires Inv(digest, s) && Enabled(s, m) && p in s.procs
    ensures var s' := Next(digest, s, m); p in s'.procs && (s'.procs[p] != s.procs[p] ==> Follows(digest, s, s', p))
  {
    hide CacheHolds, Inserted, Insert, Remembered;
    RememberedMatchable(digest, s.cache, s.consumed);
    if InSection(s.procs[p].pc) { assert s.holder == Some(p); }
  }

  /** In every run, a validator leaves the section either with a digest among the remembered ones at its
      lookup, or with an answer of the daemon for its own LBR; and it takes the steps between in
      order. */
  lemma {:induction false} NobodyPassesUnchecked(digest: Image -> Digest, states: seq<State>, moves: seq<Move>, i: nat, p: Proc)
    requires IsRun(digest, states, moves) && i < |moves| && p in states[i].procs
    ensures p in states[i + 1].procs
    ensures states[i + 1].procs[p] != states[i].procs[p] ==> Follows(digest, states[i], states[i + 1], p)
    ensures states[i + 1].procs[p].pc == Idle && states[i].procs[p].pc != Idle ==>
              || digest(states[i].procs[p].lbr) in Remembered(digest, states[i].consumed)
              || states[i + 1].consumed == states[i].consumed + [Answer(states[i].procs[p].lbr, states[i].jitResult)]
  {
    hide Inv, Next, Enabled, Init, Inserted;
    InvAlways(digest, states, moves, i);
    StepFollows(digest, states[i], moves[i], p);
    assert states[i + 1] == Next(digest, states[i], moves[i]);
  }

  // ----- The lock is released after a fixed number of steps

  /** How many steps the lock holder and the daemon are away from the unlock. */
  ghost function Rank(s: State): nat {
    if s.holder == None || s.holder.value !in s.procs then 0
    else
      match s.procs[s.holder.value].pc
      case Locked => 9
      case Missed => 8
      case Posted => 7
      case Waiting =>
        if s.work > 0 then 6
        else (match s.daemon case Woken => 5 case Analysing(_) => 4 case Stored => 3 case Resting => 2)
      case Got => 1
      case _ => 0
  }

  /** Every step but the arrival of a validator and taking the free lock brings the unlock nearer. */
  lemma {:induction false} RankDecreases(digest: Image -> Digest, s: State, m: Move)
    requires Inv(digest, s) && Enabled(s, m)
    ensures m.Begin? ==> Rank(Next(digest, s, m)) == Rank(s)
    ensures m.Lock? ==> s.holder == None
    ensures !m.Begin? && !m.Lock? ==> Rank(Next(digest, s, m)) < Rank(s)
  {
    hide CacheHolds, Inserted, Insert, Matchable;
    if m.Look? || m.Post? || m.Up? || m.Down? || m.Finish? {
      assert s.holder == Some(m.p);
    }
  }

  ghost function Steps(moves: seq<Move>): nat {
    if moves == [] then 0 else Steps(moves[..|moves| - 1]) + if moves[|moves| - 1].Begin? then 0 else 1
  }

  lemma {:induction false} HeldFor(digest: Image -> Digest, states: seq<State>, moves: seq<Move>, i: nat, j: nat)
    requires IsRun(digest, states, moves) && i <= j < |states|
    requires forall k :: i <= k <= j ==> states[k].holder.Some?
    ensures Steps(moves[i..j]) + Rank(states[j]) <= Rank(states[i])
    decreases j
  {
    hide Inv, Next, Rank, Enabled, Init;
    if i < j {
      HeldFor(digest, states, moves, i, j - 1);
      InvAlways(digest, states, moves, j - 1);
      RankDecreases(digest, states[j - 1], moves[j - 1]);
      assert states[j - 1 + 1] == Next(digest, states[j - 1], moves[j - 1]);
      assert moves[i..j][..j - i - 1] == moves[i..j - 1];
    }
  }

  /** In every run, while the lock is held without a break, at most eight steps other than arrivals of
      validators happen: the ninth releases it. */
  lemma {:induction false} LockReleased(digest: Image -> Digest, states: seq<State>, moves: seq<Move>, i: nat, j: nat)
    requires IsRun(digest, states, moves) && i <= j < |states|
    requires forall k :: i <= k <= j ==> states[k].holder.Some?
    ensures Steps(moves[i..j]) <= 8
  {
    hide IsRun, Inv;
    HeldFor(digest, states, moves, i, j);
    InvAlways(digest, states, moves, i);
    HeldHasRank(digest, states[i]);
    InvAlways(digest, states, moves, j);
    HeldHasRank(digest, states[j]);
  }

  lemma HeldHasRank(digest: Image -> Digest, s: State)
    requires Inv(digest, s) && s.holder.Some?
    ensures 1 <= Rank(s) <= 9
  {
    hide CacheHolds, Inserted;
  }
}
