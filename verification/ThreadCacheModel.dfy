/**
 The thread-cached allocator as a transition system. Every thread has a program
 counter and private per-class bins; allocation records sit behind 64 shard mutexes
 and central storage behind one more mutex. A step is what one thread does between two
 points where another thread may observe or change shared state: acquiring a mutex is
 a step of its own, and a critical section's work releases its mutex as it ends.

 Central storage is abstracted to the map of addresses it has handed out; the
 sequential allocator behind it is modelled in SegregatedModel.
 */
module ThreadCacheModel {
  import opened Bits
  import opened SizeClasses
  import opened Provider

  const SHARD_COUNT: nat := 64

  /** The record shard of an address: the low alignment bits are ignored. */
  function Shard(a: Addr): nat {
    (a / 16) % SHARD_COUNT
  }

  datatype Config = Config(classes: seq<nat>, low: nat, high: nat, batch: nat)

  /** What the constructor accepts: a valid class table and consistent watermarks. */
  ghost predicate ValidConfig(cfg: Config) {
    && ValidClasses(cfg.classes)
    && 0 < cfg.high < SIZE_MAX
    && cfg.low <= cfg.high
    && 1 <= cfg.batch <= cfg.high
  }

  datatype ClassId = Fallback | Class(index: nat)

  /** An allocation record: `active` tells a live allocation from a cached block. */
  datatype Record = Record(cls: ClassId, size: nat, alignment: nat, owner: nat, active: bool)

  /** What central storage knows of a block it handed out. */
  datatype Kind = Pooled(index: nat) | Direct(size: nat, alignment: nat)

  /** `fetcher` is a history field: the thread whose request obtained the block. */
  datatype Block = Block(kind: Kind, fetcher: nat)

  /** A normalized request together with the class it selects. */
  datatype Request = Request(cls: ClassId, size: nat, alignment: nat)

  datatype Sizing = Unsized | Sized(size: nat, alignment: nat)

  /**
   The work a thread carries into a critical section. `owned` is history: whether the pointer
   was held by the clients when the free began.
   */
  datatype Job =
    | Fetching(req: Request, i: nat, result: Option<Addr>)
    | Recording(req: Request, i: nat, result: Option<Addr>, p: Addr)
    | Undoing(req: Request, i: nat, result: Option<Addr>, p: Addr)
    | Reusing(req: Request, p: Addr)
    | Freeing(p: Addr, sizing: Sizing, owned: bool)
    | Flushing(p: Addr, cls: nat, target: nat, all: bool)

  datatype PC =
    | Idle
    | WantShard(job: Job)    // waiting for the shard mutex of the job's address
    | InShard(job: Job)      // holding it
    | WantCentral(job: Job)  // waiting for the central mutex; a free or flush also holds its shard
    | InCentral(job: Job)    // holding it
    | Erasing(job: Job)      // central storage took the block back, the record is still there
    | PushRefill(req: Request, i: nat, result: Option<Addr>, p: Addr)
    | NoteLive(p: Addr)      // about to count the allocation and return it
    | PushFreed(p: Addr, cls: nat)
    | FlushLoop(cls: nat, target: nat, all: bool)
    | Inconsistent           // one of the "cannot happen" errors was raised

  datatype Thread = Thread(pc: PC, bins: seq<seq<Addr>>)

  /** An activation makes an address live for a client, an end returns it. */
  datatype Event = Activated(a: Addr) | Ended(a: Addr)

  /**
   `held` and `history` are history variables: the pointers clients have been given and
   not yet handed back, and the activations and ends so far. The counters are those the
   statistics report.
   */
  datatype State = State(
    central: map<Addr, Block>,
    records: map<Addr, Record>,
    shardLock: map<nat, nat>,
    centralLock: Option<nat>,
    threads: seq<Thread>,
    centralAllocations: int,
    centralDeallocations: int,
    live: int,
    cached: int,
    held: set<Addr>,
    history: seq<Event>)

  function Init(cfg: Config, threadCount: nat): State {
    State(map[], map[], map[], None,
          seq(threadCount, i => Thread(Idle, seq(|cfg.classes|, j => []))),
          0, 0, 0, 0, {}, [])
  }

  /** Choices made outside the allocator: the client's calls, the scheduler, and failures. */
  datatype Action =
    | BeginAllocate(size: nat, alignment: nat)
    | BeginFree(p: Addr, sizing: Sizing)
    | BeginRelease
    | LockShard
    | LockCentral
    | Fetch(answer: Option<Addr>)  // None: central allocation throws
    | Insert(ok: bool)             // false: inserting the record throws
    | Advance

  predicate Begins(act: Action) {
    act.BeginAllocate? || act.BeginFree? || act.BeginRelease?
  }

  function PointerOf(job: Job): Addr {
    if job.Fetching? then 0 else job.p
  }

  /** A thread owns the shard mutex of its job's address at these locations. */
  predicate HoldsShard(pc: PC) {
    || pc.InShard?
    || pc.Erasing?
    || ((pc.WantCentral? || pc.InCentral?) && (pc.job.Freeing? || pc.job.Flushing?))
  }

  function KindOf(req: Request): Kind {
    match req.cls
    case Fallback => Direct(req.size, req.alignment)
    case Class(i) => Pooled(i)
  }

  // ---- where central storage can put a block ----

  /** The bytes set aside for a block, and the number its address is a multiple of. */
  function BlockBytes(classes: seq<nat>, k: Kind): nat {
    match k
    case Pooled(i) => if i < |classes| then classes[i] else 0
    case Direct(size, _) => size
  }

  function BlockUnit(classes: seq<nat>, k: Kind): nat {
    match k
    case Pooled(i) => if i < |classes| then classes[i] else 0
    case Direct(_, alignment) => alignment
  }

  function Extent(classes: seq<nat>, k: Kind, a: Addr): Region {
    Region(a, BlockBytes(classes, k))
  }

  /** A block of this kind can start at `a`. */
  predicate Lies(classes: seq<nat>, k: Kind, a: Addr) {
    && a != 0 && BlockUnit(classes, k) != 0 && a % BlockUnit(classes, k) == 0
    && BlockBytes(classes, k) >= 1 && a + BlockBytes(classes, k) <= SIZE_LIMIT
  }

  /** What central storage may answer: a block lies at `a`, clear of every block it has handed out. */
  predicate Grants(classes: seq<nat>, central: map<Addr, Block>, k: Kind, a: Addr) {
    && Lies(classes, k, a) && a !in central
    && forall b :: b in central ==> Apart(Extent(classes, central[b].kind, b), Extent(classes, k, a))
  }

  /** The record check of a sized deallocation. */
  predicate RecordAccepts(cfg: Config, r: Record, sizing: Sizing) {
    match sizing
    case Unsized => true
    case Sized(size, alignment) =>
      match r.cls
      case Fallback => r.size == Normalized(size) && r.alignment == alignment
      case Class(i) => Select(cfg.classes, Normalized(size), alignment) == Selected(i)
  }

  /** Central storage's own check of a deallocation of a block it handed out. */
  predicate CentralAccepts(cfg: Config, k: Kind, sizing: Sizing) {
    match sizing
    case Unsized => true
    case Sized(size, alignment) =>
      match k
      case Direct(s, a) => s == Normalized(size) && a == alignment
      case Pooled(i) => Select(cfg.classes, size, alignment) == Selected(i)
  }

  function SetPC(s: State, t: nat, pc: PC): State
    requires t < |s.threads|
  {
    s.(threads := s.threads[t := s.threads[t].(pc := pc)])
  }

  function SetThread(s: State, t: nat, pc: PC, c: nat, bin: seq<Addr>): State
    requires t < |s.threads| && c < |s.threads[t].bins|
  {
    s.(threads := s.threads[t := Thread(pc, s.threads[t].bins[c := bin])])
  }

  function DropShard(s: State, a: Addr): State {
    s.(shardLock := s.shardLock - {Shard(a)})
  }

  // ---- allocate ----

  function BeginAllocateStep(cfg: Config, s: State, t: nat, size: nat, alignment: nat): State
    requires t < |s.threads|
    requires |s.threads[t].bins| == |cfg.classes|
  {
    var n := Normalized(size);
    match Select(cfg.classes, n, alignment)
    case InvalidAlignment => s
    case NoClass => SetPC(s, t, WantCentral(Fetching(Request(Fallback, n, alignment), 0, None)))
    case Selected(c) =>
      var req := Request(Class(c), n, alignment);
      var bin := s.threads[t].bins[c];
      if |bin| > 0 then
        SetThread(s, t, WantShard(Reusing(req, bin[|bin| - 1])), c, bin[..|bin| - 1])
      else
        SetPC(s, t, WantCentral(Fetching(req, 0, None)))
  }

  /** Where the refill loop goes after iteration `i`; the fallback path never loops. */
  function NextIteration(cfg: Config, req: Request, i: nat, result: Addr): PC {
    if req.cls.Class? && i + 1 < cfg.batch then WantCentral(Fetching(req, i + 1, Some(result)))
    else NoteLive(result)
  }

  /** Where a failed iteration leaves the thread: the first one throws, a later one is a partial refill. */
  function AfterFailure(result: Option<Addr>): PC {
    match result
    case None => Idle
    case Some(p) => NoteLive(p)
  }

  function FetchStep(s: State, t: nat, job: Job, answer: Option<Addr>): State
    requires t < |s.threads| && job.Fetching?
  {
    match answer
    case None => SetPC(s, t, AfterFailure(job.result)).(centralLock := None)
    case Some(p) =>
      SetPC(s, t, WantShard(Recording(job.req, job.i, job.result, p))).(
        centralLock := None,
        central := s.central[p := Block(KindOf(job.req), t)],
        centralAllocations := s.centralAllocations + 1)
  }

  function InsertStep(cfg: Config, s: State, t: nat, job: Job, ok: bool): State
    requires t < |s.threads| && job.Recording?
  {
    var req, p := job.req, job.p;
    if p in s.records then SetPC(s, t, Inconsistent)
    else if !ok then
      DropShard(SetPC(s, t, WantCentral(Undoing(req, job.i, job.result, p))), p)
    else
      var first := req.cls.Fallback? || job.i == 0;
      var pc := if first then NextIteration(cfg, req, 0, p) else PushRefill(req, job.i, job.result, p);
      DropShard(SetPC(s, t, pc), p).(
        records := s.records[p := Record(req.cls, req.size, req.alignment, t, first)],
        history := if first then s.history + [Activated(p)] else s.history)
  }

  function UndoStep(cfg: Config, s: State, t: nat, job: Job): State
    requires t < |s.threads| && job.Undoing?
  {
    if job.p in s.central && CentralAccepts(cfg, s.central[job.p].kind, Sized(job.req.size, job.req.alignment)) then
      SetPC(s, t, AfterFailure(job.result)).(
        centralLock := None,
        central := s.central - {job.p},
        centralDeallocations := s.centralDeallocations + 1)
    else SetPC(s, t, Inconsistent)
  }

  function PushRefillStep(cfg: Config, s: State, t: nat): State
    requires t < |s.threads| && s.threads[t].pc.PushRefill?
    requires s.threads[t].pc.req.cls.Class? && s.threads[t].pc.req.cls.index < |s.threads[t].bins|
    requires s.threads[t].pc.result.Some?
  {
    var pc := s.threads[t].pc;
    var c := pc.req.cls.index;
    SetThread(s, t, NextIteration(cfg, pc.req, pc.i, pc.result.value), c, s.threads[t].bins[c] + [pc.p]).(
      cached := s.cached + 1)
  }

  function NoteLiveStep(s: State, t: nat, p: Addr): State
    requires t < |s.threads|
  {
    SetPC(s, t, Idle).(live := s.live + 1, held := s.held + {p})
  }

  function ReuseStep(s: State, t: nat, job: Job): State
    requires t < |s.threads| && job.Reusing?
  {
    var req, p := job.req, job.p;
    if p !in s.records || s.records[p].active then SetPC(s, t, Inconsistent)
    else
      DropShard(SetPC(s, t, Idle), p).(
        records := s.records[p := s.records[p].(size := req.size, alignment := req.alignment, owner := t,
            active := true)],
        cached := s.cached - 1,
        live := s.live + 1,
        held := s.held + {p},
        history := s.history + [Activated(p)])
  }

  // ---- deallocate ----

  datatype Verdict = Foreign | AlreadyFree | Mismatch | ToCentral | ToBin(cls: nat)

  /** The decision of `deallocate` on the record it finds. */
  function Judge(cfg: Config, s: State, t: nat, p: Addr, sizing: Sizing): Verdict {
    if p !in s.records then Foreign
    else
      var r := s.records[p];
      if !r.active then AlreadyFree
      else if !RecordAccepts(cfg, r, sizing) then Mismatch
      else if r.owner != t || r.cls.Fallback? then ToCentral
      else ToBin(r.cls.index)
  }

  function BeginFreeStep(s: State, t: nat, p: Addr, sizing: Sizing): State
    requires t < |s.threads|
  {
    SetPC(s, t, WantShard(Freeing(p, sizing, p in s.held))).(held := s.held - {p})
  }

  function CheckFreeStep(cfg: Config, s: State, t: nat, job: Job): State
    requires t < |s.threads| && job.Freeing?
  {
    var p := job.p;
    match Judge(cfg, s, t, p, job.sizing)
    case Foreign => DropShard(SetPC(s, t, Idle), p)
    case AlreadyFree => DropShard(SetPC(s, t, Idle), p)
    case Mismatch => DropShard(SetPC(s, t, Idle), p).(held := if job.owned then s.held + {p} else s.held)
    case ToCentral => SetPC(s, t, WantCentral(job))
    case ToBin(c) =>
      assert p in s.records;
      DropShard(SetPC(s, t, PushFreed(p, c)), p).(
        records := s.records[p := s.records[p].(active := false)],
        live := s.live - 1,
        cached := s.cached + 1,
        history := s.history + [Ended(p)])
  }

  /** `central_deallocate` under the record's shard mutex, from a free or a flush. */
  function CentralFreeStep(cfg: Config, s: State, t: nat, job: Job): State
    requires t < |s.threads| && (job.Freeing? || job.Flushing?)
  {
    var sizing := if job.Freeing? then job.sizing else Unsized;
    if job.p in s.central && CentralAccepts(cfg, s.central[job.p].kind, sizing) then
      SetPC(s, t, Erasing(job)).(
        centralLock := None,
        central := s.central - {job.p},
        centralDeallocations := s.centralDeallocations + 1)
    else SetPC(s, t, Inconsistent)
  }

  function EraseFreedStep(s: State, t: nat, p: Addr): State
    requires t < |s.threads|
  {
    DropShard(SetPC(s, t, Idle), p).(
      records := s.records - {p},
      live := s.live - 1,
      history := s.history + [Ended(p)])
  }

  function PushFreedStep(cfg: Config, s: State, t: nat): State
    requires t < |s.threads| && s.threads[t].pc.PushFreed?
    requires s.threads[t].pc.cls < |s.threads[t].bins|
  {
    var p, c := s.threads[t].pc.p, s.threads[t].pc.cls;
    var bin := s.threads[t].bins[c] + [p];
    SetThread(s, t, if |bin| > cfg.high then FlushLoop(c, cfg.low, false) else Idle, c, bin)
  }

  // ---- flush ----

  function FlushLoopStep(cfg: Config, s: State, t: nat): State
    requires t < |s.threads| && s.threads[t].pc.FlushLoop?
    requires s.threads[t].pc.cls < |s.threads[t].bins|
  {
    var pc := s.threads[t].pc;
    var bin := s.threads[t].bins[pc.cls];
    if |bin| > pc.target then
      SetPC(s, t, WantShard(Flushing(bin[|bin| - 1], pc.cls, pc.target, pc.all)))
    else if pc.all && pc.cls + 1 < |cfg.classes| then
      SetPC(s, t, FlushLoop(pc.cls + 1, pc.target, true))
    else SetPC(s, t, Idle)
  }

  function CheckFlushStep(s: State, t: nat, job: Job): State
    requires t < |s.threads| && job.Flushing?
  {
    if job.p !in s.records || s.records[job.p].active then SetPC(s, t, Inconsistent)
    else SetPC(s, t, WantCentral(job))
  }

  function EraseFlushedStep(s: State, t: nat, job: Job): State
    requires t < |s.threads| && job.Flushing?
    requires job.cls < |s.threads[t].bins| && |s.threads[t].bins[job.cls]| > 0
  {
    var bin := s.threads[t].bins[job.cls];
    DropShard(SetThread(s, t, FlushLoop(job.cls, job.target, job.all), job.cls, bin[..|bin| - 1]), job.p).(
      records := s.records - {job.p},
      cached := s.cached - 1)
  }

  // ---- the transition system ----

  /**
   Which actions thread `t` can take. Clients may call `BeginFree` with any pointer, from
   any thread; the null pointer is filtered out by the public interface. Central storage
   answers an allocation with any address where a block of the kind asked for can lie, aligned
   as its class or the request demands, clear of all blocks it currently has handed out.
   */
  predicate Enabled(cfg: Config, s: State, t: nat, act: Action) {
    && t < |s.threads|
    && var th := s.threads[t];
    && |th.bins| == |cfg.classes|
    && match act
       case BeginAllocate(_, _) => th.pc.Idle?
       case BeginFree(p, _) => th.pc.Idle? && p != 0
       case BeginRelease => th.pc.Idle?
       case LockShard => th.pc.WantShard? && Shard(PointerOf(th.pc.job)) !in s.shardLock
       case LockCentral => th.pc.WantCentral? && s.centralLock.None?
       case Fetch(answer) =>
         && th.pc.InCentral? && th.pc.job.Fetching?
         && (answer.Some? ==> Grants(cfg.classes, s.central, KindOf(th.pc.job.req), answer.value))
       case Insert(_) => th.pc.InShard? && th.pc.job.Recording?
       case Advance =>
         match th.pc
         case InShard(job) => job.Reusing? || job.Freeing? || job.Flushing?
         case InCentral(job) => job.Undoing? || job.Freeing? || job.Flushing?
         case Erasing(job) =>
           || job.Freeing?
           || (job.Flushing? && job.cls < |th.bins| && |th.bins[job.cls]| > 0)
         case PushRefill(req, _, result, _) => req.cls.Class? && req.cls.index < |th.bins| && result.Some?
         case NoteLive(_) => true
         case PushFreed(_, c) => c < |th.bins|
         case FlushLoop(c, _, _) => c < |th.bins|
         case _ => false
  }

  function AdvanceStep(cfg: Config, s: State, t: nat): State
    requires Enabled(cfg, s, t, Advance)
  {
    match s.threads[t].pc
    case InShard(job) =>
      if job.Reusing? then ReuseStep(s, t, job)
      else if job.Freeing? then CheckFreeStep(cfg, s, t, job)
      else CheckFlushStep(s, t, job)
    case InCentral(job) =>
      if job.Undoing? then UndoStep(cfg, s, t, job) else CentralFreeStep(cfg, s, t, job)
    case Erasing(job) =>
      if job.Freeing? then EraseFreedStep(s, t, job.p) else EraseFlushedStep(s, t, job)
    case PushRefill(_, _, _, _) => PushRefillStep(cfg, s, t)
    case NoteLive(p) => NoteLiveStep(s, t, p)
    case PushFreed(_, _) => PushFreedStep(cfg, s, t)
    case FlushLoop(_, _, _) => FlushLoopStep(cfg, s, t)
  }

  function Step(cfg: Config, s: State, t: nat, act: Action): State
    requires Enabled(cfg, s, t, act)
  {
    match act
    case BeginAllocate(size, alignment) => BeginAllocateStep(cfg, s, t, size, alignment)
    case BeginFree(p, sizing) => BeginFreeStep(s, t, p, sizing)
    case BeginRelease => if |cfg.classes| == 0 then s else SetPC(s, t, FlushLoop(0, 0, true))
    case LockShard =>
      var job := s.threads[t].pc.job;
      SetPC(s, t, InShard(job)).(shardLock := s.shardLock[Shard(PointerOf(job)) := t])
    case LockCentral => SetPC(s, t, InCentral(s.threads[t].pc.job)).(centralLock := Some(t))
    case Fetch(answer) => FetchStep(s, t, s.threads[t].pc.job, answer)
    case Insert(ok) => InsertStep(cfg, s, t, s.threads[t].pc.job, ok)
    case Advance => AdvanceStep(cfg, s, t)
  }

  /** A run: which thread acts, and how, at each step. */
  type Run = seq<(nat, Action)>

  predicate IsRun(cfg: Config, s: State, run: Run)
    decreases |run|
  {
    |run| == 0 ||
    (Enabled(cfg, s, run[0].0, run[0].1) && IsRun(cfg, Step(cfg, s, run[0].0, run[0].1), run[1..]))
  }

  function After(cfg: Config, s: State, run: Run): State
    requires IsRun(cfg, s, run)
    decreases |run|
  {
    if |run| == 0 then s else After(cfg, Step(cfg, s, run[0].0, run[0].1), run[1..])
  }

  /** A disciplined client frees only pointers it was given and has not yet handed back. */
  predicate Disciplined(s: State, act: Action) {
    act.BeginFree? ==> act.p in s.held
  }

  predicate IsDisciplinedRun(cfg: Config, s: State, run: Run)
    decreases |run|
  {
    |run| == 0 ||
    (&& Enabled(cfg, s, run[0].0, run[0].1)
     && Disciplined(s, run[0].1)
     && IsDisciplinedRun(cfg, Step(cfg, s, run[0].0, run[0].1), run[1..]))
  }

  /** No operation is in flight. */
  predicate Quiescent(s: State) {
    forall t :: 0 <= t < |s.threads| ==> s.threads[t].pc.Idle?
  }
}
