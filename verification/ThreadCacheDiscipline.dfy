/**
 What one free of a pointer that is not held can do. After such a free begins, and with all
 else disciplined, `live_allocations` can drop below zero in every case but two: the caller is
 the only thread, or no allocation that the free describes could return that pointer.
 */
module ThreadCacheDiscipline {
  import opened Bits
  import opened SizeClasses
  import opened Sums
  import opened Provider
  import opened ThreadCacheModel
  import opened ThreadCacheInvariant
  import opened ThreadCacheSafety
  import opened ThreadCacheProgress
  import opened ThreadCacheCounters

  // ---- disciplined continuations ----

  /** A disciplined run leads from `s` to `n`. */
  ghost predicate Leads(cfg: Config, s: State, n: State) {
    exists run :: IsDisciplinedRun(cfg, s, run) && IsRun(cfg, s, run) && After(cfg, s, run) == n
  }

  lemma {:induction false} AppendDisciplined(cfg: Config, s: State, run: Run, t: nat, act: Action)
    requires IsDisciplinedRun(cfg, s, run) && IsRun(cfg, s, run)
    requires Enabled(cfg, After(cfg, s, run), t, act) && Disciplined(After(cfg, s, run), act)
    ensures IsDisciplinedRun(cfg, s, run + [(t, act)])
    decreases |run|
  {
    hide Enabled, Step, Disciplined;
    var longer := run + [(t, act)];
    if |run| == 0 {
      assert longer[1..] == [];
    } else {
      assert longer[1..] == run[1..] + [(t, act)];
      AppendDisciplined(cfg, Step(cfg, s, run[0].0, run[0].1), run[1..], t, act);
    }
  }

  lemma LeadsOn(cfg: Config, s: State, m: State, t: nat, act: Action)
    requires Leads(cfg, s, m) && Enabled(cfg, m, t, act) && Disciplined(m, act)
    ensures Leads(cfg, s, Step(cfg, m, t, act))
  {
    hide Enabled, Step, Disciplined;
    var run :| IsDisciplinedRun(cfg, s, run) && IsRun(cfg, s, run) && After(cfg, s, run) == m;
    AppendDisciplined(cfg, s, run, t, act);
    AppendStep(cfg, s, run, t, act);
  }

  lemma LeadsToItself(cfg: Config, s: State)
    ensures Leads(cfg, s, s)
  {
    assert IsDisciplinedRun(cfg, s, []) && After(cfg, s, []) == s;
  }

  // ---- every active record has a holder ----

  ghost predicate Claimant(s: State, t: nat, a: Addr) {
    t < |s.threads| && Claims(s.threads[t].pc, a)
  }

  /** Whatever clients do, an active record is held by them or claimed by a call in flight. */
  ghost predicate Covered(s: State) {
    forall a :: IsActive(s, a) ==> a in s.held || exists t: nat :: Claimant(s, t, a)
  }

  /** The step leaves no active record behind without holder or claimant. */
  ghost predicate Covers(s: State, n: State, t: nat)
    requires t < |s.threads|
  {
    && OnlyThread(s, n, t)
    && forall a :: IsActive(n, a) && a !in n.held && !Claims(n.threads[t].pc, a) ==>
         IsActive(s, a) && a !in s.held && !Claims(s.threads[t].pc, a)
  }

  lemma CoversKeeps(s: State, n: State, t: nat)
    requires t < |s.threads| && Covered(s) && Covers(s, n, t)
    ensures Covered(n)
  {
    hide IsActive, Claims;
    forall a | IsActive(n, a) && a !in n.held
      ensures exists u: nat :: Claimant(n, u, a)
    {
      if Claims(n.threads[t].pc, a) {
        assert Claimant(n, t, a);
      } else {
        var u: nat :| Claimant(s, u, a);
        assert u != t && n.threads[u] == s.threads[u];
        assert Claimant(n, u, a);
      }
    }
  }

  lemma ShardCovers(cfg: Config, s: State, t: nat)
    requires Enabled(cfg, s, t, Advance) && s.threads[t].pc.InShard?
    requires !AdvanceStep(cfg, s, t).threads[t].pc.Inconsistent?
    ensures Covers(s, AdvanceStep(cfg, s, t), t)
  {
    hide UndoStep, CentralFreeStep, EraseFreedStep, EraseFlushedStep;
    hide NoteLiveStep, PushRefillStep, PushFreedStep, FlushLoopStep;
    if s.threads[t].pc.job.Freeing? {
      hide ReuseStep, CheckFlushStep, CheckFreeStep;
      CheckFreeCovers(cfg, s, t, s.threads[t].pc.job);
    } else {
      hide CheckFreeStep;
    }
  }

  lemma CheckFreeCovers(cfg: Config, s: State, t: nat, job: Job)
    requires t < |s.threads| && s.threads[t].pc == InShard(job) && job.Freeing?
    ensures Covers(s, CheckFreeStep(cfg, s, t, job), t)
  {
    hide RecordAccepts, Shard;
  }

  lemma CentralCovers(cfg: Config, s: State, t: nat)
    requires Enabled(cfg, s, t, Advance) && (s.threads[t].pc.InCentral? || s.threads[t].pc.Erasing?)
    requires !AdvanceStep(cfg, s, t).threads[t].pc.Inconsistent?
    ensures Covers(s, AdvanceStep(cfg, s, t), t)
  {
    hide CentralAccepts, Shard;
    hide ReuseStep, CheckFreeStep, CheckFlushStep, NoteLiveStep, PushRefillStep, PushFreedStep, FlushLoopStep;
  }

  lemma PrivateCovers(cfg: Config, s: State, t: nat)
    requires Enabled(cfg, s, t, Advance) && !HasJob(s.threads[t].pc)
    ensures Covers(s, AdvanceStep(cfg, s, t), t)
  {
    hide ReuseStep, CheckFreeStep, CheckFlushStep, UndoStep, CentralFreeStep, EraseFreedStep, EraseFlushedStep;
    assert AdvanceStep(cfg, s, t).records == s.records;
  }

  lemma InsertCovers(cfg: Config, s: State, t: nat, ok: bool)
    requires Enabled(cfg, s, t, Insert(ok)) && ThreadOk(cfg, s, t) && LocksOk(s)
    ensures Covers(s, InsertStep(cfg, s, t, s.threads[t].pc.job, ok), t)
  {
    hide BinOk, RequestOk;
    assert s.threads[t].pc.job.p !in s.records;
  }

  lemma OtherCovers(cfg: Config, s: State, t: nat, act: Action)
    requires Enabled(cfg, s, t, act) && !act.Advance? && !act.Insert?
    ensures Covers(s, Step(cfg, s, t, act), t)
  {
    hide AdvanceStep, InsertStep, Select, Shard;
    assert Step(cfg, s, t, act).records == s.records;
  }

  lemma StepCovered(cfg: Config, s: State, t: nat, act: Action)
    requires ValidConfig(cfg) && Inv(cfg, s) && Covered(s) && Enabled(cfg, s, t, act)
    ensures Covered(Step(cfg, s, t, act))
  {
    assert ThreadOk(cfg, s, t) && LocksOk(s);
    var n := Step(cfg, s, t, act);
    hide ThreadOk, LocksOk, Covered, Covers, Inv;
    if act.Advance? {
      AdvanceStaysConsistent(cfg, s, t);
      hide AdvanceStep;
      if s.threads[t].pc.InShard? {
        ShardCovers(cfg, s, t);
      } else if s.threads[t].pc.InCentral? || s.threads[t].pc.Erasing? {
        CentralCovers(cfg, s, t);
      } else {
        PrivateCovers(cfg, s, t);
      }
    } else if act.Insert? {
      hide InsertStep;
      InsertCovers(cfg, s, t, act.ok);
    } else {
      hide Step;
      OtherCovers(cfg, s, t, act);
    }
    CoversKeeps(s, n, t);
  }

  lemma {:induction false} RunCovered(cfg: Config, s: State, run: Run)
    requires ValidConfig(cfg) && Inv(cfg, s) && Covered(s) && IsRun(cfg, s, run)
    ensures Covered(After(cfg, s, run))
    decreases |run|
  {
    hide Inv, Covered, Enabled, Step;
    if |run| > 0 {
      StepKeepsInv(cfg, s, run[0].0, run[0].1);
      StepCovered(cfg, s, run[0].0, run[0].1);
      RunCovered(cfg, Step(cfg, s, run[0].0, run[0].1), run[1..]);
    }
  }

  lemma ReachableCovered(cfg: Config, n: nat, s: State)
    requires ValidConfig(cfg) && Reachable(cfg, n, s)
    ensures Covered(s)
  {
    var run :| IsRun(cfg, Init(cfg, n), run) && After(cfg, Init(cfg, n), run) == s;
    InitInv(cfg, n);
    assert Covered(Init(cfg, n));
    hide Inv, Covered;
    RunCovered(cfg, Init(cfg, n), run);
  }

  // ---- others move while one thread waits ----

  /** Disciplined steps of other threads keep ownership exclusive, whatever thread `but` is doing. */
  lemma OwnedOn(cfg: Config, s: State, u: nat, act: Action, but: nat)
    requires ValidConfig(cfg) && Inv(cfg, s) && Owned(s) && Honest(s, but) && u != but
    requires Enabled(cfg, s, u, act) && Disciplined(s, act)
    ensures var n := Step(cfg, s, u, act); Owned(n) && Honest(n, but)
  {
    assert ThreadOk(cfg, s, u) && LocksOk(s) && Lawful(s.threads[u].pc);
    hide Inv, ThreadOk, LocksOk, Owned, Keeps, Handover, Honest, Enabled, Step;
    HonestStep(cfg, s, u, act, but);
    StepHandover(cfg, s, u, act);
    HandoverKeepsOwned(s, Step(cfg, s, u, act), u, Focus(s, u, act));
  }

  /** Reached from `s0` by disciplined steps, none of them by thread `t`, which waits as `th`. */
  ghost predicate Waits(cfg: Config, n: nat, s0: State, s: State, t: nat, th: Thread) {
    && Leads(cfg, s0, s) && Reachable(cfg, n, s) && Owned(s) && Honest(s, t)
    && t < |s.threads| == |s0.threads| && s.threads[t] == th && th.pc.WantShard?
  }

  lemma WaitsOn(cfg: Config, n: nat, s0: State, s: State, t: nat, th: Thread, u: nat, act: Action)
    requires ValidConfig(cfg) && Waits(cfg, n, s0, s, t, th) && u != t && Enabled(cfg, s, u, act) && Disciplined(s, act)
    ensures Waits(cfg, n, s0, Step(cfg, s, u, act), t, th)
  {
    assert u < |s.threads|;
    ReachableInv(cfg, n, s);
    hide Leads, Reachable, Enabled, Step, Disciplined, Inv, Owned, Honest;
    LeadsOn(cfg, s0, s, u, act);
    ReachableStep(cfg, n, s, u, act);
    StepMovesOne(cfg, s, u, act);
    OwnedOn(cfg, s, u, act, t);
  }

  lemma HeldNotNull(cfg: Config, s: State, a: Addr)
    requires Inv(cfg, s) && Owned(s) && a in s.held
    ensures a != 0
  {
    assert IsActive(s, a);
    assert RecordOk(cfg, s, a);
    if PendingErase(s, a) {
      var u := s.shardLock[Shard(a)];
      assert ThreadOk(cfg, s, u);
      var job := s.threads[u].pc.job;
      assert job.Flushing? ==> BinOk(cfg, s, u, job.cls);
    } else {
      assert BlockOk(s, a);
    }
  }

  /** All operations but the waiting one can be brought to their end. */
  lemma {:induction false} SettleOthers(cfg: Config, n: nat, s0: State, s: State, t: nat, th: Thread) returns (m: State)
    requires ValidConfig(cfg) && Waits(cfg, n, s0, s, t, th)
    ensures Waits(cfg, n, s0, m, t, th) && OthersIdle(m, t)
    decreases Max(StepsLeft(cfg, s), 0)
  {
    if OthersIdle(s, t) {
      return s;
    }
    ReachableInv(cfg, n, s);
    hide Inv, StepsLeft, Enabled, Step, Leads, Reachable, Owned, Honest;
    var u, act := PickStep(cfg, s, t);
    StepDecreases(cfg, s, u, act);
    StepKeepsInv(cfg, s, u, act);
    StepsLeftNonNegative(cfg, Step(cfg, s, u, act));
    WaitsOn(cfg, n, s0, s, t, th, u, act);
    m := SettleOthers(cfg, n, s0, Step(cfg, s, u, act), t, th);
  }

  // ---- others give everything back ----

  /** Nothing under way but frees without a size and flushes. */
  predicate Draining(pc: PC) {
    || pc.Idle? || pc.FlushLoop? || pc.PushFreed?
    || (HasJob(pc) && (pc.job.Flushing? || (pc.job.Freeing? && pc.job.sizing.Unsized?)))
  }

  ghost predicate OthersDrain(s: State, but: nat) {
    forall t :: 0 <= t < |s.threads| && t != but ==> Draining(s.threads[t].pc)
  }

  /** The thread has nothing cached, or is releasing all it has. */
  predicate Clean(th: Thread) {
    || (th.pc.Idle? && forall c :: 0 <= c < |th.bins| ==> th.bins[c] == [])
    || (th.pc.FlushLoop? && th.pc.all)
    || (HasJob(th.pc) && th.pc.job.Flushing? && th.pc.job.all)
  }

  /** Nothing new is held, the thread goes on draining, and once clean it stays clean. */
  ghost predicate Drains(s: State, n: State, t: nat)
    requires t < |s.threads|
  {
    && |n.threads| == |s.threads| && n.held == s.held && Draining(n.threads[t].pc)
    && (Clean(s.threads[t]) ==> Clean(n.threads[t]))
  }

  lemma ShardDrains(cfg: Config, s: State, t: nat)
    requires Enabled(cfg, s, t, Advance) && s.threads[t].pc.InShard? && Draining(s.threads[t].pc)
    requires !AdvanceStep(cfg, s, t).threads[t].pc.Inconsistent?
    ensures Drains(s, AdvanceStep(cfg, s, t), t)
  {
    hide Shard, ReuseStep, UndoStep, CentralFreeStep, EraseFreedStep, EraseFlushedStep;
    hide NoteLiveStep, PushRefillStep, PushFreedStep, FlushLoopStep;
  }

  lemma CentralDrains(cfg: Config, s: State, t: nat)
    requires Enabled(cfg, s, t, Advance) && (s.threads[t].pc.InCentral? || s.threads[t].pc.Erasing?)
    requires Draining(s.threads[t].pc) && !AdvanceStep(cfg, s, t).threads[t].pc.Inconsistent?
    ensures Drains(s, AdvanceStep(cfg, s, t), t)
  {
    hide CentralAccepts, Shard, UndoStep;
    hide ReuseStep, CheckFreeStep, CheckFlushStep, NoteLiveStep, PushRefillStep, PushFreedStep, FlushLoopStep;
  }

  lemma PrivateDrains(cfg: Config, s: State, t: nat)
    requires Enabled(cfg, s, t, Advance) && ThreadOk(cfg, s, t)
    requires s.threads[t].pc.FlushLoop? || s.threads[t].pc.PushFreed?
    ensures Drains(s, AdvanceStep(cfg, s, t), t)
  {
    hide BinOk, ReuseStep, CheckFreeStep, CheckFlushStep, UndoStep, CentralFreeStep, EraseFreedStep, EraseFlushedStep;
    hide NoteLiveStep, PushRefillStep;
  }

  lemma LockDrains(cfg: Config, s: State, t: nat, act: Action)
    requires Enabled(cfg, s, t, act) && (act.LockShard? || act.LockCentral?) && Draining(s.threads[t].pc)
    ensures Drains(s, Step(cfg, s, t, act), t)
  {
    hide Shard;
  }

  lemma DrainStep(cfg: Config, s: State, t: nat, act: Action)
    requires ValidConfig(cfg) && Inv(cfg, s) && Enabled(cfg, s, t, act) && !Begins(act) && Draining(s.threads[t].pc)
    ensures Drains(s, Step(cfg, s, t, act), t)
  {
    var pc := s.threads[t].pc;
    if act.Advance? {
      assert ThreadOk(cfg, s, t);
      AdvanceStaysConsistent(cfg, s, t);
      hide Inv, ThreadOk, AdvanceStep, Drains;
      if pc.InShard? {
        ShardDrains(cfg, s, t);
      } else if pc.InCentral? || pc.Erasing? {
        CentralDrains(cfg, s, t);
      } else {
        PrivateDrains(cfg, s, t);
      }
    } else {
      hide Inv, Step, Drains;
      LockDrains(cfg, s, t, act);
    }
  }

  ghost function Unclean(s: State, but: nat): set<nat> {
    set t | 0 <= t < |s.threads| && t != but && !Clean(s.threads[t])
  }

  lemma UncleanStep(s: State, n: State, u: nat, but: nat)
    requires u < |s.threads| && u != but && OnlyThread(s, n, u) && (Clean(s.threads[u]) ==> Clean(n.threads[u]))
    ensures |Unclean(n, but)| <= |Unclean(s, but)|
    ensures !Clean(s.threads[u]) && Clean(n.threads[u]) ==> |Unclean(n, but)| < |Unclean(s, but)|
  {
    hide Clean;
    if !Clean(s.threads[u]) && Clean(n.threads[u]) {
      assert Unclean(n, but) == Unclean(s, but) - {u};
      assert u in Unclean(s, but);
    } else {
      assert Unclean(n, but) == Unclean(s, but);
    }
  }

  lemma OthersDrainOn(s: State, n: State, u: nat, but: nat)
    requires u < |s.threads| && OnlyThread(s, n, u) && OthersDrain(s, but) && Draining(n.threads[u].pc)
    ensures OthersDrain(n, but)
  {
  }

  /** Nothing is held, and no other thread has anything in flight or cached. */
  ghost predicate Drained(s: State, but: nat) {
    && s.held == {} && OthersIdle(s, but)
    && forall t, c :: 0 <= t < |s.threads| && t != but && 0 <= c < |s.threads[t].bins| ==> s.threads[t].bins[c] == []
  }

  /** A step towards giving everything back: less is held, less is cached, or an operation moves on. */
  ghost predicate Shrinks(s: State, n: State, act: Action, but: nat) {
    && OthersDrain(n, but)
    && (|| |n.held| < |s.held|
        || (n.held == s.held && |Unclean(n, but)| < |Unclean(s, but)|)
        || (n.held == s.held && |Unclean(n, but)| <= |Unclean(s, but)| && !Begins(act)))
  }

  lemma FreeMove(cfg: Config, s: State, but: nat, v: nat, a: Addr)
    requires OthersDrain(s, but) && v < |s.threads| && v != but && s.threads[v].pc.Idle?
    requires |s.threads[v].bins| == |cfg.classes| && a in s.held && a != 0
    ensures Enabled(cfg, s, v, BeginFree(a, Unsized))
    ensures Shrinks(s, Step(cfg, s, v, BeginFree(a, Unsized)), BeginFree(a, Unsized), but)
  {
    var n := Step(cfg, s, v, BeginFree(a, Unsized));
    assert n.held == s.held - {a};
    OthersDrainOn(s, n, v, but);
  }

  lemma ReleaseMove(cfg: Config, s: State, but: nat, v: nat)
    requires ValidConfig(cfg) && OthersDrain(s, but) && v < |s.threads| && v != but && s.threads[v].pc.Idle?
    requires |s.threads[v].bins| == |cfg.classes| && !Clean(s.threads[v])
    ensures Enabled(cfg, s, v, BeginRelease) && Shrinks(s, Step(cfg, s, v, BeginRelease), BeginRelease, but)
  {
    var n := Step(cfg, s, v, BeginRelease);
    assert Clean(n.threads[v]);
    OthersDrainOn(s, n, v, but);
    UncleanStep(s, n, v, but);
  }

  lemma FinishMove(cfg: Config, s: State, but: nat, v: nat, act: Action)
    requires ValidConfig(cfg) && Inv(cfg, s) && OthersDrain(s, but) && v != but
    requires Enabled(cfg, s, v, act) && !Begins(act)
    ensures Shrinks(s, Step(cfg, s, v, act), act, but)
  {
    assert v < |s.threads| && Draining(s.threads[v].pc);
    hide Inv, Enabled, Step, Clean, Draining, OthersDrain;
    DrainStep(cfg, s, v, act);
    StepMovesOne(cfg, s, v, act);
    OthersDrainOn(s, Step(cfg, s, v, act), v, but);
    UncleanStep(s, Step(cfg, s, v, act), v, but);
  }

  lemma DrainMove(cfg: Config, s: State, but: nat) returns (u: nat, act: Action)
    requires ValidConfig(cfg) && Inv(cfg, s) && Owned(s) && OthersDrain(s, but) && but < |s.threads| && |s.threads| >= 2
    requires s.threads[but].pc.WantShard? && !Drained(s, but)
    ensures Enabled(cfg, s, u, act) && Disciplined(s, act) && u != but && Shrinks(s, Step(cfg, s, u, act), act, but)
  {
    hide Shrinks, Enabled, Step, OthersDrain;
    if !OthersIdle(s, but) {
      u, act := PickStep(cfg, s, but);
      FinishMove(cfg, s, but, u, act);
    } else if s.held != {} {
      u := if but == 0 then 1 else 0;
      var a :| a in s.held;
      act := BeginFree(a, Unsized);
      HeldNotNull(cfg, s, a);
      assert ThreadOk(cfg, s, u);
      hide Inv, Owned;
      FreeMove(cfg, s, but, u, a);
    } else {
      var v: nat :| v < |s.threads| && v != but
          && exists c :: 0 <= c < |s.threads[v].bins| && s.threads[v].bins[c] != [];
      u, act := v, BeginRelease;
      assert ThreadOk(cfg, s, u);
      hide Inv, Owned;
      ReleaseMove(cfg, s, but, u);
    }
  }

  lemma {:induction false} Drain(cfg: Config, n: nat, s0: State, s: State, t: nat, th: Thread) returns (m: State)
    requires ValidConfig(cfg) && Waits(cfg, n, s0, s, t, th) && OthersDrain(s, t) && |s.threads| >= 2
    ensures Waits(cfg, n, s0, m, t, th) && Drained(m, t)
    decreases |s.held|, |Unclean(s, t)|, Max(StepsLeft(cfg, s), 0)
  {
    if Drained(s, t) {
      return s;
    }
    ReachableInv(cfg, n, s);
    hide Inv, StepsLeft, Enabled, Step, Leads, Reachable, Owned, Honest, OthersDrain, Unclean, Drained;
    var u, act := DrainMove(cfg, s, t);
    StepKeepsInv(cfg, s, u, act);
    StepsLeftNonNegative(cfg, Step(cfg, s, u, act));
    if !Begins(act) {
      StepDecreases(cfg, s, u, act);
    }
    WaitsOn(cfg, n, s0, s, t, th, u, act);
    m := Drain(cfg, n, s0, Step(cfg, s, u, act), t, th);
  }

  // ---- where a freed pointer could have come from ----

  /** A block of this kind can lie at `p`, clear of the blocks cached in `bins`. */
  ghost predicate FitsAt(cfg: Config, bins: seq<seq<Addr>>, k: Kind, p: Addr) {
    && Lies(cfg.classes, k, p)
    && forall c, b :: 0 <= c < |bins| && b in bins[c] ==>
         Apart(Extent(cfg.classes, Pooled(c), b), Extent(cfg.classes, k, p))
  }

  function RequestFor(cfg: Config, size: nat, alignment: nat): Request {
    match Select(cfg.classes, Normalized(size), alignment)
    case Selected(c) => Request(Class(c), Normalized(size), alignment)
    case _ => Request(Fallback, Normalized(size), alignment)
  }

  function Largest(cfg: Config): nat
    requires |cfg.classes| > 0
  {
    cfg.classes[|cfg.classes| - 1]
  }

  /** Wherever any block can lie, one of these can. */
  function SmallestKinds(cfg: Config): seq<Kind>
    requires |cfg.classes| > 0
  {
    [Pooled(0), Direct(Largest(cfg) + 1, 1), Direct(1, 2 * Largest(cfg))]
  }

  /**
   Some allocation could return `p` while the blocks in `bins` stay cached, and a free with this
   sizing would be accepted for it. All of it can be checked before the call.
   */
  ghost predicate Placeable(cfg: Config, bins: seq<seq<Addr>>, p: Addr, sizing: Sizing)
    requires |cfg.classes| > 0
  {
    match sizing
    case Unsized => exists i :: 0 <= i < 3 && FitsAt(cfg, bins, SmallestKinds(cfg)[i], p)
    case Sized(size, alignment) =>
      IsPowerOfTwo(alignment) && FitsAt(cfg, bins, KindOf(RequestFor(cfg, size, alignment)), p)
  }

  /** A free with this sizing is accepted for an allocation that answered `req`. */
  predicate Describes(cfg: Config, sizing: Sizing, req: Request) {
    RecordAccepts(cfg, Record(req.cls, req.size, req.alignment, 0, true), sizing)
  }

  lemma RequestForOk(cfg: Config, size: nat, alignment: nat)
    requires IsPowerOfTwo(alignment)
    ensures var req := RequestFor(cfg, size, alignment);
            RequestOk(cfg, req) && req.size == Normalized(size) && req.alignment == alignment
  {
  }

  /** What fits in a place also fits there if it needs less room and less alignment. */
  lemma FitsSmaller(cfg: Config, bins: seq<seq<Addr>>, k: Kind, l: Kind, p: Addr)
    requires FitsAt(cfg, bins, k, p) && 1 <= BlockBytes(cfg.classes, l) <= BlockBytes(cfg.classes, k)
    requires BlockUnit(cfg.classes, l) != 0 && BlockUnit(cfg.classes, k) % BlockUnit(cfg.classes, l) == 0
    ensures FitsAt(cfg, bins, l, p)
  {
    ModTransitive(p, BlockUnit(cfg.classes, l), BlockUnit(cfg.classes, k));
  }

  lemma DoublePower(v: nat)
    requires IsPowerOfTwo(v)
    ensures IsPowerOfTwo(2 * v)
  {
    PowerOfTwoTest(v);
    var k: nat :| v == Pow2(k);
    assert 2 * v == Pow2(k + 1);
    PowerOfTwoTest(2 * v);
  }

  /** A power of two beyond another one is a multiple of its double. */
  lemma NextPower(v: nat, w: nat)
    requires IsPowerOfTwo(v) && IsPowerOfTwo(w) && v < w
    ensures 2 * v <= w && w % (2 * v) == 0
  {
    PowerOfTwoHasExponent(v);
    PowerOfTwoHasExponent(w);
    hide IsPowerOfTwo;
    var i, j := Log2(v), Log2(w);
    if j <= i {
      Pow2Monotone(j, i);
    }
    Pow2Monotone(i + 1, j);
    assert Pow2(i + 1) == 2 * v;
    DoublePower(v);
    PowersDivide(2 * v, w);
  }

  /** Each of the smallest kinds is the kind of some request. */
  lemma SmallestRequest(cfg: Config, i: nat) returns (req: Request)
    requires ValidConfig(cfg) && i < 3
    ensures RequestOk(cfg, req) && KindOf(req) == SmallestKinds(cfg)[i]
  {
    var size, alignment := if i == 0 then cfg.classes[0] else if i == 1 then Largest(cfg) + 1 else 1,
                           if i == 0 then cfg.classes[0] else if i == 1 then 1 else 2 * Largest(cfg);
    assert IsPowerOfTwo(alignment) by {
      DoublePower(Largest(cfg));
      assert And(1, 0) == 0;
    }
    req := RequestFor(cfg, size, alignment);
    RequestForOk(cfg, size, alignment);
    hide IsPowerOfTwo;
    assert forall j :: 0 <= j < |cfg.classes| ==> cfg.classes[j] <= Largest(cfg);
  }

  /** Every request leaves room for one of the smallest kinds. */
  lemma SmallestIsLeast(cfg: Config, req: Request) returns (i: nat)
    requires ValidConfig(cfg) && RequestOk(cfg, req)
    ensures i < 3
    ensures var k, l := KindOf(req), SmallestKinds(cfg)[i];
            && 1 <= BlockBytes(cfg.classes, l) <= BlockBytes(cfg.classes, k)
            && BlockUnit(cfg.classes, l) != 0 && BlockUnit(cfg.classes, k) % BlockUnit(cfg.classes, l) == 0
  {
    var largest := Largest(cfg);
    if req.cls.Class? {
      PowersDivide(cfg.classes[0], cfg.classes[req.cls.index]);
      return 0;
    }
    assert IsPowerOfTwo(req.alignment) && IsPowerOfTwo(largest) && Max(req.size, req.alignment) > largest;
    if req.size > largest {
      return 1;
    }
    NextPower(largest, req.alignment);
    return 2;
  }

  /** The check before the call is exact: it is whether some request could be answered with `p` and freed like this. */
  lemma Placement(cfg: Config, bins: seq<seq<Addr>>, p: Addr, sizing: Sizing)
    requires ValidConfig(cfg)
    ensures Placeable(cfg, bins, p, sizing) <==>
              exists req :: RequestOk(cfg, req) && Describes(cfg, sizing, req) && FitsAt(cfg, bins, KindOf(req), p)
  {
    assert |cfg.classes| > 0;
    hide FitsAt, ValidConfig;
    if Placeable(cfg, bins, p, sizing) {
      var req := PlacedRequest(cfg, bins, p, sizing);
    }
    forall req | RequestOk(cfg, req) && Describes(cfg, sizing, req) && FitsAt(cfg, bins, KindOf(req), p)
      ensures Placeable(cfg, bins, p, sizing)
    {
      if sizing.Unsized? {
        var i := SmallestIsLeast(cfg, req);
        FitsSmaller(cfg, bins, KindOf(req), SmallestKinds(cfg)[i], p);
      } else {
        SameKind(cfg, sizing, req);
      }
    }
  }

  lemma PlacedRequest(cfg: Config, bins: seq<seq<Addr>>, p: Addr, sizing: Sizing) returns (req: Request)
    requires ValidConfig(cfg) && Placeable(cfg, bins, p, sizing)
    ensures RequestOk(cfg, req) && Describes(cfg, sizing, req) && FitsAt(cfg, bins, KindOf(req), p)
  {
    hide FitsAt;
    if sizing.Unsized? {
      var i: nat :| i < 3 && FitsAt(cfg, bins, SmallestKinds(cfg)[i], p);
      req := SmallestRequest(cfg, i);
    } else {
      req := RequestFor(cfg, sizing.size, sizing.alignment);
      RequestForOk(cfg, sizing.size, sizing.alignment);
    }
  }

  lemma SameKind(cfg: Config, sizing: Sizing, req: Request)
    requires RequestOk(cfg, req) && Describes(cfg, sizing, req) && sizing.Sized?
    ensures IsPowerOfTwo(sizing.alignment)
    ensures KindOf(req) == KindOf(RequestFor(cfg, sizing.size, sizing.alignment))
  {
  }

  /** Nothing can be placed where the caller itself has a block cached. */
  lemma CachedIsTaken(cfg: Config, bins: seq<seq<Addr>>, k: Kind, p: Addr)
    requires ValidConfig(cfg) && |bins| == |cfg.classes| && FitsAt(cfg, bins, k, p)
    ensures forall c :: 0 <= c < |bins| ==> p !in bins[c]
  {
    forall c | 0 <= c < |bins|
      ensures p !in bins[c]
    {
      assert BlockBytes(cfg.classes, Pooled(c)) >= 1;
      assert !Apart(Extent(cfg.classes, Pooled(c), p), Extent(cfg.classes, k, p));
    }
  }

  // ---- the guessed address is handed out, and freed before it is counted ----

  /** Everything is drained, and thread `t` is waiting to free a pointer that was not held. */
  ghost predicate Poised(s: State, t: nat) {
    && Drained(s, t) && t < |s.threads|
    && s.threads[t].pc.WantShard? && s.threads[t].pc.job.Freeing? && !s.threads[t].pc.job.owned
  }

  lemma LocksFree(s: State, t: nat)
    requires LocksOk(s) && Poised(s, t)
    ensures s.shardLock == map[] && s.centralLock == None
  {
    assert forall h :: h !in s.shardLock;
  }

  lemma NoneActive(s: State, t: nat)
    requires Covered(s) && Poised(s, t)
    ensures forall a :: !IsActive(s, a)
  {
    assert forall u: nat, a :: !Claimant(s, u, a);
  }

  /** All that central storage still has out is cached in the waiting thread's bins. */
  lemma LeftInBins(cfg: Config, s: State, t: nat, a: Addr)
    requires Poised(s, t) && !IsActive(s, a)
    requires a in s.records ==> RecordOk(cfg, s, a)
    requires a in s.central ==> BlockOk(s, a)
    ensures a in s.records || a in s.central ==> exists c :: CachedAt(s.threads[t].bins, c, a)
    ensures a in s.central ==> s.central[a].kind.Pooled? && CachedAt(s.threads[t].bins, s.central[a].kind.index, a)
  {
    if a in s.records {
      assert CachedAt(s.threads[t].bins, s.records[a].cls.index, a);
    }
  }

  ghost predicate CachedAt(bins: seq<seq<Addr>>, c: nat, a: Addr) {
    c < |bins| && a in bins[c]
  }

  /** Once everything is drained, all mutexes are free, nothing is live, and `p` can be handed out. */
  lemma NothingLeft(cfg: Config, s: State, t: nat, p: Addr, k: Kind)
    requires ValidConfig(cfg) && Inv(cfg, s) && Counted(s) && Covered(s) && Poised(s, t)
    requires FitsAt(cfg, s.threads[t].bins, k, p)
    ensures p !in s.records && Grants(cfg.classes, s.central, k, p)
    ensures s.shardLock == map[] && s.centralLock == None && s.live == 0
  {
    assert forall u :: 0 <= u < |s.threads| ==> Unnoted(s.threads[u]) == 0;
    assert ThreadOk(cfg, s, t);
    assert |s.threads[t].bins| == |cfg.classes|;
    hide RecordOk, BlockOk, LocksOk, ThreadOk, Covered, Counted, Poised;
    LocksFree(s, t);
    NoneActive(s, t);
    NoneLive(s);
    CachedIsTaken(cfg, s.threads[t].bins, k, p);
    LeftInBins(cfg, s, t, p);
    forall a | a in s.central
      ensures s.central[a].kind.Pooled? && CachedAt(s.threads[t].bins, s.central[a].kind.index, a)
    {
      LeftInBins(cfg, s, t, a);
    }
    hide Inv, FitsAt, Grants;
    GrantsBeside(cfg, s.central, s.threads[t].bins, k, p);
  }

  lemma GrantsBeside(cfg: Config, central: map<Addr, Block>, bins: seq<seq<Addr>>, k: Kind, p: Addr)
    requires FitsAt(cfg, bins, k, p) && p !in central
    requires forall a :: a in central ==> central[a].kind.Pooled? && CachedAt(bins, central[a].kind.index, a)
    ensures Grants(cfg.classes, central, k, p)
  {
    hide Lies, Extent;
  }

  lemma NoneLive(s: State)
    requires Counted(s) && forall a :: !IsActive(s, a)
    requires forall u :: 0 <= u < |s.threads| ==> Unnoted(s.threads[u]) == 0
    ensures s.live == 0
  {
    assert Active(s.records) == {} by {
      assert forall a :: a in Active(s.records) ==> IsActive(s, a);
    }
    SumZero(Tally(s.threads, Unnoted));
  }

  /** Thread `u` has just recorded `p` for the request and not yet counted it; all mutexes are free. */
  ghost predicate Baited(s: State, u: nat, p: Addr, req: Request) {
    && s.shardLock == map[] && s.centralLock == None && s.live == 0
    && p in s.records && s.records[p] == Record(req.cls, req.size, req.alignment, u, true)
    && p in s.central && s.central[p].kind == KindOf(req)
  }

  /** Another thread asks for a block and finds its bin empty. */
  lemma Ask(cfg: Config, s: State, t: nat, u: nat, req: Request) returns (m: State)
    requires ValidConfig(cfg) && Inv(cfg, s) && Drained(s, t) && u < |s.threads| && u != t && RequestOk(cfg, req)
    ensures Enabled(cfg, s, u, BeginAllocate(req.size, req.alignment))
    ensures m == Step(cfg, s, u, BeginAllocate(req.size, req.alignment))
    ensures m == SetPC(s, u, WantCentral(Fetching(req, 0, None)))
  {
    assert ThreadOk(cfg, s, u);
    hide Inv, ThreadOk;
    m := Step(cfg, s, u, BeginAllocate(req.size, req.alignment));
  }

  /** The allocation is answered with `p`. */
  lemma Bait(cfg: Config, n: nat, s0: State, s: State, t: nat, th: Thread, u: nat, p: Addr, req: Request)
      returns (m: State)
    requires ValidConfig(cfg) && Waits(cfg, n, s0, s, t, th) && u < |s.threads| && u != t
    requires s.threads[u].pc == WantCentral(Fetching(req, 0, None)) && |s.threads[u].bins| == |cfg.classes|
    requires p !in s.records && Grants(cfg.classes, s.central, KindOf(req), p)
    requires s.shardLock == map[] && s.centralLock == None && s.live == 0
    ensures Waits(cfg, n, s0, m, t, th) && Baited(m, u, p, req)
  {
    hide Waits, Shard, Grants;
    WaitsOn(cfg, n, s0, s, t, th, u, LockCentral);
    m := Step(cfg, s, u, LockCentral);
    WaitsOn(cfg, n, s0, m, t, th, u, Fetch(Some(p)));
    m := Step(cfg, m, u, Fetch(Some(p)));
    WaitsOn(cfg, n, s0, m, t, th, u, LockShard);
    m := Step(cfg, m, u, LockShard);
    WaitsOn(cfg, n, s0, m, t, th, u, Insert(true));
    m := Step(cfg, m, u, Insert(true));
  }

  /** The waiting thread frees `p` before the allocation is counted. */
  lemma Strike(cfg: Config, s0: State, s: State, t: nat, u: nat, p: Addr, sizing: Sizing, req: Request)
      returns (m: State)
    requires Leads(cfg, s0, s) && Baited(s, u, p, req) && t < |s.threads| && u != t
    requires s.threads[t].pc == WantShard(Freeing(p, sizing, false)) && |s.threads[t].bins| == |cfg.classes|
    requires RecordAccepts(cfg, s.records[p], sizing) && CentralAccepts(cfg, KindOf(req), sizing)
    ensures Leads(cfg, s0, m) && m.live < 0
  {
    hide Leads, Shard, RecordAccepts, CentralAccepts;
    LeadsOn(cfg, s0, s, t, LockShard);
    m := Step(cfg, s, t, LockShard);
    LeadsOn(cfg, s0, m, t, Advance);
    m := Step(cfg, m, t, Advance);
    LeadsOn(cfg, s0, m, t, LockCentral);
    m := Step(cfg, m, t, LockCentral);
    LeadsOn(cfg, s0, m, t, Advance);
    m := Step(cfg, m, t, Advance);
    LeadsOn(cfg, s0, m, t, Advance);
    m := Step(cfg, m, t, Advance);
  }

  lemma RequestAccepted(cfg: Config, req: Request, u: nat, sizing: Sizing)
    requires RequestOk(cfg, req) && Describes(cfg, sizing, req)
    ensures RecordAccepts(cfg, Record(req.cls, req.size, req.alignment, u, true), sizing)
    ensures CentralAccepts(cfg, KindOf(req), sizing)
  {
    RecordCheckSuffices(cfg, Record(req.cls, req.size, req.alignment, u, true), KindOf(req), sizing);
  }

  /**
   A free of a pointer that is not held, but that an allocation could return, can, with one other
   thread and all else disciplined, bring `live_allocations` below zero.
   */
  lemma StrayFreeUnderflows(cfg: Config, n: nat, s0: State, t: nat, p: Addr, sizing: Sizing) returns (m: State)
    requires ValidConfig(cfg) && Reachable(cfg, n, s0) && Owned(s0) && Honest(s0, t) && |s0.threads| >= 2
    requires t < |s0.threads| && s0.threads[t].pc == WantShard(Freeing(p, sizing, false))
    requires Placeable(cfg, s0.threads[t].bins, p, sizing)
    ensures Leads(cfg, s0, m) && m.live < 0
  {
    var th, u := s0.threads[t], if t == 0 then 1 else 0;
    var req := PlacedRequest(cfg, th.bins, p, sizing);
    LeadsToItself(cfg, s0);
    hide Leads, Reachable, Owned, Honest, Placeable, FitsAt;
    var s := SettleOthers(cfg, n, s0, s0, t, th);
    s := Drain(cfg, n, s0, s, t, th);
    ReachableInv(cfg, n, s);
    ReachableCounted(cfg, n, s);
    ReachableCovered(cfg, n, s);
    assert ThreadOk(cfg, s, t) && ThreadOk(cfg, s, u);
    hide Inv, ThreadOk, Counted, Covered, Drained, Grants;
    NothingLeft(cfg, s, t, p, KindOf(req));
    RequestAccepted(cfg, req, u, sizing);
    var asked := Ask(cfg, s, t, u, req);
    WaitsOn(cfg, n, s0, s, t, th, u, BeginAllocate(req.size, req.alignment));
    hide Enabled, Step, RequestOk, Baited;
    var baited := Bait(cfg, n, s0, asked, t, th, u, p, req);
    m := Spring(cfg, n, s0, baited, t, th, u, p, sizing, req);
  }

  lemma Spring(cfg: Config, n: nat, s0: State, s: State, t: nat, th: Thread, u: nat, p: Addr, sizing: Sizing,
      req: Request)
      returns (m: State)
    requires Waits(cfg, n, s0, s, t, th) && Baited(s, u, p, req) && u != t
    requires th.pc == WantShard(Freeing(p, sizing, false)) && |th.bins| == |cfg.classes|
    requires RecordAccepts(cfg, Record(req.cls, req.size, req.alignment, u, true), sizing)
    requires CentralAccepts(cfg, KindOf(req), sizing)
    ensures Leads(cfg, s0, m) && m.live < 0
  {
    hide Leads, Reachable, Owned, Honest;
    m := Strike(cfg, s0, s, t, u, p, sizing, req);
  }

  // ---- when the free is refused in any case ----

  /** Thread `t` is about to have its free refused: it is alone, or no allocation could have returned `p`. */
  ghost predicate Doomed(cfg: Config, s: State, t: nat, p: Addr, sizing: Sizing) {
    && |cfg.classes| > 0 && t < |s.threads|
    && (s.threads[t].pc.WantShard? || s.threads[t].pc.InShard?) && s.threads[t].pc.job == Freeing(p, sizing, false)
    && ((|s.threads| == 1 && !IsActive(s, p)) || !Placeable(cfg, s.threads[t].bins, p, sizing))
  }

  /** Ownership is exclusive, and no free is under way of a pointer that was not held, or one that will be refused. */
  ghost predicate Safe(cfg: Config, s: State, t: nat, p: Addr, sizing: Sizing) {
    Owned(s) && (Honest(s, |s.threads|) || (Honest(s, t) && Doomed(cfg, s, t, p, sizing)))
  }

  /** A block in a thread's bin has its place in central storage while the thread is not flushing it. */
  lemma CachedInCentral(cfg: Config, s: State, t: nat, c: nat, b: Addr)
    requires Inv(cfg, s) && t < |s.threads| && s.threads[t].pc.InShard?
    requires c < |s.threads[t].bins| && b in s.threads[t].bins[c]
    ensures !IsActive(s, b) && b in s.central && s.central[b].kind == Pooled(c)
  {
    assert ThreadOk(cfg, s, t);
    assert BinOk(cfg, s, t, c);
    assert RecordOk(cfg, s, b);
    if PendingErase(s, b) {
      var u := s.shardLock[Shard(b)];
      EraserOwns(cfg, s, u);
    }
  }

  /** A thread about to erase a record is freeing an active one, or flushing one of its own. */
  lemma EraserOwns(cfg: Config, s: State, u: nat)
    requires Inv(cfg, s) && u < |s.threads| && s.threads[u].pc.Erasing?
    ensures var a := PointerOf(s.threads[u].pc.job); a in s.records && (s.records[a].active || s.records[a].owner == u)
  {
    assert ThreadOk(cfg, s, u);
    var job := s.threads[u].pc.job;
    if job.Flushing? {
      assert BinOk(cfg, s, u, job.cls);
    }
  }

  /** The thread inside the shard of an active record sees it as central storage does. */
  lemma InShardInCentral(cfg: Config, s: State, t: nat, p: Addr)
    requires Inv(cfg, s) && t < |s.threads| && s.threads[t].pc.InShard? && PointerOf(s.threads[t].pc.job) == p
    requires p in s.records
    ensures p in s.central && Matches(s.records[p], s.central[p].kind)
  {
    assert RecordOk(cfg, s, p);
    assert LocksOk(s);
  }

  /** Whatever is recorded and accepted at `p` was placed there clear of the thread's cached blocks. */
  lemma AcceptedIsPlaceable(cfg: Config, s: State, t: nat, p: Addr, sizing: Sizing)
    requires ValidConfig(cfg) && Inv(cfg, s) && RequestsOk(cfg, s) && Laid(cfg, s.central)
    requires t < |s.threads| && s.threads[t].pc.InShard? && PointerOf(s.threads[t].pc.job) == p
    requires IsActive(s, p) && RecordAccepts(cfg, s.records[p], sizing)
    ensures Placeable(cfg, s.threads[t].bins, p, sizing)
  {
    var req := Asked(s.records[p]);
    assert RequestOk(cfg, req);
    InShardInCentral(cfg, s, t, p);
    var bins := s.threads[t].bins;
    forall c, b | 0 <= c < |bins| && b in bins[c]
      ensures Apart(Extent(cfg.classes, Pooled(c), b), Extent(cfg.classes, KindOf(req), p))
    {
      CachedInCentral(cfg, s, t, c, b);
    }
    assert FitsAt(cfg, bins, KindOf(req), p);
    assert Describes(cfg, sizing, req);
    Placement(cfg, bins, p, sizing);
  }

  /** The refusal: the thread is idle again and nothing else has changed. */
  lemma Refusal(cfg: Config, s: State, t: nat, p: Addr, sizing: Sizing)
    requires ValidConfig(cfg) && Inv(cfg, s) && RequestsOk(cfg, s) && Laid(cfg, s.central)
    requires Doomed(cfg, s, t, p, sizing) && s.threads[t].pc.InShard? && Enabled(cfg, s, t, Advance)
    ensures var n := Step(cfg, s, t, Advance); Keeps(s, n, t) && n.threads[t].pc.Idle?
  {
    hide Inv, RequestsOk, Laid, Placeable, RecordAccepts, Keeps, Step, Enabled;
    if IsActive(s, p) && RecordAccepts(cfg, s.records[p], sizing) {
      AcceptedIsPlaceable(cfg, s, t, p, sizing);
    }
    RefusedKeeps(cfg, s, t, p, sizing);
  }

  lemma RefusedKeeps(cfg: Config, s: State, t: nat, p: Addr, sizing: Sizing)
    requires Enabled(cfg, s, t, Advance) && s.threads[t].pc == InShard(Freeing(p, sizing, false))
    requires !(IsActive(s, p) && RecordAccepts(cfg, s.records[p], sizing))
    ensures var n := Step(cfg, s, t, Advance); Keeps(s, n, t) && n.threads[t].pc.Idle?
  {
    hide Shard, RecordAccepts;
    assert Judge(cfg, s, t, p, sizing) in {Foreign, AlreadyFree, Mismatch};
  }

  lemma SafeStep(cfg: Config, n: nat, s: State, u: nat, act: Action, t: nat, p: Addr, sizing: Sizing)
    requires ValidConfig(cfg) && Reachable(cfg, n, s) && Safe(cfg, s, t, p, sizing)
    requires Enabled(cfg, s, u, act) && Disciplined(s, act)
    ensures Safe(cfg, Step(cfg, s, u, act), t, p, sizing)
  {
    ReachableInv(cfg, n, s);
    assert u < |s.threads|;
    hide Reachable, Inv, Owned, Honest, Keeps, Handover, Step, Placeable, Laid;
    StepMovesOne(cfg, s, u, act);
    if Honest(s, |s.threads|) {
      OwnedOn(cfg, s, u, act, |s.threads|);
    } else if u != t {
      OwnedOn(cfg, s, u, act, t);
    } else {
      ReachableRequests(cfg, n, s);
      ReachableLaid(cfg, n, s);
      DoomedStep(cfg, s, act, t, p, sizing);
    }
  }

  /** The doomed thread's own step: it takes the mutex, or is refused. */
  lemma DoomedStep(cfg: Config, s: State, act: Action, t: nat, p: Addr, sizing: Sizing)
    requires ValidConfig(cfg) && Inv(cfg, s) && RequestsOk(cfg, s) && Laid(cfg, s.central)
    requires Owned(s) && Honest(s, t) && Doomed(cfg, s, t, p, sizing) && Enabled(cfg, s, t, act)
    ensures Safe(cfg, Step(cfg, s, t, act), t, p, sizing)
  {
    var n := Step(cfg, s, t, act);
    StepMovesOne(cfg, s, t, act);
    hide Inv, RequestsOk, Laid, Placeable;
    if act.LockShard? {
      OtherActionKeeps(cfg, s, t, act);
      assert n.records == s.records;
      assert Doomed(cfg, n, t, p, sizing);
    } else {
      assert act == Advance;
      Refusal(cfg, s, t, p, sizing);
    }
    hide Owned, Keeps, Handover, Enabled, Step, Doomed;
    HandoverKeepsOwned(s, n, t, p);
  }

  lemma {:induction false} RunStaysSafe(cfg: Config, n: nat, s: State, run: Run, t: nat, p: Addr, sizing: Sizing)
    requires ValidConfig(cfg) && Reachable(cfg, n, s) && Safe(cfg, s, t, p, sizing)
    requires IsDisciplinedRun(cfg, s, run) && IsRun(cfg, s, run)
    ensures After(cfg, s, run).live >= 0
    decreases |run|
  {
    hide Reachable, Enabled, Step, Honest, Doomed;
    if |run| == 0 {
      ReachableCounted(cfg, n, s);
      OwnedLiveNotNegative(s);
    } else {
      hide Safe;
      SafeStep(cfg, n, s, run[0].0, run[0].1, t, p, sizing);
      ReachableStep(cfg, n, s, run[0].0, run[0].1);
      RunStaysSafe(cfg, n, Step(cfg, s, run[0].0, run[0].1), run[1..], t, p, sizing);
    }
  }

  // ---- the exact condition ----

  /** Whatever disciplined clients do from `s` on, `live_allocations` stays at or above zero. */
  ghost predicate StaysNonNegative(cfg: Config, s: State) {
    forall run :: IsDisciplinedRun(cfg, s, run) && IsRun(cfg, s, run) ==> After(cfg, s, run).live >= 0
  }

  /** What a caller can know before the call: it holds `p`, or the free is bound to be refused. */
  ghost predicate Harmless(cfg: Config, s: State, t: nat, p: Addr, sizing: Sizing)
    requires t < |s.threads| && |cfg.classes| > 0
  {
    p in s.held || |s.threads| == 1 || !Placeable(cfg, s.threads[t].bins, p, sizing)
  }

  lemma HarmlessIsSafe(cfg: Config, n: nat, s: State, t: nat, p: Addr, sizing: Sizing)
    requires ValidConfig(cfg) && ReachableByDiscipline(cfg, n, s) && Enabled(cfg, s, t, BeginFree(p, sizing))
    requires Harmless(cfg, s, t, p, sizing)
    ensures Safe(cfg, Step(cfg, s, t, BeginFree(p, sizing)), t, p, sizing)
  {
    DisciplineOwned(cfg, n, s);
    if p in s.held {
      hide Reachable, ReachableByDiscipline, Inv, Owned, Honest, Enabled, Step;
      OwnedOn(cfg, s, t, BeginFree(p, sizing), |s.threads|);
      StepMovesOne(cfg, s, t, BeginFree(p, sizing));
    } else {
      ReachableCovered(cfg, n, s);
      hide Inv, Reachable, ReachableByDiscipline, Placeable;
      StrayBegins(s, t, p, sizing);
      AloneInactive(s, t, p);
    }
  }

  lemma StrayBegins(s: State, t: nat, p: Addr, sizing: Sizing)
    requires t < |s.threads| && s.threads[t].pc.Idle? && p !in s.held && Owned(s) && Honest(s, |s.threads|)
    ensures var n := BeginFreeStep(s, t, p, sizing); Owned(n) && Honest(n, t) && n.records == s.records
  {
    var n := BeginFreeStep(s, t, p, sizing);
    assert n.held == s.held;
    assert Keeps(s, n, t);
    hide Owned, Keeps, Handover;
    HandoverKeepsOwned(s, n, t, p);
  }

  lemma AloneInactive(s: State, t: nat, p: Addr)
    requires t < |s.threads| && s.threads[t].pc.Idle? && Covered(s) && p !in s.held
    ensures |s.threads| == 1 ==> !IsActive(s, p)
  {
    assert |s.threads| == 1 ==> forall u: nat :: !Claimant(s, u, p);
  }

  /**
   The exact condition. Take any state disciplined clients can reach and any call
   `deallocate(p, …)` on an idle thread. From then on, with all else disciplined and central
   storage free to hand out any place where a block can lie, `live_allocations` is sure never to
   drop below zero if and only if `p` is held, or there is no other thread, or no allocation that
   the free describes could return `p` while the caller's own blocks stay cached. In every other
   case some disciplined continuation underflows it.
   */
  lemma StrayFreeExact(cfg: Config, n: nat, s: State, t: nat, p: Addr, sizing: Sizing)
    requires ValidConfig(cfg) && ReachableByDiscipline(cfg, n, s) && Enabled(cfg, s, t, BeginFree(p, sizing))
    ensures StaysNonNegative(cfg, Step(cfg, s, t, BeginFree(p, sizing))) <==> Harmless(cfg, s, t, p, sizing)
  {
    var begun := Step(cfg, s, t, BeginFree(p, sizing));
    DisciplineOwned(cfg, n, s);
    ReachableStep(cfg, n, s, t, BeginFree(p, sizing));
    if Harmless(cfg, s, t, p, sizing) {
      HarmlessIsSafe(cfg, n, s, t, p, sizing);
      hide Inv, Owned, Honest, Reachable, ReachableByDiscipline, Enabled, Step, Safe;
      forall run | IsDisciplinedRun(cfg, begun, run) && IsRun(cfg, begun, run)
        ensures After(cfg, begun, run).live >= 0
      {
        RunStaysSafe(cfg, n, begun, run, t, p, sizing);
      }
    } else {
      StrayBegins(s, t, p, sizing);
      hide Inv, Owned, Honest, Reachable, ReachableByDiscipline, Placeable;
      var m := StrayFreeUnderflows(cfg, n, begun, t, p, sizing);
      var run :| IsDisciplinedRun(cfg, begun, run) && IsRun(cfg, begun, run) && After(cfg, begun, run) == m;
      assert !StaysNonNegative(cfg, begun);
    }
  }

  /**
   On a new allocator, with two threads or more, a free of any guessed address that an allocation
   could return can underflow the gauge.
   */
  lemma GuessedFreeUnderflows(cfg: Config, n: nat, t: nat, p: Addr, sizing: Sizing, req: Request)
    requires ValidConfig(cfg) && n >= 2 && t < n
    requires RequestOk(cfg, req) && Describes(cfg, sizing, req) && Lies(cfg.classes, KindOf(req), p)
    ensures Enabled(cfg, Init(cfg, n), t, BeginFree(p, sizing))
    ensures !StaysNonNegative(cfg, Step(cfg, Init(cfg, n), t, BeginFree(p, sizing)))
  {
    var s := Init(cfg, n);
    LeadsToItself(cfg, s);
    assert ReachableByDiscipline(cfg, n, s);
    assert FitsAt(cfg, s.threads[t].bins, KindOf(req), p);
    Placement(cfg, s.threads[t].bins, p, sizing);
    hide StaysNonNegative, ReachableByDiscipline, Placeable;
    StrayFreeExact(cfg, n, s, t, p, sizing);
  }
}
