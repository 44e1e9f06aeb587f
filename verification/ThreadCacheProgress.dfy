/**
 Progress of the thread-cache protocol: no reachable state is deadlocked, and operations
 that are under way finish after a bounded number of steps, whatever the schedule.
 */
module ThreadCacheProgress {
  import opened Bits
  import opened Sums
  import opened Provider
  import opened ThreadCacheModel
  import opened ThreadCacheInvariant
  import opened ThreadCacheSafety

  // ---- no deadlock ----

  /** A thread that is neither idle nor waiting for a mutex has a next step. */
  lemma RunningCanStep(cfg: Config, s: State, t: nat)
    requires t < |s.threads| && ThreadOk(cfg, s, t)
    requires !s.threads[t].pc.Idle? && !s.threads[t].pc.WantShard? && !s.threads[t].pc.WantCentral?
    ensures Enabled(cfg, s, t, Advance) || Enabled(cfg, s, t, Fetch(None)) || Enabled(cfg, s, t, Insert(true))
  {
    hide BinOk;
  }

  /** The action continues an operation, it does not begin one. */
  predicate Continues(cfg: Config, s: State, t: nat, act: Action) {
    !Begins(act) && Enabled(cfg, s, t, act)
  }

  ghost predicate CanStep(cfg: Config, s: State, t: nat) {
    exists act :: Continues(cfg, s, t, act)
  }

  lemma StepOf(cfg: Config, s: State, t: nat)
    requires t < |s.threads| && ThreadOk(cfg, s, t) && !s.threads[t].pc.Idle?
    requires s.threads[t].pc.WantShard? ==> Shard(PointerOf(s.threads[t].pc.job)) !in s.shardLock
    requires s.threads[t].pc.WantCentral? ==> s.centralLock.None?
    ensures CanStep(cfg, s, t)
  {
    if s.threads[t].pc.WantShard? {
      assert Continues(cfg, s, t, LockShard);
    } else if s.threads[t].pc.WantCentral? {
      assert Continues(cfg, s, t, LockCentral);
    } else {
      RunningCanStep(cfg, s, t);
      hide Enabled;
      assert Continues(cfg, s, t, Advance) || Continues(cfg, s, t, Fetch(None)) || Continues(cfg, s, t, Insert(true));
    }
  }

  /** Lock order: whoever waits for a shard holds nothing, whoever waits for central holds at most its shard. */
  lemma WaitersHoldLittle(cfg: Config, n: nat, s: State, t: nat)
    requires ValidConfig(cfg) && Reachable(cfg, n, s) && t < |s.threads|
    ensures s.threads[t].pc.WantShard? ==>
              s.centralLock != Some(t) && forall h :: h in s.shardLock ==> s.shardLock[h] != t
    ensures s.centralLock == Some(t) ==> !s.threads[t].pc.WantShard? && !s.threads[t].pc.WantCentral?
    ensures forall h, k :: h in s.shardLock && k in s.shardLock && s.shardLock[h] == t && s.shardLock[k] == t ==> h == k
  {
    ReachableInv(cfg, n, s);
  }

  /**
   No reachable state deadlocks: while any operation is in flight, some thread that has one
   in flight can take its next step.
   */
  lemma NoDeadlock(cfg: Config, n: nat, s: State)
    requires ValidConfig(cfg) && Reachable(cfg, n, s) && !Quiescent(s)
    ensures exists t :: 0 <= t < |s.threads| && !s.threads[t].pc.Idle? && CanStep(cfg, s, t)
  {
    ReachableInv(cfg, n, s);
    SomeoneCanStep(cfg, s, |s.threads|);
  }

  /** Every thread but `but` has nothing in flight. */
  predicate OthersIdle(s: State, but: nat) {
    forall t :: 0 <= t < |s.threads| && t != but ==> s.threads[t].pc.Idle?
  }

  /** A thread that waits for a shard, or does nothing at all, keeps nobody else from moving. */
  lemma SomeoneCanStep(cfg: Config, s: State, but: nat)
    requires Inv(cfg, s) && !OthersIdle(s, but)
    requires but < |s.threads| ==> s.threads[but].pc.Idle? || s.threads[but].pc.WantShard?
    ensures exists t :: 0 <= t < |s.threads| && t != but && !s.threads[t].pc.Idle? && CanStep(cfg, s, t)
  {
    hide ThreadOk, RecordOk, BlockOk, CanStep;
    var t :| 0 <= t < |s.threads| && t != but && !s.threads[t].pc.Idle?;
    if s.centralLock.Some? {
      StepOf(cfg, s, s.centralLock.value);
    } else if s.threads[t].pc.WantShard? && Shard(PointerOf(s.threads[t].pc.job)) in s.shardLock {
      StepOf(cfg, s, s.shardLock[Shard(PointerOf(s.threads[t].pc.job))]);
    } else {
      StepOf(cfg, s, t);
    }
  }

  // ---- bounded completion ----

  /** An upper bound on the steps left in the thread's current operation. */
  function Rank(cfg: Config, th: Thread): int {
    var b, n := BinTotal(th.bins), |cfg.classes|;
    match th.pc
    case Idle => 0
    case Inconsistent => 0
    case NoteLive(_) => 1
    case PushFreed(_, _) => 6 * b + n + 9
    case PushRefill(_, i, _, _) => 8 * (cfg.batch - i) + 3
    case FlushLoop(c, _, _) => 6 * b + (n - c) + 1
    case WantShard(job) => JobRank(cfg, b, n, job) + 6
    case InShard(job) => JobRank(cfg, b, n, job) + 5
    case WantCentral(job) => JobRank(cfg, b, n, job) + 4
    case InCentral(job) => JobRank(cfg, b, n, job) + 3
    case Erasing(job) => JobRank(cfg, b, n, job) + 2
  }

  function JobRank(cfg: Config, b: int, n: int, job: Job): int {
    match job
    case Fetching(_, i, _) => 8 * (cfg.batch - i) + 4
    case Recording(_, i, _, _) => 8 * (cfg.batch - i)
    case Undoing(_, i, _, _) => 8 * (cfg.batch - i)
    case Reusing(_, _) => 0
    case Freeing(_, _, _) => 6 * b + n + 9
    case Flushing(_, c, _, _) => 6 * b + (n - c) + 1 - 7
  }

  lemma RankNonNegative(cfg: Config, s: State, t: nat)
    requires t < |s.threads| && ThreadOk(cfg, s, t)
    ensures Rank(cfg, s.threads[t]) >= 0
  {
    hide BinOk;
    var th := s.threads[t];
    BinTotalNonNegative(th.bins);
    if HasJob(th.pc) && th.pc.job.Flushing? {
      BinTotalAtLeast(th.bins, th.pc.job.cls);
    }
  }

  lemma BinStepRank(cfg: Config, s: State, t: nat)
    requires t < |s.threads| && ThreadOk(cfg, s, t) && Enabled(cfg, s, t, Advance)
    requires var pc := s.threads[t].pc;
             pc.PushFreed? || pc.PushRefill? || (pc.Erasing? && pc.job.Flushing?)
    ensures Rank(cfg, AdvanceStep(cfg, s, t).threads[t]) < Rank(cfg, s.threads[t])
  {
    hide BinOk, BinTotal, PendingOk;
    var th := s.threads[t];
    BinTotalNonNegative(th.bins);
    match th.pc
    case PushFreed(p, c) => BinTotalUpdate(th.bins, c, th.bins[c] + [p]);
    case PushRefill(req, _, _, p) => BinTotalUpdate(th.bins, req.cls.index, th.bins[req.cls.index] + [p]);
    case Erasing(Flushing(p, c, _, _)) => BinTotalUpdate(th.bins, c, th.bins[c][..|th.bins[c]| - 1]);
  }

  lemma ShardRank(cfg: Config, s: State, t: nat)
    requires t < |s.threads| && ThreadOk(cfg, s, t) && Enabled(cfg, s, t, Advance) && s.threads[t].pc.InShard?
    ensures Rank(cfg, AdvanceStep(cfg, s, t).threads[t]) < Rank(cfg, s.threads[t])
  {
    hide BinOk, BinTotal, RecordAccepts, RequestOk, FlightOk, PendingOk;
    hide UndoStep, CentralFreeStep, EraseFreedStep, EraseFlushedStep;
    hide NoteLiveStep, PushRefillStep, PushFreedStep, FlushLoopStep;
    var th := s.threads[t];
    BinTotalNonNegative(th.bins);
    if th.pc.job.Flushing? {
      BinTotalAtLeast(th.bins, th.pc.job.cls);
    }
  }

  lemma SectionRank(cfg: Config, s: State, t: nat)
    requires t < |s.threads| && ThreadOk(cfg, s, t) && Enabled(cfg, s, t, Advance)
    requires var pc := s.threads[t].pc;
             pc.InCentral? || (pc.Erasing? && pc.job.Freeing?) || pc.NoteLive? || pc.FlushLoop?
    ensures Rank(cfg, AdvanceStep(cfg, s, t).threads[t]) < Rank(cfg, s.threads[t])
  {
    hide BinOk, BinTotal, CentralAccepts, RequestOk, FlightOk, PendingOk;
    hide ReuseStep, CheckFreeStep, CheckFlushStep, PushRefillStep, PushFreedStep, EraseFlushedStep;
    var th := s.threads[t];
    BinTotalNonNegative(th.bins);
    if HasJob(th.pc) && th.pc.job.Flushing? {
      BinTotalAtLeast(th.bins, th.pc.job.cls);
    }
  }

  lemma ChoiceRank(cfg: Config, s: State, t: nat, act: Action)
    requires t < |s.threads| && ThreadOk(cfg, s, t) && Enabled(cfg, s, t, act) && !Begins(act) && !act.Advance?
    ensures Rank(cfg, Step(cfg, s, t, act).threads[t]) < Rank(cfg, s.threads[t])
  {
    hide BinOk, BinTotal, RequestOk, PendingOk, AdvanceStep, BeginAllocateStep;
    BinTotalNonNegative(s.threads[t].bins);
  }

  /** Each step of an operation in flight brings it closer to its end. */
  lemma StepDecreasesRank(cfg: Config, s: State, t: nat, act: Action)
    requires Inv(cfg, s) && Enabled(cfg, s, t, act) && !Begins(act)
    ensures var n := Step(cfg, s, t, act);
            OnlyThread(s, n, t) && Rank(cfg, n.threads[t]) < Rank(cfg, s.threads[t])
  {
    hide LocksOk, RecordOk, BlockOk, ThreadOk, Rank;
    assert ThreadOk(cfg, s, t);
    hide Inv;
    if !act.Advance? {
      ChoiceRank(cfg, s, t, act);
    } else if s.threads[t].pc.PushFreed? || s.threads[t].pc.PushRefill?
        || (s.threads[t].pc.Erasing? && s.threads[t].pc.job.Flushing?) {
      BinStepRank(cfg, s, t);
    } else if s.threads[t].pc.InShard? {
      ShardRank(cfg, s, t);
    } else {
      SectionRank(cfg, s, t);
    }
  }

  function Ranks(cfg: Config, threads: seq<Thread>): seq<int> {
    seq(|threads|, i requires 0 <= i < |threads| => Rank(cfg, threads[i]))
  }

  /** A bound on the number of steps until every operation in flight is finished. */
  function StepsLeft(cfg: Config, s: State): int {
    Sum(Ranks(cfg, s.threads))
  }

  lemma StepsLeftNonNegative(cfg: Config, s: State)
    requires Inv(cfg, s)
    ensures StepsLeft(cfg, s) >= 0
  {
    hide Rank, LocksOk, ThreadOk, RecordOk, BlockOk;
    forall i | 0 <= i < |s.threads|
      ensures Ranks(cfg, s.threads)[i] >= 0
    {
      RankNonNegative(cfg, s, i);
    }
    SumNonNegative(Ranks(cfg, s.threads));
  }

  lemma StepDecreases(cfg: Config, s: State, t: nat, act: Action)
    requires Inv(cfg, s) && Enabled(cfg, s, t, act) && !Begins(act)
    ensures StepsLeft(cfg, Step(cfg, s, t, act)) < StepsLeft(cfg, s)
  {
    StepDecreasesRank(cfg, s, t, act);
    hide Inv, Enabled, Step, Rank;
    var n := Step(cfg, s, t, act);
    assert Ranks(cfg, n.threads) == Ranks(cfg, s.threads)[t := Rank(cfg, n.threads[t])];
    SumUpdate(Ranks(cfg, s.threads), t, Rank(cfg, n.threads[t]));
  }

  /** A run in which no thread starts a new operation. */
  predicate NothingBegins(run: Run) {
    forall i :: 0 <= i < |run| ==> !Begins(run[i].1)
  }

  /** However the scheduler interleaves them, the operations in flight take at most `StepsLeft` steps. */
  lemma {:induction false} OperationsEnd(cfg: Config, s: State, run: Run)
    requires ValidConfig(cfg) && Inv(cfg, s) && IsRun(cfg, s, run) && NothingBegins(run)
    ensures |run| <= StepsLeft(cfg, s)
    decreases |run|
  {
    hide Inv, StepsLeft, Enabled, Step;
    if |run| == 0 {
      StepsLeftNonNegative(cfg, s);
    } else {
      StepKeepsInv(cfg, s, run[0].0, run[0].1);
      StepDecreases(cfg, s, run[0].0, run[0].1);
      OperationsEnd(cfg, Step(cfg, s, run[0].0, run[0].1), run[1..]);
    }
  }

  lemma PickStep(cfg: Config, s: State, but: nat) returns (t: nat, act: Action)
    requires Inv(cfg, s) && !OthersIdle(s, but)
    requires but < |s.threads| ==> s.threads[but].pc.Idle? || s.threads[but].pc.WantShard?
    ensures Enabled(cfg, s, t, act) && !Begins(act) && t != but && !s.threads[t].pc.Idle?
  {
    SomeoneCanStep(cfg, s, but);
    var u: nat :| u < |s.threads| && u != but && !s.threads[u].pc.Idle? && CanStep(cfg, s, u);
    assert CanStep(cfg, s, u);
    var a :| Continues(cfg, s, u, a);
    assert Continues(cfg, s, u, a);
    return u, a;
  }

  /** From every state of every run, the operations in flight can all be brought to their end. */
  lemma {:induction false} OperationsCanFinish(cfg: Config, s: State) returns (run: Run)
    requires ValidConfig(cfg) && Inv(cfg, s)
    ensures IsRun(cfg, s, run) && NothingBegins(run) && Quiescent(After(cfg, s, run))
    decreases Max(StepsLeft(cfg, s), 0)
  {
    hide Inv, StepsLeft, Enabled, Step;
    if Quiescent(s) {
      run := [];
    } else {
      var t, act := PickStep(cfg, s, |s.threads|);
      StepKeepsInv(cfg, s, t, act);
      StepDecreases(cfg, s, t, act);
      StepsLeftNonNegative(cfg, Step(cfg, s, t, act));
      var rest := OperationsCanFinish(cfg, Step(cfg, s, t, act));
      run := [(t, act)] + rest;
      assert run[1..] == rest;
    }
  }
}
