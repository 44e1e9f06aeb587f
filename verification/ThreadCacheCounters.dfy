/**
 Conservation: the statistics counters of the thread cache agree with its state, exactly
 in every state up to what operations in flight still have to count, and without any
 correction whenever no operation is in flight.
 */
module ThreadCacheCounters {
  import SizeClasses
  import opened Sums
  import opened Provider
  import opened ThreadCacheModel
  import opened ThreadCacheInvariant
  import opened ThreadCacheSafety

  // ---- counting records ----

  function Active(m: map<Addr, Record>): set<Addr> {
    set a | a in m && m[a].active
  }

  function Inactive(m: map<Addr, Record>): set<Addr> {
    set a | a in m && !m[a].active
  }

  function One(b: bool): int {
    if b then 1 else 0
  }

  lemma SizeWithout(xs: set<Addr>, p: Addr)
    ensures |xs - {p}| == |xs| - One(p in xs)
    ensures |xs - {p} + {p}| == |xs| - One(p in xs) + 1
  {
    if p !in xs {
      assert xs - {p} == xs;
    }
  }

  lemma CountPut(m: map<Addr, Record>, p: Addr, r: Record)
    ensures |Active(m[p := r])| == |Active(m)| - One(p in m && m[p].active) + One(r.active)
    ensures |Inactive(m[p := r])| == |Inactive(m)| - One(p in m && !m[p].active) + One(!r.active)
  {
    ActivePut(m, p, r);
    SizeWithout(Active(m), p);
    SizeWithout(Inactive(m), p);
  }

  lemma ActivePut(m: map<Addr, Record>, p: Addr, r: Record)
    ensures Active(m[p := r]) == if r.active then Active(m) - {p} + {p} else Active(m) - {p}
    ensures Inactive(m[p := r]) == if r.active then Inactive(m) - {p} else Inactive(m) - {p} + {p}
  {
  }

  lemma CountErase(m: map<Addr, Record>, p: Addr)
    requires p in m
    ensures |Active(m - {p})| == |Active(m)| - One(m[p].active)
    ensures |Inactive(m - {p})| == |Inactive(m)| - One(!m[p].active)
  {
    SizeWithout(Active(m), p);
    SizeWithout(Inactive(m), p);
    assert Active(m - {p}) == Active(m) - {p};
    assert Inactive(m - {p}) == Inactive(m) - {p};
  }

  lemma CountAll(m: map<Addr, Record>)
    ensures |Active(m)| + |Inactive(m)| == |m|
  {
    assert Active(m) + Inactive(m) == m.Keys && Active(m) !! Inactive(m);
  }

  lemma SizePut<V>(m: map<Addr, V>, p: Addr, v: V)
    requires p !in m
    ensures |m[p := v]| == |m| + 1
  {
    assert m[p := v].Keys == m.Keys + {p};
  }

  lemma SizeErase<V>(m: map<Addr, V>, p: Addr)
    requires p in m
    ensures |m - {p}| == |m| - 1
  {
    assert (m - {p}).Keys == m.Keys - {p};
  }

  // ---- what each thread still has to count ----

  /** An allocation recorded as active and not yet counted as live. */
  function Unnoted(th: Thread): int {
    var pc := th.pc;
    One(|| (HasJob(pc) && (pc.job.Fetching? || pc.job.Recording? || pc.job.Undoing?) && pc.job.result.Some?)
        || (pc.PushRefill? && pc.result.Some?)
        || pc.NoteLive?)
  }

  /** A refill block recorded as inactive and not yet pushed and counted. */
  function Unpushed(th: Thread): int {
    One(th.pc.PushRefill?)
  }

  /** Blocks counted as cached: those in bins, one popped for reuse, one freed and about to be pushed. */
  function Slots(th: Thread): int {
    BinTotal(th.bins) + One((HasJob(th.pc) && th.pc.job.Reusing?) || th.pc.PushFreed?)
  }

  function Tally(threads: seq<Thread>, weight: Thread -> int): seq<int> {
    seq(|threads|, i requires 0 <= i < |threads| => weight(threads[i]))
  }

  ghost predicate Counted(s: State) {
    && s.centralAllocations - s.centralDeallocations == |s.central|
    && s.live == |Active(s.records)| - Sum(Tally(s.threads, Unnoted))
    && s.cached == |Inactive(s.records)| - Sum(Tally(s.threads, Unpushed))
    && s.cached == Sum(Tally(s.threads, Slots))
  }

  /** One step moves counters and state by the same amount. */
  ghost predicate CountsMove(s: State, n: State, t: nat)
    requires t < |s.threads|
  {
    && OnlyThread(s, n, t)
    && (n.centralAllocations - s.centralAllocations) - (n.centralDeallocations - s.centralDeallocations) ==
        |n.central| - |s.central|
    && n.live - s.live == |Active(n.records)| - |Active(s.records)| - (Unnoted(n.threads[t]) - Unnoted(s.threads[t]))
    && n.cached - s.cached ==
        |Inactive(n.records)| - |Inactive(s.records)| - (Unpushed(n.threads[t]) - Unpushed(s.threads[t]))
    && n.cached - s.cached == Slots(n.threads[t]) - Slots(s.threads[t])
  }

  lemma TallyMoves(s: State, n: State, t: nat, weight: Thread -> int)
    requires t < |s.threads| && OnlyThread(s, n, t)
    ensures Sum(Tally(n.threads, weight)) == Sum(Tally(s.threads, weight)) - weight(s.threads[t]) + weight(n.threads[t])
  {
    assert Tally(n.threads, weight) == Tally(s.threads, weight)[t := weight(n.threads[t])];
    SumUpdate(Tally(s.threads, weight), t, weight(n.threads[t]));
  }

  lemma CountsMoveKeeps(s: State, n: State, t: nat)
    requires Counted(s) && t < |s.threads| && CountsMove(s, n, t)
    ensures Counted(n)
  {
    TallyMoves(s, n, t, Unnoted);
    TallyMoves(s, n, t, Unpushed);
    TallyMoves(s, n, t, Slots);
  }

  lemma RecordCounts(cfg: Config, s: State, t: nat, job: Job)
    requires t < |s.threads| && s.threads[t].pc == InShard(job) && job.Recording? && job.p !in s.records
    requires IterationOk(cfg, s.threads[t], job.req, job.i, job.result)
    ensures CountsMove(s, InsertStep(cfg, s, t, job, true), t)
  {
    hide RequestOk, Active, Inactive, BinTotal;
    var first := job.req.cls.Fallback? || job.i == 0;
    CountPut(s.records, job.p, Record(job.req.cls, job.req.size, job.req.alignment, t, first));
  }

  lemma InsertCounts(cfg: Config, s: State, t: nat, job: Job, ok: bool)
    requires LocksOk(s) && t < |s.threads| && ThreadOk(cfg, s, t) && s.threads[t].pc == InShard(job) && job.Recording?
    ensures CountsMove(s, InsertStep(cfg, s, t, job, ok), t)
  {
    hide BinOk, RequestOk, Active, Inactive, BinTotal;
    assert job.p !in s.records && IterationOk(cfg, s.threads[t], job.req, job.i, job.result);
    hide LocksOk, ThreadOk;
    if ok {
      hide CountsMove, InsertStep;
      RecordCounts(cfg, s, t, job);
    }
  }

  lemma FetchCounts(cfg: Config, s: State, t: nat, answer: Option<Addr>)
    requires t < |s.threads| && ThreadOk(cfg, s, t) && Enabled(cfg, s, t, Fetch(answer))
    ensures CountsMove(s, FetchStep(s, t, s.threads[t].pc.job, answer), t)
  {
    hide BinOk, RequestOk, Active, Inactive, BinTotal;
    if answer.Some? {
      SizePut(s.central, answer.value, Block(KindOf(s.threads[t].pc.job.req), t));
    }
  }

  lemma BeginCounts(cfg: Config, s: State, t: nat, act: Action)
    requires Enabled(cfg, s, t, act) && !act.Fetch? && !act.Insert? && !act.Advance?
    ensures CountsMove(s, Step(cfg, s, t, act), t)
  {
    hide Active, Inactive, BinTotal, AdvanceStep, FetchStep, InsertStep;
    if act.BeginAllocate? {
      var choice := SizeClasses.Select(cfg.classes, SizeClasses.Normalized(act.size), act.alignment);
      if choice.Selected? && |s.threads[t].bins[choice.index]| > 0 {
        var bin := s.threads[t].bins[choice.index];
        BinTotalUpdate(s.threads[t].bins, choice.index, bin[..|bin| - 1]);
      }
    }
  }

  lemma ReuseCounts(cfg: Config, s: State, t: nat, job: Job)
    requires t < |s.threads| && ThreadOk(cfg, s, t) && s.threads[t].pc == InShard(job) && job.Reusing?
    ensures CountsMove(s, ReuseStep(s, t, job), t)
  {
    hide BinOk, RequestOk, Active, Inactive, BinTotal;
    CountPut(s.records, job.p,
             s.records[job.p].(size := job.req.size, alignment := job.req.alignment, owner := t, active := true));
  }

  lemma CheckFreeCounts(cfg: Config, s: State, t: nat, job: Job)
    requires t < |s.threads| && s.threads[t].pc == InShard(job) && job.Freeing?
    ensures CountsMove(s, CheckFreeStep(cfg, s, t, job), t)
  {
    hide Active, Inactive, BinTotal;
    if Judge(cfg, s, t, job.p, job.sizing).ToBin? {
      hide RecordAccepts;
      CountPut(s.records, job.p, s.records[job.p].(active := false));
    } else {
      hide Judge, CheckFreeStep, CountsMove;
      PassOnCounts(cfg, s, t, job);
    }
  }

  /** A free that is refused, or goes on to central storage, moves no counter. */
  lemma PassOnCounts(cfg: Config, s: State, t: nat, job: Job)
    requires t < |s.threads| && s.threads[t].pc == InShard(job) && job.Freeing?
    requires !Judge(cfg, s, t, job.p, job.sizing).ToBin?
    ensures CountsMove(s, CheckFreeStep(cfg, s, t, job), t)
  {
    hide Judge, Active, Inactive, BinTotal;
    var n := CheckFreeStep(cfg, s, t, job);
    assert n.records == s.records && n.live == s.live && n.cached == s.cached && n.central == s.central;
    assert n.threads == s.threads[t := n.threads[t]];
    assert Unnoted(n.threads[t]) == 0 && Unpushed(n.threads[t]) == 0;
  }

  lemma InCentralCounts(cfg: Config, s: State, t: nat, job: Job)
    requires Enabled(cfg, s, t, Advance) && s.threads[t].pc == InCentral(job)
    requires !AdvanceStep(cfg, s, t).threads[t].pc.Inconsistent?
    ensures CountsMove(s, AdvanceStep(cfg, s, t), t)
  {
    hide Active, Inactive, BinTotal, CentralAccepts;
    assert job.p in s.central;
    SizeErase(s.central, job.p);
  }

  lemma EraseFreedCounts(s: State, t: nat, job: Job)
    requires t < |s.threads| && s.threads[t].pc == Erasing(job) && job.Freeing?
    requires job.p in s.records && s.records[job.p].active
    ensures CountsMove(s, EraseFreedStep(s, t, job.p), t)
  {
    hide Active, Inactive, BinTotal;
    CountErase(s.records, job.p);
  }

  lemma EraseFlushedCounts(s: State, t: nat, job: Job)
    requires t < |s.threads| && s.threads[t].pc == Erasing(job) && job.Flushing?
    requires job.cls < |s.threads[t].bins| && |s.threads[t].bins[job.cls]| > 0
    requires job.p in s.records && !s.records[job.p].active
    ensures CountsMove(s, EraseFlushedStep(s, t, job), t)
  {
    hide Active, Inactive, BinTotal;
    CountErase(s.records, job.p);
    var bin := s.threads[t].bins[job.cls];
    BinTotalUpdate(s.threads[t].bins, job.cls, bin[..|bin| - 1]);
  }

  lemma EraseCounts(cfg: Config, s: State, t: nat, job: Job)
    requires t < |s.threads| && ThreadOk(cfg, s, t) && s.threads[t].pc == Erasing(job)
    requires Enabled(cfg, s, t, Advance)
    ensures CountsMove(s, AdvanceStep(cfg, s, t), t)
  {
    hide CountsMove, EraseFreedStep, EraseFlushedStep, RecordAccepts;
    if job.Flushing? {
      assert BinOk(cfg, s, t, job.cls);
      EraseFlushedCounts(s, t, job);
    } else {
      EraseFreedCounts(s, t, job);
    }
  }

  lemma PrivateCounts(cfg: Config, s: State, t: nat)
    requires Enabled(cfg, s, t, Advance)
    requires var pc := s.threads[t].pc;
             || pc.PushRefill? || pc.PushFreed? || pc.NoteLive? || pc.FlushLoop?
             || (pc.InShard? && pc.job.Flushing?)
    ensures CountsMove(s, AdvanceStep(cfg, s, t), t)
  {
    hide Active, Inactive, BinTotal;
    var th := s.threads[t];
    match th.pc
    case PushRefill(req, _, _, p) => BinTotalUpdate(th.bins, req.cls.index, th.bins[req.cls.index] + [p]);
    case PushFreed(p, c) => BinTotalUpdate(th.bins, c, th.bins[c] + [p]);
    case _ =>
  }

  lemma OkIsConsistent(cfg: Config, s: State, t: nat)
    requires Inv(cfg, s) && t < |s.threads|
    ensures !s.threads[t].pc.Inconsistent?
  {
    hide LocksOk, RecordOk, BlockOk, BinOk;
    assert ThreadOk(cfg, s, t);
  }

  lemma AdvanceStaysConsistent(cfg: Config, s: State, t: nat)
    requires ValidConfig(cfg) && Inv(cfg, s) && Enabled(cfg, s, t, Advance)
    ensures var n := AdvanceStep(cfg, s, t); t < |n.threads| && !n.threads[t].pc.Inconsistent?
  {
    hide Inv;
    AdvanceInv(cfg, s, t);
    var n := AdvanceStep(cfg, s, t);
    assert |n.threads| == |s.threads|;
    hide AdvanceStep;
    OkIsConsistent(cfg, n, t);
  }

  lemma AdvanceCounts(cfg: Config, s: State, t: nat)
    requires ValidConfig(cfg) && Inv(cfg, s) && Enabled(cfg, s, t, Advance)
    ensures CountsMove(s, AdvanceStep(cfg, s, t), t)
  {
    assert ThreadOk(cfg, s, t);
    AdvanceStaysConsistent(cfg, s, t);
    hide Inv, ThreadOk, CountsMove, ReuseStep, CheckFreeStep, EraseFreedStep, EraseFlushedStep;
    hide NoteLiveStep, PushRefillStep, PushFreedStep, FlushLoopStep, UndoStep, CentralFreeStep, CheckFlushStep;
    var pc := s.threads[t].pc;
    if pc.InShard? && pc.job.Reusing? {
      ReuseCounts(cfg, s, t, pc.job);
    } else if pc.InShard? && pc.job.Freeing? {
      CheckFreeCounts(cfg, s, t, pc.job);
    } else if pc.InCentral? {
      InCentralCounts(cfg, s, t, pc.job);
    } else if pc.Erasing? {
      EraseCounts(cfg, s, t, pc.job);
    } else {
      PrivateCounts(cfg, s, t);
    }
  }

  lemma StepCounts(cfg: Config, s: State, t: nat, act: Action)
    requires ValidConfig(cfg) && Inv(cfg, s) && Counted(s) && Enabled(cfg, s, t, act)
    ensures Counted(Step(cfg, s, t, act))
  {
    var n := Step(cfg, s, t, act);
    hide LocksOk, ThreadOk, RecordOk, BlockOk, CountsMove, Counted, AdvanceStep, FetchStep, InsertStep,
        BeginAllocateStep, SetPC;
    assert LocksOk(s) && ThreadOk(cfg, s, t);
    match act {
      case Advance => AdvanceCounts(cfg, s, t);
      case Fetch(answer) => FetchCounts(cfg, s, t, answer);
      case Insert(ok) => InsertCounts(cfg, s, t, s.threads[t].pc.job, ok);
      case _ => BeginCounts(cfg, s, t, act);
    }
    CountsMoveKeeps(s, n, t);
  }

  lemma {:induction false} RunCounts(cfg: Config, s: State, run: Run)
    requires ValidConfig(cfg) && Inv(cfg, s) && Counted(s) && IsRun(cfg, s, run)
    ensures Counted(After(cfg, s, run))
    decreases |run|
  {
    hide Inv, Counted, Enabled, Step;
    if |run| > 0 {
      StepKeepsInv(cfg, s, run[0].0, run[0].1);
      StepCounts(cfg, s, run[0].0, run[0].1);
      RunCounts(cfg, Step(cfg, s, run[0].0, run[0].1), run[1..]);
    }
  }

  lemma QuietTallies(s: State)
    requires Quiescent(s)
    ensures Sum(Tally(s.threads, Unnoted)) == 0 && Sum(Tally(s.threads, Unpushed)) == 0
    ensures Sum(Tally(s.threads, Slots)) == Sum(Tally(s.threads, CachedInBins))
  {
    forall i | 0 <= i < |s.threads|
      ensures Tally(s.threads, Unnoted)[i] == 0 && Tally(s.threads, Unpushed)[i] == 0
      ensures Tally(s.threads, Slots)[i] == Tally(s.threads, CachedInBins)[i]
    {
      assert Unnoted(s.threads[i]) == 0 && Unpushed(s.threads[i]) == 0;
      assert Slots(s.threads[i]) == CachedInBins(s.threads[i]);
    }
    SumZero(Tally(s.threads, Unnoted));
    SumZero(Tally(s.threads, Unpushed));
    assert Tally(s.threads, Slots) == Tally(s.threads, CachedInBins);
  }

  lemma InitCounted(cfg: Config, n: nat)
    ensures Counted(Init(cfg, n))
  {
    var s := Init(cfg, n);
    QuietTallies(s);
    forall i | 0 <= i < n
      ensures Tally(s.threads, CachedInBins)[i] == 0
    {
      SumZero(Lengths(s.threads[i].bins));
      assert CachedInBins(s.threads[i]) == 0;
    }
    SumZero(Tally(s.threads, CachedInBins));
    assert Active(s.records) == {} && Inactive(s.records) == {};
  }

  lemma ReachableCounted(cfg: Config, n: nat, s: State)
    requires ValidConfig(cfg) && Reachable(cfg, n, s)
    ensures Counted(s)
  {
    hide Inv, Counted;
    var run :| IsRun(cfg, Init(cfg, n), run) && After(cfg, Init(cfg, n), run) == s;
    InitInv(cfg, n);
    InitCounted(cfg, n);
    RunCounts(cfg, Init(cfg, n), run);
  }

  function CachedInBins(th: Thread): int {
    BinTotal(th.bins)
  }

  /**
   Conservation. Whenever no operation is in flight: `live_allocations` is the number of
   active records, `cached_blocks` is the total length of all bins, and every block central
   storage has handed out and not got back is live or cached.
   */
  lemma QuiescentConservation(cfg: Config, n: nat, s: State)
    requires ValidConfig(cfg) && Reachable(cfg, n, s) && Quiescent(s)
    ensures s.live == |Active(s.records)|
    ensures s.cached == Sum(Tally(s.threads, CachedInBins)) == |Inactive(s.records)|
    ensures s.central.Keys == s.records.Keys
    ensures s.centralAllocations - s.centralDeallocations == s.live + s.cached
  {
    ReachableCounted(cfg, n, s);
    QuietTallies(s);
    CountAll(s.records);
    QuiescentKeys(cfg, n, s);
    assert |s.central.Keys| == |s.central| && |s.records.Keys| == |s.records|;
  }

  lemma QuiescentKeys(cfg: Config, n: nat, s: State)
    requires ValidConfig(cfg) && Reachable(cfg, n, s) && Quiescent(s)
    ensures s.central.Keys == s.records.Keys
  {
    forall a
      ensures a in s.central <==> a in s.records
    {
      CentralAgreesWithRecords(cfg, n, s, a);
      ReachableInv(cfg, n, s);
      assert !PendingErase(s, a);
    }
  }

  // ---- the gauges never go below zero ----

  lemma CachedNeverNegative(cfg: Config, n: nat, s: State)
    requires ValidConfig(cfg) && Reachable(cfg, n, s)
    ensures s.cached >= 0
  {
    ReachableCounted(cfg, n, s);
    forall i | 0 <= i < |s.threads|
      ensures Tally(s.threads, Slots)[i] >= 0
    {
      BinTotalNonNegative(s.threads[i].bins);
      assert Slots(s.threads[i]) >= 0;
    }
    SumNonNegative(Tally(s.threads, Slots));
  }

  ghost predicate ClaimedBelow(s: State, k: nat, a: Addr) {
    exists t :: 0 <= t < k && t < |s.threads| && Claims(s.threads[t].pc, a)
  }

  /** The results the first `k` threads have still to count are distinct active addresses. */
  lemma {:induction false} UnnotedResults(s: State, k: nat) returns (results: set<Addr>)
    requires Owned(s) && k <= |s.threads|
    ensures |results| == Sum(Tally(s.threads[..k], Unnoted))
    ensures results <= Active(s.records)
    ensures forall a :: a in results ==> ClaimedBelow(s, k, a)
  {
    if k == 0 {
      results := {};
    } else {
      var before := UnnotedResults(s, k - 1);
      var th := s.threads[k - 1];
      var tally := Tally(s.threads[..k], Unnoted);
      assert tally[..k - 1] == Tally(s.threads[..k - 1], Unnoted) && tally[k - 1] == Unnoted(th);
      if Unnoted(th) == 0 {
        results := before;
        assert forall a :: a in results ==> ClaimedBelow(s, k - 1, a);
      } else {
        var p := if HasJob(th.pc) then th.pc.job.result.value else if th.pc.PushRefill? then th.pc.result.value
            else th.pc.p;
        assert Claims(th.pc, p) && IsActive(s, p);
        assert !ClaimedBelow(s, k - 1, p);
        results := before + {p};
        forall a | a in results
          ensures ClaimedBelow(s, k, a)
        {
          assert a != p ==> ClaimedBelow(s, k - 1, a);
        }
      }
    }
  }

  /** With disciplined clients `live_allocations` never drops below zero either. */
  lemma LiveNeverNegative(cfg: Config, n: nat, s: State)
    requires ValidConfig(cfg) && ReachableByDiscipline(cfg, n, s)
    ensures s.live >= 0
  {
    DisciplineOwned(cfg, n, s);
    ReachableCounted(cfg, n, s);
    OwnedLiveNotNegative(s);
  }

  lemma OwnedLiveNotNegative(s: State)
    requires Owned(s) && Counted(s)
    ensures s.live >= 0
  {
    var results := UnnotedResults(s, |s.threads|);
    assert s.threads[..|s.threads|] == s.threads;
    SubsetSize(results, Active(s.records));
  }

  lemma {:induction false} SubsetSize<T>(xs: set<T>, ys: set<T>)
    requires xs <= ys
    ensures |xs| <= |ys|
  {
    assert ys == xs + (ys - xs);
  }
}
