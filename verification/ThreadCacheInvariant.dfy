/**
 The invariant of the thread-cache protocol, under arbitrary (also ill-behaved) clients,
 and its preservation by every step.
 */
module ThreadCacheInvariant {
  import opened Bits
  import opened SizeClasses
  import opened Provider
  import opened ThreadCacheModel

  // ---- where a block can be ----

  predicate HasJob(pc: PC) {
    pc.WantShard? || pc.InShard? || pc.WantCentral? || pc.InCentral? || pc.Erasing?
  }

  /** The thread obtained `a` from central storage and has not recorded it (yet, or at all). */
  predicate InFlight(pc: PC, a: Addr) {
    HasJob(pc) && (pc.job.Recording? || pc.job.Undoing?) && pc.job.p == a
  }

  /** The inactive block `a` is on its way into, or just left, the thread's own bin. */
  predicate Pending(pc: PC, a: Addr) {
    || (HasJob(pc) && pc.job.Reusing? && pc.job.p == a)
    || (pc.PushRefill? && pc.p == a)
    || (pc.PushFreed? && pc.p == a)
  }

  /** Central storage took `a` back and its record is about to go, under the shard mutex. */
  ghost predicate PendingErase(s: State, a: Addr) {
    && Shard(a) in s.shardLock
    && var u := s.shardLock[Shard(a)];
    && u < |s.threads|
    && s.threads[u].pc.Erasing?
    && PointerOf(s.threads[u].pc.job) == a
  }

  predicate Matches(r: Record, k: Kind) {
    match r.cls
    case Fallback => k == Direct(r.size, r.alignment) && r.active
    case Class(i) => k == Pooled(i)
  }

  // ---- the invariant ----

  ghost predicate LocksOk(s: State) {
    && (forall t :: 0 <= t < |s.threads| && HoldsShard(s.threads[t].pc) ==>
          var h := Shard(PointerOf(s.threads[t].pc.job));
          h in s.shardLock && s.shardLock[h] == t)
    && (forall h :: h in s.shardLock ==>
          && s.shardLock[h] < |s.threads|
          && HoldsShard(s.threads[s.shardLock[h]].pc)
          && Shard(PointerOf(s.threads[s.shardLock[h]].pc.job)) == h)
    && (forall t :: 0 <= t < |s.threads| && s.threads[t].pc.InCentral? ==> s.centralLock == Some(t))
    && (s.centralLock.Some? ==>
          s.centralLock.value < |s.threads| && s.threads[s.centralLock.value].pc.InCentral?)
  }

  ghost predicate RequestOk(cfg: Config, req: Request) {
    && req.size >= 1
    && match req.cls
       case Fallback => Select(cfg.classes, req.size, req.alignment) == NoClass
       case Class(i) => i < |cfg.classes| && Select(cfg.classes, req.size, req.alignment) == Selected(i)
  }

  /** Iteration `i` of a refill: earlier iterations pushed at most `i - 1` blocks. */
  ghost predicate IterationOk(cfg: Config, th: Thread, req: Request, i: nat, result: Option<Addr>) {
    && RequestOk(cfg, req)
    && (result.Some? <==> i > 0)
    && |th.bins| == |cfg.classes|
    && match req.cls
       case Fallback => i == 0
       case Class(c) => i < cfg.batch && |th.bins[c]| <= Max(i - 1, 0)
  }

  ghost predicate FlightOk(s: State, t: nat, req: Request, p: Addr) {
    && p in s.central
    && s.central[p] == Block(KindOf(req), t)
    && (p in s.records ==> PendingErase(s, p))
  }

  /** Thread `t` alone knows the inactive block `p` of its class `c`, and `p` is in no bin. */
  ghost predicate PendingOk(s: State, t: nat, c: nat, p: Addr)
    requires t < |s.threads|
  {
    && p in s.records
    && s.records[p].owner == t && s.records[p].cls == Class(c) && !s.records[p].active
    && c < |s.threads[t].bins|
    && p !in s.threads[t].bins[c]
  }

  /** A release empties the bins in order. */
  ghost predicate ReleaseOk(cfg: Config, th: Thread, c: nat, target: nat, all: bool) {
    && target <= cfg.high
    && (all ==> target == 0 && forall i :: 0 <= i < c && i < |th.bins| ==> |th.bins[i]| == 0)
  }

  ghost predicate FlushOk(cfg: Config, th: Thread, p: Addr, c: nat, target: nat, all: bool) {
    ReleaseOk(cfg, th, c, target, all) && c < |th.bins| && |th.bins[c]| > target && th.bins[c][|th.bins[c]| - 1] == p
  }

  ghost predicate JobOk(cfg: Config, s: State, t: nat, job: Job)
    requires t < |s.threads|
  {
    var th := s.threads[t];
    match job
    case Fetching(req, i, result) => IterationOk(cfg, th, req, i, result)
    case Recording(req, i, result, p) => IterationOk(cfg, th, req, i, result) && FlightOk(s, t, req, p)
    case Undoing(req, i, result, p) => IterationOk(cfg, th, req, i, result) && FlightOk(s, t, req, p)
    case Reusing(req, p) => RequestOk(cfg, req) && req.cls.Class? && PendingOk(s, t, req.cls.index, p)
    case Freeing(p, _, _) => p != 0
    case Flushing(p, c, target, all) => FlushOk(cfg, th, p, c, target, all)
  }

  predicate JobFits(pc: PC)
    requires HasJob(pc)
  {
    match pc
    case WantCentral(job) => job.Fetching? || job.Undoing? || job.Freeing? || job.Flushing?
    case InCentral(job) => job.Fetching? || job.Undoing? || job.Freeing? || job.Flushing?
    case Erasing(job) => job.Freeing? || job.Flushing?
    case _ => pc.job.Recording? || pc.job.Reusing? || pc.job.Freeing? || pc.job.Flushing?
  }

  /** A free that passed the record check and still holds the shard. */
  ghost predicate CheckedOk(cfg: Config, s: State, p: Addr, sizing: Sizing) {
    p in s.records && s.records[p].active && RecordAccepts(cfg, s.records[p], sizing)
  }

  ghost predicate PcOk(cfg: Config, s: State, t: nat)
    requires t < |s.threads|
  {
    var th := s.threads[t];
    if HasJob(th.pc) then
      && JobFits(th.pc)
      && JobOk(cfg, s, t, th.pc.job)
      && (th.pc.job.Freeing? && !th.pc.WantShard? && !th.pc.InShard? ==>
            CheckedOk(cfg, s, th.pc.job.p, th.pc.job.sizing))
    else match th.pc
      case Idle => true
      case PushRefill(req, i, result, p) =>
        IterationOk(cfg, th, req, i, result) && i > 0 && req.cls.Class? && PendingOk(s, t, req.cls.index, p)
      case NoteLive(_) => true
      case PushFreed(p, c) => PendingOk(s, t, c, p)
      case FlushLoop(c, target, all) => c < |cfg.classes| && ReleaseOk(cfg, th, c, target, all)
      case _ => false
  }

  /** The bin a watermark flush is working on; only that one may exceed the high watermark. */
  predicate Overflowing(pc: PC, c: nat) {
    || (HasJob(pc) && pc.job.Flushing? && !pc.job.all && pc.job.cls == c)
    || (pc.FlushLoop? && !pc.all && pc.cls == c)
  }

  ghost predicate BinOk(cfg: Config, s: State, t: nat, c: nat)
    requires t < |s.threads| && c < |s.threads[t].bins|
  {
    var bin := s.threads[t].bins[c];
    && (forall k :: 0 <= k < |bin| ==>
          bin[k] in s.records && s.records[bin[k]].owner == t && s.records[bin[k]].cls == Class(c)
              && !s.records[bin[k]].active)
    && (forall k, l :: 0 <= k < l < |bin| ==> bin[k] != bin[l])
    && |bin| <= cfg.high + (if Overflowing(s.threads[t].pc, c) then 1 else 0)
  }

  ghost predicate ThreadOk(cfg: Config, s: State, t: nat)
    requires t < |s.threads|
  {
    && |s.threads[t].bins| == |cfg.classes|
    && (forall c :: 0 <= c < |cfg.classes| ==> BinOk(cfg, s, t, c))
    && PcOk(cfg, s, t)
  }

  ghost predicate RecordOk(cfg: Config, s: State, a: Addr)
    requires a in s.records
  {
    var r := s.records[a];
    && r.owner < |s.threads|
    && (PendingErase(s, a) || (a in s.central && Matches(r, s.central[a].kind)))
    && (r.cls.Class? ==> r.cls.index < |cfg.classes|)
    && |s.threads[r.owner].bins| == |cfg.classes|
    && (!r.active ==>
          r.cls.Class? && (a in s.threads[r.owner].bins[r.cls.index] || Pending(s.threads[r.owner].pc, a)))
  }

  ghost predicate BlockOk(s: State, a: Addr)
    requires a in s.central
  {
    && a != 0
    && s.central[a].fetcher < |s.threads|
    && ((a in s.records && !PendingErase(s, a)) || InFlight(s.threads[s.central[a].fetcher].pc, a))
  }

  ghost predicate Inv(cfg: Config, s: State) {
    && LocksOk(s)
    && (forall t :: 0 <= t < |s.threads| ==> ThreadOk(cfg, s, t))
    && (forall a :: a in s.records ==> RecordOk(cfg, s, a))
    && (forall a :: a in s.central ==> BlockOk(s, a))
  }

  lemma InitInv(cfg: Config, n: nat)
    requires ValidConfig(cfg)
    ensures Inv(cfg, Init(cfg, n))
  {
  }

  // ---- what a step of one thread leaves alone in another ----

  /** Between `s` and `n`, nothing thread `u` relies on has changed. */
  ghost predicate Undisturbed(s: State, n: State, u: nat)
    requires u < |s.threads|
  {
    var pc := s.threads[u].pc;
    && |n.threads| == |s.threads| && n.threads[u] == s.threads[u]
    && (forall a :: a in s.records && s.records[a].owner == u && !s.records[a].active ==>
          a in n.records && n.records[a] == s.records[a])
    && (HoldsShard(pc) && PointerOf(pc.job) in s.records ==>
          PointerOf(pc.job) in n.records && n.records[PointerOf(pc.job)] == s.records[PointerOf(pc.job)])
    && (HasJob(pc) && (pc.job.Recording? || pc.job.Undoing?) && pc.job.p in s.central ==>
          && pc.job.p in n.central && n.central[pc.job.p] == s.central[pc.job.p]
          && (pc.job.p in n.records ==>
                pc.job.p in s.records && (PendingErase(s, pc.job.p) ==> PendingErase(n, pc.job.p))))
  }

  lemma OtherThreadOk(cfg: Config, s: State, n: State, u: nat)
    requires u < |s.threads| && ThreadOk(cfg, s, u) && Undisturbed(s, n, u)
    ensures ThreadOk(cfg, n, u)
  {
    forall c | 0 <= c < |cfg.classes|
      ensures BinOk(cfg, n, u, c)
    {
      hide PcOk;
      assert BinOk(cfg, s, u, c);
    }
    assert PcOk(cfg, n, u) by {
      hide BinOk;
    }
  }

  /** A thread's own bins survive a step that touches neither them nor their records. */
  lemma SameBinsOk(cfg: Config, s: State, n: State, t: nat)
    requires t < |s.threads| == |n.threads| && ThreadOk(cfg, s, t)
    requires n.threads[t].bins == s.threads[t].bins
    requires forall c :: 0 <= c < |cfg.classes| && Overflowing(s.threads[t].pc, c) ==>
               Overflowing(n.threads[t].pc, c) || |s.threads[t].bins[c]| <= cfg.high
    requires forall a :: a in s.records && s.records[a].owner == t && !s.records[a].active ==>
               a in n.records && n.records[a] == s.records[a]
    ensures forall c :: 0 <= c < |cfg.classes| ==> BinOk(cfg, n, t, c)
  {
    forall c | 0 <= c < |cfg.classes|
      ensures BinOk(cfg, n, t, c)
    {
      assert BinOk(cfg, s, t, c);
    }
  }

  /** Of the threads, the step changes only `t`. */
  ghost predicate OnlyThread(s: State, n: State, t: nat)
    requires t < |s.threads|
  {
    |n.threads| == |s.threads| && n.threads == s.threads[t := n.threads[t]]
  }

  // ---- how the locks move ----

  lemma AcquireShardLocks(s: State, n: State, t: nat, job: Job)
    requires LocksOk(s) && t < |s.threads| && OnlyThread(s, n, t) && !HoldsShard(s.threads[t].pc)
    requires !s.threads[t].pc.InCentral?
    requires Shard(PointerOf(job)) !in s.shardLock
    requires n.threads[t].pc == InShard(job)
    requires n.centralLock == s.centralLock && n.shardLock == s.shardLock[Shard(PointerOf(job)) := t]
    ensures LocksOk(n)
  {
  }

  lemma ReleaseShardLocks(s: State, n: State, t: nat)
    requires LocksOk(s) && t < |s.threads| && OnlyThread(s, n, t) && HoldsShard(s.threads[t].pc)
    requires !s.threads[t].pc.InCentral?
    requires !HoldsShard(n.threads[t].pc) && !n.threads[t].pc.InCentral?
    requires n.centralLock == s.centralLock
    requires n.shardLock == s.shardLock - {Shard(PointerOf(s.threads[t].pc.job))}
    ensures LocksOk(n)
  {
  }

  lemma AcquireCentralLocks(s: State, n: State, t: nat)
    requires LocksOk(s) && t < |s.threads| && OnlyThread(s, n, t) && s.threads[t].pc.WantCentral? && s.centralLock.None?
    requires n.threads[t].pc == InCentral(s.threads[t].pc.job)
    requires n.centralLock == Some(t) && n.shardLock == s.shardLock
    ensures LocksOk(n)
  {
  }

  ghost predicate SameShard(pc: PC, npc: PC) {
    && HoldsShard(pc) == HoldsShard(npc)
    && (HoldsShard(pc) ==> PointerOf(pc.job) == PointerOf(npc.job))
  }

  lemma ReleaseCentralLocks(s: State, n: State, t: nat)
    requires LocksOk(s) && t < |s.threads| && OnlyThread(s, n, t) && s.threads[t].pc.InCentral?
    requires !n.threads[t].pc.InCentral?
    requires SameShard(s.threads[t].pc, n.threads[t].pc)
    requires n.centralLock == None && n.shardLock == s.shardLock
    ensures LocksOk(n)
  {
  }

  lemma KeepLocks(s: State, n: State, t: nat)
    requires LocksOk(s) && t < |s.threads| && OnlyThread(s, n, t)
    requires s.threads[t].pc.InCentral? == n.threads[t].pc.InCentral? && SameShard(s.threads[t].pc, n.threads[t].pc)
    requires n.centralLock == s.centralLock && n.shardLock == s.shardLock
    ensures LocksOk(n)
  {
  }

  // ---- every step keeps the invariant ----

  /** Everything but thread `t`, its bins and the address `p` stays as it is. */
  ghost predicate OnlyAddress(s: State, n: State, t: nat, p: Addr)
    requires t < |s.threads|
  {
    && OnlyThread(s, n, t)
    && |n.threads[t].bins| == |s.threads[t].bins|
    && (forall a :: a != p && a in n.records ==> a in s.records && n.records[a] == s.records[a])
    && (forall a :: a != p && a in n.central ==> a in s.central && n.central[a] == s.central[a])
    && (forall a :: a != p && a in s.records ==> a in n.records)
    && (forall a :: a != p && a in s.central ==> a in n.central)
    && (forall a :: a != p ==> (PendingErase(n, a) <==> PendingErase(s, a)))
    && (forall a :: a != p && Pending(s.threads[t].pc, a) ==> Pending(n.threads[t].pc, a))
    && (forall a :: a != p && InFlight(s.threads[t].pc, a) ==> InFlight(n.threads[t].pc, a))
    && (forall a, c :: a != p && 0 <= c < |s.threads[t].bins| && a in s.threads[t].bins[c] ==>
        a in n.threads[t].bins[c])
  }

  lemma EraseCarriesOver(s: State, n: State, t: nat, a: Addr)
    requires LocksOk(n) && t < |s.threads| == |n.threads| && PendingErase(s, a)
    requires forall u :: 0 <= u < |s.threads| && u != t ==> n.threads[u] == s.threads[u]
    requires s.threads[t].pc.Erasing? ==> PointerOf(s.threads[t].pc.job) != a
    ensures PendingErase(n, a)
  {
    var u := s.shardLock[Shard(a)];
    assert n.threads[u] == s.threads[u] && HoldsShard(n.threads[u].pc);
  }

  lemma ErasesAlike(s: State, n: State, t: nat, p: Addr)
    requires LocksOk(s) && LocksOk(n) && t < |s.threads| && OnlyThread(s, n, t)
    requires s.threads[t].pc.Erasing? ==> PointerOf(s.threads[t].pc.job) == p
    requires n.threads[t].pc.Erasing? ==> PointerOf(n.threads[t].pc.job) == p
    ensures forall a :: a != p ==> (PendingErase(n, a) <==> PendingErase(s, a))
  {
    hide LocksOk, PendingErase;
    forall a | a != p
      ensures PendingErase(n, a) <==> PendingErase(s, a)
    {
      if PendingErase(s, a) {
        EraseCarriesOver(s, n, t, a);
      }
      if PendingErase(n, a) {
        EraseCarriesOver(n, s, t, a);
      }
    }
  }

  /** No other thread relies on what the step does to `p`. */
  ghost predicate Exclusive(s: State, n: State, t: nat, p: Addr)
    requires t < |s.threads|
  {
    var pc := s.threads[t].pc;
    && (|| (p !in s.records && p !in n.records)
        || (p in s.records && p in n.records && s.records[p] == n.records[p])
        || (&& HoldsShard(pc) && PointerOf(pc.job) == p
            && (p in s.records && !s.records[p].active ==> s.records[p].owner == t)))
    && (|| p !in s.central
        || s.central[p].fetcher == t
        || (p in s.records && !PendingErase(s, p))
        || (&& p in n.central && n.central[p] == s.central[p]
            && (p in n.records ==> p in s.records && (PendingErase(s, p) ==> PendingErase(n, p)))))
  }

  lemma ExclusiveUndisturbed(cfg: Config, s: State, n: State, t: nat, p: Addr, u: nat)
    requires LocksOk(s) && t < |s.threads| && u < |s.threads| && u != t && ThreadOk(cfg, s, u)
    requires OnlyAddress(s, n, t, p) && Exclusive(s, n, t, p)
    ensures Undisturbed(s, n, u)
  {
    hide BinOk;
  }

  /** What a step of thread `t` at address `p` may look at. */
  ghost predicate Near(cfg: Config, s: State, t: nat, p: Addr) {
    && t < |s.threads|
    && LocksOk(s)
    && ThreadOk(cfg, s, t)
    && (p in s.records ==> RecordOk(cfg, s, p))
    && (p in s.central ==> BlockOk(s, p))
  }

  /** What a step of thread `t` at address `p` has to show. */
  ghost predicate Ready(cfg: Config, s: State, n: State, t: nat, p: Addr) {
    && t < |s.threads|
    && OnlyAddress(s, n, t, p)
    && Exclusive(s, n, t, p)
    && Near(cfg, n, t, p)
  }

  /** The shape of every step: one thread, one address; the rest of the invariant carries over. */
  lemma StepInv(cfg: Config, s: State, n: State, t: nat, p: Addr)
    requires Inv(cfg, s) && Ready(cfg, s, n, t, p)
    ensures Inv(cfg, n)
  {
    hide Exclusive;
    forall u | 0 <= u < |s.threads| && u != t
      ensures ThreadOk(cfg, n, u)
    {
      hide RecordOk, BlockOk, LocksOk, ThreadOk, OnlyAddress;
      ExclusiveUndisturbed(cfg, s, n, t, p, u);
      OtherThreadOk(cfg, s, n, u);
    }
    forall a | a in n.records && a != p
      ensures RecordOk(cfg, n, a)
    {
      hide ThreadOk, BlockOk, LocksOk;
      assert RecordOk(cfg, s, a);
    }
    forall a | a in n.central && a != p
      ensures BlockOk(n, a)
    {
      hide ThreadOk, RecordOk, LocksOk;
      assert BlockOk(s, a);
    }
  }

  /** A step that moves only the program counter (and locks) of thread `t`. */
  lemma SilentReady(cfg: Config, s: State, n: State, t: nat, p: Addr)
    requires Near(cfg, s, t, p) && OnlyThread(s, n, t) && LocksOk(n)
    requires n.records == s.records && n.central == s.central && n.threads[t].bins == s.threads[t].bins
    requires forall a :: PendingErase(n, a) <==> PendingErase(s, a)
    requires forall a :: Pending(s.threads[t].pc, a) ==> Pending(n.threads[t].pc, a)
    requires forall a :: InFlight(s.threads[t].pc, a) ==> InFlight(n.threads[t].pc, a)
    requires forall c :: 0 <= c < |cfg.classes| && Overflowing(s.threads[t].pc, c) ==>
               Overflowing(n.threads[t].pc, c) || (c < |s.threads[t].bins| && |s.threads[t].bins[c]| <= cfg.high)
    requires PcOk(cfg, n, t)
    ensures Ready(cfg, s, n, t, p)
  {
    hide PcOk, LocksOk;
    SameBinsOk(cfg, s, n, t);
  }

  lemma LockCentralReady(cfg: Config, s: State, t: nat)
    requires ValidConfig(cfg) && Near(cfg, s, t, 0) && Enabled(cfg, s, t, LockCentral)
    ensures Ready(cfg, s, Step(cfg, s, t, LockCentral), t, 0)
  {
    hide RecordOk, BlockOk, BinOk;
    var n := Step(cfg, s, t, LockCentral);
    AcquireCentralLocks(s, n, t);
    SilentReady(cfg, s, n, t, 0);
  }

  lemma LockShardReady(cfg: Config, s: State, t: nat)
    requires ValidConfig(cfg) && Near(cfg, s, t, 0) && Enabled(cfg, s, t, LockShard)
    ensures Ready(cfg, s, Step(cfg, s, t, LockShard), t, 0)
  {
    hide RecordOk, BlockOk, BinOk;
    var n := Step(cfg, s, t, LockShard);
    AcquireShardLocks(s, n, t, s.threads[t].pc.job);
    SilentReady(cfg, s, n, t, 0);
  }

  lemma BeginFreeReady(cfg: Config, s: State, t: nat, p: Addr, sizing: Sizing)
    requires ValidConfig(cfg) && Near(cfg, s, t, 0) && Enabled(cfg, s, t, BeginFree(p, sizing))
    ensures Ready(cfg, s, Step(cfg, s, t, BeginFree(p, sizing)), t, 0)
  {
    hide RecordOk, BlockOk, BinOk;
    var n := Step(cfg, s, t, BeginFree(p, sizing));
    KeepLocks(s, n, t);
    SilentReady(cfg, s, n, t, 0);
  }

  lemma BeginReleaseReady(cfg: Config, s: State, t: nat)
    requires ValidConfig(cfg) && Near(cfg, s, t, 0) && Enabled(cfg, s, t, BeginRelease)
    ensures Ready(cfg, s, Step(cfg, s, t, BeginRelease), t, 0)
  {
    hide RecordOk, BlockOk, BinOk;
    var n := Step(cfg, s, t, BeginRelease);
    KeepLocks(s, n, t);
    SilentReady(cfg, s, n, t, 0);
  }

  lemma NoteLiveReady(cfg: Config, s: State, t: nat, p: Addr)
    requires ValidConfig(cfg) && Near(cfg, s, t, 0) && s.threads[t].pc == NoteLive(p)
    ensures Ready(cfg, s, NoteLiveStep(s, t, p), t, 0)
  {
    hide RecordOk, BlockOk, BinOk;
    var n := NoteLiveStep(s, t, p);
    KeepLocks(s, n, t);
    SilentReady(cfg, s, n, t, 0);
  }

  lemma FetchNoneReady(cfg: Config, s: State, t: nat)
    requires ValidConfig(cfg) && Near(cfg, s, t, 0) && Enabled(cfg, s, t, Fetch(None))
    ensures Ready(cfg, s, FetchStep(s, t, s.threads[t].pc.job, None), t, 0)
  {
    hide RecordOk, BlockOk, BinOk;
    var n := FetchStep(s, t, s.threads[t].pc.job, None);
    ReleaseCentralLocks(s, n, t);
    SilentReady(cfg, s, n, t, 0);
  }

  lemma InsertFailsReady(cfg: Config, s: State, t: nat)
    requires ValidConfig(cfg) && Near(cfg, s, t, 0) && Enabled(cfg, s, t, Insert(false))
    ensures Ready(cfg, s, Step(cfg, s, t, Insert(false)), t, 0)
  {
    hide RecordOk, BlockOk, BinOk;
    var n := Step(cfg, s, t, Insert(false));
    ReleaseShardLocks(s, n, t);
    SilentReady(cfg, s, n, t, 0);
  }

  lemma CheckFlushReady(cfg: Config, s: State, t: nat, job: Job)
    requires ValidConfig(cfg) && Near(cfg, s, t, 0) && s.threads[t].pc == InShard(job) && job.Flushing?
    ensures Ready(cfg, s, CheckFlushStep(s, t, job), t, 0)
  {
    hide RecordOk, BlockOk;
    var n := CheckFlushStep(s, t, job);
    assert BinOk(cfg, s, t, job.cls);
    KeepLocks(s, n, t);
    SilentReady(cfg, s, n, t, 0);
  }

  lemma FlushLoopReady(cfg: Config, s: State, t: nat)
    requires ValidConfig(cfg) && Near(cfg, s, t, 0) && s.threads[t].pc.FlushLoop? && Enabled(cfg, s, t, Advance)
    ensures Ready(cfg, s, FlushLoopStep(cfg, s, t), t, 0)
  {
    hide RecordOk, BlockOk, BinOk;
    var n := FlushLoopStep(cfg, s, t);
    KeepLocks(s, n, t);
    SilentReady(cfg, s, n, t, 0);
  }

  lemma MissReady(cfg: Config, s: State, t: nat, req: Request)
    requires ValidConfig(cfg) && Near(cfg, s, t, 0) && s.threads[t].pc.Idle?
    requires RequestOk(cfg, req) && (req.cls.Class? ==> |s.threads[t].bins[req.cls.index]| == 0)
    ensures Ready(cfg, s, SetPC(s, t, WantCentral(Fetching(req, 0, None))), t, 0)
  {
    hide RecordOk, BlockOk, BinOk, Select;
    var n := SetPC(s, t, WantCentral(Fetching(req, 0, None)));
    KeepLocks(s, n, t);
    SilentReady(cfg, s, n, t, 0);
  }

  lemma RefuseReady(cfg: Config, s: State, t: nat, job: Job)
    requires ValidConfig(cfg) && Near(cfg, s, t, 0) && s.threads[t].pc == InShard(job) && job.Freeing?
    requires var v := Judge(cfg, s, t, job.p, job.sizing); v.Foreign? || v.AlreadyFree? || v.Mismatch?
    ensures Ready(cfg, s, CheckFreeStep(cfg, s, t, job), t, 0)
  {
    hide RecordOk, BlockOk, BinOk;
    var n := CheckFreeStep(cfg, s, t, job);
    ReleaseShardLocks(s, n, t);
    SilentReady(cfg, s, n, t, 0);
  }

  lemma AcceptReady(cfg: Config, s: State, t: nat, job: Job)
    requires ValidConfig(cfg) && Near(cfg, s, t, 0) && s.threads[t].pc == InShard(job) && job.Freeing?
    requires Judge(cfg, s, t, job.p, job.sizing).ToCentral?
    ensures Ready(cfg, s, CheckFreeStep(cfg, s, t, job), t, 0)
  {
    hide RecordOk, BlockOk, BinOk;
    var n := CheckFreeStep(cfg, s, t, job);
    KeepLocks(s, n, t);
    SilentReady(cfg, s, n, t, 0);
  }

  lemma FetchReady(cfg: Config, s: State, t: nat, p: Addr)
    requires ValidConfig(cfg) && Near(cfg, s, t, p) && Enabled(cfg, s, t, Fetch(Some(p)))
    ensures Ready(cfg, s, FetchStep(s, t, s.threads[t].pc.job, Some(p)), t, p)
  {
    hide Near, Ready, FetchStep;
    FetchedReady(cfg, s, t, s.threads[t].pc.job, p);
  }

  lemma FetchedReady(cfg: Config, s: State, t: nat, job: Job, p: Addr)
    requires ValidConfig(cfg) && Near(cfg, s, t, p) && s.threads[t].pc == InCentral(job) && job.Fetching?
    requires p != 0 && p !in s.central
    ensures Ready(cfg, s, FetchStep(s, t, job, Some(p)), t, p)
  {
    hide Select;
    var n := FetchStep(s, t, job, Some(p));
    assert LocksOk(n) by {
      hide ThreadOk, RecordOk, BlockOk;
      ReleaseCentralLocks(s, n, t);
    }
    ErasesAlike(s, n, t, p);
    assert OnlyAddress(s, n, t, p) by {
      hide ThreadOk, RecordOk, BlockOk, LocksOk, PendingErase;
    }
    assert Exclusive(s, n, t, p) by {
      hide BinOk, BlockOk, OnlyAddress;
    }
    assert forall c :: 0 <= c < |cfg.classes| ==> BinOk(cfg, n, t, c) by {
      hide PcOk, LocksOk, OnlyAddress, Exclusive;
      SameBinsOk(cfg, s, n, t);
    }
    hide BinOk;
    hide LocksOk, OnlyAddress, Exclusive;
  }

  lemma RecordReady(cfg: Config, s: State, t: nat, job: Job, p: Addr)
    requires ValidConfig(cfg) && Near(cfg, s, t, p) && s.threads[t].pc == InShard(job) && job.Recording? && p == job.p
    ensures Ready(cfg, s, InsertStep(cfg, s, t, job, true), t, p)
  {
    hide Select;
    var n := InsertStep(cfg, s, t, job, true);
    assert p !in s.records;
    NotCached(cfg, s, t, p);
    assert LocksOk(n) by {
      hide ThreadOk, RecordOk, BlockOk;
      ReleaseShardLocks(s, n, t);
    }
    ErasesAlike(s, n, t, p);
    assert OnlyAddress(s, n, t, p) by {
      hide ThreadOk, RecordOk, BlockOk, LocksOk, PendingErase;
    }
    assert Exclusive(s, n, t, p) by {
      hide BinOk, BlockOk, OnlyAddress;
    }
    assert forall c :: 0 <= c < |cfg.classes| ==> BinOk(cfg, n, t, c) by {
      hide PcOk, LocksOk, OnlyAddress, Exclusive;
      SameBinsOk(cfg, s, n, t);
    }
    hide BinOk;
    hide LocksOk, OnlyAddress, Exclusive;
  }

  lemma UndoReady(cfg: Config, s: State, t: nat, job: Job, p: Addr)
    requires ValidConfig(cfg) && Near(cfg, s, t, p) && s.threads[t].pc == InCentral(job) && job.Undoing? && p == job.p
    ensures Ready(cfg, s, UndoStep(cfg, s, t, job), t, p)
  {
    hide Select;
    var n := UndoStep(cfg, s, t, job);
    assert LocksOk(n) by {
      hide ThreadOk, RecordOk, BlockOk;
      ReleaseCentralLocks(s, n, t);
    }
    ErasesAlike(s, n, t, p);
    assert OnlyAddress(s, n, t, p) by {
      hide ThreadOk, RecordOk, BlockOk, LocksOk, PendingErase;
    }
    assert Exclusive(s, n, t, p) by {
      hide BinOk, BlockOk, OnlyAddress;
    }
    assert forall c :: 0 <= c < |cfg.classes| ==> BinOk(cfg, n, t, c) by {
      hide PcOk, LocksOk, OnlyAddress, Exclusive;
      SameBinsOk(cfg, s, n, t);
    }
    hide BinOk;
    hide LocksOk, OnlyAddress, Exclusive;
  }

  lemma ReuseReady(cfg: Config, s: State, t: nat, job: Job, p: Addr)
    requires ValidConfig(cfg) && Near(cfg, s, t, p) && s.threads[t].pc == InShard(job) && job.Reusing? && p == job.p
    ensures Ready(cfg, s, ReuseStep(s, t, job), t, p)
  {
    hide Select;
    var n := ReuseStep(s, t, job);
    assert LocksOk(n) by {
      hide ThreadOk, RecordOk, BlockOk;
      ReleaseShardLocks(s, n, t);
    }
    ErasesAlike(s, n, t, p);
    assert OnlyAddress(s, n, t, p) by {
      hide ThreadOk, RecordOk, BlockOk, LocksOk, PendingErase;
    }
    assert Exclusive(s, n, t, p) by {
      hide BinOk, BlockOk, OnlyAddress;
    }
    forall c | 0 <= c < |cfg.classes|
      ensures BinOk(cfg, n, t, c)
    {
      hide LocksOk, OnlyAddress, Exclusive, RecordOk, BlockOk;
      assert BinOk(cfg, s, t, c);
    }
    hide LocksOk, OnlyAddress, Exclusive;
  }

  /** A sized free that passes the record check is not turned away by central storage. */
  lemma RecordCheckSuffices(cfg: Config, r: Record, k: Kind, sizing: Sizing)
    requires Matches(r, k) && RecordAccepts(cfg, r, sizing)
    ensures CentralAccepts(cfg, k, sizing)
  {
  }

  lemma CentralFreeReady(cfg: Config, s: State, t: nat, job: Job, p: Addr)
    requires ValidConfig(cfg) && Near(cfg, s, t, p) && s.threads[t].pc == InCentral(job)
        && (job.Freeing? || job.Flushing?) && p == job.p
    ensures Ready(cfg, s, CentralFreeStep(cfg, s, t, job), t, p)
  {
    hide Select;
    var n := CentralFreeStep(cfg, s, t, job);
    assert job.Flushing? ==> BinOk(cfg, s, t, job.cls);
    assert n.threads[t].pc.Erasing? by {
      hide BinOk, BlockOk;
      RecordCheckSuffices(cfg, s.records[p], s.central[p].kind, if job.Freeing? then job.sizing else Unsized);
    }
    assert LocksOk(n) by {
      hide ThreadOk, RecordOk, BlockOk;
      ReleaseCentralLocks(s, n, t);
    }
    ErasesAlike(s, n, t, p);
    assert OnlyAddress(s, n, t, p) by {
      hide ThreadOk, RecordOk, BlockOk, LocksOk, PendingErase;
    }
    assert Exclusive(s, n, t, p) by {
      hide BinOk, BlockOk, OnlyAddress;
    }
    assert forall c :: 0 <= c < |cfg.classes| ==> BinOk(cfg, n, t, c) by {
      hide PcOk, LocksOk, OnlyAddress, Exclusive;
      SameBinsOk(cfg, s, n, t);
    }
    hide BinOk;
    hide LocksOk, OnlyAddress, Exclusive;
  }

  lemma EraseFreedReady(cfg: Config, s: State, t: nat, job: Job, p: Addr)
    requires ValidConfig(cfg) && Near(cfg, s, t, p) && s.threads[t].pc == Erasing(job) && job.Freeing? && p == job.p
    ensures Ready(cfg, s, EraseFreedStep(s, t, p), t, p)
  {
    hide Select;
    var n := EraseFreedStep(s, t, p);
    assert LocksOk(n) by {
      hide ThreadOk, RecordOk, BlockOk;
      ReleaseShardLocks(s, n, t);
    }
    ErasesAlike(s, n, t, p);
    assert OnlyAddress(s, n, t, p) by {
      hide ThreadOk, RecordOk, BlockOk, LocksOk, PendingErase;
    }
    assert Exclusive(s, n, t, p) by {
      hide BinOk, BlockOk, OnlyAddress;
    }
    assert forall c :: 0 <= c < |cfg.classes| ==> BinOk(cfg, n, t, c) by {
      hide PcOk, LocksOk, OnlyAddress, Exclusive;
      SameBinsOk(cfg, s, n, t);
    }
    hide BinOk;
    hide LocksOk, OnlyAddress, Exclusive;
  }

  lemma EraseFlushedReady(cfg: Config, s: State, t: nat, job: Job, p: Addr)
    requires ValidConfig(cfg) && Near(cfg, s, t, p) && s.threads[t].pc == Erasing(job) && job.Flushing? && p == job.p
    requires job.cls < |s.threads[t].bins| && |s.threads[t].bins[job.cls]| > 0
    ensures Ready(cfg, s, EraseFlushedStep(s, t, job), t, p)
  {
    hide Select;
    var n := EraseFlushedStep(s, t, job);
    assert BinOk(cfg, s, t, job.cls);
    assert LocksOk(n) by {
      hide ThreadOk, RecordOk, BlockOk;
      ReleaseShardLocks(s, n, t);
    }
    ErasesAlike(s, n, t, p);
    assert OnlyAddress(s, n, t, p) by {
      hide ThreadOk, RecordOk, BlockOk, LocksOk, PendingErase;
    }
    assert Exclusive(s, n, t, p) by {
      hide BinOk, BlockOk, OnlyAddress;
    }
    forall c | 0 <= c < |cfg.classes|
      ensures BinOk(cfg, n, t, c)
    {
      hide LocksOk, OnlyAddress, Exclusive, RecordOk, BlockOk;
      assert BinOk(cfg, s, t, c);
    }
    hide LocksOk, OnlyAddress, Exclusive;
  }

  lemma PushRefillReady(cfg: Config, s: State, t: nat, p: Addr)
    requires ValidConfig(cfg) && Near(cfg, s, t, p) && s.threads[t].pc.PushRefill? && Enabled(cfg, s, t, Advance)
    requires p == s.threads[t].pc.p
    ensures Ready(cfg, s, PushRefillStep(cfg, s, t), t, p)
  {
    hide Select;
    var n := PushRefillStep(cfg, s, t);
    assert LocksOk(n) by {
      hide ThreadOk, RecordOk, BlockOk;
      KeepLocks(s, n, t);
    }
    ErasesAlike(s, n, t, p);
    assert OnlyAddress(s, n, t, p) by {
      hide ThreadOk, RecordOk, BlockOk, LocksOk, PendingErase;
    }
    assert Exclusive(s, n, t, p) by {
      hide BinOk, BlockOk, OnlyAddress;
    }
    forall c | 0 <= c < |cfg.classes|
      ensures BinOk(cfg, n, t, c)
    {
      hide LocksOk, OnlyAddress, Exclusive, RecordOk, BlockOk;
      assert BinOk(cfg, s, t, c);
    }
    hide LocksOk, OnlyAddress, Exclusive;
  }

  lemma PushFreedReady(cfg: Config, s: State, t: nat, p: Addr)
    requires ValidConfig(cfg) && Near(cfg, s, t, p) && s.threads[t].pc.PushFreed? && Enabled(cfg, s, t, Advance)
    requires p == s.threads[t].pc.p
    ensures Ready(cfg, s, PushFreedStep(cfg, s, t), t, p)
  {
    hide Select;
    var n := PushFreedStep(cfg, s, t);
    assert LocksOk(n) by {
      hide ThreadOk, RecordOk, BlockOk;
      KeepLocks(s, n, t);
    }
    ErasesAlike(s, n, t, p);
    assert OnlyAddress(s, n, t, p) by {
      hide ThreadOk, RecordOk, BlockOk, LocksOk, PendingErase;
    }
    assert Exclusive(s, n, t, p) by {
      hide BinOk, BlockOk, OnlyAddress;
    }
    forall c | 0 <= c < |cfg.classes|
      ensures BinOk(cfg, n, t, c)
    {
      hide LocksOk, OnlyAddress, Exclusive, RecordOk, BlockOk;
      assert BinOk(cfg, s, t, c);
    }
    hide LocksOk, OnlyAddress, Exclusive;
  }

  lemma NotCached(cfg: Config, s: State, t: nat, p: Addr)
    requires t < |s.threads| && ThreadOk(cfg, s, t)
    requires p in s.records ==> s.records[p].active
    ensures forall c :: 0 <= c < |cfg.classes| ==> p !in s.threads[t].bins[c]
  {
    forall c | 0 <= c < |cfg.classes|
      ensures p !in s.threads[t].bins[c]
    {
      assert BinOk(cfg, s, t, c);
    }
  }

  lemma DeactivateReady(cfg: Config, s: State, t: nat, job: Job, p: Addr)
    requires ValidConfig(cfg) && Near(cfg, s, t, p) && s.threads[t].pc == InShard(job) && job.Freeing? && p == job.p
    requires Judge(cfg, s, t, p, job.sizing).ToBin?
    ensures Ready(cfg, s, CheckFreeStep(cfg, s, t, job), t, p)
  {
    hide Select;
    var n := CheckFreeStep(cfg, s, t, job);
    NotCached(cfg, s, t, p);
    assert LocksOk(n) by {
      hide ThreadOk, RecordOk, BlockOk;
      ReleaseShardLocks(s, n, t);
    }
    ErasesAlike(s, n, t, p);
    assert OnlyAddress(s, n, t, p) by {
      hide ThreadOk, RecordOk, BlockOk, LocksOk, PendingErase;
    }
    assert Exclusive(s, n, t, p) by {
      hide BinOk, BlockOk, OnlyAddress;
    }
    assert forall c :: 0 <= c < |cfg.classes| ==> BinOk(cfg, n, t, c) by {
      hide PcOk, LocksOk, OnlyAddress, Exclusive;
      SameBinsOk(cfg, s, n, t);
    }
    hide BinOk;
    hide LocksOk, OnlyAddress, Exclusive;
  }

  lemma HitReady(cfg: Config, s: State, t: nat, req: Request, p: Addr)
    requires ValidConfig(cfg) && Near(cfg, s, t, p) && s.threads[t].pc.Idle?
    requires RequestOk(cfg, req) && req.cls.Class?
    requires var bin := s.threads[t].bins[req.cls.index]; |bin| > 0 && p == bin[|bin| - 1]
    ensures var bin := s.threads[t].bins[req.cls.index];
            Ready(cfg, s, SetThread(s, t, WantShard(Reusing(req, p)), req.cls.index, bin[..|bin| - 1]), t, p)
  {
    hide Select;
    var bin := s.threads[t].bins[req.cls.index];
    var n := SetThread(s, t, WantShard(Reusing(req, p)), req.cls.index, bin[..|bin| - 1]);
    assert BinOk(cfg, s, t, req.cls.index);
    assert LocksOk(n) by {
      hide ThreadOk, RecordOk, BlockOk;
      KeepLocks(s, n, t);
    }
    ErasesAlike(s, n, t, p);
    assert OnlyAddress(s, n, t, p) by {
      hide ThreadOk, RecordOk, BlockOk, LocksOk, PendingErase;
    }
    assert Exclusive(s, n, t, p) by {
      hide BinOk, BlockOk, OnlyAddress;
    }
    forall c | 0 <= c < |cfg.classes|
      ensures BinOk(cfg, n, t, c)
    {
      hide LocksOk, OnlyAddress, Exclusive, RecordOk, BlockOk;
      assert BinOk(cfg, s, t, c);
    }
    hide LocksOk, OnlyAddress, Exclusive;
  }

  lemma BeginAllocateInv(cfg: Config, s: State, t: nat, size: nat, alignment: nat)
    requires ValidConfig(cfg) && Inv(cfg, s) && Enabled(cfg, s, t, BeginAllocate(size, alignment))
    ensures Inv(cfg, BeginAllocateStep(cfg, s, t, size, alignment))
  {
    var n := BeginAllocateStep(cfg, s, t, size, alignment);
    var size' := Normalized(size);
    var choice := Select(cfg.classes, size', alignment);
    if choice.NoClass? {
      MissAt(cfg, s, t, Request(Fallback, size', alignment));
    } else if choice.Selected? {
      var req := Request(Class(choice.index), size', alignment);
      var bin := s.threads[t].bins[choice.index];
      if |bin| > 0 {
        var p := bin[|bin| - 1];
        InvNear(cfg, s, t, p);
        hide Inv, Near, Ready;
        HitReady(cfg, s, t, req, p);
        StepInv(cfg, s, n, t, p);
      } else {
        MissAt(cfg, s, t, req);
      }
    }
  }

  lemma MissAt(cfg: Config, s: State, t: nat, req: Request)
    requires ValidConfig(cfg) && Inv(cfg, s) && t < |s.threads| && s.threads[t].pc.Idle? && RequestOk(cfg, req)
    requires req.cls.Class? ==> req.cls.index < |s.threads[t].bins| && |s.threads[t].bins[req.cls.index]| == 0
    ensures Inv(cfg, SetPC(s, t, WantCentral(Fetching(req, 0, None))))
  {
    InvNear(cfg, s, t, 0);
    MissReady(cfg, s, t, req);
    hide Inv, Near, Ready;
    StepInv(cfg, s, SetPC(s, t, WantCentral(Fetching(req, 0, None))), t, 0);
  }

  lemma InvNear(cfg: Config, s: State, t: nat, p: Addr)
    requires Inv(cfg, s) && t < |s.threads|
    ensures Near(cfg, s, t, p)
  {
    hide LocksOk, ThreadOk, RecordOk, BlockOk;
  }

  lemma AdvanceInv(cfg: Config, s: State, t: nat)
    requires ValidConfig(cfg) && Inv(cfg, s) && Enabled(cfg, s, t, Advance)
    ensures Inv(cfg, AdvanceStep(cfg, s, t))
  {
    hide Inv, Near, Ready;
    var n := AdvanceStep(cfg, s, t);
    InvNear(cfg, s, t, 0);
    match s.threads[t].pc
    case InShard(job) =>
      InvNear(cfg, s, t, job.p);
      if job.Reusing? {
        ReuseReady(cfg, s, t, job, job.p);
        StepInv(cfg, s, n, t, job.p);
      } else if job.Freeing? {
        var v := Judge(cfg, s, t, job.p, job.sizing);
        if v.ToBin? {
          DeactivateReady(cfg, s, t, job, job.p);
          StepInv(cfg, s, n, t, job.p);
        } else if v.ToCentral? {
          AcceptReady(cfg, s, t, job);
          StepInv(cfg, s, n, t, 0);
        } else {
          RefuseReady(cfg, s, t, job);
          StepInv(cfg, s, n, t, 0);
        }
      } else {
        CheckFlushReady(cfg, s, t, job);
        StepInv(cfg, s, n, t, 0);
      }
    case InCentral(job) =>
      InvNear(cfg, s, t, job.p);
      if job.Undoing? {
        UndoReady(cfg, s, t, job, job.p);
      } else {
        CentralFreeReady(cfg, s, t, job, job.p);
      }
      StepInv(cfg, s, n, t, job.p);
    case Erasing(job) =>
      InvNear(cfg, s, t, job.p);
      if job.Freeing? {
        EraseFreedReady(cfg, s, t, job, job.p);
      } else {
        EraseFlushedReady(cfg, s, t, job, job.p);
      }
      StepInv(cfg, s, n, t, job.p);
    case PushRefill(_, _, _, p) =>
      InvNear(cfg, s, t, p);
      PushRefillReady(cfg, s, t, p);
      StepInv(cfg, s, n, t, p);
    case NoteLive(p) =>
      NoteLiveReady(cfg, s, t, p);
      StepInv(cfg, s, n, t, 0);
    case PushFreed(p, _) =>
      InvNear(cfg, s, t, p);
      PushFreedReady(cfg, s, t, p);
      StepInv(cfg, s, n, t, p);
    case FlushLoop(_, _, _) =>
      FlushLoopReady(cfg, s, t);
      StepInv(cfg, s, n, t, 0);
  }

  /** Whatever the clients, the scheduler and failures do, the invariant is kept. */
  lemma StepKeepsInv(cfg: Config, s: State, t: nat, act: Action)
    requires ValidConfig(cfg) && Inv(cfg, s) && Enabled(cfg, s, t, act)
    ensures Inv(cfg, Step(cfg, s, t, act))
  {
    hide Inv, Near, Ready, SetPC, AdvanceStep, BeginAllocateStep;
    var n := Step(cfg, s, t, act);
    InvNear(cfg, s, t, 0);
    match act
    case BeginAllocate(size, alignment) => BeginAllocateInv(cfg, s, t, size, alignment);
    case BeginFree(p, sizing) =>
      BeginFreeReady(cfg, s, t, p, sizing);
      StepInv(cfg, s, n, t, 0);
    case BeginRelease =>
      BeginReleaseReady(cfg, s, t);
      StepInv(cfg, s, n, t, 0);
    case LockShard =>
      LockShardReady(cfg, s, t);
      StepInv(cfg, s, n, t, 0);
    case LockCentral =>
      LockCentralReady(cfg, s, t);
      StepInv(cfg, s, n, t, 0);
    case Fetch(answer) =>
      if answer.None? {
        FetchNoneReady(cfg, s, t);
        StepInv(cfg, s, n, t, 0);
      } else {
        InvNear(cfg, s, t, answer.value);
        FetchReady(cfg, s, t, answer.value);
        StepInv(cfg, s, n, t, answer.value);
      }
    case Insert(ok) =>
      if ok {
        var job := s.threads[t].pc.job;
        InvNear(cfg, s, t, job.p);
        RecordReady(cfg, s, t, job, job.p);
        StepInv(cfg, s, n, t, job.p);
      } else {
        InsertFailsReady(cfg, s, t);
        StepInv(cfg, s, n, t, 0);
      }
    case Advance => AdvanceInv(cfg, s, t);
  }
}
