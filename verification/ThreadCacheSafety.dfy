/**
 What the thread-cache protocol guarantees over whole runs: agreement of records with
 central storage, one place for every cached block, exclusive ownership for disciplined
 clients, and at most one successful free per activation.
 */
module ThreadCacheSafety {
  import SizeClasses
  import opened Provider
  import opened ThreadCacheModel
  import opened ThreadCacheInvariant

  /** Every run from the initial state, with any clients whatsoever, stays in the invariant. */
  lemma {:induction false} RunKeepsInv(cfg: Config, s: State, run: Run)
    requires ValidConfig(cfg) && Inv(cfg, s) && IsRun(cfg, s, run)
    ensures Inv(cfg, After(cfg, s, run))
    decreases |run|
  {
    hide Inv;
    if |run| > 0 {
      StepKeepsInv(cfg, s, run[0].0, run[0].1);
      RunKeepsInv(cfg, Step(cfg, s, run[0].0, run[0].1), run[1..]);
    }
  }

  ghost predicate Reachable(cfg: Config, n: nat, s: State) {
    exists run :: IsRun(cfg, Init(cfg, n), run) && After(cfg, Init(cfg, n), run) == s
  }

  lemma ReachableInv(cfg: Config, n: nat, s: State)
    requires ValidConfig(cfg) && Reachable(cfg, n, s)
    ensures Inv(cfg, s)
  {
    hide Inv;
    var run :| IsRun(cfg, Init(cfg, n), run) && After(cfg, Init(cfg, n), run) == s;
    InitInv(cfg, n);
    RunKeepsInv(cfg, Init(cfg, n), run);
  }

  lemma {:induction false} AppendStep(cfg: Config, s: State, run: Run, t: nat, act: Action)
    requires IsRun(cfg, s, run) && Enabled(cfg, After(cfg, s, run), t, act)
    ensures IsRun(cfg, s, run + [(t, act)])
    ensures After(cfg, s, run + [(t, act)]) == Step(cfg, After(cfg, s, run), t, act)
    decreases |run|
  {
    hide Enabled, Step;
    var longer := run + [(t, act)];
    if |run| == 0 {
      assert longer[1..] == [];
    } else {
      assert longer[1..] == run[1..] + [(t, act)];
      AppendStep(cfg, Step(cfg, s, run[0].0, run[0].1), run[1..], t, act);
    }
  }

  lemma ReachableStep(cfg: Config, n: nat, s: State, t: nat, act: Action)
    requires Reachable(cfg, n, s) && Enabled(cfg, s, t, act)
    ensures Reachable(cfg, n, Step(cfg, s, t, act))
  {
    hide Enabled, Step;
    var run :| IsRun(cfg, Init(cfg, n), run) && After(cfg, Init(cfg, n), run) == s;
    AppendStep(cfg, Init(cfg, n), run, t, act);
  }

  /** The errors raised at lines 119, 159 and 294, and a rejection by central storage, never happen. */
  lemma NoInconsistency(cfg: Config, n: nat, s: State, t: nat)
    requires ValidConfig(cfg) && Reachable(cfg, n, s) && t < |s.threads|
    ensures !s.threads[t].pc.Inconsistent?
  {
    ReachableInv(cfg, n, s);
    assert ThreadOk(cfg, s, t);
  }

  /**
   Central storage has handed out exactly the recorded addresses, up to those one thread
   fetched and has not recorded, and those whose record a thread is about to erase under
   the shard mutex. No two threads have the same address in flight.
   */
  lemma CentralAgreesWithRecords(cfg: Config, n: nat, s: State, a: Addr)
    requires ValidConfig(cfg) && Reachable(cfg, n, s)
    ensures a in s.central <==>
              (a in s.records && !PendingErase(s, a)) ||
              (exists t :: 0 <= t < |s.threads| && InFlight(s.threads[t].pc, a))
    ensures forall t, u ::
              (0 <= t < |s.threads| && 0 <= u < |s.threads| && InFlight(s.threads[t].pc, a)
                  && InFlight(s.threads[u].pc, a)) ==>
              t == u
  {
    ReachableInv(cfg, n, s);
    assert a in s.records ==> RecordOk(cfg, s, a);
    assert a in s.central ==> BlockOk(s, a);
    forall t | 0 <= t < |s.threads| && InFlight(s.threads[t].pc, a)
      ensures a in s.central && s.central[a].fetcher == t
    {
      assert ThreadOk(cfg, s, t);
    }
  }

  /** An ownership query, which needs the shard mutex, never sees a record without its block. */
  lemma QuerySeesNoHalfStep(cfg: Config, n: nat, s: State, a: Addr)
    requires ValidConfig(cfg) && Reachable(cfg, n, s) && a in s.records && Shard(a) !in s.shardLock
    ensures a in s.central && Matches(s.records[a], s.central[a].kind)
  {
    ReachableInv(cfg, n, s);
    assert RecordOk(cfg, s, a);
  }

  /** Slot `k` of bin `c` of thread `t` holds `a`. */
  ghost predicate InSlot(s: State, t: int, c: int, k: int, a: Addr) {
    && 0 <= t < |s.threads| && 0 <= c < |s.threads[t].bins| && 0 <= k < |s.threads[t].bins[c]|
    && s.threads[t].bins[c][k] == a
  }

  ghost predicate IsPending(s: State, t: int, a: Addr) {
    0 <= t < |s.threads| && Pending(s.threads[t].pc, a)
  }

  /**
   Inactive records are in one-to-one correspondence with cached blocks: an address is in
   a bin slot or pending exactly when its record is inactive, only with the record's owner
   and class, in at most one slot, and never both in a slot and pending.
   */
  lemma InactiveIsCachedOnce(cfg: Config, n: nat, s: State, a: Addr)
    requires ValidConfig(cfg) && Reachable(cfg, n, s)
    ensures a in s.records && !s.records[a].active <==>
              (exists t, c, k :: InSlot(s, t, c, k, a)) || (exists t :: IsPending(s, t, a))
    ensures forall t, c, k :: InSlot(s, t, c, k, a) ==>
              a in s.records && s.records[a].owner == t && s.records[a].cls == Class(c)
    ensures forall t, c, k, t', c', k' :: InSlot(s, t, c, k, a) && InSlot(s, t', c', k', a) ==>
              t == t' && c == c' && k == k'
    ensures forall t, u :: IsPending(s, t, a) && IsPending(s, u, a) ==> t == u
    ensures forall t, c, k, u :: InSlot(s, t, c, k, a) ==> !IsPending(s, u, a)
  {
    ReachableInv(cfg, n, s);
    forall t, c, k | InSlot(s, t, c, k, a)
      ensures a in s.records && s.records[a].owner == t && s.records[a].cls == Class(c) && !s.records[a].active
    {
      assert ThreadOk(cfg, s, t);
      assert BinOk(cfg, s, t, c);
    }
    forall t | IsPending(s, t, a)
      ensures a in s.records && s.records[a].owner == t && !s.records[a].active
      ensures s.records[a].cls.Class? && s.records[a].cls.index < |s.threads[t].bins|
      ensures a !in s.threads[t].bins[s.records[a].cls.index]
    {
      assert ThreadOk(cfg, s, t);
    }
    forall t, c, k, t', c', k' | InSlot(s, t, c, k, a) && InSlot(s, t', c', k', a)
      ensures t == t' && c == c' && k == k'
    {
      assert ThreadOk(cfg, s, t);
      assert BinOk(cfg, s, t, c);
    }
    if a in s.records && !s.records[a].active {
      var r := s.records[a];
      assert RecordOk(cfg, s, a);
      if a in s.threads[r.owner].bins[r.cls.index] {
        var k :| 0 <= k < |s.threads[r.owner].bins[r.cls.index]| && s.threads[r.owner].bins[r.cls.index][k] == a;
        assert InSlot(s, r.owner, r.cls.index, k, a);
      } else {
        assert IsPending(s, r.owner, a);
      }
    }
  }

  /**
   A bin never exceeds the reserved capacity `high_watermark + 1`, and between operations
   of its thread it is within the high watermark.
   */
  lemma BinsStayWithinCapacity(cfg: Config, n: nat, s: State, t: nat, c: nat)
    requires ValidConfig(cfg) && Reachable(cfg, n, s) && t < |s.threads| && c < |s.threads[t].bins|
    ensures |s.threads[t].bins[c]| <= cfg.high + 1
    ensures s.threads[t].pc.Idle? ==> |s.threads[t].bins[c]| <= cfg.high
  {
    ReachableInv(cfg, n, s);
    assert ThreadOk(cfg, s, t);
    assert BinOk(cfg, s, t, c);
  }

  /**
   When a release of the thread's cache completes, every bin is empty, so dropping the
   cache loses no block.
   */
  lemma ReleaseEmptiesCache(cfg: Config, n: nat, s: State, t: nat)
    requires ValidConfig(cfg) && Reachable(cfg, n, s) && Enabled(cfg, s, t, Advance)
    requires s.threads[t].pc.FlushLoop? && s.threads[t].pc.all
    ensures var th := Step(cfg, s, t, Advance).threads[t];
            th.pc.Idle? ==> forall c :: 0 <= c < |th.bins| ==> th.bins[c] == []
  {
    ReachableInv(cfg, n, s);
    assert ThreadOk(cfg, s, t);
  }

  // ---- at most one successful free per activation ----

  /** Activations minus ends of an address. */
  function Balance(history: seq<Event>, a: Addr): int {
    if |history| == 0 then 0
    else
      Balance(history[..|history| - 1], a) +
      match history[|history| - 1]
      case Activated(b) => if a == b then 1 else 0
      case Ended(b) => if a == b then -1 else 0
  }

  ghost predicate IsActive(s: State, a: Addr) {
    a in s.records && s.records[a].active
  }

  /** At every point so far each address was activated as often as ended, or once more. */
  ghost predicate Alternates(history: seq<Event>) {
    forall i, a :: 0 <= i <= |history| ==> 0 <= Balance(history[..i], a) <= 1
  }

  ghost predicate Balanced(s: State) {
    && (forall a :: Balance(s.history, a) == if IsActive(s, a) then 1 else 0)
    && Alternates(s.history)
  }

  lemma Extend(history: seq<Event>, e: Event, a: Addr)
    ensures Balance(history + [e], a) ==
            Balance(history, a) + (match e case Activated(b) => if a == b then 1 else 0
                                           case Ended(b) => if a == b then -1 else 0)
  {
    assert (history + [e])[..|history|] == history;
  }

  /** How a step may change which addresses are active, and what it logs. */
  ghost predicate Logged(s: State, n: State) {
    || (n.history == s.history && forall a :: IsActive(n, a) == IsActive(s, a))
    || (&& |n.history| == |s.history| + 1
        && n.history == s.history + [n.history[|s.history|]]
        && var e := n.history[|s.history|];
        && IsActive(n, e.a) == e.Activated?
        && IsActive(s, e.a) == e.Ended?
        && forall a :: a != e.a ==> IsActive(n, a) == IsActive(s, a))
  }

  lemma AdvanceLogged(cfg: Config, s: State, t: nat)
    requires t < |s.threads| && ThreadOk(cfg, s, t) && Enabled(cfg, s, t, Advance)
    ensures Logged(s, AdvanceStep(cfg, s, t))
  {
    var pc := s.threads[t].pc;
    assert pc.Erasing? && pc.job.Flushing? ==> !IsActive(s, pc.job.p) by {
      assert pc.Erasing? && pc.job.Flushing? ==> BinOk(cfg, s, t, pc.job.cls);
    }
    hide BinOk, SizeClasses.Select, Judge, CentralAccepts;
    var n := AdvanceStep(cfg, s, t);
    if n.history != s.history {
      assert n.history == s.history + [n.history[|s.history|]];
    }
  }

  lemma StepLogged(cfg: Config, s: State, t: nat, act: Action)
    requires Inv(cfg, s) && Enabled(cfg, s, t, act)
    ensures Logged(s, Step(cfg, s, t, act))
  {
    hide LocksOk, RecordOk, BlockOk, BinOk, SizeClasses.Select;
    assert ThreadOk(cfg, s, t);
    hide Inv;
    if act.Advance? {
      AdvanceLogged(cfg, s, t);
    } else {
      hide AdvanceStep;
      var n := Step(cfg, s, t, act);
      if n.history != s.history {
        assert n.history == s.history + [n.history[|s.history|]];
      }
    }
  }

  lemma StepBalanced(cfg: Config, s: State, t: nat, act: Action)
    requires Inv(cfg, s) && Balanced(s) && Enabled(cfg, s, t, act)
    ensures Balanced(Step(cfg, s, t, act))
  {
    hide Inv, Enabled, Step, Balanced, Logged;
    StepLogged(cfg, s, t, act);
    LoggedBalanced(s, Step(cfg, s, t, act));
  }

  lemma LoggedBalanced(s: State, n: State)
    requires Balanced(s) && Logged(s, n)
    ensures Balanced(n)
  {
    hide IsActive, Balance;
    forall a
      ensures Balance(n.history, a) == if IsActive(n, a) then 1 else 0
    {
      if n.history != s.history {
        Extend(s.history, n.history[|s.history|], a);
      }
    }
    forall i, a | 0 <= i <= |n.history|
      ensures 0 <= Balance(n.history[..i], a) <= 1
    {
      assert n.history[..i] == if i <= |s.history| then s.history[..i] else n.history;
    }
  }

  lemma {:induction false} RunBalanced(cfg: Config, s: State, run: Run)
    requires ValidConfig(cfg) && Inv(cfg, s) && Balanced(s) && IsRun(cfg, s, run)
    ensures Balanced(After(cfg, s, run))
    decreases |run|
  {
    hide Inv, Balanced, Step, Enabled;
    if |run| > 0 {
      StepKeepsInv(cfg, s, run[0].0, run[0].1);
      StepBalanced(cfg, s, run[0].0, run[0].1);
      RunBalanced(cfg, Step(cfg, s, run[0].0, run[0].1), run[1..]);
    }
  }

  lemma {:induction false} NoActivationNoRise(h: seq<Event>, a: Addr, k: nat, l: nat)
    requires k <= l <= |h|
    requires forall m :: k <= m < l ==> h[m] != Activated(a)
    ensures Balance(h[..l], a) <= Balance(h[..k], a)
    decreases l
  {
    if k < l {
      NoActivationNoRise(h, a, k, l - 1);
      assert h[..l] == h[..l - 1] + [h[l - 1]];
      Extend(h[..l - 1], h[l - 1], a);
    }
  }

  lemma EndsNeedActivation(h: seq<Event>, a: Addr, k: nat, l: nat)
    requires Alternates(h) && k < l < |h| && h[k] == Ended(a) && h[l] == Ended(a)
    ensures exists m :: k < m < l && h[m] == Activated(a)
  {
    if forall m :: k < m < l ==> h[m] != Activated(a) {
      NoActivationNoRise(h, a, k + 1, l);
      assert h[..k + 1] == h[..k] + [h[k]] && h[..l + 1] == h[..l] + [h[l]];
      Extend(h[..k], h[k], a);
      Extend(h[..l], h[l], a);
      assert false;
    }
  }

  lemma ReachableBalanced(cfg: Config, n: nat, s: State)
    requires ValidConfig(cfg) && Reachable(cfg, n, s)
    ensures Balanced(s)
  {
    var run :| IsRun(cfg, Init(cfg, n), run) && After(cfg, Init(cfg, n), run) == s;
    InitInv(cfg, n);
    assert Balanced(Init(cfg, n)) by {
      assert forall i :: 0 <= i <= 0 ==> Init(cfg, n).history[..i] == [];
    }
    RunBalanced(cfg, Init(cfg, n), run);
  }

  /**
   However many threads race to free an address: between two successful frees of it there
   is always a new activation, in every run of any clients.
   */
  lemma OneFreePerActivation(cfg: Config, n: nat, s: State, a: Addr, k: nat, l: nat)
    requires ValidConfig(cfg) && Reachable(cfg, n, s)
    requires k < l < |s.history| && s.history[k] == Ended(a) && s.history[l] == Ended(a)
    ensures exists m :: k < m < l && s.history[m] == Activated(a)
  {
    ReachableBalanced(cfg, n, s);
    hide Reachable;
    EndsNeedActivation(s.history, a, k, l);
  }

  // ---- what clients asked for ----

  function Asked(r: Record): Request {
    Request(r.cls, r.size, r.alignment)
  }

  /** Every record carries a request that selects its class, or none for a direct allocation. */
  ghost predicate RequestsOk(cfg: Config, s: State) {
    forall a :: a in s.records ==> RequestOk(cfg, Asked(s.records[a]))
  }

  /** Records keep their request, except where a new one is recorded. */
  lemma RecordsKept(cfg: Config, s: State, t: nat, act: Action, a: Addr)
    requires Enabled(cfg, s, t, act) && ThreadOk(cfg, s, t) && a in Step(cfg, s, t, act).records
    ensures var asked := Asked(Step(cfg, s, t, act).records[a]);
            (a in s.records && asked == Asked(s.records[a])) || RequestOk(cfg, asked)
  {
    var pc := s.threads[t].pc;
    if act.Insert? || (act.Advance? && pc.InShard? && pc.job.Reusing?) {
      hide SizeClasses.Select, Shard, BinOk, RequestOk;
      assert RequestOk(cfg, pc.job.req);
    } else {
      hide ThreadOk, RequestOk;
      RecordsElsewhere(cfg, s, t, act, a);
    }
  }

  lemma RecordsElsewhere(cfg: Config, s: State, t: nat, act: Action, a: Addr)
    requires Enabled(cfg, s, t, act) && !act.Insert?
    requires !(act.Advance? && s.threads[t].pc.InShard? && s.threads[t].pc.job.Reusing?)
    requires a in Step(cfg, s, t, act).records
    ensures a in s.records && Asked(Step(cfg, s, t, act).records[a]) == Asked(s.records[a])
  {
    hide SizeClasses.Select, RecordAccepts, CentralAccepts, Shard;
  }

  lemma StepKeepsRequests(cfg: Config, s: State, t: nat, act: Action)
    requires Enabled(cfg, s, t, act) && Inv(cfg, s) && RequestsOk(cfg, s)
    ensures RequestsOk(cfg, Step(cfg, s, t, act))
  {
    assert ThreadOk(cfg, s, t);
    hide Inv, ThreadOk, Enabled, Step, RequestOk, Asked;
    var n := Step(cfg, s, t, act);
    forall a | a in n.records
      ensures RequestOk(cfg, Asked(n.records[a]))
    {
      RecordsKept(cfg, s, t, act, a);
    }
  }

  lemma {:induction false} RunKeepsRequests(cfg: Config, s: State, run: Run)
    requires ValidConfig(cfg) && Inv(cfg, s) && RequestsOk(cfg, s) && IsRun(cfg, s, run)
    ensures RequestsOk(cfg, After(cfg, s, run))
    decreases |run|
  {
    hide Inv, RequestsOk, Enabled, Step;
    if |run| > 0 {
      StepKeepsInv(cfg, s, run[0].0, run[0].1);
      StepKeepsRequests(cfg, s, run[0].0, run[0].1);
      RunKeepsRequests(cfg, Step(cfg, s, run[0].0, run[0].1), run[1..]);
    }
  }

  lemma ReachableRequests(cfg: Config, n: nat, s: State)
    requires ValidConfig(cfg) && Reachable(cfg, n, s)
    ensures RequestsOk(cfg, s)
  {
    hide Inv;
    var run :| IsRun(cfg, Init(cfg, n), run) && After(cfg, Init(cfg, n), run) == s;
    InitInv(cfg, n);
    RunKeepsRequests(cfg, Init(cfg, n), run);
  }

  // ---- where blocks lie ----

  /** Every block central storage has handed out is aligned, and no two of them overlap. */
  ghost predicate Laid(cfg: Config, central: map<Addr, Block>) {
    && (forall a :: a in central ==> Lies(cfg.classes, central[a].kind, a))
    && (forall a, b :: a in central && b in central && a != b ==>
          Apart(Extent(cfg.classes, central[a].kind, a), Extent(cfg.classes, central[b].kind, b)))
  }

  lemma LaidGrows(cfg: Config, central: map<Addr, Block>, p: Addr, block: Block)
    requires Laid(cfg, central) && Grants(cfg.classes, central, block.kind, p)
    ensures Laid(cfg, central[p := block])
  {
    hide Lies, Extent;
  }

  /** A step hands one granted block out, takes one back, or leaves central storage alone. */
  lemma CentralMoves(cfg: Config, s: State, t: nat, act: Action)
    requires Enabled(cfg, s, t, act)
    ensures var after := Step(cfg, s, t, act).central;
            || after == s.central
            || (act.Advance? && s.threads[t].pc.InCentral? && after == s.central - {PointerOf(s.threads[t].pc.job)})
            || (&& act.Fetch? && act.answer.Some?
                && var k, p := KindOf(s.threads[t].pc.job.req), act.answer.value;
                && Grants(cfg.classes, s.central, k, p) && after == s.central[p := Block(k, t)])
  {
    hide Grants, SizeClasses.Select, RecordAccepts, CentralAccepts, Shard;
    if act.Advance? {
      hide AdvanceStep;
      AdvanceCentral(cfg, s, t);
    }
  }

  lemma AdvanceCentral(cfg: Config, s: State, t: nat)
    requires Enabled(cfg, s, t, Advance)
    ensures var after := AdvanceStep(cfg, s, t).central;
            after == s.central || (s.threads[t].pc.InCentral? && after == s.central - {PointerOf(s.threads[t].pc.job)})
  {
    hide SizeClasses.Select, RecordAccepts, CentralAccepts, Shard;
  }

  lemma StepKeepsLaid(cfg: Config, s: State, t: nat, act: Action)
    requires Enabled(cfg, s, t, act) && Laid(cfg, s.central)
    ensures Laid(cfg, Step(cfg, s, t, act).central)
  {
    assert t < |s.threads|;
    CentralMoves(cfg, s, t, act);
    var after := Step(cfg, s, t, act).central;
    hide Enabled, Step, Lies, Extent;
    if act.Fetch? && act.answer.Some? && act.answer.value in after && act.answer.value !in s.central {
      hide Laid, Grants;
      LaidGrows(cfg, s.central, act.answer.value, after[act.answer.value]);
    }
  }

  lemma {:induction false} RunKeepsLaid(cfg: Config, s: State, run: Run)
    requires Laid(cfg, s.central) && IsRun(cfg, s, run)
    ensures Laid(cfg, After(cfg, s, run).central)
    decreases |run|
  {
    hide Laid, Enabled, Step;
    if |run| > 0 {
      StepKeepsLaid(cfg, s, run[0].0, run[0].1);
      RunKeepsLaid(cfg, Step(cfg, s, run[0].0, run[0].1), run[1..]);
    }
  }

  lemma ReachableLaid(cfg: Config, n: nat, s: State)
    requires Reachable(cfg, n, s)
    ensures Laid(cfg, s.central)
  {
    var run :| IsRun(cfg, Init(cfg, n), run) && After(cfg, Init(cfg, n), run) == s;
    assert Laid(cfg, Init(cfg, n).central);
    hide Laid;
    RunKeepsLaid(cfg, Init(cfg, n), run);
  }

  // ---- exclusive ownership, for disciplined clients ----

  /** The thread is about to return `a` from an allocation, or is carrying out a free of it. */
  predicate Claims(pc: PC, a: Addr) {
    || (HasJob(pc) && (pc.job.Fetching? || pc.job.Recording? || pc.job.Undoing?) && pc.job.result == Some(a))
    || (pc.PushRefill? && pc.result == Some(a))
    || (pc.NoteLive? && pc.p == a)
    || (HasJob(pc) && pc.job.Freeing? && pc.job.owned && pc.job.p == a)
  }

  /** A thread carrying out a free was handed a pointer its clients held. */
  predicate Lawful(pc: PC) {
    HasJob(pc) && pc.job.Freeing? ==> pc.job.owned
  }

  /** No thread, except possibly `but`, is carrying out a free of a pointer that was not held. */
  ghost predicate Honest(s: State, but: nat) {
    forall t :: 0 <= t < |s.threads| && t != but ==> Lawful(s.threads[t].pc)
  }

  lemma HonestStep(cfg: Config, s: State, t: nat, act: Action, but: nat)
    requires Honest(s, but) && Enabled(cfg, s, t, act) && (t == but || Disciplined(s, act))
    ensures |Step(cfg, s, t, act).threads| == |s.threads| && Honest(Step(cfg, s, t, act), but)
  {
    assert t < |s.threads|;
    hide Enabled, Step;
    StepMovesOne(cfg, s, t, act);
    if t != but {
      LawfulStep(cfg, s, t, act);
    }
  }

  lemma StepMovesOne(cfg: Config, s: State, t: nat, act: Action)
    requires Enabled(cfg, s, t, act)
    ensures OnlyThread(s, Step(cfg, s, t, act), t)
  {
    hide SizeClasses.Select, RecordAccepts, CentralAccepts, Shard, Judge;
  }

  lemma LawfulStep(cfg: Config, s: State, t: nat, act: Action)
    requires Enabled(cfg, s, t, act) && Lawful(s.threads[t].pc) && Disciplined(s, act)
    ensures var n := Step(cfg, s, t, act); |n.threads| == |s.threads| && Lawful(n.threads[t].pc)
  {
    hide SizeClasses.Select, Shard, AdvanceStep, InsertStep;
    if act.Advance? {
      AdvanceLawful(cfg, s, t);
    } else if act.Insert? {
      InsertLawful(cfg, s, t, act.ok);
    }
  }

  lemma InsertLawful(cfg: Config, s: State, t: nat, ok: bool)
    requires Enabled(cfg, s, t, Insert(ok))
    ensures var n := InsertStep(cfg, s, t, s.threads[t].pc.job, ok);
            |n.threads| == |s.threads| && Lawful(n.threads[t].pc)
  {
  }

  lemma AdvanceLawful(cfg: Config, s: State, t: nat)
    requires Enabled(cfg, s, t, Advance) && Lawful(s.threads[t].pc)
    ensures var n := AdvanceStep(cfg, s, t); |n.threads| == |s.threads| && Lawful(n.threads[t].pc)
  {
    hide RecordAccepts, CentralAccepts, Shard, Judge;
    if s.threads[t].pc.InShard? {
      hide UndoStep, CentralFreeStep, EraseFreedStep, EraseFlushedStep;
      hide NoteLiveStep, PushRefillStep, PushFreedStep, FlushLoopStep;
    } else if s.threads[t].pc.InCentral? || s.threads[t].pc.Erasing? {
      hide ReuseStep, CheckFreeStep, CheckFlushStep, NoteLiveStep, PushRefillStep, PushFreedStep, FlushLoopStep;
    } else if s.threads[t].pc.PushRefill? {
      hide ReuseStep, CheckFreeStep, CheckFlushStep, UndoStep, CentralFreeStep, EraseFreedStep, EraseFlushedStep;
      hide NoteLiveStep, PushFreedStep, FlushLoopStep;
    } else {
      hide ReuseStep, CheckFreeStep, CheckFlushStep, UndoStep, CentralFreeStep, EraseFreedStep, EraseFlushedStep;
      hide PushRefillStep;
    }
  }

  /** Whoever holds or claims an address is the only one, and its record is active. */
  ghost predicate Owned(s: State) {
    && (forall a :: a in s.held ==> IsActive(s, a))
    && (forall t, a :: 0 <= t < |s.threads| && Claims(s.threads[t].pc, a) ==> IsActive(s, a) && a !in s.held)
    && (forall t, u, a :: 0 <= t < u < |s.threads| ==> !(Claims(s.threads[t].pc, a) && Claims(s.threads[u].pc, a)))
  }

  /** A step that moves no ownership. */
  ghost predicate Keeps(s: State, n: State, t: nat)
    requires t < |s.threads|
  {
    && OnlyThread(s, n, t)
    && n.held == s.held
    && (forall a :: Claims(n.threads[t].pc, a) ==> Claims(s.threads[t].pc, a))
    && (forall a :: IsActive(s, a) ==> IsActive(n, a))
  }

  /** A step that hands `p` over between nobody, thread `t` and the clients. */
  ghost predicate Handover(s: State, n: State, t: nat, p: Addr)
    requires t < |s.threads|
  {
    && OnlyThread(s, n, t)
    && var pc, npc := s.threads[t].pc, n.threads[t].pc;
    && (forall a :: a != p ==> (a in n.held <==> a in s.held))
    && (forall a :: a != p && Claims(npc, a) ==> Claims(pc, a))
    && (forall a :: a != p && IsActive(s, a) ==> IsActive(n, a))
    && (p in s.held || Claims(pc, p) || !IsActive(s, p))
    && !(p in n.held && Claims(npc, p))
    && (p in n.held || Claims(npc, p) ==> IsActive(n, p))
  }

  lemma HandoverKeepsOwned(s: State, n: State, t: nat, p: Addr)
    requires t < |s.threads| && Owned(s) && (Keeps(s, n, t) || Handover(s, n, t, p))
    ensures Owned(n)
  {
    hide IsActive, Claims;
  }

  /** The address whose ownership a step moves, if any. */
  function Focus(s: State, t: nat, act: Action): Addr
    requires t < |s.threads|
  {
    var pc := s.threads[t].pc;
    if act.BeginFree? then act.p
    else if pc.NoteLive? then pc.p
    else if HasJob(pc) then PointerOf(pc.job)
    else 0
  }

  lemma CheckFreeHandover(cfg: Config, s: State, t: nat, job: Job)
    requires t < |s.threads| && s.threads[t].pc == InShard(job) && job.Freeing? && job.owned && Owned(s)
    ensures Handover(s, CheckFreeStep(cfg, s, t, job), t, job.p)
  {
    hide RecordAccepts;
    assert Claims(s.threads[t].pc, job.p);
  }

  lemma ReuseHandover(cfg: Config, s: State, t: nat, job: Job)
    requires t < |s.threads| && ThreadOk(cfg, s, t) && s.threads[t].pc == InShard(job) && job.Reusing?
    ensures Handover(s, ReuseStep(s, t, job), t, job.p)
  {
    hide BinOk, RequestOk;
  }

  lemma EraseHandover(cfg: Config, s: State, t: nat, job: Job)
    requires t < |s.threads| && ThreadOk(cfg, s, t) && s.threads[t].pc == Erasing(job)
    requires Owned(s) && Lawful(s.threads[t].pc) && Enabled(cfg, s, t, Advance)
    ensures Handover(s, AdvanceStep(cfg, s, t), t, job.p)
  {
    assert job.Flushing? ==> BinOk(cfg, s, t, job.cls);
    hide BinOk, PcOk;
  }

  /** The locations whose next step moves no ownership. */
  predicate Neutral(pc: PC) {
    pc.InCentral? || (pc.InShard? && pc.job.Flushing?) || pc.PushRefill? || pc.PushFreed? || pc.FlushLoop?
  }

  lemma NeutralKeeps(cfg: Config, s: State, t: nat)
    requires Enabled(cfg, s, t, Advance) && Neutral(s.threads[t].pc)
    ensures Keeps(s, AdvanceStep(cfg, s, t), t)
  {
    hide CentralAccepts, Shard, ReuseStep, CheckFreeStep, EraseFreedStep, EraseFlushedStep, NoteLiveStep;
    var n := AdvanceStep(cfg, s, t);
    assert n.records == s.records && n.held == s.held;
    if s.threads[t].pc.InCentral? {
      hide PushRefillStep, PushFreedStep, FlushLoopStep, CheckFlushStep;
    } else {
      hide UndoStep, CentralFreeStep;
    }
  }

  lemma AdvanceHandover(cfg: Config, s: State, t: nat)
    requires t < |s.threads| && ThreadOk(cfg, s, t) && Owned(s) && Lawful(s.threads[t].pc)
    requires Enabled(cfg, s, t, Advance)
    ensures var n := AdvanceStep(cfg, s, t); Keeps(s, n, t) || Handover(s, n, t, Focus(s, t, Advance))
  {
    var pc := s.threads[t].pc;
    hide Owned, ThreadOk, Keeps, Handover, ReuseStep, CheckFreeStep, EraseFreedStep, EraseFlushedStep;
    hide NoteLiveStep, PushRefillStep, PushFreedStep, FlushLoopStep, UndoStep, CentralFreeStep, CheckFlushStep;
    if pc.Erasing? {
      EraseHandover(cfg, s, t, pc.job);
    } else if pc.InShard? && pc.job.Freeing? {
      CheckFreeHandover(cfg, s, t, pc.job);
    } else if pc.InShard? && pc.job.Reusing? {
      ReuseHandover(cfg, s, t, pc.job);
    } else if pc.NoteLive? {
      NoteLiveHandover(s, t, pc.p);
    } else {
      NeutralKeeps(cfg, s, t);
    }
  }

  lemma NoteLiveHandover(s: State, t: nat, p: Addr)
    requires t < |s.threads| && s.threads[t].pc == NoteLive(p) && Owned(s)
    ensures Handover(s, NoteLiveStep(s, t, p), t, p)
  {
    assert Claims(s.threads[t].pc, p);
  }

  lemma InsertHandover(cfg: Config, s: State, t: nat, job: Job, ok: bool)
    requires t < |s.threads| && ThreadOk(cfg, s, t) && s.threads[t].pc == InShard(job) && job.Recording?
    requires LocksOk(s) && Owned(s)
    ensures var n := InsertStep(cfg, s, t, job, ok); Keeps(s, n, t) || Handover(s, n, t, job.p)
  {
    hide BinOk, RequestOk;
    assert job.p !in s.records;
  }

  lemma BeginFreeHandover(cfg: Config, s: State, t: nat, p: Addr, sizing: Sizing)
    requires t < |s.threads| && s.threads[t].pc.Idle? && Owned(s) && p in s.held
    ensures Handover(s, BeginFreeStep(s, t, p, sizing), t, p)
  {
  }

  lemma OtherActionKeeps(cfg: Config, s: State, t: nat, act: Action)
    requires Enabled(cfg, s, t, act) && !act.Advance? && !act.Insert? && !act.BeginFree?
    ensures Keeps(s, Step(cfg, s, t, act), t)
  {
    hide AdvanceStep, InsertStep, SizeClasses.Select;
    var n := Step(cfg, s, t, act);
    assert n.records == s.records && n.held == s.held;
  }

  lemma StepHandover(cfg: Config, s: State, t: nat, act: Action)
    requires LocksOk(s) && t < |s.threads| && ThreadOk(cfg, s, t) && Owned(s) && Lawful(s.threads[t].pc)
    requires Enabled(cfg, s, t, act) && Disciplined(s, act)
    ensures var n := Step(cfg, s, t, act); Keeps(s, n, t) || Handover(s, n, t, Focus(s, t, act))
  {
    hide LocksOk, ThreadOk, Owned, Keeps, Handover, AdvanceStep, InsertStep, FetchStep, BeginAllocateStep,
        BeginFreeStep, SetPC;
    match act
    case Advance => AdvanceHandover(cfg, s, t);
    case Insert(ok) => InsertHandover(cfg, s, t, s.threads[t].pc.job, ok);
    case BeginFree(p, sizing) => BeginFreeHandover(cfg, s, t, p, sizing);
    case _ => OtherActionKeeps(cfg, s, t, act);
  }

  lemma {:induction false} RunKeepsOwned(cfg: Config, s: State, run: Run)
    requires ValidConfig(cfg) && Inv(cfg, s) && Owned(s) && Honest(s, |s.threads|) && IsDisciplinedRun(cfg, s, run)
    ensures IsRun(cfg, s, run)
    ensures var n := After(cfg, s, run); Inv(cfg, n) && Owned(n) && Honest(n, |n.threads|)
    decreases |run|
  {
    if |run| > 0 {
      var t, act := run[0].0, run[0].1;
      assert ThreadOk(cfg, s, t);
      assert Lawful(s.threads[t].pc);
      hide Inv, ThreadOk, Owned, Keeps, Handover, Honest, Enabled, Step;
      HonestStep(cfg, s, t, act, |s.threads|);
      StepHandover(cfg, s, t, act);
      HandoverKeepsOwned(s, Step(cfg, s, t, act), t, Focus(s, t, act));
      StepKeepsInv(cfg, s, t, act);
      RunKeepsOwned(cfg, Step(cfg, s, t, act), run[1..]);
    }
  }

  ghost predicate ReachableByDiscipline(cfg: Config, n: nat, s: State) {
    exists run :: IsDisciplinedRun(cfg, Init(cfg, n), run) && IsRun(cfg, Init(cfg, n), run)
        && After(cfg, Init(cfg, n), run) == s
  }

  lemma DisciplineOwned(cfg: Config, n: nat, s: State)
    requires ValidConfig(cfg) && ReachableByDiscipline(cfg, n, s)
    ensures Inv(cfg, s) && Owned(s) && Honest(s, |s.threads|) && Reachable(cfg, n, s)
  {
    var run :| IsDisciplinedRun(cfg, Init(cfg, n), run) && IsRun(cfg, Init(cfg, n), run)
        && After(cfg, Init(cfg, n), run) == s;
    InitInv(cfg, n);
    assert Owned(Init(cfg, n));
    hide Inv, Owned;
    RunKeepsOwned(cfg, Init(cfg, n), run);
  }

  /** The thread's next step returns `p` from `allocate`. */
  predicate Returning(pc: PC, p: Addr) {
    pc == NoteLive(p) || (pc.InShard? && pc.job.Reusing? && pc.job.p == p)
  }

  /**
   In every run of disciplined clients, `allocate` returns an address that no client holds,
   that no other call is returning or freeing, and that is in no thread's bin.
   */
  lemma AllocateReturnsExclusive(cfg: Config, n: nat, s: State, t: nat, p: Addr)
    requires ValidConfig(cfg) && ReachableByDiscipline(cfg, n, s) && Enabled(cfg, s, t, Advance)
    requires Returning(s.threads[t].pc, p)
    ensures p !in s.held && p in Step(cfg, s, t, Advance).held
    ensures forall u :: 0 <= u < |s.threads| && u != t ==> !Claims(s.threads[u].pc, p)
    ensures forall u, c, k :: !InSlot(Step(cfg, s, t, Advance), u, c, k, p)
  {
    DisciplineOwned(cfg, n, s);
    InactiveIsCachedOnce(cfg, n, s, p);
    assert ThreadOk(cfg, s, t);
    hide LocksOk, RecordOk, BlockOk, BinOk, Reachable, ReachableByDiscipline;
    if s.threads[t].pc == NoteLive(p) {
      assert Claims(s.threads[t].pc, p);
    } else {
      assert IsPending(s, t, p) && !IsActive(s, p);
    }
    ReturnMoves(cfg, s, t, p);
    hide Step, Enabled;
  }

  /** The last step of an allocation hands its address out and leaves all bins alone. */
  lemma ReturnMoves(cfg: Config, s: State, t: nat, p: Addr)
    requires Enabled(cfg, s, t, Advance) && Returning(s.threads[t].pc, p)
    ensures var m := Step(cfg, s, t, Advance);
            && (s.threads[t].pc.NoteLive? || (p in s.records && !s.records[p].active) ==> p in m.held)
            && forall u, c, k :: InSlot(m, u, c, k, p) ==> InSlot(s, u, c, k, p)
  {
  }

  /**
   In every run of disciplined clients a free finds an active record: it is never refused
   as foreign or as a double free, only for a size and alignment of another class.
   */
  lemma DisciplinedFreeIsAccepted(cfg: Config, n: nat, s: State, t: nat, p: Addr, sizing: Sizing)
    requires ValidConfig(cfg) && ReachableByDiscipline(cfg, n, s) && t < |s.threads|
    requires s.threads[t].pc.InShard? && s.threads[t].pc.job.Freeing?
    requires s.threads[t].pc.job.p == p && s.threads[t].pc.job.sizing == sizing
    ensures var v := Judge(cfg, s, t, p, sizing);
            && !v.Foreign? && !v.AlreadyFree?
            && (v.Mismatch? <==> !RecordAccepts(cfg, s.records[p], sizing))
  {
    DisciplineOwned(cfg, n, s);
    hide Inv, Reachable, ReachableByDiscipline, RecordAccepts;
    assert Claims(s.threads[t].pc, p);
    assert IsActive(s, p);
  }
}
