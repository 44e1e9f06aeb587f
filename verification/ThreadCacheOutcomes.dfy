/**
 What one operation of a thread does from its beginning to its end, in every run and
 whatever the other threads do meanwhile: which blocks a refill fetches and keeps, which
 block an allocation returns, and which blocks a free or a release gives back.
 */
module ThreadCacheOutcomes {
  import opened Bits
  import opened SizeClasses
  import opened Provider
  import opened ThreadCacheModel
  import opened ThreadCacheInvariant
  import opened ThreadCacheSafety

  // ---- what the steps of one thread did, read off the states ----

  /** A logged event, with the record of its address right after the step. */
  datatype Entry = Entry(event: Event, record: Option<Record>)

  /**
   In order: the addresses central storage handed out, those for which a record appeared,
   those central storage took back, and the events logged. `failed`: a central allocation
   or the insertion of a record threw.
   */
  datatype Effect = Effect(taken: seq<Addr>, recorded: seq<Addr>, given: seq<Addr>, log: seq<Entry>, failed: bool)

  const Nothing := Effect([], [], [], [], false)

  function Then(first: Effect, rest: Effect): Effect {
    Effect(first.taken + rest.taken, first.recorded + rest.recorded, first.given + rest.given,
           first.log + rest.log, first.failed || rest.failed)
  }

  /** The address in `after` and not in `before`, if there is one. */
  ghost function New(before: set<Addr>, after: set<Addr>): seq<Addr> {
    if after <= before then [] else var a :| a in after && a !in before; [a]
  }

  function Logs(s: State, n: State): seq<Entry> {
    if |n.history| <= |s.history| then []
    else
      var e := n.history[|s.history|];
      [Entry(e, if e.a in n.records then Some(n.records[e.a]) else None)]
  }

  ghost function EffectOf(s: State, n: State, act: Action): Effect {
    Effect(New(s.central.Keys, n.central.Keys), New(s.records.Keys, n.records.Keys),
           New(n.central.Keys, s.central.Keys), Logs(s, n), act == Fetch(None) || act == Insert(false))
  }

  /** The effect of the steps of thread `t` in the run. */
  ghost function Effects(cfg: Config, s: State, t: nat, run: Run): Effect
    requires IsRun(cfg, s, run)
    decreases |run|
  {
    if |run| == 0 then Nothing
    else
      var n := Step(cfg, s, run[0].0, run[0].1);
      Then(if run[0].0 == t then EffectOf(s, n, run[0].1) else Nothing, Effects(cfg, n, t, run[1..]))
  }

  /** The run ends when thread `t` is idle for the first time. */
  predicate UntilIdle(cfg: Config, s: State, t: nat, run: Run)
    requires IsRun(cfg, s, run)
    decreases |run|
  {
    && t < |s.threads|
    && (s.threads[t].pc.Idle? <==> |run| == 0)
    && (|run| > 0 ==> UntilIdle(cfg, Step(cfg, s, run[0].0, run[0].1), t, run[1..]))
  }

  /** The run is one operation of thread `t`, begun by `act`, with anything other threads do until it ends. */
  predicate Operation(cfg: Config, s: State, t: nat, act: Action, run: Run) {
    && IsRun(cfg, s, run) && |run| > 0 && run[0] == (t, act) && Begins(act)
    && UntilIdle(cfg, Step(cfg, s, t, act), t, run[1..])
  }

  // ---- what is still to come, by location ----

  function Backwards(xs: seq<Addr>): (r: seq<Addr>)
    ensures |r| == |xs| && forall i :: 0 <= i < |xs| ==> r[i] == xs[|xs| - 1 - i]
  {
    if |xs| == 0 then [] else [xs[|xs| - 1]] + Backwards(xs[..|xs| - 1])
  }

  /** The oldest `target` blocks of a bin, and the others, newest first. */
  function Oldest(bin: seq<Addr>, target: nat): seq<Addr> {
    if |bin| <= target then bin else bin[..target]
  }

  function Surplus(bin: seq<Addr>, target: nat): seq<Addr> {
    if |bin| <= target then [] else Backwards(bin[target..])
  }

  /** The bins once bin `c`, or every bin from there on, is cut down to `target`. */
  function CutDown(bins: seq<seq<Addr>>, c: nat, target: nat, all: bool): seq<seq<Addr>> {
    seq(|bins|, i requires 0 <= i < |bins| => if i == c || (all && i > c) then Oldest(bins[i], target) else bins[i])
  }

  /** The blocks given back for it, bin by bin. */
  function CutOff(bins: seq<seq<Addr>>, c: nat, target: nat, all: bool): seq<Addr>
    requires c < |bins|
  {
    Surplus(bins[c], target) + if all then Surpluses(bins[c + 1..], target) else []
  }

  function Surpluses(bins: seq<seq<Addr>>, target: nat): seq<Addr> {
    if |bins| == 0 then [] else Surplus(bins[0], target) + Surpluses(bins[1..], target)
  }

  ghost predicate Flushes(bins: seq<seq<Addr>>, c: nat, target: nat, all: bool, eff: Effect, end: seq<seq<Addr>>) {
    && c < |bins| && end == CutDown(bins, c, target, all)
    && eff == Nothing.(given := CutOff(bins, c, target, all))
  }

  /** The number of blocks a request asks central storage for when nothing fails. */
  function Rounds(cfg: Config, req: Request): nat {
    if req.cls.Class? then cfg.batch else 1
  }

  function Activation(t: nat, req: Request, p: Addr): Entry {
    Entry(Activated(p), Some(Record(req.cls, req.size, req.alignment, t, true)))
  }

  function Pushed(bins: seq<seq<Addr>>, cls: ClassId, blocks: seq<Addr>): seq<seq<Addr>> {
    if cls.Class? && cls.index < |bins| then bins[cls.index := bins[cls.index] + blocks] else bins
  }

  /**
   Iterations `i` and later of a refill whose first block is `result`: all blocks recorded were
   fetched, one fetched and not recorded went back, and only a failure ends the loop early. The first
   block of all is returned, the others are pushed.
   */
  ghost predicate Refills(cfg: Config, t: nat, bins: seq<seq<Addr>>, req: Request, i: nat, result: Option<Addr>,
                          eff: Effect, end: State) {
    var got := eff.recorded;
    && t < |end.threads|
    && got <= eff.taken && |eff.taken| <= |got| + 1 && eff.given == eff.taken[|got|..]
    && (got != eff.taken ==> eff.failed)
    && i + |got| <= Rounds(cfg, req) && (eff.failed <==> i + |got| < Rounds(cfg, req))
    && eff.log == (if result.None? && |got| > 0 then [Activation(t, req, got[0])] else [])
    && match result
       case Some(p) => p in end.held && end.threads[t].bins == Pushed(bins, req.cls, got)
       case None =>
         if |got| == 0 then end.threads[t].bins == bins
         else got[0] in end.held && end.threads[t].bins == Pushed(bins, req.cls, got[1..])
  }

  ghost predicate JobPromise(cfg: Config, t: nat, th: Thread, job: Job, eff: Effect, end: State)
    requires t < |end.threads|
  {
    var bins := end.threads[t].bins;
    match job
    case Fetching(req, i, result) => Refills(cfg, t, th.bins, req, i, result, eff, end)
    case Recording(req, i, result, p) =>
      Refills(cfg, t, th.bins, req, i, result, eff.(taken := [p] + eff.taken), end)
    case Undoing(req, i, result, p) =>
      Refills(cfg, t, th.bins, req, i, result, eff.(taken := [p] + eff.taken, failed := true), end)
    case Reusing(req, p) => eff == Nothing.(log := [Activation(t, req, p)]) && bins == th.bins && p in end.held
    case Freeing(p, _, _) =>
      th.pc.WantShard? || th.pc.InShard?
      || (eff == Nothing.(given := [p], log := [Entry(Ended(p), None)]) && bins == th.bins)
    case Flushing(_, c, target, all) => Flushes(th.bins, c, target, all, eff, bins)
  }

  /** The effect of the steps thread `t` has still to take from `th`, and its bins in the end. */
  ghost predicate Promise(cfg: Config, t: nat, th: Thread, eff: Effect, end: State) {
    && t < |end.threads|
    && var bins := end.threads[t].bins;
    match th.pc
    case Idle => eff == Nothing && bins == th.bins
    case Inconsistent => false
    case NoteLive(p) => eff == Nothing && bins == th.bins && p in end.held
    case PushRefill(req, i, result, p) =>
      Refills(cfg, t, th.bins, req, i, result,
              eff.(taken := [p] + eff.taken, recorded := [p] + eff.recorded), end)
    case PushFreed(p, c) =>
      && c < |th.bins|
      && var bin := th.bins[c] + [p];
      && (if |bin| <= cfg.high then eff == Nothing && bins == th.bins[c := bin]
          else eff == Nothing.(given := Surplus(bin, cfg.low)) && bins == th.bins[c := Oldest(bin, cfg.low)])
    case FlushLoop(c, target, all) => Flushes(th.bins, c, target, all, eff, bins)
    case Erasing(job) =>
      if job.Freeing? then eff == Nothing.(log := [Entry(Ended(job.p), None)]) && bins == th.bins
      else JobPromise(cfg, t, th, job, eff.(given := [PointerOf(job)] + eff.given), end)
    case _ => JobPromise(cfg, t, th, th.pc.job, eff, end)
  }

  // ---- each step keeps what is promised ----

  lemma NewOne(before: set<Addr>, a: Addr)
    requires a !in before
    ensures New(before, before + {a}) == [a] && New(before + {a}, before) == []
  {
  }

  lemma CentralGains(s: State, n: State, p: Addr, b: Block)
    requires p !in s.central && n.central == s.central[p := b]
    ensures New(s.central.Keys, n.central.Keys) == [p] && New(n.central.Keys, s.central.Keys) == []
  {
    assert n.central.Keys == s.central.Keys + {p};
    NewOne(s.central.Keys, p);
  }

  lemma CentralLoses(s: State, n: State, p: Addr)
    requires p in s.central && n.central == s.central - {p}
    ensures New(s.central.Keys, n.central.Keys) == [] && New(n.central.Keys, s.central.Keys) == [p]
  {
    assert s.central.Keys == n.central.Keys + {p};
    NewOne(n.central.Keys, p);
  }

  lemma RecordsGain(s: State, n: State, p: Addr, r: Record)
    requires p !in s.records && n.records == s.records[p := r]
    ensures New(s.records.Keys, n.records.Keys) == [p]
  {
    assert n.records.Keys == s.records.Keys + {p};
    NewOne(s.records.Keys, p);
  }

  lemma PushedNone(bins: seq<seq<Addr>>, cls: ClassId)
    ensures Pushed(bins, cls, []) == bins
  {
    if cls.Class? && cls.index < |bins| {
      assert bins[cls.index] + [] == bins[cls.index];
    }
  }

  lemma ThenRest(first: Effect, rest: Effect)
    ensures first.taken == [] ==> Then(first, rest).taken == rest.taken
    ensures first.recorded == [] ==> Then(first, rest).recorded == rest.recorded
    ensures first.given == [] ==> Then(first, rest).given == rest.given
    ensures first.log == [] ==> Then(first, rest).log == rest.log
    ensures rest == Nothing ==> Then(first, rest) == first
  {
  }

  lemma ThenNothing(rest: Effect)
    ensures Then(Nothing, rest) == rest
  {
  }

  lemma FetchPromise(cfg: Config, s: State, t: nat, answer: Option<Addr>, rest: Effect, end: State)
    requires Enabled(cfg, s, t, Fetch(answer)) && ThreadOk(cfg, s, t)
    requires Promise(cfg, t, FetchStep(s, t, s.threads[t].pc.job, answer).threads[t], rest, end)
    ensures var n := FetchStep(s, t, s.threads[t].pc.job, answer);
            Promise(cfg, t, s.threads[t], Then(EffectOf(s, n, Fetch(answer)), rest), end)
  {
    hide BinOk, RequestOk, Lies;
    var job := s.threads[t].pc.job;
    var n := FetchStep(s, t, job, answer);
    var eff := EffectOf(s, n, Fetch(answer));
    ThenRest(eff, rest);
    if answer.Some? {
      CentralGains(s, n, answer.value, Block(KindOf(job.req), t));
      assert Then(eff, rest) == rest.(taken := [answer.value] + rest.taken);
    } else {
      PushedNone(s.threads[t].bins, job.req.cls);
    }
  }

  lemma InsertPromise(cfg: Config, s: State, t: nat, ok: bool, rest: Effect, end: State)
    requires Enabled(cfg, s, t, Insert(ok)) && ThreadOk(cfg, s, t)
    requires Promise(cfg, t, InsertStep(cfg, s, t, s.threads[t].pc.job, ok).threads[t], rest, end)
    ensures var n := InsertStep(cfg, s, t, s.threads[t].pc.job, ok);
            Promise(cfg, t, s.threads[t], Then(EffectOf(s, n, Insert(ok)), rest), end)
  {
    var job := s.threads[t].pc.job;
    var n := InsertStep(cfg, s, t, job, ok);
    assert IterationOk(cfg, s.threads[t], job.req, job.i, job.result);
    hide ThreadOk, RequestOk;
    if job.p !in s.records {
      InsertEffect(cfg, s, t, ok);
      hide EffectOf, InsertStep;
      ThenRest(EffectOf(s, n, Insert(ok)), rest);
      if ok && (job.req.cls.Fallback? || job.i == 0) {
        FirstRound(cfg, t, s.threads[t].bins, job.req, job.p, rest, end);
      }
    }
  }

  lemma InsertEffect(cfg: Config, s: State, t: nat, ok: bool)
    requires Enabled(cfg, s, t, Insert(ok)) && s.threads[t].pc.job.p !in s.records
    ensures var job := s.threads[t].pc.job;
            var n, first := InsertStep(cfg, s, t, job, ok), job.req.cls.Fallback? || job.i == 0;
            && t < |n.threads| && n.threads[t].bins == s.threads[t].bins
            && n.threads[t].pc ==
                 (if !ok then WantCentral(Undoing(job.req, job.i, job.result, job.p))
                  else if first then NextIteration(cfg, job.req, 0, job.p)
                  else PushRefill(job.req, job.i, job.result, job.p))
            && EffectOf(s, n, Insert(ok)) ==
                 (if ok then
                   Nothing.(recorded := [job.p], log := if first then [Activation(t, job.req, job.p)] else [])
                  else Nothing.(failed := true))
  {
    var job := s.threads[t].pc.job;
    var n := InsertStep(cfg, s, t, job, ok);
    if ok {
      RecordsGain(s, n, job.p, n.records[job.p]);
    }
  }

  /** After the first block is recorded, the rest of the refill completes the promise. */
  lemma FirstRound(cfg: Config, t: nat, bins: seq<seq<Addr>>, req: Request, p: Addr, rest: Effect, end: State)
    requires req.cls.Class? ==> cfg.batch >= 1
    requires Promise(cfg, t, Thread(NextIteration(cfg, req, 0, p), bins), rest, end)
    ensures var eff := rest.(taken := [p] + rest.taken, recorded := [p] + rest.recorded,
                log := [Activation(t, req, p)] + rest.log);
            Refills(cfg, t, bins, req, 0, None, eff, end)
  {
    PushedNone(bins, req.cls);
  }

  lemma UndoPromise(cfg: Config, s: State, t: nat, rest: Effect, end: State)
    requires Enabled(cfg, s, t, Advance) && ThreadOk(cfg, s, t)
    requires s.threads[t].pc.InCentral? && s.threads[t].pc.job.Undoing?
    requires Promise(cfg, t, UndoStep(cfg, s, t, s.threads[t].pc.job).threads[t], rest, end)
    ensures var n := UndoStep(cfg, s, t, s.threads[t].pc.job);
            Promise(cfg, t, s.threads[t], Then(EffectOf(s, n, Advance), rest), end)
  {
    hide BinOk, RequestOk, FlightOk, CentralAccepts;
    var job := s.threads[t].pc.job;
    var n := UndoStep(cfg, s, t, job);
    if !n.threads[t].pc.Inconsistent? {
      CentralLoses(s, n, job.p);
      ThenRest(EffectOf(s, n, Advance), rest);
      PushedNone(s.threads[t].bins, job.req.cls);
    }
  }

  lemma PushRefillPromise(cfg: Config, s: State, t: nat, rest: Effect, end: State)
    requires Enabled(cfg, s, t, Advance) && ThreadOk(cfg, s, t) && s.threads[t].pc.PushRefill?
    requires Promise(cfg, t, PushRefillStep(cfg, s, t).threads[t], rest, end)
    ensures var n := PushRefillStep(cfg, s, t);
            Promise(cfg, t, s.threads[t], Then(EffectOf(s, n, Advance), rest), end)
  {
    hide BinOk, RequestOk, PendingOk;
    var pc, bins := s.threads[t].pc, s.threads[t].bins;
    var c := pc.req.cls.index;
    var n := PushRefillStep(cfg, s, t);
    assert bins[c] + ([pc.p] + rest.recorded) == bins[c] + [pc.p] + rest.recorded;
    assert Pushed(n.threads[t].bins, pc.req.cls, rest.recorded) == Pushed(bins, pc.req.cls, [pc.p] + rest.recorded);
    PushedNone(n.threads[t].bins, pc.req.cls);
    ThenRest(EffectOf(s, n, Advance), rest);
  }

  lemma ReusePromise(cfg: Config, s: State, t: nat, rest: Effect, end: State)
    requires Enabled(cfg, s, t, Advance) && ThreadOk(cfg, s, t)
    requires s.threads[t].pc.InShard? && s.threads[t].pc.job.Reusing?
    requires Promise(cfg, t, ReuseStep(s, t, s.threads[t].pc.job).threads[t], rest, end)
    requires s.threads[t].pc.job.p in end.held
    ensures var n := ReuseStep(s, t, s.threads[t].pc.job);
            Promise(cfg, t, s.threads[t], Then(EffectOf(s, n, Advance), rest), end)
  {
    hide BinOk, RequestOk;
    var n := ReuseStep(s, t, s.threads[t].pc.job);
    assert n.records.Keys == s.records.Keys;
  }

  /** The mutex steps, and every step that only moves the thread on. */
  lemma QuietPromise(cfg: Config, s: State, n: State, t: nat, act: Action, rest: Effect, end: State)
    requires t < |s.threads| == |n.threads| && Promise(cfg, t, n.threads[t], rest, end)
    requires n.central == s.central && n.records == s.records && n.history == s.history
    requires !act.Fetch? && !act.Insert?
    ensures Promise(cfg, t, n.threads[t], Then(EffectOf(s, n, act), rest), end)
  {
    hide Promise;
    assert EffectOf(s, n, act) == Nothing;
    ThenNothing(rest);
  }

  lemma LockPromise(cfg: Config, s: State, t: nat, act: Action, rest: Effect, end: State)
    requires Enabled(cfg, s, t, act) && (act.LockShard? || act.LockCentral?)
    requires ThreadOk(cfg, s, t) && Promise(cfg, t, Step(cfg, s, t, act).threads[t], rest, end)
    ensures Promise(cfg, t, s.threads[t], Then(EffectOf(s, Step(cfg, s, t, act), act), rest), end)
  {
    hide BinOk, JobOk, Refills, Flushes, CheckedOk;
    var n := Step(cfg, s, t, act);
    QuietPromise(cfg, s, n, t, act, rest, end);
    hide EffectOf, Then;
  }

  lemma NoteLivePromise(cfg: Config, s: State, t: nat, rest: Effect, end: State)
    requires Enabled(cfg, s, t, Advance) && s.threads[t].pc.NoteLive? && s.threads[t].pc.p in end.held
    requires Promise(cfg, t, NoteLiveStep(s, t, s.threads[t].pc.p).threads[t], rest, end)
    ensures var n := NoteLiveStep(s, t, s.threads[t].pc.p);
            Promise(cfg, t, s.threads[t], Then(EffectOf(s, n, Advance), rest), end)
  {
    var n := NoteLiveStep(s, t, s.threads[t].pc.p);
    QuietPromise(cfg, s, n, t, Advance, rest, end);
  }

  lemma CentralFreePromise(cfg: Config, s: State, t: nat, rest: Effect, end: State)
    requires Enabled(cfg, s, t, Advance) && s.threads[t].pc.InCentral?
    requires s.threads[t].pc.job.Freeing? || s.threads[t].pc.job.Flushing?
    requires Promise(cfg, t, CentralFreeStep(cfg, s, t, s.threads[t].pc.job).threads[t], rest, end)
    ensures var n := CentralFreeStep(cfg, s, t, s.threads[t].pc.job);
            Promise(cfg, t, s.threads[t], Then(EffectOf(s, n, Advance), rest), end)
  {
    hide CentralAccepts;
    var job := s.threads[t].pc.job;
    var n := CentralFreeStep(cfg, s, t, job);
    if !n.threads[t].pc.Inconsistent? {
      CentralLoses(s, n, job.p);
      ThenRest(EffectOf(s, n, Advance), rest);
    }
  }

  lemma EraseFreedPromise(cfg: Config, s: State, t: nat, rest: Effect, end: State)
    requires Enabled(cfg, s, t, Advance) && s.threads[t].pc.Erasing? && s.threads[t].pc.job.Freeing?
    requires Promise(cfg, t, EraseFreedStep(s, t, s.threads[t].pc.job.p).threads[t], rest, end)
    ensures var n := EraseFreedStep(s, t, s.threads[t].pc.job.p);
            Promise(cfg, t, s.threads[t], Then(EffectOf(s, n, Advance), rest), end)
  {
    ThenRest(EffectOf(s, EraseFreedStep(s, t, s.threads[t].pc.job.p), Advance), rest);
  }

  lemma PushFreedPromise(cfg: Config, s: State, t: nat, rest: Effect, end: State)
    requires Enabled(cfg, s, t, Advance) && s.threads[t].pc.PushFreed?
    requires Promise(cfg, t, PushFreedStep(cfg, s, t).threads[t], rest, end)
    ensures var n := PushFreedStep(cfg, s, t);
            Promise(cfg, t, s.threads[t], Then(EffectOf(s, n, Advance), rest), end)
  {
    QuietPromise(cfg, s, PushFreedStep(cfg, s, t), t, Advance, rest, end);
  }

  lemma FlushLoopPromise(cfg: Config, s: State, t: nat, rest: Effect, end: State)
    requires Enabled(cfg, s, t, Advance) && s.threads[t].pc.FlushLoop?
    requires Promise(cfg, t, FlushLoopStep(cfg, s, t).threads[t], rest, end)
    ensures var n := FlushLoopStep(cfg, s, t);
            Promise(cfg, t, s.threads[t], Then(EffectOf(s, n, Advance), rest), end)
  {
    hide CutDown, CutOff;
    var pc, bins := s.threads[t].pc, s.threads[t].bins;
    QuietPromise(cfg, s, FlushLoopStep(cfg, s, t), t, Advance, rest, end);
    if |bins[pc.cls]| <= pc.target {
      NothingToCut(bins, pc.cls, pc.target, pc.all);
    }
  }

  /** A bin within the target is left alone. */
  lemma {:induction false} NothingToCut(bins: seq<seq<Addr>>, c: nat, target: nat, all: bool)
    requires c < |bins| && |bins[c]| <= target
    ensures var more := all && c + 1 < |bins|;
            && CutDown(bins, c, target, all) == (if more then CutDown(bins, c + 1, target, all) else bins)
            && CutOff(bins, c, target, all) == (if more then CutOff(bins, c + 1, target, all) else [])
  {
    var cut := CutDown(bins, c, target, all);
    assert Oldest(bins[c], target) == bins[c] && Surplus(bins[c], target) == [];
    hide Oldest, Surplus;
    if all && c + 1 < |bins| {
      assert cut == CutDown(bins, c + 1, target, all);
      hide CutDown;
      assert bins[c + 1..][1..] == bins[c + 2..];
    } else {
      assert cut == bins;
    }
  }

  lemma CheckFlushPromise(cfg: Config, s: State, t: nat, rest: Effect, end: State)
    requires Enabled(cfg, s, t, Advance) && s.threads[t].pc.InShard? && s.threads[t].pc.job.Flushing?
    requires Promise(cfg, t, CheckFlushStep(s, t, s.threads[t].pc.job).threads[t], rest, end)
    ensures var n := CheckFlushStep(s, t, s.threads[t].pc.job);
            Promise(cfg, t, s.threads[t], Then(EffectOf(s, n, Advance), rest), end)
  {
    QuietPromise(cfg, s, CheckFlushStep(s, t, s.threads[t].pc.job), t, Advance, rest, end);
  }

  lemma {:induction false} SurplusStep(bin: seq<Addr>, target: nat)
    requires |bin| > target
    ensures Surplus(bin, target) == [bin[|bin| - 1]] + Surplus(bin[..|bin| - 1], target)
    ensures Oldest(bin, target) == Oldest(bin[..|bin| - 1], target)
  {
    assert bin[target..][..|bin| - target - 1] == bin[..|bin| - 1][target..];
  }

  lemma EraseFlushedPromise(cfg: Config, s: State, t: nat, rest: Effect, end: State)
    requires Enabled(cfg, s, t, Advance) && ThreadOk(cfg, s, t)
    requires s.threads[t].pc.Erasing? && s.threads[t].pc.job.Flushing?
    requires Promise(cfg, t, EraseFlushedStep(s, t, s.threads[t].pc.job).threads[t], rest, end)
    ensures var n := EraseFlushedStep(s, t, s.threads[t].pc.job);
            Promise(cfg, t, s.threads[t], Then(EffectOf(s, n, Advance), rest), end)
  {
    hide BinOk, CutDown, CutOff;
    var job, bins := s.threads[t].pc.job, s.threads[t].bins;
    CutOne(bins, job.cls, job.target, job.all);
    ThenRest(EffectOf(s, EraseFlushedStep(s, t, job), Advance), rest);
  }

  /** The newest block goes first. */
  lemma {:induction false} CutOne(bins: seq<seq<Addr>>, c: nat, target: nat, all: bool)
    requires c < |bins| && |bins[c]| > target
    ensures var bin := bins[c];
            var after := bins[c := bin[..|bin| - 1]];
            && CutDown(bins, c, target, all) == CutDown(after, c, target, all)
            && CutOff(bins, c, target, all) == [bin[|bin| - 1]] + CutOff(after, c, target, all)
  {
    SurplusStep(bins[c], target);
    hide *;
    CutOneDown(bins, c, target, all);
    CutOneOff(bins, c, target, all);
  }

  lemma CutOneDown(bins: seq<seq<Addr>>, c: nat, target: nat, all: bool)
    requires c < |bins| && |bins[c]| > 0 && Oldest(bins[c], target) == Oldest(bins[c][..|bins[c]| - 1], target)
    ensures CutDown(bins, c, target, all) == CutDown(bins[c := bins[c][..|bins[c]| - 1]], c, target, all)
  {
    hide Oldest;
  }

  lemma CutOneOff(bins: seq<seq<Addr>>, c: nat, target: nat, all: bool)
    requires c < |bins| && |bins[c]| > 0
    requires var bin := bins[c]; Surplus(bin, target) == [bin[|bin| - 1]] + Surplus(bin[..|bin| - 1], target)
    ensures var bin := bins[c];
            CutOff(bins, c, target, all) == [bin[|bin| - 1]] + CutOff(bins[c := bin[..|bin| - 1]], c, target, all)
  {
    hide Surplus, Surpluses;
    var after := bins[c := bins[c][..|bins[c]| - 1]];
    assert after[c + 1..] == bins[c + 1..];
  }

  lemma AdvancePromise(cfg: Config, s: State, t: nat, rest: Effect, end: State)
    requires Enabled(cfg, s, t, Advance) && ThreadOk(cfg, s, t)
    requires Promise(cfg, t, AdvanceStep(cfg, s, t).threads[t], rest, end)
    requires AdvanceStep(cfg, s, t).threads[t].pc.Idle? ==> end == AdvanceStep(cfg, s, t)
    ensures Promise(cfg, t, s.threads[t], Then(EffectOf(s, AdvanceStep(cfg, s, t), Advance), rest), end)
  {
    var pc := s.threads[t].pc;
    hide ThreadOk, EffectOf, Then, Refills, Flushes, UndoStep, CentralFreeStep, EraseFreedStep, EraseFlushedStep;
    hide PushRefillStep, PushFreedStep, FlushLoopStep, CheckFlushStep, CheckFreeStep;
    match pc
    case InShard(job) =>
      if job.Reusing? {
        ReusePromise(cfg, s, t, rest, end);
      } else if job.Flushing? {
        CheckFlushPromise(cfg, s, t, rest, end);
      }
    case InCentral(job) =>
      if job.Undoing? {
        UndoPromise(cfg, s, t, rest, end);
      } else {
        CentralFreePromise(cfg, s, t, rest, end);
      }
    case Erasing(job) =>
      if job.Freeing? {
        EraseFreedPromise(cfg, s, t, rest, end);
      } else {
        EraseFlushedPromise(cfg, s, t, rest, end);
      }
    case PushRefill(_, _, _, _) => PushRefillPromise(cfg, s, t, rest, end);
    case NoteLive(_) => NoteLivePromise(cfg, s, t, rest, end);
    case PushFreed(_, _) => PushFreedPromise(cfg, s, t, rest, end);
    case FlushLoop(_, _, _) => FlushLoopPromise(cfg, s, t, rest, end);
  }

  lemma StepPromise(cfg: Config, s: State, t: nat, act: Action, rest: Effect, end: State)
    requires Enabled(cfg, s, t, act) && ThreadOk(cfg, s, t) && !Begins(act)
    requires Promise(cfg, t, Step(cfg, s, t, act).threads[t], rest, end)
    requires Step(cfg, s, t, act).threads[t].pc.Idle? ==> end == Step(cfg, s, t, act)
    ensures Promise(cfg, t, s.threads[t], Then(EffectOf(s, Step(cfg, s, t, act), act), rest), end)
  {
    hide ThreadOk, EffectOf, Then, Promise, Refills, Flushes, FetchStep, InsertStep, AdvanceStep;
    match act
    case Fetch(answer) => FetchPromise(cfg, s, t, answer, rest, end);
    case Insert(ok) => InsertPromise(cfg, s, t, ok, rest, end);
    case Advance => AdvancePromise(cfg, s, t, rest, end);
    case LockShard => LockPromise(cfg, s, t, act, rest, end);
    case LockCentral => LockPromise(cfg, s, t, act, rest, end);
  }

  lemma OthersLeave(cfg: Config, s: State, u: nat, act: Action)
    requires Enabled(cfg, s, u, act)
    ensures OnlyThread(s, Step(cfg, s, u, act), u)
  {
    hide Select, Judge, CentralAccepts, Grants, Shard;
    if act.Advance? {
      hide AdvanceStep;
      OthersLeaveAdvance(cfg, s, u);
    }
  }

  lemma OthersLeaveAdvance(cfg: Config, s: State, u: nat)
    requires Enabled(cfg, s, u, Advance)
    ensures OnlyThread(s, AdvanceStep(cfg, s, u), u)
  {
    hide RecordAccepts, CentralAccepts, Shard;
  }

  /** Whatever other threads do, what thread `t` does until it is idle is what its location promises. */
  lemma {:induction false} RunPromise(cfg: Config, s: State, t: nat, run: Run)
    requires ValidConfig(cfg) && Inv(cfg, s) && IsRun(cfg, s, run) && UntilIdle(cfg, s, t, run)
    ensures Promise(cfg, t, s.threads[t], Effects(cfg, s, t, run), After(cfg, s, run))
    decreases |run|
  {
    if |run| > 0 {
      hide Inv, Promise, Enabled, Step, EffectOf, Then, ThreadOk, ValidConfig;
      var u, act := run[0].0, run[0].1;
      var n, end := Step(cfg, s, u, act), After(cfg, s, run);
      StepKeepsInv(cfg, s, u, act);
      RunPromise(cfg, n, t, run[1..]);
      var rest := Effects(cfg, n, t, run[1..]);
      if u == t {
        InFlightContinues(cfg, s, t, act);
        StepPromise(cfg, s, t, act, rest, end);
      } else {
        EnabledThread(cfg, s, u, act);
        OthersLeave(cfg, s, u, act);
        ThenNothing(rest);
      }
    }
  }

  lemma EnabledThread(cfg: Config, s: State, u: nat, act: Action)
    requires Enabled(cfg, s, u, act)
    ensures u < |s.threads|
  {
  }

  lemma InFlightContinues(cfg: Config, s: State, t: nat, act: Action)
    requires Inv(cfg, s) && Enabled(cfg, s, t, act) && !s.threads[t].pc.Idle?
    ensures !Begins(act) && ThreadOk(cfg, s, t)
  {
  }

  // ---- deallocate ----

  /** The bins and the blocks given back once `p` is pushed onto bin `c`: a full bin is cut down to `low`. */
  ghost predicate Cached(cfg: Config, bins: seq<seq<Addr>>, c: nat, p: Addr, given: seq<Addr>, end: seq<seq<Addr>>) {
    && c < |bins| && cfg.low <= cfg.high
    && if |bins[c]| == cfg.high then
         && end == bins[c := (bins[c] + [p])[..cfg.low]]
         && |given| == cfg.high + 1 - cfg.low && given == Backwards((bins[c] + [p])[cfg.low..])
       else
         |bins[c]| < cfg.high && end == bins[c := bins[c] + [p]] && given == []
  }

  /**
   A thread about to push a freed block: onto a bin with room it pushes it and returns nothing to
   central storage; from a bin of `high_watermark` blocks it returns all but the `low_watermark`
   oldest, newest first. No other bin changes.
   */
  lemma PushOutcome(cfg: Config, n: nat, s: State, t: nat, run: Run)
    requires ValidConfig(cfg) && Reachable(cfg, n, s) && IsRun(cfg, s, run) && UntilIdle(cfg, s, t, run)
    requires s.threads[t].pc.PushFreed?
    ensures var pc, eff := s.threads[t].pc, Effects(cfg, s, t, run);
            && t < |After(cfg, s, run).threads|
            && Cached(cfg, s.threads[t].bins, pc.cls, pc.p, eff.given, After(cfg, s, run).threads[t].bins)
            && eff == Nothing.(given := eff.given)
  {
    ReachableInv(cfg, n, s);
    RunPromise(cfg, s, t, run);
    PushedFrom(cfg, s, t, Effects(cfg, s, t, run), After(cfg, s, run));
  }

  lemma PushedFrom(cfg: Config, s: State, t: nat, eff: Effect, end: State)
    requires ValidConfig(cfg) && Inv(cfg, s) && t < |s.threads| && s.threads[t].pc.PushFreed?
    requires Promise(cfg, t, s.threads[t], eff, end)
    ensures var pc := s.threads[t].pc;
            && Cached(cfg, s.threads[t].bins, pc.cls, pc.p, eff.given, end.threads[t].bins)
            && eff == Nothing.(given := eff.given)
  {
    hide LocksOk, RecordOk, BlockOk;
    assert ThreadOk(cfg, s, t);
    assert BinOk(cfg, s, t, s.threads[t].pc.cls);
  }

  /**
   What a free of `p` does, decided by the record it finds in `s`. A pointer without
   an active record, or with a size and alignment the record does not accept, changes nothing.
   A fallback block and a block of another thread go straight back to central storage. A block
   of its own the thread caches. Only an accepted free ends the allocation.
   */
  ghost predicate Freed(cfg: Config, s: State, t: nat, p: Addr, sizing: Sizing, eff: Effect, end: seq<seq<Addr>>)
    requires t < |s.threads|
  {
    var bins := s.threads[t].bins;
    && eff.taken == [] && eff.recorded == []
    && if p !in s.records || !s.records[p].active || !RecordAccepts(cfg, s.records[p], sizing) then
         eff.given == [] && eff.log == [] && end == bins
       else if s.records[p].owner != t || s.records[p].cls.Fallback? then
         eff.given == [p] && eff.log == [Entry(Ended(p), None)] && end == bins
       else
         && Cached(cfg, bins, s.records[p].cls.index, p, eff.given, end)
         && eff.log == [Entry(Ended(p), Some(s.records[p].(active := false)))]
  }

  predicate ToCheck(pc: PC, p: Addr, sizing: Sizing) {
    (pc.WantShard? || pc.InShard?) && pc.job.Freeing? && pc.job.p == p && pc.job.sizing == sizing
  }

  /** The state in which thread `t`, holding the shard mutex of the pointer it frees, looks at its record. */
  function CheckState(cfg: Config, s: State, t: nat, run: Run): Option<State>
    requires IsRun(cfg, s, run)
    decreases |run|
  {
    if |run| == 0 then None
    else if run[0] == (t, Advance) && s.threads[t].pc.InShard? && s.threads[t].pc.job.Freeing? then Some(s)
    else CheckState(cfg, Step(cfg, s, run[0].0, run[0].1), t, run[1..])
  }

  /** The free makes its check, with its bins as they were at the start, and what it does is decided there. */
  ghost predicate FreedInRun(cfg: Config, s: State, t: nat, p: Addr, sizing: Sizing, run: Run)
    requires IsRun(cfg, s, run)
  {
    && CheckState(cfg, s, t, run).Some?
    && var mid, end := CheckState(cfg, s, t, run).value, After(cfg, s, run);
    && t < |s.threads| && t < |mid.threads| && t < |end.threads| && mid.threads[t].bins == s.threads[t].bins
    && Freed(cfg, mid, t, p, sizing, Effects(cfg, s, t, run), end.threads[t].bins)
  }

  /** Every free, from its beginning to its end. */
  lemma FreeOutcome(cfg: Config, n: nat, s: State, t: nat, p: Addr, sizing: Sizing, run: Run)
    requires ValidConfig(cfg) && Reachable(cfg, n, s) && Operation(cfg, s, t, BeginFree(p, sizing), run)
    ensures FreedInRun(cfg, s, t, p, sizing, run)
  {
    ReachableInv(cfg, n, s);
    hide Inv, Freed, EffectOf, Reachable;
    var act := BeginFree(p, sizing);
    var u := Step(cfg, s, t, act);
    StepKeepsInv(cfg, s, t, act);
    FreeFrom(cfg, u, t, p, sizing, run[1..]);
    BeginQuiet(cfg, s, t, act);
    ThenNothing(Effects(cfg, u, t, run[1..]));
  }

  lemma {:induction false} FreeFrom(cfg: Config, s: State, t: nat, p: Addr, sizing: Sizing, run: Run)
    requires ValidConfig(cfg) && Inv(cfg, s) && IsRun(cfg, s, run) && UntilIdle(cfg, s, t, run)
    requires ToCheck(s.threads[t].pc, p, sizing)
    ensures FreedInRun(cfg, s, t, p, sizing, run)
    decreases |run|
  {
    hide Inv, Promise, EffectOf, Freed, Step, Enabled;
    var act, u := run[0].1, Step(cfg, s, run[0].0, run[0].1);
    EnabledThread(cfg, s, run[0].0, act);
    StepKeepsInv(cfg, s, run[0].0, act);
    if run[0] == (t, Advance) && s.threads[t].pc.InShard? {
      RunPromise(cfg, u, t, run[1..]);
      CheckOutcome(cfg, s, t, Effects(cfg, u, t, run[1..]), After(cfg, s, run));
    } else {
      StillToCheck(cfg, s, t, p, sizing, run[0].0, act);
      FreeFrom(cfg, u, t, p, sizing, run[1..]);
      ThenNothing(Effects(cfg, u, t, run[1..]));
    }
  }

  /** Before the check, the thread can only take the mutex. */
  lemma StillToCheck(cfg: Config, s: State, t: nat, p: Addr, sizing: Sizing, u: nat, act: Action)
    requires t < |s.threads| && ToCheck(s.threads[t].pc, p, sizing) && Enabled(cfg, s, u, act)
    requires !(u == t && act == Advance && s.threads[t].pc.InShard?)
    ensures var n := Step(cfg, s, u, act);
            && t < |n.threads| && ToCheck(n.threads[t].pc, p, sizing) && n.threads[t].bins == s.threads[t].bins
            && (u == t ==> EffectOf(s, n, act) == Nothing)
  {
    if u == t {
      assert act == LockShard;
    } else {
      OthersLeave(cfg, s, u, act);
      hide Step;
    }
  }

  lemma CheckOutcome(cfg: Config, s: State, t: nat, rest: Effect, end: State)
    requires ValidConfig(cfg) && t < |s.threads| && Enabled(cfg, s, t, Advance)
    requires s.threads[t].pc.InShard? && s.threads[t].pc.job.Freeing?
    requires var u := Step(cfg, s, t, Advance);
             t < |u.threads| && Inv(cfg, u) && Promise(cfg, t, u.threads[t], rest, end)
    ensures t < |end.threads|
    ensures var eff := Then(EffectOf(s, Step(cfg, s, t, Advance), Advance), rest);
            Freed(cfg, s, t, s.threads[t].pc.job.p, s.threads[t].pc.job.sizing, eff, end.threads[t].bins)
  {
    var u := Step(cfg, s, t, Advance);
    CheckStep(cfg, s, t);
    ThenRest(EffectOf(s, u, Advance), rest);
    hide Inv, Enabled, Step, EffectOf, RecordAccepts, Judge, Refills, Flushes, Cached;
    if u.threads[t].pc.PushFreed? {
      PushedFrom(cfg, u, t, rest, end);
      hide Promise;
    }
  }

  lemma CheckStep(cfg: Config, s: State, t: nat)
    requires Enabled(cfg, s, t, Advance) && s.threads[t].pc.InShard? && s.threads[t].pc.job.Freeing?
    ensures var u := Step(cfg, s, t, Advance);
            var job := s.threads[t].pc.job;
            var eff := EffectOf(s, u, Advance);
            && t < |u.threads| && u.threads[t].bins == s.threads[t].bins && eff == Nothing.(log := eff.log)
            && if job.p !in s.records || !s.records[job.p].active || !RecordAccepts(cfg, s.records[job.p], job.sizing)
               then u.threads[t].pc.Idle? && eff.log == []
               else if s.records[job.p].owner != t || s.records[job.p].cls.Fallback? then
                 u.threads[t].pc == WantCentral(job) && eff.log == []
               else
                 && u.threads[t].pc == PushFreed(job.p, s.records[job.p].cls.index)
                 && eff.log == [Entry(Ended(job.p), Some(s.records[job.p].(active := false)))]
  {
    hide RecordAccepts, Shard;
    var u := CheckFreeStep(cfg, s, t, s.threads[t].pc.job);
    assert u.central == s.central;
    assert u.records.Keys == s.records.Keys;
  }

  /** The blocks of all bins, bin by bin, each newest first. */
  function AllBackwards(bins: seq<seq<Addr>>): seq<Addr> {
    if |bins| == 0 then [] else Backwards(bins[0]) + AllBackwards(bins[1..])
  }

  lemma {:induction false} CutAll(bins: seq<seq<Addr>>)
    ensures Surpluses(bins, 0) == AllBackwards(bins)
    decreases |bins|
  {
    if |bins| > 0 {
      assert bins[0][0..] == bins[0];
      CutAll(bins[1..]);
    }
  }

  /** A release returns every cached block of the thread, and nothing else, to central storage. */
  lemma ReleaseOutcome(cfg: Config, n: nat, s: State, t: nat, run: Run)
    requires ValidConfig(cfg) && Reachable(cfg, n, s) && Operation(cfg, s, t, BeginRelease, run)
    ensures var eff := Effects(cfg, s, t, run);
            && eff == Nothing.(given := AllBackwards(s.threads[t].bins))
            && t < |After(cfg, s, run).threads|
            && var end := After(cfg, s, run).threads[t].bins;
            && |end| == |cfg.classes| && forall c :: 0 <= c < |end| ==> end[c] == []
  {
    var u := BeginRuns(cfg, n, s, t, BeginRelease, run);
    var th := s.threads[t];
    assert u.threads[t] == if |cfg.classes| == 0 then th else th.(pc := FlushLoop(0, 0, true));
    assert |th.bins| == |cfg.classes| && th.pc.Idle?;
    hide ThreadOk, Reachable, Operation, IsRun, Effects, After, Step, Enabled, Refills;
    if |cfg.classes| > 0 {
      CutAll(th.bins);
      hide Surpluses, Backwards;
    }
  }

  /** The first step of an operation has no effect of its own. */
  lemma BeginQuiet(cfg: Config, s: State, t: nat, act: Action)
    requires Enabled(cfg, s, t, act) && Begins(act)
    ensures EffectOf(s, Step(cfg, s, t, act), act) == Nothing
  {
    hide Select;
  }

  lemma BeginRuns(cfg: Config, n: nat, s: State, t: nat, act: Action, run: Run) returns (u: State)
    requires ValidConfig(cfg) && Reachable(cfg, n, s) && Operation(cfg, s, t, act, run)
    ensures t < |s.threads| && u == Step(cfg, s, t, act) && t < |u.threads| && ThreadOk(cfg, s, t)
    ensures Promise(cfg, t, u.threads[t], Effects(cfg, s, t, run), After(cfg, s, run))
  {
    hide Promise, EffectOf, Step, Reachable, Enabled;
    ReachableInv(cfg, n, s);
    EnabledThread(cfg, s, t, act);
    assert ThreadOk(cfg, s, t);
    hide Inv, ThreadOk;
    u := Step(cfg, s, t, act);
    StepKeepsInv(cfg, s, t, act);
    RunPromise(cfg, u, t, run[1..]);
    BeginQuiet(cfg, s, t, act);
    ThenNothing(Effects(cfg, u, t, run[1..]));
  }

  // ---- allocate ----

  /** Where the first step leaves the thread. */
  lemma AllocateBegins(cfg: Config, s: State, t: nat, size: nat, alignment: nat)
    requires Enabled(cfg, s, t, BeginAllocate(size, alignment))
    ensures var u, n, bins :=
              Step(cfg, s, t, BeginAllocate(size, alignment)), Normalized(size), s.threads[t].bins;
            && t < |u.threads| && |bins| == |cfg.classes|
            && match Select(cfg.classes, n, alignment)
               case InvalidAlignment => u == s
               case NoClass =>
                 u.threads[t] == Thread(WantCentral(Fetching(Request(Fallback, n, alignment), 0, None)), bins)
               case Selected(c) =>
                 && c < |bins|
                 && u.threads[t] ==
                      if bins[c] == [] then
                        Thread(WantCentral(Fetching(Request(Class(c), n, alignment), 0, None)), bins)
                      else
                        Thread(WantShard(Reusing(Request(Class(c), n, alignment), bins[c][|bins[c]| - 1])),
                               bins[c := bins[c][..|bins[c]| - 1]])
  {
  }

  /** A class whose bin has a block: the last one is activated for the request and returned, the others stay. */
  lemma AllocateFromBin(cfg: Config, n: nat, s: State, t: nat, size: nat, alignment: nat, c: nat, run: Run)
    requires ValidConfig(cfg) && Reachable(cfg, n, s) && Operation(cfg, s, t, BeginAllocate(size, alignment), run)
    requires Select(cfg.classes, Normalized(size), alignment) == Selected(c)
    requires s.threads[t].bins[c] != []
    ensures var bin := s.threads[t].bins[c];
            var p := bin[|bin| - 1];
            && Effects(cfg, s, t, run) ==
                 Nothing.(log := [Entry(Activated(p), Some(Record(Class(c), Normalized(size), alignment, t, true)))])
            && p in After(cfg, s, run).held
            && t < |After(cfg, s, run).threads|
            && After(cfg, s, run).threads[t].bins == s.threads[t].bins[c := bin[..|bin| - 1]]
  {
    var u := BeginRuns(cfg, n, s, t, BeginAllocate(size, alignment), run);
    AllocateBegins(cfg, s, t, size, alignment);
    hide ThreadOk, Reachable, Operation, IsRun, Effects, After, Step, Enabled, Select, Flushes;
  }

  /**
   A refill for class `c`: the blocks recorded are the first ones fetched, `refill_batch` of them
   unless a central allocation or a record insertion threw. A block fetched and not recorded goes
   straight back. If there is a first one, it is active for the request and returned, and the others are in the
   bin in the order fetched; if not, nothing has changed.
   */
  ghost predicate Refilled(cfg: Config, t: nat, bins: seq<seq<Addr>>, c: nat, size: nat, alignment: nat,
                           eff: Effect, end: State) {
    var got := eff.recorded;
    && t < |end.threads| && c < |bins|
    && got <= eff.taken && |eff.taken| <= |got| + 1 && eff.given == eff.taken[|got|..]
    && (got != eff.taken ==> eff.failed)
    && |got| <= cfg.batch && (|got| == cfg.batch <==> !eff.failed)
    && if |got| == 0 then eff.log == [] && end.threads[t].bins == bins
       else
         && got[0] in end.held
         && eff.log == [Entry(Activated(got[0]), Some(Record(Class(c), size, alignment, t, true)))]
         && end.threads[t].bins == bins[c := got[1..]]
  }

  /** A class whose bin is empty is refilled. */
  lemma AllocateByRefill(cfg: Config, n: nat, s: State, t: nat, size: nat, alignment: nat, c: nat, run: Run)
    requires ValidConfig(cfg) && Reachable(cfg, n, s) && Operation(cfg, s, t, BeginAllocate(size, alignment), run)
    requires Select(cfg.classes, Normalized(size), alignment) == Selected(c)
    requires s.threads[t].bins[c] == []
    ensures Refilled(cfg, t, s.threads[t].bins, c, Normalized(size), alignment, Effects(cfg, s, t, run),
                     After(cfg, s, run))
  {
    var u := BeginRuns(cfg, n, s, t, BeginAllocate(size, alignment), run);
    AllocateBegins(cfg, s, t, size, alignment);
    hide ThreadOk, Reachable, Operation, IsRun, Effects, After, Step, Enabled, Select, Flushes, Refills, Refilled;
    RefillsEmptyBin(cfg, t, s.threads[t].bins, c, Normalized(size), alignment, Effects(cfg, s, t, run),
                    After(cfg, s, run));
  }

  lemma RefillsEmptyBin(cfg: Config, t: nat, bins: seq<seq<Addr>>, c: nat, size: nat, alignment: nat,
                        eff: Effect, end: State)
    requires c < |bins| && bins[c] == []
    requires Refills(cfg, t, bins, Request(Class(c), size, alignment), 0, None, eff, end)
    ensures Refilled(cfg, t, bins, c, size, alignment, eff, end)
  {
    assert |eff.recorded| > 0 ==> [] + eff.recorded[1..] == eff.recorded[1..];
  }

  /** A request no class holds: one block, active for exactly this request, or none if central or recording failed. */
  lemma AllocateDirect(cfg: Config, n: nat, s: State, t: nat, size: nat, alignment: nat, run: Run)
    requires ValidConfig(cfg) && Reachable(cfg, n, s) && Operation(cfg, s, t, BeginAllocate(size, alignment), run)
    requires Select(cfg.classes, Normalized(size), alignment) == NoClass
    ensures var eff := Effects(cfg, s, t, run);
            var got := eff.recorded;
            && t < |After(cfg, s, run).threads| && After(cfg, s, run).threads[t].bins == s.threads[t].bins
            && |eff.taken| <= 1 && eff.given == (if got == [] then eff.taken else [])
            && got == (if eff.failed then [] else eff.taken) && (!eff.failed ==> |got| == 1)
            && (|got| == 0 ==> eff.log == [])
            && (|got| == 1 ==>
                  && got[0] in After(cfg, s, run).held
                  && eff.log ==
                       [Entry(Activated(got[0]), Some(Record(Fallback, Normalized(size), alignment, t, true)))])
  {
    var u := BeginRuns(cfg, n, s, t, BeginAllocate(size, alignment), run);
    AllocateBegins(cfg, s, t, size, alignment);
    hide ThreadOk, Reachable, Operation, IsRun, Effects, After, Step, Enabled, Select, Flushes;
  }

  /** Any other alignment is refused, and nothing happens. */
  lemma AllocateRefused(cfg: Config, n: nat, s: State, t: nat, size: nat, alignment: nat, run: Run)
    requires ValidConfig(cfg) && Reachable(cfg, n, s) && Operation(cfg, s, t, BeginAllocate(size, alignment), run)
    requires !IsPowerOfTwo(alignment)
    ensures After(cfg, s, run) == s && Effects(cfg, s, t, run) == Nothing
  {
    var u := BeginRuns(cfg, n, s, t, BeginAllocate(size, alignment), run);
    assert u == s;
  }

  // ---- the central counters ----

  /** How many blocks central storage handed out, and took back, in the run. */
  ghost function HandedOut(cfg: Config, s: State, run: Run): nat
    requires IsRun(cfg, s, run)
    decreases |run|
  {
    if |run| == 0 then 0
    else
      var n := Step(cfg, s, run[0].0, run[0].1);
      |New(s.central.Keys, n.central.Keys)| + HandedOut(cfg, n, run[1..])
  }

  ghost function TakenBack(cfg: Config, s: State, run: Run): nat
    requires IsRun(cfg, s, run)
    decreases |run|
  {
    if |run| == 0 then 0
    else
      var n := Step(cfg, s, run[0].0, run[0].1);
      |New(n.central.Keys, s.central.Keys)| + TakenBack(cfg, n, run[1..])
  }

  lemma StepCounts(cfg: Config, s: State, t: nat, act: Action)
    requires Enabled(cfg, s, t, act)
    ensures var n := Step(cfg, s, t, act);
            && n.centralAllocations == s.centralAllocations + |New(s.central.Keys, n.central.Keys)|
            && n.centralDeallocations == s.centralDeallocations + |New(n.central.Keys, s.central.Keys)|
  {
    hide Select, Shard, New;
    var n := Step(cfg, s, t, act);
    if act.Advance? {
      hide AdvanceStep;
      AdvanceCounts(cfg, s, t);
    } else if n.central == s.central {
      SameCounts(s, n);
    } else {
      CentralGains(s, n, act.answer.value, n.central[act.answer.value]);
    }
  }

  lemma AdvanceCounts(cfg: Config, s: State, t: nat)
    requires Enabled(cfg, s, t, Advance)
    ensures var n := AdvanceStep(cfg, s, t);
            && n.centralAllocations == s.centralAllocations + |New(s.central.Keys, n.central.Keys)|
            && n.centralDeallocations == s.centralDeallocations + |New(n.central.Keys, s.central.Keys)|
  {
    hide New;
    var n := AdvanceStep(cfg, s, t);
    AdvanceMoves(cfg, s, t);
    hide AdvanceStep, Enabled;
    if n.centralDeallocations == s.centralDeallocations {
      SameCounts(s, n);
    } else {
      CentralLoses(s, n, PointerOf(s.threads[t].pc.job));
    }
  }

  lemma AdvanceMoves(cfg: Config, s: State, t: nat)
    requires Enabled(cfg, s, t, Advance)
    ensures var n := AdvanceStep(cfg, s, t);
            && n.centralAllocations == s.centralAllocations
            && (|| (n.central == s.central && n.centralDeallocations == s.centralDeallocations)
                || (&& HasJob(s.threads[t].pc) && PointerOf(s.threads[t].pc.job) in s.central
                    && n.central == s.central - {PointerOf(s.threads[t].pc.job)}
                    && n.centralDeallocations == s.centralDeallocations + 1))
  {
    hide RecordAccepts, CentralAccepts, Shard;
    if s.threads[t].pc.InCentral? {
      hide ReuseStep, CheckFreeStep, CheckFlushStep, EraseFreedStep, EraseFlushedStep;
      hide PushRefillStep, PushFreedStep, FlushLoopStep, NoteLiveStep;
    } else {
      hide UndoStep, CentralFreeStep;
    }
  }

  lemma SameCounts(s: State, n: State)
    requires n.central == s.central
    ensures New(s.central.Keys, n.central.Keys) == [] && New(n.central.Keys, s.central.Keys) == []
  {
  }

  /** In every run of any clients, the two central counters are the numbers of blocks handed out and taken back. */
  lemma {:induction false} CountersExact(cfg: Config, s: State, run: Run)
    requires IsRun(cfg, s, run)
    ensures After(cfg, s, run).centralAllocations == s.centralAllocations + HandedOut(cfg, s, run)
    ensures After(cfg, s, run).centralDeallocations == s.centralDeallocations + TakenBack(cfg, s, run)
    decreases |run|
  {
    hide Enabled, Step, New;
    if |run| > 0 {
      StepCounts(cfg, s, run[0].0, run[0].1);
      CountersExact(cfg, Step(cfg, s, run[0].0, run[0].1), run[1..]);
    }
  }
}
