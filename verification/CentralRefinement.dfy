/**
 The thread cache over the real central allocator. The protocol model keeps central storage
 as a map of addresses; here the segregated allocator takes its place step by step, and the
 memory clients of the thread cache hold is shown to be disjoint, end to end.
 */
module CentralRefinement {
  import opened Bits
  import opened SizeClasses
  import opened Provider
  import opened ChunkModel
  import opened ManagerModel
  import opened SegregatedModel
  import opened SegregatedSnapshot
  import opened SegregatedProofs
  import T = ThreadCacheModel
  import I = ThreadCacheInvariant
  import S = ThreadCacheSafety

  // ---- one operation of the central allocator ----

  function KindFor(classes: seq<nat>, direct: bool, size: nat, alignment: nat): T.Kind {
    var choice := Select(classes, size, alignment);
    if direct || !choice.Selected? then T.Direct(size, alignment) else T.Pooled(choice.index)
  }

  /** The map of handed-out addresses the protocol keeps, read off the segregated allocator. */
  function Sees(g: Seg): map<Addr, T.Kind> {
    map p | p in g.live :: KindFor(g.classes, p in g.fallback, g.live[p].size, g.live[p].alignment)
  }

  ghost predicate Sound(g: Seg, classes: seq<nat>) {
    SegOk(g) && Ready(g) && g.classes == classes
  }

  function Free(g: Seg, p: Addr, sizing: T.Sizing): (Seg, FreeOutcome)
    requires Ready(g)
  {
    match sizing
    case Unsized => SegregatedModel.Deallocate(g, p)
    case Sized(size, alignment) => DeallocateSized(g, p, size, alignment)
  }

  lemma DirectsAreLive(g: Seg)
    requires SegOk(g)
    ensures forall p :: p in g.fallback ==> p in g.live
  {
    assert LiveOk(View(g));
  }

  lemma SeesAdd(g: Seg, n: Seg, p: Addr, size: nat, alignment: nat)
    requires n.classes == g.classes && n.live == g.live[p := SegregatedModel.Request(size, alignment)]
    requires forall q :: q != p ==> (q in n.fallback <==> q in g.fallback)
    requires p in n.fallback <==> !Select(g.classes, size, alignment).Selected?
    ensures Sees(n) == Sees(g)[p := KindFor(g.classes, false, size, alignment)]
  {
    hide Select;
  }

  lemma SeesDrop(g: Seg, n: Seg, p: Addr)
    requires n.classes == g.classes && n.live == g.live - {p}
    requires forall q :: q != p ==> (q in n.fallback <==> q in g.fallback)
    ensures Sees(n) == Sees(g) - {p}
  {
    hide Select, KindFor;
  }

  /** What an allocation does to the map the protocol sees: it adds one new address of the right kind, or nothing. */
  lemma AllocateRefines(g: Seg, size: nat, alignment: nat, supply: Supply)
    requires Sound(g, g.classes) && Supplies(g, size, alignment, supply) && size >= 1
    ensures var (n, out) := SegregatedModel.Allocate(g, size, alignment, supply);
            && Sound(n, g.classes)
            && (if out.Pointer?
                then out.p != 0 && out.p !in g.live
                    && Sees(n) == Sees(g)[out.p := KindFor(g.classes, false, size, alignment)]
                else n == g)
            && AllocatesExactly(g, size, alignment, supply, n, out)
  {
    var (n, out) := SegregatedModel.Allocate(g, size, alignment, supply);
    hide AllocatesExactly;
    AllocateOutcome(g, size, alignment, supply);
    hide SegOk, Ready, Supplies, Select, SegregatedModel.Allocate, Sees, KindFor;
    AllocateKeepsOk(g, size, alignment, supply);
    AllocateFrame(g, size, alignment, supply);
    ReadyOk(n);
    if out.Pointer? {
      FreeOfLiveSucceeds(n, out.p);
      DirectsAreLive(g);
      SeesAdd(g, n, out.p, size, alignment);
    }
  }

  lemma AllocateFrame(g: Seg, size: nat, alignment: nat, supply: Supply)
    requires Ready(g) && size >= 1
    ensures var (n, out) := SegregatedModel.Allocate(g, size, alignment, supply);
            && n.classes == g.classes
            && (out.Pointer? ==>
                  && (Select(g.classes, size, alignment).Selected? ==> n.fallback == g.fallback)
                  && (Select(g.classes, size, alignment).NoClass? ==> out.p in n.fallback)
                  && forall q :: q != out.p ==> (q in n.fallback <==> q in g.fallback))
  {
    hide Select, ManagerModel.Allocate, GrowLedger, Ready;
  }

  lemma FreeFrame(g: Seg, p: Addr, sizing: T.Sizing)
    requires SegOk(g) && Ready(g)
    ensures var (n, out) := Free(g, p, sizing);
            && SegOk(n)
            && (if out == Done
                then n.classes == g.classes && p in g.live && n.live == g.live - {p}
                     && forall q :: q != p ==> (q in n.fallback <==> q in g.fallback)
                else n == g)
  {
    hide SegOk, Ready, Select;
    DeallocateKeepsOk(g, p);
    UnsizedFrame(g, p);
    hide SegregatedModel.Deallocate;
  }

  lemma UnsizedFrame(g: Seg, p: Addr)
    requires Ready(g)
    ensures var n := SegregatedModel.Deallocate(g, p).0;
            n.classes == g.classes && forall q :: q != p ==> (q in n.fallback <==> q in g.fallback)
  {
    hide ManagerModel.Deallocate, GiveBack;
  }

  /** What a free does to it: it takes a handed-out address away exactly when the protocol says it is accepted. */
  lemma FreeRefines(cfg: T.Config, g: Seg, p: Addr, sizing: T.Sizing)
    requires Sound(g, cfg.classes)
    ensures var (n, out) := Free(g, p, sizing);
            && Sound(n, cfg.classes)
            && (out == Done <==> p in Sees(g) && T.CentralAccepts(cfg, Sees(g)[p], sizing))
            && (if out == Done then Sees(n) == Sees(g) - {p} else n == g)
  {
    var (n, out) := Free(g, p, sizing);
    assert p in Sees(g) <==> p in g.live;
    hide SegOk, Ready, Sees, T.CentralAccepts, Free;
    FreeFrame(g, p, sizing);
    if p in g.live {
      FreeAccepted(cfg, g, p, sizing);
    }
    ReadyOk(n);
    if out == Done {
      SeesDrop(g, n, p);
    }
  }

  lemma FreeAccepted(cfg: T.Config, g: Seg, p: Addr, sizing: T.Sizing)
    requires Sound(g, cfg.classes) && p in g.live
    ensures Free(g, p, sizing).1 == Done <==> T.CentralAccepts(cfg, Sees(g)[p], sizing)
  {
    hide Select, SegregatedModel.Deallocate, SegOk, Ready;
    if p !in g.fallback {
      KindOfLive(g, p);
    }
    FreeOfLiveSucceeds(g, p);
    if sizing.Sized? {
      SizedFreeExact(g, p, sizing.size, sizing.alignment);
    }
  }

  /** A live address that is not a direct allocation has a class. */
  lemma KindOfLive(g: Seg, p: Addr)
    requires SegOk(g) && p in g.live && p !in g.fallback
    ensures Select(g.classes, g.live[p].size, g.live[p].alignment).Selected?
  {
    hide Select;
    HomeOf(g, p);
    OwningClassOfPooled(g, p, g.live[p]);
  }

  // ---- the protocol and the allocator in step ----

  function Kinds(central: map<Addr, T.Block>): map<Addr, T.Kind> {
    map p | p in central :: central[p].kind
  }

  /** The protocol's central map is what the segregated allocator has handed out. */
  ghost predicate Linked(cfg: T.Config, s: T.State, g: Seg) {
    Sound(g, cfg.classes) && Kinds(s.central) == Sees(g)
  }

  /** A step of thread `t`, with the provider's answer should the central allocator need one. */
  datatype Move = Move(t: nat, act: T.Action, supply: Supply)

  function AnswerOf(out: AllocOutcome): Option<Addr> {
    if out.Pointer? then Some(out.p) else None
  }

  /** The step is possible, and a fetch is answered by the real central allocator. */
  ghost predicate Possible(cfg: T.Config, s: T.State, g: Seg, m: Move) {
    && Ready(g)
    && m.t < |s.threads|
    && (m.act.Fetch? ==>
          && s.threads[m.t].pc.InCentral? && s.threads[m.t].pc.job.Fetching?
          && var req := s.threads[m.t].pc.job.req;
          && Supplies(g, req.size, req.alignment, m.supply)
          && m.act.answer == AnswerOf(SegregatedModel.Allocate(g, req.size, req.alignment, m.supply).1))
    && (!m.act.Fetch? ==> T.Enabled(cfg, s, m.t, m.act))
    && |s.threads[m.t].bins| == |cfg.classes|
  }

  /** The address and sizing a thread inside the central mutex is about to free. */
  function SizingOf(job: T.Job): T.Sizing {
    match job
    case Undoing(req, _, _, _) => T.Sized(req.size, req.alignment)
    case Freeing(_, sizing, _) => sizing
    case _ => T.Unsized
  }

  /** The central allocator's own state after the step. */
  function CentralAfter(s: T.State, g: Seg, m: Move): Seg
    requires Ready(g) && m.t < |s.threads|
    requires m.act.Fetch? ==> s.threads[m.t].pc.InCentral? && s.threads[m.t].pc.job.Fetching?
  {
    var pc := s.threads[m.t].pc;
    if m.act.Fetch? then SegregatedModel.Allocate(g, pc.job.req.size, pc.job.req.alignment, m.supply).0
    else if m.act.Advance? && pc.InCentral? then Free(g, T.PointerOf(pc.job), SizingOf(pc.job)).0
    else g
  }

  lemma SameKeys(s: T.State, g: Seg)
    requires Kinds(s.central) == Sees(g)
    ensures forall p :: p in s.central <==> p in g.live
  {
    assert forall p :: p in s.central <==> p in Kinds(s.central);
    assert forall p :: p in g.live <==> p in Sees(g);
  }

  lemma RequestKind(cfg: T.Config, req: T.Request)
    requires I.RequestOk(cfg, req)
    ensures req.size >= 1 && KindFor(cfg.classes, false, req.size, req.alignment) == T.KindOf(req)
  {
  }

  lemma KindsAdd(central: map<Addr, T.Block>, p: Addr, b: T.Block)
    ensures Kinds(central[p := b]) == Kinds(central)[p := b.kind]
  {
  }

  lemma KindsDrop(central: map<Addr, T.Block>, p: Addr)
    ensures Kinds(central - {p}) == Kinds(central) - {p}
  {
  }

  /** All the bytes reserved for a live address: its block, or its direct allocation. */
  function Extent(g: Seg, p: Addr): Region
    requires p in Sees(g)
  {
    T.Extent(g.classes, Sees(g)[p], p)
  }

  /** Where a live address lives: its extent is exactly one direct allocation or one block of its class. */
  lemma ExtentIs(g: Seg, p: Addr)
    requires SegOk(g) && p in Sees(g)
    ensures Sees(g)[p].Direct? ==> p in g.fallback && Extent(g, p) == LeasedRegion(p, g.fallback[p])
    ensures Sees(g)[p].Direct? ==> g.fallback[p] == Lease(Sees(g)[p].size, Sees(g)[p].alignment)
    ensures Sees(g)[p].Pooled? ==>
              exists x: Placed, k: nat :: InUseAt(View(g), x, k, p) && x.0 == Sees(g)[p].index < |g.classes|
                  && Extent(g, p) == x.1.Block(k)
  {
    hide Select;
    HomeOf(g, p);
    if p !in g.fallback {
      KindOfLive(g, p);
      var x, k := PooledRegion(View(g), p, g.live[p]);
      assert PlacedOk(View(g), x);
      hide SegOk;
      assert InUseAt(View(g), x, k, p) && x.0 == Sees(g)[p].index < |g.classes| && Extent(g, p) == x.1.Block(k);
    }
  }

  lemma ExtentsApart(g: Seg, p: Addr, q: Addr)
    requires SegOk(g) && p in Sees(g) && q in Sees(g) && p != q
    ensures Apart(Extent(g, p), Extent(g, q))
  {
    ExtentIs(g, p);
    ExtentIs(g, q);
    var v := View(g);
    assert LedgerOk(v) && ChunksOk(v);
    hide SegOk, Sees, Extent, LedgerOk, ChunksOk;
    if Sees(g)[p].Direct? {
      if Sees(g)[q].Direct? {
        DirectsApart(v, p, q);
      } else {
        var y: Placed, l: nat :| InUseAt(v, y, l, q) && Extent(g, q) == y.1.Block(l);
        assert InUseAt(v, y, l, q);
        BlockAndDirectApart(v, y, l, p);
      }
    } else {
      var x: Placed, k: nat :| InUseAt(v, x, k, p) && Extent(g, p) == x.1.Block(k);
      assert InUseAt(v, x, k, p);
      if Sees(g)[q].Direct? {
        BlockAndDirectApart(v, x, k, q);
      } else {
        var y: Placed, l: nat :| InUseAt(v, y, l, q) && Extent(g, q) == y.1.Block(l);
        assert InUseAt(v, y, l, q);
        BlocksOfChunksApart(v, x, k, y, l);
      }
    }
  }

  lemma DirectsApart(v: Snapshot, p: Addr, q: Addr)
    requires LedgerOk(v) && p in v.fallback && q in v.fallback && p != q
    ensures Apart(LeasedRegion(p, v.fallback[p]), LeasedRegion(q, v.fallback[q]))
  {
  }

  /** Every live address lies where a block of its kind can. */
  lemma LiesWell(g: Seg, p: Addr)
    requires SegOk(g) && p in Sees(g)
    ensures T.Lies(g.classes, Sees(g)[p], p)
  {
    ExtentIs(g, p);
    var v := View(g);
    assert LedgerOk(v) && ChunksOk(v);
    hide SegOk, Sees, LedgerOk, ChunksOk, PlacedOk, T.Lies;
    if Sees(g)[p].Direct? {
      DirectLies(v, p, g.fallback[p]);
    } else {
      var x: Placed, k: nat :| InUseAt(v, x, k, p) && x.0 == Sees(g)[p].index < |g.classes|;
      assert InUseAt(v, x, k, p);
      BlockLies(v, x, k, p);
    }
  }

  lemma DirectLies(v: Snapshot, p: Addr, lease: Lease)
    requires LedgerOk(v) && p in v.fallback && v.fallback[p] == lease
    ensures T.Lies(v.classes, T.Direct(lease.bytes, lease.alignment), p)
  {
    assert LeaseOk(p, v.out[p]);
  }

  lemma BlockLies(v: Snapshot, x: Placed, k: nat, p: Addr)
    requires ChunksOk(v) && InUseAt(v, x, k, p)
    ensures T.Lies(v.classes, T.Pooled(x.0), p)
  {
    assert PlacedOk(v, x);
    AlignedBlock(x.1, k);
    BlockInside(x.1, k);
  }

  /** What the real allocator adds to the map is a block the protocol allows to be granted. */
  lemma NewIsGranted(s: T.State, g: Seg, n: Seg, p: Addr, k: T.Kind)
    requires SegOk(n) && n.classes == g.classes && Kinds(s.central) == Sees(g) && p !in g.live
    requires Sees(n) == Sees(g)[p := k]
    ensures T.Grants(g.classes, s.central, k, p)
  {
    hide SegOk, Sees, Kinds, T.Extent, T.Lies;
    SameKeys(s, g);
    LiesWell(n, p);
    forall q | q in s.central
      ensures Apart(T.Extent(g.classes, s.central[q].kind, q), T.Extent(g.classes, k, p))
    {
      KindAt(s, g, q);
      ExtentsApart(n, q, p);
    }
  }

  lemma KindAt(s: T.State, g: Seg, q: Addr)
    requires Kinds(s.central) == Sees(g) && q in s.central
    ensures q in Sees(g) && Sees(g)[q] == s.central[q].kind
  {
    assert q in Kinds(s.central);
  }

  /** A fetch answered by the real allocator is one the protocol allows, and the two stay in step. */
  lemma FetchLinked(cfg: T.Config, s: T.State, g: Seg, t: nat, job: T.Job, supply: Supply)
    requires Linked(cfg, s, g) && t < |s.threads| && job.Fetching? && I.RequestOk(cfg, job.req)
    requires Ready(g) && Supplies(g, job.req.size, job.req.alignment, supply)
    ensures var (n, out) := SegregatedModel.Allocate(g, job.req.size, job.req.alignment, supply);
            && (out.Pointer? ==> T.Grants(cfg.classes, s.central, T.KindOf(job.req), out.p))
            && Linked(cfg, T.FetchStep(s, t, job, AnswerOf(out)), n)
  {
    hide I.RequestOk, SegOk, Ready, Supplies, SegregatedModel.Allocate, Sees, KindFor;
    var req := job.req;
    RequestKind(cfg, req);
    AllocateRefines(g, req.size, req.alignment, supply);
    var (n, out) := SegregatedModel.Allocate(g, req.size, req.alignment, supply);
    if out.Pointer? {
      NewIsGranted(s, g, n, out.p, T.KindOf(req));
      hide Sound, Kinds, T.Grants;
      KindsAdd(s.central, out.p, T.Block(T.KindOf(req), t));
    }
  }

  /**
   A free the protocol performs under the central mutex is accepted by the real allocator exactly
   when the protocol says so.
   */
  lemma FreeLinked(cfg: T.Config, s: T.State, g: Seg, t: nat, job: T.Job)
    requires Linked(cfg, s, g) && t < |s.threads| && (job.Undoing? || job.Freeing? || job.Flushing?)
    ensures Ready(g)
    ensures var (n, out) := Free(g, job.p, SizingOf(job));
            && (out == Done <==> job.p in s.central && T.CentralAccepts(cfg, s.central[job.p].kind, SizingOf(job)))
            && Linked(cfg, if job.Undoing? then T.UndoStep(cfg, s, t, job) else T.CentralFreeStep(cfg, s, t, job), n)
  {
    hide SegOk, Ready, Sees, Free, T.CentralAccepts;
    FreeRefines(cfg, g, job.p, SizingOf(job));
    assert job.p in Kinds(s.central) <==> job.p in s.central;
    KindsDrop(s.central, job.p);
    hide Sound, Kinds;
  }

  lemma CentralUntouched(cfg: T.Config, s: T.State, t: nat, act: T.Action)
    requires T.Enabled(cfg, s, t, act) && !act.Fetch? && !(act.Advance? && s.threads[t].pc.InCentral?)
    ensures T.Step(cfg, s, t, act).central == s.central
  {
    hide T.Enabled, T.Step;
    S.CentralMoves(cfg, s, t, act);
  }

  lemma FetchEnabled(cfg: T.Config, s: T.State, g: Seg, m: Move)
    requires Possible(cfg, s, g, m) && m.act.Fetch?
    requires m.act.answer.Some? ==>
               T.Grants(cfg.classes, s.central, T.KindOf(s.threads[m.t].pc.job.req), m.act.answer.value)
    ensures T.Enabled(cfg, s, m.t, m.act)
  {
  }

  lemma FetchRequest(cfg: T.Config, s: T.State, t: nat)
    requires I.Inv(cfg, s) && t < |s.threads| && s.threads[t].pc.InCentral? && s.threads[t].pc.job.Fetching?
    ensures I.RequestOk(cfg, s.threads[t].pc.job.req)
  {
    assert I.ThreadOk(cfg, s, t);
  }

  lemma CentralJob(cfg: T.Config, s: T.State, t: nat)
    requires I.Inv(cfg, s) && t < |s.threads| && s.threads[t].pc.InCentral?
    ensures var job := s.threads[t].pc.job; job.Fetching? || job.Undoing? || job.Freeing? || job.Flushing?
  {
    assert I.ThreadOk(cfg, s, t);
  }

  /** Every step of the protocol, with the real allocator behind it. */
  lemma StepLinked(cfg: T.Config, s: T.State, g: Seg, m: Move)
    requires I.Inv(cfg, s) && Linked(cfg, s, g) && Possible(cfg, s, g, m)
    ensures T.Enabled(cfg, s, m.t, m.act)
    ensures Linked(cfg, T.Step(cfg, s, m.t, m.act), CentralAfter(s, g, m))
  {
    var pc := s.threads[m.t].pc;
    if m.act.Fetch? {
      FetchRequest(cfg, s, m.t);
      hide I.Inv, I.RequestOk, SegOk, Supplies, SegregatedModel.Allocate, T.FetchStep;
      FetchLinked(cfg, s, g, m.t, pc.job, m.supply);
      FetchEnabled(cfg, s, g, m);
      hide Linked;
    } else if m.act.Advance? && pc.InCentral? {
      CentralJob(cfg, s, m.t);
      hide I.Inv, T.UndoStep, T.CentralFreeStep, Free;
      FreeLinked(cfg, s, g, m.t, pc.job);
      hide Linked;
    } else {
      hide I.Inv, T.Step, T.Enabled;
      CentralUntouched(cfg, s, m.t, m.act);
    }
  }

  // ---- joint runs of disciplined clients ----

  ghost predicate IsJointRun(cfg: T.Config, s: T.State, g: Seg, moves: seq<Move>)
    decreases |moves|
  {
    |moves| == 0 ||
    (&& Possible(cfg, s, g, moves[0]) && T.Disciplined(s, moves[0].act) && T.Enabled(cfg, s, moves[0].t, moves[0].act)
     && IsJointRun(cfg, T.Step(cfg, s, moves[0].t, moves[0].act), CentralAfter(s, g, moves[0]), moves[1..]))
  }

  ghost function JointAfter(cfg: T.Config, s: T.State, g: Seg, moves: seq<Move>): (T.State, Seg)
    requires IsJointRun(cfg, s, g, moves)
    decreases |moves|
  {
    if |moves| == 0 then (s, g)
    else JointAfter(cfg, T.Step(cfg, s, moves[0].t, moves[0].act), CentralAfter(s, g, moves[0]), moves[1..])
  }

  ghost predicate JointOk(cfg: T.Config, s: T.State, g: Seg) {
    && I.Inv(cfg, s) && S.Owned(s) && S.Honest(s, |s.threads|) && S.RequestsOk(cfg, s)
    && Linked(cfg, s, g)
  }

  lemma JointStep(cfg: T.Config, s: T.State, g: Seg, m: Move)
    requires T.ValidConfig(cfg) && JointOk(cfg, s, g) && Possible(cfg, s, g, m) && T.Disciplined(s, m.act)
    ensures T.Enabled(cfg, s, m.t, m.act)
    ensures JointOk(cfg, T.Step(cfg, s, m.t, m.act), CentralAfter(s, g, m))
  {
    assert I.ThreadOk(cfg, s, m.t) && I.LocksOk(s) && S.Lawful(s.threads[m.t].pc);
    hide I.Inv, I.ThreadOk, I.LocksOk, S.Owned, S.Keeps, S.Handover, S.RequestsOk, S.Honest, Linked, T.Enabled, T.Step;
    StepLinked(cfg, s, g, m);
    S.HonestStep(cfg, s, m.t, m.act, |s.threads|);
    S.StepHandover(cfg, s, m.t, m.act);
    S.HandoverKeepsOwned(s, T.Step(cfg, s, m.t, m.act), m.t, S.Focus(s, m.t, m.act));
    I.StepKeepsInv(cfg, s, m.t, m.act);
    S.StepKeepsRequests(cfg, s, m.t, m.act);
  }

  lemma {:induction false} JointRunOk(cfg: T.Config, s: T.State, g: Seg, moves: seq<Move>)
    requires T.ValidConfig(cfg) && JointOk(cfg, s, g) && IsJointRun(cfg, s, g, moves)
    ensures var (n, h) := JointAfter(cfg, s, g, moves); JointOk(cfg, n, h)
    decreases |moves|
  {
    if |moves| > 0 {
      hide JointOk, Possible, T.Enabled, T.Step, CentralAfter;
      JointStep(cfg, s, g, moves[0]);
      JointRunOk(cfg, T.Step(cfg, s, moves[0].t, moves[0].act), CentralAfter(s, g, moves[0]), moves[1..]);
    }
  }

  /** A held address is recorded as live, and central storage has handed it out for that record. */
  lemma HeldIsCentral(cfg: T.Config, s: T.State, p: Addr)
    requires I.Inv(cfg, s) && S.Owned(s) && S.Honest(s, |s.threads|) && p in s.held
    ensures p in s.records && s.records[p].active && p in s.central && I.Matches(s.records[p], s.central[p].kind)
  {
    assert S.IsActive(s, p);
    assert I.RecordOk(cfg, s, p);
    if I.PendingErase(s, p) {
      var u := s.shardLock[T.Shard(p)];
      EraserClaims(cfg, s, u);
    }
  }

  /** A block whose record is about to go is being freed by a client, or is an inactive one being flushed. */
  lemma EraserClaims(cfg: T.Config, s: T.State, u: nat)
    requires I.Inv(cfg, s) && u < |s.threads| && s.threads[u].pc.Erasing? && S.Lawful(s.threads[u].pc)
    ensures var p := T.PointerOf(s.threads[u].pc.job);
            S.Claims(s.threads[u].pc, p) || (p in s.records && !s.records[p].active)
  {
    assert I.ThreadOk(cfg, s, u);
    var job := s.threads[u].pc.job;
    if job.Flushing? {
      assert I.BinOk(cfg, s, u, job.cls);
    }
  }

  /** What a client last asked for at a held address fits its extent and is aligned as requested. */
  lemma HeldFits(cfg: T.Config, s: T.State, g: Seg, p: Addr)
    requires T.ValidConfig(cfg) && JointOk(cfg, s, g) && p in s.held
    ensures p in s.records && p in Sees(g)
    ensures var r := s.records[p];
            && r.size <= Extent(g, p).size && Extent(g, p).start == p
            && r.alignment != 0 && p % r.alignment == 0
  {
    HeldIsCentral(cfg, s, p);
    var r := s.records[p];
    assert p in Kinds(s.central) && Sees(g)[p] == s.central[p].kind;
    assert I.RequestOk(cfg, S.Asked(r));
    ExtentIs(g, p);
    hide I.Inv, S.Owned, S.RequestsOk;
    if r.cls.Class? {
      var x: Placed, k: nat :| InUseAt(View(g), x, k, p) && x.0 == r.cls.index < |g.classes|;
      assert PlacedOk(View(g), x);
      hide SegOk, Sees, Extent;
      BlockServes(View(g), x, k, p, cfg.classes, r.size, r.alignment);
    } else {
      assert LeaseOk(p, View(g).out[p]);
    }
  }

  /** A block of the selected class is large enough for the request, and aligned for it. */
  lemma BlockServes(v: Snapshot, x: Placed, k: nat, p: Addr, classes: seq<nat>, size: nat, alignment: nat)
    requires ValidClasses(classes) && v.classes == classes && PlacedOk(v, x) && InUseAt(v, x, k, p)
    requires Select(classes, size, alignment) == Selected(x.0)
    ensures size <= classes[x.0] && alignment != 0 && p % alignment == 0
  {
    AlignedBlock(x.1, k);
    SelectIsLeast(classes, size, alignment);
    ModTransitive(p, alignment, classes[x.0]);
  }

  /**
   End to end. Take any run of the thread cache by disciplined clients, every thread
   interleaving freely, over the real segregated allocator growing, reclaiming, falling back
   and failing on any provider that keeps its contract. At every moment any two addresses
   held by clients are aligned as requested and their requested bytes do not overlap.
   */
  lemma HeldMemoryDisjoint(cfg: T.Config, threads: nat, g: Seg, moves: seq<Move>, p: Addr, q: Addr)
    requires T.ValidConfig(cfg) && Sound(g, cfg.classes) && g.live == map[]
    requires IsJointRun(cfg, T.Init(cfg, threads), g, moves)
    requires var s := JointAfter(cfg, T.Init(cfg, threads), g, moves).0; p in s.held && q in s.held && p != q
    ensures var s := JointAfter(cfg, T.Init(cfg, threads), g, moves).0;
            && p in s.records && q in s.records
            && s.records[p].alignment != 0 && p % s.records[p].alignment == 0
            && Apart(Region(p, s.records[p].size), Region(q, s.records[q].size))
  {
    var start := T.Init(cfg, threads);
    hide JointOk, SegOk, Ready, T.Init;
    JointStart(cfg, threads, g);
    JointRunOk(cfg, start, g, moves);
    var (s, h) := JointAfter(cfg, start, g, moves);
    HeldFits(cfg, s, h, p);
    HeldFits(cfg, s, h, q);
    JointSegOk(cfg, s, h);
    ExtentsApart(h, p, q);
  }

  lemma JointStart(cfg: T.Config, threads: nat, g: Seg)
    requires T.ValidConfig(cfg) && Sound(g, cfg.classes) && g.live == map[]
    ensures JointOk(cfg, T.Init(cfg, threads), g)
  {
    var start := T.Init(cfg, threads);
    I.InitInv(cfg, threads);
    hide I.Inv, SegOk, Ready;
    assert Kinds(start.central) == Sees(g) == map[];
  }

  lemma JointSegOk(cfg: T.Config, s: T.State, g: Seg)
    requires JointOk(cfg, s, g)
    ensures SegOk(g)
  {
  }
}
