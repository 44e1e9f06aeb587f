/**
 Stray frees over the real central allocator: what is harmless in the protocol is harmless here,
 and wherever the real allocator would next put a block, a stray free of that address can still
 bring `live_allocations` below zero.
 */
module CentralUnderflow {
  import opened SizeClasses
  import opened Provider
  import opened ManagerModel
  import opened SegregatedModel
  import opened SegregatedProofs
  import opened CentralRefinement
  import T = ThreadCacheModel
  import I = ThreadCacheInvariant
  import S = ThreadCacheSafety
  import N = ThreadCacheCounters
  import D = ThreadCacheDiscipline

  // ---- joint runs are runs of the protocol ----

  function Projected(moves: seq<Move>): T.Run {
    seq(|moves|, i requires 0 <= i < |moves| => (moves[i].t, moves[i].act))
  }

  lemma {:induction false} JointProjects(cfg: T.Config, s: T.State, g: Seg, moves: seq<Move>)
    requires IsJointRun(cfg, s, g, moves)
    ensures var run := Projected(moves);
            && T.IsDisciplinedRun(cfg, s, run) && T.IsRun(cfg, s, run)
            && T.After(cfg, s, run) == JointAfter(cfg, s, g, moves).0
    decreases |moves|
  {
    hide T.Enabled, T.Step, T.Disciplined, CentralAfter, Ready, Supplies, SegregatedModel.Allocate;
    if |moves| > 0 {
      var m := moves[0];
      assert Projected(moves)[1..] == Projected(moves[1..]) && Projected(moves)[0] == (m.t, m.act);
      JointProjects(cfg, T.Step(cfg, s, m.t, m.act), CentralAfter(s, g, m), moves[1..]);
    }
  }

  /** A harmless free stays harmless over the real allocator, however it and the provider behave. */
  lemma HarmlessOverReal(cfg: T.Config, n: nat, s: T.State, t: nat, p: Addr, sizing: T.Sizing, g: Seg, moves: seq<Move>)
    requires T.ValidConfig(cfg) && S.ReachableByDiscipline(cfg, n, s) && T.Enabled(cfg, s, t, T.BeginFree(p, sizing))
    requires D.Harmless(cfg, s, t, p, sizing) && IsJointRun(cfg, T.Step(cfg, s, t, T.BeginFree(p, sizing)), g, moves)
    ensures JointAfter(cfg, T.Step(cfg, s, t, T.BeginFree(p, sizing)), g, moves).0.live >= 0
  {
    hide T.Enabled, T.Step, S.ReachableByDiscipline, D.Harmless;
    D.StrayFreeExact(cfg, n, s, t, p, sizing);
    JointProjects(cfg, T.Step(cfg, s, t, T.BeginFree(p, sizing)), g, moves);
  }

  // ---- building a joint run ----

  /** A disciplined joint run leads from one pair of states to the other. */
  ghost predicate Leads(cfg: T.Config, s0: T.State, g0: Seg, s: T.State, g: Seg) {
    exists moves :: IsJointRun(cfg, s0, g0, moves) && JointAfter(cfg, s0, g0, moves) == (s, g)
  }

  lemma {:induction false} AppendMove(cfg: T.Config, s0: T.State, g0: Seg, moves: seq<Move>, m: Move)
    requires IsJointRun(cfg, s0, g0, moves)
    requires var (s, g) := JointAfter(cfg, s0, g0, moves);
             Possible(cfg, s, g, m) && T.Disciplined(s, m.act) && T.Enabled(cfg, s, m.t, m.act)
    ensures IsJointRun(cfg, s0, g0, moves + [m])
    ensures var (s, g) := JointAfter(cfg, s0, g0, moves);
            JointAfter(cfg, s0, g0, moves + [m]) == (T.Step(cfg, s, m.t, m.act), CentralAfter(s, g, m))
    decreases |moves|
  {
    hide T.Enabled, T.Step, T.Disciplined, CentralAfter, Ready, Supplies, SegregatedModel.Allocate;
    var longer := moves + [m];
    if |moves| == 0 {
      assert longer[1..] == [];
    } else {
      assert longer[1..] == moves[1..] + [m];
      AppendMove(cfg, T.Step(cfg, s0, moves[0].t, moves[0].act), CentralAfter(s0, g0, moves[0]), moves[1..], m);
    }
  }

  lemma LeadsOn(cfg: T.Config, s0: T.State, g0: Seg, s: T.State, g: Seg, m: Move)
    requires Leads(cfg, s0, g0, s, g)
    requires Possible(cfg, s, g, m) && T.Disciplined(s, m.act) && T.Enabled(cfg, s, m.t, m.act)
    ensures Leads(cfg, s0, g0, T.Step(cfg, s, m.t, m.act), CentralAfter(s, g, m))
  {
    hide T.Enabled, T.Step, T.Disciplined, Possible, CentralAfter;
    var moves :| IsJointRun(cfg, s0, g0, moves) && JointAfter(cfg, s0, g0, moves) == (s, g);
    AppendMove(cfg, s0, g0, moves, m);
    assert IsJointRun(cfg, s0, g0, moves + [m]);
  }

  /** A step outside the central mutex leaves the allocator alone. */
  lemma PlainOn(cfg: T.Config, s0: T.State, g0: Seg, s: T.State, g: Seg, t: nat, act: T.Action)
    requires Leads(cfg, s0, g0, s, g) && Ready(g) && T.Enabled(cfg, s, t, act) && T.Disciplined(s, act)
    requires !act.Fetch? && !(act.Advance? && s.threads[t].pc.InCentral?)
    ensures Leads(cfg, s0, g0, T.Step(cfg, s, t, act), g)
  {
    var m := Move(t, act, Supply(None, false));
    assert Possible(cfg, s, g, m) && CentralAfter(s, g, m) == g;
    hide Leads, T.Step, T.Enabled, Possible, CentralAfter;
    LeadsOn(cfg, s0, g0, s, g, m);
  }

  /** When nothing is in flight and clients hold nothing, nothing is live and all mutexes are free. */
  lemma QuietFacts(cfg: T.Config, n: nat, s: T.State, g: Seg, p: Addr)
    requires T.ValidConfig(cfg) && S.Reachable(cfg, n, s) && T.Quiescent(s) && s.held == {}
    requires Linked(cfg, s, g) && p !in g.live
    ensures s.shardLock == map[] && s.centralLock == None && s.live == 0 && p !in s.records
    ensures I.Inv(cfg, s)
  {
    S.ReachableInv(cfg, n, s);
    assert I.LocksOk(s);
    SameKeys(s, g);
    hide Linked, I.Inv, I.LocksOk, S.Reachable, T.Quiescent;
    QuietLocks(s);
    QuietLive(cfg, n, s);
    N.QuiescentKeys(cfg, n, s);
  }

  lemma QuietLocks(s: T.State)
    requires I.LocksOk(s) && T.Quiescent(s)
    ensures s.shardLock == map[] && s.centralLock == None
  {
    assert forall h :: h !in s.shardLock;
  }

  lemma QuietLive(cfg: T.Config, n: nat, s: T.State)
    requires T.ValidConfig(cfg) && S.Reachable(cfg, n, s) && T.Quiescent(s) && s.held == {}
    ensures s.live == 0
  {
    hide S.Reachable;
    N.QuiescentConservation(cfg, n, s);
    D.ReachableCovered(cfg, n, s);
    assert forall u: nat, a :: !D.Claimant(s, u, a);
    assert N.Active(s.records) == {} by {
      assert forall a :: a in N.Active(s.records) ==> S.IsActive(s, a);
    }
  }

  /** The real allocator answers another thread's request with `p`, and the thread records it. */
  lemma RealBait(cfg: T.Config, s0: T.State, g0: Seg, s: T.State, g: Seg, t: nat, u: nat, p: Addr, req: T.Request,
                 supply: Supply)
      returns (m: T.State, h: Seg)
    requires Leads(cfg, s0, g0, s, g) && Linked(cfg, s, g) && t < |s.threads| && u < |s.threads| && t != u
    requires s.threads[u].pc == T.WantCentral(T.Fetching(req, 0, None)) && |s.threads[u].bins| == |cfg.classes|
    requires I.RequestOk(cfg, req) && Ready(g) && Supplies(g, req.size, req.alignment, supply)
    requires SegregatedModel.Allocate(g, req.size, req.alignment, supply).1 == Pointer(p)
    requires s.shardLock == map[] && s.centralLock == None && s.live == 0 && p !in s.records
    ensures Leads(cfg, s0, g0, m, h) && Linked(cfg, m, h) && D.Baited(m, u, p, req)
    ensures |m.threads| == |s.threads| && m.threads[t] == s.threads[t]
  {
    hide Leads, Linked, Ready, Supplies, I.RequestOk, SegregatedModel.Allocate, T.Grants, T.Shard;
    PlainOn(cfg, s0, g0, s, g, u, T.LockCentral);
    m := T.Step(cfg, s, u, T.LockCentral);
    SameLink(cfg, s, m, g);
    var job := m.threads[u].pc.job;
    FetchLinked(cfg, m, g, u, job, supply);
    h := SegregatedModel.Allocate(g, req.size, req.alignment, supply).0;
    LeadsOn(cfg, s0, g0, m, g, Move(u, T.Fetch(Some(p)), supply));
    m := T.Step(cfg, m, u, T.Fetch(Some(p)));
    LinkReady(cfg, m, h);
    var fetched := m;
    PlainOn(cfg, s0, g0, m, h, u, T.LockShard);
    m := T.Step(cfg, m, u, T.LockShard);
    PlainOn(cfg, s0, g0, m, h, u, T.Insert(true));
    m := T.Step(cfg, m, u, T.Insert(true));
    SameLink(cfg, fetched, m, h);
  }

  lemma SameLink(cfg: T.Config, s: T.State, m: T.State, g: Seg)
    requires Linked(cfg, s, g) && m.central == s.central
    ensures Linked(cfg, m, g)
  {
  }

  lemma LinkReady(cfg: T.Config, s: T.State, g: Seg)
    requires Linked(cfg, s, g)
    ensures Ready(g)
  {
  }

  /** The stray free takes `p` back, in the real allocator too, before the allocation is counted. */
  lemma RealStrike(cfg: T.Config, s0: T.State, g0: Seg, s: T.State, g: Seg, t: nat, u: nat, p: Addr,
                   sizing: T.Sizing, req: T.Request)
      returns (m: T.State, h: Seg)
    requires Leads(cfg, s0, g0, s, g) && Linked(cfg, s, g) && D.Baited(s, u, p, req) && t < |s.threads| && u != t
    requires s.threads[t].pc == T.WantShard(T.Freeing(p, sizing, false)) && |s.threads[t].bins| == |cfg.classes|
    requires T.RecordAccepts(cfg, s.records[p], sizing) && T.CentralAccepts(cfg, T.KindOf(req), sizing)
    ensures Leads(cfg, s0, g0, m, h) && m.live < 0
  {
    hide Leads, Linked, Ready, CentralRefinement.Free, T.Shard, T.RecordAccepts, T.CentralAccepts;
    LinkReady(cfg, s, g);
    PlainOn(cfg, s0, g0, s, g, t, T.LockShard);
    m := T.Step(cfg, s, t, T.LockShard);
    PlainOn(cfg, s0, g0, m, g, t, T.Advance);
    m := T.Step(cfg, m, t, T.Advance);
    PlainOn(cfg, s0, g0, m, g, t, T.LockCentral);
    m := T.Step(cfg, m, t, T.LockCentral);
    SameLink(cfg, s, m, g);
    FreeLinked(cfg, m, g, t, m.threads[t].pc.job);
    h := CentralRefinement.Free(g, p, sizing).0;
    LeadsOn(cfg, s0, g0, m, g, Move(t, T.Advance, Supply(None, false)));
    m := T.Step(cfg, m, t, T.Advance);
    LinkReady(cfg, m, h);
    PlainOn(cfg, s0, g0, m, h, t, T.Advance);
    m := T.Step(cfg, m, t, T.Advance);
  }

  /**
   The underflow over the real allocator. At any quiet moment when clients hold nothing, take the
   address `p` the segregated allocator would hand out next for some request, and a free of `p`
   that describes that request. If the free begins first, on a thread other than the one that
   then makes the request, a disciplined joint run ends with `live_allocations` below zero.
   */
  lemma RealUnderflow(cfg: T.Config, n: nat, s: T.State, g: Seg, t: nat, u: nat, req: T.Request, supply: Supply,
                      p: Addr, sizing: T.Sizing)
      returns (m: T.State, h: Seg)
    requires T.ValidConfig(cfg) && S.Reachable(cfg, n, s) && Linked(cfg, s, g) && T.Quiescent(s) && s.held == {}
    requires t < |s.threads| && u < |s.threads| && t != u
    requires forall c :: 0 <= c < |s.threads[u].bins| ==> s.threads[u].bins[c] == []
    requires I.RequestOk(cfg, req) && D.Describes(cfg, sizing, req)
    requires Ready(g) && Supplies(g, req.size, req.alignment, supply)
    requires SegregatedModel.Allocate(g, req.size, req.alignment, supply).1 == Pointer(p)
    ensures T.Enabled(cfg, s, t, T.BeginFree(p, sizing))
    ensures Leads(cfg, T.Step(cfg, s, t, T.BeginFree(p, sizing)), g, m, h) && m.live < 0
  {
    var begun := T.BeginFreeStep(s, t, p, sizing);
    RealAnswer(cfg, s, g, req, supply, p);
    hide Linked, Ready, Supplies, SegregatedModel.Allocate;
    QuietFacts(cfg, n, s, g, p);
    assert I.ThreadOk(cfg, s, t) && I.ThreadOk(cfg, s, u);
    hide I.Inv, I.ThreadOk, S.Reachable;
    assert begun == T.Step(cfg, s, t, T.BeginFree(p, sizing));
    D.RequestAccepted(cfg, req, u, sizing);
    SameLink(cfg, s, begun, g);
    assert IsJointRun(cfg, begun, g, []) && JointAfter(cfg, begun, g, []) == (begun, g);
    var asked := Asking(cfg, begun, g, u, req);
    SameLink(cfg, begun, asked, g);
    hide Leads, T.Step, T.Enabled, I.RequestOk, T.RecordAccepts, T.CentralAccepts, D.Describes;
    var baited, after := RealBait(cfg, begun, g, asked, g, t, u, p, req, supply);
    m, h := RealStrike(cfg, begun, g, baited, after, t, u, p, sizing, req);
  }

  lemma RealAnswer(cfg: T.Config, s: T.State, g: Seg, req: T.Request, supply: Supply, p: Addr)
    requires Linked(cfg, s, g) && I.RequestOk(cfg, req) && Ready(g) && Supplies(g, req.size, req.alignment, supply)
    requires SegregatedModel.Allocate(g, req.size, req.alignment, supply).1 == Pointer(p)
    ensures p != 0 && p !in g.live
  {
    hide SegOk, Supplies, SegregatedModel.Allocate, Sees, Kinds, Ready, Select;
    AllocateRefines(g, req.size, req.alignment, supply);
  }

  /** Thread `u` asks for a block and finds its bin empty. */
  lemma Asking(cfg: T.Config, s: T.State, g: Seg, u: nat, req: T.Request) returns (m: T.State)
    requires u < |s.threads| && s.threads[u].pc.Idle? && |s.threads[u].bins| == |cfg.classes| && Ready(g)
    requires I.RequestOk(cfg, req) && forall c :: 0 <= c < |s.threads[u].bins| ==> s.threads[u].bins[c] == []
    requires IsJointRun(cfg, s, g, []) && JointAfter(cfg, s, g, []) == (s, g)
    ensures m == T.SetPC(s, u, T.WantCentral(T.Fetching(req, 0, None))) && Leads(cfg, s, g, m, g)
  {
    assert Leads(cfg, s, g, s, g);
    hide Leads, Ready;
    PlainOn(cfg, s, g, s, g, u, T.BeginAllocate(req.size, req.alignment));
    m := T.Step(cfg, s, u, T.BeginAllocate(req.size, req.alignment));
  }
}
