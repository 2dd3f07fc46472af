/** Drains whose migrations run asynchronously: scrape, check, issue, completion and failure
    interleave as they do for rebalancing (scalein.go, rebalance.go). */
module AsyncDrain {
  import opened Sorting
  import opened SlotRanges
  import opened ClusterView
  import opened Planner
  import opened Ownership
  import opened Engine
  import opened AsyncMigration
  import opened Positions
  import opened ScaleIn
  import opened ScaleInRuns

  /** What a pass plans from a fresh scrape: the next batch of the first draining primary. */
  ghost function NextDrain(owner: Owner, nodes: seq<NodeState>, positions: Positions, want: int): (r: Option<Move>) {
    var shards := ShardsOf(owner, nodes);
    if Draining(shards, positions, want) == [] then None
    else DrainPlan(Some(FirstDraining(shards, positions, want)), Remaining(shards, positions, want), BATCH_SIZE)
  }

  ghost function DrainPlanning(nodes: seq<NodeState>, positions: Positions, want: int): (r: Planning) {
    (owner: Owner) => NextDrain(owner, nodes, positions, want)
  }

  /** The survivor still takes over, the outcome is still that of `start`, and each completed
      migration was one of the moves `start` needs. */
  ghost function OnCourse(nodes: seq<NodeState>, dst: NodeState, positions: Positions, want: int,
                          start: Owner): (r: (Owner, nat) -> bool) {
    (owner: Owner, k: nat) =>
      && Ready(owner, nodes, dst, positions, want)
      && AllHandedOver(owner, nodes, dst.id, positions, want) == AllHandedOver(start, nodes, dst.id, positions, want)
      && k + MovesLeft(owner, nodes, positions, want) == MovesLeft(start, nodes, positions, want)
  }

  /** Nothing is planned exactly when nothing is left to drain. */
  lemma NoPlanIffDrained(owner: Owner, nodes: seq<NodeState>, dst: NodeState, positions: Positions, want: int)
    requires Ready(owner, nodes, dst, positions, want)
    ensures NextDrain(owner, nodes, positions, want).None? <==> Drained(ShardsOf(owner, nodes), positions, want)
  {
    hide Ready, ShardsOf, Draining, Drained, FirstDraining, Remaining, DrainPlan;
    DrainedIff(ShardsOf(owner, nodes), positions, want);
    if !Drained(ShardsOf(owner, nodes), positions, want) {
      var m, src := DrainStep(owner, nodes, dst, positions, want);
    }
  }

  lemma DrainCarries(owner: Owner, nodes: seq<NodeState>, dst: NodeState, positions: Positions, want: int, m: Move)
    requires Ready(owner, nodes, dst, positions, want) && NextDrain(owner, nodes, positions, want) == Some(m)
    ensures Ready(ApplyMove(owner, m), nodes, dst, positions, want) && !SourceOwns(ApplyMove(owner, m), m)
    ensures AllHandedOver(ApplyMove(owner, m), nodes, dst.id, positions, want) ==
              AllHandedOver(owner, nodes, dst.id, positions, want)
    ensures MovesLeft(ApplyMove(owner, m), nodes, positions, want) == MovesLeft(owner, nodes, positions, want) - 1
  {
    NoPlanIffDrained(owner, nodes, dst, positions, want);
    hide Ready, ShardsOf, Draining, Drained, FirstDraining, Remaining, DrainPlan, AllHandedOver, MovesLeft, ApplyMove;
    var m', src := DrainStep(owner, nodes, dst, positions, want);
  }

  lemma DrainPlanningCarries(nodes: seq<NodeState>, dst: NodeState, positions: Positions, want: int, start: Owner)
    ensures Carries(DrainPlanning(nodes, positions, want), OnCourse(nodes, dst, positions, want, start))
  {
    hide Ready, AllHandedOver, MovesLeft, ApplyMove, SourceOwns, NextDrain;
    var plan, good := DrainPlanning(nodes, positions, want), OnCourse(nodes, dst, positions, want, start);
    forall owner, k: nat | good(owner, k) && plan(owner).Some?
      ensures good(ApplyMove(owner, plan(owner).value), k + 1)
      ensures !SourceOwns(ApplyMove(owner, plan(owner).value), plan(owner).value)
    {
      DrainCarries(owner, nodes, dst, positions, want, plan(owner).value);
    }
  }

  /** In every interleaving of deferred, failed, aborted and late migrations at most one is in
      flight, no completed one was superfluous, and whenever a scrape finds nothing left to drain
      the survivor has exactly the slots of the shards that go, after exactly the moves they need,
      and nothing is in flight that could still change that. */
  lemma DrainsInterleaved(nodes: seq<NodeState>, dst: NodeState, positions: Positions, want: int, ws: seq<World>,
                          actions: seq<Action>, i: nat)
    requires IsRun(DrainPlanning(nodes, positions, want), ws, actions) && i < |ws|
    requires Ready(ws[0].owner, nodes, dst, positions, want)
    ensures AtMostOneInFlight(ws[i].log)
    ensures Successes(ws[i].log) + MovesLeft(ws[i].owner, nodes, positions, want) ==
              MovesLeft(ws[0].owner, nodes, positions, want)
    ensures Drained(ShardsOf(ws[i].owner, nodes), positions, want) ==>
              && ws[i].owner == AllHandedOver(ws[0].owner, nodes, dst.id, positions, want)
              && Successes(ws[i].log) == MovesLeft(ws[0].owner, nodes, positions, want)
              && NoneInFlight(ws[i].log)
  {
    hide Carries, IsRun, Ready, AllHandedOver, MovesLeft, NextDrain, Drained, ShardsOf;
    var plan, good := DrainPlanning(nodes, positions, want), OnCourse(nodes, dst, positions, want, ws[0].owner);
    DrainPlanningCarries(nodes, dst, positions, want, ws[0].owner);
    RunInv(plan, good, ws, actions, i);
    NoPlanIffDrained(ws[i].owner, nodes, dst, positions, want);
    if Drained(ShardsOf(ws[i].owner, nodes), positions, want) {
      IsHealthy(ws[i].owner, nodes, dst, positions, want);
      NobodyLeft(ws[i].owner, nodes, dst.id, positions, want);
    }
  }

  // ----- the code's drain passes are such steps

  /** The drain branch of `handleScaleIn` over a fresh scrape: `drainShard` on the first draining
      primary, if there is one. */
  method DrainPass(e: Engine, nodes: seq<NodeState>, positions: Positions, want: int, f: Faults, ghost ws: seq<World>,
                   ghost actions: seq<Action>)
    returns (ghost ws': seq<World>, ghost actions': seq<Action>)
    requires At(DrainPlanning(nodes, positions, want), ws, actions, e.owner, e.log)
    modifies e`log
    ensures At(DrainPlanning(nodes, positions, want), ws', actions', e.owner, e.log)
    ensures ws != [] && ws' != [] && ws'[0] == ws[0]
  {
    RunLength(DrainPlanning(nodes, positions, want), ws, actions);
    hide At, Logged, Guarded, Group, Draining, Remaining, DrainPlan;
    ghost var log := e.log;
    var scraped := Scrape(e.owner, nodes);
    AnsweredAll(scraped);
    var s := new ClusterState(Answered(scraped));
    var draining := DrainingShardPrimaries(s, positions, want);
    SortPermutes(Draining(s.shards, positions, want), AddrLe);
    ws', actions' := ws, actions;
    if |draining| == 0 {
      return;
    }
    var effect := DrainShard(e, s, draining[0], positions, want, f);
    ghost var plan := NextDrain(e.owner, nodes, positions, want);
    if plan.Some? {
      ws', actions' := PassIsSteps(DrainPlanning(nodes, positions, want), ws, actions, s.byID, e.owner, log,
                                   plan.value, f);
    }
  }

  /** Whatever happens, in whatever order: drain passes struck by faults, and migrations that
      complete, fail or are cancelled at any time between them. When nothing is left to drain, the
      survivor has exactly the slots of the shards that go. */
  method DrainThrough(e: Engine, nodes: seq<NodeState>, positions: Positions, want: int, events: seq<Event>,
                      ghost dst: NodeState)
    requires Ready(e.owner, nodes, dst, positions, want) && e.log == []
    modifies e
    ensures AtMostOneInFlight(e.log)
    ensures Successes(e.log) + MovesLeft(e.owner, nodes, positions, want) ==
              MovesLeft(old(e.owner), nodes, positions, want)
    ensures Drained(ShardsOf(e.owner, nodes), positions, want) ==>
              && e.owner == AllHandedOver(old(e.owner), nodes, dst.id, positions, want)
              && Successes(e.log) == MovesLeft(old(e.owner), nodes, positions, want) && NoneInFlight(e.log)
  {
    ghost var plan := DrainPlanning(nodes, positions, want);
    ghost var ws, actions := [World(e.owner, [], Idle)], [];
    assert At(plan, ws, actions, e.owner, e.log);
    hide Ready, At, Drained, ShardsOf, AllHandedOver, MovesLeft, NoneInFlight, AtMostOneInFlight;
    for i := 0 to |events|
      invariant At(plan, ws, actions, e.owner, e.log) && ws != [] && ws[0] == World(old(e.owner), [], Idle)
    {
      if events[i].Reconcile? {
        ws, actions := DrainPass(e, nodes, positions, want, events[i].f, ws, actions);
      } else {
        ws, actions := EngineEvent(e, events[i], plan, ws, actions);
      }
    }
    EndOf(plan, ws, actions, e.owner, e.log);
    DrainsInterleaved(nodes, dst, positions, want, ws, actions, |actions|);
  }

  lemma EndOf(plan: Planning, ws: seq<World>, actions: seq<Action>, owner: Owner, log: seq<Migration>)
    requires At(plan, ws, actions, owner, log)
    ensures IsRun(plan, ws, actions) && |ws| == |actions| + 1 && ws[|actions|] == World(owner, log, Idle)
  {
  }
}
