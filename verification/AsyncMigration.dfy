/** Slot migrations run asynchronously in the engine while the operator scrapes, checks and
    issues in separate round trips (rebalance.go; CLUSTER GETSLOTMIGRATIONS and MIGRATESLOTS).
    The interleaving is a state machine; the operator's pass is also given as code. */
module AsyncMigration {
  import opened Sorting
  import opened SlotRanges
  import opened ClusterView
  import opened Planner
  import opened Ownership
  import opened Engine
  import opened Rebalance

  ghost predicate AnyInFlight(log: seq<Migration>, src: string) {
    exists k :: 0 <= k < |log| && log[k].InFlight() && log[k].move.src == src
  }

  ghost predicate NoneInFlight(log: seq<Migration>) {
    forall k :: 0 <= k < |log| ==> !log[k].InFlight()
  }

  // ----- the operator's pass, as code

  /** `AnyMigrationInProgress`, over the entries the source reports. */
  method AnyMigrationInProgress(log: seq<Migration>, src: string) returns (any: bool)
    ensures any <==> AnyInFlight(log, src)
    ensures any <==> exists k :: 0 <= k < |log| && log[k].move.src == src && log[k].state != Success
                         && log[k].state != Failed && log[k].state != Canceled
  {
    for i := 0 to |log|
      invariant forall k :: 0 <= k < i && log[k].move.src == src ==> !log[k].InFlight()
    {
      if log[i].move.src == src && !log[i].state.IsTerminal() {
        return true;
      }
    }
    return false;
  }

  /** Whether the check on the source fails, and what becomes of the command to it. */
  datatype Faults = Faults(check: bool, issue: Wire)

  datatype Attempt = Moved | Held | Broke

  /** What the guards let through: the source is scraped and connected, knows the destination,
      reports nothing in flight, and still serves the ranges. */
  ghost function Guarded(byID: map<string, NodeState>, owner: Owner, log: seq<Migration>, m: Move,
                         f: Faults): (r: Attempt) {
    if m.src !in byID || !byID[m.src].hasClient || m.dst !in byID[m.src].peers then Held
    else if f.check then Broke
    else if AnyInFlight(log, m.src) then Held
    else if f.issue != Intact then Broke
    else if SourceOwns(owner, m) then Moved else Held
  }

  /** The migrations afterwards: a lost reply hides one that has started. */
  ghost function Logged(byID: map<string, NodeState>, owner: Owner, log: seq<Migration>, m: Move,
                        f: Faults): (r: seq<Migration>) {
    if Guarded(byID, owner, log, m, f.(issue := Intact)).Moved? && f.issue != Dropped
    then log + [Migration(m, Running)] else log
  }

  /** `migrateSlots`. */
  method MigrateSlots(e: Engine, s: ClusterState, m: Move, f: Faults) returns (r: Attempt)
    modifies e`log
    ensures r == Guarded(s.byID, e.owner, old(e.log), m, f)
    ensures e.log == Logged(s.byID, e.owner, old(e.log), m, f)
    ensures e.log != old(e.log) ==>
              && e.log == old(e.log) + [Migration(m, Running)]
              && m.src in s.byID && s.byID[m.src].hasClient && m.dst in s.byID[m.src].peers
              && !AnyInFlight(old(e.log), m.src) && SourceOwns(e.owner, m)
              && !f.check && f.issue != Dropped
    ensures r == Moved ==> e.log != old(e.log) && f.issue == Intact
    ensures r == Held ==>
              && e.log == old(e.log)
              && (|| m.src !in s.byID || !s.byID[m.src].hasClient || m.dst !in s.byID[m.src].peers
                  || AnyInFlight(old(e.log), m.src) || !SourceOwns(e.owner, m))
    ensures r == Broke ==> f.check || f.issue != Intact
  {
    if m.src !in s.byID || !s.byID[m.src].hasClient {
      return Held;
    }
    if m.dst !in s.byID[m.src].peers {
      return Held;
    }
    if f.check {
      return Broke;
    }
    var busy := AnyMigrationInProgress(e.log, m.src);
    if busy {
      return Held;
    }
    var reply := e.MigrateSlots(m, f.issue);
    match reply
    case Accepted => return Moved;
    case Refused => return Held;
    case Fault => return Broke;
  }

  datatype Pass = NotNeeded | Deferred | Issued | Errored

  /** `rebalanceSlots`: at most one migration per pass, only the planned one, only from a
      source that owns the ranges and has none in flight. */
  method RebalanceSlots(e: Engine, s: ClusterState, shards: int, f: Faults) returns (pass: Pass)
    modifies e`log
    ensures match RebalancePlan(Effective(s.AsView()), shards)
            case None => pass == NotNeeded && e.log == old(e.log)
            case Some(m) =>
              && pass == (match Guarded(s.byID, e.owner, old(e.log), m, f)
                          case Moved => Issued case Held => Deferred case Broke => Errored)
              && e.log == Logged(s.byID, e.owner, old(e.log), m, f)
  {
    var move := PlanRebalanceMove(s, shards);
    if move.None? {
      return NotNeeded;
    }
    var r := MigrateSlots(e, s, move.value, f);
    match r
    case Moved => return Issued;
    case Held => return Deferred;
    case Broke => return Errored;
  }

  // ----- interleaved steps, for any planner

  datatype Pc = Idle | Planned(move: Move) | Cleared(move: Move)

  datatype World = World(owner: Owner, log: seq<Migration>, pc: Pc)

  datatype Action =
    | ScrapeAndPlan          // one atomic snapshot, then the pure planner
    | Defer                  // a missing client, invisible destination, fault or restart
    | CheckSource            // GETSLOTMIGRATIONS on the planned source
    | Issue                  // MIGRATESLOTS, whether or not its reply arrives
    | Complete(k: nat)       // the engine finishes a migration
    | Abort(k: nat, end: MigrationState)

  /** What is planned from a fresh scrape of a given ownership. */
  type Planning = Owner -> Option<Move>

  ghost predicate Step(plan: Planning, w: World, a: Action, w': World) {
    match a
    case ScrapeAndPlan =>
      w.pc.Idle? && w' == w.(pc := match plan(w.owner) case Some(m) => Planned(m) case None => Idle)
    case Defer =>
      w' == w.(pc := Idle)
    case CheckSource =>
      w.pc.Planned? && w' == w.(pc := if AnyInFlight(w.log, w.pc.move.src) then Idle else Cleared(w.pc.move))
    case Issue =>
      && w.pc.Cleared?
      && w' == World(w.owner,
                     if SourceOwns(w.owner, w.pc.move) then w.log + [Migration(w.pc.move, Running)] else w.log,
                     Idle)
    case Complete(k) =>
      && k < |w.log| && w.log[k].InFlight()
      && w' == World(ApplyMove(w.owner, w.log[k].move), w.log[k := w.log[k].(state := Success)], w.pc)
    case Abort(k, end) =>
      k < |w.log| && w.log[k].InFlight() && (end.Failed? || end.Canceled?)
          && w' == w.(log := w.log[k := w.log[k].(state := end)])
  }

  ghost predicate IsRun(plan: Planning, ws: seq<World>, actions: seq<Action>) {
    && |ws| == |actions| + 1 && ws[0].pc == Idle && ws[0].log == []
    && forall i :: 0 <= i < |actions| ==> Step(plan, ws[i], actions[i], ws[i + 1])
  }

  ghost predicate AtMostOneInFlight(log: seq<Migration>) {
    forall j, k :: 0 <= j < k < |log| ==> !(log[j].InFlight() && log[k].InFlight())
  }

  function Successes(log: seq<Migration>): (r: nat) {
    if log == [] then 0
    else Successes(log[..|log| - 1]) + (if log[|log| - 1].state.Success? then 1 else 0)
  }

  /** What holds of ownership after `k` completed moves is carried on by the planned move, which
      leaves its source without all of the ranges. */
  ghost predicate Carries(plan: Planning, good: (Owner, nat) -> bool) {
    forall owner, k: nat :: good(owner, k) && plan(owner).Some? ==>
      && good(ApplyMove(owner, plan(owner).value), k + 1)
      && !SourceOwns(ApplyMove(owner, plan(owner).value), plan(owner).value)
  }

  /** A plan held by the operator is either still what the planner would say, or the
      migration it describes has completed meanwhile and nothing is in flight. */
  ghost predicate HeldPlanInv(plan: Planning, w: World, m: Move) {
    plan(w.owner) == Some(m) || (!SourceOwns(w.owner, m) && NoneInFlight(w.log))
  }

  ghost predicate Inv(plan: Planning, good: (Owner, nat) -> bool, w: World) {
    && good(w.owner, Successes(w.log))
    && AtMostOneInFlight(w.log)
    && (forall k :: 0 <= k < |w.log| && w.log[k].InFlight() ==> plan(w.owner) == Some(w.log[k].move))
    && (!w.pc.Idle? ==> HeldPlanInv(plan, w, w.pc.move))
    && (w.pc.Cleared? ==> NoneInFlight(w.log))
  }

  lemma {:induction false} SuccessesUpdate(log: seq<Migration>, k: nat, e: Migration)
    requires k < |log| && log[k].InFlight()
    ensures Successes(log[k := e]) == Successes(log) + (if e.state.Success? then 1 else 0)
  {
    var n := |log| - 1;
    if k == n {
      assert log[k := e][..n] == log[..n];
    } else {
      assert log[k := e][..n] == log[..n][k := e];
      SuccessesUpdate(log[..n], k, e);
    }
  }

  lemma CompleteKeepsInv(plan: Planning, good: (Owner, nat) -> bool, w: World, k: nat, w': World)
    requires Carries(plan, good) && Inv(plan, good, w) && Step(plan, w, Complete(k), w')
    ensures Inv(plan, good, w')
  {
    hide ApplyMove, SourceOwns;
    SuccessesUpdate(w.log, k, w.log[k].(state := Success));
    assert plan(w.owner) == Some(w.log[k].move);
    assert NoneInFlight(w'.log);
  }

  lemma IssueKeepsInv(plan: Planning, good: (Owner, nat) -> bool, w: World, w': World)
    requires Inv(plan, good, w) && Step(plan, w, Issue, w')
    ensures Inv(plan, good, w')
  {
    assert w'.log != w.log ==> w'.log[..|w.log|] == w.log;
  }

  lemma StepKeepsInv(plan: Planning, good: (Owner, nat) -> bool, w: World, a: Action, w': World)
    requires Carries(plan, good) && Inv(plan, good, w) && Step(plan, w, a, w')
    ensures Inv(plan, good, w')
  {
    hide SourceOwns, Carries;
    match a
    case ScrapeAndPlan =>
    case Defer =>
    case CheckSource =>
    case Issue => IssueKeepsInv(plan, good, w, w');
    case Complete(k) => CompleteKeepsInv(plan, good, w, k, w');
    case Abort(k, end) => SuccessesUpdate(w.log, k, w.log[k].(state := end));
  }

  /** Whatever a planner carries on holds in every interleaving, in which never more than one
      migration is in flight in the whole cluster, although each check looks at one node only. */
  lemma {:induction false} RunInv(plan: Planning, good: (Owner, nat) -> bool, ws: seq<World>, actions: seq<Action>,
                                  i: nat)
    requires IsRun(plan, ws, actions) && i < |ws| && Carries(plan, good) && good(ws[0].owner, 0)
    ensures Inv(plan, good, ws[i])
  {
    hide Carries;
    if i == 0 {
    } else {
      RunInv(plan, good, ws, actions, i - 1);
      StepKeepsInv(plan, good, ws[i - 1], actions[i - 1], ws[i]);
    }
  }

  lemma IssueIsCurrent(plan: Planning, good: (Owner, nat) -> bool, w: World, w': World, m: Move)
    requires Inv(plan, good, w) && Step(plan, w, Issue, w') && w.pc == Cleared(m)
    ensures plan(w.owner) != Some(m) ==> w' == w.(pc := Idle)
    ensures w'.log != w.log ==> NoneInFlight(w.log) && plan(w.owner) == Some(m)
  {
    hide SourceOwns;
  }

  lemma OvertakenIsInert(plan: Planning, good: (Owner, nat) -> bool, ws: seq<World>, actions: seq<Action>, i: nat,
                         m: Move)
    requires IsRun(plan, ws, actions) && Carries(plan, good) && good(ws[0].owner, 0)
    requires i < |actions| && actions[i] == Issue && ws[i].pc == Cleared(m)
    ensures plan(ws[i].owner) != Some(m) ==> ws[i + 1] == ws[i].(pc := Idle)
    ensures ws[i + 1].log != ws[i].log ==> NoneInFlight(ws[i].log) && plan(ws[i].owner) == Some(m)
  {
    hide Inv, Step, Carries;
    RunInv(plan, good, ws, actions, i);
    IssueIsCurrent(plan, good, ws[i], ws[i + 1], m);
  }

  // ----- the code's passes are such steps

  /** What happens next: a pass of the operator, or something about a migration in the engine. */
  datatype Event = Reconcile(f: Faults) | Finish(k: nat) | Break(k: nat, end: MigrationState)

  /** A run that has come to this ownership and these migrations, with the operator between passes. */
  ghost predicate At(plan: Planning, ws: seq<World>, actions: seq<Action>, owner: Owner, log: seq<Migration>) {
    IsRun(plan, ws, actions) && ws[|actions|] == World(owner, log, Idle)
  }

  lemma ExtendRun(plan: Planning, ws: seq<World>, actions: seq<Action>, a: Action, w: World)
    requires IsRun(plan, ws, actions) && Step(plan, ws[|actions|], a, w)
    ensures IsRun(plan, ws + [w], actions + [a])
    ensures |actions + [a]| == |actions| + 1 && (ws + [w])[|actions| + 1] == w && (ws + [w])[0] == ws[0]
  {
    hide Step;
  }

  lemma RunLength(plan: Planning, ws: seq<World>, actions: seq<Action>)
    requires IsRun(plan, ws, actions)
    ensures |ws| == |actions| + 1
  {
  }

  /** A guarded migration of the planned move is a sequence of steps: plan, and then defer, or check
      the source, and then defer or issue. */
  lemma PassIsSteps(plan: Planning, ws: seq<World>, actions: seq<Action>, byID: map<string, NodeState>, owner: Owner,
                    log: seq<Migration>, m: Move, f: Faults)
    returns (ws': seq<World>, actions': seq<Action>)
    requires At(plan, ws, actions, owner, log) && plan(owner) == Some(m)
    ensures At(plan, ws', actions', owner, Logged(byID, owner, log, m, f)) && ws != [] && ws' != [] && ws'[0] == ws[0]
  {
    RunLength(plan, ws, actions);
    hide IsRun, AnyInFlight, SourceOwns;
    var idle, planned := World(owner, log, Idle), World(owner, log, Planned(m));
    ExtendRun(plan, ws, actions, ScrapeAndPlan, planned);
    ws', actions' := ws + [planned], actions + [ScrapeAndPlan];
    if m.src !in byID || !byID[m.src].hasClient || m.dst !in byID[m.src].peers || f.check {
      ExtendRun(plan, ws', actions', Defer, idle);
      ws', actions' := ws' + [idle], actions' + [Defer];
    } else if AnyInFlight(log, m.src) {
      ExtendRun(plan, ws', actions', CheckSource, idle);
      ws', actions' := ws' + [idle], actions' + [CheckSource];
    } else {
      var cleared := World(owner, log, Cleared(m));
      ExtendRun(plan, ws', actions', CheckSource, cleared);
      ws', actions' := ws' + [cleared], actions' + [CheckSource];
      var last := if f.issue == Dropped then Defer else Issue;
      var w := World(owner, Logged(byID, owner, log, m, f), Idle);
      ExtendRun(plan, ws', actions', last, w);
      ws', actions' := ws' + [w], actions' + [last];
    }
  }

  /** The engine's share of the events: a migration in flight completes, fails or is cancelled. */
  method EngineEvent(e: Engine, ev: Event, ghost plan: Planning, ghost ws: seq<World>, ghost actions: seq<Action>)
    returns (ghost ws': seq<World>, ghost actions': seq<Action>)
    requires !ev.Reconcile? && At(plan, ws, actions, e.owner, e.log)
    modifies e
    ensures At(plan, ws', actions', e.owner, e.log) && ws != [] && ws' != [] && ws'[0] == ws[0]
  {
    RunLength(plan, ws, actions);
    hide IsRun;
    ws', actions' := ws, actions;
    match ev
    case Finish(k) =>
      if k < |e.log| && e.log[k].InFlight() {
        e.Complete(k);
        ghost var w := World(e.owner, e.log, Idle);
        ExtendRun(plan, ws, actions, Action.Complete(k), w);
        ws', actions' := ws + [w], actions + [Action.Complete(k)];
      }
    case Break(k, end) =>
      if k < |e.log| && e.log[k].InFlight() && (end == Failed || end == Canceled) {
        e.Stop(k, end);
        ghost var w := World(e.owner, e.log, Idle);
        ExtendRun(plan, ws, actions, Abort(k, end), w);
        ws', actions' := ws + [w], actions + [Abort(k, end)];
      }
  }

  // ----- rebalancing, interleaved

  ghost function Rebalancing(ps: seq<NodeState>): (r: Planning) { (owner: Owner) => Plan(owner, ps) }

  /** Slots are partitioned, and each completed move has paid at least 4 of the imbalance. */
  ghost function Balances(ps: seq<NodeState>, start: Owner): (r: (Owner, nat) -> bool) {
    (owner: Owner, k: nat) => Partitioned(owner, ps) && 4 * k + Imbalance(owner, ps) <= Imbalance(start, ps)
  }

  lemma RebalancingCarries(ps: seq<NodeState>, start: Owner)
    requires Primaried(ps)
    ensures Carries(Rebalancing(ps), Balances(ps, start))
  {
    hide Plan, Partitioned, Imbalance, ApplyMove, SourceOwns, Primaried;
    var plan, good := Rebalancing(ps), Balances(ps, start);
    forall owner, k: nat | good(owner, k) && plan(owner).Some?
      ensures good(ApplyMove(owner, plan(owner).value), k + 1)
      ensures !SourceOwns(ApplyMove(owner, plan(owner).value), plan(owner).value)
    {
      MoveImproves(owner, ps, plan(owner).value);
      MovedSlot(owner, ps, plan(owner).value);
    }
  }

  /** Once a planned migration has completed, its source no longer owns the ranges. */
  lemma MovedSlot(owner: Owner, ps: seq<NodeState>, m: Move)
    requires Primaried(ps) && Partitioned(owner, ps) && Plan(owner, ps) == Some(m)
    ensures !SourceOwns(ApplyMove(owner, m), m)
  {
    var src, dst := PlanIndices(owner, ps, m);
    NotOwnedAfter(owner, m);
  }

  lemma NotOwnedAfter(owner: Owner, m: Move)
    requires m.src != m.dst && Canonical(m.ranges) && m.ranges != []
    requires forall s: int :: Covers(m.ranges, s) ==> s in OwnedSet(owner, m.src)
    ensures !SourceOwns(ApplyMove(owner, m), m)
  {
    FirstSlot(m.ranges);
    var s := m.ranges[0].start;
    assert s in OwnedSet(owner, m.src);
    assert ApplyMove(owner, m)[s] == m.dst;
  }

  /** In every interleaving there is never more than one migration in flight in the whole
      cluster; the slots stay partitioned; and the number of completed migrations is bounded by a
      quarter of the initial imbalance. */
  lemma OneMigrationAtATime(ps: seq<NodeState>, ws: seq<World>, actions: seq<Action>, i: nat)
    requires IsRun(Rebalancing(ps), ws, actions) && i < |ws| && Primaried(ps) && Partitioned(ws[0].owner, ps)
    ensures AtMostOneInFlight(ws[i].log)
    ensures Partitioned(ws[i].owner, ps)
    ensures 4 * Successes(ws[i].log) <= Imbalance(ws[0].owner, ps) - Imbalance(ws[i].owner, ps)
  {
    hide Carries, IsRun, Partitioned, Imbalance;
    RebalancingCarries(ps, ws[0].owner);
    RunInv(Rebalancing(ps), Balances(ps, ws[0].owner), ws, actions, i);
  }

  /** A plan overtaken by a completed migration starts nothing: whenever ownership has
      changed since it was made, the engine refuses it and the world is as before. And what
      is accepted is always the current plan. */
  lemma StalePlanIsInert(ps: seq<NodeState>, ws: seq<World>, actions: seq<Action>, i: nat, m: Move)
    requires IsRun(Rebalancing(ps), ws, actions) && Primaried(ps) && Partitioned(ws[0].owner, ps)
    requires i < |actions| && actions[i] == Issue && ws[i].pc == Cleared(m)
    ensures Plan(ws[i].owner, ps) != Some(m) ==> ws[i + 1] == ws[i].(pc := Idle)
    ensures ws[i + 1].log != ws[i].log ==> NoneInFlight(ws[i].log) && Plan(ws[i].owner, ps) == Some(m)
  {
    hide Plan, Carries, Partitioned, Imbalance, Step;
    RebalancingCarries(ps, ws[0].owner);
    OvertakenIsInert(Rebalancing(ps), Balances(ps, ws[0].owner), ws, actions, i, m);
  }

  /** The primaries in the order the planner sees them. */
  ghost function InOrder(nodes: seq<NodeState>): (r: seq<NodeState>) { Sort(Primaries(nodes), AddrLe) }

  lemma OwnersArePrimaried(owner: Owner, nodes: seq<NodeState>)
    requires Healthy(nodes) && Partitioned(owner, InOrder(nodes))
    ensures Primaried(InOrder(nodes))
  {
    var ps := InOrder(nodes);
    SortPermutes(Primaries(nodes), AddrLe);
    PrimariesMembers(nodes);
    assert 0 in owner;
    forall i | 0 <= i < |ps| ensures ps[i].IsPrimary() { assert ps[i] in ps; }
    forall i, j | 0 <= i < j < |ps| ensures ps[i].id != ps[j].id {
      SamePlace(nodes, i, j);
    }
  }

  lemma SamePlace(nodes: seq<NodeState>, i: nat, j: nat)
    requires Healthy(nodes) && i < j < |InOrder(nodes)|
    ensures InOrder(nodes)[i].id != InOrder(nodes)[j].id
  {
    var ps := InOrder(nodes);
    SortPermutes(Primaries(nodes), AddrLe);
    PrimariesMembers(nodes);
    assert ps[i] in ps && ps[j] in ps;
    if ps[i] == ps[j] {
      assert ps == ps[..i] + [ps[i]] + ps[i + 1..j] + [ps[j]] + ps[j + 1..];
      assert multiset(ps)[ps[i]] >= 2;
      PrimariesMultiset(nodes, ps[i]);
      OnceEach(nodes, ps[i]);
    }
  }

  lemma {:induction false} OnceEach(nodes: seq<NodeState>, n: NodeState)
    requires forall i, j :: 0 <= i < j < |nodes| ==> nodes[i].id != nodes[j].id
    ensures multiset(nodes)[n] <= 1
  {
    if nodes == [] {
    } else {
      var front, last := nodes[..|nodes| - 1], nodes[|nodes| - 1];
      assert nodes == front + [last];
      OnceEach(front, n);
      forall k | 0 <= k < |front| ensures front[k].id != last.id { assert nodes[k] == front[k]; }
    }
  }

  lemma RunOutcome(ps: seq<NodeState>, ws: seq<World>, actions: seq<Action>, owner: Owner, log: seq<Migration>)
    requires At(Rebalancing(ps), ws, actions, owner, log) && Primaried(ps) && Partitioned(ws[0].owner, ps)
    ensures AtMostOneInFlight(log) && Partitioned(owner, ps)
    ensures 4 * Successes(log) <= Imbalance(ws[0].owner, ps) - Imbalance(owner, ps)
  {
    RunLength(Rebalancing(ps), ws, actions);
    hide IsRun, Primaried, Partitioned, Imbalance;
    OneMigrationAtATime(ps, ws, actions, |actions|);
  }

  /** A pass of `rebalanceSlots` over a fresh scrape is a sequence of those steps. */
  method RebalancePass(e: Engine, nodes: seq<NodeState>, shards: int, f: Faults, ghost ws: seq<World>,
                       ghost actions: seq<Action>)
    returns (pass: Pass, ghost ws': seq<World>, ghost actions': seq<Action>)
    requires Healthy(nodes) && At(Rebalancing(InOrder(nodes)), ws, actions, e.owner, e.log)
    modifies e`log
    ensures ws != [] && ws' != [] && ws'[0] == ws[0]
    ensures At(Rebalancing(InOrder(nodes)), ws', actions', e.owner, e.log)
  {
    RunLength(Rebalancing(InOrder(nodes)), ws, actions);
    hide Healthy, At, Logged, Guarded, RebalancePlan, Effective, Group, Sort, Primaries;
    ghost var ps, log := InOrder(nodes), e.log;
    var scraped := Scrape(e.owner, nodes);
    AnsweredAll(scraped);
    var s := new ClusterState(Answered(scraped));
    EffectiveScrape(e.owner, nodes);
    PlanIff(Effective(s.AsView()), shards);
    pass := RebalanceSlots(e, s, shards, f);
    ws', actions' := ws, actions;
    ghost var plan := RebalancePlan(Effective(s.AsView()), shards);
    if plan.Some? {
      ws', actions' := PassIsSteps(Rebalancing(ps), ws, actions, s.byID, e.owner, log, plan.value, f);
    }
  }

  /** Whatever happens, in whatever order: passes struck by faults, and migrations that complete,
      fail or are cancelled at any time between them. Never more than one is in flight. */
  method RebalanceThrough(e: Engine, nodes: seq<NodeState>, shards: int, events: seq<Event>)
    requires Healthy(nodes) && e.log == [] && Partitioned(e.owner, InOrder(nodes))
    modifies e
    ensures var ps := InOrder(nodes);
            && AtMostOneInFlight(e.log) && Partitioned(e.owner, ps)
            && 4 * Successes(e.log) <= Imbalance(old(e.owner), ps) - Imbalance(e.owner, ps)
  {
    ghost var ps := InOrder(nodes);
    ghost var ws, actions := [World(e.owner, [], Idle)], [];
    assert At(Rebalancing(ps), ws, actions, e.owner, e.log);
    OwnersArePrimaried(e.owner, nodes);
    hide Healthy, At, Partitioned, Imbalance, InOrder;
    for i := 0 to |events|
      invariant At(Rebalancing(ps), ws, actions, e.owner, e.log)
      invariant ws != [] && ws[0] == World(old(e.owner), [], Idle)
    {
      if events[i].Reconcile? {
        var pass;
        pass, ws, actions := RebalancePass(e, nodes, shards, events[i].f, ws, actions);
      } else {
        ws, actions := EngineEvent(e, events[i], Rebalancing(ps), ws, actions);
      }
    }
    RunOutcome(ps, ws, actions, e.owner, e.log);
  }
}
