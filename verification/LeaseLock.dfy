/** The per-cluster backup lock (perconavalkeybackup/lease.go): a Lease object with expiry,
    claimed and renewed through version-checked updates, released by an unversioned patch, and
    contended for by many backups. */
module LeaseLock {
  import opened ClusterView

  const DURATION_SECONDS: int := 30
  const TICKS_PER_SECOND: int := 1000000

  datatype Lease = Lease(holder: Option<string>, seconds: Option<int>, acquired: Option<int>, renewed: Option<int>)

  function Expiry(renewed: int, seconds: int): (r: int) { renewed + seconds * TICKS_PER_SECOND }

  /** `leaseHeldByOther`, first result: held by somebody whose window is still open. */
  predicate IsHeld(l: Lease, now: int) {
    && l.holder.Some? && l.holder.value != "" && l.renewed.Some?
    && now < Expiry(l.renewed.value, if l.seconds.Some? then l.seconds.value else DURATION_SECONDS)
  }

  predicate HeldByOther(l: Lease, holder: string, now: int) { IsHeld(l, now) && l.holder.value != holder }

  /** The object `createLease` writes. */
  function Created(holder: string, now: int): (r: Lease) {
    Lease(Some(holder), Some(DURATION_SECONDS), Some(now), Some(now))
  }

  /** The object `renewLeaseObject` writes. */
  function Renewed(l: Lease, holder: string, now: int): (r: Lease) {
    Lease(Some(holder), Some(DURATION_SECONDS),
          if l.holder != Some(holder) || l.acquired.None? then Some(now) else l.acquired, Some(now))
  }

  /** A release clears, in the object as it is now, the fields that were set in the one it read. */
  function Released(l: Lease, read: Lease): (r: Lease) {
    l.(holder := None, renewed := if read.renewed.Some? then None else l.renewed,
       acquired := if read.acquired.Some? then None else l.acquired)
  }

  // ----- the calls as code, undisturbed

  /** The API server's view of the object: optimistic concurrency on a version. */
  class LeaseApi {
    var lease: Option<Lease>
    var version: nat

    method Create(l: Lease) returns (ok: bool)
      modifies this
      ensures ok <==> old(lease).None?
      ensures lease == (if ok then Some(l) else old(lease)) && version == if ok then old(version) + 1 else old(version)
    {
      if lease.Some? {
        return false;
      }
      lease, version := Some(l), version + 1;
      return true;
    }

    method Update(l: Lease, seen: nat) returns (ok: bool)
      modifies this
      ensures ok <==> old(lease).Some? && old(version) == seen
      ensures lease == (if ok then Some(l) else old(lease)) && version == if ok then old(version) + 1 else old(version)
    {
      if lease.None? || version != seen {
        return false;
      }
      lease, version := Some(l), version + 1;
      return true;
    }

    /** A merge patch carries no version. */
    method Release(read: Lease)
      modifies this
      ensures lease == if old(lease).Some? then Some(Released(old(lease).value, read)) else None
      ensures version == if old(lease).Some? then old(version) + 1 else old(version)
    {
      if lease.Some? {
        lease, version := Some(Released(lease.value, read)), version + 1;
      }
    }
  }

  /** Nobody's, this holder's own, or not renewed for as many seconds as it says, 30 if it does not. */
  predicate IsFree(l: Lease, holder: string, now: int) {
    || l.holder.None? || l.holder.value == "" || l.holder.value == holder || l.renewed.None?
    || now >= l.renewed.value + (if l.seconds.Some? then l.seconds.value else 30) * 1000000
  }

  /** `acquireClusterLease` with nobody else writing in between: only a fresh lease of
      somebody else blocks it, and success opens a full window for this holder. */
  method AcquireClusterLease(api: LeaseApi, holder: string, now: int) returns (got: bool)
    requires holder != ""
    modifies api
    ensures got <==> !(old(api.lease).Some? && HeldByOther(old(api.lease).value, holder, now))
    ensures got ==> && api.lease.Some? && api.lease.value.holder == Some(holder)
                    && forall t :: IsHeld(api.lease.value, t) <==> t < Expiry(now, DURATION_SECONDS)
    ensures got <==> (old(api.lease).Some? ==> IsFree(old(api.lease).value, holder, now))
    ensures got ==> api.lease.value.seconds == Some(30) && api.lease.value.renewed == Some(now)
    ensures got ==>
              var own := old(api.lease).Some? && old(api.lease).value.holder == Some(holder);
              api.lease.value.acquired ==
              if own && old(api.lease).value.acquired.Some? then old(api.lease).value.acquired else Some(now)
    ensures !got ==> api.lease == old(api.lease)
    ensures api.version == if got then old(api.version) + 1 else old(api.version)
  {
    var lease, seen := api.lease, api.version;
    if lease.None? {
      got := api.Create(Created(holder, now));
      return;
    }
    if HeldByOther(lease.value, holder, now) {
      return false;
    }
    got := api.Update(Renewed(lease.value, holder, now), seen);
  }

  /** `renewClusterLease`: only the holder renews. */
  method RenewClusterLease(api: LeaseApi, holder: string, now: int)
    modifies api
    ensures api.lease == if old(api.lease).Some? && old(api.lease).value.holder == Some(holder)
                         then Some(Renewed(old(api.lease).value, holder, now)) else old(api.lease)
    ensures old(api.lease).Some? && old(api.lease).value.holder == Some(holder) ==>
              var acquired := if old(api.lease).value.acquired.Some? then old(api.lease).value.acquired else Some(now);
              api.lease == Some(Lease(Some(holder), Some(30), acquired, Some(now)))
  {
    var lease, seen := api.lease, api.version;
    if lease.None? || lease.value.holder != Some(holder) {
      return;
    }
    var ok := api.Update(Renewed(lease.value, holder, now), seen);
  }

  /** `releaseClusterLease` with nobody else writing in between: afterwards this holder does not
      hold it, nobody else lost it, and it is free. */
  method ReleaseClusterLease(api: LeaseApi, holder: string)
    modifies api
    ensures if old(api.lease).Some? && old(api.lease).value.holder == Some(holder)
            then api.lease == Some(Lease(None, old(api.lease).value.seconds, None, None))
            else api.lease == old(api.lease)
  {
    var lease := api.lease;
    if lease.None? || lease.value.holder != Some(holder) {
      return;
    }
    api.Release(lease.value);
  }

  // ----- interleaved

  datatype Pc =
    | Idle
    | Sampled(now: int)                           // acquire: clock read, object not yet read
    | Creating(now: int)                          // acquire: object was absent
    | Got(lease: Lease, seen: nat)                // renew: own object read, clock not yet read
    | Writing(now: int, lease: Lease, seen: nat)  // about to send the versioned update
    | Releasing(lease: Lease, seen: nat)          // release: own object read, about to send the patch

  /** `until` is how long this backup believes it holds the lock, from its last successful write. */
  datatype Backup = Backup(pc: Pc, until: Option<int>)

  datatype World = World(clock: int, lease: Option<Lease>, version: nat, backups: map<string, Backup>)

  datatype Action =
    | Tick(t: int)
    | Sample(h: string) | Read(h: string) | Create(h: string)
    | RenewRead(h: string) | RenewSample(h: string)
    | Write(h: string)
    | ReleaseRead(h: string) | ReleasePatch(h: string)

  function Move(w: World, h: string, b: Backup): (r: World) { w.(backups := w.backups[h := b]) }

  /** Store a new object and open this backup's window. */
  function Store(w: World, h: string, l: Lease, now: int): (r: World) {
    World(w.clock, Some(l), w.version + 1, w.backups[h := Backup(Idle, Some(Expiry(now, DURATION_SECONDS)))])
  }

  ghost predicate Step(w: World, a: Action, w': World) {
    match a
    case Tick(t) => t >= w.clock && w' == w.(clock := t)
    case Sample(h) =>
      h in w.backups && w.backups[h].pc.Idle? && w' == Move(w, h, w.backups[h].(pc := Sampled(w.clock)))
    case Read(h) =>
      && h in w.backups && w.backups[h].pc.Sampled?
      && var now := w.backups[h].pc.now;
         w' == Move(w, h, w.backups[h].(pc :=
                 match w.lease
                 case None => Creating(now)
                 case Some(l) => if HeldByOther(l, h, now) then Idle else Writing(now, l, w.version)))
    case Create(h) =>
      && h in w.backups && w.backups[h].pc.Creating?
      && w' == if w.lease.None? then Store(w, h, Created(h, w.backups[h].pc.now), w.backups[h].pc.now)
               else Move(w, h, w.backups[h].(pc := Idle))
    case RenewRead(h) =>
      && h in w.backups && w.backups[h].pc.Idle?
      && w' == if w.lease.Some? && w.lease.value.holder == Some(h)
               then Move(w, h, w.backups[h].(pc := Got(w.lease.value, w.version))) else w
    case RenewSample(h) =>
      && h in w.backups && w.backups[h].pc.Got?
      && w' == Move(w, h, w.backups[h].(pc := Writing(w.clock, w.backups[h].pc.lease, w.backups[h].pc.seen)))
    case Write(h) =>
      && h in w.backups && w.backups[h].pc.Writing?
      && var pc := w.backups[h].pc;
         w' == if w.lease.Some? && w.version == pc.seen then Store(w, h, Renewed(pc.lease, h, pc.now), pc.now)
               else Move(w, h, w.backups[h].(pc := Idle))
    case ReleaseRead(h) =>
      && h in w.backups && w.backups[h].pc.Idle?
      && w' == if w.lease.Some? && w.lease.value.holder == Some(h)
               then Move(w, h, w.backups[h].(pc := Releasing(w.lease.value, w.version)))
               else Move(w, h, Backup(Idle, None))
    case ReleasePatch(h) =>
      && h in w.backups && w.backups[h].pc.Releasing?
      && w' == if w.lease.None? then Move(w, h, Backup(Idle, None))
               else World(w.clock, Some(Released(w.lease.value, w.backups[h].pc.lease)), w.version + 1,
                          w.backups[h := Backup(Idle, None)])
  }

  /** Any object may be lying around; no backup believes anything yet. */
  ghost predicate Start(w: World) {
    forall h :: h in w.backups ==> h != "" && w.backups[h] == Backup(Idle, None)
  }

  ghost predicate IsRun(ws: seq<World>, actions: seq<Action>) {
    && |ws| == |actions| + 1 && Start(ws[0])
    && forall i :: 0 <= i < |actions| ==> Step(ws[i], actions[i], ws[i + 1])
  }

  predicate Believes(w: World, h: string) {
    h in w.backups && w.backups[h].until.Some? && w.clock < w.backups[h].until.value
  }

  /** A backup inside its window is the recorded holder, with that very window. */
  ghost predicate WindowInv(w: World, h: string) {
    Believes(w, h) ==>
      && w.lease.Some? && w.lease.value.holder == Some(h) && w.lease.value.seconds == Some(DURATION_SECONDS)
      && w.lease.value.renewed.Some?
          && Expiry(w.lease.value.renewed.value, DURATION_SECONDS) == w.backups[h].until.value
  }

  /** A snapshot whose version is still current is the current object, and at the sampled
      time it was not somebody else's. */
  ghost predicate SnapshotInv(w: World, h: string)
    requires h in w.backups
  {
    match w.backups[h].pc
    case Idle => true
    case Sampled(now) => now <= w.clock
    case Creating(now) => now <= w.clock
    case Got(l, seen) => seen <= w.version && l.holder == Some(h) && (seen == w.version ==> w.lease == Some(l))
    case Writing(now, l, seen) =>
      && now <= w.clock && seen <= w.version && !HeldByOther(l, h, now)
      && (seen == w.version ==> w.lease == Some(l))
    case Releasing(l, seen) => seen <= w.version && l.holder == Some(h) && (seen == w.version ==> w.lease == Some(l))
  }

  /** A release patch is sent inside the releaser's own window, or finds what it has read. */
  predicate Timely(w: World, a: Action) {
    a.ReleasePatch? && a.h in w.backups && w.backups[a.h].pc.Releasing? ==>
      Believes(w, a.h) || w.version == w.backups[a.h].pc.seen
  }

  ghost predicate Inv(w: World) {
    forall h :: h in w.backups ==> h != "" && WindowInv(w, h) && SnapshotInv(w, h)
  }

  /** The backup whose write an action performs. */
  predicate Writes(a: Action, h: string) { a == Create(h) || a == Write(h) }

  /** Whoever stores a new object was entitled to: no other window is open. */
  lemma StoreClosesOthers(w: World, a: Action, w': World, g: string, h: string)
    requires Inv(w) && Step(w, a, w') && Writes(a, g) && w'.version != w.version && g != h && h in w.backups
    ensures !Believes(w, h)
  {
    assert WindowInv(w, h) && SnapshotInv(w, g);
  }

  /** A timely release takes nobody else's window away. */
  lemma TimelyHitsNobody(w: World, g: string, h: string)
    requires Inv(w) && g in w.backups && w.backups[g].pc.Releasing? && Timely(w, ReleasePatch(g))
    requires g != h && h in w.backups
    ensures !Believes(w, h)
  {
    assert WindowInv(w, g) && WindowInv(w, h) && SnapshotInv(w, g);
  }

  lemma StepKeepsWindow(w: World, a: Action, w': World, h: string)
    requires Inv(w) && Step(w, a, w') && h in w.backups && Timely(w, a)
    ensures WindowInv(w', h)
  {
    assert WindowInv(w, h);
    match a
    case Create(g) => if g != h && w'.version != w.version { StoreClosesOthers(w, a, w', g, h); }
    case Write(g) => if g != h && w'.version != w.version { StoreClosesOthers(w, a, w', g, h); }
    case ReleasePatch(g) => if g != h { TimelyHitsNobody(w, g, h); }
    case _ =>
  }

  lemma StepKeepsSnapshot(w: World, a: Action, w': World, h: string)
    requires Inv(w) && Step(w, a, w') && h in w.backups
    ensures SnapshotInv(w', h)
  {
    hide IsHeld, Renewed, Created, Released, WindowInv, Expiry;
    assert SnapshotInv(w, h);
  }

  lemma StepKeepsInv(w: World, a: Action, w': World)
    requires Inv(w) && Step(w, a, w') && Timely(w, a)
    ensures Inv(w')
  {
    assert w'.backups.Keys == w.backups.Keys;
    forall h | h in w'.backups ensures h != "" && WindowInv(w', h) && SnapshotInv(w', h) {
      StepKeepsWindow(w, a, w', h);
      StepKeepsSnapshot(w, a, w', h);
    }
  }

  ghost predicate TimelyUpTo(ws: seq<World>, actions: seq<Action>, i: nat) {
    i <= |ws| && i <= |actions| && forall j :: 0 <= j < i ==> Timely(ws[j], actions[j])
  }

  lemma {:induction false} RunInv(ws: seq<World>, actions: seq<Action>, i: nat)
    requires IsRun(ws, actions) && i < |ws| && TimelyUpTo(ws, actions, i)
    ensures Inv(ws[i])
  {
    if i == 0 {
    } else {
      RunInv(ws, actions, i - 1);
      StepKeepsInv(ws[i - 1], actions[i - 1], ws[i]);
    }
  }

  /** At no instant of any run with timely releases are two backups both inside a window they hold. */
  lemma MutualExclusion(ws: seq<World>, actions: seq<Action>, i: nat, g: string, h: string)
    requires IsRun(ws, actions) && i < |ws| && TimelyUpTo(ws, actions, i) && Believes(ws[i], g) && Believes(ws[i], h)
    ensures g == h
  {
    RunInv(ws, actions, i);
    assert WindowInv(ws[i], g) && WindowInv(ws[i], h);
  }

  /** Every successful claim overwrites an object that at that moment was absent, free,
      expired or already the claimer's own. */
  lemma TakeoverOnlyWhenFree(ws: seq<World>, actions: seq<Action>, i: nat, h: string)
    requires IsRun(ws, actions) && i < |actions| && TimelyUpTo(ws, actions, i)
    requires Writes(actions[i], h) && ws[i + 1].version != ws[i].version
    ensures ws[i].lease.None? || !HeldByOther(ws[i].lease.value, h, ws[i].clock)
    ensures ws[i + 1].lease.Some? && ws[i + 1].lease.value.holder == Some(h)
    ensures forall g :: g != h ==> !Believes(ws[i], g)
  {
    RunInv(ws, actions, i);
    assert Step(ws[i], actions[i], ws[i + 1]);
    assert SnapshotInv(ws[i], h);
    forall g | g != h ensures !Believes(ws[i], g) {
      if g in ws[i].backups { StoreClosesOthers(ws[i], actions[i], ws[i + 1], h, g); }
    }
  }

  // ----- late releases

  /** A situation that this backup, about to patch, cannot tell from another: its own state, the
      clock and what it has read are the same. */
  ghost predicate LooksLike(u: World, w: World, h: string) {
    Inv(u) && u.clock == w.clock && h in u.backups && h in w.backups && u.backups[h] == w.backups[h]
  }

  ghost predicate OtherBelieves(w: World, h: string) { exists g :: g != h && Believes(w, g) }

  /** A release is sure to take nobody's lease away, as far as its sender can tell, if and only if
      its own window is still open. */
  lemma ReleaseSafeIff(w: World, h: string)
    requires Inv(w) && h in w.backups && w.backups[h].pc.Releasing?
    ensures Believes(w, h) <==> forall u :: LooksLike(u, w, h) ==> !OtherBelieves(u, h)
  {
    if Believes(w, h) {
      forall u | LooksLike(u, w, h) ensures !OtherBelieves(u, h) {
        forall g | g != h ensures !Believes(u, g) {
          assert WindowInv(u, h);
          if g in u.backups { assert WindowInv(u, g); }
        }
      }
    } else {
      var u := Overtaken(w, h);
    }
  }

  /** The window is over, and somebody else has claimed the lease since it was read. */
  lemma Overtaken(w: World, h: string) returns (u: World)
    requires Inv(w) && h in w.backups && w.backups[h].pc.Releasing? && !Believes(w, h)
    ensures LooksLike(u, w, h) && OtherBelieves(u, h)
  {
    var g := h + "'";
    var claimed := Backup(Idle, Some(Expiry(w.clock, DURATION_SECONDS)));
    u := World(w.clock, Some(Created(g, w.clock)), w.backups[h].pc.seen + 1, map[h := w.backups[h], g := claimed]);
    assert g != h;
    assert SnapshotInv(w, h);
    assert WindowInv(u, g) && WindowInv(u, h) && SnapshotInv(u, h);
    assert Believes(u, g);
  }

  lemma Extend(ws: seq<World>, actions: seq<Action>, a: Action, w: World)
    requires IsRun(ws, actions) && Step(ws[|actions|], a, w)
    ensures IsRun(ws + [w], actions + [a])
  {
  }

  /** An idle backup that finds the lease absent, free or expired gets it. */
  lemma Claims(ws: seq<World>, actions: seq<Action>, h: string) returns (ws': seq<World>, actions': seq<Action>)
    requires IsRun(ws, actions)
    requires var w := ws[|actions|];
             h in w.backups && w.backups[h].pc.Idle? && (w.lease.Some? ==> !HeldByOther(w.lease.value, h, w.clock))
    ensures IsRun(ws', actions')
    ensures var w, w' := ws[|actions|], ws'[|actions'|];
            && w'.clock == w.clock && w'.lease.Some? && w'.lease.value.holder == Some(h)
            && w'.lease.value.seconds == Some(DURATION_SECONDS) && w'.lease.value.renewed == Some(w.clock)
            && w'.backups == w.backups[h := Backup(Idle, Some(Expiry(w.clock, DURATION_SECONDS)))]
  {
    hide IsRun, HeldByOther;
    RunEnds(ws, actions);
    var w := ws[|actions|];
    var w1 := Move(w, h, w.backups[h].(pc := Sampled(w.clock)));
    var w2 := Move(w1, h, w1.backups[h].(pc := if w.lease.None? then Creating(w.clock)
                                                else Writing(w.clock, w.lease.value, w.version)));
    var l := if w.lease.None? then Created(h, w.clock) else Renewed(w.lease.value, h, w.clock);
    var w3 := Store(w2, h, l, w.clock);
    Extend(ws, actions, Sample(h), w1);
    Extend(ws + [w1], actions + [Sample(h)], Read(h), w2);
    ws', actions' := ws + [w1] + [w2], actions + [Sample(h)] + [Read(h)];
    var a := if w.lease.None? then Create(h) else Write(h);
    Extend(ws', actions', a, w3);
    ws', actions' := ws' + [w3], actions' + [a];
    assert w3.backups == w.backups[h := Backup(Idle, Some(Expiry(w.clock, DURATION_SECONDS)))];
  }

  lemma RunEnds(ws: seq<World>, actions: seq<Action>)
    requires IsRun(ws, actions)
    ensures |ws| == |actions| + 1
  {
  }

  /** A late release lets two in: a's window is over when it reads its lease; b claims it; a's
      patch frees it; c claims it while b is inside its window. */
  lemma LateRelease() returns (ws: seq<World>, actions: seq<Action>)
    ensures IsRun(ws, actions) && |ws| == |actions| + 1
    ensures Believes(ws[|actions|], "b") && Believes(ws[|actions|], "c")
  {
    var idle, end := Backup(Idle, None), Expiry(0, DURATION_SECONDS);
    ws, actions := [World(0, None, 0, map["a" := idle, "b" := idle, "c" := idle])], [];
    assert IsRun(ws, actions);
    hide IsRun;
    ws, actions := Claims(ws, actions, "a");
    RunEnds(ws, actions);
    var w := ws[|actions|].(clock := end);
    Extend(ws, actions, Tick(end), w);
    ws, actions := ws + [w], actions + [Tick(end)];
    var read := w.lease.value;
    w := Move(w, "a", w.backups["a"].(pc := Releasing(read, w.version)));
    Extend(ws, actions, ReleaseRead("a"), w);
    ws, actions := ws + [w], actions + [ReleaseRead("a")];
    ws, actions := Claims(ws, actions, "b");
    RunEnds(ws, actions);
    w := ws[|actions|];
    w := World(w.clock, Some(Released(w.lease.value, read)), w.version + 1, w.backups["a" := idle]);
    Extend(ws, actions, ReleasePatch("a"), w);
    ws, actions := ws + [w], actions + [ReleasePatch("a")];
    ws, actions := Claims(ws, actions, "c");
    RunEnds(ws, actions);
  }
}
