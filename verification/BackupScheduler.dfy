/** The backup scheduler (perconavalkeybackup/schedule.go): a clock-driven cron registry per
    cluster, with forward-only catch-up and overlap-Forbid. */
module BackupScheduler {
  import opened Sorting
  import opened ClusterView

  /** A parsed cron expression: the least slot strictly after a time. */
  datatype Cron = Cron(next: int -> int)

  ghost predicate CronOk(c: Cron) {
    && (forall t: int :: c.next(t) > t)
    && (forall t: int, u: int :: t <= u < c.next(t) ==> c.next(u) == c.next(t))
  }

  ghost predicate IsSlot(c: Cron, s: int) { c.next(s - 1) == s }

  datatype Registration = Registration(cron: Cron, text: string, lastFire: int)

  type Registry = map<string, Registration>

  datatype Schedule = Schedule(name: string, text: string)

  // ----- the catch-up slot

  /** The latest slot after the anchor and not after `now`. */
  ghost predicate LatestElapsed(c: Cron, anchor: int, now: int, r: Option<int>) {
    match r
    case None => c.next(anchor) > now
    case Some(s) => IsSlot(c, s) && anchor < s <= now && c.next(s) > now
  }

  /** `mostRecentElapsedSlot`: step from slot to slot until the next one lies ahead. */
  method MostRecentElapsedSlot(reg: Registration, now: int) returns (slot: Option<int>)
    requires CronOk(reg.cron)
    ensures slot == Catchup(reg.cron, reg.lastFire, now)
    ensures LatestElapsed(reg.cron, reg.lastFire, now, slot)
  {
    slot := None;
    var anchor := reg.lastFire;
    while reg.cron.next(anchor) <= now
      invariant slot == (if anchor == reg.lastFire then None else Some(anchor)) && reg.lastFire <= anchor
      invariant Catchup(reg.cron, reg.lastFire, now) ==
                (var rest := Catchup(reg.cron, anchor, now); if rest.Some? then rest else slot)
      decreases now - anchor
    {
      anchor := reg.cron.next(anchor);
      slot := Some(anchor);
    }
    CatchupFacts(reg.cron, reg.lastFire, now);
  }

  ghost function Catchup(c: Cron, anchor: int, now: int): (r: Option<int>)
    requires CronOk(c)
    decreases now - anchor
  {
    if c.next(anchor) > now then None
    else
      var rest := Catchup(c, c.next(anchor), now);
      if rest.Some? then rest else Some(c.next(anchor))
  }

  lemma {:induction false} CatchupFacts(c: Cron, anchor: int, now: int)
    requires CronOk(c)
    ensures LatestElapsed(c, anchor, now, Catchup(c, anchor, now))
    decreases now - anchor
  {
    if c.next(anchor) <= now {
      CatchupFacts(c, c.next(anchor), now);
      var s := c.next(anchor);
      assert c.next(s - 1) == s;
    }
  }

  // ----- keeping the registry in step with the spec

  datatype Synced = Synced(reg: Registry, ok: bool)

  /** Upsert the listed schedules in order, stopping at the first invalid cron text. */
  ghost function Upsert(reg: Registry, specs: seq<Schedule>, parse: string -> Option<Cron>, now: int): (r: Synced) {
    if specs == [] then Synced(reg, true)
    else
      var before, s := Upsert(reg, specs[..|specs| - 1], parse, now), specs[|specs| - 1];
      if !before.ok then before
      else if s.name in before.reg && before.reg[s.name].text == s.text then before
      else match parse(s.text)
           case None => before.(ok := false)
           case Some(c) =>
             Synced(before.reg[s.name := Registration(c, s.text,
                      if s.name in before.reg then before.reg[s.name].lastFire else now)], true)
  }

  predicate Wanted(specs: seq<Schedule>, name: string) { exists s :: s in specs && s.name == name }

  /** The registry after a Sync; None when the cluster has none. A failed Sync keeps the
      upserts made so far, but only if the cluster was already registered. */
  ghost function SyncResult(cur: Option<Registry>, specs: seq<Schedule>, deleted: bool, parse: string -> Option<Cron>,
                            now: int)
    : (Option<Registry>, bool)
  {
    if deleted || specs == [] then (None, true)
    else
      var r := Upsert(if cur.Some? then cur.value else map[], specs, parse, now);
      if !r.ok then (if cur.Some? then Some(r.reg) else None, false)
      else (Some(map n | n in r.reg && Wanted(specs, n) :: r.reg[n]), true)
  }

  ghost function Lookup(states: map<string, Registry>, key: string): (r: Option<Registry>) {
    if key in states then Some(states[key]) else None
  }

  class Scheduler {
    var states: map<string, Registry>

    /** `Sync`. */
    method Sync(key: string, specs: seq<Schedule>, deleted: bool, parse: string -> Option<Cron>, now: int)
      returns (ok: bool)
      modifies this
      ensures (Lookup(states, key), ok) == SyncResult(Lookup(old(states), key), specs, deleted, parse, now)
      ensures forall k :: k != key ==> Lookup(states, k) == Lookup(old(states), k)
    {
      hide Wanted;
      if deleted || |specs| == 0 {
        states := states - {key};
        return true;
      }
      var known := key in states;
      var cur: Registry := if known then states[key] else map[];
      ghost var start := cur;
      for i := 0 to |specs|
        invariant Upsert(start, specs[..i], parse, now) == Synced(cur, true)
        invariant states == if known then old(states)[key := cur] else old(states)
      {
        assert specs[..i + 1][..i] == specs[..i];
        var s := specs[i];
        if s.name in cur && cur[s.name].text == s.text {
          continue;
        }
        var parsed := parse(s.text);
        if parsed.None? {
          UpsertStops(start, specs, i + 1, parse, now);
          return false;
        }
        var anchor := if s.name in cur then cur[s.name].lastFire else now;
        cur := cur[s.name := Registration(parsed.value, s.text, anchor)];
        if known {
          states := states[key := cur]; // the registered map itself is being edited
        }
      }
      assert specs[..|specs|] == specs;
      states := states[key := map n | n in cur && Wanted(specs, n) :: cur[n]];
      return true;
    }

    /** One due schedule of a pass. */
    method FireDue(key: string, n: string, slot: int, specs: seq<Schedule>, name: (string, int) -> string, kube: Kube,
                   fault: bool)
      returns (fire: Fire)
      requires key in states && n in states[key]
      modifies this, kube
      ensures fire.FireError? <==> fault && Wanted(specs, n)
      ensures fire.FireError? ==> states == old(states) && kube.backups == old(kube.backups)
      ensures !fire.FireError? ==>
                && key in states && states[key].Keys == old(states)[key].Keys
                && Fired(states[key], kube.backups) ==
                    FireOne(Fired(old(states)[key], old(kube.backups)), n, slot, specs, name)
      ensures |kube.backups| == |old(kube.backups)| + if fire.FireCreated? then 1 else 0
      ensures forall c :: c != key ==> Lookup(states, c) == Lookup(old(states), c)
    {
      if !Wanted(specs, n) {
        return FireSkipped;
      }
      fire := FireSchedule(kube, n, slot, name(n, slot), fault);
      if !fire.FireError? {
        states := states[key := states[key][n := states[key][n].(lastFire := slot)]];
      }
    }

    /** `Tick`: fire every due schedule once, in name order; `faultAt` is the first due
        schedule whose API calls fail, ending the pass. `name` builds the backup's name. */
    method Tick(key: string, specs: seq<Schedule>, now: int, name: (string, int) -> string, kube: Kube, faultAt: nat)
      returns (created: nat, ghost names: seq<string>, ghost k: nat)
      requires key in states ==> forall n :: n in states[key] ==> CronOk(states[key][n].cron)
      modifies this, kube
      ensures key !in old(states) ==> states == old(states) && kube.backups == old(kube.backups)
      ensures key in old(states) ==>
                && Distinct(names) && Sorted(names, StringLe) && (forall n :: n in names <==> n in old(states)[key])
                && k == Processed(Dues(old(states)[key], names, now), specs, faultAt)
                && key in states
                && Fired(states[key], kube.backups)
                   == FireAll(Fired(old(states)[key], old(kube.backups)), Dues(old(states)[key], names, now)[..k],
                       specs, name)
      ensures forall c :: c != key ==> Lookup(states, c) == Lookup(old(states), c)
      ensures |kube.backups| == |old(kube.backups)| + created
      ensures key in old(states) ==>
                var dues := Dues(old(states)[key], names, now);
                && (forall n, s :: (n, s) in dues <==>
                      && n in old(states)[key]
                      && LatestElapsed(old(states)[key][n].cron, old(states)[key][n].lastFire, now, Some(s)))
                && CreatesExactly(old(kube.backups), kube.backups, dues[..k], specs, name)
                && AnchorsExactly(old(states)[key], states[key], dues[..k], specs)
    {
      hide LatestElapsed, CreatesExactly, AnchorsExactly;
      created, k, names := 0, 0, [];
      if key !in states {
        return;
      }
      ghost var reg := states[key];
      var dues, order := CollectDues(states[key], now);
      names := order;
      DuesRegistered(reg, names, now);
      TickMeans(reg, kube.backups, names, now, specs, name);
      assert FireAll(Fired(reg, kube.backups), dues[..0], specs, name) == Fired(reg, kube.backups);
      hide CronOk, Dues, FireAll, FireOne, Distinct, Lookup;
      for i := 0 to |dues|
        invariant k == i && i <= Processed(dues, specs, faultAt) && key in states && states[key].Keys == reg.Keys
        invariant Fired(states[key], kube.backups) == FireAll(Fired(reg, old(kube.backups)), dues[..i], specs, name)
        invariant forall c :: c != key ==> Lookup(states, c) == Lookup(old(states), c)
        invariant |kube.backups| == |old(kube.backups)| + created
      {
        FireAllSnoc(Fired(reg, old(kube.backups)), dues, i, specs, name);
        assert dues[i].0 in names;
        var fire := FireDue(key, dues[i].0, dues[i].1, specs, name, kube, i == faultAt);
        if fire.FireError? {
          return;
        }
        if fire.FireCreated? {
          created := created + 1;
        }
        k := i + 1;
      }
      assert dues[..|dues|] == dues;
    }
  }

  /** How many due schedules a pass gets through: an API fault strikes a schedule still in the spec. */
  function Processed(dues: seq<(string, int)>, specs: seq<Schedule>, faultAt: nat): (k: nat)
    ensures k <= |dues|
  {
    if faultAt < |dues| && Wanted(specs, dues[faultAt].0) then faultAt else |dues|
  }

  datatype Fire = FireCreated | FireOverlap | FireDeduped | FireSkipped | FireError

  /** `fireSchedule`. */
  method FireSchedule(kube: Kube, n: string, slot: int, name: string, fault: bool) returns (fire: Fire)
    modifies kube
    ensures fire == (if fault then FireError else if HasActiveRun(old(kube.backups), n) then FireOverlap
                     else if name in old(kube.backups) then FireDeduped else FireCreated)
    ensures kube.backups == if fire.FireCreated? then old(kube.backups)[name := Run(Some(n), New, false)]
              else old(kube.backups)
  {
    if fault {
      return FireError;
    }
    if HasActiveRun(kube.backups, n) {
      return FireOverlap;
    }
    if name in kube.backups {
      return FireDeduped;
    }
    kube.backups := kube.backups[name := Run(Some(n), New, false)];
    return FireCreated;
  }

  /** The due schedules in name order, each with its catch-up slot. */
  method CollectDues(reg: Registry, now: int) returns (dues: seq<(string, int)>, ghost names: seq<string>)
    requires forall n :: n in reg ==> CronOk(reg[n].cron)
    ensures Distinct(names) && Sorted(names, StringLe) && (forall n :: n in names <==> n in reg)
    ensures dues == Dues(reg, names, now)
  {
    var order := SortedNames(reg.Keys);
    dues, names := [], order;
    for i := 0 to |order|
      invariant dues == Dues(reg, order[..i], now)
    {
      assert order[..i + 1][..i] == order[..i];
      assert order[i] in reg;
      var slot := MostRecentElapsedSlot(reg[order[i]], now);
      if slot.Some? {
        dues := dues + [(order[i], slot.value)];
      }
    }
    assert order[..|order|] == order;
  }

  method SortedNames(keys: set<string>) returns (out: seq<string>)
    ensures Distinct(out) && Sorted(out, StringLe) && forall n :: n in out <==> n in keys
  {
    var list: seq<string> := [];
    var left := keys;
    while left != {}
      invariant left <= keys && Distinct(list) && forall n :: n in list <==> n in keys && n !in left
      decreases left
    {
      var n :| n in left;
      left := left - {n};
      list := list + [n];
    }
    out := Sort(list, StringLe);
    SortPermutes(list, StringLe);
    StringOrder();
    SortSorts(list, StringLe);
    SortKeepsDistinct(list, StringLe);
  }

  // ----- firing

  datatype Phase = New | Starting | Running | Succeeded | Failed | Error {
    predicate IsTerminal() { Succeeded? || Failed? || Error? }
  }

  /** A backup object; `schedule` is its schedule label, if any. */
  datatype Run = Run(schedule: Option<string>, phase: Phase, deleting: bool) {
    predicate IsActive() { !deleting && !phase.IsTerminal() }
  }

  class Kube {
    var backups: map<string, Run>
  }

  /** `scheduleHasActiveRun`. */
  predicate HasActiveRun(backups: map<string, Run>, schedule: string) {
    exists b :: b in backups && backups[b].schedule == Some(schedule) && backups[b].IsActive()
  }

  datatype Fired = Fired(reg: Registry, backups: map<string, Run>)

  ghost function Dues(reg: Registry, names: seq<string>, now: int): (r: seq<(string, int)>)
    requires forall n :: n in names ==> n in reg && CronOk(reg[n].cron)
  {
    if names == [] then []
    else
      var before, n := Dues(reg, names[..|names| - 1], now), names[|names| - 1];
      match Catchup(reg[n].cron, reg[n].lastFire, now)
      case None => before
      case Some(s) => before + [(n, s)]
  }

  /** The latest elapsed slot is one slot. */
  lemma LatestUnique(c: Cron, anchor: int, now: int, r: Option<int>, q: Option<int>)
    requires CronOk(c) && LatestElapsed(c, anchor, now, r) && LatestElapsed(c, anchor, now, q)
    ensures r == q
  {
    if r.Some? { LaterSlot(c, anchor, now, r.value, q); }
    if q.Some? { LaterSlot(c, anchor, now, q.value, r); }
  }

  lemma LaterSlot(c: Cron, anchor: int, now: int, s: int, q: Option<int>)
    requires CronOk(c) && LatestElapsed(c, anchor, now, Some(s)) && LatestElapsed(c, anchor, now, q)
    ensures q.Some? && q.value <= s
  {
    assert c.next(s - 1) == s;
    assert c.next(anchor) > s - 1 ==> c.next(s - 1) == c.next(anchor);
    assert forall u :: s <= u < c.next(s) ==> c.next(u) == c.next(s);
  }

  /** The list holds exactly the schedules with an elapsed slot, each with its latest. */
  lemma {:induction false} DuesAre(reg: Registry, names: seq<string>, now: int, n: string, s: int)
    requires forall m :: m in names ==> m in reg && CronOk(reg[m].cron)
    ensures (n, s) in Dues(reg, names, now) <==>
            n in names && LatestElapsed(reg[n].cron, reg[n].lastFire, now, Some(s))
  {
    if names == [] {
    } else {
      var front, last := names[..|names| - 1], names[|names| - 1];
      assert names == front + [last] && last in names;
      DuesAre(reg, front, now, n, s);
      CatchupFacts(reg[last].cron, reg[last].lastFire, now);
      var r := Catchup(reg[last].cron, reg[last].lastFire, now);
      if n == last && LatestElapsed(reg[n].cron, reg[n].lastFire, now, Some(s)) {
        LatestUnique(reg[n].cron, reg[n].lastFire, now, r, Some(s));
      }
      hide CronOk, LatestElapsed, Catchup;
    }
  }

  lemma {:induction false} DuesRegistered(reg: Registry, names: seq<string>, now: int)
    requires forall n :: n in names ==> n in reg && CronOk(reg[n].cron)
    ensures forall i :: 0 <= i < |Dues(reg, names, now)| ==> Dues(reg, names, now)[i].0 in names
  {
    if names == [] {
    } else {
      DuesRegistered(reg, names[..|names| - 1], now);
    }
  }

  /** One due schedule: a backup unless a previous run is active or the slot's backup exists;
      the fire anchor advances either way. A schedule gone from the spec is left alone. */
  function FireOne(f: Fired, n: string, slot: int, specs: seq<Schedule>, name: (string, int) -> string): (r: Fired) {
    if !Wanted(specs, n) || n !in f.reg then f
    else
      var backups := if HasActiveRun(f.backups, n) || name(n, slot) in f.backups then f.backups
                     else f.backups[name(n, slot) := Run(Some(n), New, false)];
      Fired(f.reg[n := f.reg[n].(lastFire := slot)], backups)
  }

  function FireAll(f: Fired, dues: seq<(string, int)>, specs: seq<Schedule>,
                   name: (string, int) -> string): (r: Fired) {
    if dues == [] then f
    else FireOne(FireAll(f, dues[..|dues| - 1], specs, name), dues[|dues| - 1].0, dues[|dues| - 1].1, specs, name)
  }

  lemma FireAllSnoc(f: Fired, dues: seq<(string, int)>, i: nat, specs: seq<Schedule>, name: (string, int) -> string)
    requires i < |dues|
    ensures FireAll(f, dues[..i + 1], specs, name) ==
              FireOne(FireAll(f, dues[..i], specs, name), dues[i].0, dues[i].1, specs, name)
  {
    hide FireOne;
    assert dues[..i + 1][..i] == dues[..i];
  }

  lemma {:induction false} UpsertStops(reg: Registry, specs: seq<Schedule>, i: nat, parse: string -> Option<Cron>,
                                       now: int)
    requires i <= |specs| && !Upsert(reg, specs[..i], parse, now).ok
    ensures Upsert(reg, specs, parse, now) == Upsert(reg, specs[..i], parse, now)
    decreases |specs| - i
  {
    if i < |specs| {
      assert specs[..i + 1][..i] == specs[..i];
      UpsertStops(reg, specs, i + 1, parse, now);
    } else {
      assert specs[..i] == specs;
    }
  }

  // ----- whole histories of one cluster

  /** `acted` lists the (schedule, slot) pairs the scheduler has acted on, in order. */
  datatype Sys = Sys(clock: int, reg: Option<Registry>, backups: map<string, Run>, acted: seq<(string, int)>)

  datatype Action =
    | Advance(t: int)
    | SyncTo(specs: seq<Schedule>, deleted: bool)
    | TickNow(specs: seq<Schedule>, names: seq<string>, k: nat)  // a pass that got through k due schedules
    | Progress(b: string, to: Run)                               // a backup moves on; a finished one stays finished
    | Removed(b: string)
    | Manual(b: string)                                          // a backup outside every schedule

  function FireSys(w: Sys, n: string, slot: int, specs: seq<Schedule>, name: (string, int) -> string): (r: Sys) {
    if w.reg.None? || !Wanted(specs, n) || n !in w.reg.value then w
    else
      var f := FireOne(Fired(w.reg.value, w.backups), n, slot, specs, name);
      Sys(w.clock, Some(f.reg), f.backups, w.acted + [(n, slot)])
  }

  function TickSys(w: Sys, dues: seq<(string, int)>, specs: seq<Schedule>, name: (string, int) -> string): (r: Sys) {
    if dues == [] then w
    else FireSys(TickSys(w, dues[..|dues| - 1], specs, name), dues[|dues| - 1].0, dues[|dues| - 1].1, specs, name)
  }

  ghost predicate Registered(reg: Registry, names: seq<string>) {
    Distinct(names) && (forall n :: n in names <==> n in reg) && forall n :: n in reg ==> CronOk(reg[n].cron)
  }

  ghost predicate Step(w: Sys, a: Action, w': Sys, parse: string -> Option<Cron>, name: (string, int) -> string) {
    match a
    case Advance(t) => t >= w.clock && w' == w.(clock := t)
    case SyncTo(specs, deleted) => w' == w.(reg := SyncResult(w.reg, specs, deleted, parse, w.clock).0)
    case TickNow(specs, names, k) =>
      if w.reg.None? then w' == w
      else && Registered(w.reg.value, names) && k <= |Dues(w.reg.value, names, w.clock)|
           && w' == TickSys(w, Dues(w.reg.value, names, w.clock)[..k], specs, name)
    case Progress(b, to) =>
      && b in w.backups && to.schedule == w.backups[b].schedule && (to.IsActive() ==> w.backups[b].IsActive())
      && w' == w.(backups := w.backups[b := to])
    case Removed(b) => w' == w.(backups := w.backups - {b})
    case Manual(b) => b !in w.backups && w' == w.(backups := w.backups[b := Run(None, New, false)])
  }

  ghost predicate IsRun(ws: seq<Sys>, actions: seq<Action>, parse: string -> Option<Cron>,
                        name: (string, int) -> string) {
    && |ws| == |actions| + 1
    && ws[0].reg.None? && ws[0].backups == map[] && ws[0].acted == []
    && (forall text :: parse(text).Some? ==> CronOk(parse(text).value))
    && forall i :: 0 <= i < |actions| ==> Step(ws[i], actions[i], ws[i + 1], parse, name)
  }

  ghost predicate RegInv(reg: Registry, clock: int) {
    forall n :: n in reg ==> CronOk(reg[n].cron) && reg[n].lastFire <= clock
  }

  /** Nothing acted on lies ahead of the clock or of its schedule's anchor. */
  ghost predicate ActedInv(w: Sys) {
    forall i :: 0 <= i < |w.acted| ==>
      && w.acted[i].1 <= w.clock
      && (w.reg.Some? && w.acted[i].0 in w.reg.value ==> w.acted[i].1 <= w.reg.value[w.acted[i].0].lastFire)
  }

  /** The slots acted on for one schedule name only ever go forward. */
  ghost predicate Forward(acted: seq<(string, int)>) {
    forall i, j :: 0 <= i < j < |acted| && acted[i].0 == acted[j].0 ==> acted[i].1 < acted[j].1
  }

  /** No schedule has two active backups. */
  ghost predicate NoOverlap(backups: map<string, Run>) {
    forall a, b ::
      (&& a in backups && b in backups && backups[a].IsActive() && backups[b].IsActive()
       && backups[a].schedule.Some? && backups[a].schedule == backups[b].schedule) ==> a == b
  }

  ghost predicate Inv(w: Sys) {
    && (w.reg.Some? ==> RegInv(w.reg.value, w.clock))
    && ActedInv(w) && Forward(w.acted) && NoOverlap(w.backups)
  }

  lemma FireKeepsInv(w: Sys, n: string, slot: int, specs: seq<Schedule>, name: (string, int) -> string)
    requires Inv(w)
    requires w.reg.Some? && n in w.reg.value ==> w.reg.value[n].lastFire < slot <= w.clock
    ensures Inv(FireSys(w, n, slot, specs, name))
  {
    var w' := FireSys(w, n, slot, specs, name);
    if w.reg.Some? && Wanted(specs, n) && n in w.reg.value {
      assert w'.acted == w.acted + [(n, slot)];
      assert RegInv(w'.reg.value, w'.clock);
      FireNoOverlap(w.backups, n, name(n, slot));
    }
  }

  lemma FireNoOverlap(backups: map<string, Run>, n: string, b: string)
    requires NoOverlap(backups)
    ensures !HasActiveRun(backups, n) ==> NoOverlap(backups[b := Run(Some(n), New, false)])
  {
  }

  /** What one pass acts on: each schedule at most once, at its latest elapsed slot. */
  ghost predicate DueList(reg: Registry, dues: seq<(string, int)>, now: int) {
    && (forall i :: 0 <= i < |dues| ==>
          dues[i].0 in reg && LatestElapsed(reg[dues[i].0].cron, reg[dues[i].0].lastFire, now, Some(dues[i].1)))
    && (forall i, j :: 0 <= i < j < |dues| ==> dues[i].0 != dues[j].0)
  }

  lemma {:induction false} DuesFacts(reg: Registry, names: seq<string>, now: int)
    requires Distinct(names) && forall n :: n in names ==> n in reg && CronOk(reg[n].cron)
    ensures DueList(reg, Dues(reg, names, now), now)
  {
    hide CronOk, LatestElapsed;
    if names == [] {
    } else {
      var last, front := names[|names| - 1], names[..|names| - 1];
      assert names == front + [last] && last !in front;
      assert last in names;
      DuesFacts(reg, front, now);
      DuesRegistered(reg, front, now);
      CatchupFacts(reg[last].cron, reg[last].lastFire, now);
    }
  }

  /** What a prefix of a pass leaves alone. */
  ghost predicate Untouched(w: Sys, w': Sys, dues: seq<(string, int)>) {
    && w'.clock == w.clock && w'.reg.Some? == w.reg.Some?
    && (w.reg.Some? ==> forall n :: n in w'.reg.value && (forall i :: 0 <= i < |dues| ==> dues[i].0 != n) ==>
          n in w.reg.value && w'.reg.value[n] == w.reg.value[n])
  }

  lemma {:induction false} TickKeepsInv(w: Sys, dues: seq<(string, int)>, specs: seq<Schedule>,
                                        name: (string, int) -> string)
    requires Inv(w) && w.reg.Some? && DueList(w.reg.value, dues, w.clock)
    ensures Inv(TickSys(w, dues, specs, name)) && Untouched(w, TickSys(w, dues, specs, name), dues)
  {
    hide Inv, CronOk, Wanted;
    if dues == [] {
    } else {
      var front, last := dues[..|dues| - 1], dues[|dues| - 1];
      TickKeepsInv(w, front, specs, name);
      var before := TickSys(w, front, specs, name);
      assert last.0 in before.reg.value ==> before.reg.value[last.0] == w.reg.value[last.0];
      FireKeepsInv(before, last.0, last.1, specs, name);
      FireTouches(before, last.0, last.1, specs, name);
      hide FireSys, DueList;
      TouchOne(w, before, TickSys(w, dues, specs, name), dues);
    }
  }

  /** Firing changes the entry of its own schedule only. */
  lemma FireTouches(w: Sys, n: string, slot: int, specs: seq<Schedule>, name: (string, int) -> string)
    ensures Untouched(w, FireSys(w, n, slot, specs, name), [(n, slot)])
  {
    hide Wanted, HasActiveRun;
    assert [(n, slot)][0].0 == n;
  }

  lemma TouchOne(w: Sys, before: Sys, after: Sys, dues: seq<(string, int)>)
    requires dues != [] && Untouched(w, before, dues[..|dues| - 1]) && Untouched(before, after, [dues[|dues| - 1]])
    ensures Untouched(w, after, dues)
  {
    var front, last := dues[..|dues| - 1], dues[|dues| - 1];
    if w.reg.Some? {
      forall n | n in after.reg.value && forall i :: 0 <= i < |dues| ==> dues[i].0 != n
        ensures n in w.reg.value && after.reg.value[n] == w.reg.value[n]
      {
        assert forall i :: 0 <= i < |front| ==> front[i] == dues[i];
      }
    }
  }

  lemma {:induction false} CreatedByDues(f: Fired, dues: seq<(string, int)>, specs: seq<Schedule>,
                                         name: (string, int) -> string, now: int)
    requires DueList(f.reg, dues, now)
    ensures forall b :: b in f.backups ==>
              b in FireAll(f, dues, specs, name).backups && FireAll(f, dues, specs, name).backups[b] == f.backups[b]
    ensures forall b :: b in FireAll(f, dues, specs, name).backups && b !in f.backups ==>
              exists i :: 0 <= i < |dues| && b == name(dues[i].0, dues[i].1)
                  && FireAll(f, dues, specs, name).backups[b].schedule == Some(dues[i].0)
  {
    hide LatestElapsed, Wanted, HasActiveRun;
    if dues == [] {
    } else {
      var front, last := dues[..|dues| - 1], dues[|dues| - 1];
      CreatedByDues(f, front, specs, name, now);
      assert forall i :: 0 <= i < |front| ==> dues[i] == front[i];
      assert dues[|dues| - 1] == last;
    }
  }

  // ----- what a pass does, said without the firing

  /** This due schedule gets a backup: it is in the spec, has no active run, and its backup is not
      there yet. */
  ghost predicate Creates(before: map<string, Run>, due: (string, int), specs: seq<Schedule>,
                          name: (string, int) -> string) {
    && (exists s :: s in specs && s.name == due.0) && name(due.0, due.1) !in before
    && forall b :: b in before && before[b].schedule == Some(due.0) ==>
         before[b].deleting || before[b].phase in {Succeeded, Failed, Error}
  }

  /** Nothing is lost or changed, every due schedule that needs one gets a fresh backup under its
      name, and nothing else is there. */
  ghost predicate CreatesExactly(before: map<string, Run>, after: map<string, Run>, dues: seq<(string, int)>,
                                 specs: seq<Schedule>, name: (string, int) -> string) {
    && (forall b :: b in before ==> b in after && after[b] == before[b])
    && (forall b :: b in after && b !in before ==>
          exists i :: 0 <= i < |dues| && Creates(before, dues[i], specs, name) && b == name(dues[i].0, dues[i].1)
              && after[b] == Run(Some(dues[i].0), New, false))
    && (forall i :: 0 <= i < |dues| && Creates(before, dues[i], specs, name) ==> name(dues[i].0, dues[i].1) in after)
  }

  /** The anchor of every due schedule in the spec is its slot; nothing else in the registry changes. */
  ghost predicate AnchorsExactly(before: Registry, after: Registry, dues: seq<(string, int)>, specs: seq<Schedule>) {
    && after.Keys == before.Keys
    && (forall n :: n in before ==> after[n].cron == before[n].cron && after[n].text == before[n].text)
    && (forall i :: 0 <= i < |dues| && dues[i].0 in before && (exists s :: s in specs && s.name == dues[i].0) ==>
          after[dues[i].0].lastFire == dues[i].1)
    && forall n :: n in before && (forall i :: 0 <= i < |dues| && dues[i].0 == n ==>
                                     forall s :: s in specs ==> s.name != n) ==>
         after[n].lastFire == before[n].lastFire
  }

  lemma ActiveMeans(backups: map<string, Run>, n: string)
    ensures HasActiveRun(backups, n) <==>
            !forall b :: b in backups && backups[b].schedule == Some(n) ==>
               backups[b].deleting || backups[b].phase in {Succeeded, Failed, Error}
  {
  }

  /** Other schedules' new backups make no run of this one active. */
  lemma {:induction false} ActiveStays(f: Fired, dues: seq<(string, int)>, specs: seq<Schedule>,
                                       name: (string, int) -> string, n: string)
    requires forall i :: 0 <= i < |dues| ==> dues[i].0 != n
    ensures HasActiveRun(FireAll(f, dues, specs, name).backups, n) <==> HasActiveRun(f.backups, n)
  {
    hide Wanted;
    if dues == [] {
    } else {
      var front, last := dues[..|dues| - 1], dues[|dues| - 1];
      assert forall i :: 0 <= i < |front| ==> dues[i] == front[i];
      ActiveStays(f, front, specs, name, n);
      var backups := FireAll(f, front, specs, name).backups;
      if name(last.0, last.1) !in backups { FreshStays(backups, last.0, name(last.0, last.1), n); }
    }
  }

  lemma FreshStays(backups: map<string, Run>, m: string, b: string, n: string)
    requires m != n && b !in backups
    ensures HasActiveRun(backups[b := Run(Some(m), New, false)], n) <==> HasActiveRun(backups, n)
  {
    var after := backups[b := Run(Some(m), New, false)];
    forall x | x in backups ensures x in after && after[x] == backups[x] {}
  }

  lemma {:induction false} FireAllIs(f: Fired, dues: seq<(string, int)>, specs: seq<Schedule>,
                                     name: (string, int) -> string)
    requires forall i, j :: 0 <= i < j < |dues| ==> dues[i].0 != dues[j].0
    requires forall i :: 0 <= i < |dues| ==> dues[i].0 in f.reg
    ensures var g := FireAll(f, dues, specs, name);
            && CreatesExactly(f.backups, g.backups, dues, specs, name)
            && AnchorsExactly(f.reg, g.reg, dues, specs)
  {
    if dues == [] {
    } else {
      var front, last := dues[..|dues| - 1], dues[|dues| - 1];
      assert forall i :: 0 <= i < |front| ==> dues[i] == front[i];
      FireAllIs(f, front, specs, name);
      ActiveStays(f, front, specs, name, last.0);
      ActiveMeans(f.backups, last.0);
      FireOneIs(f, FireAll(f, front, specs, name), dues, specs, name);
    }
  }

  lemma FireOneIs(f: Fired, g: Fired, dues: seq<(string, int)>, specs: seq<Schedule>, name: (string, int) -> string)
    requires dues != [] && forall i, j :: 0 <= i < j < |dues| ==> dues[i].0 != dues[j].0
    requires var front, last := dues[..|dues| - 1], dues[|dues| - 1];
             && last.0 in f.reg && CreatesExactly(f.backups, g.backups, front, specs, name)
             && AnchorsExactly(f.reg, g.reg, front, specs)
             && (HasActiveRun(g.backups, last.0) <==> HasActiveRun(f.backups, last.0))
             && (HasActiveRun(f.backups, last.0) <==>
                 !forall b :: b in f.backups && f.backups[b].schedule == Some(last.0) ==>
                    f.backups[b].deleting || f.backups[b].phase in {Succeeded, Failed, Error})
    ensures var last := dues[|dues| - 1];
            var h := FireOne(g, last.0, last.1, specs, name);
            CreatesExactly(f.backups, h.backups, dues, specs, name) && AnchorsExactly(f.reg, h.reg, dues, specs)
  {
    OneCreates(f, g, dues, specs, name);
    OneAnchors(f, g, dues, specs, name);
  }

  lemma OneCreates(f: Fired, g: Fired, dues: seq<(string, int)>, specs: seq<Schedule>, name: (string, int) -> string)
    requires dues != []
    requires var front, last := dues[..|dues| - 1], dues[|dues| - 1];
             && last.0 in g.reg && CreatesExactly(f.backups, g.backups, front, specs, name)
             && (HasActiveRun(g.backups, last.0) <==>
                 !forall b :: b in f.backups && f.backups[b].schedule == Some(last.0) ==>
                    f.backups[b].deleting || f.backups[b].phase in {Succeeded, Failed, Error})
    ensures var last := dues[|dues| - 1];
            CreatesExactly(f.backups, FireOne(g, last.0, last.1, specs, name).backups, dues, specs, name)
  {
    hide HasActiveRun;
    var front, last := dues[..|dues| - 1], dues[|dues| - 1];
    var h, b := FireOne(g, last.0, last.1, specs, name), name(last.0, last.1);
    assert forall i :: 0 <= i < |front| ==> dues[i] == front[i];
    if Creates(f.backups, last, specs, name) {
      assert b in h.backups;
    } else {
      assert b in f.backups ==> b in g.backups;
      assert h.backups == g.backups;
    }
    hide Creates;
    forall x | x in h.backups && x !in f.backups
      ensures exists i :: 0 <= i < |dues| && Creates(f.backups, dues[i], specs, name)
                  && x == name(dues[i].0, dues[i].1) && h.backups[x] == Run(Some(dues[i].0), New, false)
    {
      if x in g.backups {
        var i :| 0 <= i < |front| && Creates(f.backups, front[i], specs, name) && x == name(front[i].0, front[i].1)
            && g.backups[x] == Run(Some(front[i].0), New, false);
        assert dues[i] == front[i];
      } else {
        assert x == b && dues[|dues| - 1] == last;
      }
    }
    forall i | 0 <= i < |dues| && Creates(f.backups, dues[i], specs, name)
      ensures name(dues[i].0, dues[i].1) in h.backups
    {
      if i < |front| { assert dues[i] == front[i]; }
    }
  }

  lemma OneAnchors(f: Fired, g: Fired, dues: seq<(string, int)>, specs: seq<Schedule>, name: (string, int) -> string)
    requires dues != [] && forall i, j :: 0 <= i < j < |dues| ==> dues[i].0 != dues[j].0
    requires dues[|dues| - 1].0 in f.reg && AnchorsExactly(f.reg, g.reg, dues[..|dues| - 1], specs)
    ensures var last := dues[|dues| - 1];
            AnchorsExactly(f.reg, FireOne(g, last.0, last.1, specs, name).reg, dues, specs)
  {
    hide HasActiveRun;
    var front, last := dues[..|dues| - 1], dues[|dues| - 1];
    assert forall i :: 0 <= i < |front| ==> dues[i] == front[i];
  }

  /** Whom a pass acts on, and what each prefix of it leaves. */
  lemma TickMeans(reg: Registry, backups: map<string, Run>, names: seq<string>, now: int, specs: seq<Schedule>,
                  name: (string, int) -> string)
    requires Distinct(names) && (forall n :: n in names <==> n in reg)
    requires forall n :: n in reg ==> CronOk(reg[n].cron)
    ensures var dues := Dues(reg, names, now);
            && (forall n, s :: (n, s) in dues <==>
                  n in reg && LatestElapsed(reg[n].cron, reg[n].lastFire, now, Some(s)))
            && forall k :: 0 <= k <= |dues| ==>
                 && CreatesExactly(backups, FireAll(Fired(reg, backups), dues[..k], specs, name).backups, dues[..k],
                      specs, name)
                 && AnchorsExactly(reg, FireAll(Fired(reg, backups), dues[..k], specs, name).reg, dues[..k], specs)
  {
    var dues := Dues(reg, names, now);
    DuesFacts(reg, names, now);
    hide CreatesExactly, AnchorsExactly, FireAll, LatestElapsed, CronOk, Dues;
    forall n, s ensures (n, s) in dues <==> n in reg && LatestElapsed(reg[n].cron, reg[n].lastFire, now, Some(s)) {
      DuesAre(reg, names, now, n, s);
    }
    forall k | 0 <= k <= |dues|
      ensures CreatesExactly(backups, FireAll(Fired(reg, backups), dues[..k], specs, name).backups, dues[..k], specs,
                name)
      ensures AnchorsExactly(reg, FireAll(Fired(reg, backups), dues[..k], specs, name).reg, dues[..k], specs)
    {
      FireAllIs(Fired(reg, backups), dues[..k], specs, name);
    }
  }

  /** One pass creates at most one backup of each schedule. */
  lemma OneBackupPerSchedule(f: Fired, dues: seq<(string, int)>, specs: seq<Schedule>, name: (string, int) -> string,
                             now: int, a: string, b: string)
    requires DueList(f.reg, dues, now)
    requires a in FireAll(f, dues, specs, name).backups && b in FireAll(f, dues, specs, name).backups
    requires a !in f.backups && b !in f.backups
    ensures FireAll(f, dues, specs, name).backups[a].schedule == FireAll(f, dues, specs, name).backups[b].schedule ==>
              a == b
  {
    hide LatestElapsed, FireAll;
    CreatedByDues(f, dues, specs, name, now);
  }

  /** The history's view of a pass is what `Tick` leaves behind. */
  lemma {:induction false} TickSysIsFireAll(w: Sys, dues: seq<(string, int)>, specs: seq<Schedule>,
                                            name: (string, int) -> string)
    requires w.reg.Some?
    ensures var (w', f) := (TickSys(w, dues, specs, name), FireAll(Fired(w.reg.value, w.backups), dues, specs, name));
            w'.clock == w.clock && w'.reg == Some(f.reg) && w'.backups == f.backups
  {
    hide Wanted, HasActiveRun;
    if dues == [] {
    } else {
      TickSysIsFireAll(w, dues[..|dues| - 1], specs, name);
    }
  }

  ghost predicate Anchored(reg: Registry, after: Registry, now: int) {
    forall n :: n in after ==> after[n].lastFire == if n in reg then reg[n].lastFire else now
  }

  lemma {:induction false} UpsertFacts(reg: Registry, specs: seq<Schedule>, parse: string -> Option<Cron>, now: int)
    requires RegInv(reg, now) && forall text :: parse(text).Some? ==> CronOk(parse(text).value)
    ensures RegInv(Upsert(reg, specs, parse, now).reg, now)
    ensures reg.Keys <= Upsert(reg, specs, parse, now).reg.Keys
              && Anchored(reg, Upsert(reg, specs, parse, now).reg, now)
  {
    hide CronOk;
    if specs == [] {
    } else {
      UpsertFacts(reg, specs[..|specs| - 1], parse, now);
    }
  }

  /** Every registered cron is what its text parses to. */
  ghost predicate Parsed(reg: Registry, parse: string -> Option<Cron>) {
    forall n :: n in reg ==> parse(reg[n].text) == Some(reg[n].cron)
  }

  ghost predicate LastNamed(specs: seq<Schedule>, n: string, i: int) {
    0 <= i < |specs| && specs[i].name == n && forall j :: i < j < |specs| ==> specs[j].name != n
  }

  /** The listed schedules are registered with their last text and their old anchor, new ones
      anchored at `now`; what is not listed stays. */
  ghost predicate Upserted(reg: Registry, after: Registry, specs: seq<Schedule>, parse: string -> Option<Cron>,
                           now: int) {
    && (forall n :: n in after <==> n in reg || exists s :: s in specs && s.name == n)
    && (forall n :: n in after ==> after[n].lastFire == if n in reg then reg[n].lastFire else now)
    && (forall n, i :: n in after && LastNamed(specs, n, i) ==>
          after[n].text == specs[i].text && parse(specs[i].text) == Some(after[n].cron))
    && forall n :: n in reg && (forall s :: s in specs ==> s.name != n) ==> after[n] == reg[n]
  }

  /** The schedules before the first text that does not parse. */
  ghost predicate StoppedAt(reg: Registry, after: Registry, specs: seq<Schedule>, parse: string -> Option<Cron>,
                            now: int) {
    exists k :: 0 <= k < |specs| && Upserted(reg, after, specs[..k], parse, now) && parse(specs[k].text).None?
  }

  lemma {:induction false} UpsertParses(reg: Registry, specs: seq<Schedule>, parse: string -> Option<Cron>, now: int)
    requires Parsed(reg, parse)
    ensures var r := Upsert(reg, specs, parse, now);
            Parsed(r.reg, parse) && (r.ok <==> forall s :: s in specs ==> parse(s.text).Some?)
  {
    if specs == [] {
    } else {
      UpsertParses(reg, specs[..|specs| - 1], parse, now);
      assert specs == specs[..|specs| - 1] + [specs[|specs| - 1]];
      assert forall s :: s in specs <==> s in specs[..|specs| - 1] || s == specs[|specs| - 1];
    }
  }

  lemma {:induction false} UpsertIs(reg: Registry, specs: seq<Schedule>, parse: string -> Option<Cron>, now: int)
    requires Parsed(reg, parse)
    ensures var r := Upsert(reg, specs, parse, now);
            && Parsed(r.reg, parse)
            && (r.ok <==> forall s :: s in specs ==> parse(s.text).Some?)
            && (r.ok ==> Upserted(reg, r.reg, specs, parse, now))
            && (!r.ok ==> StoppedAt(reg, r.reg, specs, parse, now))
  {
    UpsertParses(reg, specs, parse, now);
    if specs == [] {
    } else {
      hide Upserted, StoppedAt;
      var front := specs[..|specs| - 1];
      UpsertIs(reg, front, parse, now);
      UpsertStep(reg, specs, parse, now);
    }
  }

  lemma UpsertStep(reg: Registry, specs: seq<Schedule>, parse: string -> Option<Cron>, now: int)
    requires specs != []
    requires var before := Upsert(reg, specs[..|specs| - 1], parse, now);
             && Parsed(before.reg, parse)
             && (before.ok ==> Upserted(reg, before.reg, specs[..|specs| - 1], parse, now))
             && (!before.ok ==> StoppedAt(reg, before.reg, specs[..|specs| - 1], parse, now))
    ensures var r := Upsert(reg, specs, parse, now);
            && (r.ok ==> Upserted(reg, r.reg, specs, parse, now))
            && (!r.ok ==> StoppedAt(reg, r.reg, specs, parse, now))
  {
    var front, last := specs[..|specs| - 1], specs[|specs| - 1];
    var before, r := Upsert(reg, front, parse, now), Upsert(reg, specs, parse, now);
    if before.ok && r.ok {
      hide Upserted, StoppedAt;
      UpsertLast(reg, before.reg, r.reg, specs, parse, now);
    } else if before.ok {
      hide Upserted, Parsed;
      assert specs[..|specs| - 1] == front && parse(specs[|specs| - 1].text).None?;
    } else {
      hide Upserted, Parsed;
      StoppedStays(reg, r.reg, specs, parse, now);
    }
  }

  lemma StoppedStays(reg: Registry, after: Registry, specs: seq<Schedule>, parse: string -> Option<Cron>, now: int)
    requires specs != [] && StoppedAt(reg, after, specs[..|specs| - 1], parse, now)
    ensures StoppedAt(reg, after, specs, parse, now)
  {
    hide Upserted;
    var front := specs[..|specs| - 1];
    var k :| 0 <= k < |front| && Upserted(reg, after, front[..k], parse, now) && parse(front[k].text).None?;
    assert front[..k] == specs[..k] && front[k] == specs[k];
  }

  lemma UpsertLast(reg: Registry, before: Registry, after: Registry, specs: seq<Schedule>,
                   parse: string -> Option<Cron>, now: int)
    requires specs != [] && Upserted(reg, before, specs[..|specs| - 1], parse, now) && Parsed(before, parse)
    requires var s := specs[|specs| - 1];
             && parse(s.text).Some?
             && after == if s.name in before && before[s.name].text == s.text then before
                         else before[s.name := Registration(parse(s.text).value, s.text,
                                if s.name in before then before[s.name].lastFire else now)]
    ensures Upserted(reg, after, specs, parse, now)
  {
    var k, front, last := |specs| - 1, specs[..|specs| - 1], specs[|specs| - 1];
    assert specs == front + [last] && last in specs;
    forall n, i | n in after && LastNamed(specs, n, i)
      ensures after[n].text == specs[i].text && parse(specs[i].text) == Some(after[n].cron)
    {
      if n != last.name {
        assert i < k;
        assert LastNamed(front, n, i);
      } else {
        assert i == k;
      }
    }
  }

  /** What a Sync leaves: nothing for a cluster that goes or has no schedules; otherwise exactly the
      listed schedules, up to date and with their anchors, if every text parses, and an error if
      one does not. */
  lemma SyncMeans(cur: Option<Registry>, specs: seq<Schedule>, deleted: bool, parse: string -> Option<Cron>, now: int)
    requires cur.Some? ==> Parsed(cur.value, parse)
    ensures var (reg, ok) := SyncResult(cur, specs, deleted, parse, now);
            && (deleted || specs == [] ==> reg == None && ok)
            && (!deleted && specs != [] ==>
                  && (ok <==> forall s :: s in specs ==> parse(s.text).Some?)
                  && (reg.Some? <==> ok || cur.Some?)
                  && (ok ==> && (forall n :: n in reg.value <==> exists s :: s in specs && s.name == n)
                             && (forall n, i :: n in reg.value && LastNamed(specs, n, i) ==>
                                   && reg.value[n].text == specs[i].text
                                   && parse(specs[i].text) == Some(reg.value[n].cron))
                             && forall n :: n in reg.value ==>
                                  reg.value[n].lastFire ==
                                    if cur.Some? && n in cur.value then cur.value[n].lastFire else now))
            && (reg.Some? ==> Parsed(reg.value, parse))
            && (reg.Some? && !ok ==> cur.Some? && StoppedAt(cur.value, reg.value, specs, parse, now))
  {
    UpsertIs(if cur.Some? then cur.value else map[], specs, parse, now);
    hide Upsert;
  }

  /** Editing, removing and re-adding schedules never moves an anchor behind what was acted on. */
  lemma SyncKeepsInv(w: Sys, specs: seq<Schedule>, deleted: bool, parse: string -> Option<Cron>)
    requires Inv(w) && forall text :: parse(text).Some? ==> CronOk(parse(text).value)
    ensures Inv(w.(reg := SyncResult(w.reg, specs, deleted, parse, w.clock).0))
  {
    UpsertFacts(if w.reg.Some? then w.reg.value else map[], specs, parse, w.clock);
  }

  lemma StepKeepsInv(w: Sys, a: Action, w': Sys, parse: string -> Option<Cron>, name: (string, int) -> string)
    requires Inv(w) && Step(w, a, w', parse, name)
    requires forall text :: parse(text).Some? ==> CronOk(parse(text).value)
    ensures Inv(w')
  {
    hide CronOk, Upsert, SyncResult, TickSys, Untouched, Distinct, LatestElapsed;
    match a
    case Advance(t) =>
    case SyncTo(specs, deleted) => SyncKeepsInv(w, specs, deleted, parse);
    case TickNow(specs, names, k) =>
      if w.reg.Some? {
        DuesFacts(w.reg.value, names, w.clock);
        TickKeepsInv(w, Dues(w.reg.value, names, w.clock)[..k], specs, name);
      }
    case Progress(b, to) =>
    case Removed(b) =>
    case Manual(b) =>
  }

  lemma {:induction false} RunInv(ws: seq<Sys>, actions: seq<Action>, parse: string -> Option<Cron>,
                                  name: (string, int) -> string, i: nat)
    requires IsRun(ws, actions, parse, name) && i < |ws|
    ensures Inv(ws[i])
  {
    if i == 0 {
    } else {
      RunInv(ws, actions, parse, name, i - 1);
      StepKeepsInv(ws[i - 1], actions[i - 1], ws[i], parse, name);
    }
  }

  /** In every history, with cron edits, removals and re-additions, the slots acted on for a
      schedule strictly increase and no schedule ever has two active backups. */
  lemma ForwardOnlyNoOverlap(ws: seq<Sys>, actions: seq<Action>, parse: string -> Option<Cron>,
                             name: (string, int) -> string, i: nat)
    requires IsRun(ws, actions, parse, name) && i < |ws|
    ensures Forward(ws[i].acted) && NoOverlap(ws[i].backups)
  {
    RunInv(ws, actions, parse, name, i);
  }
}
