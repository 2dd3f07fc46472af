/** The engine commands the operator issues against slot ownership: CLUSTER ADDSLOTSRANGE,
    CLUSTER MIGRATESLOTS and CLUSTER GETSLOTMIGRATIONS (pkg/valkey/interface.go). */
module Engine {
  import opened SlotRanges
  import opened Planner
  import opened Ownership

  /** An unknown state token counts as still running. */
  datatype MigrationState = Running | Success | Failed | Canceled | Unknown(token: string) {
    predicate IsTerminal() { Success? || Failed? || Canceled? }
  }

  datatype Migration = Migration(move: Move, state: MigrationState) {
    predicate InFlight() { !state.IsTerminal() }
  }

  ghost predicate SourceOwns(owner: Owner, m: Move) {
    forall s: int :: Covers(m.ranges, s) ==> s in owner && owner[s] == m.src
  }

  datatype Reply = Accepted | Refused | Fault

  /** What becomes of a command: it is answered, it never arrives, or its reply is lost. */
  datatype Wire = Intact | Dropped | ReplyLost

  /** What may go wrong in a pass that sends one command per node: the command at index `at`. */
  datatype Trouble = Trouble(at: nat, wire: Wire) {
    function On(i: nat): (r: Wire) { if i == at then wire else Intact }
  }

  class Engine {
    var owner: Owner
    var log: seq<Migration>

    /** Assigns slots to a node; one owned slot makes the engine refuse the whole call. */
    method AddSlotsRange(id: string, ranges: seq<SlotRange>, wire: Wire) returns (reply: Reply)
      modifies this`owner
      ensures reply == (if wire != Intact then Fault else if Unowned(old(owner), ranges) then Accepted else Refused)
      ensures owner == if wire != Dropped && Unowned(old(owner), ranges) then AddSlots(old(owner), id, ranges)
                       else old(owner)
    {
      if wire == Dropped {
        return Fault;
      }
      var slots := Expand(ranges);
      ExpandMembers(ranges);
      if exists s | s in slots :: s in owner {
        return if wire == Intact then Refused else Fault;
      }
      owner := AddSlots(owner, id, ranges);
      return if wire == Intact then Accepted else Fault;
    }

    /** Starts a migration unless the source does not serve all the ranges. */
    method MigrateSlots(m: Move, wire: Wire) returns (reply: Reply)
      modifies this`log
      ensures reply == (if wire != Intact then Fault else if SourceOwns(owner, m) then Accepted else Refused)
      ensures log == if wire != Dropped && SourceOwns(owner, m) then old(log) + [Migration(m, Running)] else old(log)
    {
      if wire == Dropped {
        return Fault;
      }
      var slots := Expand(m.ranges);
      ExpandMembers(m.ranges);
      if exists s | s in slots :: s !in owner || owner[s] != m.src {
        return if wire == Intact then Refused else Fault;
      }
      log := log + [Migration(m, Running)];
      return if wire == Intact then Accepted else Fault;
    }

    /** A migration comes to nothing. */
    method Stop(k: nat, end: MigrationState)
      requires k < |log|
      modifies this`log
      ensures log == old(log)[k := old(log)[k].(state := end)]
    {
      log := log[k := log[k].(state := end)];
    }

    /** A migration completes: its slots belong to the destination. */
    method Complete(k: nat)
      requires k < |log|
      modifies this`owner, this`log
      ensures owner == ApplyMove(old(owner), old(log)[k].move)
      ensures log == old(log)[k := old(log)[k].(state := Success)]
    {
      var m := log[k].move;
      var slots := Expand(m.ranges);
      ExpandMembers(m.ranges);
      owner := map s | s in owner :: if s in slots then m.dst else owner[s];
      log := log[k := log[k].(state := Success)];
    }
  }
}
