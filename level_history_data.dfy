/** The data of the ghost-replay history (src/level_history/data.rs): event
    provenance, ghost identifiers, timestamped records, the per-event-type
    log, the ghost registry and the attempt's start time. */
module LevelHistoryData {
  import opened Engine

  /** Where an event comes from: live input, or a re-emission by the replayer. */
  datatype EventSource = Replay | Input

  /** An index into the ghost registry. */
  datatype GhostIdentifier = GhostIdentifier(index: nat)

  /** One stored event: which ghost caused it, when (seconds since the start
      of the attempt), and the event itself. */
  datatype EventRecord<E> = EventRecord(ghostId: GhostIdentifier, timestamp: real, event: E)

  /** A registry slot: the ghost's live entity once spawned, and the frozen
      snapshot it is spawned with. */
  datatype PlayerGhost<S> = PlayerGhost(entity: Option<Entity>, snapshot: S)

  /** The log of one event type. */
  class LevelHistory<E> {
    var events: seq<EventRecord<E>>

    /** `Default`: an empty log. */
    constructor ()
      ensures events == []
    {
      events := [];
    }

    /** `events.push`. */
    method Push(r: EventRecord<E>)
      modifies this
      ensures events == old(events) + [r]
    {
      events := events + [r];
    }

    /** `events.clear()`. */
    method Clear()
      modifies this
      ensures events == []
    {
      events := [];
    }
  }

  /** The ghost registry; the slot index is the ghost's identifier. */
  class PlayerGhostList<S> {
    var ghosts: seq<PlayerGhost<S>>

    /** `Default`: no ghosts. */
    constructor ()
      ensures ghosts == []
    {
      ghosts := [];
    }

    /** `ghosts.push`. */
    method Push(g: PlayerGhost<S>)
      modifies this
      ensures ghosts == old(ghosts) + [g]
    {
      ghosts := ghosts + [g];
    }

    /** Overwrites slot `i` (a write through `iter_mut`). */
    method Put(i: nat, g: PlayerGhost<S>)
      requires i < |ghosts|
      modifies this
      ensures ghosts == old(ghosts)[i := g]
    {
      ghosts := ghosts[i := g];
    }
  }

  /** `PlayerGhostList::get_ghost`, on the registry's contents: the slot with
      that index, if there is one. */
  function GetGhost<S>(ghosts: seq<PlayerGhost<S>>, id: GhostIdentifier): (r: Option<PlayerGhost<S>>)
    ensures r.Some? <==> id.index < |ghosts|
    ensures r.Some? ==> r.value == ghosts[id.index]
  {
    if id.index < |ghosts| then Some(ghosts[id.index]) else None
  }

  /** `get_ghost(id).and_then(|g| g.entity)`: the live entity standing for a
      ghost, if its slot exists and has been spawned. */
  function ResolveGhost<S>(ghosts: seq<PlayerGhost<S>>, id: GhostIdentifier): (r: Option<Entity>)
    ensures r.Some? <==> id.index < |ghosts| && ghosts[id.index].entity.Some?
    ensures r.Some? ==> r == ghosts[id.index].entity
  {
    match GetGhost(ghosts, id)
    case Some(g) => g.entity
    case None => None
  }

  /** The clock value at which the current attempt began; `Default` is 0. */
  class LevelStartTime {
    var value: real

    constructor ()
      ensures value == 0.0
    {
      value := 0.0;
    }

    method Set(now: real)
      modifies this
      ensures value == now
    {
      value := now;
    }
  }
}
