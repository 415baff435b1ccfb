/** The player's recordable events (src/player/events.rs). The four Rust
    event structs share one shape, a target entity and a source tag, and
    differ only in their payload; one datatype with one payload per kind
    stands for all four. */
module PlayerEvents {
  import opened Engine
  import opened LevelHistoryData

  datatype Payload =
    | Move(delta: Vec2)      // PlayerMoveEvent
    | Rotate(to: Quat)       // PlayerRotateEvent
    | Attack                 // PlayerAttackEvent
    | Killed                 // PlayerKilledEvent

  /** An event as a value: what `clone` copies and what the history stores. */
  datatype PlayerEvent = PlayerEvent(entity: Entity, source: EventSource, payload: Payload) {

    /** The event retargeted to `e`; source and payload are kept. */
    function WithEntity(e: Entity): (r: PlayerEvent)
      ensures r.entity == e && r.source == source && r.payload == payload
    {
      this.(entity := e)
    }

    /** The event retagged with `s`; target and payload are kept. */
    function WithSource(s: EventSource): (r: PlayerEvent)
      ensures r.source == s && r.entity == entity && r.payload == payload
    {
      this.(source := s)
    }
  }

  /** Retagging twice with the same source is retagging once, and the last
      retagging wins. */
  lemma WithSourceLastWins(ev: PlayerEvent, s: EventSource, t: EventSource)
    ensures ev.WithSource(s).WithSource(t) == ev.WithSource(t)
    ensures ev.WithSource(s).WithSource(s) == ev.WithSource(s)
  {
  }

  /** Retargeting and retagging touch different fields, so their order does not matter. */
  lemma WithEntityWithSourceCommute(ev: PlayerEvent, e: Entity, s: EventSource)
    ensures ev.WithEntity(e).WithSource(s) == ev.WithSource(s).WithEntity(e)
  {
  }

  /** A mutable event, as the `&mut self` methods of the `SetEntity` and
      `EventSourceMethods` implementations see it. */
  class EventRef {
    var entity: Entity
    var source: EventSource
    var payload: Payload

    function Value(): PlayerEvent
      reads this
    {
      PlayerEvent(entity, source, payload)
    }

    /** `clone()` of a stored or read event. */
    constructor Clone(ev: PlayerEvent)
      ensures Value() == ev
    {
      entity, source, payload := ev.entity, ev.source, ev.payload;
    }

    /** `set_entity`. */
    method SetEntity(e: Entity)
      modifies this
      ensures Value() == old(Value()).WithEntity(e)
    {
      entity := e;
    }

    /** `set_source`. */
    method SetSource(s: EventSource)
      modifies this
      ensures Value() == old(Value()).WithSource(s)
    {
      source := s;
    }

    /** `get_source`. */
    method GetSource() returns (s: EventSource)
      ensures s == Value().source
    {
      s := source;
    }
  }

  /** `get_source` after `set_source(s)` reads `s` back. */
  method SetThenGetSource(ev: EventRef, s: EventSource) returns (got: EventSource)
    modifies ev
    ensures got == s
    ensures ev.Value() == old(ev.Value()).WithSource(s)
  {
    ev.SetSource(s);
    got := ev.GetSource();
  }
}
