/** The earlier version of the ghost-replay history (src/level/history.rs).
    Its recorder keeps every event read, whatever its source, and its
    replayer uses a different window: `end = now - start_time`,
    `start = end - delta + start_time`, and a record is due when
    `start < timestamp < end`, open at both ends. The registry and the start
    time work as in LevelHistorySystems, except that each spawned ghost also
    carries a `GhostIdentifier` component naming its slot. */
module LegacyHistory {
  import opened Engine
  import opened LevelHistoryData
  import opened PlayerEvents
  import LevelHistorySystems

  type Record = EventRecord<PlayerEvent>

  // ---------------------------------------------------------------------
  // Recorder

  /** The records the legacy `record_event` appends: every event read,
      verbatim and in order, with the tick's timestamp and ghost identifier. */
  function LegacyRecorded(read: seq<PlayerEvent>, timestamp: real, id: GhostIdentifier): (rs: seq<Record>)
    ensures |rs| == |read|
    ensures forall i :: 0 <= i < |read| ==> rs[i] == EventRecord(id, timestamp, read[i])
  {
    if read == [] then []
    else LegacyRecorded(read[..|read| - 1], timestamp, id) + [EventRecord(id, timestamp, read[|read| - 1])]
  }

  /** The legacy `record_event`. */
  method RecordEvent<S>(
    history: LevelHistory<PlayerEvent>,
    ghostList: PlayerGhostList<S>,
    startTime: LevelStartTime,
    now: real,
    read: seq<PlayerEvent>)
    modifies history
    ensures history.events
      == old(history.events) + LegacyRecorded(read, now - startTime.value, GhostIdentifier(|ghostList.ghosts|))
  {
    ghost var before := history.events;
    var i := 0;
    while i < |read|
      invariant 0 <= i <= |read|
      invariant history.events
        == before + LegacyRecorded(read[..i], now - startTime.value, GhostIdentifier(|ghostList.ghosts|))
    {
      var timestamp := now - startTime.value;
      history.Push(EventRecord(GhostIdentifier(|ghostList.ghosts|), timestamp, read[i]));
      assert read[..i + 1][..i] == read[..i];
      i := i + 1;
    }
    assert read[..i] == read;
  }

  /** On live input alone the two recorders agree record by record, up to
      the `Replay` tag the newer one adds; the legacy one also keeps
      replayed events, which the newer one drops. */
  lemma LegacyAgreesOnLiveInput(read: seq<PlayerEvent>, timestamp: real, id: GhostIdentifier)
    requires forall i :: 0 <= i < |read| ==> read[i].source == Input
    ensures |LevelHistorySystems.Recorded(read, timestamp, id)| == |LegacyRecorded(read, timestamp, id)|
    ensures forall i :: 0 <= i < |read| ==>
      LevelHistorySystems.Recorded(read, timestamp, id)[i]
        == LegacyRecorded(read, timestamp, id)[i].(event := read[i].WithSource(Replay))
  {
    LevelHistorySystems.RecordedAllInput(read, timestamp, id);
  }

  // ---------------------------------------------------------------------
  // Replayer

  /** The legacy window test, as written. */
  predicate LegacyDue(timestamp: real, startTime: real, now: real, delta: real)
  {
    var end := now - startTime;
    var start := end - delta + startTime;
    start < timestamp < end
  }

  /** `ev` is what the legacy replayer sends for record `r`. */
  predicate LegacyEmittedFrom<S>(ev: PlayerEvent, r: Record, ghosts: seq<PlayerGhost<S>>, startTime: real, now: real, delta: real)
  {
    && LegacyDue(r.timestamp, startTime, now, delta)
    && ResolveGhost(ghosts, r.ghostId) == Some(ev.entity)
    && ev == r.event.WithEntity(ev.entity)
  }

  /** The events the legacy `replay_event` sends in one tick. This is
      LevelHistorySystems.Replayed with one difference: a record is due by
      `LegacyDue` rather than `Due`. The legacy loop is the same loop with
      that window, so it keeps its own definition rather than sharing one. */
  function LegacyReplayed<S>(records: seq<Record>, ghosts: seq<PlayerGhost<S>>, startTime: real, now: real, delta: real): (out: seq<PlayerEvent>)
    ensures |out| <= |records|
    ensures forall i :: 0 <= i < |out| ==>
      exists j :: 0 <= j < |records| && LegacyEmittedFrom(out[i], records[j], ghosts, startTime, now, delta)
  {
    if records == [] then []
    else
      var n := |records| - 1;
      var r := records[n];
      var prefix := LegacyReplayed(records[..n], ghosts, startTime, now, delta);
      assert forall i :: 0 <= i < |prefix| ==>
        exists j :: 0 <= j < |records| && LegacyEmittedFrom(prefix[i], records[j], ghosts, startTime, now, delta)
      by {
        forall i | 0 <= i < |prefix|
          ensures exists j :: 0 <= j < |records| && LegacyEmittedFrom(prefix[i], records[j], ghosts, startTime, now, delta)
        {
          var j :| 0 <= j < n && LegacyEmittedFrom(prefix[i], records[..n][j], ghosts, startTime, now, delta);
          assert records[..n][j] == records[j];
        }
      }
      prefix
        + match ResolveGhost(ghosts, r.ghostId)
          case Some(e) => if LegacyDue(r.timestamp, startTime, now, delta) then [r.event.WithEntity(e)] else []
          case None => []
  }

  /** The legacy `replay_event`: sends `LegacyReplayed(..)`, log unchanged. */
  method ReplayEvent<S>(
    history: LevelHistory<PlayerEvent>,
    startTime: LevelStartTime,
    ghostList: PlayerGhostList<S>,
    now: real,
    delta: real)
    returns (sent: seq<PlayerEvent>)
    ensures sent == LegacyReplayed(history.events, ghostList.ghosts, startTime.value, now, delta)
  {
    sent := [];
    var i := 0;
    while i < |history.events|
      invariant 0 <= i <= |history.events|
      invariant sent == LegacyReplayed(history.events[..i], ghostList.ghosts, startTime.value, now, delta)
    {
      var record := history.events[i];
      var timestamp := record.timestamp;
      var end := now - startTime.value;
      var start := end - delta + startTime.value;
      var isBetween := timestamp > start && timestamp < end;
      assert history.events[..i + 1][..i] == history.events[..i];
      var target := GetGhost(ghostList.ghosts, record.ghostId);
      if isBetween && target.Some? && target.value.entity.Some? {
        var ev := new EventRef.Clone(record.event);
        ev.SetEntity(target.value.entity.value);
        sent := sent + [ev.Value()];
      }
      i := i + 1;
    }
    assert history.events[..i] == history.events;
  }

  /** Every record in the legacy window whose ghost is spawned is sent,
      aimed at that ghost. */
  lemma {:induction false} LegacyReplayedComplete<S>(records: seq<Record>, ghosts: seq<PlayerGhost<S>>, startTime: real, now: real, delta: real, j: nat, e: Entity)
    requires j < |records|
    requires LegacyDue(records[j].timestamp, startTime, now, delta)
    requires ResolveGhost(ghosts, records[j].ghostId) == Some(e)
    ensures records[j].event.WithEntity(e) in LegacyReplayed(records, ghosts, startTime, now, delta)
  {
    var n := |records| - 1;
    if j < n {
      assert records[..n][j] == records[j];
      LegacyReplayedComplete(records[..n], ghosts, startTime, now, delta, j, e);
    }
  }

  /** Finding: the legacy window adds the start time back, so it runs from
      `now - delta` to `now - start_time`. Once the attempt started at
      least one tick's length after the clock's origin, the window is empty
      and nothing at all is replayed. */
  lemma LegacyLateStartReplaysNothing<S>(records: seq<Record>, ghosts: seq<PlayerGhost<S>>, startTime: real, now: real, delta: real)
    requires startTime >= delta
    ensures LegacyReplayed(records, ghosts, startTime, now, delta) == []
  {
  }

  /** A concrete case: attempt started at 10 s, tick of 0.5 s ending at
      11 s, record stamped 0.8 s. The intended window (0.5, 1] holds it;
      the legacy window (10.5, 1) is empty. */
  lemma LegacyWindowCounterexample()
    ensures LevelHistorySystems.Due(0.8, 10.0, 11.0, 0.5)
    ensures !LegacyDue(0.8, 10.0, 11.0, 0.5)
  {
  }

  /** Finding: the legacy window is open at its end, so a record stamped
      exactly at the end of a tick is due neither in that tick nor in the
      next, even with a start time of 0 (where the two windows otherwise
      agree); the intended window holds it. A record taken on the first
      frame of an attempt (timestamp 0) is such a record. */
  lemma LegacyMissesTickBoundary(now: real, delta: real, delta2: real)
    requires delta > 0.0 && delta2 >= 0.0
    ensures !LegacyDue(now, 0.0, now, delta)
    ensures !LegacyDue(now, 0.0, now + delta2, delta2)
    ensures LevelHistorySystems.Due(now, 0.0, now, delta)
  {
  }

  // ---------------------------------------------------------------------
  // Lifecycle

  /** `reset_game_history_start`: the attempt starts now. */
  method ResetGameHistoryStart(startTime: LevelStartTime, now: real)
    modifies startTime
    ensures startTime.value == now
  {
    startTime.Set(now);
  }

  /** Slots below `i` hold entities numbered from `lo` up to `hi`, each
      tagged with its own slot index. */
  ghost predicate TaggedUpTo<S>(ghosts: seq<PlayerGhost<S>>, i: nat, tags: map<Entity, GhostIdentifier>, lo: nat, hi: nat)
  {
    forall k :: 0 <= k < i && k < |ghosts| ==>
      && ghosts[k].entity.Some?
      && lo <= ghosts[k].entity.value.index < hi
      && ghosts[k].entity.value in tags
      && tags[ghosts[k].entity.value] == GhostIdentifier(k)
  }

  lemma TaggedStep<S>(
    ghosts: seq<PlayerGhost<S>>, i: nat, tags: map<Entity, GhostIdentifier>, lo: nat, hi: nat,
    stale: set<Entity>, e: Entity, hi2: nat)
    requires i < |ghosts| && TaggedUpTo(ghosts, i, tags, lo, hi)
    requires forall x :: x in stale ==> x.index < lo
    requires lo <= hi <= e.index < hi2
    ensures TaggedUpTo(ghosts[i := PlayerGhost(Some(e), ghosts[i].snapshot)], i + 1, (tags - stale)[e := GhostIdentifier(i)], lo, hi2)
  {
    var g2 := ghosts[i := PlayerGhost(Some(e), ghosts[i].snapshot)];
    forall k | 0 <= k < i
      ensures g2[k].entity.value != e && g2[k].entity.value !in stale
    {
      assert g2[k] == ghosts[k] && lo <= ghosts[k].entity.value.index < hi;
    }
  }

  /** The legacy `spawn_ghosts`: as LevelHistorySystems.SpawnGhosts, and
      slot `i`'s new entity also carries the component `GhostIdentifier(i)`.
      A stale entity is despawned with its components, tag included. */
  method SpawnGhosts<S>(ghostList: PlayerGhostList<S>, world: World, tags: Components<GhostIdentifier>)
    requires world.Valid() && LevelHistorySystems.IssuedBy(ghostList.ghosts, world)
    modifies ghostList, world, tags
    ensures world.Valid() && LevelHistorySystems.IssuedBy(ghostList.ghosts, world)
    ensures |ghostList.ghosts| == |old(ghostList.ghosts)|
    ensures forall i :: 0 <= i < |ghostList.ghosts| ==>
      && ghostList.ghosts[i].snapshot == old(ghostList.ghosts[i].snapshot)
      && ghostList.ghosts[i].entity.Some?
      && ghostList.ghosts[i].entity.value !in old(world.live)
      && ghostList.ghosts[i].entity.value in tags.of
      && tags.of[ghostList.ghosts[i].entity.value] == GhostIdentifier(i)
    ensures forall i, j :: 0 <= i < j < |ghostList.ghosts| ==> ghostList.ghosts[i].entity != ghostList.ghosts[j].entity
    ensures world.live
      == (old(world.live) - LevelHistorySystems.SpawnedEntities(old(ghostList.ghosts)))
         + LevelHistorySystems.SpawnedEntities(ghostList.ghosts)
    ensures TagsSwapped(tags.of, old(tags.of),
      LevelHistorySystems.SpawnedEntities(old(ghostList.ghosts)), LevelHistorySystems.SpawnedEntities(ghostList.ghosts))
  {
    ghost var before := ghostList.ghosts;
    ghost var live0 := world.live;
    ghost var next0 := world.next;
    ghost var tags0 := tags.of;
    var i := 0;
    while i < |ghostList.ghosts|
      invariant world.Valid() && next0 <= world.next
      invariant LevelHistorySystems.SpawnProgress(before, ghostList.ghosts, i, live0, world.live, next0, world.next)
      invariant TaggedUpTo(ghostList.ghosts, i, tags.of, next0, world.next)
      invariant TagsSwapped(tags.of, tags0,
        LevelHistorySystems.SpawnedEntities(before[..i]), LevelHistorySystems.SpawnedEntities(ghostList.ghosts[..i]))
    {
      ghost var ghosts1, tags1 := ghostList.ghosts, tags.of;
      var entity := SpawnTaggedSlot(ghostList, world, tags, i, before, live0, next0);
      TagsSwappedStep(before, ghosts1, i, tags1, tags0, entity, next0);
      i := i + 1;
    }
    assert ghostList.ghosts[..i] == ghostList.ghosts && before[..i] == before;
    SpawnedTaggedDone(before, ghostList.ghosts, live0, world.live, tags.of, next0, world.next);
  }

  /** The tag store has lost the entities `removed` and gained the entities
      `added`, and no other entity's tag has appeared, gone or changed. */
  ghost predicate TagsSwapped(tags: map<Entity, GhostIdentifier>, tags0: map<Entity, GhostIdentifier>, removed: set<Entity>, added: set<Entity>)
  {
    tags.Keys == (tags0.Keys - removed) + added && SameOutside(tags, tags0, removed + added)
  }

  lemma TagsSwappedStep<S>(
    before: seq<PlayerGhost<S>>, ghosts: seq<PlayerGhost<S>>, i: nat,
    tags: map<Entity, GhostIdentifier>, tags0: map<Entity, GhostIdentifier>, e: Entity, lo: nat)
    requires i < |ghosts| == |before| && ghosts[i] == before[i]
    requires LevelHistorySystems.HandlesBelow(before, lo)
    requires forall k :: 0 <= k < i ==> ghosts[k].entity.Some? && lo <= ghosts[k].entity.value.index
    requires TagsSwapped(tags, tags0,
      LevelHistorySystems.SpawnedEntities(before[..i]), LevelHistorySystems.SpawnedEntities(ghosts[..i]))
    ensures TagsSwapped(
      (tags - LevelHistorySystems.SlotEntity(before[i]))[e := GhostIdentifier(i)], tags0,
      LevelHistorySystems.SpawnedEntities(before[..i + 1]),
      LevelHistorySystems.SpawnedEntities(ghosts[i := PlayerGhost(Some(e), ghosts[i].snapshot)][..i + 1]))
  {
    var g2 := ghosts[i := PlayerGhost(Some(e), ghosts[i].snapshot)];
    var stale := LevelHistorySystems.SlotEntity(before[i]);
    var added := LevelHistorySystems.SpawnedEntities(ghosts[..i]);
    assert g2[..i] == ghosts[..i];
    LevelHistorySystems.SpawnedEntitiesSnoc(g2, i);
    LevelHistorySystems.SpawnedEntitiesSnoc(before, i);
    forall x | x in added
      ensures x !in stale
    {
      var k :| 0 <= k < i && ghosts[..i][k].entity.Some? && ghosts[..i][k].entity.value == x;
      assert ghosts[..i][k] == ghosts[k];
    }
  }

  /** One turn of the legacy `spawn_ghosts` loop: slot `i`'s stale entity,
      if any, is despawned with its tag, and the slot gets a new entity,
      tagged `GhostIdentifier(i)`; no other slot or tag changes. */
  method SpawnTaggedSlot<S>(
    ghostList: PlayerGhostList<S>, world: World, tags: Components<GhostIdentifier>, i: nat,
    ghost before: seq<PlayerGhost<S>>, ghost live0: set<Entity>, ghost next0: nat)
    returns (entity: Entity)
    requires world.Valid() && next0 <= world.next && LevelHistorySystems.HandlesBelow(before, next0)
    requires i < |ghostList.ghosts|
    requires LevelHistorySystems.SpawnProgress(before, ghostList.ghosts, i, live0, world.live, next0, world.next)
    requires TaggedUpTo(ghostList.ghosts, i, tags.of, next0, world.next)
    modifies ghostList, world, tags
    ensures world.Valid() && next0 <= world.next
    ensures LevelHistorySystems.SpawnProgress(before, ghostList.ghosts, i + 1, live0, world.live, next0, world.next)
    ensures TaggedUpTo(ghostList.ghosts, i + 1, tags.of, next0, world.next)
    ensures entity !in old(world.live)
    ensures ghostList.ghosts == old(ghostList.ghosts)[i := PlayerGhost(Some(entity), old(ghostList.ghosts[i].snapshot))]
    ensures tags.of == (old(tags.of) - LevelHistorySystems.SlotEntity(old(ghostList.ghosts[i])))[entity := GhostIdentifier(i)]
    ensures world.live == (old(world.live) - LevelHistorySystems.SlotEntity(old(ghostList.ghosts[i]))) + {entity}
  {
    ghost var mid, live1, tags0, next1 := ghostList.ghosts, world.live, tags.of, world.next;
    var stale := LevelHistorySystems.SlotEntity(ghostList.ghosts[i]);
    entity := LevelHistorySystems.SpawnSlot(ghostList, world, i);
    tags.RemoveAll(stale);
    tags.Insert(entity, GhostIdentifier(i));
    LevelHistorySystems.SpawnProgressStep(before, mid, i, live0, live1, next0, next1, entity, world.next);
    assert mid[i] == before[i];
    TaggedStep(mid, i, tags0, next0, next1, stale, entity, world.next);
  }

  /** At the end of the loop the invariants give the legacy `spawn_ghosts` contract. */
  lemma SpawnedTaggedDone<S>(
    before: seq<PlayerGhost<S>>, ghosts: seq<PlayerGhost<S>>, live0: set<Entity>, live: set<Entity>,
    tags: map<Entity, GhostIdentifier>, lo: nat, hi: nat)
    requires LevelHistorySystems.SpawnProgress(before, ghosts, |ghosts|, live0, live, lo, hi)
    requires TaggedUpTo(ghosts, |ghosts|, tags, lo, hi)
    requires forall e :: e in live0 ==> e.index < lo
    ensures LevelHistorySystems.HandlesBelow(ghosts, hi)
    ensures |ghosts| == |before|
    ensures forall i :: 0 <= i < |ghosts| ==>
      && ghosts[i].snapshot == before[i].snapshot
      && ghosts[i].entity.Some?
      && ghosts[i].entity.value !in live0
      && ghosts[i].entity.value in tags
      && tags[ghosts[i].entity.value] == GhostIdentifier(i)
    ensures forall i, j :: 0 <= i < j < |ghosts| ==> ghosts[i].entity != ghosts[j].entity
    ensures live == (live0 - LevelHistorySystems.SpawnedEntities(before)) + LevelHistorySystems.SpawnedEntities(ghosts)
  {
    LevelHistorySystems.SpawnProgressDone(before, ghosts, live0, live, lo, hi);
  }

  /** The legacy `ghost_despawn`: the same code as
      LevelHistorySystems.GhostDespawn; the despawned ghosts' tags go with
      them. */
  method GhostDespawn<S>(ghostList: PlayerGhostList<S>, world: World, tags: Components<GhostIdentifier>)
    requires world.Valid()
    modifies ghostList, world, tags
    ensures world.Valid()
    ensures |ghostList.ghosts| == |old(ghostList.ghosts)|
    ensures forall i :: 0 <= i < |ghostList.ghosts| ==>
      ghostList.ghosts[i] == PlayerGhost(None, old(ghostList.ghosts[i].snapshot))
    ensures world.live == old(world.live) - LevelHistorySystems.SpawnedEntities(old(ghostList.ghosts))
    ensures tags.of == old(tags.of) - LevelHistorySystems.SpawnedEntities(old(ghostList.ghosts))
  {
    var held := LevelHistorySystems.SpawnedEntities(ghostList.ghosts);
    LevelHistorySystems.GhostDespawn(ghostList, world);
    tags.RemoveAll(held);
  }
}
