/** The recorder, the replayer and the ghost-registry lifecycle of the
    ghost-replay history (src/level_history/systems.rs).

    The recorder stores every live-input event of a tick, retagged as a
    replay, with a start-relative timestamp and the identifier of the ghost
    the current player will become. The replayer, on each tick, re-emits
    every stored record whose timestamp falls in the tick's window, aimed at
    that ghost's live entity. `save_player_ghost` appends a slot for the
    player; `spawn_ghosts` gives every slot a new entity, despawning the
    stale one a slot still holds; `ghost_despawn` empties every slot. When
    these systems run is not part of this model. */
module LevelHistorySystems {
  import opened Engine
  import opened LevelHistoryData
  import opened PlayerEvents
  import opened PlayerData

  type Record = EventRecord<PlayerEvent>

  // ---------------------------------------------------------------------
  // Recorder

  /** The records `record_event` appends for the events it reads in one
      tick: every event read with source `Input`, in read order, retagged
      `Replay`, with the tick's timestamp and ghost identifier. Events that
      already carry `Replay` are dropped. */
  function Recorded(read: seq<PlayerEvent>, timestamp: real, id: GhostIdentifier): (rs: seq<Record>)
    ensures |rs| <= |read|
    ensures forall i :: 0 <= i < |rs| ==>
      rs[i].timestamp == timestamp && rs[i].ghostId == id && rs[i].event.source == Replay
  {
    if read == [] then []
    else
      var last := read[|read| - 1];
      Recorded(read[..|read| - 1], timestamp, id)
        + (if last.source == Replay then [] else [EventRecord(id, timestamp, last.WithSource(Replay))])
  }

  /** The number of live-input events in `read`. */
  function InputCount(read: seq<PlayerEvent>): nat
  {
    if read == [] then 0
    else (if read[0].source == Input then 1 else 0) + InputCount(read[1..])
  }

  /** Recording two batches one after the other is recording their
      concatenation: records keep the order in which events were read. */
  lemma {:induction false} RecordedAppend(a: seq<PlayerEvent>, b: seq<PlayerEvent>, timestamp: real, id: GhostIdentifier)
    ensures Recorded(a + b, timestamp, id) == Recorded(a, timestamp, id) + Recorded(b, timestamp, id)
    decreases |b|
  {
    if b == [] {
      assert a + b == a;
    } else {
      var n := |b| - 1;
      assert (a + b)[..|a + b| - 1] == a + b[..n];
      assert (a + b)[|a + b| - 1] == b[n];
      RecordedAppend(a, b[..n], timestamp, id);
    }
  }

  /** One event read gives one record, or none when it is already a replay. */
  lemma RecordedOne(ev: PlayerEvent, timestamp: real, id: GhostIdentifier)
    ensures Recorded([ev], timestamp, id)
      == if ev.source == Replay then [] else [EventRecord(id, timestamp, ev.WithSource(Replay))]
  {
    assert [ev][..0] == [];
  }

  /** The log grows by exactly the number of live-input events read. */
  lemma {:induction false} RecordedCount(read: seq<PlayerEvent>, timestamp: real, id: GhostIdentifier)
    ensures |Recorded(read, timestamp, id)| == InputCount(read)
  {
    if read != [] {
      assert read == [read[0]] + read[1..];
      RecordedAppend([read[0]], read[1..], timestamp, id);
      RecordedOne(read[0], timestamp, id);
      RecordedCount(read[1..], timestamp, id);
    }
  }

  /** An event whose source is `Replay` is never recorded: a batch of
      replays records nothing. */
  lemma {:induction false} RecordedDropsReplays(read: seq<PlayerEvent>, timestamp: real, id: GhostIdentifier)
    requires forall i :: 0 <= i < |read| ==> read[i].source == Replay
    ensures Recorded(read, timestamp, id) == []
  {
    if read != [] {
      RecordedDropsReplays(read[..|read| - 1], timestamp, id);
    }
  }

  /** When every event read is live input, record `i` is event `i` retagged
      `Replay`, its target and payload untouched. */
  lemma {:induction false} RecordedAllInput(read: seq<PlayerEvent>, timestamp: real, id: GhostIdentifier)
    requires forall i :: 0 <= i < |read| ==> read[i].source == Input
    ensures |Recorded(read, timestamp, id)| == |read|
    ensures forall i :: 0 <= i < |read| ==>
      Recorded(read, timestamp, id)[i] == EventRecord(id, timestamp, read[i].WithSource(Replay))
  {
    if read != [] {
      RecordedAllInput(read[..|read| - 1], timestamp, id);
    }
  }

  /** `record_event`: appends `Recorded(..)` for the events read, stamped
      `now - start_time` and `GhostIdentifier(ghosts.len())`. */
  method RecordEvent<S>(
    history: LevelHistory<PlayerEvent>,
    ghostList: PlayerGhostList<S>,
    startTime: LevelStartTime,
    now: real,
    read: seq<PlayerEvent>)
    modifies history
    ensures history.events
      == old(history.events) + Recorded(read, now - startTime.value, GhostIdentifier(|ghostList.ghosts|))
  {
    ghost var before := history.events;
    var i := 0;
    while i < |read|
      invariant 0 <= i <= |read|
      invariant history.events
        == before + Recorded(read[..i], now - startTime.value, GhostIdentifier(|ghostList.ghosts|))
    {
      var e := read[i];
      if e.source != Replay {
        var timestamp := now - startTime.value;
        var id := GhostIdentifier(|ghostList.ghosts|);
        var recorded := new EventRef.Clone(e);
        recorded.SetSource(Replay);
        history.Push(EventRecord(id, timestamp, recorded.Value()));
      }
      assert read[..i + 1][..i] == read[..i];
      i := i + 1;
    }
    assert read[..i] == read;
  }

  // ---------------------------------------------------------------------
  // Replayer

  /** The window test of `replay_event` for the tick ending at `now`: with
      `start = now - delta - startTime` and `end = start + delta`, a record
      is due when `start < timestamp <= end`. */
  predicate Due(timestamp: real, startTime: real, now: real, delta: real)
  {
    var start := now - delta - startTime;
    var end := start + delta;
    start < timestamp <= end
  }

  /** `ev` is what replaying record `r` in the tick ending at `now` sends:
      the record is due, its ghost resolves to `ev`'s target, and `ev` is the
      record's event aimed at that target. */
  predicate EmittedFrom<S>(ev: PlayerEvent, r: Record, ghosts: seq<PlayerGhost<S>>, startTime: real, now: real, delta: real)
  {
    && Due(r.timestamp, startTime, now, delta)
    && ResolveGhost(ghosts, r.ghostId) == Some(ev.entity)
    && ev == r.event.WithEntity(ev.entity)
  }

  /** The events `replay_event` sends in one tick: for each record in
      history order that is due and whose ghost has a live entity, the
      record's event aimed at that entity. */
  function Replayed<S>(records: seq<Record>, ghosts: seq<PlayerGhost<S>>, startTime: real, now: real, delta: real): (out: seq<PlayerEvent>)
    ensures |out| <= |records|
    ensures forall i :: 0 <= i < |out| ==>
      exists j :: 0 <= j < |records| && EmittedFrom(out[i], records[j], ghosts, startTime, now, delta)
  {
    if records == [] then []
    else
      var n := |records| - 1;
      var r := records[n];
      var prefix := Replayed(records[..n], ghosts, startTime, now, delta);
      assert forall i :: 0 <= i < |prefix| ==>
        exists j :: 0 <= j < |records| && EmittedFrom(prefix[i], records[j], ghosts, startTime, now, delta)
      by {
        forall i | 0 <= i < |prefix|
          ensures exists j :: 0 <= j < |records| && EmittedFrom(prefix[i], records[j], ghosts, startTime, now, delta)
        {
          var j :| 0 <= j < n && EmittedFrom(prefix[i], records[..n][j], ghosts, startTime, now, delta);
          assert records[..n][j] == records[j];
        }
      }
      prefix
        + match ResolveGhost(ghosts, r.ghostId)
          case Some(e) => if Due(r.timestamp, startTime, now, delta) then [r.event.WithEntity(e)] else []
          case None => []
  }

  /** Replay of one record: its event, retargeted, when it is due and its
      ghost is spawned; nothing otherwise. */
  lemma ReplayedOne<S>(r: Record, ghosts: seq<PlayerGhost<S>>, startTime: real, now: real, delta: real)
    ensures Replayed([r], ghosts, startTime, now, delta)
      == if Due(r.timestamp, startTime, now, delta) && ResolveGhost(ghosts, r.ghostId).Some?
         then [r.event.WithEntity(ResolveGhost(ghosts, r.ghostId).value)]
         else []
  {
    assert [r][..0] == [];
  }

  /** Replay treats records one at a time and keeps their history order:
      replaying a concatenation is concatenating the replays. */
  lemma {:induction false} ReplayedAppend<S>(a: seq<Record>, b: seq<Record>, ghosts: seq<PlayerGhost<S>>, startTime: real, now: real, delta: real)
    ensures Replayed(a + b, ghosts, startTime, now, delta)
      == Replayed(a, ghosts, startTime, now, delta) + Replayed(b, ghosts, startTime, now, delta)
    decreases |b|
  {
    if b == [] {
      assert a + b == a;
    } else {
      var n := |b| - 1;
      assert (a + b)[..|a + b| - 1] == a + b[..n];
      assert (a + b)[|a + b| - 1] == b[n];
      ReplayedAppend(a, b[..n], ghosts, startTime, now, delta);
    }
  }

  /** Every due record whose ghost is spawned is emitted, aimed at the ghost. */
  lemma ReplayedComplete<S>(records: seq<Record>, ghosts: seq<PlayerGhost<S>>, startTime: real, now: real, delta: real, j: nat, e: Entity)
    requires j < |records|
    requires Due(records[j].timestamp, startTime, now, delta)
    requires ResolveGhost(ghosts, records[j].ghostId) == Some(e)
    ensures records[j].event.WithEntity(e) in Replayed(records, ghosts, startTime, now, delta)
  {
    assert records == records[..j] + [records[j]] + records[j + 1..];
    ReplayedAppend(records[..j] + [records[j]], records[j + 1..], ghosts, startTime, now, delta);
    ReplayedAppend(records[..j], [records[j]], ghosts, startTime, now, delta);
    ReplayedOne(records[j], ghosts, startTime, now, delta);
  }

  /** While no ghost is spawned, replay emits nothing: due records are
      silently skipped. */
  lemma ReplayedUnspawned<S>(records: seq<Record>, ghosts: seq<PlayerGhost<S>>, startTime: real, now: real, delta: real)
    requires forall i :: 0 <= i < |ghosts| ==> ghosts[i].entity.None?
    ensures Replayed(records, ghosts, startTime, now, delta) == []
  {
  }

  /** Every record in the log carries the `Replay` tag. */
  predicate AllReplayTagged(records: seq<Record>)
  {
    forall i :: 0 <= i < |records| ==> records[i].event.source == Replay
  }

  /** Recording keeps every record in the log tagged `Replay`. */
  lemma RecordingKeepsReplayTags(records: seq<Record>, read: seq<PlayerEvent>, timestamp: real, id: GhostIdentifier)
    requires AllReplayTagged(records)
    ensures AllReplayTagged(records + Recorded(read, timestamp, id))
  {
  }

  /** No feedback loop: the events replayed from a `Replay`-tagged log are
      themselves replays, so recording them appends nothing. */
  lemma ReplayIsNotRerecorded<S>(records: seq<Record>, ghosts: seq<PlayerGhost<S>>, startTime: real, now: real, delta: real, timestamp: real, id: GhostIdentifier)
    requires AllReplayTagged(records)
    ensures Recorded(Replayed(records, ghosts, startTime, now, delta), timestamp, id) == []
  {
    var out := Replayed(records, ghosts, startTime, now, delta);
    forall i | 0 <= i < |out| ensures out[i].source == Replay {
      var j :| 0 <= j < |records| && EmittedFrom(out[i], records[j], ghosts, startTime, now, delta);
    }
    RecordedDropsReplays(out, timestamp, id);
  }

  // ---------------------------------------------------------------------
  // Windows of consecutive ticks

  /** Two consecutive ticks with the same start time have disjoint,
      adjacent windows: their union is the window of the two ticks together. */
  lemma ConsecutiveWindows(timestamp: real, startTime: real, now: real, delta: real, delta2: real)
    requires delta >= 0.0 && delta2 >= 0.0
    ensures !(Due(timestamp, startTime, now, delta) && Due(timestamp, startTime, now + delta2, delta2))
    ensures Due(timestamp, startTime, now, delta) || Due(timestamp, startTime, now + delta2, delta2)
      <==> Due(timestamp, startTime, now + delta2, delta + delta2)
  {
  }

  /** A sequence of tick times; tick `k > 0` ends at `nows[k]` and lasted
      `nows[k] - nows[k - 1]`. */
  predicate Ticks(nows: seq<real>)
  {
    forall k :: 0 < k < |nows| ==> nows[k - 1] <= nows[k]
  }

  /** The number of ticks of `nows` at which a record stamped `timestamp` is due. */
  function DueTicks(timestamp: real, startTime: real, nows: seq<real>): nat
  {
    if |nows| < 2 then 0
    else
      var n := |nows| - 1;
      DueTicks(timestamp, startTime, nows[..n])
        + if Due(timestamp, startTime, nows[n], nows[n] - nows[n - 1]) then 1 else 0
  }

  /** Over any run of ticks, a record is due at exactly one tick when its
      timestamp lies in the run's span `(nows[0] - startTime, last - startTime]`,
      and at none otherwise. */
  lemma {:induction false} DueExactlyOnce(timestamp: real, startTime: real, nows: seq<real>)
    requires |nows| >= 1 && Ticks(nows)
    ensures DueTicks(timestamp, startTime, nows)
      == if nows[0] - startTime < timestamp <= nows[|nows| - 1] - startTime then 1 else 0
  {
    if |nows| >= 2 {
      var n := |nows| - 1;
      var p := nows[..n];
      assert Ticks(p) by {
        forall k | 0 < k < |p| ensures p[k - 1] <= p[k] {
          assert p[k - 1] == nows[k - 1] && p[k] == nows[k];
        }
      }
      DueExactlyOnce(timestamp, startTime, p);
      assert p[0] == nows[0] && p[|p| - 1] == nows[n - 1];
      assert nows[n - 1] <= nows[n];
      MonotoneTicks(nows, 0, n - 1);
      assert DueTicks(timestamp, startTime, nows)
        == DueTicks(timestamp, startTime, p) + if Due(timestamp, startTime, nows[n], nows[n] - nows[n - 1]) then 1 else 0;
      assert Due(timestamp, startTime, nows[n], nows[n] - nows[n - 1])
        <==> nows[n - 1] - startTime < timestamp <= nows[n] - startTime;
    } else {
      assert DueTicks(timestamp, startTime, nows) == 0;
    }
  }

  /** How many times one record is emitted over a run of ticks, with the
      registry as it stands at each tick. */
  function Emissions<S>(r: Record, startTime: real, nows: seq<real>, ghostsAt: seq<seq<PlayerGhost<S>>>): nat
    requires |ghostsAt| == |nows|
  {
    if |nows| < 2 then 0
    else
      var n := |nows| - 1;
      Emissions(r, startTime, nows[..n], ghostsAt[..n])
        + |Replayed([r], ghostsAt[n], startTime, nows[n], nows[n] - nows[n - 1])|
  }

  /** A record is emitted at most as often as it is due; exactly as often
      when its ghost is spawned at every tick; never when its ghost is
      unspawned at every tick where it is due. */
  lemma {:induction false} EmissionsAgainstDueTicks<S>(r: Record, startTime: real, nows: seq<real>, ghostsAt: seq<seq<PlayerGhost<S>>>)
    requires |ghostsAt| == |nows|
    ensures Emissions(r, startTime, nows, ghostsAt) <= DueTicks(r.timestamp, startTime, nows)
    ensures (forall k :: 0 <= k < |nows| ==> ResolveGhost(ghostsAt[k], r.ghostId).Some?)
      ==> Emissions(r, startTime, nows, ghostsAt) == DueTicks(r.timestamp, startTime, nows)
    ensures (forall k :: 0 < k < |nows| && Due(r.timestamp, startTime, nows[k], nows[k] - nows[k - 1])
               ==> ResolveGhost(ghostsAt[k], r.ghostId).None?)
      ==> Emissions(r, startTime, nows, ghostsAt) == 0
  {
    if |nows| >= 2 {
      var n := |nows| - 1;
      EmissionsAgainstDueTicks(r, startTime, nows[..n], ghostsAt[..n]);
      ReplayedOne(r, ghostsAt[n], startTime, nows[n], nows[n] - nows[n - 1]);
      assert forall k :: 0 <= k < n ==> nows[..n][k] == nows[k] && ghostsAt[..n][k] == ghostsAt[k];
    }
  }

  /** Over any run of ticks a record is emitted at most once. */
  lemma EmittedAtMostOnce<S>(r: Record, startTime: real, nows: seq<real>, ghostsAt: seq<seq<PlayerGhost<S>>>)
    requires |ghostsAt| == |nows| >= 1 && Ticks(nows)
    ensures Emissions(r, startTime, nows, ghostsAt) <= 1
  {
    EmissionsAgainstDueTicks(r, startTime, nows, ghostsAt);
    DueExactlyOnce(r.timestamp, startTime, nows);
  }

  /** Replay completeness: a record stamped inside the span of a run of
      ticks, whose ghost stays spawned, is emitted exactly once. */
  lemma EmittedOnceWhenSpawned<S>(r: Record, startTime: real, nows: seq<real>, ghostsAt: seq<seq<PlayerGhost<S>>>)
    requires |ghostsAt| == |nows| >= 1 && Ticks(nows)
    requires nows[0] - startTime < r.timestamp <= nows[|nows| - 1] - startTime
    requires forall k :: 0 <= k < |nows| ==> ResolveGhost(ghostsAt[k], r.ghostId).Some?
    ensures Emissions(r, startTime, nows, ghostsAt) == 1
  {
    EmissionsAgainstDueTicks(r, startTime, nows, ghostsAt);
    DueExactlyOnce(r.timestamp, startTime, nows);
  }

  /** The permanent-loss case: a record whose ghost is not spawned at the
      one tick where it is due is never emitted, even if the ghost is
      spawned at every other tick. */
  lemma LostWhenUnspawnedAtItsTick<S>(r: Record, startTime: real, nows: seq<real>, ghostsAt: seq<seq<PlayerGhost<S>>>, k: nat)
    requires |ghostsAt| == |nows| && Ticks(nows)
    requires 0 < k < |nows| && Due(r.timestamp, startTime, nows[k], nows[k] - nows[k - 1])
    requires ResolveGhost(ghostsAt[k], r.ghostId).None?
    ensures Emissions(r, startTime, nows, ghostsAt) == 0
  {
    DueExactlyOnce(r.timestamp, startTime, nows);
    assert nows[k - 1] <= nows[k] && nows[0] <= nows[k - 1] by {
      MonotoneTicks(nows, 0, k - 1);
    }
    assert nows[k] <= nows[|nows| - 1] by {
      MonotoneTicks(nows, k, |nows| - 1);
    }
    forall m | 0 < m < |nows| && Due(r.timestamp, startTime, nows[m], nows[m] - nows[m - 1])
      ensures ResolveGhost(ghostsAt[m], r.ghostId).None?
    {
      if m != k {
        OneDueTick(r.timestamp, startTime, nows, k, m);
      }
    }
    EmissionsAgainstDueTicks(r, startTime, nows, ghostsAt);
  }

  lemma {:induction false} MonotoneTicks(nows: seq<real>, i: nat, j: nat)
    requires Ticks(nows) && i <= j < |nows|
    ensures nows[i] <= nows[j]
    decreases j - i
  {
    if i < j {
      MonotoneTicks(nows, i + 1, j);
    }
  }

  /** Two different ticks of a run never share a due record. */
  lemma OneDueTick(timestamp: real, startTime: real, nows: seq<real>, k: nat, m: nat)
    requires Ticks(nows) && 0 < k < |nows| && 0 < m < |nows| && k != m
    requires Due(timestamp, startTime, nows[k], nows[k] - nows[k - 1])
    ensures !Due(timestamp, startTime, nows[m], nows[m] - nows[m - 1])
  {
    if k < m {
      MonotoneTicks(nows, k, m - 1);
    } else {
      MonotoneTicks(nows, m, k - 1);
    }
  }

  /** `replay_event`: sends `Replayed(..)` and leaves the log as it is. */
  method ReplayEvent<S>(
    history: LevelHistory<PlayerEvent>,
    startTime: LevelStartTime,
    ghostList: PlayerGhostList<S>,
    now: real,
    delta: real)
    returns (sent: seq<PlayerEvent>)
    ensures sent == Replayed(history.events, ghostList.ghosts, startTime.value, now, delta)
  {
    sent := [];
    var i := 0;
    while i < |history.events|
      invariant 0 <= i <= |history.events|
      invariant sent == Replayed(history.events[..i], ghostList.ghosts, startTime.value, now, delta)
    {
      var record := history.events[i];
      var timestamp := record.timestamp;
      var start := now - delta - startTime.value;
      var end := start + delta;
      var isBetween := timestamp > start && timestamp <= end;
      assert history.events[..i + 1][..i] == history.events[..i];
      var target := ResolveGhost(ghostList.ghosts, record.ghostId);
      if isBetween && target.Some? {
        var ev := new EventRef.Clone(record.event);
        ev.SetEntity(target.value);
        sent := sent + [ev.Value()];
      }
      i := i + 1;
    }
    assert history.events[..i] == history.events;
  }

  // ---------------------------------------------------------------------
  // Lifecycle

  /** `reset_level_start_time`: the attempt starts now. */
  method ResetLevelStartTime(startTime: LevelStartTime, now: real)
    modifies startTime
    ensures startTime.value == now
  {
    startTime.Set(now);
  }

  /** `clear_history`: the log is emptied. */
  method ClearHistory(history: LevelHistory<PlayerEvent>)
    modifies history
    ensures history.events == []
  {
    history.Clear();
  }

  /** The entities the registry holds. */
  function SpawnedEntities<S>(ghosts: seq<PlayerGhost<S>>): set<Entity>
  {
    set i | 0 <= i < |ghosts| && ghosts[i].entity.Some? :: ghosts[i].entity.value
  }

  lemma SpawnedEntitiesSnoc<S>(ghosts: seq<PlayerGhost<S>>, i: nat)
    requires i < |ghosts|
    ensures SpawnedEntities(ghosts[..i + 1]) == SpawnedEntities(ghosts[..i]) + SlotEntity(ghosts[i])
  {
    var a, b := ghosts[..i + 1], ghosts[..i];
    assert forall k :: 0 <= k < i ==> a[k] == b[k];
    assert a[i] == ghosts[i];
  }

  lemma SpawnedEntitiesOne<S>(ghosts: seq<PlayerGhost<S>>)
    requires |ghosts| == 1
    ensures SpawnedEntities(ghosts) == SlotEntity(ghosts[0])
  {
    assert SpawnedEntities(ghosts[..1]) == SpawnedEntities(ghosts[..0]) + SlotEntity(ghosts[0]) by {
      SpawnedEntitiesSnoc(ghosts, 0);
    }
    assert ghosts[..1] == ghosts;
  }

  /** Every handle in the registry was handed out by `world`. */
  ghost predicate IssuedBy<S>(ghosts: seq<PlayerGhost<S>>, world: World)
    reads world
  {
    HandlesBelow(ghosts, world.next)
  }

  /** Every handle in the registry is numbered below `n`. */
  predicate HandlesBelow<S>(ghosts: seq<PlayerGhost<S>>, n: nat)
  {
    forall i :: 0 <= i < |ghosts| && ghosts[i].entity.Some? ==> ghosts[i].entity.value.index < n
  }

  /** The entity a slot holds, as a set. */
  function SlotEntity<S>(g: PlayerGhost<S>): set<Entity>
  {
    if g.entity.Some? then {g.entity.value} else {}
  }

  /** One turn of the `spawn_ghosts` loop: slot `i` gets a new live entity,
      after the stale entity it still held, if any, is despawned. */
  method SpawnSlot<S>(ghostList: PlayerGhostList<S>, world: World, i: nat) returns (entity: Entity)
    requires world.Valid() && i < |ghostList.ghosts|
    modifies ghostList, world
    ensures world.Valid() && old(world.next) <= entity.index < world.next
    ensures entity !in old(world.live)
    ensures ghostList.ghosts == old(ghostList.ghosts)[i := PlayerGhost(Some(entity), old(ghostList.ghosts[i].snapshot))]
    ensures world.live == (old(world.live) - SlotEntity(old(ghostList.ghosts[i]))) + {entity}
  {
    var g := ghostList.ghosts[i];
    if g.entity.Some? {
      world.Despawn(g.entity.value);
    }
    entity := world.Spawn();
    ghostList.Put(i, g.(entity := Some(entity)));
  }

  /** The state of the `spawn_ghosts` loop after `i` turns, starting from
      the registry `before` and the live set `live0`: slots below `i` hold
      pairwise distinct handles numbered from `lo` up to `hi`, the others
      are as they were, snapshots are kept, and the live set has traded
      the old entities of the first `i` slots for their new ones. */
  ghost predicate SpawnProgress<S>(
    before: seq<PlayerGhost<S>>, ghosts: seq<PlayerGhost<S>>, i: nat,
    live0: set<Entity>, live: set<Entity>, lo: nat, hi: nat)
  {
    && i <= |ghosts| == |before|
    && (forall k :: i <= k < |before| ==> ghosts[k] == before[k])
    && (forall k :: 0 <= k < i ==>
         && ghosts[k].snapshot == before[k].snapshot
         && ghosts[k].entity.Some?
         && lo <= ghosts[k].entity.value.index < hi)
    && (forall k, l :: 0 <= k < l < i ==> ghosts[k].entity != ghosts[l].entity)
    && live == (live0 - SpawnedEntities(before[..i])) + SpawnedEntities(ghosts[..i])
  }

  /** One turn of the loop keeps `SpawnProgress`: the new handle is above
      every handle issued before, so it differs from all of them. */
  lemma SpawnProgressStep<S>(
    before: seq<PlayerGhost<S>>, ghosts: seq<PlayerGhost<S>>, i: nat,
    live0: set<Entity>, live: set<Entity>, lo: nat, hi: nat, e: Entity, hi2: nat)
    requires SpawnProgress(before, ghosts, i, live0, live, lo, hi)
    requires i < |before| && HandlesBelow(before, lo) && lo <= hi <= e.index < hi2
    ensures SpawnProgress(
      before, ghosts[i := PlayerGhost(Some(e), ghosts[i].snapshot)], i + 1,
      live0, (live - SlotEntity(ghosts[i])) + {e}, lo, hi2)
  {
    var g2 := ghosts[i := PlayerGhost(Some(e), ghosts[i].snapshot)];
    var oldA, oldB := SpawnedEntities(before[..i]), SpawnedEntities(ghosts[..i]);
    var x := SlotEntity(before[i]);
    SpawnedEntitiesSnoc(before, i);
    SpawnedEntitiesSnoc(g2, i);
    assert g2[..i] == ghosts[..i];
    assert x !! oldB by {
      forall k | 0 <= k < i
        ensures ghosts[..i][k].entity.Some? && ghosts[..i][k].entity.value !in x
      {
        assert ghosts[..i][k] == ghosts[k];
      }
    }
    assert (live0 - oldA) + oldB - x + {e} == (live0 - (oldA + x)) + (oldB + {e});
    forall k | 0 <= k < i
      ensures g2[k].entity != Some(e)
    {
      assert g2[k] == ghosts[k];
    }
  }

  /** `spawn_ghosts` (registry bookkeeping): every slot gets a new, distinct
      live entity and keeps its snapshot; a stale entity a slot still held
      is despawned first. */
  method SpawnGhosts<S>(ghostList: PlayerGhostList<S>, world: World)
    requires world.Valid() && IssuedBy(ghostList.ghosts, world)
    modifies ghostList, world
    ensures world.Valid() && IssuedBy(ghostList.ghosts, world)
    ensures |ghostList.ghosts| == |old(ghostList.ghosts)|
    ensures forall i :: 0 <= i < |ghostList.ghosts| ==>
      && ghostList.ghosts[i].snapshot == old(ghostList.ghosts[i].snapshot)
      && ghostList.ghosts[i].entity.Some?
      && ghostList.ghosts[i].entity.value !in old(world.live)
    ensures forall i, j :: 0 <= i < j < |ghostList.ghosts| ==> ghostList.ghosts[i].entity != ghostList.ghosts[j].entity
    ensures world.live
      == (old(world.live) - SpawnedEntities(old(ghostList.ghosts))) + SpawnedEntities(ghostList.ghosts)
  {
    ghost var before := ghostList.ghosts;
    ghost var live0 := world.live;
    ghost var next0 := world.next;
    var i := 0;
    while i < |ghostList.ghosts|
      invariant world.Valid() && next0 <= world.next
      invariant SpawnProgress(before, ghostList.ghosts, i, live0, world.live, next0, world.next)
    {
      ghost var mid, live1, next1 := ghostList.ghosts, world.live, world.next;
      var entity := SpawnSlot(ghostList, world, i);
      SpawnProgressStep(before, mid, i, live0, live1, next0, next1, entity, world.next);
      i := i + 1;
    }
    SpawnProgressDone(before, ghostList.ghosts, live0, world.live, next0, world.next);
  }

  /** At the end of the loop, `SpawnProgress` is the contract of `spawn_ghosts`. */
  lemma SpawnProgressDone<S>(
    before: seq<PlayerGhost<S>>, ghosts: seq<PlayerGhost<S>>,
    live0: set<Entity>, live: set<Entity>, lo: nat, hi: nat)
    requires SpawnProgress(before, ghosts, |ghosts|, live0, live, lo, hi)
    ensures HandlesBelow(ghosts, hi)
    ensures live == (live0 - SpawnedEntities(before)) + SpawnedEntities(ghosts)
  {
    assert before[..|ghosts|] == before;
    assert ghosts[..|ghosts|] == ghosts;
  }

  /** `ghost_despawn`: every held entity is despawned and every slot is
      left unspawned, with its snapshot kept. */
  method GhostDespawn<S>(ghostList: PlayerGhostList<S>, world: World)
    requires world.Valid()
    modifies ghostList, world
    ensures world.Valid() && world.next == old(world.next)
    ensures |ghostList.ghosts| == |old(ghostList.ghosts)|
    ensures forall i :: 0 <= i < |ghostList.ghosts| ==>
      ghostList.ghosts[i] == PlayerGhost(None, old(ghostList.ghosts[i].snapshot))
    ensures world.live == old(world.live) - SpawnedEntities(old(ghostList.ghosts))
  {
    ghost var before := ghostList.ghosts;
    ghost var live0 := world.live;
    ghost var next0 := world.next;
    var i := 0;
    while i < |ghostList.ghosts|
      invariant 0 <= i <= |ghostList.ghosts| == |before|
      invariant world.Valid() && world.next == next0
      invariant forall k :: i <= k < |before| ==> ghostList.ghosts[k] == before[k]
      invariant forall k :: 0 <= k < i ==> ghostList.ghosts[k] == PlayerGhost(None, before[k].snapshot)
      invariant world.live == live0 - SpawnedEntities(before[..i])
    {
      var g := ghostList.ghosts[i];
      if g.entity.Some? {
        world.Despawn(g.entity.value);
        ghostList.Put(i, g.(entity := None));
      }
      SpawnedEntitiesSnoc(before, i);
      i := i + 1;
    }
    assert before[..i] == before;
  }

  /** `save_player_ghost`: with exactly one live player, a new unspawned
      slot holding that player's stats is appended; otherwise (no player,
      or several) the registry is left unchanged. */
  method SavePlayerGhost(ghostList: PlayerGhostList<PlayerStats>, players: seq<PlayerStats>)
    modifies ghostList
    ensures ghostList.ghosts
      == if |players| == 1 then old(ghostList.ghosts) + [PlayerGhost(None, players[0])] else old(ghostList.ghosts)
  {
    if |players| == 1 {
      ghostList.Push(PlayerGhost(None, players[0]));
    }
  }

  // ---------------------------------------------------------------------
  // A whole cycle

  /** The first attempt of the cycle below: the live player moves at
      `moveAt`, which is recorded for ghost 0, then dies and is saved as
      ghost 0. */
  method RecordAndSave(player: Entity, delta: Vec2, stats: PlayerStats, start1: real, moveAt: real)
    returns (history: LevelHistory<PlayerEvent>, ghostList: PlayerGhostList<PlayerStats>)
    ensures fresh(history) && fresh(ghostList)
    ensures history.events == [EventRecord(GhostIdentifier(0), moveAt - start1, PlayerEvent(player, Replay, Move(delta)))]
    ensures ghostList.ghosts == [PlayerGhost(None, stats)]
  {
    history := new LevelHistory<PlayerEvent>();
    ghostList := new PlayerGhostList<PlayerStats>();
    var startTime := new LevelStartTime();
    ResetLevelStartTime(startTime, start1);
    var move := PlayerEvent(player, Input, Move(delta));
    RecordEvent(history, ghostList, startTime, moveAt, [move]);
    RecordedOne(move, moveAt - start1, GhostIdentifier(0));
    SavePlayerGhost(ghostList, [stats]);
  }

  /** One attempt records a move; the player dies and is saved as ghost 0;
      the next attempt spawns the ghost and, on the tick that covers the
      move's timestamp, the replayer sends the move to the ghost. The world
      and the registry of that second attempt are returned: ghost 0 holds
      the player's stats and the one entity alive, which the move targets. */
  method MoveIsReplayedOnGhost(
    player: Entity, delta: Vec2, stats: PlayerStats,
    start1: real, moveAt: real, start2: real, tick: real)
    returns (world: World, ghostList: PlayerGhostList<PlayerStats>, ghostEntity: Entity, sent: seq<PlayerEvent>)
    requires tick > 0.0
    ensures ghostList.ghosts == [PlayerGhost(Some(ghostEntity), stats)]
    ensures world.live == {ghostEntity}
    ensures sent == [PlayerEvent(ghostEntity, Replay, Move(delta))]
  {
    var history;
    history, ghostList := RecordAndSave(player, delta, stats, start1, moveAt);
    SpawnedEntitiesOne(ghostList.ghosts);

    // Second attempt: ghost 0 is spawned and the clock restarts.
    world := new World();
    SpawnGhosts(ghostList, world);
    var startTime := new LevelStartTime();
    ResetLevelStartTime(startTime, start2);
    ghostEntity := ghostList.ghosts[0].entity.value;
    SpawnedEntitiesOne(ghostList.ghosts);

    sent := ReplayEvent(history, startTime, ghostList, start2 + (moveAt - start1), tick);
    ReplayedOne(history.events[0], ghostList.ghosts, start2, start2 + (moveAt - start1), tick);
  }
}
