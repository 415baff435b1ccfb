# Cycle of the Fallen — ghost replay, modelled in Dafny

Cycle of the Fallen is a Bevy game in which every failed attempt at a level
leaves a *ghost*. A ghost is a copy of the player that, on later attempts,
repeats what the player did. This project models the machinery behind that
and proves what it guarantees.

- **Recorder** (`record_event`). Each tick it reads the player's events
  of one type. The plugin registers it, and the replayer, for the move,
  rotate and attack events only; the killed event has the same setters
  but is never recorded. It drops the events that are themselves
  replays. It tags the rest `Replay` and appends them to a per-event-type
  log, stamped with the time since the attempt started and with the index
  the ghost of this attempt will have.
- **Replayer** (`replay_event`). Each tick it sends again every logged
  event whose timestamp falls in the tick's window
  `(now - delta - start, now - start]`. It first retargets the event at
  that ghost's live entity, and skips the record while the ghost is not
  spawned.
- **Ghost registry.** These systems manage the list of ghost slots and
  the log across attempts: `spawn_ghosts`, `ghost_despawn`,
  `save_player_ghost`, `clear_history` and `reset_level_start_time`.
  `ghost_despawn` is defined but the plugin schedules it nowhere.
- **Earlier history** (`src/level/history.rs`). The same design, with no
  source filter and a different window.
- **Frame-indexed replay buffer** (`src/replay.rs`). One transform per
  fixed step is meant to be recorded under the key (player, class) and
  played back on spawned ghosts through an `offset` that advances each
  step. As written nothing is ever recorded (see "## Findings"); both the
  code as written and the intended recording are modelled.
- **Constant tables.** These cover the collision-layer table, the
  game-over toggle, the player, weapon and enemy statistics, and the
  selected character.

Modules, one per source file:

- `Engine`: entities, an entity allocator and component storage.
- `LevelHistoryData`: `src/level_history/data.rs`.
- `PlayerEvents`: `src/player/events.rs`.
- `LevelHistorySystems`: `src/level_history/systems.rs`.
- `LegacyHistory`: `src/level/history.rs`.
- `Replay`: `src/replay.rs`.
- `Collision`: `src/collision.rs`.
- `LevelState`: `src/level/state.rs`.
- `PlayerData`: `src/player/data.rs`.
- `EnnemyData`: `src/ennemy/data.rs`.
- `CharacterData`: `src/character/data.rs`.

How the code is modelled:

- **State.** Code that updates state in place is modelled as classes with
  `seq`/`map` fields. The log, the ghost registry, the start time, the
  replay storage, a mutable event and the selected character are all
  classes.
- **Methods.** Each method is proved against a specification function:
  `Recorded`, `Replayed`, `PushExisting`, `PushOrInsert` and the
  spawn/despawn set algebra.
- **Time** is `real` seconds.
- **Entities.** An entity is a handle, and the engine's `World` hands out
  a fresh handle on every spawn.
- **Event types.** The four player event types become one `PlayerEvent`
  with a payload per kind.
- **Ghost snapshot.** The snapshot a ghost slot keeps is a type parameter
  `S`.

## Model

| member | source | states |
|---|---|---|
| LevelHistoryData.LevelHistory.constructor | src/level_history/data.rs:29-33 | a default log has no events |
| LevelHistoryData.LevelHistory.Push | src/level_history/data.rs:4-7 | a push appends exactly one record at the end of the log |
| LevelHistoryData.LevelHistory.Clear | src/level_history/systems.rs:153-155 | clearing leaves the log empty |
| LevelHistoryData.PlayerGhostList.constructor | src/level_history/data.rs:18-21 | a default registry has no ghost slots |
| LevelHistoryData.PlayerGhostList.Push | src/level_history/systems.rs:221-224 | a push appends exactly one slot at the end |
| LevelHistoryData.PlayerGhostList.Put | src/level_history/systems.rs:198 | writing a slot changes that slot and no other |
| LevelHistoryData.GetGhost | src/level_history/data.rs:23-27 | a slot is found iff the identifier is below the number of slots, and it is the slot at that index |
| LevelHistoryData.ResolveGhost | src/level_history/systems.rs:58 | an entity is found iff the slot exists and has been spawned, and it is that slot's entity |
| LevelHistoryData.LevelStartTime.constructor | src/level_history/data.rs:35-36 | the default start time is 0 |
| LevelHistoryData.LevelStartTime.Set | src/level_history/systems.rs:70-73 | the start time becomes the value given |
| PlayerEvents.PlayerEvent.WithEntity | src/player/events.rs:33-37 | retargeting sets the entity and keeps source and payload |
| PlayerEvents.PlayerEvent.WithSource | src/player/events.rs:39-42 | retagging sets the source and keeps entity and payload |
| PlayerEvents.WithSourceLastWins | src/player/events.rs:39-42 | retagging twice is retagging once with the last source, so one source applied twice is applied once |
| PlayerEvents.WithEntityWithSourceCommute | src/player/events.rs:33-46 | retargeting and retagging commute, because they touch different fields |
| PlayerEvents.EventRef.Clone | src/level_history/systems.rs:25 | a clone holds exactly the event cloned |
| PlayerEvents.EventRef.SetEntity | src/player/events.rs:57-61 | `set_entity` changes the entity and nothing else, for each of the four event types |
| PlayerEvents.EventRef.SetSource | src/player/events.rs:63-66 | `set_source` changes the source and nothing else, for each of the four event types |
| PlayerEvents.EventRef.GetSource | src/player/events.rs:87-94 | `get_source` returns the stored source and changes nothing |
| PlayerEvents.SetThenGetSource | src/player/events.rs:110-117 | `get_source` after `set_source(s)` returns `s` |
| LevelHistorySystems.Recorded | src/level_history/systems.rs:19-31 | the recorder never adds more records than events read; every record carries the tick's timestamp, the next ghost index and the `Replay` tag |
| LevelHistorySystems.RecordedAppend | src/level_history/systems.rs:19 | recording two batches one after the other equals recording them together, in read order |
| LevelHistorySystems.RecordedOne | src/level_history/systems.rs:20-31 | one event gives no record if it is a replay, and otherwise one record holding the event retagged `Replay` |
| LevelHistorySystems.RecordedCount | src/level_history/systems.rs:19-22 | the log grows by exactly the number of live-input events read |
| LevelHistorySystems.RecordedDropsReplays | src/level_history/systems.rs:20-22 | a batch of replayed events records nothing |
| LevelHistorySystems.RecordedAllInput | src/level_history/systems.rs:23-31 | for live input, record i is event i retagged `Replay`, with entity and payload unchanged |
| LevelHistorySystems.RecordEvent | src/level_history/systems.rs:12-37 | `record_event` only appends, leaving the old log as a prefix; it appends exactly the records `Recorded` describes |
| LevelHistorySystems.Replayed | src/level_history/systems.rs:49-64 | every event sent is some due record's event, retargeted at that record's spawned ghost; no more events than records |
| LevelHistorySystems.ReplayedOne | src/level_history/systems.rs:55-62 | a record is sent iff it is due and its ghost is spawned, and then it is sent once, retargeted |
| LevelHistorySystems.ReplayedAppend | src/level_history/systems.rs:49 | replay handles records one at a time and sends them in history order |
| LevelHistorySystems.ReplayedComplete | src/level_history/systems.rs:55-61 | every due record whose ghost is spawned is sent, aimed at that ghost |
| LevelHistorySystems.ReplayedUnspawned | src/level_history/systems.rs:58 | while no ghost is spawned nothing is sent |
| LevelHistorySystems.RecordingKeepsReplayTags | src/level_history/systems.rs:26 | every record in the log carries the `Replay` tag, before and after recording |
| LevelHistorySystems.ReplayIsNotRerecorded | src/level_history/systems.rs:20-22 | events sent by the replayer are never recorded again |
| LevelHistorySystems.ConsecutiveWindows | src/level_history/systems.rs:51-55 | the windows of two consecutive ticks are disjoint and adjacent, so no timestamp is due in both and none between them is missed |
| LevelHistorySystems.DueExactlyOnce | src/level_history/systems.rs:51-55 | over any run of ticks, a timestamp inside the run's span is due at exactly one tick and any other at none |
| LevelHistorySystems.EmissionsAgainstDueTicks | src/level_history/systems.rs:57-58 | a record is sent at most as often as it is due, exactly as often when its ghost is always spawned, and never when it is unspawned at its due tick |
| LevelHistorySystems.EmittedAtMostOnce | src/level_history/systems.rs:41 | over any run of ticks a record is sent at most once |
| LevelHistorySystems.EmittedOnceWhenSpawned | src/level_history/systems.rs:41-62 | a record inside the run's span whose ghost stays spawned is sent exactly once |
| LevelHistorySystems.LostWhenUnspawnedAtItsTick | src/level_history/systems.rs:57-58 | a record whose ghost is unspawned at its one due tick is never sent |
| LevelHistorySystems.OneDueTick | src/level_history/systems.rs:51-55 | two different ticks of a run never share a due record |
| LevelHistorySystems.ReplayEvent | src/level_history/systems.rs:42-65 | `replay_event` sends exactly the events `Replayed` describes and leaves the log unchanged |
| LevelHistorySystems.ResetLevelStartTime | src/level_history/systems.rs:70-73 | the attempt's start time becomes the current clock |
| LevelHistorySystems.ClearHistory | src/level_history/systems.rs:153-155 | `clear_history` leaves the log empty |
| LevelHistorySystems.SpawnSlot | src/level_history/systems.rs:168-198 | a slot's old entity is despawned; a new entity is spawned and stored in the slot; the snapshot and all other slots are kept |
| LevelHistorySystems.SpawnGhosts | src/level_history/systems.rs:159-205 | afterwards every slot holds a fresh, distinct live entity, with length and snapshots unchanged; the old ghost entities are replaced by the new ones in the live set |
| LevelHistorySystems.GhostDespawn | src/level_history/systems.rs:207-214 | afterwards every slot's entity is `None`, snapshots are kept, and exactly the held entities are despawned |
| LevelHistorySystems.SavePlayerGhost | src/level_history/systems.rs:216-228 | with exactly one player, one unspawned slot with its stats is appended; otherwise the registry is unchanged |
| LevelHistorySystems.RecordAndSave | src/level_history/systems.rs:12-37 | an attempt that records one move and then saves the player leaves one record for ghost 0 and one unspawned slot with the player's stats |
| LevelHistorySystems.MoveIsReplayedOnGhost | src/level_history/systems.rs:12-65 | a move recorded in one attempt is sent, tagged `Replay`, at the matching tick of the next attempt, to the entity that ghost 0's slot holds, which is the one entity alive |
| LegacyHistory.LegacyRecorded | src/level/history.rs:66-72 | every event read is recorded verbatim and in order, with the tick's timestamp and the next ghost index |
| LegacyHistory.RecordEvent | src/level/history.rs:59-76 | the legacy `record_event` appends exactly `LegacyRecorded` to the log |
| LegacyHistory.LegacyAgreesOnLiveInput | src/level/history.rs:66-72 | on live input the two recorders agree, up to the `Replay` tag |
| LegacyHistory.LegacyReplayed | src/level/history.rs:90-110 | every event sent is a legacy-due record's event, retargeted at that record's spawned ghost |
| LegacyHistory.LegacyReplayedComplete | src/level/history.rs:95-108 | every record in the legacy window whose ghost is spawned is sent, retargeted at that ghost |
| LegacyHistory.ReplayEvent | src/level/history.rs:83-111 | the legacy `replay_event` sends exactly `LegacyReplayed` |
| LegacyHistory.LegacyLateStartReplaysNothing | src/level/history.rs:92-95 | once the start time is at least one tick's length, nothing is ever replayed |
| LegacyHistory.LegacyWindowCounterexample | src/level/history.rs:92-95 | a concrete record due in the intended window is not due in the legacy one |
| LegacyHistory.LegacyMissesTickBoundary | src/level/history.rs:95 | a record stamped at a tick's end is due in neither that tick nor the next |
| LegacyHistory.ResetGameHistoryStart | src/level/history.rs:78-81 | the start time becomes the current clock |
| LegacyHistory.SpawnGhosts | src/level/history.rs:113-144 | as `spawn_ghosts`, and slot i's entity also carries the component `GhostIdentifier(i)`; the despawned stale entities lose their tags, the spawned ones gain theirs, and every other entity keeps its tag or lack of one |
| LegacyHistory.SpawnTaggedSlot | src/level/history.rs:122-142 | one turn despawns slot i's stale entity with its tag and gives the slot a fresh entity tagged `GhostIdentifier(i)`; every other slot and every other tag is unchanged, and the live set trades the slot's old entity for the new one |
| LegacyHistory.GhostDespawn | src/level/history.rs:146-153 | afterwards every slot's entity is `None`, and exactly the held entities are despawned and lose their tags |
| Replay.ReplayStorage.constructor | src/replay.rs:10-14 | default storage has no recordings and offset 0 |
| Replay.ReplayStorage.Clear | src/replay.rs:16-21 | `clear` empties the recordings and resets the offset to 0 |
| Replay.ResetStorage | src/replay.rs:87-89 | `reset_storage` empties the recordings and resets the offset to 0 |
| Replay.PushExisting | src/replay.rs:40-46 | recording as written never adds or removes a key |
| Replay.RecordPlayer | src/replay.rs:36-47 | `record_player` as written pushes only onto recordings whose key exists; the offset is unchanged |
| Replay.PushExistingKeepsOthers | src/replay.rs:40-46 | as written, a recording that no row of the frame belongs to is unchanged |
| Replay.PushExistingAppendsRow | src/replay.rs:40-46 | as written, a row whose key has a recording adds its transform at the end of that recording |
| Replay.AsWrittenRecordsNothing | src/replay.rs:44 | starting from empty storage, any number of frames records nothing |
| Replay.PushOrInsert | src/replay.rs:40-46 | the intended recording has the old keys plus one key per row |
| Replay.RecordPlayerOrInsert | src/replay.rs:36-47 | the intended `record_player` records exactly `PushOrInsert` and leaves the offset unchanged |
| Replay.PushOrInsertKeepsOthers | src/replay.rs:40-46 | a recording with no row in the frame is kept as it was |
| Replay.PushOrInsertAppendsRow | src/replay.rs:40-46 | each row's transform ends up at the end of its key's recording, starting the recording if it was absent |
| Replay.FramesSnoc | src/replay.rs:40-46 | with the intended recording, a frame in which the player is present appends its transform to the player's recording |
| Replay.RecordedOncePerFrame | src/replay.rs:36-47 | a player present in every frame has one recorded transform per frame |
| Replay.RecordedFramesReplayInOrder | src/replay.rs:40-46 | position f of a player's recording is that player's transform of frame f |
| Replay.SpawnGhostOf | src/replay.rs:57-62 | one spawn yields a fresh entity marked as ghost of the key's player, with the key's class and the starting transform |
| Replay.ResetReplayStep | src/replay.rs:56-62 | one turn spawns one entity not alive before, maps the key to it and keeps every earlier key's ghost; only the new entity's marker, class and transform are written |
| Replay.ResetReplay | src/replay.rs:49-64 | `reset_replay` resets the offset to 0 and spawns exactly one new, distinct ghost per stored key, marked for that key's player and class; every other entity keeps its marker, class and transform entries |
| Replay.ReplayKey | src/replay.rs:72-81 | each ghost of the key's player takes frame `offset` if the recording reaches it; every other transform is kept |
| Replay.Replay | src/replay.rs:66-85 | the offset advances by one; the recordings are untouched; a ghost whose player's recording reaches `offset` takes that frame; any other transform is kept |
| Replay.ExplainedUniquely | src/replay.rs:70-81 | when a player has one recording, its ghost takes exactly that recording's frame |
| Replay.NothingFedKeepsTransform | src/replay.rs:76-78 | a ghost with no recording reaching `offset` keeps its transform |
| Collision.GetCollisionLayers | src/collision.rs:10-43 | memberships equal the input layer; a named layer never collides with itself and only with named layers; any other input collides with every layer |
| Collision.NamedLayersAreDistinctBits | src/collision.rs:4-8 | the five layer constants are distinct single bits |
| Collision.FiltersAreCrossSide | src/collision.rs:14-39 | two named layers collide iff they are on different sides (player, enemy, wall) |
| Collision.FiltersSymmetric | src/collision.rs:14-39 | collision between named layers is symmetric |
| Collision.WallFilterIsUnionOfOthers | src/collision.rs:34-39 | the wall collides with exactly the four other layers |
| Collision.FilterMasks | src/collision.rs:14-39 | the filter of every named layer, as an exact mask |
| LevelState.ToggleGameOver | src/level/state.rs:9-18 | from `Playing` to `GameOver` and back; the next state always differs |
| LevelState.ToggleTwice | src/level/state.rs:13-16 | toggling twice returns to the original state |
| PlayerData.NewAttack | src/player/data.rs:81-104 | only the sword is melee, with speed 0; ranged weapons have positive speed; every range and cooldown is positive |
| PlayerData.NewPlayerStats | src/player/data.rs:46-63 | every class has health 100 and damage 10 |
| PlayerData.NewAttackProjectile | src/player/data.rs:118-123 | both arguments are stored unchanged |
| PlayerData.ClassWeapons | src/player/data.rs:48-62 | Knight fights with the sword, Ranger with the bow, Wizard with the staff |
| PlayerData.ClassesDiffer | src/player/data.rs:46-63 | only the knight is melee, and no two classes share an attack |
| PlayerData.BowOutranges | src/player/data.rs:83-103 | the bow has the longest range (600) and the shortest cooldown (0.1) |
| EnnemyData.NewEnnemyStats | src/ennemy/data.rs:36-56 | both kinds fire a 10 x 10 projectile; health is at least 100; speed and range are positive; only the dummy is harmless |
| EnnemyData.TurretDominatesDummy | src/ennemy/data.rs:38-53 | dummy: health 100, damage 0; turret: health 200, damage 10, and faster and longer-ranged projectiles than the dummy |
| CharacterData.SelectedCharacter.constructor | src/character/data.rs:11-15 | the default selection is the knight |
| CharacterData.SelectedCharacter.Set | src/character/data.rs:17-21 | `set(c)` stores `c` |
| CharacterData.SelectTwice | src/character/data.rs:18-20 | the last `set` wins |

## Left out

- `debug_history` (src/level_history/systems.rs:75-150) is left out. It is UI layout with pixel scaling.
- Mesh, material, physics, children and visual components are not modelled. This covers what `spawn_ghosts`, its legacy version and `reset_replay` attach to a spawned entity. Spawning is `World.Spawn`, which supplies a fresh handle. `reset_replay` keeps only the ghost marker, the class and the starting transform of the player bundle. The new `spawn_ghosts` does not record the snapshot it attaches to the entity.
- Bevy's deferred `Commands` are modelled as immediate. Despawning an entity that is already gone is a no-op here.
- `StateScoped` is not modelled. Neither is the despawn on leaving the play state that it causes for the entities that carry it. The ghosts of the new `spawn_ghosts` (src/level_history/systems.rs:173-184) carry none, and `ghost_despawn` is not scheduled by src/level_history/mod.rs. Nothing in the modelled code despawns a ghost before the next `spawn_ghosts` replaces it (`SpawnSlot`). `clean_ghost_list`, which the plugin also schedules, is not part of this model.
- Logging (`info!`, `warn!`, `error!`), the debug colours of src/player/events.rs, and the schedule wiring in `main.rs` and the `mod.rs` files are left out. In particular, src/level_history/mod.rs:69 also runs `save_player_ghost` every frame with no run condition. As wired, it appends a slot on every frame while exactly one player exists, so the ghost index `record_event` stamps moves on every frame. The model states what one run of each system does, not how often it runs.
- Component stores are separate from `World`, and `World.Despawn` does not clear them. Where a modelled system despawns an entity carrying a modelled component, the store is cleared explicitly. This covers the legacy `GhostIdentifier` tags in `spawn_ghosts` and `ghost_despawn`, as `despawn_recursive` does.
- `src/level/history.rs` and `src/replay.rs` are not declared as modules in `src/main.rs`. They are modelled as written all the same.
- `f64`/`f32` rounding is not modelled: times and statistics are reals. `usize` is `nat`, since no index here comes near overflow.
- The ghost snapshot is a type parameter, because the repository disagrees on what a slot keeps. It is `stats` in src/level_history/systems.rs:175 and :222, `class` in src/level_history/data.rs:15, and `speed` in src/level/history.rs:27. The new systems use `PlayerStats`. The code is followed where it differs from data.rs.
- The `Speed` type and the `Player`/`PlayerBundle` definitions are not part of this model.
- The cleanup of the ghost list and the save-ghost event named in the plugin files are not part of this model either.
- The four event structs are one datatype with a payload per kind. The four identical `set_entity`/`set_source`/`get_source` impls are therefore one set of methods.
- `EventSource` and `GhostIdentifier` equality is datatype equality, which is what the derived `PartialEq` gives.
- The legacy `get_ghost` (src/level/history.rs:43-47) is the same code as `LevelHistoryData.GetGhost`, which both replayers use.
- Hash-map iteration order is unspecified. The loops over the replay storage pick keys in any order, and their contracts hold for every order.
- Replay.Replay: when one player has recordings under two classes, the ghost ends with the frame of whichever key the map visits last. The contract says only that it is the frame of one of them. With one recording per player, `ExplainedUniquely` pins it exactly.
- EnnemyData.NewEnnemyStats bounds the values instead of listing them. `TurretDominatesDummy` states the exact health and damage.

## Findings

| source | as written | input that shows it | evidently intended | confidence | as-written member | corrected member |
|---|---|---|---|---|---|---|
| src/level/history.rs:92-93 | the window start is `end - delta + start_time`, so the window runs from `now - delta` to `now - start_time` | start time 10 s, tick of 0.5 s ending at 11 s, record stamped 0.8 s: the window (10.5, 1) is empty, so nothing is ever replayed once the start time is at least one tick long | window `(now - delta - start_time, now - start_time]`, as src/level_history/systems.rs:52-55 has it | high (not executed) | LegacyHistory.LegacyWindowCounterexample | LevelHistorySystems.DueExactlyOnce |
| src/level/history.rs:95 | the window is open at its end (`timestamp < end`) | start time 0, a record stamped exactly at a tick's end (for example timestamp 0 on the first frame) is due in neither that tick nor the next | a half-open window, so consecutive windows tile the timeline | high (not executed) | LegacyHistory.LegacyMissesTickBoundary | LevelHistorySystems.ConsecutiveWindows |
| src/replay.rs:44 | `get_mut(..).unwrap_or(&mut Vec::new()).push(..)` pushes an absent key's transform onto a temporary | storage after `Default` or `clear` is empty, and any number of frames leaves it empty, so `reset_replay` spawns no ghost and `replay` moves nothing | insert the key with an empty recording, then push (`entry(..).or_default()`) | high (not executed) | Replay.AsWrittenRecordsNothing | Replay.RecordedFramesReplayInOrder |
