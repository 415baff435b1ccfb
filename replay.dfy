/** The frame-indexed replay buffer (src/replay.rs): the player's transform
    is meant to be recorded every fixed step under the key (player entity,
    class); on entering play one ghost is spawned per key, and every step
    each ghost takes the transform recorded `offset` steps into its key's
    recording. As written, `record_player` never adds a key, so nothing is
    ever recorded (`AsWrittenRecordsNothing`); the intended recording is
    modelled beside it.

    The engine's hash map iterates in no particular order; the loops over
    its keys below pick the next key with `:|` and so prove their contracts
    for every order. */
module Replay {
  import opened Engine
  import opened PlayerData

  /** A recording's key: the player entity and its class. */
  datatype Key = Key(entity: Entity, playerClass: Class)

  /** One row of the player query: entity, transform and class. */
  datatype PlayerRow = PlayerRow(entity: Entity, transform: Transform, playerClass: Class)

  function KeyOf(row: PlayerRow): Key
  {
    Key(row.entity, row.playerClass)
  }

  /** The storage. `transform` holds one recording per key. */
  class ReplayStorage {
    var transform: map<Key, seq<Transform>>
    var offset: nat

    /** `Default`: nothing recorded, replay at the first frame. */
    constructor ()
      ensures transform == map[] && offset == 0
    {
      transform := map[];
      offset := 0;
    }

    /** `ReplayStorage::clear`. */
    method Clear()
      modifies this
      ensures transform == map[] && offset == 0
    {
      transform := map[];
      offset := 0;
    }
  }

  /** `reset_storage`. */
  method ResetStorage(storage: ReplayStorage)
    modifies storage
    ensures storage.transform == map[] && storage.offset == 0
  {
    storage.Clear();
  }

  // ---------------------------------------------------------------------
  // Recording

  /** What `record_player` does to the recordings, as written: a row whose
      key is already present has its transform pushed onto that key's
      recording; for any other row `get_mut` finds nothing and the push
      goes to a temporary vector that is dropped. No key is ever added. */
  function PushExisting(m: map<Key, seq<Transform>>, rows: seq<PlayerRow>): (r: map<Key, seq<Transform>>)
    ensures r.Keys == m.Keys
  {
    if rows == [] then m
    else
      var prev := PushExisting(m, rows[..|rows| - 1]);
      var row := rows[|rows| - 1];
      if KeyOf(row) in prev then prev[KeyOf(row) := prev[KeyOf(row)] + [row.transform]] else prev
  }

  /** `record_player`, as written. */
  method RecordPlayer(storage: ReplayStorage, rows: seq<PlayerRow>)
    modifies storage
    ensures storage.transform == PushExisting(old(storage.transform), rows)
    ensures storage.offset == old(storage.offset)
  {
    ghost var m0 := storage.transform;
    var i := 0;
    while i < |rows|
      invariant 0 <= i <= |rows|
      invariant storage.transform == PushExisting(m0, rows[..i])
      invariant storage.offset == old(storage.offset)
    {
      var key := KeyOf(rows[i]);
      if key in storage.transform {
        storage.transform := storage.transform[key := storage.transform[key] + [rows[i].transform]];
      }
      assert rows[..i + 1][..i] == rows[..i];
      i := i + 1;
    }
    assert rows[..i] == rows;
  }

  /** As written, a frame leaves alone every recording none of its rows
      belongs to. */
  lemma {:induction false} PushExistingKeepsOthers(m: map<Key, seq<Transform>>, rows: seq<PlayerRow>, key: Key)
    requires key in m
    requires forall j :: 0 <= j < |rows| ==> KeyOf(rows[j]) != key
    ensures PushExisting(m, rows)[key] == m[key]
  {
    if rows != [] {
      var n := |rows| - 1;
      assert forall j :: 0 <= j < n ==> rows[..n][j] == rows[j];
      PushExistingKeepsOthers(m, rows[..n], key);
    }
  }

  /** As written, a row whose key already has a recording adds its
      transform at the end of that recording; a row whose key has none
      is lost, since the key set never changes (`PushExisting`'s ensures). */
  lemma {:induction false} PushExistingAppendsRow(m: map<Key, seq<Transform>>, rows: seq<PlayerRow>, j: nat)
    requires DistinctEntities(rows) && j < |rows| && KeyOf(rows[j]) in m
    ensures PushExisting(m, rows)[KeyOf(rows[j])] == m[KeyOf(rows[j])] + [rows[j].transform]
  {
    var n := |rows| - 1;
    var key := KeyOf(rows[j]);
    assert forall i :: 0 <= i < n ==> rows[..n][i] == rows[i];
    if j == n {
      PushExistingKeepsOthers(m, rows[..n], key);
    } else {
      assert DistinctEntities(rows[..n]);
      PushExistingAppendsRow(m, rows[..n], j);
    }
  }

  /** Finding: recording as written never records anything into storage that
      starts empty, which is how it starts (`Default`) and how `clear`
      leaves it. */
  lemma {:induction false} AsWrittenRecordsNothing(rowsPerFrame: seq<seq<PlayerRow>>)
    ensures FramesAsWritten(map[], rowsPerFrame) == map[]
  {
    if rowsPerFrame != [] {
      var n := |rowsPerFrame| - 1;
      AsWrittenRecordsNothing(rowsPerFrame[..n]);
      assert PushExisting(map[], rowsPerFrame[n]).Keys == {};
    }
  }

  /** The keys of a frame's rows. */
  function RowKeys(rows: seq<PlayerRow>): set<Key>
  {
    if rows == [] then {} else RowKeys(rows[..|rows| - 1]) + {KeyOf(rows[|rows| - 1])}
  }

  /** The evidently intended recording (`entry(key).or_default().push(..)`):
      a row whose key is absent starts a new recording. */
  function PushOrInsert(m: map<Key, seq<Transform>>, rows: seq<PlayerRow>): (r: map<Key, seq<Transform>>)
    ensures r.Keys == m.Keys + RowKeys(rows)
  {
    if rows == [] then m
    else
      var prev := PushOrInsert(m, rows[..|rows| - 1]);
      var key := KeyOf(rows[|rows| - 1]);
      prev[key := (if key in prev then prev[key] else []) + [rows[|rows| - 1].transform]]
  }

  /** The recordings after a run of frames as written, one batch of query
      rows per frame. */
  function FramesAsWritten(m: map<Key, seq<Transform>>, rowsPerFrame: seq<seq<PlayerRow>>): map<Key, seq<Transform>>
  {
    if rowsPerFrame == [] then m
    else PushExisting(FramesAsWritten(m, rowsPerFrame[..|rowsPerFrame| - 1]), rowsPerFrame[|rowsPerFrame| - 1])
  }

  /** The recordings after a run of frames with the intended recording. */
  function FramesIntended(m: map<Key, seq<Transform>>, rowsPerFrame: seq<seq<PlayerRow>>): map<Key, seq<Transform>>
  {
    if rowsPerFrame == [] then m
    else PushOrInsert(FramesIntended(m, rowsPerFrame[..|rowsPerFrame| - 1]), rowsPerFrame[|rowsPerFrame| - 1])
  }

  /** `record_player` as evidently intended. */
  method RecordPlayerOrInsert(storage: ReplayStorage, rows: seq<PlayerRow>)
    modifies storage
    ensures storage.transform == PushOrInsert(old(storage.transform), rows)
    ensures storage.offset == old(storage.offset)
  {
    ghost var m0 := storage.transform;
    var i := 0;
    while i < |rows|
      invariant 0 <= i <= |rows|
      invariant storage.transform == PushOrInsert(m0, rows[..i])
      invariant storage.offset == old(storage.offset)
    {
      var key := KeyOf(rows[i]);
      var recording := if key in storage.transform then storage.transform[key] else [];
      storage.transform := storage.transform[key := recording + [rows[i].transform]];
      assert rows[..i + 1][..i] == rows[..i];
      i := i + 1;
    }
    assert rows[..i] == rows;
  }

  /** The query yields each entity once, so no two rows share a key. */
  predicate DistinctEntities(rows: seq<PlayerRow>)
  {
    forall i, j :: 0 <= i < j < |rows| ==> rows[i].entity != rows[j].entity
  }

  /** With the intended recording, a frame leaves alone every recording
      none of its rows belongs to. */
  lemma {:induction false} PushOrInsertKeepsOthers(m: map<Key, seq<Transform>>, rows: seq<PlayerRow>, key: Key)
    requires forall j :: 0 <= j < |rows| ==> KeyOf(rows[j]) != key
    ensures key in PushOrInsert(m, rows) <==> key in m
    ensures key in m ==> PushOrInsert(m, rows)[key] == m[key]
  {
    if rows != [] {
      var n := |rows| - 1;
      assert forall j :: 0 <= j < n ==> rows[..n][j] == rows[j];
      PushOrInsertKeepsOthers(m, rows[..n], key);
    }
  }

  /** With the intended recording, a frame adds each row's transform at the
      end of its key's recording, starting one if there was none. */
  lemma {:induction false} PushOrInsertAppendsRow(m: map<Key, seq<Transform>>, rows: seq<PlayerRow>, j: nat)
    requires DistinctEntities(rows) && j < |rows|
    ensures KeyOf(rows[j]) in PushOrInsert(m, rows)
    ensures PushOrInsert(m, rows)[KeyOf(rows[j])]
      == (if KeyOf(rows[j]) in m then m[KeyOf(rows[j])] else []) + [rows[j].transform]
  {
    var n := |rows| - 1;
    var key := KeyOf(rows[j]);
    assert forall i :: 0 <= i < n ==> rows[..n][i] == rows[i];
    if j == n {
      PushOrInsertKeepsOthers(m, rows[..n], key);
    } else {
      assert DistinctEntities(rows[..n]);
      PushOrInsertAppendsRow(m, rows[..n], j);
    }
  }

  /** The row of `key` in one frame, if the player was there. */
  function RowFor(rows: seq<PlayerRow>, key: Key): Option<Transform>
  {
    if rows == [] then None
    else if KeyOf(rows[0]) == key then Some(rows[0].transform)
    else RowFor(rows[1..], key)
  }

  /** Recording each frame as intended from cleared storage, a frame in
      which the player is present adds its transform at the end of the
      player's recording. */
  lemma FramesSnoc(rowsPerFrame: seq<seq<PlayerRow>>, key: Key)
    requires |rowsPerFrame| > 0
    requires DistinctEntities(rowsPerFrame[|rowsPerFrame| - 1])
    requires RowFor(rowsPerFrame[|rowsPerFrame| - 1], key).Some?
    ensures key in FramesIntended(map[], rowsPerFrame)
    ensures FramesIntended(map[], rowsPerFrame)[key]
      == (var prev := FramesIntended(map[], rowsPerFrame[..|rowsPerFrame| - 1]);
          if key in prev then prev[key] else [])
         + [RowFor(rowsPerFrame[|rowsPerFrame| - 1], key).value]
  {
    var n := |rowsPerFrame| - 1;
    var j := FindRow(rowsPerFrame[n], key);
    PushOrInsertAppendsRow(FramesIntended(map[], rowsPerFrame[..n]), rowsPerFrame[n], j);
  }

  /** Recording each frame as intended from cleared storage, a player
      present in every frame has one recorded transform per frame. */
  lemma {:induction false} RecordedOncePerFrame(rowsPerFrame: seq<seq<PlayerRow>>, key: Key)
    requires forall f :: 0 <= f < |rowsPerFrame| ==> DistinctEntities(rowsPerFrame[f])
    requires forall f :: 0 <= f < |rowsPerFrame| ==> RowFor(rowsPerFrame[f], key).Some?
    requires |rowsPerFrame| > 0
    ensures key in FramesIntended(map[], rowsPerFrame)
    ensures |FramesIntended(map[], rowsPerFrame)[key]| == |rowsPerFrame|
  {
    var n := |rowsPerFrame| - 1;
    var init := rowsPerFrame[..n];
    FramesSnoc(rowsPerFrame, key);
    if n > 0 {
      assert forall f :: 0 <= f < n ==> init[f] == rowsPerFrame[f];
      RecordedOncePerFrame(init, key);
    }
  }

  /** Round trip: with the intended recording from cleared storage, position
      `f` of a player's recording is its transform of frame `f`, which is
      what `replay` hands the player's ghost when `offset` is `f`. */
  lemma {:induction false} RecordedFramesReplayInOrder(rowsPerFrame: seq<seq<PlayerRow>>, key: Key, f: nat)
    requires forall f :: 0 <= f < |rowsPerFrame| ==> DistinctEntities(rowsPerFrame[f])
    requires forall f :: 0 <= f < |rowsPerFrame| ==> RowFor(rowsPerFrame[f], key).Some?
    requires f < |rowsPerFrame|
    ensures key in FramesIntended(map[], rowsPerFrame)
    ensures |FramesIntended(map[], rowsPerFrame)[key]| == |rowsPerFrame|
    ensures FramesIntended(map[], rowsPerFrame)[key][f] == RowFor(rowsPerFrame[f], key).value
  {
    var n := |rowsPerFrame| - 1;
    var init := rowsPerFrame[..n];
    RecordedOncePerFrame(rowsPerFrame, key);
    FramesSnoc(rowsPerFrame, key);
    if f < n {
      assert forall g :: 0 <= g < n ==> init[g] == rowsPerFrame[g];
      RecordedOncePerFrame(init, key);
      RecordedFramesReplayInOrder(init, key, f);
    }
  }

  /** The index of `key`'s row in a frame where the player was present. */
  lemma {:induction false} FindRow(rows: seq<PlayerRow>, key: Key) returns (j: nat)
    requires RowFor(rows, key).Some?
    ensures j < |rows| && KeyOf(rows[j]) == key && RowFor(rows, key) == Some(rows[j].transform)
  {
    if KeyOf(rows[0]) == key {
      j := 0;
    } else {
      var k := FindRow(rows[1..], key);
      j := k + 1;
    }
  }

  // ---------------------------------------------------------------------
  // Spawning and replaying

  lemma ValuesAfterInsert(m: map<Key, Entity>, key: Key, e: Entity)
    requires key !in m
    ensures m[key := e].Values == m.Values + {e}
  {
    forall v | v in m[key := e].Values
      ensures v in m.Values + {e}
    {
      var k :| k in m[key := e] && m[key := e][k] == v;
      if k != key {
        assert m[k] == v;
      }
    }
    forall v | v in m.Values + {e}
      ensures v in m[key := e].Values
    {
      if v == e {
        assert m[key := e][key] == e;
      } else {
        var k :| k in m && m[k] == v;
        assert m[key := e][k] == v;
      }
    }
  }

  /** One ghost of `reset_replay`: a fresh entity marked as the ghost of
      the recording's player, with its class and the starting transform. */
  method SpawnGhostOf(
    key: Key,
    world: World,
    ghostFor: Components<Entity>,
    classes: Components<Class>,
    transforms: Components<Transform>,
    spawnTransform: Transform)
    returns (e: Entity)
    requires world.Valid()
    modifies world, ghostFor, classes, transforms
    ensures world.Valid()
    ensures e !in old(world.live) && world.live == old(world.live) + {e}
    ensures old(world.next) <= e.index < world.next
    ensures ghostFor.of == old(ghostFor.of)[e := key.entity]
    ensures classes.of == old(classes.of)[e := key.playerClass]
    ensures transforms.of == old(transforms.of)[e := spawnTransform]
  {
    e := world.Spawn();
    ghostFor.Insert(e, key.entity);
    classes.Insert(e, key.playerClass);
    transforms.Insert(e, spawnTransform);
  }

  /** The ghosts spawned so far, one per key: pairwise distinct handles
      numbered from `lo` up to `hi`, each marked as the ghost of its key's
      player, with its key's class and the starting transform. */
  ghost predicate SpawnedGhosts(
    spawned: map<Key, Entity>, lo: nat, hi: nat,
    ghostFor: map<Entity, Entity>, classes: map<Entity, Class>, transforms: map<Entity, Transform>,
    spawnTransform: Transform)
  {
    && (forall k :: k in spawned ==> lo <= spawned[k].index < hi)
    && (forall k1, k2 :: k1 in spawned && k2 in spawned && k1 != k2 ==> spawned[k1] != spawned[k2])
    && (forall k :: k in spawned ==>
         && spawned[k] in ghostFor && ghostFor[spawned[k]] == k.entity
         && spawned[k] in classes && classes[spawned[k]] == k.playerClass
         && spawned[k] in transforms && transforms[spawned[k]] == spawnTransform)
  }

  lemma SpawnedGhostsStep(
    spawned: map<Key, Entity>, lo: nat, hi: nat,
    ghostFor: map<Entity, Entity>, classes: map<Entity, Class>, transforms: map<Entity, Transform>,
    spawnTransform: Transform, key: Key, e: Entity, hi2: nat)
    requires SpawnedGhosts(spawned, lo, hi, ghostFor, classes, transforms, spawnTransform)
    requires key !in spawned && lo <= hi <= e.index < hi2
    ensures SpawnedGhosts(
      spawned[key := e], lo, hi2,
      ghostFor[e := key.entity], classes[e := key.playerClass], transforms[e := spawnTransform], spawnTransform)
  {
    var s2 := spawned[key := e];
    forall k | k in s2
      ensures lo <= s2[k].index < hi2
      ensures s2[k] in ghostFor[e := key.entity] && ghostFor[e := key.entity][s2[k]] == k.entity
      ensures s2[k] in classes[e := key.playerClass] && classes[e := key.playerClass][s2[k]] == k.playerClass
      ensures s2[k] in transforms[e := spawnTransform] && transforms[e := spawnTransform][s2[k]] == spawnTransform
    {
      if k != key {
        assert s2[k] == spawned[k] && spawned[k].index < hi;
      }
    }
    forall k1, k2 | k1 in s2 && k2 in s2 && k1 != k2
      ensures s2[k1] != s2[k2]
    {
      if k1 != key && k2 != key {
        assert s2[k1] == spawned[k1] && s2[k2] == spawned[k2];
      } else if k1 == key {
        assert spawned[k2].index < hi;
      } else {
        assert spawned[k1].index < hi;
      }
    }
  }

  /** `reset_replay`: replay restarts at the first frame and one ghost is
      spawned per recording, marked as the ghost of that recording's
      player (`GhostFor`), with that recording's class and the transform a
      new player body starts with. */
  method ResetReplay(
    storage: ReplayStorage,
    world: World,
    ghostFor: Components<Entity>,
    classes: Components<Class>,
    transforms: Components<Transform>,
    spawnTransform: Transform)
    returns (ghost spawned: map<Key, Entity>)
    requires world.Valid()
    modifies storage, world, ghostFor, classes, transforms
    ensures storage.offset == 0 && storage.transform == old(storage.transform)
    ensures world.Valid()
    ensures spawned.Keys == storage.transform.Keys
    ensures world.live == old(world.live) + spawned.Values
    ensures forall k :: k in spawned ==> spawned[k] !in old(world.live)
    ensures SpawnedGhosts(spawned, old(world.next), world.next, ghostFor.of, classes.of, transforms.of, spawnTransform)
    ensures SameOutside(ghostFor.of, old(ghostFor.of), spawned.Values)
    ensures SameOutside(classes.of, old(classes.of), spawned.Values)
    ensures SameOutside(transforms.of, old(transforms.of), spawned.Values)
  {
    storage.offset := 0;
    var todo := storage.transform.Keys;
    spawned := map[];
    ghost var next0 := world.next;
    ghost var live0 := world.live;
    while todo != {}
      invariant world.Valid() && next0 <= world.next
      invariant storage.offset == 0 && storage.transform == old(storage.transform)
      invariant todo <= storage.transform.Keys
      invariant spawned.Keys == storage.transform.Keys - todo
      invariant world.live == live0 + spawned.Values
      invariant SpawnedGhosts(spawned, next0, world.next, ghostFor.of, classes.of, transforms.of, spawnTransform)
      invariant SameOutside(ghostFor.of, old(ghostFor.of), spawned.Values)
      invariant SameOutside(classes.of, old(classes.of), spawned.Values)
      invariant SameOutside(transforms.of, old(transforms.of), spawned.Values)
      decreases todo
    {
      var key :| key in todo;
      ghost var spawned1, ghostFor1, classes1, transforms1 := spawned, ghostFor.of, classes.of, transforms.of;
      var e;
      e, spawned := ResetReplayStep(key, world, ghostFor, classes, transforms, spawnTransform, spawned, live0, next0);
      ValuesAfterInsert(spawned1, key, e);
      SameOutsideInsert(ghostFor1, old(ghostFor.of), spawned1.Values, e, key.entity);
      SameOutsideInsert(classes1, old(classes.of), spawned1.Values, e, key.playerClass);
      SameOutsideInsert(transforms1, old(transforms.of), spawned1.Values, e, spawnTransform);
      todo := todo - {key};
    }
    SpawnedAboveLive(spawned, live0, next0, world.next, ghostFor.of, classes.of, transforms.of, spawnTransform);
  }

  /** One turn of the `reset_replay` loop: the ghost `e` of recording `key`,
      a fresh entity whose three components are the only ones written. */
  method ResetReplayStep(
    key: Key,
    world: World,
    ghostFor: Components<Entity>,
    classes: Components<Class>,
    transforms: Components<Transform>,
    spawnTransform: Transform,
    ghost spawned: map<Key, Entity>,
    ghost live0: set<Entity>,
    ghost next0: nat)
    returns (e: Entity, ghost spawned2: map<Key, Entity>)
    requires world.Valid() && next0 <= world.next && key !in spawned
    requires world.live == live0 + spawned.Values
    requires SpawnedGhosts(spawned, next0, world.next, ghostFor.of, classes.of, transforms.of, spawnTransform)
    modifies world, ghostFor, classes, transforms
    ensures spawned2 == spawned[key := e]
    ensures e !in old(world.live) && world.live == old(world.live) + {e}
    ensures ghostFor.of == old(ghostFor.of)[e := key.entity]
    ensures classes.of == old(classes.of)[e := key.playerClass]
    ensures transforms.of == old(transforms.of)[e := spawnTransform]
    ensures world.Valid() && next0 <= world.next
    ensures world.live == live0 + spawned2.Values
    ensures SpawnedGhosts(spawned2, next0, world.next, ghostFor.of, classes.of, transforms.of, spawnTransform)
  {
    ghost var ghostFor0, classes0, transforms0, next1 := ghostFor.of, classes.of, transforms.of, world.next;
    e := SpawnGhostOf(key, world, ghostFor, classes, transforms, spawnTransform);
    ValuesAfterInsert(spawned, key, e);
    SpawnedGhostsStep(spawned, next0, next1, ghostFor0, classes0, transforms0, spawnTransform, key, e, world.next);
    spawned2 := spawned[key := e];
  }

  /** The ghosts spawned are numbered above every entity alive before. */
  lemma SpawnedAboveLive(
    spawned: map<Key, Entity>, live0: set<Entity>, lo: nat, hi: nat,
    ghostFor: map<Entity, Entity>, classes: map<Entity, Class>, transforms: map<Entity, Transform>,
    spawnTransform: Transform)
    requires SpawnedGhosts(spawned, lo, hi, ghostFor, classes, transforms, spawnTransform)
    requires forall e :: e in live0 ==> e.index < lo
    ensures forall k :: k in spawned ==> spawned[k] !in live0
  {
    forall k | k in spawned
      ensures spawned[k] !in live0
    {
      assert lo <= spawned[k].index;
    }
  }


  /** Recording `key` has a transform for frame `offset`, and `target` is its player. */
  predicate Feeds(m: map<Key, seq<Transform>>, offset: nat, key: Key, target: Entity)
  {
    key in m && key.entity == target && offset < |m[key]|
  }

  /** The transform a ghost of `target` may take: frame `offset` of some
      recording among `keys` that feeds it. */
  predicate FedFrom(m: map<Key, seq<Transform>>, offset: nat, keys: set<Key>, target: Entity, t: Transform)
  {
    exists key :: key in keys && Feeds(m, offset, key, target) && t == m[key][offset]
  }

  predicate AnyFeeds(m: map<Key, seq<Transform>>, offset: nat, keys: set<Key>, target: Entity)
  {
    exists key :: key in keys && Feeds(m, offset, key, target)
  }

  /** What one step of `replay` may leave as the transform of ghost `g`,
      having gone through the recordings in `keys`: a transform fed by one
      of them if any feeds it, its old transform otherwise. */
  ghost predicate Explained(m: map<Key, seq<Transform>>, offset: nat, keys: set<Key>, ghostFor: map<Entity, Entity>, g: Entity, was: Transform, now: Transform)
  {
    if g in ghostFor && AnyFeeds(m, offset, keys, ghostFor[g]) then FedFrom(m, offset, keys, ghostFor[g], now)
    else now == was
  }

  /** The inner loop of `replay` for one recording: every ghost of its
      player takes its frame `offset`, if the recording is that long. */
  method ReplayKey(m: map<Key, seq<Transform>>, offset: nat, key: Key, ghostFor: Components<Entity>, transforms: Components<Transform>)
    requires key in m
    modifies transforms
    ensures transforms.of.Keys == old(transforms.of.Keys)
    ensures forall g :: g in transforms.of ==>
      transforms.of[g]
        == if g in ghostFor.of && Feeds(m, offset, key, ghostFor.of[g]) then m[key][offset] else old(transforms.of[g])
  {
    var todo := set g | g in transforms.of && g in ghostFor.of;
    while todo != {}
      invariant todo <= transforms.of.Keys == old(transforms.of.Keys)
      invariant forall g :: g in transforms.of && g !in todo ==>
        transforms.of[g]
          == if g in ghostFor.of && Feeds(m, offset, key, ghostFor.of[g]) then m[key][offset] else old(transforms.of[g])
      invariant forall g :: g in todo ==> g in ghostFor.of && transforms.of[g] == old(transforms.of[g])
      decreases todo
    {
      var g :| g in todo;
      if key.entity == ghostFor.of[g] && offset < |m[key]| {
        transforms.Insert(g, m[key][offset]);
      }
      todo := todo - {g};
    }
  }

  /** `replay`: every ghost whose player has a recording reaching frame
      `offset` takes that frame's transform; every other transform is
      left alone; the recordings are not touched; `offset` advances by one. */
  method Replay(storage: ReplayStorage, ghostFor: Components<Entity>, transforms: Components<Transform>)
    modifies storage, transforms
    ensures storage.transform == old(storage.transform) && storage.offset == old(storage.offset) + 1
    ensures transforms.of.Keys == old(transforms.of.Keys)
    ensures forall g :: g in transforms.of ==>
      Explained(storage.transform, old(storage.offset), storage.transform.Keys, ghostFor.of, g, old(transforms.of[g]), transforms.of[g])
  {
    var m := storage.transform;
    var offset := storage.offset;
    ghost var t0 := transforms.of;
    var todo := m.Keys;
    while todo != {}
      invariant todo <= m.Keys
      invariant storage.transform == m && storage.offset == offset
      invariant transforms.of.Keys == t0.Keys
      invariant forall g :: g in transforms.of ==>
        Explained(m, offset, m.Keys - todo, ghostFor.of, g, t0[g], transforms.of[g])
      decreases todo
    {
      var key :| key in todo;
      ghost var t1 := transforms.of;
      ghost var done := m.Keys - todo;
      ReplayKey(m, offset, key, ghostFor, transforms);
      forall g | g in transforms.of
        ensures Explained(m, offset, done + {key}, ghostFor.of, g, t0[g], transforms.of[g])
      {
        assert Explained(m, offset, done, ghostFor.of, g, t0[g], t1[g]);
        if g in ghostFor.of && Feeds(m, offset, key, ghostFor.of[g]) {
          assert FedFrom(m, offset, done + {key}, ghostFor.of[g], transforms.of[g]);
        } else if g in ghostFor.of && AnyFeeds(m, offset, done, ghostFor.of[g]) {
          var k :| k in done && Feeds(m, offset, k, ghostFor.of[g]) && t1[g] == m[k][offset];
          assert FedFrom(m, offset, done + {key}, ghostFor.of[g], transforms.of[g]);
        }
      }
      todo := todo - {key};
    }
    storage.offset := storage.offset + 1;
  }

  /** A player has at most one recording when its class never changes; then
      a ghost's new transform is exactly its recording's frame. */
  predicate OneRecordingPerPlayer(m: map<Key, seq<Transform>>)
  {
    forall k1, k2 :: k1 in m && k2 in m && k1.entity == k2.entity ==> k1 == k2
  }

  lemma ExplainedUniquely(m: map<Key, seq<Transform>>, offset: nat, ghostFor: map<Entity, Entity>, g: Entity, key: Key, was: Transform, now: Transform)
    requires OneRecordingPerPlayer(m)
    requires g in ghostFor && Feeds(m, offset, key, ghostFor[g])
    requires Explained(m, offset, m.Keys, ghostFor, g, was, now)
    ensures now == m[key][offset]
  {
  }

  lemma NothingFedKeepsTransform(m: map<Key, seq<Transform>>, offset: nat, ghostFor: map<Entity, Entity>, g: Entity, was: Transform, now: Transform)
    requires g !in ghostFor || forall key :: key in m ==> !Feeds(m, offset, key, ghostFor[g])
    requires Explained(m, offset, m.Keys, ghostFor, g, was, now)
    ensures now == was
  {
  }
}
