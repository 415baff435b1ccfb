/** Collision layers (src/collision.rs): which layers a body of each layer
    collides with, as 32-bit masks. */
module Collision {

  const PLAYER_CHARACTER_COLLISION_LAYER: bv32 := 1 << 0
  const ENEMY_CHARACTER_COLLISION_LAYER: bv32 := 1 << 1
  const PLAYER_PROJECTILE_COLLISION_LAYER: bv32 := 1 << 2
  const ENEMY_PROJECTILE_COLLISION_LAYER: bv32 := 1 << 3
  const WALL_COLLISION_LAYER: bv32 := 1 << 4

  /** The physics engine's mask with every layer set (`LayerMask::ALL`). */
  const ALL_LAYERS: bv32 := 0xFFFF_FFFF

  /** What a body is (`memberships`) and what it collides with (`filters`). */
  datatype CollisionLayers = CollisionLayers(memberships: bv32, filters: bv32)

  predicate IsNamedLayer(layer: bv32) {
    layer == PLAYER_CHARACTER_COLLISION_LAYER || layer == ENEMY_CHARACTER_COLLISION_LAYER
    || layer == PLAYER_PROJECTILE_COLLISION_LAYER || layer == ENEMY_PROJECTILE_COLLISION_LAYER
    || layer == WALL_COLLISION_LAYER
  }

  /** `get_collision_layers`. A body never collides with its own layer; an
      unknown layer collides with everything. */
  function GetCollisionLayers(layer: bv32): (r: CollisionLayers)
    ensures r.memberships == layer
    ensures IsNamedLayer(layer) ==> r.filters & layer == 0
    ensures IsNamedLayer(layer) ==> r.filters & !0x1F == 0
    ensures !IsNamedLayer(layer) ==> r.filters == ALL_LAYERS
  {
    CollisionLayers(
      layer,
      if layer == PLAYER_CHARACTER_COLLISION_LAYER then
        ENEMY_PROJECTILE_COLLISION_LAYER | ENEMY_CHARACTER_COLLISION_LAYER | WALL_COLLISION_LAYER
      else if layer == ENEMY_CHARACTER_COLLISION_LAYER then
        PLAYER_PROJECTILE_COLLISION_LAYER | PLAYER_CHARACTER_COLLISION_LAYER | WALL_COLLISION_LAYER
      else if layer == PLAYER_PROJECTILE_COLLISION_LAYER then
        ENEMY_CHARACTER_COLLISION_LAYER | ENEMY_PROJECTILE_COLLISION_LAYER | WALL_COLLISION_LAYER
      else if layer == ENEMY_PROJECTILE_COLLISION_LAYER then
        PLAYER_CHARACTER_COLLISION_LAYER | PLAYER_PROJECTILE_COLLISION_LAYER | WALL_COLLISION_LAYER
      else if layer == WALL_COLLISION_LAYER then
        PLAYER_CHARACTER_COLLISION_LAYER | ENEMY_CHARACTER_COLLISION_LAYER
          | PLAYER_PROJECTILE_COLLISION_LAYER | ENEMY_PROJECTILE_COLLISION_LAYER
      else
        ALL_LAYERS)
  }

  /** The five named layers are five different single bits. */
  lemma NamedLayersAreDistinctBits(a: bv32, b: bv32)
    requires IsNamedLayer(a) && IsNamedLayer(b)
    ensures a != 0 && a & (a - 1) == 0
    ensures a != b ==> a & b == 0
  {
  }

  /** The side a named layer belongs to; walls belong to neither team. */
  datatype Side = PlayerSide | EnemySide | Scenery

  function SideOf(layer: bv32): Side
    requires IsNamedLayer(layer)
  {
    if layer == PLAYER_CHARACTER_COLLISION_LAYER || layer == PLAYER_PROJECTILE_COLLISION_LAYER then PlayerSide
    else if layer == ENEMY_CHARACTER_COLLISION_LAYER || layer == ENEMY_PROJECTILE_COLLISION_LAYER then EnemySide
    else Scenery
  }

  /** The whole table in one rule: among the named layers, two layers collide
      exactly when they are on different sides. */
  lemma FiltersAreCrossSide(a: bv32, b: bv32)
    requires IsNamedLayer(a) && IsNamedLayer(b)
    ensures (GetCollisionLayers(a).filters & b != 0) <==> SideOf(a) != SideOf(b)
  {
  }

  /** Collision between named layers is symmetric. */
  lemma {:induction false} FiltersSymmetric(a: bv32, b: bv32)
    requires IsNamedLayer(a) && IsNamedLayer(b)
    ensures (GetCollisionLayers(a).filters & b != 0) <==> (GetCollisionLayers(b).filters & a != 0)
  {
    FiltersAreCrossSide(a, b);
    FiltersAreCrossSide(b, a);
  }

  /** The wall collides with exactly the four other named layers. */
  lemma WallFilterIsUnionOfOthers()
    ensures GetCollisionLayers(WALL_COLLISION_LAYER).filters
      == PLAYER_CHARACTER_COLLISION_LAYER | ENEMY_CHARACTER_COLLISION_LAYER
         | PLAYER_PROJECTILE_COLLISION_LAYER | ENEMY_PROJECTILE_COLLISION_LAYER
    ensures GetCollisionLayers(WALL_COLLISION_LAYER).filters == 0x0F
  {
  }

  /** The table as masks: each character collides with the other team's
      character and projectile and with walls (0x1A for the player's side,
      0x15 for the enemy's), and so does each projectile. */
  lemma FilterMasks()
    ensures GetCollisionLayers(PLAYER_CHARACTER_COLLISION_LAYER).filters == 0x1A
    ensures GetCollisionLayers(PLAYER_PROJECTILE_COLLISION_LAYER).filters == 0x1A
    ensures GetCollisionLayers(ENEMY_CHARACTER_COLLISION_LAYER).filters == 0x15
    ensures GetCollisionLayers(ENEMY_PROJECTILE_COLLISION_LAYER).filters == 0x15
    ensures GetCollisionLayers(WALL_COLLISION_LAYER).filters == 0x0F
  {
  }
}
