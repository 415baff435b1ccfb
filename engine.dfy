/** The few things the game takes from its engine: entity handles, an entity
    allocator, per-entity component storage and the geometry values that
    events and transforms carry. Rendering, physics and scheduling are not
    modelled. */
module Engine {

  datatype Option<T> = None | Some(value: T)

  /** An entity handle. The engine hands out a new handle on every spawn. */
  datatype Entity = Entity(index: nat)

  datatype Vec2 = Vec2(x: real, y: real)
  datatype Vec3 = Vec3(x: real, y: real, z: real)
  datatype Quat = Quat(x: real, y: real, z: real, w: real)
  datatype Transform = Transform(translation: Vec3, rotation: Quat, scale: Vec3)

  /** The engine's entity store, reduced to what the game relies on: which
      entities are alive, and that a spawn yields a handle never seen before. */
  class World {
    var live: set<Entity>
    var next: nat

    ghost predicate Valid()
      reads this
    {
      forall e :: e in live ==> e.index < next
    }

    constructor ()
      ensures Valid() && live == {} && next == 0
    {
      live := {};
      next := 0;
    }

    /** `commands.spawn(..).id()`: a fresh handle, alive from now on. */
    method Spawn() returns (e: Entity)
      requires Valid()
      modifies this
      ensures Valid()
      ensures e !in old(live) && live == old(live) + {e}
      ensures old(next) <= e.index < next
    {
      e := Entity(next);
      live := live + {e};
      next := next + 1;
    }

    /** `commands.entity(e).despawn_recursive()`: the entity is gone. */
    method Despawn(e: Entity)
      requires Valid()
      modifies this
      ensures Valid()
      ensures live == old(live) - {e} && next == old(next)
    {
      live := live - {e};
    }
  }

  /** The storage of one component type: which entities carry it, with what value. */
  class Components<C> {
    var of: map<Entity, C>

    constructor ()
      ensures of == map[]
    {
      of := map[];
    }

    method Insert(e: Entity, c: C)
      modifies this
      ensures of == old(of)[e := c]
    {
      of := of[e := c];
    }

    /** The components of despawned entities go with them. */
    method RemoveAll(es: set<Entity>)
      modifies this
      ensures of == old(of) - es
    {
      of := of - es;
    }
  }

  /** Component storage `m` agrees with `m0` on every entity outside `changed`:
      the same entities carry the component, with the same values. */
  ghost predicate SameOutside<C>(m: map<Entity, C>, m0: map<Entity, C>, changed: set<Entity>)
  {
    forall x :: x !in changed ==> (x in m <==> x in m0) && (x in m0 ==> m[x] == m0[x])
  }

  lemma SameOutsideInsert<C>(m: map<Entity, C>, m0: map<Entity, C>, changed: set<Entity>, e: Entity, c: C)
    requires SameOutside(m, m0, changed)
    ensures SameOutside(m[e := c], m0, changed + {e})
  {
  }
}
