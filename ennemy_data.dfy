/** Enemy kinds and their constant statistics (src/ennemy/data.rs). */
module EnnemyData {
  import opened Engine

  datatype EnnemyType = Dummy | Turret

  datatype EnnemyStats = EnnemyStats(
    health: real,
    damage: real,
    projectileSize: Vec2,
    projectileSpeed: real,
    attackRange: real,
    attackSpeed: real)

  /** `EnnemyStats::new`: the constant table of enemy statistics. Both kinds
      fire the same 10 x 10 projectile. */
  function NewEnnemyStats(kind: EnnemyType): (s: EnnemyStats)
    ensures s.projectileSize == Vec2(10.0, 10.0)
    ensures s.health >= 100.0 && s.projectileSpeed > 0.0 && s.attackRange > 0.0
    ensures s.damage == 0.0 <==> kind == Dummy
  {
    match kind
    case Dummy => EnnemyStats(100.0, 0.0, Vec2(10.0, 10.0), 1.0, 1.0, 0.5)
    case Turret => EnnemyStats(200.0, 10.0, Vec2(10.0, 10.0), 15.0, 50.0, 30.0)
  }

  /** A dummy is harmless; a turret is tougher, hurts, and outshoots and
      outranges a dummy. */
  lemma TurretDominatesDummy()
    ensures NewEnnemyStats(Dummy).health == 100.0 && NewEnnemyStats(Dummy).damage == 0.0
    ensures NewEnnemyStats(Turret).health == 200.0 && NewEnnemyStats(Turret).damage == 10.0
    ensures NewEnnemyStats(Turret).projectileSpeed > NewEnnemyStats(Dummy).projectileSpeed
    ensures NewEnnemyStats(Turret).attackRange > NewEnnemyStats(Dummy).attackRange
  {
  }
}
