/** Player classes, weapons and the constant statistics attached to them
    (src/player/data.rs). Engine `f32` values are modelled as reals. */
module PlayerData {
  import opened Engine

  datatype Class = Knight | Ranger | Wizard

  datatype Weapon = Sword | Bow | Staff

  /** The statistics of an attack. `attackSpeed` is the delay between two attacks. */
  datatype Attack = Attack(ranged: bool, size: Vec2, speed: real, range: real, attackSpeed: real)

  /** The statistics of a player, the live one or a ghost. */
  datatype PlayerStats = PlayerStats(health: real, damage: real, attack: Attack)

  datatype AttackProjectile = AttackProjectile(initialPosition: Vec2, range: real)

  /** `Attack::new`: the constant table of weapon statistics. */
  function NewAttack(weapon: Weapon): (a: Attack)
    ensures a.ranged <==> weapon != Sword
    ensures !a.ranged ==> a.speed == 0.0
    ensures a.ranged ==> a.speed > 0.0
    ensures a.range > 0.0 && a.attackSpeed > 0.0
  {
    match weapon
    case Sword => Attack(false, Vec2(12.0, 12.0), 0.0, 10.0, 0.3)
    case Bow => Attack(true, Vec2(3.0, 8.0), 30.0, 600.0, 0.1)
    case Staff => Attack(true, Vec2(8.0, 8.0), 15.0, 400.0, 0.3)
  }

  /** `PlayerStats::new`: every class has the same health and damage and
      differs only in its weapon. */
  function NewPlayerStats(playerClass: Class): (s: PlayerStats)
    ensures s.health == 100.0 && s.damage == 10.0
  {
    match playerClass
    case Knight => PlayerStats(100.0, 10.0, NewAttack(Sword))
    case Ranger => PlayerStats(100.0, 10.0, NewAttack(Bow))
    case Wizard => PlayerStats(100.0, 10.0, NewAttack(Staff))
  }

  /** `AttackProjectile::new` keeps both arguments. */
  function NewAttackProjectile(initialPosition: Vec2, range: real): (p: AttackProjectile)
    ensures p.initialPosition == initialPosition && p.range == range
  {
    AttackProjectile(initialPosition, range)
  }

  /** The weapon each class fights with: Knight a sword, Ranger a bow, Wizard a staff. */
  lemma ClassWeapons()
    ensures NewPlayerStats(Knight).attack == NewAttack(Sword)
    ensures NewPlayerStats(Ranger).attack == NewAttack(Bow)
    ensures NewPlayerStats(Wizard).attack == NewAttack(Staff)
  {
  }

  /** Only the knight fights in melee, and no two classes share an attack. */
  lemma ClassesDiffer(c: Class, d: Class)
    ensures !NewPlayerStats(c).attack.ranged <==> c == Knight
    ensures c != d ==> NewPlayerStats(c).attack != NewPlayerStats(d).attack
  {
  }

  /** The bow reaches farthest and attacks most often of the three weapons. */
  lemma BowOutranges(w: Weapon)
    ensures NewAttack(w).range <= NewAttack(Bow).range == 600.0
    ensures NewAttack(Bow).attackSpeed == 0.1 <= NewAttack(w).attackSpeed
  {
  }
}
