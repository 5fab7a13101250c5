/** Missile: a projectile fired by a tower. On hitting an Enemy it loads the
    creep's CreepEffect (added if the creep has none) with the missile's
    damage and merges in its burn and slow; it is destroyed by any trigger
    entry. Flight (homing and translation) is not modelled: whether the
    missile has reached its target is the parameter `arrived`. */
module Missiles {
  import opened Common
  import opened Attributes
  import Creeps
  import Towers

  /** The CreepEffect fields a hit writes. */
  datatype Load = Load(damage: int, burnCount: int, burnDamage: int, burnTime: real, slowFactor: real, slowTime: real)

  /** A freshly added CreepEffect. */
  const Unloaded := Load(0, 0, 0, 0.0, 0.0, 0.0)

  function LoadOf(e: Creeps.CreepEffect): Load
    reads e`damage, e`burnCount, e`burnDamage, e`burnTime, e`slowFactor, e`slowTime
  {
    Load(e.damage, e.burnCount, e.burnDamage, e.burnTime, e.slowFactor, e.slowTime)
  }

  /** A duration or factor merge: the incoming value if none is set yet, else the smaller one. */
  function MergeShorter(current: real, incoming: real): (r: real)
    ensures current > 0.0 ==> r <= current && r <= incoming && (r == current || r == incoming)
    ensures current <= 0.0 ==> r == incoming
  {
    if current > 0.0 then MinReal(current, incoming) else incoming
  }

  /** The effect of one hit: damage adds up; burn and slow merge when the missile carries them. */
  function Hit(e: Load, a: TowerAttributes): Load
  {
    var burned :=
      if a.applyBurn then
        e.(burnCount := MaxInt(e.burnCount, a.burnCount),
           burnDamage := MaxInt(e.burnDamage, a.burnDamage),
           burnTime := MergeShorter(e.burnTime, a.burnTime))
      else e;
    var slowed :=
      if a.applySlow then
        burned.(slowFactor := MergeShorter(burned.slowFactor, a.slowFactor),
                slowTime := MaxReal(burned.slowTime, a.slowTime))
      else burned;
    slowed.(damage := e.damage + a.damage)
  }

  /** A hit adds exactly the missile's damage, leaves burn or slow alone when
      the missile does not carry it, and never shortens the burn count, the
      burn damage or the slow time. */
  lemma HitEffects(e: Load, a: TowerAttributes)
    ensures Hit(e, a).damage == e.damage + a.damage
    ensures !a.applyBurn ==> Hit(e, a).burnCount == e.burnCount && Hit(e, a).burnDamage == e.burnDamage
                             && Hit(e, a).burnTime == e.burnTime
    ensures !a.applySlow ==> Hit(e, a).slowFactor == e.slowFactor && Hit(e, a).slowTime == e.slowTime
    ensures Hit(e, a).burnCount >= e.burnCount && Hit(e, a).burnDamage >= e.burnDamage
    ensures Hit(e, a).slowTime >= e.slowTime
    ensures a.applyBurn ==> Hit(e, a).burnCount >= a.burnCount && Hit(e, a).burnDamage >= a.burnDamage
    ensures a.applySlow ==> Hit(e, a).slowTime >= a.slowTime
  {
  }

  /** A second hit by the same attributes changes only the damage. */
  lemma HitTwiceOnlyAddsDamage(e: Load, a: TowerAttributes)
    ensures Hit(Hit(e, a), a) == Hit(e, a).(damage := e.damage + 2 * a.damage)
  {
    var once := Hit(e, a);
    if a.applyBurn && once.burnTime > 0.0 {
      assert MergeShorter(once.burnTime, a.burnTime) == once.burnTime;
    }
    if a.applySlow && once.slowFactor > 0.0 {
      assert MergeShorter(once.slowFactor, a.slowFactor) == once.slowFactor;
    }
  }

  /** The burn-time merge is not commutative: a 0 after a positive time
      sets 0, a positive time after 0 sets the positive one. */
  lemma BurnTimeMergeDependsOnOrder(a: TowerAttributes, b: TowerAttributes)
    requires a.applyBurn && b.applyBurn && a.burnTime > 0.0 && b.burnTime == 0.0
    ensures Hit(Hit(Unloaded, a), b).burnTime == 0.0
    ensures Hit(Hit(Unloaded, b), a).burnTime == a.burnTime
  {
  }

  /** The slow-factor merge is not commutative in the same way. */
  lemma SlowFactorMergeDependsOnOrder(a: TowerAttributes, b: TowerAttributes)
    requires a.applySlow && b.applySlow && a.slowFactor > 0.0 && b.slowFactor == 0.0
    ensures Hit(Hit(Unloaded, a), b).slowFactor == 0.0
    ensures Hit(Hit(Unloaded, b), a).slowFactor == a.slowFactor
  {
  }

  class Missile {
    var tower: Towers.TowerBehaviour?
    var attributes: Option<TowerAttributes>
    var target: Creeps.Creep?
    var destroyed: bool

    /** Instantiated by a tower, which then sets its tower, target and attributes. */
    constructor (tower: Towers.TowerBehaviour?, target: Creeps.Creep?, attributes: Option<TowerAttributes>)
      ensures this.tower == tower && this.target == target && this.attributes == attributes && !destroyed
    {
      this.tower, this.target, this.attributes := tower, target, attributes;
      destroyed := false;
    }

    /** Without a live tower, attributes or a live target the missile
        destroys itself; otherwise it flies, dropping the target once it
        arrives. A sold tower is destroyed and so tests equal to null. */
    method Update(arrived: bool)
      requires !destroyed
      modifies this`destroyed, this`target
      ensures destroyed == (tower == null || tower.destroyed || attributes.None? || Towers.Gone(old(target)))
      ensures target == (if !destroyed && arrived then null else old(target))
    {
      if tower == null || tower.destroyed || attributes.None? || target == null || target.destroyed {
        destroyed := true;
      } else if arrived {
        target := null;
      }
    }

    /** A hit on an Enemy loads its CreepEffect, adding one first when the
        creep has none; the missile is destroyed whatever it hit. */
    method OnTriggerEnter(other: Creeps.Collider)
      requires other.tag == Creeps.Enemy ==> other.creep != null && attributes.Some?
      requires other.tag == Creeps.Enemy && other.creep.effect != null ==> other.creep.effect.creep == other.creep
      modifies this`destroyed
      modifies if other.tag == Creeps.Enemy then {other.creep} else {}
      modifies if other.tag == Creeps.Enemy && other.creep.effect != null then {other.creep.effect} else {}
      ensures destroyed
      ensures other.tag == Creeps.Enemy ==>
        var effect := other.creep.effect;
        effect != null && effect.creep == other.creep
        && (old(other.creep.effect) == null ==> fresh(effect) && LoadOf(effect) == Hit(Unloaded, attributes.value))
        && (old(other.creep.effect) != null ==>
              effect == old(other.creep.effect) && LoadOf(effect) == Hit(old(LoadOf(effect)), attributes.value))
    {
      if other.tag == Creeps.Enemy {
        var creep := other.creep;
        var effect := creep.effect;
        if effect == null {
          effect := new Creeps.CreepEffect(creep);
        }
        var a := attributes.value;
        effect.damage := effect.damage + a.damage;
        if a.applyBurn {
          effect.burnCount := MaxInt(effect.burnCount, a.burnCount);
          effect.burnDamage := MaxInt(effect.burnDamage, a.burnDamage);
          effect.burnTime := MergeShorter(effect.burnTime, a.burnTime);
        }
        if a.applySlow {
          effect.slowFactor := MergeShorter(effect.slowFactor, a.slowFactor);
          effect.slowTime := MaxReal(effect.slowTime, a.slowTime);
        }
      }
      destroyed := true;
    }
  }
}
