/** AOEDamage: an area-of-effect volume that adds its attributes' area
    damage to the pending damage of every Enemy entering it. It adds no
    effect of its own: the creep must already carry a CreepEffect. */
module AreaOfEffect {
  import opened Common
  import opened Attributes
  import Creeps

  /** The pending damage after a sequence of entries, each adding the area
      damage: entries are not de-duplicated, so n entries add n times the
      area damage. */
  function AfterEntries(damage: int, aoeDamage: int, entries: nat): (r: int)
    ensures r == damage + entries * aoeDamage
    ensures entries > 0 && aoeDamage > 0 ==> r > damage
  {
    if entries == 0 then damage
    else
      var before := AfterEntries(damage, aoeDamage, entries - 1);
      assert (entries - 1) * aoeDamage + aoeDamage == entries * aoeDamage;
      before + aoeDamage
  }

  class AreaDamage {
    var attributes: Option<TowerAttributes>

    constructor (attributes: Option<TowerAttributes>)
      ensures this.attributes == attributes
    {
      this.attributes := attributes;
    }

    /** An Enemy entering gets the area damage added to its pending damage;
        nothing else changes. */
    method OnTriggerEnter(other: Creeps.Collider)
      requires other.tag == Creeps.Enemy ==> other.creep != null && other.creep.effect != null && attributes.Some?
      modifies (if other.tag == Creeps.Enemy then {other.creep.effect} else {})`damage
      ensures other.tag == Creeps.Enemy ==>
        other.creep.effect.damage == AfterEntries(old(other.creep.effect.damage), attributes.value.aoeDamage, 1)
      ensures other.tag == Creeps.Enemy ==>
        var e := other.creep.effect;
        e.burnCount == old(e.burnCount) && e.burnDamage == old(e.burnDamage) && e.burnTime == old(e.burnTime)
        && e.slowFactor == old(e.slowFactor) && e.slowTime == old(e.slowTime) && e.applyHeal == old(e.applyHeal)
    {
      if other.tag == Creeps.Enemy {
        var effect := other.creep.effect;
        effect.damage := effect.damage + attributes.value.aoeDamage;
      }
    }
  }
}
