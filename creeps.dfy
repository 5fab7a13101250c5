/** Creeps: the Creep itself (health, heal timer, death and despawn events),
    the CreepEffect component that missiles and area damage load with pending
    damage, burn and slow, and the CreepTarget path nodes that route creeps.
    The three classes refer to one another, so they share one module.

    A creep's SendMessage calls to the Player and to its spawner are recorded,
    in order, in the creep's outbox `sent`; a separate dispatcher delivers them.
    Unity's deferred Destroy and "fake null" are the flag `destroyed`. */
module Creeps {
  import opened Common
  import Sorting

  /** The tag of a collider that entered a trigger. */
  datatype Tag = Enemy | Tower | Untagged

  /** A collider entering or leaving a trigger: its tag and its Creep component, if any. */
  datatype Collider = Collider(tag: Tag, creep: Creep?)

  /** The GameObject that spawned a creep; only CreepSpawners receive its notifications. */
  datatype SpawnerRef = SpawnerRef(id: nat, isCreepSpawner: bool)

  /** What a creep sends, in order, to the Player and to its spawner. */
  datatype Message =
    | AddGold(amount: int)
    | KillCreep
    | CreepDeath(spawner: SpawnerRef)
    | CreepDespawn(spawner: SpawnerRef)
    | RemoveHealth(amount: int)
    | MissCreep

  /** The inspector values of a creep prefab. */
  datatype CreepPrefab = CreepPrefab(
    health: int, leakDamage: int, goldValue: int, speed: real,
    applyHeal: bool, healTime: real, heal: int)

  /** Creep.OnDeath: gold to the player, then a kill to the player, then a
      death to the spawner. With no spawner the spawner notification throws a
      NullReferenceException, so only the first two are sent. */
  function DeathMessages(goldValue: int, spawner: Option<SpawnerRef>): (r: seq<Message>)
    ensures |r| == if spawner.Some? then 3 else 2
    ensures r[0] == AddGold(goldValue) && r[1] == KillCreep
    ensures spawner.Some? ==> r[2] == CreepDeath(spawner.value)
  {
    [AddGold(goldValue), KillCreep] + (if spawner.Some? then [CreepDeath(spawner.value)] else [])
  }

  /** Creep.OnDespawn: a despawn to the spawner, then a health loss and a
      miss to the player. With no spawner the first statement throws, so
      nothing is sent. */
  function DespawnMessages(leakDamage: int, spawner: Option<SpawnerRef>): (r: seq<Message>)
    ensures spawner.None? <==> r == []
    ensures spawner.Some? ==> |r| == 3 && r[0] == CreepDespawn(spawner.value) && r[1] == RemoveHealth(leakDamage) && r[2] == MissCreep
  {
    if spawner.Some? then [CreepDespawn(spawner.value), RemoveHealth(leakDamage), MissCreep] else []
  }

  /** n copies of m, one after the other. */
  function Repeat(m: seq<Message>, n: nat): (r: seq<Message>)
  {
    if n == 0 then [] else Repeat(m, n - 1) + m
  }

  lemma {:induction false} RepeatLength(m: seq<Message>, n: nat)
    ensures |Repeat(m, n)| == n * |m|
  {
    if n > 0 {
      RepeatLength(m, n - 1);
    }
  }

  /** The total of the amounts delivered to OnApplyDamage. */
  function Sum(ds: seq<int>): int
  {
    if ds == [] then 0 else Sum(ds[..|ds| - 1]) + ds[|ds| - 1]
  }

  /** How many of the deliveries ds, applied in order to health h, leave the
      creep at 0 health or below, and so run OnDeath. */
  function Deaths(h: int, ds: seq<int>): nat
  {
    if ds == [] then 0
    else Deaths(h, ds[..|ds| - 1]) + (if h - Sum(ds) <= 0 then 1 else 0)
  }

  /** OnDeath runs at most once per delivery. */
  lemma {:induction false} DeathsAtMostDeliveries(h: int, ds: seq<int>)
    ensures Deaths(h, ds) <= |ds|
  {
    if ds != [] {
      DeathsAtMostDeliveries(h, ds[..|ds| - 1]);
    }
  }

  /** No death happens exactly when health stays positive after every delivery. */
  lemma {:induction false} NoDeathsIffAlwaysPositive(h: int, ds: seq<int>)
    ensures Deaths(h, ds) == 0 <==> forall k :: 1 <= k <= |ds| ==> h - Sum(ds[..k]) > 0
  {
    if ds != [] {
      var init := ds[..|ds| - 1];
      NoDeathsIffAlwaysPositive(h, init);
      assert ds[..|ds|] == ds;
      assert forall k :: 1 <= k <= |init| ==> init[..k] == ds[..k];
    }
  }

  lemma SumDeathsSnoc(h: int, ds: seq<int>, x: int)
    ensures Sum(ds + [x]) == Sum(ds) + x
    ensures Deaths(h, ds + [x]) == Deaths(h, ds) + (if h - Sum(ds) - x <= 0 then 1 else 0)
  {
    assert (ds + [x])[..|ds|] == ds;
  }

  lemma {:induction false} SumDeathsAppend(h: int, a: seq<int>, b: seq<int>)
    ensures Sum(a + b) == Sum(a) + Sum(b)
    ensures Deaths(h, a + b) == Deaths(h, a) + Deaths(h - Sum(a), b)
  {
    if b == [] {
      assert a + b == a;
    } else {
      var init, x := b[..|b| - 1], b[|b| - 1];
      assert b == init + [x];
      assert a + b == (a + init) + [x];
      SumDeathsAppend(h, a, init);
      SumDeathsSnoc(h, a + init, x);
      SumDeathsSnoc(h - Sum(a), init, x);
    }
  }

  /** Health, outbox and destroyed flag of a creep. */
  datatype Vitals = Vitals(health: int, sent: seq<Message>, destroyed: bool)

  /** What one run of a creep's OnDeath does: the messages it sends, and
      whether it gets as far as Destroy. */
  datatype Death = Death(messages: seq<Message>, destroys: bool)

  /** What the deliveries ds do to a creep whose OnDeath does death: health
      drops by their total, and each delivery that leaves health at 0 or
      below sends the death messages again (and destroys the creep if the
      death gets that far). */
  function AfterDeliveries(v: Vitals, death: Death, ds: seq<int>): Vitals
  {
    var n := Deaths(v.health, ds);
    Vitals(v.health - Sum(ds), v.sent + Repeat(death.messages, n), v.destroyed || (death.destroys && n > 0))
  }

  /** A single delivery: health falls by the amount, and the death is
      delivered once exactly when health ends at or below 0. */
  lemma OneDelivery(v: Vitals, death: Death, amount: int)
    ensures AfterDeliveries(v, death, [amount]) ==
      if v.health - amount <= 0 then Vitals(v.health - amount, v.sent + death.messages, v.destroyed || death.destroys)
      else Vitals(v.health - amount, v.sent, v.destroyed)
  {
    assert [amount][..0] == [];
    assert Sum([amount]) == amount;
    assert Deaths(v.health, [amount]) == if v.health - amount <= 0 then 1 else 0;
    assert Repeat(death.messages, 1) == [] + death.messages == death.messages;
    assert v.sent + Repeat(death.messages, 0) == v.sent;
  }

  /** Delivering a and then b is delivering a + b. */
  lemma AfterDeliveriesAppend(v: Vitals, death: Death, a: seq<int>, b: seq<int>)
    ensures AfterDeliveries(AfterDeliveries(v, death, a), death, b) == AfterDeliveries(v, death, a + b)
  {
    SumDeathsAppend(v.health, a, b);
    var d1, d2 := Deaths(v.health, a), Deaths(v.health - Sum(a), b);
    RepeatAppend(death.messages, d1, d2);
    assert (v.sent + Repeat(death.messages, d1)) + Repeat(death.messages, d2) == v.sent + Repeat(death.messages, d1 + d2);
  }

  /** Deliveries in three groups may each be made in turn: a group kills
      only when the whole would. */
  lemma ThreeDeliveriesSplit(v: Vitals, death: Death, a: seq<int>, b: seq<int>, c: seq<int>)
    ensures Deaths(v.health, a + b + c) == 0 ==>
      Deaths(v.health, a) == 0
      && Deaths(AfterDeliveries(v, death, a).health, b) == 0
      && Deaths(AfterDeliveries(AfterDeliveries(v, death, a), death, b).health, c) == 0
  {
    SumDeathsAppend(v.health, a, b);
    SumDeathsAppend(v.health, a + b, c);
  }

  /** Three groups of deliveries made in turn are their concatenation. */
  lemma ThreeDeliveriesChain(v0: Vitals, death: Death, a: seq<int>, b: seq<int>, c: seq<int>,
                             v1: Vitals, v2: Vitals, v3: Vitals)
    requires v1 == AfterDeliveries(v0, death, a)
    requires v2 == AfterDeliveries(v1, death, b)
    requires v3 == AfterDeliveries(v2, death, c)
    ensures v3 == AfterDeliveries(v0, death, a + b + c)
  {
    AfterDeliveriesAppend(v0, death, a, b);
    AfterDeliveriesAppend(v0, death, a + b, c);
  }

  lemma {:induction false} RepeatAppend(m: seq<Message>, x: nat, y: nat)
    ensures Repeat(m, x + y) == Repeat(m, x) + Repeat(m, y)
  {
    if y > 0 {
      RepeatAppend(m, x, y - 1);
    }
  }

  /** Deaths only grow as deliveries are added. */
  lemma {:induction false} DeathsPrefix(h: int, ds: seq<int>, k: nat)
    requires k <= |ds|
    ensures Deaths(h, ds[..k]) <= Deaths(h, ds)
  {
    if k < |ds| {
      DeathsPrefix(h, ds[..|ds| - 1], k);
      assert ds[..|ds| - 1][..k] == ds[..k];
    } else {
      assert ds[..k] == ds;
    }
  }

  /** There is no once-only guard on OnDeath: a creep that a hit kills dies
      again at every further non-healing delivery of the same update. */
  lemma DeathRepeatsWithoutGuard(h: int, hit: int, burn: int)
    requires hit >= h && burn >= 0
    ensures Deaths(h, [hit, burn]) == 2
  {
    SumDeathsSnoc(h, [], hit);
    assert [] + [hit] == [hit];
    SumDeathsSnoc(h, [hit], burn);
    assert [hit] + [burn] == [hit, burn];
  }

  class Creep {
    var spawner: Option<SpawnerRef>
    var goldValue: int
    var target: CreepTarget?
    var health: int
    var startingHealth: int
    var leakDamage: int
    var applyHeal: bool
    var healTime: real
    var elapsedHealTime: real
    var heal: int
    /** NavMeshAgent.speed, which Creep.speed forwards to. */
    var speed: real
    /** The CreepEffect component on the same GameObject, if one was added. */
    var effect: CreepEffect?
    var destroyed: bool
    var sent: seq<Message>

    /** Instantiate(prefab) followed by Start, which records the starting health. */
    constructor (prefab: CreepPrefab)
      ensures health == prefab.health && startingHealth == prefab.health
      ensures leakDamage == prefab.leakDamage && goldValue == prefab.goldValue
      ensures speed == prefab.speed && applyHeal == prefab.applyHeal
      ensures healTime == prefab.healTime && heal == prefab.heal && elapsedHealTime == 0.0
      ensures spawner.None? && target == null && effect == null
      ensures !destroyed && sent == []
    {
      health, startingHealth := prefab.health, prefab.health;
      leakDamage, goldValue := prefab.leakDamage, prefab.goldValue;
      speed, applyHeal := prefab.speed, prefab.applyHeal;
      healTime, heal, elapsedHealTime := prefab.healTime, prefab.heal, 0.0;
      spawner, target, effect := None, null, null;
      destroyed, sent := false, [];
    }

    /** Health falls by amount, without any clamp (a negative amount heals);
        OnDeath runs whenever the result is 0 or below. */
    method OnApplyDamage(amount: int)
      modifies this`health, this`sent, this`destroyed
      ensures health == old(health) - amount
      ensures health <= 0 ==>
        sent == old(sent) + DeathMessages(goldValue, spawner) && destroyed == (old(destroyed) || spawner.Some?)
      ensures health > 0 ==> sent == old(sent) && destroyed == old(destroyed)
    {
      health := health - amount;
      if health <= 0 {
        OnDeath();
      }
    }

    /** Health rises by amount but never above the starting health. */
    method OnApplyHeal(amount: int)
      modifies this`health
      ensures health == MinInt(startingHealth, old(health) + amount)
      ensures health <= startingHealth
    {
      health := health + amount;
      health := MinInt(startingHealth, health);
    }

    /** The heal timer of Creep.Update; the health bar is left out. */
    method Update(dt: real)
      modifies this`health, this`elapsedHealTime
      ensures !applyHeal ==> health == old(health) && elapsedHealTime == old(elapsedHealTime)
      ensures applyHeal && old(elapsedHealTime) + dt > healTime ==>
        health == MinInt(startingHealth, old(health) + heal) && elapsedHealTime == 0.0
      ensures applyHeal && old(elapsedHealTime) + dt <= healTime ==>
        health == old(health) && elapsedHealTime == old(elapsedHealTime) + dt
    {
      if applyHeal {
        elapsedHealTime := elapsedHealTime + dt;
        if elapsedHealTime > healTime {
          OnApplyHeal(heal);
          elapsedHealTime := 0.0;
        }
      }
    }

    /** What one OnDeath does: it sends DeathMessages and reaches Destroy
        only when there is a spawner to notify. */
    function DeathNotice(): Death
      reads this`spawner, this`goldValue
    {
      Death(DeathMessages(goldValue, spawner), spawner.Some?)
    }

    /** The part of the creep that OnApplyDamage changes. */
    function Status(): Vitals
      reads this`health, this`sent, this`destroyed
    {
      Vitals(health, sent, destroyed)
    }

    /** OnApplyDamage, stated as one delivery. */
    method OnApplyDamageOnce(amount: int)
      modifies this`health, this`sent, this`destroyed
      ensures Status() == AfterDeliveries(old(Status()), DeathNotice(), [amount])
    {
      ghost var v, death := Status(), DeathNotice();
      OneDelivery(v, death, amount);
      OnApplyDamage(amount);
      assert DeathNotice() == death;
    }

    /** Gold, kill and spawner notification in that order, then destruction.
        There is no guard against running twice. A null spawner throws at the
        spawner notification, which ends OnDeath before Destroy; the creep
        lives on and the next lethal delivery pays its gold again. */
    method OnDeath()
      modifies this`sent, this`destroyed
      ensures sent == old(sent) + DeathMessages(goldValue, spawner)
      ensures destroyed == (old(destroyed) || spawner.Some?)
    {
      sent := sent + [AddGold(goldValue)];
      sent := sent + [KillCreep];
      if spawner.None? {
        return;
      }
      sent := sent + [CreepDeath(spawner.value)];
      destroyed := true;
    }

    /** Spawner notification, leak damage and miss in that order, then
        destruction. A null spawner throws at the first statement, so
        nothing happens. */
    method OnDespawn()
      modifies this`sent, this`destroyed
      ensures sent == old(sent) + DespawnMessages(leakDamage, spawner)
      ensures destroyed == (old(destroyed) || spawner.Some?)
    {
      if spawner.None? {
        return;
      }
      sent := sent + [CreepDespawn(spawner.value)];
      sent := sent + [RemoveHealth(leakDamage)];
      sent := sent + [MissCreep];
      destroyed := true;
    }
  }

  class CreepEffect {
    var damage: int
    /** Never read: the slow is driven by slowTime alone. */
    var applySlow: bool
    var slowTime: real
    var slowFactor: real
    var originalSpeed: real
    /** Never read: the burn is driven by burnCount alone. */
    var applyBurn: bool
    var burnTime: real
    var elapsedBurnTime: real
    var burnCount: int
    var burnDamage: int
    var applyHeal: bool
    var healTime: real
    var elapsedHealTime: real
    var healAmount: int
    const creep: Creep
    var destroyed: bool

    /** AddComponent<CreepEffect>() on the creep followed by Start, which
        captures the creep's speed as the speed to restore. */
    constructor (creep: Creep)
      modifies creep`effect
      ensures this.creep == creep && creep.effect == this
      ensures damage == 0 && !applySlow && slowTime == 0.0 && slowFactor == 0.0
      ensures !applyBurn && burnTime == 0.0 && elapsedBurnTime == 0.0 && burnCount == 0 && burnDamage == 0
      ensures applyHeal && healTime == 1.5 && elapsedHealTime == 0.0 && healAmount == -5
      ensures originalSpeed == creep.speed && !destroyed
    {
      this.creep := creep;
      damage := 0;
      applySlow, slowTime, slowFactor := false, 0.0, 0.0;
      applyBurn, burnTime, elapsedBurnTime, burnCount, burnDamage := false, 0.0, 0.0, 0, 0;
      applyHeal, healTime, elapsedHealTime, healAmount := true, 1.5, 0.0, -5;
      originalSpeed := creep.speed;
      destroyed := false;
      new;
      creep.effect := this;
    }

    /** A burn tick is due this update. */
    predicate BurnFires(dt: real)
      reads this`burnCount, this`elapsedBurnTime, this`burnTime
    {
      burnCount > 0 && elapsedBurnTime + dt > burnTime
    }

    /** A heal tick is due this update. */
    predicate HealFires(dt: real)
      reads this`applyHeal, this`elapsedHealTime, this`healTime
    {
      applyHeal && elapsedHealTime + dt > healTime
    }

    /** The pending damage Update delivers: once, if positive. */
    function PendingDelivery(): seq<int>
      reads this`damage
    {
      if damage > 0 then [damage] else []
    }

    /** The burn damage Update delivers when a burn tick is due. */
    function BurnDelivery(dt: real): seq<int>
      reads this`burnCount, this`elapsedBurnTime, this`burnTime, this`burnDamage
    {
      if BurnFires(dt) then [burnDamage] else []
    }

    /** The heal amount Update delivers (as damage) when a heal tick is due. */
    function HealDelivery(dt: real): seq<int>
      reads this`applyHeal, this`elapsedHealTime, this`healTime, this`healAmount
    {
      if HealFires(dt) then [healAmount] else []
    }

    /** The amounts Update sends to OnApplyDamage, in order: pending damage,
        a burn tick, a heal tick (a negative amount). */
    function Deliveries(dt: real): (ds: seq<int>)
      reads this`damage, this`burnCount, this`elapsedBurnTime, this`burnTime, this`burnDamage
      reads this`applyHeal, this`elapsedHealTime, this`healTime, this`healAmount
      ensures |ds| <= 3
    {
      PendingDelivery() + BurnDelivery(dt) + HealDelivery(dt)
    }

    /** Some effect is still running; pending damage does not count. */
    predicate HasRemainingEffects()
      reads this`burnCount, this`applyHeal, this`slowTime
    {
      burnCount > 0 || applyHeal || slowTime > 0.0
    }

    /** One frame: flush damage, tick burn, tick heal, apply or lift the
        slow, then destroy the component if nothing is left to do. */
    method Update(dt: real)
      modifies this`damage, this`burnCount, this`elapsedBurnTime, this`elapsedHealTime, this`slowTime, this`destroyed
      modifies creep`health, creep`sent, creep`destroyed, creep`speed, creep`effect
      ensures creep.health == old(creep.health) - Sum(old(Deliveries(dt)))
      ensures creep.sent == old(creep.sent) + Repeat(DeathMessages(creep.goldValue, creep.spawner), Deaths(old(creep.health), old(Deliveries(dt))))
      ensures creep.destroyed == (old(creep.destroyed) || (creep.spawner.Some? && Deaths(old(creep.health), old(Deliveries(dt))) > 0))
      ensures damage == (if old(damage) > 0 then 0 else old(damage))
      ensures burnCount == (if old(BurnFires(dt)) then old(burnCount) - 1 else old(burnCount))
      ensures old(burnCount) >= 0 ==> burnCount >= 0
      ensures elapsedBurnTime ==
        (if old(burnCount) <= 0 then old(elapsedBurnTime)
         else if old(BurnFires(dt)) then 0.0 else old(elapsedBurnTime) + dt)
      ensures elapsedHealTime ==
        (if !applyHeal then old(elapsedHealTime)
         else if old(HealFires(dt)) then 0.0 else old(elapsedHealTime) + dt)
      ensures slowTime == (if old(slowTime) > 0.0 then old(slowTime) - dt else old(slowTime))
      ensures creep.speed == (if old(slowTime) > 0.0 then originalSpeed * slowFactor else originalSpeed)
      ensures destroyed == (old(destroyed) || !old(HasRemainingEffects()))
      ensures creep.effect ==
        (if !old(HasRemainingEffects()) && old(creep.effect) == this then null else old(creep.effect))
    {
      var remainingEffects := DeliverDamage(dt);

      if slowTime > 0.0 {
        remainingEffects := true;
        creep.speed := originalSpeed * slowFactor;
        slowTime := slowTime - dt;
      } else {
        creep.speed := originalSpeed;
      }

      if !remainingEffects {
        destroyed := true;
        if creep.effect == this {
          creep.effect := null;
        }
      }
    }

    /** The damage, burn and heal blocks of Update, which all go through the
        creep's OnApplyDamage; the result says whether burn or heal is running. */
    method DeliverDamage(dt: real) returns (remaining: bool)
      modifies this`damage, this`burnCount, this`elapsedBurnTime, this`elapsedHealTime
      modifies creep`health, creep`sent, creep`destroyed
      ensures remaining == (old(burnCount) > 0 || applyHeal)
      ensures creep.Status() == AfterDeliveries(old(creep.Status()), creep.DeathNotice(), old(Deliveries(dt)))
      ensures damage == (if old(damage) > 0 then 0 else old(damage))
      ensures burnCount == (if old(BurnFires(dt)) then old(burnCount) - 1 else old(burnCount))
      ensures elapsedBurnTime ==
        (if old(burnCount) <= 0 then old(elapsedBurnTime)
         else if old(BurnFires(dt)) then 0.0 else old(elapsedBurnTime) + dt)
      ensures elapsedHealTime ==
        (if !applyHeal then old(elapsedHealTime)
         else if old(HealFires(dt)) then 0.0 else old(elapsedHealTime) + dt)
    {
      ghost var v0, death := creep.Status(), creep.DeathNotice();
      ghost var dmg, burn, heal := PendingDelivery(), BurnDelivery(dt), HealDelivery(dt);
      assert Deliveries(dt) == dmg + burn + heal;
      ThreeDeliveriesSplit(v0, death, dmg, burn, heal);

      FlushDamage();
      ghost var v1 := creep.Status();
      var burning := TickBurn(dt);
      ghost var v2 := creep.Status();
      var healing := TickHeal(dt);
      ThreeDeliveriesChain(v0, death, dmg, burn, heal, v1, v2, creep.Status());
      remaining := burning || healing;
    }

    /** The damage block of Update: positive pending damage is delivered once and cleared. */
    method FlushDamage()
      modifies this`damage, creep`health, creep`sent, creep`destroyed
      ensures creep.Status() == AfterDeliveries(old(creep.Status()), creep.DeathNotice(), old(PendingDelivery()))
      ensures damage == (if old(damage) > 0 then 0 else old(damage))
    {
      if damage > 0 {
        creep.OnApplyDamageOnce(damage);
        damage := 0;
      } else {
        assert AfterDeliveries(creep.Status(), creep.DeathNotice(), []) == creep.Status();
      }
    }

    /** The burn block of Update: while burns remain the timer runs, and a
        due tick delivers burnDamage, uses up one burn and restarts the timer. */
    method TickBurn(dt: real) returns (remaining: bool)
      modifies this`burnCount, this`elapsedBurnTime, creep`health, creep`sent, creep`destroyed
      ensures remaining == (old(burnCount) > 0)
      ensures creep.Status() == AfterDeliveries(old(creep.Status()), creep.DeathNotice(), old(BurnDelivery(dt)))
      ensures burnCount == (if old(BurnFires(dt)) then old(burnCount) - 1 else old(burnCount))
      ensures elapsedBurnTime ==
        (if old(burnCount) <= 0 then old(elapsedBurnTime)
         else if old(BurnFires(dt)) then 0.0 else old(elapsedBurnTime) + dt)
    {
      remaining := false;
      if burnCount > 0 {
        remaining := true;
        elapsedBurnTime := elapsedBurnTime + dt;
        if elapsedBurnTime > burnTime {
          creep.OnApplyDamageOnce(burnDamage);
          burnCount := burnCount - 1;
          elapsedBurnTime := 0.0;
          return;
        }
      }
      assert AfterDeliveries(creep.Status(), creep.DeathNotice(), []) == creep.Status();
    }

    /** The heal block of Update: with heal on the timer runs, and a due tick
        delivers healAmount through OnApplyDamage and restarts the timer. */
    method TickHeal(dt: real) returns (remaining: bool)
      modifies this`elapsedHealTime, creep`health, creep`sent, creep`destroyed
      ensures remaining == applyHeal
      ensures creep.Status() == AfterDeliveries(old(creep.Status()), creep.DeathNotice(), old(HealDelivery(dt)))
      ensures elapsedHealTime ==
        (if !applyHeal then old(elapsedHealTime)
         else if old(HealFires(dt)) then 0.0 else old(elapsedHealTime) + dt)
    {
      remaining := false;
      if applyHeal {
        remaining := true;
        elapsedHealTime := elapsedHealTime + dt;
        if elapsedHealTime > healTime {
          creep.OnApplyDamageOnce(healAmount);
          elapsedHealTime := 0.0;
          return;
        }
      }
      assert AfterDeliveries(creep.Status(), creep.DeathNotice(), []) == creep.Status();
    }
  }

  /** CreepTarget.dangerTolerance: a static that nothing reassigns. */
  const DangerTolerance := 1

  /** The danger values of the nodes cs, in order. */
  function Dangers(cs: seq<CreepTarget>): (d: seq<int>)
    reads (set c | c in cs)`dangerValue
    decreases |cs|
    ensures |d| == |cs| && forall i :: 0 <= i < |cs| ==> d[i] == cs[i].dangerValue
  {
    if cs == [] then [] else [cs[0].dangerValue] + Dangers(cs[1..])
  }

  /** The nodes cs are in ascending order of danger. */
  predicate AscendingDanger(cs: seq<CreepTarget>)
    reads (set c | c in cs)`dangerValue
  {
    forall i, j :: 0 <= i < j < |cs| ==> cs[i].dangerValue <= cs[j].dangerValue
  }

  predicate Ascending(d: seq<int>)
  {
    forall i, j :: 0 <= i < j < |d| ==> d[i] <= d[j]
  }

  /** The scan of SortChildrenByDanger from position i: the first j + 1 with
      d[j] > d[j + 1] + tolerance, or |d| when no adjacent pair breaks. */
  function FirstOutOfTolerance(d: seq<int>, tolerance: int, i: nat): int
    decreases |d| - i
  {
    if i + 1 >= |d| then |d|
    else if d[i] > d[i + 1] + tolerance then i + 1
    else FirstOutOfTolerance(d, tolerance, i + 1)
  }

  /** The scan returns 0 for no children and a count in [1, |d|] otherwise. */
  lemma {:induction false} FirstOutOfToleranceBounds(d: seq<int>, tolerance: int, i: nat)
    requires i < |d| || d == []
    ensures d == [] ==> FirstOutOfTolerance(d, tolerance, i) == 0
    ensures d != [] ==> i < FirstOutOfTolerance(d, tolerance, i) <= |d|
    decreases |d| - i
  {
    if i + 1 < |d| && d[i] <= d[i + 1] + tolerance {
      FirstOutOfToleranceBounds(d, tolerance, i + 1);
    }
  }

  /** On an ascending list and a non-negative tolerance no pair ever breaks,
      so every child stays a candidate. */
  lemma {:induction false} AscendingNeverOutOfTolerance(d: seq<int>, tolerance: int, i: nat)
    requires Ascending(d) && tolerance >= 0
    ensures FirstOutOfTolerance(d, tolerance, i) == |d|
    decreases |d| - i
  {
    if i + 1 < |d| {
      assert d[i] <= d[i + 1];
      AscendingNeverOutOfTolerance(d, tolerance, i + 1);
    }
  }

  /** The scan stops at the first adjacent pair out of tolerance: every pair
      before the count is within tolerance, and a count short of the end
      marks a pair that is not. */
  lemma {:induction false} FirstOutOfToleranceIsFirstBreak(d: seq<int>, tolerance: int, i: nat)
    requires i < |d|
    ensures forall k :: i <= k && k + 1 < FirstOutOfTolerance(d, tolerance, i) && k + 1 < |d| ==> d[k] <= d[k + 1] + tolerance
    ensures FirstOutOfTolerance(d, tolerance, i) < |d| ==>
      var r := FirstOutOfTolerance(d, tolerance, i);
      r >= 1 && d[r - 1] > d[r] + tolerance
    decreases |d| - i
  {
    if i + 1 < |d| && d[i] <= d[i + 1] + tolerance {
      FirstOutOfToleranceIsFirstBreak(d, tolerance, i + 1);
    }
  }

  /** Any adjacent pair out of tolerance stops the scan at or before it. A
      negative tolerance puts an ascending pair closer than -tolerance, such
      as two equal dangers, out of tolerance, so the break can fire. */
  lemma NegativeToleranceCanBreak(d: seq<int>, tolerance: int, k: nat)
    requires k + 1 < |d| && d[k] > d[k + 1] + tolerance
    ensures FirstOutOfTolerance(d, tolerance, 0) <= k + 1 < |d|
  {
    FirstOutOfToleranceIsFirstBreak(d, tolerance, 0);
  }

  /** A permutation sorted by a snapshot of the danger values is ascending in danger. */
  lemma SortedBySnapshotIsAscending(cs: seq<CreepTarget>, sorted: seq<CreepTarget>, snapshot: map<CreepTarget, real>)
    requires forall c :: c in cs ==> c in snapshot && snapshot[c] == c.dangerValue as real
    requires multiset(sorted) == multiset(cs)
    requires Sorting.SortedBy(sorted, c => if c in snapshot then snapshot[c] else 0.0)
    ensures AscendingDanger(sorted)
  {
    var key := c => if c in snapshot then snapshot[c] else 0.0;
    forall i, j | 0 <= i < j < |sorted| ensures sorted[i].dangerValue <= sorted[j].dangerValue {
      assert sorted[i] in multiset(cs) && sorted[j] in multiset(cs);
      assert key(sorted[i]) <= key(sorted[j]);
    }
  }

  /** A node of a creep path tree. */
  class CreepTarget {
    var dangerValue: int
    var children: seq<CreepTarget>

    /** Awake: the child nodes under this node's transform, no danger yet. */
    constructor (children: seq<CreepTarget>)
      ensures this.children == children && dangerValue == 0
    {
      this.children := children;
      dangerValue := 0;
    }

    /** A creep reaching a leaf despawns; one reaching an inner node is routed
        to a child; a tower entering the node's trigger adds one danger.
        The OnTargetNode message has no receiver and is not modelled. */
    method OnTriggerEnter(other: Collider)
      modifies this`dangerValue, this`children
      modifies (if other.tag == Enemy && other.creep != null then {other.creep} else {})`target
      modifies (if other.tag == Enemy && other.creep != null then {other.creep} else {})`sent
      modifies (if other.tag == Enemy && other.creep != null then {other.creep} else {})`destroyed
      ensures other.tag == Tower ==> dangerValue == old(dangerValue) + 1
      ensures other.tag != Tower ==> dangerValue == old(dangerValue)
      ensures multiset(children) == multiset(old(children))
      ensures other.tag != Enemy || other.creep == null ==> children == old(children)
      ensures other.tag == Enemy && other.creep != null && |old(children)| == 0 ==>
        other.creep.sent == old(other.creep.sent) + DespawnMessages(other.creep.leakDamage, other.creep.spawner)
        && other.creep.destroyed == (old(other.creep.destroyed) || other.creep.spawner.Some?)
        && other.creep.target == old(other.creep.target)
      ensures other.tag == Enemy && other.creep != null && |old(children)| > 0 ==>
        other.creep.target in old(children) && AscendingDanger(children)
        && other.creep.sent == old(other.creep.sent) && other.creep.destroyed == old(other.creep.destroyed)
    {
      if other.tag == Enemy {
        var creep := other.creep;
        if creep != null {
          if |children| == 0 {
            creep.OnDespawn();
          } else {
            DirectToNextNode(creep);
          }
        }
      } else if other.tag == Tower {
        dangerValue := dangerValue + 1;
      }
    }

    /** A tower leaving the node's trigger removes one danger. */
    method OnTriggerExit(other: Collider)
      modifies this`dangerValue
      ensures dangerValue == old(dangerValue) + (if other.tag == Tower then -1 else 0)
    {
      if other.tag == Tower {
        dangerValue := dangerValue - 1;
      }
    }

    /** Sends the creep to a child picked by GetNextNodeIndex. */
    method DirectToNextNode(creep: Creep)
      requires |children| > 0
      modifies this`children, creep`target
      ensures multiset(children) == multiset(old(children)) && AscendingDanger(children)
      ensures creep.target in children && creep.target in old(children)
    {
      var next := GetNextNodeIndex();
      creep.target := children[next];
      assert creep.target in multiset(old(children));
    }

    /** Sorts the children by ascending danger (List.Sort is not stable, so
        nodes of equal danger end up in any order), then returns how many of
        the first children lie within the tolerance of one another. */
    method SortChildrenByDanger() returns (top: int)
      modifies this`children
      ensures multiset(children) == multiset(old(children))
      ensures AscendingDanger(children)
      ensures top == FirstOutOfTolerance(Dangers(children), DangerTolerance, 0)
      ensures top == |children|
    {
      SortChildren();
      ghost var d := Dangers(children);
      assert Ascending(d);

      var i := 0;
      while i < |children| - 1
        invariant 0 <= i <= |children|
        invariant FirstOutOfTolerance(d, DangerTolerance, i) == FirstOutOfTolerance(d, DangerTolerance, 0)
      {
        assert d[i] == children[i].dangerValue && d[i + 1] == children[i + 1].dangerValue;
        if children[i].dangerValue > children[i + 1].dangerValue + DangerTolerance {
          return i + 1;
        }
        i := i + 1;
      }
      AscendingNeverOutOfTolerance(d, DangerTolerance, 0);
      return |children|;
    }

    /** _children.Sort by ascending danger value. */
    method SortChildren()
      modifies this`children
      ensures multiset(children) == multiset(old(children))
      ensures AscendingDanger(children)
    {
      var snapshot := map c | c in children :: c.dangerValue as real;
      var key := (c: CreepTarget) => if c in snapshot then snapshot[c] else 0.0;
      Sorting.SortedPermutationExists(children, key);
      var sorted: seq<CreepTarget> :| multiset(sorted) == multiset(children) && Sorting.SortedBy(sorted, key);
      SortedBySnapshotIsAscending(children, sorted, snapshot);
      children := sorted;
    }

    /** Random.Range(0, top): an index among the first top children, and 0
        when there are none (Random.Range(0, 0) returns its lower bound). */
    method GetNextNodeIndex() returns (index: int)
      modifies this`children
      ensures multiset(children) == multiset(old(children)) && AscendingDanger(children)
      ensures |children| == 0 ==> index == 0
      ensures |children| > 0 ==> 0 <= index < |children|
    {
      var top := SortChildrenByDanger();
      if top > 0 {
        index :| 0 <= index < top;
      } else {
        index := 0;
      }
    }
  }
}
