/** TowerAttributes: the stat block of a tower or of one upgrade, the `+`
    that composes a tower's base stats with its upgrades, and the rich-text
    tooltip that compares two stat blocks. */
module Attributes {
  import opened Common

  /** Mesh and material are asset references, modelled by an asset id. */
  type AssetId = nat

  datatype TowerAttributes = TowerAttributes(
    displayName: Option<string>,
    description: Option<string>,
    cost: int,
    range: real,
    damage: int,
    rateOfFire: real,
    missileSpeed: real,
    applySlow: bool,
    slowTime: real,
    slowFactor: real,
    applyBurn: bool,
    burnTime: real,
    burnCount: int,
    burnDamage: int,
    applyAOE: bool,
    aoeDamage: int,
    mesh: Option<AssetId>,
    material: Option<AssetId>)

  /** `new TowerAttributes()`: the field initialisers. */
  function Default(): TowerAttributes
  {
    TowerAttributes(None, None, 1, 5.0, 5, 1.0, 20.0,
                    false, 0.0, 0.0,
                    false, 0.0, 0, 0,
                    false, 0,
                    None, None)
  }

  /** C# string concatenation reads a null string as "". */
  function Text(s: Option<string>): string
  {
    if s.Some? then s.value else ""
  }

  /** operator +(lhs, rhs): starts from a default value and overwrites the
      name, the numeric fields and the slow and burn flags. */
  function Plus(lhs: TowerAttributes, rhs: TowerAttributes): TowerAttributes
  {
    Default().(
      displayName := Some(Text(rhs.displayName) + Text(lhs.displayName)),
      cost := lhs.cost + rhs.cost,
      range := lhs.range + rhs.range,
      damage := lhs.damage + rhs.damage,
      rateOfFire := lhs.rateOfFire + rhs.rateOfFire,
      missileSpeed := lhs.missileSpeed + rhs.missileSpeed,
      applySlow := lhs.applySlow || rhs.applySlow,
      slowTime := lhs.slowTime + rhs.slowTime,
      slowFactor := lhs.slowFactor + rhs.slowFactor,
      applyBurn := lhs.applyBurn || rhs.applyBurn,
      burnTime := lhs.burnTime + rhs.burnTime,
      burnCount := lhs.burnCount + rhs.burnCount,
      burnDamage := lhs.burnDamage + rhs.burnDamage)
  }

  /** Every numeric field of a + b is the field-wise sum. */
  lemma PlusAddsNumericFields(a: TowerAttributes, b: TowerAttributes)
    ensures Plus(a, b).cost == a.cost + b.cost
    ensures Plus(a, b).range == a.range + b.range
    ensures Plus(a, b).damage == a.damage + b.damage
    ensures Plus(a, b).rateOfFire == a.rateOfFire + b.rateOfFire
    ensures Plus(a, b).missileSpeed == a.missileSpeed + b.missileSpeed
    ensures Plus(a, b).slowTime == a.slowTime + b.slowTime
    ensures Plus(a, b).slowFactor == a.slowFactor + b.slowFactor
    ensures Plus(a, b).burnTime == a.burnTime + b.burnTime
    ensures Plus(a, b).burnCount == a.burnCount + b.burnCount
    ensures Plus(a, b).burnDamage == a.burnDamage + b.burnDamage
  {
  }

  /** The slow and burn flags of a + b are the OR of the operands'. */
  lemma PlusOrsFlags(a: TowerAttributes, b: TowerAttributes)
    ensures Plus(a, b).applySlow <==> a.applySlow || b.applySlow
    ensures Plus(a, b).applyBurn <==> a.applyBurn || b.applyBurn
  {
  }

  /** The name of a + b is b's name followed by a's, a missing name counting as empty. */
  lemma PlusNameIsRhsThenLhs(a: TowerAttributes, b: TowerAttributes)
    ensures Plus(a, b).displayName == Some(Text(b.displayName) + Text(a.displayName))
  {
  }

  /** AOE, description, mesh and material are not combined: a + b keeps the
      defaults, so a composed stat block never carries area damage. */
  lemma PlusDropsAreaOfEffect(a: TowerAttributes, b: TowerAttributes)
    ensures !Plus(a, b).applyAOE && Plus(a, b).aoeDamage == 0
    ensures Plus(a, b).description.None?
    ensures Plus(a, b).mesh.None? && Plus(a, b).material.None?
  {
  }

  /** The default stat block is not a neutral element: adding it adds
      cost 1, range 5, damage 5, rate of fire 1 and missile speed 20. */
  lemma DefaultIsNotIdentity(a: TowerAttributes)
    ensures Plus(a, Default()).cost == a.cost + 1 && Plus(Default(), a).cost == a.cost + 1
    ensures Plus(a, Default()).range == a.range + 5.0
    ensures Plus(a, Default()).damage == a.damage + 5
    ensures Plus(a, Default()).rateOfFire == a.rateOfFire + 1.0
    ensures Plus(a, Default()).missileSpeed == a.missileSpeed + 20.0
    ensures Plus(a, Default()) != a && Plus(Default(), a) != a
  {
  }

  /** + is commutative on everything but the name, whose parts swap places. */
  lemma PlusCommutesExceptName(a: TowerAttributes, b: TowerAttributes)
    ensures Plus(a, b).(displayName := None) == Plus(b, a).(displayName := None)
  {
  }

  /** + is associative, the name included. */
  lemma PlusAssociative(a: TowerAttributes, b: TowerAttributes, c: TowerAttributes)
    ensures Plus(Plus(a, b), c) == Plus(a, Plus(b, c))
  {
    var t1, t2 := Text(a.displayName), Text(b.displayName);
    var t3 := Text(c.displayName);
    assert t3 + (t2 + t1) == (t3 + t2) + t1;
  }

  /** GetColoredRichTextForOutcome: "" for outcome 0, otherwise the text in
      red with " -" or in green with " +", followed by a newline when asked. */
  function ColoredRichTextForOutcome(text: string, outcome: int, addNewline: bool): (r: string)
    ensures r == "" <==> outcome == 0
    ensures outcome < 0 ==> 11 + |text| <= |r| && r[..11] == "<color=red>" && r[11..11 + |text|] == text
    ensures outcome > 0 ==> 13 + |text| <= |r| && r[..13] == "<color=green>" && r[13..13 + |text|] == text
    ensures outcome != 0 ==> (r[|r| - 1] == '\n' <==> addNewline)
    ensures outcome < 0 ==> r == "<color=red>" + text + " -</color>" + (if addNewline then "\n" else "")
    ensures outcome > 0 ==> r == "<color=green>" + text + " +</color>" + (if addNewline then "\n" else "")
  {
    if outcome == 0 then ""
    else
      var line := if outcome < 0 then "<color=red>" + text + " -</color>"
                  else "<color=green>" + text + " +</color>";
      if addNewline then line + "\n" else line
  }

  /** GetUpgradeTooltip: the Range, Damage and Rate of Fire lines, each
      signed by lhs.CompareTo(rhs); the last one without a newline. */
  function UpgradeTooltip(lhs: TowerAttributes, rhs: TowerAttributes): string
  {
    ColoredRichTextForOutcome("Range", CompareTo(lhs.range, rhs.range), true)
    + ColoredRichTextForOutcome("Damage", CompareTo(lhs.damage as real, rhs.damage as real), true)
    + ColoredRichTextForOutcome("Rate of Fire", CompareTo(lhs.rateOfFire, rhs.rateOfFire), false)
  }

  /** The tooltip is empty exactly when range, damage and rate of fire agree. */
  lemma UpgradeTooltipEmptyIffSameStats(lhs: TowerAttributes, rhs: TowerAttributes)
    ensures UpgradeTooltip(lhs, rhs) == "" <==>
      lhs.range == rhs.range && lhs.damage == rhs.damage && lhs.rateOfFire == rhs.rateOfFire
  {
    var a := ColoredRichTextForOutcome("Range", CompareTo(lhs.range, rhs.range), true);
    var b := ColoredRichTextForOutcome("Damage", CompareTo(lhs.damage as real, rhs.damage as real), true);
    var c := ColoredRichTextForOutcome("Rate of Fire", CompareTo(lhs.rateOfFire, rhs.rateOfFire), false);
    assert |a + b + c| == |a| + |b| + |c|;
  }

  /** The tooltip ends in a newline exactly when the rate of fire agrees but
      range or damage differs: only the Rate of Fire line omits it. */
  lemma UpgradeTooltipTrailingNewline(lhs: TowerAttributes, rhs: TowerAttributes)
    ensures var t := UpgradeTooltip(lhs, rhs);
      (|t| > 0 && t[|t| - 1] == '\n') <==>
      lhs.rateOfFire == rhs.rateOfFire && (lhs.range != rhs.range || lhs.damage != rhs.damage)
  {
    var a := ColoredRichTextForOutcome("Range", CompareTo(lhs.range, rhs.range), true);
    var b := ColoredRichTextForOutcome("Damage", CompareTo(lhs.damage as real, rhs.damage as real), true);
    var c := ColoredRichTextForOutcome("Rate of Fire", CompareTo(lhs.rateOfFire, rhs.rateOfFire), false);
    var t := a + b + c;
    assert t == UpgradeTooltip(lhs, rhs);
    if c != "" {
      assert t[|t| - 1] == c[|c| - 1];
    } else if b != "" {
      assert t == a + b;
      assert t[|t| - 1] == b[|b| - 1];
    } else {
      assert t == a;
    }
  }
}
