/** TowerBehaviour: a tower's target list (purged of dead creeps, sorted by
    the targeting mode, its head the current target) and its upgrade paths.

    A creep in the target list is "gone" when it is null or Unity has
    destroyed it (Unity's fake null). Creep positions are not modelled: the
    distance of a creep from the tower is the parameter `distance`. */
module Towers {
  import opened Common
  import opened Attributes
  import Creeps
  import Sorting

  datatype TargetingMode = Distance | Health | Damage | Speed

  /** GetSortOrder: 1 for ascending, -1 for descending. */
  function SortOrder(descending: bool): (r: int)
    ensures r == 1 || r == -1
    ensures r < 0 <==> descending
  {
    if descending then -1 else 1
  }

  /** Multiplying a CompareTo by the sort order compares the keys scaled by
      that order: the comparator sorts ascending by order * key. */
  lemma ComparerIsScaledKey(x: real, y: real, descending: bool)
    ensures CompareTo(x, y) * SortOrder(descending)
         == CompareTo(SortOrder(descending) as real * x, SortOrder(descending) as real * y)
  {
    if descending {
      assert CompareTo(-x, -y) == -CompareTo(x, y);
    }
  }

  /** A target slot whose creep is null or destroyed. */
  predicate Gone(c: Creeps.Creep?)
    reads {c}`destroyed
  {
    c == null || c.destroyed
  }

  /** The creeps of s that are not gone, in their order in s. */
  function Live(s: seq<Creeps.Creep?>): seq<Creeps.Creep?>
    reads (set c | c in s)`destroyed
    decreases |s|
  {
    if s == [] then []
    else
      var last := s[|s| - 1];
      Live(s[..|s| - 1]) + (if Gone(last) then [] else [last])
  }

  /** Purging keeps no gone creep, and every creep that is not gone as
      often as it was listed. */
  lemma {:induction false} LiveExactlyTheLiving(s: seq<Creeps.Creep?>)
    ensures |Live(s)| <= |s|
    ensures forall c :: c in Live(s) ==> c in s && !Gone(c)
    ensures forall c :: c in s && !Gone(c) ==> multiset(Live(s))[c] == multiset(s)[c]
    decreases |s|
  {
    if s != [] {
      var init, last := s[..|s| - 1], s[|s| - 1];
      assert s == init + [last];
      LiveExactlyTheLiving(init);
    }
  }

  lemma {:induction false} LiveHasNoNull(s: seq<Creeps.Creep?>)
    ensures null !in Live(s)
    decreases |s|
  {
    if s != [] {
      LiveHasNoNull(s[..|s| - 1]);
    }
  }

  /** Purging keeps the relative order: it distributes over concatenation. */
  lemma {:induction false} LiveAppend(s: seq<Creeps.Creep?>, t: seq<Creeps.Creep?>)
    ensures Live(s + t) == Live(s) + Live(t)
    decreases |t|
  {
    if t != [] {
      var u := t[..|t| - 1];
      assert (s + t)[..|s + t| - 1] == s + u;
      LiveAppend(s, u);
    } else {
      assert s + t == s;
    }
  }

  /** s without its first occurrence of x; s itself when x is absent (List.Remove). */
  function RemoveFirst(s: seq<Creeps.Creep?>, x: Creeps.Creep?): (r: seq<Creeps.Creep?>)
    ensures multiset(r) == multiset(s) - multiset{x}
    ensures |r| == if x in s then |s| - 1 else |s|
    ensures x !in s ==> r == s
  {
    if s == [] then []
    else if s[0] == x then
      assert s == [s[0]] + s[1..];
      s[1..]
    else
      assert s == [s[0]] + s[1..];
      [s[0]] + RemoveFirst(s[1..], x)
  }

  /** It is the first occurrence that goes: everything before it and after it stays in place. */
  lemma {:induction false} RemoveFirstSplits(s: seq<Creeps.Creep?>, x: Creeps.Creep?, i: nat)
    requires i < |s| && s[i] == x && x !in s[..i]
    ensures RemoveFirst(s, x) == s[..i] + s[i + 1..]
  {
    if i > 0 {
      var t := s[1..];
      assert s[..i] == [s[0]] + t[..i - 1];
      assert s[0] != x && x !in t[..i - 1];
      RemoveFirstSplits(t, x, i - 1);
      assert RemoveFirst(s, x) == [s[0]] + RemoveFirst(t, x);
      assert s[i + 1..] == t[i..];
    }
  }

  /** The sort key of a creep: distance, health, leak damage or speed, negated for a descending sort. */
  function Key(mode: TargetingMode, descending: bool, distance: Creeps.Creep -> real, c: Creeps.Creep?): real
    reads {c}`health, {c}`leakDamage, {c}`speed
  {
    if c == null then 0.0
    else
      var base := match mode
        case Distance => distance(c)
        case Health => c.health as real
        case Damage => c.leakDamage as real
        case Speed => c.speed;
      SortOrder(descending) as real * base
  }

  /** cs is in the order the targeting mode's comparator sorts into. */
  predicate SortedForMode(cs: seq<Creeps.Creep?>, mode: TargetingMode, descending: bool, distance: Creeps.Creep -> real)
    reads (set c | c in cs)`health, (set c | c in cs)`leakDamage, (set c | c in cs)`speed
  {
    forall i, j :: 0 <= i < j < |cs| ==> Key(mode, descending, distance, cs[i]) <= Key(mode, descending, distance, cs[j])
  }

  /** The head of a list sorted for a mode has the least key: the tower
      targets the nearest, weakest, least harmful or slowest creep, or the
      opposite when sorting descending. */
  lemma SortedHeadIsLeast(cs: seq<Creeps.Creep?>, mode: TargetingMode, descending: bool, distance: Creeps.Creep -> real)
    requires SortedForMode(cs, mode, descending, distance) && cs != []
    ensures forall c :: c in cs ==> Key(mode, descending, distance, cs[0]) <= Key(mode, descending, distance, c)
  {
    forall c | c in cs
      ensures Key(mode, descending, distance, cs[0]) <= Key(mode, descending, distance, c)
    {
      var j :| 0 <= j < |cs| && cs[j] == c;
      assert j == 0 || Key(mode, descending, distance, cs[0]) <= Key(mode, descending, distance, cs[j]);
    }
  }

  /** Upgrade levels fit the upgrade tree: one per path, each -1 (none bought) or an index into the path. */
  predicate ValidLevels(tree: seq<seq<TowerAttributes>>, levels: seq<int>)
  {
    |levels| == |tree| && forall p :: 0 <= p < |levels| ==> -1 <= levels[p] < |tree[p]|
  }

  /** A fresh TowerAttributes plus the current upgrade of each of the first n paths that has one, in path order. */
  function UpgradeSum(tree: seq<seq<TowerAttributes>>, levels: seq<int>, n: nat): TowerAttributes
    requires ValidLevels(tree, levels) && n <= |tree|
  {
    if n == 0 then Default()
    else
      var s := UpgradeSum(tree, levels, n - 1);
      if levels[n - 1] >= 0 then Plus(s, tree[n - 1][levels[n - 1]]) else s
  }

  /** The damage of the bought upgrades of the first n paths. */
  function UpgradeDamage(tree: seq<seq<TowerAttributes>>, levels: seq<int>, n: nat): int
    requires ValidLevels(tree, levels) && n <= |tree|
  {
    if n == 0 then 0
    else UpgradeDamage(tree, levels, n - 1) + (if levels[n - 1] >= 0 then tree[n - 1][levels[n - 1]].damage else 0)
  }

  /** The upgrade sum carries the default damage of 5 on top of the bought upgrades. */
  lemma {:induction false} UpgradeSumDamage(tree: seq<seq<TowerAttributes>>, levels: seq<int>, n: nat)
    requires ValidLevels(tree, levels) && n <= |tree|
    ensures UpgradeSum(tree, levels, n).damage == Default().damage + UpgradeDamage(tree, levels, n)
  {
    if n > 0 {
      UpgradeSumDamage(tree, levels, n - 1);
    }
  }

  /** The upgrade sum burns iff some bought upgrade of the first n paths burns. */
  lemma {:induction false} UpgradeSumBurns(tree: seq<seq<TowerAttributes>>, levels: seq<int>, n: nat)
    requires ValidLevels(tree, levels) && n <= |tree|
    ensures UpgradeSum(tree, levels, n).applyBurn
        <==> exists p :: 0 <= p < n && levels[p] >= 0 && tree[p][levels[p]].applyBurn
  {
    if n > 0 {
      UpgradeSumBurns(tree, levels, n - 1);
    }
  }

  /** With nothing bought the upgrade sum is a fresh TowerAttributes, which
      still adds its defaults to the tower's own range and damage. */
  lemma {:induction false} NoUpgradesStillAddDefaults(a: TowerAttributes, tree: seq<seq<TowerAttributes>>, levels: seq<int>, n: nat)
    requires ValidLevels(tree, levels) && n <= |tree|
    requires forall p :: 0 <= p < |levels| ==> levels[p] == -1
    ensures UpgradeSum(tree, levels, n) == Default()
    ensures Plus(a, UpgradeSum(tree, levels, n)).range == a.range + 5.0
    ensures Plus(a, UpgradeSum(tree, levels, n)).damage == a.damage + 5
  {
    if n > 0 {
      NoUpgradesStillAddDefaults(a, tree, levels, n - 1);
    }
  }

  class TowerBehaviour {
    var attributes: TowerAttributes
    var upgradeAttributes: TowerAttributes
    var targets: seq<Creeps.Creep?>
    var currentTarget: Creeps.Creep?
    var upgradeMulti: int
    var targetingMode: TargetingMode
    var sortDescending: bool
    const upgradeTree: seq<seq<TowerAttributes>>
    var upgradeLevels: seq<int>
    /** The radius of the range volume's sphere collider. */
    var rangeRadius: real
    var mesh: Option<AssetId>
    var material: Option<AssetId>
    /** Unity's Destroy of the tower's object, which selling the tower does;
        a destroyed tower compares equal to null. */
    var destroyed: bool

    ghost predicate Valid()
      reads this`upgradeLevels
    {
      ValidLevels(upgradeTree, upgradeLevels)
    }

    /** The sum of the tower's own attributes and its upgrades. */
    function CompositeAttributes(): TowerAttributes
      reads this`attributes, this`upgradeAttributes
    {
      Plus(attributes, upgradeAttributes)
    }

    /** Field initialisers and Start: with no levels set in the inspector
        every path starts at -1; the range volume takes the composite range. */
    constructor (attributes: TowerAttributes, upgradeTree: seq<seq<TowerAttributes>>, upgradeLevels: seq<int>)
      requires upgradeLevels == [] || ValidLevels(upgradeTree, upgradeLevels)
      ensures Valid() && this.attributes == attributes && this.upgradeTree == upgradeTree
      ensures upgradeLevels == [] ==> this.upgradeLevels == seq(|upgradeTree|, _ => -1)
      ensures upgradeLevels != [] ==> this.upgradeLevels == upgradeLevels
      ensures upgradeAttributes == Default() && targets == [] && currentTarget == null
      ensures upgradeMulti == 0 && targetingMode == Distance && !sortDescending
      ensures rangeRadius == Plus(attributes, Default()).range
      ensures mesh.None? && material.None? && !destroyed
    {
      this.attributes := attributes;
      this.upgradeTree := upgradeTree;
      upgradeAttributes := Default();
      targets := [];
      currentTarget := null;
      upgradeMulti := 0;
      targetingMode := Distance;
      sortDescending := false;
      mesh, material := None, None;
      destroyed := false;
      var levels := upgradeLevels;
      if |levels| == 0 {
        var i := 0;
        while i < |upgradeTree|
          invariant 0 <= i <= |upgradeTree|
          invariant levels == seq(i, _ => -1)
        {
          levels := levels + [-1];
          i := i + 1;
        }
      }
      this.upgradeLevels := levels;
      rangeRadius := Plus(attributes, Default()).range;
    }

    /** Removes the gone entries of the target list, one RemoveAt at a time. */
    method ClearOldTargets()
      modifies this`targets
      ensures targets == Live(old(targets))
      ensures null !in targets
    {
      var e := 0;
      ghost var n := 0;
      while e < |targets|
        invariant 0 <= e <= |targets| && 0 <= n <= |old(targets)|
        invariant targets[..e] == Live(old(targets)[..n])
        invariant targets[e..] == old(targets)[n..]
        decreases |targets| - e
      {
        assert targets[e] == old(targets)[n];
        assert old(targets)[..n + 1][..n] == old(targets)[..n];
        if targets[e] == null || targets[e].destroyed {
          targets := targets[..e] + targets[e + 1..];
        } else {
          e := e + 1;
        }
        n := n + 1;
      }
      assert old(targets)[..n] == old(targets);
      LiveHasNoNull(old(targets));
    }

    /** The targets sorted by the targeting mode's key (List.Sort: not stable). */
    method SortTargets(distance: Creeps.Creep -> real)
      modifies this`targets
      ensures multiset(targets) == multiset(old(targets))
      ensures null !in old(targets) ==> null !in targets
      ensures SortedForMode(targets, targetingMode, sortDescending, distance)
    {
      var snapshot := map c | c in targets :: Key(targetingMode, sortDescending, distance, c);
      var key := (c: Creeps.Creep?) => if c in snapshot then snapshot[c] else 0.0;
      Sorting.SortedPermutationExists(targets, key);
      var sorted: seq<Creeps.Creep?> :| multiset(sorted) == multiset(targets) && Sorting.SortedBy(sorted, key);
      forall i, j | 0 <= i < j < |sorted|
        ensures Key(targetingMode, sortDescending, distance, sorted[i]) <= Key(targetingMode, sortDescending, distance, sorted[j])
      {
        assert sorted[i] in multiset(targets) && sorted[j] in multiset(targets);
        assert key(sorted[i]) <= key(sorted[j]);
      }
      assert null !in targets ==> null !in multiset(sorted);
      targets := sorted;
    }

    /** Purge, sort by the targeting mode, and target the head of the list
        (SortedHeadIsLeast: the creep with the least key). */
    method ObtainTarget(distance: Creeps.Creep -> real)
      modifies this`targets, this`currentTarget
      ensures multiset(targets) == multiset(Live(old(targets)))
      ensures SortedForMode(targets, targetingMode, sortDescending, distance)
      ensures currentTarget == if targets == [] then null else targets[0]
      ensures currentTarget == null <==> Live(old(targets)) == []
    {
      currentTarget := null;
      ClearOldTargets();
      SortAndTarget(distance);
    }

    /** ObtainTarget after the purge: sort, then the head of the list, if
        any, becomes the target. */
    method SortAndTarget(distance: Creeps.Creep -> real)
      requires null !in targets && currentTarget == null
      modifies this`targets, this`currentTarget
      ensures multiset(targets) == multiset(old(targets))
      ensures SortedForMode(targets, targetingMode, sortDescending, distance)
      ensures currentTarget == if targets == [] then null else targets[0]
      ensures currentTarget == null <==> targets == []
    {
      SortTargets(distance);
      if |targets| > 0 {
        currentTarget := targets[0];
      }
    }

    /** Re-acquire only when the current target is gone. */
    method ObtainTargetWeak(distance: Creeps.Creep -> real)
      modifies this`targets, this`currentTarget
      ensures !old(Gone(currentTarget)) ==> targets == old(targets) && currentTarget == old(currentTarget)
      ensures old(Gone(currentTarget)) ==>
        multiset(targets) == multiset(Live(old(targets)))
        && SortedForMode(targets, targetingMode, sortDescending, distance)
        && currentTarget == (if targets == [] then null else targets[0])
    {
      if currentTarget == null || currentTarget.destroyed {
        ObtainTarget(distance);
      }
    }

    /** An Enemy entering the range volume joins the targets and the tower re-acquires. */
    method OnRangeEnter(other: Creeps.Collider, distance: Creeps.Creep -> real)
      modifies this`targets, this`currentTarget
      ensures other.tag != Creeps.Enemy ==> targets == old(targets) && currentTarget == old(currentTarget)
      ensures other.tag == Creeps.Enemy ==>
        multiset(targets) == multiset(Live(old(targets) + [other.creep]))
        && SortedForMode(targets, targetingMode, sortDescending, distance)
        && currentTarget == (if targets == [] then null else targets[0])
    {
      if other.tag == Creeps.Enemy {
        targets := targets + [other.creep];
        ObtainTarget(distance);
      }
    }

    /** An Enemy leaving the range volume loses its first place in the
        targets, the current target is dropped and the tower re-acquires. */
    method OnRangeExit(other: Creeps.Collider, distance: Creeps.Creep -> real)
      modifies this`targets, this`currentTarget
      ensures other.tag != Creeps.Enemy ==> targets == old(targets) && currentTarget == old(currentTarget)
      ensures other.tag == Creeps.Enemy ==>
        multiset(targets) == multiset(Live(RemoveFirst(old(targets), other.creep)))
        && SortedForMode(targets, targetingMode, sortDescending, distance)
        && currentTarget == (if targets == [] then null else targets[0])
    {
      if other.tag == Creeps.Enemy {
        targets := RemoveFirst(targets, other.creep);
        currentTarget := null;
        ObtainTarget(distance);
      }
    }

    /** Another level of the path can be bought. */
    predicate CanUpgrade(path: nat)
      requires Valid() && (upgradeLevels == [] || path < |upgradeLevels|)
      reads this`upgradeLevels
    {
      (|upgradeLevels| > 0 && |upgradeTree| > 0) && upgradeLevels[path] + 1 < |upgradeTree[path]|
    }

    /** The bought level of a path. */
    function GetCurrentUpgrade(path: nat): TowerAttributes
      requires Valid() && path < |upgradeLevels| && upgradeLevels[path] >= 0
      reads this`upgradeLevels
    {
      upgradeTree[path][upgradeLevels[path]]
    }

    /** The level of a path that would be bought next. */
    function GetNextUpgrade(path: nat): TowerAttributes
      requires Valid() && path < |upgradeLevels| && CanUpgrade(path)
      reads this`upgradeLevels
    {
      upgradeTree[path][upgradeLevels[path] + 1]
    }

    /** Buying on an existing path always raises the cost multiplier; the
        level advances, and the attributes are recomputed, only when the path
        has a further level. */
    method Upgrade(path: nat)
      requires Valid()
      modifies this`upgradeMulti, this`upgradeLevels, this`upgradeAttributes, this`rangeRadius, this`mesh, this`material
      ensures Valid()
      ensures upgradeMulti == old(upgradeMulti) + (if path < |upgradeLevels| then 1 else 0)
      ensures upgradeLevels != old(upgradeLevels) <==> path < |upgradeLevels| && old(CanUpgrade(path))
      ensures upgradeLevels != old(upgradeLevels) ==>
        upgradeLevels == old(upgradeLevels)[path := old(upgradeLevels)[path] + 1]
        && upgradeAttributes == UpgradeSum(upgradeTree, upgradeLevels, |upgradeTree|)
        && rangeRadius == CompositeAttributes().range
        && mesh == (if GetCurrentUpgrade(path).mesh.Some? then GetCurrentUpgrade(path).mesh else old(mesh))
        && material == (if GetCurrentUpgrade(path).material.Some? then GetCurrentUpgrade(path).material else old(material))
      ensures upgradeLevels != old(upgradeLevels) ==> GetCurrentUpgrade(path) == old(GetNextUpgrade(path))
      ensures upgradeLevels == old(upgradeLevels) ==>
        upgradeAttributes == old(upgradeAttributes) && rangeRadius == old(rangeRadius)
        && mesh == old(mesh) && material == old(material)
    {
      if path < |upgradeLevels| {
        var currentLevel := upgradeLevels[path];
        upgradeMulti := upgradeMulti + 1;
        if currentLevel < |upgradeTree[path]| - 1 {
          upgradeLevels := upgradeLevels[path := upgradeLevels[path] + 1];
          ApplyAttributes(path);
        }
      }
    }

    /** Takes the mesh and material of the path's current level, rebuilds the
        upgrade attributes from a fresh TowerAttributes and the current level
        of every bought path, and resizes the range volume. */
    method ApplyAttributes(path: nat)
      requires Valid() && path < |upgradeLevels| && upgradeLevels[path] >= 0
      modifies this`upgradeAttributes, this`rangeRadius, this`mesh, this`material
      ensures upgradeAttributes == UpgradeSum(upgradeTree, upgradeLevels, |upgradeTree|)
      ensures rangeRadius == CompositeAttributes().range
      ensures mesh == (if GetCurrentUpgrade(path).mesh.Some? then GetCurrentUpgrade(path).mesh else old(mesh))
      ensures material == (if GetCurrentUpgrade(path).material.Some? then GetCurrentUpgrade(path).material else old(material))
    {
      var upgrade := GetCurrentUpgrade(path);
      if upgrade.mesh.Some? {
        mesh := upgrade.mesh;
      }
      if upgrade.material.Some? {
        material := upgrade.material;
      }
      upgradeAttributes := Default();
      var i := 0;
      while i < |upgradeTree|
        invariant 0 <= i <= |upgradeTree|
        invariant upgradeAttributes == UpgradeSum(upgradeTree, upgradeLevels, i)
        modifies this`upgradeAttributes
      {
        if upgradeLevels[i] >= 0 {
          upgradeAttributes := Plus(upgradeAttributes, GetCurrentUpgrade(i));
        }
        i := i + 1;
      }
      rangeRadius := CompositeAttributes().range;
    }
  }
}
