/** CreepSpawner: the path node where creeps enter, and the SpawnWaves
    coroutine that releases the level's waves one creep at a time and keeps
    the wave and level counters.

    The coroutine is a state machine: each call of Step is one resumption,
    from the yield it stopped at to the next one. WaitForSeconds(spawnWait)
    is a resumption in SpawnWait; the WaitUntil conditions are checked at
    each resumption. CreepSpawner derives from CreepTarget; here it holds
    its node as `node`. The static _totalLevelCreeps is the shared object
    `totals`. */
module Spawning {
  import opened Common
  import Creeps

  /** One entry of a wave: a creep prefab and how many of it to spawn. */
  datatype WaveCreep = WaveCreep(creep: Creeps.CreepPrefab, number: int)

  datatype CreepWave = CreepWave(creepList: seq<WaveCreep>)

  /** Where the SpawnWaves coroutine is suspended. */
  datatype Phase =
    | AwaitStart                                 // first WaitUntil, before OnLevelStart
    | SpawnWait(wave: nat, entry: nat, index: nat) // WaitForSeconds after spawning creep `index` of `entry`
    | AwaitClear(wave: nat)                      // WaitUntil(_waveComplete)
    | AwaitNext(wave: nat)                       // WaitUntil(start next wave) after OnWaveEnd
    | Finished                                   // after OnLevelEnd

  /** The sum of `number` over a wave's entries. */
  function WaveTotal(list: seq<WaveCreep>): int
  {
    if list == [] then 0 else WaveTotal(list[..|list| - 1]) + list[|list| - 1].number
  }

  /** The sum of `number` over every entry of every wave. */
  function TotalCreeps(waves: seq<CreepWave>): int
  {
    if waves == [] then 0 else TotalCreeps(waves[..|waves| - 1]) + WaveTotal(waves[|waves| - 1].creepList)
  }

  /** How many creeps `for (k = 0; k < number; k++)` spawns. */
  function Spawns(number: int): nat
  {
    if number > 0 then number else 0
  }

  /** `count` copies of the entry index j. */
  function Copies(j: nat, count: nat): (r: seq<nat>)
    ensures |r| == count && forall x :: 0 <= x < count ==> r[x] == j
  {
    seq(count, _ => j)
  }

  /** The entry index of every creep a wave spawns, in spawn order. */
  function Schedule(list: seq<WaveCreep>): seq<nat>
  {
    if list == [] then []
    else Schedule(list[..|list| - 1]) + Copies(|list| - 1, Spawns(list[|list| - 1].number))
  }

  /** With no negative entry, a wave spawns exactly as many creeps as it
      counts as living when it starts. */
  lemma {:induction false} ScheduleLength(list: seq<WaveCreep>)
    requires forall e :: e in list ==> e.number >= 0
    ensures |Schedule(list)| == WaveTotal(list)
  {
    if list != [] {
      ScheduleLength(list[..|list| - 1]);
    }
  }

  /** Entry j appears in the schedule exactly Spawns(number) times, as one
      block, after every earlier entry's block. */
  lemma {:induction false} ScheduleBlocks(list: seq<WaveCreep>, j: nat)
    requires j < |list|
    ensures Schedule(list[..j + 1]) == Schedule(list[..j]) + Copies(j, Spawns(list[j].number))
  {
    assert list[..j + 1][..j] == list[..j];
  }

  /** A negative entry spawns nothing but lowers the living count by its
      size: after entries that are all non-negative, the wave spawns more
      creeps than it counts. */
  lemma NegativeEntryUndercounts(list: seq<WaveCreep>, e: WaveCreep)
    requires e.number < 0
    ensures |Schedule(list + [e])| == |Schedule(list)|
    ensures WaveTotal(list + [e]) == WaveTotal(list) + e.number
    ensures (forall x :: x in list ==> x.number >= 0) ==> |Schedule(list + [e])| > WaveTotal(list + [e])
  {
    var whole := list + [e];
    assert whole[..|whole| - 1] == list;
    assert Copies(|list|, Spawns(e.number)) == [];
    if forall x :: x in list ==> x.number >= 0 {
      ScheduleLength(list);
    }
  }

  /** The next creep the nested spawn loops produce at or after creep k of
      entry j: None once every entry is exhausted. */
  function NextSpawn(list: seq<WaveCreep>, j: nat, k: nat): (r: Option<(nat, nat)>)
    ensures r.Some? ==> j <= r.value.0 < |list| && r.value.1 < list[r.value.0].number
    decreases |list| - j
  {
    if j >= |list| then None
    else if k < list[j].number then Some((j, k))
    else NextSpawn(list, j + 1, 0)
  }

  /** A wave's zero-count entries make NextSpawn skip them, and a wave whose
      entries are all empty spawns nothing at all. */
  lemma {:induction false} NextSpawnNoneIffExhausted(list: seq<WaveCreep>, j: nat)
    ensures NextSpawn(list, j, 0) == None <==> forall x :: j <= x < |list| ==> list[x].number <= 0
    decreases |list| - j
  {
    if j < |list| && list[j].number <= 0 {
      NextSpawnNoneIffExhausted(list, j + 1);
    }
  }

  /** The inner loops of SpawnWaves skip every entry whose creeps are all
      spawned; the schedule so far is the same before and after. */
  method SkipSpent(list: seq<WaveCreep>, j: nat, k: nat) returns (j': nat, k': nat)
    requires j <= |list|
    requires j < |list| ==> k <= Spawns(list[j].number)
    requires j == |list| ==> k == 0
    ensures j <= j' <= |list|
    ensures j' < |list| ==> k' < list[j'].number
    ensures j' == |list| ==> k' == 0
    ensures Schedule(list[..j']) + Copies(j', k') == Schedule(list[..j]) + Copies(j, k)
    ensures NextSpawn(list, j', k') == NextSpawn(list, j, k)
  {
    j', k' := j, k;
    while j' < |list| && k' >= list[j'].number
      invariant j <= j' <= |list|
      invariant j' < |list| ==> k' <= Spawns(list[j'].number)
      invariant j' == |list| ==> k' == 0
      invariant Schedule(list[..j']) + Copies(j', k') == Schedule(list[..j]) + Copies(j, k)
      invariant NextSpawn(list, j', k') == NextSpawn(list, j, k)
      decreases |list| - j'
    {
      ScheduleBlocks(list, j');
      assert k' == Spawns(list[j'].number);
      j', k' := j' + 1, 0;
      assert Copies(j', 0) == [];
    }
  }

  class CreepSpawner {
    const node: Creeps.CreepTarget
    const id: nat
    const waveList: seq<CreepWave>
    const totals: LevelCreepTotals
    var startNextWave: bool
    var waveComplete: bool
    var levelComplete: bool
    var waves: int
    var livingCreepsInWave: int
    var currentWave: int
    var phase: Phase
    /** CheckStatus messages sent to the Player. */
    var statusChecks: nat
    /** The entry index of each creep spawned so far in the current wave. */
    ghost var spawnedEntries: seq<nat>

    /** Where the spawner's creeps report back to. */
    function Ref(): Creeps.SpawnerRef
    {
      Creeps.SpawnerRef(id, true)
    }

    /** How many waves the coroutine has begun at a given suspension point. */
    function WavesBegun(p: Phase): int
    {
      match p
      case AwaitStart => 0
      case SpawnWait(i, _, _) => i + 1
      case AwaitClear(i) => i + 1
      case AwaitNext(i) => i + 1
      case Finished => |waveList|
    }

    /** The suspension point reached after the nested loops resume at creep
        k of entry j of wave i. */
    function SpawnFrom(i: nat, j: nat, k: nat): Phase
      requires i < |waveList|
    {
      match NextSpawn(waveList[i].creepList, j, k)
      case Some((j', k')) => SpawnWait(i, j', k')
      case None => AwaitClear(i)
    }

    /** The suspension point reached when the wave loop reaches wave i. */
    function EnterWave(i: nat): Phase
    {
      if i < |waveList| then SpawnFrom(i, 0, 0) else Finished
    }

    ghost predicate Valid()
      reads this
    {
      currentWave == WavesBegun(phase)
      && match phase
        case AwaitStart => true
        case SpawnWait(i, j, k) =>
          i < |waveList| && j < |waveList[i].creepList| && k < waveList[i].creepList[j].number
          && spawnedEntries == Schedule(waveList[i].creepList[..j]) + Copies(j, k + 1)
        case AwaitClear(i) =>
          i < |waveList| && spawnedEntries == Schedule(waveList[i].creepList)
        case AwaitNext(i) => i < |waveList|
        case Finished => true
    }

    /** Instantiation followed by Start, which records the wave count and
        starts the SpawnWaves coroutine. */
    constructor (id: nat, node: Creeps.CreepTarget, waveList: seq<CreepWave>, totals: LevelCreepTotals)
      ensures this.id == id && this.node == node && this.waveList == waveList && this.totals == totals
      ensures !startNextWave && !waveComplete && !levelComplete
      ensures waves == |waveList| && livingCreepsInWave == 0 && currentWave == 0
      ensures phase == AwaitStart && statusChecks == 0
      ensures Valid()
    {
      this.id, this.node, this.waveList, this.totals := id, node, waveList, totals;
      startNextWave, waveComplete, levelComplete := false, false, false;
      livingCreepsInWave, currentWave := 0, 0;
      waves := |waveList|;
      phase := AwaitStart;
      statusChecks := 0;
      spawnedEntries := [];
    }

    /** The sum of `number` over every entry of every wave, as nested loops. */
    method GetTotalCreeps() returns (result: int)
      ensures result == TotalCreeps(waveList)
    {
      result := 0;
      var w := 0;
      while w < |waveList|
        invariant 0 <= w <= |waveList|
        invariant result == TotalCreeps(waveList[..w])
      {
        var list := waveList[w].creepList;
        var c := 0;
        while c < |list|
          invariant 0 <= c <= |list|
          invariant result == TotalCreeps(waveList[..w]) + WaveTotal(list[..c])
        {
          result := result + list[c].number;
          c := c + 1;
          assert list[..c][..c - 1] == list[..c - 1];
        }
        assert list[..c] == list;
        w := w + 1;
        assert waveList[..w][..w - 1] == waveList[..w - 1];
      }
      assert waveList[..w] == waveList;
    }

    /** The start-next-wave button. */
    method OnStartNextWave()
      modifies this`startNextWave
      ensures startNextWave
    {
      startNextWave := true;
    }

    /** A creep of this spawner was killed. */
    method OnCreepDeath()
      modifies this`livingCreepsInWave, this`waveComplete, this`waves, this`levelComplete, this`statusChecks
      ensures livingCreepsInWave == old(livingCreepsInWave) - 1
      ensures waveComplete == (old(waveComplete) || livingCreepsInWave <= 0)
      ensures waves == old(waves) - (if livingCreepsInWave <= 0 then 1 else 0)
      ensures levelComplete == (old(levelComplete) || waves <= 0)
      ensures statusChecks == old(statusChecks) + (if waves <= 0 then 1 else 0)
    {
      UpdateWaveCreepFlags();
    }

    /** A creep of this spawner leaked through the last node. */
    method OnCreepDespawn()
      modifies this`livingCreepsInWave, this`waveComplete, this`waves, this`levelComplete, this`statusChecks
      ensures livingCreepsInWave == old(livingCreepsInWave) - 1
      ensures waveComplete == (old(waveComplete) || livingCreepsInWave <= 0)
      ensures waves == old(waves) - (if livingCreepsInWave <= 0 then 1 else 0)
      ensures levelComplete == (old(levelComplete) || waves <= 0)
      ensures statusChecks == old(statusChecks) + (if waves <= 0 then 1 else 0)
    {
      UpdateWaveCreepFlags();
    }

    /** One fewer living creep; at 0 or below the wave is complete and one
        fewer wave remains (again at every further notification); with no
        waves left the level is complete and the Player checks its status. */
    method UpdateWaveCreepFlags()
      modifies this`livingCreepsInWave, this`waveComplete, this`waves, this`levelComplete, this`statusChecks
      ensures livingCreepsInWave == old(livingCreepsInWave) - 1
      ensures waveComplete == (old(waveComplete) || livingCreepsInWave <= 0)
      ensures waves == old(waves) - (if livingCreepsInWave <= 0 then 1 else 0)
      ensures levelComplete == (old(levelComplete) || waves <= 0)
      ensures statusChecks == old(statusChecks) + (if waves <= 0 then 1 else 0)
    {
      livingCreepsInWave := livingCreepsInWave - 1;
      if livingCreepsInWave <= 0 {
        waveComplete := true;
        waves := waves - 1;
      }
      if waves <= 0 {
        levelComplete := true;
        statusChecks := statusChecks + 1;
      }
    }

    /** One resumption of SpawnWaves. `auto` is the auto-next-wave toggle.
        A creep spawned in this resumption is returned. */
    method Step(auto: bool) returns (spawned: Option<Creeps.Creep>)
      requires Valid()
      requires |node.children| > 0
      modifies this, node`children, totals
      ensures Valid()
      ensures multiset(node.children) == multiset(old(node.children))
      ensures old(phase).AwaitStart? ==>
        phase == (if old(startNextWave) || auto then EnterWave(0) else AwaitStart)
      ensures old(phase).SpawnWait? ==>
        phase == SpawnFrom(old(phase).wave, old(phase).entry, old(phase).index + 1)
      ensures old(phase).AwaitClear? ==>
        phase == (if old(waveComplete) then AwaitNext(old(phase).wave) else old(phase))
      ensures old(phase).AwaitNext? ==>
        phase == (if old(startNextWave) || auto then EnterWave(old(phase).wave + 1) else old(phase))
      ensures old(phase).Finished? ==> phase == Finished
      ensures totals.totalLevelCreeps ==
        (if old(phase).AwaitStart? && !phase.AwaitStart? then 0 else old(totals.totalLevelCreeps))
      ensures currentWave == old(currentWave) || currentWave == old(currentWave) + 1
      ensures currentWave == old(currentWave) + 1 ==>
        var list := waveList[currentWave - 1].creepList;
        livingCreepsInWave == WaveTotal(list) && !waveComplete && !startNextWave
      ensures currentWave == old(currentWave) ==>
        livingCreepsInWave == old(livingCreepsInWave) && waveComplete == old(waveComplete)
        && startNextWave == old(startNextWave)
      ensures waves == old(waves) && levelComplete == old(levelComplete) && statusChecks == old(statusChecks)
      ensures spawned.Some? <==> phase.SpawnWait?
      ensures spawned.Some? ==>
        var c := spawned.value;
        fresh(c) && c.spawner == Some(Ref()) && c.target in node.children
        && c.health == waveList[phase.wave].creepList[phase.entry].creep.health
    {
      spawned := None;
      match phase {
        case AwaitStart =>
          if startNextWave || auto {
            OnLevelStart();
            spawned := StartWave(0);
          }
        case SpawnWait(i, j, k) =>
          spawned := SpawnNext(i, j, k + 1);
        case AwaitClear(i) =>
          if waveComplete {
            phase := AwaitNext(i);
          }
        case AwaitNext(i) =>
          if startNextWave || auto {
            spawned := StartWave(i + 1);
          }
        case Finished =>
      }
    }

    /** OnLevelStart: the level's creep total is counted afresh. */
    method OnLevelStart()
      modifies totals
      ensures totals.totalLevelCreeps == 0
    {
      totals.totalLevelCreeps := 0;
    }

    /** The body of the wave loop for wave i, up to its first yield; past the
        last wave, OnLevelEnd. */
    method StartWave(i: nat) returns (spawned: Option<Creeps.Creep>)
      requires |node.children| > 0
      requires currentWave == i && i <= |waveList|
      modifies this, node`children
      ensures Valid() && phase == EnterWave(i)
      ensures multiset(node.children) == multiset(old(node.children))
      ensures i < |waveList| ==>
        livingCreepsInWave == WaveTotal(waveList[i].creepList) && !waveComplete && !startNextWave
        && currentWave == i + 1
      ensures i == |waveList| ==>
        livingCreepsInWave == old(livingCreepsInWave) && waveComplete == old(waveComplete)
        && startNextWave == old(startNextWave) && currentWave == old(currentWave)
      ensures waves == old(waves) && levelComplete == old(levelComplete) && statusChecks == old(statusChecks)
      ensures spawned.Some? <==> phase.SpawnWait?
      ensures spawned.Some? ==>
        var c := spawned.value;
        fresh(c) && c.spawner == Some(Ref()) && c.target in node.children
        && c.health == waveList[phase.wave].creepList[phase.entry].creep.health
    {
      if i == |waveList| {
        phase := Finished;
        return None;
      }
      waveComplete := false;
      livingCreepsInWave := 0;
      var list := waveList[i].creepList;
      var c := 0;
      while c < |list|
        invariant 0 <= c <= |list|
        invariant livingCreepsInWave == WaveTotal(list[..c])
        modifies this`livingCreepsInWave
      {
        livingCreepsInWave := livingCreepsInWave + list[c].number;
        c := c + 1;
        assert list[..c][..c - 1] == list[..c - 1];
      }
      assert list[..c] == list;
      currentWave := currentWave + 1;
      OnWaveStart();
      spawnedEntries := [];
      assert Schedule(list[..0]) + Copies(0, 0) == [];
      spawned := SpawnNext(i, 0, 0);
    }

    /** OnWaveStart: the start-next-wave request is used up. */
    method OnWaveStart()
      modifies this`startNextWave
      ensures !startNextWave
    {
      startNextWave := false;
    }

    /** The nested spawn loops of wave i, resumed at creep k of entry j: skip
        exhausted entries, then spawn one creep, give it this spawner and
        route it to a child node; or, with nothing left, wait for the wave to clear. */
    /** Instantiates the prefab at the spawner's node, records this spawner
        on the creep and sends it to the node's next node. */
    method SpawnCreep(prefab: Creeps.CreepPrefab) returns (c: Creeps.Creep)
      requires |node.children| > 0
      modifies node`children
      ensures multiset(node.children) == multiset(old(node.children))
      ensures fresh(c) && c.spawner == Some(Ref()) && c.target in node.children
      ensures c.health == prefab.health
    {
      c := new Creeps.Creep(prefab);
      c.spawner := Some(Ref());
      node.DirectToNextNode(c);
    }

    method SpawnNext(i: nat, j: nat, k: nat) returns (spawned: Option<Creeps.Creep>)
      requires |node.children| > 0
      requires i < |waveList| && currentWave == i + 1
      requires j < |waveList[i].creepList| ==> k <= Spawns(waveList[i].creepList[j].number)
      requires j <= |waveList[i].creepList|
      requires j == |waveList[i].creepList| ==> k == 0
      requires spawnedEntries == Schedule(waveList[i].creepList[..j]) + Copies(j, k)
      modifies this`phase, this`spawnedEntries, node`children
      ensures Valid() && phase == SpawnFrom(i, j, k)
      ensures multiset(node.children) == multiset(old(node.children))
      ensures spawned.Some? <==> phase.SpawnWait?
      ensures spawned.Some? ==>
        var c := spawned.value;
        fresh(c) && c.spawner == Some(Ref()) && c.target in node.children
        && c.health == waveList[phase.wave].creepList[phase.entry].creep.health
    {
      var list := waveList[i].creepList;
      var j', k' := SkipSpent(list, j, k);
      if j' < |list| {
        var creep := SpawnCreep(list[j'].creep);
        spawnedEntries := spawnedEntries + [j'];
        assert Copies(j', k') + [j'] == Copies(j', k' + 1);
        phase := SpawnWait(i, j', k');
        spawned := Some(creep);
      } else {
        assert list[..j'] == list;
        phase := AwaitClear(i);
        spawned := None;
      }
    }
  }

  /** The static _totalLevelCreeps that all spawners share. */
  class LevelCreepTotals {
    var totalLevelCreeps: int

    constructor ()
      ensures totalLevelCreeps == 0
    {
      totalLevelCreeps := 0;
    }

    /** Creeps of the level whose spawner is not a CreepSpawner. */
    static function OtherSpawned(creeps: seq<Creeps.Creep>): (n: nat)
      reads (set c | c in creeps)`spawner
      ensures n <= |creeps|
      decreases |creeps|
    {
      if creeps == [] then 0
      else
        var c := creeps[|creeps| - 1];
        OtherSpawned(creeps[..|creeps| - 1])
        + (if c.spawner.Some? && !c.spawner.value.isCreepSpawner then 1 else 0)
    }

    /** The creep totals of the spawners' wave lists, added up. */
    static function SpawnerTotals(spawners: seq<CreepSpawner>): int
    {
      if spawners == [] then 0
      else SpawnerTotals(spawners[..|spawners| - 1]) + TotalCreeps(spawners[|spawners| - 1].waveList)
    }

    /** GetLevelTotalCreeps over the creeps and spawners FindObjectsOfType
        returns: the fresh count, unless the cached total is larger. */
    method GetLevelTotalCreeps(creeps: seq<Creeps.Creep>, spawners: seq<CreepSpawner>) returns (total: int)
      modifies this
      ensures total == MaxInt(OtherSpawned(creeps) + SpawnerTotals(spawners), old(totalLevelCreeps))
      ensures totalLevelCreeps == total && total >= old(totalLevelCreeps)
    {
      var result := 0;
      var n := 0;
      while n < |creeps|
        invariant 0 <= n <= |creeps|
        invariant result == OtherSpawned(creeps[..n])
        modifies {}
      {
        var c := creeps[n];
        if c.spawner.Some? && !c.spawner.value.isCreepSpawner {
          result := result + 1;
        }
        n := n + 1;
        assert creeps[..n][..n - 1] == creeps[..n - 1];
      }
      assert creeps[..n] == creeps;
      var m := 0;
      while m < |spawners|
        invariant 0 <= m <= |spawners|
        invariant result == OtherSpawned(creeps) + SpawnerTotals(spawners[..m])
        modifies {}
      {
        var t := spawners[m].GetTotalCreeps();
        result := result + t;
        m := m + 1;
        assert spawners[..m][..m - 1] == spawners[..m - 1];
      }
      assert spawners[..m] == spawners;
      totalLevelCreeps := MaxInt(result, totalLevelCreeps);
      total := totalLevelCreeps;
    }
  }
}
