# immuneWars: a Dafny model of the game rules

immuneWars is a Unity tower-defence game. Creeps walk down a tree of path
nodes. Towers shoot missiles at the creeps in range. Missiles load a creep's
`CreepEffect` with pending damage, burn and slow, and the effect applies them
frame by frame. Killed and leaked creeps are reported to their `CreepSpawner`
and to the `Player`. The spawner counts waves. The player counts gold, health,
kills and misses, and decides whether the level is won or lost.

This project models the rules behind that, one module per source file:

| module | file | what it holds |
|---|---|---|
| `Creeps` | `creeps.dfy` | `Creep`, `CreepEffect` and `CreepTarget`. They refer to one another, so they share a module. |
| `Spawning` | `creep_spawner.dfy` | `CreepSpawner`, with the `SpawnWaves` coroutine as a state machine, and the level creep total. |
| `Towers` | `tower_behaviour.dfy` | `TowerBehaviour`: purging, sorting and choosing targets, and upgrade paths. |
| `Attributes` | `tower_attributes.dfy` | `TowerAttributes`, its `+` operator and the upgrade tooltip. |
| `Missiles` | `missile.dfy` | `Missile`: how a hit merges into a `CreepEffect`. |
| `AreaOfEffect` | `aoe_damage.dfy` | `AOEDamage`. |
| `Persistence` | `persistent_dictionary.dfy` | `PersistentDictionary<T>`, with its stream written as a sequence of tokens. |
| `TypedStore` | `typed_database.dfy` | `TypedDatabase`. |
| `Players` | `player.dfy` | `Player`: gold, health, win and lose, and what winning or losing saves. |
| `Overworld` | `level_data.dfy` | `LevelData`: unlock predicates and loading completion. |
| `StringUtils` | `string_utils.dfy` | `KeyFriendlyString`. |
| `Sorting`, `Common` | `sorting.dfy`, `common.dfy` | The key sort that `List.Sort` stands for, `CompareTo`, `Mathf.Min` and `Mathf.Max`. |

How the game's runtime appears in the model:

- Objects whose fields change in place are Dafny classes. Their methods say
  what they modify.
- `float` is `real`. `Time.deltaTime` is a parameter `dt`.
- `SendMessage` from a creep to the player or the spawner appends to the
  creep's outbox `sent`.
- Unity's `Destroy` and its "fake null" are a `destroyed` flag.
- These become nondeterministic choices:
  - `Random.Range`;
  - the unstable `List.Sort`;
  - the enumeration order of a `Dictionary`.
- `FindObjectsOfType`, the StateManager's current state and the level creep
  total are parameters.
- The StateManager's int and bool stores are the `PersistentDictionary`
  objects held by the `Player`.

Facts about the code that a reader of its comments might not expect:

- `CreepTarget.dangerTolerance` is documented as picking at random among
  paths whose danger values are within the tolerance (CreepTarget.cs:19),
  and `SortChildrenByDanger` as returning the first index out of tolerance
  (CreepTarget.cs:91). The method sorts the children ascending by danger
  before its scan, and its break test fires only when a child is more
  dangerous than the next one by more than the tolerance. With the sort
  ascending and the tolerance 1, that never happens: the scan always returns
  `Count` and every child stays eligible (`AscendingNeverOutOfTolerance`).
  Only a negative tolerance would make it fire (`NegativeToleranceCanBreak`).
- `List.Sort` is not a stable sort, so children or targets with equal keys
  may come out in any order. The model lets the sort choose any sorted
  permutation.
- The missile merges of `burnTime` and `slowFactor` keep the shorter positive
  value, so their result depends on the order of the hits when one value is
  0 (`BurnTimeMergeDependsOnOrder`, `SlowFactorMergeDependsOnOrder`).
- Upgrades are summed onto a fresh `TowerAttributes`, and that is not a neutral
  element. A tower with no upgrades bought still gets +5 range and +5 damage
  (`NoUpgradesStillAddDefaults`).
- `Creep.spawner` is null by default (Creep.cs:11), and creeps may come from
  somewhere other than a `CreepSpawner` (CreepSpawner.cs:120-127). Such a creep's
  `OnDeath` adds gold and reports the kill before `spawner.SendMessage`
  dereferences null (Creep.cs:200-202). The exception ends `OnDeath` there,
  so the creep is not destroyed and dies again at its next lethal delivery.
  Its `OnDespawn` fails at its first line (Creep.cs:213) and sends nothing.
  Every call of `OnApplyDamage` and `OnDespawn` arrives through
  `SendMessage`, and the model takes it that the engine logs an exception
  raised in a receiver and does not pass it on to the sender.

## Model

| member | source | states |
|---|---|---|
| Common.CompareTo | Assets/Scripts/Towers/TowerAttributes.cs:150-152 | The result is -1, 0 or 1, negative exactly when x < y and zero exactly when x = y. |
| Sorting.SortBy | Assets/Scripts/Creeps/CreepTarget.cs:96 | The result is sorted by the key and is a permutation of the input. |
| Sorting.InsertKeepsSorted | Assets/Scripts/Creeps/CreepTarget.cs:96 | Inserting into a key-sorted sequence keeps it sorted. |
| Sorting.SortedPermutationExists | Assets/Scripts/Towers/TowerBehaviour.cs:284-327 | Every list has a permutation sorted by any real key, so the modelled sort can always pick one. |
| StringUtils.ReplaceSpaces | Assets/Scripts/Misc/StringUtils.cs:15 | Same length. Each character is replaced by '_' if it is ' ' and kept otherwise. |
| StringUtils.ToLowerInvariant | Assets/Scripts/Misc/StringUtils.cs:15 | Same length. Each upper-case letter of the modelled ranges (ASCII, Latin-1, basic Greek, basic Cyrillic) becomes its lower-case letter, and every other character is kept. |
| StringUtils.KeyFriendlyCharwise | Assets/Scripts/Misc/StringUtils.cs:15 | KeyFriendlyString keeps the input's length. ' ' becomes '_', an upper-case letter of the modelled ranges becomes lower-case, and every other character is unchanged. |
| StringUtils.KeyFriendlyHasNoSpace | Assets/Scripts/Misc/StringUtils.cs:15 | A normalised key never contains ' '. |
| StringUtils.KeyFriendlyIdempotent | Assets/Scripts/Misc/StringUtils.cs:15 | Normalising twice is normalising once. |
| Attributes.PlusAddsNumericFields | Assets/Scripts/Towers/TowerAttributes.cs:105-116 | Plus, the `+` operator: each of the ten numeric fields of a + b is the field-wise sum. |
| Attributes.PlusOrsFlags | Assets/Scripts/Towers/TowerAttributes.cs:110-113 | applySlow and applyBurn of a + b are the OR of the operands' flags. |
| Attributes.PlusNameIsRhsThenLhs | Assets/Scripts/Towers/TowerAttributes.cs:104 | The name is b's name followed by a's, with a null name read as "". |
| Attributes.PlusDropsAreaOfEffect | Assets/Scripts/Towers/TowerAttributes.cs:87-102 | a + b never carries AOE, a description, a mesh or a material. |
| Attributes.DefaultIsNotIdentity | Assets/Scripts/Towers/TowerAttributes.cs:21-41 | Default, a fresh TowerAttributes: adding it on either side adds cost 1, range 5, damage 5, rate of fire 1 and missile speed 20. It never gives back the other operand. |
| Attributes.PlusCommutesExceptName | Assets/Scripts/Towers/TowerAttributes.cs:104-116 | a + b and b + a agree on everything but the name. |
| Attributes.PlusAssociative | Assets/Scripts/Towers/TowerAttributes.cs:104-116 | (a + b) + c equals a + (b + c), the name included. |
| Attributes.ColoredRichTextForOutcome | Assets/Scripts/Towers/TowerAttributes.cs:121-144 | The result is empty exactly when the outcome is 0. A negative outcome gives `<color=red>` + text + ` -</color>`, a positive one `<color=green>` + text + ` +</color>`, each followed by a newline exactly when one was asked for. |
| Attributes.UpgradeTooltipEmptyIffSameStats | Assets/Scripts/Towers/TowerAttributes.cs:146-155 | UpgradeTooltip: the tooltip is empty exactly when range, damage and rate of fire are all equal. |
| Attributes.UpgradeTooltipTrailingNewline | Assets/Scripts/Towers/TowerAttributes.cs:146-155 | The tooltip ends in a newline exactly when rate of fire is equal but range or damage differ, because the last line has no newline. |
| Missiles.MergeShorter | Assets/Scripts/Towers/Missile.cs:77 | The incoming value is taken if the current one is not positive. Otherwise the result is the smaller of the two. |
| Missiles.HitEffects | Assets/Scripts/Towers/Missile.cs:68-84 | Hit: a hit adds exactly the missile's damage and leaves burn or slow alone unless the missile carries them. It never lowers burnCount, burnDamage or slowTime. |
| Missiles.HitTwiceOnlyAddsDamage | Assets/Scripts/Towers/Missile.cs:71-84 | A second hit by the same attributes changes only the damage. |
| Missiles.BurnTimeMergeDependsOnOrder | Assets/Scripts/Towers/Missile.cs:77 | A positive burn time and then 0 gives 0. The other order gives the positive time. |
| Missiles.SlowFactorMergeDependsOnOrder | Assets/Scripts/Towers/Missile.cs:82 | The same order dependence for the slow factor. |
| Missiles.Missile.constructor | Assets/Scripts/Towers/TowerBehaviour.cs:394-401 | A fired missile holds the tower, target and attributes it is given, and is not destroyed. |
| Missiles.Missile.Update | Assets/Scripts/Towers/Missile.cs:33-58 | The missile destroys itself exactly when its tower is missing or destroyed, its attributes are missing or its target is missing or destroyed, and on arrival it drops its target. |
| Missiles.Missile.OnTriggerEnter | Assets/Scripts/Towers/Missile.cs:60-87 | An Enemy's effect becomes Hit(old effect, attributes), with a zeroed effect added first if there was none. The missile is destroyed after any entry. |
| AreaOfEffect.AfterEntries | Assets/Scripts/Towers/AOEDamage.cs:20-27 | Entries are not de-duplicated: n entries add exactly n times the area damage to the pending damage, so positive area damage entered at least once raises it. |
| AreaOfEffect.AreaDamage.constructor | Assets/Scripts/Towers/AOEDamage.cs:5 | The volume holds the attributes it is given. |
| AreaOfEffect.AreaDamage.OnTriggerEnter | Assets/Scripts/Towers/AOEDamage.cs:20-27 | An Enemy's pending damage rises by exactly the AOE damage and no other effect field changes. Other tags change nothing. |
| Creeps.DeathsAtMostDeliveries | Assets/Scripts/Creeps/Creep.cs:133-140 | OnDeath runs at most once per damage delivery. |
| Creeps.NoDeathsIffAlwaysPositive | Assets/Scripts/Creeps/Creep.cs:133-140 | No OnDeath runs exactly when health stays positive after every delivery. |
| Creeps.SumDeathsAppend | Assets/Scripts/Creeps/Creep.cs:133-140 | Damage and deaths over two batches of deliveries are the sums over each batch. |
| Creeps.DeathsPrefix | Assets/Scripts/Creeps/Creep.cs:133-140 | More deliveries never mean fewer deaths. |
| Creeps.DeathRepeatsWithoutGuard | Assets/Scripts/Creeps/Creep.cs:133-140 | A lethal hit followed by a non-negative burn runs OnDeath twice, because there is no once-only guard. |
| Creeps.OneDelivery | Assets/Scripts/Creeps/Creep.cs:133-140 | One delivery lowers health by its amount. The death's messages are sent once, and its destruction applies, exactly when health ends at or below 0. |
| Creeps.AfterDeliveriesAppend | Assets/Scripts/Creeps/CreepEffect.cs:81-111 | Delivering one batch and then another equals delivering their concatenation. |
| Creeps.Creep.constructor | Assets/Scripts/Creeps/Creep.cs:114-127 | A spawned creep takes the prefab's values. Its starting health is its health, and it has no target, effect or messages. |
| Creeps.Creep.OnApplyDamage | Assets/Scripts/Creeps/Creep.cs:133-140 | Health falls by the amount, unclamped. The death messages are sent exactly when health ends at or below 0. The creep is then destroyed only if it has a spawner. |
| Creeps.Creep.OnApplyHeal | Assets/Scripts/Creeps/Creep.cs:146-150 | Health becomes min(starting health, health + amount). |
| Creeps.Creep.Update | Assets/Scripts/Creeps/Creep.cs:167-176 | With heal on, a heal is applied and the timer reset once the elapsed time passes healTime. Otherwise nothing changes. |
| Creeps.Creep.OnApplyDamageOnce | Assets/Scripts/Creeps/Creep.cs:133-140 | OnApplyDamage is one step of AfterDeliveries. |
| Creeps.Creep.OnDeath | Assets/Scripts/Creeps/Creep.cs:188-208 | Sends AddGold(goldValue) and OnKillCreep. With a spawner it then sends OnCreepDeath and destroys the creep. Without one the null dereference stops it there and the creep is not destroyed. |
| Creeps.Creep.OnDespawn | Assets/Scripts/Creeps/Creep.cs:211-217 | With a spawner it sends OnCreepDespawn, RemoveHealth(leakDamage) and OnMissCreep, in that order, and destroys the creep. Without one it sends nothing and the creep is not destroyed. |
| Creeps.CreepEffect.constructor | Assets/Scripts/Creeps/CreepEffect.cs:8-72 | The field defaults: heal on every 1.5 s for -5 and no burn or slow. Start captures the creep's speed. |
| Creeps.CreepEffect.Deliveries | Assets/Scripts/Creeps/CreepEffect.cs:81-111 | One update makes at most three damage deliveries. |
| Creeps.CreepEffect.Update | Assets/Scripts/Creeps/CreepEffect.cs:75-128 | These hold after one update: <br>- creep health falls by the sum of the deliveries (pending damage, burn, heal); <br>- one OnDeath runs per lethal delivery, destroying the creep only if it has a spawner; <br>- pending damage is cleared; <br>- burnCount drops by at most 1 and never below 0; <br>- speed is slowed while slowTime > 0 and restored otherwise; <br>- the effect is destroyed exactly when no burn, heal or slow remained. |
| Creeps.CreepEffect.DeliverDamage | Assets/Scripts/Creeps/CreepEffect.cs:81-111 | The damage, burn and heal blocks deliver, in order, exactly Deliveries(dt). |
| Creeps.CreepEffect.FlushDamage | Assets/Scripts/Creeps/CreepEffect.cs:81-86 | Positive pending damage is delivered once and reset to 0. Non-positive damage is left alone. |
| Creeps.CreepEffect.TickBurn | Assets/Scripts/Creeps/CreepEffect.cs:88-99 | While burns remain, the timer runs. A due tick delivers burnDamage, spends one burn and resets the timer. |
| Creeps.CreepEffect.TickHeal | Assets/Scripts/Creeps/CreepEffect.cs:101-111 | With heal on, a due tick delivers healAmount through OnApplyDamage and resets the timer. |
| Creeps.FirstOutOfToleranceBounds | Assets/Scripts/Creeps/CreepTarget.cs:98-105 | The scan returns 0 for no children and a count in [1, Count] otherwise. |
| Creeps.AscendingNeverOutOfTolerance | Assets/Scripts/Creeps/CreepTarget.cs:96-105 | On ascending dangers with a tolerance of 0 or more, the scan returns Count: the break never fires. |
| Creeps.FirstOutOfToleranceIsFirstBreak | Assets/Scripts/Creeps/CreepTarget.cs:98-105 | Every adjacent pair before the returned count is within tolerance, and a count short of Count marks a pair that is not. |
| Creeps.NegativeToleranceCanBreak | Assets/Scripts/Creeps/CreepTarget.cs:98-105 | Any adjacent pair out of tolerance stops the scan at or before it. A negative tolerance puts an ascending pair, such as two equal dangers, out of tolerance. |
| Creeps.SortedBySnapshotIsAscending | Assets/Scripts/Creeps/CreepTarget.cs:96 | Sorting the children by their danger values leaves them ascending in danger. |
| Creeps.CreepTarget.constructor | Assets/Scripts/Creeps/CreepTarget.cs:26-36 | A node starts with its children and zero danger. |
| Creeps.CreepTarget.OnTriggerEnter | Assets/Scripts/Creeps/CreepTarget.cs:46-71 | A Tower raises danger by exactly 1. An Enemy creep at a leaf is despawned and keeps its target. An Enemy creep at an inner node gets a target among the children, which are permuted into ascending danger. Nothing else changes: only the danger value, the order of the children and that creep's target, outbox and destroyed flag may change. |
| Creeps.CreepTarget.OnTriggerExit | Assets/Scripts/Creeps/CreepTarget.cs:73-80 | A Tower leaving lowers danger by exactly 1. Other tags change nothing. |
| Creeps.CreepTarget.DirectToNextNode | Assets/Scripts/Creeps/CreepTarget.cs:82-88 | The creep's new target is one of the children. The children are permuted into ascending danger. |
| Creeps.CreepTarget.SortChildrenByDanger | Assets/Scripts/Creeps/CreepTarget.cs:94-106 | The children become an ascending permutation. The result is the scan's value, which equals Count. |
| Creeps.CreepTarget.SortChildren | Assets/Scripts/Creeps/CreepTarget.cs:96 | The children become a permutation in ascending danger. |
| Creeps.CreepTarget.GetNextNodeIndex | Assets/Scripts/Creeps/CreepTarget.cs:108-113 | The index is 0 with no children and a valid child index otherwise. |
| Spawning.ScheduleLength | Assets/Scripts/Creeps/CreepSpawner.cs:172-199 | With no negative counts, a wave spawns exactly as many creeps as the living count it starts with. |
| Spawning.ScheduleBlocks | Assets/Scripts/Creeps/CreepSpawner.cs:184-199 | Entry j spawns its number of creeps, or none when that number is not positive, as one block after the earlier entries' blocks. |
| Spawning.NegativeEntryUndercounts | Assets/Scripts/Creeps/CreepSpawner.cs:176-186 | An entry with a negative count, appended to any wave, spawns nothing but lowers the living count by its size. After non-negative entries the wave then spawns more creeps than it counts. |
| Spawning.NextSpawn | Assets/Scripts/Creeps/CreepSpawner.cs:184-199 | The next creep the nested loops spawn names an existing entry and a creep index within its count. |
| Spawning.NextSpawnNoneIffExhausted | Assets/Scripts/Creeps/CreepSpawner.cs:184-187 | Nothing more is spawned from entry j on exactly when every entry from j has a count of 0 or less. |
| Spawning.SkipSpent | Assets/Scripts/Creeps/CreepSpawner.cs:184-187 | The loops move past spent entries without changing the schedule or the next spawn. |
| Spawning.CreepSpawner.constructor | Assets/Scripts/Creeps/CreepSpawner.cs:88-107 | Start sets the remaining waves to the number of waves, with every flag and counter cleared. |
| Spawning.CreepSpawner.GetTotalCreeps | Assets/Scripts/Creeps/CreepSpawner.cs:144-155 | The sum of number over every entry of every wave. |
| Spawning.CreepSpawner.OnStartNextWave | Assets/Scripts/Creeps/CreepSpawner.cs:222-225 | Sets the start-next-wave flag. |
| Spawning.CreepSpawner.OnCreepDeath | Assets/Scripts/Creeps/CreepSpawner.cs:263-266 | Exactly what UpdateWaveCreepFlags does. |
| Spawning.CreepSpawner.OnCreepDespawn | Assets/Scripts/Creeps/CreepSpawner.cs:271-274 | Exactly what UpdateWaveCreepFlags does. |
| Spawning.CreepSpawner.UpdateWaveCreepFlags | Assets/Scripts/Creeps/CreepSpawner.cs:279-292 | Living creeps drop by exactly 1. At 0 or below the wave completes and remaining waves drop by 1, with no guard, so this repeats on every later call. Once remaining waves reach 0 or below, the level is complete and the player is asked to check its status. |
| Spawning.CreepSpawner.Step | Assets/Scripts/Creeps/CreepSpawner.cs:163-217 | One resumption of SpawnWaves moves between the waits as the coroutine does. A new wave sets the living count to the wave's total, clears waveComplete and startNextWave, and adds exactly 1 to currentWave. A spawned creep is fresh, points back to this spawner and targets a child node. |
| Spawning.CreepSpawner.OnLevelStart | Assets/Scripts/Creeps/CreepSpawner.cs:230-233 | Resets the shared level creep total to 0. |
| Spawning.CreepSpawner.StartWave | Assets/Scripts/Creeps/CreepSpawner.cs:170-183 | The wave loop's head does the following: <br>- sets the living count to the wave's total; <br>- clears waveComplete; <br>- adds 1 to currentWave; <br>- clears startNextWave; <br>- runs to the first spawn. |
| Spawning.CreepSpawner.OnWaveStart | Assets/Scripts/Creeps/CreepSpawner.cs:246-250 | Clears the start-next-wave flag. |
| Spawning.CreepSpawner.SpawnCreep | Assets/Scripts/Creeps/CreepSpawner.cs:192-196 | The new creep has the prefab's health, this spawner as its spawner, and a child node as its target. |
| Spawning.CreepSpawner.SpawnNext | Assets/Scripts/Creeps/CreepSpawner.cs:184-199 | Resumes the nested loops at the next creep of the schedule, or moves to the wave-clear wait. |
| Spawning.LevelCreepTotals.constructor | Assets/Scripts/Creeps/CreepSpawner.cs:109 | The shared total starts at 0. |
| Spawning.LevelCreepTotals.OtherSpawned | Assets/Scripts/Creeps/CreepSpawner.cs:120-127 | Counts creeps whose spawner is not a CreepSpawner. The count is at most the number of creeps. |
| Spawning.LevelCreepTotals.GetLevelTotalCreeps | Assets/Scripts/Creeps/CreepSpawner.cs:115-138 | The total is the maximum of the fresh count and the cached one. It never decreases between resets. |
| Towers.SortOrder | Assets/Scripts/Towers/TowerBehaviour.cs:51-54 | The result is ±1, negative exactly when sorting descending. |
| Towers.ComparerIsScaledKey | Assets/Scripts/Towers/TowerBehaviour.cs:284-327 | CompareTo times the sort order compares the keys multiplied by the order. |
| Towers.LiveExactlyTheLiving | Assets/Scripts/Towers/TowerBehaviour.cs:222-235 | Purging keeps no gone creep and keeps every live creep as often as it appeared. |
| Towers.LiveHasNoNull | Assets/Scripts/Towers/TowerBehaviour.cs:222-235 | A purged list holds no null. |
| Towers.LiveAppend | Assets/Scripts/Towers/TowerBehaviour.cs:222-235 | Purging distributes over concatenation, so the survivors keep their relative order. |
| Towers.RemoveFirst | Assets/Scripts/Towers/TowerBehaviour.cs:207 | List.Remove takes one occurrence out, or leaves the list unchanged if the creep is absent. |
| Towers.RemoveFirstSplits | Assets/Scripts/Towers/TowerBehaviour.cs:207 | It is the first occurrence that goes. Everything else stays in place. |
| Towers.SortedHeadIsLeast | Assets/Scripts/Towers/TowerBehaviour.cs:263-266 | The target, the head of the sorted list, has the least key. |
| Towers.UpgradeSumDamage | Assets/Scripts/Towers/TowerBehaviour.cs:120-127 | The upgrade sum's damage is the default 5 plus the damage of every bought level. |
| Towers.UpgradeSumBurns | Assets/Scripts/Towers/TowerBehaviour.cs:120-127 | The upgrade sum burns exactly when some bought level burns. |
| Towers.NoUpgradesStillAddDefaults | Assets/Scripts/Towers/TowerBehaviour.cs:120-127 | With nothing bought the sum is a default block. The composite therefore has +5 range and +5 damage. |
| Towers.TowerBehaviour.constructor | Assets/Scripts/Towers/TowerBehaviour.cs:333-360 | Empty inspector levels become -1 for every path. The range radius is the composite range, and the tower is not destroyed. |
| Towers.TowerBehaviour.ClearOldTargets | Assets/Scripts/Towers/TowerBehaviour.cs:222-235 | The targets become exactly the live ones, in order. |
| Towers.TowerBehaviour.SortTargets | Assets/Scripts/Towers/TowerBehaviour.cs:284-327 | The targets become a permutation sorted by the targeting mode's key, reversed when sorting descending. |
| Towers.TowerBehaviour.ObtainTarget | Assets/Scripts/Towers/TowerBehaviour.cs:240-267 | The targets become the live targets, sorted for the mode. The current target is their head. It is null exactly when no live target remains. |
| Towers.TowerBehaviour.SortAndTarget | Assets/Scripts/Towers/TowerBehaviour.cs:246-266 | The sort, then the head of the list, if any, as the target. |
| Towers.TowerBehaviour.ObtainTargetWeak | Assets/Scripts/Towers/TowerBehaviour.cs:272-275 | Nothing changes while the current target is alive. Otherwise it does what ObtainTarget does. |
| Towers.TowerBehaviour.OnRangeEnter | Assets/Scripts/Towers/TowerBehaviour.cs:186-196 | An Enemy is appended and the tower re-acquires its target. Other tags change nothing. |
| Towers.TowerBehaviour.OnRangeExit | Assets/Scripts/Towers/TowerBehaviour.cs:202-213 | An Enemy's first occurrence is removed, the target is cleared and re-acquired. Other tags change nothing. |
| Towers.TowerBehaviour.Upgrade | Assets/Scripts/Towers/TowerBehaviour.cs:71-99 | On an existing path the cost multiplier always rises by 1. The path's level rises by 1 exactly when CanUpgrade holds, and the other paths are unchanged. The new GetCurrentUpgrade is the old GetNextUpgrade. |
| Towers.TowerBehaviour.ApplyAttributes | Assets/Scripts/Towers/TowerBehaviour.cs:105-135 | The upgrade sum is rebuilt from a default block over every bought path, in path order. The range radius follows the composite, and mesh and material follow the current level when it has them. |
| Persistence.GetAfterSet | Assets/Scripts/Misc/PersistentDictionary.cs:30-40 | After a write the key is present and reads the new value. Other keys are unchanged. |
| Persistence.Flatten | Assets/Scripts/Misc/PersistentDictionary.cs:71-78 | Each record is written as two tokens. |
| Persistence.ReadRecords | Assets/Scripts/Misc/PersistentDictionary.cs:96-102 | The reader gets at most the header's count of records, and none for a non-positive count. |
| Persistence.ReadFlattened | Assets/Scripts/Misc/PersistentDictionary.cs:56-104 | Reading as many records as were written gives them back. |
| Persistence.ReadPastFlattened | Assets/Scripts/Misc/PersistentDictionary.cs:96-102 | Reading one record more than was written runs off the end of the stream. |
| Persistence.ApplyIsUnion | Assets/Scripts/Misc/PersistentDictionary.cs:97-102 | Storing the records one by one is a map union in which later records win. |
| Persistence.SavedCoversStore | Assets/Scripts/Misc/PersistentDictionary.cs:71-78 | The written records describe exactly the saved entries. |
| Persistence.CountedRoundTrip | Assets/Scripts/Misc/PersistentDictionary.cs:56-104 | With the record count as the header, reading into an empty store gives back exactly the saved entries. |
| Persistence.RewrittenKeyOverreads | Assets/Scripts/Misc/PersistentDictionary.cs:70 | A key saved twice writes one record under a header of 2, and reading it back runs off the end. |
| Persistence.ReadRecordsStep | Assets/Scripts/Misc/PersistentDictionary.cs:97-102 | One round of the reading loop either stops with the reader's error or reads one record and goes on. |
| Persistence.SavedSnoc | Assets/Scripts/Misc/PersistentDictionary.cs:71-78 | Visiting one more key adds its record exactly when it is saved. |
| Persistence.FlattenAppend | Assets/Scripts/Misc/PersistentDictionary.cs:71-78 | Writing records in two runs writes their concatenation. |
| Persistence.ApplySnoc | Assets/Scripts/Misc/PersistentDictionary.cs:101 | Storing one more record is one SetEntry(key, value, true). |
| Persistence.PersistentDictionary.constructor | Assets/Scripts/Misc/PersistentDictionary.cs:24-28 | A new store is empty with no writes counted. |
| Persistence.PersistentDictionary.SetEntry | Assets/Scripts/Misc/PersistentDictionary.cs:30-34 | The entry is stored or replaced. Writes are counted exactly when the entry is saved, replacements included. Afterwards HasEntry holds for the key and GetEntry reads the value. |
| Persistence.PersistentDictionary.GetEntry | Assets/Scripts/Misc/PersistentDictionary.cs:36-40 | Returns the stored value, or the default when the key is absent. |
| Persistence.PersistentDictionary.RemoveEntry | Assets/Scripts/Misc/PersistentDictionary.cs:42-49 | A present key is removed and one write uncounted, whatever its save flag. An absent key is a no-op. Afterwards HasEntry fails for the key and is unchanged for other keys. |
| Persistence.PersistentDictionary.Clear | Assets/Scripts/Misc/PersistentDictionary.cs:106-109 | Empties the store and keeps the write counter. |
| Persistence.PersistentDictionary.Serialize | Assets/Scripts/Misc/PersistentDictionary.cs:56-80 | An unsupported value type fails. Otherwise the output is the write counter followed by one record per saved entry, in the dictionary's order. |
| Persistence.PersistentDictionary.SerializeCounted | Assets/Scripts/Misc/PersistentDictionary.cs:70 | As Serialize, with the number of records as the header. |
| Persistence.PersistentDictionary.Deserialize | Assets/Scripts/Misc/PersistentDictionary.cs:82-104 | An unsupported type, a missing header or a bad header fails and changes nothing. Otherwise the header's count of records is read and each stored as a saved write. Records read before a failure stay stored. |
| Players.DifficultyKeyIsNotHealthKey | Assets/Scripts/Player/Player.cs:228-235 | The difficulty key of a level is never the global health key. |
| Players.AddClamped | Assets/Scripts/Player/Player.cs:358-375 | The new amount is min(current + amount, max). It reports true exactly when no clamping happened. |
| Players.Withdraw | Assets/Scripts/Player/Player.cs:382-398 | It succeeds exactly when amount ≤ current. Success subtracts, and failure leaves gold unchanged, so gold never goes negative by it. |
| Players.StatusOutcome | Assets/Scripts/Player/Player.cs:158-170 | Lose exactly when health ≤ 0 and not yet lost. Win exactly when health is positive, kills + misses reach the level total, and neither flag is set. Never anything once lost. |
| Players.WinWrites | Assets/Scripts/Player/Player.cs:194-211 | In game the level's normalised completion key reads true. On the overworld overworld_complete reads true. Only that key is added, and every other key keeps its value. In any other state nothing is written. |
| Players.LoseInts | Assets/Scripts/Player/Player.cs:216-246 | In game the global health drops by the difficulty plus one and nothing else changes. On the overworld the store is wiped. |
| Players.LoseBools | Assets/Scripts/Player/Player.cs:216-246 | In game the level's completion is written back unchanged. On the overworld the store is wiped. |
| Players.GoldStaysInRange | Assets/Scripts/Player/Player.cs:358-398 | Gold that starts in [0, maxGold] stays there under any sequence of non-negative AddGold and RemoveGold calls. |
| Players.FlagsAreOneShot | Assets/Scripts/Player/Player.cs:158-170 | Over any sequence of kill, miss and health-loss reports, a lost level is never won afterwards and neither flag is ever cleared. The counters grow by exactly the number of kill and miss reports. |
| Players.RepeatedLossCostsTheSame | Assets/Scripts/Player/Player.cs:228-235 | Two losses in game lower the global health by twice the difficulty plus one. |
| Players.Wrap32 | Assets/Scripts/Player/Player.cs:365 | The 32-bit two's-complement value, equal to x whenever x fits. |
| Players.AddClampedInt32 | Assets/Scripts/Player/Player.cs:358-375 | AddGold on 32-bit ints accepts exactly when the wrapped sum is at most maxGold. |
| Players.GoldWrapsAtIntMax | Assets/Scripts/Player/Player.cs:25 | With maxGold = int.MaxValue, adding 1 to full gold wraps to int.MinValue and reports success. The unbounded AddClamped clamps instead. |
| Players.Player.constructor | Assets/Scripts/Player/Player.cs:17-97 | The inspector values, with health and gold 0 and both flags and counters cleared. |
| Players.Player.Start | Assets/Scripts/Player/Player.cs:118 | Health starts full unless it was already set. |
| Players.Player.CurrentGold | Assets/Scripts/Player/Player.cs:32 | Returns maxGold with infinite gold and the stored gold otherwise. |
| Players.Player.AddGold | Assets/Scripts/Player/Player.cs:358-375 | With infinite gold it reports true and changes nothing. Otherwise it does what AddClamped does. |
| Players.Player.RemoveGold | Assets/Scripts/Player/Player.cs:382-398 | With infinite gold it reports true and changes nothing. Otherwise it does what Withdraw does. |
| Players.Player.AddHealth | Assets/Scripts/Player/Player.cs:328-340 | Health is clamped at the maximum. The result reports whether no clamping happened. |
| Players.Player.OnWin | Assets/Scripts/Player/Player.cs:194-211 | Sets the win flag. The bool store becomes WinWrites, with one counted write when something is written. |
| Players.Player.OnLose | Assets/Scripts/Player/Player.cs:216-246 | Sets the lose flag. The stores become LoseInts and LoseBools, with their write counts. |
| Players.Player.CheckStatus | Assets/Scripts/Player/Player.cs:158-170 | Runs OnLose, OnWin or nothing, as StatusOutcome says, with that outcome's effect on both stores. |
| Players.Player.RemoveHealth | Assets/Scripts/Player/Player.cs:346-351 | Health falls by the amount without a floor, then the status is checked. |
| Players.Player.OnKillCreep | Assets/Scripts/Player/Player.cs:251-256 | Kills rise by exactly 1, then the status is checked. |
| Players.Player.OnMissCreep | Assets/Scripts/Player/Player.cs:261-266 | Misses rise by exactly 1, then the status is checked. |
| Players.Player.OnLoadState | Assets/Scripts/Player/Player.cs:271-287 | On the overworld, the first load stores full health as the global health. Later loads take the global health as the current health. |
| Players.Player.ResetState | Assets/Scripts/Player/Player.cs:403-413 | Both flags are cleared, health is full, gold is the starting gold and both counters are 0. For a level of at least one creep, the status check then does nothing exactly when the maximum health is positive. |
| Players.Player.OnLoadSubState | Assets/Scripts/Player/Player.cs:299-303 | Records the level's name, then resets. |
| Overworld.LoadedCompletion | Assets/Scripts/Overworld/LevelData.cs:58 | A level loads as completed only if its key is stored. |
| Overworld.RawKeyIsNeverWritten | Assets/Scripts/Overworld/LevelData.cs:58 | The key the level reads is never the key the player writes. |
| Overworld.WinIsNeverLoaded | Assets/Scripts/Overworld/LevelData.cs:58 | As written, a win or loss recorded in game leaves the completion the overworld loads unchanged. |
| Overworld.WinIsLoadedWhenNormalised | Assets/Scripts/Player/Player.cs:205 | Under the normalised key, a won level loads as completed and stays completed after a later loss. |
| Overworld.LevelData.constructor | Assets/Scripts/Overworld/LevelData.cs:8-17 | A level starts incomplete, with its required levels. |
| Overworld.LevelData.Incomplete | Assets/Scripts/Overworld/LevelData.cs:38-52 | The result is never longer than the required levels. It holds exactly the incomplete ones, in order. |
| Overworld.LevelData.CanStartIffNothingIncomplete | Assets/Scripts/Overworld/LevelData.cs:22-52 | canStart holds exactly when incomplete is empty. |
| Overworld.LevelData.CanStart | Assets/Scripts/Overworld/LevelData.cs:22-33 | True exactly when every required level is completed, and so true for none. |
| Overworld.LevelData.GetIncomplete | Assets/Scripts/Overworld/LevelData.cs:38-52 | The required levels that are not completed, in order. |
| Overworld.LevelData.OnLoadState | Assets/Scripts/Overworld/LevelData.cs:54-61 | Completion is the stored bool under level + " complete", or false when absent. |
| Overworld.LevelData.OnLoadStateNormalised | Assets/Scripts/Overworld/LevelData.cs:58 | As OnLoadState, under the key the player writes. |
| TypedStore.InsertSorted | Assets/Scripts/Misc/TypedDatabase.cs:96-105 | Registering a type keeps the types in increasing order without duplicates. It adds the type and nothing else. |
| TypedStore.HoldsSnoc | Assets/Scripts/Misc/TypedDatabase.cs:151-159 | A key is held by one more table exactly when it was held before or that table holds it. |
| TypedStore.AppendKeys | Assets/Scripts/Misc/TypedDatabase.cs:56 | The keys of one table are appended: the result holds exactly the old keys and the table's keys, and its length is the sum of the two. |
| TypedStore.SizeSumAppend | Assets/Scripts/Misc/TypedDatabase.cs:28-39 | The count over two runs of types is the sum of their counts. |
| TypedStore.SizeSumUpdate | Assets/Scripts/Misc/TypedDatabase.cs:28-39 | Replacing one registered type's table changes the count by the change in that table's size. |
| TypedStore.SizeSumInsert | Assets/Scripts/Misc/TypedDatabase.cs:28-39 | Registering one more type adds its table's size. |
| TypedStore.SizeSumZero | Assets/Scripts/Misc/TypedDatabase.cs:28-39 | The count is 0 exactly when no table holds any key. |
| TypedStore.TypedDatabase.constructor | Assets/Scripts/Misc/TypedDatabase.cs:26 | The database starts with no types. |
| TypedStore.TypedDatabase.Add | Assets/Scripts/Misc/TypedDatabase.cs:89-106 | It throws exactly when the type already holds the key, and then nothing changes. Otherwise the type is registered if new, the entry added, and the count rises by 1. |
| TypedStore.TypedDatabase.AddByType | Assets/Scripts/Misc/TypedDatabase.cs:108-125 | It always throws. On a registered type without the key, the entry from the indexer's insert stays. |
| TypedStore.TypedDatabase.Clear | Assets/Scripts/Misc/TypedDatabase.cs:127-134 | Every type is removed and the count is 0. |
| TypedStore.TypedDatabase.ClearType | Assets/Scripts/Misc/TypedDatabase.cs:136-144 | The type's table is emptied and stays registered. The count drops by its size. |
| TypedStore.TypedDatabase.Count | Assets/Scripts/Misc/TypedDatabase.cs:28-39 | The sum of the table sizes. It is 0 exactly when no key is held. |
| TypedStore.TypedDatabase.Keys | Assets/Scripts/Misc/TypedDatabase.cs:49-60 | As many keys as Count. A key appears exactly when some table holds it. |
| TypedStore.TypedDatabase.ContainsKey | Assets/Scripts/Misc/TypedDatabase.cs:151-169 | True exactly when some registered type's table holds the key. |
| TypedStore.TypedDatabase.Remove | Assets/Scripts/Misc/TypedDatabase.cs:202-216 | The key leaves every table, no other key is lost, and the registered types are unchanged. |
| TypedStore.TypedDatabase.TryGetValue | Assets/Scripts/Misc/TypedDatabase.cs:218-234 | Returns the stored value exactly when both the type and the key are present. Otherwise it returns the default. |

## Left out

- Rendering, audio, UI widgets, health bars, gold-drop text, the debug keys and `Player.Update`'s display code. These are engine glue with no game rule in them.
- Missile homing (`RotateTowards`, `Translate`): arrival is a boolean parameter of `Missiles.Missile.Update`.
- `TowerBehaviour.Update`'s fire timer and missile spawning: float timing plus instantiation.
- `AOEDamage.Timeout`: a wall-clock wait.
- The tower registry (`NumTowers`, `Id`, `GetTowerByIndex`): a static list used only by the UI.
- `CreepSpawner.OnLevelEnd` and `OnWaveEnd` only toggle a button, so they are modelled as no-ops inside `Step`.
- The coroutine waits become explicit `Step` resumptions: a `WaitForSeconds` is one resumption.
- `Player.CheckGlobalStatus` is not modelled. It reads `LevelData.completedCount` and `LevelData.count`, which `LevelData` does not define.
- `ReturnToOverworld`, `ReloadCurrentLevel`, `ReturnToMainMenu`, `DisplayScoreScreen`, `ResetInteractables`, `DisableInteractables` and `OnUnloadSubState`'s UI reset are scene and UI calls.
- `StateManager` is not part of this model. Its typed getters and setters delegate to the two `PersistentDictionary` stores the player holds.
  - Its `GetInt` default is taken as 0.
  - `WipeData` is modelled as clearing the int and bool stores. Its clearing of the string and float stores is not modelled.
- `TypedDatabase.Serialize` and `Deserialize` rely on reflection over assembly-qualified type names.
- `TypedDatabase.ContainsValue`, `ContainsType`, `Types`, the indexer, `CopyTo` and the enumerator are not modelled. `ContainsType` and the indexer are used only inside `AddByType`.
- `database` is never initialised in the source. The model starts it empty.
- Types are opaque ordered identifiers. `System.Type` does not implement `IComparable`, so the `SortedDictionary<Type, …>` default comparer would throw as soon as a second type is added. The model orders types and does not capture that exception.
- Float rounding: floats are exact reals.
- StringUtils.ToLowerInvariant: only ASCII, Latin-1, basic Greek and basic Cyrillic upper-case letters are lowered. The case mappings of other scripts are not modelled.
- StringUtils.KeyFriendlyCharwise: states the lowering only for the letters `ToLowerInvariant` models.
- Creeps.Creep.OnDeath: the gold-drop text, the sound and the position updates are not modelled. With a null spawner the exception is taken to stop at the `SendMessage` that delivered the death, and not to reach the sender.
- C# `int` wrap-around is modelled only where it changes a rule (AddGold). Elsewhere integers are unbounded.
- `LevelData.completeRequired` entries are taken to be non-null.
- Players.AddClamped: unbounded integers, so `Player.AddGold` with `maxGold = int.MaxValue` clamps instead of wrapping. The wrap-around is modelled separately by `AddClampedInt32`.
- Players.Player.RemoveHealth: states the new health and flags. What the triggered status check writes to the stores is stated on `CheckStatus`.
- Players.Player.OnKillCreep: as for RemoveHealth, the store writes are stated on `CheckStatus`.
- Players.Player.OnMissCreep: as for RemoveHealth, the store writes are stated on `CheckStatus`.
- Towers.TowerBehaviour.destroyed: selling or destroying a tower (`SellSelectedTower` and `DestroySelectedTower` in the tower selection panel) is UI code and not modelled. The flag stands for the result of that `Destroy`, which `Missiles.Missile.Update` tests.
- Towers.TowerBehaviour.CanUpgrade: requires a path index within `upgradeLevels` whenever levels exist. The selection panel calls it for every upgrade button, and an index past the last path throws `ArgumentOutOfRangeException` at TowerBehaviour.cs:98. That throw is not modelled.
- Towers.TowerBehaviour.constructor: requires inspector levels, when given, to have one entry per upgrade path, each -1 or an index into its path. Start accepts any list. A mismatched list throws `ArgumentOutOfRangeException` later, on the first upgrade or attribute rebuild, and that throw is not modelled.
- Spawning.CreepSpawner.Step: requires the spawner's node to have at least one child. For a childless node `DirectToNextNode` indexes `children[0]` (CreepTarget.cs:87) and throws `ArgumentOutOfRangeException` at the first spawn, ending the coroutine. That throw is not modelled.
- Spawning.CreepSpawner.StartWave: the same childless-node requirement as `Step`, for the same throw.
- Spawning.CreepSpawner.SpawnCreep: the same childless-node requirement as `Step`. The excluded throw comes after the creep is instantiated and its spawner set.
- Spawning.CreepSpawner.SpawnNext: the same childless-node requirement as `Step`, for the same throw.
- Towers.TowerBehaviour.SortTargets: the distance key is a parameter, because positions are not modelled.
- Creeps.Creep.Update: the health-bar scale and colour are not modelled.

## Findings

| source | as written | input that shows it | evidently intended | confidence | as-written member | corrected member |
|---|---|---|---|---|---|---|
| Assets/Scripts/Overworld/LevelData.cs:58 | Completion is looked up under `level + " complete"`, but `Player.OnWin` stores it under `KeyFriendlyString(level + " complete")` (Player.cs:205). | Level "Level 1": the win is stored under "level_1_complete", and "Level 1 complete" is looked up. | Look up the normalised key, so that a won level loads as completed. | not executed | Overworld.WinIsNeverLoaded | Overworld.WinIsLoadedWhenNormalised |
| Assets/Scripts/Misc/PersistentDictionary.cs:70 | The stream header is the write counter, which counts every saved write, overwrites included, and is lowered by removals. It is not the number of records written. | Two saved writes to one key give a header of 2 and one record. StateManager.cs:431-434 reads all four stores from one stream, so the reader takes the next store's first record, and only the last store runs off the end. | Write the number of records, so that a store reads back its saved entries. | not executed | Persistence.RewrittenKeyOverreads | Persistence.CountedRoundTrip |
| Assets/Scripts/Player/Player.cs:365 | `currentGold + amount <= maxGold` is computed in 32-bit ints, with `maxGold = int.MaxValue` (line 25). | Gold int.MaxValue, AddGold(1): the sum wraps to int.MinValue, the test passes, and gold becomes int.MinValue. | Clamp at maxGold, so that gold stays in [0, maxGold]. | not executed | Players.GoldWrapsAtIntMax | Players.GoldStaysInRange |
