/** The Player: health, gold, kill and miss counters, the one-shot win and
    lose flags, and what winning or losing writes to the persistent int and
    bool stores that the StateManager owns.

    UI objects (health bar, texts, the game-over and game-win dialogs) and
    the debug keys are not modelled. The level creep total that CheckStatus
    asks CreepSpawner for, and the StateManager's current state, are
    parameters. */
module Players {
  import opened StringUtils
  import Common
  import Persistence

  datatype GameState = None | MainMenu | Overworld | InGame

  /** What a status check does: nothing, OnLose or OnWin. */
  datatype Outcome = NoChange | Lose | Win

  type IntStore = map<string, Persistence.PersistentData<int>>
  type BoolStore = map<string, Persistence.PersistentData<bool>>

  const GlobalHealthKey: string := "player_global_health"
  const OverworldCompleteKey: string := "overworld_complete"

  /** The key under which a level's completion is saved. */
  function CompleteKey(level: string): string
  {
    KeyFriendlyString(level + " complete")
  }

  /** The key under which a level's difficulty is saved. */
  function DifficultyKey(level: string): string
  {
    KeyFriendlyString(level + " difficulty")
  }

  /** A level's difficulty key is never the global health key: the
      normalised key always ends in 'y'. */
  lemma DifficultyKeyIsNotHealthKey(level: string)
    ensures DifficultyKey(level) != GlobalHealthKey
  {
    var raw := level + " difficulty";
    KeyFriendlyCharwise(raw);
    if |DifficultyKey(level)| == |GlobalHealthKey| {
      assert raw[|raw| - 1] == 'y';
      assert DifficultyKey(level)[|raw| - 1] == 'y';
      assert GlobalHealthKey[|raw| - 1] == 'h';
    }
  }

  /** AddGold and AddHealth: add when the total stays within the maximum
      (true), otherwise set to the maximum (false). */
  function AddClamped(current: int, amount: int, max: int): (r: (int, bool))
    ensures r.0 == Common.MinInt(current + amount, max)
    ensures r.1 <==> current + amount <= max
    ensures 0 <= amount && current <= max ==> current <= r.0
  {
    if current + amount <= max then (current + amount, true) else (max, false)
  }

  /** RemoveGold: subtract when the result is not negative (true), otherwise
      leave the amount unchanged (false). */
  function Withdraw(current: int, amount: int): (r: (int, bool))
    ensures r.1 <==> amount <= current
    ensures r.0 >= 0 || r.0 == current
    ensures r.0 + (if r.1 then amount else 0) == current
  {
    if current - amount >= 0 then (current - amount, true) else (current, false)
  }

  /** CheckStatus: lose when out of health and not yet lost; otherwise win
      when every creep of the level was killed or missed and neither flag is set. */
  function StatusOutcome(health: int, kills: int, misses: int, levelTotal: int, won: bool, lost: bool): (o: Outcome)
    ensures o == Lose <==> health <= 0 && !lost
    ensures o == Win <==> 0 < health && levelTotal <= kills + misses && !won && !lost
    ensures lost ==> o == NoChange
  {
    if health <= 0 && !lost then Lose
    else if kills + misses >= levelTotal && !lost && !won then Win
    else NoChange
  }

  /** The bool store after OnWin. */
  function WinWrites(b: BoolStore, level: string, state: GameState): (r: BoolStore)
    ensures state == InGame ==> Persistence.Get(r, CompleteKey(level), false)
    ensures state == Overworld ==> Persistence.Get(r, OverworldCompleteKey, false)
    ensures state == InGame || state == Overworld ==> r.Keys >= b.Keys
    ensures state == InGame ==> forall k :: k in b && k != CompleteKey(level) ==> r[k] == b[k]
    ensures state == Overworld ==> forall k :: k in b && k != OverworldCompleteKey ==> r[k] == b[k]
    ensures state == InGame ==> r.Keys == b.Keys + {CompleteKey(level)}
    ensures state == Overworld ==> r.Keys == b.Keys + {OverworldCompleteKey}
    ensures state != InGame && state != Overworld ==> r == b
  {
    match state
    case InGame => b[CompleteKey(level) := Persistence.PersistentData(true, true)]
    case Overworld => b[OverworldCompleteKey := Persistence.PersistentData(true, true)]
    case _ => b
  }

  /** The int store after OnLose: in game the global health drops by the
      level's difficulty plus one; on the overworld every entry is wiped. */
  function LoseInts(ints: IntStore, level: string, state: GameState): (r: IntStore)
    ensures state == InGame ==>
      Persistence.Get(r, GlobalHealthKey, 0)
        == Persistence.Get(ints, GlobalHealthKey, 0) - (Persistence.Get(ints, DifficultyKey(level), 0) + 1)
      && Persistence.Get(r, DifficultyKey(level), 0) == Persistence.Get(ints, DifficultyKey(level), 0)
      && r.Keys == ints.Keys + {GlobalHealthKey}
      && forall k :: k in ints && k != GlobalHealthKey ==> r[k] == ints[k]
    ensures state == Overworld ==> r == map[]
    ensures state != InGame && state != Overworld ==> r == ints
  {
    match state
    case InGame =>
      DifficultyKeyIsNotHealthKey(level);
      var difficulty := Persistence.Get(ints, DifficultyKey(level), 0) + 1;
      var health := Persistence.Get(ints, GlobalHealthKey, 0);
      ints[GlobalHealthKey := Persistence.PersistentData(health - difficulty, true)]
    case Overworld => map[]
    case _ => ints
  }

  /** The bool store after OnLose: in game the level's completion is written
      back unchanged (so it is present from then on); on the overworld every
      entry is wiped. */
  function LoseBools(b: BoolStore, level: string, state: GameState): (r: BoolStore)
    ensures state == InGame ==>
      Persistence.Get(r, CompleteKey(level), false) == Persistence.Get(b, CompleteKey(level), false)
      && r.Keys == b.Keys + {CompleteKey(level)}
      && forall k :: k in b ==> r[k].value == b[k].value
    ensures state == Overworld ==> r == map[]
    ensures state != InGame && state != Overworld ==> r == b
  {
    match state
    case InGame =>
      var done := Persistence.Get(b, CompleteKey(level), false);
      b[CompleteKey(level) := Persistence.PersistentData(done, true)]
    case Overworld => map[]
    case _ => b
  }

  /** The store writes OnWin or OnLose count: one per store in game, one
      bool write on an overworld win, none otherwise. */
  function WinWriteCount(state: GameState): nat
  {
    if state == InGame || state == Overworld then 1 else 0
  }

  function LoseWriteCount(state: GameState): nat
  {
    if state == InGame then 1 else 0
  }

  /** A sequence of gold changes: AddGold or RemoveGold. */
  datatype GoldChange = Earn(amount: int) | Spend(amount: int)

  /** The gold after the changes, in order, without infinite gold. */
  function GoldAfter(gold: int, maxGold: int, changes: seq<GoldChange>): int
    decreases |changes|
  {
    if changes == [] then gold
    else
      var next := match changes[0]
        case Earn(n) => AddClamped(gold, n, maxGold).0
        case Spend(n) => Withdraw(gold, n).0;
      GoldAfter(next, maxGold, changes[1..])
  }

  /** Gold that starts between 0 and the maximum stays there under any
      sequence of non-negative earnings and spendings. */
  lemma {:induction false} GoldStaysInRange(gold: int, maxGold: int, changes: seq<GoldChange>)
    requires 0 <= gold <= maxGold
    requires forall i :: 0 <= i < |changes| ==> changes[i].amount >= 0
    ensures 0 <= GoldAfter(gold, maxGold, changes) <= maxGold
    decreases |changes|
  {
    if changes != [] {
      var next := match changes[0]
        case Earn(n) => AddClamped(gold, n, maxGold).0
        case Spend(n) => Withdraw(gold, n).0;
      GoldStaysInRange(next, maxGold, changes[1..]);
    }
  }

  /** The in-game score a sequence of creep reports leaves: kills, misses,
      health, and the two flags, with a status check after each report. */
  datatype Score = Score(health: int, kills: int, misses: int, won: bool, lost: bool)

  datatype Report = Killed | Missed | Leaked(damage: int)

  function AfterCheck(s: Score, levelTotal: int): Score
  {
    match StatusOutcome(s.health, s.kills, s.misses, levelTotal, s.won, s.lost)
    case NoChange => s
    case Lose => s.(lost := true)
    case Win => s.(won := true)
  }

  /** OnKillCreep, OnMissCreep and RemoveHealth each change one counter
      and then check the status. */
  function AfterReport(s: Score, r: Report, levelTotal: int): Score
  {
    match r
    case Killed => AfterCheck(s.(kills := s.kills + 1), levelTotal)
    case Missed => AfterCheck(s.(misses := s.misses + 1), levelTotal)
    case Leaked(d) => AfterCheck(s.(health := s.health - d), levelTotal)
  }

  function AfterReports(s: Score, rs: seq<Report>, levelTotal: int): Score
    decreases |rs|
  {
    if rs == [] then s else AfterReports(AfterReport(s, rs[0], levelTotal), rs[1..], levelTotal)
  }

  function CountOf(rs: seq<Report>, r: Report): nat
  {
    if rs == [] then 0 else (if rs[0] == r then 1 else 0) + CountOf(rs[1..], r)
  }

  /** Once lost, a level is never won afterwards, and a level is lost or won
      at most once: the flags only go from false to true. The counters count
      exactly the kill and miss reports. */
  lemma {:induction false} FlagsAreOneShot(s: Score, rs: seq<Report>, levelTotal: int)
    ensures var t := AfterReports(s, rs, levelTotal);
      (s.lost ==> t.lost && t.won == s.won)
      && (s.won ==> t.won) && (s.lost ==> t.lost)
      && t.kills == s.kills + CountOf(rs, Killed)
      && t.misses == s.misses + CountOf(rs, Missed)
    decreases |rs|
  {
    if rs != [] {
      FlagsAreOneShot(AfterReport(s, rs[0], levelTotal), rs[1..], levelTotal);
    }
  }

  /** Losing in game twice costs the difficulty plus one each time: the
      difficulty entry is untouched by the first loss. */
  lemma RepeatedLossCostsTheSame(ints: IntStore, level: string)
    ensures var once := LoseInts(ints, level, InGame);
      var d := Persistence.Get(ints, DifficultyKey(level), 0) + 1;
      Persistence.Get(LoseInts(once, level, InGame), GlobalHealthKey, 0)
        == Persistence.Get(ints, GlobalHealthKey, 0) - 2 * d
  {
  }

  const Int32Min: int := -0x8000_0000
  const Int32Max: int := 0x7FFF_FFFF

  /** The 32-bit two's complement value of x. */
  function Wrap32(x: int): (r: int)
    ensures Int32Min <= r <= Int32Max
    ensures Int32Min <= x <= Int32Max ==> r == x
  {
    (x - Int32Min) % 0x1_0000_0000 + Int32Min
  }

  /** AddGold as compiled: the sum and the stored gold are 32-bit ints. */
  function AddClampedInt32(current: int, amount: int, max: int): (r: (int, bool))
    requires Int32Min <= current <= Int32Max && Int32Min <= amount <= Int32Max
    ensures r.1 <==> Wrap32(current + amount) <= max
  {
    if Wrap32(current + amount) <= max then (Wrap32(current + amount), true) else (max, false)
  }

  /** With the default maxGold of int.MaxValue the 32-bit comparison never
      fails, so gold at the maximum wraps to the most negative int and the
      call reports success; the unbounded AddClamped stays at the maximum. */
  lemma GoldWrapsAtIntMax()
    ensures AddClampedInt32(Int32Max, 1, Int32Max) == (Int32Min, true)
    ensures AddClamped(Int32Max, 1, Int32Max) == (Int32Max, false)
  {
  }

  class Player {
    var maxHealth: int
    var currentHealth: int
    var maxGold: int
    var startingGold: int
    var gold: int
    var infiniteGold: bool
    var winFlag: bool
    var loseFlag: bool
    var totalKills: int
    var totalMisses: int
    var currentLevel: string
    /** The StateManager's persistent int and bool stores. */
    const ints: Persistence.PersistentDictionary<int>
    const bools: Persistence.PersistentDictionary<bool>

    /** The inspector values; health and gold start at 0 until Start and ResetState. */
    constructor (ints: Persistence.PersistentDictionary<int>, bools: Persistence.PersistentDictionary<bool>,
                 maxHealth: int, maxGold: int, startingGold: int, infiniteGold: bool)
      ensures this.ints == ints && this.bools == bools
      ensures this.maxHealth == maxHealth && this.maxGold == maxGold
      ensures this.startingGold == startingGold && this.infiniteGold == infiniteGold
      ensures currentHealth == 0 && gold == 0 && !winFlag && !loseFlag
      ensures totalKills == 0 && totalMisses == 0 && currentLevel == ""
    {
      this.ints := ints;
      this.bools := bools;
      this.maxHealth := maxHealth;
      this.maxGold := maxGold;
      this.startingGold := startingGold;
      this.infiniteGold := infiniteGold;
      currentHealth := 0;
      gold := 0;
      winFlag := false;
      loseFlag := false;
      totalKills := 0;
      totalMisses := 0;
      currentLevel := "";
    }

    /** Start: health starts full unless it was already set. */
    method Start()
      modifies this`currentHealth
      ensures currentHealth == if old(currentHealth) == 0 then maxHealth else old(currentHealth)
    {
      if currentHealth == 0 {
        currentHealth := maxHealth;
      }
    }

    /** The gold shown and spent: the maximum with infinite gold. */
    function CurrentGold(): (r: int)
      reads this`infiniteGold, this`maxGold, this`gold
      ensures infiniteGold ==> r == maxGold
      ensures !infiniteGold ==> r == gold
    {
      if infiniteGold then maxGold else gold
    }

    method AddGold(amount: int) returns (ok: bool)
      modifies this`gold
      ensures infiniteGold ==> ok && gold == old(gold)
      ensures !infiniteGold ==> (gold, ok) == AddClamped(old(gold), amount, maxGold)
    {
      if infiniteGold {
        return true;
      }
      if CurrentGold() + amount <= maxGold {
        gold := gold + amount;
        ok := true;
      } else {
        gold := maxGold;
        ok := false;
      }
    }

    method RemoveGold(amount: int) returns (ok: bool)
      modifies this`gold
      ensures infiniteGold ==> ok && gold == old(gold)
      ensures !infiniteGold ==> (gold, ok) == Withdraw(old(gold), amount)
    {
      if infiniteGold {
        return true;
      }
      if CurrentGold() - amount >= 0 {
        gold := gold - amount;
        ok := true;
      } else {
        ok := false;
      }
    }

    method AddHealth(amount: int) returns (ok: bool)
      modifies this`currentHealth
      ensures (currentHealth, ok) == AddClamped(old(currentHealth), amount, maxHealth)
    {
      if currentHealth + amount <= maxHealth {
        currentHealth := currentHealth + amount;
        ok := true;
      } else {
        currentHealth := maxHealth;
        ok := false;
      }
    }

    /** Sets the win flag and records the win in the bool store. */
    method OnWin(state: GameState)
      modifies this`winFlag, bools`dictionary, bools`writeCount
      ensures winFlag
      ensures bools.dictionary == WinWrites(old(bools.dictionary), currentLevel, state)
      ensures bools.writeCount == old(bools.writeCount) + WinWriteCount(state)
    {
      winFlag := true;
      if state == InGame {
        bools.SetEntry(CompleteKey(currentLevel), true, true);
      } else if state == Overworld {
        bools.SetEntry(OverworldCompleteKey, true, true);
      }
    }

    /** Sets the lose flag; in game charges the global health, on the
        overworld wipes the stores. */
    method OnLose(state: GameState)
      modifies this`loseFlag, ints`dictionary, ints`writeCount, bools`dictionary, bools`writeCount
      ensures loseFlag
      ensures ints.dictionary == LoseInts(old(ints.dictionary), currentLevel, state)
      ensures bools.dictionary == LoseBools(old(bools.dictionary), currentLevel, state)
      ensures ints.writeCount == old(ints.writeCount) + LoseWriteCount(state)
      ensures bools.writeCount == old(bools.writeCount) + LoseWriteCount(state)
    {
      loseFlag := true;
      if state == InGame {
        var levelDifficulty := ints.GetEntry(DifficultyKey(currentLevel), 0) + 1;
        var currentGlobalHealth := ints.GetEntry(GlobalHealthKey, 0);
        ints.SetEntry(GlobalHealthKey, currentGlobalHealth - levelDifficulty, true);
        var isLevelAlreadyCompleted := bools.GetEntry(CompleteKey(currentLevel), false);
        bools.SetEntry(CompleteKey(currentLevel), isLevelAlreadyCompleted, true);
      } else if state == Overworld {
        ints.Clear();
        bools.Clear();
      }
    }

    /** Loses, wins or does nothing as StatusOutcome says. */
    method CheckStatus(levelTotal: int, state: GameState)
      modifies this`winFlag, this`loseFlag, ints`dictionary, ints`writeCount, bools`dictionary, bools`writeCount
      ensures var o := StatusOutcome(currentHealth, totalKills, totalMisses, levelTotal, old(winFlag), old(loseFlag));
        && winFlag == (old(winFlag) || o == Win)
        && loseFlag == (old(loseFlag) || o == Lose)
        && ints.dictionary == (if o == Lose then LoseInts(old(ints.dictionary), currentLevel, state) else old(ints.dictionary))
        && ints.writeCount == old(ints.writeCount) + (if o == Lose then LoseWriteCount(state) else 0)
        && bools.dictionary == (if o == Lose then LoseBools(old(bools.dictionary), currentLevel, state)
                                else if o == Win then WinWrites(old(bools.dictionary), currentLevel, state)
                                else old(bools.dictionary))
        && bools.writeCount == old(bools.writeCount)
             + (if o == Lose then LoseWriteCount(state) else if o == Win then WinWriteCount(state) else 0)
    {
      if currentHealth <= 0 && loseFlag == false {
        OnLose(state);
      } else if totalKills + totalMisses >= levelTotal && loseFlag == false && winFlag == false {
        OnWin(state);
      }
    }

    /** Removes health without a floor, then checks the status. */
    method RemoveHealth(amount: int, levelTotal: int, state: GameState)
      modifies this`currentHealth, this`winFlag, this`loseFlag
      modifies ints`dictionary, ints`writeCount, bools`dictionary, bools`writeCount
      ensures currentHealth == old(currentHealth) - amount
      ensures var o := StatusOutcome(currentHealth, totalKills, totalMisses, levelTotal, old(winFlag), old(loseFlag));
        winFlag == (old(winFlag) || o == Win) && loseFlag == (old(loseFlag) || o == Lose)
    {
      currentHealth := currentHealth - amount;
      CheckStatus(levelTotal, state);
    }

    method OnKillCreep(levelTotal: int, state: GameState)
      modifies this`totalKills, this`winFlag, this`loseFlag
      modifies ints`dictionary, ints`writeCount, bools`dictionary, bools`writeCount
      ensures totalKills == old(totalKills) + 1
      ensures var o := StatusOutcome(currentHealth, totalKills, totalMisses, levelTotal, old(winFlag), old(loseFlag));
        winFlag == (old(winFlag) || o == Win) && loseFlag == (old(loseFlag) || o == Lose)
    {
      totalKills := totalKills + 1;
      CheckStatus(levelTotal, state);
    }

    method OnMissCreep(levelTotal: int, state: GameState)
      modifies this`totalMisses, this`winFlag, this`loseFlag
      modifies ints`dictionary, ints`writeCount, bools`dictionary, bools`writeCount
      ensures totalMisses == old(totalMisses) + 1
      ensures var o := StatusOutcome(currentHealth, totalKills, totalMisses, levelTotal, old(winFlag), old(loseFlag));
        winFlag == (old(winFlag) || o == Win) && loseFlag == (old(loseFlag) || o == Lose)
    {
      totalMisses := totalMisses + 1;
      CheckStatus(levelTotal, state);
    }

    /** On the overworld: store the maximum as the global health the first
        time, afterwards take the stored global health as the current health. */
    method OnLoadState(state: GameState)
      modifies this`currentHealth, ints`dictionary, ints`writeCount
      ensures state == Overworld && GlobalHealthKey !in old(ints.dictionary) ==>
        ints.dictionary == old(ints.dictionary)[GlobalHealthKey := Persistence.PersistentData(maxHealth, true)]
        && ints.writeCount == old(ints.writeCount) + 1 && currentHealth == old(currentHealth)
      ensures state == Overworld && GlobalHealthKey in old(ints.dictionary) ==>
        currentHealth == old(ints.dictionary)[GlobalHealthKey].value
        && ints.dictionary == old(ints.dictionary) && ints.writeCount == old(ints.writeCount)
      ensures state != Overworld ==>
        currentHealth == old(currentHealth)
        && ints.dictionary == old(ints.dictionary) && ints.writeCount == old(ints.writeCount)
    {
      if state == Overworld {
        if !ints.HasEntry(GlobalHealthKey) {
          ints.SetEntry(GlobalHealthKey, maxHealth, true);
        } else {
          currentHealth := ints.GetEntry(GlobalHealthKey, maxHealth);
        }
      }
    }

    /** Clears both flags, fills health, restores the starting gold and
        zeroes both counters. */
    method ResetState()
      modifies this`winFlag, this`loseFlag, this`currentHealth, this`gold, this`totalKills, this`totalMisses
      ensures !winFlag && !loseFlag
      ensures currentHealth == maxHealth && gold == startingGold
      ensures totalKills == 0 && totalMisses == 0
      ensures StatusOutcome(currentHealth, totalKills, totalMisses, 1, winFlag, loseFlag) == NoChange
        <==> 0 < maxHealth
    {
      winFlag := false;
      loseFlag := false;
      currentHealth := maxHealth;
      gold := startingGold;
      totalKills := 0;
      totalMisses := 0;
    }

    /** Entering a level: remember its name and reset. */
    method OnLoadSubState(subState: string)
      modifies this`currentLevel, this`winFlag, this`loseFlag, this`currentHealth, this`gold
      modifies this`totalKills, this`totalMisses
      ensures currentLevel == subState
      ensures !winFlag && !loseFlag && currentHealth == maxHealth && gold == startingGold
      ensures totalKills == 0 && totalMisses == 0
    {
      currentLevel := subState;
      ResetState();
    }
  }
}
