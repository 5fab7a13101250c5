/** LevelData: an overworld level, whether it was completed, and the levels
    that must be completed before it can be started. */
module Overworld {
  import opened StringUtils
  import Persistence
  import Players

  /** A level's completion as a load finds it under the given key: the
      stored bool when present, otherwise false. */
  function LoadedCompletion(b: Players.BoolStore, key: string): (r: bool)
    ensures r ==> key in b
  {
    key in b && b[key].value
  }

  /** The key LevelData.OnLoadState looks up: the level name and " complete",
      not normalised. */
  function RawCompleteKey(level: string): string
  {
    level + " complete"
  }

  /** The key the reader looks up is never the key the Player writes: the
      raw key holds a space and the normalised one does not. */
  lemma RawKeyIsNeverWritten(level: string)
    ensures RawCompleteKey(level) != Players.CompleteKey(level)
  {
    var raw := RawCompleteKey(level);
    KeyFriendlyHasNoSpace(raw);
    assert raw[|level|] == ' ';
  }

  /** As written, a win (or a loss) recorded by the Player leaves the
      completion the overworld loads exactly as it was: a level whose raw key
      was never stored stays incomplete whatever happens in game. */
  lemma WinIsNeverLoaded(b: Players.BoolStore, level: string)
    ensures LoadedCompletion(Players.WinWrites(b, level, Players.InGame), RawCompleteKey(level))
         == LoadedCompletion(b, RawCompleteKey(level))
    ensures LoadedCompletion(Players.LoseBools(b, level, Players.InGame), RawCompleteKey(level))
         == LoadedCompletion(b, RawCompleteKey(level))
  {
    RawKeyIsNeverWritten(level);
  }

  /** Looking up the normalised key, a level won in game loads as
      completed, and a later loss of the same level keeps it completed. */
  lemma WinIsLoadedWhenNormalised(b: Players.BoolStore, level: string)
    ensures LoadedCompletion(Players.WinWrites(b, level, Players.InGame), Players.CompleteKey(level))
    ensures LoadedCompletion(
      Players.LoseBools(Players.WinWrites(b, level, Players.InGame), level, Players.InGame),
      Players.CompleteKey(level))
  {
  }

  class LevelData {
    const level: string
    const completeRequired: seq<LevelData>
    var completed: bool

    constructor (level: string, completeRequired: seq<LevelData>)
      ensures this.level == level && this.completeRequired == completeRequired && !completed
    {
      this.level := level;
      this.completeRequired := completeRequired;
      completed := false;
    }

    /** Every one of the levels is completed. */
    static predicate AllCompleted(levels: seq<LevelData>)
      reads (set l | l in levels)`completed
    {
      forall i :: 0 <= i < |levels| ==> levels[i].completed
    }

    /** The levels that are not completed, in their order. */
    static function Incomplete(levels: seq<LevelData>): (r: seq<LevelData>)
      reads (set l | l in levels)`completed
      ensures |r| <= |levels|
      ensures forall i :: 0 <= i < |r| ==> r[i] in levels && !r[i].completed
      ensures forall i :: 0 <= i < |levels| && !levels[i].completed ==> levels[i] in r
      decreases |levels|
    {
      if levels == [] then []
      else
        var init := levels[..|levels| - 1];
        var last := levels[|levels| - 1];
        Incomplete(init) + (if last.completed then [] else [last])
    }

    /** A level can be started exactly when none of its required levels is
        incomplete. */
    static lemma CanStartIffNothingIncomplete(levels: seq<LevelData>)
      ensures AllCompleted(levels) <==> Incomplete(levels) == []
    {
      if !AllCompleted(levels) {
        var i :| 0 <= i < |levels| && !levels[i].completed;
        assert levels[i] in Incomplete(levels);
      }
    }

    /** canStart: every required level is completed (true for none). */
    method CanStart() returns (res: bool)
      ensures res <==> AllCompleted(completeRequired)
    {
      res := true;
      var i := 0;
      while i < |completeRequired|
        invariant 0 <= i <= |completeRequired|
        invariant res <==> AllCompleted(completeRequired[..i])
      {
        res := res && completeRequired[i].completed;
        i := i + 1;
      }
      assert completeRequired[..i] == completeRequired;
    }

    /** incomplete: the required levels that are not completed, in order. */
    method GetIncomplete() returns (res: seq<LevelData>)
      ensures res == Incomplete(completeRequired)
    {
      res := [];
      var i := 0;
      while i < |completeRequired|
        invariant 0 <= i <= |completeRequired|
        invariant res == Incomplete(completeRequired[..i])
      {
        assert completeRequired[..i + 1][..i] == completeRequired[..i];
        if completeRequired[i].completed == false {
          res := res + [completeRequired[i]];
        }
        i := i + 1;
      }
      assert completeRequired[..i] == completeRequired;
    }

    /** OnLoadState as written: the completion stored under the raw key. */
    method OnLoadState(bools: Persistence.PersistentDictionary<bool>)
      modifies this`completed
      ensures completed == LoadedCompletion(bools.dictionary, RawCompleteKey(level))
    {
      completed := if bools.HasEntry(level + " complete") then bools.GetEntry(level + " complete", false) else false;
    }

    /** OnLoadState looking up the key the Player writes. */
    method OnLoadStateNormalised(bools: Persistence.PersistentDictionary<bool>)
      modifies this`completed
      ensures completed == LoadedCompletion(bools.dictionary, Players.CompleteKey(level))
    {
      var key := KeyFriendlyString(level + " complete");
      completed := if bools.HasEntry(key) then bools.GetEntry(key, false) else false;
    }
  }
}
