/** The records the quest-activity derivation reads: quests, their requirements and
    objectives, traders, and the per-game-mode settings of the player. */
module QuestTypes {

  datatype Option<T> = None | Some(value: T)

  /** What a JavaScript call does: return a value or throw. */
  datatype Outcome<T> = Return(value: T) | Throw(error: Thrown)

  /** The exceptions the derivation can raise. */
  datatype Thrown =
    // RangeError: the recursion through "active" prerequisites went deeper than the call stack allows
    | StackOverflow
    // TypeError: a level requirement names a trader that is not in the trader list
    | TraderNotFound(traderId: string)

  /** An objective; `description` stands for the fields that are copied through unchanged. */
  datatype Objective = Objective(id: string, description: string)

  /** A prerequisite: the quest `taskId` must be in one of the listed states. */
  datatype Requirement = Requirement(taskId: string, status: seq<string>)

  datatype TraderRequirement = TraderRequirement(requirementType: string, traderId: string, value: int)

  /** A quest. A falsy entry of `taskRequirements` or `objectives` is `None`. */
  datatype Quest = Quest(
    id: string,
    minPlayerLevel: int,
    factionName: string,
    taskRequirements: seq<Option<Requirement>>,
    traderRequirements: seq<TraderRequirement>,
    objectives: seq<Option<Objective>>)

  datatype Trader = Trader(id: string, normalizedName: string)

  /** The settings of one game mode. `objectivesCompleted` may be absent;
      `traderLevels` maps a trader's normalized name to the player's level with it. */
  datatype ModeSettings = ModeSettings(
    completedQuests: seq<string>,
    failedQuests: seq<string>,
    objectivesCompleted: Option<seq<string>>,
    useTarkovTracker: bool,
    playerLevel: int,
    pmcFaction: string,
    traderLevels: map<string, int>)

  /** All settings: the current game mode and the settings kept for each mode. */
  datatype Settings = Settings(gameMode: string, modes: map<string, ModeSettings>)

  /** `Array.prototype.find`: the first element satisfying `p`, if any. */
  function Find<T>(s: seq<T>, p: T -> bool): (r: Option<T>)
    ensures r.None? <==> forall i :: 0 <= i < |s| ==> !p(s[i])
    ensures r.Some? ==> exists i :: 0 <= i < |s| && s[i] == r.value && p(s[i]) && forall j :: 0 <= j < i ==> !p(s[j])
  {
    if s == [] then None
    else if p(s[0]) then Some(s[0])
    else
      var r := Find(s[1..], p);
      assert r.Some? ==> exists i :: 0 <= i < |s[1..]| && s[1..][i] == r.value && p(s[1..][i]) && forall j :: 0 <= j < i ==> !p(s[1..][j]);
      assert r.Some? ==> exists i :: 1 <= i < |s| && s[i] == r.value && p(s[i]) && forall j :: 0 <= j < i ==> !p(s[j]) by {
        if r.Some? {
          var i :| 0 <= i < |s[1..]| && s[1..][i] == r.value && p(s[1..][i]) && forall j :: 0 <= j < i ==> !p(s[1..][j]);
          assert forall j :: 0 <= j < i + 1 ==> !p(s[j]) by {
            forall j | 0 <= j < i + 1 ensures !p(s[j]) {
              if j > 0 { assert s[j] == s[1..][j - 1]; }
            }
          }
        }
      }
      r
  }
}
