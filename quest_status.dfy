/** The `questStatus` closures of the quest selector: whether a quest is complete,
    failed or active for the current game mode. `Active` and the gate functions
    below it are the specification; `ComputeActive` is the loop-based evaluation
    of the source, proved to agree with it. */
module QuestStatus {
  import opened QuestTypes

  /** What the closures capture: the quest list, the trader list and the
      settings of the current game mode. */
  datatype Env = Env(quests: seq<Quest>, traders: seq<Trader>, mode: ModeSettings)

  /** A gate either decides the quest's activity or lets evaluation go on. */
  datatype Gate = Decided(active: bool) | Continue

  predicate Complete(env: Env, id: string) {
    id in env.mode.completedQuests
  }

  predicate Failed(env: Env, id: string) {
    id in env.mode.failedQuests
  }

  /** The status names that have a closure; any other name is skipped. */
  predicate Recognized(status: string) {
    status == "complete" || status == "failed" || status == "active"
  }

  /** The faction gate: the quest is restricted to a faction, the player has
      picked one, and it is a different one. */
  predicate FactionBlocks(questFaction: string, pmcFaction: string) {
    questFaction != "Any" && pmcFaction != "NONE" && pmcFaction != questFaction
  }

  /** The player-level comparison; it is evaluated but never acted on. */
  predicate BelowPlayerLevel(mode: ModeSettings, quest: Quest) {
    mode.playerLevel < quest.minPlayerLevel
  }

  /** The trader-level comparison; it is evaluated but never acted on. A trader
      without a stored level compares as `undefined < value`, which is false. */
  predicate BelowTraderLevel(mode: ModeSettings, trader: Trader, req: TraderRequirement) {
    trader.normalizedName in mode.traderLevels && mode.traderLevels[trader.normalizedName] < req.value
  }

  /** `quests.find(q => q.id === id)` */
  function FindQuest(quests: seq<Quest>, id: string): (r: Option<Quest>)
    ensures r.Some? ==> r.value in quests && r.value.id == id
    ensures r.None? <==> forall i :: 0 <= i < |quests| ==> quests[i].id != id
  {
    Find(quests, (q: Quest) => q.id == id)
  }

  /** `traders.find(t => t.id === id)` */
  function FindTrader(traders: seq<Trader>, id: string): (r: Option<Trader>)
    ensures r.Some? ==> r.value in traders && r.value.id == id
    ensures r.None? <==> forall i :: 0 <= i < |traders| ==> traders[i].id != id
  {
    Find(traders, (t: Trader) => t.id == id)
  }

  /** The trader requirements whose type is "level", in order. */
  function LevelRequirements(reqs: seq<TraderRequirement>): (r: seq<TraderRequirement>)
    ensures forall k :: 0 <= k < |r| ==> r[k].requirementType == "level" && r[k] in reqs
    ensures forall k :: 0 <= k < |reqs| && reqs[k].requirementType == "level" ==> reqs[k] in r
  {
    if reqs == [] then []
    else if reqs[0].requirementType == "level" then [reqs[0]] + LevelRequirements(reqs[1..])
    else LevelRequirements(reqs[1..])
  }

  /** `questStatus.active(id)`. `depth` is how many more nested calls through an
      "active" prerequisite the call stack admits. */
  function Active(env: Env, depth: nat, id: string): (r: Outcome<bool>)
    ensures r != Return(true) ==> env.mode.useTarkovTracker
    ensures r == Return(true) && env.mode.useTarkovTracker ==>
      && !Complete(env, id) && !Failed(env, id)
      && FindQuest(env.quests, id).Some?
      && !FactionBlocks(FindQuest(env.quests, id).value.factionName, env.mode.pmcFaction)
    ensures r.Throw? ==> FindQuest(env.quests, id).Some?
    decreases depth, 4, 0
  {
    if !env.mode.useTarkovTracker then Return(true)
    else if Complete(env, id) || Failed(env, id) then Return(false)
    else match FindQuest(env.quests, id)
      case None => Return(false)
      case Some(quest) => EvalQuest(env, depth, quest)
  }

  /** The gates that follow the lookup of the quest: player level (inert),
      faction, task requirements, trader levels (inert). */
  function EvalQuest(env: Env, depth: nat, quest: Quest): (r: Outcome<bool>)
    ensures r == Return(true) || r.Throw? ==> !FactionBlocks(quest.factionName, env.mode.pmcFaction)
    ensures r == Return(false) ==>
      FactionBlocks(quest.factionName, env.mode.pmcFaction) || TaskGate(env, depth, quest.taskRequirements) == Return(Decided(false))
    decreases depth, 3, 0
  {
    if FactionBlocks(quest.factionName, env.mode.pmcFaction) then Return(false)
    else match TaskGate(env, depth, quest.taskRequirements)
      case Throw(e) => Throw(e)
      case Return(Decided(b)) => Return(b)
      case Return(Continue) =>
        match TraderGate(env.traders, LevelRequirements(quest.traderRequirements))
        case Throw(e) => Throw(e)
        case Return(_) => Return(true)
  }

  /** The scan of the task requirements: a falsy entry decides "active", the
      first unsatisfied requirement decides "inactive". */
  function TaskGate(env: Env, depth: nat, reqs: seq<Option<Requirement>>): (r: Outcome<Gate>)
    ensures r == Return(Decided(true)) ==> exists k :: 0 <= k < |reqs| && reqs[k].None?
    ensures r == Return(Decided(false)) ==> exists k ::
      && 0 <= k < |reqs| && reqs[k].Some?
      && Satisfied(env, depth, reqs[k].value.taskId, reqs[k].value.status) == Return(false)
    ensures r == Return(Continue) ==> forall k :: 0 <= k < |reqs| ==> reqs[k].Some?
    decreases depth, 2, |reqs|
  {
    if reqs == [] then Return(Continue)
    else
      assert forall k :: 0 < k < |reqs| ==> reqs[k] == reqs[1..][k - 1];
      match reqs[0]
      case None => Return(Decided(true))
      case Some(req) =>
        match Satisfied(env, depth, req.taskId, req.status)
        case Throw(e) => Throw(e)
        case Return(b) => if b then TaskGate(env, depth, reqs[1..]) else Return(Decided(false))
  }

  /** Whether one of `statuses`, tried in order, holds of quest `taskId`. */
  function Satisfied(env: Env, depth: nat, taskId: string, statuses: seq<string>): (r: Outcome<bool>)
    ensures r == Return(true) ==> exists k ::
      && 0 <= k < |statuses| && Recognized(statuses[k])
      && StatusHolds(env, depth, statuses[k], taskId) == Return(true)
    ensures r.Throw? ==> "active" in statuses
    decreases depth, 1, |statuses|
  {
    if statuses == [] then Return(false)
    else
      assert forall k :: 0 < k < |statuses| ==> statuses[k] == statuses[1..][k - 1];
      match StatusHolds(env, depth, statuses[0], taskId)
      case Throw(e) => Throw(e)
      case Return(b) => if b then Return(true) else Satisfied(env, depth, taskId, statuses[1..])
  }

  /** `questStatus[status](id)`; an unrecognized status counts as not holding. */
  function StatusHolds(env: Env, depth: nat, status: string, id: string): (r: Outcome<bool>)
    ensures r == Return(true) ==> Recognized(status)
    ensures r.Throw? ==> status == "active"
    decreases depth, 0, 0
  {
    if status == "complete" then Return(Complete(env, id))
    else if status == "failed" then Return(Failed(env, id))
    else if status == "active" then
      if depth == 0 then Throw(StackOverflow) else Active(env, depth - 1, id)
    else Return(false)
  }

  /** The scan of the level requirements: every trader must be found; the level
      comparison itself decides nothing. */
  function TraderGate(traders: seq<Trader>, reqs: seq<TraderRequirement>): (r: Outcome<Gate>)
    ensures r.Return? ==> r.value == Continue
    ensures r.Throw? ==> r.error.TraderNotFound?
  {
    if reqs == [] then Return(Continue)
    else match FindTrader(traders, reqs[0].traderId)
      case None => Throw(TraderNotFound(reqs[0].traderId))
      case Some(_) => TraderGate(traders, reqs[1..])
  }

  /** `questStatus.active(id)` as the source evaluates it: loops over the
      requirements and the level requirements with early returns; a thrown
      exception ends the evaluation. */
  method ComputeActive(env: Env, depth: nat, id: string) returns (r: Outcome<bool>)
    ensures r == Active(env, depth, id)
    decreases depth, 1
  {
    var mode := env.mode;
    if !mode.useTarkovTracker {
      return Return(true);
    }
    if id in mode.completedQuests {
      return Return(false);
    }
    if id in mode.failedQuests {
      return Return(false);
    }
    var found := FindQuest(env.quests, id);
    if found.None? {
      return Return(false);
    }
    var quest := found.value;
    if BelowPlayerLevel(mode, quest) {
      // not enforced
    }
    if FactionBlocks(quest.factionName, mode.pmcFaction) {
      return Return(false);
    }
    var reqs := quest.taskRequirements;
    var i := 0;
    while i < |reqs|
      invariant 0 <= i <= |reqs|
      invariant TaskGate(env, depth, reqs) == TaskGate(env, depth, reqs[i..])
    {
      if reqs[i].None? {
        return Return(true);
      }
      var reqSatisfied := ComputeSatisfied(env, depth, reqs[i].value);
      if reqSatisfied.Throw? {
        return Throw(reqSatisfied.error);
      }
      if !reqSatisfied.value {
        return Return(false);
      }
      assert reqs[i..][1..] == reqs[i + 1..];
      i := i + 1;
    }
    assert TaskGate(env, depth, reqs) == Return(Continue);
    var levelReqs := LevelRequirements(quest.traderRequirements);
    var k := 0;
    while k < |levelReqs|
      invariant 0 <= k <= |levelReqs|
      invariant TraderGate(env.traders, levelReqs) == TraderGate(env.traders, levelReqs[k..])
    {
      var trader := FindTrader(env.traders, levelReqs[k].traderId);
      if trader.None? {
        return Throw(TraderNotFound(levelReqs[k].traderId));
      }
      if BelowTraderLevel(mode, trader.value, levelReqs[k]) {
        // not enforced
      }
      assert levelReqs[k..][1..] == levelReqs[k + 1..];
      k := k + 1;
    }
    return Return(true);
  }

  /** The inner loop of `questStatus.active`: the statuses of one requirement,
      tried in order, with the `reqSatisfied` flag, `continue` over an
      unrecognized status and `break` at the first status that holds. */
  method ComputeSatisfied(env: Env, depth: nat, req: Requirement) returns (r: Outcome<bool>)
    ensures r == Satisfied(env, depth, req.taskId, req.status)
    decreases depth, 0
  {
    var mode := env.mode;
    var reqSatisfied := false;
    var statuses := req.status;
    var j := 0;
    while j < |statuses|
      invariant 0 <= j <= |statuses|
      invariant !reqSatisfied
      invariant Satisfied(env, depth, req.taskId, statuses) == Satisfied(env, depth, req.taskId, statuses[j..])
    {
      var status := statuses[j];
      if !Recognized(status) {
        j := j + 1;
        continue;
      }
      var holds: Outcome<bool>;
      if status == "complete" {
        holds := Return(req.taskId in mode.completedQuests);
      } else if status == "failed" {
        holds := Return(req.taskId in mode.failedQuests);
      } else if depth == 0 {
        holds := Throw(StackOverflow);
      } else {
        holds := ComputeActive(env, depth - 1, req.taskId);
      }
      assert holds == StatusHolds(env, depth, status, req.taskId);
      if holds.Throw? {
        return Throw(holds.error);
      }
      if holds.value {
        reqSatisfied := true;
        break;
      }
      j := j + 1;
    }
    return Return(reqSatisfied);
  }
}
