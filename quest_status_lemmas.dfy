/** Properties of `questStatus.active`: the order and effect of its gates, the
    two inert comparisons, and how deep the prerequisite recursion goes. */
module QuestStatusLemmas {
  import opened QuestTypes
  import opened QuestStatus

  // ---------------------------------------------------------------------------
  // The first three gates

  /** With the tracker off every id is active, whatever else the settings hold. */
  lemma TrackerOffActive(env: Env, depth: nat, id: string)
    requires !env.mode.useTarkovTracker
    ensures Active(env, depth, id) == Return(true)
  {
  }

  /** With the tracker on, a completed or failed quest, or an id no quest
      carries, is inactive; otherwise the found quest's gates decide. */
  lemma TrackerOnLookup(env: Env, depth: nat, id: string)
    requires env.mode.useTarkovTracker
    ensures Complete(env, id) ==> Active(env, depth, id) == Return(false)
    ensures Failed(env, id) ==> Active(env, depth, id) == Return(false)
    ensures (forall i :: 0 <= i < |env.quests| ==> env.quests[i].id != id) ==> Active(env, depth, id) == Return(false)
    ensures !Complete(env, id) && !Failed(env, id) && FindQuest(env.quests, id).Some? ==>
      Active(env, depth, id) == EvalQuest(env, depth, FindQuest(env.quests, id).value)
  {
  }

  /** The lookup returns the first quest with the id, so a later quest with
      the same id is judged by the gates of the first one. */
  lemma DuplicateJudgedByFirst(env: Env, depth: nat, i: nat, j: nat)
    requires i < j < |env.quests|
    requires env.quests[i].id == env.quests[j].id
    requires forall k :: 0 <= k < i ==> env.quests[k].id != env.quests[i].id
    requires env.mode.useTarkovTracker
    requires !Complete(env, env.quests[i].id) && !Failed(env, env.quests[i].id)
    ensures Active(env, depth, env.quests[j].id) == EvalQuest(env, depth, env.quests[i])
  {
    var id := env.quests[i].id;
    var p := (q: Quest) => q.id == id;
    assert p(env.quests[i]);
    var found := Find(env.quests, p);
    var n :| 0 <= n < |env.quests| && env.quests[n] == found.value && p(env.quests[n]) &&
      forall m :: 0 <= m < n ==> !p(env.quests[m]);
    assert n == i;
    assert FindQuest(env.quests, id) == Some(env.quests[i]);
  }

  // ---------------------------------------------------------------------------
  // The faction gate

  /** The faction gate rejects exactly when the quest's faction is not "Any",
      the player's is not "NONE" and the two differ; otherwise the quest is
      evaluated as if it were open to any faction. */
  lemma FactionGate(env: Env, depth: nat, quest: Quest)
    ensures quest.factionName != "Any" && env.mode.pmcFaction != "NONE" && env.mode.pmcFaction != quest.factionName ==>
      EvalQuest(env, depth, quest) == Return(false)
    ensures !(quest.factionName != "Any" && env.mode.pmcFaction != "NONE" && env.mode.pmcFaction != quest.factionName) ==>
      EvalQuest(env, depth, quest) == EvalQuest(env, depth, quest.(factionName := "Any"))
  {
  }

  // ---------------------------------------------------------------------------
  // One requirement: its status list

  /** The recognized entries of a status list, in order. */
  function RecognizedOnly(statuses: seq<string>): (r: seq<string>)
    ensures forall k :: 0 <= k < |r| ==> Recognized(r[k]) && r[k] in statuses
    ensures forall k :: 0 <= k < |statuses| && Recognized(statuses[k]) ==> statuses[k] in r
  {
    if statuses == [] then []
    else if Recognized(statuses[0]) then [statuses[0]] + RecognizedOnly(statuses[1..])
    else RecognizedOnly(statuses[1..])
  }

  /** Unrecognized statuses are skipped: dropping them changes nothing. */
  lemma {:induction false} UnrecognizedSkipped(env: Env, depth: nat, taskId: string, statuses: seq<string>)
    ensures Satisfied(env, depth, taskId, statuses) == Satisfied(env, depth, taskId, RecognizedOnly(statuses))
  {
    if statuses != [] {
      UnrecognizedSkipped(env, depth, taskId, statuses[1..]);
      if Recognized(statuses[0]) {
        assert ([statuses[0]] + RecognizedOnly(statuses[1..]))[1..] == RecognizedOnly(statuses[1..]);
      }
    }
  }

  /** When no status evaluation throws, a requirement is satisfied iff some
      status in its list holds of the required quest. */
  lemma {:induction false} SatisfiedIffSomeStatusHolds(env: Env, depth: nat, taskId: string, statuses: seq<string>)
    requires forall k :: 0 <= k < |statuses| ==> StatusHolds(env, depth, statuses[k], taskId).Return?
    ensures Satisfied(env, depth, taskId, statuses) ==
      Return(exists k :: 0 <= k < |statuses| && StatusHolds(env, depth, statuses[k], taskId) == Return(true))
  {
    if statuses != [] {
      assert StatusHolds(env, depth, statuses[0], taskId).Return?;
      var tail := statuses[1..];
      assert forall k :: 0 <= k < |tail| ==> tail[k] == statuses[k + 1];
      SatisfiedIffSomeStatusHolds(env, depth, taskId, tail);
      if StatusHolds(env, depth, statuses[0], taskId) != Return(true) {
        assert (exists k :: 0 <= k < |statuses| && StatusHolds(env, depth, statuses[k], taskId) == Return(true)) ==
          (exists k :: 0 <= k < |tail| && StatusHolds(env, depth, tail[k], taskId) == Return(true)) by {
          forall k | 0 < k < |statuses| ensures statuses[k] == tail[k - 1] { }
        }
      }
    }
  }

  /** "complete" and "failed" never throw and mean membership in the
      completed and failed lists; "active" asks `Active` one level deeper. */
  lemma StatusMeaning(env: Env, depth: nat, status: string, id: string)
    ensures status == "complete" ==> StatusHolds(env, depth, status, id) == Return(id in env.mode.completedQuests)
    ensures status == "failed" ==> StatusHolds(env, depth, status, id) == Return(id in env.mode.failedQuests)
    ensures status == "active" && depth > 0 ==> StatusHolds(env, depth, status, id) == Active(env, depth - 1, id)
    ensures status == "active" && depth == 0 ==> StatusHolds(env, depth, status, id) == Throw(StackOverflow)
    ensures !Recognized(status) ==> StatusHolds(env, depth, status, id) == Return(false)
  {
  }

  // ---------------------------------------------------------------------------
  // The list of requirements

  /** Satisfied requirements in front of the list are stepped over. */
  lemma {:induction false} SatisfiedPrefixSkipped(env: Env, depth: nat, done: seq<Option<Requirement>>, rest: seq<Option<Requirement>>)
    requires forall k :: 0 <= k < |done| ==>
      done[k].Some? && Satisfied(env, depth, done[k].value.taskId, done[k].value.status) == Return(true)
    ensures TaskGate(env, depth, done + rest) == TaskGate(env, depth, rest)
  {
    if done != [] {
      var req := done[0].value;
      assert (done + rest)[0] == Some(req);
      assert Satisfied(env, depth, req.taskId, req.status) == Return(true);
      assert (done + rest)[1..] == done[1..] + rest;
      assert forall k :: 0 <= k < |done[1..]| ==> done[1..][k] == done[k + 1];
      SatisfiedPrefixSkipped(env, depth, done[1..], rest);
    } else {
      assert done + rest == rest;
    }
  }

  /** A falsy requirement reached after satisfied ones makes the quest's task
      gate decide "active", whatever follows it. */
  lemma NullRequirementDecidesActive(env: Env, depth: nat, done: seq<Option<Requirement>>, rest: seq<Option<Requirement>>)
    requires forall k :: 0 <= k < |done| ==>
      done[k].Some? && Satisfied(env, depth, done[k].value.taskId, done[k].value.status) == Return(true)
    ensures TaskGate(env, depth, done + [None] + rest) == Return(Decided(true))
  {
    assert done + [None] + rest == done + ([None] + rest);
    SatisfiedPrefixSkipped(env, depth, done, [None] + rest);
  }

  /** The first unsatisfied requirement makes the task gate decide "inactive". */
  lemma FirstUnsatisfiedDecidesInactive(env: Env, depth: nat, done: seq<Option<Requirement>>, req: Requirement, rest: seq<Option<Requirement>>)
    requires forall k :: 0 <= k < |done| ==>
      done[k].Some? && Satisfied(env, depth, done[k].value.taskId, done[k].value.status) == Return(true)
    requires Satisfied(env, depth, req.taskId, req.status) == Return(false)
    ensures TaskGate(env, depth, done + [Some(req)] + rest) == Return(Decided(false))
  {
    assert done + [Some(req)] + rest == done + ([Some(req)] + rest);
    SatisfiedPrefixSkipped(env, depth, done, [Some(req)] + rest);
  }

  /** When every requirement is present and satisfied, the task gate passes. */
  lemma AllSatisfiedPasses(env: Env, depth: nat, reqs: seq<Option<Requirement>>)
    requires forall k :: 0 <= k < |reqs| ==>
      reqs[k].Some? && Satisfied(env, depth, reqs[k].value.taskId, reqs[k].value.status) == Return(true)
    ensures TaskGate(env, depth, reqs) == Return(Continue)
  {
    assert reqs + [] == reqs;
    SatisfiedPrefixSkipped(env, depth, reqs, []);
  }

  // ---------------------------------------------------------------------------
  // The trader gate

  /** The "level" filter distributes over concatenation, so the kept
      requirements keep their order and multiplicity. */
  lemma {:induction false} LevelRequirementsAppend(a: seq<TraderRequirement>, b: seq<TraderRequirement>)
    ensures LevelRequirements(a + b) == LevelRequirements(a) + LevelRequirements(b)
  {
    if a == [] {
      assert a + b == b;
    } else {
      assert (a + b)[0] == a[0];
      assert (a + b)[1..] == a[1..] + b;
      LevelRequirementsAppend(a[1..], b);
    }
  }

  /** A single requirement is kept iff its type is "level". */
  lemma LevelRequirementsSingle(req: TraderRequirement)
    ensures LevelRequirements([req]) == if req.requirementType == "level" then [req] else []
  {
    assert [req][1..] == [];
  }

  /** The trader gate passes iff every level requirement names a listed
      trader; otherwise it throws for the first one that does not. */
  lemma {:induction false} TraderGateNeedsTraders(traders: seq<Trader>, reqs: seq<TraderRequirement>)
    ensures TraderGate(traders, reqs) == Return(Continue) <==>
      forall k :: 0 <= k < |reqs| ==> FindTrader(traders, reqs[k].traderId).Some?
    ensures TraderGate(traders, reqs).Throw? ==> exists k ::
      && 0 <= k < |reqs|
      && FindTrader(traders, reqs[k].traderId).None?
      && (forall j :: 0 <= j < k ==> FindTrader(traders, reqs[j].traderId).Some?)
      && TraderGate(traders, reqs) == Throw(TraderNotFound(reqs[k].traderId))
    ensures TraderGate(traders, reqs).Return? ==> TraderGate(traders, reqs) == Return(Continue)
  {
    if reqs != [] {
      var tail := reqs[1..];
      TraderGateNeedsTraders(traders, tail);
      assert forall k :: 0 < k < |reqs| ==> reqs[k] == tail[k - 1];
      if FindTrader(traders, reqs[0].traderId).Some? {
        if TraderGate(traders, tail).Throw? {
          var k :| 0 <= k < |tail| && FindTrader(traders, tail[k].traderId).None? &&
            (forall j :: 0 <= j < k ==> FindTrader(traders, tail[j].traderId).Some?) &&
            TraderGate(traders, tail) == Throw(TraderNotFound(tail[k].traderId));
          assert reqs[k + 1] == tail[k];
          assert forall j :: 0 <= j < k + 1 ==> FindTrader(traders, reqs[j].traderId).Some? by {
            forall j | 0 <= j < k + 1 ensures FindTrader(traders, reqs[j].traderId).Some? {
              if j > 0 { assert reqs[j] == tail[j - 1]; }
            }
          }
        }
        assert (forall k :: 0 <= k < |reqs| ==> FindTrader(traders, reqs[k].traderId).Some?) ==
          (forall k :: 0 <= k < |tail| ==> FindTrader(traders, tail[k].traderId).Some?) by {
          forall k | 0 <= k < |tail| ensures tail[k] == reqs[k + 1] { }
        }
      }
    }
  }

  // ---------------------------------------------------------------------------
  // The player-level and trader-level comparisons are inert

  /** Two mode settings that differ at most in player level and trader levels. */
  predicate SameProgress(m: ModeSettings, m': ModeSettings) {
    m.(playerLevel := m'.playerLevel, traderLevels := m'.traderLevels) == m'
  }

  /** Player level and trader levels never change `active`. */
  lemma {:induction false} ActiveIgnoresLevels(env: Env, m': ModeSettings, depth: nat, id: string)
    requires SameProgress(env.mode, m')
    ensures Active(env.(mode := m'), depth, id) == Active(env, depth, id)
    decreases depth, 4, 0
  {
    var env' := env.(mode := m');
    assert Complete(env', id) == Complete(env, id) && Failed(env', id) == Failed(env, id);
    if env.mode.useTarkovTracker && !Complete(env, id) && !Failed(env, id) && FindQuest(env.quests, id).Some? {
      EvalQuestIgnoresLevels(env, m', depth, FindQuest(env.quests, id).value);
    }
  }

  lemma {:induction false} EvalQuestIgnoresLevels(env: Env, m': ModeSettings, depth: nat, quest: Quest)
    requires SameProgress(env.mode, m')
    ensures EvalQuest(env.(mode := m'), depth, quest) == EvalQuest(env, depth, quest)
    decreases depth, 3, 0
  {
    TaskGateIgnoresLevels(env, m', depth, quest.taskRequirements);
  }

  lemma {:induction false} TaskGateIgnoresLevels(env: Env, m': ModeSettings, depth: nat, reqs: seq<Option<Requirement>>)
    requires SameProgress(env.mode, m')
    ensures TaskGate(env.(mode := m'), depth, reqs) == TaskGate(env, depth, reqs)
    decreases depth, 2, |reqs|
  {
    if reqs != [] && reqs[0].Some? {
      SatisfiedIgnoresLevels(env, m', depth, reqs[0].value.taskId, reqs[0].value.status);
      TaskGateIgnoresLevels(env, m', depth, reqs[1..]);
    }
  }

  lemma {:induction false} SatisfiedIgnoresLevels(env: Env, m': ModeSettings, depth: nat, taskId: string, statuses: seq<string>)
    requires SameProgress(env.mode, m')
    ensures Satisfied(env.(mode := m'), depth, taskId, statuses) == Satisfied(env, depth, taskId, statuses)
    decreases depth, 1, |statuses|
  {
    if statuses != [] {
      StatusHoldsIgnoresLevels(env, m', depth, statuses[0], taskId);
      SatisfiedIgnoresLevels(env, m', depth, taskId, statuses[1..]);
    }
  }

  lemma {:induction false} StatusHoldsIgnoresLevels(env: Env, m': ModeSettings, depth: nat, status: string, id: string)
    requires SameProgress(env.mode, m')
    ensures StatusHolds(env.(mode := m'), depth, status, id) == StatusHolds(env, depth, status, id)
    decreases depth, 0, 0
  {
    if status == "active" && depth > 0 {
      ActiveIgnoresLevels(env, m', depth - 1, id);
    }
  }

  // ---------------------------------------------------------------------------
  // The depth of the prerequisite recursion

  /** A larger call-depth budget gives the same outcome, unless the smaller
      one overflowed. */
  lemma {:induction false} ActiveDepthMonotone(env: Env, depth: nat, depth': nat, id: string)
    requires depth <= depth'
    requires Active(env, depth, id) != Throw(StackOverflow)
    ensures Active(env, depth', id) == Active(env, depth, id)
    decreases depth, 4, 0
  {
    if env.mode.useTarkovTracker && !Complete(env, id) && !Failed(env, id) && FindQuest(env.quests, id).Some? {
      EvalQuestDepthMonotone(env, depth, depth', FindQuest(env.quests, id).value);
    }
  }

  lemma {:induction false} EvalQuestDepthMonotone(env: Env, depth: nat, depth': nat, quest: Quest)
    requires depth <= depth'
    requires EvalQuest(env, depth, quest) != Throw(StackOverflow)
    ensures EvalQuest(env, depth', quest) == EvalQuest(env, depth, quest)
    decreases depth, 3, 0
  {
    if !FactionBlocks(quest.factionName, env.mode.pmcFaction) {
      TaskGateDepthMonotone(env, depth, depth', quest.taskRequirements);
    }
  }

  lemma {:induction false} TaskGateDepthMonotone(env: Env, depth: nat, depth': nat, reqs: seq<Option<Requirement>>)
    requires depth <= depth'
    requires TaskGate(env, depth, reqs) != Throw(StackOverflow)
    ensures TaskGate(env, depth', reqs) == TaskGate(env, depth, reqs)
    decreases depth, 2, |reqs|
  {
    if reqs != [] && reqs[0].Some? {
      var req := reqs[0].value;
      SatisfiedDepthMonotone(env, depth, depth', req.taskId, req.status);
      if Satisfied(env, depth, req.taskId, req.status) == Return(true) {
        TaskGateDepthMonotone(env, depth, depth', reqs[1..]);
      }
    }
  }

  lemma {:induction false} SatisfiedDepthMonotone(env: Env, depth: nat, depth': nat, taskId: string, statuses: seq<string>)
    requires depth <= depth'
    requires Satisfied(env, depth, taskId, statuses) != Throw(StackOverflow)
    ensures Satisfied(env, depth', taskId, statuses) == Satisfied(env, depth, taskId, statuses)
    decreases depth, 1, |statuses|
  {
    if statuses != [] {
      StatusHoldsDepthMonotone(env, depth, depth', statuses[0], taskId);
      if StatusHolds(env, depth, statuses[0], taskId) == Return(false) {
        SatisfiedDepthMonotone(env, depth, depth', taskId, statuses[1..]);
      }
    }
  }

  lemma {:induction false} StatusHoldsDepthMonotone(env: Env, depth: nat, depth': nat, status: string, id: string)
    requires depth <= depth'
    requires StatusHolds(env, depth, status, id) != Throw(StackOverflow)
    ensures StatusHolds(env, depth', status, id) == StatusHolds(env, depth, status, id)
    decreases depth, 0, 0
  {
    if status == "active" && depth > 0 {
      ActiveDepthMonotone(env, depth - 1, depth' - 1, id);
    }
  }

  /** A quest whose first prerequisite is itself being active recurses without
      end: every call-depth budget overflows. */
  lemma {:induction false} SelfPrerequisiteOverflows(env: Env, depth: nat, quest: Quest)
    requires env.mode.useTarkovTracker
    requires FindQuest(env.quests, quest.id) == Some(quest)
    requires !Complete(env, quest.id) && !Failed(env, quest.id)
    requires !FactionBlocks(quest.factionName, env.mode.pmcFaction)
    requires |quest.taskRequirements| > 0 && quest.taskRequirements[0] == Some(Requirement(quest.id, ["active"]))
    ensures Active(env, depth, quest.id) == Throw(StackOverflow)
  {
    if depth > 0 {
      SelfPrerequisiteOverflows(env, depth - 1, quest);
    }
    assert StatusHolds(env, depth, "active", quest.id) == Throw(StackOverflow);
    assert Satisfied(env, depth, quest.id, ["active"]) == Throw(StackOverflow);
    assert TaskGate(env, depth, quest.taskRequirements) == Throw(StackOverflow);
    assert EvalQuest(env, depth, quest) == Throw(StackOverflow);
  }

  /** A ranking of quest ids under which every "active" prerequisite of a
      listed quest has a smaller rank than the quest: the prerequisite graph
      has no cycle through "active". */
  ghost predicate Ranked(env: Env, rank: string -> nat) {
    forall i, j ::
      (0 <= i < |env.quests| && 0 <= j < |env.quests[i].taskRequirements| &&
       env.quests[i].taskRequirements[j].Some? && "active" in env.quests[i].taskRequirements[j].value.status) ==>
      rank(env.quests[i].taskRequirements[j].value.taskId) < rank(env.quests[i].id)
  }

  /** Without a cycle, a call-depth budget of the id's rank never overflows. */
  lemma {:induction false} RankedNoOverflow(env: Env, rank: string -> nat, depth: nat, id: string)
    requires Ranked(env, rank)
    requires rank(id) <= depth
    ensures Active(env, depth, id) != Throw(StackOverflow)
    decreases depth, 4, 0
  {
    if env.mode.useTarkovTracker && !Complete(env, id) && !Failed(env, id) && FindQuest(env.quests, id).Some? {
      var quest := FindQuest(env.quests, id).value;
      var i :| 0 <= i < |env.quests| && env.quests[i] == quest && quest.id == id;
      if !FactionBlocks(quest.factionName, env.mode.pmcFaction) {
        forall j | 0 <= j < |quest.taskRequirements| && quest.taskRequirements[j].Some? && "active" in quest.taskRequirements[j].value.status
          ensures rank(quest.taskRequirements[j].value.taskId) < depth
        {
          assert env.quests[i].taskRequirements[j] == quest.taskRequirements[j];
        }
        TaskGateRankedNoOverflow(env, rank, depth, quest.taskRequirements);
        TraderGateNeedsTraders(env.traders, LevelRequirements(quest.traderRequirements));
      }
    }
  }

  lemma {:induction false} TaskGateRankedNoOverflow(env: Env, rank: string -> nat, depth: nat, reqs: seq<Option<Requirement>>)
    requires Ranked(env, rank)
    requires forall j :: 0 <= j < |reqs| && reqs[j].Some? && "active" in reqs[j].value.status ==>
      rank(reqs[j].value.taskId) < depth
    ensures TaskGate(env, depth, reqs) != Throw(StackOverflow)
    decreases depth, 2, |reqs|
  {
    if reqs != [] && reqs[0].Some? {
      SatisfiedRankedNoOverflow(env, rank, depth, reqs[0].value.taskId, reqs[0].value.status);
      assert forall j :: 0 <= j < |reqs[1..]| ==> reqs[1..][j] == reqs[j + 1];
      TaskGateRankedNoOverflow(env, rank, depth, reqs[1..]);
    }
  }

  lemma {:induction false} SatisfiedRankedNoOverflow(env: Env, rank: string -> nat, depth: nat, taskId: string, statuses: seq<string>)
    requires Ranked(env, rank)
    requires "active" in statuses ==> rank(taskId) < depth
    ensures Satisfied(env, depth, taskId, statuses) != Throw(StackOverflow)
    decreases depth, 1, |statuses|
  {
    if statuses != [] {
      if statuses[0] == "active" {
        RankedNoOverflow(env, rank, depth - 1, taskId);
      }
      assert "active" in statuses[1..] ==> "active" in statuses;
      SatisfiedRankedNoOverflow(env, rank, depth, taskId, statuses[1..]);
    }
  }
}
