/** The quest selector: every quest of the list, with its present objectives
    annotated with `complete` and the quest's `active` flag added. */
module QuestViews {
  import opened QuestTypes
  import opened QuestStatus
  import opened QuestStatusLemmas

  /** `{...obj, complete}` */
  datatype AnnotatedObjective = AnnotatedObjective(objective: Objective, complete: bool)

  /** `{...quest, objectives, active}`: `quest` carries the fields copied
      through, `objectives` replaces the quest's own list. */
  datatype QuestView = QuestView(quest: Quest, objectives: seq<AnnotatedObjective>, active: bool)

  /** `objectivesCompleted?.includes(id) || false` */
  predicate ObjectiveComplete(done: Option<seq<string>>, id: string) {
    done.Some? && id in done.value
  }

  /** The present (truthy) entries of a list, in order. */
  function Present<T>(s: seq<Option<T>>): (r: seq<T>)
    ensures |r| <= |s|
    ensures forall k :: 0 <= k < |r| ==> Some(r[k]) in s
  {
    if s == [] then []
    else (if s[0].Some? then [s[0].value] else []) + Present(s[1..])
  }

  /** Filtering distributes over concatenation, so order is kept. */
  lemma {:induction false} PresentAppend<T>(a: seq<Option<T>>, b: seq<Option<T>>)
    ensures Present(a + b) == Present(a) + Present(b)
  {
    if a == [] {
      assert a + b == b;
    } else {
      assert (a + b)[0] == a[0];
      assert (a + b)[1..] == a[1..] + b;
      PresentAppend(a[1..], b);
    }
  }

  /** Exactly the present entries survive the filter. */
  lemma {:induction false} PresentMembers<T>(s: seq<Option<T>>, x: T)
    ensures x in Present(s) <==> Some(x) in s
  {
    if s != [] {
      PresentMembers(s[1..], x);
      assert s == [s[0]] + s[1..];
    }
  }

  /** The objectives with their annotations removed. */
  function Unannotated(r: seq<AnnotatedObjective>): (o: seq<Objective>)
    ensures |o| == |r| && forall k :: 0 <= k < |r| ==> o[k] == r[k].objective
  {
    if r == [] then [] else [r[0].objective] + Unannotated(r[1..])
  }

  /** `objectives.map(...).filter(Boolean)`: falsy entries are dropped, the rest
      keep their order and their fields and gain `complete`. */
  function AnnotateObjectives(objs: seq<Option<Objective>>, done: Option<seq<string>>): (r: seq<AnnotatedObjective>)
    ensures Unannotated(r) == Present(objs)
    ensures forall k :: 0 <= k < |r| ==> r[k].complete == ObjectiveComplete(done, r[k].objective.id)
  {
    if objs == [] then []
    else
      var rest := AnnotateObjectives(objs[1..], done);
      match objs[0]
      case None => rest
      case Some(o) =>
        var r := [AnnotatedObjective(o, ObjectiveComplete(done, o.id))] + rest;
        assert r[1..] == rest;
        r
  }

  /** `view` is what the selector shows for `quest`: the quest's fields, its
      annotated objectives, and the activity `Active` returns for its id. */
  predicate ViewOf(env: Env, depth: nat, quest: Quest, view: QuestView) {
    && view.quest == quest
    && view.objectives == AnnotateObjectives(quest.objectives, env.mode.objectivesCompleted)
    && Active(env, depth, quest.id) == Return(view.active)
  }

  /** Whether the activity of the first `i` quests of `qs` is computed without throwing. */
  predicate ReturnsBefore(env: Env, depth: nat, qs: seq<Quest>, i: nat) {
    forall j :: 0 <= j < i && j < |qs| ==> Active(env, depth, qs[j].id).Return?
  }

  /** The `quests.map` of the selector over `qs`: one view per quest, in
      order. A quest whose activity throws ends the whole computation. */
  function DeriveViews(env: Env, depth: nat, qs: seq<Quest>): (r: Outcome<seq<QuestView>>)
    ensures r.Return? <==> ReturnsBefore(env, depth, qs, |qs|)
    ensures r.Return? ==> |r.value| == |qs| && forall i :: 0 <= i < |qs| ==> ViewOf(env, depth, qs[i], r.value[i])
  {
    if qs == [] then Return([])
    else
      var tail := qs[1..];
      assert forall i :: 0 < i < |qs| ==> qs[i] == tail[i - 1];
      match Active(env, depth, qs[0].id)
      case Throw(e) => Throw(e)
      case Return(a) =>
        match DeriveViews(env, depth, tail)
        case Throw(e) => Throw(e)
        case Return(rest) =>
          Return([QuestView(qs[0], AnnotateObjectives(qs[0].objectives, env.mode.objectivesCompleted), a)] + rest)
  }

  /** A throwing selector throws the exception of the first quest whose
      activity throws. */
  lemma {:induction false} DeriveThrowsFirst(env: Env, depth: nat, qs: seq<Quest>)
    requires DeriveViews(env, depth, qs).Throw?
    ensures exists i ::
      && 0 <= i < |qs|
      && ReturnsBefore(env, depth, qs, i)
      && Active(env, depth, qs[i].id) == Throw(DeriveViews(env, depth, qs).error)
  {
    var e := DeriveViews(env, depth, qs).error;
    var tail := qs[1..];
    if Active(env, depth, qs[0].id).Return? {
      assert DeriveViews(env, depth, tail) == Throw(e);
      DeriveThrowsFirst(env, depth, tail);
      var i :| 0 <= i < |tail| && ReturnsBefore(env, depth, tail, i) && Active(env, depth, tail[i].id) == Throw(e);
      assert qs[i + 1] == tail[i];
      forall j | 0 <= j < i + 1 ensures Active(env, depth, qs[j].id).Return? {
        if j > 0 {
          assert qs[j] == tail[j - 1];
        }
      }
      assert ReturnsBefore(env, depth, qs, i + 1);
    } else {
      assert ReturnsBefore(env, depth, qs, 0);
    }
  }

  /** `settings[settings.gameMode]` */
  function CurrentMode(settings: Settings): (m: ModeSettings)
    requires settings.gameMode in settings.modes
  {
    settings.modes[settings.gameMode]
  }

  /** `selectQuestsWithActive(quests, traders, settings)`. `depth` is the
      call-depth budget of the engine. The result keeps the length and order
      of `quests`, and each view is the quest's view under the current mode. */
  function SelectQuestsWithActive(quests: seq<Quest>, traders: seq<Trader>, settings: Settings, depth: nat): (r: Outcome<seq<QuestView>>)
    requires settings.gameMode in settings.modes
    ensures r.Return? <==> ReturnsBefore(Env(quests, traders, CurrentMode(settings)), depth, quests, |quests|)
    ensures r.Return? ==> |r.value| == |quests| && forall i :: 0 <= i < |quests| ==>
      ViewOf(Env(quests, traders, CurrentMode(settings)), depth, quests[i], r.value[i])
  {
    DeriveViews(Env(quests, traders, CurrentMode(settings)), depth, quests)
  }

  /** With the tracker off the selector never throws and every quest is active. */
  lemma SelectorTrackerOff(quests: seq<Quest>, traders: seq<Trader>, settings: Settings, depth: nat)
    requires settings.gameMode in settings.modes
    requires !CurrentMode(settings).useTarkovTracker
    ensures SelectQuestsWithActive(quests, traders, settings, depth).Return?
    ensures forall i :: 0 <= i < |quests| ==> SelectQuestsWithActive(quests, traders, settings, depth).value[i].active
  {
    var env := Env(quests, traders, CurrentMode(settings));
    forall i | 0 <= i < |quests| ensures Active(env, depth, quests[i].id) == Return(true) {
      TrackerOffActive(env, depth, quests[i].id);
    }
  }

  /** With the tracker on, no completed or failed quest is shown as active. */
  lemma SelectorDoneInactive(quests: seq<Quest>, traders: seq<Trader>, settings: Settings, depth: nat)
    requires settings.gameMode in settings.modes
    requires CurrentMode(settings).useTarkovTracker
    requires SelectQuestsWithActive(quests, traders, settings, depth).Return?
    ensures forall i ::
      (0 <= i < |quests| &&
       (quests[i].id in CurrentMode(settings).completedQuests || quests[i].id in CurrentMode(settings).failedQuests)) ==>
      !SelectQuestsWithActive(quests, traders, settings, depth).value[i].active
  {
  }

  /** Without a cycle through "active" prerequisites, a budget of the largest
      rank is enough: the selector does not overflow. */
  lemma SelectorRankedNoOverflow(quests: seq<Quest>, traders: seq<Trader>, settings: Settings, depth: nat, rank: string -> nat)
    requires settings.gameMode in settings.modes
    requires Ranked(Env(quests, traders, CurrentMode(settings)), rank)
    requires forall i :: 0 <= i < |quests| ==> rank(quests[i].id) <= depth
    ensures SelectQuestsWithActive(quests, traders, settings, depth) != Throw(StackOverflow)
  {
    var env := Env(quests, traders, CurrentMode(settings));
    var r := SelectQuestsWithActive(quests, traders, settings, depth);
    if r.Throw? {
      DeriveThrowsFirst(env, depth, quests);
      var i :| 0 <= i < |quests| && ReturnsBefore(env, depth, quests, i) && Active(env, depth, quests[i].id) == Throw(r.error);
      RankedNoOverflow(env, rank, depth, quests[i].id);
    }
  }

  lemma {:induction false} DeriveIgnoresLevels(env: Env, m': ModeSettings, depth: nat, qs: seq<Quest>)
    requires SameProgress(env.mode, m')
    ensures DeriveViews(env.(mode := m'), depth, qs) == DeriveViews(env, depth, qs)
  {
    if qs != [] {
      ActiveIgnoresLevels(env, m', depth, qs[0].id);
      DeriveIgnoresLevels(env, m', depth, qs[1..]);
    }
  }

  /** Changing the player level or any trader level never changes the
      selector's result. */
  lemma SelectorIgnoresLevels(quests: seq<Quest>, traders: seq<Trader>, settings: Settings, depth: nat, m': ModeSettings)
    requires settings.gameMode in settings.modes
    requires SameProgress(CurrentMode(settings), m')
    ensures SelectQuestsWithActive(quests, traders, settings.(modes := settings.modes[settings.gameMode := m']), depth) ==
      SelectQuestsWithActive(quests, traders, settings, depth)
  {
    DeriveIgnoresLevels(Env(quests, traders, CurrentMode(settings)), m', depth, quests);
  }

  /** Objectives `[null, a, b]` with `a` completed become `[a: complete, b: not complete]`. */
  lemma ObjectivesExample(a: Objective, b: Objective)
    requires a.id != b.id
    ensures AnnotateObjectives([None, Some(a), Some(b)], Some([a.id])) ==
      [AnnotatedObjective(a, true), AnnotatedObjective(b, false)]
  {
    var objs: seq<Option<Objective>> := [None, Some(a), Some(b)];
    assert objs[1..] == [Some(a), Some(b)];
    assert objs[1..][1..] == [Some(b)];
    assert objs[1..][1..][1..] == [];
  }
}
