# Quest activity and quest cache of tarkov-dev, in Dafny

This project models the quests feature of the tarkov-dev web client
(`src/features/quests/index.js`). That feature does two things:

- **The quest selector** (`selectQuestsWithActive`). It takes the quest list, the trader
  list and the settings of the current game mode. For every quest it returns a view that
  adds two things:
  - the quest's objectives, with falsy entries dropped and a `complete` flag added;
  - the quest's `active` flag.

  `active` comes from a chain of gates that can return early:
  1. tracker off;
  2. completed or failed;
  3. quest not found;
  4. player level (inert);
  5. faction;
  6. task requirements;
  7. trader level (inert).

  A requirement with status `"active"` calls the activity check again, on the required
  quest, so the recursion follows the prerequisite graph.
- **The quests slice of the store**. It holds `data`, `status` (`idle`, `loading`,
  `succeeded` or `failed`) and `error`, and updates them in place when the fetch action
  is pending, fulfilled or rejected.

Modules:

- `QuestTypes` (`quest_types.dfy`): the records and `Find`, which models `Array.prototype.find`.
  - A JavaScript call that returns or throws is modelled as `Outcome<T>`, which is
    `Return(value)` or `Throw(error)`.
  - There are two exceptions. `StackOverflow` is the `RangeError` of non-terminating
    prerequisite recursion. `TraderNotFound` is the `TypeError` raised when a level
    requirement names a trader that is not in the list.
  - Falsy entries of `taskRequirements` and `objectives` are `None`.
- `QuestStatus` (`quest_status.dfy`): the `questStatus` closures.
  - `Active`, `EvalQuest`, `TaskGate`, `Satisfied` and `StatusHolds` are mutually
    recursive functions that specify `questStatus.active`. `TraderGate`, the scan of
    the level requirements, recurses only on itself.
  - `ComputeActive` and `ComputeSatisfied` are the source's loop-based evaluation:
    `for` loops, a `reqSatisfied` flag, `break`, `continue` and early returns.
    `ComputeSatisfied` is the inner loop over one requirement's statuses. They are
    proved equal to `Active` and `Satisfied`.
  - The JavaScript recursion has no bound, because a cycle of `"active"` prerequisites
    recurses until the engine's call stack runs out. The model bounds it with a parameter,
    `depth`: the number of nested calls the call stack admits.
- `QuestStatusLemmas` (`quest_status_lemmas.dfy`): the properties of the gates, the
  inertness of the two level comparisons, and facts about `depth`:
  - a larger budget never changes an outcome that did not overflow;
  - a self-prerequisite overflows for every budget;
  - an acyclic ranking bounds the budget needed.
- `QuestViews` (`quest_views.dfy`): the objective annotation, the `quests.map` of the
  selector (`DeriveViews`), and the selector itself (`SelectQuestsWithActive`), with
  lemmas about the selector's result.
- `QuestsCache` (`quests_cache.dfy`): the class `QuestsSlice`, with one method per reducer
  case. It has three ghost fields:
  - `placeholder`, the initial data;
  - `delivered`, the payloads of successful fetches;
  - `replacements`, how many times `data` was replaced.

  `Valid()` states that `data` is always the last delivered payload, or the placeholder
  when no fetch has succeeded yet.

Two details of the code that the model keeps:

- The trader-level comparison is inert, but reading `trader.normalizedName`
  (index.js:101-102) throws when `traders.find` finds no trader. The model keeps this as
  `TraderNotFound`.
- The rejected case stores `action.payload` (index.js:41), not `action.error`. The model
  stores the payload it is given.

## Model

| member | source | states |
|---|---|---|
| QuestTypes.Find | src/features/quests/index.js:71 | The result is absent iff no element matches; otherwise it is the first element that matches. |
| QuestStatus.FindQuest | src/features/quests/index.js:71 | The quest found carries the id and is in the list. Nothing is found iff no quest carries the id. |
| QuestStatus.FindTrader | src/features/quests/index.js:101 | The trader found carries the id and is in the list. Nothing is found iff no trader carries the id. |
| QuestStatus.Active | src/features/quests/index.js:61-107 | Anything but "active" needs the tracker on. With the tracker on, "active" needs the id to be neither completed nor failed, a quest to be found, and the faction gate to pass. Only a found quest can throw. The lemmas TrackerOffActive, TrackerOnLookup, DuplicateJudgedByFirst, FactionGate, ActiveIgnoresLevels, ActiveDepthMonotone, SelfPrerequisiteOverflows and RankedNoOverflow characterise it further. |
| QuestStatus.EvalQuest | src/features/quests/index.js:75-106 | The found quest is active or throws only if the faction gate passes. It is inactive only if the faction gate rejects or the requirement scan decides inactive; the trader gate never makes it inactive. |
| QuestStatus.TaskGate | src/features/quests/index.js:81-99 | Deciding "active" needs a falsy entry. Deciding "inactive" needs a present requirement that is not satisfied. Letting evaluation go on needs every entry present. SatisfiedPrefixSkipped, NullRequirementDecidesActive, FirstUnsatisfiedDecidesInactive and AllSatisfiedPasses state the order of the scan. |
| QuestStatus.Satisfied | src/features/quests/index.js:82-95 | A satisfied requirement has a recognized status that holds of the required quest. Only a list containing "active" can throw. UnrecognizedSkipped and SatisfiedIffSomeStatusHolds give both directions. |
| QuestStatus.StatusHolds | src/features/quests/index.js:55-60 | Only a recognized status can hold, and only "active" can throw. StatusMeaning gives the value of each status. |
| QuestStatus.TraderGate | src/features/quests/index.js:100-105 | The trader gate never decides activity: it lets evaluation go on or throws TraderNotFound. TraderGateNeedsTraders says when it throws. |
| QuestStatus.LevelRequirements | src/features/quests/index.js:100 | Every kept trader requirement has type "level" and comes from the input. Every "level" requirement of the input is kept. LevelRequirementsAppend and LevelRequirementsSingle fix order and multiplicity. |
| QuestStatusLemmas.LevelRequirementsAppend | src/features/quests/index.js:100 | The "level" filter distributes over concatenation, so the kept requirements keep their order and multiplicity. |
| QuestStatusLemmas.LevelRequirementsSingle | src/features/quests/index.js:100 | A single trader requirement is kept iff its type is "level". |
| QuestStatus.ComputeActive | src/features/quests/index.js:61-107 | The loop-based evaluation returns the same value, or throws the same exception, as the specification `Active`. |
| QuestStatus.ComputeSatisfied | src/features/quests/index.js:82-95 | The loop over one requirement's statuses, with `continue` and `break`, returns the same value, or throws the same exception, as the specification `Satisfied`. |
| QuestStatusLemmas.TrackerOffActive | src/features/quests/index.js:62-64 | With `useTarkovTracker` off, every id is active, whatever else the settings hold. |
| QuestStatusLemmas.TrackerOnLookup | src/features/quests/index.js:65-74 | With the tracker on, an id that is completed, failed or carried by no quest is inactive. Otherwise the gates of the first quest with that id decide. |
| QuestStatusLemmas.DuplicateJudgedByFirst | src/features/quests/index.js:65-74 | With the tracker on and the id neither completed nor failed, a later quest with the same id as the first quest carrying it is judged by the gates of that first quest. |
| QuestStatusLemmas.FactionGate | src/features/quests/index.js:78-80 | The quest is inactive when its faction is not "Any", the player's faction is not "NONE", and the two differ. In every other case the quest is evaluated as if its faction were "Any". |
| QuestStatusLemmas.StatusMeaning | src/features/quests/index.js:55-60 | "complete" and "failed" mean membership in the completed and failed lists. "active" is the activity one call deeper, and overflows when no depth is left. An unrecognized status does not hold. |
| QuestStatusLemmas.UnrecognizedSkipped | src/features/quests/index.js:86-90 | Removing the unrecognized statuses from a requirement does not change whether it is satisfied. |
| QuestStatusLemmas.SatisfiedIffSomeStatusHolds | src/features/quests/index.js:86-95 | When no status evaluation throws, a requirement is satisfied iff some status in its list holds of the required quest. |
| QuestStatusLemmas.SatisfiedPrefixSkipped | src/features/quests/index.js:81-99 | Present, satisfied requirements at the front of the list do not change the outcome of the requirement scan. |
| QuestStatusLemmas.NullRequirementDecidesActive | src/features/quests/index.js:83-85 | A falsy requirement that follows only satisfied ones makes the quest active. The requirements after it are never examined. |
| QuestStatusLemmas.FirstUnsatisfiedDecidesInactive | src/features/quests/index.js:96-98 | The first unsatisfied requirement, reached after only satisfied ones, makes the quest inactive, whatever follows it. |
| QuestStatusLemmas.AllSatisfiedPasses | src/features/quests/index.js:81-99 | When every requirement is present and satisfied, the requirement gate lets evaluation go on. |
| QuestStatusLemmas.TraderGateNeedsTraders | src/features/quests/index.js:100-105 | The trader gate passes iff every level requirement names a listed trader. Otherwise it throws for the first one that does not. It never decides inactivity. |
| QuestStatusLemmas.ActiveIgnoresLevels | src/features/quests/index.js:75-105 | Changing the player level or any trader level never changes the outcome of the activity check. |
| QuestStatusLemmas.ActiveDepthMonotone | src/features/quests/index.js:86-91 | A larger call-depth budget gives the same outcome, unless the smaller budget overflowed. |
| QuestStatusLemmas.SelfPrerequisiteOverflows | src/features/quests/index.js:86-91 | A reachable quest whose first requirement is itself being "active" recurses without end, and every budget overflows. |
| QuestStatusLemmas.RankedNoOverflow | src/features/quests/index.js:86-91 | Rank quests so that every "active" prerequisite ranks below the quest that requires it. Then a budget of an id's rank never overflows. |
| QuestViews.Present | src/features/quests/index.js:120 | The filter never lengthens the list, and every kept element is a present entry of the input. PresentAppend and PresentMembers give order and the converse. |
| QuestViews.PresentAppend | src/features/quests/index.js:120 | Filtering out falsy entries distributes over concatenation, so the order of the kept entries is preserved. |
| QuestViews.PresentMembers | src/features/quests/index.js:120 | An element survives the filter iff it is a present entry of the input. |
| QuestViews.AnnotateObjectives | src/features/quests/index.js:112-120 | Removing the annotations gives exactly the present objectives, in order. Each `complete` flag is membership of the objective's id in `objectivesCompleted`, or false when that list is absent. |
| QuestViews.ObjectivesExample | src/features/quests/index.js:112-120 | `[null, a, b]` with `a` completed becomes `[a complete, b not complete]`. |
| QuestViews.DeriveViews | src/features/quests/index.js:109-123 | The map returns iff no quest's activity throws. Its result then has one view per quest, in order. Each view holds the quest, its annotated objectives and the activity of the quest's id. |
| QuestViews.SelectQuestsWithActive | src/features/quests/index.js:53-124 | The selector returns iff no quest's activity throws. Its result then has one view per input quest, in order; each holds the quest, its annotated objectives and its activity under the current game mode's settings. |
| QuestViews.DeriveThrowsFirst | src/features/quests/index.js:109-123 | A throwing map throws the exception of the first quest whose activity throws, after all earlier quests returned. |
| QuestViews.SelectorTrackerOff | src/features/quests/index.js:62-64 | With the tracker off, the selector never throws and marks every quest active. |
| QuestViews.SelectorDoneInactive | src/features/quests/index.js:65-70 | With the tracker on, no completed or failed quest is shown as active. |
| QuestViews.SelectorRankedNoOverflow | src/features/quests/index.js:86-91 | Without a cycle through "active" prerequisites, a budget of the largest rank keeps the selector from overflowing. |
| QuestViews.SelectorIgnoresLevels | src/features/quests/index.js:75-105 | The selector's result does not depend on the player level or the trader levels. |
| QuestsCache.QuestsSlice.constructor | src/features/quests/index.js:12-16 | The slice starts with the placeholder data, status idle and no error. |
| QuestsCache.QuestsSlice.Pending | src/features/quests/index.js:28-30 | Sets the status to loading and changes nothing else. |
| QuestsCache.QuestsSlice.Fulfilled | src/features/quests/index.js:31-37 | Sets the status to succeeded. Afterwards the data equals the payload, and it was replaced only if it was not already structurally equal. The error is left as it was. |
| QuestsCache.QuestsSlice.Rejected | src/features/quests/index.js:38-42 | Sets the status to failed and the error to the action's payload. The data is left as it was. |

## Left out

- The `fetchQuests` thunk and the fetch helper are network I/O. The reducer methods take
  the action payload as a parameter.
- `useAchievementsData`, `usePrestigeData` and `useQuestsData` are left out. So are their
  effects, the module-level `fetchedLang`/`fetchedGameMode`/`refreshInterval` variables,
  the 10-minute interval and the window-focus check. They are React lifecycle and timer
  glue.
- The `setDataLoading` and `setDataLoaded` dispatches are calls into a store this model
  does not include.
- The `console.log` calls, including the warning for an unrecognized status and the log
  of a rejected fetch, are left out.
- The `createSelector` memoisation layer is left out. Only the function it wraps is
  modelled.
- `fast-deep-equal` is replaced by Dafny's structural equality on datatypes.
- `placeholderTasks` and `langCode` are left out. The placeholder data is a constructor
  parameter.
- In JavaScript, a status string that names an `Object.prototype` member, such as
  `"toString"`, would find a function on `questStatus`. The model treats every status
  other than "complete", "failed" and "active" as unrecognized.
- Fields the code reads without checking are assumed present:
  - `req.task`, `req.status` and `quest.taskRequirements`;
  - `quest.traderRequirements` and `quest.objectives`;
  - the entries of `traderRequirements` (a null entry makes `req.requirementType`
    throw) and their `req.trader`;
  - the settings record of the current game mode. `SelectQuestsWithActive` requires
    this one.

  When one of them is absent, the JavaScript code throws a `TypeError` once a quest is
  mapped that reads it. With no quests the selector reads no settings and returns `[]`,
  whatever the settings hold. The model does not represent either case when the
  settings record is missing.
- `useTarkovTracker` is a boolean in the model. Other truthy or falsy values are not
  represented.
- An objective's fields other than `id` are represented by one `description` field,
  which is copied through unchanged.
- `{...quest}` copies every field of a quest. The model's `Quest` keeps only the six
  fields the derivation reads, and the view carries them unchanged.
- The size of the engine's call stack is the `depth` parameter. The model does not state
  the actual limit of any engine.
- `QuestsSlice.Rejected`: the thunk never supplies a rejection payload. Under Redux
  Toolkit the stored error is then absent. The model stores whatever payload it is given.
