# OPIc Mate: the script review loop

OPIc Mate is a browser tool for rehearsing answers to spoken-English
interview questions. A learner builds a library of answer scripts with a
four-step wizard backed by a text-generation service. The learner then
drills them in short practice sessions: each script is answered "Easy" or
"Hard", and the session's results are folded back into per-script
success/failure counters. This project models that loop in Dafny and proves
what it guarantees:

- which three scripts a session drills;
- how a session records one answer per drilled script and hands the results
  over once;
- how the library changes when results are applied, a script is added or a
  script is deleted;
- the dashboard's "due" count and newest-first listing;
- the creation wizard's step machine and the record it saves.

Modules, one per source file, plus two shared ones (`Filtering`, `StableSort`):

- `Types` (types.ts): `ScriptItem`, `Stats`, `SessionResult`, and
  JavaScript truthiness of a timestamp (`null` and `0` are both falsy).
- `Filtering`: `Array.prototype.filter` on sequences, with its laws.
- `StableSort`: `Array.prototype.sort`, which is stable, for comparators
  that compare a pair of integers lexicographically. It is written as a
  stable insertion sort. The lemmas prove it sorts, permutes and keeps ties
  in input order. Each comparator of the source is kept as a function and
  proved to have the sign of that order.
- `Dashboard` (components/Dashboard.tsx): `IsDue`, `DueCount`, `NewestFirst`.
- `PracticeMode` (components/PracticeMode.tsx): `PracticeQueue` and the
  `PracticeSession` class (current index, results, finished flag, hint view).
- `ScriptGenerator` (components/ScriptGenerator.tsx): `Mastered`,
  `NewScript` and the `Generator` class (the wizard's step machine).
- `App` (App.tsx): `ApplyResults`, `RemoveById`, and the `AppState` class
  (current screen and library).

The clock (`Date.now()`), fresh ids (`uuidv4()`), the `confirm()` dialog
and every reply of the generation service are parameters. A reply is either
`Delivered(payload)` or `Failed`. Methods whose button exists only on one
screen or wizard step require that screen or step. For example,
`HandleResult` requires an unfinished session, because the finished screen
has no answer buttons.

Two consequences of the code that are easy to miss:

- Stopping a session early applies none of its results. "Stop Session"
  only switches screens, and results reach the library only when the last
  script is answered.
- The queue is picked by score, then by last practice time, with no regard
  to the one-hour cool-down. The cool-down only feeds the dashboard's count.

## Model

| member | source | states |
|---|---|---|
| `Types.TimestampOr0` | components/PracticeMode.tsx:20 | `t \|\| 0`: a truthy timestamp is itself, `null` and `0` read as 0 |
| `StableSort.SortBySorted` | components/PracticeMode.tsx:15-21 | the sorted copy is in ascending key order |
| `StableSort.SortByStable` | components/PracticeMode.tsx:15-21 | for every key, the elements with that key keep their input order (stable sort) |
| `StableSort.SortedSplit` | components/PracticeMode.tsx:22 | in a sorted sequence nothing after a cut point sorts strictly before anything up to it |
| `PracticeMode.QueueCompare` | components/PracticeMode.tsx:16-21 | the comparator is negative, zero or positive exactly when the first script's (score, timestamp-or-0) pair is lexicographically below, equal to or above the second's |
| `PracticeMode.QueueDrawnFromLibrary` | components/PracticeMode.tsx:15-22 | the queue has min(3, library size) entries, takes no script more often than the library holds it, and is a prefix of the sorted copy |
| `PracticeMode.QueueOrdered` | components/PracticeMode.tsx:16-21 | queued scripts ascend by success minus failure, ties ascending by last practice time with `null` as 0 |
| `PracticeMode.QueueTakesLowest` | components/PracticeMode.tsx:15-22 | no script left out of the queue sorts strictly before a queued one |
| `PracticeMode.QueueStable` | components/PracticeMode.tsx:15-22 | queued scripts that tie are the first of their tie in library order, in that order |
| `PracticeMode.HintTarget` | components/PracticeMode.tsx:89-127 | every hint button leads to a different view along a permitted move: READY to LOGIC or SCRIPT, LOGIC to SCRIPT, SCRIPT to READY |
| `PracticeMode.HintMovesOffered` | components/PracticeMode.tsx:89-127 | every permitted move is offered by some button |
| `PracticeMode.PracticeSession.constructor` | components/PracticeMode.tsx:13-28 | a session over a non-empty library starts at index 0, view READY, no results, unfinished, nothing handed over |
| `PracticeMode.PracticeSession.HandleResult` | components/PracticeMode.tsx:30-42 | appends exactly one result, for the current queue script; a non-final answer advances the index by one and resets the view to READY; the final answer finishes the session and hands over all results, one per queued script in queue order, exactly once |
| `PracticeMode.PracticeSession.Press` | components/PracticeMode.tsx:89-127 | the view follows the pressed button's permitted move, and nothing else in the session changes |
| `Dashboard.DueCount` | components/Dashboard.tsx:35-39 | the due count is at most the library size |
| `Dashboard.CooldownWindow` | components/Dashboard.tsx:37-38 | a script practised at a truthy time t is due exactly when now > t + one hour; at exactly one hour it is not yet due |
| `Dashboard.DueStaysDue` | components/Dashboard.tsx:38 | a due script stays due as the clock advances |
| `Dashboard.DueCountExtremes` | components/Dashboard.tsx:38 | the count equals the library size exactly when all scripts are due, and is 0 exactly when none is |
| `Dashboard.DueCountAppend` | components/Dashboard.tsx:38 | the count of a concatenation is the sum of the counts |
| `Dashboard.NewestCompare` | components/Dashboard.tsx:42 | the comparator is negative exactly when the first script is newer, zero exactly on equal creation times, and positive exactly when the second is newer |
| `Dashboard.NewestFirstSpec` | components/Dashboard.tsx:41-43 | the listing is a permutation of the library, in non-increasing creation time, with same-time scripts in library order |
| `ScriptGenerator.MasteredSpec` | components/ScriptGenerator.tsx:52 | the mastered list keeps exactly the scripts with more successes than failures (positive score), each as often as it occurs |
| `ScriptGenerator.MasteredAppend` | components/ScriptGenerator.tsx:52 | the mastered list keeps library order |
| `ScriptGenerator.NewScriptFresh` | components/ScriptGenerator.tsx:81-89 | a saved script has zero counts and no practice time, takes text and logic flow from the chosen English version, is due at any time, is not mastered and scores 0 |
| `ScriptGenerator.Generator.constructor` | components/ScriptGenerator.tsx:22-31 | the wizard starts at the QUESTION step with no error, question or selections |
| `ScriptGenerator.Generator.FetchQuestion` | components/ScriptGenerator.tsx:37-48 | clears the error; a delivered question replaces the old one, a failure keeps it and sets the question error |
| `ScriptGenerator.Generator.GenerateKorean` | components/ScriptGenerator.tsx:50-62 | sends the question and the mastered scripts; only a delivered reply stores the samples and moves to KOREAN_DRAFT; a failure keeps the step and sets the error |
| `ScriptGenerator.Generator.SelectKorean` | components/ScriptGenerator.tsx:129 | the clicked Korean sample becomes the selection |
| `ScriptGenerator.Generator.GenerateEnglish` | components/ScriptGenerator.tsx:64-76 | without a selected Korean plan it sends nothing and changes nothing; otherwise it sends the plan, and a delivered reply stores the versions and moves to ENGLISH_SCRIPT while a failure keeps the step and sets the error |
| `ScriptGenerator.Generator.SelectEnglish` | components/ScriptGenerator.tsx:148 | the clicked English version (text and logic flow) becomes the selection |
| `ScriptGenerator.Generator.GoToReview` | components/ScriptGenerator.tsx:166 | REVIEW is entered only when an English version is selected |
| `ScriptGenerator.Generator.Save` | components/ScriptGenerator.tsx:78-91 | a script is produced exactly when question, Korean plan and English version are all present, and it is the zero-stats new script built from them |
| `App.FindResult` | App.tsx:41 | returns the first result with the id, or nothing exactly when no result has it |
| `App.FindResultAppend` | App.tsx:41 | a result appended later is found only when no earlier one has its id |
| `App.ApplyResults` | App.tsx:39-55 | keeps length, order and every field but the stats; a script without a result is unchanged; a script with one gets +1 success or +1 failure as the result says and last practice time `now` |
| `App.ApplyResultsCounts` | App.tsx:46-47 | counts never decrease, and attempts grow by one exactly for scripts with a result |
| `App.LaterResultIgnored` | App.tsx:41 | a further result whose id already has a result, or matches no script, changes nothing |
| `App.JustPractisedNotDue` | App.tsx:48 | a script just given a result is not due for the following hour |
| `App.CompletedSessionApplied` | App.tsx:39-55 | a finished session's results change exactly the library scripts whose id was queued, each with one more attempt and practice time `now` |
| `App.RemoveByIdSpec` | App.tsx:35 | deletion removes every script with the id, keeps every other one as often as it occurred, is the identity when no script has the id, and is idempotent |
| `App.RemoveByIdAppend` | App.tsx:35 | deletion keeps order: it acts on each part of a split library apart |
| `App.AddThenDelete` | App.tsx:28-37 | adding a script with a fresh id and deleting that id gives back the library |
| `App.AppState.constructor` | App.tsx:9-10 | the app starts on the dashboard with an empty library |
| `App.AppState.Load` | App.tsx:12-21 | at start-up, over the still-empty library: a parsed snapshot becomes the library; a missing or unparseable one leaves it empty |
| `App.AppState.SaveScripts` | App.tsx:23-26 | the library becomes the given list |
| `App.AppState.StartCreate` | App.tsx:77 | the dashboard's create button opens the wizard |
| `App.AppState.StartPractice` | components/Dashboard.tsx:53-56 | a session opens only on a non-empty library, which keeps the practice screen's non-empty invariant |
| `App.AppState.GoToDashboard` | App.tsx:95 | leaving a screen, including stopping a session early, returns to the dashboard with the library unchanged |
| `App.AppState.AddScript` | App.tsx:28-31 | the new script is appended after the unchanged earlier entries, and the dashboard is shown |
| `App.AppState.DeleteScript` | App.tsx:33-37 | if confirmed the library becomes the deletion of the id, otherwise it is unchanged |
| `App.AppState.PracticeComplete` | App.tsx:39-55 | the library becomes the old library with the session results applied |
| `App.AppState.OpenSession` | components/Dashboard.tsx:55 | the practice screen always opens its session over a non-empty library, so the session's non-empty requirement is met; the session drills `PracticeQueue` of the current library |

## Left out

- Persistence: writing the library to `localStorage`, and the JSON encoding. At start-up only the three outcomes of the read are modelled: missing, unparseable or parsed. A parsed value that is not a list of scripts is not modelled.
- The generation service (services/geminiService.ts), its prompts, its random topic choice and its response parsing. Each call becomes a `Reply` parameter.
- Asynchrony: each async wizard handler runs as one step, from call to settled reply. The `loading` flag is true only while a call is pending, so it is not modelled. Neither is a click made while a call is pending, nor a double click that reaches `handleResult` twice before React re-renders.
- `App.ApplyResults`: reads the clock once, as `now`. The source calls `Date.now()` once per matched script, so two matched scripts could get timestamps a millisecond apart.
- The pattern-extraction effect on the dashboard (components/Dashboard.tsx:18-33): an async service call that only feeds the display.
- components/PatternPractice.tsx and components/VocabPractice.tsx: they render a queue driven by a parent that is not part of this model, and they toggle a reveal flag.
- constants/patternData.ts: static data with no behaviour.
- Rendering, styling and icons. Screen switches are modelled only as the `view` field.
- Numbers are unbounded integers. JavaScript doubles, `NaN` timestamps and precision loss above 2^53 are not modelled.
