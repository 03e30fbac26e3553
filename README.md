# Daily Ascensions — a verified model of the habit tracker's core

Daily Ascensions is a habit tracker that turns six daily habits into a small
game. Tapping a habit adds progress up to its target and earns XP. XP raises
the player's level, up to level 100. Finishing every habit on a day extends
a streak. One hundred achievements unlock as the player's level, streak,
meditation minutes and early-morning count grow. On start-up the saved
state is loaded and merged with defaults. On the first start of a new day,
the previous day's completions are archived, the habits reset and the
streak re-checked.

This project models that logic in Dafny and proves what it promises. It
covers the records of `types.ts`, the catalogue and threshold helpers of
`constants.ts`, and the state transitions of `App.tsx`.

Modules, one file each:

- `Types`: the records (`Habit`, `Achievement`, `HistoryEntry`,
  `UserStats`, `UserState`), with `Option` for nullable fields. A day is
  an abstract string compared only by equality.
- `Text`: decimal rendering of numbers (`toString`) with its parse-back
  round trip, and first-occurrence string replacement (`replace`).
- `Roman`: `romanize`. A method runs the source's key-table loop; it is
  proved equal to the digit-group definition of Roman numerals, whose
  value is proved to give back `n`.
- `Constants`:
  - `INITIAL_HABITS`, the XP constants and `getXpForNextLevel`;
  - the translation templates;
  - `generateAchievements`, as a method with the four push loops, proved
    equal to a position-by-position catalogue function;
  - that function's properties: layout, threshold schedules, distinct ids,
    independence of language.
- `Leveling`: `addXP`, as the source's subtraction loop. It is proved
  against a relation that pins down the single possible outcome.
- `Actions`: `handleIncrement` and `handleAllHabitsCompleted`.
- `Achievements`: `checkAllAchievements`, and the id-keyed overlay of
  unlock flags used when the language changes.
- `Loading`: the mount effect, that is:
  - merging a saved blob with defaults;
  - overlaying saved unlocks on the catalogue;
  - the daily reset.

The clock enters as parameters. Handlers receive `hour` and `today`. The
mount effect receives `today` and `yesterday`, the day before `today` as
the caller's clock computes it. Each handler is modelled from one snapshot
of the component state to the next. The state updaters a handler queues are
applied in the order it queues them: `addXP`'s updater, then the statistics
updater, then the completion handler's.

## Model

| member | source | states |
|---|---|---|
| Constants.InitialHabitsShape | constants.ts:82-143 | six habits with ids "1" to "6", each starting at 0 with an increment above 0 and at most its target, so all progress is in range |
| Constants.XpForNextLevelAtLeastBase | constants.ts:225-227 | from level 1 on, every threshold is at least `BASE_XP_THRESHOLD` (100) |
| Constants.XpForNextLevelExamples | constants.ts:222-227 | the threshold is 100 at level 1, 105 at level 2 and 110 at level 3 |
| Constants.PowMonotoneBase | constants.ts:226 | the growth factor 21^e/20^e of the threshold formula is never below 1 |
| Constants.FillIsReplace | constants.ts:156-157 | filling a template's slot gives the same text as replacing the first `{0}` when no brace precedes it |
| Constants.TranslationsWellFormed | constants.ts:43-78 | in both languages, no brace comes before the `{0}` of any of the eight achievement texts |
| Constants.GenerateAchievements | constants.ts:147-218 | the four push loops produce exactly the catalogue function's 100 entries for the language |
| Constants.PushLevels | constants.ts:151-164 | the level loop appends catalogue entries 1 to 25 |
| Constants.PushStreaks | constants.ts:166-183 | the streak loop, with its running threshold, appends catalogue entries 26 to 50 |
| Constants.PushEarlyBirds | constants.ts:185-199 | the early-bird loop appends catalogue entries 51 to 75 |
| Constants.PushMasters | constants.ts:201-215 | the Zen-master loop appends catalogue entries 76 to 100 |
| Constants.InitialAchievementsShape | constants.ts:220 | the initial list has 100 entries, all locked, the first being `lvl_4` "Level 4" |
| Constants.CatalogueAt | constants.ts:147-218 | the catalogue has 100 entries, and entry k is the ordinal-th entry of its block's category |
| Constants.EntryFields | constants.ts:154-163 | each entry carries its category's id, its category as both category and icon, its threshold, and is locked |
| Constants.CatalogueIdAt | constants.ts:155 | the id at position k is the block's prefix followed by the threshold |
| Constants.CatalogueLayout | constants.ts:147-217 | 25 level, then 25 streak, then 25 early-bird, then 25 Zen-master entries, all locked, icon equal to category |
| Constants.CatalogueIgnoresLanguage | constants.ts:149-157 | the two languages' catalogues agree, position by position, on id, category, threshold and lock flag |
| Constants.StreakTargetClosedForm | constants.ts:167-171 | from the second streak entry on, the running threshold is 5i - 3 |
| Constants.TargetSchedules | constants.ts:152-213 | the thresholds are 4i (to 100), then 3, 7, +5 (to 122), then 1, 5(i-1) (to 120), then 50i (to 1250) |
| Constants.TargetIncreasing | constants.ts:152-213 | within each category the thresholds strictly increase |
| Constants.EntryIdsDistinct | constants.ts:155-206 | two different (category, ordinal) pairs never share an id |
| Constants.CatalogueIdsDistinct | constants.ts:147-218 | all 100 ids of a catalogue are pairwise distinct |
| Constants.EntryTextsReplace | constants.ts:156-208 | each title and description is the template with its first `{0}` replaced: the Roman ordinal in early-bird and Zen-master titles, the threshold everywhere else |
| Constants.TitlesEn | constants.ts:44-47 | the English titles read "Level 4i", "t-Day Streak", "Early Bird" plus the numeral, "Zen Master" plus the numeral |
| Constants.DescriptionsEn | constants.ts:44-47 | the English descriptions spell out the threshold in each category's sentence |
| Constants.EntryIdExamples | constants.ts:155-206 | the first ids are `lvl_4`, `str_3` and `early_1`, and the last is `zen_1250` |
| Text.ParseNatToString | constants.ts:153-157 | reading the decimal rendering of a number back gives the number |
| Text.NatToStringInjective | constants.ts:155 | distinct numbers render differently |
| Text.ReplaceFirstAfterPrefix | constants.ts:156 | when the pattern's first character does not occur in the text before it, the first-occurrence replacement puts the replacement exactly where the pattern stood |
| Roman.Romanize | constants.ts:6-16 | the key-table loop over the last three digits, plus one M per thousand, yields the Roman numeral of n |
| Roman.KeyRow | constants.ts:9-11 | row i, column d of the key table holds the numeral group of digit d at that position |
| Roman.RomanNumeralAsGroups | constants.ts:14-15 | the numeral is the M's for the thousands followed by the three lower groups |
| Roman.GroupValue | constants.ts:9-11 | each key-table group is worth its digit times its power of ten |
| Roman.RomanNumeralValue | constants.ts:6-16 | reading the numeral of n back, subtracting a symbol that precedes a larger one, gives n |
| Roman.RomanNumeralAlphabet | constants.ts:6-16 | a numeral uses only I, V, X, L, C, D and M |
| Roman.RomanNumeralExamples | constants.ts:6-16 | 1, 4, 9, 14 and 25 give I, IV, IX, XIV and XXV |
| Leveling.AddXP | App.tsx:320-348 | the outcome: only the three XP fields change, XP is conserved, and the climb stops at the first uncovered threshold or at 100 |
| Leveling.LevelOutcomeUnique | App.tsx:327-332 | the outcome is a function of the starting state and the amount |
| Leveling.NotCoveredWhereStopped | App.tsx:327 | below 100 the climb stops only where the XP left does not cover the threshold |
| Leveling.LevelOutcomeXpNonNegative | App.tsx:327-332 | when the XP plus the amount is non-negative, the XP stays non-negative after paying thresholds |
| Leveling.LevelOutcomeInRange | App.tsx:320-347 | from a level in 1..100, the level stays in range and never drops; after a level-up the threshold is the formula's, otherwise only the XP moves |
| Leveling.AtCapXpKept | App.tsx:327-332 | at level 100 the added XP is kept in full and nothing else moves |
| Leveling.ConsumedAtLeast | App.tsx:327-330 | each level climbed costs at least 100 XP |
| Leveling.OneActionOneLevel | App.tsx:272 | from a settled state, one action's 15 XP raises the level by at most one |
| Actions.FindIndex | App.tsx:259 | the first position holding the id, or -1 exactly when no habit has it |
| Actions.BumpStats | App.tsx:275-289 | meditation minutes grow by the full increment only for habit "3", the early-bird count by 1 only in hours 4 to 7, and nothing else changes |
| Actions.CompleteDay | App.tsx:299-318 | afterwards the last completion is today and only the statistics changed |
| Actions.CompleteDayEffect | App.tsx:302-316 | a completion already dated today changes nothing; otherwise the streak grows by exactly one, and no other statistic moves |
| Actions.CompleteDayIdempotent | App.tsx:303-305 | a second completion on the same day is a no-op |
| Actions.CompleteDayRepeated | App.tsx:299-318 | any number of completions on one day raise the streak by at most one |
| Actions.HandleIncrement | App.tsx:254-297 | unknown id or finished habit: no change; else only that habit moves, clamped to its target; XP, counters and streak move only if progress did (details below) |
| Achievements.CheckAllAchievements | App.tsx:197-235 | an entry ends unlocked iff it was or its statistic reaches its target; `hasUpdates` iff something flipped, with the last flipped title (details below) |
| Achievements.CheckIdempotent | App.tsx:202-228 | a second evaluation on the same state flips nothing and changes nothing |
| Achievements.CheckMonotone | App.tsx:202-228 | with statistics that only grew, every entry unlocked before is unlocked again |
| Achievements.OverlayUnlockedIds | App.tsx:168-173 | after the overlay, the unlocked ids are exactly the given ids that the new list contains |
| Achievements.Relocalize | App.tsx:165-174 | the language switch yields the new language's catalogue with the old unlocked ids laid over it |
| Achievements.CatalogueIdsAgree | constants.ts:147-218 | both languages' catalogues carry the same set of ids |
| Achievements.RelocalizeKeepsUnlocked | App.tsx:165-174 | switching language keeps the set of unlocked ids, and switching again keeps it once more |
| Loading.MergeUserState | App.tsx:65-74 | missing statistics default to: last login today, streak 0, early-bird count 0, no completion, empty history; the threshold is recomputed from the level |
| Loading.CompletedIds | App.tsx:95-97 | an id is listed exactly when some loaded habit with it is complete, and the list is empty exactly when none is |
| Loading.CompletedIdsAppend | App.tsx:95-97 | the list keeps habit order: it distributes over concatenation |
| Loading.ReconcileEffect | App.tsx:89-127 | same day: no change; new day: login today, habits at 0, streak kept iff completed yesterday, at most one history entry in front (details below) |
| Loading.ReconcileIdempotent | App.tsx:93 | resetting twice with the same today is resetting once |
| Loading.ReconcileNoDuplicateGuard | App.tsx:99-107 | the reset adds a second entry for a day that already heads the history |
| Loading.ReconcileKeepsDatesFresh | App.tsx:92-107 | if no history date repeats, none equals the login day and today is new, this stays true after the reset |
| Loading.StreakOnlyFromYesterday | App.tsx:113-122 | a completion dated today still clears the streak when the login day is older |
| Loading.StreakContinuity | App.tsx:113-122 | opening the day after a completed day keeps the streak; opening two days later clears it |
| Loading.DailyReset | App.tsx:89-127 | the step-by-step reset of the merged state and the habits yields the reset function's result |
| Loading.LoadAchievements | App.tsx:76-83 | saved unlocks laid over the Spanish catalogue, or the initial list when nothing was saved |
| Loading.LoadParsed | App.tsx:62-129 | merge, overlay, habits, theme and language taken from the blob when present, then the daily reset |
| Loading.Load | App.tsx:58-139 | no save gives the defaults with the Spanish catalogue; an unreadable save keeps every default; a parsed one is loaded as above |
| Loading.LoadedAchievements | App.tsx:76-83 | a loaded catalogue has 100 entries, unlocked exactly for the saved unlocked ids the catalogue knows |
| Loading.SaveThenLoad | App.tsx:142-152 | loading what the save effect wrote, on the day of the last login, gives the session back, with the threshold recomputed and the achievements rebuilt with the same unlocked catalogue ids |

The longer contracts:

- **handleIncrement.**
  - An unknown id, or a habit already at its target, changes nothing.
  - Otherwise only that habit moves, to `min(current + incrementValue, target)`.
    Every other habit is kept, and progress stays within `0..target` when
    increments are non-negative.
  - When the progress did not change, neither XP nor statistics change.
  - When it changed:
    - the XP fields are an `addXP(15)` outcome;
    - the statistics move as `BumpStats` says;
    - the completion step runs exactly when every habit is now done.
- **checkAllAchievements.**
  - The list keeps its length, order and every field but `unlocked`.
  - An entry ends unlocked when it was unlocked, or when its category's
    statistic reaches its target, so no entry is ever locked again.
  - `hasUpdates` holds exactly when some locked entry flips. It is then the
    title of the last flipped entry in list order; with no flip the title
    is empty and the list unchanged.
- **Daily reset.**
  - When the login day is today, nothing changes.
  - Otherwise:
    - the login day becomes today;
    - every habit restarts at 0 with its other fields kept;
    - the streak survives only a completion dated yesterday;
    - everything else in the state is kept;
    - the history gains one entry at the front exactly when some loaded habit
      was complete: the old login day with the completed ids. Otherwise the
      history is unchanged.

Behaviour of the code that the model keeps as written:

- The daily reset has no duplicate-date guard on the history, although the
  comment at App.tsx:105 suggests one. `ReconcileNoDuplicateGuard` shows
  the second entry for the same day that it adds.
- The streak survives the reset only when `lastCompletionDate` equals
  yesterday (App.tsx:120). A completion dated today also clears it; see
  `StreakOnlyFromYesterday`.
- The evaluator keeps only the title of the last entry it flips
  (App.tsx:224), and so does `CheckAllAchievements`.
- With no save at all, the achievements become `generateAchievements('es')`
  (App.tsx:136; `Load`, case `Missing`). Two paths keep the English
  `INITIAL_ACHIEVEMENTS`: a failure caught by the `try` block (`Load`, case
  `Unparsable`), and a parsed save without `achievements`, which skips
  App.tsx:76-83 (`LoadedCatalogue(None)`). In the running app the start-up
  run of the language effect (App.tsx:165-174) then replaces either list
  with the catalogue in the current language. That effect is not modelled
  as a separate step; see below.

## Left out

- Views, notifications, confetti, theme switching on the document, and the
  sign-in dialog: presentation and network code with no state logic.
- Storage: reading and writing `localStorage` and JSON encoding. The parsed
  blob is an input with optional fields. `SavedForm` models what the saving
  effect writes; only the `localStorage` write itself is left out.
- Loading.Load: the `Unparsable` case covers the failures that happen
  before any state update is queued at App.tsx:82:
  - `JSON.parse` failing (App.tsx:62);
  - a `null` blob (App.tsx:65);
  - a user state without `stats` (App.tsx:67);
  - `achievements` that is not an array (App.tsx:77).
  These keep every default.
- Loading.Load: a late throw is not modelled. When the day changed and
  `habits` is truthy but not an array, or holds a `null` record, App.tsx:96-97
  throws after `setAchievements` (82), `setHabits` (85), `setTheme` (86) and
  `setLanguage` (87) were queued. Those updates still apply. Only the habit
  reset (110) and `setUserState` (129) are skipped, so the loaded habits keep
  their progress.
- The clock: `new Date()`, `getHours` and `toDateString` are the parameters
  `today`, `yesterday` and `hour`.
- Constants.XpForNextLevel: computed exactly as the floor of 100·1.05^(level-1),
  using the fraction 21/20. For every level from 1 to 100 this agrees with
  the floating-point `Math.pow` of the source. At levels 1 and 2 the value is
  the integer 100 or 105. From level 3 on it is never closer than 1.6·10⁻⁶ of
  its own size to the integer above it (closest at level 41, 0.0011 below
  704). The two could differ only for a saved level far above
  the cap of 100; that rounding is not modelled.
- Roman.Romanize: takes a natural number. The source's `NaN` result and its
  handling of negative or fractional input are not modelled; the catalogue
  calls it only with 1 to 25.
- Loading.MergeUserState: a saved `currentStreak` of `null` is treated as
  absent. A missing `totalMeditationMinutes` (which the source would turn
  into `NaN` on the first meditation) is not modelled: the field is always a
  number.
- Loading.Load: the blob's field types are taken as well formed. A saved
  theme or language outside the two known values, and habit records with
  missing fields, are not modelled.
- The localisation of habit titles and units on a language switch
  (App.tsx:157-162) is not modelled: it only changes display strings.
- The `useEffect` that runs the language overlay once on start-up, after
  loading, is not modelled as a separate step. `Relocalize` is that step.
- Types.Achievement: the `color` field holds one of four palette tags. The
  Tailwind class strings they stand for are in `ColorClasses`.
- Constants.Templates: each translation text is stored as the parts before
  and after its single `{0}`. `FillIsReplace` and `TranslationsWellFormed`
  prove that filling the gap equals the source's first-occurrence
  `replace` on the full text.
- React batching and re-rendering: each handler is modelled as one snapshot
  step. The evaluator re-running after each statistics change is the
  caller's concern.
- Constants.GenerateAchievements: each of its four loops is a separate
  method (`PushLevels`, `PushStreaks`, `PushEarlyBirds`, `PushMasters`);
  the loop bodies are the source's.
