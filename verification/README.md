# FlipCardEngine in Dafny

A model of the core of the flip-card learning engine in `FlipCardEngine.ts`. The engine has a catalog of multiple-choice scenario cards. A learner starts a card and picks an option. Each answer becomes an attempt in the progress record. The record holds:

- the per-card attempt histories;
- the attempt and correct-answer counters;
- the current and best streak of correct answers;
- the completed and bookmarked cards;
- per category, the answer count, correct count, accuracy and running mean of answer times.

An adaptive difficulty engine reads this record. It derives the learner's level and picks cards at that level or one above, preferring categories where accuracy is weak. It advises raising or lowering the difficulty from the ten most recent attempts, and it shuffles the cards it recommends. A progress record can be exported as JSON, and a saved record can be imported through a migration step. As written, a record exported by the engine cannot be imported again; see Findings.

The modules follow the structure of the source:

| file | module | models |
|---|---|---|
| `wrappers.dfy` | `Wrappers` | `Option`, `Result`, `Outcome` |
| `domain.dfy` | `Domain` | difficulty scale, categories, cards, errors, `validateCard`, option lookup |
| `seqs.dfy` | `Seqs` | `Array.prototype.filter` and `slice`, subsequences, distinctness |
| `catalog.dfy` | `Catalog` | the card map: `loadCards` loop, `searchCards`, `filterCards` |
| `progress.dfy` | `ProgressRules` | the progress record, `createInitialProgress`, `updateProgress` and `updateCategoryProgress` as functions, their invariant and whole-session lemmas |
| `migration.dfy` | `Migration` | `migrateProgress`, the export/import envelope |
| `adaptive.dfy` | `Adaptive` | `DefaultAdaptiveDifficultyEngine` |
| `engine.dfy` | `Engine` | the `FlipCardEngine` class with its state-changing methods |

Modelling choices:

- **Maps and insertion order.** A JavaScript `Map` iterates in insertion order, and that order shows:
  - search, filter and recommendation results follow the catalog order;
  - the ranking of recent attempts breaks timestamp ties by history order.

  So the card map and the attempt map are each a Dafny `map` plus the sequence of keys in first-insertion order. A re-inserted key keeps its position. The category map is a plain `map`, because nothing reads its order.
- **Units.** Times are natural numbers of milliseconds. Accuracies and mean times are exact `real`s.
- **Outside inputs.** `Date.now()` is the parameter `now`. Each `Math.random()` draw is a `real` in [0, 1) passed in by the caller.
- **Errors.** Thrown errors become `Result`/`Outcome` values: `InvalidCardFormat`, `NoCorrectAnswer`, `CardNotFound`, `OptionNotFound`, `InvalidProgressFormat`.
- **Categories** are the five of the engine's default configuration.

Three behaviours of the code to note:

- `calculateUserLevel` averages only the categories with at least one correct answer (`completed > 0`); a category answered only wrongly does not count.
- `validateCard` fails with two distinct errors. A structural problem gives `InvalidCardFormat`; a card without a correct option gives `NoCorrectAnswer`.
- An export followed by an import does not round-trip the record; see Findings.

The invariant `ProgressRules.Consistent` ties the counters, numbering and completed set to the attempt histories, and keeps each category entry coherent on its own (at least one answer, no more correct answers than answers, accuracy equal to their ratio); it does not tie the category entries to the histories. It is not part of the engine's `Valid()`, because `migrateProgress` accepts counters that disagree with the history (`Migration.MigrateDoesNotCheckCounters`). `AnswerCard` preserves it whenever it held before.

## Model

| member | source | states |
|---|---|---|
| Domain.ValidateCard | FlipCardEngine.ts:503-512 | a card is accepted iff its id is non-empty, it has a scenario, its options are non-empty and one option is correct; the accepted card carries exactly the input's fields; a rejected card gets `NoCorrectAnswer` exactly when the structural checks passed, and `InvalidCardFormat` otherwise |
| Domain.ValidateAcceptsWellFormed | FlipCardEngine.ts:503-512 | every well-formed card passes validation unchanged |
| Domain.FindOption | FlipCardEngine.ts:280-283 | `find` by option id: none iff no option has the id, otherwise the first option with it |
| Catalog.Upsert | FlipCardEngine.ts:235 | `Map.set` by card id stores the card under its id and leaves every other id as it was; the old key order is a prefix of the new one, which grows by the card's id exactly when the id is new; the catalog stays valid (distinct key order, keys match the map, each card stored under its own id) |
| Catalog.Load | FlipCardEngine.ts:230-238 | the load loop keeps the catalog valid and succeeds iff every card of the batch validates |
| Catalog.LoadStopsAtFirstInvalid | FlipCardEngine.ts:230-238 | when item k is the first invalid card, the result is the catalog after items 0..k-1 together with item k's error |
| Catalog.LoadOrder | FlipCardEngine.ts:230-238 | after a fully valid batch, the listing order is the old order followed by exactly the batch's new ids, each once, in the order of their first occurrence in the batch |
| Catalog.LoadLastWriteWins | FlipCardEngine.ts:230-238 | after a fully valid batch, an id holds the last card of the batch with that id; ids the batch does not mention are untouched |
| Catalog.LoadDistinctGrows | FlipCardEngine.ts:230-238 | loading N valid cards with new, distinct ids adds exactly N entries and N keys |
| Catalog.ValuesAreTheCards | FlipCardEngine.ts:441 | `Array.from(cards.values())` holds exactly the stored cards |
| Catalog.Includes | FlipCardEngine.ts:442-444 | `includes` holds iff the term occurs at some position of the text |
| Catalog.ToLowerAscii | FlipCardEngine.ts:440-444 | the lowercased text has the same length, no capital letter, and every character that is not a capital unchanged |
| Catalog.Values | FlipCardEngine.ts:441 | `Array.from(cards.values())` lists the stored card of each key, in insertion order, no card twice |
| Seqs.Filter | FlipCardEngine.ts:441-445 | `filter` keeps exactly the elements that pass, in their order; each element that passes occurs as often as in the input and each other element not at all |
| Seqs.Take | FlipCardEngine.ts:123 | `slice(0, count)` is the prefix of length min(count, length) |
| Catalog.ToLowerIdempotent | FlipCardEngine.ts:440 | lowercasing twice is lowercasing once |
| Catalog.Search | FlipCardEngine.ts:439-446 | a card is found iff it is stored and the lowercased query occurs in its lowercased title, description or one of its tags; results keep catalog order |
| Catalog.SearchIgnoresQueryCase | FlipCardEngine.ts:439-446 | searching with a query and with its lowercase gives the same cards |
| Catalog.SearchEmptyQueryListsAll | FlipCardEngine.ts:439-446 | the empty query lists the whole catalog in order |
| Catalog.FilterCards | FlipCardEngine.ts:448-474 | a card passes iff it meets every given criterion (category, difficulty, shared tag, completed flag, bookmarked flag); results keep catalog order |
| Catalog.FilterWithoutCriteriaListsAll | FlipCardEngine.ts:448-474 | without criteria every stored card passes, in order |
| ProgressRules.InitialProgress | FlipCardEngine.ts:477-501 | a fresh record has zero attempts, correct answers and streaks, and is consistent |
| ProgressRules.AttemptNumber | FlipCardEngine.ts:660-663 | the next attempt number is at least 1 |
| ProgressRules.UpdateCategory | FlipCardEngine.ts:543-564 | a category entry (zero when missing) counts one more answer, and one more correct answer iff the attempt is correct; its accuracy is completed / total again |
| ProgressRules.Tally | FlipCardEngine.ts:514-541 | the steps of updateProgress other than the category update leave the category map, the owner, the start time, the bookmarks, the mastered cards and the difficulty as they were; the last activity becomes `now` and the attempt's time is added to the total time spent |
| ProgressRules.WithCategory | FlipCardEngine.ts:543-564 | definition only: the record with the category's entry replaced by `UpdateCategory` of it; what it changes is stated by RecordCategory and RecordCategoryMap |
| ProgressRules.Record | FlipCardEngine.ts:514-541 | updateProgress for a card of the catalog: `Tally` then `WithCategory`; it leaves the owner, the start time, the bookmarks, the mastered cards and the difficulty as they were, sets the last activity to `now` and adds the attempt's time to the total time spent |
| ProgressRules.RecordCategoryMap | FlipCardEngine.ts:532-536 | recording changes the category map at the answered card's category only, to `UpdateCategory` of its old entry |
| ProgressRules.RunningMean | FlipCardEngine.ts:563 | definition only: its ensures multiplies the definition out; RunningMeanStep states its meaning |
| ProgressRules.RunningMeanStep | FlipCardEngine.ts:563 | folding a sample into the exact mean of n samples gives the exact mean of the n + 1 samples |
| ProgressRules.RecordAppendsOne | FlipCardEngine.ts:514-522 | recording appends the attempt to its own card's history only, and the attempt total grows by one |
| ProgressRules.RecordScoring | FlipCardEngine.ts:523-530 | a correct attempt adds one to the correct answers and to the streak, raises the best streak to the streak when higher, and completes the card; a wrong one only resets the streak |
| ProgressRules.RecordCategory | FlipCardEngine.ts:533-536 | only the answered card's category entry changes, by one answer |
| ProgressRules.CorrectAnswersBounded | FlipCardEngine.ts:522-524 | in a consistent record the correct answers never exceed the attempts |
| ProgressRules.RecordKeepsNumbering | FlipCardEngine.ts:660-663 | with the attempt numbered by getAttemptNumber, every history stays numbered 1, 2, 3, ... and holds only its own card's attempts |
| ProgressRules.RecordKeepsConsistent | FlipCardEngine.ts:514-541 | recording an attempt numbered by getAttemptNumber keeps the record consistent: counters equal the history sums, current streak at most best streak, numbering, correct cards completed, category statistics coherent |
| ProgressRules.ReplayStreaks | FlipCardEngine.ts:523-530 | from a zero streak, after any answers the current streak is the run of correct answers ending at the last answer, and the best streak is the longest such run |
| ProgressRules.BestStreakNeverDrops | FlipCardEngine.ts:526 | the best streak never decreases over a session |
| ProgressRules.ReplayCategoryStats | FlipCardEngine.ts:543-564 | for a category that had no entry, after any answers its entry counts exactly that category's answers and correct answers; its accuracy is their ratio and its average time is the exact mean of their times |
| Migration.MapFromEntries | FlipCardEngine.ts:579 | `new Map(entries)`: every key of the entries is in the map with the value of its last entry; the key order lists each key once, in the order of first occurrence |
| Migration.CategoryMapLastWins | FlipCardEngine.ts:580 | `new Map(entries)` for the category statistics holds every category of the entries, with the statistics of its last entry |
| Migration.CategoryMapFromEntries | FlipCardEngine.ts:580 | definition only; its meaning is stated by CategoryMapLastWins |
| Migration.Migrate | FlipCardEngine.ts:570-582 | migration succeeds iff every collection field is missing or an array, and yields a well-shaped record |
| Migration.MigrateNothingIsFresh | FlipCardEngine.ts:570-582 | migrating an empty saved record gives the fresh record |
| Migration.MigrateDoesNotCheckCounters | FlipCardEngine.test.ts:226-242 | saved counters without history are taken as they are, and the result is not consistent |
| Migration.ExportAsWritten | FlipCardEngine.ts:373-381 | definition only: what `JSON.stringify` makes of the record, every Set and Map becoming a plain object; its consequence is ExportAsWrittenNeverImports |
| Migration.ExportAsWrittenNeverImports | FlipCardEngine.ts:373-381 | no record exported as written can be migrated back |
| Migration.ExportMigrateRoundTrip | FlipCardEngine.ts:373-399 | an export that writes Sets as arrays and Maps as entry arrays migrates back to exactly the original record |
| Migration.Import | FlipCardEngine.ts:383-399 | import fails only with `InvalidProgressFormat`, and always when the payload does not parse; it succeeds iff the payload parses and its progress, if any, is iterable; with a progress payload the result is the migrated record, otherwise the record is unchanged |
| Adaptive.LevelFor | FlipCardEngine.ts:72-77 | the level is the highest one whose accuracy and time thresholds the averages reach |
| Adaptive.LevelMonotone | FlipCardEngine.ts:72-77 | better accuracy and faster answers never give a lower level |
| Adaptive.UserLevel | FlipCardEngine.ts:53-78 | a level above beginner is only given when some category has a correct answer; its thresholds are stated by LevelFor, UserLevelAtLeast and UserLevelWithoutPractice |
| Adaptive.CalculateUserLevel | FlipCardEngine.ts:53-78 | the loop over the category statistics computes the level of the averaged practised categories |
| Adaptive.UserLevelWithoutPractice | FlipCardEngine.ts:53-69 | with no category having a correct answer, the user is a beginner |
| Adaptive.UserLevelAtLeast | FlipCardEngine.ts:53-78 | when every practised category reaches a level's thresholds on its own, the user is at least at that level |
| Adaptive.UserLevelExample | FlipCardEngine.ts:53-78 | categories at 90% in 50 s and 80% in 55 s give expert; a category with no correct answer is ignored |
| Adaptive.IndexOf | FlipCardEngine.ts:128-129 | `indexOf` is -1 iff absent, otherwise the first position |
| Adaptive.WeakCategories | FlipCardEngine.ts:85-87 | definition only: the categories whose accuracy is below 70%; AdaptCards states how they select cards |
| Adaptive.IsLevelAppropriate | FlipCardEngine.ts:126-133 | a card suits iff its rank is the user's rank or one above |
| Adaptive.AdaptCards | FlipCardEngine.ts:80-98 | the adapted cards are exactly the given cards at the user's level or one above and, when some category has accuracy below 70%, in such a category; order is kept and each kept card occurs as often as in the input |
| Adaptive.NewUserGetsTheEasyCards | FlipCardEngine.ts:80-98 | before any answer, exactly the beginner and intermediate cards are adapted, whatever their category |
| Adaptive.SortByRecency | FlipCardEngine.ts:142 | the attempts are reordered newest first, as a permutation |
| Adaptive.Recent | FlipCardEngine.ts:136-143 | the window holds min(count, attempts) attempts drawn from the history, and no attempt left out is more recent than one kept |
| Adaptive.RecentAccuracyOf | FlipCardEngine.ts:135-149 | recent accuracy is in [0, 1], and 0 without attempts or with an empty window |
| Adaptive.RecentAccuracy | FlipCardEngine.ts:135-149 | the flattening loop and ranking compute the recent accuracy |
| Adaptive.RecentWindowSize | FlipCardEngine.ts:135-149 | on a consistent record the window holds min(count, totalAttempts) attempts |
| Adaptive.ShouldIncreaseDifficulty | FlipCardEngine.ts:101-108 | definition only: below expert, recent accuracy at least 85% and a streak of at least five; NeverBoth and IncreaseNeedsAttempts state its consequences |
| Adaptive.ShouldDecreaseDifficulty | FlipCardEngine.ts:110-114 | definition only: recent accuracy below 50% with no current streak; NeverBoth and NewUserIsAdvisedToDecrease state its consequences |
| Adaptive.NeverBoth | FlipCardEngine.ts:101-114 | the engine never advises raising and lowering the difficulty at once |
| Adaptive.IncreaseNeedsAttempts | FlipCardEngine.ts:101-108 | advice to raise the difficulty needs at least one recorded attempt |
| Adaptive.NewUserIsAdvisedToDecrease | FlipCardEngine.ts:110-114 | a fresh record is advised to lower the difficulty |
| Adaptive.Pick | FlipCardEngine.ts:154 | `Math.floor(draw * n)`: the index is the integer part of draw * n, hence below n |
| Adaptive.Shuffle | FlipCardEngine.ts:151-158 | the Fisher-Yates loop returns a permutation of its input |
| Adaptive.GetRecommendedCards | FlipCardEngine.ts:116-124 | min(count, adapted) cards, drawn from the adapted cards without repetition, all of them when count covers them, each one stored and suitable |
| Engine.TimeSpent | FlipCardEngine.ts:665-668 | the simulated answer time lies in [30000, 150000) ms |
| Engine.StatsAccuracy | FlipCardEngine.ts:402-406 | the accuracy is 0 before any attempt and a fraction when the correct answers do not exceed the attempts |
| Engine.StatsAccuracyInRange | FlipCardEngine.ts:402-406 | on a consistent record the accuracy lies in [0, 1] |
| Engine.FlipCardEngine.constructor | FlipCardEngine.ts:170-177 | a new engine has an empty catalog, no current card and fresh progress |
| Engine.FlipCardEngine.LoadCards | FlipCardEngine.ts:230-247 | the new catalog and the outcome are those of the load loop; progress and current card are untouched |
| Engine.FlipCardEngine.StartCard | FlipCardEngine.ts:249-272 | a stored card becomes the current card; an unknown id fails with `CardNotFound` and changes nothing |
| Engine.FlipCardEngine.AnswerCard | FlipCardEngine.ts:274-316 | an unknown card or option fails before any change; otherwise the attempt (next number, simulated time, `now`, no hints) is recorded, the result is the option's correctness, and consistency is preserved |
| Engine.FlipCardEngine.UpdateProgress | FlipCardEngine.ts:514-541 | the record becomes `Record` of the attempt under its card's category when the card is in the catalog, and `Tally` of it, category map untouched, when it is not |
| Engine.FlipCardEngine.AddAttempt | FlipCardEngine.ts:516-519 | the attempt is appended to its card's history; a new card id goes to the end of the key order |
| Engine.FlipCardEngine.CountAttempt | FlipCardEngine.ts:522-530 | counters, streaks and completed set change as the scoring rules say, nothing else |
| Engine.FlipCardEngine.UpdateCategoryProgress | FlipCardEngine.ts:543-564 | only the given category entry changes, to `UpdateCategory` of its old value |
| Engine.FlipCardEngine.BookmarkCard | FlipCardEngine.ts:348-357 | the id is added to or removed from the bookmarks; nothing else changes |
| Engine.FlipCardEngine.ResetProgress | FlipCardEngine.ts:364-371 | the progress becomes the fresh record for the same user and session; the cards stay |
| Engine.FlipCardEngine.ImportProgress | FlipCardEngine.ts:383-399 | on failure the progress is unchanged and the error is `InvalidProgressFormat`; on success it becomes the imported record |
| Engine.FlipCardEngine.RecommendedCards | FlipCardEngine.ts:431-437 | min(count, adapted) recommendations, each adapted card at most once, all of them when count covers them, no card twice, each stored under its id and suitable |

## Left out

- User interface: `setupUI`, `renderCard`, `renderSolution`, `showFeedback` and the DOM listeners have no effect on the engine state.
- Events, analytics and logging: `emit`, `trackEvent`, `log`, `getAnalytics` and its placeholder helpers are left out.
- Persistence: `saveToStorage`, `loadFromStorage` and `saveProgress` are I/O. `initializeEngine` reads storage and the container, and loads the default card data; it is left out. Its uncaught `migrateProgress` call is the same `Migration.Migrate`.
- `flipCard` and `requestHint` only emit events and return a constant hint. `getHintsUsed` always returns 0, which the attempt carries.
- Parts of `getStats`: `calculateAverageTimePerCard`, the category and difficulty breakdowns and `getRecentActivity` are left out. Only the accuracy figure is modelled.
- `checkAchievements`, and the `streaks` and `achievements` fields of the fresh record, are left out. The core never updates these fields.
- `updateActivity` belongs to the base engine class, which is not part of this model.
- Configuration is left out. The engine's difficulty thresholds are constants in the code. Other settings (`maxAttempts`, `timeLimit`, `showHints`) do not affect the modelled operations.
- Time: `answerCard` reads the clock twice (attempt timestamp and last activity). Both reads are the single value `now`.
- Aliasing: the `progress` getter returns a shallow copy of the record whose Sets and Maps are the engine's own, and the `cards` getter returns a new Map whose card objects are the engine's own. Records and cards are modelled as values, so this sharing is not captured.
- Async: `async`/`await` ordering and concurrent callers are left out.
- JSON: text parsing and printing are not modelled. A payload is its parsed value, and a payload that does not parse is `None`.
- Migration inputs: scalar fields of the wrong type and unknown extra fields in a saved record are not represented.
- Catalog.ToLowerAscii: lowercases ASCII letters only. The Unicode case mapping of `toLowerCase` is left out.
- Adaptive.SortByRecency: states that the result is sorted newest first and is a permutation. It does not state that the library sort is stable, that is, that attempts with equal timestamps keep their history order.
- Adaptive.Shuffle: states that the result is a permutation. It does not state which permutation a given sequence of draws yields, or that the shuffle is uniform.
- Adaptive.GetRecommendedCards: `count` is a natural number. A negative `slice` end, which counts from the back, is not modelled.
- Engine.FlipCardEngine.RecommendedCards: `count` is always passed; the engine's default of 5 when the caller omits it is not modelled.
- Adaptive.WeakCategories: the model reads the category entries as a set. The result is the same, because the code only asks whether a category is in the list.

## Findings

| source | as written | input that shows it | evidently intended | confidence | as-written member | corrected member |
|---|---|---|---|---|---|---|
| FlipCardEngine.ts:373-381, 570-582 | `exportProgress` passes the record to `JSON.stringify`. That writes each Set and Map (completed, bookmarked and mastered cards, attempts, category progress) as `{}`. `importProgress` then calls `new Set({})` / `new Map({})`, which throws, so the import fails with `Invalid progress data format` | any record, including the fresh one, exported and imported again | an exported record imports back to the same record, with counters, histories and category statistics intact | high; not executed | Migration.ExportAsWrittenNeverImports | Migration.ExportMigrateRoundTrip |
