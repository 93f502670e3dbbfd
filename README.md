# Reading-comprehension trainer: progression and mastery engine

This project is a Dafny model of the browser-side engine behind an Arabic
reading-comprehension trainer. Students answer multiple-choice questions
about short passages. Each question is tagged with one of fifteen reading
skills. All state lives in the browser's key-value store. This project covers:

- the store with its fallbacks and its writers, including the roster
  snapshot saved for the instructor view;
- shuffling of questions and of their answer choices;
- the daily passage, its streak and the tip of the day;
- gathering a skill drill from the catalogue;
- answer processing: the per-skill window of the last ten outcomes, mastery
  from the last three, XP and levels;
- passage completion, badge awarding and certificate eligibility;
- certificate issuing and verification identifiers;
- the CSV cell sanitiser and the colour, grade and name helpers of the UI;
- the hash router;
- the play-session state machine of the application: starting a passage,
  a timed exam or a skill drill, answering, moving on, the exam clock and
  finishing, plus the report and dashboard aggregations.

Modules, one file each:

| file | module | models |
|---|---|---|
| common.dfy | Common | `Option`, the JavaScript `x \|\| d` default, `Math.round` of a percentage, floor division, 32-bit wrap-around |
| catalog.dfy | Catalog | passages, questions, the skill catalogue, configuration, calendar days |
| storage.dfy | Storage | `js/storage.js`: the store as a map from its eleven keys to slots, the readers with their defaults, and class `Store` with its writers |
| engine.dfy | Engine | `js/engine.js` |
| ui.dfy | Ui | the pure helpers of `js/ui.js` |
| router.dfy | Router | `parseHash` and `navigate` of `js/router.js` |
| cert.dfy | Cert | `generateCertificate` of `js/cert.js` |
| app.dfy | App | the play session (class `Game`), the current game and its live exam intervals (class `Player`), the starters, the report and dashboard aggregations, certificate page reuse and verification of `js/app.js` |

The modelling choices are these:

- A stored value that is absent, empty or unparsable reads as the reader's
  fallback. The slots `Blank` and `Garbage` model the empty and unparsable
  cases.
- The engine's read-modify-write operations are methods on a `Store`. Each
  states the new store as a pure effect function of the old one
  (`AnswerEffect`, `CompletionEffect`, `BadgesAwarded`, `FinishEffect`,
  and so on). The lemmas are proved about those functions.
- `Math.random` becomes a nondeterministic choice (`:|`). Every contract
  holds for every choice.
- The clock becomes parameters. The calendar day in the Riyadh time zone is
  passed in as a `Day`: its ISO text is hashed and compared, and its day
  number gives the gap between two days. Timestamps are passed in as
  strings.
- A configuration value that is absent is 0, and 0 falls back to the
  default, exactly as `||` does in the source.

## Model

| member | source | states |
|---|---|---|
| Common.RoundPercent | js/engine.js:198 | `Math.round(a / b * 100)` is the integer nearest to 100·a/b, rounding halves up: 2b·r ≤ 200a + b < 2b·r + 2b |
| Common.RoundPercentRange | js/engine.js:198 | a share of correct answers (0 ≤ a ≤ b) gives a percentage within 0..100 |
| Common.RoundPercentExtremes | js/app.js:497 | with fewer than 200 questions the percentage is 100 exactly when every answer is correct, and 0 exactly when none is |
| Common.RoundPercentMonotone | js/engine.js:198 | more correct answers out of the same total never give a lower percentage |
| Common.FloorDiv | js/engine.js:137 | `Math.floor(a / b)` is the floor quotient, for a positive and for a negative divisor |
| Common.Wrap32 | js/engine.js:37 | `h \|= 0` yields the signed 32-bit value congruent to h modulo 2^32 |
| Common.Abs | js/engine.js:39 | `Math.abs` returns x or −x, and never a negative number |
| Catalog.SkillIdsRange | js/storage.js:41 | the skill identifiers are exactly 1 to 15 |
| Catalog.XpPerLevel | js/engine.js:137 | the level size is never 0, because a configured 0 falls back to 200 |
| Ui.MasteryColor | js/ui.js:87-91 | green iff the value is ≥ 80, amber iff it is in 50..79, red iff it is below 50 |
| Ui.ScoreColor | js/ui.js:93-97 | green iff the percentage is ≥ 80, amber iff it is in 60..79, red iff it is below 60 |
| Ui.ColoursMonotone | js/ui.js:87-97 | a higher value never gets a more alarming colour, on either scale |
| Ui.ColourScalesAgree | js/ui.js:87-97 | the mastery and score scales disagree exactly on the values 50..59 |
| Ui.Grade | js/ui.js:100-106 | each of the five grades holds exactly on its band: ≥90, 80..89, 70..79, 60..69, below 60 |
| Ui.GradeMonotone | js/ui.js:100-106 | a higher percentage never gets a lower grade, and two values of equal rank get the same grade text |
| Ui.DiffClass | js/ui.js:109-113 | easy and medium map to their classes, and every other label maps to the hard class |
| Ui.LetterFromIndex | js/ui.js:137-139 | indexes 0..3 give the one-letter label from the table, and any other index gives the empty string |
| Ui.LettersDistinct | js/ui.js:138 | the four choice letters are pairwise different |
| Ui.SkillName | js/ui.js:124-126 | ids 1..15 get their table name, and any other id gets the prefix followed by the id in decimal |
| Ui.NatToString | js/ui.js:125 | a number's decimal text is non-empty, all digits, and has no leading zero |
| Ui.ParseNatToString | js/ui.js:125 | reading the decimal text back gives the number |
| Ui.IntToStringInjective | js/ui.js:125 | different integers have different decimal texts |
| Ui.SkillNameInjective | js/ui.js:116-126 | different skill ids never share a display name |
| Router.RemoveFirst | js/router.js:12 | removes the first `#` and only that one, and leaves a text without `#` unchanged |
| Router.Split | js/router.js:13 | `split('/')` yields at least one part, and no part holds a slash |
| Router.JoinSplit | js/router.js:13 | joining the parts of a split with `/` gives back the text |
| Router.SplitJoin | js/router.js:13 | splitting a join of slash-free parts gives back the parts |
| Router.ParseHash | js/router.js:11-15 | the page is never empty (it falls back to home), and a parameter or sub-parameter is absent or a non-empty slash-free segment |
| Router.Navigate | js/router.js:17-19 | the hash set is the page behind a single leading `#`, which `parseHash` strips again |
| Router.NavigateRoundTrip | js/router.js:11-19 | parsing the hash set by `navigate` gives the first three segments, with the home and absent defaults |
| Router.NavigatePage | js/router.js:17-19 | navigating to a plain page name routes to that page with no parameters |
| Storage.KeyListed | js/storage.js:3-15 | every key belongs to the list of the eleven keys that a full reset removes |
| Storage.GetUsable | js/storage.js:17-22 | a slot yields nothing exactly when it is absent, empty or unparsable, and otherwise the stored value |
| Storage.StoredOrFallback | js/storage.js:17-90 | each of the eight readers yields its default when its slot is unusable, and the stored entity otherwise |
| Storage.FreshStartDefaults | js/storage.js:17-72 | with nothing usable stored, each reader yields its documented default |
| Storage.WriteThenRead | js/storage.js:23-25 | a written progress, skill map, daily record or badge list reads back unchanged |
| Storage.DefaultSkillData | js/storage.js:37-43 | the initial skill map has skills 1..15, each with nothing attempted |
| Storage.IndexOfText | js/storage.js:50 | `find` locates the first record of the passage, or reports that there is none |
| Storage.RecordCompletionSpec | js/storage.js:48-59 | for a passage already recorded, its record becomes exactly the best of the two scores, one more attempt (counting a missing count as 1) and the current date, and nothing else changes; a new passage is appended with one attempt; one record per passage is kept |
| Storage.IndexOfStudent | js/storage.js:97 | `findIndex` gives the first roster entry with the same name and class, or −1 when there is none |
| Storage.SnapshotSkills | js/storage.js:109-111 | the snapshot holds a mastery for each skill 1..15, and 0 for a skill without a record |
| Storage.UpsertSnapshotSpec | js/storage.js:112-114 | one entry per (name, class) is kept; the new snapshot is in the roster; other students' entries are untouched; the roster grows only for a new student |
| Storage.Store.SetProfile | js/storage.js:29 | writes the profile slot and nothing else |
| Storage.Store.SetProgress | js/storage.js:34 | writes the progress slot and nothing else |
| Storage.Store.SetSkillData | js/storage.js:44 | writes the skills slot and nothing else |
| Storage.Store.SetDailyData | js/storage.js:65 | writes the daily slot and nothing else |
| Storage.Store.SetBadges | js/storage.js:69 | writes the badge slot and nothing else |
| Storage.Store.SetCertData | js/storage.js:73 | writes the certificate slot and nothing else |
| Storage.Store.AddCompletedText | js/storage.js:48-59 | the new store is the old one with the completion recorded |
| Storage.Store.SaveStudentSnapshot | js/storage.js:91-115 | without a profile nothing changes; otherwise the roster gets the current snapshot upserted |
| Storage.Store.ClearStudentData | js/storage.js:118-120 | removes exactly the seven student keys; settings, admin credentials and the roster survive unchanged |
| Storage.Store.ClearAllData | js/storage.js:123-125 | the store is empty afterwards |
| Engine.ShuffleArray | js/engine.js:5-12 | the result is a permutation of the input |
| Engine.IndexShuffleInRange | js/engine.js:15-16 | a shuffle of the indexes 0..3 holds each of them exactly once |
| Engine.IndexOf | js/engine.js:18 | `indexOf` gives the first position of x, or −1 exactly when x is absent |
| Engine.Rearranged | js/engine.js:14-20 | the choices are permuted, the correct index follows the correct choice, an out-of-range correct index becomes −1, and every other field is kept |
| Engine.ShuffleQuestion | js/engine.js:14-20 | the result is a rearrangement of the question by some shuffle of the four indexes, and the correct choice is still marked correct |
| Engine.HashOf | js/engine.js:33-38 | the running hash stays within the signed 32-bit range |
| Engine.HashStep | js/engine.js:36-37 | one step of the string hash, wrapped to 32 bits, stays within the signed 32-bit range |
| Engine.DateHash | js/engine.js:33-40 | the date hash is the absolute value of the 32-bit string hash, at most 2^31 |
| Engine.DayIndex | js/engine.js:71 | the day's index lies within the list |
| Engine.DailyTip | js/engine.js:85-90 | no tips give the empty string; otherwise the tip is the list entry at the day's index |
| Engine.FindText | js/engine.js:56 | `find` yields a passage with the given id from the list, or nothing exactly when no passage has it |
| Engine.FindUnique | js/engine.js:56 | with distinct ids, looking up a listed passage's id finds that passage |
| Engine.StreakRules | js/engine.js:59-69 | the streak grows by one after a completed previous day, resets after a gap of more than one day, and is otherwise kept |
| Engine.NextStreak | js/engine.js:59-69 | the new streak is the old one, one more, or 0 |
| Engine.DailyChoice | js/engine.js:55-72 | the daily passage is listed; on a new day it is the passage at the day's hash index |
| Engine.DailyStable | js/engine.js:51-82 | asking again on the same day gives the same passage and writes nothing more |
| Engine.GetDailyText | js/engine.js:51-82 | returns the daily choice and records the day, the streak and the passage unless today is already recorded |
| Engine.Unseen | js/engine.js:44-46 | the unseen passages are exactly the listed passages without a completion record |
| Engine.GetNextText | js/engine.js:43-49 | nothing is returned only for an empty list; the passage is listed, and it is unseen whenever one is |
| Engine.GatherFrom | js/engine.js:96-100 | a passage contributes exactly its questions on the skill, tagged with the passage |
| Engine.Gather | js/engine.js:94-101 | the pool is exactly the tagged questions on the skill from all passages, with four choices each |
| Engine.MatchingOnly | js/engine.js:103 | the filter keeps exactly the questions on the skill |
| Engine.MatchingOnlyKeepsAll | js/engine.js:103 | when every question is on the skill, the filter changes nothing |
| Engine.DrillValidationPasses | js/engine.js:103-107 | the runtime validation can never reject a gathered pool |
| Engine.SliceEnd | js/engine.js:109 | `slice(0, n)` takes min(n, length) elements |
| Engine.GatherQuestions | js/engine.js:94-101 | the nested loop builds exactly the pool |
| Engine.GatherFromPassage | js/engine.js:96-100 | the inner loop builds exactly one passage's share of the pool |
| Engine.ShuffleEach | js/engine.js:110 | each question is replaced by a shuffle of itself, keeping its skill and its passage tag |
| Engine.GetQuestionsForSkill | js/engine.js:93-111 | rejects exactly when validation fails; otherwise reports the pool size and returns min(limit or 15, pool) questions, each on the skill, tagged, and drawn without repetition from the pool with its choices shuffled |
| Engine.CountTrueExtremes | js/engine.js:129 | the sum of outcomes equals the count iff all are correct, and is 0 iff none is |
| Engine.Newest | js/engine.js:122 | `slice(-n)` keeps the last min(n, length) outcomes |
| Engine.MasteryRange | js/engine.js:127-130 | mastery lies within 0..100; it is 100 iff the last three (or fewer) outcomes are all correct, and 0 iff all are wrong |
| Engine.MasteryValues | js/engine.js:127-130 | mastery takes one of the values 0, 33, 50, 67 or 100 |
| Engine.RecordAnswerSpec | js/engine.js:118-130 | for a stored history of any length, the window becomes its last ten entries after the new outcome, ending with that outcome; the answered count grows by one, the correct count exactly when the answer is correct; mastery lies within 0..100 |
| Engine.WindowAfter | js/engine.js:120-123 | after one more outcome the window holds the newest nine earlier outcomes followed by the new one, at most ten in all |
| Engine.NewestSlide | js/engine.js:120-123 | trimming the window to ten after each answer equals keeping the last ten answers of the whole history |
| Engine.NewestNewest | js/engine.js:127 | the last three of the ten-answer window are the last three answers overall |
| Engine.ReplayFromFresh | js/engine.js:118-130 | after any sequence of answers on a fresh skill, the window is the last ten, the counters are exact, and mastery is computed from the last three |
| Engine.LevelBand | js/engine.js:137 | level L covers the XP range [(L−1)·size, L·size), so the level never falls as XP grows |
| Engine.LevelFor | js/engine.js:137 | a non-negative XP gives a level of at least 1 |
| Engine.ProgressRules | js/engine.js:132-137 | an answer adds the per-correct XP only when correct and counts one answer; a completion adds the bonus and counts one passage; the level follows the XP and never drops |
| Engine.ReplayProgressFromDefault | js/engine.js:132-137 | from the default progress, XP is the number of correct answers times the per-correct reward, and the counters are exact |
| Engine.AnsweredSkillsSpec | js/engine.js:118-125 | the answered skill is present afterwards, other skills are untouched, and its answered count grows by one (from 0 for a new record) |
| Engine.AnswerEffectSpec | js/engine.js:114-143 | processing an answer changes only the skills and progress slots: one skill's record, one more answer counted |
| Engine.UpdateRecord | js/engine.js:118-130 | computes the skill's updated record |
| Engine.AnswerSkill | js/engine.js:115-130 | computes the updated skill map |
| Engine.UpdateProgress | js/engine.js:132-137 | computes the progress after an answer |
| Engine.ProcessAnswer | js/engine.js:114-143 | the store becomes the answer's effect, and the returned skills and progress are the ones stored |
| Engine.CompletionProgress | js/engine.js:146-149 | computes the progress after a completion |
| Engine.CompleteText | js/engine.js:145-155 | writes the completion progress, records the passage, saves the snapshot and awards badges, and returns the new progress |
| Engine.BadgeDefinitions | js/engine.js:158-171 | there are ten badges |
| Engine.BadgePartition | js/engine.js:158-171 | the badge skill groups cover the skills 1..15, and each skill belongs to one group only |
| Engine.BadgeIdsDistinct | js/engine.js:158-171 | the badge identifiers are pairwise different |
| Engine.NewBadgesMembers | js/engine.js:178-181 | a badge is newly earned iff every skill of its group is at mastery ≥ 80 and it is not yet held |
| Engine.NewBadges | js/engine.js:177-181 | at most one new badge per definition, and none already held |
| Engine.NoneQualify | js/engine.js:178-182 | when no badge qualifies, nothing is earned |
| Engine.NewBadgesIdempotent | js/engine.js:173-184 | after its badges are added, a second check earns nothing |
| Engine.BadgesAwardedSpec | js/engine.js:173-184 | awarding keeps the held badges as a prefix, changes nothing but the badge slot, leaves nothing more to earn, and applying it twice changes nothing more |
| Engine.BadgesAwarded | js/engine.js:182 | writes the badge slot and leaves every other slot as it was |
| Engine.BadgesWriteFrame | js/engine.js:182 | writing the badge list leaves the skill map as it was |
| Engine.CheckBadges | js/engine.js:173-184 | returns the newly earned badges and stores the awarded list |
| Engine.AveragePercent | js/engine.js:198 | 0 when nothing has been answered, and within 0..100 for a valid count |
| Engine.CertificateEligibility | js/engine.js:187-207 | eligible iff all stored skills reach the threshold, enough passages are done, and the average reaches the minimum; each flag states its own condition; the reported thresholds are the configured ones (with their defaults), the average is the rounded share of the stored progress, and the passage count and skill map are the stored ones |
| Engine.EligibilityDefaults | js/engine.js:192-194 | unconfigured thresholds are 10 passages, an 80% average and 80 mastery |
| Engine.NothingAnsweredNotEligible | js/engine.js:193-202 | under any configuration, nothing answered gives an average of 0, and with a positive average threshold the student is not eligible |
| Engine.FreshStudentNotEligible | js/engine.js:187-207 | a student with nothing stored is not eligible and has not mastered all skills |
| Engine.EmptySkillMapCountsAsMastered | js/engine.js:196 | a stored empty skill map counts as every skill mastered |
| Engine.IdAlphabetFacts | js/engine.js:211 | the alphabet has 32 symbols: capitals and digits without I, O, 0 and 1 |
| Engine.GenerateVerificationId | js/engine.js:210-215 | the identifier is `RH-` followed by eight symbols of the alphabet |
| Engine.UndoubleDouble | js/engine.js:238 | undoubling the doubled quotes gives the text back |
| Engine.SanitizeCsvCell | js/engine.js:232-241 | the cell never starts with a formula lead; it is empty iff the input is; a cell holding a quote, comma or newline is wrapped in quotes |
| Engine.CsvRoundTrip | js/engine.js:232-241 | a CSV reader gets back the input, prefixed with an apostrophe when it started with a formula lead |
| Cert.CertificateContents | js/cert.js:6-25 | the record copies name, class, XP and passage count; its average is the rounded percentage (0 and "needs work" when nothing is answered) within 0..100; all answers correct gives 100 and "excellent" |
| Cert.CertificateFor | js/cert.js:6-21 | the record carries the profile's name and class and the given identifier; its average is 0 when nothing is answered and within 0..100 for a valid count |
| Cert.GenerateCertificate | js/cert.js:6-25 | without a profile nothing is written; otherwise the record for the profile and progress, with a well-formed fresh identifier, is stored and returned |
| Cert.StoredCertificateReadBack | js/cert.js:23 | the stored certificate reads back unchanged |
| Cert.EligibleGrade | js/cert.js:9-10 | an eligible student with an average threshold of at least 80 gets "very good" or better |
| App.TrimStart | js/app.js:779 | removes exactly the leading white space |
| App.TrimEnd | js/app.js:779 | removes exactly the trailing white space |
| App.TrimPadding | js/app.js:779 | trimming a text padded with white space gives the text back |
| App.VerifyIssued | js/app.js:779-782 | the stored identifier is accepted with any white-space padding, and an accepted input trims to it |
| App.VerifyNeedsCertificate | js/app.js:782 | no input is accepted while no certificate is stored |
| App.VerifyCertificate | js/app.js:779-782 | nothing is accepted without a stored certificate, and an accepted input trims to its identifier |
| App.EligibilityIgnoresCertificate | js/app.js:720-727 | issuing a certificate does not change eligibility |
| App.RenderCertificate | js/app.js:718-768 | a student who is not eligible sees the checklist and nothing is written; a stored certificate is shown again; otherwise one is issued, stored and shown, and the student stays eligible |
| App.AggregateBySkill | js/app.js:540-545 | exactly the skills answered in the session get a tally, holding their correct and total counts |
| App.TallyFacts | js/app.js:540-545 | a skill's correct count never exceeds its total, and the total is positive iff the skill was answered |
| App.TotalsSum | js/app.js:540-545 | the totals over the answered skills add up to the number of answers |
| App.WeakSkillColours | js/app.js:549-561 | a skill suggested for practice (below 50%) never shows green, and one not suggested never shows red |
| App.WeakSkills | js/app.js:549-561 | the suggested skills are among those answered; a skill with no answers or with every answer correct is never suggested |
| App.Insert | js/app.js:163 | inserting adds exactly the one entry |
| App.InsertSorted | js/app.js:163 | inserting into a list sorted by mastery keeps it sorted |
| App.InsertStrict | js/app.js:163 | inserting an entry with a larger id than all others into a list strictly ranked by mastery, then id, keeps it so ranked |
| App.SortByMastery | js/app.js:163 | the sort is a permutation, in non-decreasing mastery |
| App.SortStrict | js/app.js:159-163 | sorting a list given in increasing id order, as the stable sort does, ranks it strictly by mastery and then by id |
| App.BelowMastered | js/app.js:164 | the filter keeps exactly the entries below 80 |
| App.BelowStrict | js/app.js:164 | the filter keeps a strict ranking strict |
| App.TopStrict | js/app.js:164 | the first three entries of a strict ranking, filtered, stay strictly ranked |
| App.SortedRanking | js/app.js:159-163 | the sorted list ranks all fifteen skills by their mastery (0 when absent), ties in id order |
| App.IdOrderedStrict | js/app.js:159-163 | the sorted list of skills 1..15 is strictly ranked by mastery, then id |
| App.ListedRanksLower | js/app.js:157-164 | in a ranking, an entry listed ahead ranks before every skill listed later |
| App.WeakestOfRanking | js/app.js:157-164 | in any ranking, the shown skills are at most three distinct skills, all below 80, in rank order (mastery, then id), each ranked before every skill not shown; fewer than three are shown only when every other skill is at 80 or more |
| App.WeakestSkills | js/app.js:157-164 | the dashboard shows at most three distinct skills below 80, in order of mastery and then id, each ranked before every skill not shown; these facts fix the list completely |
| App.CountCorrect | js/app.js:449 | the score never exceeds the number of answers |
| App.CountCorrectAll | js/app.js:449 | the score equals the number of answers iff every answer is correct |
| App.FinishKeepsStudent | js/app.js:493-529 | finishing a game in any mode, finished before or not, leaves the profile, the skill map and the certificate as they were, both before and after its badge check |
| App.CompletionFrame | js/app.js:504-514 | completing a passage leaves the daily record, the profile, the skill map and the certificate as they were |
| App.FinishNoNewBadges | js/app.js:504-516 | outside skill drills, the completion already awards the badges, so the final check earns none |
| App.FinishMarksDaily | js/app.js:510-516 | finishing a daily session marks today as done and keeps the rest of the daily record |
| App.FinishScore | js/app.js:497 | the final percentage lies within 0..100; below 200 questions it is 100 iff every question was answered correctly |
| App.RecordFinish | js/app.js:503-516 | the store becomes the finish effect; the returned badges are those newly earned by the final check, none outside skill drills; a daily session marks today done |
| App.Game.constructor | js/app.js:341-351 | a new session has no answers, score 0, the first question current and the clock stopped |
| App.Game.RecordChoice | js/app.js:445-449 | appends the answer and raises the score exactly when the choice is the correct index |
| App.Game.HandleAnswer | js/app.js:443-451 | records the answer in the session and applies the answer's effect to the store |
| App.Game.FinishGame | js/app.js:493-529 | stops the clock, computes the score percentage, applies the finish effect and returns the new badges, whether or not the game was finished before |
| App.Game.NextQuestion | js/app.js:486-491 | advances one question, and finishes the session exactly when none is left |
| App.Game.Tick | js/app.js:361-367 | the clock loses one second on any game, running or not; exactly when it reaches zero or below, the game is finished again and the finish effect applied, and otherwise nothing else changes |
| App.CompletionCounts | js/engine.js:145-150 | completing a passage stores the progress with one more passage and the completion bonus |
| App.FinishCountsCompletion | js/app.js:503-516 | outside skill drills, each finish counts one more completed passage and its bonus, whether or not the game was finished before |
| App.RepeatCounts | js/app.js:503-516 | a change that counts one completion, applied k times, counts k completions and k bonuses |
| App.FinishedTwice | js/app.js:361-367 | finishing twice in a row is the finish effect applied twice |
| App.RepeatedFinishCounts | js/app.js:361-367 | a passage game finished k times by the interval counts k completed passages and k completion bonuses |
| App.Player.Replace | js/app.js:341-351 | the new game becomes current and a running interval of the old one is left firing, so live intervals never decrease |
| App.Player.Play | js/app.js:331-372 | starts the game as `startGame` does, and adds one live interval for a timed exam without removing any |
| App.Player.Fire | js/app.js:361-367 | one firing of any live interval ticks the current game, whichever game started the interval |
| App.Player.PlayClearing | js/app.js:331-372 | with the old interval stopped first, no new orphan interval is left behind, so a player driven only by this method never has more than one live interval, which belongs to a current timed exam |
| App.LeftExamScenario | js/app.js:356-368 | after leaving an exam for practice, two seconds finish the practice game twice and count two completed passages |
| App.SecondExamScenario | js/app.js:356-368 | after leaving an exam for another, two intervals run and one second takes two off the new countdown |
| App.ClearedScenario | js/app.js:356-368 | with the interval stopped on replacement, no interval is live after switching to practice and the store is untouched |
| App.FindSkill | js/app.js:308 | finds a catalogue entry with the id, or nothing exactly when none has it |
| App.SkillTitle | js/app.js:308-312 | the catalogue name when it is non-empty, else the built-in skill name; never empty |
| App.SkillPassage | js/app.js:313 | the drill's pseudo-passage has the id `SKILL_<id>`, the skill title and an empty body |
| App.AllOnSkill | js/app.js:300-306 | the runtime check passes iff every question is on the skill |
| App.StartSkillTraining | js/app.js:286-326 | a drill starts iff the pool holds at least three questions; it has min(pool, 15) questions, all on the skill, tagged and drawn from the pool |
| App.ChoosePassage | js/app.js:332-339 | the daily passage in daily mode (and the daily record); otherwise the requested passage when it exists, else an unseen one when any exists; only daily mode writes to the store |
| App.StartGame | js/app.js:331-372 | starts on the chosen passage with every question shuffled; a timed exam runs its clock from the configured minutes (30 by default) times 60 |

## Findings

| source | as written | input that shows it | evidently intended | confidence | as-written member | corrected member |
|---|---|---|---|---|---|---|
| js/app.js:356-368 | the exam's interval ticks the module-level `currentGame`, and starting another game replaces `currentGame` without stopping it; `finishGame` can only stop the interval stored in the new game, which is null | start a timed exam, press back to the dashboard, start a practice passage: every second finishes the practice game again and records the passage once more; starting a second exam instead makes its clock run at double speed | stop the current game's interval when the game is replaced, so at most one interval runs and it belongs to the current exam | not executed | App.LeftExamScenario (with App.Player.Play) | App.ClearedScenario (with App.Player.PlayClearing) |

## Left out

- Rendering, the DOM, sound, confetti, toasts and canvas drawing are left out. This includes `drawCertificateCanvas`, `downloadCertAsPNG`, the explanation box and the answer buttons.
- The CSV export assembly, file downloads and data import are left out. Only the cell sanitiser is modelled.
- `hashPassword` and `generateSalt` are left out. They rely on the browser's cryptography interface.
- `getRiyadhDate`, `formatDate` and every `new Date()` / `Date.now()` are left out. The day and the timestamps are parameters, and the session's `startTime` is not modelled.
- The settings and the admin credential keys are opaque slots. Only their survival across a student reset is stated.
- A stored value that parses but has the wrong shape is left out. Every slot either holds its own entity, is empty, or does not parse.
- Common.RoundPercent: computes 100·a/b exactly and rounds halves up. The source rounds a floating-point product, which can differ on values within one rounding error of a half.
- Engine.HashOf: hashes Dafny characters. `charCodeAt` reads UTF-16 code units, so the two agree on texts within the Basic Multilingual Plane, which includes ISO dates.
- Engine.GetNextText: picks an arbitrary passage where the source picks one uniformly at random. Only the pick's membership is stated, not its distribution.
- Engine.GetQuestionsForSkill: states that the drill is a shuffled selection without repetition from the pool. It does not state that the selection is uniform. Its validation branch is modelled as written and proved unreachable.
- Engine.GenerateVerificationId: states the identifier's form. It does not state that identifiers are unique, which the source does not guarantee either.
- Engine.BadgeDefinitions: the contracts state the identifiers and skill groups of the badges. The names and icons are kept as in the source, but no contract states anything about them.
- Engine.SanitizeCsvCell: takes a string. The source's `String(val)` conversion of numbers and other values is left out.
- App.WeakSkillColours: the report's weak-skill list is modelled as a set. The order of `Object.entries` is left out.
- App.RenderCertificate: when eligible with no profile stored, the source throws inside `generateCertificate`. The model returns a `Broken` page and writes nothing.
- App.StartGame: requires a loaded catalogue whose passages each have at least one question. With an empty question list the source would divide by zero on finishing.
- App.StartSkillTraining: requires four choices per question, as the catalogue provides. The "fewer than three questions" toast becomes a null session.
- App.Game.Tick: models one firing of the one-second interval. The time between firings is left out; which intervals are live is modelled by `App.Player`.
- App.Player.Replace: is the step `startSkillTraining` shares with `startGame`; there is no separate member for a drill started through a `Player`, because a drill never starts an interval.
- App.Game.HandleAnswer: the source appends the answer before processing it, and the model processes it first. The two touch disjoint state, so the final state is the same.
- Router.ParseHash: reads the hash text without percent-decoding, as the source does. Setting the browser's hash and the `hashchange` listener are left out.
