# Quiz progression core of an environmental-learning web app

This project models the small amount of real logic in the app's React pages.
Learners take quizzes, collect points, move up levels, see their badges and
compare themselves on a leaderboard. The logic is lifted out as pure
functions over plain datatypes:

- `Quiz` (quiz.dfy) covers the quiz page (`src/pages/Quiz.tsx`). The page state is the current question, the running score, the selected option and whether the result shows. The module models what the "Next Question" / "Submit Quiz" button does, the `quiz_attempts` row a submission records, and which screen the page renders.
- `Progression` (progression.dfy) covers how a submitted score is folded into the learner's profile. The new points are the old points plus the score. The new level is `floor(points / 100) + 1`.
- `Dashboard` (dashboard.dfy) covers `src/pages/Dashboard.tsx`: progress within the level, points to the next level, the level shown, and the badge cards with their earned marks.
- `Initials` (initials.dfy) covers the leaderboard avatar text: `full_name?.split(" ").map(n => n[0]).join("").toUpperCase() || "?"`.
- `Leaderboard` (leaderboard.dfy) covers the rest of `src/pages/Leaderboard.tsx`: positional ranks, the top-three icons, the current-user highlight and the empty-board notice.
- `Optional` (optional.dfy) provides `Option`, which stands in for JavaScript's `null`/`undefined`.

Main behaviours the model states and proves:

- The last question counts once. When the button submits, the attempt's score is the score *before* the press plus that question's points if the answer is correct (`Quiz.Next`).
- A full run's score is the sum of the points of the correctly answered questions (`Quiz.Play`). With non-negative points it is at most the total (`Quiz.ScoreAtMostTotal`). With positive points it equals the total exactly when every answer is right (`Quiz.FullScoreIffAllCorrect`).
- Nothing on the page disables the button while a submission is in flight. Line 75 has already put the last question's points into the state the page re-renders with, so a second press submits an attempt that counts a correct last answer twice (`Quiz.SecondPressCountsLastAgain`). The model states this behaviour as written; it does not claim exactly-once crediting.
- Levels are `floor(points/100) + 1`. They are at least 1 for non-negative points and monotone in points. When a profile exists, dashboard progress plus points-to-next make 100 (with no profile the points-to-next figure is NaN). When the points are non-negative and the stored level is the one derived from them, reaching that total gives exactly the level the dashboard announces; the dashboard announces one more than the stored level, so a stored level that has drifted from the points announces a different level.
- Ranks are positions 1..n. They are distinct even when points tie.
- Initials are the upper-cased first characters of the space-separated words. Joining the split pieces with spaces is proved to give the name back, and the initials are proved equal to an independent one-pass scan (`WordStarts`).

The model follows the code as written:

- The code has no badge-awarding step. Nothing compares points with `points_required` or inserts `user_badges`. Only the dashboard's display of earned badges is modelled.
- The code has no tie-break and no rank sharing. Ties keep the store's order and get consecutive ranks.
- The code does not guarantee exactly-once crediting (see above).
- A quiz with no questions renders "Quiz not found" and offers no submission (`Quiz.NoQuestionsNeverSubmits`).

## Model

| member | source | states |
|---|---|---|
| Quiz.Choose | src/pages/Quiz.tsx:209 | picking a rendered option of the current question records it as the selection and changes neither the question index nor the score |
| Quiz.Next | src/pages/Quiz.tsx:64-89 | with no selection the press is rejected and the state is returned unchanged; otherwise the answer is correct iff the selection equals `correct_answer`; the score grows by exactly that question's points when correct and not at all otherwise; before the last question the index advances by exactly 1 and the selection is cleared; on the last question the press submits an attempt whose score is the pre-press score plus the last question's points only if correct, and whose total is the sum of all points; the index always stays within the questions |
| Quiz.Finish | src/pages/Quiz.tsx:121-122 | after a submission returns, the result shows with the score set to the submitted final score |
| Quiz.Render | src/pages/Quiz.tsx:141-230 | the result screen shows exactly when `showResult` is set, with the score and total points; a quiz with no questions renders "Quiz not found"; the question screen shows exactly when the quiz was found and a question is current; the button reads "Submit Quiz" exactly on the last question |
| Quiz.PlayFrom | src/pages/Quiz.tsx:64-91 | playing on from any state whose score is the reference score of the questions answered so far ends in an attempt scoring the reference score of the whole answer sheet, out of the sum of all points |
| Quiz.Play | src/pages/Quiz.tsx:73-98 | a full run of a non-empty quiz submits the points of exactly the correctly answered questions, out of the sum of all question points |
| Quiz.ScoreAtMostTotal | src/pages/Quiz.tsx:87-91 | with non-negative point values the final score lies between 0 and the total possible points |
| Quiz.FullScoreIffAllCorrect | src/pages/Quiz.tsx:73-91 | with positive point values the final score equals the total exactly when every answer is correct |
| Quiz.PositiveTotal | src/pages/Quiz.tsx:91 | the total of a non-empty quiz with positive point values is positive |
| Quiz.ResultTotalPositive | src/pages/Quiz.tsx:141-143 | the result screen is reachable only for a quiz with questions, so with positive point values the percentage's divisor is not zero |
| Quiz.NoQuestionsNeverSubmits | src/pages/Quiz.tsx:173-183 | a quiz with no questions always renders "Quiz not found" and never shows the question screen whose button could submit |
| Quiz.SubmitLabelIffSubmits | src/pages/Quiz.tsx:230 | with an option selected, the button reads "Submit Quiz" exactly when pressing it submits, and "Next Question" exactly when it advances (the condition at line 78) |
| Quiz.SecondPressCountsLastAgain | src/pages/Quiz.tsx:73-89 | pressing the button again while the submission is in flight submits a second attempt in which a correct last answer is counted twice |
| Quiz.ResultShowsSubmittedAttempt | src/pages/Quiz.tsx:121-156 | when the submission returns, the result screen shows the submitted attempt's score over its total points |
| Quiz.TwoQuestionRun | src/pages/Quiz.tsx:73-91 | questions worth 10 and 20 answered right then wrong give an attempt of 10 out of 30 |
| Progression.Level | src/pages/Quiz.tsx:110 | the level `l` brackets the points: `100*(l-1) <= points < 100*l` |
| Progression.Credit | src/pages/Quiz.tsx:102-119 | the profile is updated only if it was read back; the new points exceed the old ones by exactly the final score, and the new level brackets the new points |
| Progression.LevelAtLeastOne | src/pages/Quiz.tsx:110 | non-negative points give a level of at least 1 |
| Progression.LevelMonotone | src/pages/Quiz.tsx:110 | more points never give a lower level |
| Progression.CreditNeverLowers | src/pages/Quiz.tsx:109-110 | a non-negative score never lowers the points or the level, the stored level is the one derived from the stored points, and it is at least 1 when the old points were non-negative |
| Progression.CreditCrossesLevel | src/pages/Quiz.tsx:109-110 | 95 points plus a score of 10 give 105 points at level 2 |
| Dashboard.JsRemLevel | src/pages/Dashboard.tsx:75 | JavaScript's `points % 100` lies in 0..99 for non-negative points and in -99..0 for negative ones, and differs from the points by a multiple of 100 |
| Dashboard.Progress | src/pages/Dashboard.tsx:75 | progress in the level is 0 with no profile, lies in 0..99 for non-negative points, and differs from the points by a multiple of 100 |
| Dashboard.ToNextLevel | src/pages/Dashboard.tsx:111 | points to the next level are undefined (NaN) exactly when there is no profile, lie in 1..100 for non-negative points, and bring the points to a multiple of 100 |
| Dashboard.ShownLevel | src/pages/Dashboard.tsx:104 | the level shown is never 0; it is 1 with no profile, with a null level, or with level 0, and it is the profile's level whenever that level is present and non-zero |
| Dashboard.BadgeCards | src/pages/Dashboard.tsx:131-143 | every catalogue badge is shown exactly once and in order, with its name, description and artwork, and is marked earned iff its id is among the learner's `user_badges` ids |
| Dashboard.NoProfileDefaults | src/pages/Dashboard.tsx:75-111 | with no profile the progress is 0, the level shown is 1, and the points-to-next figure is NaN |
| Dashboard.ProgressAndRemainderFillALevel | src/pages/Dashboard.tsx:75-111 | for any profile, progress in the level plus points to the next level equals 100 |
| Dashboard.NextLevelIsAnnounced | src/pages/Dashboard.tsx:111 | for non-negative points with the level derived from them, points plus points-to-next equal 100 times the level, and the level computed there is the "Level N" the dashboard announces |
| Dashboard.EarnedCardsCountCommonIds | src/pages/Dashboard.tsx:131-143 | with distinct catalogue ids, the number of cards marked earned is the number of catalogue ids found among the learner's badge ids |
| Dashboard.EarnedFigureMatchesCards | src/pages/Dashboard.tsx:119-120 | when the learner's badge rows name distinct catalogue badges, the "Badges Earned" figure (the row count) equals the number of cards marked earned |
| Initials.Split | src/pages/Leaderboard.tsx:84 | `split(" ")` yields one more piece than there are spaces, and no piece contains a space |
| Initials.Firsts | src/pages/Leaderboard.tsx:85-86 | taking the first character of each piece yields at most one character per piece |
| Initials.ToUpper | src/pages/Leaderboard.tsx:87 | upper-casing keeps the length and maps each character by itself |
| Initials.Initials | src/pages/Leaderboard.tsx:83-87 | the initials are never empty, and have at most one more character than the name has spaces |
| Initials.JoinSplit | src/pages/Leaderboard.tsx:84 | joining the split pieces with single spaces gives the name back |
| Initials.FirstsAreWordStarts | src/pages/Leaderboard.tsx:84-86 | the first characters of the split pieces are exactly the non-space characters at the start or after a space, in order |
| Initials.InitialsAreUpperWordStarts | src/pages/Leaderboard.tsx:83-87 | the initials are the upper-cased word starts; a null name, or a name with no word in it, gives "?"; empty pieces from repeated spaces contribute nothing |
| Initials.InitialsExamples | src/pages/Leaderboard.tsx:83-87 | "a  b" gives "AB"; an all-space or empty name gives "?" |
| Leaderboard.RankIconFor | src/pages/Leaderboard.tsx:45-56 | rank 1 maps to the trophy, 2 to the medal, 3 to the award, and every other rank to no icon |
| Leaderboard.MarkerFor | src/pages/Leaderboard.tsx:97-101 | the rank number is shown exactly when there is no icon, and it is the rank itself |
| Leaderboard.RowsFrom | src/pages/Leaderboard.tsx:80-88 | there is one row per leader, in order, and each row is built from that leader and its position |
| Leaderboard.Render | src/pages/Leaderboard.tsx:80-139 | there is one row per fetched leader, in order, and the "No rankings yet" notice shows exactly when the list is empty |
| Leaderboard.RanksArePositions | src/pages/Leaderboard.tsx:80-81 | the rank of each row is its position plus one, lies in 1..n, and strictly increases down the list, so ranks are distinct even when points tie |
| Leaderboard.EachRankOnce | src/pages/Leaderboard.tsx:80-81 | every rank 1..n belongs to exactly one row |
| Leaderboard.RankOrderFollowsPoints | src/pages/Leaderboard.tsx:34-35 | given the store's order (points non-increasing, at most 20 rows), a better rank never has fewer points |
| Leaderboard.NumberFromFourthRow | src/pages/Leaderboard.tsx:96-101 | the rank number shows, and equals the rank, exactly on rows ranked 4 or lower |
| Leaderboard.CurrentUserRow | src/pages/Leaderboard.tsx:82 | a row is marked as the current user's exactly when its id equals the signed-in user's id, so with distinct profile ids at most one row is marked |
| Leaderboard.RowInitials | src/pages/Leaderboard.tsx:104-107 | each row's avatar shows that leader's initials, which are never empty |

## Left out

- Data fetching, authentication redirects, navigation, toasts and JSX rendering are left out. The fetched rows (questions in `order_index` order, the quiz row, badges, `user_badges` ids, profiles) are inputs. The signed-in user's id is a parameter.
- The leaderboard's ordering and its 20-row limit are done by the store. They are a precondition (`Leaderboard.StoreOrder`), and no tie-break is invented.
- The read-modify-write of `profiles.points` is a remote, unsynchronised update. Only the `(old points, final score) -> (new points, new level)` arithmetic is modelled. The `quiz_attempts` insert is modelled only as the `Attempt` value it would write.
- The page ignores the error results of store calls. A thrown store call (the catch branch at src/pages/Quiz.tsx:123-129) leaves the page in the in-flight state; the model represents it by not applying `Quiz.Finish`.
- The loading screen is left out. So is a change of quiz id while the page stays mounted (the state is not reset then). The questions are fixed for the page's lifetime.
- Floating-point arithmetic is left out. This covers the percentage and its 70% threshold (src/pages/Quiz.tsx:143-157), the question progress bar (src/pages/Quiz.tsx:187) and the `/ 100 * 100` scaling at src/pages/Dashboard.tsx:75. Progress is modelled as the integer `points % 100`.
- Progression.Level: `Math.floor(points / 100)` runs on doubles. It equals the integer floor division only while the float quotient does not round up to the next integer, which holds for magnitudes far beyond any reachable point total (below about 2^45). The model uses exact integers.
- Initials.ToUpper: only ASCII letters are upper-cased. `n[0]` is taken as one character. Non-ASCII case mappings (which can change the length) and UTF-16 surrogate pairs are outside the model.
- Badge awarding is left out, because no code in these files awards badges. The badge card's styling and the catalogue's `points_required` ordering are left out as presentation.
- The dashboard's "Total Points" figure (src/pages/Dashboard.tsx:94) only displays the profile's points, or 0 without a profile; it has no separate member.
- Home, lesson pages, the navigation bar, the footer and `getDifficultyColor` are left out as pure presentation.
