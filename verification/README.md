# BioHacker core, modelled in Dafny

BioHacker is a wellness tracker. A user logs five self-reported metrics (sleep quality,
energy, stress, focus and mood), follows multi-day "protocols" and checks in on them, collects
achievements and posts in a forum. This project models the parts of the system that decide
something:

- **`Storage`** (`storage.dfy`) models the in-memory server store `MemStorage`. It has seven
  tables, each with its own id counter. Each table is a sequence in insertion order, which is
  also ascending id order. The class's methods change those tables in place.
- **`Score`** (`score.dfy`) models the biohack score that `createBiometric` recomputes. It is
  the rounded mean of each entry's composite `(sleep + energy + (100 - stress) + focus + mood) / 5`.
- **`Routes`** (`routes.dfy`) models the `POST /api/check-in` handler with its streak rule,
  and the `days` default of `GET /api/biometrics/recent`.
- **`MockApi`** (`mock_api.dfy`) models the mock back end used when the client is served as
  static files. It is a class over module-level arrays. It re-implements the server's
  operations under different rules, and lemmas compare the two.
- **`QueryClient`** (`query_client.dfy`) models how the client dispatches requests to the
  mock. It covers query-string parsing, the first-match URL switch for reads and for writes,
  and the `{ ok: true, json }` response.
- **`UseBiometrics`** (`use_biometrics.dfy`) models the dashboard's metric summary: averages,
  highest values, and the split into four "weeks" with their averages.
- **`UseAchievements`** (`use_achievements.dfy`) models the achievement totals.
- **`BiohackScore`** (`biohack_score.dfy`) models the "next goal" shown under the score.
- **`DailyTips`** (`daily_tips.dfy`) models the rotating tips card.
- **`Schema`**, **`Collections`** and **`JsBuiltins`** hold the record shapes and the
  JavaScript behaviour the code relies on. That behaviour is: the spread merge of a partial
  update, `filter`, the stable `sort` with a numeric comparator, `Math.round`, `Math.ceil`,
  `String.prototype.split` and `includes`, and `parseInt`.

Conventions used throughout:

- Timestamps are integer milliseconds, and the current time is a parameter `now`.
- A day is a fixed 24 hours.
- Optional or absent fields are `Option` values. An achievement's `points`, which a JSON body
  may set to a number, to `null` or leave out, is a three-valued `JsonInt`.
- A JavaScript `NaN` that arises from an absent number is `None` where the code can produce it.
- The random sample metrics generated at start-up are a parameter `samples`.

## Model

| member | source | states |
|---|---|---|
| Collections.SortByKeyStable | server/storage.ts:397-401 | a stable sort of a table whose ids increase is strictly ordered by (sort key, id): equal dates keep insertion order |
| Collections.FilterSorted | server/storage.ts:355-359 | `filter` followed by `sort` keeps exactly the elements satisfying the filter, ordered by key with ties in id order |
| Collections.Filter | server/storage.ts:276-284 | `filter` keeps exactly the elements satisfying the condition, never more than it was given |
| Collections.SortByKey | server/storage.ts:397-401 | `sort` with a numeric comparator returns a permutation of its input, ordered by the key |
| JsBuiltins.RoundDiv | server/storage.ts:388 | `Math.round(num / den)` is the integer within half a unit of the quotient, halves rounded up |
| JsBuiltins.CeilDiv | client/src/components/dashboard/biohack-score.tsx:32 | `Math.ceil(num / den)` is the least integer whose multiple of `den` reaches `num` |
| JsBuiltins.JoinSplit | client/src/lib/queryClient.ts:24-26 | splitting on a separator and joining the pieces back gives the original string |
| JsBuiltins.SplitAtFirst | client/src/lib/queryClient.ts:24 | the first piece of a split ends at the first separator, and the rest is the split of what follows |
| JsBuiltins.Split | client/src/lib/queryClient.ts:24-26 | `split` on a character gives at least one piece, and no piece contains the separator |
| JsBuiltins.Includes | client/src/lib/queryClient.ts:33-46 | `includes` is defined as an occurrence of the pattern at some position of the string, which the routing lemmas use; in particular a pattern longer than the string is never included |
| JsBuiltins.SliceEnd | client/src/lib/mockApi.ts:204 | the end of `slice(0, end)`: `end` capped at the length, or for a negative `end` that many from the back, never below 0 |
| JsBuiltins.ParseIntOfNatToString | server/routes.ts:215 | `parseInt` reads a decimal numeral, optionally negated, back as its value |
| JsBuiltins.ParseInt | server/routes.ts:215 | `parseInt` gives `NaN` exactly when no digit follows the optional sign |
| Schema.PatchUserLaws | server/storage.ts:266-273 | merging a partial user is idempotent, the empty patch changes nothing, and the id is kept |
| Schema.PatchUser | server/storage.ts:270 | `{ ...user, ...patch }` keeps the id and the creation time, and the empty patch changes nothing |
| Schema.PatchProtocolLaws | server/storage.ts:304-311 | merging a partial protocol is idempotent and the empty patch changes nothing |
| Schema.PatchProtocol | server/storage.ts:308 | `{ ...protocol, ...patch }` keeps the creation time and, for the patches modelled, the id; the empty patch changes nothing |
| Schema.NextDay | server/storage.ts:328-336 | a protocol check-in moves the protocol one day on and completes it exactly when that day exceeds the duration; nothing else changes |
| Storage.SampleBiometrics | server/storage.ts:154-177 | sample entry `k` has id `k+1`, belongs to user 1, is dated `k` days back and carries the `k`-th sample readings |
| Storage.DefaultUser | server/storage.ts:88-104 | the sample user is user 1, "johndoe", last checked in at start-up |
| Storage.SampleProtocols | server/storage.ts:105-152 | four protocols with ids 1 to 4, all of user 1, active and not completed |
| Storage.SampleAchievements | server/storage.ts:179-203 | two achievements, completed 2 and 9 days back, because the shared `today` keeps moving back |
| Storage.SampleForumPosts | server/storage.ts:205-238 | three posts, each older than the one before, the first 9 days and 2 hours back |
| Storage.MemStorage.constructor | server/storage.ts:67-86 | the tables hold the sample data and each counter is one past its table's largest id |
| Storage.MemStorage.UserIndex | server/storage.ts:243 | the position of the user with a given id, or none when no user has it |
| Storage.MemStorage.GetUser | server/storage.ts:242-244 | the user with this id when there is one, otherwise none |
| Storage.MemStorage.GetUserByUsername | server/storage.ts:246-250 | the first user in insertion order with this username, or none when no user has it |
| Storage.MemStorage.CreateUser | server/storage.ts:252-264 | the new user gets the next id, score 50, streak 0 and no check-in whatever the input says, and is appended |
| Storage.MemStorage.UpdateUser | server/storage.ts:266-273 | an unknown id gives none and changes nothing; otherwise the patch's fields overwrite the user's and the rest are kept |
| Storage.ProtocolIndex | server/storage.ts:287 | the position of the protocol with a given id, or none; the mock's `protocols.find` uses the same lookup |
| Storage.MemStorage.GetProtocols | server/storage.ts:276-278 | exactly the user's protocols, in id order |
| Storage.MemStorage.GetActiveProtocols | server/storage.ts:280-284 | exactly the user's protocols that are active and not completed, in id order |
| Storage.MemStorage.GetProtocol | server/storage.ts:286-288 | the protocol with this id when there is one, otherwise none |
| Storage.MemStorage.CreateProtocol | server/storage.ts:290-302 | the new protocol gets the next id and starts on day 1, active and not completed |
| Storage.MemStorage.UpdateProtocol | server/storage.ts:304-311 | an unknown id gives none and changes nothing; otherwise the patch is merged into that protocol only |
| Storage.MemStorage.DeleteProtocol | server/storage.ts:313-315 | returns true exactly when the id was present; afterwards it is absent and the other protocols keep their order |
| Storage.MemStorage.CreateProtocolCheckIn | server/storage.ts:318-353 | the check-in is always stored; a known protocol moves to its next day; a non-zero known user then gets exactly one more streak day and the check-in time; otherwise the users are untouched |
| Storage.MemStorage.StoreProtocolCheckIn | server/storage.ts:319-325 | the check-in is appended with the next id and dated now |
| Storage.MemStorage.ApplyProtocolCheckIn | server/storage.ts:327-350 | a known protocol moves to its next day, and only then does a non-zero known user get one more streak day and the time; an unknown protocol changes nothing |
| Storage.MemStorage.AdvanceProtocol | server/storage.ts:328-336 | the protocol's next day is written through the partial update |
| Storage.MemStorage.BumpStreak | server/storage.ts:339-348 | the user's streak grows by one (absent counting as 0) and the check-in time is recorded |
| Storage.MemStorage.GetProtocolCheckIns | server/storage.ts:355-359 | exactly the protocol's check-ins, newest first, ties in insertion order |
| Storage.MemStorage.CreateBiometric | server/storage.ts:362-395 | the entry is stored with the next id; its own 7-day window always holds it, so a known user's score is always recomputed from that window; nothing else about the user changes |
| Storage.MemStorage.StoreBiometric | server/storage.ts:363-369 | the entry is appended with the next id, dated now, and so lies in its user's 7-day window |
| Storage.MemStorage.RecomputeScore | server/storage.ts:372-391 | a known user with a non-empty 7-day window gets that window's score; otherwise nothing changes |
| Storage.MemStorage.GetBiometrics | server/storage.ts:397-401 | exactly the user's entries, newest first, ties in insertion order |
| Storage.MemStorage.GetRecentBiometrics | server/storage.ts:403-413 | exactly the user's entries dated no earlier than `days` days back, oldest first |
| Storage.MemStorage.GetAchievements | server/storage.ts:416-420 | exactly the user's achievements, most recently completed first |
| Storage.MemStorage.CreateAchievement | server/storage.ts:422-431 | the achievement gets the next id and is completed now |
| Storage.MemStorage.ForumPostIndex | server/storage.ts:446 | the position of the post with a given id, or none |
| Storage.MemStorage.GetForumPosts | server/storage.ts:434-437 | a permutation of all posts, newest first |
| Storage.MemStorage.GetForumPostsByCategory | server/storage.ts:439-443 | exactly the posts of the category, newest first |
| Storage.MemStorage.GetForumPost | server/storage.ts:445-447 | the post with this id when there is one, otherwise none |
| Storage.MemStorage.CreateForumPost | server/storage.ts:449-459 | the post gets the next id and no comments |
| Storage.MemStorage.GetForumComments | server/storage.ts:462-466 | exactly the post's comments, oldest first |
| Storage.MemStorage.CreateForumComment | server/storage.ts:468-488 | the comment is always stored; only an existing post's comment count rises, by one; no other post changes |
| Score.WindowScore | server/storage.ts:377-389 | no score for an empty window; otherwise the mean composite rounded to the nearest integer |
| Score.MetricSum | server/storage.ts:380-384 | with metrics in [0, 100], five times an entry's composite lies in [0, 500] |
| Score.ComputeScore | server/storage.ts:378-388 | the accumulating loop computes the window's score |
| Score.WindowSumBounds | server/storage.ts:380-384 | with metrics in [0, 100], each entry contributes between 0 and 500 |
| Score.ScoreInRange | server/storage.ts:388 | with metrics in [0, 100], the score lies in [0, 100] |
| Score.WindowSumAppend | server/storage.ts:379-386 | the sum over two windows is the sum of their sums |
| Score.WindowSumPermutation | server/storage.ts:379-386 | the sum does not depend on the window's order |
| Score.ScorePermutation | server/storage.ts:388 | the score does not depend on the window's order |
| Score.SingleEntryScore | server/storage.ts:380-388 | a worked example: one entry {80, 70, 30, 60, 75} scores 71 |
| Routes.NextStreak | server/routes.ts:353-361 | no history or more than 48 hours gives 1; more than 20 and at most 48 hours adds one to the stored streak (absent as 0); 20 hours or less keeps it |
| Routes.StreakGrowsByAtMostOnePerCheckIn | server/routes.ts:353-366 | `k` check-ins raise the streak by at most `k` and never make it negative |
| Routes.StreakFromNoHistory | server/routes.ts:353-366 | from no history, the streak stays between 1 and the number of check-ins |
| Routes.StreakAtLeastOne | server/routes.ts:353-366 | once at least 1, the streak never drops below 1 |
| Routes.StreakScenario | server/routes.ts:353-366 | check-ins at 0, 10, 35 and 85 hours give streaks 1, 1, 2 and 1 |
| Routes.DaysOrDefault | server/routes.ts:216 | an absent, unparseable or zero `days` means 7; otherwise the parsed value |
| Routes.DaysRoundTrip | server/routes.ts:216 | a decimal `days` is read back as its value, zero aside |
| Routes.CheckIn | server/routes.ts:331-376 | a missing or zero user id, or missing metrics, is refused with nothing stored; otherwise the entry is stored even for an unknown user, and a known user gets the fresh score, the next streak and the check-in time |
| Routes.StoreCheckIn | server/routes.ts:340-366 | an accepted check-in stores the entry and, for a known user, writes the score, the next streak and the time |
| Routes.RecordCheckIn | server/routes.ts:348-366 | the handler's patch writes only the streak and the check-in time, so the score just computed survives |
| Routes.ComposeUserUpdates | server/routes.ts:346-366 | the score update and the streak patch together give the checked-in user |
| Routes.CheckedInUser | server/routes.ts:345-366 | a check-in changes only the score, the streak and the check-in time; the time is now, and the streak grows by at most one and is never negative |
| Routes.UserIndexUnique | server/routes.ts:348 | with ids increasing along the table, a user id sits at a single position |
| MockApi.MockAchievements | client/src/lib/mockApi.ts:98-115 | two achievements of user 1, completed 2 and 7 days before start-up |
| MockApi.MockForumPosts | client/src/lib/mockApi.ts:118-146 | three posts created 2 hours, 5 hours and 1 day before start-up |
| MockApi.MockState.constructor | client/src/lib/mockApi.ts:7-149 | the default user, four protocols, thirty daily entries newest first, two achievements and three posts |
| MockApi.MockState.GetUser | client/src/lib/mockApi.ts:153-158 | id 1 gives the default user; any other id gives "User not found" |
| MockApi.MockState.GetActiveProtocols | client/src/lib/mockApi.ts:160-165 | user 1 gets exactly its active protocols, completed or not, each at most as often as stored and in id (insertion) order; anyone else gets none |
| MockApi.MockState.CheckInProtocol | client/src/lib/mockApi.ts:167-182 | an unknown id gives "Protocol not found" and no change; otherwise the protocol's next day, and the default user's streak grows by one |
| MockApi.MockState.CreateProtocol | client/src/lib/mockApi.ts:184-200 | appended with id `length + 1`, on day 1, active and not completed |
| MockApi.MockState.GetBiometrics | client/src/lib/mockApi.ts:202-207 | user 1 gets a prefix as long as `slice(0, days)` allows: the `days` newest entries, or for a negative `days` all but that many oldest; anyone else gets none |
| MockApi.MockState.GetAchievements | client/src/lib/mockApi.ts:209-214 | user 1 gets all achievements; anyone else gets none |
| MockApi.MockState.GetForumPosts | client/src/lib/mockApi.ts:216-218 | the posts unsorted, in insertion order |
| MockApi.MockState.GetForumPostsByCategory | client/src/lib/mockApi.ts:220-222 | exactly the posts of the category, in insertion order |
| MockApi.MockState.CreateForumPost | client/src/lib/mockApi.ts:224-238 | appended with id `length + 1` and no comments |
| MockApi.MockState.CheckIn | client/src/lib/mockApi.ts:240-289 | the entry goes to the front with id `length + 1`; the default user, whatever the request's user id, gets one more streak day, the time, and the score of the first seven entries, which always exists |
| MockApi.FreshIdsPrepend | client/src/lib/mockApi.ts:250-263 | a `length + 1` id on a list never shortened is fresh and keeps the ids distinct |
| MockApi.SampleIdsFresh | client/src/lib/mockApi.ts:69-95 | the generated entries are numbered 1, 2, ... so their ids are fresh |
| MockApi.StreakAgreement | client/src/lib/mockApi.ts:240-289 | the mock adds a streak day exactly when the server's rule would: a gap of more than 20 and at most 48 hours, or a longer gap from streak 0 |
| MockApi.StreakDiverges | client/src/lib/mockApi.ts:240-289 | two check-ins 10 hours apart: the server keeps the streak and the mock raises it |
| MockApi.ScoreAgreement | client/src/lib/mockApi.ts:269-283 | when the mock's first seven entries are the server's 7-day window in some order, a check-in leaves the user with the same score on both |
| MockApi.ScoreDiverges | client/src/lib/mockApi.ts:240-289 | with eight recent entries the server averages all eight and the mock the newest seven, so the scores differ (100 vs 88) |
| UseBiometrics.CollectedValues | client/src/hooks/use-biometrics.ts:26-32 | a value is collected for a metric exactly when some entry carries it |
| UseBiometrics.CollectedAllPresent | client/src/hooks/use-biometrics.ts:26-32 | when every entry has the metric, one value is collected per entry |
| UseBiometrics.CollectedAppend | client/src/hooks/use-biometrics.ts:26-32 | collecting over concatenated lists concatenates the collections |
| UseBiometrics.CollectMetrics | client/src/hooks/use-biometrics.ts:16-32 | the `forEach` loop collects each metric's values in entry order |
| UseBiometrics.SumBounds | client/src/hooks/use-biometrics.ts:103 | a sum of values in [lo, hi] lies between `n * lo` and `n * hi` |
| UseBiometrics.CalculateAverage | client/src/hooks/use-biometrics.ts:101-105 | no values give 0; otherwise the integer within half a unit of the mean, halves rounded up |
| UseBiometrics.AverageBetweenMinAndMax | client/src/hooks/use-biometrics.ts:101-105 | the rounded average lies between the smallest and the largest value |
| UseBiometrics.MaxWith0 | client/src/hooks/use-biometrics.ts:44-50 | `Math.max(...values, 0)` is non-negative, at least every value, and is 0 or one of the values |
| UseBiometrics.MaxWith0Empty | client/src/hooks/use-biometrics.ts:44-50 | an empty list gives the highest value 0 |
| UseBiometrics.FlattenAllEmpty | client/src/hooks/use-biometrics.ts:120-121 | all-empty buckets hold no entries |
| UseBiometrics.SplitByWeeks | client/src/hooks/use-biometrics.ts:119-139 | `weeks` buckets whose concatenation is the entries sorted oldest first, each of at most `ceil(n / weeks)` entries, full before any later non-empty bucket, empty after the first empty one |
| UseBiometrics.SplitComplete | client/src/hooks/use-biometrics.ts:128-136 | with chunks of `ceil(n / weeks)`, `weeks` buckets hold every entry in order, none over-full, full before any later non-empty one |
| UseBiometrics.FillBuckets | client/src/hooks/use-biometrics.ts:130-136 | bucket `i` is the slice from `i * chunk` up to `(i + 1) * chunk`, cut at the end |
| UseBiometrics.WeeklyAverages | client/src/hooks/use-biometrics.ts:63-90 | one average summary per bucket, computed from that bucket's entries |
| UseBiometrics.CalculateMetrics | client/src/hooks/use-biometrics.ts:16-98 | averages and highest values over all entries, and four weekly summaries, each the averages of one bucket of the split of the sorted entries into chunks of `ceil(n / 4)`, full before any later non-empty bucket and empty after the first empty one |
| UseAchievements.AddPoints | client/src/hooks/use-achievements.ts:14 | a step of the sum is a number exactly when the running sum is and the points field is present; `null` points add 0 |
| UseAchievements.TotalPoints | client/src/hooks/use-achievements.ts:14 | the total is a number exactly when no achievement lacks its points field, and it then equals the plain sum with `null` as 0 |
| UseAchievements.TotalPointsEmpty | client/src/hooks/use-achievements.ts:14 | no achievements give 0 points |
| UseAchievements.MissingPointsPoisonTotal | client/src/hooks/use-achievements.ts:14 | one achievement without a points field makes the total `NaN`, wherever it sits |
| UseAchievements.NullPointsAddNothing | client/src/hooks/use-achievements.ts:14 | an achievement whose points are `null` leaves the total as it was |
| UseAchievements.NullPointsExample | client/src/hooks/use-achievements.ts:14 | `null` points next to 10 points total 10 |
| UseAchievements.TotalPointsNonNegative | client/src/hooks/use-achievements.ts:14 | non-negative points give a non-negative sum |
| UseAchievements.Stats | client/src/hooks/use-achievements.ts:14-15 | the count is the number of achievements; the total is the sum of points with `null` as 0, or `NaN` exactly when some points field is missing |
| BiohackScore.NextGoal | client/src/components/dashboard/biohack-score.tsx:32 | the goal is at most 100; no score (or 0) gives 60; a score of at most 95 gives a multiple of five |
| BiohackScore.GoalAboveScore | client/src/components/dashboard/biohack-score.tsx:32 | a non-zero score of at most 95 gets a goal 5 to 9 points above it |
| BiohackScore.GoalCapped | client/src/components/dashboard/biohack-score.tsx:32 | a score above 95 gets the goal 100 |
| BiohackScore.GoalMonotone | client/src/components/dashboard/biohack-score.tsx:32 | a higher positive score never gets a lower goal |
| DailyTips.IndexAfter | client/src/components/dashboard/daily-tips-card.tsx:28-31 | after `k` refreshes the index is `(start + k) mod 4`, always a valid index |
| DailyTips.RefreshCycle | client/src/components/dashboard/daily-tips-card.tsx:28-31 | four refreshes come back to the same tip |
| DailyTips.EveryTipShown | client/src/components/dashboard/daily-tips-card.tsx:6-31 | from any tip, every tip is shown within one cycle |
| DailyTips.TipsCard.constructor | client/src/components/dashboard/daily-tips-card.tsx:26 | the card opens on the first tip, "Optimize Your Morning" |
| DailyTips.TipsCard.CurrentTip | client/src/components/dashboard/daily-tips-card.tsx:33 | the tip on screen is always one of the four tips |
| DailyTips.TipsCard.RefreshTip | client/src/components/dashboard/daily-tips-card.tsx:28-31 | the index moves on by one and wraps from the last tip to the first |
| QueryClient.QueryString | client/src/lib/queryClient.ts:23-24 | a query string exists exactly when the URL holds a `?`, and it is the text up to any second `?` |
| QueryClient.QueryStringOf | client/src/lib/queryClient.ts:24 | the query string of `path?query` is `query`, whatever follows a second `?` |
| QueryClient.ParseQuery | client/src/lib/queryClient.ts:21-29 | the parsing loop computes the URL's parameter map |
| QueryClient.ParamsKeys | client/src/lib/queryClient.ts:25-28 | a key is in the parameter map exactly when some `&`-piece names it |
| QueryClient.LastDuplicateWins | client/src/lib/queryClient.ts:25-28 | a repeated key keeps the value of its last occurrence |
| QueryClient.SingleParam | client/src/lib/queryClient.ts:25-28 | `k=v` gives the map with `k` bound to `v` |
| QueryClient.DaysParam | client/src/lib/queryClient.ts:40 | no truthy `days` gives 30; a parsed `days` gives its value; an unparseable one gives 0 |
| QueryClient.RouteGet | client/src/lib/queryClient.ts:32-55 | the first pattern the URL includes picks the endpoint, and none gives "Unhandled mock endpoint: " and the URL; `days` is the parsed `days` or 30; a truthy `category` selects the category listing |
| QueryClient.RespondGet | client/src/lib/queryClient.ts:32-55 | a URL including no pattern fails with "Unhandled mock endpoint: " and the URL; otherwise the routed endpoint's answer |
| QueryClient.MockApiRequest | client/src/lib/queryClient.ts:16-56 | a read request is answered by routing the URL and calling the mock operation for user 1 |
| QueryClient.RecentWithoutQuery | client/src/lib/queryClient.ts:39-41 | `/api/biometrics/recent` without a query asks for 30 days |
| QueryClient.DaysUrlRoute | client/src/lib/queryClient.ts:39-41 | `/api/biometrics/recent?days=n` asks for `n` days |
| QueryClient.RecentWithDays | client/src/lib/queryClient.ts:39-41 | that request answers with the `n` newest entries, or all of them when there are fewer |
| QueryClient.OtherUserGetsDefaultUser | client/src/lib/queryClient.ts:33-34 | `/api/users/12` includes `/api/users/1`, so it answers with the default user |
| QueryClient.CategoryUrlRoute | client/src/lib/queryClient.ts:46-51 | `?category=c` selects that category, and an empty `c` lists every post |
| QueryClient.CategoryQuery | client/src/lib/queryClient.ts:46-49 | `?category=sleep` answers with the sleep posts |
| QueryClient.EmptyCategoryQuery | client/src/lib/queryClient.ts:46-51 | `?category=` answers with every post |
| QueryClient.RoutePost | client/src/lib/queryClient.ts:69-88 | only a POST is routed, to the first pattern it includes; otherwise "Unhandled mock API request: " with the verb and URL |
| QueryClient.ApiRequest | client/src/lib/queryClient.ts:63-99 | an unrouted request fails and changes nothing; a routed one answers `ok` with the mock operation's result and leaves exactly that operation's new state (protocol day and streak, new entry, streak and score) with every other table unchanged |
| QueryClient.ProtocolCheckInRoute | client/src/lib/queryClient.ts:70-75 | `/api/protocol-check-ins` does not include `/api/protocols`, so it reaches the protocol check-in |

## Left out

- `dist/index.js`, the React components' rendering, the Express plumbing (status codes other
  than the check-in's refusal, JSON bodies, logging), the zod schema validation and the
  Drizzle table definitions are not part of this model.
- Network I/O, `fetch`, the simulated delays of the mock and the promise machinery are left
  out. Each asynchronous call is modelled as one synchronous step.
- Clocks and randomness are parameters. `new Date()` is `now`. The random metric values the
  sample data draws with `Math.random` are `samples`, and the calendar arithmetic of
  `setDate`/`setHours` is a fixed 24 or 1 hours, so daylight-saving changes are not modelled.
- Floating point is replaced by exact rational reasoning. The composite `metricSum / 5` and
  the means are kept as exact fractions before `Math.round`, so rounding errors of doubles
  near a half are not modelled.
- UseBiometrics.CalculateMetrics: `calculateConsistency` (`client/src/hooks/use-biometrics.ts:108-116`) and
  the `consistency` record it fills are left out, because they use `Math.sqrt` and a
  floating-point coefficient of variation.
- UseBiometrics.CollectMetrics: an explicit `null` reading and an absent one are both `None`
  and are both skipped, whereas the source skips only `undefined`.
- Routes.CheckIn: the request's `biometrics` object is spread after `userId` in
  `server/routes.ts:341-344`, so a `userId` inside it would override the outer one. The
  model takes the outer id.
- Storage.MemStorage.CreateProtocolCheckIn: an absent streak counts as 0, so the new streak
  is 1. The source's `user.currentStreak + 1` gives 1 for `null` but `NaN` for `undefined`.
- MockApi.MockState.CheckIn: the same holds for the mock's `defaultUser.currentStreak += 1`.
  An absent metric in the request is `None`, which the score counts as 0, as `|| 0` does.
- JsBuiltins.ParseInt: leading whitespace, hexadecimal prefixes and a radix are not modelled;
  only an optional sign followed by decimal digits is.
- QueryClient.DaysParam: a truthy but unparseable `days` gives `NaN` in the source. The model
  treats that `NaN` as 0 days, which selects no entries, as `slice(0, NaN)` does.
- QueryClient.RouteGet: the user id is fixed at 1. The query function passes only the URL, so
  `mockApiRequest` always runs with its default `userId = 1`.
- QueryClient.ApiRequest: requires the request body to have the shape its endpoint expects.
  The source casts the body with `as any` and does not check it.
- Storage.MemStorage.UpdateProtocol / Schema.PatchProtocolLaws / Schema.PatchProtocol: a patch carries only the
  seven protocol fields other than `id` and `createdAt`, and cannot write `null`. The source
  passes the raw body of `PATCH /api/protocols/:id` (`server/routes.ts:134`), so a body with
  another `id` stores a record whose id differs from its table key, and a later protocol
  check-in on the old id then misses it. The model keeps the table key and the record id as
  one value and does not capture that.
- MockApi.MockState.CheckInProtocol: the source returns the protocol object itself, so later
  changes would show through it. The model returns its value at the time of the call.
- MockApi.MockState.GetUser: the source returns a fresh copy of the default user. The model
  returns the value, which is the same thing for a value type.
- The `IStorage` interface and the exported `storage` singleton are represented by
  `Storage.MemStorage` itself.
- The server routes other than `/api/check-in` and the `days` default only forward to the
  store and are not modelled separately.
