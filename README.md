# NBA standings pool — a Dafny model

The NBA standings pool is a small web app. Players drag the fifteen teams of each
conference into the order they expect the regular season to end, then save that
ordering as a named entry. Two background functions keep a `team_wins` table
current from the ESPN standings feed and serve it. A leaderboard ranks the saved
entries by points, and players can search it by name.

This project models the core of that system:

- **The pick board** (`pool.dfy`, module `Pool`):
  - the four team rosters;
  - the rank maps and the 5/3/1 scoring rule of `scoreConference`;
  - the drag-and-drop reorder (`arrayMove`);
  - the page state, with autofill, reset and the saved-entries list.
- **The leaderboard** (`leaderboard.dfy`, module `Leaderboard`):
  - sorting by points descending, then name ascending;
  - rank numbering;
  - the case-insensitive name search.
- **The feed job** (`update_wins.dfy`, module `UpdateWins`):
  - the ESPN-to-roster abbreviation map;
  - the extraction of `{team_id, wins}` rows from a feed document;
  - the 26-row sanity guard;
  - the upsert and history writes;
  - the HTTP status the job answers with.
- **The read endpoints**:
  - `standings.dfy` (module `Standings`) models the standings endpoint: the wins table and the latest `updated_at`;
  - `get_wins.dfy` (module `GetWins`) models the wins endpoint's fold over the rows.
- **The two modals**:
  - `name_modal.dfy` (module `NameModal`): the entry-name dialog, with its length rule, the debounced availability check, its cancellation, and submit;
  - `auth_modal.dfy` (module `AuthModal`): the magic-link sign-in form, with its send/sent/error states and the 60-second resend cooldown.
- **Shared helpers**:
  - `strings.dfy` (module `Strings`): string order, `trim`, lower-casing and substring search;
  - `wrappers.dfy`: an `Option` type.

Stateful parts are classes whose methods change the fields the component keeps in
React state:
- `Pool.PoolState`;
- `NameModal.NameForm`;
- `AuthModal.EmailForm`.

An `await` splits an operation into two methods: the part before the call, and
the part that runs when the answer arrives. Network answers, clocks and generated
ids are parameters.

## Model

| member | source | states |
|---|---|---|
| Pool.RostersAgree | src/NBAPoolApp.tsx:47-117 | All four rosters have 15 teams with distinct ids. Last season's order of each conference holds the same teams as the alphabetical list. |
| Pool.EastRosters | src/NBAPoolApp.tsx:47-99 | The two East lists have distinct ids and the same team set. |
| Pool.WestRosters | src/NBAPoolApp.tsx:65-117 | The two West lists have distinct ids and the same team set. |
| Pool.EastAlphabeticalDistinct | src/NBAPoolApp.tsx:83-99 | No id repeats in the alphabetical East list. |
| Pool.EastLastSeasonDistinct | src/NBAPoolApp.tsx:47-63 | No id repeats in last season's East order. |
| Pool.WestAlphabeticalDistinct | src/NBAPoolApp.tsx:101-117 | No id repeats in the alphabetical West list. |
| Pool.WestLastSeasonDistinct | src/NBAPoolApp.tsx:65-81 | No id repeats in last season's West order. |
| Pool.ConferencesDisjoint | src/NBAPoolApp.tsx:83-117 | No team id is in both conferences. |
| Pool.Ids | src/NBAPoolApp.tsx:187 | The id list lines up, position by position, with the team list. |
| Pool.RankMap | src/NBAPoolApp.tsx:263-264 | Every rank in the map is between 1 and the list length. |
| Pool.RankMapKeys | src/NBAPoolApp.tsx:263-264 | An id has a rank exactly when some team in the list carries it. |
| Pool.RankMapLast | src/NBAPoolApp.tsx:263-264 | A team's rank is its 1-based position when no later team shares its id; the `Map` constructor keeps the last duplicate. |
| Pool.DistancePoints | src/NBAPoolApp.tsx:270-273 | At most 5 points; 5 exactly for distance 0 and nothing exactly from distance 3 on. |
| Pool.TeamPoints | src/NBAPoolApp.tsx:267-273 | A team scores at most 5, and nothing when either list lacks it. |
| Pool.ConferencePoints | src/NBAPoolApp.tsx:265-274 | The conference total is at most 5 per team of the actual list. |
| Pool.ScoreConference | src/NBAPoolApp.tsx:262-276 | The loop's total equals the per-team scoring sum and is at most 5 per actual team. `max` is 75. |
| Pool.RankDistanceTable | src/NBAPoolApp.tsx:270-273 | A ranked team scores 5 for an exact pick, 3 when one place off, 1 when two off, and 0 otherwise. |
| Pool.PointsBound | src/NBAPoolApp.tsx:265-274 | Points over any team list are at most 5 per team. |
| Pool.PointsOverAppend | src/NBAPoolApp.tsx:266-274 | Points over two lists put together are the sum of the points over each. |
| Pool.UnlistedTeamSkipped | src/NBAPoolApp.tsx:267-269 | A team absent from the user's list adds nothing: the `!pr` branch. |
| Pool.PerfectPrediction | src/NBAPoolApp.tsx:262-276 | Scoring a list against itself gives 5 per team, which is 75 for a conference of 15. |
| Pool.AllRankedScoreFive | src/NBAPoolApp.tsx:266-274 | When pick and actual ranks coincide for every listed team, each team scores 5. |
| Pool.FindIndex | src/NBAPoolApp.tsx:192-193 | The result is -1 exactly when the id is absent; otherwise it is the first index holding the id. |
| Pool.ArrayMove | src/NBAPoolApp.tsx:194 | The moved item lands at the target index. Removing it from the result gives the input with the item removed. The result is a permutation of the input. |
| Pool.ArrayMoveShifts | src/NBAPoolApp.tsx:194 | Items outside the moved span stay put. Items inside the span shift one place toward the vacated index. |
| Pool.Reorder | src/NBAPoolApp.tsx:189-195 | With no drop target, or a drop on itself, the list is unchanged. Otherwise the dragged team takes the target's index and the list is a permutation of the old one. |
| Pool.PoolState.constructor | src/NBAPoolApp.tsx:281-286 | Each conference starts from its stored list, or the alphabetical roster when none is stored. |
| Pool.PoolState.DragEnd | src/NBAPoolApp.tsx:189-198 | The dragged conference becomes the reordered list and is stored. The other conference and the saved entries do not change. |
| Pool.PoolState.AutofillLastSeason | src/NBAPoolApp.tsx:290-295 | Both conferences and their stored copies become last season's order, so each conference holds its own roster's teams. |
| Pool.PoolState.ResetAlphabetical | src/NBAPoolApp.tsx:296-301 | Both conferences and their stored copies become the alphabetical rosters. |
| Pool.PoolState.SaveMyEntry | src/NBAPoolApp.tsx:302-314 | Exactly one entry with the current picks is appended to the saved entries. Nothing else changes. |
| Leaderboard.Before | src/StandingsTable.tsx:28-32 | More points always sorts first, an entry never sorts before one with more points, and nothing sorts before itself. |
| Leaderboard.BeforeAsymmetric | src/StandingsTable.tsx:28-32 | The comparator never puts two entries each before the other. |
| Leaderboard.Insert | src/StandingsTable.tsx:27-32 | Inserting into a sorted list keeps it sorted and adds exactly the one entry. |
| Leaderboard.SortEntries | src/StandingsTable.tsx:27-32 | The result is a permutation of the entries, ordered by points descending (missing points count as 0) and then by name. |
| Leaderboard.Number | src/StandingsTable.tsx:33 | Entry i gets rank i + 1. |
| Leaderboard.EntriesOf | src/StandingsTable.tsx:33 | Dropping the ranks gives back the entries in order. |
| Leaderboard.RankEntries | src/StandingsTable.tsx:26-34 | Ranks are 1..n in order, the entries are a permutation of the input, points never rise down the table, and tied points are in ascending name order. |
| Leaderboard.Keep | src/StandingsTable.tsx:39 | A row is kept exactly when its lower-cased name contains the lower-cased query. |
| Leaderboard.KeepIncreasing | src/StandingsTable.tsx:39 | Filtering keeps the ranks in increasing order. |
| Leaderboard.Filtered | src/StandingsTable.tsx:36-42 | A blank query shows every row. Any other query shows exactly the matching rows, with their ranks still increasing. |
| Leaderboard.SearchKeepsRanks | src/StandingsTable.tsx:26-42 | Every row shown by a search keeps the rank it has in the full table, and shown ranks increase. |
| Strings.Less | src/StandingsTable.tsx:31 | JavaScript's `<` on strings: decided at the first differing character, and a proper prefix sorts first. LessIsCodeUnitOrder proves it is the code-unit order. |
| Strings.Units | src/StandingsTable.tsx:31 | A string's code units number between its length and twice that. |
| Strings.LessIsCodeUnitOrder | src/StandingsTable.tsx:31 | `a < b` holds exactly when a's UTF-16 code units come before b's in lexicographic order. |
| Strings.LessIrreflexive | src/StandingsTable.tsx:31 | No name sorts before itself. |
| Strings.LessAsymmetric | src/StandingsTable.tsx:31 | Two names never sort each before the other. |
| Strings.LessTransitive | src/StandingsTable.tsx:31 | Name order is transitive. |
| Strings.LessTotal | src/StandingsTable.tsx:31 | Of two different names, one sorts before the other. |
| Strings.CodeUnits | src/StandingsTable.tsx:31 | One or two 16-bit units; two exactly above U+FFFF, then a lead surrogate 0xD800..0xDBFF and a trail surrogate 0xDC00..0xDFFF. |
| Strings.UnitRankOrdersCodeUnits | src/StandingsTable.tsx:31 | Different characters have different ranks, and ranks order characters as their code units order lexicographically. |
| Strings.SurrogateOrder | src/StandingsTable.tsx:31 | U+10000 sorts before U+E000, because its lead surrogate is below 0xE000. |
| Strings.Utf16Length | src/NameModal.tsx:61-62 | `length` lies between the number of characters and twice that. |
| Strings.Utf16LengthBmp | src/NameModal.tsx:61-62 | Characters below U+10000 count one unit each. |
| Strings.Utf16LengthAstral | src/NameModal.tsx:61-62 | Characters above U+FFFF count two units each. |
| Strings.TrimStart | src/NameModal.tsx:61 | The result is a suffix that starts with a non-space, and only whitespace was removed. |
| Strings.TrimEnd | src/NameModal.tsx:61 | The result is a prefix that ends with a non-space, and only whitespace was removed. |
| Strings.Trim | src/NameModal.tsx:61 | The result is the input with a run of whitespace cut from each end: a slice of the input whose two ends are not whitespace, with only whitespace outside it. |
| Strings.TrimKeeps | src/NameModal.tsx:97 | A string without surrounding whitespace is its own trim. |
| Strings.TrimStartAllSpace | src/StandingsTable.tsx:38 | Trimming the front of an all-whitespace string leaves nothing. |
| Strings.TrimEmptyIffAllSpace | src/StandingsTable.tsx:38 | A trimmed query is empty exactly when the query is all whitespace. |
| Strings.Lower | src/StandingsTable.tsx:39 | Lower-casing keeps the length and folds each character. |
| Strings.Contains | src/StandingsTable.tsx:39 | The empty query is in every string, a string that begins with the query contains it, and no string contains a longer query. |
| UpdateWins.MapMatchesRosters | netlify/update-wins.ts:5-14 | The map sends each key to itself. Its keys are exactly the ids of the two conference rosters. |
| UpdateWins.MapIsIdentity | netlify/update-wins.ts:5-14 | Each abbreviation maps to itself. |
| UpdateWins.RosterIdsMapped | netlify/update-wins.ts:5-14 | Every roster id is a key of the map. |
| UpdateWins.MapKeysListed | netlify/update-wins.ts:5-14 | Every key of the map is a roster id. |
| UpdateWins.FirstWinsStat | netlify/update-wins.ts:48-53 | The result is None exactly when no stat qualifies; otherwise it is the first stat named "wins", short-named "W" or described "Wins". |
| UpdateWins.FirstWinsStatDecides | netlify/update-wins.ts:48-55 | Wins come from the first qualifying stat. A non-finite value gives 0. |
| UpdateWins.Coerce | netlify/update-wins.ts:55 | A non-finite number is stored as 0. |
| UpdateWins.StatWins | netlify/update-wins.ts:54-55 | A non-finite `value`, or no value and a non-finite or missing `displayValue`, gives 0 wins. |
| UpdateWins.WinsOf | netlify/update-wins.ts:48-55 | A team line without a wins stat gives 0 wins. |
| UpdateWins.RowOf | netlify/update-wins.ts:42-55 | An entry yields a row exactly when its abbreviation is present and mapped. The row carries the mapped id and the stat's wins. |
| UpdateWins.RowsOf | netlify/update-wins.ts:42-56 | There are no more rows than entries, and every row's team is a mapped id. |
| UpdateWins.RowsOfAppend | netlify/update-wins.ts:42-56 | Rows of two entry lists put together are the rows of each, in order. |
| UpdateWins.RowsOfSingle | netlify/update-wins.ts:42-55 | A single entry gives its one row, or none. |
| UpdateWins.Containers | netlify/update-wins.ts:36 | The `children` array when there is one, else the document alone; ExtractContainers states the consequence for the extraction. |
| UpdateWins.EntriesOf | netlify/update-wins.ts:39-40 | A block's own `standings.entries`, or its own `entries` when it has no `standings`, are its entries; otherwise the first child's, otherwise none. |
| UpdateWins.RowsOfBlocks | netlify/update-wins.ts:38-57 | Every row from any container names a mapped team. |
| UpdateWins.Extract | netlify/update-wins.ts:34-57 | Every extracted row names a mapped team. |
| UpdateWins.ExtractContainers | netlify/update-wins.ts:36 | With a `children` array, each child is a container; otherwise the document itself is the only container. |
| UpdateWins.ExtractRows | netlify/update-wins.ts:34-57 | The nested loops produce exactly the rows of the extraction function, all with mapped team ids. |
| UpdateWins.Handle | netlify/update-wins.ts:21-88 | A failed fetch answers 500 and writes nothing. Fewer than 26 rows answers 502 with the count and writes nothing. Otherwise every row is upserted stamped with one time. An upsert error then answers 500 with no history. Success appends one history row per row and answers 200 with the count and the time. |
| Standings.WinsTable | netlify/get-standings.ts:25-27 | A team has wins exactly when some row names it. |
| Standings.WinsTableLastRowWins | netlify/get-standings.ts:25-27 | A team's wins come from its last row. |
| Standings.Later | netlify/get-standings.ts:34 | One reduce step keeps the accumulator or takes the row's time, and the result is no earlier than either. |
| Standings.LatestFrom | netlify/get-standings.ts:32-36 | The reduce from a given start; LatestFromIsUpperBound and LatestFromIsAttained state what it computes. |
| Standings.LastUpdated | netlify/get-standings.ts:32-36 | The latest update is never earlier than the epoch; LastUpdatedIsMax completes it. |
| Standings.PrefixStep | netlify/get-wins.ts:20-23 | One more row updates the table at that row's team and applies one reduce step to the latest time. |
| Standings.TableAndTimeCover | netlify/get-wins.ts:20-23 | Every team of the rows has an entry in the table, and the latest time is no earlier than any row's. |
| Standings.LatestFromIsUpperBound | netlify/get-standings.ts:32-36 | The reduce never gives a time earlier than its start or than any row's time. |
| Standings.LatestFromIsAttained | netlify/get-standings.ts:32-36 | The reduce gives either its start or some row's time. |
| Standings.LastUpdatedIsMax | netlify/get-standings.ts:32-36 | The last-updated time is the epoch or the latest row time, and is never earlier than either. |
| Standings.NoRows | netlify/get-standings.ts:25-36 | No rows gives an empty wins table and the epoch. |
| Standings.Handle | netlify/get-standings.ts:9-46 | A wins-query error and then an entries-query error answer 500 with its message. Otherwise the answer is 200, cached for 60 seconds, and carries the entries, the wins table of the rows (keys exactly the teams present) and their latest update (never earlier than any row's, the epoch for no rows). |
| GetWins.FoldRows | netlify/get-wins.ts:18-23 | The loop builds the same table as the standings endpoint, with the last row per team winning. It finds a time no earlier than any row's. |
| GetWins.Handle | netlify/get-wins.ts:7-35 | A query error answers 500. Otherwise the answer is 200, cached for 60 seconds, with the folded table and time. No rows gives an empty table and the epoch. |
| NameModal.AcceptedNameShape | src/NameModal.tsx:97 | An accepted name trims to 2..40 UTF-16 code units (1..40 characters) with no whitespace at either end. A blank name is always invalid. |
| NameModal.AvailabilityRule | src/NameModal.tsx:97-98 | An unknown or free name is judged by length alone. A taken name is always invalid. |
| NameModal.InvalidLen | src/NameModal.tsx:97 | A blank name, and a name of more than 40 characters after trimming, have an invalid length. |
| NameModal.Invalid | src/NameModal.tsx:98 | An invalid length or a known-taken name is invalid; a valid name trims to 2..40 code units. |
| NameModal.SurrogatePairNames | src/NameModal.tsx:97 | One character above U+FFFF is a valid length (2 units); 21 such characters are too long (42 units). |
| NameModal.ShortNames | src/NameModal.tsx:97 | "ab" has a valid length and "a" does not. |
| NameModal.SaveDisabled | src/NameModal.tsx:235 | Save is enabled exactly when the trimmed name has 2..40 code units, it is not known to be taken, and no check or save runs. |
| NameModal.TakenFromCount | src/NameModal.tsx:83 | A name is taken exactly when the count is present and positive; a missing count means "not taken". |
| NameModal.NameForm.constructor | src/NameModal.tsx:25-31 | The form opens with the default name, untouched, with nothing checked and no error. |
| NameModal.NameForm.Open | src/NameModal.tsx:48-55 | Reopening resets the name, touched, availability and error, and leaves `checking` alone. |
| NameModal.NameForm.Edit | src/NameModal.tsx:176 | Only the name changes. |
| NameModal.NameForm.RunCheckEffect | src/NameModal.tsx:58-95 | The previous check is cancelled. A check starts exactly when open, the trimmed name has 2..40 code units and user and season are set. A started check sets `checking` and clears the error. The early return clears availability and the error but leaves `checking` as it was. |
| NameModal.NameForm.RunCheckEffectClearing | src/NameModal.tsx:58-95 | The same effect, but it keeps `checking` equal to "a check is pending". A closed dialog leaves availability and the error alone. |
| NameModal.NameForm.CheckSucceeded | src/NameModal.tsx:83-88 | A live check records taken as count > 0 and stops checking. A cancelled one changes nothing. |
| NameModal.NameForm.CheckFailed | src/NameModal.tsx:84-88 | A live check records the message, or "Name check failed", and stops checking. A cancelled one changes nothing. |
| NameModal.NameForm.Blur | src/NameModal.tsx:177 | Only `touched` changes, and it becomes true. |
| NameModal.NameForm.Submit | src/NameModal.tsx:156-159 | Saves exactly when the name is valid and no check runs. The saved name is the trimmed name, of 2..40 code units. |
| NameModal.CheckingLeftSetWitness | src/NameModal.tsx:58-95 | Opening with a valid name and then editing it to one character leaves "checking" on with no check pending. |
| NameModal.CheckingClearedWitness | src/NameModal.tsx:58-95 | The corrected effect clears "checking" on the same steps. |
| AuthModal.Tick | src/AuthModal.tsx:114 | One tick lowers a positive cooldown by one and never goes below 0. |
| AuthModal.CountdownSaturates | src/AuthModal.tsx:112-116 | After k ticks the cooldown is max(c - k, 0). |
| AuthModal.CooldownLasts60Ticks | src/AuthModal.tsx:101-116 | A fresh cooldown reaches 0 after exactly 60 ticks. |
| AuthModal.EmailForm.constructor | src/AuthModal.tsx:80-84 | The form starts idle with no email, no error and no cooldown. |
| AuthModal.EmailForm.SetEmail | src/AuthModal.tsx:187 | Only the email changes. |
| AuthModal.EmailForm.SendLink | src/AuthModal.tsx:87-94 | With an email, the error is cleared and the state becomes sending; without one, nothing changes. |
| AuthModal.EmailForm.SendLinkAnswered | src/AuthModal.tsx:95-101 | An error sets the error state and message. Success sets "sent" and a 60-second cooldown. |
| AuthModal.EmailForm.Submit | src/AuthModal.tsx:105-109 | A send starts exactly when the state is not sending and the email is non-empty, which is exactly when "Send link" is enabled. |
| AuthModal.EmailForm.SubmitThrottled | src/AuthModal.tsx:101-116 | Submit also refuses while "sent" with a cooldown running, so a send from "sent" needs a finished cooldown. It starts a send exactly when the button on show is enabled. |
| AuthModal.EmailForm.Resend | src/AuthModal.tsx:206-216 | A resend starts exactly when the cooldown is over and the email is non-empty, which is when "Resend" is enabled and an email is set. |
| AuthModal.EmailForm.TickOnce | src/AuthModal.tsx:112-116 | One interval tick applies `Tick` to the cooldown. Nothing else changes. |
| AuthModal.EmailForm.ShowsSendButton | src/AuthModal.tsx:201 | "Send link" shows in every state but "sent". The ensures of EmailForm.SubmitThrottled relate it to the handler. |
| AuthModal.EmailForm.SendDisabled | src/AuthModal.tsx:202 | "Send link" is disabled while sending or with no email. EmailForm.Submit's ensures say a submit starts a send exactly when it is enabled. |
| AuthModal.EmailForm.ResendDisabled | src/AuthModal.tsx:209 | "Resend" is disabled while the cooldown runs. EmailForm.Resend's ensures say a click with an email starts a send exactly when it is enabled. |
| AuthModal.SubmitIgnoresCooldownWitness | src/AuthModal.tsx:105-109 | Right after a link is sent, with 60 seconds of cooldown left, pressing Enter starts another send. |
| AuthModal.SubmitThrottledWitness | src/AuthModal.tsx:101-116 | The throttled submit refuses the same send. |

## Left out

- Rendering, styling, portals and the dnd-kit sensors, collision detection and keyboard handling are not modelled. Only the effect of a finished drag is.
- Storage I/O is not modelled:
  - `localStorage` failures, and `JSON.parse` of what was stored;
  - a stored value is an optional team list, and the saved-entries list is a field.
- Generated values become parameters:
  - `crypto.randomUUID` or `Date.now()` ids and ISO timestamps;
  - the `alert` after saving is left out.
- Network calls are not modelled. The ESPN fetch, the Supabase queries and the auth call become parameters that carry their outcome.
- Timers are not modelled:
  - the 300 ms debounce and the 1-second interval are steps the caller takes (`CheckSucceeded`, `CheckFailed`, `TickOnce`);
  - the React effect scheduling around them is left out too.
- `scoreAndSort` (app/scoring) is not part of this model. Standings.Handle passes the entries through unscored.
- src/AuthGate.tsx, src/AuthBox.tsx and src/main.tsx are not part of this model.
- Standings.Handle: the JavaScript `Object.fromEntries` and reduce are modelled on rows whose `updated_at` is a string. Times compare as strings, as in the source.
- Leaderboard.Before: `localeCompare` is modelled as the order of UTF-16 code units, the order of JavaScript's `<`. Locale collation is not modelled.
- Strings.Less: strings are sequences of Unicode scalar values. A JavaScript string holding a lone surrogate code unit has no counterpart here. Lengths (`Strings.Utf16Length`) and order (`Strings.Less`) are nonetheless those of the UTF-16 code units.
- Strings.Lower: `toLowerCase` is modelled as the ASCII fold. Characters outside A-Z are left unchanged.
- Strings.Trim: whitespace is a fixed set of characters. Line terminators and the Unicode space separators are listed one by one.
- Leaderboard.SortEntries: `Array.prototype.sort` is modelled as a stable insertion sort. The contract is that of any sort with this comparator.
- UpdateWins.WinsOf: `Number(...)` coercion of strings and fractional wins are not modelled. A stat value is either a finite integer or non-finite (then 0).
- UpdateWins.Handle: these parts are not modelled:
  - the database's handling of duplicate `team_id` rows in one upsert;
  - the result of the history insert, which the source ignores.
- UpdateWins.MapMatchesRosters: keys that a plain object inherits from its prototype (such as `constructor`) are not modelled as present in `MAP`.
- GetWins.FoldRows: the loop writes into a plain object `{}`. A row whose `team_id` is `__proto__` hits the inherited setter, which ignores a number, so the source stores no such key; the model stores it, as `Object.fromEntries` in the standings endpoint does. Only the 30 roster ids are ever written, so real data never meets this case.
- Pool.Reorder: requires both dragged and target ids to be in the list. The source's `arrayMove` with index -1 for an unknown id is not modelled.
- Pool.RostersAgree: states equal team sets plus distinct ids, rather than a multiset equality. Together these imply it.
- AuthModal.EmailForm.Submit: the browser's validation of `<input type="email">` is not modelled. It stops a malformed address such as "abc" before `onSubmit` runs, so the model starts a send for every non-empty email. The same holds for AuthModal.EmailForm.SubmitThrottled. "Resend" is a plain button and skips that validation, as modelled.
- AuthModal.EmailForm.SubmitThrottled: the browser validation noted for Submit is not modelled here either.
- AuthModal.EmailForm.SendLinkAnswered: requires the state to be sending. Two overlapping sends, whose answers could arrive in either order, are not modelled.
- The scoring helper in src/NBAPoolApp.tsx:262-276 is commented out in the source. It is modelled as written.

## Findings

| source | as written | input that shows it | evidently intended | confidence | as-written member | corrected member |
|---|---|---|---|---|---|---|
| src/AuthModal.tsx:105-109 | `onSubmit` refuses only while sending or with an empty email. In the "sent" state the Send button is hidden, but pressing Enter in the email field still submits the form. | Send a link successfully (state "sent", cooldown 60), then press Enter at once: a second link is sent. | The resend throttle of line 101 and lines 209-211 also holds for form submission. | medium, not executed | AuthModal.SubmitIgnoresCooldownWitness | AuthModal.EmailForm.SubmitThrottled |
| src/NameModal.tsx:61-66, 91-94 | The cleanup cancels a pending check, so its `finally` never clears `checking`. The early return for a too-short or too-long name does not clear it either. | Open with "ab", then within 300 ms edit the name to "a": "Checking availability…" stays on although no check runs, until the name is valid again. | `checking` is true only while a check is pending. | medium, not executed | NameModal.CheckingLeftSetWitness | NameModal.NameForm.RunCheckEffectClearing |
