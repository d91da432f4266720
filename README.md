# BreathBloom, modelled in Dafny

BreathBloom is a small air-quality game. A Flask backend (`backend/app.py`)
keeps a list of user records and answers JSON requests: sign-up, login,
picking a city, reading the city's AQI and its five-day history,
completing eco-tasks for Bloom Points, which earn badges, redeeming points
for rewards, editing the profile, and a per-community leaderboard. A browser
client (`frontend/script.js`) shows the reading under one of the six US EPA
AQI categories. It offers tasks that fit the user's age group and the AQI
band, draws progress bars and announces newly earned badges.

This project models both sides.

- `common.dfy`: `Option`, the reply type, and the HTTP status codes the
  handlers return.
- `catalog.dfy`: the static tables both sides carry verbatim (TASKS,
  REWARDS, BADGES). It also holds the age-group rule and the task-band rule,
  with one set of definitions serving backend and client alike.
- `users.dfy`: the user record, the lookups the handlers use, the store
  invariant, the badge-awarding loop of `complete_task`, and the effect
  each successful handler has on one record.
- `leaderboard.dfy`: `get_leaderboard`'s accumulation loop over the users
  and its descending sort.
- `backend.dfy`: class `UserStore`. Its field `users` is the in-memory user
  list, and each Flask handler is a method on it. Each method returns the
  handler's status code, leaves the store unchanged when it rejects a
  request, states the exact new list on success, and keeps the invariant.
  The invariant is unique emails, plus badge lists without repeats that
  hold every badge their points reach.
- `aqi_service.dfy`: `get_cities`, `get_aqi` and `get_aqi_history` over the
  fixed tables, with a default reading of 40.
- `client_aqi.dfy`: the AQI category, the task band it corresponds to, the
  AQI bar width, the health-effect icons and their animation toggles.
- `client_badges.dfy`: the badge progress bar and the new-badge diff that
  drives notifications.
- `client_session.dfy`: the login/sign-up form check, the protected-page
  guard and the share text.
- `end_to_end.dfy`: lemmas that connect what the client shows to what the
  backend did.

Request fields are strings. The empty string stands for a field that is
either missing or empty, because Python and JavaScript both treat those as
false. Age and points reach the backend already parsed, as `Option<int>`
(None when missing).

Three behaviours of the code are easy to misread; the model follows the
code.

- The client's "previous badge" threshold (`frontend/script.js:541`) is
  the first badge at or below the points, not the highest. With the
  ascending ladder it is 0 below 50 points and 50 from then on.
  `ClientBadges.PreviousAsWritten` states this. A "highest badge reached"
  reading agrees with the code only below 100 points
  (`ClientBadges.PreviousIsHighestOnlyBelow100`).
- The backend's own copy of TASKS (`backend/app.py:38-135`) is never read
  by any handler. Only the client uses the table.
- The share text (`frontend/script.js:764`) does not hold the herb emoji
  its authors evidently meant. At that place the file holds four characters,
  U+00F0 U+0178 U+0152 U+00BF: the emoji's UTF-8 bytes read as
  Windows-1252. `ClientSession.Herb` holds those four characters.

## Model

| member | source | states |
|---|---|---|
| `Catalog.AgeGroupOf` | backend/app.py:380 | children exactly for ages up to 12, teenagers exactly for 13 to 19, adults exactly from 20; the same rule serves frontend/script.js:554 and :722 |
| `Catalog.BandOf` | frontend/script.js:555 | the reading lies within the bounds its band key names, and the open band "301+" is chosen exactly above 300 |
| `Catalog.BandKeysDistinct` | frontend/script.js:555 | the six band keys are pairwise different strings |
| `Catalog.ChildrenTasksShape` | frontend/script.js:857-888 | every band of the children's table holds three tasks worth 10 to 30 points |
| `Catalog.TeenagerTasksShape` | frontend/script.js:889-920 | every band of the teenagers' table holds three tasks worth 10 to 30 points |
| `Catalog.AdultTasksShape` | frontend/script.js:921-952 | every band of the adults' table holds three tasks worth 10 to 30 points |
| `Catalog.Tasks` | frontend/script.js:559 | `TASKS[ageGroup][aqiRange]` exists for every group and band and holds exactly three tasks worth 10 to 30 points |
| `Catalog.Rewards` | backend/app.py:138-163 | every age group has six rewards, costing 30 to 350 points, in strictly ascending cost |
| `Catalog.ChildrenRewardsShape` | backend/app.py:139-146 | the children's rewards are six, cost 30 to 350 points and are listed in strictly ascending cost |
| `Catalog.TeenagerRewardsShape` | backend/app.py:147-154 | the teenagers' rewards are six, cost 30 to 350 points and are listed in strictly ascending cost |
| `Catalog.AdultRewardsShape` | backend/app.py:155-162 | the adults' rewards are six, cost 30 to 350 points and are listed in strictly ascending cost |
| `Catalog.RewardsAscending` | backend/app.py:138-163 | any reward listed before another costs strictly less |
| `Catalog.RewardTitlesDistinct` | backend/app.py:138-163 | no age group lists a reward title twice |
| `Catalog.FindReward` | backend/app.py:382 | the result is the first reward with the requested title, and None exactly when no reward has that title |
| `Catalog.BadgeLadder` | backend/app.py:166-172 | five badges with positive, strictly ascending thresholds and pairwise distinct names |
| `Catalog.BadgeThresholds` | backend/app.py:166-172 | the thresholds are 50, 100, 200, 300 and 500, and the five listed badges are the only ones |
| `Users.FindUser` | backend/app.py:264 | the index of the first record with the email, and None exactly when nobody has registered it |
| `Users.FindCredentials` | backend/app.py:200 | the first record matching both email and password, and None exactly when no record matches both |
| `Users.FindUserUnique` | backend/app.py:264 | with unique emails, the lookup finds the one record that has the email |
| `Users.NewUser` | backend/app.py:227-239 | a new record starts with 0 points, 0 tasks, no badges or rewards, no city or image, in "Team Green", and is consistent |
| `Users.NewlyMembers` | backend/app.py:353-355 | a name is newly awarded exactly when it is not yet held and names a badge whose threshold the points reach |
| `Users.AwardBadges` | backend/app.py:353-355 | the loop over BADGES yields the specified award; the old list is a prefix of the new one; every badge reached is held; a list without repeats stays without repeats |
| `Users.AwardGrows` | backend/app.py:353-355 | awarding only appends: the held list is a prefix of the result |
| `Users.AwardNoDuplicates` | backend/app.py:353-355 | the `not in` test keeps a list without repeats free of repeats |
| `Users.AwardReached` | backend/app.py:353-355 | after the loop every badge with threshold at or below the points is held |
| `Users.NewlyIgnoresForeign` | backend/app.py:353-355 | holding a name that is not on the ladder does not change which badges are newly awarded |
| `Users.NothingNew` | backend/app.py:353-355 | when every reached badge is already held, nothing is newly awarded |
| `Users.AwardAppendsNewly` | backend/app.py:353-355 | for a ladder with distinct names, the result is the held list followed by exactly the newly reached badges, in ladder order |
| `Users.AwardLadder` | backend/app.py:353-355 | for BADGES: prefix, held list plus the newly reached badges, all reached badges held, no repeats introduced |
| `Users.Credited` | backend/app.py:350-355 | completing a task adds exactly the points and one task, keeps earlier badges as a prefix, holds every badge the new total reaches, and changes no other field |
| `Users.Redeemed` | backend/app.py:392-393 | redeeming moves exactly the cost out of the balance, appends the title after the earlier rewards, keeps a covered balance non-negative, and changes no other field |
| `Users.Updated` | backend/app.py:443-449 | username, email and age take the sent values; city and image take the sent value only when it is non-empty and otherwise stay; no other field changes |
| `Users.UpdateIdempotent` | backend/app.py:443-449 | sending the same update a second time leaves the record as the first update left it |
| `Users.CreditedConsistent` | backend/app.py:350-355 | a record without repeated badges is consistent after completing a task, whatever the points |
| `Users.CreditKeepsValid` | backend/app.py:350-355 | crediting one record keeps emails unique and every record consistent |
| `Users.RedeemKeepsValid` | backend/app.py:392-393 | deducting a non-negative cost and recording the title keeps the store invariant, since badges are untouched |
| `Users.UpdateKeepsValid` | backend/app.py:438-449 | an update whose new email is the old one or unregistered keeps emails unique and every record consistent |
| `Users.SelectCityKeepsValid` | backend/app.py:269 | changing one record's city keeps the store invariant |
| `Users.SignupKeepsValid` | backend/app.py:223-240 | appending a new record for an unregistered email keeps the store invariant |
| `Leaderboard.Communities` | backend/app.py:402-408 | the dictionary's keys: each community of some user, exactly once |
| `Leaderboard.Tally` | backend/app.py:410 | one row per community name, in the same order, whose points are that community's total |
| `Leaderboard.Insert` | backend/app.py:411 | inserting into a descending board keeps it descending and adds exactly that entry |
| `Leaderboard.SortDesc` | backend/app.py:411 | the result is sorted non-increasingly by points and is a permutation of the input |
| `Leaderboard.Accumulate` | backend/app.py:402-408 | the loop leaves a map whose keys are exactly the communities and whose values are their point totals |
| `Leaderboard.Rank` | backend/app.py:400-411 | the board is a ranking: descending, a permutation of the per-community totals, one entry per community, each total the sum of its members' points, and all totals summing to all users' points |
| `Leaderboard.PrefixCommunities` | backend/app.py:402-408 | one more user adds its community to the key order exactly when it is new |
| `Leaderboard.PrefixTotal` | backend/app.py:402-408 | one more user adds its points to its own community's total and leaves every other total alone |
| `Leaderboard.AccumulateKnown` | backend/app.py:405-406 | adding a user's points to a community already in the dictionary keeps the accumulation invariant |
| `Leaderboard.AccumulateNew` | backend/app.py:407-408 | entering a new community with the user's points, at the end of the key order, keeps the accumulation invariant |
| `Leaderboard.AbsentTotalsZero` | backend/app.py:402-408 | a community with no members has total 0 |
| `Leaderboard.TallyStep` | backend/app.py:402-408 | one more user adds exactly its points to the tally's sum |
| `Leaderboard.SumAppend` | backend/app.py:410 | the board's sum grows by an appended entry's points |
| `Leaderboard.TallyAppend` | backend/app.py:410 | tallying one more name appends that community's row |
| `Leaderboard.StandingsSum` | backend/app.py:400-410 | the per-community totals sum to the points of all users |
| `Leaderboard.InsertSum` | backend/app.py:411 | inserting an entry adds exactly its points to the sum |
| `Leaderboard.SortKeepsSum` | backend/app.py:411 | sorting keeps the sum of the board |
| `Leaderboard.InsertKeepsDistinct` | backend/app.py:411 | inserting a new community keeps communities distinct |
| `Leaderboard.SortKeepsDistinct` | backend/app.py:411 | sorting keeps communities distinct |
| `Leaderboard.SameRows` | backend/app.py:411 | a permutation of the standings holds exactly the standings' entries |
| `Leaderboard.StandingsCommunities` | backend/app.py:410 | the standings name exactly the communities of the users |
| `Leaderboard.StandingsDistinct` | backend/app.py:410 | the unsorted rows name each community once |
| `Leaderboard.RowsAreTotals` | backend/app.py:410-411 | every row of a reordering of the standings carries its community's total |
| `Leaderboard.RankingFacts` | backend/app.py:410-411 | sorting the standings yields a ranking |
| `Backend.UserStore.constructor` | backend/app.py:175-179 | the store starts as the loaded list; the invariant holds from the start for the empty list (no file) and for any loaded list that satisfies it |
| `Backend.UserStore.Login` | backend/app.py:195-206 | 400 exactly when a field is missing; 200 exactly when some record matches both email and password, returning that record; 401 otherwise |
| `Backend.UserStore.Signup` | backend/app.py:218-243 | 400 for a missing field; 409 exactly when the email is registered; otherwise 201 with the new record appended at the end; store unchanged on rejection; invariant kept |
| `Backend.UserStore.SelectCity` | backend/app.py:259-272 | 400 for a missing field; 404 exactly for an unknown email; otherwise only that record's city changes; invariant kept |
| `Backend.UserStore.GetUser` | backend/app.py:279-290 | 400 for a missing email; 404 exactly for an unknown email; otherwise 200 with the record holding that email |
| `Backend.UserStore.CompleteTask` | backend/app.py:340-359 | 400 for missing email, task or points; 404 exactly for an unknown email; otherwise only that record changes, by the task credit; store unchanged on rejection; invariant kept |
| `Backend.UserStore.RedeemReward` | backend/app.py:369-396 | 400 for a missing field; 404 for an unknown email or a title not offered to the user's age group; 400 when points fall short of the cost; otherwise the cost is deducted (leaving at least 0) and the title appended, badges untouched; store unchanged on rejection; invariant kept |
| `Backend.UserStore.GetLeaderboard` | backend/app.py:398-413 | the reply is a ranking of the communities by total points |
| `Backend.UserStore.UpdateUser` | backend/app.py:427-453 | 400 for a missing field; 404 for an unknown email; 409 exactly when a changed email belongs to someone; otherwise username, email and age are overwritten, city and image only by non-empty values; store unchanged on rejection; invariant kept |
| `AqiService.GetCities` | backend/app.py:245-249 | the city list names exactly the keys of AQI_DATA, each once |
| `AqiService.GetAqi` | backend/app.py:297-310 | 400 exactly for a missing city; otherwise the table reading, or 40 for an unknown city, with station index 1451 |
| `AqiService.GetAqiHistory` | backend/app.py:317-329 | 400 exactly for a missing city; otherwise five readings (the table's, or 40 five times) with the labels "Day 5" to "Day 1" |
| `AqiService.TablesAgree` | backend/app.py:10-35 | AQI_DATA and AQI_HISTORY cover the same ten cities |
| `AqiService.CurrentIsHistoryHead` | backend/app.py:301-321 | for every city the current reading equals the first entry of its history |
| `AqiService.ReadingsBounded` | backend/app.py:10-35 | every reading served, current or past, is between 1 and 200 |
| `AqiService.HistoryBounded` | backend/app.py:23-34 | every tabulated history entry is between 1 and 200 |
| `ClientAqi.CategoryOf` | frontend/script.js:401-419 | good exactly up to 50, moderate 51-100, unhealthy-sensitive 101-150, unhealthy 151-200, very-unhealthy 201-300, hazardous above 300 |
| `ClientAqi.CategoryMonotone` | frontend/script.js:401-419 | a higher reading never gets a better category |
| `ClientAqi.CategoryKeysDistinct` | frontend/script.js:401-419 | different categories have different class names and labels |
| `ClientAqi.BandMatchesCategory` | frontend/script.js:555 | for every reading, the task band is the one at the category's position |
| `ClientAqi.BarWidth` | frontend/script.js:428 | the bar width is in [0, 100] for non-negative readings, is 100 exactly from 300, and is a third of the reading below 300 (over exact reals) |
| `ClientAqi.BarWidthMonotone` | frontend/script.js:428 | a higher reading never gives a narrower bar |
| `ClientAqi.Effects` | frontend/script.js:274-365 | every category lists one to three effects, the respiratory one first, with no icon kind twice |
| `ClientAqi.ShownIcons` | frontend/script.js:274-365 | the effect list always has a respiratory icon, a visibility icon exactly above 100 and a cardiovascular icon exactly above 150 |
| `ClientAqi.Animate` | frontend/script.js:528-534 | shake exactly above 50; the cardiovascular icon, present only above 150, always pulses; the visibility icon is present above 100 and fades exactly above 150 |
| `ClientBadges.FirstAbove` | frontend/script.js:540 | the first badge whose threshold exceeds the points, and None exactly when none does |
| `ClientBadges.FirstAtOrBelow` | frontend/script.js:541 | the first badge in the list whose threshold is at or below the points, and None exactly when none is |
| `ClientBadges.NextBadge` | frontend/script.js:540 | the next badge is a badge of the ladder, above the points unless it is the last badge |
| `ClientBadges.PreviousBadgePoints` | frontend/script.js:541 | the previous threshold is 0 or the threshold of a badge at or below the points |
| `ClientBadges.NextBadgeIsCheapestAhead` | frontend/script.js:540 | below 500 points the next badge is the cheapest one not yet reached; from 500 it is Planet Protector |
| `ClientBadges.PreviousAsWritten` | frontend/script.js:541 | the previous threshold is 0 below 50 points and 50 from then on |
| `ClientBadges.HighestReached` | frontend/script.js:541 | the highest threshold reached, or 0: a reference for the previous threshold |
| `ClientBadges.PreviousIsHighestOnlyBelow100` | frontend/script.js:541 | the code's previous threshold is the highest one reached exactly while the points stay below 100 |
| `ClientBadges.Span` | frontend/script.js:542 | the points between previous and next badge are always positive, so the percentage never divides by zero |
| `ClientBadges.Earned` | frontend/script.js:543 | the points earned are the balance below 50 and the balance less 50 from then on; never negative for a non-negative balance |
| `ClientBadges.ProgressWidth` | frontend/script.js:544-546 | the progress width is within [0, 100] for non-negative points and is 100 from 500 points (over exact reals) |
| `ClientBadges.ProgressAt120` | frontend/script.js:540-547 | 120 points show Nature Champion next, counted from 50: 70 of 150 |
| `ClientBadges.NewBadges` | frontend/script.js:606 | a name is in the diff exactly when it is in the new list and not in the previous one |
| `ClientBadges.NewBadgesAppend` | frontend/script.js:606 | the filter distributes over concatenation, so it keeps the new list's order |
| `ClientBadges.NewBadgesNone` | frontend/script.js:606 | a list whose names were all held before yields an empty diff |
| `ClientBadges.NewBadgesAllNew` | frontend/script.js:606 | a list of names none of which were held is its own diff |
| `ClientBadges.NewBadgesOfAppended` | frontend/script.js:606 | appending fresh names to the previous list yields exactly those names as the diff |
| `ClientBadges.Congratulation` | frontend/script.js:608 | the message holds the badge's name at a fixed position between the fixed opening and closing, so the name can be read back |
| `ClientBadges.Notifications` | frontend/script.js:606-611 | one message per new badge, in the new list's order, each naming its badge; no message at all exactly when every current badge was held before |
| `ClientSession.FormComplete` | frontend/script.js:65-69 | login and sign-up proceed exactly when all four fields are non-empty (same check at frontend/script.js:126); `EndToEnd.FormMatchesBackend` shows this is exactly the backend's presence check |
| `ClientSession.Includes` | frontend/script.js:41 | the scan finds the fragment exactly when it occurs at some position of the path |
| `ClientSession.IncludesStep` | frontend/script.js:41 | after a mismatch at the front, the fragment occurs in the path exactly when it occurs in its rest |
| `ClientSession.MismatchRulesOut` | frontend/script.js:41 | one differing character rules out an occurrence at that position |
| `ClientSession.Protected` | frontend/script.js:41 | a path is protected exactly when "city.html", "main.html" or "profile.html" occurs in it at some position |
| `ClientSession.RedirectsToLogin` | frontend/script.js:41-46 | a stored non-empty email is never redirected; otherwise the visitor is redirected exactly when one of the three page names occurs in the path |
| `ClientSession.GuardedPages` | frontend/script.js:41-46 | city, main and profile pages redirect a visitor without an email; the login page never redirects; a stored email is never redirected |
| `ClientSession.NatToString` | frontend/script.js:764 | the printed count is a non-empty run of decimal digits |
| `ClientSession.NatToStringRoundTrip` | frontend/script.js:764 | the printed count reads back as the count |
| `ClientSession.LatestBadge` | frontend/script.js:764 | the last badge when it is non-empty; "None yet" when there is no badge or the last one is the empty string; never empty |
| `ClientSession.ShareTextCount` | frontend/script.js:764 | the share text opens with "I've earned " followed by digits that read back as the number of badges, ended by a non-digit |
| `ClientSession.ShareText` | frontend/script.js:764 | the share text ends with the latest badge (or "None yet") and the closing sentence |
| `EndToEnd.FormMatchesBackend` | frontend/script.js:65-69 | the client's form check passes exactly when the backend's presence check at backend/app.py:195 would |
| `EndToEnd.TaskNotifications` | frontend/script.js:606-611 | after complete_task the client's diff is exactly the newly reached badges, in ladder order, with one notification each |
| `EndToEnd.NoThresholdNoNotification` | frontend/script.js:607-611 | a task that crosses no threshold for a consistent record shows no notification |

## Left out

- `load_users`/`save_users` (backend/app.py:175-183) only serialise the list to `users.json`. The store is an in-memory sequence, and the constructor takes whatever list the file would hold.
- Flask routing, `request.get_json`, `jsonify`, CORS and `print` logging are not modelled. Replies are a status code, and a record where the handler returns one to the client (login, user).
- The user record echoed in the replies of sign-up, select-city, complete-task, redeem-reward and update-user is not modelled. These methods return only the status, and their `ensures` state the stored record instead.
- `int(age)` and `int(points)` are not modelled. A non-numeric string raises an unhandled exception, and a fractional number truncates. Ages and points are integers here.
- A JSON number 0 sent as age (or as points to a check other than `is None`) is falsy in Python. The model has no number-valued fields that are falsy, because the client always sends the age as text.
- Leaderboard.Rank, Backend.UserStore.GetLeaderboard: entries with equal totals keep the order in which communities first appear (the sort is stable). The contract does not state that tie order.
- All DOM work in frontend/script.js (element lookup, list rebuilding, modals) is not modelled, nor are `fetch`, `localStorage`, `setTimeout`, Chart.js, `navigator.share`/clipboard and `FileReader`. These are browser calls. The stored email enters the guard as a parameter.
- The network-error fallback redirects (frontend/script.js:95-100, 156-161) are not modelled, nor is the overlapping AQI fetch of `fetchAqi` and `loadTasks`. They are about asynchronous interleaving, not sequential logic.
- Leaderboard row highlighting is not modelled, nor are the description and prevention prose of AQI_EFFECTS. Effects keep their names and icons only.
- The theme toggle and logout only set or clear browser storage and are not modelled.
- ClientAqi.BarWidth, ClientBadges.ProgressWidth: the widths are exact reals. The client computes them in IEEE doubles, so a width such as a third of 1 is rounded there; that rounding is not modelled. The bounds, the cut-off at 100 and monotonicity hold for the rounded values too.
- Task descriptions and reward descriptions appear in the tables. No property depends on their text.
