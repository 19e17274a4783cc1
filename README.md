# walking_spb — a verified model of the authentication, captcha, rate limiting, SQL building, walk routes and page logic

walking_spb is a web application for planning walks around Saint Petersburg.
Its Express backend signs users in behind three defences:
- a per-client request limiter;
- a counter of failed logins per (IP, e-mail) pair, kept for five minutes;
- an arithmetic captcha that becomes mandatory from the third failure.

It builds parameterised SQL for the places catalogue and the profile update. It also manages walks: ordered lists of places with a visited flag and a favourite walk that cannot be deleted.

The React frontend filters the catalogue and validates the login and registration forms. It shows a walk's progress, keeps a memory journal whose photos live in `localStorage`, lets a place be added to a walk, edits the profile and pins places on a map.

This project models that core in Dafny and proves what it promises:
- the counters expire and accumulate correctly;
- the captcha is single-use and its question round-trips;
- the login route decides in the documented order and touches only the caller's counter;
- the SQL placeholders `$1..$k` line up with the bound parameters;
- a place added to a walk goes one past the walk's highest position, and reordering never writes a numeric position 0;
- the favourite walk survives every delete;
- the filter pipeline keeps exactly the places passing every active test;
- photo storage round-trips for the corrected save that clears stale keys first; the source's own save can bring back a removed photo.

Time is an explicit millisecond argument everywhere. A cache entry is live while `now < expiresAt`. Randomness, bcrypt, JWT and the database are parameters or oracles.

Modules:
- `Common`: JavaScript string and number semantics (`trim`, `toLowerCase`, `includes`, `parseInt`, `String(n)`, truthiness).
- `TtlCache`: the `node-cache` store.
- `RateLimiter`, `Captcha`, `Auth`, `Sql`, `Places`, `Walks`: the backend.
- `MainPage`, `WalkDetail`, `MemoryJournal`, `LoginForm`, `RegisterForm`, `PlaceModal`, `Profile`, `YandexMap`: the frontend components.

## Model

| member | source | states |
|---|---|---|
| TtlCache.GetAfterSet | backend/middleware/rateLimiter.js:5 | a value that was just set reads back until its TTL runs out and is absent from then on |
| TtlCache.OtherKeysUnaffected | backend/middleware/captcha.js:4 | setting or deleting one key leaves every other key's reading unchanged |
| TtlCache.AbsentStaysAbsent | backend/middleware/rateLimiter.js:5 | an entry not visible at some instant stays invisible later (no value reappears without a set) |
| RateLimiter.RecordFailure | backend/middleware/rateLimiter.js:19-29 | one failure raises the pair's live count by one, restarts its 300 s TTL and leaves every other key as it was |
| RateLimiter.Remaining | backend/middleware/rateLimiter.js:47 | `Math.max(0, 5 - count)`: at most 5, zero exactly from the fifth failure, and hint plus count is 5 below that |
| RateLimiter.FailedAttemptTracker.TrackFailedLogin | backend/middleware/rateLimiter.js:19-29 | returns the previous live count plus one and stores it under `failed_<ip>_<email>` with a fresh TTL |
| RateLimiter.FailedAttemptTracker.ResetFailedLogin | backend/middleware/rateLimiter.js:31-34 | removes exactly that pair's entry |
| RateLimiter.FailedAttemptTracker.RequiresCaptcha | backend/middleware/rateLimiter.js:36-41 | true exactly when the live count is at least 3 |
| RateLimiter.FailedAttemptTracker.GetRemainingAttempts | backend/middleware/rateLimiter.js:43-48 | the hint lies in 0..5, is 5 with no live count and is 0 exactly from 5 failures |
| RateLimiter.RecordFailureLive | backend/middleware/rateLimiter.js:21-24 | read while the newest entry is live, the count is the previous one plus one |
| RateLimiter.FailuresAccumulate | backend/middleware/rateLimiter.js:19-29 | k failures each less than 300 s after the previous one raise the count by k while the last is live |
| RateLimiter.CaptchaFromThirdFailure | backend/middleware/rateLimiter.js:36-48 | starting from nothing, the captcha is required exactly from the third close failure and the hint is `max(0, 5 - k)` |
| RateLimiter.FailureKeepsCaptcha | backend/middleware/rateLimiter.js:19-41 | a further failure never lowers the count, so a required captcha stays required |
| RateLimiter.FailureExpires | backend/middleware/rateLimiter.js:5 | 300 s after the latest failure the count reads 0 |
| RateLimiter.ResetClears | backend/middleware/rateLimiter.js:31-48 | after a reset no captcha is required and the hint is 5 |
| RateLimiter.PairsCanShareCounter | backend/middleware/rateLimiter.js:20 | the key `failed_<ip>_<email>` is not injective: two different pairs share one counter |
| RateLimiter.HitWindow | backend/middleware/rateLimiter.js:8-10 | a request joins the client's live window, or opens a new 60 s window with one hit when there is none or it has ended |
| RateLimiter.AdmittedWithinWindow | backend/middleware/rateLimiter.js:10 | within one window no more requests are let through than the 5 still free |
| RateLimiter.AtMostFivePerWindow | backend/middleware/rateLimiter.js:8-10 | of any number of requests falling in the window opened by the first, at most 5 are let through |
| RateLimiter.Settled | backend/middleware/rateLimiter.js:16 | `skipSuccessfulRequests`: a response below 400 takes the request back out of its window; nothing else changes |
| RateLimiter.SuccessNotCounted | backend/middleware/rateLimiter.js:16 | a request that ends successfully in a live window leaves all windows as they were |
| RateLimiter.FailureCounted | backend/middleware/rateLimiter.js:16 | a request that ends with status 400 or more stays counted |
| RateLimiter.AuthLimiter.Hit | backend/middleware/rateLimiter.js:8-17 | counts the request in the client's window and admits it exactly when the window holds at most 5 |
| RateLimiter.AuthLimiter.Settle | backend/middleware/rateLimiter.js:16 | the windows become `Settled(old windows)` |
| Captcha.SymbolOpInverse | backend/middleware/captcha.js:8 | each of the three operators is read back from the symbol it is shown as |
| Captcha.AnswerRange | backend/middleware/captcha.js:9-24 | with operands in 1..10 every answer of `+`, `-`, `*` lies in -9..100 |
| Captcha.ParseQuestionRoundTrip | backend/middleware/captcha.js:26 | the question `${num1} ${operation} ${num2}` determines the operands and the operator |
| Captcha.TextShowsQuestion | backend/middleware/captcha.js:26-34 | the text between `Решите: ` and ` = ?` reads back as the same operands and operator as the question |
| Captcha.CaptchaId | backend/middleware/captcha.js:27 | a generated id is never falsy |
| Captcha.CaptchaIdTrimmed | backend/middleware/captcha.js:27 | a generated id has nothing for `trim` to remove, so the login route's trimming keeps it |
| Captcha.AnswerStringTrimmed | backend/middleware/captcha.js:29 | the stored answer is non-empty and already trimmed, so a correct reply can match it |
| Captcha.CaptchaStore.GenerateCaptcha | backend/middleware/captcha.js:7-36 | returns the id, question and text for the chosen operands, and stores the answer string under the id for 600 s |
| Captcha.CaptchaStore.VerifyCaptcha | backend/middleware/captcha.js:39-52 | the verdict and the new cache are those of `Check` on the old cache |
| Captcha.FalsyRefused | backend/middleware/captcha.js:40-42 | a falsy id or answer is refused and the cache is untouched |
| Captcha.UnknownRefused | backend/middleware/captcha.js:44-47 | an id that is not live (never issued, consumed or expired) is refused and the cache is untouched |
| Captcha.VerdictOfLiveEntry | backend/middleware/captcha.js:44-51 | for a live id the verdict is exact string equality with the trimmed answer, and the entry is gone afterwards whatever the verdict |
| Captcha.SecondVerifyFails | backend/middleware/captcha.js:49 | single use: a second verification of the same id is refused |
| Captcha.IssueThenVerify | backend/middleware/captcha.js:29-51 | a captcha answered with its answer before its 600 s are up is accepted |
| Captcha.ExpiredRefused | backend/middleware/captcha.js:4 | past 600 s the right answer is refused |
| Captcha.ThreePlusFourStored | backend/middleware/captcha.js:16-29 | `3 + 4` is stored as the string "7" |
| Captcha.ThreePlusFourOnce | backend/middleware/captcha.js:49-51 | " 7 " is accepted for `3 + 4`, and "7" right after it is refused |
| Captcha.OtherUnpaddedAnswerRefused | backend/middleware/captcha.js:51 | an answer with no whitespace at either end is compared as typed, so any text other than the stored one is refused |
| Captcha.ThreePlusFourExactString | backend/middleware/captcha.js:51 | answers are compared as strings: "07" and "+7" do not match "7" |
| Auth.FirstSegment | backend/routes/auth.js:21 | `split(',')[0]`: the longest comma-free prefix, ending at the first comma or the end |
| Auth.GetClientIP | backend/routes/auth.js:20-26 | the first truthy source among forwarded-for's first hop, x-real-ip, the connection and socket addresses and `req.ip`, else "unknown"; never empty |
| Auth.ForwardedForWins | backend/routes/auth.js:21 | only the first hop of `x-forwarded-for` is taken, and it wins over every other source |
| Auth.RejectCredentials | backend/routes/auth.js:162-182 | the shared 401 branch: counts a failure, replies with the hint and, from three failures, a fresh captcha |
| Auth.CredentialStage | backend/routes/auth.js:156-244 | from the user lookup on, the reply and both caches are those of `CheckCredentials` |
| Auth.Login | backend/routes/auth.js:110-245 | the reply and both caches are those of the handler's specification `LoginSpec` |
| Auth.LoginRoute | backend/routes/auth.js:105 | behind `authLimiter`: a refused request changes neither cache and gets 429; an admitted one runs the handler, and a reply below 400 is taken back out of the window |
| Auth.ValidationFirst | backend/routes/auth.js:111-114 | an invalid body gets the validation errors and neither cache is read or written |
| Auth.CaptchaFieldsIgnoredUnlessRequired | backend/routes/auth.js:123-125 | while no captcha is required the captcha fields are not looked at and no captcha reply is given |
| Auth.CredentialsNoCaptchaReply | backend/routes/auth.js:156-244 | from the user lookup on, no reply is a security-check reply |
| Auth.MissingCaptchaIssuesOne | backend/routes/auth.js:129-141 | a required captcha whose id or answer is missing: a fresh captcha is issued and sent with status 400, and the failure count is untouched |
| Auth.BlankAnswerIsMissing | backend/routes/auth.js:109 | a blank captcha answer counts as missing, because `trim` runs before the check |
| Auth.WrongCaptchaCounts | backend/routes/auth.js:144-153 | a wrong or stale captcha adds one failure, consumes the captcha and replies before the database is asked |
| Auth.UnknownUserLikeWrongPassword | backend/routes/auth.js:162-209 | an unknown e-mail and a wrong password give the same reply and the same caches |
| Auth.RejectionFacts | backend/routes/auth.js:162-182 | a 401 reply adds one failure, reports `max(0, 5 - n)` and carries a fresh captcha exactly when n >= 3 |
| Auth.CredentialsRejection | backend/routes/auth.js:157-209 | from the user lookup on, every 401 reply is that branch |
| Auth.RejectionShape | backend/routes/auth.js:162-209 | every 401 of the whole handler adds exactly one failure, with the hint and the captcha as above |
| Auth.LoginSucceedsIff | backend/routes/auth.js:111-233 | success exactly when the body is valid, any required captcha is answered correctly, the user exists, the password matches and nothing throws; the pair's counter is then cleared |
| Auth.ServerErrorCounts | backend/routes/auth.js:234-244 | a thrown error counts one failure; after the counter was reset (token signing fails) it ends at 1 |
| Auth.CredentialsTouchOnlyKey | backend/routes/auth.js:156-244 | from the user lookup on, only the pair's own counter changes |
| Auth.OtherCountersUntouched | backend/routes/auth.js:110-245 | whatever the outcome, no other (ip, email) counter changes |
| Auth.ThreeFailuresThenCaptcha | backend/routes/auth.js:123-209 | three wrong passwords reply with hints 4, 3, 2 and a captcha on the third; the right password then still gets a captcha demand and the count stays 3 |
| Auth.AnswerNotX | backend/middleware/captcha.js:29 | no stored answer equals "x" |
| Auth.WrongAnswerAfterCaptcha | backend/routes/auth.js:144-153 | answering the issued captcha wrongly replies with 1 attempt left, makes the count 4 and consumes the captcha |
| Auth.WrongAnswerGate | backend/routes/auth.js:144-153 | the captcha gate with a wrong answer at count 3: one failure recorded, the captcha deleted |
| Auth.ProfileQuery | backend/routes/auth.js:383-388 | the statement ends with `WHERE id = $k RETURNING ...` |
| Auth.ProfileQueryPlaceholders | backend/routes/auth.js:383-388 | the statement's placeholders are the set list's followed by k |
| Auth.TwoAssignments | backend/routes/auth.js:363-388 | both fields set: `full_name = $1, email = $2`, user id `$3`, placeholders exactly 1..3 |
| Auth.OneAssignment | backend/routes/auth.js:363-388 | one field set: `<column> = $1`, user id `$2` |
| Auth.BuildProfileUpdate | backend/routes/auth.js:330-388 | "no data" exactly when both fields are falsy; otherwise one value per truthy field plus the user id, placeholders exactly `$1..$k`, each column bound to its own value and the id to the last |
| Sql.Assignment | backend/routes/auth.js:368 | the assignment `column = $n` uses exactly the placeholder n |
| Sql.OneTo | backend/routes/auth.js:365-386 | the numbers 1..k in order: the placeholders a counter starting at 1 hands out |
| Places.PresentFilters | backend/routes/places.js:14-35 | a filter gets a clause exactly when its value is truthy, at most once, in the fixed order category, budget, time, search |
| Places.Params | backend/routes/places.js:11-34 | one parameter per present filter |
| Places.BuildPlacesQuery | backend/routes/places.js:10-37 | the statement is the SELECT, the clauses of the present filters numbered from `$1`, then `ORDER BY title ASC`; the parameters are those filters' values, in order |
| Places.AddClause | backend/routes/places.js:14-30 | each step appends one clause and its value and keeps the counter one past the filters handled |
| Places.NoFilters | backend/routes/places.js:10-37 | with no filter the statement is the plain ordered SELECT with no parameters |
| Places.ClausePlaceholders | backend/routes/places.js:15-33 | each clause uses its placeholder once, the search clause twice (title and description) |
| Places.ClausesPlaceholderSet | backend/routes/places.js:12-33 | the placeholders used are exactly one number per filter, consecutive |
| Places.ClausesPlaceholdersSorted | backend/routes/places.js:12-33 | the placeholders appear in non-decreasing order |
| Places.StatementPlaceholders | backend/routes/places.js:10-39 | the statement's placeholders are exactly `$1..$k` for its k parameters, so `$i` is bound to the i-th parameter |
| Places.SearchClauseLast | backend/routes/places.js:32-35 | a search's clause comes last, uses its placeholder twice and is bound to the last parameter `%search%` |
| Places.ParamsAt | backend/routes/places.js:16-34 | the i-th parameter is the bound value of the i-th present filter |
| Places.TimeWithoutDigits | backend/routes/places.js:28 | a time that starts with neither a blank, a sign nor a digit is bound as NaN |
| Places.TimeLeadingInteger | backend/routes/places.js:28 | a time that starts with the digits of a number is bound to that number, whatever follows the digits (`"90 min"` gives 90) |
| Walks.PlacesInSnoc | backend/routes/walks.js:153-156 | appending a row adds its place to its own walk's places only |
| Walks.MaxOrder | backend/routes/walks.js:144-147 | `MAX(order_index)`: NULL exactly for a walk without rows, otherwise the largest position of one of its rows |
| Walks.NextOrderAbove | backend/routes/walks.js:149 | the NULL-to-0 maximum plus one is past every position in the walk, and 1 for an empty walk |
| Walks.AddPlaceOutcome | backend/routes/walks.js:105-164 | a place is added exactly when the id is truthy, the walk is the caller's, the place exists and is not yet in the walk; the row is appended unvisited one past the highest position; every refusal leaves the rows alone |
| Walks.BatchRowsPositions | backend/routes/walks.js:186-227 | the inserted rows take consecutive positions from the walk's next one, belong to the walk and start unvisited |
| Walks.BatchRowsNew | backend/routes/walks.js:197-216 | the inserted rows name known places of the batch that were not yet in the walk, each at most once |
| Walks.BatchRowsInRequestOrder | backend/routes/walks.js:197-227 | the inserted rows follow the request's list: each row's place first occurs in it before the place of every later row |
| Walks.BatchRowsComplete | backend/routes/walks.js:197-228 | after the batch every known place it lists is in the walk |
| Walks.BatchOutcome | backend/routes/walks.js:167-239 | a missing, non-array or empty list is refused and inserts nothing; otherwise the reply lists exactly the rows appended, at consecutive positions |
| Walks.RepeatedIdInsertedOnce | backend/routes/walks.js:209-216 | a new place listed twice in one batch is inserted once |
| Walks.SetOrder | backend/routes/walks.js:331-334 | the UPDATE changes the position of exactly the rows of that walk and place |
| Walks.ReorderedRows | backend/routes/walks.js:326-335 | after the loop each row of the walk has the position of the last usable entry for its place, or its old one; other walks' rows and every other column are unchanged |
| Walks.ReorderNeverWritesZero | backend/routes/walks.js:327-329 | entries with a falsy place id or position are skipped, so no position is ever set to 0 |
| Walks.SetVisited | backend/routes/walks.js:290-293 | the UPDATE changes the visited flag of exactly the rows of that walk and place |
| Walks.FirstRow | backend/routes/walks.js:299 | `rows[0]` of the RETURNING: the first matching row |
| Walks.VisitOutcome | backend/routes/walks.js:272-304 | a non-boolean `visited` is refused; an update changes only the flag of that walk's place and replies with the new flag; refusals change nothing |
| Walks.RowsOutside | backend/routes/walks.js:361-365 | the cascade removes exactly the walk's rows |
| Walks.FavouriteNeverDeleted | backend/routes/walks.js:345-372 | a favourite walk is never deleted; a deletion happens exactly for the caller's non-favourite walk and removes it and its rows, leaving every other walk and row alone |
| Walks.RenameOutcome | backend/routes/walks.js:375-403 | a missing or blank title is refused; otherwise the caller's walk gets the trimmed, non-empty title and nothing else changes |
| Walks.WalkTables.NextOrderIndex | backend/routes/walks.js:144-149 | returns a position above every position of the walk, and 1 for an empty walk (it is `NextOrder`) |
| Walks.WalkTables.AddPlace | backend/routes/walks.js:105-164 | reply and rows as `AddPlaceSpec`; walks and places unchanged |
| Walks.WalkTables.AddPlaces | backend/routes/walks.js:167-239 | the insert loop gives the reply and rows of `BatchSpec` |
| Walks.WalkTables.Reorder | backend/routes/walks.js:307-342 | the update loop gives the reply and rows of `ReorderSpec` |
| Walks.WalkTables.Visit | backend/routes/walks.js:272-304 | reply and rows as `VisitSpec` |
| Walks.WalkTables.DeleteWalk | backend/routes/walks.js:345-372 | reply, walks and rows as `DeleteSpec` |
| Walks.WalkTables.Rename | backend/routes/walks.js:375-403 | reply and walks as `RenameSpec`; rows unchanged |
| MainPage.Bounds | frontend/src/components/MainPage.js:133-135 | each selected time id is read with `parseInt`, NaN as `None` |
| MainPage.WithinLargestBound | frontend/src/components/MainPage.js:133-136 | `selectedTimes.some(time <= parseInt(id))` holds exactly when the time is within the largest numeric bound |
| MainPage.FilteredIsOneFilter | frontend/src/components/MainPage.js:82-142 | the chain of `filter` calls equals one filter by every active test |
| MainPage.ActiveTestsMeaning | frontend/src/components/MainPage.js:98-139 | passing every active test is passing each active stage: search, category, budget, time |
| MainPage.KeepAllSubList | frontend/src/components/MainPage.js:100-137 | filtering keeps places in their original order |
| MainPage.KeepAllMembers | frontend/src/components/MainPage.js:100-137 | a place is kept exactly when it is one of the places and passes every test |
| MainPage.FilteredSubList | frontend/src/components/MainPage.js:82-142 | the shown places are an order-preserving sub-list of all places, and a place is shown exactly when it passes every active stage |
| MainPage.NothingSelectedShowsAll | frontend/src/components/MainPage.js:98-128 | a blank query and empty selections show every place |
| MainPage.BlankQuerySkipsSearch | frontend/src/components/MainPage.js:98 | a blank query is the same as no query, whatever blanks it holds |
| MainPage.UntrimmedQuery | frontend/src/components/MainPage.js:99-102 | the query is lower-cased but not trimmed: " мост" misses "Мост" while "мост" finds it |
| MainPage.Without | frontend/src/components/MainPage.js:149 | `prev.filter(id => id !== x)` keeps exactly the other ids and never grows |
| MainPage.ToggleFlips | frontend/src/components/MainPage.js:146-168 | a toggle flips the membership of its id and of nothing else; an absent id goes to the end |
| MainPage.ToggleTwice | frontend/src/components/MainPage.js:146-168 | toggling an absent id twice restores the selection |
| MainPage.RemoveFilterOnlyThatKind | frontend/src/components/MainPage.js:170-184 | removing a chip drops every copy of its id from its own selection and leaves the other selections and the query alone |
| MainPage.ClearAllShowsAll | frontend/src/components/MainPage.js:186-191 | after clearing, every place is shown and there are no chips and no active filters |
| MainPage.Chips | frontend/src/components/MainPage.js:276-290 | one chip per selected id, in selection order, labelled with the first option of that id or none |
| MainPage.ActiveFiltersOrder | frontend/src/components/MainPage.js:275-291 | the chips are the categories, then the budgets, then the times, each in selection order |
| WalkDetail.WithMark | frontend/src/components/WalkDetail.js:112-113 | `filter(p => p.visited === v)` keeps exactly the places with that mark and never grows |
| WalkDetail.SplitIsPermutation | frontend/src/components/WalkDetail.js:112-113 | the unvisited and visited groups together hold every place as often as before |
| WalkDetail.MoveVisitedToEndSpec | frontend/src/components/WalkDetail.js:111-116 | the result is a permutation with every unvisited place before every visited one, and each group keeps its order |
| WalkDetail.MoveVisitedToEndIdempotent | frontend/src/components/WalkDetail.js:111-116 | moving twice is moving once |
| WalkDetail.Progress | frontend/src/components/WalkDetail.js:118-122 | 0 with no places, otherwise `100·visited/count` rounded to the nearest integer, halves up |
| WalkDetail.ProgressInRange | frontend/src/components/WalkDetail.js:118-122 | progress is a percentage in 0..100 |
| WalkDetail.ProgressEnds | frontend/src/components/WalkDetail.js:118-124 | a walk with every place visited reads 100; one with none visited reads 0 |
| WalkDetail.ProgressHundredBeforeTheEnd | frontend/src/components/WalkDetail.js:121-124 | rounding lets an unfinished walk read 100: 199 of 200 places visited |
| WalkDetail.AllVisitedIffCount | frontend/src/components/WalkDetail.js:124 | all places are visited exactly when there are places and the visited group is all of them |
| WalkDetail.MarkVisited | frontend/src/components/WalkDetail.js:78-80 | the entries with that id get the new mark, every other entry is kept |
| WalkDetail.MarkVisitedOnlyMark | frontend/src/components/WalkDetail.js:78-80 | marking changes only the mark, and only of the entries with that id |
| WalkDetail.RemovePlace | frontend/src/components/WalkDetail.js:102 | keeps exactly the entries with another id |
| WalkDetail.RemovePlaceExact | frontend/src/components/WalkDetail.js:102 | the list shrinks by the number of entries with that id, is unchanged when there are none, and the rest keep their order |
| WalkDetail.WalkView.StartWalk | frontend/src/components/WalkDetail.js:48-52 | the walk becomes active with the completion banner hidden; places unchanged |
| WalkDetail.WalkView.CompleteWalk | frontend/src/components/WalkDetail.js:54-58 | the walk stops and the completion banner shows; places unchanged |
| WalkDetail.WalkView.CloseCompletion | frontend/src/components/WalkDetail.js:392-397 | the close button hides the completion banner; the walk's activity and places are unchanged |
| WalkDetail.WalkView.MarkPlaceAsVisited | frontend/src/components/WalkDetail.js:74-89 | after the server accepts, the places become `MarkVisited` of the old ones; the flags are unchanged |
| WalkDetail.WalkView.RemovePlaceFromWalk | frontend/src/components/WalkDetail.js:99-109 | after the server removes it, the places become `RemovePlace` of the old ones |
| WalkDetail.WalkView.MoveVisitedToEndOfList | frontend/src/components/WalkDetail.js:111-116 | the places become `MoveVisitedToEnd` of the old ones |
| MemoryJournal.KeyInjective | frontend/src/components/MemoryJournal.js:165 | distinct (memory, index) pairs give distinct `memory_<id>_photo_<i>` key strings, so the storage may be keyed by the pair |
| MemoryJournal.ScanFacts | frontend/src/components/MemoryJournal.js:51-60 | the restore loop reads at most ten photos, the i-th from key i, all non-empty, and stops at the first missing or empty key |
| MemoryJournal.Accepted | frontend/src/components/MemoryJournal.js:106-127 | the data of the image files of at most 5 MB, in their order, never more than the files chosen |
| MemoryJournal.SliceTo | frontend/src/components/MemoryJournal.js:100 | `files.slice(0, end)` is a prefix of the files, a negative end counting from the end |
| MemoryJournal.AsWrittenGrowsPastCap | frontend/src/components/MemoryJournal.js:99-100 | as written, eleven photos leave room -1 and `slice(0, -1)` still takes all files but the last, so three more images make 13 |
| MemoryJournal.AddPhotosCapped | frontend/src/components/MemoryJournal.js:98-128 | with the room clamped at zero the list never grows past ten, gains the accepted files of a prefix of the choice, and agrees with the source whenever it holds at most ten |
| MemoryJournal.AcceptedMembers | frontend/src/components/MemoryJournal.js:106-127 | a photo is added exactly when it is the data of an acceptable chosen file |
| MemoryJournal.RemovePhotoSpec | frontend/src/components/MemoryJournal.js:134-139 | removing drops exactly the photo at that position, keeps the rest in order, and a position outside the list changes nothing |
| MemoryJournal.SavedSpec | frontend/src/components/MemoryJournal.js:164-167 | the save loop stores photo i under key i and leaves every other key as it was |
| MemoryJournal.StaleKeyResurfaces | frontend/src/components/MemoryJournal.js:164-167 | saving fewer photos than a memory had leaves the old key past the new end, and the next restore returns more photos than were saved |
| MemoryJournal.ClearedSpec | frontend/src/components/MemoryJournal.js:249-252 | clearing removes the memory's keys from the given index up to 9 and nothing else |
| MemoryJournal.SaveReplacingRoundTrip | frontend/src/components/MemoryJournal.js:51-60 | with the stale keys cleared first, saving and then restoring gives back exactly the saved photos |
| MemoryJournal.MigratedOther | frontend/src/components/MemoryJournal.js:188-197 | a key the migration does not name keeps its value |
| MemoryJournal.MigratedAt | frontend/src/components/MemoryJournal.js:192-196 | a truthy temporary photo moves to the permanent key and its temporary key is removed; otherwise both keys keep their values |
| MemoryJournal.DeletedSpec | frontend/src/components/MemoryJournal.js:249-252 | deleting a memory removes its keys 0..9 and nothing of another memory or past index 9 |
| MemoryJournal.ViewerWraps | frontend/src/components/MemoryJournal.js:300-312 | next and previous stay in range, wrap at the ends and undo each other |
| MemoryJournal.PhotoStorage.RestorePhotos | frontend/src/components/MemoryJournal.js:213-227 | returns the server's photos followed by the stored ones from index 0 up to the first missing key |
| MemoryJournal.PhotoStorage.SavePhotos | frontend/src/components/MemoryJournal.js:164-167 | the storage becomes `Saved` of the old one: photo i under key i |
| MemoryJournal.PhotoStorage.SavePhotosReplacing | frontend/src/components/MemoryJournal.js:164-167 | the storage becomes `SavedReplacing`: stale keys past the new end cleared, then the photos saved |
| MemoryJournal.PhotoStorage.MigratePhotos | frontend/src/components/MemoryJournal.js:188-197 | the storage becomes `Migrated` of the old one |
| MemoryJournal.PhotoStorage.DeletePhotos | frontend/src/components/MemoryJournal.js:243-252 | the storage becomes `Deleted` of the old one: keys 0..9 of the memory removed, as `ClearedSpec` describes from index 0 |
| MemoryJournal.PhotoStorage.Submit | frontend/src/components/MemoryJournal.js:141-207 | saves exactly when the title is not blank: under the edited memory's id, or under `temp_<now>` and then moved to the id the server returned when it is truthy |
| LoginForm.EmailExamples | frontend/src/components/Login.js:45 | `/\S+@\S+\.\S+/` accepts "a@b.c" and refuses "a@b" and "a @b.c" |
| LoginForm.LooksLikeEmailHasAt | frontend/src/components/Login.js:45 | whatever the pattern accepts contains an `@` |
| LoginForm.FormErrorsSpec | frontend/src/components/Login.js:40-58 | the e-mail gets "required" when blank and "invalid" when the pattern fails; the password "required" when empty and "too short" under 6 characters; the answer a message only when a captcha is shown and it is blank; the id never |
| LoginForm.ValidIffAllChecksPass | frontend/src/components/Login.js:40-62 | the form is valid exactly when every check passes |
| LoginForm.ChangeTouchesOnlyThatField | frontend/src/components/Login.js:64-80 | editing a field sets it, blanks its message and the server message, and leaves every other field and message alone |
| LoginForm.ServerReplyHandled | frontend/src/components/Login.js:107-134 | a reply with an error text shows it; one demanding a captcha and carrying it installs it, points the form at its id and clears the answer, any other leaves the captcha fields alone; the hint is replaced only when the reply has one; a reply without an error text shows its first validation message or the generic one and changes nothing else |
| LoginForm.AsWrittenThrowsOnlyWithoutCaptcha | frontend/src/components/Login.js:112-118 | the catch block as written throws (when React applies the queued form update) exactly for a reply flagged `captchaRequired` that carries no captcha, and agrees with the corrected handling everywhere else |
| LoginForm.WrongAnswerReplyThrows | backend/routes/auth.js:146-152 | the wrong-answer reply is one the form reloads the captcha for, and the catch block as written throws on it |
| LoginForm.ReloadsExactlyOnWrongAnswer | frontend/src/components/Login.js:126-129 | over every reply of the login route, a fresh captcha is fetched exactly for the wrong-answer reply, and only the successful login is no failure |
| LoginForm.ServedCaptchaInstalled | frontend/src/components/Login.js:112-129 | a captcha served with the "security check" or "wrong credentials" reply is installed with its id and an empty answer; after the wrong answer the form keeps its captcha and fetches a fresh one |
| LoginForm.WarningAfterFailure | frontend/src/components/Login.js:91-124 | the attempts warning shows after a failure exactly when a reply with an error text carried a positive count, because submitting cleared the old one |
| LoginForm.WarningFollowsServerCount | backend/routes/auth.js:146-208 | over the route's replies, the warning shows exactly for the wrong-credentials reply with attempts left; the wrong-answer reply's count is only in its `message` |
| LoginForm.FailureShowsMessage | frontend/src/components/Login.js:105-134 | every failure leaves a message to show, including a reply with an empty error text |
| LoginForm.LoginPage.ValidateForm | frontend/src/components/Login.js:40-62 | stores the messages of `FormErrors` and reports whether there are none |
| LoginForm.LoginPage.HandleChange | frontend/src/components/Login.js:64-80 | the state becomes `Changed` of the old one |
| LoginForm.LoginPage.ApplyFailure | frontend/src/components/Login.js:89-134 | the state after a failed request is `AfterFailure` of the state after submitting, and a new captcha is fetched exactly when a reply with an error text is flagged `captchaRequired` and says the answer was wrong |
| LoginForm.LoginPage.SubmitAndFail | frontend/src/components/Login.js:82-138 | an invalid form only gets its messages and nothing is sent; a valid one is sent, ends in the state after the failure, and fetches a fresh captcha exactly when the reply is flagged `captchaRequired` and says the answer was wrong |
| RegisterForm.FirstFailureSpec | frontend/src/components/Register.js:26-48 | a chain of early-returning guards reports nothing exactly when no guard fails, and otherwise the message of a failing guard with none failing before it |
| RegisterForm.ValidateIsFirstFailure | frontend/src/components/Register.js:26-48 | the validation is the first failure among the four guards in their order, so one message is set, that of the earliest failing guard |
| RegisterForm.AcceptedIffAllPass | frontend/src/components/Register.js:26-48 | the form is accepted exactly when the passwords agree, have at least 6 characters, the e-mail contains `@` and the name is not blank |
| RegisterForm.MismatchReportedFirst | frontend/src/components/Register.js:27-30 | mismatched passwords are reported whatever else is wrong |
| RegisterForm.LaterGuards | frontend/src/components/Register.js:32-45 | with matching passwords, a short one, then a missing `@`, then a blank name is what gets reported |
| RegisterForm.ChangeTouchesOnlyThatField | frontend/src/components/Register.js:17-24 | editing a field changes that field only and clears the message |
| PlaceModal.FirstFavoriteSpec | frontend/src/components/PlaceModal.js:101 | `walks.find(w => w.is_favorite)`: none exactly when no walk is a favourite, otherwise the first favourite in the list |
| PlaceModal.OtherWalksSpec | frontend/src/components/PlaceModal.js:102 | the other walks are exactly the non-favourites, and with the favourites they account for every walk |
| PlaceModal.FirstFavoriteIsHeadOfFavorites | frontend/src/components/PlaceModal.js:101-102 | the favourite on offer is the head of the list of favourites |
| PlaceModal.LaterFavoritesNotOffered | frontend/src/components/PlaceModal.js:101-102 | the panel offers one walk per walk less one per favourite after the first: later favourites cannot be chosen |
| PlaceModal.FindById | frontend/src/components/PlaceModal.js:77 | `walks.find(w => w.id == selected)`: a walk with that id, or none when no walk has it |
| PlaceModal.DisabledIffRejected | frontend/src/components/PlaceModal.js:41-74 | the Add button is disabled exactly when a click would send nothing |
| PlaceModal.RequestContents | frontend/src/components/PlaceModal.js:57-81 | a click sends the place and the choice, with the new title when creating (never blank), or the chosen walk's title, or "прогулку" when no walk has that id |
| PlaceModal.AfterAddSpec | frontend/src/components/PlaceModal.js:79-81 | a click the button allows closes the create box and clears the typed title, keeping the choice; a refused click leaves the panel as it was; after creating a walk the emptied title disables Add, after choosing an existing walk Add stays enabled |
| PlaceModal.SpacesTitleRefused | frontend/src/components/PlaceModal.js:60 | a title made of spaces is refused although it is not empty |
| PlaceModal.CreateEnablesAdd | frontend/src/components/PlaceModal.js:104-108 | choosing to create fills in `Прогулка <date>`, which is never blank, so Add is enabled |
| PlaceModal.ChooseWalkEnablesAdd | frontend/src/components/PlaceModal.js:110-114 | choosing a walk empties the create box and enables Add unless the id is the falsy 0 |
| Profile.TrimOfLowerTrimmed | frontend/src/components/Profile.js:89 | lower-casing a trimmed e-mail leaves it trimmed |
| Profile.ToLowerIdempotent | frontend/src/components/Profile.js:89 | lower-casing twice is lower-casing once |
| Profile.NormalizedIsNormal | frontend/src/components/Profile.js:87-90 | what is sent has no surrounding whitespace and a lower-case e-mail, so normalising it again changes nothing |
| Profile.SendIffValid | frontend/src/components/Profile.js:76-100 | the profile is sent exactly when there is a token, the trimmed name is not empty and the normalised e-mail contains `@`; what is sent is the normalised form |
| Profile.NameCheckedBeforeEmail | frontend/src/components/Profile.js:92-95 | a blank name is reported before the e-mail is looked at |
| Profile.EmailChecked | frontend/src/components/Profile.js:97-100 | with a name, the e-mail is refused exactly when its normalised form lacks an `@` (an empty one included) |
| Profile.SaveErrorTextIsFirstRule | frontend/src/components/Profile.js:142-158 | the chain of `includes` tests is the table of patterns read top to bottom, the first match deciding the text |
| Profile.SaveErrorTextShown | frontend/src/components/Profile.js:142-160 | the shown text is never empty, and a message matching no pattern is shown as it is |
| Profile.BareUnauthorizedLogsOut | frontend/src/components/Profile.js:116-151 | a 401 reply with no `error` text reads as an expired session and logs out |
| Profile.ReplyTextShownAsIs | frontend/src/components/Profile.js:116-158 | a 401 reply carrying the server's own text "Токен истек" is shown as it is and does not log out, since the status only appears in the message when the reply has no text |
| Profile.PasswordGuard | frontend/src/components/Profile.js:164-188 | a mismatch stops everything; a request is sent exactly when the passwords agree and there is a token, and carries the current password and the new one |
| Profile.CancelRestoresPhoto | frontend/src/components/Profile.js:271-274 | cancelling puts the last saved photo back on screen and ends editing |
| Profile.ConsistentPreserved | frontend/src/components/Profile.js:24-41 | with the stored photo reset on cancel, loading, choosing, cancelling and saving all keep the stored photo in step with the shown one, so a reload shows the same photo |
| Profile.CancelledPhotoReturns | frontend/src/components/Profile.js:65-69 | as written, a photo chosen and then cancelled stays in `tempProfilePhoto`, so the next load shows it instead of the saved one |
| YandexMap.TitlePresetSpec | frontend/src/components/YandexMap.js:51-57 | the title search gives nothing exactly when no preset name occurs in the lower-cased title, and otherwise the point of the first preset, in declaration order, that occurs |
| YandexMap.CoordinatesPriority | frontend/src/components/YandexMap.js:21-78 | the stored coordinates win exactly when both are truthy; then the first preset whose name occurs in the title; then the point of exactly that category; then the city centre |
| YandexMap.CategoryLabelSpec | frontend/src/components/YandexMap.js:193-204 | a known category gets its Russian label, any other is shown as it is |
| YandexMap.IconPresetSpec | frontend/src/components/YandexMap.js:108-126 | a visited place is always green; otherwise its category's icon, or the blue default without a category or a table entry |
| YandexMap.ShownSpec | frontend/src/components/YandexMap.js:11-18 | the map shows every place of a non-empty route, or else exactly the single place, so never nothing |
| YandexMap.Pins | frontend/src/components/YandexMap.js:104-164 | one pin per shown place |
| YandexMap.PinsNumbered | frontend/src/components/YandexMap.js:104-152 | pin i is numbered i + 1 in list order and sits at its place's point with its place's icon |
| Common.TableLookup | frontend/src/components/MainPage.js:279 | a lookup in an object-literal table finds a value exactly when the key is listed, and the value is the one listed with it |
| Common.Trim | backend/middleware/captcha.js:51 | `trim` removes exactly the leading and trailing whitespace: what is left is a slice that neither starts nor ends with whitespace, and everything dropped before and after it is whitespace |
| Common.BlankIffAllWhitespace | frontend/src/components/MainPage.js:98 | a string trims to "" exactly when it is all whitespace |
| Common.TrimIdempotent | backend/routes/walks.js:395 | trimming twice is trimming once |
| Common.ToLower | frontend/src/components/MainPage.js:99 | `toLowerCase` keeps the length and maps each character on its own |
| Common.IncludesSelf | frontend/src/components/MainPage.js:101 | every string includes itself (so a lower-cased title matches its own lower-cased text) |
| Common.IncludesChar | frontend/src/components/Register.js:37 | `s.includes(c)` for one character is membership of c in s |
| Common.MissingCharNotIncluded | frontend/src/components/Profile.js:97 | a string lacking one character of `sub` does not include `sub` |
| Common.NatToStringValue | backend/middleware/captcha.js:29 | `toString` of a natural number gives decimal digits that read back as the number |
| Common.NatToStringInjective | backend/middleware/captcha.js:29 | distinct numbers print differently |
| Common.IntToString | backend/middleware/captcha.js:29 | the printed answer starts with `-` exactly when it is negative, and is never empty |
| Common.ParseIntOfNatToString | backend/routes/places.js:28 | `parseInt` reads back what `toString` printed |
| Common.ParseIntOfDigitsThen | backend/routes/places.js:28 | `parseInt` reads a run of digits up to the first non-digit |
| Common.ParseIntOfNonNumber | backend/routes/places.js:28 | `parseInt` of text starting with neither a blank, a sign nor a digit is NaN |
| Common.DigitPrefixStopsAtNonDigit | backend/routes/places.js:28 | `parseInt` stops at the first non-digit |

Where the intended behaviour and the code differ, the model follows the code:
- The counter is meant to be one per (client, account) pair. The code's key `failed_<ip>_<email>` lets two pairs share one counter (`RateLimiter.PairsCanShareCounter`).
- A successful login is meant to clear the counter. The code clears it before signing the token, so a signing error then counts one failure on a fresh counter (`Auth.ServerErrorCounts`).

## Left out

- I/O, the clock and randomness: the current time in milliseconds, `Math.random` choices and `Date.now()` are arguments. `console.log`, notifications, `setTimeout` delays and navigation are not modelled.
- Storage engines: the database, bcrypt and JWT signing are oracles. A login sees them as `Backend` (user exists, password matches, the step that throws). The walk routes see tables held in a class.
- Auth.Login: one instant per request; time passing across the awaits is not modelled. `Auth.LoginSpec` reads the counter at the captcha gate (backend/routes/auth.js:123) and counts a failure after the awaited lookup and password check (157, 186) at the same `now`. In the source a counter live at the gate can expire during those awaits, and the failure then restarts it at 1 instead of adding one.
- Concurrency: requests run one at a time. Interleaved async handlers and the atomicity of cache updates are not modelled.
- `node-cache` internals: `checkperiod` sweeps and statistics are not modelled. An entry counts as live while `now < expiresAt`, with TTLs in milliseconds. The library's own test at the exact expiry millisecond is not modelled.
- `express-rate-limit` internals: the client key derivation, headers and the 429 body are not modelled. The limiter key is an argument of `Auth.LoginRoute`.
- `express-validator`: `isEmail`, `notEmpty` and `normalizeEmail` on `/login` are one verdict (`bodyValid`) plus the already normalised address.
- Routes outside the login: `/register`, `/check-email`, `/captcha`, `GET /profile`, `/change-password` and `/security-stats` in backend/routes/auth.js are not modelled. Neither are memories.js, server.js and database.js.
- Auth.BuildProfileUpdate: covers only the "no data" check and the statement builder of `PUT /profile`. The token check, the user lookup and the e-mail uniqueness query are database work and are left out.
- The walk routes' `DELETE /:walkId/places/:placeId` (backend/routes/walks.js:242-269) is not modelled. The frontend's removal of a place is (`WalkDetail.RemovePlace`).
- Walks: ids are natural numbers, and a place id of 0 stands for the falsy ids the routes refuse. Request bodies of other JSON types are refused as "absent" or "not a list".
- Walks.ReorderNeverWritesZero: the reorder entries' `placeId` and `order_index` are JSON numbers. A numeric string such as `"0"` is truthy, so it passes the guard at backend/routes/walks.js:327 and is written as position 0. The model does not capture that.
- SQL text: statements are sequences of text and numbered placeholders, compared piece by piece. Whitespace and line breaks of the source's template strings are not reproduced.
- Floating point:
  - `WalkDetail.Progress` is `Math.round(100·v/n)` computed exactly over integers, so float rounding error is not modelled.
  - `parseFloat` of stored coordinates is kept as the unparsed strings.
  - `calculateCenter` (frontend/src/components/YandexMap.js:181-190) averages floats and is not modelled.
- YandexMap: the map script loading, balloons, `setBounds` and the route button with its waypoints (frontend/src/components/YandexMap.js:166-177, 207-233) are DOM and external-library work and are not modelled.
- String semantics:
  - Strings are sequences of Unicode characters. JavaScript's `length` counts UTF-16 code units, which differ for characters outside the Basic Multilingual Plane.
  - `toLowerCase` is modelled for Basic Latin, Latin-1 and Cyrillic letters only.
  - `parseInt` is modelled for decimal digits after optional whitespace and one sign. The `0x` hexadecimal prefix is not modelled.
- Object-literal lookups (`labels[category]`, `iconMap[...]`, `categoryMap[...]`) are lookups in the listed entries. Keys inherited from `Object.prototype` (such as "constructor") are not modelled.
- Regular expressions: Login.js's `/\S+@\S+\.\S+/` is written out as a predicate over `\S` runs. `file.type.match('image.*')` is modelled as the type containing "image", which is what that unanchored pattern accepts.
- LoginForm:
  - `loadNewCaptcha`'s request, the captcha fetched on mount and the successful login (token storage and navigation) are not modelled. The model only says whether a new captcha is fetched.
  - an `error` field that is not a string is not modelled. An absent `error` is the empty text, which is falsy like it.
  - the response interceptor of frontend/src/utils/api.js:29-40 also clears the stored session on a 401 (the wrong-credentials reply) and sends the browser to `/login`. That reload is not modelled; the catch block's state is.
- LoginForm.LoginPage.ApplyFailure: installs a demanded captcha only when the reply carries one (see Findings). The as-written handling is `LoginForm.AfterFailureAsWritten`. The timing assumes a React 18 root (`createRoot`), which batches the updates made in the async handler. Under it, the wrong-answer reply still reaches `loadNewCaptcha()` at frontend/src/components/Login.js:128, and the `TypeError` comes later, when React applies the queued form update at the next render. Under a React 17 `ReactDOM.render` root, `setFormData` renders at once, and the `TypeError` is raised inside that call, before line 128.
- LoginForm.LoginPage.SubmitAndFail: ends in the corrected `AfterFailure` state, as `ApplyFailure` does.
- RegisterForm: `handleSubmit`'s request and its error mapping (frontend/src/components/Register.js:50-90) are not modelled.
- MemoryJournal:
  - the model keys storage by (memory, index) pairs rather than strings. `MemoryJournal.KeyInjective` proves the key strings distinct, so nothing is lost.
  - `FileReader` completes asynchronously and its callbacks may finish in any order. The model adds photos in the order of the files.
  - keys other than photo keys are left alone and not modelled further.
- MemoryJournal.PhotoStorage.SavePhotos: storage writes are assumed to succeed. In the source, `localStorage.setItem` (frontend/src/components/MemoryJournal.js:164-167) throws `QuotaExceededError` once the data URLs pass the browser's quota. The `forEach` then stops with only some keys written, and the catch at 203-206 shows an error.
- MemoryJournal.PhotoStorage.Submit: uses the corrected save that clears stale keys first (see Findings). The as-written save is `MemoryJournal.PhotoStorage.SavePhotos`. Like `SavePhotos`, it assumes every write succeeds. After a quota error the source leaves a partial save and never calls `memoriesApi.update`/`create`; the model does not capture that.
- MemoryJournal.AddPhotos: clamps the remaining room at zero (see Findings). The as-written addition is `AddPhotosAsWritten`.
- Profile:
  - `handlePhotoChange`'s size and type checks (frontend/src/components/Profile.js:51-62) are not modelled. Only a data URL that was read is.
  - `handleLogout` and the `user` record written to `localStorage` are not modelled.
  - the photo state model uses the corrected cancel (see Findings).
- Profile.ConsistentPreserved: assumes a chosen photo's data URL is not empty, which holds for every data URL `FileReader` produces.
- PlaceModal: `handleAddressClick` (frontend/src/components/PlaceModal.js:87-99) opens a browser window and is not modelled. The date text of the default title is an argument.
- WalkDetail: `handleAddressClick` and the confirmation dialogs are not modelled. The walk-session flags and the place list are.
- Other frontend files: App.js, Header.js, PlacesCatalog.js, WalkManager.js and utils/api.js are not part of this model.

## Findings

| source | as written | input that shows it | evidently intended | confidence | as-written member | corrected member |
|---|---|---|---|---|---|---|
| frontend/src/components/MemoryJournal.js:99-100 | `files.slice(0, 10 - photos.length)`; with more than ten photos the end is negative, and `slice` then counts from the end | a memory being edited with 11 photos (server photos plus local ones) and three image files chosen: the room is -1, `slice(0, -1)` keeps two files and the memory ends with 13 photos | no file is added once ten photos are reached | not executed | MemoryJournal.AsWrittenGrowsPastCap | MemoryJournal.AddPhotosCapped |
| frontend/src/components/MemoryJournal.js:164-167 | the save writes keys 0..n-1 only, never removing the keys of photos removed during an edit | a memory saved with 3 photos, then edited to 2 and saved: key 2 keeps the old third photo and the restore loop (51-60) brings it back | saving replaces the memory's stored photos | not executed | MemoryJournal.StaleKeyResurfaces | MemoryJournal.SaveReplacingRoundTrip |
| frontend/src/components/Profile.js:271-274 | cancel restores `photo` on screen but leaves the chosen image in `tempProfilePhoto` (written at line 68) | choose a new photo, press Cancel, reload the page: lines 31-36 show the cancelled photo | cancel also restores the stored photo to the saved one | not executed | Profile.CancelledPhotoReturns | Profile.ConsistentPreserved |
| frontend/src/components/Login.js:112-118 | a reply flagged `captchaRequired` stores `errorData.captcha` and queues a form update reading `errorData.captcha.id`, whether or not the reply has a captcha | a wrong captcha answer: backend/routes/auth.js:148-152 replies `captchaRequired: true` with no `captcha`, so the form update throws `TypeError` when React applies it (at the next render under React 18's batching) and, with no error boundary in frontend/src/App.js, React unmounts the page; the fresh captcha requested at line 128 never shows | install the captcha only when the reply carries one, so the wrong-answer reply keeps the form and fetches a fresh captcha | not executed | LoginForm.WrongAnswerReplyThrows | LoginForm.ServedCaptchaInstalled |
