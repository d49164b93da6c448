# The Coffee Route — a verified model of its core

The Coffee Route is a browser app for runners. Users draw walking routes on a
map, run them with live tracking, review them and follow other runners. This
project models the parts of the app that hold real logic:

- **the route builder** (`RouteCreator`): an ordered list of segments. Each
  segment is a clicked point plus the snapped walking path that leads to it.
  The builder supports add, undo and clear. After each change it recomputes
  the flattened path, the waypoints, the markers and the distance. A save
  guard builds the route record.
- **the live-tracking session** (`LiveTracking`): a 3-2-1-GO countdown, a
  pausable one-second timer, and position samples. Each sample grows the
  recorded path and distance and re-decides whether the runner is off the
  route. The module also holds the clock and pace texts, the progress value
  and the finished run record.
- **the storage service** (`Storage`): the routes, runs, users, clubs, reviews
  and credentials tables, plus the active session. It covers upserting
  profiles, replacing by id, following and club-membership toggles, run
  statistics, review attachment and route rating, login and signup.
- **the small pure pieces**:
  - the explore-tab search and its split into friends' and public routes, the
    list updates on save and finish, and the theme class (`App`);
  - the crew page's user search, friends and discovery lists (`FriendsList`);
  - the sign-in page's submission checks, outcome messages, mode switch and
    recent users (`Login`).

The supporting modules are:

- `Types`: the app's records.
- `Text`: lower-casing, `includes`, `trim`, decimal digits, `padStart` and reading a
  clock string back.
- `Geo`: the distance oracle, polyline length and nearest vertex.
- `Seqs`: `filter`, `findIndex`/`find`, subsequences and replace-by-key.
- `Numbers`: `Math.round` and `parseFloat(x.toFixed(k))`.

The outside world becomes parameters:

- The map library's point-to-point distance is any non-negative function
  (`Geo.Metric`).
- The walking-route service is an oracle from two points to a geometry or a
  failure (`RouteCreator.Router`).
- The SHA-256 password hash is any `string -> string`.
- Random ids, `Date.now()` and the AI-generated texts are arguments.
- Browser storage and JSON become fields that hold the decoded values.
- Timer ticks and geolocation samples are explicit method calls.

Two behaviours of the code a reader may not expect:

- `UserProfile` in `types.ts` declares no `unitSystem`, yet the storage service
  and the components read and write one; the model gives the profile an
  optional unit system.
- Editing a route whose path is empty still seeds one segment. `[]` is truthy in
  JavaScript, so that segment's click point is `undefined`.

## Model

| member | source | states |
|---|---|---|
| RouteCreator.FetchRouteSegment | components/RouteCreator.tsx:149-162 | the segment geometry is the service's points when it answers, and exactly `[end]` when it fails or when the previous segment has no last point (the request throws) |
| RouteCreator.FlattenConcat | components/RouteCreator.tsx:21 | flattening distributes over joining segment lists: the path is the in-order concatenation of all segments' points |
| RouteCreator.FlattenLength | components/RouteCreator.tsx:21 | the flattened path has exactly the sum of the segments' point counts: shared endpoints are not merged |
| RouteCreator.FlattenSnoc | components/RouteCreator.tsx:180-182 | appending a segment appends its points to the flattened path |
| RouteCreator.WaypointsMembers | components/RouteCreator.tsx:183 | a point is a waypoint exactly when some waypoint segment was clicked there |
| RouteCreator.MarkerLayout | components/RouteCreator.tsx:203-240 | start marker on the first point, end marker exactly when there are two or more points, small markers on the waypoints except the first and, with an end marker, the last; none without waypoints |
| RouteCreator.Inner | components/RouteCreator.tsx:225-229 | the waypoints that get a small marker are a contiguous slice starting at index 1 |
| RouteCreator.CalculateDistance | components/RouteCreator.tsx:242-252 | the loop's total over 1000 is the polyline length in km (0 below two points), never negative |
| RouteCreator.DistanceGrows | components/RouteCreator.tsx:180-186 | appending a segment never decreases the route distance |
| RouteCreator.InitialForm | components/RouteCreator.tsx:25-28 | the form is exactly the edited route's name, description, difficulty and tags (the `\|\|` defaults never change them), else empty with Easy difficulty |
| RouteCreator.Builder.New | components/RouteCreator.tsx:20-24 | a new builder has no segments and distance 0 |
| RouteCreator.Builder.Edit | components/RouteCreator.tsx:82-91 | editing starts from one non-waypoint segment holding the route's path, clicked at its last point; markers as first drawn |
| RouteCreator.Builder.AddPoint | components/RouteCreator.tsx:164-201 | first add makes `{p, [p], waypoint}` with distance 0; later adds append one segment routed from the last path point of the previous segment, earlier segments unchanged, waypoints extended, distance recomputed and not smaller |
| RouteCreator.Builder.Undo | components/RouteCreator.tsx:254-265 | no-op when empty, else drops exactly the last segment and recomputes the distance |
| RouteCreator.Builder.Clear | components/RouteCreator.tsx:267-280 | no segments and distance 0 |
| RouteCreator.Builder.Save | components/RouteCreator.tsx:282-305 | no route iff the name is empty or the distance is 0; otherwise path = flattened points, distance rounded to 2 decimals, elevation gain = round(15 × distance), the form's difficulty and tags, the fixed creator, the form's description or else the generated one, and id, creation time and rating kept from the edited route when truthy (rating defaults to 4.5) |
| RouteCreator.AddThenUndo | components/RouteCreator.tsx:254-265 | undo right after an add restores the segments and the distance |
| Geo.PathLengthSnoc | components/RouteCreator.tsx:247-249 | one more point adds exactly its distance from the previous last point |
| Geo.PathLengthPrefix | components/RouteCreator.tsx:247-249 | a path is never longer than any extension of it |
| Geo.KilometersIsLength | components/RouteCreator.tsx:242-252 | the km distance is the meter sum over 1000 in both branches, hence non-negative |
| Geo.KilometersPrefix | components/RouteCreator.tsx:242-252 | extending a polyline never shortens its km distance |
| Geo.Nearest | components/LiveTracking.tsx:170-175 | the minimum vertex distance: Infinity iff the path is empty, otherwise attained by some vertex and at most every vertex's distance |
| Numbers.MathRound | components/RouteCreator.tsx:295 | `Math.round` lands within half a unit, halves rounded up |
| Numbers.ToFixedClose | components/RouteCreator.tsx:294 | rounding to k decimals moves a value by at most half a unit in the last place and keeps it non-negative |
| Text.ToLower | App.tsx:150-153 | lower-casing keeps length and maps each character |
| Text.Includes | App.tsx:150-153 | `includes` holds exactly when some slice equals the needle |
| Text.IncludesEmpty | App.tsx:150-153 | every string includes the empty string |
| Text.Trim | components/Login.tsx:20 | `trim` returns the slice between the leading and the trailing white space: only white space before and after it, none at either end of it, empty exactly when the input is all white space; white space is JavaScript's set (ASCII, line terminators, byte-order mark and every space separator) |
| Text.PadStart2Value | components/LiveTracking.tsx:208-210 | padding a counter keeps its digits' value and gives width 2 below 100 |
| Text.ParseMinSec | components/LiveTracking.tsx:210 | "m:ss" reads back as m*60+ss from two fields |
| Text.ParseHourMinSec | components/LiveTracking.tsx:209 | "h:mm:ss" reads back as h*3600+mm*60+ss from three fields |
| Seqs.Filter | App.tsx:150-156 | `filter` keeps exactly the passing elements |
| Seqs.FilterIsSubseq | App.tsx:155-156 | a filter keeps the input order (subsequence) |
| Seqs.FilterPartition | App.tsx:155-156 | filtering by a test and by its negation loses and duplicates nothing |
| Seqs.FilterSame | components/FriendsList.tsx:28-32 | filters by two tests that agree on every element give the same list |
| Seqs.FilterDisjoint | App.tsx:155-156 | no element is kept both by a test and by its negation |
| Seqs.FilterFilter | components/FriendsList.tsx:35 | filtering twice is filtering once by the conjunction |
| Seqs.FirstIndex | services/storageService.ts:126 | `findIndex`: the first passing position, or none when nothing passes |
| Seqs.Find | App.tsx:81 | `find`: a value exactly when `findIndex` finds one, and it is the element at that index |
| Seqs.FilterAll | App.tsx:150-153 | a filter every element passes keeps the sequence |
| Storage.FirstIndexIs | services/storageService.ts:126 | `findIndex` returns the position of the first matching user |
| Text.NatToString | components/LiveTracking.tsx:208-210 | `toString` of a counter is a non-empty string of decimal digits, "0" for zero and without a leading zero otherwise |
| Text.ParseNatToString | components/LiveTracking.tsx:208-210 | the decimal text of a number reads back as that number |
| Seqs.ReplaceByKey | services/storageService.ts:60-64 | every entry with the key of the new one is replaced, others stay, length kept |
| Seqs.ReplaceByKeyIdempotent | services/storageService.ts:60-64 | replacing twice equals replacing once |
| Seqs.ReplaceByKeyPresent | services/storageService.ts:60-64 | the new entry is present iff some key matched; with no match nothing changes |
| LiveTracking.MinDistance | components/LiveTracking.tsx:167-175 | the running-minimum loop from Infinity computes the nearest vertex distance |
| LiveTracking.OffRouteIffAllFar | components/LiveTracking.tsx:167-177 | off route exactly when every vertex is more than 50 m away; an empty reference path is off route |
| LiveTracking.FormatTime | components/LiveTracking.tsx:205-212 | the text reads back as the given seconds; it has three fields from 3600 s on and two below; the first field is the unpadded hours (or minutes below an hour) and every later field is two digits below 60 |
| LiveTracking.ClockText | components/LiveTracking.tsx:209-211 | hours shown only when non-zero, as the unpadded first field (else the unpadded minutes); the text reads back as h*3600+m*60+s with the minutes and seconds fields two digits below 60 |
| LiveTracking.PaceParts | components/LiveTracking.tsx:214-221 | as written, the seconds part of the pace is at most 60, not below 60 |
| LiveTracking.PaceAsWrittenShowsSixty | components/LiveTracking.tsx:214-221 | 600 s over 2000/999 km prints "4:60" |
| LiveTracking.PaceSeconds | components/LiveTracking.tsx:214-221 | the pace in whole seconds per km is within half a second of elapsed/covered, 0 for no distance |
| LiveTracking.Pace | components/LiveTracking.tsx:214-221 | corrected pace: reads back as the rounded seconds per km, as unpadded minutes and a two-digit seconds field below 60, "0:00" for no distance |
| LiveTracking.PaceAgrees | components/LiveTracking.tsx:214-221 | the corrected text equals the written one whenever the written seconds are below 60 |
| LiveTracking.PaceSixtyIsNextMinute | components/LiveTracking.tsx:214-221 | the "4:60" case is written "5:00" by the corrected pace |
| LiveTracking.ProgressOf | components/LiveTracking.tsx:243 | progress never exceeds 100; NaN exactly for 0/0; a zero target with some distance gives 100 |
| LiveTracking.Session.constructor | components/LiveTracking.tsx:18-26 | countdown 3, no time, path or distance, not paused, not off route |
| LiveTracking.Session.CountdownTick | components/LiveTracking.tsx:37-46 | 3, 2, 1, 0, then null, and null stays null |
| LiveTracking.Session.TimerTick | components/LiveTracking.tsx:151-153 | +1 second exactly when the countdown is over and the session is not paused |
| LiveTracking.Session.TogglePause | components/LiveTracking.tsx:336 | flips the pause flag |
| LiveTracking.Session.Sample | components/LiveTracking.tsx:125-146 | ignored during the countdown or pause; otherwise appends the sample, adds the distance from the previous one (none for the first), recomputes off route and asks for vibration only on a false-to-true change; distance = recorded path length / 1000 is kept |
| LiveTracking.Session.Progress | components/LiveTracking.tsx:243 | the session's progress never exceeds 100 |
| LiveTracking.Session.Record | components/LiveTracking.tsx:223-241 | the run record carries the given id and date, the route, duration = elapsed time, the recorded path, the distance rounded to 2 decimals (non-negative), the tips and no review; its pace reads back as the rounded seconds per km, as unpadded minutes and a two-digit seconds field below 60, and equals the as-written pace text whenever that one's seconds are below 60 |
| LiveTracking.TwoSamples | components/LiveTracking.tsx:136-140 | consecutive samples append in order and never decrease the distance |
| Storage.Upsert | services/storageService.ts:124-135 | the first user with the same id is replaced in place (others and length unchanged), otherwise the profile is prepended |
| Storage.UpsertThenFind | services/storageService.ts:118-135 | after saving, looking the id up finds the saved profile |
| Storage.UpsertIdempotent | services/storageService.ts:124-135 | saving the same profile twice equals saving it once |
| Storage.UpsertKeepsUniqueIds | services/storageService.ts:124-135 | saving a profile keeps user ids distinct |
| Storage.Toggle | services/storageService.ts:199-204 | the first occurrence is cut out with the rest in order, or the id is appended when absent |
| Storage.ToggleFlips | services/storageService.ts:196-228 | on a duplicate-free list toggling flips membership, keeps it duplicate-free, and moves no other id in or out |
| Storage.ToggleTwice | services/storageService.ts:196-228 | toggling an absent id twice gives the list back |
| Storage.LoginUser | services/storageService.ts:147-164 | accepted iff the first case-insensitive name match has no (or an empty) stored hash or the password hashes to it; the user returned is that match |
| Storage.NewUser | services/storageService.ts:174-184 | a new user is not set up, has zero stats, pace "0:00" and no friends or clubs |
| Storage.SignupThenLogin | services/storageService.ts:147-190 | after a signup, the same name and password log in as the new user |
| Storage.SignupKeepsNamesUnique | services/storageService.ts:166-190 | a signup keeps user names distinct ignoring case |
| Storage.ActiveOf | services/storageService.ts:89-97 | the persistent session when truthy, else the temporary one |
| Storage.ProfileOf | services/storageService.ts:118-123 | no profile without a truthy session; otherwise the first stored user with that id, found whenever one exists |
| Storage.AfterRun | services/storageService.ts:76-78 | a run adds its distance, counts once, and replaces the pace |
| Storage.AfterRunsTotals | services/storageService.ts:69-81 | after several runs: runs counted, distances summed, pace of the last run |
| Storage.AttachReview | services/storageService.ts:238-243 | same number of runs; unchanged when no unreviewed run of the route exists |
| Storage.AttachReviewChangesOne | services/storageService.ts:238-243 | with distinct run ids exactly the first unreviewed run of the route gets the review id |
| Storage.MeanRatingBounds | services/storageService.ts:248-249 | the mean lies between the smallest and largest rating |
| Storage.RatingInRange | services/storageService.ts:245-252 | ratings from 1 to 5 give a route rating from 1 to 5 |
| Storage.Store.constructor | services/storageService.ts:51-54 | empty storage: empty tables, users absent, no session |
| Storage.Store.AllUsers | services/storageService.ts:113-117 | the stored users, or the two mock users when none are stored |
| Storage.Store.SaveRoute | services/storageService.ts:55-59 | the route is prepended |
| Storage.Store.UpdateRoute | services/storageService.ts:60-64 | every route with that id is replaced |
| Storage.Store.UpdateRun | services/storageService.ts:82-86 | every run with that id is replaced |
| Storage.Store.SaveProfile | services/storageService.ts:124-135 | the users table becomes the upsert of the current users |
| Storage.Store.SaveRun | services/storageService.ts:69-81 | the run is prepended; the active profile's stats advance by the run, nothing else changes without one |
| Storage.Store.SetActiveSession | services/storageService.ts:98-112 | a truthy id goes to the persistent slot (remembered) or the temporary slot; a falsy id clears both; afterwards the id is active unless an older persistent one shadows a temporary login |
| Storage.Store.SaveCredential | services/storageService.ts:141-145 | the user's hash is stored |
| Storage.Store.Login | services/storageService.ts:147-164 | the result is the login decision; on failure nothing changes; on success a remembered login writes the persistent slot and sets the flag, otherwise the temporary slot is written and the flag cleared (an empty id clears both slots); the user becomes active when remembered or when no truthy persistent id exists |
| Storage.Store.Signup | services/storageService.ts:166-190 | refused with nothing changed (users, credentials, both slots, flag) when the name is taken ignoring case; otherwise the new user is upserted, its credential stored, and its id written to the persistent slot (remembered) or the temporary slot, as in login |
| Storage.Store.Logout | services/storageService.ts:192-194 | both session slots cleared and the flag off, hence no session and no profile |
| Storage.Store.ToggleFollowUser | services/storageService.ts:196-207 | null and no change without a profile; otherwise the profile's friends toggled and saved |
| Storage.Store.SaveClub | services/storageService.ts:212-216 | the club is prepended |
| Storage.Store.ToggleClubMembership | services/storageService.ts:217-228 | null and no change without a profile; otherwise the profile's clubs toggled and saved |
| Storage.Store.SaveReview | services/storageService.ts:233-254 | the review is prepended, the first unreviewed run of the route is marked, and the first route with that id gets the mean rating to one decimal |
| App.FilteredRoutes | App.tsx:150-153 | a route is found exactly when its lower-cased name or some lower-cased tag contains the lower-cased query |
| App.EmptyQueryKeepsAll | App.tsx:150-153 | an empty query keeps every route in order |
| App.FriendsPublicPartition | App.tsx:155-156 | friends' and public routes split the search result with nothing lost or shared, each in order; signed out every route is public |
| App.SaveRouteList | App.tsx:91-101 | editing replaces every route with the saved id by the saved route and keeps every other route in place (length kept); otherwise the route is prepended |
| App.SaveRoute | App.tsx:91-101 | storage's route list and the shown list each get the same update (replace by id when editing, else prepend), so a list that matched storage still does |
| App.FinishRun | App.tsx:79-89 | the run is prepended; the route offered for review is the first listed route with the run's route id, or none when there is no such route |
| App.ThemeClassInjective | App.tsx:72-75 | each theme has its own class, and only solar is not dark |
| App.InitialTheme | App.tsx:35 | the profile's theme, else barista |
| FriendsList.FilteredUsers | components/FriendsList.tsx:28-32 | never the current user; another user is listed exactly when the lower-cased name or bio contains the lower-cased term; order kept |
| FriendsList.EmptyTermKeepsOthers | components/FriendsList.tsx:28-32 | an empty term lists exactly the users other than the current one, in order |
| FriendsList.Friends | components/FriendsList.tsx:34 | exactly the followed users, whatever the search, in order |
| FriendsList.Discovery | components/FriendsList.tsx:35 | a subsequence of the searched users with no followed id |
| FriendsList.DiscoveryIsOneFilter | components/FriendsList.tsx:28-35 | discovery is one filter of all users by search match and not followed |
| FriendsList.UnitSystemOf | components/FriendsList.tsx:36 | the user's unit system, else metric |
| Login.Submit | components/Login.tsx:19-38 | ignored iff the trimmed name or the password is empty; signup refuses a password under 6 characters before the mismatch check; storage is called only past every check, with the trimmed name |
| Login.Finish | components/Login.tsx:39-55 | a returned user logs in; no user shows the mode's message; an exception shows the generic one |
| Login.SwitchMode | components/Login.tsx:84 | switching clears the error and both passwords, keeping the name |
| Login.SwitchThenSubmitIgnored | components/Login.tsx:84-90 | right after a switch a submission does nothing |
| Login.RecentUsers | components/Login.tsx:60 | at most the first three users |
| Login.SignupPageThenLoginPage | components/Login.tsx:19-58 | a signup page followed by a sign-in with the same fields logs in as the new user |

## Left out

- The walking-route HTTP request and the coordinate-order swap of its reply are not modelled. The service is an oracle; only its `[end]` fallback is modelled.
- Map rendering is not modelled: tiles, the offline tile layer, polylines, marker objects, `fitBounds`/`panTo`. For markers, only the selection rule is kept. Handling of marker objects is also left out; for example, undo to an empty route leaves the old start and end markers on the map.
- Host-driven timing is not modelled: the geolocation watch, the `setInterval`/`setTimeout` scheduling, re-registration of effects, and a missing `navigator.geolocation`. Ticks and samples are method calls.
- React closure effects are not modelled. In the position callback the off-route flag is the value captured when the callback was registered; the model uses the stored flag. In `handleAddPoint` the segment list is read across an `await`; the model is sequential.
- Builder.AddPoint: the builder's `isSnapping` spinner and context menu are not modelled, because they are display state.
- Floating point is not modelled. All arithmetic is exact over reals. Leaflet's haversine distance is any non-negative function.
- Numbers.ToFixedClose: `toFixed` is modelled as exact decimal rounding with halves away from zero. Binary floating-point representation errors in `toFixed` are not modelled.
- The AI service is an argument, not modelled: route descriptions, geocoding and coaching tips. So are `crypto.subtle` (the hash is a parameter), `Math.random` ids, `Date.now()`, `navigator.vibrate` (a returned flag), `share` and `clipboard`.
- LiveTracking.Session.Record: the run stores the corrected pace text (see Findings), not the text the code computes. The two differ exactly when the code's seconds field rounds to 60: the code records "4:60" where the model records "5:00".
- Text.ToLower: only ASCII letters are lower-cased, not the full Unicode case mapping.
- Login.Submit: the 6-character minimum counts Unicode scalar values. JavaScript counts UTF-16 code units, so characters outside the Basic Multilingual Plane count once here and twice there.
- Storage.Store.SaveRun, Storage.Store.ToggleFollowUser, Storage.Store.ToggleClubMembership: when no users are stored yet, the profile they change is an entry of the shared mock-user array. The service mutates it in place (the stats update, and `splice`/`push` on the id lists) before saving it. The model copies values instead.
- The app also calls `storageService.getRoutes`, `getRuns`, `getClubs`, `getReviews` and `getCredentials`. These read a table back; here they are the fields themselves.
- LiveTracking.Session: the map needs `route.path[0]` when the page opens. An empty route path would make that rendering step throw; this is not modelled.
- Share links, club creation, onboarding, route detail and the bottom navigation are outside this model's core.

## Findings

| source | as written | input that shows it | evidently intended | confidence | as-written member | corrected member |
|---|---|---|---|---|---|---|
| components/LiveTracking.tsx:214-221 | the pace splits minutes with `Math.floor` and rounds only the remainder to seconds, so the seconds field can be 60 | 600 s over 2000/999 km: pace 4.995 min/km, remainder 59.7 s rounds to 60, text "4:60" | round the total seconds per km first, then split into minutes and a seconds field below 60 ("5:00") | not executed | LiveTracking.PaceAsWrittenShowsSixty | LiveTracking.Pace |
