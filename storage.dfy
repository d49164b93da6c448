/** The storage service: the routes, runs, users, clubs, reviews and credentials
    tables the application keeps in the browser, and the active session. The
    browser stores and their JSON encoding are replaced by fields holding the
    decoded values; the password hash is a parameter. */
module Storage {

  import opened Types
  import opened Seqs
  import opened Text
  import opened Numbers

  const DefaultAvatar: string :=
    "https://images.unsplash.com/photo-1476480862126-209bfaa8edc8?w=400&h=400&fit=crop"

  /** The users shown before any user has been stored. */
  function MockUsers(): seq<UserProfile> {
    [ UserProfile("u_2", "TrailBlazer",
        "https://images.unsplash.com/photo-1530541930197-ff16ac917b0e?w=400&h=400&fit=crop",
        "Pacing for the long haul.", None, Some(Imperial), ["c1"], [], true,
        Stats(142.0, 28, "5:12")),
      UserProfile("u_3", "CityStrider",
        "https://images.unsplash.com/photo-1532444458054-015fddf2b2ca?w=400&h=400&fit=crop",
        "Vertical gains and early mornings.", None, Some(Imperial), ["c1"], [], true,
        Stats(89.0, 15, "6:05")) ]
  }

  // ---------------------------------------------------------------- keys and tests

  function RouteId(r: Route): string { r.id }
  function RunId(r: RunHistory): string { r.id }

  function HasId(id: string): UserProfile -> bool {
    (u: UserProfile) => u.id == id
  }

  /** The user whose name equals `name` ignoring case. */
  function NameIs(name: string): UserProfile -> bool {
    (u: UserProfile) => ToLower(u.username) == ToLower(name)
  }

  function Is(x: string): string -> bool {
    (y: string) => y == x
  }

  /** A run of the route `routeId` that has no review yet. */
  function Unreviewed(routeId: string): RunHistory -> bool {
    (r: RunHistory) => r.routeId == routeId && !Truthy(r.reviewId)
  }

  function RouteIs(id: string): Route -> bool {
    (r: Route) => r.id == id
  }

  predicate UniqueIds(users: seq<UserProfile>) {
    forall i, j :: 0 <= i < j < |users| ==> users[i].id != users[j].id
  }

  predicate UniqueRunIds(runs: seq<RunHistory>) {
    forall i, j :: 0 <= i < j < |runs| ==> runs[i].id != runs[j].id
  }

  /** No two users share a name ignoring case. */
  predicate UniqueNames(users: seq<UserProfile>) {
    forall i, j :: 0 <= i < j < |users| ==> ToLower(users[i].username) != ToLower(users[j].username)
  }

  predicate NoDup(ids: seq<string>) {
    forall i, j :: 0 <= i < j < |ids| ==> ids[i] != ids[j]
  }

  // ---------------------------------------------------------------- profiles

  /** `saveProfile` on the users table: the first user with the same id is
      replaced in place, otherwise the profile goes first. */
  function Upsert(users: seq<UserProfile>, p: UserProfile): (r: seq<UserProfile>)
    ensures FirstIndex(users, HasId(p.id)).Some? ==>
      var i := FirstIndex(users, HasId(p.id)).value;
      |r| == |users| && r[i] == p && forall j :: 0 <= j < |users| && j != i ==> r[j] == users[j]
    ensures FirstIndex(users, HasId(p.id)).None? ==> r == [p] + users
  {
    match FirstIndex(users, HasId(p.id))
    case Some(i) => users[i := p]
    case None => [p] + users
  }

  /** After an upsert, looking the id up finds the saved profile. */
  lemma UpsertThenFind(users: seq<UserProfile>, p: UserProfile)
    ensures Find(Upsert(users, p), HasId(p.id)) == Some(p)
    ensures p in Upsert(users, p)
  {
    var r := Upsert(users, p);
    match FirstIndex(users, HasId(p.id))
    case Some(i) =>
      assert HasId(p.id)(r[i]);
      assert forall j :: 0 <= j < i ==> !HasId(p.id)(r[j]);
      FirstIndexIs(r, HasId(p.id), i);
    case None =>
      assert HasId(p.id)(r[0]);
      FirstIndexIs(r, HasId(p.id), 0);
  }

  /** An index that passes with nothing before it passing is the first index. */
  lemma FirstIndexIs<T>(s: seq<T>, p: T -> bool, i: nat)
    requires i < |s| && p(s[i]) && forall j :: 0 <= j < i ==> !p(s[j])
    ensures FirstIndex(s, p) == Some(i)
  {
  }

  /** Saving the same profile twice is saving it once. */
  lemma UpsertIdempotent(users: seq<UserProfile>, p: UserProfile)
    ensures Upsert(Upsert(users, p), p) == Upsert(users, p)
  {
    var r := Upsert(users, p);
    match FirstIndex(users, HasId(p.id))
    case Some(i) =>
      assert forall j :: 0 <= j < i ==> !HasId(p.id)(r[j]);
      FirstIndexIs(r, HasId(p.id), i);
      assert r[i := p] == r;
    case None =>
      FirstIndexIs(r, HasId(p.id), 0);
      assert r[0 := p] == r;
  }

  /** Saving a profile keeps the users' ids distinct. */
  lemma UpsertKeepsUniqueIds(users: seq<UserProfile>, p: UserProfile)
    requires UniqueIds(users)
    ensures UniqueIds(Upsert(users, p))
  {
    var r := Upsert(users, p);
    match FirstIndex(users, HasId(p.id))
    case Some(i) =>
      assert forall j :: 0 <= j < |r| ==> r[j].id == users[j].id;
    case None =>
      assert forall j :: 1 <= j < |r| ==> r[j] == users[j - 1];
  }

  // ---------------------------------------------------------------- id lists

  /** `toggleFollowUser` / `toggleClubMembership` on an id list: the first
      occurrence of `x` is cut out, or `x` is appended when absent. */
  function Toggle(ids: seq<string>, x: string): (r: seq<string>)
    ensures x !in ids ==> r == ids + [x]
    ensures x in ids ==>
      var i := FirstIndex(ids, Is(x)).value;
      ids[i] == x && x !in ids[..i] && r == ids[..i] + ids[i + 1..]
  {
    match FirstIndex(ids, Is(x))
    case None =>
      assert forall j :: 0 <= j < |ids| ==> ids[j] != x;
      ids + [x]
    case Some(i) =>
      assert forall j :: 0 <= j < i ==> ids[..i][j] != x;
      ids[..i] + ids[i + 1..]
  }

  /** Toggling flips membership of `x` and keeps a duplicate-free list free of
      duplicates; no other id enters or leaves. */
  lemma ToggleFlips(ids: seq<string>, x: string)
    requires NoDup(ids)
    ensures x in Toggle(ids, x) <==> x !in ids
    ensures NoDup(Toggle(ids, x))
    ensures forall y :: y != x ==> (y in Toggle(ids, x) <==> y in ids)
  {
    var r := Toggle(ids, x);
    if x in ids {
      var i := FirstIndex(ids, Is(x)).value;
      assert forall j :: 0 <= j < |r| ==> r[j] == (if j < i then ids[j] else ids[j + 1]);
      assert forall j :: 0 <= j < |r| ==> r[j] != x;
      forall y | y != x && y in ids
        ensures y in r
      {
        var k :| 0 <= k < |ids| && ids[k] == y;
        assert k != i;
        if k < i { assert r[k] == y; } else { assert r[k - 1] == y; }
      }
    }
  }

  /** Toggling an absent id twice leaves the list as it was. */
  lemma ToggleTwice(ids: seq<string>, x: string)
    requires x !in ids
    ensures Toggle(Toggle(ids, x), x) == ids
  {
    var r := ids + [x];
    assert forall j :: 0 <= j < |ids| ==> r[j] != x;
    FirstIndexIs(r, Is(x), |ids|);
    assert r[..|ids|] + r[|ids| + 1..] == ids;
  }

  // ---------------------------------------------------------------- login and signup

  /** `login`'s decision: the first user whose name matches ignoring case is
      accepted when no hash is stored for it or the password's hash equals the
      stored one; a wrong password for that user is not retried on later users. */
  function LoginUser(users: seq<UserProfile>, creds: map<string, string>, username: string,
                     password: string, hash: string -> string): (r: Option<UserProfile>)
    ensures r.Some? <==>
      && Find(users, NameIs(username)).Some?
      && var u := Find(users, NameIs(username)).value;
         u.id !in creds || creds[u.id] == "" || hash(password) == creds[u.id]
    ensures r.Some? ==> r == Find(users, NameIs(username))
  {
    match Find(users, NameIs(username))
    case None => None
    case Some(u) =>
      if u.id !in creds || creds[u.id] == "" then Some(u)
      else if hash(password) == creds[u.id] then Some(u)
      else None
  }

  /** The user `signup` creates. */
  function NewUser(id: string, username: string): (u: UserProfile)
    ensures u.id == id && u.username == username && !u.isSetup
    ensures u.stats == Stats(0.0, 0, "0:00") && u.friendIds == [] && u.joinedClubIds == []
  {
    UserProfile(id, username, DefaultAvatar, "", None, Some(Imperial), [], [], false,
                Stats(0.0, 0, "0:00"))
  }

  /** `signup` is refused when a user's name matches ignoring case. */
  predicate NameTaken(users: seq<UserProfile>, username: string) {
    Find(users, NameIs(username)).Some?
  }

  /** After a signup the same name and password log in as the new user. */
  lemma SignupThenLogin(users: seq<UserProfile>, creds: map<string, string>, username: string,
                        password: string, newId: string, hash: string -> string)
    requires !NameTaken(users, username)
    ensures LoginUser(Upsert(users, NewUser(newId, username)), creds[newId := hash(password)],
                      username, password, hash) == Some(NewUser(newId, username))
  {
    var u := NewUser(newId, username);
    var r := Upsert(users, u);
    assert forall j :: 0 <= j < |users| ==> !NameIs(username)(users[j]);
    match FirstIndex(users, HasId(newId))
    case Some(i) =>
      assert forall j :: 0 <= j < i ==> !NameIs(username)(r[j]);
      FirstIndexIs(r, NameIs(username), i);
    case None =>
      FirstIndexIs(r, NameIs(username), 0);
  }

  /** A signup keeps user names distinct ignoring case. */
  lemma SignupKeepsNamesUnique(users: seq<UserProfile>, username: string, newId: string)
    requires UniqueNames(users) && !NameTaken(users, username)
    ensures UniqueNames(Upsert(users, NewUser(newId, username)))
  {
    var u := NewUser(newId, username);
    var r := Upsert(users, u);
    assert forall j :: 0 <= j < |users| ==> ToLower(users[j].username) != ToLower(username) by {
      assert forall j :: 0 <= j < |users| ==> !NameIs(username)(users[j]);
    }
    match FirstIndex(users, HasId(newId))
    case Some(i) =>
      assert forall j :: 0 <= j < |r| ==> r[j] == (if j == i then u else users[j]);
    case None =>
      assert forall j :: 1 <= j < |r| ==> r[j] == users[j - 1];
  }

  /** Which session id is active: the persistent one when truthy, else the
      temporary one. */
  function ActiveOf(persistent: Option<string>, temporary: Option<string>): (r: Option<string>)
    ensures Truthy(persistent) ==> r == persistent
    ensures !Truthy(persistent) ==> r == temporary
  {
    if Truthy(persistent) then persistent else temporary
  }

  /** The profile of the active session: nothing when the session id is falsy,
      else the first user with that id. */
  function ProfileOf(users: seq<UserProfile>, active: Option<string>): (r: Option<UserProfile>)
    ensures !Truthy(active) ==> r.None?
    ensures r.Some? ==> r.value in users && r.value.id == active.value
    ensures Truthy(active) && (exists j :: 0 <= j < |users| && users[j].id == active.value) ==> r.Some?
    ensures r.Some? ==> r.value == users[FirstIndex(users, HasId(active.value)).value]
  {
    if !Truthy(active) then None
    else
      assert forall j :: 0 <= j < |users| && users[j].id == active.value ==> HasId(active.value)(users[j]);
      Find(users, HasId(active.value))
  }

  // ---------------------------------------------------------------- runs and reviews

  /** `saveRun`'s update of the profile's statistics: the distance is added, the
      run counted, and the pace replaced by the run's pace (not averaged). */
  function AfterRun(s: Stats, run: RunHistory): (r: Stats)
    ensures r.totalRuns == s.totalRuns + 1
    ensures r.totalDistance - s.totalDistance == run.distance
    ensures r.avgPace == run.averagePace
  {
    Stats(s.totalDistance + run.distance, s.totalRuns + 1, run.averagePace)
  }

  function SumDistance(runs: seq<RunHistory>): real {
    if runs == [] then 0.0 else SumDistance(runs[..|runs| - 1]) + runs[|runs| - 1].distance
  }

  /** The statistics after saving `runs` in order. */
  function AfterRuns(s: Stats, runs: seq<RunHistory>): Stats {
    if runs == [] then s else AfterRun(AfterRuns(s, runs[..|runs| - 1]), runs[|runs| - 1])
  }

  /** Over any number of saved runs the counters hold the totals and the pace is
      the last run's. */
  lemma {:induction false} AfterRunsTotals(s: Stats, runs: seq<RunHistory>)
    ensures AfterRuns(s, runs).totalRuns == s.totalRuns + |runs|
    ensures AfterRuns(s, runs).totalDistance == s.totalDistance + SumDistance(runs)
    ensures runs != [] ==> AfterRuns(s, runs).avgPace == runs[|runs| - 1].averagePace
  {
    if runs != [] {
      AfterRunsTotals(s, runs[..|runs| - 1]);
    }
  }

  /** `saveReview`'s run update: the first unreviewed run of the reviewed route
      gets the review's id, and every run with that run's id is replaced by it. */
  function AttachReview(runs: seq<RunHistory>, review: Review): (r: seq<RunHistory>)
    ensures |r| == |runs|
    ensures Find(runs, Unreviewed(review.routeId)).None? ==> r == runs
  {
    match Find(runs, Unreviewed(review.routeId))
    case None => runs
    case Some(t) => ReplaceByKey(runs, RunId, t.(reviewId := Some(review.id)))
  }

  /** With distinct run ids exactly one run changes: the first unreviewed run of
      the route, which now carries the review's id; the others are untouched. */
  lemma AttachReviewChangesOne(runs: seq<RunHistory>, review: Review)
    requires UniqueRunIds(runs)
    ensures var f := FirstIndex(runs, Unreviewed(review.routeId));
      f.Some? ==>
        && AttachReview(runs, review)[f.value] == runs[f.value].(reviewId := Some(review.id))
        && forall j :: 0 <= j < |runs| && j != f.value ==> AttachReview(runs, review)[j] == runs[j]
  {
  }

  /** The sum of the ratings. */
  function SumRatings(rs: seq<Review>): real {
    if rs == [] then 0.0 else SumRatings(rs[..|rs| - 1]) + rs[|rs| - 1].rating
  }

  /** The reviews of one route. */
  function ReviewsOf(reviews: seq<Review>, routeId: string): seq<Review> {
    Filter(reviews, (r: Review) => r.routeId == routeId)
  }

  /** The mean rating of a non-empty list of reviews. */
  function MeanRating(rs: seq<Review>): real
    requires rs != []
  {
    SumRatings(rs) / |rs| as real
  }

  /** The mean lies between the smallest and the largest rating. */
  lemma MeanRatingBounds(rs: seq<Review>, lo: real, hi: real)
    requires rs != []
    requires forall i :: 0 <= i < |rs| ==> lo <= rs[i].rating <= hi
    ensures lo <= MeanRating(rs) <= hi
  {
    SumRatingsBounds(rs, lo, hi);
    QuotientBetween(SumRatings(rs), |rs| as real, lo, hi);
  }

  lemma QuotientBetween(total: real, n: real, lo: real, hi: real)
    requires n > 0.0 && lo * n <= total <= hi * n
    ensures lo <= total / n <= hi
  {
    var m := total / n;
    assert total == m * n;
    assert (m - lo) * n >= 0.0;
    assert (hi - m) * n >= 0.0;
  }

  lemma {:induction false} SumRatingsBounds(rs: seq<Review>, lo: real, hi: real)
    requires forall i :: 0 <= i < |rs| ==> lo <= rs[i].rating <= hi
    ensures lo * |rs| as real <= SumRatings(rs) <= hi * |rs| as real
  {
    if rs != [] {
      SumRatingsBounds(rs[..|rs| - 1], lo, hi);
    }
  }

  /** The route's new rating: the mean of its reviews, the saved one included,
      to one decimal. The list is never empty, so the not-a-number fallback to 0
      cannot fire. */
  function RatingAfterReview(reviews: seq<Review>, review: Review): real {
    var rs := ReviewsOf([review] + reviews, review.routeId);
    assert ([review] + reviews)[0] == review;
    ToFixed(MeanRating(rs), OneDecimal)
  }

  /** Ratings from 1 to 5 give a route rating from 1 to 5. */
  lemma RatingInRange(reviews: seq<Review>, review: Review)
    requires 1.0 <= review.rating <= 5.0
    requires forall i :: 0 <= i < |reviews| ==> 1.0 <= reviews[i].rating <= 5.0
    ensures 1.0 <= RatingAfterReview(reviews, review) <= 5.0
  {
    var all := [review] + reviews;
    assert all[0] == review;
    var rs := ReviewsOf(all, review.routeId);
    assert forall i :: 0 <= i < |all| ==> 1.0 <= all[i].rating <= 5.0;
    assert forall i :: 0 <= i < |rs| ==> rs[i] in all;
    assert forall i :: 0 <= i < |rs| ==> 1.0 <= rs[i].rating <= 5.0;
    MeanRatingBounds(rs, 1.0, 5.0);
    var m := MeanRating(rs);
    var n := MathRound(m * OneDecimal);
    assert 10 <= n <= 50;
  }

  // ---------------------------------------------------------------- the store

  class Store {
    var routes: seq<Route>
    var runs: seq<RunHistory>
    /** The users table; None until a user has been saved, when the mock users
        stand in for it. */
    var storedUsers: Option<seq<UserProfile>>
    var clubs: seq<RunClub>
    var reviews: seq<Review>
    /** User id to password hash. */
    var credentials: map<string, string>
    /** The session id kept across browser restarts. */
    var persistentSession: Option<string>
    /** The session id kept for this tab only. */
    var temporarySession: Option<string>
    var rememberMe: bool

    /** Empty browser storage. */
    constructor ()
      ensures routes == [] && runs == [] && storedUsers == None && clubs == [] && reviews == []
      ensures credentials == map[] && persistentSession == None && temporarySession == None
      ensures !rememberMe
    {
      routes, runs, storedUsers, clubs, reviews := [], [], None, [], [];
      credentials := map[];
      persistentSession, temporarySession := None, None;
      rememberMe := false;
    }

    /** `getAllUsers`. */
    function AllUsers(): (r: seq<UserProfile>)
      reads this
      ensures storedUsers.None? ==> r == MockUsers()
      ensures storedUsers.Some? ==> r == storedUsers.value
    {
      storedUsers.GetOr(MockUsers())
    }

    /** `getActiveSession`. */
    function ActiveSession(): Option<string>
      reads this
    {
      ActiveOf(persistentSession, temporarySession)
    }

    /** `getProfile`. */
    function Profile(): Option<UserProfile>
      reads this
    {
      ProfileOf(AllUsers(), ActiveSession())
    }

    /** `saveRoute`: the new route goes first. */
    method SaveRoute(route: Route)
      modifies this`routes
      ensures routes == [route] + old(routes)
    {
      routes := [route] + routes;
    }

    /** `updateRoute`: every route with the same id becomes `route`. */
    method UpdateRoute(route: Route)
      modifies this`routes
      ensures routes == ReplaceByKey(old(routes), RouteId, route)
    {
      routes := ReplaceByKey(routes, RouteId, route);
    }

    /** `updateRun`: every run with the same id becomes `run`. */
    method UpdateRun(run: RunHistory)
      modifies this`runs
      ensures runs == ReplaceByKey(old(runs), RunId, run)
    {
      runs := ReplaceByKey(runs, RunId, run);
    }

    /** `saveProfile`: the users table with the profile upserted. */
    method SaveProfile(p: UserProfile)
      modifies this`storedUsers
      ensures storedUsers == Some(Upsert(old(AllUsers()), p))
    {
      storedUsers := Some(Upsert(AllUsers(), p));
    }

    /** `saveRun`: the run goes first, and the active profile, if any, gets its
        statistics advanced by the run. */
    method SaveRun(run: RunHistory)
      modifies this`runs, this`storedUsers
      ensures runs == [run] + old(runs)
      ensures old(Profile()).None? ==> storedUsers == old(storedUsers)
      ensures old(Profile()).Some? ==>
        var p := old(Profile()).value;
        storedUsers == Some(Upsert(old(AllUsers()), p.(stats := AfterRun(p.stats, run))))
    {
      runs := [run] + runs;
      var profile := Profile();
      if profile.Some? {
        var p := profile.value;
        SaveProfile(p.(stats := AfterRun(p.stats, run)));
      }
    }

    /** `setActiveSession`: a truthy id goes to the persistent slot when
        remembered, else to the temporary slot (the persistent one is left as it
        is); a missing or empty id clears both. */
    method SetActiveSession(userId: Option<string>, remember: bool)
      modifies this`persistentSession, this`temporarySession, this`rememberMe
      ensures Truthy(userId) && remember ==>
        persistentSession == userId && temporarySession == old(temporarySession) && rememberMe
      ensures Truthy(userId) && !remember ==>
        persistentSession == old(persistentSession) && temporarySession == userId && !rememberMe
      ensures !Truthy(userId) ==> persistentSession == None && temporarySession == None && !rememberMe
      ensures Truthy(userId) && (remember || !Truthy(old(persistentSession))) ==> ActiveSession() == userId
      ensures !Truthy(userId) ==> ActiveSession() == None && Profile() == None
    {
      if Truthy(userId) {
        if remember {
          persistentSession := userId;
          rememberMe := true;
        } else {
          temporarySession := userId;
          rememberMe := false;
        }
      } else {
        persistentSession, temporarySession := None, None;
        rememberMe := false;
      }
    }

    /** `saveCredential`. */
    method SaveCredential(userId: string, h: string)
      modifies this`credentials
      ensures credentials == old(credentials)[userId := h]
    {
      credentials := credentials[userId := h];
    }

    /** `login`: on acceptance the user's id becomes the active session. */
    method Login(username: string, password: string, remember: bool, hash: string -> string)
      returns (r: Option<UserProfile>)
      modifies this`persistentSession, this`temporarySession, this`rememberMe
      ensures r == LoginUser(old(AllUsers()), credentials, username, password, hash)
      ensures r.None? ==>
        persistentSession == old(persistentSession) && temporarySession == old(temporarySession)
        && rememberMe == old(rememberMe)
      ensures r.Some? && r.value.id != "" && remember ==>
        persistentSession == Some(r.value.id) && temporarySession == old(temporarySession) && rememberMe
      ensures r.Some? && r.value.id != "" && !remember ==>
        persistentSession == old(persistentSession) && temporarySession == Some(r.value.id) && !rememberMe
      ensures r.Some? && r.value.id == "" ==>
        persistentSession == None && temporarySession == None && !rememberMe
      ensures r.Some? && r.value.id != "" && (remember || !Truthy(old(persistentSession))) ==>
        ActiveSession() == Some(r.value.id)
    {
      r := LoginUser(AllUsers(), credentials, username, password, hash);
      if r.Some? {
        SetActiveSession(Some(r.value.id), remember);
      }
    }

    /** `signup`: refused when the name is taken ignoring case; otherwise the new
        user is saved with its credential and becomes the active session. */
    method Signup(username: string, password: string, remember: bool, newId: string,
                  hash: string -> string) returns (r: Option<UserProfile>)
      modifies this`storedUsers, this`credentials, this`persistentSession, this`temporarySession, this`rememberMe
      ensures NameTaken(old(AllUsers()), username) ==>
        r.None? && storedUsers == old(storedUsers) && credentials == old(credentials)
        && persistentSession == old(persistentSession) && temporarySession == old(temporarySession)
        && rememberMe == old(rememberMe)
      ensures !NameTaken(old(AllUsers()), username) && newId != "" && remember ==>
        persistentSession == Some(newId) && temporarySession == old(temporarySession) && rememberMe
      ensures !NameTaken(old(AllUsers()), username) && newId != "" && !remember ==>
        persistentSession == old(persistentSession) && temporarySession == Some(newId) && !rememberMe
      ensures !NameTaken(old(AllUsers()), username) && newId == "" ==>
        persistentSession == None && temporarySession == None && !rememberMe
      ensures !NameTaken(old(AllUsers()), username) ==>
        && r == Some(NewUser(newId, username))
        && AllUsers() == Upsert(old(AllUsers()), NewUser(newId, username))
        && credentials == old(credentials)[newId := hash(password)]
        && (newId != "" && (remember || !Truthy(old(persistentSession))) ==> ActiveSession() == Some(newId))
    {
      if NameTaken(AllUsers(), username) {
        return None;
      }
      var u := NewUser(newId, username);
      SaveProfile(u);
      SaveCredential(newId, hash(password));
      SetActiveSession(Some(newId), remember);
      r := Some(u);
    }

    /** `logout`: no session afterwards, hence no profile. */
    method Logout()
      modifies this`persistentSession, this`temporarySession, this`rememberMe
      ensures persistentSession == None && temporarySession == None && !rememberMe
      ensures ActiveSession() == None && Profile() == None
    {
      SetActiveSession(None, true);
    }

    /** `toggleFollowUser`. */
    method ToggleFollowUser(target: string) returns (r: Option<UserProfile>)
      modifies this`storedUsers
      ensures old(Profile()).None? ==> r.None? && storedUsers == old(storedUsers)
      ensures old(Profile()).Some? ==>
        var p := old(Profile()).value;
        && r == Some(p.(friendIds := Toggle(p.friendIds, target)))
        && storedUsers == Some(Upsert(old(AllUsers()), r.value))
    {
      var profile := Profile();
      if profile.None? {
        return None;
      }
      var p := profile.value;
      var q := p.(friendIds := Toggle(p.friendIds, target));
      SaveProfile(q);
      r := Some(q);
    }

    /** `saveClub`: the new club goes first. */
    method SaveClub(club: RunClub)
      modifies this`clubs
      ensures clubs == [club] + old(clubs)
    {
      clubs := [club] + clubs;
    }

    /** `toggleClubMembership`. */
    method ToggleClubMembership(clubId: string) returns (r: Option<UserProfile>)
      modifies this`storedUsers
      ensures old(Profile()).None? ==> r.None? && storedUsers == old(storedUsers)
      ensures old(Profile()).Some? ==>
        var p := old(Profile()).value;
        && r == Some(p.(joinedClubIds := Toggle(p.joinedClubIds, clubId)))
        && storedUsers == Some(Upsert(old(AllUsers()), r.value))
    {
      var profile := Profile();
      if profile.None? {
        return None;
      }
      var p := profile.value;
      var q := p.(joinedClubIds := Toggle(p.joinedClubIds, clubId));
      SaveProfile(q);
      r := Some(q);
    }

    /** `saveReview`: the review goes first; the first unreviewed run of the route
        is marked as reviewed; the first route with the reviewed id gets the mean
        rating, replacing every route with that id. */
    method SaveReview(review: Review)
      modifies this`reviews, this`runs, this`routes
      ensures reviews == [review] + old(reviews)
      ensures runs == AttachReview(old(runs), review)
      ensures Find(old(routes), RouteIs(review.routeId)).None? ==> routes == old(routes)
      ensures Find(old(routes), RouteIs(review.routeId)).Some? ==>
        var t := Find(old(routes), RouteIs(review.routeId)).value;
        routes == ReplaceByKey(old(routes), RouteId, t.(rating := RatingAfterReview(old(reviews), review)))
    {
      var previous := reviews;
      reviews := [review] + reviews;
      var targetRun := Find(runs, Unreviewed(review.routeId));
      if targetRun.Some? {
        UpdateRun(targetRun.value.(reviewId := Some(review.id)));
      }
      var targetRoute := Find(routes, RouteIs(review.routeId));
      if targetRoute.Some? {
        UpdateRoute(targetRoute.value.(rating := RatingAfterReview(previous, review)));
      }
    }
  }
}
