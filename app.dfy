/** The application shell's list logic: the route search on the explore tab, its
    split into friends' and public routes, the route and run lists kept in step
    with storage, and the page class chosen for each theme. */
module App {

  import opened Types
  import opened Text
  import opened Seqs
  import Storage

  /** Some lower-cased tag contains the lower-cased query. */
  predicate SomeTagIncludes(tags: seq<string>, query: string) {
    exists i :: 0 <= i < |tags| && Includes(ToLower(tags[i]), ToLower(query))
  }

  /** The search test: the lower-cased name or some lower-cased tag contains the
      lower-cased query. */
  function RouteMatches(query: string): Route -> bool {
    (r: Route) => Includes(ToLower(r.name), ToLower(query)) || SomeTagIncludes(r.tags, query)
  }

  /** `filteredRoutes`. */
  function FilteredRoutes(routes: seq<Route>, query: string): (r: seq<Route>)
    ensures forall x :: x in r <==> x in routes && RouteMatches(query)(x)
  {
    var r := Filter(routes, RouteMatches(query));
    assert forall x :: x in routes && RouteMatches(query)(x) ==> x in r by {
      forall x | x in routes && RouteMatches(query)(x) ensures x in r {
        var k :| 0 <= k < |routes| && routes[k] == x;
      }
    }
    assert forall x :: x in r ==> x in routes && RouteMatches(query)(x) by {
      forall x | x in r ensures x in routes && RouteMatches(query)(x) {
        var k :| 0 <= k < |r| && r[k] == x;
      }
    }
    r
  }

  /** An empty query keeps every route, in order. */
  lemma EmptyQueryKeepsAll(routes: seq<Route>)
    ensures FilteredRoutes(routes, "") == routes
  {
    forall i | 0 <= i < |routes| ensures RouteMatches("")(routes[i]) {
      IncludesEmpty(ToLower(routes[i].name));
    }
    FilterAll(routes, RouteMatches(""));
  }

  /** A route by one of the signed-in user's friends; nobody's when signed out. */
  function ByFriend(profile: Option<UserProfile>): Route -> bool {
    (r: Route) => profile.Some? && r.creatorId in profile.value.friendIds
  }

  function NotByFriend(profile: Option<UserProfile>): Route -> bool {
    (r: Route) => !(profile.Some? && r.creatorId in profile.value.friendIds)
  }

  function FriendsRoutes(routes: seq<Route>, query: string, profile: Option<UserProfile>): seq<Route> {
    Filter(FilteredRoutes(routes, query), ByFriend(profile))
  }

  function PublicRoutes(routes: seq<Route>, query: string, profile: Option<UserProfile>): seq<Route> {
    Filter(FilteredRoutes(routes, query), NotByFriend(profile))
  }

  /** Friends' and public routes split the search result: together they hold each
      found route exactly as often as the search does, each keeps the search's
      order, and no route is in both. Signed out, every found route is public. */
  lemma FriendsPublicPartition(routes: seq<Route>, query: string, profile: Option<UserProfile>)
    ensures multiset(FriendsRoutes(routes, query, profile)) + multiset(PublicRoutes(routes, query, profile))
         == multiset(FilteredRoutes(routes, query))
    ensures Subseq(FriendsRoutes(routes, query, profile), FilteredRoutes(routes, query))
    ensures Subseq(PublicRoutes(routes, query, profile), FilteredRoutes(routes, query))
    ensures forall x :: !(x in FriendsRoutes(routes, query, profile) && x in PublicRoutes(routes, query, profile))
    ensures profile.None? ==> PublicRoutes(routes, query, profile) == FilteredRoutes(routes, query)
  {
    var f := FilteredRoutes(routes, query);
    FilterPartition(f, ByFriend(profile), NotByFriend(profile));
    FilterIsSubseq(f, ByFriend(profile));
    FilterIsSubseq(f, NotByFriend(profile));
    FilterDisjoint(f, ByFriend(profile), NotByFriend(profile));
    if profile.None? {
      FilterAll(f, NotByFriend(profile));
    }
  }

  /** `handleSaveRoute`'s list update: while editing, every route with the saved
      route's id is replaced; otherwise the route goes first. */
  function SaveRouteList(routes: seq<Route>, route: Route, editing: Option<Route>): (r: seq<Route>)
    ensures editing.Some? ==> |r| == |routes|
    ensures editing.Some? ==> forall i :: 0 <= i < |routes| && routes[i].id != route.id ==> r[i] == routes[i]
    ensures editing.Some? ==> forall i :: 0 <= i < |routes| && routes[i].id == route.id ==> r[i] == route
    ensures editing.Some? && (exists i :: 0 <= i < |routes| && routes[i].id == route.id) ==> route in r
    ensures editing.None? ==> r == [route] + routes
  {
    if editing.Some? then
      ReplaceByKeyPresent(routes, Storage.RouteId, route);
      ReplaceByKey(routes, Storage.RouteId, route)
    else [route] + routes
  }

  /** Saving a route updates storage the same way it updates the shown list, so
      a list that matched storage keeps matching it. */
  method SaveRoute(store: Storage.Store, routes: seq<Route>, route: Route, editing: Option<Route>)
    returns (shown: seq<Route>)
    modifies store`routes
    ensures shown == SaveRouteList(routes, route, editing)
    ensures store.routes == SaveRouteList(old(store.routes), route, editing)
    ensures routes == old(store.routes) ==> shown == store.routes
  {
    if editing.Some? {
      store.UpdateRoute(route);
    } else {
      store.SaveRoute(route);
    }
    shown := SaveRouteList(routes, route, editing);
  }

  /** `handleFinishRun`'s list update: the finished run goes first; the route it
      ran, when still listed, is the one offered for a review. */
  function FinishRun(runs: seq<RunHistory>, routes: seq<Route>, run: RunHistory): (r: (seq<RunHistory>, Option<Route>))
    ensures r.0 == [run] + runs
    ensures r.1.Some? ==> r.1.value in routes && r.1.value.id == run.routeId
    ensures r.1.None? ==> forall i :: 0 <= i < |routes| ==> routes[i].id != run.routeId
    ensures r.1 == Find(routes, Storage.RouteIs(run.routeId))
  {
    var found := Find(routes, Storage.RouteIs(run.routeId));
    assert found.None? ==> forall i :: 0 <= i < |routes| ==> !Storage.RouteIs(run.routeId)(routes[i]);
    ([run] + runs, found)
  }

  /** The page class for a theme. */
  function ThemeClass(t: ThemeType): string {
    match t
    case Stealth => "dark"
    case Solar => "light theme-solar"
    case Neon => "dark theme-neon"
    case Forest => "dark theme-forest"
    case Barista => "dark theme-barista"
  }

  /** Different themes give different classes, and only the solar theme is light. */
  lemma ThemeClassInjective(a: ThemeType, b: ThemeType)
    ensures ThemeClass(a) == ThemeClass(b) <==> a == b
    ensures ThemeClass(a)[..4] == "dark" <==> a != Solar
  {
    if a == Solar {
      assert ThemeClass(a)[0] == 'l';
    }
  }

  /** The theme at start-up: the profile's theme, else barista. */
  function InitialTheme(profile: Option<UserProfile>): (t: ThemeType)
    ensures profile.Some? && profile.value.theme.Some? ==> t == profile.value.theme.value
    ensures profile.None? || profile.value.theme.None? ==> t == Barista
  {
    if profile.Some? then profile.value.theme.GetOr(Barista) else Barista
  }
}
