/** The records the application passes around (its shared type declarations),
    plus the Option wrapper used for `x | null` and optional fields. */
module Types {

  datatype Option<+T> = None | Some(value: T) {
    function GetOr(default: T): T {
      match this
      case Some(v) => v
      case None => default
    }
  }

  /** A geographic coordinate in degrees. */
  datatype LatLng = LatLng(lat: real, lng: real)

  datatype Difficulty = Easy | Moderate | Hard

  datatype ThemeType = Stealth | Solar | Neon | Forest | Barista

  datatype UnitSystem = Metric | Imperial

  datatype Review = Review(
    id: string,
    routeId: string,
    userId: string,
    username: string,
    rating: real,
    comment: string,
    createdAt: int)

  /** A saved route; `distance` is in km, `elevationGain` in meters. */
  datatype Route = Route(
    id: string,
    name: string,
    description: string,
    creatorId: string,
    creatorName: string,
    path: seq<LatLng>,
    distance: real,
    elevationGain: int,
    difficulty: Difficulty,
    tags: seq<string>,
    createdAt: int,
    rating: real)

  datatype RunClub = RunClub(
    id: string,
    name: string,
    description: string,
    logo: string,
    memberCount: int,
    weeklyRouteId: string,
    meetingTime: string,
    location: string,
    creatorId: string)

  /** A finished run; `duration` in seconds, `distance` in km. */
  datatype RunHistory = RunHistory(
    id: string,
    routeId: string,
    routeName: string,
    date: int,
    duration: int,
    distance: real,
    averagePace: string,
    actualPath: seq<LatLng>,
    coachingTips: Option<string>,
    reviewId: Option<string>)

  datatype Stats = Stats(totalDistance: real, totalRuns: int, avgPace: string)

  datatype UserProfile = UserProfile(
    id: string,
    username: string,
    avatar: string,
    bio: string,
    theme: Option<ThemeType>,
    unitSystem: Option<UnitSystem>,
    joinedClubIds: seq<string>,
    friendIds: seq<string>,
    isSetup: bool,
    stats: Stats)

  /** JavaScript truthiness of an optional string: null/undefined and "" are falsy. */
  predicate Truthy(s: Option<string>) {
    s.Some? && s.value != ""
  }
}
