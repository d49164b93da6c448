/** The crew page: searching other users, the user's friends and the people
    still to discover. */
module FriendsList {

  import opened Types
  import opened Text
  import opened Seqs

  /** Another user whose lower-cased name or bio contains the lower-cased term. */
  function UserMatches(currentId: string, term: string): UserProfile -> bool {
    (u: UserProfile) => u.id != currentId &&
      (Includes(ToLower(u.username), ToLower(term)) || Includes(ToLower(u.bio), ToLower(term)))
  }

  function IsFriend(friendIds: seq<string>): UserProfile -> bool {
    (u: UserProfile) => u.id in friendIds
  }

  function NotFriend(friendIds: seq<string>): UserProfile -> bool {
    (u: UserProfile) => u.id !in friendIds
  }

  /** `filteredUsers`. */
  function FilteredUsers(all: seq<UserProfile>, current: UserProfile, term: string): (r: seq<UserProfile>)
    ensures forall i :: 0 <= i < |r| ==> r[i].id != current.id
    ensures forall u :: u in r <==> u in all && UserMatches(current.id, term)(u)
    ensures Subseq(r, all)
  {
    var r := Filter(all, UserMatches(current.id, term));
    FilterIsSubseq(all, UserMatches(current.id, term));
    forall u | u in all && UserMatches(current.id, term)(u) ensures u in r {
      var k :| 0 <= k < |all| && all[k] == u;
    }
    forall u | u in r ensures u in all && UserMatches(current.id, term)(u) {
      var k :| 0 <= k < |r| && r[k] == u;
    }
    r
  }

  function NotSelf(currentId: string): UserProfile -> bool {
    (u: UserProfile) => u.id != currentId
  }

  /** With an empty term every user except the current one is listed, in order;
      a list without the current user is listed whole. */
  lemma EmptyTermKeepsOthers(all: seq<UserProfile>, current: UserProfile)
    ensures FilteredUsers(all, current, "") == Filter(all, NotSelf(current.id))
    ensures (forall i :: 0 <= i < |all| ==> all[i].id != current.id) ==> FilteredUsers(all, current, "") == all
  {
    forall u ensures UserMatches(current.id, "")(u) == NotSelf(current.id)(u) {
      IncludesEmpty(ToLower(u.username));
    }
    FilterSame(all, UserMatches(current.id, ""), NotSelf(current.id));
    if forall i :: 0 <= i < |all| ==> all[i].id != current.id {
      FilterAll(all, NotSelf(current.id));
    }
  }

  /** `friends`: every user whose id the current user follows, whatever the
      search term, in the order of all users. */
  function Friends(all: seq<UserProfile>, current: UserProfile): (r: seq<UserProfile>)
    ensures forall i :: 0 <= i < |r| ==> r[i].id in current.friendIds
    ensures forall i :: 0 <= i < |all| && all[i].id in current.friendIds ==> all[i] in r
    ensures Subseq(r, all)
  {
    FilterIsSubseq(all, IsFriend(current.friendIds));
    Filter(all, IsFriend(current.friendIds))
  }

  /** `discovery`: the searched users the current user does not follow. */
  function Discovery(all: seq<UserProfile>, current: UserProfile, term: string): (r: seq<UserProfile>)
    ensures Subseq(r, FilteredUsers(all, current, term))
    ensures forall i :: 0 <= i < |r| ==> r[i].id !in current.friendIds && r[i].id != current.id
  {
    var f := FilteredUsers(all, current, term);
    FilterIsSubseq(f, NotFriend(current.friendIds));
    var r := Filter(f, NotFriend(current.friendIds));
    assert forall i :: 0 <= i < |r| ==> r[i] in f;
    r
  }

  /** Discovery is one filter of all users: matching the search and not
      followed. */
  lemma DiscoveryIsOneFilter(all: seq<UserProfile>, current: UserProfile, term: string,
                             both: UserProfile -> bool)
    requires forall u :: both(u) == (UserMatches(current.id, term)(u) && NotFriend(current.friendIds)(u))
    ensures Discovery(all, current, term) == Filter(all, both)
  {
    FilterFilter(all, UserMatches(current.id, term), NotFriend(current.friendIds), both);
  }

  /** The unit system shown: the user's, else metric. */
  function UnitSystemOf(current: UserProfile): (r: UnitSystem)
    ensures current.unitSystem.None? ==> r == Metric
    ensures current.unitSystem.Some? ==> r == current.unitSystem.value
  {
    current.unitSystem.GetOr(Metric)
  }
}
