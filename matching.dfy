/**
 * `findMatches`: the donors in the user store for one blood request. The source filters
 * twice: first by role, then by blood-group compatibility and exact locality.
 */
module Matching {
  import opened BloodGroups
  import opened Records
  import opened Sequences

  /** Volunteers and users who are both requestor and volunteer may donate. */
  predicate IsDonorRole(role: UserRole)
  {
    role == Volunteer || role == Both
  }

  /** The single condition a user must meet to be a match for the request. */
  predicate IsMatch(u: User, request: BloodRequest)
  {
    IsDonorRole(u.role) &&
    u.bloodGroup in CompatibleDonors(request.bloodGroup) &&
    u.locality == request.locality
  }

  /** The first filter of the source: keep the potential donors. */
  function IsPotentialDonor(): User -> bool
  {
    (u: User) => IsDonorRole(u.role)
  }

  /** The second filter of the source: compatible group and same locality. */
  function IsCompatibleHere(compatibleGroups: seq<BloodGroup>, locality: string): User -> bool
  {
    (u: User) => u.bloodGroup in compatibleGroups && u.locality == locality
  }

  /** The single-pass reference filter. */
  function MatchesRequest(request: BloodRequest): User -> bool
  {
    (u: User) => IsMatch(u, request)
  }

  /**
   * The users of the store that match the request, in store order. The two-pass
   * filter of the source equals the single-pass reference filter on `IsMatch`.
   */
  function FindMatches(users: seq<User>, request: BloodRequest): (matches: seq<User>)
    ensures matches == Filter(users, MatchesRequest(request))
    ensures forall u :: u in matches ==> IsDonorRole(u.role)
    ensures forall u :: u in matches <==> u in users && IsMatch(u, request)
    ensures forall u :: multiset(matches)[u] == if IsMatch(u, request) then multiset(users)[u] else 0
    ensures IsSubsequence(matches, users)
  {
    var potentialDonors := Filter(users, IsPotentialDonor());
    var compatibleGroups := CompatibleDonors(request.bloodGroup);
    FilterFusion(users, IsPotentialDonor(), IsCompatibleHere(compatibleGroups, request.locality),
                 MatchesRequest(request));
    FilterCounts(users, MatchesRequest(request));
    FilterIsSubsequence(users, MatchesRequest(request));
    Filter(potentialDonors, IsCompatibleHere(compatibleGroups, request.locality))
  }

  /** A requestor-only user is never a match. */
  lemma RequestorsNeverMatch(users: seq<User>, request: BloodRequest, u: User)
    requires u.role == Requestor
    ensures u !in FindMatches(users, request)
  {
  }

  /** Matching depends on the request's blood group and locality only: its status is not consulted. */
  lemma MatchesIgnoreStatus(users: seq<User>, request: BloodRequest, status: RequestStatus)
    ensures FindMatches(users, request.(status := status)) == FindMatches(users, request)
  {
  }

  /** Matching depends on the request's blood group and locality only: its requestor is not excluded. */
  lemma MatchesIgnoreRequestor(users: seq<User>, request: BloodRequest, requestorId: string)
    ensures FindMatches(users, request.(requestorId := requestorId)) == FindMatches(users, request)
  {
  }

  /** Matching the store's users is matching each part of the store in turn. */
  lemma MatchesOfAppend(users: seq<User>, more: seq<User>, request: BloodRequest)
    ensures FindMatches(users + more, request) == FindMatches(users, request) + FindMatches(more, request)
  {
    FilterAppend(users, more, MatchesRequest(request));
  }

  /** An AB+ request matches every potential donor in its locality, whatever the donor's group. */
  lemma ABPositiveMatchesEveryLocalDonor(users: seq<User>, request: BloodRequest, u: User)
    requires request.bloodGroup == ABPositive
    requires u in users && IsDonorRole(u.role) && u.locality == request.locality
    ensures u in FindMatches(users, request)
  {
    ABPositiveReceivesFromAll(u.bloodGroup);
  }

  /** A match for a recipient group also matches every recipient its own donors could give to. */
  lemma MatchWidens(users: seq<User>, request: BloodRequest, wider: BloodGroup, u: User)
    requires u in FindMatches(users, request)
    requires request.bloodGroup in CompatibleDonors(wider)
    ensures u in FindMatches(users, request.(bloodGroup := wider))
  {
    CompatibilityTransitive(u.bloodGroup, request.bloodGroup, wider);
  }
}
