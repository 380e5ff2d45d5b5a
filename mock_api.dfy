/**
 * The in-memory back end: the user and request stores, seeded with sample data, and the
 * two operations that change them. `registerUser` appends a user unless the e-mail address
 * is already taken; `createRequest` puts a new open request at the front. The read-only
 * operations are functions of the store contents: `Matching.FindMatches(store.users, …)`,
 * `Lookups.GetUserById(store.users, …)`, `Lookups.LoginUser(store.users, …)`,
 * `Lookups.GetRequestById(store.requests, …)` and `Ordering.GetRequests(store.requests)`.
 */
module MockApi {
  import opened Wrappers
  import opened Text
  import opened BloodGroups
  import opened Records
  import opened Sequences
  import opened Lookups
  import opened Matching
  import opened Ordering

  /** One day in milliseconds: the second seed request is dated this long before the clock reading it is given. */
  const OneDay: int := 86400000

  const DuplicateEmailMessage: string := "User with this email already exists."

  /** The users the store starts with. */
  function SeedUsers(): seq<User>
  {
    [ User("u1", "John Doe", "john@example.com", "1234567890", APositive, Male, "Downtown", Volunteer, 6),
      User("u2", "Jane Smith", "jane@example.com", "0987654321", ONegative, Female, "Uptown", Both, 12),
      User("u3", "Sam Wilson", "sam@example.com", "1122334455", BPositive, Male, "Downtown", Volunteer, 2),
      User("u4", "Emily Clark", "emily@example.com", "5566778899", ABPositive, Female, "Midtown", Requestor, 0) ]
  }

  /**
   * The requests the store starts with. The source reads the clock once for each: `r1` is
   * created at `now`, and `r2` one day before the second reading `later`.
   */
  function SeedRequests(now: int, later: int): seq<BloodRequest>
  {
    [ BloodRequest("r1", "u4", "Robert Paulson", APositive, 2, "City General Hospital", "Downtown", "High", Open, now),
      BloodRequest("r2", "u2", "Maria Garcia", ONegative, 4, "Uptown Medical Center", "Uptown", "Medium", Open, later - OneDay) ]
  }

  /** Some stored user has exactly this e-mail address. */
  predicate EmailTaken(users: seq<User>, email: string)
  {
    exists i :: 0 <= i < |users| && users[i].email == email
  }

  /** No two stored users share an e-mail address. */
  predicate EmailsDistinct(users: seq<User>)
  {
    forall i, j :: 0 <= i < j < |users| ==> users[i].email != users[j].email
  }

  /** Every stored request is open: nothing in the back end closes a request. */
  predicate AllOpen(requests: seq<BloodRequest>)
  {
    forall i :: 0 <= i < |requests| ==> requests[i].status == Open
  }

  function HasEmail(email: string): User -> bool
  {
    (u: User) => u.email == email
  }

  class Store {
    var users: seq<User>
    var requests: seq<BloodRequest>

    /**
     * The invariants every operation keeps. `FindByEmailOnValidStore` and
     * `LookedUpRequestIsOpen` show what a caller gains from them.
     */
    ghost predicate Valid()
      reads this
    {
      EmailsDistinct(users) && AllOpen(requests)
    }

    /** The stores as the module initialises them; `now` and `later` are the two clock readings. */
    constructor (now: int, later: int)
      ensures users == SeedUsers() && requests == SeedRequests(now, later)
      ensures Valid()
    {
      users := SeedUsers();
      requests := SeedRequests(now, later);
    }

    /** `getUsers`: a copy of the user store. */
    method GetUsers() returns (all: seq<User>)
      ensures all == users
    {
      all := users;
    }

    /**
     * `registerUser`: rejects an e-mail address some user already has, exactly as
     * spelled; otherwise appends the new user, with id `newId` and no donations.
     */
    method RegisterUser(data: UserData, newId: string) returns (result: Result<User, string>)
      modifies this
      ensures requests == old(requests)
      ensures EmailTaken(old(users), data.email) ==>
        result == Failure(DuplicateEmailMessage) && users == old(users)
      ensures !EmailTaken(old(users), data.email) ==>
        result == Success(NewUser(data, newId)) && users == old(users) + [result.value]
      ensures result.Success? ==> result.value.id == newId && result.value.donations == 0
      ensures old(Valid()) ==> Valid()
    {
      var existing := Find(users, HasEmail(data.email));
      if existing.Some? {
        assert existing.value in users && existing.value.email == data.email;
        return Failure(DuplicateEmailMessage);
      }
      assert !EmailTaken(users, data.email) by {
        assert forall i :: 0 <= i < |users| ==> !HasEmail(data.email)(users[i]);
      }
      var newUser := NewUser(data, newId);
      users := users + [newUser];
      return Success(newUser);
    }

    /**
     * `createRequest`: stores the request built from `data`, with id `newId`, creation
     * time `now` and status Open, in front of the requests already stored.
     */
    method CreateRequest(data: RequestData, newId: string, now: int) returns (request: BloodRequest)
      modifies this
      ensures request == NewRequest(data, newId, now)
      ensures request.status == Open && request.id == newId && request.createdAt == now
      ensures requests == [request] + old(requests)
      ensures users == old(users)
      ensures old(Valid()) ==> Valid()
    {
      request := NewRequest(data, newId, now);
      requests := [request] + requests;
    }
  }

  /** The seed users have distinct e-mail addresses. */
  lemma SeedEmailsDistinct()
    ensures EmailsDistinct(SeedUsers())
  {
  }

  /** On a store with distinct addresses, the exact-address `find` returns the one user with that address. */
  lemma FindByEmailOnValidStore(users: seq<User>, k: int)
    requires EmailsDistinct(users) && 0 <= k < |users|
    ensures Find(users, HasEmail(users[k].email)) == Some(users[k])
  {
    assert IsFirstMatch(users, HasEmail(users[k].email), k);
  }

  /** On a store whose requests are all open, a request found by id is open. */
  lemma LookedUpRequestIsOpen(requests: seq<BloodRequest>, id: string)
    requires AllOpen(requests)
    requires GetRequestById(requests, id).Some?
    ensures GetRequestById(requests, id).value.status == Open
  {
  }

  /** A user stored by a successful registration is the one found by its exact e-mail address. */
  lemma RegisteredUserIsOnlyOneWithEmail(users: seq<User>, u: User)
    requires !EmailTaken(users, u.email)
    ensures Find(users + [u], HasEmail(u.email)) == Some(u)
  {
    var s := users + [u];
    assert s[|users|] == u;
    assert IsFirstMatch(s, HasEmail(u.email), |users|);
  }

  /**
   * After a registration, logging in with the new address finds a user, and finds the new
   * user exactly when no earlier user's address differs from it only in case.
   */
  lemma {:induction false} LoginAfterRegister(users: seq<User>, u: User)
    requires !EmailTaken(users, u.email)
    ensures LoginUser(users + [u], u.email).Some?
    ensures LoginUser(users + [u], u.email) == Some(u) <==>
      forall i :: 0 <= i < |users| ==> !SameEmailIgnoringCase(users[i], u.email)
  {
    var s := users + [u];
    var p := HasEmailIgnoringCase(u.email);
    assert s[|users|] == u && SameEmailIgnoringCase(u, u.email);
    if forall i :: 0 <= i < |users| ==> !SameEmailIgnoringCase(users[i], u.email) {
      assert forall j :: 0 <= j < |users| ==> s[j] == users[j];
    } else {
      var k :| 0 <= k < |users| && SameEmailIgnoringCase(users[k], u.email);
      assert s[k] == users[k] && p(s[k]);
      FirstMatchExists(s, p, k);
      var i :| i <= k && IsFirstMatch(s, p, i);
      assert s[i] == users[i];
      assert LoginUser(users + [u], u.email) == Some(users[i]);
      assert users[i].email != u.email;
    }
  }

  /** A request just created is the one found by its id. */
  lemma CreatedRequestFoundById(request: BloodRequest, requests: seq<BloodRequest>)
    ensures GetRequestById([request] + requests, request.id) == Some(request)
  {
  }

  /** A request created no earlier than every stored one is listed first by `getRequests`. */
  lemma CreatedRequestListedFirst(request: BloodRequest, requests: seq<BloodRequest>)
    requires forall i :: 0 <= i < |requests| ==> requests[i].createdAt <= request.createdAt
    ensures GetRequests([request] + requests)[0] == request
  {
    NewestRequestSortsFirst(request, requests);
  }

  /**
   * The matcher does not exclude the requestor: seed user u2 (O−, Uptown, role Both)
   * owns request r2 (O−, Uptown) and is among its matches.
   */
  lemma SeedRequestorMatchesOwnRequest(now: int, later: int)
    ensures SeedRequests(now, later)[1].requestorId == SeedUsers()[1].id
    ensures SeedUsers()[1] in FindMatches(SeedUsers(), SeedRequests(now, later)[1])
  {
  }

  /** No seed address is spelled "John@example.com". */
  lemma CaseVariantNotTaken()
    ensures !EmailTaken(SeedUsers(), "John@example.com")
  {
  }

  /**
   * A case variant of a stored address passes the exact duplicate check, and logging
   * in with it finds the older user, never the new one.
   */
  lemma CaseVariantRegistrationIsShadowed(data: UserData, newId: string)
    requires data.email == "John@example.com"
    ensures !EmailTaken(SeedUsers(), data.email)
    ensures LoginUser(SeedUsers() + [NewUser(data, newId)], data.email) == Some(SeedUsers()[0])
  {
    CaseVariantNotTaken();
    var users := SeedUsers();
    assert users[0].email[1..] == data.email[1..];
    LowerDiffersInFirst(users[0].email, data.email);
    LoginFindsFirst(users + [NewUser(data, newId)], data.email);
  }
}
