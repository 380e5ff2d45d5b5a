/**
 * `getUserById`, `getRequestById` and `loginUser`: first-match lookups in the stores.
 * `loginUser` compares e-mail addresses after lower-casing both sides.
 */
module Lookups {
  import opened Wrappers
  import opened Text
  import opened Records
  import opened Sequences

  function HasUserId(id: string): User -> bool
  {
    (u: User) => u.id == id
  }

  function HasRequestId(id: string): BloodRequest -> bool
  {
    (r: BloodRequest) => r.id == id
  }

  /** The key `loginUser` compares: the lower-cased e-mail addresses agree. */
  predicate SameEmailIgnoringCase(u: User, email: string)
  {
    ToLower(u.email) == ToLower(email)
  }

  function HasEmailIgnoringCase(email: string): User -> bool
  {
    (u: User) => SameEmailIgnoringCase(u, email)
  }

  /** The first user with the id, or None when no user has it. */
  function GetUserById(users: seq<User>, id: string): (found: Option<User>)
    ensures found.None? <==> forall i :: 0 <= i < |users| ==> users[i].id != id
    ensures found.Some? ==> found.value in users && found.value.id == id
    ensures forall i :: (0 <= i < |users| && users[i].id == id &&
                        (forall j :: 0 <= j < i ==> users[j].id != id)) ==> found == Some(users[i])
  {
    var found := Find(users, HasUserId(id));
    assert forall i :: (0 <= i < |users| && users[i].id == id &&
                       (forall j :: 0 <= j < i ==> users[j].id != id)) ==> IsFirstMatch(users, HasUserId(id), i);
    found
  }

  /** The first request with the id, or None when no request has it. */
  function GetRequestById(requests: seq<BloodRequest>, id: string): (found: Option<BloodRequest>)
    ensures found.None? <==> forall i :: 0 <= i < |requests| ==> requests[i].id != id
    ensures found.Some? ==> found.value in requests && found.value.id == id
    ensures forall i :: (0 <= i < |requests| && requests[i].id == id &&
                        (forall j :: 0 <= j < i ==> requests[j].id != id)) ==> found == Some(requests[i])
  {
    var found := Find(requests, HasRequestId(id));
    assert forall i :: (0 <= i < |requests| && requests[i].id == id &&
                       (forall j :: 0 <= j < i ==> requests[j].id != id)) ==> IsFirstMatch(requests, HasRequestId(id), i);
    found
  }

  /** The first user whose e-mail address equals `email` up to case, or None (`null`) when there is none. */
  function LoginUser(users: seq<User>, email: string): (found: Option<User>)
    ensures found.None? <==> forall i :: 0 <= i < |users| ==> !SameEmailIgnoringCase(users[i], email)
    ensures found.Some? ==> found.value in users && SameEmailIgnoringCase(found.value, email)
    ensures forall i :: (0 <= i < |users| && SameEmailIgnoringCase(users[i], email) &&
                        (forall j :: 0 <= j < i ==> !SameEmailIgnoringCase(users[j], email))) ==> found == Some(users[i])
  {
    var found := Find(users, HasEmailIgnoringCase(email));
    assert forall i :: (0 <= i < |users| && SameEmailIgnoringCase(users[i], email) &&
                       (forall j :: 0 <= j < i ==> !SameEmailIgnoringCase(users[j], email))) ==>
                         IsFirstMatch(users, HasEmailIgnoringCase(email), i);
    found
  }

  /** Logging in with two spellings of an address that differ only in case finds the same user. */
  lemma LoginIgnoresCase(users: seq<User>, email: string, other: string)
    requires ToLower(email) == ToLower(other)
    ensures LoginUser(users, email) == LoginUser(users, other)
  {
    FindExtensional(users, HasEmailIgnoringCase(email), HasEmailIgnoringCase(other));
  }

  /** Logging in finds the first stored user when its address matches up to case. */
  lemma LoginFindsFirst(users: seq<User>, email: string)
    requires users != [] && SameEmailIgnoringCase(users[0], email)
    ensures LoginUser(users, email) == Some(users[0])
  {
  }

  /** Logging in with a stored user's own address always finds a user. */
  lemma LoginFindsStoredAddress(users: seq<User>, k: int)
    requires 0 <= k < |users|
    ensures LoginUser(users, users[k].email).Some?
  {
    assert SameEmailIgnoringCase(users[k], users[k].email);
  }
}
