# Blood-donation matching back end, modelled in Dafny

This project models the in-memory back end of a blood-donation matching application
(`services/mockApi.ts`). Requestors post blood requests; volunteers register with a blood
group and a locality; for each request the back end lists the compatible donors.

The back end has three parts, and the model follows them:

- **The donor compatibility table** (`COMPATIBLE_DONORS`). For each of the eight ABO/Rh
  groups it lists the donor groups that recipient may receive. Module `BloodGroups` holds it
  as a total function on a datatype. Its lemmas restate the table's medical facts. It is also
  proved equal, pair by pair, to an independent antigen rule: a donor may give when its red
  cells carry no A, B or RhD antigen that the recipient's lack.
- **The donor matcher** (`findMatches`). Module `Matching` keeps the source's two filters: one
  on role, then one on blood-group compatibility and exact locality. It proves that the two
  passes equal one filter on a single condition, `IsMatch`. Its contract gives the
  if-and-only-if for membership, the number of copies of each user, and store order.
- **The stores** (`mockUsers`, `mockRequests`). Module `MockApi` has a class `Store` with one
  `seq` field per store. It is seeded with the source's sample data. `RegisterUser` and
  `CreateRequest` change the store in place and keep two invariants: e-mail addresses are
  distinct, and every request is open. The read-only operations are functions of the store's
  contents:
  - `Lookups.GetUserById`, `Lookups.GetRequestById` and `Lookups.LoginUser` are first-match
    lookups. `LoginUser` compares lower-cased addresses.
  - `Ordering.GetRequests` is the sorted copy, newest first. It is proved to be a permutation,
    in non-increasing creation-time order, and stable. It is also proved to be the only
    sequence with those three properties.

`Sequences` gives `filter` and `find` once, generically, with their own contracts. `Text`
models `toLowerCase`. `Records` holds the user and request records.

Clock-dependent values are parameters. The generated ids (`u…`, `r…` from `Date.now()`) are
`newId`, and creation times are `now`, in integer milliseconds. The seed data reads the clock
twice: `r1` is created at the first reading `now`, and `r2` one day (`OneDay = 86400000`)
before the second reading `later`. Every operation is synchronous: the source
wraps each result in an already-resolved promise.

The code does not apply two rules one might expect of a donor matcher, and the model follows the code:

- `findMatches` does not return an empty result for a closed request. Lemma
  `MatchesIgnoreStatus` proves the status is never consulted.
- `findMatches` does not exclude the requestor. Seed user `u2` matches its own request `r2`
  (`SeedRequestorMatchesOwnRequest`), and `MatchesIgnoreRequestor` proves the requestor is
  never consulted.
- The result is a sequence in store order.
- `registerUser` rejects only an address spelled exactly like a stored one. `loginUser`
  compares addresses ignoring case. So a user registered as `John@example.com` is accepted
  beside `john@example.com`, but logging in with either spelling finds the older user
  (`CaseVariantRegistrationIsShadowed`, `LoginAfterRegister`).

## Model

| member | source | states |
|---|---|---|
| `BloodGroups.CompatibleDonors` | services/mockApi.ts:17-26 | the table is total over the eight groups; every recipient's list is non-empty, contains O− and contains the recipient's own group |
| `BloodGroups.TableMatchesAntigenRule` | services/mockApi.ts:17-26 | a donor group is in a recipient's list if and only if its red cells carry no A, B or RhD antigen the recipient's lack |
| `BloodGroups.ONegativeGivesToAll` | services/mockApi.ts:17-26 | O− is in every recipient's list (universal donor) |
| `BloodGroups.ABPositiveReceivesFromAll` | services/mockApi.ts:22 | every group is in the AB+ list (universal recipient) |
| `BloodGroups.ONegativeReceivesOnlyONegative` | services/mockApi.ts:25 | a group is in the O− list if and only if it is O− |
| `BloodGroups.SelfCompatible` | services/mockApi.ts:18-25 | every recipient's list contains its own group |
| `BloodGroups.ListsAreDuplicateFree` | services/mockApi.ts:17-26 | no list names a donor group twice |
| `BloodGroups.CompatibilityTransitive` | services/mockApi.ts:17-26 | if a may give to b and b may give to c, then a may give to c |
| `Sequences.Filter` | services/mockApi.ts:52-59 | `filter` keeps exactly the elements satisfying the predicate, and never lengthens the input |
| `Sequences.FilterCounts` | services/mockApi.ts:52-59 | `filter` keeps every copy of a satisfying element and no copy of any other |
| `Sequences.FilterIsSubsequence` | services/mockApi.ts:52-59 | the result of `filter` is a subsequence of its input, in the input's order |
| `Sequences.FilterFusion` | services/mockApi.ts:52-59 | two filters in a row equal one filter on the conjunction of their predicates |
| `Sequences.Find` | services/mockApi.ts:33 | `find` is absent exactly when no element satisfies the predicate; otherwise it returns the element at the first satisfying index |
| `Sequences.FirstMatchExists` | services/mockApi.ts:33 | when some element satisfies the predicate, a first such index exists at or before it |
| `Matching.FindMatches` | services/mockApi.ts:51-61 | the two-pass filter equals the one-pass filter on `IsMatch`; every result has role Volunteer or Both; a stored user is in the result iff its role is Volunteer or Both, its group is in the request group's list and its locality equals the request's; copies are kept; the result is a subsequence of the store |
| `Matching.RequestorsNeverMatch` | services/mockApi.ts:52-54 | a user whose role is Requestor never appears in a result |
| `Matching.MatchesIgnoreStatus` | services/mockApi.ts:51-60 | changing the request's status does not change the result, so closed requests still get matches |
| `Matching.MatchesIgnoreRequestor` | services/mockApi.ts:51-60 | changing the request's requestor does not change the result, so requestors are not excluded |
| `Matching.MatchesOfAppend` | services/mockApi.ts:51-60 | matching a concatenated store is matching each part, in order |
| `Matching.ABPositiveMatchesEveryLocalDonor` | services/mockApi.ts:51-59 | an AB+ request matches every stored Volunteer or Both user in its locality, whatever the user's group |
| `Matching.MatchWidens` | services/mockApi.ts:55-58 | a match for a request also matches the same request with any recipient group its group may give to |
| `Text.ToLower` | services/mockApi.ts:74 | lower-casing keeps the length and lower-cases each character on its own |
| `Text.ToLowerHasNoUpper` | services/mockApi.ts:74 | a lower-cased string holds no upper-case ASCII letter |
| `Text.ToLowerIdempotent` | services/mockApi.ts:74 | lower-casing twice equals lower-casing once |
| `Text.SameLowerAgreesUpToCase` | services/mockApi.ts:74 | two strings with the same lower-cased form differ at most in the case of their letters |
| `Lookups.GetUserById` | services/mockApi.ts:32-34 | absent iff no stored user has the id; otherwise a stored user with the id, namely the one at the first index with that id |
| `Lookups.GetRequestById` | services/mockApi.ts:38-40 | absent iff no stored request has the id; otherwise a stored request with the id, namely the one at the first index with that id |
| `Lookups.LoginUser` | services/mockApi.ts:73-76 | absent (null) iff no stored address equals the given one after lower-casing; otherwise the user at the first such index |
| `Lookups.LoginIgnoresCase` | services/mockApi.ts:74 | two addresses with the same lower-cased form log in as the same user |
| `Lookups.LoginFindsFirst` | services/mockApi.ts:74-75 | when the first stored user's address matches up to case, login returns that user |
| `Lookups.LoginFindsStoredAddress` | services/mockApi.ts:74-75 | logging in with any stored user's own address finds a user |
| `Ordering.GetRequests` | services/mockApi.ts:35-37 | the result is a permutation of the request store with the same length, in non-increasing `createdAt` order |
| `Ordering.InsertKeepsNewestFirst` | services/mockApi.ts:36 | inserting one request into a newest-first sequence keeps it newest first |
| `Ordering.GetRequestsStable` | services/mockApi.ts:36 | the requests of any one creation time keep their store order (the sort is stable) |
| `Ordering.StableSortUnique` | services/mockApi.ts:36 | two newest-first permutations that agree on the order within every creation time are equal |
| `Ordering.GetRequestsIsTheStableSort` | services/mockApi.ts:35-37 | any permutation of the store that is newest first and stable equals the result of `getRequests` |
| `Ordering.NewestRequestSortsFirst` | services/mockApi.ts:36 | a request no older than any other in the store sorts to the front, and the rest keep their sorted order |
| `MockApi.Store.constructor` | services/mockApi.ts:4-14 | the stores start as the four seed users and the two seed requests, with `r1` created at the first clock reading and `r2` one day before the second; the invariants hold |
| `MockApi.Store.GetUsers` | services/mockApi.ts:29-31 | returns the contents of the user store |
| `MockApi.Store.RegisterUser` | services/mockApi.ts:62-71 | if a stored user has exactly the address, it fails with the source's message and the store is unchanged; otherwise the new user is appended, with the given fields, id `newId` and zero donations, and earlier users are untouched; the request store is unchanged; distinct addresses stay distinct |
| `MockApi.Store.CreateRequest` | services/mockApi.ts:41-49 | the new request has the given fields, id `newId`, creation time `now` and status Open; it goes in front of the stored requests, which keep their order; the user store is unchanged; all requests stay open |
| `MockApi.SeedEmailsDistinct` | services/mockApi.ts:4-9 | the seed users have distinct addresses |
| `MockApi.FindByEmailOnValidStore` | services/mockApi.ts:63 | on a store whose addresses are distinct, the duplicate check's `find` on a stored user's address returns that user |
| `MockApi.LookedUpRequestIsOpen` | services/mockApi.ts:38-40 | on a store whose requests are all open, a request `getRequestById` returns is open |
| `MockApi.RegisteredUserIsOnlyOneWithEmail` | services/mockApi.ts:62-70 | after a successful registration, the duplicate check's `find` on the new address returns the new user |
| `MockApi.LoginAfterRegister` | services/mockApi.ts:62-76 | after a successful registration, login with the new address finds a user; it finds the new user iff no earlier address equals it after lower-casing |
| `MockApi.CreatedRequestFoundById` | services/mockApi.ts:38-48 | a request just created is the one `getRequestById` returns for its id |
| `MockApi.CreatedRequestListedFirst` | services/mockApi.ts:35-48 | a request created no earlier than every stored one is listed first by `getRequests` |
| `MockApi.SeedRequestorMatchesOwnRequest` | services/mockApi.ts:6-13 | seed user `u2` owns request `r2` and is among its matches |
| `MockApi.CaseVariantNotTaken` | services/mockApi.ts:5-8 | no seed user has the address `John@example.com` |
| `MockApi.CaseVariantRegistrationIsShadowed` | services/mockApi.ts:62-76 | registering `John@example.com` passes the duplicate check, and login with that address then returns the seed user `u1`, not the new user |

## Left out

- Promises and `async`: every operation is modelled as synchronous, because each one resolves immediately with no other work between.
- `Date.now()` and `new Date()`: generated ids and creation times are parameters (`newId`, `now`, and `later` for the seed data's second reading). Nothing makes ids unique, since two calls in the same millisecond would collide. The lookups return the first match either way.
- Dates are integer milliseconds. An invalid `Date`, whose time is NaN, is not modelled.
- Text.ToLower: lower-cases ASCII letters only, whereas `toLowerCase` follows Unicode case mapping, which also covers letters outside ASCII and mappings that change a string's length.
- `types.ts` is not part of this model. The order of the AB+ list follows the declaration order A+, A−, B+, B−, AB+, AB−, O+, O−, which `Object.values(BloodGroup)` is taken to return. Only membership in the list is ever used. `Sex` has the two values the seed data use. `urgency` is kept as a string.
- Object identity and aliasing: `find` returns the stored object itself, so a caller could mutate it. Records here are values.
- `getUsers` and `getRequests` return fresh arrays, while the model returns sequence values. A copy and the original cannot be told apart.
- Extra runtime fields carried by the spread `...userData` / `...requestData`. The argument types exclude them.
- `services/apiService.ts` (HTTP calls, token storage, error parsing), the pages and `hooks/useAuth.tsx` (rendering, routing, UI state) are not part of this model. They have no rules of their own over the store.
