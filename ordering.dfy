/**
 * `getRequests`: a copy of the request store sorted newest first. The comparator
 * `b.createdAt - a.createdAt` orders by creation time, descending; `Array.prototype.sort`
 * is stable, so requests created at the same time keep their store order.
 */
module Ordering {
  import opened Records
  import opened Sequences

  /** No request is older than a request after it. */
  ghost predicate NewestFirst(s: seq<BloodRequest>)
  {
    forall i, j :: 0 <= i < j < |s| ==> s[i].createdAt >= s[j].createdAt
  }

  /** Selects the requests created at time `t`. */
  function CreatedAt(t: int): BloodRequest -> bool
  {
    (r: BloodRequest) => r.createdAt == t
  }

  /** Puts `x` in front of the first request that is not newer than it. */
  function Insert(x: BloodRequest, s: seq<BloodRequest>): (r: seq<BloodRequest>)
    ensures multiset(r) == multiset(s) + multiset{x}
    ensures forall y :: y in r <==> y == x || y in s
  {
    if s == [] || x.createdAt >= s[0].createdAt then
      [x] + s
    else
      assert s == [s[0]] + s[1..];
      [s[0]] + Insert(x, s[1..])
  }

  /** Inserting into a newest-first sequence keeps it newest first. */
  lemma {:induction false} InsertKeepsNewestFirst(x: BloodRequest, s: seq<BloodRequest>)
    requires NewestFirst(s)
    ensures NewestFirst(Insert(x, s))
  {
    var r := Insert(x, s);
    if s == [] || x.createdAt >= s[0].createdAt {
      forall i, j | 0 <= i < j < |r| ensures r[i].createdAt >= r[j].createdAt {
        if i == 0 && j > 1 {
          assert s[0].createdAt >= s[j - 1].createdAt;
        }
      }
    } else {
      var rest := Insert(x, s[1..]);
      InsertKeepsNewestFirst(x, s[1..]);
      forall y | y in rest ensures s[0].createdAt >= y.createdAt {
        if y != x {
          var k :| 0 <= k < |s[1..]| && s[1..][k] == y;
          assert s[k + 1] == y;
        }
      }
      forall i, j | 0 <= i < j < |r| ensures r[i].createdAt >= r[j].createdAt {
        if i == 0 {
          assert r[j] == rest[j - 1] && rest[j - 1] in rest;
        } else {
          assert r[i] == rest[i - 1] && r[j] == rest[j - 1];
        }
      }
    }
  }

  /** The request store sorted newest first: a permutation of the store, in non-increasing `createdAt` order. */
  function GetRequests(requests: seq<BloodRequest>): (sorted: seq<BloodRequest>)
    ensures multiset(sorted) == multiset(requests)
    ensures |sorted| == |requests|
    ensures NewestFirst(sorted)
  {
    if requests == [] then []
    else
      assert requests == [requests[0]] + requests[1..];
      InsertKeepsNewestFirst(requests[0], GetRequests(requests[1..]));
      Insert(requests[0], GetRequests(requests[1..]))
  }

  /** Inserting keeps `x` ahead of the requests of its own time. */
  lemma {:induction false} InsertStable(x: BloodRequest, s: seq<BloodRequest>, t: int)
    ensures Filter(Insert(x, s), CreatedAt(t)) == Filter([x] + s, CreatedAt(t))
  {
    if s != [] && x.createdAt < s[0].createdAt {
      var p := CreatedAt(t);
      InsertStable(x, s[1..], t);
      FilterCons(s[0], Insert(x, s[1..]), p);
      FilterCons(x, s[1..], p);
      FilterCons(x, s, p);
      FilterCons(s[0], s[1..], p);
      assert [s[0]] + s[1..] == s;
    }
  }

  /** The sort is stable: the requests of any one creation time keep their store order. */
  lemma {:induction false} GetRequestsStable(requests: seq<BloodRequest>, t: int)
    ensures Filter(GetRequests(requests), CreatedAt(t)) == Filter(requests, CreatedAt(t))
  {
    if requests != [] {
      var rest := GetRequests(requests[1..]);
      InsertStable(requests[0], rest, t);
      GetRequestsStable(requests[1..], t);
      FilterCons(requests[0], rest, CreatedAt(t));
      FilterCons(requests[0], requests[1..], CreatedAt(t));
      assert [requests[0]] + requests[1..] == requests;
    }
  }

  /** The first request of a newest-first sequence is at least as new as any of its requests. */
  lemma {:induction false} HeadIsNewest(s: seq<BloodRequest>, y: BloodRequest)
    requires NewestFirst(s) && y in s
    ensures s[0].createdAt >= y.createdAt
  {
  }

  /** Two newest-first permutations whose first-time requests agree in order start with the same request. */
  lemma {:induction false} SameHead(a: seq<BloodRequest>, b: seq<BloodRequest>)
    requires a != [] && multiset(a) == multiset(b)
    requires NewestFirst(a) && NewestFirst(b)
    requires Filter(a, CreatedAt(a[0].createdAt)) == Filter(b, CreatedAt(a[0].createdAt))
    ensures b != [] && a[0] == b[0]
  {
    assert a[0] in multiset(b);
    assert b != [] && b[0] in multiset(a);
    HeadIsNewest(b, a[0]);
    HeadIsNewest(a, b[0]);
    var t := a[0].createdAt;
    FilterCons(a[0], a[1..], CreatedAt(t));
    FilterCons(b[0], b[1..], CreatedAt(t));
    assert [a[0]] + a[1..] == a && [b[0]] + b[1..] == b;
  }

  /** Dropping the same first request from both sides keeps the per-time orders equal. */
  lemma {:induction false} TailFilters(a: seq<BloodRequest>, b: seq<BloodRequest>, t: int)
    requires a != [] && b != [] && a[0] == b[0]
    requires Filter(a, CreatedAt(t)) == Filter(b, CreatedAt(t))
    ensures Filter(a[1..], CreatedAt(t)) == Filter(b[1..], CreatedAt(t))
  {
    var p := CreatedAt(t);
    FilterCons(a[0], a[1..], p);
    FilterCons(b[0], b[1..], p);
    assert [a[0]] + a[1..] == a && [b[0]] + b[1..] == b;
    if p(a[0]) {
      assert ([a[0]] + Filter(a[1..], p))[1..] == Filter(a[1..], p);
      assert ([b[0]] + Filter(b[1..], p))[1..] == Filter(b[1..], p);
    }
  }

  /** Dropping the first request keeps a sequence newest first and removes one copy of that request. */
  lemma TailKeepsOrder(s: seq<BloodRequest>)
    requires s != [] && NewestFirst(s)
    ensures NewestFirst(s[1..])
    ensures multiset(s[1..]) == multiset(s) - multiset{s[0]}
  {
    assert s == [s[0]] + s[1..];
    forall i, j | 0 <= i < j < |s[1..]| ensures s[1..][i].createdAt >= s[1..][j].createdAt {
      assert s[1..][i] == s[i + 1] && s[1..][j] == s[j + 1];
    }
  }

  /** Two newest-first permutations that agree on the order of every creation time are equal. */
  lemma {:induction false} StableSortUnique(a: seq<BloodRequest>, b: seq<BloodRequest>)
    requires multiset(a) == multiset(b)
    requires NewestFirst(a) && NewestFirst(b)
    requires forall t :: Filter(a, CreatedAt(t)) == Filter(b, CreatedAt(t))
    ensures a == b
  {
    if a == [] {
      assert |multiset(b)| == 0;
    } else {
      SameHead(a, b);
      forall t ensures Filter(a[1..], CreatedAt(t)) == Filter(b[1..], CreatedAt(t)) {
        TailFilters(a, b, t);
      }
      TailKeepsOrder(a);
      TailKeepsOrder(b);
      StableSortUnique(a[1..], b[1..]);
    }
  }

  /**
   * `getRequests` is the one newest-first ordering of the store that keeps same-time
   * requests in store order: any sequence with these three properties is its result.
   */
  lemma {:induction false} GetRequestsIsTheStableSort(requests: seq<BloodRequest>, r: seq<BloodRequest>)
    requires multiset(r) == multiset(requests)
    requires NewestFirst(r)
    requires forall t :: Filter(r, CreatedAt(t)) == Filter(requests, CreatedAt(t))
    ensures r == GetRequests(requests)
  {
    forall t ensures Filter(r, CreatedAt(t)) == Filter(GetRequests(requests), CreatedAt(t)) {
      GetRequestsStable(requests, t);
    }
    StableSortUnique(r, GetRequests(requests));
  }

  /** A request no older than any stored one sorts to the front, ahead of the rest in their sorted order. */
  lemma {:induction false} NewestRequestSortsFirst(r: BloodRequest, rest: seq<BloodRequest>)
    requires forall i :: 0 <= i < |rest| ==> rest[i].createdAt <= r.createdAt
    ensures GetRequests([r] + rest) == [r] + GetRequests(rest)
  {
    var s := [r] + rest;
    assert s[0] == r && s[1..] == rest;
    var sortedRest := GetRequests(rest);
    if sortedRest != [] {
      assert sortedRest[0] in multiset(rest);
      var k :| 0 <= k < |rest| && rest[k] == sortedRest[0];
      assert r.createdAt >= sortedRest[0].createdAt;
    }
  }
}
