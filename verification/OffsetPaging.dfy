/**
  Offset pagination: the loop that asks for `limit` items at a time until a page comes back short.
  The events call and the markets call share it.
 */
module OffsetPaging {
  import opened Numbers
  import opened Wrappers

  const DEFAULT_LIMIT := 100

  datatype Request<F> = Request(filter: F, limit: Option<int>, offset: Option<int>)

  function LimitOf<F>(req: Option<Request<F>>): int {
    if req.Some? && req.value.limit.Some? then req.value.limit.value else DEFAULT_LIMIT
  }

  function OffsetOf<F>(req: Option<Request<F>>): int {
    if req.Some? && req.value.offset.Some? then req.value.offset.value else 0
  }

  /** At most `count` items from position `offset` on. */
  function Slice<T>(all: seq<T>, offset: int, count: int): seq<T>
    requires offset >= 0 && count >= 0
  {
    if offset >= |all| then [] else all[offset..Min(offset + count, |all|)]
  }

  /** The server holds one fixed list and returns at most `cap` items at once; any request may still fail. */
  ghost predicate Serves<T, E>(fetch: (int, int) -> Result<seq<T>, E>, all: seq<T>, cap: int) {
    && cap >= 0
    && forall limit, offset :: limit >= 0 && offset >= 0 ==>
         fetch(limit, offset).Failure? || fetch(limit, offset).value == Slice(all, offset, Min(limit, cap))
  }

  ghost predicate NeverFails<T, E>(fetch: (int, int) -> Result<seq<T>, E>) {
    forall limit, offset :: fetch(limit, offset).Success?
  }

  /**
    What the loop returns: everything from the offset on if the server's page size allows the limit,
    but only the first page if the server cuts pages below the limit.
   */
  function Collected<T>(all: seq<T>, offset: int, limit: int, cap: int): seq<T>
    requires offset >= 0 && limit >= 0 && cap >= 0
  {
    if limit <= cap then Slice(all, offset, |all|) else Slice(all, offset, cap)
  }

  /** Fetching one page and then the rest is fetching everything. */
  lemma PageThenRest<T>(all: seq<T>, offset: int, limit: int)
    requires offset >= 0 && limit >= 1
    ensures Slice(all, offset, |all|) == Slice(all, offset, limit) + Slice(all, offset + limit, |all|)
    ensures |Slice(all, offset, limit)| < limit ==> Slice(all, offset + limit, |all|) == []
    ensures |Slice(all, offset, limit)| == limit ==> offset + limit <= |all|
  {
  }

  lemma CutPageIsShort<T>(all: seq<T>, offset: int, count: int)
    requires offset >= 0 && count >= 0
    ensures |Slice(all, offset, count)| <= count
  {
  }

  /** A negative offset is passed on as it is; what such a request returns is up to the server. */
  method CollectAll<F, T, E>(req: Option<Request<F>>, fetch: (int, int) -> Result<seq<T>, E>, ghost all: seq<T>, ghost cap: int)
    returns (r: Result<seq<T>, E>)
    requires LimitOf(req) >= 1 && Serves(fetch, all, cap)
    ensures r.Success? && OffsetOf(req) >= 0 ==> r.value == Collected(all, OffsetOf(req), LimitOf(req), cap)
    ensures r.Failure? ==> exists offset :: fetch(LimitOf(req), offset) == Failure(r.error)
  {
    hide Slice, LimitOf, OffsetOf;
    var limit, offset := LimitOf(req), OffsetOf(req);
    var results: seq<T> := [];
    while true
      invariant offset >= OffsetOf(req)
      invariant OffsetOf(req) >= 0 && limit <= cap ==> results + Slice(all, offset, |all|) == Slice(all, OffsetOf(req), |all|)
      invariant OffsetOf(req) >= 0 && limit > cap ==> offset == OffsetOf(req) && results == []
      decreases |all| - offset
    {
      var resp := fetch(limit, offset);
      if resp.Failure? {
        return Failure(resp.error);
      }
      var page := resp.value;
      if offset >= 0 && limit <= cap {
        PageThenRest(all, offset, limit);
        assert results + (page + Slice(all, offset + limit, |all|)) == (results + page) + Slice(all, offset + limit, |all|);
      } else if offset >= 0 {
        CutPageIsShort(all, offset, cap);
      }
      results := results + page;
      if |page| < limit {
        return Success(results);
      }
      if offset >= 0 {
        CutPageIsShort(all, offset, limit);
      }
      offset := offset + limit;
    }
  }

  /** Nothing is lost or repeated exactly when the limit fits the server's pages or one page holds all that is left. */
  lemma CompleteIff<T>(all: seq<T>, offset: int, limit: int, cap: int)
    requires offset >= 0 && limit >= 1 && cap >= 0
    ensures Collected(all, offset, limit, cap) == Slice(all, offset, |all|) <==> limit <= cap || |all| - offset <= cap
  {
    if limit > cap && offset < |all| && offset + cap < |all| {
      assert |Slice(all, offset, cap)| == cap < |Slice(all, offset, |all|)|;
    }
  }

  // ---------------------------------------------------------------- when the loop stops

  /** The offset of the k-th request, if the loop gets that far. */
  function OffsetAt(offset: int, limit: int, k: nat): int {
    offset + k * limit
  }

  /** The loop is still running after its first k requests. */
  ghost predicate RunsPast<T, E>(fetch: (int, int) -> Result<seq<T>, E>, offset: int, limit: int, k: nat) {
    forall i: nat :: i < k ==>
      var resp := fetch(limit, OffsetAt(offset, limit, i));
      resp.Success? && |resp.value| >= limit
  }

  /** Whatever the server holds, a limit below one asks forever: no page can be shorter than that. */
  lemma SmallLimitNeverStops<T, E>(fetch: (int, int) -> Result<seq<T>, E>, offset: int, limit: int, k: nat)
    requires limit <= 0 && NeverFails(fetch)
    ensures RunsPast(fetch, offset, limit, k)
  {
  }

  /** With a limit of at least one the loop is over after at most |all| + 1 requests. */
  lemma PositiveLimitStops<T, E>(fetch: (int, int) -> Result<seq<T>, E>, all: seq<T>, cap: int, offset: int, limit: int)
    requires limit >= 1 && offset >= 0 && Serves(fetch, all, cap)
    ensures !RunsPast(fetch, offset, limit, |all| + 1)
  {
    var k := |all|;
    assert OffsetAt(offset, limit, k) >= |all| by {
      Grows(limit, k);
    }
    var resp := fetch(limit, OffsetAt(offset, limit, k));
    assert resp.Success? ==> resp.value == [];
  }

  lemma Grows(limit: int, k: nat)
    requires limit >= 1
    ensures k * limit >= k
  {
  }

  /** Against a server that answers, the loop ends exactly when the limit is positive. */
  lemma StopsIffLimitPositive<T, E>(fetch: (int, int) -> Result<seq<T>, E>, all: seq<T>, cap: int, offset: int, limit: int)
    requires offset >= 0 && Serves(fetch, all, cap) && NeverFails(fetch)
    ensures (exists k: nat :: !RunsPast(fetch, offset, limit, k)) <==> limit >= 1
  {
    if limit >= 1 {
      PositiveLimitStops(fetch, all, cap, offset, limit);
    } else {
      forall k: nat ensures RunsPast(fetch, offset, limit, k) {
        SmallLimitNeverStops(fetch, offset, limit, k);
      }
    }
  }

  /** Two items asked for two at a time of a server that gives one: the second is never fetched. */
  lemma CutPageLosesItem<T>(x: T, y: T)
    ensures Collected([x, y], 0, 2, 1) == [x] && Slice([x, y], 0, 2) == [x, y]
  {
  }

  /** Where paging starts, and how large its pages are. */
  lemma Defaults<F>(filter: F, limit: Option<int>, offset: Option<int>)
    ensures LimitOf<F>(None) == 100 && OffsetOf<F>(None) == 0
    ensures LimitOf(Some(Request(filter, limit, offset))) == (match limit case None => 100 case Some(n) => n)
    ensures OffsetOf(Some(Request(filter, limit, offset))) == (match offset case None => 0 case Some(n) => n)
  {
  }
}
