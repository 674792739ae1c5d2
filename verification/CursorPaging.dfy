/**
  Cursor pagination: the loops that collect every page, and the stream that hands items over one by one.
  A server answers each cursor with a page or an error, the same way every time it is asked.
 */
module CursorPaging {
  import opened Wrappers

  const INITIAL_CURSOR := "MA=="
  const END_CURSOR := "LTE="

  datatype Fetched<T, E> = Page(items: seq<T>, next: string) | FetchFailed(error: E)

  /** The caller's request; `filter` is everything in it but the two cursors. */
  datatype Request<F> = Request(filter: F, cursor: string, nextCursor: string)

  // ---------------------------------------------------------------- the chain of cursors

  /** The cursor the loop moves on to after c, if it moves on at all. */
  function Next<T, E>(fetch: string -> Fetched<T, E>, c: string): Option<string> {
    match fetch(c)
    case FetchFailed(_) => None
    case Page(_, next) => if next == "" || next == c || next == END_CURSOR then None else Some(next)
  }

  /** At most n pages follow the one at c. */
  ghost predicate EndsWithin<T, E>(fetch: string -> Fetched<T, E>, c: string, n: nat)
    decreases n
  {
    Next(fetch, c).None? || (n > 0 && EndsWithin(fetch, Next(fetch, c).value, n - 1))
  }

  /** The cursors fetched, in order, once c is fetched. */
  ghost function Chain<T, E>(fetch: string -> Fetched<T, E>, c: string, n: nat): seq<string>
    requires EndsWithin(fetch, c, n)
    decreases n
  {
    match Next(fetch, c)
    case None => [c]
    case Some(d) => [c] + Chain(fetch, d, n - 1)
  }

  ghost predicate Finishes<T, E>(fetch: string -> Fetched<T, E>, start: string, n: nat) {
    start == END_CURSOR || EndsWithin(fetch, start, n)
  }

  /** The cursors a whole run fetches: none at all when it starts at the end marker. */
  ghost function Visited<T, E>(fetch: string -> Fetched<T, E>, start: string, n: nat): seq<string>
    requires Finishes(fetch, start, n)
  {
    if start == END_CURSOR then [] else Chain(fetch, start, n)
  }

  function PageItems<T, E>(fetch: string -> Fetched<T, E>, c: string): seq<T> {
    match fetch(c)
    case FetchFailed(_) => []
    case Page(items, _) => items
  }

  /** The items of a list of pages, one page after the other. */
  ghost function ItemsOf<T, E>(fetch: string -> Fetched<T, E>, cursors: seq<string>): seq<T> {
    if cursors == [] then [] else PageItems(fetch, cursors[0]) + ItemsOf(fetch, cursors[1..])
  }

  /** The error that ends a run: only the last page fetched can have one. */
  ghost function FinalError<T, E>(fetch: string -> Fetched<T, E>, cursors: seq<string>): Option<E> {
    if cursors == [] then None
    else match fetch(cursors[|cursors| - 1])
      case FetchFailed(e) => Some(e)
      case Page(_, _) => None
  }

  /** Collecting everything: all items in page order, or the error and no items. */
  ghost function AllPages<T, E>(fetch: string -> Fetched<T, E>, start: string, n: nat): Result<seq<T>, E>
    requires Finishes(fetch, start, n)
  {
    var cursors := Visited(fetch, start, n);
    match FinalError(fetch, cursors)
    case None => Success(ItemsOf(fetch, cursors))
    case Some(e) => Failure(e)
  }

  /** A link that ends the loop: empty, the same cursor again, or the end marker. */
  predicate EndsLoop(c: string, next: string) {
    next == "" || next == c || next == "LTE="
  }

  /** The chain follows the server's links, page by page, to the first error or link that ends the loop. */
  lemma {:induction false} ChainFollowsLinks<T, E>(fetch: string -> Fetched<T, E>, c: string, n: nat)
    requires EndsWithin(fetch, c, n)
    ensures var cs := Chain(fetch, c, n);
            && 1 <= |cs| <= n + 1 && cs[0] == c
            && (forall i :: 0 <= i < |cs| - 1 ==>
                  fetch(cs[i]).Page? && fetch(cs[i]).next == cs[i + 1] && !EndsLoop(cs[i], cs[i + 1]))
            && var last := fetch(cs[|cs| - 1]);
               last.FetchFailed? || EndsLoop(cs[|cs| - 1], last.next)
    decreases n
  {
    NextIs(fetch, c);
    hide Next, EndsLoop;
    match Next(fetch, c)
    case None =>
    case Some(d) =>
      ChainFollowsLinks(fetch, d, n - 1);
      assert Chain(fetch, c, n) == [c] + Chain(fetch, d, n - 1);
  }

  lemma NextIs<T, E>(fetch: string -> Fetched<T, E>, c: string)
    ensures Next(fetch, c).None? <==> fetch(c).FetchFailed? || EndsLoop(c, fetch(c).next)
    ensures Next(fetch, c).Some? ==> fetch(c).Page? && Next(fetch, c).value == fetch(c).next
  {
  }

  /** Pages are laid end to end, in the order of their cursors. */
  lemma {:induction false} PagesInOrder<T, E>(fetch: string -> Fetched<T, E>, xs: seq<string>, ys: seq<string>)
    ensures ItemsOf(fetch, xs + ys) == ItemsOf(fetch, xs) + ItemsOf(fetch, ys)
  {
    hide PageItems;
    if xs == [] {
      assert xs + ys == ys;
    } else {
      assert (xs + ys)[0] == xs[0] && (xs + ys)[1..] == xs[1..] + ys;
      PagesInOrder(fetch, xs[1..], ys);
      Regroup(PageItems(fetch, xs[0]), ItemsOf(fetch, xs[1..]), ItemsOf(fetch, ys));
    }
  }

  lemma Regroup<T>(a: seq<T>, b: seq<T>, c: seq<T>)
    ensures (a + b) + c == a + (b + c)
  {
  }

  lemma OnePage<T, E>(fetch: string -> Fetched<T, E>, c: string)
    ensures ItemsOf(fetch, [c]) == if fetch(c).Page? then fetch(c).items else []
  {
    assert [c][1..] == [];
  }

  /** A chain visits no cursor twice, so a chain that comes back to one of its cursors never ends. */
  lemma {:induction false} ChainNeverRepeats<T, E>(fetch: string -> Fetched<T, E>, c: string, n: nat, i: nat, j: nat)
    requires EndsWithin(fetch, c, n)
    requires i < j < |Chain(fetch, c, n)|
    ensures Chain(fetch, c, n)[i] != Chain(fetch, c, n)[j]
    decreases n
  {
    var cs := Chain(fetch, c, n);
    var d := Next(fetch, c).value;
    var rest := Chain(fetch, d, n - 1);
    if i > 0 {
      ChainNeverRepeats(fetch, d, n - 1, i - 1, j - 1);
    } else {
      ChainFrom(fetch, c, n, j);
      SameChain(fetch, c, n, n - j);
    }
  }

  lemma {:induction false} ChainFrom<T, E>(fetch: string -> Fetched<T, E>, c: string, n: nat, j: nat)
    requires EndsWithin(fetch, c, n)
    requires j < |Chain(fetch, c, n)|
    ensures j <= n && EndsWithin(fetch, Chain(fetch, c, n)[j], n - j)
    ensures |Chain(fetch, Chain(fetch, c, n)[j], n - j)| == |Chain(fetch, c, n)| - j
    decreases n
  {
    if j == 0 {
    } else {
      ChainFrom(fetch, Next(fetch, c).value, n - 1, j - 1);
    }
  }

  lemma {:induction false} SameChain<T, E>(fetch: string -> Fetched<T, E>, c: string, n: nat, m: nat)
    requires EndsWithin(fetch, c, n)
    ensures EndsWithin(fetch, c, m) ==> Chain(fetch, c, n) == Chain(fetch, c, m)
    decreases n
  {
    if Next(fetch, c).None? {
    } else if EndsWithin(fetch, c, m) {
      SameChain(fetch, Next(fetch, c).value, n - 1, m - 1);
    }
  }

  // ---------------------------------------------------------------- collecting

  lemma ItemsOfMore<T, E>(fetch: string -> Fetched<T, E>, c: string, n: nat)
    requires EndsWithin(fetch, c, n)
    ensures ItemsOf(fetch, Chain(fetch, c, n))
            == match Next(fetch, c)
               case None => PageItems(fetch, c)
               case Some(d) => PageItems(fetch, c) + ItemsOf(fetch, Chain(fetch, d, n - 1))
    ensures FinalError(fetch, Chain(fetch, c, n))
            == match Next(fetch, c)
               case None => if fetch(c).FetchFailed? then Some(fetch(c).error) else None
               case Some(d) => FinalError(fetch, Chain(fetch, d, n - 1))
  {
    match Next(fetch, c)
    case None =>
      assert Chain(fetch, c, n)[1..] == [];
    case Some(d) =>
      assert Chain(fetch, c, n)[1..] == Chain(fetch, d, n - 1);
  }

  /** One turn of a loop over the chain. */
  lemma Turn<T, E>(fetch: string -> Fetched<T, E>, c: string, n: nat)
    requires EndsWithin(fetch, c, n)
    ensures var whole, page := ItemsOf(fetch, Chain(fetch, c, n)), fetch(c);
            var error := FinalError(fetch, Chain(fetch, c, n));
            if page.FetchFailed? then whole == [] && error == Some(page.error)
            else if page.next == "" || page.next == c || page.next == END_CURSOR then whole == page.items && error == None
            else
              && n > 0 && EndsWithin(fetch, page.next, n - 1)
              && whole == page.items + ItemsOf(fetch, Chain(fetch, page.next, n - 1))
              && error == FinalError(fetch, Chain(fetch, page.next, n - 1))
  {
    hide FinalError, ItemsOf, Chain;
    ItemsOfMore(fetch, c, n);
  }

  /** The loop shared by every collecting call. */
  method CollectPages<T, E>(fetch: string -> Fetched<T, E>, start: string, ghost n: nat)
    returns (r: Result<seq<T>, E>)
    requires Finishes(fetch, start, n)
    ensures r == AllPages(fetch, start, n)
  {
    var results: seq<T> := [];
    var cursor := start;
    ghost var left := n;
    while cursor != END_CURSOR
      invariant cursor != END_CURSOR ==>
                  && EndsWithin(fetch, cursor, left)
                  && results + ItemsOf(fetch, Chain(fetch, cursor, left)) == ItemsOf(fetch, Visited(fetch, start, n))
                  && FinalError(fetch, Chain(fetch, cursor, left)) == FinalError(fetch, Visited(fetch, start, n))
      invariant cursor == END_CURSOR ==> Success(results) == AllPages(fetch, start, n)
      decreases cursor != END_CURSOR, left
    {
      Turn(fetch, cursor, left);
      var resp := fetch(cursor);
      if resp.FetchFailed? {
        return Failure(resp.error);
      }
      results := results + resp.items;
      if resp.next == "" || resp.next == cursor {
        return Success(results);
      }
      cursor, left := resp.next, if resp.next != END_CURSOR then left - 1 else 0;
    }
    return Success(results);
  }

  // ---------------------------------------------------------------- the collecting calls

  /** One page of orders, trades or builder trades: the newer cursor field wins. */
  function Orders<F, T, E>(server: (F, string) -> Fetched<T, E>, req: Request<F>): Fetched<T, E> {
    server(req.filter, if req.nextCursor != "" then req.nextCursor else req.cursor)
  }

  function Markets<F, T, E>(server: (F, string) -> Fetched<T, E>, req: Request<F>): Fetched<T, E> {
    server(req.filter, req.cursor)
  }

  function OrdersStart<F>(req: Option<Request<F>>): string {
    if req.Some? && req.value.nextCursor != "" then req.value.nextCursor
    else if req.Some? && req.value.cursor != "" then req.value.cursor
    else INITIAL_CURSOR
  }

  function MarketsStart<F>(req: Option<Request<F>>): string {
    if req.Some? && req.value.cursor != "" then req.value.cursor else INITIAL_CURSOR
  }

  /** Where collecting starts. */
  lemma StartCursors<F>(filter: F, cursor: string, next: string)
    ensures OrdersStart<F>(None) == MarketsStart<F>(None) == "MA=="
    ensures next != "" ==> OrdersStart(Some(Request(filter, cursor, next))) == next
    ensures next == "" && cursor != "" ==> OrdersStart(Some(Request(filter, cursor, next))) == cursor
    ensures next == cursor == "" ==> OrdersStart(Some(Request(filter, cursor, next))) == "MA=="
    ensures MarketsStart(Some(Request(filter, cursor, next))) == if cursor != "" then cursor else "MA=="
  {
  }

  /** What the server says under the caller's filter; `zero` is the filter of an absent request. */
  function Filtered<F, T, E>(server: (F, string) -> Fetched<T, E>, req: Option<Request<F>>, zero: F): string -> Fetched<T, E> {
    var filter := if req.Some? then req.value.filter else zero;
    c => server(filter, c)
  }

  /** Orders, trades and builder trades all collect this way. */
  method OrdersAll<F, T, E>(server: (F, string) -> Fetched<T, E>, req: Option<Request<F>>, zero: F, ghost n: nat)
    returns (r: Result<seq<T>, E>)
    requires Finishes(Filtered(server, req, zero), OrdersStart(req), n)
    ensures r == AllPages(Filtered(server, req, zero), OrdersStart(req), n)
  {
    var nextReq := if req.Some? then req.value else Request(zero, "", "");
    var page := c => Orders(server, nextReq.(nextCursor := c));
    AllPagesOfSameServer(Filtered(server, req, zero), page, OrdersStart(req), n);
    r := CollectPages(page, OrdersStart(req), n);
  }

  method MarketsAll<F, T, E>(server: (F, string) -> Fetched<T, E>, req: Option<Request<F>>, zero: F, ghost n: nat)
    returns (r: Result<seq<T>, E>)
    requires Finishes(Filtered(server, req, zero), MarketsStart(req), n)
    ensures r == AllPages(Filtered(server, req, zero), MarketsStart(req), n)
  {
    var nextReq := if req.Some? then req.value else Request(zero, "", "");
    var page := c => Markets(server, nextReq.(cursor := c));
    AllPagesOfSameServer(Filtered(server, req, zero), page, MarketsStart(req), n);
    r := CollectPages(page, MarketsStart(req), n);
  }

  /** Only the answers to non-empty cursors matter. */
  ghost predicate SameAnswers<T, E>(f: string -> Fetched<T, E>, g: string -> Fetched<T, E>) {
    forall c :: c != "" ==> f(c) == g(c)
  }

  lemma {:induction false} SameAnswersSameChain<T, E>(f: string -> Fetched<T, E>, g: string -> Fetched<T, E>, c: string, n: nat)
    requires SameAnswers(f, g) && c != "" && EndsWithin(f, c, n)
    ensures EndsWithin(g, c, n) && Chain(g, c, n) == Chain(f, c, n)
    ensures ItemsOf(g, Chain(g, c, n)) == ItemsOf(f, Chain(f, c, n))
    ensures FinalError(g, Chain(g, c, n)) == FinalError(f, Chain(f, c, n))
    decreases n
  {
    assert f(c) == g(c);
    if Next(f, c).None? {
    } else {
      SameAnswersSameChain(f, g, Next(f, c).value, n - 1);
    }
    ItemsOfMore(f, c, n);
    ItemsOfMore(g, c, n);
  }

  lemma AllPagesOfSameServer<T, E>(f: string -> Fetched<T, E>, g: string -> Fetched<T, E>, start: string, n: nat)
    requires SameAnswers(f, g) && start != "" && Finishes(f, start, n)
    ensures Finishes(g, start, n) && AllPages(g, start, n) == AllPages(f, start, n)
  {
    hide Next;
    if start != END_CURSOR {
      SameAnswersSameChain(f, g, start, n);
    }
  }
}
