/**
  The stream over a cursor chain: a producer that fetches pages and sends their items one at a time,
  until the chain ends, a fetch fails or the consumer cancels.
 */
module CursorStream {
  import opened Wrappers
  import opened CursorPaging

  datatype Emitted<T, E> = Item(item: T) | Error(error: E)

  /**
    What happens around the producer, indexed by its steps (checks, fetches and sends): whether the context
    is cancelled, whether a send goes through rather than giving way to cancellation, and whether a fetch fails.
   */
  datatype World<E> = World(cancelled: nat -> bool, sends: nat -> bool, fails: nat -> Option<E>)

  /** Cancellation is final, and a send is given up only for a cancellation. */
  ghost predicate Fair<E>(w: World<E>) {
    && (forall t: nat :: w.cancelled(t) ==> w.cancelled(t + 1))
    && (forall t: nat :: !w.sends(t) ==> w.cancelled(t + 1))
  }

  ghost predicate Undisturbed<E>(w: World<E>) {
    && (forall t: nat :: !w.cancelled(t))
    && (forall t: nat :: w.fails(t).None?)
  }

  ghost function Sent<T, E>(items: seq<T>): (out: seq<Emitted<T, E>>)
    ensures |out| == |items|
  {
    seq(|items|, i requires 0 <= i < |items| => Item(items[i]))
  }

  function StreamStart(cursor: string): string {
    if cursor == "" then INITIAL_CURSOR else cursor
  }

  function FetchAt<T, E>(fetch: string -> Fetched<T, E>, w: World<E>, t: nat, cursor: string): Fetched<T, E> {
    if w.fails(t).Some? then FetchFailed(w.fails(t).value) else fetch(cursor)
  }

  ghost function Items<T, E>(fetch: string -> Fetched<T, E>, start: string, n: nat): seq<T>
    requires Finishes(fetch, start, n)
  {
    ItemsOf(fetch, Visited(fetch, start, n))
  }

  lemma SentMore<T, E>(a: seq<T>, b: seq<T>)
    ensures Sent<T, E>(a + b) == Sent(a) + Sent(b)
  {
  }

  /** Errors a run may end with, after k items: the last fetch was two steps before the end if it failed. */
  ghost predicate MayFail<T, E>(e: E, k: nat, items: seq<T>, all: Result<seq<T>, E>, w: World<E>, ctxErr: E, end: nat) {
    || (e == ctxErr && w.cancelled(end))
    || (end >= 2 && w.fails(end - 2) == Some(e))
    || (k == |items| && all == Failure(e))
  }

  /** Where a run may close its channel, having sent k items and perhaps an error. */
  ghost predicate ClosesWell<T, E>(out: seq<Emitted<T, E>>, k: nat, items: seq<T>, all: Result<seq<T>, E>,
                                   w: World<E>, ctxErr: E, end: nat) {
    && k <= |items|
    && (|| (out == Sent(items[..k]) && (w.cancelled(end) || (k == |items| && all.Success?)))
        || (&& |out| == k + 1 && out[k].Error?
            && out == Sent(items[..k]) + [Error(out[k].error)]
            && MayFail(out[k].error, k, items, all, w, ctxErr, end)))
  }

  /** Sends an error, unless the context is cancelled first. */
  method SendError<T, E>(e: E, w: World<E>, t: nat) returns (out: seq<Emitted<T, E>>, end: nat)
    requires Fair(w)
    ensures end == t + 1 && (w.cancelled(t) ==> w.cancelled(end))
    ensures out == [Error(e)] || (out == [] && w.cancelled(end))
  {
    CancelledLater(w, t);
    out := if w.sends(t) then [Error(e)] else [];
    end := t + 1;
  }

  /** Sends one page's items, checking the context before each. */
  method SendPage<T, E>(items: seq<T>, w: World<E>, ctxErr: E, t: nat)
    returns (out: seq<Emitted<T, E>>, k: nat, end: nat, stopped: bool)
    requires Fair(w)
    ensures !stopped ==> k == |items| && out == Sent(items)
    ensures stopped ==> k < |items| && w.cancelled(end) && (out == Sent(items[..k]) || out == Sent(items[..k]) + [Error(ctxErr)])
  {
    hide Fair;
    out, k, end, stopped := [], 0, t, false;
    var i := 0;
    while i < |items|
      invariant 0 <= i <= |items| && k == i
      invariant out == Sent(items[..i])
    {
      CancelledLater(w, end);
      CancelledLater(w, end + 1);
      if w.cancelled(end) {
        var last;
        last, end := SendError(ctxErr, w, end + 1);
        out, stopped := out + last, true;
        return;
      }
      if !w.sends(end + 1) {
        end, stopped := end + 2, true;
        return;
      }
      out := out + [Item(items[i])];
      end, i, k := end + 2, i + 1, k + 1;
    }
    assert items[..i] == items;
  }

  /**
    `k` counts the items sent and `end` the steps taken.
    The consumer sees a prefix of the items in page order, then at most one error, which is last.
    The channel closes early without an error only if the context is cancelled.
   */
  method StreamDataWithCursor<T, E>(cursor0: string, fetch: string -> Fetched<T, E>, w: World<E>, ctxErr: E, ghost n: nat)
    returns (out: seq<Emitted<T, E>>, k: nat, end: nat)
    requires Fair(w) && Finishes(fetch, StreamStart(cursor0), n)
    ensures ClosesWell(out, k, Items(fetch, StreamStart(cursor0), n), AllPages(fetch, StreamStart(cursor0), n), w, ctxErr, end)
  {
    hide Fair, Next, ItemsOf, FinalError, Chain, EndsWithin;
    ghost var start := StreamStart(cursor0);
    ghost var all := AllPages(fetch, start, n);
    ghost var items := Items(fetch, start, n);
    var cursor := StreamStart(cursor0);
    ghost var left := n;
    NothingFetchedAtEnd(fetch);
    out, k, end := [], 0, 0;
    while cursor != END_CURSOR
      invariant k <= |items| && out == Sent(items[..k])
      invariant cursor == END_CURSOR ==> k == |items| && all.Success?
      invariant cursor != END_CURSOR ==>
                  && EndsWithin(fetch, cursor, left)
                  && items[k..] == ItemsOf(fetch, Chain(fetch, cursor, left))
                  && FinalError(fetch, Chain(fetch, cursor, left)) == FinalError(fetch, Visited(fetch, start, n))
      decreases cursor != END_CURSOR, left
    {
      var last;
      if w.cancelled(end) {
        CancelledLater(w, end);
        last, end := SendError(ctxErr, w, end + 1);
        out := out + last;
        return;
      }
      var resp := FetchAt(fetch, w, end + 1, cursor);
      end := end + 2;
      Turn(fetch, cursor, left);
      if resp.FetchFailed? {
        last, end := SendError(resp.error, w, end);
        out := out + last;
        return;
      }
      var stopped;
      var sent;
      last, sent, end, stopped := SendPage(resp.items, w, ctxErr, end);
      PageInItems(items, k, resp.items, sent);
      SentMore<T, E>(items[..k], resp.items[..sent]);
      out, k := out + last, k + sent;
      if stopped || resp.next == "" || resp.next == cursor {
        return;
      }
      cursor, left := resp.next, if resp.next != END_CURSOR then left - 1 else 0;
    }
  }

  lemma NothingFetchedAtEnd<T, E>(fetch: string -> Fetched<T, E>)
    ensures ItemsOf(fetch, []) == [] && FinalError(fetch, []) == None
  {
  }

  lemma PageInItems<T>(items: seq<T>, k: nat, page: seq<T>, sent: nat)
    requires k <= |items| && page <= items[k..] && sent <= |page|
    ensures items[..k + sent] == items[..k] + page[..sent]
    ensures items[k + sent..] == items[k..][sent..]
  {
    assert page[..sent] == items[k..][..sent];
  }

  lemma CancelledLater<E>(w: World<E>, t: nat)
    requires Fair(w)
    ensures w.cancelled(t) ==> w.cancelled(t + 1) && w.cancelled(t + 2)
    ensures !w.sends(t) ==> w.cancelled(t + 1)
  {
    assert w.cancelled(t) ==> w.cancelled(t + 1);
    assert w.cancelled(t + 1) ==> w.cancelled((t + 1) + 1);
  }

  /** Streaming and collecting agree. */
  lemma {:induction false} UndisturbedStreamsAll<T, E>(out: seq<Emitted<T, E>>, k: nat, fetch: string -> Fetched<T, E>, start: string, n: nat,
                                    w: World<E>, ctxErr: E, end: nat)
    requires Undisturbed(w) && Finishes(fetch, start, n)
    requires ClosesWell(out, k, Items(fetch, start, n), AllPages(fetch, start, n), w, ctxErr, end)
    ensures match AllPages(fetch, start, n)
            case Success(all) => out == Sent(all)
            case Failure(e) => out == Sent(Items(fetch, start, n)) + [Error(e)]
  {
    hide Visited, ItemsOf, FinalError;
    var items := Items(fetch, start, n);
    assert items[..|items|] == items;
  }

  /** A stream starts where it is told, or else at the beginning. */
  lemma StreamStarts(cursor: string)
    ensures StreamStart(cursor) == if cursor == "" then "MA==" else cursor
  {
  }
}
