/**
  Streams of the order-book client: opening one counts its assets, closing it gives them back, and the
  server is told about the first and the last reference of each asset.
 */
module WsStreams {
  import opened Wrappers
  import opened RefCounts

  /** What a user subscription authenticates with. */
  type Auth = string

  datatype OpenError = AssetsRequired | NotConnected | WriteFailed

  /** A stream's registration; closing it works once. */
  class SubscriptionEntry {
    var closed: bool

    constructor ()
      ensures !closed
    {
      closed := false;
    }

    method Close() returns (first: bool)
      modifies this
      ensures first == !old(closed) && closed
    {
      if closed {
        return false;
      }
      closed := true;
      return true;
    }
  }

  /** Closes every entry and empties the map. */
  method CloseSubMap(subs: map<nat, SubscriptionEntry>) returns (left: map<nat, SubscriptionEntry>)
    modifies subs.Values
    ensures left == map[]
    ensures forall id :: id in subs ==> subs[id].closed
  {
    var pending := subs.Keys;
    while pending != {}
      invariant pending <= subs.Keys
      invariant forall id :: id in subs && id !in pending ==> subs[id].closed
      decreases pending
    {
      var id :| id in pending;
      var _ := subs[id].Close();
      pending := pending - {id};
    }
    left := map[];
  }

  /** The ids of a map, in whatever order it yields them. */
  method ListIds(refs: Refs) returns (ids: seq<string>)
    ensures Distinct(ids) && forall id :: id in ids <==> id in refs
  {
    ids := [];
    var pending := refs.Keys;
    while pending != {}
      invariant pending <= refs.Keys
      invariant Distinct(ids)
      invariant forall id :: id in ids <==> id in refs && id !in pending
      decreases pending
    {
      var id :| id in pending;
      ids := ids + [id];
      pending := pending - {id};
    }
  }

  class WsClient {
    var marketRefs: Refs
    var userRefs: Refs
    var customFeatures: bool
    var lastAuth: Option<Auth>
    var subs: map<nat, SubscriptionEntry>
    var nextSubID: nat

    ghost predicate Valid()
      reads this
    {
      Positive(marketRefs) && Positive(userRefs) && forall id :: id in subs ==> id <= nextSubID
    }

    constructor ()
      ensures Valid() && marketRefs == map[] && userRefs == map[] && subs == map[] && !customFeatures && lastAuth == None
    {
      marketRefs, userRefs, customFeatures, lastAuth, subs, nextSubID := map[], map[], false, None, map[], 0;
    }

    method AddMarketRefs(ids: seq<string>, custom: bool) returns (announce: seq<string>)
      requires Valid()
      modifies this`marketRefs, this`customFeatures
      ensures Valid()
      ensures marketRefs == Added(old(marketRefs), ids) && announce == Fresh(old(marketRefs), ids)
      ensures customFeatures == (old(customFeatures) || (custom && ids != []))
    {
      AddedCounts(marketRefs, ids);
      if ids == [] {
        return [];
      }
      if custom {
        customFeatures := true;
      }
      marketRefs, announce := AddRefs(marketRefs, ids);
    }

    method RemoveMarketRefs(ids: seq<string>) returns (dropped: seq<string>)
      requires Valid()
      modifies this`marketRefs
      ensures Valid()
      ensures marketRefs == Removed(old(marketRefs), ids) && dropped == Dropped(old(marketRefs), ids)
    {
      RemovedCounts(marketRefs, ids);
      marketRefs, dropped := RemoveRefs(marketRefs, ids);
    }

    method AddUserRefs(ids: seq<string>, auth: Option<Auth>) returns (announce: seq<string>)
      requires Valid()
      modifies this`userRefs, this`lastAuth
      ensures Valid()
      ensures userRefs == Added(old(userRefs), ids) && announce == Fresh(old(userRefs), ids)
      ensures lastAuth == if ids != [] && auth.Some? then auth else old(lastAuth)
    {
      AddedCounts(userRefs, ids);
      if ids == [] {
        return [];
      }
      if auth.Some? {
        lastAuth := auth;
      }
      userRefs, announce := AddRefs(userRefs, ids);
    }

    method RemoveUserRefs(ids: seq<string>) returns (dropped: seq<string>)
      requires Valid()
      modifies this`userRefs
      ensures Valid()
      ensures userRefs == Removed(old(userRefs), ids) && dropped == Dropped(old(userRefs), ids)
    {
      RemovedCounts(userRefs, ids);
      userRefs, dropped := RemoveRefs(userRefs, ids);
    }

    /** `connected` is whether a connection could be had, `writeOk` whether the subscribe could be written. */
    method SubscribeMarketStream(ids: seq<string>, custom: bool, connected: bool, writeOk: bool)
      returns (r: Result<SubscriptionEntry, OpenError>, sent: seq<string>)
      requires Valid()
      modifies this
      ensures Valid() && userRefs == old(userRefs) && lastAuth == old(lastAuth)
      ensures ids == [] ==> r == Failure(AssetsRequired) && marketRefs == old(marketRefs) && sent == []
      ensures ids != [] ==> marketRefs == Added(old(marketRefs), ids)
      ensures ids != [] && !connected ==> r == Failure(NotConnected) && sent == []
      ensures ids != [] && connected ==> sent == Fresh(old(marketRefs), ids)
      ensures ids != [] && connected ==> (r.Success? <==> sent == [] || writeOk)
      ensures r.Success? ==> fresh(r.value) && !r.value.closed
                             && nextSubID == old(nextSubID) + 1 && subs == old(subs)[nextSubID := r.value]
      ensures r.Failure? ==> subs == old(subs)
    {
      sent := [];
      if ids == [] {
        return Failure(AssetsRequired), sent;
      }
      var announce := AddMarketRefs(ids, custom);
      if !connected {
        return Failure(NotConnected), sent;
      }
      if |announce| > 0 {
        sent := announce;
        if !writeOk {
          return Failure(WriteFailed), sent;
        }
      }
      var entry := new SubscriptionEntry();
      nextSubID := nextSubID + 1;
      subs := subs[nextSubID := entry];
      return Success(entry), sent;
    }

    /**
      Closing a stream a second time, or after the client closed all streams, changes nothing. The dropped assets
      are sent in one unsubscribe if there are any and there is a connection.
     */
    method CloseMarketStream(id: nat, entry: SubscriptionEntry, ids: seq<string>, connected: bool)
      returns (unsubscribe: Option<seq<string>>)
      requires Valid()
      modifies this`subs, this`marketRefs, entry
      ensures Valid() && entry.closed
      ensures old(entry.closed) ==> marketRefs == old(marketRefs) && subs == old(subs) && unsubscribe == None
      ensures !old(entry.closed) ==> marketRefs == Removed(old(marketRefs), ids) && subs == old(subs) - {id}
      ensures !old(entry.closed) ==>
                var dropped := Dropped(old(marketRefs), ids);
                unsubscribe == if dropped != [] && connected then Some(dropped) else None
    {
      var first := entry.Close();
      if !first {
        return None;
      }
      subs := subs - {id};
      var dropped := RemoveMarketRefs(ids);
      if |dropped| == 0 || !connected {
        return None;
      }
      return Some(dropped);
    }

    /** What a reconnect announces: every asset and market with references, once, and how to subscribe to them. */
    method SnapshotSubscriptionRefs()
      returns (assets: seq<string>, markets: seq<string>, custom: bool, auth: Option<Auth>)
      ensures Distinct(assets) && forall id :: id in assets <==> id in marketRefs
      ensures Distinct(markets) && forall id :: id in markets <==> id in userRefs
      ensures custom == customFeatures && auth == lastAuth
    {
      assets := ListIds(marketRefs);
      markets := ListIds(userRefs);
      custom, auth := customFeatures, lastAuth;
    }

    /** Client shutdown: streams are closed without giving their references back. */
    method CloseAllStreams()
      modifies this`subs, subs.Values
      ensures subs == map[] && forall id :: id in old(subs) ==> old(subs)[id].closed
    {
      subs := CloseSubMap(subs);
    }
  }
}
