/**
  The subscription registry of the live-data client: four maps that say the same thing in four ways,
  and the frames sent when the first subscriber of a key arrives and when the last one leaves.
 */
module RtdsRegistries {
  import opened Wrappers
  import Text

  /** A topic and message type, joined by '|'. */
  datatype Key = Key(text: string)

  /** What is sent to the server; filters and credentials travel as one opaque payload. */
  datatype Subscription = Subscription(topic: string, msgType: string, payload: string)

  /** An entry's id is its key and a serial number; IdText is how it is written out. */
  datatype Id = Id(key: Key, serial: nat)
  datatype Entry = Entry(id: Id, key: Key, topic: string, msgType: string)

  datatype Frame = SubscribeFrame(subs: seq<Subscription>) | UnsubscribeFrame(sub: Subscription)

  datatype RtdsError = InvalidSubscription | ClosedBeforeConnected | SendFailed

  datatype Registry = Registry(
    subRefs: map<Key, int>, subDetails: map<Key, Subscription>,
    subs: map<Id, Entry>, subsByKey: map<Key, map<Id, Entry>>, nextSubID: nat)

  const EMPTY := Registry(map[], map[], map[], map[], 0)

  function SubscriptionKey(topic: string, msgType: string): Key {
    Key(topic + "|" + msgType)
  }

  function KeyOf(sub: Subscription): Key {
    SubscriptionKey(sub.topic, sub.msgType)
  }

  function Count(refs: map<Key, int>, key: Key): int {
    if key in refs then refs[key] else 0
  }

  predicate WellFormed(sub: Subscription) {
    Text.TrimSpace(sub.topic) != "" && Text.TrimSpace(sub.msgType) != ""
  }

  // ---------------------------------------------------------------- the critical sections

  /** The frame a new subscriber causes, if any. */
  function SubscribeFrames(r: Registry, sub: Subscription): Option<Frame> {
    if Count(r.subRefs, KeyOf(sub)) == 0 then Some(SubscribeFrame([sub])) else None
  }

  function Subscribed(r: Registry, sub: Subscription): (Registry, Entry) {
    var key := KeyOf(sub);
    var serial := r.nextSubID + 1;
    var entry := Entry(Id(key, serial), key, sub.topic, sub.msgType);
    var bucket := if key in r.subsByKey then r.subsByKey[key] else map[];
    (Registry(r.subRefs[key := Count(r.subRefs, key) + 1], r.subDetails[key := sub], r.subs[entry.id := entry],
              r.subsByKey[key := bucket[entry.id := entry]], serial),
     entry)
  }

  /** The frame that the last subscriber's departure causes, if any. */
  function UnsubscribeFrames(r: Registry, id: Id): Option<Frame> {
    if id in r.subs && Count(r.subRefs, r.subs[id].key) <= 1
    then Some(UnsubscribeFrame(Subscription(r.subs[id].topic, r.subs[id].msgType, "")))
    else None
  }

  function Unsubscribed(r: Registry, id: Id): Registry {
    if id !in r.subs then r
    else
      var key := r.subs[id].key;
      var bucket := if key in r.subsByKey then r.subsByKey[key] - {id} else map[];
      var byKey := if key !in r.subsByKey then r.subsByKey
                   else if bucket == map[] then r.subsByKey - {key}
                   else r.subsByKey[key := bucket];
      var last := Count(r.subRefs, key) <= 1;
      Registry(if last then r.subRefs - {key} else r.subRefs[key := Count(r.subRefs, key) - 1],
               if last then r.subDetails - {key} else r.subDetails,
               r.subs - {id}, byKey, r.nextSubID)
  }

  // ---------------------------------------------------------------- the client object

  class RtdsClient {
    var subRefs: map<Key, int>
    var subDetails: map<Key, Subscription>
    var subs: map<Id, Entry>
    var subsByKey: map<Key, map<Id, Entry>>
    var nextSubID: nat
    // entries whose channels have been closed
    var closed: set<Id>

    function State(): Registry
      reads this
    {
      Registry(subRefs, subDetails, subs, subsByKey, nextSubID)
    }

    constructor ()
      ensures State() == EMPTY && closed == {}
    {
      subRefs, subDetails, subs, subsByKey, nextSubID, closed := map[], map[], map[], map[], 0, {};
    }

    /** `ready` is whether the connection came up before the client was closed; `sendOk` is the outcome of a write. */
    method SubscribeRaw(sub: Subscription, ready: bool, sendOk: bool) returns (r: Result<Entry, RtdsError>, sent: Option<Frame>)
      modifies this
      ensures closed == old(closed)
      ensures !WellFormed(sub) ==> r == Failure(InvalidSubscription) && sent == None && State() == old(State())
      ensures WellFormed(sub) && !ready ==> r == Failure(ClosedBeforeConnected) && sent == None && State() == old(State())
      ensures WellFormed(sub) && ready ==>
                && sent == SubscribeFrames(old(State()), sub)
                && if sent.Some? && !sendOk then r == Failure(SendFailed) && State() == old(State())
                   else r.Success? && (State(), r.value) == Subscribed(old(State()), sub)
    {
      hide SubscriptionKey, Text.TrimSpace;
      sent := None;
      if Text.TrimSpace(sub.topic) == "" || Text.TrimSpace(sub.msgType) == "" {
        return Failure(InvalidSubscription), sent;
      }
      if !ready {
        return Failure(ClosedBeforeConnected), sent;
      }
      var key := SubscriptionKey(sub.topic, sub.msgType);
      if Count(subRefs, key) == 0 {
        sent := Some(SubscribeFrame([sub]));
        if !sendOk {
          return Failure(SendFailed), sent;
        }
      }
      var bucket := if key in subsByKey then subsByKey[key] else map[];
      subRefs := subRefs[key := Count(subRefs, key) + 1];
      subDetails := subDetails[key := sub];
      nextSubID := nextSubID + 1;
      var entry := Entry(Id(key, nextSubID), key, sub.topic, sub.msgType);
      subs := subs[entry.id := entry];
      subsByKey := subsByKey[key := bucket[entry.id := entry]];
      return Success(entry), sent;
    }

    method UnsubscribeByID(id: Id, sendOk: bool) returns (ok: bool, sent: Option<Frame>)
      modifies this
      ensures sent == UnsubscribeFrames(old(State()), id) && ok == (sent.None? || sendOk)
      ensures State() == Unsubscribed(old(State()), id)
      ensures closed == if id in old(subs) then old(closed) + {id} else old(closed)
    {
      ok, sent := true, None;
      if id !in subs {
        return;
      }
      var entry := subs[id];
      subs := subs - {id};
      if entry.key in subsByKey {
        var byKey := subsByKey[entry.key] - {id};
        if byKey == map[] {
          subsByKey := subsByKey - {entry.key};
        } else {
          subsByKey := subsByKey[entry.key := byKey];
        }
      }
      var count := Count(subRefs, entry.key);
      if count <= 1 {
        subRefs := subRefs - {entry.key};
        subDetails := subDetails - {entry.key};
        sent := Some(UnsubscribeFrame(Subscription(entry.topic, entry.msgType, "")));
        ok := sendOk;
      } else {
        subRefs := subRefs[entry.key := count - 1];
      }
      closed := closed + {id};
    }

    /** Drops one subscriber of the topic, whichever the map happens to yield first. */
    method UnsubscribeTopic(topic: string, msgType: string, sendOk: bool) returns (ok: bool, sent: Option<Frame>, ghost dropped: Option<Id>)
      modifies this
      ensures var key := SubscriptionKey(topic, msgType);
              if key in old(subsByKey) && old(subsByKey[key]) != map[] then
                && dropped.Some? && dropped.value in old(subsByKey[key])
                && State() == Unsubscribed(old(State()), old(subsByKey[key][dropped.value].id))
                && sent == UnsubscribeFrames(old(State()), old(subsByKey[key][dropped.value].id))
              else State() == old(State()) && sent == None && ok && dropped == None
    {
      var key := SubscriptionKey(topic, msgType);
      ok, sent, dropped := true, None, None;
      if key in subsByKey && subsByKey[key] != map[] {
        EmptyMap(subsByKey[key]);
        var id :| id in subsByKey[key].Keys;
        dropped := Some(id);
        ok, sent := UnsubscribeByID(subsByKey[key][id].id, sendOk);
      }
    }

    method CloseAllSubscriptions()
      modifies this
      ensures State() == EMPTY.(nextSubID := old(nextSubID))
      ensures closed == old(closed) + old(subs).Keys
    {
      closed := closed + subs.Keys;
      subs, subsByKey, subRefs, subDetails := map[], map[], map[], map[];
    }

    /** The subscriptions a new connection is told about. */
    method ResubscribeAll() returns (frame: Option<Frame>)
      ensures frame.None? <==> subDetails == map[]
      ensures frame.Some? ==>
                && frame.value.SubscribeFrame? && |frame.value.subs| == |subDetails|
                && (forall sub :: sub in frame.value.subs <==> sub in subDetails.Values)
    {
      var pending := subDetails.Keys;
      var list: seq<Subscription> := [];
      while pending != {}
        invariant pending <= subDetails.Keys && |list| + |pending| == |subDetails|
        invariant forall sub :: sub in list ==> sub in subDetails.Values
        invariant forall key :: key in subDetails ==> key in pending || subDetails[key] in list
        decreases pending
      {
        var key :| key in pending;
        list := list + [subDetails[key]];
        pending := pending - {key};
      }
      EmptyMap(subDetails);
      frame := if list == [] then None else Some(SubscribeFrame(list));
    }
  }

  lemma EmptyMap<K, V>(m: map<K, V>)
    ensures m == map[] <==> m.Keys == {}
  {
    if m.Keys == {} {
      assert m == map[];
    }
  }

  // ---------------------------------------------------------------- the four maps agree

  ghost predicate SameKeys(r: Registry) {
    forall key :: (key in r.subRefs <==> key in r.subDetails) && (key in r.subRefs <==> key in r.subsByKey)
  }

  /** The ids registered under a key, read off the main map. */
  ghost function IdsOf(r: Registry, key: Key): set<Id> {
    set id | id in r.subs && r.subs[id].key == key
  }

  /** id is the only subscriber of its key. */
  ghost predicate Alone(r: Registry, id: Id) {
    IdsOf(r, id.key) == {id}
  }

  ghost predicate BucketKeys(r: Registry) {
    forall key :: key in r.subsByKey ==> r.subsByKey[key].Keys == IdsOf(r, key)
  }

  ghost predicate BucketEntries(r: Registry) {
    forall key, id :: key in r.subsByKey && id in r.subsByKey[key] ==>
      id in r.subs && r.subsByKey[key][id] == r.subs[id]
  }

  /** The main map is the disjoint union of the buckets. */
  ghost predicate Buckets(r: Registry) {
    BucketKeys(r) && BucketEntries(r)
  }

  ghost predicate Entries(r: Registry) {
    forall id :: id in r.subs ==>
      && r.subs[id].id == id && r.subs[id].key == id.key && id.serial <= r.nextSubID
      && id.key == SubscriptionKey(r.subs[id].topic, r.subs[id].msgType)
      && id.key in r.subsByKey
  }

  ghost predicate Counts(r: Registry) {
    forall key :: key in r.subRefs ==> r.subRefs[key] == |IdsOf(r, key)| >= 1
  }

  ghost predicate Details(r: Registry) {
    forall key :: key in r.subDetails ==> KeyOf(r.subDetails[key]) == key
  }

  ghost predicate Consistent(r: Registry) {
    SameKeys(r) && Buckets(r) && Entries(r) && Counts(r) && Details(r)
  }

  lemma SubscribedIds(r: Registry, sub: Subscription)
    requires Entries(r)
    ensures var (r', entry) := Subscribed(r, sub);
            && entry.id !in r.subs
            && forall k :: IdsOf(r', k) == if k == KeyOf(sub) then IdsOf(r, k) + {entry.id} else IdsOf(r, k)
  {
    hide SubscriptionKey;
    var (r', entry) := Subscribed(r, sub);
    assert entry.id !in r.subs;
    forall k ensures IdsOf(r', k) == if k == KeyOf(sub) then IdsOf(r, k) + {entry.id} else IdsOf(r, k) {
    }
  }

  lemma NewKeyHasNoIds(r: Registry, key: Key)
    requires Entries(r) && key !in r.subsByKey
    ensures IdsOf(r, key) == {}
  {
    hide SubscriptionKey;
  }

  /** The effect on the index, bucket by bucket. */
  lemma SubscribedShape(r: Registry, sub: Subscription)
    ensures var (r', entry) := Subscribed(r, sub);
            && (forall k :: k in r'.subsByKey <==> k in r.subsByKey || k == KeyOf(sub))
            && (forall k :: k in r.subsByKey && k != KeyOf(sub) ==> r'.subsByKey[k] == r.subsByKey[k])
            && r'.subsByKey[KeyOf(sub)].Keys
               == (if KeyOf(sub) in r.subsByKey then r.subsByKey[KeyOf(sub)].Keys else {}) + {entry.id}
  {
    hide KeyOf;
  }

  lemma SubscribedBucketKeys(r: Registry, sub: Subscription)
    requires SameKeys(r) && BucketKeys(r) && Entries(r)
    ensures BucketKeys(Subscribed(r, sub).0)
  {
    hide KeyOf, IdsOf, Entries, SameKeys, Subscribed;
    SubscribedShape(r, sub);
    SubscribedIds(r, sub);
    if KeyOf(sub) !in r.subsByKey {
      NewKeyHasNoIds(r, KeyOf(sub));
    }
  }

  lemma SubscribedBucketEntries(r: Registry, sub: Subscription)
    requires BucketEntries(r) && Entries(r)
    ensures BucketEntries(Subscribed(r, sub).0)
  {
    hide SubscriptionKey;
    var (r', entry) := Subscribed(r, sub);
    assert entry.id !in r.subs;
    forall k, id | k in r'.subsByKey && id in r'.subsByKey[k]
      ensures id in r'.subs && r'.subsByKey[k][id] == r'.subs[id]
    {
      if k == KeyOf(sub) {
        assert id != entry.id ==> k in r.subsByKey && id in r.subsByKey[k];
      } else {
        assert k in r.subsByKey && id in r.subsByKey[k];
      }
    }
  }

  lemma SubscribedCounts(r: Registry, sub: Subscription)
    requires SameKeys(r) && Counts(r) && Entries(r)
    ensures Counts(Subscribed(r, sub).0)
  {
    hide KeyOf, IdsOf, Entries, Subscribed;
    SubscribedIds(r, sub);
    SubscribedRefs(r, sub);
    var key := KeyOf(sub);
    var (r', entry) := Subscribed(r, sub);
    if key !in r.subRefs {
      NewKeyHasNoIds(r, key);
    }
    NewIdIsNew(r, key, entry.id);
    forall k | k in r'.subRefs ensures r'.subRefs[k] == |IdsOf(r', k)| >= 1 {
      assert k != key ==> r'.subRefs[k] == r.subRefs[k];
    }
  }

  lemma SubscribedRefs(r: Registry, sub: Subscription)
    ensures Subscribed(r, sub).0.subRefs == r.subRefs[KeyOf(sub) := Count(r.subRefs, KeyOf(sub)) + 1]
  {
    hide KeyOf;
  }

  lemma NewIdIsNew(r: Registry, key: Key, id: Id)
    requires id !in r.subs
    ensures id !in IdsOf(r, key)
  {
  }

  lemma SubscribedEntries(r: Registry, sub: Subscription)
    requires Entries(r) && Details(r)
    ensures var (r', entry) := Subscribed(r, sub);
            Entries(r') && Details(r')
  {
    hide SubscriptionKey;
  }

  lemma SubscribedConsistent(r: Registry, sub: Subscription)
    requires Consistent(r)
    ensures Consistent(Subscribed(r, sub).0)
    ensures forall k :: k in Subscribed(r, sub).0.subRefs <==> k in r.subRefs || k == KeyOf(sub)
  {
    hide SubscriptionKey, IdsOf, BucketKeys, BucketEntries, Entries, Counts, Details;
    SubscribedBucketKeys(r, sub);
    SubscribedBucketEntries(r, sub);
    SubscribedCounts(r, sub);
    SubscribedEntries(r, sub);
  }

  lemma UnsubscribedMain(r: Registry, id: Id)
    ensures Unsubscribed(r, id).subs == r.subs - {id}
  {
  }

  lemma UnsubscribedIds(r: Registry, id: Id)
    requires Entries(r) && id in r.subs
    ensures id in IdsOf(r, id.key)
    ensures forall k :: IdsOf(Unsubscribed(r, id), k) == if k == id.key then IdsOf(r, k) - {id} else IdsOf(r, k)
  {
    hide SubscriptionKey, Unsubscribed;
    UnsubscribedMain(r, id);
    forall k ensures IdsOf(Unsubscribed(r, id), k) == if k == id.key then IdsOf(r, k) - {id} else IdsOf(r, k) {
    }
  }

  /** The effect on the indexes, entry by entry. */
  lemma UnsubscribedShape(r: Registry, id: Id)
    requires id in r.subs && r.subs[id].key == id.key && id.key in r.subsByKey
    ensures var r' := Unsubscribed(r, id);
            && r'.subs == r.subs - {id} && r'.nextSubID == r.nextSubID
            && (forall k :: k != id.key ==>
                  && (k in r'.subsByKey <==> k in r.subsByKey)
                  && (k in r.subsByKey ==> r'.subsByKey[k] == r.subsByKey[k]))
            && (id.key in r'.subsByKey <==> r.subsByKey[id.key].Keys - {id} != {})
            && (id.key in r'.subsByKey ==> r'.subsByKey[id.key] == r.subsByKey[id.key] - {id})
  {
    var bucket := r.subsByKey[id.key] - {id};
    EmptyMap(bucket);
    assert bucket.Keys == r.subsByKey[id.key].Keys - {id};
  }

  lemma UnsubscribedRefs(r: Registry, id: Id)
    requires id in r.subs && r.subs[id].key == id.key
    ensures var r' := Unsubscribed(r, id);
            && (forall k :: k != id.key && k in r.subRefs ==> k in r'.subRefs && r'.subRefs[k] == r.subRefs[k])
            && (Count(r.subRefs, id.key) > 1 ==>
                  id.key in r'.subRefs && r'.subRefs[id.key] == Count(r.subRefs, id.key) - 1)
            && (forall k :: k in r'.subRefs <==>
                  (k in r.subRefs || (k == id.key && Count(r.subRefs, k) > 1)) && !(k == id.key && Count(r.subRefs, k) <= 1))
  {
  }

  lemma UnsubscribedDetails(r: Registry, id: Id)
    requires id in r.subs && r.subs[id].key == id.key
    ensures var r' := Unsubscribed(r, id);
            && (forall k :: k in r'.subDetails <==> k in r.subDetails && !(k == id.key && Count(r.subRefs, k) <= 1))
            && (forall k :: k in r'.subDetails ==> r'.subDetails[k] == r.subDetails[k])
  {
  }

  lemma UnsubscribedBucketKeys(r: Registry, id: Id)
    requires SameKeys(r) && BucketKeys(r) && Entries(r) && id in r.subs
    ensures var r' := Unsubscribed(r, id);
            && BucketKeys(r')
            && forall k :: k in r'.subsByKey <==> k in r.subsByKey && !(k == id.key && Alone(r, id))
  {
    hide SubscriptionKey, IdsOf, Entries, Unsubscribed;
    EntryKey(r, id);
    UnsubscribedIds(r, id);
    UnsubscribedShape(r, id);
    var ids := IdsOf(r, id.key);
    assert ids - {id} == {} <==> ids == {id};
  }

  lemma UnsubscribedBucketEntries(r: Registry, id: Id)
    requires BucketKeys(r) && BucketEntries(r) && Entries(r) && id in r.subs
    ensures BucketEntries(Unsubscribed(r, id))
  {
    hide SubscriptionKey, Entries, Unsubscribed;
    EntryKey(r, id);
    UnsubscribedShape(r, id);
    var r' := Unsubscribed(r, id);
    forall k, i | k in r'.subsByKey && i in r'.subsByKey[k]
      ensures i in r'.subs && r'.subsByKey[k][i] == r'.subs[i]
    {
      if k != id.key {
        assert i in IdsOf(r, k);
      }
    }
  }

  lemma UnsubscribedEntries(r: Registry, id: Id)
    requires SameKeys(r) && BucketKeys(r) && Entries(r) && id in r.subs
    ensures Entries(Unsubscribed(r, id))
  {
    hide SubscriptionKey, Unsubscribed;
    UnsubscribedShape(r, id);
    var r' := Unsubscribed(r, id);
    forall i | i in r'.subs ensures i.key in r'.subsByKey {
      assert i.key == id.key ==> i in IdsOf(r, id.key);
    }
  }

  lemma UnsubscribedCounts(r: Registry, id: Id)
    requires SameKeys(r) && Counts(r) && Entries(r) && id in r.subs
    ensures Counts(Unsubscribed(r, id))
    ensures Count(r.subRefs, id.key) <= 1 <==> Alone(r, id)
    ensures forall k :: k in Unsubscribed(r, id).subRefs <==> k in r.subRefs && !(k == id.key && Alone(r, id))
  {
    hide SubscriptionKey, IdsOf, Entries, Unsubscribed;
    EntryKey(r, id);
    UnsubscribedIds(r, id);
    UnsubscribedRefs(r, id);
    assert id.key in r.subRefs;
    LastOne(IdsOf(r, id.key), id);
  }

  lemma EntryKey(r: Registry, id: Id)
    requires Entries(r) && id in r.subs
    ensures r.subs[id].key == id.key && id.key in r.subsByKey
  {
  }

  lemma UnsubscribedKeys(r: Registry, id: Id)
    requires SameKeys(r) && BucketKeys(r) && Counts(r) && Entries(r) && id in r.subs
    ensures SameKeys(Unsubscribed(r, id))
  {
    hide SubscriptionKey, KeyOf, IdsOf, Alone, BucketKeys, Entries, Counts, Count, Unsubscribed;
    EntryKey(r, id);
    UnsubscribedBucketKeys(r, id);
    UnsubscribedCounts(r, id);
    UnsubscribedDetails(r, id);
  }

  lemma UnsubscribedDetailKeys(r: Registry, id: Id)
    requires Entries(r) && Details(r) && id in r.subs
    ensures Details(Unsubscribed(r, id))
  {
    hide SubscriptionKey, KeyOf, Entries, Count, Unsubscribed;
    EntryKey(r, id);
    UnsubscribedDetails(r, id);
  }

  lemma UnsubscribedParts(r: Registry, id: Id)
    requires Consistent(r) && id in r.subs
    ensures Consistent(Unsubscribed(r, id))
    ensures Count(r.subRefs, id.key) <= 1 <==> Alone(r, id)
    ensures forall k :: k in Unsubscribed(r, id).subRefs <==> k in r.subRefs && !(k == id.key && Alone(r, id))
  {
    hide SubscriptionKey, KeyOf, IdsOf, Alone, BucketKeys, BucketEntries, Entries, Counts, Count, Details, SameKeys, Unsubscribed;
    UnsubscribedKeys(r, id);
    UnsubscribedDetailKeys(r, id);
    UnsubscribedBucketKeys(r, id);
    UnsubscribedBucketEntries(r, id);
    UnsubscribedEntries(r, id);
    UnsubscribedCounts(r, id);
  }

  lemma UnknownId(r: Registry, id: Id)
    requires id !in r.subs
    ensures Unsubscribed(r, id) == r && UnsubscribeFrames(r, id) == None
  {
  }

  lemma UnsubscribeFramesOf(r: Registry, id: Id)
    requires Consistent(r) && id in r.subs
    ensures UnsubscribeFrames(r, id).Some? <==> Count(r.subRefs, id.key) <= 1
    ensures UnsubscribeFrames(r, id).Some? ==>
              UnsubscribeFrames(r, id).value.UnsubscribeFrame? && KeyOf(UnsubscribeFrames(r, id).value.sub) == id.key
  {
    hide SubscriptionKey, Count, IdsOf;
    EntryKey(r, id);
  }

  lemma UnsubscribedConsistent(r: Registry, id: Id)
    requires Consistent(r)
    ensures Consistent(Unsubscribed(r, id))
    ensures forall k :: k in Unsubscribed(r, id).subRefs
              <==> k in r.subRefs && !(id in r.subs && k == id.key && Alone(r, id))
    ensures UnsubscribeFrames(r, id).Some? <==> id in r.subs && Alone(r, id)
  {
    hide Consistent, Alone, Unsubscribed, UnsubscribeFrames, Count;
    if id in r.subs {
      UnsubscribedParts(r, id);
      UnsubscribeFramesOf(r, id);
    } else {
      UnknownId(r, id);
    }
  }

  lemma LastOne<T>(s: set<T>, x: T)
    requires x in s
    ensures |s| == 1 <==> s == {x}
    ensures |s - {x}| == |s| - 1
  {
    if |s| == 1 {
      assert |s - {x}| == 0;
    }
  }

  // ---------------------------------------------------------------- names

  function IdText(id: Id): string {
    id.key.text + "#" + Text.DecimalText(id.serial)
  }

  lemma SeparatorInTail(sep: char, head1: string, tail1: string, head2: string, tail2: string)
    requires head1 + [sep] + tail1 == head2 + [sep] + tail2 && |head1| < |head2|
    ensures sep in tail1 && sep in head2
  {
    var s := head1 + [sep] + tail1;
    assert s[|head2|] == sep && s[|head1|] == sep;
    assert tail1[|head2| - |head1| - 1] == s[|head2|];
    assert head2[|head1|] == s[|head1|];
  }

  lemma SameSplit(sep: char, head1: string, tail1: string, head2: string, tail2: string)
    requires head1 + [sep] + tail1 == head2 + [sep] + tail2 && |head1| == |head2|
    ensures head1 == head2 && tail1 == tail2
  {
    var s, t := head1 + [sep] + tail1, head2 + [sep] + tail2;
    assert head1 == s[..|head1|] && head2 == t[..|head2|];
    assert tail1 == s[|head1| + 1..] && tail2 == t[|head2| + 1..];
  }

  /** Written-out ids never collide, whatever characters the key holds. */
  lemma IdTextInjective(a: Id, b: Id)
    requires IdText(a) == IdText(b)
    ensures a == b
  {
    Text.DecimalTextReadsBack(a.serial);
    Text.DecimalTextReadsBack(b.serial);
    var x, y := Text.DecimalText(a.serial), Text.DecimalText(b.serial);
    hide Text.DecimalText;
    if |a.key.text| < |b.key.text| {
      SeparatorInTail('#', a.key.text, x, b.key.text, y);
    } else if |b.key.text| < |a.key.text| {
      SeparatorInTail('#', b.key.text, y, a.key.text, x);
    } else {
      SameSplit('#', a.key.text, x, b.key.text, y);
    }
  }

  /** Keys tell topics apart as long as topics do not contain the separator... */
  lemma KeysInjectiveWithoutBar(topic1: string, type1: string, topic2: string, type2: string)
    requires '|' !in topic1 && '|' !in topic2
    requires SubscriptionKey(topic1, type1) == SubscriptionKey(topic2, type2)
    ensures topic1 == topic2 && type1 == type2
  {
    if |topic1| < |topic2| {
      SeparatorInTail('|', topic1, type1, topic2, type2);
    } else if |topic2| < |topic1| {
      SeparatorInTail('|', topic2, type2, topic1, type1);
    } else {
      SameSplit('|', topic1, type1, topic2, type2);
    }
  }

  /** ...and every topic that does contain it shares a key with another one. */
  lemma BarredTopicsCollide(topic: string, msgType: string, at: nat)
    requires at < |topic| && topic[at] == '|'
    ensures SubscriptionKey(topic, msgType) == SubscriptionKey(topic[..at], topic[at + 1..] + "|" + msgType)
    ensures topic != topic[..at]
  {
    assert topic == topic[..at] + "|" + topic[at + 1..];
  }
}
