/**
  The registry together with the connection and with what the server was told.

  Connecting, taking the resubscribe snapshot and sending it are separate steps, and subscribers come
  and go between any two of them. A write has two outcomes: what the client is told and, independently
  when it fails, whether the server got it. A write that the client sees succeed on a working
  connection counts as received; on a lost one nothing is.
 */
module RtdsRuns {
  import opened Wrappers
  import opened RtdsRegistries

  datatype Phase =
    | Lost                            // no working connection
    | Connected                       // connected, resubscribe snapshot not yet taken
    | Snapshotted(pending: set<Key>)  // snapshot taken, not yet sent
    | Live                            // resubscribed
    | NotResubscribed                 // the resubscribe write failed; nothing retries it until the next connect

  datatype World = World(registry: Registry, server: set<Key>, phase: Phase)

  datatype Write = Write(ok: bool, received: bool)

  datatype Step =
    | Subscribe(sub: Subscription, write: Write)
    | Unsubscribe(id: Id, write: Write)
    | Disconnect
    | Connect
    | Snapshot
    | Resend(write: Write)
    | CloseAll

  const START := World(EMPTY, {}, Lost)

  function Received(w: World, write: Write): bool {
    w.phase != Lost && (write.ok || write.received)
  }

  function Told(w: World, frame: Option<Frame>, write: Write): set<Key> {
    if frame.None? || !Received(w, write) then w.server
    else match frame.value
      case SubscribeFrame(subs) => w.server + set sub | sub in subs :: KeyOf(sub)
      case UnsubscribeFrame(sub) => w.server - {KeyOf(sub)}
  }

  function Apply(w: World, step: Step): World {
    match step
    case Subscribe(sub, write) =>
      if !WellFormed(sub) then w
      else
        var frame := SubscribeFrames(w.registry, sub);
        World(if frame.Some? && !write.ok then w.registry else Subscribed(w.registry, sub).0,
              Told(w, frame, write), w.phase)
    case Unsubscribe(id, write) =>
      World(Unsubscribed(w.registry, id), Told(w, UnsubscribeFrames(w.registry, id), write), w.phase)
    case Disconnect => w.(server := {}, phase := Lost)
    case Connect => if w.phase == Lost then w.(phase := Connected) else w
    case Snapshot =>
      if w.phase != Connected then w
      else w.(phase := if w.registry.subDetails.Keys == {} then Live else Snapshotted(w.registry.subDetails.Keys))
    case Resend(write) =>
      if !w.phase.Snapshotted? then w
      else World(w.registry, if Received(w, write) then w.server + w.phase.pending else w.server,
                 if write.ok then Live else NotResubscribed)
    case CloseAll => World(EMPTY.(nextSubID := w.registry.nextSubID), {}, Lost)
  }

  function Run(w: World, steps: seq<Step>): World
    decreases |steps|
  {
    if steps == [] then w else Run(Apply(w, steps[0]), steps[1..])
  }

  function ClientKeys(w: World): set<Key> {
    w.registry.subRefs.Keys
  }

  // ---------------------------------------------------------------- safety

  ghost predicate Covered(w: World) {
    && (w.phase == Live ==> forall k :: k in ClientKeys(w) ==> k in w.server)
    && (w.phase.Snapshotted? ==> forall k :: k in ClientKeys(w) ==> k in w.server || k in w.phase.pending)
    && (w.phase == Lost ==> w.server == {})
  }

  ghost predicate Inv(w: World) {
    Consistent(w.registry) && Covered(w)
  }

  lemma FirstSubscriber(r: Registry, sub: Subscription)
    requires Counts(r)
    ensures SubscribeFrames(r, sub).None? <==> KeyOf(sub) in r.subRefs
    ensures SubscribeFrames(r, sub).Some? ==> SubscribeFrames(r, sub).value == SubscribeFrame([sub])
  {
    hide KeyOf, IdsOf;
  }

  lemma OneKey(sub: Subscription)
    ensures (set s | s in [sub] :: KeyOf(s)) == {KeyOf(sub)}
  {
    hide KeyOf;
    assert sub in [sub];
  }

  lemma SubscribeTells(w: World, sub: Subscription, write: Write)
    requires Consistent(w.registry)
    ensures var frame := SubscribeFrames(w.registry, sub);
            && (frame.None? <==> KeyOf(sub) in ClientKeys(w))
            && Told(w, frame, write) == if frame.Some? && Received(w, write) then w.server + {KeyOf(sub)} else w.server
  {
    hide KeyOf, Received, SubscribeFrames, Counts, SameKeys, BucketKeys, BucketEntries, Entries, Details;
    FirstSubscriber(w.registry, sub);
    OneKey(sub);
  }

  lemma UnsubscribeTells(w: World, id: Id, write: Write)
    requires Consistent(w.registry)
    ensures var frame := UnsubscribeFrames(w.registry, id);
            Told(w, frame, write) == if frame.Some? && Received(w, write) then w.server - {id.key} else w.server
  {
    hide KeyOf, Received, Consistent, UnsubscribeFrames;
    if id in w.registry.subs {
      UnsubscribeFramesOf(w.registry, id);
    } else {
      UnknownId(w.registry, id);
    }
  }

  lemma SubscribeKeepsInv(w: World, sub: Subscription, write: Write)
    requires Inv(w)
    ensures Inv(Apply(w, Subscribe(sub, write)))
  {
    hide Consistent, KeyOf, Told, SubscribeFrames, Subscribed, WellFormed;
    SubscribeTells(w, sub, write);
    SubscribedConsistent(w.registry, sub);
  }

  lemma UnsubscribeKeepsInv(w: World, id: Id, write: Write)
    requires Inv(w)
    ensures Inv(Apply(w, Unsubscribe(id, write)))
  {
    hide Consistent, KeyOf, Told, UnsubscribeFrames, Unsubscribed, Alone;
    UnsubscribeTells(w, id, write);
    UnsubscribedConsistent(w.registry, id);
  }

  lemma EmptyConsistent(n: nat)
    ensures Consistent(EMPTY.(nextSubID := n))
  {
  }

  lemma SnapshotKeys(r: Registry)
    requires Consistent(r)
    ensures r.subDetails.Keys == r.subRefs.Keys
  {
    hide IdsOf, KeyOf, BucketKeys, BucketEntries, Entries, Counts, Details;
  }

  lemma StepKeepsInv(w: World, step: Step)
    requires Inv(w)
    ensures Inv(Apply(w, step))
  {
    hide Consistent, KeyOf, Told, SubscribeFrames, UnsubscribeFrames, Subscribed, Unsubscribed, WellFormed;
    match step
    case Subscribe(sub, write) => SubscribeKeepsInv(w, sub, write);
    case Unsubscribe(id, write) => UnsubscribeKeepsInv(w, id, write);
    case Snapshot => SnapshotKeys(w.registry);
    case CloseAll => EmptyConsistent(w.registry.nextSubID);
    case _ =>
  }

  lemma {:induction false} RunKeepsInv(w: World, steps: seq<Step>)
    requires Inv(w)
    ensures Inv(Run(w, steps))
    decreases |steps|
  {
    hide Inv, Apply;
    if steps == [] {
    } else {
      StepKeepsInv(w, steps[0]);
      RunKeepsInv(Apply(w, steps[0]), steps[1..]);
    }
  }

  lemma StartInv()
    ensures Inv(START)
  {
    hide Consistent;
    EmptyConsistent(0);
  }

  lemma ReachableConsistent(steps: seq<Step>)
    ensures Consistent(Run(START, steps).registry) && Covered(Run(START, steps))
  {
    hide Run, Consistent, Covered;
    StartInv();
    RunKeepsInv(START, steps);
  }

  lemma RegisteredKeys(r: Registry)
    requires Consistent(r)
    ensures forall k :: k in r.subRefs <==> exists id :: id in r.subs && r.subs[id].key == k
  {
    hide KeyOf, SubscriptionKey, BucketKeys, BucketEntries, Details;
    forall k | k in r.subRefs ensures exists id :: id in r.subs && r.subs[id].key == k {
      assert IdsOf(r, k) != {};
      var id :| id in IdsOf(r, k);
    }
  }

  lemma BucketIs(r: Registry, k: Key)
    requires BucketKeys(r) && BucketEntries(r) && k in r.subsByKey
    ensures r.subsByKey[k] == map id | id in r.subs && r.subs[id].key == k :: r.subs[id]
    ensures |r.subsByKey[k]| == |IdsOf(r, k)|
  {
    assert r.subsByKey[k].Keys == IdsOf(r, k);
  }

  /**
    In every reachable state the four maps agree: each key with subscribers has its count, its details
    and its bucket, the count is the number of registered entries with that key, and the buckets
    split the main map.
   */
  lemma MapsAgree(steps: seq<Step>, k: Key)
    ensures var r := Run(START, steps).registry;
            && (k in r.subRefs <==> k in r.subDetails)
            && (k in r.subRefs <==> k in r.subsByKey)
            && (k in r.subRefs <==> exists id :: id in r.subs && r.subs[id].key == k)
            && (k in r.subRefs ==>
                  && r.subRefs[k] == |r.subsByKey[k]| >= 1
                  && KeyOf(r.subDetails[k]) == k
                  && r.subsByKey[k] == map id | id in r.subs && r.subs[id].key == k :: r.subs[id])
  {
    hide Run, KeyOf, SubscriptionKey, BucketKeys, BucketEntries, Entries, Covered, IdsOf;
    ReachableConsistent(steps);
    var r := Run(START, steps).registry;
    RegisteredKeys(r);
    if k in r.subsByKey {
      BucketIs(r, k);
    }
  }

  /** Whenever no reconnect is awaiting its resubscribe, the server knows every key the client has subscribers for. */
  lemma ServerKnowsEveryKey(steps: seq<Step>)
    requires Run(START, steps).phase == Live
    ensures ClientKeys(Run(START, steps)) <= Run(START, steps).server
  {
    hide Run, Consistent;
    ReachableConsistent(steps);
  }

  // ---------------------------------------------------------------- equality

  /** Nothing fails while connected, and a snapshot is sent before anything else happens. */
  ghost predicate Smooth(w: World, steps: seq<Step>)
    decreases |steps|
  {
    steps != [] ==>
      && (w.phase != Lost ==>
            && (steps[0].Subscribe? || steps[0].Unsubscribe? || steps[0].Resend? ==> steps[0].write.ok))
      && (w.phase.Snapshotted? ==> steps[0].Resend?)
      && Smooth(Apply(w, steps[0]), steps[1..])
  }

  ghost predicate Exact(w: World) {
    && (w.phase == Live ==> forall k :: k in w.server <==> k in ClientKeys(w))
    && (w.phase == Connected ==> forall k :: k in w.server ==> k in ClientKeys(w))
    && (w.phase.Snapshotted? ==>
          && (forall k :: k in w.phase.pending <==> k in ClientKeys(w))
          && (forall k :: k in w.server ==> k in ClientKeys(w)))
    && (w.phase == Lost ==> w.server == {})
    && w.phase != NotResubscribed
  }

  lemma SmoothSubscribe(w: World, sub: Subscription, write: Write)
    requires Consistent(w.registry) && Exact(w) && !w.phase.Snapshotted? && (w.phase != Lost ==> write.ok)
    ensures Exact(Apply(w, Subscribe(sub, write)))
  {
    hide Consistent, KeyOf, Told, SubscribeFrames, Subscribed, WellFormed;
    SubscribeTells(w, sub, write);
    SubscribedConsistent(w.registry, sub);
  }

  lemma SmoothUnsubscribe(w: World, id: Id, write: Write)
    requires Consistent(w.registry) && Exact(w) && !w.phase.Snapshotted? && (w.phase != Lost ==> write.ok)
    ensures Exact(Apply(w, Unsubscribe(id, write)))
  {
    hide Consistent, KeyOf, Told, UnsubscribeFrames, Unsubscribed, Alone;
    UnsubscribeTells(w, id, write);
    UnsubscribedConsistent(w.registry, id);
  }

  lemma SmoothStep(w: World, step: Step)
    requires Consistent(w.registry) && Exact(w)
    requires w.phase != Lost ==> (step.Subscribe? || step.Unsubscribe? || step.Resend? ==> step.write.ok)
    requires w.phase.Snapshotted? ==> step.Resend?
    ensures Exact(Apply(w, step))
  {
    hide Consistent, KeyOf, Told, SubscribeFrames, UnsubscribeFrames, Subscribed, Unsubscribed, WellFormed;
    match step
    case Subscribe(sub, write) => SmoothSubscribe(w, sub, write);
    case Unsubscribe(id, write) => SmoothUnsubscribe(w, id, write);
    case Snapshot => SnapshotKeys(w.registry);
    case _ =>
  }

  lemma {:induction false} SmoothRunsExact(w: World, steps: seq<Step>)
    requires Inv(w) && Exact(w) && Smooth(w, steps)
    ensures Exact(Run(w, steps))
    decreases |steps|
  {
    hide Consistent, Exact, Apply;
    if steps == [] {
    } else {
      SmoothStep(w, steps[0]);
      StepKeepsInv(w, steps[0]);
      SmoothRunsExact(Apply(w, steps[0]), steps[1..]);
    }
  }

  /** When nothing fails and the resubscribe is not interleaved, the server's keys are the client's keys. */
  lemma ServerMatchesInSmoothRuns(steps: seq<Step>)
    requires Smooth(START, steps) && Run(START, steps).phase == Live
    ensures Run(START, steps).server == ClientKeys(Run(START, steps))
  {
    hide Smooth, Run, Inv;
    StartInv();
    SmoothRunsExact(START, steps);
  }
}
