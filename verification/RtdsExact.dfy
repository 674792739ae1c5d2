/**
  Exactly what the server holds: in runs whose writes succeed, the client's keys and the stale ones that an
  interleaved resubscribe brought back. And exactly which subscribe repairs a missing key.
 */
module RtdsExact {
  import opened Wrappers
  import opened RtdsRegistries
  import opened RtdsRuns

  /** Every write while connected succeeds; calls may interleave with a resubscribe. */
  ghost predicate WritesSucceed(w: World, steps: seq<Step>)
    decreases |steps|
  {
    steps != [] ==> StepSucceeds(w, steps[0]) && WritesSucceed(Apply(w, steps[0]), steps[1..])
  }

  ghost predicate StepSucceeds(w: World, step: Step) {
    w.phase != Lost && (step.Subscribe? || step.Unsubscribe? || step.Resend?) ==> step.write.ok
  }

  /** Keys the server holds for no subscriber: those of a snapshot sent late, until subscribed again or disconnected. */
  function StaleAfter(stale: set<Key>, w: World, step: Step): set<Key> {
    match step
    case Subscribe(sub, _) => if WellFormed(sub) then stale - {KeyOf(sub)} else stale
    case Resend(_) => if w.phase.Snapshotted? then w.phase.pending - ClientKeys(w) else stale
    case Disconnect => {}
    case CloseAll => {}
    case _ => stale
  }

  function StaleKeys(w: World, stale: set<Key>, steps: seq<Step>): set<Key>
    decreases |steps|
  {
    if steps == [] then stale else StaleKeys(Apply(w, steps[0]), StaleAfter(stale, w, steps[0]), steps[1..])
  }

  ghost predicate Accounted(w: World, stale: set<Key>) {
    && (w.phase == Live ==>
          forall k :: (k in w.server <==> k in ClientKeys(w) || k in stale) && !(k in ClientKeys(w) && k in stale))
    && (w.phase != Live ==> stale == {} && forall k :: k in w.server ==> k in ClientKeys(w))
    && (w.phase == Lost ==> w.server == {})
    && w.phase != NotResubscribed
  }

  lemma SubscribeAccounted(w: World, stale: set<Key>, sub: Subscription, write: Write)
    requires Inv(w) && Accounted(w, stale) && StepSucceeds(w, Subscribe(sub, write))
    ensures Accounted(Apply(w, Subscribe(sub, write)), StaleAfter(stale, w, Subscribe(sub, write)))
  {
    hide Consistent, KeyOf, Told, SubscribeFrames, Subscribed, WellFormed;
    SubscribeTells(w, sub, write);
    SubscribedConsistent(w.registry, sub);
  }

  lemma UnsubscribeAccounted(w: World, stale: set<Key>, id: Id, write: Write)
    requires Inv(w) && Accounted(w, stale) && StepSucceeds(w, Unsubscribe(id, write))
    ensures Accounted(Apply(w, Unsubscribe(id, write)), StaleAfter(stale, w, Unsubscribe(id, write)))
  {
    hide Consistent, KeyOf, Told, UnsubscribeFrames, Unsubscribed, Alone;
    UnsubscribeTells(w, id, write);
    UnsubscribedConsistent(w.registry, id);
    RegisteredKey(w.registry, id);
  }

  lemma RegisteredKey(r: Registry, id: Id)
    requires Consistent(r)
    ensures id in r.subs ==> id.key in r.subRefs
  {
    hide SubscriptionKey, KeyOf, IdsOf, BucketKeys, BucketEntries, Counts, Details;
  }

  lemma StepAccounted(w: World, stale: set<Key>, step: Step)
    requires Inv(w) && Accounted(w, stale) && StepSucceeds(w, step)
    ensures Accounted(Apply(w, step), StaleAfter(stale, w, step))
  {
    hide Consistent, KeyOf, Told, SubscribeFrames, UnsubscribeFrames, Subscribed, Unsubscribed, WellFormed;
    match step
    case Subscribe(sub, write) => SubscribeAccounted(w, stale, sub, write);
    case Unsubscribe(id, write) => UnsubscribeAccounted(w, stale, id, write);
    case Snapshot => SnapshotKeys(w.registry);
    case _ =>
  }

  lemma {:induction false} RunAccounted(w: World, stale: set<Key>, steps: seq<Step>)
    requires Inv(w) && Accounted(w, stale) && WritesSucceed(w, steps)
    ensures Accounted(Run(w, steps), StaleKeys(w, stale, steps)) && Inv(Run(w, steps))
    decreases |steps|
  {
    hide Inv, Accounted, Apply, StaleAfter, StepSucceeds;
    if steps == [] {
    } else {
      StepAccounted(w, stale, steps[0]);
      StepKeepsInv(w, steps[0]);
      RunAccounted(Apply(w, steps[0]), StaleAfter(stale, w, steps[0]), steps[1..]);
    }
  }

  /** In every run whose writes succeed the server holds the client's keys and, apart from them, the stale ones. */
  lemma ServerHoldsClientAndStale(steps: seq<Step>)
    requires WritesSucceed(START, steps) && Run(START, steps).phase == Live
    ensures var w, stale := Run(START, steps), StaleKeys(START, {}, steps);
            && w.server == ClientKeys(w) + stale && ClientKeys(w) !! stale
            && (w.server == ClientKeys(w) <==> stale == {})
  {
    hide Run, StaleKeys, WritesSucceed, Inv;
    StartInv();
    RunAccounted(START, {}, steps);
    var w, stale := Run(START, steps), StaleKeys(START, {}, steps);
    if w.server == ClientKeys(w) {
      assert stale <= w.server;
    }
  }

  /** Sending a snapshot makes the server match the client exactly if every key in it still has a subscriber. */
  lemma ResendMatchesIff(steps: seq<Step>, write: Write)
    requires WritesSucceed(START, steps) && Run(START, steps).phase.Snapshotted? && write.ok
    ensures var w := Run(START, steps);
            Apply(w, Resend(write)).server == ClientKeys(w) <==> w.phase.pending <= ClientKeys(w)
  {
    hide Run, StaleKeys, WritesSucceed, Consistent;
    StartInv();
    RunAccounted(START, {}, steps);
  }

  /** In any reachable state, a subscribe makes the server learn a missing key exactly if the client had no subscriber of it. */
  lemma SubscribeRepairsIff(steps: seq<Step>, sub: Subscription, write: Write)
    requires KeyOf(sub) !in Run(START, steps).server
    ensures var w := Run(START, steps);
            KeyOf(sub) in Apply(w, Subscribe(sub, write)).server
            <==> WellFormed(sub) && KeyOf(sub) !in ClientKeys(w) && Received(w, write)
  {
    hide Run, Consistent, Covered, KeyOf, Told, SubscribeFrames, Subscribed, WellFormed, Received;
    ReachableConsistent(steps);
    SubscribeTells(Run(START, steps), sub, write);
  }

  // ---------------------------------------------------------------- both failures happen

  const OK := Write(true, true)
  const LOST := Write(false, false)

  lemma RunOne(w: World, step: Step, rest: seq<Step>)
    ensures Run(w, [step] + rest) == Run(Apply(w, step), rest)
    ensures WritesSucceed(w, [step] + rest) <==> StepSucceeds(w, step) && WritesSucceed(Apply(w, step), rest)
  {
    hide Apply;
    assert ([step] + rest)[1..] == rest;
  }

  /** One subscriber, connected and resubscribed. */
  function OneSubscriber(sub: Subscription): Registry {
    Subscribed(EMPTY, sub).0
  }

  function FirstId(sub: Subscription): Id {
    Id(KeyOf(sub), 1)
  }

  lemma FirstSubscription(sub: Subscription)
    requires WellFormed(sub)
    ensures Apply(World(EMPTY, {}, Live), Subscribe(sub, OK)) == World(OneSubscriber(sub), {KeyOf(sub)}, Live)
    ensures OneSubscriber(sub).subDetails.Keys == {KeyOf(sub)} == OneSubscriber(sub).subRefs.Keys
  {
    hide KeyOf, WellFormed;
    OneKey(sub);
  }

  lemma OneSubscriberFacts(sub: Subscription)
    ensures var r, id := OneSubscriber(sub), FirstId(sub);
            Consistent(r) && id in r.subs && Alone(r, id) && forall k :: k in r.subRefs <==> k == KeyOf(sub)
  {
    hide KeyOf, Consistent;
    EmptyConsistent(0);
    SubscribedConsistent(EMPTY, sub);
  }

  lemma LastSubscription(sub: Subscription)
    requires WellFormed(sub)
    ensures var w := Apply(World(OneSubscriber(sub), {}, Snapshotted({KeyOf(sub)})), Unsubscribe(FirstId(sub), OK));
            ClientKeys(w) == {} && w.server == {} && w.phase == Snapshotted({KeyOf(sub)})
  {
    hide KeyOf, WellFormed, Told, OneSubscriber, Consistent, Alone, Unsubscribed, UnsubscribeFrames;
    OneSubscriberFacts(sub);
    UnsubscribedConsistent(OneSubscriber(sub), FirstId(sub));
    UnsubscribeTells(World(OneSubscriber(sub), {}, Snapshotted({KeyOf(sub)})), FirstId(sub), OK);
  }

  function BackAgain(sub: Subscription): seq<Step> {
    [Connect] + ([Snapshot] + ([Subscribe(sub, OK)] + ([Disconnect] + ([Connect] + [Snapshot]))))
  }

  lemma {:induction false} RunAppend(w: World, xs: seq<Step>, ys: seq<Step>)
    ensures Run(w, xs + ys) == Run(Run(w, xs), ys)
    ensures WritesSucceed(w, xs + ys) <==> WritesSucceed(w, xs) && WritesSucceed(Run(w, xs), ys)
    decreases |xs|
  {
    hide Apply, StepSucceeds;
    if xs == [] {
      assert xs + ys == ys;
    } else {
      assert (xs + ys)[1..] == xs[1..] + ys;
      RunAppend(Apply(w, xs[0]), xs[1..], ys);
    }
  }

  /** A subscriber, a lost connection and a new one whose snapshot is taken but not sent. */
  lemma BackAgainState(sub: Subscription)
    requires WellFormed(sub)
    ensures Run(START, BackAgain(sub)) == World(OneSubscriber(sub), {}, Snapshotted({KeyOf(sub)}))
    ensures WritesSucceed(START, BackAgain(sub))
  {
    hide KeyOf, WellFormed, Run, OneSubscriber;
    var s5, s4, s3, s2, s1 := [Snapshot], [Connect] + [Snapshot], [Disconnect] + ([Connect] + [Snapshot]),
                              [Subscribe(sub, OK)] + ([Disconnect] + ([Connect] + [Snapshot])),
                              [Snapshot] + ([Subscribe(sub, OK)] + ([Disconnect] + ([Connect] + [Snapshot])));
    var w1, w2 := World(EMPTY, {}, Connected), World(EMPTY, {}, Live);
    var w3 := World(OneSubscriber(sub), {KeyOf(sub)}, Live);
    var w4, w5 := World(OneSubscriber(sub), {}, Lost), World(OneSubscriber(sub), {}, Connected);
    FirstSubscription(sub);
    RunOne(START, Connect, s1);
    RunOne(w1, Snapshot, s2);
    RunOne(w2, Subscribe(sub, OK), s3);
    RunOne(w3, Disconnect, s4);
    RunOne(w4, Connect, s5);
    RunOne(w5, Snapshot, []);
    assert [Snapshot] + [] == [Snapshot];
    NoSteps(Apply(w5, Snapshot));
  }

  lemma NoSteps(w: World)
    ensures Run(w, []) == w && WritesSucceed(w, [])
  {
  }

  /** A run, without any failure, that leaves any subscription's key at the server for nobody. */
  lemma StaleKeyReachable(sub: Subscription)
    requires WellFormed(sub)
    ensures var steps := BackAgain(sub) + ([Unsubscribe(FirstId(sub), OK)] + [Resend(OK)]);
            && WritesSucceed(START, steps) && Run(START, steps).phase == Live
            && KeyOf(sub) in Run(START, steps).server && ClientKeys(Run(START, steps)) == {}
  {
    hide KeyOf, WellFormed, Run, OneSubscriber, BackAgain;
    var w := World(OneSubscriber(sub), {}, Snapshotted({KeyOf(sub)}));
    var w' := Apply(w, Unsubscribe(FirstId(sub), OK));
    BackAgainState(sub);
    LastSubscription(sub);
    RunAppend(START, BackAgain(sub), [Unsubscribe(FirstId(sub), OK)] + [Resend(OK)]);
    RunOne(w, Unsubscribe(FirstId(sub), OK), [Resend(OK)]);
    RunOne(w', Resend(OK), []);
    assert [Resend(OK)] + [] == [Resend(OK)];
    NoSteps(Apply(w', Resend(OK)));
  }

  /** A run with one failed resubscribe after which further subscribers do not make the server learn their key. */
  lemma UnrepairedReachable(sub: Subscription)
    requires WellFormed(sub)
    ensures var w := Run(START, BackAgain(sub) + ([Resend(LOST)] + [Subscribe(sub, OK)]));
            w.phase == NotResubscribed && KeyOf(sub) in ClientKeys(w) && KeyOf(sub) !in w.server
  {
    hide KeyOf, WellFormed, Run, BackAgain, OneSubscriber, Subscribed, Consistent, Told, SubscribeFrames, Alone;
    var w := World(OneSubscriber(sub), {}, Snapshotted({KeyOf(sub)}));
    var w' := World(OneSubscriber(sub), {}, NotResubscribed);
    BackAgainState(sub);
    OneSubscriberFacts(sub);
    SubscribedConsistent(OneSubscriber(sub), sub);
    RunAppend(START, BackAgain(sub), [Resend(LOST)] + [Subscribe(sub, OK)]);
    RunOne(w, Resend(LOST), [Subscribe(sub, OK)]);
    RunOne(w', Subscribe(sub, OK), []);
    assert [Subscribe(sub, OK)] + [] == [Subscribe(sub, OK)];
    NoSteps(Apply(w', Subscribe(sub, OK)));
    SubscribeTells(w', sub, OK);
  }
}
