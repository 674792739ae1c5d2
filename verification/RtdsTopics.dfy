/**
  What the server was told, topic by topic. The registry works on joined keys; here the server's view is the
  set of (topic, type) pairs it was sent, which keys stand for as long as no two topics share one.
 */
module RtdsTopics {
  import opened Wrappers
  import opened RtdsRegistries
  import opened RtdsRuns
  import opened RtdsExact

  type Topic = (string, string)

  /** The topics the server holds, and those of a snapshot taken but not sent. */
  datatype Heard = Heard(told: set<Topic>, pending: set<Topic>)

  function TopicOf(sub: Subscription): Topic {
    (sub.topic, sub.msgType)
  }

  function HearFrame(told: set<Topic>, frame: Option<Frame>): set<Topic> {
    match frame
    case None => told
    case Some(SubscribeFrame(subs)) => told + set sub | sub in subs :: TopicOf(sub)
    case Some(UnsubscribeFrame(sub)) => told - {TopicOf(sub)}
  }

  function Hear(h: Heard, w: World, step: Step): Heard {
    match step
    case Subscribe(sub, write) =>
      if WellFormed(sub) && Received(w, write) then h.(told := HearFrame(h.told, SubscribeFrames(w.registry, sub))) else h
    case Unsubscribe(id, write) =>
      if Received(w, write) then h.(told := HearFrame(h.told, UnsubscribeFrames(w.registry, id))) else h
    case Snapshot =>
      if w.phase == Connected then h.(pending := set key | key in w.registry.subDetails :: TopicOf(w.registry.subDetails[key])) else h
    case Resend(write) => if w.phase.Snapshotted? && Received(w, write) then h.(told := h.told + h.pending) else h
    case Disconnect => Heard({}, {})
    case CloseAll => Heard({}, {})
    case Connect => h
  }

  function HearAll(h: Heard, w: World, steps: seq<Step>): Heard
    decreases |steps|
  {
    if steps == [] then h else HearAll(Hear(h, w, steps[0]), Apply(w, steps[0]), steps[1..])
  }

  const NOTHING := Heard({}, {})

  /** `name` says which topic and type each key of the run stands for. */
  ghost predicate Named(steps: seq<Step>, name: Key -> Topic) {
    forall i :: 0 <= i < |steps| ==> StepNamed(steps[i], name)
  }

  ghost predicate StepNamed(step: Step, name: Key -> Topic) {
    step.Subscribe? && WellFormed(step.sub) ==> name(KeyOf(step.sub)) == TopicOf(step.sub)
  }

  /** The name of a key is a topic that has this key. */
  ghost predicate Own(k: Key, name: Key -> Topic) {
    SubscriptionKey(name(k).0, name(k).1) == k
  }

  ghost predicate EntriesNamed(r: Registry, name: Key -> Topic) {
    && (forall id :: id in r.subs ==> (r.subs[id].topic, r.subs[id].msgType) == name(id.key))
    && (forall k :: k in r.subDetails ==> TopicOf(r.subDetails[k]) == name(k))
  }

  /** Every key the server holds stands for a topic it was told. */
  ghost predicate Represented(w: World, h: Heard, name: Key -> Topic) {
    && EntriesNamed(w.registry, name)
    && (forall k :: k in w.server ==> Own(k, name) && name(k) in h.told)
    && (w.phase.Snapshotted? ==> forall k :: k in w.phase.pending ==> Own(k, name) && name(k) in h.pending)
  }

  lemma OneTopic(told: set<Topic>, sub: Subscription)
    ensures HearFrame(told, Some(SubscribeFrame([sub]))) == told + {TopicOf(sub)}
  {
    assert sub in [sub];
  }

  lemma SubscribeNames(r: Registry, sub: Subscription, name: Key -> Topic)
    requires EntriesNamed(r, name) && name(KeyOf(sub)) == TopicOf(sub)
    ensures EntriesNamed(Subscribed(r, sub).0, name) && Own(KeyOf(sub), name)
  {
  }

  lemma SubscribeRepresented(w: World, h: Heard, name: Key -> Topic, sub: Subscription, write: Write)
    requires Consistent(w.registry) && Represented(w, h, name) && StepNamed(Subscribe(sub, write), name)
    ensures Represented(Apply(w, Subscribe(sub, write)), Hear(h, w, Subscribe(sub, write)), name)
  {
    hide Consistent, KeyOf, TopicOf, Told, HearFrame, SubscribeFrames, Subscribed, WellFormed, Received, EntriesNamed, Own;
    SubscribeTells(w, sub, write);
    if WellFormed(sub) {
      SubscribeNames(w.registry, sub, name);
    }
    FirstFrame(w.registry, sub);
    OneTopic(h.told, sub);
    NoFrame(h.told);
  }

  lemma FirstFrame(r: Registry, sub: Subscription)
    ensures SubscribeFrames(r, sub) == None || SubscribeFrames(r, sub) == Some(SubscribeFrame([sub]))
  {
    hide KeyOf;
  }

  lemma NoFrame(told: set<Topic>)
    ensures HearFrame(told, None) == told
  {
  }

  lemma UnsubscribeNames(r: Registry, id: Id, name: Key -> Topic)
    requires Consistent(r) && EntriesNamed(r, name)
    ensures EntriesNamed(Unsubscribed(r, id), name)
    ensures id in r.subs ==> Own(id.key, name)
    ensures UnsubscribeFrames(r, id) == None
            || (id in r.subs && UnsubscribeFrames(r, id).value.UnsubscribeFrame? && TopicOf(UnsubscribeFrames(r, id).value.sub) == name(id.key))
  {
    hide SubscriptionKey, KeyOf, IdsOf, BucketKeys, BucketEntries, Counts, SameKeys, Details, Unsubscribed;
    UnsubscribedMain(r, id);
    if id in r.subs {
      EntryKey(r, id);
      UnsubscribedDetails(r, id);
    } else {
      UnknownId(r, id);
    }
  }

  lemma OwnApart(j: Key, k: Key, name: Key -> Topic)
    requires Own(j, name) && Own(k, name) && j != k
    ensures name(j) != name(k)
  {
    hide SubscriptionKey;
  }

  lemma UnsubscribeRepresented(w: World, h: Heard, name: Key -> Topic, id: Id, write: Write)
    requires Consistent(w.registry) && Represented(w, h, name)
    ensures Represented(Apply(w, Unsubscribe(id, write)), Hear(h, w, Unsubscribe(id, write)), name)
  {
    hide Consistent, KeyOf, TopicOf, Told, UnsubscribeFrames, Unsubscribed, Received, EntriesNamed, Own;
    UnsubscribeTells(w, id, write);
    UnsubscribeNames(w.registry, id, name);
    var w' := Apply(w, Unsubscribe(id, write));
    forall k | k in w'.server ensures name(k) in Hear(h, w, Unsubscribe(id, write)).told {
      if id in w.registry.subs && k != id.key {
        OwnApart(k, id.key, name);
      }
    }
  }

  lemma SnapshotRepresented(w: World, h: Heard, name: Key -> Topic)
    requires Consistent(w.registry) && Represented(w, h, name)
    ensures Represented(Apply(w, Snapshot), Hear(h, w, Snapshot), name)
  {
    hide TopicOf, SubscriptionKey, IdsOf, BucketKeys, BucketEntries, Counts, SameKeys, Entries;
    var r := w.registry;
    forall k | k in r.subDetails ensures Own(k, name) {
      DetailsOwn(r, k, name);
    }
    hide KeyOf, Details, Own;
    if w.phase == Connected {
      forall k | k in r.subDetails ensures name(k) in Hear(h, w, Snapshot).pending {
        assert TopicOf(r.subDetails[k]) == name(k);
      }
    }
  }

  lemma DetailsOwn(r: Registry, k: Key, name: Key -> Topic)
    requires Details(r) && EntriesNamed(r, name) && k in r.subDetails
    ensures Own(k, name)
  {
    hide SubscriptionKey;
    assert KeyOf(r.subDetails[k]) == k;
  }

  lemma StepRepresented(w: World, h: Heard, name: Key -> Topic, step: Step)
    requires Consistent(w.registry) && Represented(w, h, name) && StepNamed(step, name)
    ensures Represented(Apply(w, step), Hear(h, w, step), name)
  {
    hide Consistent, KeyOf, TopicOf, Told, HearFrame, SubscribeFrames, UnsubscribeFrames, Subscribed, Unsubscribed, WellFormed, Own;
    match step
    case Subscribe(sub, write) => SubscribeRepresented(w, h, name, sub, write);
    case Unsubscribe(id, write) => UnsubscribeRepresented(w, h, name, id, write);
    case Snapshot => SnapshotRepresented(w, h, name);
    case _ =>
  }

  lemma {:induction false} RunRepresented(w: World, h: Heard, name: Key -> Topic, steps: seq<Step>)
    requires Inv(w) && Represented(w, h, name) && Named(steps, name)
    ensures Represented(Run(w, steps), HearAll(h, w, steps), name)
    decreases |steps|
  {
    hide Consistent, Covered, Represented, StepNamed, Apply, Hear;
    if steps == [] {
    } else {
      StepRepresented(w, h, name, steps[0]);
      StepKeepsInv(w, steps[0]);
      assert Named(steps[1..], name) by {
        assert forall i :: 0 <= i < |steps| - 1 ==> steps[1..][i] == steps[i + 1];
      }
      RunRepresented(Apply(w, steps[0]), Hear(h, w, steps[0]), name, steps[1..]);
    }
  }

  predicate SharesKey(a: Step, b: Step) {
    a.Subscribe? && b.Subscribe? && WellFormed(a.sub) && WellFormed(b.sub) && KeyOf(a.sub) == KeyOf(b.sub)
  }

  /** Well-formed subscriptions of the run that share a key are for the same topic and type. */
  ghost predicate OneTopicPerKey(steps: seq<Step>) {
    forall i, j :: 0 <= i < |steps| && 0 <= j < |steps| && SharesKey(steps[i], steps[j]) ==>
      TopicOf(steps[i].sub) == TopicOf(steps[j].sub)
  }

  /** The step registers a subscriber of k. */
  predicate Registers(step: Step, k: Key) {
    step.Subscribe? && WellFormed(step.sub) && KeyOf(step.sub) == k
  }

  ghost function NameIn(steps: seq<Step>): Key -> Topic {
    k => if exists i :: 0 <= i < |steps| && Registers(steps[i], k)
         then var i :| 0 <= i < |steps| && Registers(steps[i], k); TopicOf(steps[i].sub)
         else ("", "")
  }

  /**
    Whenever the client is connected and resubscribed, the server was told the topic of every registered
    subscriber, as long as no two topics of the run share a key.
   */
  lemma ServerKnowsEveryTopic(steps: seq<Step>, id: Id)
    requires OneTopicPerKey(steps) && Run(START, steps).phase == Live && id in Run(START, steps).registry.subs
    ensures var entry := Run(START, steps).registry.subs[id];
            (entry.topic, entry.msgType) in HearAll(NOTHING, START, steps).told
  {
    hide Run, HearAll, KeyOf, TopicOf, Consistent, Own;
    var name := NameIn(steps);
    StartInv();
    StartRepresented(name);
    RunRepresented(START, NOTHING, name, steps);
    ReachableConsistent(steps);
    RegisteredKey(Run(START, steps).registry, id);
  }

  lemma StartRepresented(name: Key -> Topic)
    ensures Represented(START, NOTHING, name)
  {
  }

  /** Topics without the separator never share a key. */
  lemma BareTopicsHaveOwnKeys(steps: seq<Step>)
    requires forall i :: 0 <= i < |steps| && steps[i].Subscribe? ==> '|' !in steps[i].sub.topic
    ensures OneTopicPerKey(steps)
  {
    hide SubscriptionKey, WellFormed;
    forall i, j | 0 <= i < |steps| && 0 <= j < |steps| && SharesKey(steps[i], steps[j])
      ensures TopicOf(steps[i].sub) == TopicOf(steps[j].sub)
    {
      var a, b := steps[i].sub, steps[j].sub;
      KeysInjectiveWithoutBar(a.topic, a.msgType, b.topic, b.msgType);
    }
  }

  // ---------------------------------------------------------------- exactly when topics are told

  ghost predicate SubscribesOnly(steps: seq<Step>, allowed: Subscription -> bool) {
    forall i :: 0 <= i < |steps| && steps[i].Subscribe? ==> allowed(steps[i].sub)
  }

  /** Every registered subscriber's topic was told. */
  ghost predicate AllTold(steps: seq<Step>) {
    forall id :: id in Run(START, steps).registry.subs ==>
      var entry := Run(START, steps).registry.subs[id];
      (entry.topic, entry.msgType) in HearAll(NOTHING, START, steps).told
  }

  lemma HearOne(h: Heard, w: World, step: Step, rest: seq<Step>)
    ensures HearAll(h, w, [step] + rest) == HearAll(Hear(h, w, step), Apply(w, step), rest)
  {
    hide Apply, Hear;
    assert ([step] + rest)[1..] == rest;
  }

  /** Two subscribers on a fresh connection, without any failure. */
  function TwoSubscribers(a: Subscription, b: Subscription): seq<Step> {
    [Connect] + ([Snapshot] + ([Subscribe(a, OK)] + ([Subscribe(b, OK)] + [])))
  }

  lemma TwoSubscribersState(a: Subscription, b: Subscription)
    requires WellFormed(a) && WellFormed(b)
    ensures Run(START, TwoSubscribers(a, b)) == Apply(World(OneSubscriber(a), {KeyOf(a)}, Live), Subscribe(b, OK))
    ensures Run(START, TwoSubscribers(a, b)).phase == Live
    ensures HearAll(NOTHING, START, TwoSubscribers(a, b))
            == Hear(Heard({TopicOf(a)}, {}), World(OneSubscriber(a), {KeyOf(a)}, Live), Subscribe(b, OK))
  {
    hide KeyOf, WellFormed, TopicOf, Run, HearAll, OneSubscriber, HearFrame, Told;
    var s1, s2, s3 := [Snapshot] + ([Subscribe(a, OK)] + ([Subscribe(b, OK)] + [])), [Subscribe(a, OK)] + ([Subscribe(b, OK)] + []),
                      [Subscribe(b, OK)] + [];
    var w1, w2, w3 := World(EMPTY, {}, Connected), World(EMPTY, {}, Live), World(OneSubscriber(a), {KeyOf(a)}, Live);
    FirstSubscription(a);
    FirstHeard(a);
    NothingPending();
    RunOne(START, Connect, s1);
    RunOne(w1, Snapshot, s2);
    RunOne(w2, Subscribe(a, OK), s3);
    RunOne(w3, Subscribe(b, OK), []);
    HearOne(NOTHING, START, Connect, s1);
    HearOne(NOTHING, w1, Snapshot, s2);
    HearOne(NOTHING, w2, Subscribe(a, OK), s3);
    HearOne(Heard({TopicOf(a)}, {}), w3, Subscribe(b, OK), []);
    NoSteps(Apply(w3, Subscribe(b, OK)));
    NothingMoreHeard(Hear(Heard({TopicOf(a)}, {}), w3, Subscribe(b, OK)), Apply(w3, Subscribe(b, OK)));
  }

  lemma NothingMoreHeard(h: Heard, w: World)
    ensures HearAll(h, w, []) == h
  {
  }

  lemma NothingPending()
    ensures Hear(NOTHING, World(EMPTY, {}, Connected), Snapshot) == NOTHING
  {
    assert (set key | key in EMPTY.subDetails :: TopicOf(EMPTY.subDetails[key])) == {};
  }

  lemma FirstHeard(a: Subscription)
    requires WellFormed(a)
    ensures Hear(NOTHING, World(EMPTY, {}, Live), Subscribe(a, OK)) == Heard({TopicOf(a)}, {})
  {
    hide KeyOf, WellFormed, TopicOf, HearFrame;
    OneTopic({}, a);
  }

  /** Two topics with one key: a run, without any failure, that registers the second and never tells it. */
  lemma SharedKeyIsNotTold(a: Subscription, b: Subscription)
    requires WellFormed(a) && WellFormed(b) && KeyOf(a) == KeyOf(b) && TopicOf(a) != TopicOf(b)
    ensures Run(START, TwoSubscribers(a, b)).phase == Live && WritesSucceed(START, TwoSubscribers(a, b))
    ensures TopicOf(b) !in HearAll(NOTHING, START, TwoSubscribers(a, b)).told
    ensures !AllTold(TwoSubscribers(a, b))
  {
    hide KeyOf, WellFormed, TopicOf, Run, HearAll, HearFrame, Told, WritesSucceed, TwoSubscribers;
    TwoSubscribersState(a, b);
    TwoSubscribersSucceed(a, b);
    var w := World(OneSubscriber(a), {KeyOf(a)}, Live);
    FirstSubscription(a);
    assert SubscribeFrames(w.registry, b) == None;
    NoFrame({TopicOf(a)});
    var (r', entry) := Subscribed(w.registry, b);
    assert entry.id in r'.subs && (entry.topic, entry.msgType) == TopicOf(b) by {
      EntryTopic(w.registry, b);
    }
    assert Run(START, TwoSubscribers(a, b)).registry == r';
  }

  lemma EntryTopic(r: Registry, sub: Subscription)
    ensures var (r', entry) := Subscribed(r, sub);
            entry.id in r'.subs && r'.subs[entry.id] == entry && (entry.topic, entry.msgType) == TopicOf(sub)
  {
  }

  lemma TwoSubscribersSucceed(a: Subscription, b: Subscription)
    ensures WritesSucceed(START, TwoSubscribers(a, b))
  {
    hide KeyOf, WellFormed, Apply, WritesSucceed;
    var s1, s2, s3 := [Snapshot] + ([Subscribe(a, OK)] + ([Subscribe(b, OK)] + [])), [Subscribe(a, OK)] + ([Subscribe(b, OK)] + []),
                      [Subscribe(b, OK)] + [];
    var w1 := Apply(START, Connect);
    var w2 := Apply(w1, Snapshot);
    var w3 := Apply(w2, Subscribe(a, OK));
    RunOne(START, Connect, s1);
    RunOne(w1, Snapshot, s2);
    RunOne(w2, Subscribe(a, OK), s3);
    RunOne(w3, Subscribe(b, OK), []);
    NoSteps(Apply(w3, Subscribe(b, OK)));
  }

  lemma AllowedRunsTell(steps: seq<Step>, allowed: Subscription -> bool)
    requires forall a, b :: allowed(a) && allowed(b) && WellFormed(a) && WellFormed(b) && KeyOf(a) == KeyOf(b) ==> TopicOf(a) == TopicOf(b)
    requires SubscribesOnly(steps, allowed) && Run(START, steps).phase == Live
    ensures AllTold(steps)
  {
    hide Run, HearAll, KeyOf, TopicOf, WellFormed;
    forall id | id in Run(START, steps).registry.subs
      ensures var entry := Run(START, steps).registry.subs[id];
              (entry.topic, entry.msgType) in HearAll(NOTHING, START, steps).told
    {
      ServerKnowsEveryTopic(steps, id);
    }
  }

  /**
    Whatever subscriptions a client may make: in every run of them the server is told every registered topic when
    connected and resubscribed, exactly if no two of them share a key without sharing the topic and type.
   */
  lemma TopicsToldIff(allowed: Subscription -> bool)
    ensures (forall steps :: SubscribesOnly(steps, allowed) && Run(START, steps).phase == Live ==> AllTold(steps))
            <==> (forall a, b :: allowed(a) && allowed(b) && WellFormed(a) && WellFormed(b) && KeyOf(a) == KeyOf(b) ==> TopicOf(a) == TopicOf(b))
  {
    hide Run, AllTold, KeyOf, TopicOf, WellFormed;
    if forall a, b :: allowed(a) && allowed(b) && WellFormed(a) && WellFormed(b) && KeyOf(a) == KeyOf(b) ==> TopicOf(a) == TopicOf(b) {
      forall steps | SubscribesOnly(steps, allowed) && Run(START, steps).phase == Live ensures AllTold(steps) {
        AllowedRunsTell(steps, allowed);
      }
    } else {
      var a, b :| allowed(a) && allowed(b) && WellFormed(a) && WellFormed(b) && KeyOf(a) == KeyOf(b) && TopicOf(a) != TopicOf(b);
      SharedKeyIsNotTold(a, b);
      assert SubscribesOnly(TwoSubscribers(a, b), allowed);
    }
  }
}
