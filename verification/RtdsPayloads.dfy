/**
  Which subscription is recorded for a key, payload and all, told from the history alone; and so what a
  resubscribe carries.
 */
module RtdsPayloads {
  import opened Wrappers
  import opened RtdsRegistries
  import opened RtdsRuns
  import opened RtdsExact
  import Text

  /** Somebody else than `except` is registered for k. */
  ghost predicate HasSubscriber(r: Registry, k: Key, except: Option<Id>) {
    exists id :: id in r.subs && r.subs[id].key == k && Some(id) != except
  }

  /** The last subscription made for k, unless everybody has left since. */
  ghost function LastMade(steps: seq<Step>, k: Key): Option<Subscription>
    decreases |steps|
  {
    if steps == [] then None
    else
      var before := steps[..|steps| - 1];
      var r := Run(START, before).registry;
      match steps[|steps| - 1]
      case Subscribe(sub, write) =>
        if WellFormed(sub) && KeyOf(sub) == k && (write.ok || HasSubscriber(r, k, None)) then Some(sub) else LastMade(before, k)
      case Unsubscribe(id, _) =>
        if id in r.subs && r.subs[id].key == k && !HasSubscriber(r, k, Some(id)) then None else LastMade(before, k)
      case CloseAll => None
      case _ => LastMade(before, k)
  }

  function Recorded(r: Registry, k: Key): Option<Subscription> {
    if k in r.subDetails then Some(r.subDetails[k]) else None
  }

  lemma RunLast(steps: seq<Step>)
    requires steps != []
    ensures Run(START, steps) == Apply(Run(START, steps[..|steps| - 1]), steps[|steps| - 1])
  {
    hide Apply;
    var n := |steps| - 1;
    assert steps == steps[..n] + [steps[n]];
    RunAppend(START, steps[..n], [steps[n]]);
    assert [steps[n]] == [steps[n]] + [];
    RunOne(Run(START, steps[..n]), steps[n], []);
    NoSteps(Apply(Run(START, steps[..n]), steps[n]));
  }

  lemma SubscriberIsCounted(r: Registry, k: Key)
    requires Consistent(r)
    ensures k in r.subRefs <==> HasSubscriber(r, k, None)
  {
    hide Consistent;
    RegisteredKeys(r);
  }

  lemma AloneHasNoOther(r: Registry, id: Id)
    requires Consistent(r) && id in r.subs
    ensures r.subs[id].key == id.key
    ensures Alone(r, id) <==> !HasSubscriber(r, id.key, Some(id))
  {
    hide KeyOf, SubscriptionKey, BucketKeys, BucketEntries, Counts, Details;
    EntryKey(r, id);
    assert id in IdsOf(r, id.key);
    if !HasSubscriber(r, id.key, Some(id)) {
      assert forall other :: other in IdsOf(r, id.key) ==> other == id;
    } else {
      var other :| other in r.subs && r.subs[other].key == id.key && Some(other) != Some(id);
      assert other in IdsOf(r, id.key);
    }
  }

  lemma SubscribeRecords(w: World, sub: Subscription, write: Write, k: Key)
    requires Consistent(w.registry)
    ensures Recorded(Apply(w, Subscribe(sub, write)).registry, k)
            == if WellFormed(sub) && KeyOf(sub) == k && (write.ok || HasSubscriber(w.registry, k, None)) then Some(sub)
               else Recorded(w.registry, k)
  {
    hide Consistent, KeyOf, WellFormed, HasSubscriber, SubscribeFrames, Told;
    SubscriberIsCounted(w.registry, KeyOf(sub));
    SubscribeTells(w, sub, write);
    RecordsSubscription(w.registry, sub);
    hide Subscribed;
  }

  lemma RecordsSubscription(r: Registry, sub: Subscription)
    ensures Subscribed(r, sub).0.subDetails == r.subDetails[KeyOf(sub) := sub]
  {
    hide KeyOf;
  }

  lemma UnsubscribeRecords(w: World, id: Id, write: Write, k: Key)
    requires Consistent(w.registry)
    ensures Recorded(Apply(w, Unsubscribe(id, write)).registry, k)
            == if id in w.registry.subs && w.registry.subs[id].key == k && !HasSubscriber(w.registry, k, Some(id)) then None
               else Recorded(w.registry, k)
  {
    hide Consistent, HasSubscriber, Told, UnsubscribeFrames, Unsubscribed, Alone;
    if id in w.registry.subs {
      AloneHasNoOther(w.registry, id);
      UnsubscribedDetails(w.registry, id);
      UnsubscribedParts(w.registry, id);
    } else {
      UnknownId(w.registry, id);
    }
  }

  /** In every run, what is recorded for a key is the last subscription made for it and not since dropped. */
  lemma {:induction false} RecordedIsLastMade(steps: seq<Step>, k: Key)
    ensures Recorded(Run(START, steps).registry, k) == LastMade(steps, k)
    decreases |steps|
  {
    hide Run, Consistent, Covered, KeyOf, WellFormed, HasSubscriber;
    if steps == [] {
      NoSteps(START);
    } else {
      var before, last := steps[..|steps| - 1], steps[|steps| - 1];
      RecordedIsLastMade(before, k);
      RunLast(steps);
      ReachableConsistent(before);
      var w := Run(START, before);
      match last
      case Subscribe(sub, write) => SubscribeRecords(w, sub, write, k);
      case Unsubscribe(id, write) => UnsubscribeRecords(w, id, write, k);
      case _ => OthersRecordNothing(w, last, k);
    }
  }

  lemma OthersRecordNothing(w: World, step: Step, k: Key)
    requires !step.Subscribe? && !step.Unsubscribe?
    ensures Recorded(Apply(w, step).registry, k) == if step.CloseAll? then None else Recorded(w.registry, k)
  {
  }

  /** So a resubscribe carries exactly the last subscriptions made, for the keys that still have subscribers. */
  lemma ResubscribeCarriesLastMade(steps: seq<Step>, sub: Subscription)
    ensures sub in Run(START, steps).registry.subDetails.Values <==> exists k :: LastMade(steps, k) == Some(sub)
  {
    hide Run, LastMade;
    var r := Run(START, steps).registry;
    if sub in r.subDetails.Values {
      var k :| k in r.subDetails && r.subDetails[k] == sub;
      RecordedIsLastMade(steps, k);
    }
    if k :| LastMade(steps, k) == Some(sub) {
      RecordedIsLastMade(steps, k);
    }
  }

  /** Subscriptions are refused exactly if the topic or the type is blank. */
  lemma BlankIsRefused(sub: Subscription)
    ensures WellFormed(sub) <==> !Text.AllSpace(sub.topic) && !Text.AllSpace(sub.msgType)
  {
    hide Text.TrimSpace, Text.AllSpace;
    Text.BlankIffAllSpace(sub.topic);
    Text.BlankIffAllSpace(sub.msgType);
  }
}
