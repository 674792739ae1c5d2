/**
  What the server knows of the counted assets, in every interleaving: unless a reconnect is awaiting its
  snapshot, each counted asset is at the server, in the snapshot about to be sent, or in the announcement of
  a stream still opening, as long as every step is harmless. What makes a step harmless is exact: any other
  step breaks it.
 */
module WsServer {
  import opened RefCounts
  import opened WsRuns

  predicate Announces(s: Stream, id: string) {
    s.phase.Opening? && id in s.phase.announce
  }

  /** Some stream is about to announce id. */
  ghost predicate Pending(streams: seq<Stream>, id: string) {
    exists i :: 0 <= i < |streams| && Announces(streams[i], id)
  }

  /** Some stream other than j is. */
  ghost predicate PendingElsewhere(streams: seq<Stream>, id: string, j: nat) {
    exists i :: 0 <= i < |streams| && i != j && Announces(streams[i], id)
  }

  /** The server has id, or is about to get it with the snapshot. */
  ghost predicate Reaches(w: World, id: string) {
    id in w.server || (w.link.Snapped? && id in w.link.assets)
  }

  ghost predicate Known(w: World) {
    w.link == Up || w.link.Snapped? ==> forall id :: id in w.refs ==> Reaches(w, id) || Pending(w.streams, id)
  }

  ghost predicate Sound(w: World) {
    Positive(w.refs) && (w.link == Down || w.link == Broken ==> w.server == {})
  }

  /** The step keeps from the server no counted asset that nothing else is about to bring it. */
  ghost predicate Harmless(w: World, step: Step) {
    match step
    case Finish(i, connOk, write) =>
      if !At(w, i).Opening? then true
      else if w.link == Down then
        // a connection made by opening a stream knows only what that stream announces
        connOk ==> forall id :: id in w.refs ==>
          (id in At(w, i).announce && (write.ok || write.received)) || PendingElsewhere(w.streams, id, i)
      else
        // an announcement may be lost only if nobody relies on it
        (w.link == Up || w.link.Snapped?) && !Gets(w, write) ==>
          forall id :: id in At(w, i).announce && id in w.refs ==> Reaches(w, id) || PendingElsewhere(w.streams, id, i)
    case TellServer(i, write) =>
      // a late unsubscribe must not name assets that are counted again
      At(w, i).Unsubscribing? && (w.link == Up || w.link.Snapped?) && Gets(w, write) ==>
        forall id :: id in At(w, i).dropped && id in w.refs ==>
          Pending(w.streams, id) || (w.link.Snapped? && id in w.link.assets)
    case Resend(write) =>
      // a snapshot may be lost only if nothing relies on it
      w.link.Snapped? && !Gets(w, write) ==> forall id :: id in w.refs ==> id in w.server || Pending(w.streams, id)
    case _ => true
  }

  // ---------------------------------------------------------------- one step

  lemma MovedPending(streams: seq<Stream>, i: nat, s: Stream)
    requires i < |streams| && !s.phase.Opening?
    ensures forall id :: Pending(streams[i := s], id) <==> PendingElsewhere(streams, id, i)
    ensures forall id :: Pending(streams, id) <==> PendingElsewhere(streams, id, i) || Announces(streams[i], id)
  {
    forall id
      ensures Pending(streams[i := s], id) <==> PendingElsewhere(streams, id, i)
      ensures Pending(streams, id) <==> PendingElsewhere(streams, id, i) || Announces(streams[i], id)
    {
      var moved := streams[i := s];
      assert forall k :: 0 <= k < |moved| && k != i ==> moved[k] == streams[k];
      assert !Announces(moved[i], id);
    }
  }

  lemma FinishKnownIff(w: World, i: nat, connOk: bool, write: Write)
    requires Known(w) && Sound(w)
    ensures Known(Apply(w, Finish(i, connOk, write))) <==> Harmless(w, Finish(i, connOk, write))
  {
    hide Pending, PendingElsewhere, Positive;
    if At(w, i).Opening? {
      MovedPending(w.streams, i, w.streams[i].(phase := Open));
      MovedPending(w.streams, i, w.streams[i].(phase := Leaked));
    }
  }

  lemma TellServerKnownIff(w: World, i: nat, write: Write)
    requires Known(w) && Sound(w)
    ensures Known(Apply(w, TellServer(i, write))) <==> Harmless(w, TellServer(i, write))
  {
    hide Pending, PendingElsewhere, Positive;
    if At(w, i).Unsubscribing? {
      MovedPending(w.streams, i, w.streams[i].(phase := Closed));
    }
  }

  lemma BeginKnown(w: World, ids: seq<string>)
    requires Known(w) && Sound(w)
    ensures Known(Apply(w, Begin(ids)))
  {
    hide Added, Fresh;
    if ids != [] {
      AddedCounts(w.refs, ids);
      FreshExact(w.refs, ids);
      var w' := Apply(w, Begin(ids));
      forall id | (w.link == Up || w.link.Snapped?) && id in w'.refs ensures Reaches(w', id) || Pending(w'.streams, id) {
        if Ref(w.refs, id) == 0 {
          assert Announces(w'.streams[|w.streams|], id);
        } else if !Reaches(w, id) {
          var k :| 0 <= k < |w.streams| && Announces(w.streams[k], id);
          assert Announces(w'.streams[k], id);
        }
      }
    }
  }

  lemma ReleaseKnown(w: World, i: nat)
    requires Known(w) && Sound(w)
    ensures Known(Apply(w, Release(i)))
  {
    hide Pending, PendingElsewhere, Removed, Dropped;
    if At(w, i) == Closing {
      MovedPending(w.streams, i, w.streams[i].(phase := Unsubscribing(Dropped(w.refs, w.streams[i].ids))));
      RemovedCounts(w.refs, w.streams[i].ids);
      forall id | id in Apply(w, Release(i)).refs ensures id in w.refs {
        assert Ref(Removed(w.refs, w.streams[i].ids), id) > 0;
      }
    }
  }

  lemma BeginCloseKnown(w: World, i: nat)
    requires Known(w)
    ensures Known(Apply(w, BeginClose(i)))
  {
    hide Pending, PendingElsewhere;
    if At(w, i) == Open {
      MovedPending(w.streams, i, w.streams[i].(phase := Closing));
    }
  }

  lemma CloseAllKnown(w: World)
    requires Known(w)
    ensures Known(Apply(w, CloseAllStreams))
  {
    var w' := Apply(w, CloseAllStreams);
    forall id | (w.link == Up || w.link.Snapped?) && id in w.refs ensures Reaches(w', id) || Pending(w'.streams, id) {
      if !Reaches(w, id) {
        var k :| 0 <= k < |w.streams| && Announces(w.streams[k], id);
        assert Announces(w'.streams[k], id);
      }
    }
  }

  /** Exactly the harmless steps keep every counted asset known. */
  lemma StepKnownIff(w: World, step: Step)
    requires Known(w) && Sound(w)
    ensures Known(Apply(w, step)) <==> Harmless(w, step)
  {
    hide Pending, PendingElsewhere, Added, Fresh, Removed, Dropped, AbandonAll, Positive;
    match step
    case Begin(ids) => BeginKnown(w, ids);
    case Finish(i, connOk, write) => FinishKnownIff(w, i, connOk, write);
    case BeginClose(i) => BeginCloseKnown(w, i);
    case Release(i) => ReleaseKnown(w, i);
    case TellServer(i, write) => TellServerKnownIff(w, i, write);
    case Disconnect =>
    case Redial(_) =>
    case Snapshot =>
    case Resend(_) =>
    case CloseAllStreams => CloseAllKnown(w);
  }

  lemma StepSound(w: World, step: Step)
    requires Sound(w)
    ensures Sound(Apply(w, step))
  {
    hide Added, Fresh, Removed, Dropped, AbandonAll, Positive, ToSet;
    match step
    case Begin(ids) => AddedCounts(w.refs, ids);
    case Release(i) =>
      if At(w, i) == Closing {
        RemovedCounts(w.refs, w.streams[i].ids);
      }
    case _ =>
  }

  // ---------------------------------------------------------------- whole runs

  ghost predicate HarmlessRun(w: World, steps: seq<Step>)
    decreases |steps|
  {
    steps != [] ==> Harmless(w, steps[0]) && HarmlessRun(Apply(w, steps[0]), steps[1..])
  }

  ghost predicate KnownThroughout(w: World, steps: seq<Step>)
    decreases |steps|
  {
    Known(w) && (steps != [] ==> KnownThroughout(Apply(w, steps[0]), steps[1..]))
  }

  lemma {:induction false} ThroughoutIff(w: World, steps: seq<Step>)
    requires Known(w) && Sound(w)
    ensures KnownThroughout(w, steps) <==> HarmlessRun(w, steps)
    ensures HarmlessRun(w, steps) ==> Known(Run(w, steps))
    decreases |steps|
  {
    hide Known, Sound, Harmless, Apply;
    if steps == [] {
    } else {
      StepKnownIff(w, steps[0]);
      StepSound(w, steps[0]);
      if Harmless(w, steps[0]) {
        ThroughoutIff(Apply(w, steps[0]), steps[1..]);
      }
    }
  }

  /** A run keeps every counted asset known, at every moment, exactly if each of its steps is harmless. */
  lemma KnownThroughoutIff(steps: seq<Step>)
    ensures KnownThroughout(START, steps) <==> HarmlessRun(START, steps)
  {
    hide KnownThroughout, HarmlessRun;
    ThroughoutIff(START, steps);
  }

  lemma {:induction false} MentionedIsHeld(streams: seq<Stream>, i: nat, id: string)
    requires i < |streams| && streams[i].phase == Open && id != "" && id in streams[i].ids
    ensures Held(streams, IsOpen, id) > 0
    decreases |streams|
  {
    if i == 0 {
      assert id in multiset(streams[0].ids);
    } else {
      MentionedIsHeld(streams[1..], i - 1, id);
    }
  }

  /**
    After a harmless run, once connected and resubscribed, every asset of an open stream is at the server, unless
    another stream is still about to announce it; once no stream is opening, all of them are.
   */
  lemma OpenStreamsAreServed(steps: seq<Step>, i: nat, id: string)
    requires HarmlessRun(START, steps) && Run(START, steps).link == Up
    requires At(Run(START, steps), i) == Open && id != "" && id in Run(START, steps).streams[i].ids
    ensures var w := Run(START, steps);
            && (id in w.server || Pending(w.streams, id))
            && ((forall k :: 0 <= k < |w.streams| ==> !w.streams[k].phase.Opening?) ==> id in w.server)
  {
    hide HarmlessRun, Run, Held, Mentions, KnownThroughout;
    ThroughoutIff(START, steps);
    CountsCoverOpenStreams(steps, id);
    MentionedIsHeld(Run(START, steps).streams, i, id);
  }

  // ---------------------------------------------------------------- runs that lose an asset

  const LOST := Write(false, false)

  lemma ThreeSteps(w: World, a: Step, b: Step, c: Step)
    ensures Run(w, [a, b, c]) == Apply(Apply(Apply(w, a), b), c)
  {
    hide Apply;
    assert [a, b, c][1..] == [b, c];
    assert [b, c][1..] == [c];
    assert [c][1..] == [];
    assert Run(Apply(Apply(w, a), b), [c]) == Apply(Apply(Apply(w, a), b), c);
  }

  lemma SecondMention(refs: Refs, id: string)
    requires id != "" && Ref(refs, id) > 0
    ensures Fresh(refs, [id]) == []
  {
    assert [id][1..] == [];
    assert Fresh(AddOne(refs, id), []) == [];
  }

  /** A second stream may be open before the first one has announced their asset. */
  lemma OpenBeforeAnnounced(id: string)
    requires id != ""
    ensures var w := Run(START, [Begin([id]), Begin([id]), Finish(1, true, OK)]);
            w.link == Up && At(w, 1) == Open && w.streams[1].ids == [id] && id !in w.server && Pending(w.streams, id)
  {
    hide Added, Fresh;
    OneIdFacts(map[], id);
    var w1 := Apply(START, Begin([id]));
    assert w1 == World(map[id := 1], [Stream([id], Opening([id]))], {}, Up);
    OneIdFacts(w1.refs, id);
    SecondMention(w1.refs, id);
    var w2 := Apply(w1, Begin([id]));
    assert w2.streams == [Stream([id], Opening([id])), Stream([id], Opening([]))];
    var w3 := Apply(w2, Finish(1, true, OK));
    assert Announces(w3.streams[0], id);
    ThreeSteps(START, Begin([id]), Begin([id]), Finish(1, true, OK));
  }

  /** A failed announcement leaves its asset counted, so later streams of the asset do not announce it either. */
  lemma LeakSilencesLaterStreams(id: string)
    requires id != ""
    ensures var steps := [Begin([id]), Finish(0, true, LOST), Begin([id])];
            var w := Apply(Run(START, steps), Finish(1, true, OK));
            && w.link == Up && At(w, 0) == Leaked && At(w, 1) == Open && w.streams[1].ids == [id]
            && id !in w.server && !Pending(w.streams, id)
            && !Harmless(Run(START, [Begin([id])]), Finish(0, true, LOST))
  {
    hide Added, Fresh;
    OneIdFacts(map[], id);
    var w1 := Apply(START, Begin([id]));
    assert w1 == World(map[id := 1], [Stream([id], Opening([id]))], {}, Up);
    var w2 := Apply(w1, Finish(0, true, LOST));
    assert w2 == World(map[id := 1], [Stream([id], Leaked)], {}, Up);
    OneIdFacts(w2.refs, id);
    SecondMention(w2.refs, id);
    var w3 := Apply(w2, Begin([id]));
    assert w3.streams == [Stream([id], Leaked), Stream([id], Opening([]))];
    ThreeSteps(START, Begin([id]), Finish(0, true, LOST), Begin([id]));
    assert [Begin([id])][1..] == [];
  }

  /** A stream of one asset, opened from the start. */
  lemma FirstStream(id: string)
    requires id != ""
    ensures var w := Perform(START, OpenStream([id]));
            && Synchronized(w) && At(w, 0) == Open && w.streams[0].ids == [id] && Ref(w.refs, id) == 1 && |w.streams| == 1
  {
    hide Added, Fresh, Synchronized;
    StartSynchronized();
    OpenSynchronizes(START, [id]);
    OneIdFacts(map[], id);
    var w1 := Apply(START, Begin([id]));
    assert w1 == World(map[id := 1], [Stream([id], Opening([id]))], {}, Up);
  }

  /** Both other failures are reached from the start: the late unsubscribe, and the connection made by opening. */
  lemma LossesAreReachable(id: string, other: string)
    requires id != "" && other != ""
    ensures var w := Perform(START, OpenStream([id]));
            && (var cut := Run(w, [BeginClose(0), Release(0), Begin([id]), Finish(1, true, OK), TellServer(0, OK)]);
                cut.link == Up && At(cut, 1) == Open && cut.streams[1].ids == [id] && id !in cut.server)
            && (var redialled := Perform(Apply(Apply(w, Disconnect), Redial(false)), OpenStream([other]));
                redialled.link == Up && At(redialled, 0) == Open && Ref(redialled.refs, id) > 0 && id !in redialled.server)
  {
    hide Perform, Run, Conserved;
    FirstStream(id);
    var w := Perform(START, OpenStream([id]));
    LateUnsubscribeCutsOffNewStream(w, 0, id);
    var broken := Apply(w, Disconnect);
    var lost := Apply(broken, Redial(false));
    StepConserves(w, Disconnect);
    StepConserves(broken, Redial(false));
    ConnectingByOpeningForgetsAssets(lost, [other], id);
    OthersStay(lost, [other], 0);
  }

  lemma OthersStay(w: World, ids: seq<string>, i: nat)
    requires i < |w.streams|
    ensures At(Perform(w, OpenStream(ids)), i) == At(w, i)
  {
    hide Added, Fresh;
  }

  /** Shutting down leaves no stream open and every count as it was. */
  lemma ShutdownKeepsCounts(w: World)
    ensures var w' := Apply(w, CloseAllStreams);
            && w'.refs == w.refs && w'.server == w.server && |w'.streams| == |w.streams|
            && (forall i :: 0 <= i < |w.streams| ==> w'.streams[i].phase != Open && w'.streams[i].ids == w.streams[i].ids)
            && (forall i :: 0 <= i < |w.streams| && w.streams[i].phase != Open ==> w'.streams[i] == w.streams[i])
  {
  }
}
