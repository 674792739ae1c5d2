/**
  Streams opening and closing concurrently. Opening and closing are several steps each: the reference
  counts change under a lock, the writes to the server happen outside it. Reconnecting is several steps
  too: the new connection is in use before the snapshot of the counts is taken, and that before it is sent.
 */
module WsRuns {
  import opened RefCounts

  datatype Phase =
    | Opening(announce: seq<string>)        // counted, not yet announced
    | Open
    | Leaked                                // counted, but opening failed afterwards
    | Closing                               // closed, still counted
    | Unsubscribing(dropped: seq<string>)   // no longer counted, server not yet told
    | Closed
    | Abandoned                             // closed with the client, still counted

  datatype Stream = Stream(ids: seq<string>, phase: Phase)

  datatype Link =
    | Down                             // no connection
    | Broken                           // a connection that is lost, which the client has yet to notice
    | Dialled                          // redialled, snapshot not yet taken
    | Snapped(assets: set<string>)     // snapshot taken, not yet sent
    | Up                               // nothing left to resend

  /** What the client sees of a write, and whether the server gets it even so. */
  datatype Write = Write(ok: bool, received: bool)

  const OK := Write(true, true)

  datatype World = World(refs: Refs, streams: seq<Stream>, server: set<string>, link: Link)

  datatype Step =
    | Begin(ids: seq<string>)
    | Finish(stream: nat, connOk: bool, write: Write)
    | BeginClose(stream: nat)
    | Release(stream: nat)
    | TellServer(stream: nat, write: Write)
    | Disconnect
    | Redial(dialOk: bool)
    | Snapshot
    | Resend(write: Write)
    | CloseAllStreams

  const START := World(map[], [], {}, Up)

  function ToSet(ids: seq<string>): set<string> {
    set id | id in ids
  }

  function At(w: World, i: nat): Phase {
    if i < |w.streams| then w.streams[i].phase else Closed
  }

  function Move(w: World, i: nat, phase: Phase): World
    requires i < |w.streams|
  {
    w.(streams := w.streams[i := w.streams[i].(phase := phase)])
  }

  function AbandonAll(streams: seq<Stream>): seq<Stream> {
    seq(|streams|, i requires 0 <= i < |streams| =>
      if streams[i].phase == Open then streams[i].(phase := Abandoned) else streams[i])
  }

  /** The server gets the write, on a connection that works. */
  function Gets(w: World, write: Write): bool {
    (w.link == Dialled || w.link.Snapped? || w.link == Up) && (write.ok || write.received)
  }

  function Apply(w: World, step: Step): World {
    match step
    case Begin(ids) =>
      if ids == [] then w
      else w.(refs := Added(w.refs, ids), streams := w.streams + [Stream(ids, Opening(Fresh(w.refs, ids)))])
    case Finish(i, connOk, write) =>
      if !At(w, i).Opening? then w
      else if w.link == Down && !connOk then Move(w, i, Leaked)
      else
        // without a connection one is made, and it starts knowing nothing
        var linked := if w.link == Down then w.(link := Up) else w;
        var announce := At(w, i).announce;
        if announce == [] then Move(linked, i, Open)
        else Move(linked, i, if write.ok then Open else Leaked)
               .(server := if Gets(linked, write) then w.server + ToSet(announce) else w.server)
    case BeginClose(i) => if At(w, i) == Open then Move(w, i, Closing) else w
    case Release(i) =>
      if At(w, i) != Closing then w
      else Move(w, i, Unsubscribing(Dropped(w.refs, w.streams[i].ids))).(refs := Removed(w.refs, w.streams[i].ids))
    case TellServer(i, write) =>
      if !At(w, i).Unsubscribing? then w
      else Move(w, i, Closed).(server := if Gets(w, write) then w.server - ToSet(At(w, i).dropped) else w.server)
    case Disconnect => w.(link := Broken, server := {})
    case Redial(dialOk) => w.(link := if dialOk then Dialled else Down, server := {})
    case Snapshot => if w.link != Dialled then w else w.(link := if w.refs.Keys == {} then Up else Snapped(w.refs.Keys))
    case Resend(write) =>
      if !w.link.Snapped? then w
      else w.(link := Up, server := if Gets(w, write) then w.server + w.link.assets else w.server)
    case CloseAllStreams => w.(streams := AbandonAll(w.streams))
  }

  function Run(w: World, steps: seq<Step>): World
    decreases |steps|
  {
    if steps == [] then w else Run(Apply(w, steps[0]), steps[1..])
  }

  // ---------------------------------------------------------------- conservation

  predicate Holds(p: Phase) {
    p.Opening? || p == Open || p == Leaked || p == Closing || p == Abandoned
  }

  /** Mentions of id in the lists of the streams whose phase is kept. */
  ghost function Held(streams: seq<Stream>, keep: Phase -> bool, id: string): nat
    decreases |streams|
  {
    if streams == [] then 0 else
    (if keep(streams[0].phase) then Mentions(streams[0].ids, id) else 0) + Held(streams[1..], keep, id)
  }

  lemma {:induction false} HeldAppend(streams: seq<Stream>, s: Stream, keep: Phase -> bool, id: string)
    ensures Held(streams + [s], keep, id) == Held(streams, keep, id) + (if keep(s.phase) then Mentions(s.ids, id) else 0)
    decreases |streams|
  {
    hide Mentions;
    if streams == [] {
      assert Held([s][1..], keep, id) == 0;
    } else {
      HeldAppend(streams[1..], s, keep, id);
      assert (streams + [s])[1..] == streams[1..] + [s];
    }
  }

  lemma {:induction false} HeldUpdate(streams: seq<Stream>, i: nat, s: Stream, keep: Phase -> bool, id: string)
    requires i < |streams|
    ensures Held(streams[i := s], keep, id) + (if keep(streams[i].phase) then Mentions(streams[i].ids, id) else 0)
            == Held(streams, keep, id) + (if keep(s.phase) then Mentions(s.ids, id) else 0)
    decreases |streams|
  {
    hide Mentions;
    if i == 0 {
      assert streams[0 := s][1..] == streams[1..];
    } else {
      HeldUpdate(streams[1..], i - 1, s, keep, id);
      assert streams[i := s][1..] == streams[1..][i - 1 := s];
    }
  }

  lemma {:induction false} HeldAbandon(streams: seq<Stream>, id: string)
    ensures Held(AbandonAll(streams), Holds, id) == Held(streams, Holds, id)
    decreases |streams|
  {
    hide Mentions;
    if streams == [] {
    } else {
      HeldAbandon(streams[1..], id);
      assert AbandonAll(streams)[1..] == AbandonAll(streams[1..]);
    }
  }

  ghost predicate Conserved(w: World) {
    && Positive(w.refs)
    && forall id :: Ref(w.refs, id) == Held(w.streams, Holds, id)
  }

  lemma MoveHeld(w: World, i: nat, phase: Phase)
    requires i < |w.streams| && Holds(phase) == Holds(w.streams[i].phase)
    ensures forall id :: Held(Move(w, i, phase).streams, Holds, id) == Held(w.streams, Holds, id)
  {
    hide Mentions, Held, Holds;
    forall id ensures Held(Move(w, i, phase).streams, Holds, id) == Held(w.streams, Holds, id) {
      HeldUpdate(w.streams, i, w.streams[i].(phase := phase), Holds, id);
    }
  }

  lemma BeginConserves(w: World, ids: seq<string>)
    requires Conserved(w)
    ensures Conserved(Apply(w, Begin(ids)))
  {
    hide Mentions, Held, Added, Fresh, Positive;
    AddedCounts(w.refs, ids);
    var w' := Apply(w, Begin(ids));
    if ids != [] {
      forall id ensures Ref(w'.refs, id) == Held(w'.streams, Holds, id) {
        HeldAppend(w.streams, Stream(ids, Opening(Fresh(w.refs, ids))), Holds, id);
      }
    }
  }

  lemma ReleaseConserves(w: World, i: nat)
    requires Conserved(w)
    ensures Conserved(Apply(w, Release(i)))
  {
    hide Mentions, Held, Removed, Dropped, Positive, Ref;
    if At(w, i) == Closing {
      var ids := w.streams[i].ids;
      var gone := w.streams[i].(phase := Unsubscribing(Dropped(w.refs, ids)));
      RemovedCounts(w.refs, ids);
      var w' := Apply(w, Release(i));
      forall id ensures Ref(w'.refs, id) == Held(w'.streams, Holds, id) {
        HeldUpdate(w.streams, i, gone, Holds, id);
      }
    }
  }

  lemma StepConserves(w: World, step: Step)
    requires Conserved(w)
    ensures Conserved(Apply(w, step))
  {
    hide Mentions, Held, Added, Fresh, Removed, Dropped, Positive, Ref, AbandonAll, ToSet;
    match step
    case Begin(ids) => BeginConserves(w, ids);
    case Release(i) => ReleaseConserves(w, i);
    case Finish(i, connOk, write) =>
      if At(w, i).Opening? {
        MoveHeld(w, i, Open);
        MoveHeld(w, i, Leaked);
      }
    case BeginClose(i) =>
      if At(w, i) == Open {
        MoveHeld(w, i, Closing);
      }
    case TellServer(i, _) =>
      if At(w, i).Unsubscribing? {
        MoveHeld(w, i, Closed);
      }
    case CloseAllStreams =>
      forall id ensures Held(AbandonAll(w.streams), Holds, id) == Held(w.streams, Holds, id) {
        HeldAbandon(w.streams, id);
      }
    case _ =>
  }

  lemma {:induction false} RunConserves(w: World, steps: seq<Step>)
    requires Conserved(w)
    ensures Conserved(Run(w, steps))
    decreases |steps|
  {
    hide Conserved, Apply;
    if steps == [] {
    } else {
      StepConserves(w, steps[0]);
      RunConserves(Apply(w, steps[0]), steps[1..]);
    }
  }

  /**
    Conservation, in every interleaving: an asset's count is exactly the mentions of it in the lists of
    streams that are opening, open, closing, failed to open, or were abandoned by a client shutdown.
   */
  lemma CountsAreMentions(steps: seq<Step>, id: string)
    ensures var w := Run(START, steps);
            Ref(w.refs, id) == Held(w.streams, Holds, id)
  {
    hide Run, Held, Mentions, Positive;
    StartConserved();
    RunConserves(START, steps);
  }

  lemma StartConserved()
    ensures Conserved(START)
  {
    hide Mentions;
  }

  predicate IsOpen(p: Phase) {
    p == Open
  }

  lemma {:induction false} OpenIsHeld(streams: seq<Stream>, id: string)
    ensures Held(streams, IsOpen, id) <= Held(streams, Holds, id)
    ensures (forall i :: 0 <= i < |streams| ==> Holds(streams[i].phase) ==> IsOpen(streams[i].phase))
            ==> Held(streams, IsOpen, id) == Held(streams, Holds, id)
    decreases |streams|
  {
    hide Mentions;
    if streams == [] {
    } else {
      OpenIsHeld(streams[1..], id);
      if forall i :: 0 <= i < |streams| ==> Holds(streams[i].phase) ==> IsOpen(streams[i].phase) {
        assert forall i :: 0 <= i < |streams[1..]| ==> streams[1..][i] == streams[i + 1];
      }
    }
  }

  /** So counts are at least what the open streams need, and exactly that once nothing is half done or leaked. */
  lemma CountsCoverOpenStreams(steps: seq<Step>, id: string)
    ensures var w := Run(START, steps);
            && Ref(w.refs, id) >= Held(w.streams, IsOpen, id)
            && ((forall i :: 0 <= i < |w.streams| ==> Holds(w.streams[i].phase) ==> IsOpen(w.streams[i].phase))
                ==> Ref(w.refs, id) == Held(w.streams, IsOpen, id))
  {
    hide Run, Held, Holds, IsOpen;
    CountsAreMentions(steps, id);
    OpenIsHeld(Run(START, steps).streams, id);
  }

  // ---------------------------------------------------------------- one operation at a time

  /** Opening, closing and reconnecting without overlap or failure. */
  datatype Operation = OpenStream(ids: seq<string>) | CloseStream(stream: nat) | Reestablish

  function Perform(w: World, op: Operation): World {
    match op
    case OpenStream(ids) => Apply(Apply(w, Begin(ids)), Finish(|w.streams|, true, OK))
    case CloseStream(i) => Apply(Apply(Apply(w, BeginClose(i)), Release(i)), TellServer(i, OK))
    case Reestablish => Apply(Apply(Apply(Apply(w, Disconnect), Redial(true)), Snapshot), Resend(OK))
  }

  function PerformAll(w: World, ops: seq<Operation>): World
    decreases |ops|
  {
    if ops == [] then w else PerformAll(Perform(w, ops[0]), ops[1..])
  }

  /** The server knows exactly the assets with references, and no stream is half done. */
  ghost predicate Synchronized(w: World) {
    && Conserved(w) && w.link == Up
    && (forall id :: id in w.server <==> Ref(w.refs, id) > 0)
    && (forall i :: 0 <= i < |w.streams| ==> w.streams[i].phase == Open || w.streams[i].phase == Closed)
  }

  lemma OpenSynchronizes(w: World, ids: seq<string>)
    requires Synchronized(w)
    ensures Synchronized(Perform(w, OpenStream(ids)))
  {
    hide Mentions, Held, Added, Fresh, Conserved;
    var mid := Apply(w, Begin(ids));
    var w' := Perform(w, OpenStream(ids));
    StepConserves(w, Begin(ids));
    StepConserves(mid, Finish(|w.streams|, true, OK));
    if ids != [] {
      AddedCounts(w.refs, ids);
      FreshExact(w.refs, ids);
      assert mid.streams[|w.streams|] == Stream(ids, Opening(Fresh(w.refs, ids)));
    } else {
      assert At(mid, |w.streams|) == Closed;
    }
  }

  lemma CloseSynchronizes(w: World, i: nat)
    requires Synchronized(w)
    ensures Synchronized(Perform(w, CloseStream(i)))
  {
    hide Mentions, Held, Removed, Dropped;
    StepConserves(w, BeginClose(i));
    StepConserves(Apply(w, BeginClose(i)), Release(i));
    StepConserves(Apply(Apply(w, BeginClose(i)), Release(i)), TellServer(i, OK));
    if At(w, i) == Open {
      RemovedCounts(w.refs, w.streams[i].ids);
      DroppedExact(w.refs, w.streams[i].ids);
    }
    hide Conserved;
  }

  lemma ReestablishSynchronizes(w: World)
    requires Synchronized(w)
    ensures Synchronized(Perform(w, Reestablish))
  {
    hide Mentions, Held;
  }

  lemma {:induction false} OperationsSynchronize(w: World, ops: seq<Operation>)
    requires Synchronized(w)
    ensures Synchronized(PerformAll(w, ops))
    decreases |ops|
  {
    hide Synchronized, Perform;
    if ops == [] {
    } else {
      match ops[0] {
        case OpenStream(ids) => OpenSynchronizes(w, ids);
        case CloseStream(i) => CloseSynchronizes(w, i);
        case Reestablish => ReestablishSynchronizes(w);
      }
      OperationsSynchronize(Perform(w, ops[0]), ops[1..]);
    }
  }

  lemma StartSynchronized()
    ensures Synchronized(START)
  {
    hide Mentions;
  }

  /** After every operation of a sequential, successful run the server's assets are those of the open streams. */
  lemma ServerFollowsOpenStreams(ops: seq<Operation>, id: string)
    ensures var w := PerformAll(START, ops);
            id in w.server <==> Held(w.streams, IsOpen, id) > 0
  {
    hide PerformAll, Held, Mentions;
    StartSynchronized();
    OperationsSynchronize(START, ops);
    OpenIsHeld(PerformAll(START, ops).streams, id);
  }

  // ---------------------------------------------------------------- what overlapping operations can do

  /**
    A stream that opens between another one's giving up the last reference and its telling the server
    is cut off: its asset is counted, but the late unsubscribe removes it from the server.
   */
  lemma LateUnsubscribeCutsOffNewStream(w: World, i: nat, id: string)
    requires Synchronized(w) && id != "" && At(w, i) == Open && w.streams[i].ids == [id] && Ref(w.refs, id) == 1
    ensures var n := |w.streams|;
            var steps := [BeginClose(i), Release(i), Begin([id]), Finish(n, true, OK), TellServer(i, OK)];
            var w' := Run(w, steps);
            && w'.link == Up && At(w', n) == Open && w'.streams[n].ids == [id]
            && Ref(w'.refs, id) == 1 && id !in w'.server
  {
    hide Conserved, Mentions, Held;
    var n := |w.streams|;
    var w1 := Apply(w, BeginClose(i));
    var w2 := Apply(w1, Release(i));
    OneIdFacts(w.refs, id);
    assert w2.refs == w.refs - {id} && At(w2, i) == Unsubscribing([id]);
    var w3 := Apply(w2, Begin([id]));
    OneIdFacts(w2.refs, id);
    assert w3.streams[n] == Stream([id], Opening([id]));
    var w4 := Apply(w3, Finish(n, true, OK));
    assert At(w4, i) == Unsubscribing([id]) && At(w4, n) == Open;
    var w5 := Apply(w4, TellServer(i, OK));
    FiveSteps(w, BeginClose(i), Release(i), Begin([id]), Finish(n, true, OK), TellServer(i, OK));
  }

  lemma OneIdFacts(refs: Refs, id: string)
    requires id != ""
    ensures Added(refs, [id]) == refs[id := Ref(refs, id) + 1]
    ensures Ref(refs, id) == 0 ==> Fresh(refs, [id]) == [id]
    ensures Ref(refs, id) == 1 ==> Removed(refs, [id]) == refs - {id} && Dropped(refs, [id]) == [id]
  {
    assert [id][1..] == [];
    assert Added(AddOne(refs, id), []) == AddOne(refs, id);
    assert Fresh(AddOne(refs, id), []) == [];
    assert Removed(RemoveOne(refs, id), []) == RemoveOne(refs, id);
    assert Dropped(RemoveOne(refs, id), []) == [];
  }

  lemma FiveSteps(w: World, a: Step, b: Step, c: Step, d: Step, e: Step)
    ensures Run(w, [a, b, c, d, e]) == Apply(Apply(Apply(Apply(Apply(w, a), b), c), d), e)
  {
    hide Apply;
    assert [a, b, c, d, e][1..] == [b, c, d, e];
    assert [b, c, d, e][1..] == [c, d, e];
    assert [c, d, e][1..] == [d, e];
    assert [d, e][1..] == [e];
    assert [e][1..] == [];
    var v := Apply(Apply(Apply(w, a), b), c);
    assert Run(Apply(v, d), [e]) == Apply(Apply(v, d), e);
    assert Run(Apply(Apply(w, a), b), [c, d, e]) == Run(v, [d, e]);
  }

  /**
    A connection made on the way to opening a stream, rather than by a reconnect, is told about the new
    assets only: every asset counted before is missing from it.
   */
  lemma ConnectingByOpeningForgetsAssets(w: World, ids: seq<string>, id: string)
    requires Conserved(w) && w.link == Down && w.server == {} && Ref(w.refs, id) > 0
    ensures var w' := Perform(w, OpenStream(ids));
            (ids != [] ==> w'.link == Up && At(w', |w.streams|) == Open) && Ref(w'.refs, id) > 0 && id !in w'.server
  {
    hide Mentions, Held, Added, Fresh, Positive;
    FreshExact(w.refs, ids);
    AddedCounts(w.refs, ids);
    var mid := Apply(w, Begin(ids));
    if ids != [] {
      assert mid.streams[|w.streams|] == Stream(ids, Opening(Fresh(w.refs, ids)));
    }
  }
}
