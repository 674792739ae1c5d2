/**
  Reference counts for subscribed ids, as the order-book client keeps them for assets and, with the
  same code, for user markets: lists may repeat ids and may contain empty ones, which are skipped.
 */
module RefCounts {

  type Refs = map<string, nat>

  function Ref(refs: Refs, id: string): nat {
    if id in refs then refs[id] else 0
  }

  /** Ids without references have no entry. */
  ghost predicate Positive(refs: Refs) {
    forall id :: id in refs ==> refs[id] > 0 && id != ""
  }

  /** How often a list mentions an id that counts. */
  function Mentions(ids: seq<string>, id: string): nat {
    if id == "" then 0 else multiset(ids)[id]
  }

  // ---------------------------------------------------------------- adding and removing

  function AddOne(refs: Refs, id: string): Refs {
    if id == "" then refs else refs[id := Ref(refs, id) + 1]
  }

  function Added(refs: Refs, ids: seq<string>): Refs
    decreases |ids|
  {
    if ids == [] then refs else Added(AddOne(refs, ids[0]), ids[1..])
  }

  /** The ids that must be announced to the server, in the order they came. */
  function Fresh(refs: Refs, ids: seq<string>): seq<string>
    decreases |ids|
  {
    if ids == [] then []
    else (if ids[0] != "" && Ref(refs, ids[0]) == 0 then [ids[0]] else []) + Fresh(AddOne(refs, ids[0]), ids[1..])
  }

  function RemoveOne(refs: Refs, id: string): Refs {
    if Ref(refs, id) <= 1 then refs - {id} else refs[id := refs[id] - 1]
  }

  function Removed(refs: Refs, ids: seq<string>): Refs
    decreases |ids|
  {
    if ids == [] then refs else Removed(RemoveOne(refs, ids[0]), ids[1..])
  }

  /** The ids whose last reference went away. */
  function Dropped(refs: Refs, ids: seq<string>): seq<string>
    decreases |ids|
  {
    if ids == [] then []
    else (if Ref(refs, ids[0]) == 1 then [ids[0]] else []) + Dropped(RemoveOne(refs, ids[0]), ids[1..])
  }

  method AddRefs(refs: Refs, ids: seq<string>) returns (out: Refs, announce: seq<string>)
    ensures out == Added(refs, ids) && announce == Fresh(refs, ids)
  {
    out, announce := refs, [];
    var i := 0;
    while i < |ids|
      invariant 0 <= i <= |ids|
      invariant Added(out, ids[i..]) == Added(refs, ids)
      invariant announce + Fresh(out, ids[i..]) == Fresh(refs, ids)
    {
      var id := ids[i];
      assert ids[i..][0] == id && ids[i..][1..] == ids[i + 1..];
      i := i + 1;
      if id == "" {
        continue;
      }
      if Ref(out, id) == 0 {
        announce := announce + [id];
      }
      out := out[id := Ref(out, id) + 1];
    }
  }

  method RemoveRefs(refs: Refs, ids: seq<string>) returns (out: Refs, dropped: seq<string>)
    requires Positive(refs)
    ensures out == Removed(refs, ids) && dropped == Dropped(refs, ids)
  {
    out, dropped := refs, [];
    var i := 0;
    while i < |ids|
      invariant 0 <= i <= |ids|
      invariant Positive(out)
      invariant Removed(out, ids[i..]) == Removed(refs, ids)
      invariant dropped + Dropped(out, ids[i..]) == Dropped(refs, ids)
    {
      var id := ids[i];
      assert ids[i..][0] == id && ids[i..][1..] == ids[i + 1..];
      i := i + 1;
      var count := Ref(out, id);
      if count <= 1 {
        if count > 0 {
          dropped := dropped + [id];
        }
        assert out - {id} == RemoveOne(out, id);
        if count == 0 {
          assert out - {id} == out;
        }
        out := out - {id};
        continue;
      }
      out := out[id := count - 1];
    }
  }

  // ---------------------------------------------------------------- what they do to each id

  lemma MentionsStep(ids: seq<string>, id: string)
    requires ids != []
    ensures Mentions(ids, id) == (if ids[0] == id && id != "" then 1 else 0) + Mentions(ids[1..], id)
  {
    assert ids == [ids[0]] + ids[1..];
  }

  /** Adding counts every mention. */
  lemma {:induction false} AddedCounts(refs: Refs, ids: seq<string>)
    ensures forall id :: Ref(Added(refs, ids), id) == Ref(refs, id) + Mentions(ids, id)
    ensures Positive(refs) ==> Positive(Added(refs, ids))
    decreases |ids|
  {
    if ids == [] {
    } else {
      AddedCounts(AddOne(refs, ids[0]), ids[1..]);
      forall id ensures Ref(Added(refs, ids), id) == Ref(refs, id) + Mentions(ids, id) {
        MentionsStep(ids, id);
      }
    }
  }

  ghost predicate Distinct(ids: seq<string>) {
    forall i, j :: 0 <= i < j < |ids| ==> ids[i] != ids[j]
  }

  /** Exactly the ids that go from none to some, each once. */
  lemma {:induction false} FreshExact(refs: Refs, ids: seq<string>)
    ensures forall id :: id in Fresh(refs, ids) <==> Ref(refs, id) == 0 && Ref(Added(refs, ids), id) > 0
    ensures Distinct(Fresh(refs, ids))
    decreases |ids|
  {
    if ids == [] {
    } else {
      var next := AddOne(refs, ids[0]);
      FreshExact(next, ids[1..]);
      AddedCounts(next, ids[1..]);
    }
  }

  /** Removing subtracts every mention, down to zero. */
  lemma {:induction false} RemovedCounts(refs: Refs, ids: seq<string>)
    requires Positive(refs)
    ensures forall id :: Ref(Removed(refs, ids), id)
                         == if Ref(refs, id) > Mentions(ids, id) then Ref(refs, id) - Mentions(ids, id) else 0
    ensures Positive(Removed(refs, ids))
    decreases |ids|
  {
    if ids == [] {
    } else {
      RemovedCounts(RemoveOne(refs, ids[0]), ids[1..]);
      forall id
        ensures Ref(Removed(refs, ids), id)
                == if Ref(refs, id) > Mentions(ids, id) then Ref(refs, id) - Mentions(ids, id) else 0
      {
        MentionsStep(ids, id);
      }
    }
  }

  /** Exactly the ids that go from some to none, each once. */
  lemma {:induction false} DroppedExact(refs: Refs, ids: seq<string>)
    requires Positive(refs)
    ensures forall id :: id in Dropped(refs, ids) <==> Ref(refs, id) > 0 && Ref(Removed(refs, ids), id) == 0
    ensures Distinct(Dropped(refs, ids))
    decreases |ids|
  {
    if ids == [] {
    } else {
      var next := RemoveOne(refs, ids[0]);
      assert Positive(next);
      DroppedExact(next, ids[1..]);
      RemovedCounts(next, ids[1..]);
    }
  }

  lemma RefsEqual(a: Refs, b: Refs)
    requires Positive(a) && Positive(b) && forall id :: Ref(a, id) == Ref(b, id)
    ensures a == b
  {
    forall id ensures id in a <==> id in b {
      assert Ref(a, id) == Ref(b, id);
    }
    forall id | id in a ensures a[id] == b[id] {
      assert Ref(a, id) == Ref(b, id);
    }
  }

  /** Removing a list that was just added restores the counts and takes back exactly what was announced. */
  lemma RemoveUndoesAdd(refs: Refs, ids: seq<string>)
    requires Positive(refs)
    ensures Removed(Added(refs, ids), ids) == refs
    ensures forall id :: id in Dropped(Added(refs, ids), ids) <==> id in Fresh(refs, ids)
  {
    var added := Added(refs, ids);
    AddedCounts(refs, ids);
    RemovedCounts(added, ids);
    FreshExact(refs, ids);
    DroppedExact(added, ids);
    RefsEqual(Removed(added, ids), refs);
  }

  /** The order of a list does not matter to the counts. */
  lemma AddedIgnoresOrder(refs: Refs, a: seq<string>, b: seq<string>)
    requires Positive(refs) && multiset(a) == multiset(b)
    ensures Added(refs, a) == Added(refs, b)
  {
    AddedCounts(refs, a);
    AddedCounts(refs, b);
    RefsEqual(Added(refs, a), Added(refs, b));
  }
}
