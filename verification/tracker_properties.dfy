/** What the tracker reducer and the staging operations guarantee together. */
module TrackerProperties {
  import opened Wrappers
  import opened Document
  import opened CommandMeta
  import opened Trackers

  /** Every decoration carries the spec the reducer gives trackers. */
  ghost predicate TrackerSpecs(s: DecorationSet) {
    forall i :: 0 <= i < |s| ==> s[i].spec.props == TrackerProps()
  }

  lemma {:induction false} MapSetKeepsSpecs(s: DecorationSet, steps: seq<Step>)
    requires TrackerSpecs(s)
    ensures TrackerSpecs(MapSet(s, steps))
    decreases |s|
  {
    if s != [] {
      assert TrackerSpecs(s[1..]) by {
        forall i | 0 <= i < |s[1..]| ensures s[1..][i].spec.props == TrackerProps() {
          assert s[1..][i] == s[i + 1];
        }
      }
      MapSetKeepsSpecs(s[1..], steps);
    }
  }

  /** The decorations `decorationSet.add` keeps from a list of additions,
      in order: each addition's decoration unless it is a reversed range. */
  function AdmittedDecorations(added: seq<TrackerAddition>): seq<Decoration>
    decreases |added|
  {
    if added == [] then []
    else
      var d := TrackerDecoration(added[0]);
      (if Admitted(d) then [d] else []) + AdmittedDecorations(added[1..])
  }

  lemma {:induction false} AdmittedDecorationsSnoc(added: seq<TrackerAddition>, a: TrackerAddition)
    ensures AdmittedDecorations(added + [a]) ==
      AdmittedDecorations(added) + (if a.from <= a.to then [TrackerDecoration(a)] else [])
    decreases |added|
  {
    if added == [] {
      assert [] + [a] == [a] && [a][1..] == [];
    } else {
      assert (added + [a])[0] == added[0] && (added + [a])[1..] == added[1..] + [a];
      AdmittedDecorationsSnoc(added[1..], a);
    }
  }

  /** A decoration is kept exactly when it is the decoration of an ordered addition. */
  lemma {:induction false} AdmittedDecorationsMembers(added: seq<TrackerAddition>, d: Decoration)
    ensures d in AdmittedDecorations(added) <==>
      exists i :: 0 <= i < |added| && added[i].from <= added[i].to && d == TrackerDecoration(added[i])
    decreases |added|
  {
    if added != [] {
      AdmittedDecorationsMembers(added[1..], d);
      if d in AdmittedDecorations(added[1..]) {
        var i :| 0 <= i < |added[1..]| && added[1..][i].from <= added[1..][i].to && d == TrackerDecoration(added[1..][i]);
        assert added[i + 1] == added[1..][i];
      }
      if exists i :: 0 <= i < |added| && added[i].from <= added[i].to && d == TrackerDecoration(added[i]) {
        var i :| 0 <= i < |added| && added[i].from <= added[i].to && d == TrackerDecoration(added[i]);
        if i > 0 {
          assert added[1..][i - 1] == added[i];
        }
      }
    }
  }

  /** The additions land after the mapped set, as the decorations `decorationSet.add` admits. */
  lemma {:induction false} AddAllContents(s: DecorationSet, added: seq<TrackerAddition>)
    ensures AddAll(s, added) == s + AdmittedDecorations(added)
    decreases |added|
  {
    if added != [] {
      var init, last := added[..|added| - 1], added[|added| - 1];
      AddAllContents(s, init);
      AdmittedDecorationsSnoc(init, last);
      assert init + [last] == added;
    }
  }

  lemma AddAllKeepsSpecs(s: DecorationSet, added: seq<TrackerAddition>)
    requires TrackerSpecs(s)
    ensures TrackerSpecs(AddAll(s, added))
  {
    AddAllContents(s, added);
    var r := AddAll(s, added);
    forall i | 0 <= i < |r| ensures r[i].spec.props == TrackerProps() {
      if i >= |s| {
        assert r[i] == AdmittedDecorations(added)[i - |s|];
        AdmittedDecorationsMembers(added, r[i]);
      }
    }
  }

  /** Adding keeps every decoration in place: reversed ranges never get in. */
  lemma AddAllPlaced(s: DecorationSet, added: seq<TrackerAddition>)
    requires Placed(s)
    ensures Placed(AddAll(s, added))
  {
    AddAllContents(s, added);
    var r := AddAll(s, added);
    forall i | 0 <= i < |r|
      ensures (r[i].kind.Widget? ==> r[i].from == r[i].to) && (r[i].kind.Inline? ==> r[i].from < r[i].to)
    {
      if i >= |s| {
        assert r[i] == AdmittedDecorations(added)[i - |s|];
        AdmittedDecorationsMembers(added, r[i]);
      }
    }
  }

  /** The reducer's result is always placed, whatever it started from. */
  lemma ReducePlaced(s: DecorationSet, steps: seq<Step>, meta: Meta, key: string)
    ensures Placed(Reduce(s, steps, meta, key))
  {
    if !meta.clearTrackers {
      MapSetPlaced(s, steps);
      var withAdded := AddAll(MapSet(s, steps), meta.added);
      AddAllPlaced(MapSet(s, steps), meta.added);
      var r := Reduce(s, steps, meta, key);
      forall i | 0 <= i < |r|
        ensures (r[i].kind.Widget? ==> r[i].from == r[i].to) && (r[i].kind.Inline? ==> r[i].from < r[i].to)
      {
        RemoveAllMembers(withAdded, meta.removed, key, r[i]);
        var j :| 0 <= j < |withAdded| && withAdded[j] == r[i];
      }
    }
  }

  /** No id of `removed` matches the decoration. */
  ghost predicate Survives(d: Decoration, removed: seq<TrackerId>, key: string) {
    forall i :: 0 <= i < |removed| ==> !Matches(d.spec, removed[i], key)
  }

  /** A decoration survives the removals exactly when it was there and no
      removed id matches it. */
  lemma {:induction false} RemoveAllMembers(s: DecorationSet, removed: seq<TrackerId>, key: string, d: Decoration)
    ensures d in RemoveAll(s, removed, key) <==> d in s && Survives(d, removed, key)
    decreases |removed|
  {
    if removed != [] {
      var init, last := removed[..|removed| - 1], removed[|removed| - 1];
      RemoveAllMembers(s, init, key, d);
      assert removed == init + [last];
      assert Survives(d, removed, key) <==> Survives(d, init, key) && !Matches(d.spec, last, key) by {
        if Survives(d, init, key) && !Matches(d.spec, last, key) {
          forall i | 0 <= i < |removed| ensures !Matches(d.spec, removed[i], key) {
            if i < |init| { assert removed[i] == init[i]; }
          }
        }
        if Survives(d, removed, key) {
          forall i | 0 <= i < |init| ensures !Matches(d.spec, init[i], key) {
            assert init[i] == removed[i];
          }
          assert !Matches(d.spec, removed[|removed| - 1], key);
        }
      }
    }
  }

  /** The reducer only ever produces tracker decorations. */
  lemma ReduceKeepsSpecs(s: DecorationSet, steps: seq<Step>, meta: Meta, key: string)
    requires TrackerSpecs(s)
    ensures TrackerSpecs(Reduce(s, steps, meta, key))
  {
    if !meta.clearTrackers {
      var withAdded := AddAll(MapSet(s, steps), meta.added);
      MapSetKeepsSpecs(s, steps);
      AddAllKeepsSpecs(MapSet(s, steps), meta.added);
      var r := Reduce(s, steps, meta, key);
      forall i | 0 <= i < |r| ensures r[i].spec.props == TrackerProps() {
        RemoveAllMembers(withAdded, meta.removed, key, r[i]);
      }
    }
  }

  // ---------------------------------------------------------------------------
  // The removal key as written: `spec.name` is never set

  /** On tracker decorations the as-written removal predicate matches nothing. */
  lemma {:induction false} NameKeyNeverMatches(s: DecorationSet, id: TrackerId)
    requires TrackerSpecs(s)
    ensures RemoveMatching(s, id, NameKey) == s
    decreases |s|
  {
    if s != [] {
      assert s[0].spec.props == TrackerProps();
      assert TrackerSpecs(s[1..]) by {
        forall i | 0 <= i < |s[1..]| ensures s[1..][i].spec.props == TrackerProps() {
          assert s[1..][i] == s[i + 1];
        }
      }
      NameKeyNeverMatches(s[1..], id);
      assert [s[0]] + s[1..] == s;
    }
  }

  lemma {:induction false} NameKeyRemovesNothing(s: DecorationSet, removed: seq<TrackerId>)
    requires TrackerSpecs(s)
    ensures RemoveAll(s, removed, NameKey) == s
    decreases |removed|
  {
    if removed != [] {
      NameKeyRemovesNothing(s, removed[..|removed| - 1]);
      NameKeyNeverMatches(s, removed[|removed| - 1]);
    }
  }

  /** As written, the reducer ignores `removed` altogether. */
  lemma ReduceAsWrittenIgnoresRemovals(s: DecorationSet, steps: seq<Step>, meta: Meta)
    requires TrackerSpecs(s)
    ensures Reduce(s, steps, meta, NameKey) ==
      if meta.clearTrackers then [] else AddAll(MapSet(s, steps), meta.added)
  {
    MapSetKeepsSpecs(s, steps);
    AddAllKeepsSpecs(MapSet(s, steps), meta.added);
    NameKeyRemovesNothing(AddAll(MapSet(s, steps), meta.added), meta.removed);
  }

  /** The input that shows it: tracker 7 is committed, its removal is staged
      and committed, and it is still found afterwards. */
  lemma AsWrittenRemovalKeepsTracker()
    ensures var committed := [TrackerDecoration(TrackerAddition(7, 2, 2, "span", "remirror-tracker-position"))];
      var staged := StageRemoval(committed, None, 7, false);
      && staged.ok
      && Find(Reduce(committed, [], GetMeta(staged.meta), NameKey), 7) == Some(Range(2, 2))
  {
    var committed := [TrackerDecoration(TrackerAddition(7, 2, 2, "span", "remirror-tracker-position"))];
    var staged := StageRemoval(committed, None, 7, false);
    assert committed[0].spec.id == 7;
    assert TrackerSpecs(committed);
    ReduceAsWrittenIgnoresRemovals(committed, [], GetMeta(staged.meta));
    assert GetMeta(staged.meta).added == [];
    assert MapSet(committed, []) == committed;
  }

  // ---------------------------------------------------------------------------
  // The reducer with the removal key the trackers are created with

  /** Removals run after additions: a removed id is gone, even when it was
      added by the same transaction. */
  lemma RemovedTrackerIsGone(s: DecorationSet, steps: seq<Step>, meta: Meta, id: TrackerId)
    requires TrackerSpecs(s)
    requires !meta.clearTrackers && id in meta.removed
    ensures Find(Reduce(s, steps, meta, TypeKey), id).None?
  {
    var withAdded := AddAll(MapSet(s, steps), meta.added);
    MapSetKeepsSpecs(s, steps);
    AddAllKeepsSpecs(MapSet(s, steps), meta.added);
    var r := Reduce(s, steps, meta, TypeKey);
    var k :| 0 <= k < |meta.removed| && meta.removed[k] == id;
    forall i | 0 <= i < |r| ensures r[i].spec.id != id {
      RemoveAllMembers(withAdded, meta.removed, TypeKey, r[i]);
      var j :| 0 <= j < |withAdded| && withAdded[j] == r[i];
      assert withAdded[j].spec.props == TrackerProps();
      assert !Matches(r[i].spec, meta.removed[k], TypeKey);
    }
  }

  /** An addition whose id is not removed is in the result: a widget when
      its range is empty, an inline range otherwise. */
  lemma AddedTrackerIsPresent(s: DecorationSet, steps: seq<Step>, meta: Meta, a: TrackerAddition, key: string)
    requires !meta.clearTrackers && a in meta.added && a.id !in meta.removed
    requires a.from <= a.to
    ensures TrackerDecoration(a) in Reduce(s, steps, meta, key)
    ensures TrackerDecoration(a).kind.Widget? <==> a.from == a.to
  {
    var withAdded := AddAll(MapSet(s, steps), meta.added);
    AddAllContents(MapSet(s, steps), meta.added);
    var k :| 0 <= k < |meta.added| && meta.added[k] == a;
    AdmittedDecorationsMembers(meta.added, TrackerDecoration(a));
    assert TrackerDecoration(a) in withAdded;
    RemoveAllMembers(withAdded, meta.removed, key, TrackerDecoration(a));
  }

  /** An addition whose range is reversed never reaches the result:
      `decorationSet.add` drops it and nothing else produces it. */
  lemma ReversedAdditionIsDropped(s: DecorationSet, steps: seq<Step>, meta: Meta, a: TrackerAddition, key: string)
    requires a.from > a.to
    ensures TrackerDecoration(a) !in Reduce(s, steps, meta, key)
  {
    var d := TrackerDecoration(a);
    if !meta.clearTrackers {
      var mapped := MapSet(s, steps);
      var withAdded := AddAll(mapped, meta.added);
      RemoveAllMembers(withAdded, meta.removed, key, d);
      AddAllContents(mapped, meta.added);
      AdmittedDecorationsMembers(meta.added, d);
      MapSetPlaced(s, steps);
    }
  }

  /** The input that shows it: with the cursor at 2, `addPositionTracker({id:
      7, from: 5})` gets the range `[5, 2)`. The add is accepted, the
      committed overlay does not hold tracker 7, and adding 7 again is
      accepted too. */
  lemma ReversedTrackerAddedTwice(key: string)
    ensures var p := TrackerRequest(7, Some(5), None, None, None);
      var first := StageAddition([], None, p, Selection(2, 2), DefaultTrackerOptions, false);
      var committed := Reduce([], [], GetMeta(first.meta), key);
      && first.ok
      && Find(committed, 7).None?
      && StageAddition(committed, None, p, Selection(2, 2), DefaultTrackerOptions, false).ok
  {
    var p := TrackerRequest(7, Some(5), None, None, None);
    var first := StageAddition([], None, p, Selection(2, 2), DefaultTrackerOptions, false);
    var m := GetMeta(first.meta);
    assert m.added == [TrackerAddition(7, 5, 2, "span", "remirror-tracker-position")];
    assert m.added[..0] == [];
    assert AddAll(MapSet([], []), m.added) == [];
  }

  /** A clear drops every tracker, including those added alongside it. */
  lemma ClearedTrackersAreGone(committed: DecorationSet, stored: Option<PartialMeta>, steps: seq<Step>,
                               id: TrackerId, key: string)
    requires StageClear(committed, stored, false).ok
    ensures Reduce(committed, steps, GetMeta(StageClear(committed, stored, false).meta), key) == []
    ensures Find(Reduce(committed, steps, GetMeta(StageClear(committed, stored, false).meta), key), id).None?
  {
  }

  /** Adding an id with an ordered range, committing, and adding it again:
      the second add is refused (ReversedTrackerAddedTwice shows a reversed
      range is not). */
  lemma SecondAddRefused(committed: DecorationSet, p: TrackerRequest, sel: Selection, options: TrackerOptions,
                         steps: seq<Step>, key: string,
                         stored: Option<PartialMeta>, sel': Selection, checkOnly: bool)
    requires StageAddition(committed, None, p, sel, options, false).ok
    requires p.from.GetOr(sel.from) <= p.to.GetOr(sel.to)
    ensures var m := GetMeta(StageAddition(committed, None, p, sel, options, false).meta);
      !StageAddition(Reduce(committed, steps, m, key), stored, p, sel', options, checkOnly).ok
  {
    var m := GetMeta(StageAddition(committed, None, p, sel, options, false).meta);
    var a := m.added[|m.added| - 1];
    assert m.removed == [] && !m.clearTrackers;
    AddedTrackerIsPresent(committed, steps, m, a, key);
    var r := Reduce(committed, steps, m, key);
    var i :| 0 <= i < |r| && r[i] == TrackerDecoration(a);
    assert r[i].spec.id == p.id;
  }

  /** Text inserted at or before a tracker shifts it by the text's length. */
  lemma InsertionBeforeTrackerShifts(d: Decoration, at: nat, text: string)
    requires at <= d.from
    requires d.kind.Widget? || d.from < d.to
    ensures MapDecoration(d, [Replace(at, at, text)]) ==
      Some(d.(from := d.from + |text|, to := if d.kind.Widget? then d.from + |text| else d.to + |text|))
  {
    MapStepsSingle(Replace(at, at, text), d.from, 1);
    MapStepsSingle(Replace(at, at, text), d.to, -1);
    InsertionShifts(at, text, d.from, 1);
    InsertionShifts(at, text, d.to, -1);
  }

  /** Widgets sit at a point and inline decorations cover a non-empty range. */
  ghost predicate Placed(s: DecorationSet) {
    forall i :: 0 <= i < |s| ==>
      (s[i].kind.Widget? ==> s[i].from == s[i].to) && (s[i].kind.Inline? ==> s[i].from < s[i].to)
  }

  /** A decoration is in the mapped set exactly when it is the image of one
      that survives mapping. */
  lemma {:induction false} MapSetMembers(s: DecorationSet, steps: seq<Step>, d: Decoration)
    ensures d in MapSet(s, steps) <==> exists i :: 0 <= i < |s| && MapDecoration(s[i], steps) == Some(d)
    decreases |s|
  {
    if s != [] {
      MapSetMembers(s[1..], steps, d);
      if d in MapSet(s[1..], steps) {
        var i :| 0 <= i < |s[1..]| && MapDecoration(s[1..][i], steps) == Some(d);
        assert s[i + 1] == s[1..][i];
      }
      if exists i :: 0 <= i < |s| && MapDecoration(s[i], steps) == Some(d) {
        var i :| 0 <= i < |s| && MapDecoration(s[i], steps) == Some(d);
        if i > 0 {
          assert s[1..][i - 1] == s[i];
        }
      }
    }
  }

  /** Mapping keeps every surviving decoration in place. */
  lemma MapSetPlaced(s: DecorationSet, steps: seq<Step>)
    ensures Placed(MapSet(s, steps))
  {
    var r := MapSet(s, steps);
    forall i | 0 <= i < |r|
      ensures (r[i].kind.Widget? ==> r[i].from == r[i].to) && (r[i].kind.Inline? ==> r[i].from < r[i].to)
    {
      assert r[i] in r;
      MapSetMembers(s, steps, r[i]);
      var j :| 0 <= j < |s| && MapDecoration(s[j], steps) == Some(r[i]);
    }
  }

  lemma FindCons(d: Decoration, rest: DecorationSet, id: TrackerId)
    ensures Find([d] + rest, id) == if d.spec.id == id then Some(Range(d.from, d.to)) else Find(rest, id)
  {
    assert ([d] + rest)[0] == d && ([d] + rest)[1..] == rest;
  }

  /** A placed decoration starting at or after an insertion moves by its length. */
  lemma PlacedShifts(d: Decoration, at: nat, text: string)
    requires (d.kind.Widget? ==> d.from == d.to) && (d.kind.Inline? ==> d.from < d.to)
    requires at <= d.from
    ensures MapDecoration(d, [Replace(at, at, text)]) == Some(d.(from := d.from + |text|, to := d.to + |text|))
  {
    InsertionBeforeTrackerShifts(d, at, text);
  }

  /** Mapping a set: its first decoration's image, if it survives, comes first. */
  lemma MapSetCons(s: DecorationSet, steps: seq<Step>)
    requires s != []
    ensures MapSet(s, steps) ==
      (if MapDecoration(s[0], steps).Some? then [MapDecoration(s[0], steps).value] else []) + MapSet(s[1..], steps)
  {
  }

  /** Mapping keeps the set's order: the images of an earlier part come
      before those of a later part. */
  lemma {:induction false} MapSetAppend(a: DecorationSet, b: DecorationSet, steps: seq<Step>)
    ensures MapSet(a + b, steps) == MapSet(a, steps) + MapSet(b, steps)
    decreases |a|
  {
    if a == [] {
      assert a + b == b;
    } else {
      assert (a + b)[0] == a[0] && (a + b)[1..] == a[1..] + b;
      MapSetAppend(a[1..], b, steps);
      MapSetCons(a + b, steps);
      MapSetCons(a, steps);
    }
  }

  /** Text inserted at or before a tracker's start: `findPositionTracker`
      then reports the tracker's range shifted by the text's length. */
  lemma {:induction false} TrackerFollowsInsertion(s: DecorationSet, id: TrackerId, rg: Range, at: nat, text: string)
    requires Placed(s)
    requires Find(s, id) == Some(rg) && at <= rg.from
    ensures Find(MapSet(s, [Replace(at, at, text)]), id) == Some(Range(rg.from + |text|, rg.to + |text|))
    decreases |s|
  {
    var steps := [Replace(at, at, text)];
    if s[0].spec.id == id {
      MapSetCons(s, steps);
      PlacedShifts(s[0], at, text);
      FindCons(MapDecoration(s[0], steps).value, MapSet(s[1..], steps), id);
    } else {
      PlacedTail(s);
      FindSkip(s, id);
      TrackerFollowsInsertion(s[1..], id, rg, at, text);
      FindPastOtherHead(s, steps, id);
    }
  }

  /** Past a first decoration with another id, the search goes on in the rest. */
  lemma FindSkip(s: DecorationSet, id: TrackerId)
    requires s != [] && s[0].spec.id != id
    ensures Find(s[1..], id) == Find(s, id)
  {
  }

  /** A first decoration with another id does not change what is found after mapping. */
  lemma FindPastOtherHead(s: DecorationSet, steps: seq<Step>, id: TrackerId)
    requires s != [] && s[0].spec.id != id
    ensures Find(MapSet(s, steps), id) == Find(MapSet(s[1..], steps), id)
  {
    var head := MapDecoration(s[0], steps);
    var rest := MapSet(s[1..], steps);
    MapSetCons(s, steps);
    if head.Some? {
      FindCons(head.value, rest, id);
    } else {
      assert MapSet(s, steps) == rest;
    }
  }

  lemma PlacedTail(s: DecorationSet)
    requires Placed(s) && s != []
    ensures Placed(s[1..])
  {
    forall i | 0 <= i < |s[1..]|
      ensures (s[1..][i].kind.Widget? ==> s[1..][i].from == s[1..][i].to) &&
              (s[1..][i].kind.Inline? ==> s[1..][i].from < s[1..][i].to)
    {
      assert s[1..][i] == s[i + 1];
    }
  }
}
