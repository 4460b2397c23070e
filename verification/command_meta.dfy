/** The metadata record the commands extension attaches to a transaction
    under its plugin key (`CommandExtensionMeta`), the defaults a missing
    field reads as (`DEFAULT_COMMAND_META`), and the forced-update set. */
module CommandMeta {
  import opened Wrappers

  /** Tracker ids are opaque values compared by identity. */
  type TrackerId = nat

  /** The view props a transaction can force to update (`UpdatableViewProps`). */
  datatype UpdatableViewProp = Attributes | Editable | NodeViews

  /** A tracker staged for addition, with every optional field resolved. */
  datatype TrackerAddition = TrackerAddition(id: TrackerId, from: nat, to: nat, nodeName: string, className: string)

  /** The meta value as stored: every field may be absent. */
  datatype PartialMeta = PartialMeta(
    forcedUpdates: Option<seq<UpdatableViewProp>>,
    added: Option<seq<TrackerAddition>>,
    removed: Option<seq<TrackerId>>,
    clearTrackers: Option<bool>)

  /** The meta value as read: every field present. */
  datatype Meta = Meta(
    forcedUpdates: seq<UpdatableViewProp>,
    added: seq<TrackerAddition>,
    removed: seq<TrackerId>,
    clearTrackers: bool)

  const DefaultMeta: Meta := Meta([], [], [], false)

  const NoFields: PartialMeta := PartialMeta(None, None, None, None)

  function Full(m: Meta): PartialMeta {
    PartialMeta(Some(m.forcedUpdates), Some(m.added), Some(m.removed), Some(m.clearTrackers))
  }

  /** Object spread `{ ...base, ...over }`: a field present in `over` wins. */
  function Spread(base: PartialMeta, over: PartialMeta): PartialMeta {
    PartialMeta(
      if over.forcedUpdates.Some? then over.forcedUpdates else base.forcedUpdates,
      if over.added.Some? then over.added else base.added,
      if over.removed.Some? then over.removed else base.removed,
      if over.clearTrackers.Some? then over.clearTrackers else base.clearTrackers)
  }

  /** `getMeta`: the stored value spread over the defaults. */
  function GetMeta(stored: Option<PartialMeta>): (m: Meta)
    ensures stored.None? ==> m == DefaultMeta
    ensures stored.Some? ==>
      && m.forcedUpdates == stored.value.forcedUpdates.GetOr(DefaultMeta.forcedUpdates)
      && m.added == stored.value.added.GetOr(DefaultMeta.added)
      && m.removed == stored.value.removed.GetOr(DefaultMeta.removed)
      && m.clearTrackers == stored.value.clearTrackers.GetOr(DefaultMeta.clearTrackers)
  {
    var p := Spread(Full(DefaultMeta), stored.GetOr(NoFields));
    Meta(p.forcedUpdates.value, p.added.value, p.removed.value, p.clearTrackers.value)
  }

  /** `setMeta`: the value stored after spreading `update` over what `getMeta` reads. */
  function SetMeta(stored: Option<PartialMeta>, update: PartialMeta): PartialMeta {
    Spread(Full(GetMeta(stored)), update)
  }

  /** After `setMeta`, a field reads as the update's value when the update
      has it, and as it read before otherwise. */
  lemma SetMetaReads(stored: Option<PartialMeta>, update: PartialMeta)
    ensures var m, m' := GetMeta(stored), GetMeta(Some(SetMeta(stored, update)));
      && m'.forcedUpdates == update.forcedUpdates.GetOr(m.forcedUpdates)
      && m'.added == update.added.GetOr(m.added)
      && m'.removed == update.removed.GetOr(m.removed)
      && m'.clearTrackers == update.clearTrackers.GetOr(m.clearTrackers)
  {
  }

  /** Reading back a stored value whose fields are all present changes nothing. */
  lemma GetMetaFull(m: Meta)
    ensures GetMeta(Some(Full(m))) == m
  {
  }

  ghost predicate NoDuplicates<T>(s: seq<T>) {
    forall i, j :: 0 <= i < j < |s| ==> s[i] != s[j]
  }

  /** `uniqueArray`: the first occurrence of every element, in order. */
  function UniqueArray<T(==)>(s: seq<T>): (r: seq<T>)
    ensures NoDuplicates(r)
    ensures forall i :: 0 <= i < |s| ==> s[i] in r
    ensures forall i :: 0 <= i < |r| ==> r[i] in s
    ensures |r| <= |s|
    decreases |s|
  {
    if s == [] then []
    else
      var prefix := UniqueArray(s[..|s| - 1]);
      var last := s[|s| - 1];
      if last in prefix then prefix else prefix + [last]
  }

  /** A duplicate-free sequence is its own `uniqueArray`. */
  lemma {:induction false} UniqueArrayOfUnique<T>(s: seq<T>)
    requires NoDuplicates(s)
    ensures UniqueArray(s) == s
    decreases |s|
  {
    if s != [] {
      var init := s[..|s| - 1];
      assert NoDuplicates(init);
      UniqueArrayOfUnique(init);
      assert s[|s| - 1] !in init;
      assert init + [s[|s| - 1]] == s;
    }
  }

  /** Appending elements already present leaves a duplicate-free sequence as it is. */
  lemma {:induction false} UniqueArrayAbsorbs<T>(u: seq<T>, k: seq<T>)
    requires NoDuplicates(u)
    requires forall i :: 0 <= i < |k| ==> k[i] in u
    ensures UniqueArray(u + k) == u
    decreases |k|
  {
    if k == [] {
      assert u + k == u;
      UniqueArrayOfUnique(u);
    } else {
      var k' := k[..|k| - 1];
      assert (u + k)[..|u + k| - 1] == u + k';
      assert (u + k)[|u + k| - 1] == k[|k| - 1];
      UniqueArrayAbsorbs(u, k');
    }
  }

  /** `uniqueArray` is idempotent. */
  lemma UniqueArrayIdempotent<T>(s: seq<T>)
    ensures UniqueArray(UniqueArray(s)) == UniqueArray(s)
  {
    UniqueArrayOfUnique(UniqueArray(s));
  }

  /** The stored meta after `forceUpdate(tr, ...keys)`. */
  function ForceUpdate(stored: Option<PartialMeta>, keys: seq<UpdatableViewProp>): (r: PartialMeta)
    ensures NoDuplicates(GetMeta(Some(r)).forcedUpdates)
    ensures forall k :: k in GetMeta(Some(r)).forcedUpdates <==>
      k in GetMeta(stored).forcedUpdates || k in keys
    ensures GetMeta(Some(r)).added == GetMeta(stored).added
    ensures GetMeta(Some(r)).removed == GetMeta(stored).removed
    ensures GetMeta(Some(r)).clearTrackers == GetMeta(stored).clearTrackers
  {
    var all := GetMeta(stored).forcedUpdates + keys;
    var u := UniqueArray(all);
    assert forall k :: k in u <==> k in all by {
      forall k | k in all ensures k in u {
        var i :| 0 <= i < |all| && all[i] == k;
      }
    }
    SetMeta(stored, PartialMeta(Some(u), None, None, None))
  }

  /** Forcing the same keys twice stores the same value as forcing them once. */
  lemma ForceUpdateIdempotent(stored: Option<PartialMeta>, keys: seq<UpdatableViewProp>)
    ensures ForceUpdate(Some(ForceUpdate(stored, keys)), keys) == ForceUpdate(stored, keys)
  {
    var once := ForceUpdate(stored, keys);
    var u := UniqueArray(GetMeta(stored).forcedUpdates + keys);
    assert GetMeta(Some(once)).forcedUpdates == u;
    UniqueArrayAbsorbs(u, keys);
  }

  /** `getForcedUpdates`. */
  function ForcedUpdates(stored: Option<PartialMeta>): seq<UpdatableViewProp> {
    GetMeta(stored).forcedUpdates
  }
}
