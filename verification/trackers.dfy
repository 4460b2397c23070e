/** The position-tracker overlay: the plugin state is a set of decorations,
    each carrying the tracker id in its spec. Adding, removing and clearing
    trackers is staged as transaction meta, and the plugin's `apply`
    reduces that meta into the next decoration set. */
module Trackers {
  import opened Wrappers
  import opened Document
  import opened CommandMeta
  import opened Transactions

  /** The extension's name (`this.name`), written into every tracker spec. */
  const ExtensionName: string := "commands"

  /** The spec key the trackers are created with (`{ id, type: this.name }`). */
  const TypeKey: string := "type"

  /** The spec key the removal looks up (`spec.name === this.name`). */
  const NameKey: string := "name"

  /** A zero-width widget renders an element of `nodeName`; an inline
      decoration wraps the range in `nodeName` with `className`. */
  datatype DecorationKind = Widget(nodeName: string) | Inline(nodeName: string, className: string)

  /** The spec object: the tracker id and the other keys it was given. */
  datatype DecorationSpec = DecorationSpec(id: TrackerId, props: map<string, string>)

  datatype Decoration = Decoration(from: nat, to: nat, kind: DecorationKind, spec: DecorationSpec)

  /** A `DecorationSet`, in the order decorations were added. */
  type DecorationSet = seq<Decoration>

  datatype Range = Range(from: nat, to: nat)

  /** The extension's static options. */
  datatype TrackerOptions = TrackerOptions(trackerClassName: string, trackerNodeName: string)

  const DefaultTrackerOptions: TrackerOptions := TrackerOptions("remirror-tracker-position", "span")

  /** The argument of `addPositionTracker`; every field but the id may be absent. */
  datatype TrackerRequest = TrackerRequest(
    id: TrackerId, from: Option<nat>, to: Option<nat>, className: Option<string>, nodeName: Option<string>)

  // ---------------------------------------------------------------------------
  // Reading the committed overlay

  /** `findPositionTracker`: the range of the first decoration with the id. */
  function Find(s: DecorationSet, id: TrackerId): (r: Option<Range>)
    ensures r.Some? <==> exists i :: 0 <= i < |s| && s[i].spec.id == id
    ensures r.Some? ==>
      exists i :: 0 <= i < |s| && s[i].spec.id == id && r.value == Range(s[i].from, s[i].to) &&
        forall j :: 0 <= j < i ==> s[j].spec.id != id
    decreases |s|
  {
    if s == [] then None
    else if s[0].spec.id == id then Some(Range(s[0].from, s[0].to))
    else
      var r := Find(s[1..], id);
      if r.Some? then
        ghost var i :| 0 <= i < |s[1..]| && s[1..][i].spec.id == id &&
          r.value == Range(s[1..][i].from, s[1..][i].to) && forall j :: 0 <= j < i ==> s[1..][j].spec.id != id;
        assert s[i + 1] == s[1..][i];
        r
      else
        assert forall i :: 1 <= i < |s| ==> s[i] == s[1..][i - 1];
        r
  }

  // ---------------------------------------------------------------------------
  // Mapping through a transaction (`DecorationSet.map(tr.mapping, tr.doc)`)

  /** A widget sticks to the right and disappears when its position is
      deleted; an inline range maps its start to the right and its end to the
      left and disappears when it becomes empty. */
  function MapDecoration(d: Decoration, steps: seq<Step>): (r: Option<Decoration>)
    ensures r.Some? ==> r.value.spec == d.spec && r.value.kind == d.kind
    ensures r.Some? && d.kind.Widget? ==> r.value.from == r.value.to
    ensures r.Some? && d.kind.Inline? ==> r.value.from < r.value.to
    ensures d.kind.Inline? ==> (r.None? <==> MapSteps(steps, d.from, 1).pos >= MapSteps(steps, d.to, -1).pos)
    ensures d.kind.Widget? ==> (r.None? <==> MapSteps(steps, d.from, 1).deleted)
  {
    match d.kind
    case Widget(_) =>
      var m := MapSteps(steps, d.from, 1);
      if m.deleted then None else Some(d.(from := m.pos, to := m.pos))
    case Inline(_, _) =>
      var f := MapSteps(steps, d.from, 1).pos;
      var t := MapSteps(steps, d.to, -1).pos;
      if f >= t then None else Some(d.(from := f, to := t))
  }

  /** The decorations that survive mapping, each mapped, in their order. */
  function MapSet(s: DecorationSet, steps: seq<Step>): (r: DecorationSet)
    ensures |r| <= |s|
    decreases |s|
  {
    if s == [] then []
    else
      var rest := MapSet(s[1..], steps);
      match MapDecoration(s[0], steps)
      case Some(d) => [d] + rest
      case None => rest
  }

  // ---------------------------------------------------------------------------
  // The reducer (plugin `state.apply`)

  /** The spec props every tracker decoration is created with. */
  function TrackerProps(): map<string, string> {
    map[TypeKey := ExtensionName]
  }

  /** The decoration an addition becomes: a widget at `from` when the range
      is empty, an inline range otherwise. */
  function TrackerDecoration(a: TrackerAddition): (d: Decoration)
    ensures d.spec == DecorationSpec(a.id, TrackerProps())
    ensures d.kind.Widget? <==> a.from == a.to
    ensures d.from == a.from && d.to == a.to
    ensures Admitted(d) <==> a.from <= a.to
  {
    if a.from == a.to then Decoration(a.from, a.from, Widget(a.nodeName), DecorationSpec(a.id, TrackerProps()))
    else Decoration(a.from, a.to, Inline(a.nodeName, a.className), DecorationSpec(a.id, TrackerProps()))
  }

  /** ProseMirror's `InlineType.valid`: `decorationSet.add` keeps an inline
      decoration only when `from < to`; widgets are always kept. */
  predicate Admitted(d: Decoration) {
    d.kind.Inline? ==> d.from < d.to
  }

  /** The additions, in order, each through `decorationSet.add`, which drops
      the decorations it does not admit. */
  function AddAll(s: DecorationSet, added: seq<TrackerAddition>): DecorationSet
    decreases |added|
  {
    if added == [] then s
    else
      var d := TrackerDecoration(added[|added| - 1]);
      AddAll(s, added[..|added| - 1]) + (if Admitted(d) then [d] else [])
  }

  /** The removal predicate, looking up `key` in the spec for the extension's name. */
  predicate Matches(spec: DecorationSpec, id: TrackerId, key: string) {
    spec.id == id && key in spec.props && spec.props[key] == ExtensionName
  }

  /** `decorationSet.remove(decorationSet.find(undefined, undefined, predicate))`. */
  function RemoveMatching(s: DecorationSet, id: TrackerId, key: string): (r: DecorationSet)
    ensures forall d :: d in r ==> d in s && !Matches(d.spec, id, key)
    ensures forall d :: d in s && !Matches(d.spec, id, key) ==> d in r
    decreases |s|
  {
    if s == [] then []
    else (if Matches(s[0].spec, id, key) then [] else [s[0]]) + RemoveMatching(s[1..], id, key)
  }

  /** The removals, in order. */
  function RemoveAll(s: DecorationSet, removed: seq<TrackerId>, key: string): DecorationSet
    decreases |removed|
  {
    if removed == [] then s
    else RemoveMatching(RemoveAll(s, removed[..|removed| - 1], key), removed[|removed| - 1], key)
  }

  /** The plugin state after a transaction: map, then a clear wins outright,
      then additions, then removals. `key` is the spec key the removal
      predicate reads. */
  function Reduce(s: DecorationSet, steps: seq<Step>, meta: Meta, key: string): DecorationSet {
    var mapped := MapSet(s, steps);
    if meta.clearTrackers then [] else RemoveAll(AddAll(mapped, meta.added), meta.removed, key)
  }

  /** Plugin `apply` as the source runs it: a loop over `added`, then a loop
      over `removed`, reassigning the decoration set. */
  method ApplyTrackers(tr: Transaction, decorationSet: DecorationSet, key: string) returns (r: DecorationSet)
    ensures r == Reduce(decorationSet, tr.steps, GetMeta(tr.meta), key)
  {
    var mapped := MapSet(decorationSet, tr.steps);
    var meta := GetMeta(tr.meta);
    if meta.clearTrackers {
      return [];
    }
    r := AddEach(mapped, meta.added);
    r := RemoveEach(r, meta.removed, key);
  }

  /** The loop over `added`: each addition's decoration is appended when
      `decorationSet.add` admits it. */
  method AddEach(s: DecorationSet, added: seq<TrackerAddition>) returns (r: DecorationSet)
    ensures r == AddAll(s, added)
  {
    r := s;
    var i := 0;
    while i < |added|
      invariant 0 <= i <= |added|
      invariant r == AddAll(s, added[..i])
    {
      assert added[..i + 1][..i] == added[..i];
      var d := TrackerDecoration(added[i]);
      if Admitted(d) {
        r := r + [d];
      }
      i := i + 1;
    }
    assert added[..i] == added;
  }

  /** The loop over `removed`: each id's matching decorations are dropped. */
  method RemoveEach(s: DecorationSet, removed: seq<TrackerId>, key: string) returns (r: DecorationSet)
    ensures r == RemoveAll(s, removed, key)
  {
    r := s;
    var j := 0;
    while j < |removed|
      invariant 0 <= j <= |removed|
      invariant r == RemoveAll(s, removed[..j], key)
    {
      assert removed[..j + 1][..j] == removed[..j];
      r := RemoveMatching(r, removed[j], key);
      j := j + 1;
    }
    assert removed[..j] == removed;
  }

  // ---------------------------------------------------------------------------
  // Staging tracker changes on a transaction's meta

  /** What a tracker operation returns and the meta it leaves on the transaction. */
  datatype Staged = Staged(ok: bool, meta: Option<PartialMeta>)

  /** The class list `[trackerClassName, className].join(' ')`, the custom
      class only when it is a non-empty string. */
  function ClassNames(trackerClassName: string, className: Option<string>): string {
    if className.Some? && className.value != "" then trackerClassName + " " + className.value
    else trackerClassName
  }

  /** `addPositionTracker`: refused when the committed overlay already holds
      the id (trackers staged on the same transaction are not consulted);
      check-only succeeds without touching the meta; otherwise exactly one
      addition is appended, its range defaulting to the selection. */
  function StageAddition(committed: DecorationSet, stored: Option<PartialMeta>, p: TrackerRequest,
                         sel: Selection, options: TrackerOptions, checkOnly: bool): (r: Staged)
    ensures r.ok <==> Find(committed, p.id).None?
    ensures !r.ok || checkOnly ==> r.meta == stored
    ensures r.ok && !checkOnly ==>
      var before, after := GetMeta(stored), GetMeta(r.meta);
      && after.added == before.added + [TrackerAddition(
           p.id, p.from.GetOr(sel.from), p.to.GetOr(sel.to),
           p.nodeName.GetOr(options.trackerNodeName), ClassNames(options.trackerClassName, p.className))]
      && after.removed == before.removed
      && after.forcedUpdates == before.forcedUpdates
      && after.clearTrackers == before.clearTrackers
  {
    if Find(committed, p.id).Some? then Staged(false, stored)
    else if checkOnly then Staged(true, stored)
    else
      var addition := TrackerAddition(
        p.id, p.from.GetOr(sel.from), p.to.GetOr(sel.to),
        p.nodeName.GetOr(options.trackerNodeName), ClassNames(options.trackerClassName, p.className));
      Staged(true, Some(SetMeta(stored, PartialMeta(None, Some(GetMeta(stored).added + [addition]), None, None))))
  }

  /** `removePositionTracker`: refused when the id is not tracked; check-only
      succeeds without touching the meta; otherwise the id joins `removed`,
      which stays free of duplicates. */
  function StageRemoval(committed: DecorationSet, stored: Option<PartialMeta>, id: TrackerId, checkOnly: bool): (r: Staged)
    ensures r.ok <==> Find(committed, id).Some?
    ensures !r.ok || checkOnly ==> r.meta == stored
    ensures r.ok && !checkOnly ==>
      var before, after := GetMeta(stored), GetMeta(r.meta);
      && id in after.removed
      && NoDuplicates(after.removed)
      && (forall i :: 0 <= i < |before.removed| ==> before.removed[i] in after.removed)
      && (forall i :: 0 <= i < |after.removed| ==> after.removed[i] in before.removed || after.removed[i] == id)
      && after.added == before.added
      && after.forcedUpdates == before.forcedUpdates
      && after.clearTrackers == before.clearTrackers
  {
    if Find(committed, id).None? then Staged(false, stored)
    else if checkOnly then Staged(true, stored)
    else
      var all := GetMeta(stored).removed + [id];
      var u := UniqueArray(all);
      assert all[|all| - 1] == id;
      assert forall i :: 0 <= i < |GetMeta(stored).removed| ==> all[i] == GetMeta(stored).removed[i];
      Staged(true, Some(SetMeta(stored, PartialMeta(None, None, Some(u), None))))
  }

  /** `clearPositionTrackers`: refused when the overlay is empty; check-only
      succeeds without touching the meta; otherwise `clearTrackers` is set. */
  function StageClear(committed: DecorationSet, stored: Option<PartialMeta>, checkOnly: bool): (r: Staged)
    ensures r.ok <==> committed != []
    ensures !r.ok || checkOnly ==> r.meta == stored
    ensures r.ok && !checkOnly ==>
      var before, after := GetMeta(stored), GetMeta(r.meta);
      && after.clearTrackers
      && after.added == before.added
      && after.removed == before.removed
      && after.forcedUpdates == before.forcedUpdates
  {
    if committed == [] then Staged(false, stored)
    else if checkOnly then Staged(true, stored)
    else Staged(true, Some(SetMeta(stored, PartialMeta(None, None, None, Some(true)))))
  }
}
