/** The commands extension itself: the shared transaction every command
    edits, the built-in commands, the unchained, `isEnabled` and chained ways
    of calling them, and the two halves of `insertTextAsync`. */
module Commands {
  import opened Wrappers
  import opened Errors
  import opened Document
  import opened CommandMeta
  import opened Transactions
  import opened Trackers
  import opened TrackerProperties
  import opened Editor
  import opened Registry

  /** The `dispatch` a command receives. */
  datatype DispatchMode =
    | NoDispatch     // `isEnabled`: no dispatch at all
    | ViewDispatch   // an unchained call: `view.dispatch`
    | ChainDispatch  // a chained call: only checks the transaction is the shared one

  /** `Partial<FromToParameter>`. */
  datatype PartialRange = PartialRange(from: Option<nat>, to: Option<nat>)

  /** The commands `createCommands` returns, applied to their arguments.
      `selectText` takes a selection already resolved against the document. */
  datatype Command =
    | CustomDispatch(inner: Command)
    | Custom(tr: Transaction)
    | Restore
    | InsertText(text: string, range: Option<PartialRange>)
    | InsertTextAsync(id: TrackerId, range: Option<PartialRange>)
    | SelectText(selection: Selection)
    | Delete(deleteRange: Option<Range>)
    | EmptyUpdate
    | ForceUpdate(keys: seq<UpdatableViewProp>)
    | UpdateNodeAttributes(pos: nat, attrs: map<string, string>)
    | ClearRangeSelection
    | AddPositionTracker(tracker: TrackerRequest)
    | RemovePositionTracker(trackerId: TrackerId)
    | ClearPositionTrackers

  /** The command `customDispatch` hands back, with every wrapper removed. */
  function Underlying(cmd: Command): (r: Command)
    ensures !r.CustomDispatch?
    ensures !cmd.CustomDispatch? ==> r == cmd
  {
    if cmd.CustomDispatch? then Underlying(cmd.inner) else cmd
  }

  /** `cmd` wrapped in `customDispatch` `n` times. */
  function Wrapped(cmd: Command, n: nat): Command {
    if n == 0 then cmd else CustomDispatch(Wrapped(cmd, n - 1))
  }

  /** However many times a command is wrapped, the command run is the same:
      the innermost one. */
  lemma {:induction false} UnderlyingOfWrapped(cmd: Command, n: nat)
    ensures Underlying(Wrapped(cmd, n)) == Underlying(cmd)
    ensures !Underlying(Wrapped(cmd, n)).CustomDispatch?
  {
    if n > 0 {
      UnderlyingOfWrapped(cmd, n - 1);
    }
  }

  /** `custom` and `restore` change which transaction is shared. */
  predicate Overrides(cmd: Command) {
    Underlying(cmd).Custom? || Underlying(cmd).Restore?
  }

  predicate IsTrackerCommand(cmd: Command) {
    cmd.AddPositionTracker? || cmd.RemovePositionTracker? || cmd.ClearPositionTrackers?
  }

  // ---------------------------------------------------------------------------
  // What a command stages on the transaction

  /** The change a command makes to a transaction before dispatching it. */
  datatype Edit = Edit(steps: seq<Step>, selection: Selection, meta: Option<PartialMeta>)

  /** `const { from, to } = range ?? tr.selection`. */
  function TextBounds(range: Option<PartialRange>, sel: Selection): (Option<nat>, Option<nat>) {
    if range.Some? then (range.value.from, range.value.to) else (Some(sel.from), Some(sel.to))
  }

  /** The edit of each command of the form `dispatch?.(edit(tr)); return true`,
      from the transaction's selection and meta. */
  function StagedEdit(cmd: Command, sel: Selection, meta: Option<PartialMeta>): Edit {
    match cmd
    case InsertText(text, range) =>
      var (from, to) := TextBounds(range, sel);
      var (f, t) := InsertionRange(sel, from, to);
      var steps := ReplacementSteps(f, t, text);
      var mapped := MapSelectionThrough(sel, steps);
      Edit(steps, if from.None? || (text != [] && !mapped.Empty()) then Selection(mapped.to, mapped.to) else mapped, meta)
    case SelectText(s) => Edit([], s, meta)
    case Delete(range) =>
      var (f, t) := if range.Some? then (range.value.from, range.value.to) else (sel.from, sel.to);
      var steps := ReplacementSteps(f, t, []);
      Edit(steps, MapSelectionThrough(sel, steps), meta)
    case ForceUpdate(keys) => Edit([], sel, Some(CommandMeta.ForceUpdate(meta, keys)))
    case UpdateNodeAttributes(pos, attrs) => Edit([SetAttrs(pos, attrs)], MapSelection(sel, SetAttrs(pos, attrs)), meta)
    case ClearRangeSelection => Edit([], Selection(sel.from, sel.from), meta)
    case _ => Edit([], sel, meta)
  }

  /** Inserting text over the selection (no range given) replaces exactly the
      selected range and leaves a cursor right after the inserted text. */
  lemma InsertTextLeavesCursorAfterText(text: string, sel: Selection, meta: Option<PartialMeta>)
    requires sel.from <= sel.to
    ensures StagedEdit(InsertText(text, None), sel, meta) ==
      Edit(ReplacementSteps(sel.from, sel.to, text), Selection(sel.from + |text|, sel.from + |text|), meta)
  {
    var steps := ReplacementSteps(sel.from, sel.to, text);
    if steps != [] {
      var s := Replace(sel.from, sel.to, text);
      assert steps[..0] == [];
      assert MapSelectionThrough(sel, steps) == MapSelection(sel, s);
    }
  }

  /** Deleting with no range removes the selected range and leaves a cursor
      where it started. */
  lemma DeleteSelectionLeavesCursor(sel: Selection, meta: Option<PartialMeta>)
    requires sel.from <= sel.to
    ensures StagedEdit(Delete(None), sel, meta) ==
      Edit(ReplacementSteps(sel.from, sel.to, []), Selection(sel.from, sel.from), meta)
  {
    var steps := ReplacementSteps(sel.from, sel.to, []);
    if steps != [] {
      assert steps[..0] == [];
      assert MapSelectionThrough(sel, steps) == MapSelection(sel, Replace(sel.from, sel.to, []));
    }
  }

  /** Inserting non-empty text into an explicit range replaces exactly that
      range, keeps the meta and leaves an empty selection behind. */
  lemma InsertTextIntoRange(text: string, from: nat, to: nat, sel: Selection, meta: Option<PartialMeta>)
    requires sel.from <= sel.to && text != []
    ensures var e := StagedEdit(InsertText(text, Some(PartialRange(Some(from), Some(to)))), sel, meta);
      && e.steps == [Replace(from, to, text)]
      && e.meta == meta
      && e.selection.Empty()
  {
  }

  /** The tracker operation a tracker command performs. */
  function StageTracker(cmd: Command, committed: DecorationSet, stored: Option<PartialMeta>, sel: Selection,
                        options: TrackerOptions, checkOnly: bool): Staged
    requires IsTrackerCommand(cmd)
  {
    match cmd
    case AddPositionTracker(p) => StageAddition(committed, stored, p, sel, options, checkOnly)
    case RemovePositionTracker(id) => StageRemoval(committed, stored, id, checkOnly)
    case ClearPositionTrackers => StageClear(committed, stored, checkOnly)
  }

  /** The tracker `insertTextAsync` places: `{ id: promise, ...range }`. */
  function AsyncTracker(id: TrackerId, range: Option<PartialRange>): (r: TrackerRequest)
    ensures r.id == id && r.className.None? && r.nodeName.None?
    ensures range.None? ==> r.from.None? && r.to.None?
    ensures range.Some? ==> r.from == range.value.from && r.to == range.value.to
  {
    if range.Some? then TrackerRequest(id, range.value.from, range.value.to, None, None)
    else TrackerRequest(id, None, None, None, None)
  }

  /** Whether a command (with its `customDispatch` wrappers removed) returns
      true on a transaction whose selection is `sel`, against the committed
      tracker set: the tracker commands and `insertTextAsync` refuse what the
      set rules out, `clearRangeSelection` refuses an empty selection, and
      every other command accepts. */
  function Enabled(cmd: Command, committed: DecorationSet, sel: Selection): bool {
    match cmd
    case AddPositionTracker(p) => Find(committed, p.id).None?
    case RemovePositionTracker(id) => Find(committed, id).Some?
    case ClearPositionTrackers => committed != []
    case InsertTextAsync(id, _) => Find(committed, id).None?
    case ClearRangeSelection => !sel.Empty()
    case _ => true
  }

  /** What a command (with its wrappers removed) leaves on the transaction it
      runs on when it is given a dispatch: nothing when it refuses, the staged
      tracker operation for the tracker commands and `insertTextAsync`, and
      its edit otherwise. */
  function Dispatched(cmd: Command, committed: DecorationSet, sel: Selection, meta: Option<PartialMeta>,
                      options: TrackerOptions): Edit
  {
    if !Enabled(cmd, committed, sel) then Edit([], sel, meta)
    else if IsTrackerCommand(cmd) then Edit([], sel, StageTracker(cmd, committed, meta, sel, options, false).meta)
    else if cmd.InsertTextAsync? then
      Edit([], sel, StageAddition(committed, meta, AsyncTracker(cmd.id, cmd.range), sel, options, false).meta)
    else StagedEdit(cmd, sel, meta)
  }

  /** `insertTextAsync` decides and stages exactly as adding its tracker does. */
  lemma AsyncIsTrackerAddition(id: TrackerId, range: Option<PartialRange>, committed: DecorationSet, sel: Selection,
                               meta: Option<PartialMeta>, options: TrackerOptions)
    ensures Enabled(InsertTextAsync(id, range), committed, sel) == Enabled(AddPositionTracker(AsyncTracker(id, range)), committed, sel)
    ensures Dispatched(InsertTextAsync(id, range), committed, sel, meta, options)
         == Dispatched(AddPositionTracker(AsyncTracker(id, range)), committed, sel, meta, options)
  {
  }

  /** A tracker command's check-only run (its `isEnabled`) and its
      dispatching run decide alike, and both decide `Enabled`. */
  lemma EnabledIsStagingDecision(cmd: Command, committed: DecorationSet, stored: Option<PartialMeta>, sel: Selection,
                                 options: TrackerOptions)
    requires IsTrackerCommand(cmd)
    ensures StageTracker(cmd, committed, stored, sel, options, true).ok == Enabled(cmd, committed, sel)
    ensures StageTracker(cmd, committed, stored, sel, options, false).ok == Enabled(cmd, committed, sel)
  {
  }

  /** `clearRangeSelection` collapses the selection to its start without
      touching the document or the meta, and a second one is refused. */
  lemma ClearRangeSelectionSettles(committed: DecorationSet, sel: Selection, meta: Option<PartialMeta>,
                                   options: TrackerOptions)
    ensures var e := Dispatched(ClearRangeSelection, committed, sel, meta, options);
      && e.steps == [] && e.meta == meta && e.selection == Selection(sel.from, sel.from)
      && !Enabled(ClearRangeSelection, committed, e.selection)
      && Dispatched(ClearRangeSelection, committed, e.selection, meta, options) == e
  {
  }

  /** `selectText` followed by `clearRangeSelection` leaves a cursor at the
      start of the selected range, with the document untouched. */
  lemma SelectThenClear(committed: DecorationSet, sel: Selection, s: Selection, meta: Option<PartialMeta>,
                        options: TrackerOptions)
    ensures var e1 := Dispatched(SelectText(s), committed, sel, meta, options);
      var e2 := Dispatched(ClearRangeSelection, committed, e1.selection, e1.meta, options);
      && e1.steps == [] && e2.steps == [] && e2.meta == meta
      && e2.selection == Selection(s.from, s.from)
  {
  }

  /** `updateNodeAttributes` keeps the text and the selection. */
  lemma NodeAttributesKeepText(d: Doc, pos: nat, attrs: map<string, string>, committed: DecorationSet, sel: Selection,
                               meta: Option<PartialMeta>, options: TrackerOptions)
    ensures var e := Dispatched(UpdateNodeAttributes(pos, attrs), committed, sel, meta, options);
      && ApplySteps(d, e.steps) == d && e.selection == sel && e.meta == meta && |e.steps| == 1
  {
    var e := Dispatched(UpdateNodeAttributes(pos, attrs), committed, sel, meta, options);
    assert ApplySteps(d, e.steps) == ApplySteps(ApplyStep(d, SetAttrs(pos, attrs)), []);
  }

  /** `emptyUpdate` changes nothing on the transaction. */
  lemma EmptyUpdateChangesNothing(committed: DecorationSet, sel: Selection, meta: Option<PartialMeta>,
                                  options: TrackerOptions)
    ensures Enabled(EmptyUpdate, committed, sel)
    ensures Dispatched(EmptyUpdate, committed, sel, meta, options) == Edit([], sel, meta)
  {
  }

  /** Deleting the text `insertText` just put at a cursor gives the document
      back, with the cursor where it was. */
  lemma InsertThenDeleteRestores(d: Doc, at: nat, text: string, meta: Option<PartialMeta>)
    requires at <= |d|
    ensures var ins := StagedEdit(InsertText(text, None), Selection(at, at), meta);
      var del := StagedEdit(Delete(Some(Range(at, at + |text|))), ins.selection, meta);
      && ApplySteps(ApplySteps(d, ins.steps), del.steps) == d
      && del.selection == Selection(at, at)
  {
    DeletionRestoresDoc(d, at, text, meta);
    DeletionRestoresCursor(at, text, meta);
  }

  lemma DeletionRestoresDoc(d: Doc, at: nat, text: string, meta: Option<PartialMeta>)
    requires at <= |d|
    ensures var ins := StagedEdit(InsertText(text, None), Selection(at, at), meta);
      var del := StagedEdit(Delete(Some(Range(at, at + |text|))), ins.selection, meta);
      ApplySteps(ApplySteps(d, ins.steps), del.steps) == d
  {
    var ins := StagedEdit(InsertText(text, None), Selection(at, at), meta);
    var del := StagedEdit(Delete(Some(Range(at, at + |text|))), ins.selection, meta);
    assert ins.steps == ReplacementSteps(at, at, text) && del.steps == ReplacementSteps(at, at + |text|, []) by {
      InsertedEdit(text, at, meta);
      DeletionEdit(at, |text|, meta);
    }
    RemoveInserted(d, at, text);
  }

  lemma DeletionRestoresCursor(at: nat, text: string, meta: Option<PartialMeta>)
    ensures var ins := StagedEdit(InsertText(text, None), Selection(at, at), meta);
      var del := StagedEdit(Delete(Some(Range(at, at + |text|))), ins.selection, meta);
      del.selection == Selection(at, at)
  {
    InsertedEdit(text, at, meta);
    DeletionEdit(at, |text|, meta);
  }

  /** The insertion half: the text replaces the empty range at the cursor,
      which moves past it. */
  lemma InsertedEdit(text: string, at: nat, meta: Option<PartialMeta>)
    ensures var ins := StagedEdit(InsertText(text, None), Selection(at, at), meta);
      ins.steps == ReplacementSteps(at, at, text) && ins.selection == Selection(at + |text|, at + |text|)
  {
    InsertTextLeavesCursorAfterText(text, Selection(at, at), meta);
  }

  /** The deletion half: the range just inserted is removed and the cursor
      after it comes back to its start. */
  lemma DeletionEdit(at: nat, n: nat, meta: Option<PartialMeta>)
    ensures var del := StagedEdit(Delete(Some(Range(at, at + n))), Selection(at + n, at + n), meta);
      del.steps == ReplacementSteps(at, at + n, []) && del.selection == Selection(at, at)
  {
    DeleteRangeEdit(Range(at, at + n), Selection(at + n, at + n), meta);
    CursorBackOverDeletion(at, n);
  }

  /** `insertText` into an explicit range stages the replacement of that
      range and keeps the meta. */
  lemma ReplaceRangeEdit(text: string, from: nat, to: nat, sel: Selection, meta: Option<PartialMeta>)
    ensures var e := StagedEdit(InsertText(text, Some(PartialRange(Some(from), Some(to)))), sel, meta);
      e.steps == ReplacementSteps(from, to, text) && e.meta == meta
  {
  }

  lemma DeleteRangeEdit(rg: Range, sel: Selection, meta: Option<PartialMeta>)
    ensures StagedEdit(Delete(Some(rg)), sel, meta) ==
      Edit(ReplacementSteps(rg.from, rg.to, []), MapSelectionThrough(sel, ReplacementSteps(rg.from, rg.to, [])), meta)
  {
  }

  lemma RemoveInserted(d: Doc, at: nat, text: string)
    requires at <= |d|
    ensures ApplySteps(ApplySteps(d, ReplacementSteps(at, at, text)), ReplacementSteps(at, at + |text|, [])) == d
  {
    ApplyReplacement(d, at, at, text);
    var d1 := d[..at] + text + d[at..];
    assert d1[..at] == d[..at] && d1[at + |text|..] == d[at..];
    ApplyReplacement(d1, at, at + |text|, []);
    assert d1[..at] + [] + d1[at + |text|..] == d;
  }

  lemma CursorBackOverDeletion(at: nat, n: nat)
    ensures MapSelectionThrough(Selection(at + n, at + n), ReplacementSteps(at, at + n, [])) == Selection(at, at)
  {
    var steps := ReplacementSteps(at, at + n, []);
    if steps != [] {
      assert steps[..0] == [];
      assert MapSelectionThrough(Selection(at + n, at + n), steps)
        == MapSelection(Selection(at + n, at + n), Replace(at, at + n, []));
    }
  }

  /** Replacing `[from, to)` with `a` and then inserting `b` right after it
      leaves `a` and `b` in that order in place of the range. */
  lemma TwoInsertions(d: Doc, from: nat, to: nat, a: string, b: string)
    requires from <= to <= |d|
    ensures ApplySteps(d, ReplacementSteps(from, to, a) + ReplacementSteps(from + |a|, from + |a|, b))
      == d[..from] + a + b + d[to..]
  {
    ApplyStepsAppend(d, ReplacementSteps(from, to, a), ReplacementSteps(from + |a|, from + |a|, b));
    ApplyReplacement(d, from, to, a);
    var d1 := d[..from] + a + d[to..];
    ApplyReplacement(d1, from + |a|, from + |a|, b);
    assert d1[..from + |a|] == d[..from] + a && d1[from + |a|..] == d[to..];
  }

  /** What committing the `onDone` transaction does to the tracker set: it
      stages only the removal of `id`, so under the spec's own field the
      tracker is gone, and as written the set is only mapped. */
  lemma ResolvedTrackers(s: DecorationSet, steps: seq<Step>, meta: Meta, id: TrackerId, key: string)
    requires TrackerSpecs(s)
    requires !meta.clearTrackers && meta.added == [] && id in meta.removed
    ensures key == TypeKey ==> Find(Reduce(s, steps, meta, key), id).None?
    ensures key == NameKey ==> Reduce(s, steps, meta, key) == MapSet(s, steps)
  {
    if key == TypeKey {
      RemovedTrackerIsGone(s, steps, meta, id);
    }
    if key == NameKey {
      ReduceAsWrittenIgnoresRemovals(s, steps, meta);
    }
  }

  // ---------------------------------------------------------------------------
  // `asyncCommand`

  /** What the synchronous half of `asyncCommand` decides: the command's
      result, whether `onCancel` runs and whether the promise is awaited. */
  datatype AsyncStart = AsyncStart(result: bool, cancelled: bool, deferred: bool)

  /** `immediate` is the result of the optional immediate command (None when
      there is none); only an explicit `false` refuses. */
  function AsyncCommandStart(immediate: Option<bool>, hasOnCancel: bool, hasView: bool): (r: AsyncStart)
    ensures !r.result <==> immediate == Some(false)
    ensures r.cancelled <==> immediate == Some(false) && hasOnCancel
    ensures r.deferred <==> r.result && hasView
    ensures r.cancelled || r.deferred ==> !(r.cancelled && r.deferred)
  {
    if immediate == Some(false) then AsyncStart(false, hasOnCancel, false)
    else AsyncStart(true, false, hasView)
  }

  /** A thrown failure, as an outcome. */
  function Thrown(r: Result<bool, Failure>): (o: Outcome<Failure>)
    ensures o.Pass? <==> r.Success?
    ensures o.Fail? ==> o.error == r.error
  {
    if r.Success? then Pass else Fail(r.error)
  }

  /** What calling `run` on the chain returns. */
  datatype ChainReturn = Chained(table: CommandTables) | Ran

  /** One more step of a replay: the prefix grows by that step and the
      selection is mapped through it. */
  lemma ReplayStep(sel: Selection, steps: seq<Step>, i: nat)
    requires i < |steps|
    ensures steps[..i + 1] == steps[..i] + [steps[i]]
    ensures MapSelectionThrough(sel, steps[..i + 1]) == MapSelection(MapSelectionThrough(sel, steps[..i]), steps[i])
  {
    assert steps[..i + 1][..i] == steps[..i];
  }

  /** The stale-transaction branch of the getter: a new transaction on the
      state, with the old steps added one by one in order. */
  method Replay(state: EditorState, steps: seq<Step>) returns (replay: Transaction)
    ensures fresh(replay) && replay.before == state.doc && replay.meta == None
    ensures replay.steps == steps && replay.selection == MapSelectionThrough(state.selection, steps)
  {
    replay := new Transaction.FromState(state.doc, state.selection);
    var hasSteps := steps != [];
    if hasSteps {
      var i := 0;
      while i < |steps|
        invariant 0 <= i <= |steps|
        invariant replay.before == state.doc && replay.meta == None
        invariant replay.steps == steps[..i]
        invariant replay.selection == MapSelectionThrough(state.selection, steps[..i])
        modifies replay
      {
        ReplayStep(state.selection, steps, i);
        replay.AddStep(steps[i]);
        i := i + 1;
      }
      assert steps[..i] == steps;
    }
  }

  /** The `commands` store key is filled one name at a time from the
      unchained table. */
  method CopyEntries(table: map<string, UnchainedEntry>) returns (result: map<string, UnchainedEntry>)
    ensures result == table
  {
    result := map[];
    var keys := table.Keys;
    while keys != {}
      invariant keys <= table.Keys
      invariant result == map n | n in table.Keys - keys :: table[n]
      decreases keys
    {
      var n :| n in keys;
      result := result[n := table[n]];
      keys := keys - {n};
    }
    assert result == table;
  }

  class CommandsExtension {
    const view: View
    const options: TrackerOptions
    /** `#transaction`. */
    var transaction: Transaction?
    /** `#customTransaction`. */
    var customTransaction: Transaction?
    /** The `commands` store key: each name with its command and `isEnabled`. */
    var commands: map<string, UnchainedEntry>
    /** The `chain` store key. */
    var chain: CommandTables?
    /** The trackers of `insertTextAsync` calls whose promise is awaited. */
    var scheduled: seq<TrackerId>

    ghost predicate Valid()
      reads this, view, chain
    {
      && view.Valid()
      && (forall n :: n in commands ==>
            commands[n].command.shouldDispatch && !commands[n].isEnabled.shouldDispatch)
      && (chain != null ==> "run" in chain.chained && chain.chained["run"] == ChainLink.Run)
    }

    /** The transaction the getter hands out without building a new one:
        the custom one, or the cached one while it starts from the document. */
    ghost function Shared(): Transaction?
      reads this, view
    {
      if customTransaction != null then customTransaction
      else if transaction != null && transaction.before == view.state.doc then transaction
      else null
    }

    /** The steps the next command will find on the shared transaction. */
    ghost function PendingSteps(): seq<Step>
      reads this, transaction, customTransaction
    {
      if customTransaction != null then customTransaction.steps
      else if transaction != null then transaction.steps
      else []
    }

    /** The meta the next command will find on the shared transaction: a
        stale cached transaction is rebuilt without its meta. */
    ghost function PendingMeta(): Option<PartialMeta>
      reads this, view, transaction, customTransaction
    {
      if customTransaction != null then customTransaction.meta
      else if transaction != null && transaction.before == view.state.doc then transaction.meta
      else None
    }

    /** The selection the next command will find on the shared transaction:
        a stale or missing cached transaction is rebuilt on the view's
        selection mapped through the replayed steps. */
    ghost function PendingSelection(): Selection
      reads this, view, transaction, customTransaction
    {
      if customTransaction != null then customTransaction.selection
      else if transaction != null && transaction.before == view.state.doc then transaction.selection
      else MapSelectionThrough(view.state.selection, PendingSteps())
    }

    /** What dispatching `t` under `mode` leaves, from state `s0` and the
        shared transaction `shared0` of the moment. */
    ghost predicate Delivered(mode: DispatchMode, s0: EditorState, shared0: Transaction?, t: Transaction, r: Outcome<Failure>)
      reads this, view, transaction, t
    {
      match mode
      case NoDispatch => r.Pass? && view.state == s0
      case ViewDispatch =>
        && (r.Pass? <==> t.before == s0.doc)
        && (r.Pass? ==>
              && view.state == Committed(s0, t, view.removalKey)
              && customTransaction == null
              && transaction != null && transaction.before == view.state.doc
              && transaction.steps == [] && transaction.meta == None)
        && (r.Fail? ==> r.error == MismatchedTransaction && view.state == s0)
      case ChainDispatch =>
        && (r.Pass? <==> t == shared0)
        && (r.Fail? ==> r.error == ForeignTransactionInChain)
        && view.state == s0
    }

    /** An extension on a view, before `onView`. */
    constructor (view: View, options: TrackerOptions)
      requires view.Valid()
      ensures Valid()
      ensures this.view == view && this.options == options
      ensures transaction == null && customTransaction == null
      ensures commands == map[] && chain == null && scheduled == []
    {
      this.view := view;
      this.options := options;
      transaction := null;
      customTransaction := null;
      commands := map[];
      chain := null;
      scheduled := [];
    }

    // -------------------------------------------------------------------------
    // The shared transaction

    /** The `transaction` getter. A custom transaction wins outright. Otherwise
        the cached transaction is returned while it starts from the current
        document; a missing one is created from the state, and a stale one is
        replaced by a new transaction on the current state carrying the old
        steps in order (its meta is not carried over). */
    method GetTransaction() returns (tr: Transaction)
      modifies this`transaction
      ensures old(customTransaction) != null ==> tr == old(customTransaction) && transaction == old(transaction)
      ensures old(customTransaction) == null ==> transaction == tr && tr.before == view.state.doc
      ensures old(Shared()) != null ==> tr == old(Shared())
      ensures old(Shared()) == null ==>
        && fresh(tr) && tr.meta == None
        && tr.selection == MapSelectionThrough(view.state.selection, tr.steps)
      ensures tr.steps == old(PendingSteps()) && tr.meta == old(PendingMeta())
      ensures tr.selection == old(PendingSelection())
      ensures Shared() == tr
    {
      if customTransaction != null {
        return customTransaction;
      }
      var state := view.state;
      if transaction == null {
        transaction := new Transaction.FromState(state.doc, state.selection);
      }
      var isValid := transaction.before == state.doc;
      if !isValid {
        transaction := Replay(state, transaction.steps);
      }
      tr := transaction;
    }

    /** `onStateUpdate`: the custom transaction is dropped and a new one is
        cached on the new state. */
    method OnStateUpdate(state: EditorState)
      modifies this`transaction, this`customTransaction
      ensures customTransaction == null
      ensures fresh(transaction)
      ensures transaction.before == state.doc && transaction.selection == state.selection
      ensures transaction.steps == [] && transaction.meta == None
    {
      customTransaction := null;
      transaction := new Transaction.FromState(state.doc, state.selection);
    }

    /** The `dispatch` a command receives. `view.dispatch` applies the
        transaction (the state throws on one that does not start from its
        document) and the state update resets the shared transaction; the
        chained dispatch only checks that it is handed the shared one. */
    method DispatchTo(t: Transaction, mode: DispatchMode) returns (r: Outcome<Failure>)
      requires Valid()
      modifies view, this`transaction, this`customTransaction
      ensures Valid()
      ensures Delivered(mode, old(view.state), old(Shared()), t, r)
      ensures mode.NoDispatch? || (mode.ViewDispatch? && r.Fail?) ==>
        transaction == old(transaction) && customTransaction == old(customTransaction)
      ensures mode.ChainDispatch? ==> customTransaction == old(customTransaction)
      ensures mode.ChainDispatch? && old(Shared()) != null ==> transaction == old(transaction)
    {
      match mode
      case NoDispatch =>
        r := Pass;
      case ViewDispatch =>
        var ok := view.Dispatch(t);
        if !ok {
          return Fail(MismatchedTransaction);
        }
        OnStateUpdate(view.state);
        r := Pass;
      case ChainDispatch =>
        var current := GetTransaction();
        r := if t == current then Pass else Fail(ForeignTransactionInChain);
    }

    // -------------------------------------------------------------------------
    // Position trackers

    /** `findPositionTracker`: looked up in the committed tracker set. */
    function FindTracker(id: TrackerId): Option<Range>
      reads this, view
    {
      Find(view.state.trackers, id)
    }

    /** `addPositionTracker`. */
    method AddTracker(p: TrackerRequest, tr: Transaction, checkOnly: bool) returns (ok: bool)
      modifies tr
      ensures Staged(ok, tr.meta) == StageAddition(view.state.trackers, old(tr.meta), p, old(tr.selection), options, checkOnly)
      ensures tr.steps == old(tr.steps) && tr.selection == old(tr.selection)
    {
      var existing := FindTracker(p.id);
      if existing.Some? {
        return false;
      }
      if checkOnly {
        return true;
      }
      var added := GetMeta(tr.meta).added;
      var addition := TrackerAddition(
        p.id, p.from.GetOr(tr.selection.from), p.to.GetOr(tr.selection.to),
        p.nodeName.GetOr(options.trackerNodeName), ClassNames(options.trackerClassName, p.className));
      tr.SetMeta(SetMeta(tr.meta, PartialMeta(None, Some(added + [addition]), None, None)));
      ok := true;
    }

    /** `removePositionTracker`. */
    method RemoveTracker(id: TrackerId, tr: Transaction, checkOnly: bool) returns (ok: bool)
      modifies tr
      ensures Staged(ok, tr.meta) == StageRemoval(view.state.trackers, old(tr.meta), id, checkOnly)
      ensures tr.steps == old(tr.steps) && tr.selection == old(tr.selection)
    {
      var existing := FindTracker(id);
      if existing.None? {
        return false;
      }
      if checkOnly {
        return true;
      }
      var removed := GetMeta(tr.meta).removed;
      tr.SetMeta(SetMeta(tr.meta, PartialMeta(None, None, Some(UniqueArray(removed + [id])), None)));
      ok := true;
    }

    /** `clearPositionTrackers`: an empty tracker set refuses. */
    method ClearTrackers(tr: Transaction, checkOnly: bool) returns (ok: bool)
      modifies tr
      ensures Staged(ok, tr.meta) == StageClear(view.state.trackers, old(tr.meta), checkOnly)
      ensures tr.steps == old(tr.steps) && tr.selection == old(tr.selection)
    {
      if view.state.trackers == [] {
        return false;
      }
      if checkOnly {
        return true;
      }
      tr.SetMeta(SetMeta(tr.meta, PartialMeta(None, None, None, Some(true))));
      ok := true;
    }

    // -------------------------------------------------------------------------
    // The built-in commands

    /** The edits of `insertText`, `selectText`, `delete`, `emptyUpdate`,
        `forceUpdate`, `updateNodeAttributes` and `clearRangeSelection`. */
    method ApplyEdit(cmd: Command, tr: Transaction)
      modifies tr
      ensures var e := StagedEdit(cmd, old(tr.selection), old(tr.meta));
        tr.steps == old(tr.steps) + e.steps && tr.selection == e.selection && tr.meta == e.meta
    {
      match cmd
      case InsertText(text, range) =>
        var (from, to) := TextBounds(range, tr.selection);
        tr.InsertText(text, from, to);
      case SelectText(s) =>
        tr.SetSelection(s);
      case Delete(range) =>
        var (f, t) := if range.Some? then (range.value.from, range.value.to) else (tr.selection.from, tr.selection.to);
        tr.Delete(f, t);
      case ForceUpdate(keys) =>
        var _ := Transactions.ForceUpdate(tr, keys);
      case UpdateNodeAttributes(pos, attrs) =>
        tr.SetNodeMarkup(pos, attrs);
      case ClearRangeSelection =>
        tr.SetSelection(Selection(tr.selection.from, tr.selection.from));
      case _ =>
    }

    /** `dispatch?.(edit(tr)); return true`: without a dispatch the edit is
        not even made. */
    method DispatchEdit(cmd: Command, tr: Transaction, mode: DispatchMode) returns (r: Result<bool, Failure>)
      requires Valid()
      modifies view, this`transaction, this`customTransaction, tr
      ensures Valid()
      ensures mode.NoDispatch? ==> tr.steps == old(tr.steps) && tr.selection == old(tr.selection) && tr.meta == old(tr.meta)
      ensures !mode.NoDispatch? ==>
        var e := StagedEdit(cmd, old(tr.selection), old(tr.meta));
        tr.steps == old(tr.steps) + e.steps && tr.selection == e.selection && tr.meta == e.meta
      ensures Delivered(mode, old(view.state), old(Shared()), tr, Thrown(r))
      ensures r.Success? ==> r.value
      ensures mode.NoDispatch? || (mode.ViewDispatch? && r.Failure?) ==>
        transaction == old(transaction) && customTransaction == old(customTransaction)
      ensures mode.ChainDispatch? ==> customTransaction == old(customTransaction)
      ensures mode.ChainDispatch? && old(Shared()) != null ==> transaction == old(transaction)
    {
      if mode.NoDispatch? {
        return Success(true);
      }
      ApplyEdit(cmd, tr);
      var o := DispatchTo(tr, mode);
      r := if o.Pass? then Success(true) else Failure(o.error);
    }

    /** The `addPositionTracker`, `removePositionTracker` and
        `clearPositionTrackers` commands: check-only without a dispatch,
        and the transaction is dispatched only when the operation succeeds. */
    method TrackerCommand(cmd: Command, tr: Transaction, mode: DispatchMode) returns (r: Result<bool, Failure>)
      requires Valid() && IsTrackerCommand(cmd)
      modifies view, this`transaction, this`customTransaction, tr
      ensures Valid()
      ensures var st := StageTracker(cmd, old(view.state.trackers), old(tr.meta), old(tr.selection), options, mode.NoDispatch?);
        && tr.meta == st.meta && tr.steps == old(tr.steps) && tr.selection == old(tr.selection)
        && (!st.ok ==> r == Success(false) && view.state == old(view.state))
        && (st.ok ==> Delivered(mode, old(view.state), old(Shared()), tr, Thrown(r)) && (r.Success? ==> r.value))
      ensures mode.NoDispatch? ==> tr.meta == old(tr.meta)
      ensures mode.NoDispatch? || (mode.ViewDispatch? && r.Failure?) || r == Success(false) ==>
        transaction == old(transaction) && customTransaction == old(customTransaction)
      ensures mode.ChainDispatch? ==> customTransaction == old(customTransaction)
      ensures mode.ChainDispatch? && old(Shared()) != null ==> transaction == old(transaction)
      ensures r.Success? ==> r.value == Enabled(cmd, old(view.state.trackers), old(tr.selection))
      ensures mode.NoDispatch? ==> r == Success(Enabled(cmd, old(view.state.trackers), old(tr.selection)))
      ensures !mode.NoDispatch? ==>
        var e := Dispatched(cmd, old(view.state.trackers), old(tr.selection), old(tr.meta), options);
        tr.steps == old(tr.steps) + e.steps && tr.selection == e.selection && tr.meta == e.meta
      ensures !Enabled(cmd, old(view.state.trackers), old(tr.selection)) ==> view.state == old(view.state)
      ensures mode.ViewDispatch? && r == Success(true) ==> view.state == Committed(old(view.state), tr, view.removalKey)
    {
      EnabledIsStagingDecision(cmd, view.state.trackers, tr.meta, tr.selection, options);
      var ok := StageTrackerOn(cmd, tr, mode.NoDispatch?);
      if !ok {
        return Success(false);
      }
      var o := DispatchTo(tr, mode);
      r := if o.Pass? then Success(true) else Failure(o.error);
    }

    /** The tracker operation a tracker command performs on `tr`. */
    method StageTrackerOn(cmd: Command, tr: Transaction, checkOnly: bool) returns (ok: bool)
      requires IsTrackerCommand(cmd)
      modifies tr
      ensures Staged(ok, tr.meta) == StageTracker(cmd, view.state.trackers, old(tr.meta), old(tr.selection), options, checkOnly)
      ensures tr.steps == old(tr.steps) && tr.selection == old(tr.selection)
    {
      match cmd {
        case AddPositionTracker(p) =>
          ok := AddTracker(p, tr, checkOnly);
        case RemovePositionTracker(id) =>
          ok := RemoveTracker(id, tr, checkOnly);
        case ClearPositionTrackers =>
          ok := ClearTrackers(tr, checkOnly);
      }
    }

    /** The synchronous half of `insertTextAsync`: `asyncCommand` with the
        `addPositionTracker` command as `immediate`. Its promise is awaited
        whenever that command does not refuse, `isEnabled` included. */
    method InsertTextAsyncCommand(id: TrackerId, range: Option<PartialRange>, tr: Transaction, mode: DispatchMode)
      returns (r: Result<bool, Failure>)
      requires Valid()
      modifies view, this`transaction, this`customTransaction, this`scheduled, tr
      ensures Valid()
      ensures var st := StageAddition(old(view.state.trackers), old(tr.meta), AsyncTracker(id, range), old(tr.selection), options, mode.NoDispatch?);
        && tr.meta == st.meta && tr.steps == old(tr.steps) && tr.selection == old(tr.selection)
        && (!st.ok ==> r == Success(false) && view.state == old(view.state))
        && (st.ok ==> Delivered(mode, old(view.state), old(Shared()), tr, Thrown(r)) && (r.Success? ==> r.value))
      ensures scheduled == old(scheduled) + (if r == Success(true) then [id] else [])
      ensures mode.NoDispatch? ==> tr.meta == old(tr.meta)
      ensures mode.NoDispatch? || (mode.ViewDispatch? && r.Failure?) || r == Success(false) ==>
        transaction == old(transaction) && customTransaction == old(customTransaction)
      ensures mode.ChainDispatch? ==> customTransaction == old(customTransaction)
      ensures mode.ChainDispatch? && old(Shared()) != null ==> transaction == old(transaction)
      ensures r.Success? ==> r.value == Enabled(InsertTextAsync(id, range), old(view.state.trackers), old(tr.selection))
      ensures mode.NoDispatch? ==> r == Success(Enabled(InsertTextAsync(id, range), old(view.state.trackers), old(tr.selection)))
      ensures !mode.NoDispatch? ==>
        var e := Dispatched(InsertTextAsync(id, range), old(view.state.trackers), old(tr.selection), old(tr.meta), options);
        tr.steps == old(tr.steps) + e.steps && tr.selection == e.selection && tr.meta == e.meta
      ensures !Enabled(InsertTextAsync(id, range), old(view.state.trackers), old(tr.selection)) ==> view.state == old(view.state)
      ensures mode.ViewDispatch? && r == Success(true) ==> view.state == Committed(old(view.state), tr, view.removalKey)
    {
      var immediate := AsyncImmediate(id, range, tr, mode);
      if immediate.Failure? {
        return Failure(immediate.error);
      }
      var start := AsyncCommandStart(Some(immediate.value), false, true);
      if start.deferred {
        scheduled := scheduled + [id];
      }
      r := Success(start.result);
    }

    /** `immediate` of `insertTextAsync`: the `addPositionTracker` command
        for the promise's tracker, run on `tr` with the given dispatch. */
    method AsyncImmediate(id: TrackerId, range: Option<PartialRange>, tr: Transaction, mode: DispatchMode)
      returns (r: Result<bool, Failure>)
      requires Valid()
      modifies view, this`transaction, this`customTransaction, tr
      ensures Valid()
      ensures var st := StageAddition(old(view.state.trackers), old(tr.meta), AsyncTracker(id, range), old(tr.selection), options, mode.NoDispatch?);
        && tr.meta == st.meta && tr.steps == old(tr.steps) && tr.selection == old(tr.selection)
        && (!st.ok ==> r == Success(false) && view.state == old(view.state))
        && (st.ok ==> Delivered(mode, old(view.state), old(Shared()), tr, Thrown(r)) && (r.Success? ==> r.value))
      ensures mode.NoDispatch? ==> tr.meta == old(tr.meta)
      ensures mode.NoDispatch? || (mode.ViewDispatch? && r.Failure?) || r == Success(false) ==>
        transaction == old(transaction) && customTransaction == old(customTransaction)
      ensures mode.ChainDispatch? ==> customTransaction == old(customTransaction)
      ensures mode.ChainDispatch? && old(Shared()) != null ==> transaction == old(transaction)
      ensures r.Success? ==> r.value == Enabled(InsertTextAsync(id, range), old(view.state.trackers), old(tr.selection))
      ensures mode.NoDispatch? ==> r == Success(Enabled(InsertTextAsync(id, range), old(view.state.trackers), old(tr.selection)))
      ensures !mode.NoDispatch? ==>
        var e := Dispatched(InsertTextAsync(id, range), old(view.state.trackers), old(tr.selection), old(tr.meta), options);
        tr.steps == old(tr.steps) + e.steps && tr.selection == e.selection && tr.meta == e.meta
      ensures !Enabled(InsertTextAsync(id, range), old(view.state.trackers), old(tr.selection)) ==> view.state == old(view.state)
      ensures mode.ViewDispatch? && r == Success(true) ==> view.state == Committed(old(view.state), tr, view.removalKey)
    {
      AsyncIsTrackerAddition(id, range, view.state.trackers, tr.selection, tr.meta, options);
      r := TrackerCommand(AddPositionTracker(AsyncTracker(id, range)), tr, mode);
    }

    /** The commands whose body is an edit: `clearRangeSelection` first
        refuses an empty selection, the others always go on to the edit. */
    method EditCommand(cmd: Command, tr: Transaction, mode: DispatchMode) returns (r: Result<bool, Failure>)
      requires Valid()
      requires !cmd.CustomDispatch? && !Overrides(cmd) && !IsTrackerCommand(cmd) && !cmd.InsertTextAsync?
      modifies view, this`transaction, this`customTransaction, tr
      ensures Valid()
      ensures Delivered(mode, old(view.state), old(Shared()), tr, Thrown(r)) || (r == Success(false) && view.state == old(view.state))
      ensures mode.NoDispatch? ==> tr.steps == old(tr.steps) && tr.selection == old(tr.selection) && tr.meta == old(tr.meta)
      ensures mode.NoDispatch? || (mode.ViewDispatch? && r.Failure?) || r == Success(false) ==>
        transaction == old(transaction) && customTransaction == old(customTransaction)
      ensures mode.ChainDispatch? ==> customTransaction == old(customTransaction)
      ensures mode.ChainDispatch? && old(Shared()) != null ==> transaction == old(transaction)
      ensures r.Success? ==> r.value == Enabled(cmd, old(view.state.trackers), old(tr.selection))
      ensures mode.NoDispatch? ==> r == Success(Enabled(cmd, old(view.state.trackers), old(tr.selection)))
      ensures !mode.NoDispatch? ==>
        var e := Dispatched(cmd, old(view.state.trackers), old(tr.selection), old(tr.meta), options);
        tr.steps == old(tr.steps) + e.steps && tr.selection == e.selection && tr.meta == e.meta
      ensures !Enabled(cmd, old(view.state.trackers), old(tr.selection)) ==> view.state == old(view.state)
      ensures mode.ViewDispatch? && r == Success(true) ==> view.state == Committed(old(view.state), tr, view.removalKey)
    {
      if cmd.ClearRangeSelection? && tr.selection.Empty() {
        return Success(false);
      }
      r := DispatchEdit(cmd, tr, mode);
    }

    /** A built-in command run on `tr` with the given dispatch; a
        `customDispatch` wrapper runs the command it wraps. */
    method Execute(cmd: Command, tr: Transaction, mode: DispatchMode) returns (r: Result<bool, Failure>)
      requires Valid()
      modifies view, this`transaction, this`customTransaction, this`scheduled, tr
      ensures Valid()
      ensures old(tr.steps) <= tr.steps
      ensures mode.NoDispatch? ==>
        && tr.steps == old(tr.steps) && tr.selection == old(tr.selection) && tr.meta == old(tr.meta)
        && view.state == old(view.state) && transaction == old(transaction)
      ensures mode.NoDispatch? && !Overrides(cmd) ==> customTransaction == old(customTransaction)
      ensures scheduled == old(scheduled) +
        (if Underlying(cmd).InsertTextAsync? && r == Success(true) then [Underlying(cmd).id] else [])
      ensures view.state == old(view.state) ||
        (tr.before == old(view.state.doc) && view.state == Committed(old(view.state), tr, view.removalKey))
      ensures mode.ChainDispatch? ==> view.state == old(view.state)
      ensures Underlying(cmd).Custom? ==> customTransaction == Underlying(cmd).tr
      ensures Underlying(cmd).Restore? ==> customTransaction == null
      ensures Overrides(cmd) ==>
        && r == Success(true) && view.state == old(view.state) && transaction == old(transaction)
        && tr.steps == old(tr.steps) && tr.selection == old(tr.selection) && tr.meta == old(tr.meta)
      ensures r.Success? ==> r.value == Enabled(Underlying(cmd), old(view.state.trackers), old(tr.selection))
      ensures mode.NoDispatch? ==> r == Success(Enabled(Underlying(cmd), old(view.state.trackers), old(tr.selection)))
      ensures !mode.NoDispatch? ==>
        var e := Dispatched(Underlying(cmd), old(view.state.trackers), old(tr.selection), old(tr.meta), options);
        tr.steps == old(tr.steps) + e.steps && tr.selection == e.selection && tr.meta == e.meta
      ensures !Enabled(Underlying(cmd), old(view.state.trackers), old(tr.selection)) ==> view.state == old(view.state)
      ensures mode.ViewDispatch? && r == Success(true) && !Overrides(cmd) ==>
        view.state == Committed(old(view.state), tr, view.removalKey)
      ensures mode.ChainDispatch? && old(Shared()) != null && !Overrides(cmd) ==>
        transaction == old(transaction) && customTransaction == old(customTransaction)
      ensures mode.ViewDispatch? && tr.before == old(view.state.doc) ==> r.Success?
      ensures mode.ChainDispatch? && tr == old(Shared()) ==> r.Success?
      ensures r.Failure? ==>
        || (mode.ViewDispatch? && r.error == MismatchedTransaction && tr.before != old(view.state.doc))
        || (mode.ChainDispatch? && r.error == ForeignTransactionInChain && tr != old(Shared()))
    {
      r := ExecuteBuiltin(Underlying(cmd), tr, mode);
    }

    /** A command other than `customDispatch`. */
    method ExecuteBuiltin(cmd: Command, tr: Transaction, mode: DispatchMode) returns (r: Result<bool, Failure>)
      requires Valid() && !cmd.CustomDispatch?
      modifies view, this`transaction, this`customTransaction, this`scheduled, tr
      ensures Valid()
      ensures old(tr.steps) <= tr.steps
      ensures mode.NoDispatch? ==>
        && tr.steps == old(tr.steps) && tr.selection == old(tr.selection) && tr.meta == old(tr.meta)
        && view.state == old(view.state) && transaction == old(transaction)
      ensures mode.NoDispatch? && !(cmd.Custom? || cmd.Restore?) ==> customTransaction == old(customTransaction)
      ensures scheduled == old(scheduled) + (if cmd.InsertTextAsync? && r == Success(true) then [cmd.id] else [])
      ensures view.state == old(view.state) ||
        (tr.before == old(view.state.doc) && view.state == Committed(old(view.state), tr, view.removalKey))
      ensures mode.ChainDispatch? ==> view.state == old(view.state)
      ensures cmd.Custom? ==> customTransaction == cmd.tr
      ensures cmd.Restore? ==> customTransaction == null
      ensures (cmd.Custom? || cmd.Restore?) ==>
        && r == Success(true) && view.state == old(view.state) && transaction == old(transaction)
        && tr.steps == old(tr.steps) && tr.selection == old(tr.selection) && tr.meta == old(tr.meta)
      ensures r.Success? ==> r.value == Enabled(cmd, old(view.state.trackers), old(tr.selection))
      ensures mode.NoDispatch? ==> r == Success(Enabled(cmd, old(view.state.trackers), old(tr.selection)))
      ensures !mode.NoDispatch? ==>
        var e := Dispatched(cmd, old(view.state.trackers), old(tr.selection), old(tr.meta), options);
        tr.steps == old(tr.steps) + e.steps && tr.selection == e.selection && tr.meta == e.meta
      ensures !Enabled(cmd, old(view.state.trackers), old(tr.selection)) ==> view.state == old(view.state)
      ensures mode.ViewDispatch? && r == Success(true) && !(cmd.Custom? || cmd.Restore?) ==>
        view.state == Committed(old(view.state), tr, view.removalKey)
      ensures mode.ChainDispatch? && old(Shared()) != null && !(cmd.Custom? || cmd.Restore?) ==>
        transaction == old(transaction) && customTransaction == old(customTransaction)
      ensures mode.ViewDispatch? && tr.before == old(view.state.doc) ==> r.Success?
      ensures mode.ChainDispatch? && tr == old(Shared()) ==> r.Success?
      ensures r.Failure? ==>
        || (mode.ViewDispatch? && r.error == MismatchedTransaction && tr.before != old(view.state.doc))
        || (mode.ChainDispatch? && r.error == ForeignTransactionInChain && tr != old(Shared()))
    {
      if cmd.Custom? {
        customTransaction := cmd.tr;
        r := Success(true);
      } else if cmd.Restore? {
        customTransaction := null;
        r := Success(true);
      } else if cmd.InsertTextAsync? {
        r := InsertTextAsyncCommand(cmd.id, cmd.range, tr, mode);
      } else if IsTrackerCommand(cmd) {
        r := TrackerCommand(cmd, tr, mode);
      } else {
        r := EditCommand(cmd, tr, mode);
      }
    }

    /** The second half of `insertTextAsync`, for the `k`-th awaited promise:
        the promise leaves the awaited list and its `onDone` runs. */
    method ResolveInsertTextAsync(k: nat, value: string) returns (r: Result<bool, Failure>)
      requires Valid() && k < |scheduled|
      modifies view, this`transaction, this`customTransaction, this`scheduled
      ensures Valid()
      ensures scheduled == old(scheduled[..k] + scheduled[k + 1..])
      ensures var found := Find(old(view.state.trackers), old(scheduled[k]));
        && (found.None? ==> r == Success(false) && view.state == old(view.state))
        && (found.Some? ==>
              var steps := ReplacementSteps(found.value.from, found.value.to, value);
              && r == Success(true)
              && view.state.doc == ApplySteps(old(view.state.doc), steps)
              && (view.removalKey == TypeKey ==> Find(view.state.trackers, old(scheduled[k])).None?)
              && (view.removalKey == NameKey ==> view.state.trackers == MapSet(old(view.state.trackers), steps)))
    {
      var id := scheduled[k];
      scheduled := scheduled[..k] + scheduled[k + 1..];
      r := OnDone(id, value);
    }

    /** `onDone`: on a new transaction from the view's state the tracker is
        looked up and its removal staged; when it was found the value
        replaces its range and the transaction is dispatched. */
    method OnDone(id: TrackerId, value: string) returns (r: Result<bool, Failure>)
      requires Valid()
      modifies view, this`transaction, this`customTransaction
      ensures Valid()
      ensures var found := Find(old(view.state.trackers), id);
        && (found.None? ==> r == Success(false) && view.state == old(view.state))
        && (found.Some? ==>
              var steps := ReplacementSteps(found.value.from, found.value.to, value);
              && r == Success(true)
              && view.state.doc == ApplySteps(old(view.state.doc), steps)
              && (view.removalKey == TypeKey ==> Find(view.state.trackers, id).None?)
              && (view.removalKey == NameKey ==> view.state.trackers == MapSet(old(view.state.trackers), steps)))
    {
      var s0 := view.state;
      var tr := new Transaction.FromState(s0.doc, s0.selection);
      var range := FindTracker(id);
      var _ := RemoveTracker(id, tr, false);
      if range.None? {
        return Success(false);
      }
      r := ReplaceTracked(id, value, range.value, tr);
    }

    /** The found half of `onDone`: the value replaces the tracker's range on
        the transaction holding the staged removal, which is dispatched. */
    method ReplaceTracked(id: TrackerId, value: string, range: Range, tr: Transaction) returns (r: Result<bool, Failure>)
      requires Valid()
      requires tr.before == view.state.doc && tr.steps == []
      requires var meta := GetMeta(tr.meta); !meta.clearTrackers && meta.added == [] && id in meta.removed
      modifies view, this`transaction, this`customTransaction, tr
      ensures Valid()
      ensures var steps := ReplacementSteps(range.from, range.to, value);
        && r == Success(true)
        && view.state.doc == ApplySteps(old(view.state.doc), steps)
        && (view.removalKey == TypeKey ==> Find(view.state.trackers, id).None?)
        && (view.removalKey == NameKey ==> view.state.trackers == MapSet(old(view.state.trackers), steps))
    {
      var s0 := view.state;
      var staged := tr.meta;
      ghost var meta := GetMeta(staged);
      var insert := InsertText(value, Some(PartialRange(Some(range.from), Some(range.to))));
      ghost var steps := ReplacementSteps(range.from, range.to, value);
      assert StagedEdit(insert, tr.selection, staged).steps == steps && StagedEdit(insert, tr.selection, staged).meta == staged by {
        ReplaceRangeEdit(value, range.from, range.to, tr.selection, staged);
      }
      r := DispatchEdit(insert, tr, ViewDispatch);
      assert tr.steps == steps && tr.meta == staged;
      assert view.state == Committed(s0, tr, view.removalKey);
      ResolvedTrackers(s0.trackers, steps, meta, id, view.removalKey);
    }

    // -------------------------------------------------------------------------
    // Calling commands

    /** An `unchainedFactory` closure: the command runs on the shared
        transaction, with `view.dispatch` or, for `isEnabled`, none. */
    method Invoke(inv: Invoker, cmd: Command) returns (r: Result<bool, Failure>, ghost tr: Transaction)
      requires Valid()
      modifies view, this`transaction, this`customTransaction, this`scheduled, transaction, customTransaction
      ensures Valid()
      ensures tr == old(Shared()) || (old(Shared()) == null && fresh(tr))
      ensures old(PendingSteps()) <= tr.steps
      ensures old(customTransaction) == null ==> tr.before == old(view.state.doc)
      ensures view.state == old(view.state) || view.state == Committed(old(view.state), tr, view.removalKey)
      ensures inv.shouldDispatch && old(customTransaction) == null ==> r.Success?
      ensures !inv.shouldDispatch ==> view.state == old(view.state) && tr.steps == old(PendingSteps())
      ensures !inv.shouldDispatch && !Overrides(cmd) ==>
        customTransaction == old(customTransaction) && PendingSteps() == old(PendingSteps())
      ensures Underlying(cmd).Custom? ==> customTransaction == Underlying(cmd).tr
      ensures Underlying(cmd).Restore? ==> customTransaction == null
      ensures r.Success? ==> r.value == Enabled(Underlying(cmd), old(view.state.trackers), old(PendingSelection()))
      ensures !inv.shouldDispatch ==> r == Success(Enabled(Underlying(cmd), old(view.state.trackers), old(PendingSelection())))
      ensures inv.shouldDispatch ==>
        var e := Dispatched(Underlying(cmd), old(view.state.trackers), old(PendingSelection()), old(PendingMeta()), options);
        tr.steps == old(PendingSteps()) + e.steps && tr.selection == e.selection && tr.meta == e.meta
      ensures inv.shouldDispatch && r == Success(true) && !Overrides(cmd) ==>
        view.state == Committed(old(view.state), tr, view.removalKey)
      ensures scheduled == old(scheduled) +
        (if Underlying(cmd).InsertTextAsync? && r == Success(true) then [Underlying(cmd).id] else [])
    {
      var shared := GetTransaction();
      tr := shared;
      var mode := if inv.shouldDispatch then ViewDispatch else NoDispatch;
      r := Execute(cmd, shared, mode);
    }

    /** `commands[name](...)`: a missing name is not a function. */
    method Call(name: string, cmd: Command) returns (r: Result<bool, Failure>, ghost tr: Transaction?)
      requires Valid()
      modifies view, this`transaction, this`customTransaction, this`scheduled, transaction, customTransaction
      ensures Valid()
      ensures name !in commands ==>
        && r == Failure(NotAFunction(name)) && view.state == old(view.state)
        && transaction == old(transaction) && customTransaction == old(customTransaction)
      ensures name in commands && old(customTransaction) == null ==> r.Success?
      ensures name in commands ==>
        && tr != null && old(PendingSteps()) <= tr.steps
        && (view.state == old(view.state) || view.state == Committed(old(view.state), tr, view.removalKey))
      ensures name in commands ==>
        && (Underlying(cmd).Custom? ==> customTransaction == Underlying(cmd).tr)
        && (Underlying(cmd).Restore? ==> customTransaction == null)
        && (r.Success? ==> r.value == Enabled(Underlying(cmd), old(view.state.trackers), old(PendingSelection())))
        && (var e := Dispatched(Underlying(cmd), old(view.state.trackers), old(PendingSelection()), old(PendingMeta()), options);
            tr.steps == old(PendingSteps()) + e.steps && tr.selection == e.selection && tr.meta == e.meta)
        && (r == Success(true) && !Overrides(cmd) ==> view.state == Committed(old(view.state), tr, view.removalKey))
      ensures scheduled == old(scheduled) +
        (if Underlying(cmd).InsertTextAsync? && r == Success(true) then [Underlying(cmd).id] else [])
    {
      if name !in commands {
        return Failure(NotAFunction(name)), null;
      }
      r, tr := Invoke(commands[name].command, cmd);
    }

    /** `commands[name].isEnabled(...)`: the command runs without a dispatch,
        so it never fails, never moves the view and, unless it is `custom`
        or `restore`, leaves the shared transaction as it was. */
    method IsEnabled(name: string, cmd: Command) returns (r: Result<bool, Failure>)
      requires Valid()
      modifies view, this`transaction, this`customTransaction, this`scheduled, transaction, customTransaction
      ensures Valid()
      ensures name !in commands ==> r == Failure(NotAFunction(name))
      ensures name in commands ==> r == Success(Enabled(Underlying(cmd), old(view.state.trackers), old(PendingSelection())))
      ensures view.state == old(view.state)
      ensures !Overrides(cmd) ==> customTransaction == old(customTransaction) && PendingSteps() == old(PendingSteps())
      ensures name in commands && Underlying(cmd).Custom? ==> customTransaction == Underlying(cmd).tr
      ensures name in commands && Underlying(cmd).Restore? ==> customTransaction == null
      ensures scheduled == old(scheduled) +
        (if Underlying(cmd).InsertTextAsync? && r == Success(true) then [Underlying(cmd).id] else [])
    {
      if name !in commands {
        return Failure(NotAFunction(name));
      }
      ghost var tr;
      r, tr := Invoke(commands[name].isEnabled, cmd);
    }

    /** The chain's `run`: dispatch the shared transaction to the view. */
    method Run() returns (r: Outcome<Failure>)
      requires Valid()
      modifies view, this`transaction, this`customTransaction
      ensures Valid()
      ensures old(customTransaction) == null ==> r.Pass?
      ensures old(customTransaction) != null ==> (r.Pass? <==> old(customTransaction.before) == old(view.state.doc))
      ensures r.Pass? ==>
        && view.state == EditorState(
             ApplySteps(old(view.state.doc), old(PendingSteps())),
             old(PendingSelection()),
             Reduce(old(view.state.trackers), old(PendingSteps()), GetMeta(old(PendingMeta())), view.removalKey))
        && customTransaction == null && PendingSteps() == []
      ensures r.Fail? ==> r.error == MismatchedTransaction && view.state == old(view.state)
    {
      var tr := GetTransaction();
      r := DispatchTo(tr, ViewDispatch);
    }

    /** `chain[name](...)`: a chained command runs on the shared transaction
        with the checking dispatch and hands back the chain; `run` commits. */
    method CallChained(name: string, cmd: Command) returns (r: Result<ChainReturn, Failure>)
      requires Valid()
      modifies view, this`transaction, this`customTransaction, this`scheduled, transaction, customTransaction
      ensures Valid()
      ensures chain == null || name !in chain.chained ==>
        r == Failure(NotAFunction(name)) && view.state == old(view.state)
      ensures chain != null && name in chain.chained && chain.chained[name].Link? ==>
        && r == Success(Chained(chain)) && view.state == old(view.state)
        && (Underlying(cmd).Custom? ==> customTransaction == Underlying(cmd).tr)
        && (Underlying(cmd).Restore? ==> customTransaction == null)
        && (!Overrides(cmd) ==>
              var e := Dispatched(Underlying(cmd), old(view.state.trackers), old(PendingSelection()), old(PendingMeta()), options);
              && customTransaction == old(customTransaction) && Shared() != null
              && (old(Shared()) != null ==> transaction == old(transaction))
              && PendingSteps() == old(PendingSteps()) + e.steps
              && PendingSelection() == e.selection && PendingMeta() == e.meta)
      ensures chain != null && name in chain.chained && chain.chained[name].Run? ==>
        && (r.Success? ==> r.value == Ran)
        && (old(customTransaction) == null ==>
              && r == Success(Ran)
              && view.state.doc == ApplySteps(old(view.state.doc), old(PendingSteps()))
              && view.state.selection == old(PendingSelection()))
      ensures chain != null && name in chain.chained && chain.chained[name].Link? ==>
        scheduled == old(scheduled) + (if Underlying(cmd).InsertTextAsync? &&
          Enabled(Underlying(cmd), old(view.state.trackers), old(PendingSelection())) then [Underlying(cmd).id] else [])
      ensures !(chain != null && name in chain.chained && chain.chained[name].Link?) ==> scheduled == old(scheduled)
    {
      if chain == null || name !in chain.chained {
        return Failure(NotAFunction(name));
      }
      match chain.chained[name]
      case Run =>
        var o := Run();
        r := if o.Pass? then Success(Ran) else Failure(o.error);
      case Link(_) =>
        RunLinked(cmd);
        r := Success(Chained(chain));
    }

    /** A chained command's body: the command runs on the shared transaction
        with the chain's dispatch, which never commits. */
    method RunLinked(cmd: Command)
      requires Valid()
      modifies view, this`transaction, this`customTransaction, this`scheduled, transaction, customTransaction
      ensures Valid() && view.state == old(view.state)
      ensures Underlying(cmd).Custom? ==> customTransaction == Underlying(cmd).tr
      ensures Underlying(cmd).Restore? ==> customTransaction == null
      ensures !Overrides(cmd) ==>
        var e := Dispatched(Underlying(cmd), old(view.state.trackers), old(PendingSelection()), old(PendingMeta()), options);
        && customTransaction == old(customTransaction) && Shared() != null
        && (old(Shared()) != null ==> transaction == old(transaction))
        && PendingSteps() == old(PendingSteps()) + e.steps
        && PendingSelection() == e.selection && PendingMeta() == e.meta
      ensures scheduled == old(scheduled) + (if Underlying(cmd).InsertTextAsync? &&
        Enabled(Underlying(cmd), old(view.state.trackers), old(PendingSelection())) then [Underlying(cmd).id] else [])
    {
      var tr := GetTransaction();
      var e := Execute(cmd, tr, ChainDispatch);
      assert e.Success?;
    }

    /** `custom(t)` followed by the getter: every command now shares `t`. */
    method CustomThenGet(t: Transaction, on: Transaction, mode: DispatchMode) returns (r: Result<bool, Failure>, tr: Transaction)
      requires Valid()
      modifies view, this`transaction, this`customTransaction, this`scheduled, on
      ensures Valid()
      ensures r == Success(true) && tr == t && customTransaction == t && view.state == old(view.state)
    {
      r := Execute(Custom(t), on, mode);
      tr := GetTransaction();
    }

    /** `restore()` followed by the getter: the custom transaction is gone, so
        the transaction handed out is the cached one while it is current, and
        otherwise one built from the view's state. */
    method RestoreThenGet(on: Transaction, mode: DispatchMode) returns (r: Result<bool, Failure>, tr: Transaction)
      requires Valid()
      modifies view, this`transaction, this`customTransaction, this`scheduled, on
      ensures Valid()
      ensures r == Success(true) && customTransaction == null && view.state == old(view.state)
      ensures tr == transaction && tr.before == view.state.doc
      ensures old(transaction) != null && old(transaction.before) == old(view.state.doc) ==> tr == old(transaction)
      ensures old(transaction) == null ==>
        fresh(tr) && tr.steps == [] && tr.selection == view.state.selection && tr.meta == None
    {
      r := Execute(Restore, on, mode);
      tr := GetTransaction();
    }

    /** One chained `insertText` call on the cached shared transaction: its
        selection becomes a cursor after the text and the replacement is
        appended to its steps. */
    method ChainInsert(text: string)
      requires Valid()
      requires chain != null && "insertText" in chain.chained && chain.chained["insertText"].Link?
      requires customTransaction == null && transaction != null && transaction.before == view.state.doc
      requires PendingSelection().from <= PendingSelection().to
      modifies view, this`transaction, this`customTransaction, this`scheduled, transaction
      ensures Valid() && view.state == old(view.state) && customTransaction == null && transaction == old(transaction)
      ensures var sel := old(PendingSelection());
        var at := sel.from + |text|;
        && PendingSteps() == old(PendingSteps()) + ReplacementSteps(sel.from, sel.to, text)
        && PendingSelection() == Selection(at, at) && PendingMeta() == old(PendingMeta())
    {
      InsertTextLeavesCursorAfterText(text, PendingSelection(), PendingMeta());
      var r := CallChained("insertText", InsertText(text, None));
    }

    /** Two chained `insertText` calls over the selection of a fresh state:
        the shared transaction holds both replacements in call order and a
        cursor after the second text, and nothing is committed yet. */
    method ChainInsertTwice(a: string, b: string)
      requires Valid()
      requires chain != null && "insertText" in chain.chained && chain.chained["insertText"].Link?
      requires view.state.selection.from <= view.state.selection.to
      modifies view, this`transaction, this`customTransaction, this`scheduled, transaction, customTransaction
      ensures Valid() && view.state == old(view.state) && customTransaction == null && fresh(transaction)
      ensures var sel := old(view.state.selection);
        var at := sel.from + |a|;
        && PendingSteps() == ReplacementSteps(sel.from, sel.to, a) + ReplacementSteps(at, at, b)
        && PendingSelection() == Selection(at + |b|, at + |b|)
    {
      OnStateUpdate(view.state);
      ChainInsert(a);
      ChainInsert(b);
    }

    /** The two chained `insertText` calls, then `run`: a single commit
        carries both texts in call order and leaves the cursor after the
        second. */
    method ChainInsertTwiceAndRun(a: string, b: string) returns (r: Result<ChainReturn, Failure>)
      requires Valid()
      requires chain != null && "insertText" in chain.chained && chain.chained["insertText"].Link?
      requires view.state.selection.from <= view.state.selection.to <= |view.state.doc|
      modifies view, this`transaction, this`customTransaction, this`scheduled, transaction, customTransaction
      ensures Valid()
      ensures r == Success(Ran)
      ensures var d, sel := old(view.state.doc), old(view.state.selection);
        && view.state.doc == d[..sel.from] + a + b + d[sel.to..]
        && view.state.selection == Selection(sel.from + |a| + |b|, sel.from + |a| + |b|)
    {
      var d, sel := view.state.doc, view.state.selection;
      ChainInsertTwice(a, b);
      assert ApplySteps(d, PendingSteps()) == d[..sel.from] + a + b + d[sel.to..] by {
        TwoInsertions(d, sel.from, sel.to, a, b);
      }
      r := CallChained("run", EmptyUpdate);
    }

    // -------------------------------------------------------------------------
    // Building the tables

    /** `onView`: every extension's commands are registered (an error leaves
        the store keys as they were), each name gets its command with its
        `isEnabled` twin, and the chain gets its terminal `run`. */
    method OnView(extensions: seq<Extension>) returns (r: Outcome<Failure>)
      requires Valid()
      modifies this`commands, this`chain
      ensures Valid()
      ensures r.Pass? <==> CollectCommands(EmptyTables, extensions).Success?
      ensures r.Fail? ==>
        r.error == CollectCommands(EmptyTables, extensions).error && commands == old(commands) && chain == old(chain)
      ensures r.Pass? ==>
        var t := CollectCommands(EmptyTables, extensions).value;
        && commands == t.unchained
        && chain != null && fresh(chain)
        && chain.names == t.names && chain.unchained == t.unchained
        && chain.chained == t.chained["run" := ChainLink.Run]
    {
      var tables := new CommandTables();
      var i := 0;
      while i < |extensions|
        invariant 0 <= i <= |extensions|
        invariant CollectCommands(EmptyTables, extensions) == CollectCommands(tables.Value(), extensions[i..])
        modifies tables
      {
        assert extensions[i..][0] == extensions[i] && extensions[i..][1..] == extensions[i + 1..];
        if extensions[i].commands.Some? {
          var o := tables.AddCommands(EntriesOf(extensions[i]));
          if o.Fail? {
            return Fail(o.error);
          }
        }
        i := i + 1;
      }
      assert extensions[i..] == [];
      CollectWellFormed(extensions);
      var result := CopyEntries(tables.unchained);
      tables.chained := tables.chained["run" := ChainLink.Run];
      commands := result;
      chain := tables;
      r := Pass;
    }
  }
}
