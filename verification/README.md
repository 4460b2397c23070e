# remirror's commands extension, modelled in Dafny

This project models the command engine of remirror's `CommandsExtension`. remirror is an editor toolkit built on ProseMirror. The model has five parts.

- **Shared transaction.** Every command edits one shared ProseMirror transaction. The extension caches it and rebuilds it from the editor state when it has gone stale. A `custom` command can override it.
- **Command tables.** `onView` folds every extension's commands into two tables:
  - the unchained table, where each command has an `isEnabled` twin;
  - the chained table, which ends in `run`.
  Names must be unique, and the names `run` and `chain` are reserved.
- **Built-in commands.** These are `customDispatch`, `custom`, `restore`, `insertText`, `insertTextAsync`, `selectText`, `delete`, `emptyUpdate`, `forceUpdate`, `updateNodeAttributes`, `clearRangeSelection` and the three position-tracker commands. Each one behaves differently depending on its `dispatch`:
  - the view's dispatch for an unchained call;
  - no dispatch for `isEnabled`;
  - a checking dispatch for a chained call.
- **Position trackers.** They are staged on the transaction's meta record. They are checked against the tracker set the editor state holds. The plugin's state `apply` reduces them in this order: map, clear, add, remove.
- **`asyncCommand`.** It is split into its synchronous half and its `onDone` continuation.

Modules, in dependency order:

- `Wrappers` and `Errors`: option and result types, and the errors the source throws.
- `Document`: a text document, replace steps, and the step map that positions are mapped through.
- `CommandMeta`: the meta record and `uniqueArray`.
- `Transactions`: the transaction as a class with its steps, selection and meta.
- `Trackers` and `TrackerProperties`: decorations, the reducer and its properties.
- `Editor`: the editor state, and a view whose `dispatch` applies a transaction.
- `Registry`: the command tables.
- `Commands`: the `CommandsExtension` class.

Things the model shows about the code:

- Removing a tracker never works as written. There is a finding below. The view takes the removal key its reducer uses as a parameter: `NameKey` runs the filter as written, `TypeKey` the evident fix. Every operation that commits states its effect under the view's key, so both programs are covered.
- A stale shared transaction is rebuilt with its steps but without its meta. Tracker changes staged on it are therefore lost (see `GetTransaction` and `Run`).
- A tracker whose range comes out reversed is accepted but never committed. An example is `addPositionTracker({id: 7, from: 5})` with the cursor at 2: `to` defaults to 2, and `decorationSet.add` drops the inline range `[5, 2)`. Adding the same id again is then accepted too (`ReversedTrackerAddedTwice`).
- `insertTextAsync.isEnabled` still awaits its promise. Its `onDone` then finds no tracker and returns false, unless a tracker with the same id was committed in the meantime.

## Model

All source paths below are in `packages/@remirror/core/src/builtins/commands-extension.ts`.

| member | source | states |
|---|---|---|
| Document.ApplyStep | packages/@remirror/core/src/builtins/commands-extension.ts:264-265 | a step that fits the document replaces exactly `[from, to)` with its text and keeps the rest; one that does not fit changes nothing |
| Document.MapStep | packages/@remirror/core/src/builtins/commands-extension.ts:419 | positions before a replaced range stay put; positions after it shift by the change in length; positions inside land on one end of the new text; attribute steps move nothing |
| Document.MapStepsMonotone | packages/@remirror/core/src/builtins/commands-extension.ts:419 | mapping through any list of steps never reorders two positions |
| Document.InsertionShifts | packages/@remirror/core/src/builtins/commands-extension.ts:419 | an insertion shifts later positions by its length and leaves earlier ones alone; a position at the insertion point follows its side |
| Document.MapSelection | packages/@remirror/core/src/builtins/commands-extension.ts:118-120 | mapping a selection through a step keeps `from <= to` |
| Document.MapSelectionThrough | packages/@remirror/core/src/builtins/commands-extension.ts:117-121 | mapping a selection through the replayed steps keeps `from <= to` |
| CommandMeta.GetMeta | packages/@remirror/core/src/builtins/commands-extension.ts:500-503 | each field reads as stored, or as its default from `DEFAULT_COMMAND_META` (`[]`, `[]`, `[]`, `false`) when absent |
| CommandMeta.SetMetaReads | packages/@remirror/core/src/builtins/commands-extension.ts:505-508 | after `setMeta` (the spread `SetMeta`) the fields in the update read as given and every other field reads as before |
| CommandMeta.GetMetaFull | packages/@remirror/core/src/builtins/commands-extension.ts:500-503 | a meta record with all fields stored reads back unchanged |
| CommandMeta.UniqueArray | packages/@remirror/core/src/builtins/commands-extension.ts:481 | the result has no duplicates, has exactly the input's members and is no longer than the input |
| CommandMeta.UniqueArrayOfUnique | packages/@remirror/core/src/builtins/commands-extension.ts:481 | a duplicate-free list is returned unchanged |
| CommandMeta.UniqueArrayAbsorbs | packages/@remirror/core/src/builtins/commands-extension.ts:481 | appending members that are already present and removing duplicates gives the same list back |
| CommandMeta.UniqueArrayIdempotent | packages/@remirror/core/src/builtins/commands-extension.ts:481 | removing duplicates twice is the same as once |
| CommandMeta.ForceUpdate | packages/@remirror/core/src/builtins/commands-extension.ts:478-483 | `forcedUpdates` becomes duplicate-free and holds exactly the old keys and the new ones; the other meta fields are unchanged |
| CommandMeta.ForceUpdateIdempotent | packages/@remirror/core/src/builtins/commands-extension.ts:478-483 | forcing the same keys twice gives the same meta as forcing them once |
| Transactions.InsertionRange | packages/@remirror/core/src/builtins/commands-extension.ts:264-265 | the range is ordered whenever the selection and any given bounds are; with no `from` it is the selection, with both bounds it is exactly them, and a missing `to` defaults to `from` |
| Transactions.Transaction.FromState | packages/@remirror/core/src/builtins/commands-extension.ts:101 | `state.tr` starts from the state's document and selection, with no steps and no meta |
| Transactions.Transaction.AddStep | packages/@remirror/core/src/builtins/commands-extension.ts:118-120 | the step is appended, the document is the step applied to the old one, the selection is mapped, and the meta is kept |
| Transactions.Transaction.ReplaceRange | packages/@remirror/core/src/builtins/commands-extension.ts:265 | adds one replace step, or none when nothing is removed or inserted; the selection is mapped through what was added |
| Transactions.Transaction.InsertText | packages/@remirror/core/src/builtins/commands-extension.ts:264-265 | replaces the insertion range; with no `from`, or when text lands over a non-empty mapped selection, the selection collapses to its end; the meta is kept |
| Transactions.Transaction.Delete | packages/@remirror/core/src/builtins/commands-extension.ts:306-313 | replaces `[from, to)` with nothing; the selection is mapped through the deletion |
| Transactions.Transaction.SetSelection | packages/@remirror/core/src/builtins/commands-extension.ts:298 | only the selection changes |
| Transactions.Transaction.SetNodeMarkup | packages/@remirror/core/src/builtins/commands-extension.ts:350 | appends one attribute step; the selection is mapped and the meta is kept |
| Transactions.Transaction.SetMeta | packages/@remirror/core/src/builtins/commands-extension.ts:507 | only the meta changes |
| Transactions.ForceUpdate | packages/@remirror/core/src/builtins/commands-extension.ts:478-483 | the same transaction is returned; its meta becomes the forced-update merge; its steps and selection are unchanged |
| Transactions.GetForcedUpdates | packages/@remirror/core/src/builtins/commands-extension.ts:493-495 | the forced updates stored on the transaction (`ForcedUpdates`), or none when it carries no such meta |
| Trackers.Find | packages/@remirror/core/src/builtins/commands-extension.ts:707-712 | returns a range exactly when some decoration carries the id, and then the range of the first such decoration |
| Trackers.MapSet | packages/@remirror/core/src/builtins/commands-extension.ts:419 | mapping never adds decorations; its members and order are stated by the three mapping lemmas below |
| Trackers.MapDecoration | packages/@remirror/core/src/builtins/commands-extension.ts:419 | a surviving decoration keeps its spec and kind; a widget is lost exactly when its position is deleted, an inline range exactly when it becomes empty; survivors stay points or non-empty ranges |
| Trackers.TrackerDecoration | packages/@remirror/core/src/builtins/commands-extension.ts:433-447 | an addition becomes a widget exactly when `from == to`, otherwise an inline range; its spec is `{id, type: "commands"}`; `decorationSet.add` admits it exactly when `from <= to` |
| Trackers.RemoveMatching | packages/@remirror/core/src/builtins/commands-extension.ts:452-459 | keeps exactly the decorations the removal predicate does not match |
| Trackers.ApplyTrackers | packages/@remirror/core/src/builtins/commands-extension.ts:417-462 | the plugin's `apply` loops give `Reduce`'s result for any removal key: map, then a clear wins, else add what `decorationSet.add` admits (no reversed inline range), then remove |
| Trackers.StageAddition | packages/@remirror/core/src/builtins/commands-extension.ts:618-652 | refused exactly when the committed set already holds the id (staged additions are not consulted); check-only keeps the meta; otherwise one addition is appended, with `from`/`to` defaulting to the selection, the default node name, and class `trackerClassName` plus `' ' + className` when given (`ClassNames`); other fields kept |
| Trackers.StageRemoval | packages/@remirror/core/src/builtins/commands-extension.ts:659-679 | refused exactly when the id is not tracked; check-only keeps the meta; otherwise `removed` gains the id, keeps its old ids and has no duplicates; other fields kept |
| Trackers.StageClear | packages/@remirror/core/src/builtins/commands-extension.ts:686-700 | refused exactly when the tracker set is empty; check-only keeps the meta; otherwise `clearTrackers` is set and the other fields are kept |
| TrackerProperties.MapSetKeepsSpecs | packages/@remirror/core/src/builtins/commands-extension.ts:419 | mapping keeps every decoration's spec |
| TrackerProperties.AddAllContents | packages/@remirror/core/src/builtins/commands-extension.ts:428-450 | the add loop appends exactly `AdmittedDecorations(added)`: the decorations of the additions in order, reversed ranges dropped |
| TrackerProperties.AdmittedDecorationsMembers | packages/@remirror/core/src/builtins/commands-extension.ts:428-450 | a decoration is added exactly when it is the decoration of an addition with `from <= to` |
| TrackerProperties.AdmittedDecorationsSnoc | packages/@remirror/core/src/builtins/commands-extension.ts:428-450 | one more addition appends its decoration when its range is ordered and nothing otherwise |
| TrackerProperties.AddAllPlaced | packages/@remirror/core/src/builtins/commands-extension.ts:428-450 | adding keeps widgets at points and inline ranges non-empty |
| TrackerProperties.ReducePlaced | packages/@remirror/core/src/builtins/commands-extension.ts:417-462 | every set the reducer produces is placed, so the view's tracker set always is |
| TrackerProperties.RemoveAllMembers | packages/@remirror/core/src/builtins/commands-extension.ts:452-459 | a decoration survives the removal loop exactly when no removed id matches it |
| TrackerProperties.ReduceKeepsSpecs | packages/@remirror/core/src/builtins/commands-extension.ts:417-462 | the reducer keeps every tracker spec of the `{id, type}` form |
| TrackerProperties.NameKeyNeverMatches | packages/@remirror/core/src/builtins/commands-extension.ts:456 | the as-written predicate `spec.name === this.name` matches no tracker |
| TrackerProperties.NameKeyRemovesNothing | packages/@remirror/core/src/builtins/commands-extension.ts:452-459 | the as-written removal loop returns the set unchanged |
| TrackerProperties.ReduceAsWrittenIgnoresRemovals | packages/@remirror/core/src/builtins/commands-extension.ts:417-462 | as written, the reducer is map, then clear or add; removals have no effect |
| TrackerProperties.AsWrittenRemovalKeepsTracker | packages/@remirror/core/src/builtins/commands-extension.ts:436-459 | a tracker whose removal was accepted is still found after the as-written reducer |
| TrackerProperties.RemovedTrackerIsGone | packages/@remirror/core/src/builtins/commands-extension.ts:452-459 | with the corrected predicate, an id in `removed` is not found afterwards |
| TrackerProperties.AddedTrackerIsPresent | packages/@remirror/core/src/builtins/commands-extension.ts:428-450 | an ordered addition whose id is not also removed ends up in the set, as a widget exactly when `from == to` |
| TrackerProperties.ReversedAdditionIsDropped | packages/@remirror/core/src/builtins/commands-extension.ts:439-449 | an addition with `from > to` is never in the reduced set, whatever else the transaction stages |
| TrackerProperties.ReversedTrackerAddedTwice | packages/@remirror/core/src/builtins/commands-extension.ts:618-650 | with the cursor at 2, adding tracker 7 from 5 is accepted, the committed set does not hold 7, and adding 7 again is accepted |
| TrackerProperties.ClearedTrackersAreGone | packages/@remirror/core/src/builtins/commands-extension.ts:424-426 | after a clear the set is empty, and additions staged alongside are dropped |
| TrackerProperties.SecondAddRefused | packages/@remirror/core/src/builtins/commands-extension.ts:622-626 | once an addition with an ordered range is committed, adding the same id again is refused |
| TrackerProperties.InsertionBeforeTrackerShifts | packages/@remirror/core/src/builtins/commands-extension.ts:419 | text inserted at or before a tracker shifts it by the text's length |
| TrackerProperties.MapSetMembers | packages/@remirror/core/src/builtins/commands-extension.ts:419 | a decoration is in the mapped set exactly when it is the image of a decoration of the original set |
| TrackerProperties.MapSetAppend | packages/@remirror/core/src/builtins/commands-extension.ts:419 | mapping keeps order: mapping two parts one after the other gives the mapped parts one after the other |
| TrackerProperties.MapSetPlaced | packages/@remirror/core/src/builtins/commands-extension.ts:419 | after mapping, widgets are still points and inline ranges still non-empty |
| TrackerProperties.TrackerFollowsInsertion | packages/@remirror/core/src/builtins/commands-extension.ts:419 | in any set of well-placed trackers, text inserted at or before a tracker's start makes `find` report that tracker's range shifted by the text's length |
| Editor.View.constructor | packages/@remirror/core/src/builtins/commands-extension.ts:414-416 | the plugin state starts empty; the view keeps the removal key it is given for its reducer |
| Editor.View.Dispatch | packages/@remirror/core/src/builtins/commands-extension.ts:417-462 | a transaction is accepted exactly when it starts from the view's document; the new state is its document, its selection and the tracker set reduced under the view's removal key (`Reduce`); a refused one changes nothing; the tracker set stays placed |
| Registry.AddCommand | packages/@remirror/core/src/builtins/commands-extension.ts:517-531 | fails exactly for a name already added or a forbidden name, checking for a duplicate first; otherwise the names set grows by exactly the name, which gets a dispatching command and a non-dispatching `isEnabled` built from its factory |
| Registry.EntriesOf | packages/@remirror/core/src/builtins/commands-extension.ts:171-179 | an extension without `createCommands` contributes nothing; otherwise exactly its command names, in order, each with a factory tagged with the extension's name and that command name |
| Registry.RegisterAllAppend | packages/@remirror/core/src/builtins/commands-extension.ts:514-533 | adding two lists is adding the first and then, if that succeeded, the second |
| Registry.CollectIsFlat | packages/@remirror/core/src/builtins/commands-extension.ts:171-179 | registering extension by extension (`CollectCommands`) is registering all their commands in order (`RegisterAll`) |
| Registry.RegisterAllSucceeds | packages/@remirror/core/src/builtins/commands-extension.ts:514-533 | registration succeeds exactly when the names are new, pairwise distinct and not reserved |
| Registry.RegisterAllWellFormed | packages/@remirror/core/src/builtins/commands-extension.ts:526-531 | the names set, the unchained table and the chained table keep the same keys; every entry has the dispatching/`isEnabled`/chained shape |
| Registry.RegisterAllNames | packages/@remirror/core/src/builtins/commands-extension.ts:519 | after registration the names are exactly the old ones plus the registered ones |
| Registry.RegisterAllEntries | packages/@remirror/core/src/builtins/commands-extension.ts:526-529 | every registered name gets its own factory's entries; other names keep theirs |
| Registry.ReservedNameRefused | packages/@remirror/core/src/builtins/commands-extension.ts:521-524 | any extension offering `run` or `chain` makes registration fail |
| Registry.DuplicateNameRefused | packages/@remirror/core/src/builtins/commands-extension.ts:519 | two extensions offering the same name make registration fail |
| Registry.CollectWellFormed | packages/@remirror/core/src/builtins/commands-extension.ts:165-187 | the finished tables are well formed and never name `run` or `chain`, so the terminal `run` fits beside them |
| Registry.CommandTables.constructor | packages/@remirror/core/src/builtins/commands-extension.ts:166-169 | the tables start empty |
| Registry.CommandTables.AddCommands | packages/@remirror/core/src/builtins/commands-extension.ts:514-533 | the in-place loop succeeds exactly when the functional registration does, leaves its tables, and otherwise throws its error |
| Commands.Underlying | packages/@remirror/core/src/builtins/commands-extension.ts:221-223 | `customDispatch` hands back the command itself: the result is never a `customDispatch` wrapper, and a command that is not wrapped is returned unchanged |
| Commands.UnderlyingOfWrapped | packages/@remirror/core/src/builtins/commands-extension.ts:221-223 | any number of `customDispatch` wrappers unwrap to the innermost command |
| Commands.InsertTextLeavesCursorAfterText | packages/@remirror/core/src/builtins/commands-extension.ts:262-269 | with no range, `insertText` replaces the selection and leaves a cursor right after the text |
| Commands.DeleteSelectionLeavesCursor | packages/@remirror/core/src/builtins/commands-extension.ts:306-313 | with no range, `delete` removes the selection and leaves a cursor at its start |
| Commands.InsertTextIntoRange | packages/@remirror/core/src/builtins/commands-extension.ts:262-269 | with a range and non-empty text, `insertText` replaces that range, keeps the meta and leaves an empty selection |
| Commands.AsyncTracker | packages/@remirror/core/src/builtins/commands-extension.ts:277 | the tracker is keyed by the promise, has no class or node name of its own, and takes a given range's `from` and `to` unchanged |
| Commands.AsyncIsTrackerAddition | packages/@remirror/core/src/builtins/commands-extension.ts:274-277 | `insertTextAsync` accepts, refuses and stages exactly as `addPositionTracker` of its tracker |
| Commands.EnabledIsStagingDecision | packages/@remirror/core/src/builtins/commands-extension.ts:377-402 | a tracker command's check-only run (its `isEnabled`) and its dispatching run accept alike, exactly when `Enabled` holds |
| Commands.ClearRangeSelectionSettles | packages/@remirror/core/src/builtins/commands-extension.ts:360-371 | `clearRangeSelection` adds no step, keeps the meta and leaves a cursor at the selection's start; a second one is then refused and changes nothing |
| Commands.SelectThenClear | packages/@remirror/core/src/builtins/commands-extension.ts:293-301 | `selectText` followed by `clearRangeSelection` adds no step, keeps the meta and leaves a cursor at the start of the selected range |
| Commands.NodeAttributesKeepText | packages/@remirror/core/src/builtins/commands-extension.ts:345-354 | `updateNodeAttributes` adds exactly one step, which leaves the text, the selection and the meta as they were |
| Commands.EmptyUpdateChangesNothing | packages/@remirror/core/src/builtins/commands-extension.ts:322-328 | `emptyUpdate` always runs and adds no step, keeping the selection and the meta |
| Commands.InsertThenDeleteRestores | packages/@remirror/core/src/builtins/commands-extension.ts:262-269 | inserting text at a cursor and then deleting the inserted range gives the document back, with the cursor where it was |
| Commands.ResolvedTrackers | packages/@remirror/core/src/builtins/commands-extension.ts:452-459 | committing a transaction that only stages a removal of `id`: under the corrected key the tracker is gone, under the as-written key the set is only mapped |
| Commands.AsyncCommandStart | packages/@remirror/core/src/builtins/commands-extension.ts:834-861 | refuses exactly when `immediate` returns `false`, and `onCancel` runs only then; the promise is awaited exactly when the command succeeds and has a view |
| Commands.CommandsExtension.constructor | packages/@remirror/core/src/builtins/commands-extension.ts:73-77 | no transaction, no override, no tables yet |
| Commands.CommandsExtension.GetTransaction | packages/@remirror/core/src/builtins/commands-extension.ts:89-129 | a custom transaction is returned as is; otherwise the result starts from the current document; a valid cached one is returned as the same object; a stale or missing one is replaced by a fresh transaction with the old steps in order, the state's selection mapped through them and no meta |
| Commands.Replay | packages/@remirror/core/src/builtins/commands-extension.ts:110-125 | the rebuilt transaction starts from the state's document, holds the old steps in order, has the state's selection mapped through them and no meta |
| Commands.CommandsExtension.OnStateUpdate | packages/@remirror/core/src/builtins/commands-extension.ts:199-202 | the override is cleared and a fresh `state.tr` is cached |
| Commands.CommandsExtension.DispatchTo | packages/@remirror/core/src/builtins/commands-extension.ts:571-577 | the chained dispatch passes exactly for the shared transaction and leaves the view; the view's dispatch commits a matching transaction under the view's removal key and resets the shared one, and throws on a mismatched one |
| Commands.CommandsExtension.AddTracker | packages/@remirror/core/src/builtins/commands-extension.ts:618-652 | returns and stages exactly what `StageAddition` decides, against the committed tracker set as `findPositionTracker` (`FindTracker`) sees it |
| Commands.CommandsExtension.RemoveTracker | packages/@remirror/core/src/builtins/commands-extension.ts:659-679 | returns and stages exactly what `StageRemoval` decides |
| Commands.CommandsExtension.ClearTrackers | packages/@remirror/core/src/builtins/commands-extension.ts:686-700 | returns and stages exactly what `StageClear` decides |
| Commands.CommandsExtension.ApplyEdit | packages/@remirror/core/src/builtins/commands-extension.ts:262-371 | each editing command's change to the transaction is its staged edit (`StagedEdit`): the steps are appended and the selection and meta replaced |
| Commands.CommandsExtension.DispatchEdit | packages/@remirror/core/src/builtins/commands-extension.ts:262-354 | without a dispatch the transaction is untouched and the result is true; with one, the edit is made and then dispatched |
| Commands.CommandsExtension.TrackerCommand | packages/@remirror/core/src/builtins/commands-extension.ts:377-402 | the operation runs check-only exactly when there is no dispatch; the result is `Enabled`; a refusal returns false and dispatches nothing; success stages `Dispatched`'s meta and dispatches the transaction |
| Commands.CommandsExtension.InsertTextAsyncCommand | packages/@remirror/core/src/builtins/commands-extension.ts:274-277 | the tracker is placed through the `addPositionTracker` command; the promise is awaited exactly when the result is true, with or without a dispatch |
| Commands.CommandsExtension.EditCommand | packages/@remirror/core/src/builtins/commands-extension.ts:262-371 | an editing command returns `Enabled`; `clearRangeSelection` on an empty selection returns false and changes nothing; with a dispatch the transaction gains exactly the staged edit, and a true view dispatch commits it |
| Commands.CommandsExtension.ExecuteBuiltin | packages/@remirror/core/src/builtins/commands-extension.ts:245-402 | each built-in body returns `Enabled` and, with a dispatch, makes exactly `Dispatched`'s change; `custom` and `restore` set and clear the override and return true; the awaited promises grow by the command's id exactly when it is `insertTextAsync` and returns true, and are unchanged otherwise |
| Commands.CommandsExtension.Execute | packages/@remirror/core/src/builtins/commands-extension.ts:221-403 | for any command under any wrappers: `custom` sets and `restore` clears the override and return true; otherwise the result is `Enabled` and, when there is a dispatch, the transaction gains exactly `Dispatched`'s steps, selection and meta; a refused command leaves the view; a true view-dispatched command commits its transaction; a chained command never fails on the shared transaction; the awaited promises grow by the command's id exactly when it is `insertTextAsync` and returns true, and are unchanged otherwise |
| Commands.CommandsExtension.ResolveInsertTextAsync | packages/@remirror/core/src/builtins/commands-extension.ts:278-287 | an unknown tracker gives false and changes nothing; otherwise the value replaces the tracker's range in the document and the result is true; under the as-written key the tracker set is only mapped (the tracker stays), under the corrected key the tracker is gone |
| Commands.CommandsExtension.OnDone | packages/@remirror/core/src/builtins/commands-extension.ts:278-287 | an unknown tracker gives false and changes nothing; a found one has its range replaced by the value in the document, with the tracker set stated under each removal key |
| Commands.CommandsExtension.Invoke | packages/@remirror/core/src/builtins/commands-extension.ts:538-552 | the command runs on the shared transaction; the result is `Enabled` of the unwrapped command on the pending selection; a dispatching call adds exactly `Dispatched`'s steps and commits when it returns true; a non-dispatching call returns `Enabled` and leaves the view and the pending steps; `custom`/`restore` set and clear the override; the awaited promises grow by the command's id exactly when it is `insertTextAsync` and returns true, and are unchanged otherwise |
| Commands.CommandsExtension.Call | packages/@remirror/core/src/builtins/commands-extension.ts:182-184 | a missing name is not a function; a registered command returns `Enabled`, adds exactly `Dispatched`'s edit to the shared transaction, commits it when true, never fails without an override, and `custom`/`restore` set and clear the override; the awaited promises grow by the command's id exactly when it is `insertTextAsync` and returns true, and are unchanged otherwise |
| Commands.CommandsExtension.IsEnabled | packages/@remirror/core/src/builtins/commands-extension.ts:182-184 | a missing name is not a function; otherwise returns exactly `Enabled` of the command on the pending selection, never moves the view, and leaves the shared transaction unless the command is `custom` or `restore`; the awaited promises grow by the command's id exactly when it is `insertTextAsync` and returns true, and are unchanged otherwise |
| Commands.CommandsExtension.Run | packages/@remirror/core/src/builtins/commands-extension.ts:187 | without an override it always commits: the document is the pending steps applied, the selection is the pending selection and the trackers are reduced with the pending meta under the view's key; the shared transaction is reset; with an override it throws exactly when the override does not start from the document |
| Commands.CommandsExtension.CallChained | packages/@remirror/core/src/builtins/commands-extension.ts:557-583 | a missing name is not a function; a chained command hands back the chain, never moves the view, and appends exactly `Dispatched`'s steps to the pending steps, whose selection and meta become the edit's; `run` commits the pending steps and selection; the awaited promises grow by the command's id exactly when it is `insertTextAsync` and `Enabled`, and are unchanged otherwise |
| Commands.CommandsExtension.RunLinked | packages/@remirror/core/src/builtins/commands-extension.ts:579 | a chained command runs on the shared transaction and appends exactly `Dispatched`'s steps, with its selection and meta; `custom`/`restore` set and clear the override; the awaited promises grow by the command's id exactly when it is `insertTextAsync` and `Enabled`, and are unchanged otherwise |
| Commands.CommandsExtension.CustomThenGet | packages/@remirror/core/src/builtins/commands-extension.ts:245-250 | after `custom(t)` the getter returns `t` itself and the view is unchanged |
| Commands.CommandsExtension.RestoreThenGet | packages/@remirror/core/src/builtins/commands-extension.ts:252-257 | after `restore()` the override is gone and the getter returns the cached transaction while it is current, or a fresh one built from the view's state |
| Commands.CommandsExtension.ChainInsertTwice | packages/@remirror/core/src/builtins/commands-extension.ts:557-583 | two chained `insertText` calls on a fresh state leave both replacements on the shared transaction in call order, with a cursor after the second text, and commit nothing |
| Commands.CommandsExtension.ChainInsertTwiceAndRun | packages/@remirror/core/src/builtins/commands-extension.ts:187 | the two chained `insertText` calls followed by `run` commit one document holding both texts in call order, with the cursor after the second |
| Commands.CommandsExtension.OnView | packages/@remirror/core/src/builtins/commands-extension.ts:165-194 | succeeds exactly when registration does; `commands` then holds every name's command with its `isEnabled`, and the chain is the chained table plus `run`; on failure both store keys are left as they were |
| Commands.CopyEntries | packages/@remirror/core/src/builtins/commands-extension.ts:182-185 | the loop over the unchained table puts every name's entry into `commands` and nothing else |

## Left out

- Rendering the widget element (`document.createElement`, lines 434-436) is left out: it is DOM work. As written, the element given the tracker class is thrown away and an unclassed one is passed to the decoration. The model keeps no element.
- Trees, marks and schemas are left out. The document is a string and a step is a text replacement or an attribute change. `before.eq(doc)` becomes string equality.
- Document.ApplyStep: a step outside the document leaves it unchanged, where the library would throw.
- `selectText` takes a selection that has already been resolved: `getTextSelection` is not part of this model.
- Selections are plain `(from, to)` pairs mapped through steps. `Selection.near` and `TextSelection.create` are not modelled beyond a cursor at the given position.
- Trackers.MapSet: a decoration set is a list in insertion order, not ProseMirror's position-ordered tree. `find` returns the first match in that order.
- Trackers.StageClear: `clearPositionTrackers` compares the set with `DecorationSet.empty` by identity. The model approximates this with an emptiness test on the tracker list. A set that the library rebuilds as a new empty object would not be identical to `DecorationSet.empty`, and the source would then accept the clear where the model refuses it.
- Promises are left out. `insertTextAsync` is split into an immediate step and an explicit `ResolveInsertTextAsync` step. The awaited trackers are a list, and `onCancel` is only part of the pure `AsyncCommandStart` decision.
- Commands.CommandsExtension.Call, Commands.CommandsExtension.IsEnabled and Commands.CommandsExtension.CallChained take the registered name and the command separately. The model does not tie the command to the name it is registered under: the tables record which extension and key each name came from, not the command's body. Other extensions' command bodies are not part of this model, so every command run is one of the built-ins.
- Editor.View.Dispatch: the reducer's removal key is a parameter of the view rather than a constant. `NameKey` is the code as written, where `spec.name` is read from specs that never carry it. `TypeKey` reads the `type` field the specs do carry.
- Commands.CommandsExtension.ResolveInsertTextAsync: under `NameKey` it states only that the tracker set is mapped through the replacement. It does not state whether the replaced tracker survives that mapping.
- Registry.CommandTables.AddCommands: when registration throws, the tables are left partly filled. `onView` discards them, so the model states nothing about them.
- `throwIfNameNotUnique` and `uniqueArray` are not part of this model. The model takes them to mean "throw if the name is in the set, otherwise add it" and "keep first occurrences, in order".
- `asyncCommand`'s `if (!view) return true` is modelled as written. Neither the awaiting nor `onDone` re-checks that the view is still alive.
- `onCreate`'s store wiring is left out: `setExtensionStore`, `setStoreKey`, `getCommandParameter` and the deprecated `getChain`/`getCommands` accessors. The getter, `forceUpdate` and `getForcedUpdates` that it exposes are modelled directly.
- The TypeScript global type declarations (lines 868-1080) are left out.
- Exceptions are results. A thrown invariant becomes a `Failure` value, and any edits made to the transaction before the throw stay on it, as they do in the source.

## Findings

| source | as written | input that shows it | evidently intended | confidence | as-written member | corrected member |
|---|---|---|---|---|---|---|
| packages/@remirror/core/src/builtins/commands-extension.ts:456 | removals match `spec.name === this.name`, but tracker specs are created as `{ id, type: this.name }` (lines 437-438, 445), so no tracker ever matches | commit tracker 7 at `[2, 2)`, then `removePositionTracker(7)`: it returns true, yet tracker 7 is still found at `[2, 2)` after the transaction is applied | match on `spec.type === this.name` (or create specs with `name`), so a removed tracker disappears | high (not executed) | TrackerProperties.AsWrittenRemovalKeepsTracker | TrackerProperties.RemovedTrackerIsGone |
