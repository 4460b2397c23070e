/** The editor state and view the extension works against: a document, a
    selection and the commands plugin's tracker decorations. */
module Editor {
  import opened Document
  import opened CommandMeta
  import opened Transactions
  import opened Trackers
  import opened TrackerProperties

  datatype EditorState = EditorState(doc: Doc, selection: Selection, trackers: DecorationSet)

  /** `state.apply(tr)` for a transaction that starts from the state's
      document: its document, its selection, and the plugin's reducer run on
      the tracker set, matching removed trackers on the spec field `key`. */
  function Committed(s: EditorState, tr: Transaction, key: string): EditorState
    reads tr
  {
    EditorState(tr.CurrentDoc(), tr.selection, Reduce(s.trackers, tr.steps, GetMeta(tr.meta), key))
  }

  class View {
    var state: EditorState
    /** The spec field the plugin's reducer compares removed ids against:
        `NameKey` is the code as written, `TypeKey` the field the specs carry. */
    const removalKey: string

    ghost predicate Valid()
      reads this
    {
      TrackerSpecs(state.trackers) && Placed(state.trackers)
    }

    /** A view on a new state; the plugin's `init` gives the empty set. */
    constructor (doc: Doc, selection: Selection, removalKey: string)
      ensures Valid() && state == EditorState(doc, selection, [])
      ensures this.removalKey == removalKey
    {
      state := EditorState(doc, selection, []);
      this.removalKey := removalKey;
    }

    /** `view.dispatch(tr)`: the state refuses a transaction that does not
        start from its document, and otherwise moves to the committed state. */
    method Dispatch(tr: Transaction) returns (ok: bool)
      requires Valid()
      modifies this
      ensures Valid()
      ensures ok <==> tr.before == old(state).doc
      ensures ok ==> state == Committed(old(state), tr, removalKey)
      ensures !ok ==> state == old(state)
    {
      if tr.before != state.doc {
        return false;
      }
      var trackers := ApplyTrackers(tr, state.trackers, removalKey);
      ReduceKeepsSpecs(state.trackers, tr.steps, GetMeta(tr.meta), removalKey);
      ReducePlaced(state.trackers, tr.steps, GetMeta(tr.meta), removalKey);
      state := EditorState(tr.CurrentDoc(), tr.selection, trackers);
      ok := true;
    }
  }
}
