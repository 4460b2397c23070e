/** The external library's transaction: a document it started from, the
    steps recorded so far, a selection and the commands extension's meta
    value. Commands mutate it in place and share it by identity. */
module Transactions {
  import opened Wrappers
  import opened Document
  import opened CommandMeta

  /** The range `insertText(text, from, to)` replaces: the selection when no
      `from` is given, otherwise [from, to) with `to` defaulting to `from`. */
  function InsertionRange(sel: Selection, from: Option<nat>, to: Option<nat>): (r: (nat, nat))
    ensures from.None? ==> r == (sel.from, sel.to)
    ensures from.Some? && to.Some? ==> r == (from.value, to.value)
    ensures from.Some? && to.None? ==> r.0 == r.1 == from.value
    ensures sel.from <= sel.to && (from.Some? && to.Some? ==> from.value <= to.value) ==> r.0 <= r.1
  {
    if from.None? then (sel.from, sel.to) else (from.value, to.GetOr(from.value))
  }

  /** The steps a replacement adds: none when nothing is removed or inserted. */
  function ReplacementSteps(from: nat, to: nat, text: string): seq<Step> {
    if from == to && text == [] then [] else [Replace(from, to, text)]
  }

  /** A replacement inside the document puts the text in place of the range. */
  lemma ApplyReplacement(d: Doc, from: nat, to: nat, text: string)
    requires from <= to <= |d|
    ensures ApplySteps(d, ReplacementSteps(from, to, text)) == d[..from] + text + d[to..]
  {
    if from == to && text == [] {
      assert d[..from] + text + d[to..] == d;
    } else {
      assert ApplySteps(d, [Replace(from, to, text)]) == ApplySteps(ApplyStep(d, Replace(from, to, text)), []);
    }
  }

  class Transaction {
    /** The document the transaction started from (`tr.before`). */
    const before: Doc
    var steps: seq<Step>
    var selection: Selection
    /** `tr.getMeta(pluginKey)` of the commands extension; None when unset. */
    var meta: Option<PartialMeta>

    /** `tr.doc`: the starting document with every step applied. */
    function CurrentDoc(): Doc
      reads this
    {
      ApplySteps(before, steps)
    }

    /** `state.tr`: a fresh transaction on a state's document and selection. */
    constructor FromState(doc: Doc, sel: Selection)
      ensures before == doc && steps == [] && selection == sel && meta == None
      ensures CurrentDoc() == doc
    {
      before := doc;
      steps := [];
      selection := sel;
      meta := None;
    }

    /** `tr.step(step)`: record a step; the selection is mapped through it. */
    method AddStep(s: Step)
      modifies this
      ensures steps == old(steps) + [s]
      ensures CurrentDoc() == ApplyStep(old(CurrentDoc()), s)
      ensures selection == MapSelection(old(selection), s)
      ensures meta == old(meta)
    {
      ApplyStepsSnoc(before, steps, s);
      steps := steps + [s];
      selection := MapSelection(selection, s);
    }

    /** `tr.replace`: a replace step, omitted when it would change nothing. */
    method ReplaceRange(from: nat, to: nat, text: string)
      modifies this
      ensures steps == old(steps) + ReplacementSteps(from, to, text)
      ensures ReplacementSteps(from, to, text) != [] ==>
        CurrentDoc() == ApplyStep(old(CurrentDoc()), Replace(from, to, text)) &&
        selection == MapSelection(old(selection), Replace(from, to, text))
      ensures selection == MapSelectionThrough(old(selection), ReplacementSteps(from, to, text))
      ensures meta == old(meta)
    {
      if !(from == to && text == []) {
        AddStep(Replace(from, to, text));
        assert [Replace(from, to, text)][..0] == [];
      }
    }

    /** `tr.insertText(text, from, to)`. With no `from` the selection is
        replaced and the cursor lands after the text; with a `from` and
        some text, a non-empty selection collapses onto its upper end. */
    method InsertText(text: string, from: Option<nat>, to: Option<nat>)
      modifies this
      ensures var (f, t) := InsertionRange(old(selection), from, to);
        steps == old(steps) + ReplacementSteps(f, t, text)
      ensures meta == old(meta)
      ensures var (f, t) := InsertionRange(old(selection), from, to);
        var mapped := MapSelectionThrough(old(selection), ReplacementSteps(f, t, text));
        selection == if from.None? || (text != [] && !mapped.Empty()) then Selection(mapped.to, mapped.to) else mapped
    {
      var (f, t) := InsertionRange(selection, from, to);
      ReplaceRange(f, t, text);
      if from.None? || (text != [] && !selection.Empty()) {
        selection := Selection(selection.to, selection.to);
      }
    }

    /** `tr.delete(from, to)`. */
    method Delete(from: nat, to: nat)
      modifies this
      ensures steps == old(steps) + ReplacementSteps(from, to, [])
      ensures selection == MapSelectionThrough(old(selection), ReplacementSteps(from, to, []))
      ensures meta == old(meta)
    {
      ReplaceRange(from, to, []);
    }

    /** `tr.setSelection(selection)`. */
    method SetSelection(sel: Selection)
      modifies this
      ensures selection == sel && steps == old(steps) && meta == old(meta)
    {
      selection := sel;
    }

    /** `tr.setNodeMarkup(pos, undefined, attrs)`. */
    method SetNodeMarkup(pos: nat, attrs: map<string, string>)
      modifies this
      ensures steps == old(steps) + [SetAttrs(pos, attrs)]
      ensures selection == MapSelection(old(selection), SetAttrs(pos, attrs))
      ensures meta == old(meta)
    {
      AddStep(SetAttrs(pos, attrs));
    }

    /** `tr.setMeta(pluginKey, value)`. */
    method SetMeta(value: PartialMeta)
      modifies this
      ensures meta == Some(value) && steps == old(steps) && selection == old(selection)
    {
      meta := Some(value);
    }
  }

  /** `forceUpdate(tr, ...keys)`: merge the keys into the transaction's forced
      updates, keeping each once; returns the same transaction. */
  method ForceUpdate(tr: Transaction, keys: seq<UpdatableViewProp>) returns (r: Transaction)
    modifies tr
    ensures r == tr
    ensures tr.meta == Some(CommandMeta.ForceUpdate(old(tr.meta), keys))
    ensures tr.steps == old(tr.steps) && tr.selection == old(tr.selection)
  {
    var forced := GetMeta(tr.meta).forcedUpdates;
    tr.SetMeta(SetMeta(tr.meta, PartialMeta(Some(UniqueArray(forced + keys)), None, None, None)));
    r := tr;
  }

  /** `getForcedUpdates(tr)`. */
  function GetForcedUpdates(tr: Transaction): (r: seq<UpdatableViewProp>)
    reads tr
    ensures tr.meta.None? ==> r == []
    ensures tr.meta.Some? && tr.meta.value.forcedUpdates.Some? ==> r == tr.meta.value.forcedUpdates.value
  {
    ForcedUpdates(tr.meta)
  }
}
