/** The slice of the external document library that the commands extension
    uses: a document, a selection, the steps a transaction records, and the
    position mapping those steps induce. The document is flat text; a step
    either replaces a range of it or changes a node's attributes. */
module Document {

  type Doc = string

  /** A selection by its lower and upper bound (`selection.from`, `selection.to`). */
  datatype Selection = Selection(from: nat, to: nat) {
    predicate Empty() { from == to }
  }

  datatype Step =
    /** Replace the range [from, to) by `text` (`ReplaceStep`). */
    | Replace(from: nat, to: nat, text: string)
    /** Set the attributes of the node at `pos` (`setNodeMarkup`); no text changes. */
    | SetAttrs(pos: nat, attrs: map<string, string>)

  predicate Fits(d: Doc, s: Step) {
    match s
    case Replace(from, to, _) => from <= to <= |d|
    case SetAttrs(pos, _) => pos < |d|
  }

  /** The document after one step. */
  function ApplyStep(d: Doc, s: Step): (r: Doc)
    ensures s.Replace? && Fits(d, s) ==>
      |r| == |d| - (s.to - s.from) + |s.text| &&
      r[..s.from] == d[..s.from] &&
      r[s.from..s.from + |s.text|] == s.text &&
      r[s.from + |s.text|..] == d[s.to..]
    ensures !Fits(d, s) || s.SetAttrs? ==> r == d
  {
    if s.Replace? && Fits(d, s) then d[..s.from] + s.text + d[s.to..] else d
  }

  /** The document after a list of steps, applied in order. */
  function ApplySteps(d: Doc, steps: seq<Step>): Doc
    decreases |steps|
  {
    if steps == [] then d else ApplySteps(ApplyStep(d, steps[0]), steps[1..])
  }

  /** Applying a concatenation is applying its parts one after the other. */
  lemma {:induction false} ApplyStepsAppend(d: Doc, a: seq<Step>, b: seq<Step>)
    ensures ApplySteps(d, a + b) == ApplySteps(ApplySteps(d, a), b)
    decreases |a|
  {
    if a != [] {
      assert (a + b)[0] == a[0] && (a + b)[1..] == a[1..] + b;
      ApplyStepsAppend(ApplyStep(d, a[0]), a[1..], b);
    } else {
      assert a + b == b;
    }
  }

  /** One more step on the end changes the document by exactly that step. */
  lemma ApplyStepsSnoc(d: Doc, a: seq<Step>, s: Step)
    ensures ApplySteps(d, a + [s]) == ApplyStep(ApplySteps(d, a), s)
  {
    ApplyStepsAppend(d, a, [s]);
    assert ApplySteps(ApplyStep(ApplySteps(d, a), s), []) == ApplyStep(ApplySteps(d, a), s);
  }

  /** Where a position ends up (`pos`) and whether the content around it was
      deleted, as the library's `mapResult` reports it. */
  datatype MapResult = MapResult(pos: nat, deleted: bool)

  /** The step map of one step (`StepMap.mapResult` over a single range).
      `assoc` says to which side a position at an insertion point sticks. */
  function MapStep(s: Step, pos: nat, assoc: int): (r: MapResult)
    ensures s.Replace? && s.from <= s.to && pos < s.from ==> r == MapResult(pos, false)
    ensures s.Replace? && s.from <= s.to && pos > s.to ==> r == MapResult(pos - (s.to - s.from) + |s.text|, false)
    ensures s.Replace? && s.from <= s.to && s.from <= pos <= s.to ==>
      r.pos == s.from || r.pos == s.from + |s.text|
    ensures s.SetAttrs? ==> r == MapResult(pos, false)
  {
    match s
    case SetAttrs(_, _) => MapResult(pos, false)
    case Replace(from, to, text) =>
      if pos < from || to < from then MapResult(pos, false)
      else if pos > to then MapResult(pos - (to - from) + |text|, false)
      else
        var side := if from == to then assoc else if pos == from then -1 else if pos == to then 1 else assoc;
        MapResult(if side < 0 then from else from + |text|,
                  if assoc < 0 then pos != from else pos != to)
  }

  /** The mapping of a whole transaction: every step's map in turn; the
      position counts as deleted when any step deleted it. */
  function MapSteps(steps: seq<Step>, pos: nat, assoc: int): MapResult
    decreases |steps|
  {
    if steps == [] then MapResult(pos, false)
    else
      var first := MapStep(steps[0], pos, assoc);
      var rest := MapSteps(steps[1..], first.pos, assoc);
      MapResult(rest.pos, first.deleted || rest.deleted)
  }

  lemma MapStepsSingle(s: Step, pos: nat, assoc: int)
    ensures MapSteps([s], pos, assoc) == MapStep(s, pos, assoc)
  {
    assert [s][1..] == [];
  }

  /** Mapping with a fixed association never reorders positions. */
  lemma MapStepMonotone(s: Step, p: nat, q: nat, assoc: int)
    requires p <= q
    ensures MapStep(s, p, assoc).pos <= MapStep(s, q, assoc).pos
  {
  }

  lemma {:induction false} MapStepsMonotone(steps: seq<Step>, p: nat, q: nat, assoc: int)
    requires p <= q
    ensures MapSteps(steps, p, assoc).pos <= MapSteps(steps, q, assoc).pos
    decreases |steps|
  {
    if steps != [] {
      MapStepMonotone(steps[0], p, q, assoc);
      MapStepsMonotone(steps[1..], MapStep(steps[0], p, assoc).pos, MapStep(steps[0], q, assoc).pos, assoc);
    }
  }

  /** Text inserted at `at` shifts every later position by its length and
      leaves earlier ones alone, deleting neither. */
  lemma InsertionShifts(at: nat, text: string, pos: nat, assoc: int)
    ensures pos < at ==> MapStep(Replace(at, at, text), pos, assoc) == MapResult(pos, false)
    ensures pos > at ==> MapStep(Replace(at, at, text), pos, assoc) == MapResult(pos + |text|, false)
    ensures pos == at ==>
      MapStep(Replace(at, at, text), pos, assoc) == MapResult(if assoc < 0 then at else at + |text|, false)
  {
  }

  /** The selection after a step: both bounds mapped to the right (`Selection.map`). */
  function MapSelection(sel: Selection, s: Step): (r: Selection)
    ensures sel.from <= sel.to ==> r.from <= r.to
  {
    if sel.from <= sel.to then
      MapStepMonotone(s, sel.from, sel.to, 1);
      Selection(MapStep(s, sel.from, 1).pos, MapStep(s, sel.to, 1).pos)
    else
      Selection(MapStep(s, sel.from, 1).pos, MapStep(s, sel.to, 1).pos)
  }

  /** A selection mapped through a list of steps, one after the other. */
  function MapSelectionThrough(sel: Selection, steps: seq<Step>): (r: Selection)
    ensures sel.from <= sel.to ==> r.from <= r.to
    decreases |steps|
  {
    if steps == [] then sel
    else MapSelection(MapSelectionThrough(sel, steps[..|steps| - 1]), steps[|steps| - 1])
  }
}
