/** The running position of the manifest handler: which module builder and
    which item inside it the next title is written to
    (src/summarize/manifest/index_tracker.rs). */
module IndexTracker {
  import opened Utils

  /** A snapshot of the tracker's two counters. */
  datatype Position = Position(moduleIndex: nat, moduleItemIndex: nat)

  const START: Position := Position(0, 0)

  /** The effect of one `step(depth)` on the counters. */
  function Advance(p: Position, depth: nat): Position {
    if depth == MODULE_DEPTH then Position(p.moduleIndex + 1, 0)
    else if depth == MODULE_ITEM_DEPTH then p.(moduleItemIndex := p.moduleItemIndex + 1)
    else p
  }

  class ModuleIndexTracker {
    var moduleIndex: nat
    var moduleItemIndex: nat

    function Snapshot(): Position
      reads this
    {
      Position(moduleIndex, moduleItemIndex)
    }

    constructor ()
      ensures Snapshot() == START
    {
      moduleIndex := 0;
      moduleItemIndex := 0;
    }

    method Step(depth: nat)
      modifies this
      ensures depth == MODULE_DEPTH ==>
                moduleIndex == old(moduleIndex) + 1 && moduleItemIndex == 0
      ensures depth == MODULE_ITEM_DEPTH ==>
                moduleIndex == old(moduleIndex) && moduleItemIndex == old(moduleItemIndex) + 1
      ensures depth != MODULE_DEPTH && depth != MODULE_ITEM_DEPTH ==>
                moduleIndex == old(moduleIndex) && moduleItemIndex == old(moduleItemIndex)
      ensures Snapshot() == Advance(old(Snapshot()), depth)
    {
      if depth == MODULE_DEPTH {
        moduleIndex := moduleIndex + 1;
        moduleItemIndex := 0;
      } else if depth == MODULE_ITEM_DEPTH {
        moduleItemIndex := moduleItemIndex + 1;
      }
    }
  }

  /** The counters after a sequence of steps, taken in order. */
  function Run(p: Position, depths: seq<nat>): Position
    decreases |depths|
  {
    if depths == [] then p else Run(Advance(p, depths[0]), depths[1..])
  }

  /** Number of entries of `depths` equal to `d`. */
  function Count(depths: seq<nat>, d: nat): nat {
    if depths == [] then 0
    else (if depths[0] == d then 1 else 0) + Count(depths[1..], d)
  }

  /** The steps taken after the last module-depth step (all of them if none). */
  function SinceLastModule(depths: seq<nat>): seq<nat>
    decreases |depths|
  {
    if depths == [] then []
    else if depths[|depths| - 1] == MODULE_DEPTH then []
    else SinceLastModule(depths[..|depths| - 1]) + [depths[|depths| - 1]]
  }

  lemma {:induction false} CountAppend(a: seq<nat>, b: seq<nat>, d: nat)
    ensures Count(a + b, d) == Count(a, d) + Count(b, d)
  {
    if a != [] {
      assert (a + b)[1..] == a[1..] + b;
      CountAppend(a[1..], b, d);
    } else {
      assert a + b == b;
    }
  }

  /** Running one more step after a sequence is the same as running the longer sequence. */
  lemma {:induction false} RunSnoc(p: Position, depths: seq<nat>, d: nat)
    ensures Run(p, depths + [d]) == Advance(Run(p, depths), d)
    decreases |depths|
  {
    if depths != [] {
      assert (depths + [d])[1..] == depths[1..] + [d];
      RunSnoc(Advance(p, depths[0]), depths[1..], d);
    }
  }

  /** From a fresh tracker, `module_index` counts the module-depth steps and
      `module_item_index` counts the item-depth steps since the last of them. */
  lemma {:induction false} RunCounts(depths: seq<nat>)
    ensures Run(START, depths).moduleIndex == Count(depths, MODULE_DEPTH)
    ensures Run(START, depths).moduleItemIndex == Count(SinceLastModule(depths), MODULE_ITEM_DEPTH)
    decreases |depths|
  {
    if depths != [] {
      var init, d := depths[..|depths| - 1], depths[|depths| - 1];
      assert depths == init + [d];
      RunCounts(init);
      RunSnoc(START, init, d);
      CountAppend(init, [d], MODULE_DEPTH);
      if d != MODULE_DEPTH {
        CountAppend(SinceLastModule(init), [d], MODULE_ITEM_DEPTH);
      }
    }
  }

  /** `module_index` never decreases, whatever the steps. */
  lemma {:induction false} RunMonotone(p: Position, depths: seq<nat>)
    ensures Run(p, depths).moduleIndex >= p.moduleIndex
    decreases |depths|
  {
    if depths != [] {
      RunMonotone(Advance(p, depths[0]), depths[1..]);
    }
  }
}
