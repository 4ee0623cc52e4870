// A model of the early StateTransition driver: `initiate` runs slot processing,
// then block processing when there is a block, then epoch processing when the
// state's slot is a multiple of EPOCH_LENGTH, and swallows any exception.
//
// The contents of a beacon state other than its slot are represented by the
// sequence of utility updates applied to it. Whether a utility throws is
// decided by an oracle, `utilityThrows`, over the update and the state it is
// given; a utility that throws leaves its state as it was. The recent-block-hash
// update carries whether a block was passed to it, so the oracle can let that
// call's outcome depend on the block being absent.

module StateTransitions {

  /** Slots per epoch. */
  const EPOCH_LENGTH: nat := 64

  /** The utility updates the driver applies to a state. */
  datatype Update =
    | UpdateLatestRandaoMixes
    | UpdateRecentBlockHashes(hasBlock: bool)
    | UpdateJustification
    | UpdateFinalization
    | UpdateCrosslinks
    | FinalBookKeeping

  /** The part of a beacon state the model sees: its slot and the updates applied to it. */
  datatype StateView = StateView(slot: nat, updates: seq<Update>)

  /** The phases of `initiate`, in the order they must run. */
  datatype Phase = SlotProcessing | BlockProcessing | EpochProcessing
  {
    function Rank(): nat
    {
      match this
      case SlotProcessing => 0
      case BlockProcessing => 1
      case EpochProcessing => 2
    }
  }

  /** The updates slot processing applies to its copy of the state, in order, given whether there is a block. */
  function SlotUpdates(hasBlock: bool): seq<Update>
  {
    [UpdateLatestRandaoMixes, UpdateLatestRandaoMixes, UpdateRecentBlockHashes(hasBlock)]
  }

  /** The updates epoch processing applies to the state, in order. */
  const EpochUpdates: seq<Update> := [UpdateJustification, UpdateFinalization, UpdateCrosslinks, FinalBookKeeping]

  datatype StepsResult = StepsResult(view: StateView, completed: bool)

  /**
   * Applies `steps` in order until one throws: the state reached and whether
   * every step completed.
   */
  function RunSteps(view: StateView, steps: seq<Update>, throws: (Update, StateView) -> bool): (r: StepsResult)
    ensures r.view.slot == view.slot
    ensures |view.updates| <= |r.view.updates| <= |view.updates| + |steps|
    ensures r.completed ==> r.view.updates == view.updates + steps
    decreases |steps|
  {
    if steps == [] then StepsResult(view, true)
    else if throws(steps[0], view) then StepsResult(view, false)
    else
      var r := RunSteps(StateView(view.slot, view.updates + [steps[0]]), steps[1..], throws);
      assert view.updates + [steps[0]] + steps[1..] == view.updates + steps;
      r
  }

  /**
   * A run of steps keeps the slot, applies a prefix of the steps in their order,
   * completes exactly when it applies all of them, and otherwise stops at a step
   * that throws on the state reached.
   */
  lemma {:induction false} RunStepsAppliesPrefix(view: StateView, steps: seq<Update>, throws: (Update, StateView) -> bool)
    ensures var r := RunSteps(view, steps, throws);
      && r.view.slot == view.slot
      && |view.updates| <= |r.view.updates| <= |view.updates| + |steps|
      && r.view.updates == view.updates + steps[..|r.view.updates| - |view.updates|]
      && (r.completed <==> |r.view.updates| == |view.updates| + |steps|)
      && (!r.completed ==> throws(steps[|r.view.updates| - |view.updates|], r.view))
    decreases |steps|
  {
    if steps != [] && !throws(steps[0], view) {
      var next := StateView(view.slot, view.updates + [steps[0]]);
      RunStepsAppliesPrefix(next, steps[1..], throws);
      var r := RunSteps(next, steps[1..], throws);
      var k := |r.view.updates| - |next.updates|;
      assert steps[..k + 1] == [steps[0]] + steps[1..][..k];
    }
  }

  /** When no step throws, every step is applied, in order. */
  lemma {:induction false} RunStepsWithoutFailure(view: StateView, steps: seq<Update>, throws: (Update, StateView) -> bool)
    requires forall u, v :: !throws(u, v)
    ensures RunSteps(view, steps, throws) == StepsResult(StateView(view.slot, view.updates + steps), true)
    decreases |steps|
  {
    if steps != [] {
      RunStepsWithoutFailure(StateView(view.slot, view.updates + [steps[0]]), steps[1..], throws);
      assert view.updates + [steps[0]] + steps[1..] == view.updates + steps;
    }
  }

  /**
   * Epoch processing applies justification, finalization, crosslinks and
   * bookkeeping in that order, and a step that throws stops the ones after it.
   */
  lemma EpochStepsInOrder(view: StateView, throws: (Update, StateView) -> bool)
    ensures var r := RunSteps(view, EpochUpdates, throws);
      && r.view.slot == view.slot
      && (exists k :: 0 <= k <= 4 && r.view.updates == view.updates + EpochUpdates[..k]
                      && (r.completed <==> k == 4))
  {
    RunStepsAppliesPrefix(view, EpochUpdates, throws);
    var r := RunSteps(view, EpochUpdates, throws);
    var k := |r.view.updates| - |view.updates|;
    assert 0 <= k <= 4 && r.view.updates == view.updates + EpochUpdates[..k];
  }

  /**
   * Whether slot processing completes may depend on the block: with a
   * recent-block-hash utility that throws only when no block is given, the
   * same state completes slot processing with a block and not without one.
   */
  lemma SlotOutcomeMayDependOnBlock(view: StateView)
    ensures var throws := (u: Update, v: StateView) => u == UpdateRecentBlockHashes(false);
      && RunSteps(view, SlotUpdates(true), throws).completed
      && !RunSteps(view, SlotUpdates(false), throws).completed
  {
    var throws := (u: Update, v: StateView) => u == UpdateRecentBlockHashes(false);
    RunStepsAppliesPrefix(view, SlotUpdates(false), throws);
  }

  /**
   * The phases `initiate` enters: slot processing always; block processing only
   * after slot processing completed and when there is a block; epoch processing
   * only after slot processing completed and when the slot starts an epoch.
   */
  function Phases(slotCompleted: bool, hasBlock: bool, slot: nat): (t: seq<Phase>)
    ensures |t| >= 1 && t[0] == SlotProcessing
    ensures BlockProcessing in t <==> slotCompleted && hasBlock
    ensures EpochProcessing in t <==> slotCompleted && slot % EPOCH_LENGTH == 0
    ensures !slotCompleted ==> t == [SlotProcessing]
    ensures forall i, j :: 0 <= i < j < |t| ==> t[i].Rank() < t[j].Rank()
  {
    if !slotCompleted then [SlotProcessing]
    else
      [SlotProcessing]
      + (if hasBlock then [BlockProcessing] else [])
      + (if slot % EPOCH_LENGTH == 0 then [EpochProcessing] else [])
  }

  class BeaconState {
    var slot: nat
    var updates: seq<Update>

    constructor (slot: nat)
      ensures this.slot == slot && updates == []
    {
      this.slot := slot;
      updates := [];
    }

    function View(): StateView
      reads this
    {
      StateView(slot, updates)
    }

    /** A new state object with the same contents. */
    method DeepCopy() returns (copy: BeaconState)
      ensures fresh(copy) && copy.View() == View()
    {
      copy := new BeaconState(slot);
      copy.updates := updates;
    }

    method IncrementSlot()
      modifies this
      ensures slot == old(slot) + 1 && updates == old(updates)
    {
      slot := slot + 1;
    }
  }

  class BeaconBlock {
    var slot: nat

    constructor (slot: nat)
      ensures this.slot == slot
    {
      this.slot := slot;
    }

    method SetSlot(slot: nat)
      modifies this
      ensures this.slot == slot
    {
      this.slot := slot;
    }
  }

  class StateTransition {
    /** Whether a utility throws when given a state with this view. */
    const utilityThrows: (Update, StateView) -> bool

    constructor (utilityThrows: (Update, StateView) -> bool)
      ensures this.utilityThrows == utilityThrows
    {
      this.utilityThrows := utilityThrows;
    }

    /** One utility call: applies `u` to `state`, or throws and leaves it as it was. */
    method ApplyUtility(state: BeaconState, u: Update) returns (completed: bool)
      modifies state
      ensures completed == !utilityThrows(u, old(state.View()))
      ensures state.View()
           == if completed then StateView(old(state.slot), old(state.updates) + [u]) else old(state.View())
    {
      completed := !utilityThrows(u, state.View());
      if completed {
        state.updates := state.updates + [u];
      }
    }

    /**
     * Runs the three phases and swallows any failure. Slot processing works on
     * a copy, so the caller's state keeps its slot; the block, when there is
     * one, gets the state's slot; epoch processing runs on the caller's state.
     */
    method Initiate(state: BeaconState, block: BeaconBlock?) returns (trace: seq<Phase>)
      modifies state, block
      ensures var slotRun := RunSteps(StateView(old(state.slot) + 1, old(state.updates)), SlotUpdates(block != null), utilityThrows);
        var epochDue := slotRun.completed && old(state.slot) % EPOCH_LENGTH == 0;
        && trace == Phases(slotRun.completed, block != null, old(state.slot))
        && state.slot == old(state.slot)
        && state.updates
           == (if epochDue then RunSteps(old(state.View()), EpochUpdates, utilityThrows).view.updates
               else old(state.updates))
        && (block != null ==> block.slot == if slotRun.completed then old(state.slot) else old(block.slot))
    {
      trace := [SlotProcessing];
      var slotCompleted, copy := SlotProcessor(state, block);
      if !slotCompleted {
        return;
      }
      if block != null {
        trace := trace + [BlockProcessing];
        BlockProcessor(state, block);
      }
      if state.slot % EPOCH_LENGTH == 0 {
        trace := trace + [EpochProcessing];
        var epochCompleted := EpochProcessor(state);
      }
    }

    /**
     * Slot processing: a deep copy of the state has its slot incremented, then
     * two randao-mix updates and a recent-block-hash update given the block, stopping at the
     * first that throws. The caller's state and block are not changed; the copy
     * is returned only so that its contents can be stated.
     */
    method SlotProcessor(state: BeaconState, block: BeaconBlock?) returns (completed: bool, copy: BeaconState)
      ensures fresh(copy)
      ensures var r := RunSteps(StateView(state.slot + 1, state.updates), SlotUpdates(block != null), utilityThrows);
        copy.View() == r.view && completed == r.completed
    {
      copy := state.DeepCopy();
      copy.IncrementSlot();
      var hasBlock := block != null;
      ghost var steps := SlotUpdates(hasBlock);
      ghost var v0 := StateView(state.slot + 1, state.updates);
      assert copy.View() == v0;
      assert steps[0] == UpdateLatestRandaoMixes;
      assert steps[1..] == [UpdateLatestRandaoMixes, UpdateRecentBlockHashes(hasBlock)];
      assert steps[1..][1..] == [UpdateRecentBlockHashes(hasBlock)];
      assert steps[1..][1..][1..] == [];
      completed := ApplyUtility(copy, UpdateLatestRandaoMixes);
      if !completed {
        assert RunSteps(v0, steps, utilityThrows) == StepsResult(v0, false);
        return;
      }
      ghost var v1 := copy.View();
      assert RunSteps(v0, steps, utilityThrows) == RunSteps(v1, steps[1..], utilityThrows);
      completed := ApplyUtility(copy, UpdateLatestRandaoMixes);
      if !completed {
        assert RunSteps(v1, steps[1..], utilityThrows) == StepsResult(v1, false);
        return;
      }
      ghost var v2 := copy.View();
      assert RunSteps(v1, steps[1..], utilityThrows) == RunSteps(v2, steps[1..][1..], utilityThrows);
      completed := ApplyUtility(copy, UpdateRecentBlockHashes(hasBlock));
      if completed {
        assert RunSteps(v2, steps[1..][1..], utilityThrows) == RunSteps(copy.View(), [], utilityThrows);
      } else {
        assert RunSteps(v2, steps[1..][1..], utilityThrows) == StepsResult(v2, false);
      }
    }

    /** Block processing: the block takes the state's slot; nothing else changes and nothing throws. */
    method BlockProcessor(state: BeaconState, block: BeaconBlock)
      modifies block
      ensures block.slot == state.slot
    {
      block.SetSlot(state.slot);
    }

    /** Epoch processing: justification, finalization, crosslinks, then bookkeeping, stopping at the first that throws. */
    method EpochProcessor(state: BeaconState) returns (completed: bool)
      modifies state
      ensures var r := RunSteps(old(state.View()), EpochUpdates, utilityThrows);
        state.View() == r.view && completed == r.completed
    {
      assert EpochUpdates[1..] == [UpdateFinalization, UpdateCrosslinks, FinalBookKeeping];
      assert EpochUpdates[1..][1..] == [UpdateCrosslinks, FinalBookKeeping];
      assert EpochUpdates[1..][1..][1..] == [FinalBookKeeping];
      completed := ApplyUtility(state, UpdateJustification);
      if !completed {
        return;
      }
      completed := ApplyUtility(state, UpdateFinalization);
      if !completed {
        return;
      }
      completed := ApplyUtility(state, UpdateCrosslinks);
      if !completed {
        return;
      }
      completed := ApplyUtility(state, FinalBookKeeping);
    }
  }

  /**
   * With utilities that never throw, `initiate` on a state at slot 64 runs all
   * three phases and applies all epoch updates, yet leaves the state at slot 64,
   * so a second call runs epoch processing again.
   */
  method EpochBoundaryTwice()
  {
    var transition := new StateTransition((u: Update, v: StateView) => false);
    var state := new BeaconState(64);
    var block := new BeaconBlock(0);
    RunStepsWithoutFailure(StateView(65, []), SlotUpdates(true), transition.utilityThrows);
    RunStepsWithoutFailure(StateView(64, []), EpochUpdates, transition.utilityThrows);
    var trace := transition.Initiate(state, block);
    assert trace == [SlotProcessing, BlockProcessing, EpochProcessing];
    assert state.slot == 64 && block.slot == 64 && state.updates == EpochUpdates;
    RunStepsWithoutFailure(StateView(65, EpochUpdates), SlotUpdates(false), transition.utilityThrows);
    RunStepsWithoutFailure(StateView(64, EpochUpdates), EpochUpdates, transition.utilityThrows);
    trace := transition.Initiate(state, null);
    assert trace == [SlotProcessing, EpochProcessing];
    assert state.slot == 64 && state.updates == EpochUpdates + EpochUpdates;
  }
}
