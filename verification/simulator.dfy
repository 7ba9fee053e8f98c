/**
 * `SimulatorFrame`'s engine state as an object: its fields are updated in
 * place by the start, step and reset operations, and each operation is
 * proved against the `Engine` functions on a snapshot of those fields.
 */
module Simulator {
  import opened Paging
  import opened Engine

  /**
   * The loop OPT runs on a full table: for each slot, the position of its
   * page in `refs[from..]`, or `Never` when the search raises `ValueError`.
   */
  method FutureDistances(frames: seq<Option<Page>>, refs: seq<Page>, from: nat)
    returns (future: seq<Distance>)
    requires from <= |refs|
    ensures |future| == |frames|
    ensures forall i :: 0 <= i < |frames| ==> future[i] == NextUse(refs, from, frames[i])
  {
    future := [];
    var i := 0;
    while i < |frames|
      invariant 0 <= i <= |frames|
      invariant |future| == i
      invariant forall k :: 0 <= k < i ==> future[k] == NextUse(refs, from, frames[k])
    {
      future := future + [NextUse(refs, from, frames[i])];
      i := i + 1;
    }
  }

  /** OPT's choice on a full table: `future.index(max(future))` over the loop's distances. */
  method ChooseOptVictim(frames: seq<Option<Page>>, refs: seq<Page>, from: nat) returns (idx: nat)
    requires |frames| > 0 && from <= |refs|
    ensures idx == OptVictim(frames, refs, from)
  {
    var future := FutureDistances(frames, refs, from);
    assert future == Future(frames, refs, from);
    OptVictimIsIndexOfMax(frames, refs, from);
    idx := IndexOf(future, MaxOf(future)).value;
  }

  class SimulatorFrame {
    var maxFrames: int
    var frames: seq<Option<Page>>
    var fifoQueue: seq<nat>
    var lruOrder: seq<nat>
    var referenceString: seq<Page>
    var current: nat
    var algorithm: Option<Algorithm>

    /** The engine state held in the fields. */
    function Snapshot(): Sim
      reads this
    {
      Sim(maxFrames, frames, fifoQueue, lruOrder, referenceString, current, algorithm)
    }

    ghost predicate Valid()
      reads this
    {
      Consistent(Snapshot())
    }

    /** Construction ends with `reset_state`. */
    constructor ()
      ensures Snapshot() == Idle() && Valid()
    {
      maxFrames := 3;
      frames := [];
      fifoQueue := [];
      lruOrder := [];
      referenceString := [];
      current := 0;
      algorithm := None;
    }

    /** `reset_state`: back to the idle state. */
    method ResetState()
      modifies this
      ensures Snapshot() == Idle() && Valid()
    {
      maxFrames := 3;
      frames := [];
      fifoQueue := [];
      lruOrder := [];
      referenceString := [];
      current := 0;
      algorithm := None;
    }

    /**
     * Choosing a policy and starting a run (`start_fifo`, `start_lru` or
     * `start_opt` followed by `start_sim`). The policy is recorded before the
     * inputs are checked. On accepted inputs the reference string is a draw of
     * `length` pages in 0..9 and the table, queues and position start afresh;
     * on rejected inputs nothing else changes.
     */
    method Start(alg: Algorithm, frameCount: int, length: int) returns (started: bool)
      modifies this
      ensures started <==> ValidInputs(frameCount, length)
      ensures started ==>
        && IsDraw(referenceString, length)
        && Snapshot() == Started(alg, frameCount, referenceString)
        && Valid()
      ensures !started ==> Snapshot() == old(Snapshot()).(algorithm := Some(alg))
      ensures !started && old(Valid()) && old(Finished(Snapshot())) ==> Valid()
    {
      algorithm := Some(alg);
      if !ValidInputs(frameCount, length) {
        return false;
      }
      Launch(frameCount, length);
      started := true;
    }

    /**
     * The start with the inputs checked before the policy is recorded: a
     * rejected start leaves the object, and so any run in progress, as it was.
     */
    method StartChecked(alg: Algorithm, frameCount: int, length: int) returns (started: bool)
      modifies this
      ensures started <==> ValidInputs(frameCount, length)
      ensures started ==>
        && IsDraw(referenceString, length)
        && Snapshot() == Started(alg, frameCount, referenceString)
        && Valid()
      ensures !started ==> Snapshot() == old(Snapshot())
      ensures old(Valid()) ==> Valid()
    {
      if !ValidInputs(frameCount, length) {
        return false;
      }
      algorithm := Some(alg);
      Launch(frameCount, length);
      started := true;
    }

    /**
     * `start_sim` past its input check: `max_frames` is set, the reference
     * string is a draw of `length` pages in 0..9, and the table, queues and
     * position start afresh under the recorded policy.
     */
    method Launch(frameCount: int, length: int)
      requires ValidInputs(frameCount, length) && algorithm.Some?
      modifies this
      ensures IsDraw(referenceString, length)
      ensures Snapshot() == Started(old(algorithm).value, frameCount, referenceString)
      ensures Valid()
    {
      maxFrames := frameCount;
      assert IsDraw(seq(length, _ => 0), length);
      var draw: seq<Page> :| IsDraw(draw, length);
      referenceString := draw;
      frames := seq(maxFrames, _ => None);
      fifoQueue := [];
      lruOrder := [];
      current := 0;
      StartedIsRunning(algorithm.value, frameCount, draw);
    }

    /**
     * `next_step`: consume the reference at `current` (a hit, a fault into
     * the lowest empty slot, or an eviction chosen by the policy) and advance
     * `current` by one; report completion once the string is exhausted.
     */
    method NextStep() returns (result: StepResult)
      requires Valid()
      modifies this
      ensures (Snapshot(), result) == Step(old(Snapshot()))
      ensures Valid()
    {
      StepKeepsConsistent(Snapshot());
      if current >= |referenceString| {
        return Completed;
      }
      var page := referenceString[current];
      if Some(page) in frames {
        result := TakeHit();
      } else if None in frames {
        result := FillFreeSlot();
      } else {
        result := Evict();
      }
    }

    /** The hit branch: the table stays; under LRU the slot moves to the back of `lru_order`. */
    method TakeHit() returns (result: StepResult)
      requires Running(Snapshot()) && !Finished(Snapshot()) && Some(Pending(Snapshot())) in frames
      modifies this
      ensures (Snapshot(), result) == HitStep(old(Snapshot()))
    {
      ghost var s := Snapshot();
      var idx := IndexOf(frames, Some(referenceString[current])).value;
      if algorithm == Some(Lru) {
        lruOrder := RemoveFirst(lruOrder, idx);
        lruOrder := lruOrder + [idx];
      }
      current := current + 1;
      result := Hit(idx);
      assert HitStep(s).0 == s.(lruOrder := lruOrder, current := current);
    }

    /** The fault branch with room left: the lowest empty slot takes the page and joins the queue. */
    method FillFreeSlot() returns (result: StepResult)
      requires Running(Snapshot()) && !Finished(Snapshot()) && None in frames
      modifies this
      ensures (Snapshot(), result) == FillStep(old(Snapshot()))
    {
      ghost var s := Snapshot();
      var idx := IndexOf(frames, None).value;
      frames := frames[idx := Some(referenceString[current])];
      if algorithm == Some(Fifo) {
        fifoQueue := fifoQueue + [idx];
      }
      if algorithm == Some(Lru) {
        lruOrder := lruOrder + [idx];
      }
      // the increment the source performs when the placement animation ends
      current := current + 1;
      result := Fault(idx);
      assert FillStep(s).0 == s.(frames := frames, fifoQueue := fifoQueue, lruOrder := lruOrder, current := current);
    }

    /** The fault branch on a full table: the policy's victim slot takes the page. */
    method Evict() returns (result: StepResult)
      requires Running(Snapshot()) && !Finished(Snapshot()) && None !in frames
      modifies this
      ensures (Snapshot(), result) == EvictStep(old(Snapshot()))
    {
      ghost var s := Snapshot();
      assert frames[0].Some?;
      var page := referenceString[current];
      var idx: nat;
      if algorithm == Some(Fifo) {
        idx := fifoQueue[0];
        fifoQueue := fifoQueue[1..];
        frames := frames[idx := Some(page)];
        fifoQueue := fifoQueue + [idx];
      } else if algorithm == Some(Lru) {
        idx := lruOrder[0];
        lruOrder := lruOrder[1..];
        frames := frames[idx := Some(page)];
        lruOrder := lruOrder + [idx];
      } else {
        idx := ChooseOptVictim(frames, referenceString, current + 1);
        frames := frames[idx := Some(page)];
      }
      current := current + 1;
      result := Fault(idx);
      assert EvictStep(s).0 == s.(frames := frames, fifoQueue := fifoQueue, lruOrder := lruOrder, current := current);
    }

    /** The chain of re-armed `next_step` calls, driven to completion. */
    method RunToCompletion() returns (history: seq<StepResult>)
      requires Valid()
      modifies this
      ensures Valid() && Finished(Snapshot())
      ensures (Snapshot(), history) == Run(old(Snapshot()))
    {
      ghost var s0 := Snapshot();
      history := [];
      while true
        invariant Valid()
        invariant Run(Snapshot()).0 == Run(s0).0
        invariant history + Run(Snapshot()).1 == Run(s0).1
        decreases |referenceString| - current
      {
        ghost var s := Snapshot();
        StepProgress(s);
        var r := NextStep();
        if r == Completed {
          assert Run(Snapshot()) == (Snapshot(), []);
          assert history + [] == history;
          break;
        }
        assert Run(s).1 == [r] + Run(Snapshot()).1;
        history := history + [r];
      }
    }
  }
}
