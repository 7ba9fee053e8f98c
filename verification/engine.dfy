/**
 * The simulation engine as a value: the state `SimulatorFrame` keeps
 * (`max_frames`, `frames`, `fifo_queue`, `lru_order`, `reference_string`,
 * `current`, `algorithm`), one step of `next_step` as a function on it, a
 * whole run, and the invariants the step keeps.
 */
module Engine {
  import opened Paging

  /** What one call of the step reports: the run is over, a hit on a slot, or a fault that filled a slot. */
  datatype StepResult = Completed | Hit(slot: nat) | Fault(slot: nat)

  datatype Sim = Sim(
    maxFrames: int,
    frames: seq<Option<Page>>,
    fifoQueue: seq<nat>,
    lruOrder: seq<nat>,
    referenceString: seq<Page>,
    current: nat,
    algorithm: Option<Algorithm>)

  /** The state `reset_state` leaves: three frames announced, none allocated, nothing to replay. */
  function Idle(): Sim
  {
    Sim(3, [], [], [], [], 0, None)
  }

  /** The state a validated start leaves: an empty table of `n` slots, empty queues, position 0. */
  function Started(alg: Algorithm, n: nat, refs: seq<Page>): Sim
  {
    Sim(n, seq(n, _ => None), [], [], refs, 0, Some(alg))
  }

  predicate Finished(s: Sim)
  {
    s.current >= |s.referenceString|
  }

  /** Occupied slots form a prefix: an occupied slot has only occupied slots before it. */
  predicate OccupiedPrefix(frames: seq<Option<Page>>)
  {
    forall i, j :: 0 <= i < j < |frames| && frames[j].Some? ==> frames[i].Some?
  }

  /** No page is resident in two slots. */
  predicate PagesDistinct(frames: seq<Option<Page>>)
  {
    forall i, j :: 0 <= i < j < |frames| && frames[i].Some? ==> frames[i] != frames[j]
  }

  /** `q` lists every occupied slot index exactly once and nothing else. */
  predicate SlotQueue(q: seq<nat>, frames: seq<Option<Page>>)
  {
    && Distinct(q)
    && (forall k :: 0 <= k < |q| ==> q[k] < |frames| && frames[q[k]].Some?)
    && (forall i :: 0 <= i < |frames| && frames[i].Some? ==> i in q)
  }

  /** The active policy's queue tracks the occupied slots; the other queue stays empty. */
  predicate QueuesFollow(alg: Algorithm, fifo: seq<nat>, lru: seq<nat>, frames: seq<Option<Page>>)
  {
    match alg
    case Fifo => SlotQueue(fifo, frames) && lru == []
    case Lru => SlotQueue(lru, frames) && fifo == []
    case Opt => fifo == [] && lru == []
  }

  /** The shape of the table during a run. */
  predicate Running(s: Sim)
  {
    && s.maxFrames >= 1
    && |s.frames| == s.maxFrames
    && s.algorithm.Some?
    && OccupiedPrefix(s.frames)
    && PagesDistinct(s.frames)
    && QueuesFollow(s.algorithm.value, s.fifoQueue, s.lruOrder, s.frames)
  }

  /**
   * What every reachable state satisfies: the position never passes the end
   * and, while references remain, the table has its run shape.
   */
  predicate Consistent(s: Sim)
  {
    s.current <= |s.referenceString| && (!Finished(s) ==> Running(s))
  }

  /** The page the step will consume. */
  function Pending(s: Sim): Page
    requires !Finished(s)
  {
    s.referenceString[s.current]
  }

  /** Hit on the slot holding the page; LRU moves that slot to the most-recently-used end. */
  function HitStep(s: Sim): (Sim, StepResult)
    requires Running(s) && !Finished(s) && Some(Pending(s)) in s.frames
  {
    var idx := IndexOf(s.frames, Some(Pending(s))).value;
    var lru := if s.algorithm == Some(Lru) then RemoveFirst(s.lruOrder, idx) + [idx] else s.lruOrder;
    (s.(lruOrder := lru, current := s.current + 1), Hit(idx))
  }

  /** Fault with room left: fill the lowest empty slot and queue it. */
  function FillStep(s: Sim): (Sim, StepResult)
    requires Running(s) && !Finished(s) && None in s.frames
  {
    var idx := IndexOf(s.frames, None).value;
    var fifo := if s.algorithm == Some(Fifo) then s.fifoQueue + [idx] else s.fifoQueue;
    var lru := if s.algorithm == Some(Lru) then s.lruOrder + [idx] else s.lruOrder;
    (s.(frames := s.frames[idx := Some(Pending(s))], fifoQueue := fifo, lruOrder := lru,
        current := s.current + 1), Fault(idx))
  }

  /** Fault on a full table: replace the policy's victim. */
  function EvictStep(s: Sim): (Sim, StepResult)
    requires Running(s) && !Finished(s) && None !in s.frames
  {
    assert s.frames[0].Some?;
    var page := Some(Pending(s));
    if s.algorithm == Some(Fifo) then
      var idx := s.fifoQueue[0];
      (s.(frames := s.frames[idx := page], fifoQueue := s.fifoQueue[1..] + [idx],
          current := s.current + 1), Fault(idx))
    else if s.algorithm == Some(Lru) then
      var idx := s.lruOrder[0];
      (s.(frames := s.frames[idx := page], lruOrder := s.lruOrder[1..] + [idx],
          current := s.current + 1), Fault(idx))
    else OptEvictStep(s)
  }

  /** The OPT branch of an eviction: replace the page needed farthest ahead. */
  function OptEvictStep(s: Sim): (Sim, StepResult)
    requires !Finished(s) && |s.frames| > 0
  {
    var idx := OptVictim(s.frames, s.referenceString, s.current + 1);
    (s.(frames := s.frames[idx := Some(Pending(s))], current := s.current + 1), Fault(idx))
  }

  /** One call of `next_step`, with the position advanced by the step itself. */
  function Step(s: Sim): (Sim, StepResult)
    requires Consistent(s)
  {
    if Finished(s) then (s, Completed)
    else if Some(Pending(s)) in s.frames then HitStep(s)
    else if None in s.frames then FillStep(s)
    else EvictStep(s)
  }

  // ---------------------------------------------------------------------------
  // Queue bookkeeping

  lemma RotateKeepsSlotQueue(q: seq<nat>, frames: seq<Option<Page>>, k: nat)
    requires SlotQueue(q, frames) && k in q
    ensures SlotQueue(RemoveFirst(q, k) + [k], frames)
  {
    RemoveFirstOfDistinct(q, k);
    var r := RemoveFirst(q, k);
    var q' := r + [k];
    forall i, j | 0 <= i < j < |q'| ensures q'[i] != q'[j] {
      if j == |r| {
        assert q'[i] == r[i] && r[i] in r;
      } else {
        assert q'[i] == r[i] && q'[j] == r[j];
      }
    }
    forall m | 0 <= m < |q'| ensures q'[m] < |frames| && frames[q'[m]].Some? {
      if m < |r| {
        assert q'[m] == r[m] && r[m] in r;
      }
    }
    assert k in q';
    forall i | 0 <= i < |frames| && frames[i].Some? ensures i in q' {
      if i != k {
        assert i in r;
      }
    }
  }

  lemma PopHeadIsRemoveFirst(q: seq<nat>)
    requires |q| > 0
    ensures RemoveFirst(q, q[0]) == q[1..]
  {
  }

  lemma FillExtendsSlotQueue(q: seq<nat>, frames: seq<Option<Page>>, k: nat, p: Page)
    requires SlotQueue(q, frames) && k < |frames| && frames[k].None?
    ensures SlotQueue(q + [k], frames[k := Some(p)])
  {
    var q' := q + [k];
    var f := frames[k := Some(p)];
    assert k !in q;
    forall i, j | 0 <= i < j < |q'| ensures q'[i] != q'[j] {
      if j == |q| {
        assert q'[i] == q[i];
      } else {
        assert q'[i] == q[i] && q'[j] == q[j];
      }
    }
    forall m | 0 <= m < |q'| ensures q'[m] < |f| && f[q'[m]].Some? {
      if m < |q| {
        assert q'[m] == q[m];
      }
    }
    forall i | 0 <= i < |f| && f[i].Some? ensures i in q' {
      if i != k {
        assert frames[i].Some?;
        assert i in q;
      }
    }
  }

  lemma ReplaceKeepsSlotQueue(q: seq<nat>, frames: seq<Option<Page>>, k: nat, p: Page)
    requires SlotQueue(q, frames) && k < |frames| && frames[k].Some?
    ensures SlotQueue(q, frames[k := Some(p)])
  {
  }

  // ---------------------------------------------------------------------------
  // The step keeps the run's invariants

  lemma HitKeepsRunning(s: Sim)
    requires Running(s) && !Finished(s) && Some(Pending(s)) in s.frames
    ensures Running(HitStep(s).0)
  {
    var idx := IndexOf(s.frames, Some(Pending(s))).value;
    if s.algorithm == Some(Lru) {
      RotateKeepsSlotQueue(s.lruOrder, s.frames, idx);
    }
  }

  lemma FillKeepsRunning(s: Sim)
    requires Running(s) && !Finished(s) && Some(Pending(s)) !in s.frames && None in s.frames
    ensures Running(FillStep(s).0)
  {
    var idx := IndexOf(s.frames, None).value;
    var f := s.frames[idx := Some(Pending(s))];
    forall i, j | 0 <= i < j < |f| && f[j].Some? ensures f[i].Some? {
      if i != idx && j != idx {
        assert s.frames[j].Some?;
      }
    }
    forall i, j | 0 <= i < j < |f| && f[i].Some? ensures f[i] != f[j] {
      if i == idx {
        assert f[j] == s.frames[j];
      } else if j == idx {
        assert f[i] == s.frames[i];
      }
    }
    match s.algorithm.value
    case Fifo => FillExtendsSlotQueue(s.fifoQueue, s.frames, idx, Pending(s));
    case Lru => FillExtendsSlotQueue(s.lruOrder, s.frames, idx, Pending(s));
    case Opt =>
  }

  lemma EvictKeepsRunning(s: Sim)
    requires Running(s) && !Finished(s) && Some(Pending(s)) !in s.frames && None !in s.frames
    ensures Running(EvictStep(s).0)
  {
    assert s.frames[0].Some?;
    var (t, res) := EvictStep(s);
    var idx := res.slot;
    var f := t.frames;
    assert f == s.frames[idx := Some(Pending(s))];
    forall i | 0 <= i < |f| ensures f[i].Some? {
      if i != idx {
        assert s.frames[i] in s.frames;
      }
    }
    forall i, j | 0 <= i < j < |f| && f[i].Some? ensures f[i] != f[j] {
      if i == idx {
        assert f[j] == s.frames[j] && s.frames[j] in s.frames;
      } else if j == idx {
        assert f[i] == s.frames[i] && s.frames[i] in s.frames;
      }
    }
    match s.algorithm.value
    case Fifo =>
      PopHeadIsRemoveFirst(s.fifoQueue);
      RotateKeepsSlotQueue(s.fifoQueue, s.frames, idx);
      ReplaceKeepsSlotQueue(t.fifoQueue, s.frames, idx, Pending(s));
    case Lru =>
      PopHeadIsRemoveFirst(s.lruOrder);
      RotateKeepsSlotQueue(s.lruOrder, s.frames, idx);
      ReplaceKeepsSlotQueue(t.lruOrder, s.frames, idx, Pending(s));
    case Opt =>
  }

  /**
   * Every step of an unfinished run keeps the table shape: exactly
   * `max_frames` slots, occupied slots a prefix, no page twice, and the
   * active queue a duplicate-free list of exactly the occupied slots.
   */
  lemma StepKeepsRunning(s: Sim)
    requires Consistent(s) && !Finished(s)
    ensures Running(Step(s).0)
  {
    if Some(Pending(s)) in s.frames {
      HitKeepsRunning(s);
    } else if None in s.frames {
      FillKeepsRunning(s);
    } else {
      EvictKeepsRunning(s);
    }
  }

  /** The step keeps `Consistent`, so steps can be chained. */
  lemma StepKeepsConsistent(s: Sim)
    requires Consistent(s)
    ensures Consistent(Step(s).0)
  {
    if !Finished(s) {
      StepKeepsRunning(s);
    }
  }

  // ---------------------------------------------------------------------------
  // What one step does

  /**
   * A step reports `Completed` exactly when the position has reached the end,
   * and then changes nothing; otherwise it advances the position by one and
   * leaves the reference string, the frame count and the policy alone.
   */
  lemma StepProgress(s: Sim)
    requires Consistent(s)
    ensures Step(s).1 == Completed <==> Finished(s)
    ensures Finished(s) ==> Step(s).0 == s
    ensures !Finished(s) ==>
      && Step(s).0.current == s.current + 1
      && Step(s).0.referenceString == s.referenceString
      && Step(s).0.maxFrames == s.maxFrames
      && Step(s).0.algorithm == s.algorithm
  {
  }

  /**
   * A hit is reported exactly when the page is resident. It names the slot
   * holding the page, changes no slot and leaves the FIFO queue alone; under
   * LRU the hit slot becomes the last entry and the other entries keep their
   * order, under the other policies the LRU list is untouched.
   */
  lemma StepHit(s: Sim)
    requires Consistent(s) && !Finished(s)
    ensures Step(s).1.Hit? <==> Some(Pending(s)) in s.frames
    ensures Step(s).1.Hit? ==>
      var k := Step(s).1.slot;
      var t := Step(s).0;
      && k < |s.frames| && s.frames[k] == Some(Pending(s))
      && t.frames == s.frames
      && t.fifoQueue == s.fifoQueue
      && (s.algorithm == Some(Lru) ==>
            && |t.lruOrder| == |s.lruOrder|
            && t.lruOrder[|t.lruOrder| - 1] == k
            && t.lruOrder[..|t.lruOrder| - 1] == RemoveFirst(s.lruOrder, k)
            && k !in RemoveFirst(s.lruOrder, k))
      && (s.algorithm != Some(Lru) ==> t.lruOrder == s.lruOrder)
  {
    if Some(Pending(s)) in s.frames && s.algorithm == Some(Lru) {
      var k := IndexOf(s.frames, Some(Pending(s))).value;
      RemoveFirstOfDistinct(s.lruOrder, k);
      var t := Step(s).0;
      assert t.lruOrder == RemoveFirst(s.lruOrder, k) + [k];
      assert t.lruOrder[..|t.lruOrder| - 1] == RemoveFirst(s.lruOrder, k);
    }
  }

  /**
   * A fault is reported exactly when the page is not resident. Exactly one
   * slot changes, the reported one, and it now holds the page.
   */
  lemma StepFault(s: Sim)
    requires Consistent(s) && !Finished(s)
    ensures Step(s).1.Fault? <==> Some(Pending(s)) !in s.frames
    ensures Step(s).1.Fault? ==>
      var k := Step(s).1.slot;
      && k < |s.frames|
      && Step(s).0.frames == s.frames[k := Some(Pending(s))]
  {
    if Some(Pending(s)) !in s.frames && None !in s.frames {
      assert s.frames[0].Some?;
    }
  }

  /** After every step of a run the referenced page is resident in the reported slot. */
  lemma StepMakesResident(s: Sim)
    requires Consistent(s) && !Finished(s)
    ensures Step(s).1.Hit? || Step(s).1.Fault?
    ensures Step(s).1.slot < |Step(s).0.frames|
    ensures Step(s).0.frames[Step(s).1.slot] == Some(Pending(s))
  {
    StepFault(s);
    StepHit(s);
  }

  /**
   * A fault with an empty slot fills the lowest-indexed empty slot and
   * appends it to the active policy's queue.
   */
  lemma StepFillsLowestEmpty(s: Sim)
    requires Consistent(s) && !Finished(s)
    requires Some(Pending(s)) !in s.frames && None in s.frames
    ensures Step(s).1.Fault?
    ensures
      var k := Step(s).1.slot;
      var t := Step(s).0;
      && k < |s.frames| && s.frames[k].None?
      && (forall j :: 0 <= j < k ==> s.frames[j].Some?)
      && t.fifoQueue == (if s.algorithm == Some(Fifo) then s.fifoQueue + [k] else s.fifoQueue)
      && t.lruOrder == (if s.algorithm == Some(Lru) then s.lruOrder + [k] else s.lruOrder)
  {
  }

  /** A fault on a full table evicts a resident page: the reported slot was occupied. */
  lemma StepEvicts(s: Sim)
    requires Consistent(s) && !Finished(s)
    requires Some(Pending(s)) !in s.frames && None !in s.frames
    ensures Step(s).1.Fault?
    ensures Step(s).1.slot < |s.frames| && s.frames[Step(s).1.slot].Some?
  {
    assert s.frames[0].Some?;
    assert s.frames[Step(s).1.slot] in s.frames;
  }

  /** FIFO on a full table: the victim is the head of the insertion queue, rotated to its tail. */
  lemma StepEvictsFifo(s: Sim)
    requires Consistent(s) && !Finished(s) && s.algorithm == Some(Fifo)
    requires Some(Pending(s)) !in s.frames && None !in s.frames
    ensures |s.fifoQueue| > 0 && Step(s).1 == Fault(s.fifoQueue[0])
    ensures Step(s).0.fifoQueue == s.fifoQueue[1..] + [s.fifoQueue[0]]
    ensures Step(s).0.lruOrder == s.lruOrder
  {
    assert s.frames[0].Some?;
  }

  /** LRU on a full table: the victim is the head of the recency list, moved to its tail. */
  lemma StepEvictsLru(s: Sim)
    requires Consistent(s) && !Finished(s) && s.algorithm == Some(Lru)
    requires Some(Pending(s)) !in s.frames && None !in s.frames
    ensures |s.lruOrder| > 0 && Step(s).1 == Fault(s.lruOrder[0])
    ensures Step(s).0.lruOrder == s.lruOrder[1..] + [s.lruOrder[0]]
    ensures Step(s).0.fifoQueue == s.fifoQueue
  {
    assert s.frames[0].Some?;
  }

  /**
   * OPT on a full table: the victim's page is needed no sooner than any
   * other resident page, every slot before it is needed strictly sooner,
   * and no queue changes.
   */
  lemma StepEvictsOpt(s: Sim)
    requires Consistent(s) && !Finished(s) && s.algorithm == Some(Opt)
    requires Some(Pending(s)) !in s.frames && None !in s.frames
    ensures Step(s).1.Fault?
    ensures
      var k := Step(s).1.slot;
      var refs := s.referenceString;
      var from := s.current + 1;
      && k < |s.frames|
      && (forall j {:trigger NextUse(refs, from, s.frames[j])} :: 0 <= j < |s.frames| ==>
            AtMost(NextUse(refs, from, s.frames[j]), NextUse(refs, from, s.frames[k])))
      && (forall j {:trigger NextUse(refs, from, s.frames[j])} :: 0 <= j < k ==>
            Below(NextUse(refs, from, s.frames[j]), NextUse(refs, from, s.frames[k])))
    ensures Step(s).0.fifoQueue == s.fifoQueue && Step(s).0.lruOrder == s.lruOrder
  {
    StepIsOptEvict(s);
    OptEvictTakesVictim(s);
  }

  /** On a full table under OPT the step is the OPT branch of an eviction. */
  lemma StepIsOptEvict(s: Sim)
    requires Consistent(s) && !Finished(s) && s.algorithm == Some(Opt)
    requires Some(Pending(s)) !in s.frames && None !in s.frames
    ensures |s.frames| > 0 && Step(s) == OptEvictStep(s)
  {
    assert Step(s) == EvictStep(s);
  }

  /** The OPT branch replaces `OptVictim`'s slot. */
  lemma OptEvictTakesVictim(s: Sim)
    requires !Finished(s) && |s.frames| > 0
    ensures OptEvictStep(s).1 == Fault(OptVictim(s.frames, s.referenceString, s.current + 1))
  {
    var k := OptVictim(s.frames, s.referenceString, s.current + 1);
    assert OptEvictStep(s) == (s.(frames := s.frames[k := Some(Pending(s))], current := s.current + 1), Fault(k));
  }

  /** Once no slot is empty, none ever is again. */
  lemma FullStaysFull(s: Sim)
    requires Consistent(s) && None !in s.frames
    ensures None !in Step(s).0.frames
  {
    if !Finished(s) {
      StepMakesResident(s);
      var t := Step(s).0;
      if Step(s).1.Fault? {
        StepFault(s);
        var k := Step(s).1.slot;
        forall i | 0 <= i < |t.frames| ensures t.frames[i].Some? {
          if i != k {
            assert s.frames[i] in s.frames;
          }
        }
      }
    }
  }

  // ---------------------------------------------------------------------------
  // Whole runs

  /** Replaying the remaining references: the final state and one result per reference. */
  function Run(s: Sim): (r: (Sim, seq<StepResult>))
    requires Consistent(s)
    ensures Consistent(r.0) && Finished(r.0)
    ensures r.0.referenceString == s.referenceString
    ensures |r.1| == |s.referenceString| - s.current
    ensures forall i :: 0 <= i < |r.1| ==> r.1[i] != Completed
    decreases |s.referenceString| - s.current
  {
    if Finished(s) then (s, [])
    else
      StepKeepsConsistent(s);
      StepProgress(s);
      var (t, res) := Step(s);
      var (u, rest) := Run(t);
      (u, [res] + rest)
  }

  /** Number of faults in a history. */
  function Faults(h: seq<StepResult>): nat
  {
    if h == [] then 0 else (if h[0].Fault? then 1 else 0) + Faults(h[1..])
  }

  /** The fault count of a run of `refs` on `n` frames under `alg`. */
  function FaultCount(alg: Algorithm, n: nat, refs: seq<Page>): nat
    requires n >= 1
  {
    Faults(Run(Started(alg, n, refs)).1)
  }

  /** A freshly started run satisfies the invariant and has the run shape. */
  lemma StartedIsRunning(alg: Algorithm, n: nat, refs: seq<Page>)
    requires n >= 1
    ensures Running(Started(alg, n, refs)) && Consistent(Started(alg, n, refs))
    ensures None in Started(alg, n, refs).frames
  {
    assert Started(alg, n, refs).frames[0] == None;
  }

  /**
   * A start whose inputs are rejected still records the new policy, because
   * `start_fifo`, `start_lru` and `start_opt` set it before `start_sim`
   * checks the inputs. Here that happens after the first step of FIFO on one
   * frame with references [1, 2]: the run goes on under LRU with an empty
   * recency list, and its next step, an eviction, has no victim to pop.
   */
  lemma RejectedStartMidRun()
    ensures
      var s := Step(Started(Fifo, 1, [1, 2])).0;
      var t := s.(algorithm := Some(Lru));
      && Consistent(s) && !Finished(s)
      && t.frames == [Some(1)] && Pending(t) == 2 && t.lruOrder == []
      && !Consistent(t)
  {
    var s := FirstFifoStepOnOneFrame();
    var t := s.(algorithm := Some(Lru));
    assert 0 !in t.lruOrder;
  }

  /** The first step of FIFO on one frame with references [1, 2] fills slot 0. */
  lemma FirstFifoStepOnOneFrame() returns (s: Sim)
    ensures Consistent(Started(Fifo, 1, [1, 2]))
    ensures s == Step(Started(Fifo, 1, [1, 2])).0 && Consistent(s)
    ensures s == Sim(1, [Some(1)], [0], [], [1, 2], 1, Some(Fifo))
  {
    var s0 := Started(Fifo, 1, [1, 2]);
    StartedIsRunning(Fifo, 1, [1, 2]);
    assert Step(s0) == FillStep(s0);
    assert IndexOf(s0.frames, None) == Some(0);
    StepKeepsConsistent(s0);
    s := Step(s0).0;
  }

  /** The idle state satisfies the invariant: it has nothing left to replay. */
  lemma IdleIsConsistent()
    ensures Consistent(Idle()) && Finished(Idle())
  {
  }
}
