/**
 * Hand-derived traces of the engine on fixed inputs. Every step of a trace
 * is its own lemma that names the successor state; the `...From` lemmas
 * chain the steps into the rest of the history and the final table, and the
 * `...Run` lemmas state the whole history and fault count from the start.
 */
module Scenarios {
  import opened Paging
  import opened Engine

  /** Unfolding `Run` once: the history of an unfinished run starts with the step's result. */
  lemma RunUnfold(s: Sim, t: Sim, r: StepResult)
    requires Consistent(s) && !Finished(s) && Step(s) == (t, r)
    ensures Consistent(t)
    ensures Run(s).0 == Run(t).0
    ensures Run(s).1 == [r] + Run(t).1
  {
    StepKeepsConsistent(s);
  }

  /** A suffix of a history is its first result followed by the next suffix. */
  lemma SuffixCons(h: seq<StepResult>, i: nat)
    requires i < |h|
    ensures h[i..] == [h[i]] + h[i + 1..]
  {
  }

  /** A state of the run of FIFO on 1 frame with references [5, 5, 5]. */
  predicate SingleFifoAt(s: Sim, frames: seq<Option<Page>>, fifo: seq<nat>, lru: seq<nat>, current: nat)
  {
    && s == Sim(1, frames, fifo, lru, s.referenceString, current, Some(Fifo))
    && s.referenceString == [5, 5, 5]
  }

  lemma SingleFifoStep0(s: Sim) returns (t: Sim)
    requires SingleFifoAt(s, [None], [], [], 0) && Consistent(s)
    ensures SingleFifoAt(t, [Some(5)], [0], [], 1) && Step(s) == (t, Fault(0))
  {
    t := s.(frames := [Some(5)], fifoQueue := [0], current := 1);
    assert Pending(s) == 5;
    assert Some(5) !in s.frames;
    assert Step(s) == FillStep(s);
    assert IndexOf(s.frames, None) == Some(0);
    assert s.frames[0 := Some(5)] == t.frames;
    assert s.fifoQueue + [0] == t.fifoQueue;
  }

  lemma SingleFifoStep1(s: Sim) returns (t: Sim)
    requires SingleFifoAt(s, [Some(5)], [0], [], 1) && Consistent(s)
    ensures SingleFifoAt(t, [Some(5)], [0], [], 2) && Step(s) == (t, Hit(0))
  {
    t := s.(current := 2);
    assert Pending(s) == 5;
    assert IndexOf(s.frames, Some(5)) == Some(0);
  }

  lemma SingleFifoStep2(s: Sim) returns (t: Sim)
    requires SingleFifoAt(s, [Some(5)], [0], [], 2) && Consistent(s)
    ensures SingleFifoAt(t, [Some(5)], [0], [], 3) && Step(s) == (t, Hit(0))
  {
    t := s.(current := 3);
    assert Pending(s) == 5;
    assert IndexOf(s.frames, Some(5)) == Some(0);
  }

  /** The results the run reports, step by step. */
  const SingleFifoHistory: seq<StepResult> := [Fault(0), Hit(0), Hit(0)]

  lemma SingleFifoFrom3(s: Sim) returns (u: Sim)
    requires SingleFifoAt(s, [Some(5)], [0], [], 3) && Consistent(s)
    ensures Run(s).0 == u && Run(s).1 == SingleFifoHistory[3..]
    ensures u.frames == [Some(5)]
  {
    u := s;
  }

  lemma SingleFifoFrom2(s: Sim) returns (u: Sim)
    requires SingleFifoAt(s, [Some(5)], [0], [], 2) && Consistent(s)
    ensures Run(s).0 == u && Run(s).1 == SingleFifoHistory[2..]
    ensures u.frames == [Some(5)]
  {
    var t := SingleFifoStep2(s);
    RunUnfold(s, t, Hit(0));
    u := SingleFifoFrom3(t);
    SuffixCons(SingleFifoHistory, 2);
  }

  lemma SingleFifoFrom1(s: Sim) returns (u: Sim)
    requires SingleFifoAt(s, [Some(5)], [0], [], 1) && Consistent(s)
    ensures Run(s).0 == u && Run(s).1 == SingleFifoHistory[1..]
    ensures u.frames == [Some(5)]
  {
    var t := SingleFifoStep1(s);
    RunUnfold(s, t, Hit(0));
    u := SingleFifoFrom2(t);
    SuffixCons(SingleFifoHistory, 1);
  }

  lemma SingleFifoFrom0(s: Sim) returns (u: Sim)
    requires SingleFifoAt(s, [None], [], [], 0) && Consistent(s)
    ensures Run(s).0 == u && Run(s).1 == SingleFifoHistory[0..]
    ensures u.frames == [Some(5)]
  {
    var t := SingleFifoStep0(s);
    RunUnfold(s, t, Fault(0));
    u := SingleFifoFrom1(t);
    SuffixCons(SingleFifoHistory, 0);
  }

  /** FIFO on one slot and the page 5 three times: the first reference faults, the other two hit. */
  lemma SingleFifoRun()
    ensures Run(Started(Fifo, 1, [5, 5, 5])).1 == [Fault(0), Hit(0), Hit(0)]
    ensures Run(Started(Fifo, 1, [5, 5, 5])).0.frames == [Some(5)]
    ensures FaultCount(Fifo, 1, [5, 5, 5]) == 1
  {
    var s := Started(Fifo, 1, [5, 5, 5]);
    StartedIsRunning(Fifo, 1, [5, 5, 5]);
    assert SingleFifoAt(s, [None], [], [], 0);
    var u := SingleFifoFrom0(s);
  }

  /** A state of the run of LRU on 1 frame with references [5, 5, 5]. */
  predicate SingleLruAt(s: Sim, frames: seq<Option<Page>>, fifo: seq<nat>, lru: seq<nat>, current: nat)
  {
    && s == Sim(1, frames, fifo, lru, s.referenceString, current, Some(Lru))
    && s.referenceString == [5, 5, 5]
  }

  lemma SingleLruStep0(s: Sim) returns (t: Sim)
    requires SingleLruAt(s, [None], [], [], 0) && Consistent(s)
    ensures SingleLruAt(t, [Some(5)], [], [0], 1) && Step(s) == (t, Fault(0))
  {
    t := s.(frames := [Some(5)], lruOrder := [0], current := 1);
    assert Pending(s) == 5;
    assert Some(5) !in s.frames;
    assert Step(s) == FillStep(s);
    assert IndexOf(s.frames, None) == Some(0);
    assert s.frames[0 := Some(5)] == t.frames;
    assert s.lruOrder + [0] == t.lruOrder;
  }

  lemma SingleLruStep1(s: Sim) returns (t: Sim)
    requires SingleLruAt(s, [Some(5)], [], [0], 1) && Consistent(s)
    ensures SingleLruAt(t, [Some(5)], [], [0], 2) && Step(s) == (t, Hit(0))
  {
    t := s.(current := 2);
    assert Pending(s) == 5;
    assert IndexOf(s.frames, Some(5)) == Some(0);
    assert RemoveFirst(s.lruOrder, 0) + [0] == t.lruOrder;
  }

  lemma SingleLruStep2(s: Sim) returns (t: Sim)
    requires SingleLruAt(s, [Some(5)], [], [0], 2) && Consistent(s)
    ensures SingleLruAt(t, [Some(5)], [], [0], 3) && Step(s) == (t, Hit(0))
  {
    t := s.(current := 3);
    assert Pending(s) == 5;
    assert IndexOf(s.frames, Some(5)) == Some(0);
    assert RemoveFirst(s.lruOrder, 0) + [0] == t.lruOrder;
  }

  /** The results the run reports, step by step. */
  const SingleLruHistory: seq<StepResult> := [Fault(0), Hit(0), Hit(0)]

  lemma SingleLruFrom3(s: Sim) returns (u: Sim)
    requires SingleLruAt(s, [Some(5)], [], [0], 3) && Consistent(s)
    ensures Run(s).0 == u && Run(s).1 == SingleLruHistory[3..]
    ensures u.frames == [Some(5)]
  {
    u := s;
  }

  lemma SingleLruFrom2(s: Sim) returns (u: Sim)
    requires SingleLruAt(s, [Some(5)], [], [0], 2) && Consistent(s)
    ensures Run(s).0 == u && Run(s).1 == SingleLruHistory[2..]
    ensures u.frames == [Some(5)]
  {
    var t := SingleLruStep2(s);
    RunUnfold(s, t, Hit(0));
    u := SingleLruFrom3(t);
    SuffixCons(SingleLruHistory, 2);
  }

  lemma SingleLruFrom1(s: Sim) returns (u: Sim)
    requires SingleLruAt(s, [Some(5)], [], [0], 1) && Consistent(s)
    ensures Run(s).0 == u && Run(s).1 == SingleLruHistory[1..]
    ensures u.frames == [Some(5)]
  {
    var t := SingleLruStep1(s);
    RunUnfold(s, t, Hit(0));
    u := SingleLruFrom2(t);
    SuffixCons(SingleLruHistory, 1);
  }

  lemma SingleLruFrom0(s: Sim) returns (u: Sim)
    requires SingleLruAt(s, [None], [], [], 0) && Consistent(s)
    ensures Run(s).0 == u && Run(s).1 == SingleLruHistory[0..]
    ensures u.frames == [Some(5)]
  {
    var t := SingleLruStep0(s);
    RunUnfold(s, t, Fault(0));
    u := SingleLruFrom1(t);
    SuffixCons(SingleLruHistory, 0);
  }

  /** LRU on one slot and the page 5 three times: the first reference faults, the other two hit. */
  lemma SingleLruRun()
    ensures Run(Started(Lru, 1, [5, 5, 5])).1 == [Fault(0), Hit(0), Hit(0)]
    ensures Run(Started(Lru, 1, [5, 5, 5])).0.frames == [Some(5)]
    ensures FaultCount(Lru, 1, [5, 5, 5]) == 1
  {
    var s := Started(Lru, 1, [5, 5, 5]);
    StartedIsRunning(Lru, 1, [5, 5, 5]);
    assert SingleLruAt(s, [None], [], [], 0);
    var u := SingleLruFrom0(s);
  }

  /** A state of the run of OPT on 1 frame with references [5, 5, 5]. */
  predicate SingleOptAt(s: Sim, frames: seq<Option<Page>>, fifo: seq<nat>, lru: seq<nat>, current: nat)
  {
    && s == Sim(1, frames, fifo, lru, s.referenceString, current, Some(Opt))
    && s.referenceString == [5, 5, 5]
  }

  lemma SingleOptStep0(s: Sim) returns (t: Sim)
    requires SingleOptAt(s, [None], [], [], 0) && Consistent(s)
    ensures SingleOptAt(t, [Some(5)], [], [], 1) && Step(s) == (t, Fault(0))
  {
    t := s.(frames := [Some(5)], current := 1);
    assert Pending(s) == 5;
    assert Some(5) !in s.frames;
    assert Step(s) == FillStep(s);
    assert IndexOf(s.frames, None) == Some(0);
    assert s.frames[0 := Some(5)] == t.frames;
  }

  lemma SingleOptStep1(s: Sim) returns (t: Sim)
    requires SingleOptAt(s, [Some(5)], [], [], 1) && Consistent(s)
    ensures SingleOptAt(t, [Some(5)], [], [], 2) && Step(s) == (t, Hit(0))
  {
    t := s.(current := 2);
    assert Pending(s) == 5;
    assert IndexOf(s.frames, Some(5)) == Some(0);
  }

  lemma SingleOptStep2(s: Sim) returns (t: Sim)
    requires SingleOptAt(s, [Some(5)], [], [], 2) && Consistent(s)
    ensures SingleOptAt(t, [Some(5)], [], [], 3) && Step(s) == (t, Hit(0))
  {
    t := s.(current := 3);
    assert Pending(s) == 5;
    assert IndexOf(s.frames, Some(5)) == Some(0);
  }

  /** The results the run reports, step by step. */
  const SingleOptHistory: seq<StepResult> := [Fault(0), Hit(0), Hit(0)]

  lemma SingleOptFrom3(s: Sim) returns (u: Sim)
    requires SingleOptAt(s, [Some(5)], [], [], 3) && Consistent(s)
    ensures Run(s).0 == u && Run(s).1 == SingleOptHistory[3..]
    ensures u.frames == [Some(5)]
  {
    u := s;
  }

  lemma SingleOptFrom2(s: Sim) returns (u: Sim)
    requires SingleOptAt(s, [Some(5)], [], [], 2) && Consistent(s)
    ensures Run(s).0 == u && Run(s).1 == SingleOptHistory[2..]
    ensures u.frames == [Some(5)]
  {
    var t := SingleOptStep2(s);
    RunUnfold(s, t, Hit(0));
    u := SingleOptFrom3(t);
    SuffixCons(SingleOptHistory, 2);
  }

  lemma SingleOptFrom1(s: Sim) returns (u: Sim)
    requires SingleOptAt(s, [Some(5)], [], [], 1) && Consistent(s)
    ensures Run(s).0 == u && Run(s).1 == SingleOptHistory[1..]
    ensures u.frames == [Some(5)]
  {
    var t := SingleOptStep1(s);
    RunUnfold(s, t, Hit(0));
    u := SingleOptFrom2(t);
    SuffixCons(SingleOptHistory, 1);
  }

  lemma SingleOptFrom0(s: Sim) returns (u: Sim)
    requires SingleOptAt(s, [None], [], [], 0) && Consistent(s)
    ensures Run(s).0 == u && Run(s).1 == SingleOptHistory[0..]
    ensures u.frames == [Some(5)]
  {
    var t := SingleOptStep0(s);
    RunUnfold(s, t, Fault(0));
    u := SingleOptFrom1(t);
    SuffixCons(SingleOptHistory, 0);
  }

  /** OPT on one slot and the page 5 three times: the first reference faults, the other two hit. */
  lemma SingleOptRun()
    ensures Run(Started(Opt, 1, [5, 5, 5])).1 == [Fault(0), Hit(0), Hit(0)]
    ensures Run(Started(Opt, 1, [5, 5, 5])).0.frames == [Some(5)]
    ensures FaultCount(Opt, 1, [5, 5, 5]) == 1
  {
    var s := Started(Opt, 1, [5, 5, 5]);
    StartedIsRunning(Opt, 1, [5, 5, 5]);
    assert SingleOptAt(s, [None], [], [], 0);
    var u := SingleOptFrom0(s);
  }

  /** A state of the run of FIFO on 3 frames with references [7, 0, 1, 2, 0, 3, 0, 4]. */
  predicate Fifo3At(s: Sim, frames: seq<Option<Page>>, fifo: seq<nat>, lru: seq<nat>, current: nat)
  {
    && s == Sim(3, frames, fifo, lru, s.referenceString, current, Some(Fifo))
    && s.referenceString == [7, 0, 1, 2, 0, 3, 0, 4]
  }

  lemma Fifo3Step0(s: Sim) returns (t: Sim)
    requires Fifo3At(s, [None, None, None], [], [], 0) && Consistent(s)
    ensures Fifo3At(t, [Some(7), None, None], [0], [], 1) && Step(s) == (t, Fault(0))
  {
    t := s.(frames := [Some(7), None, None], fifoQueue := [0], current := 1);
    assert Pending(s) == 7;
    assert Some(7) !in s.frames;
    assert Step(s) == FillStep(s);
    assert IndexOf(s.frames, None) == Some(0);
    assert s.frames[0 := Some(7)] == t.frames;
    assert s.fifoQueue + [0] == t.fifoQueue;
  }

  lemma Fifo3Step1(s: Sim) returns (t: Sim)
    requires Fifo3At(s, [Some(7), None, None], [0], [], 1) && Consistent(s)
    ensures Fifo3At(t, [Some(7), Some(0), None], [0, 1], [], 2) && Step(s) == (t, Fault(1))
  {
    t := s.(frames := [Some(7), Some(0), None], fifoQueue := [0, 1], current := 2);
    assert Pending(s) == 0;
    assert Some(0) !in s.frames;
    assert Step(s) == FillStep(s);
    assert IndexOf(s.frames, None) == Some(1);
    assert s.frames[1 := Some(0)] == t.frames;
    assert s.fifoQueue + [1] == t.fifoQueue;
  }

  lemma Fifo3Step2(s: Sim) returns (t: Sim)
    requires Fifo3At(s, [Some(7), Some(0), None], [0, 1], [], 2) && Consistent(s)
    ensures Fifo3At(t, [Some(7), Some(0), Some(1)], [0, 1, 2], [], 3) && Step(s) == (t, Fault(2))
  {
    t := s.(frames := [Some(7), Some(0), Some(1)], fifoQueue := [0, 1, 2], current := 3);
    assert Pending(s) == 1;
    assert Some(1) !in s.frames;
    assert Step(s) == FillStep(s);
    assert IndexOf(s.frames, None) == Some(2);
    assert s.frames[2 := Some(1)] == t.frames;
    assert s.fifoQueue + [2] == t.fifoQueue;
  }

  lemma Fifo3Step3(s: Sim) returns (t: Sim)
    requires Fifo3At(s, [Some(7), Some(0), Some(1)], [0, 1, 2], [], 3) && Consistent(s)
    ensures Fifo3At(t, [Some(2), Some(0), Some(1)], [1, 2, 0], [], 4) && Step(s) == (t, Fault(0))
  {
    t := s.(frames := [Some(2), Some(0), Some(1)], fifoQueue := [1, 2, 0], current := 4);
    assert Pending(s) == 2;
    assert Some(2) !in s.frames;
    assert None !in s.frames;
    assert Step(s) == EvictStep(s);
    assert s.fifoQueue[1..] + [0] == t.fifoQueue;
    assert s.frames[0 := Some(2)] == t.frames;
  }

  lemma Fifo3Step4(s: Sim) returns (t: Sim)
    requires Fifo3At(s, [Some(2), Some(0), Some(1)], [1, 2, 0], [], 4) && Consistent(s)
    ensures Fifo3At(t, [Some(2), Some(0), Some(1)], [1, 2, 0], [], 5) && Step(s) == (t, Hit(1))
  {
    t := s.(current := 5);
    assert Pending(s) == 0;
    assert IndexOf(s.frames, Some(0)) == Some(1);
  }

  lemma Fifo3Step5(s: Sim) returns (t: Sim)
    requires Fifo3At(s, [Some(2), Some(0), Some(1)], [1, 2, 0], [], 5) && Consistent(s)
    ensures Fifo3At(t, [Some(2), Some(3), Some(1)], [2, 0, 1], [], 6) && Step(s) == (t, Fault(1))
  {
    t := s.(frames := [Some(2), Some(3), Some(1)], fifoQueue := [2, 0, 1], current := 6);
    assert Pending(s) == 3;
    assert Some(3) !in s.frames;
    assert None !in s.frames;
    assert Step(s) == EvictStep(s);
    assert s.fifoQueue[1..] + [1] == t.fifoQueue;
    assert s.frames[1 := Some(3)] == t.frames;
  }

  lemma Fifo3Step6(s: Sim) returns (t: Sim)
    requires Fifo3At(s, [Some(2), Some(3), Some(1)], [2, 0, 1], [], 6) && Consistent(s)
    ensures Fifo3At(t, [Some(2), Some(3), Some(0)], [0, 1, 2], [], 7) && Step(s) == (t, Fault(2))
  {
    t := s.(frames := [Some(2), Some(3), Some(0)], fifoQueue := [0, 1, 2], current := 7);
    assert Pending(s) == 0;
    assert Some(0) !in s.frames;
    assert None !in s.frames;
    assert Step(s) == EvictStep(s);
    assert s.fifoQueue[1..] + [2] == t.fifoQueue;
    assert s.frames[2 := Some(0)] == t.frames;
  }

  lemma Fifo3Step7(s: Sim) returns (t: Sim)
    requires Fifo3At(s, [Some(2), Some(3), Some(0)], [0, 1, 2], [], 7) && Consistent(s)
    ensures Fifo3At(t, [Some(4), Some(3), Some(0)], [1, 2, 0], [], 8) && Step(s) == (t, Fault(0))
  {
    t := s.(frames := [Some(4), Some(3), Some(0)], fifoQueue := [1, 2, 0], current := 8);
    assert Pending(s) == 4;
    assert Some(4) !in s.frames;
    assert None !in s.frames;
    assert Step(s) == EvictStep(s);
    assert s.fifoQueue[1..] + [0] == t.fifoQueue;
    assert s.frames[0 := Some(4)] == t.frames;
  }

  /** The results the run reports, step by step. */
  const Fifo3History: seq<StepResult> := [Fault(0), Fault(1), Fault(2), Fault(0), Hit(1), Fault(1), Fault(2), Fault(0)]

  lemma Fifo3From8(s: Sim) returns (u: Sim)
    requires Fifo3At(s, [Some(4), Some(3), Some(0)], [1, 2, 0], [], 8) && Consistent(s)
    ensures Run(s).0 == u && Run(s).1 == Fifo3History[8..]
    ensures u.frames == [Some(4), Some(3), Some(0)]
  {
    u := s;
  }

  lemma Fifo3From7(s: Sim) returns (u: Sim)
    requires Fifo3At(s, [Some(2), Some(3), Some(0)], [0, 1, 2], [], 7) && Consistent(s)
    ensures Run(s).0 == u && Run(s).1 == Fifo3History[7..]
    ensures u.frames == [Some(4), Some(3), Some(0)]
  {
    var t := Fifo3Step7(s);
    RunUnfold(s, t, Fault(0));
    u := Fifo3From8(t);
    SuffixCons(Fifo3History, 7);
  }

  lemma Fifo3From6(s: Sim) returns (u: Sim)
    requires Fifo3At(s, [Some(2), Some(3), Some(1)], [2, 0, 1], [], 6) && Consistent(s)
    ensures Run(s).0 == u && Run(s).1 == Fifo3History[6..]
    ensures u.frames == [Some(4), Some(3), Some(0)]
  {
    var t := Fifo3Step6(s);
    RunUnfold(s, t, Fault(2));
    u := Fifo3From7(t);
    SuffixCons(Fifo3History, 6);
  }

  lemma Fifo3From5(s: Sim) returns (u: Sim)
    requires Fifo3At(s, [Some(2), Some(0), Some(1)], [1, 2, 0], [], 5) && Consistent(s)
    ensures Run(s).0 == u && Run(s).1 == Fifo3History[5..]
    ensures u.frames == [Some(4), Some(3), Some(0)]
  {
    var t := Fifo3Step5(s);
    RunUnfold(s, t, Fault(1));
    u := Fifo3From6(t);
    SuffixCons(Fifo3History, 5);
  }

  lemma Fifo3From4(s: Sim) returns (u: Sim)
    requires Fifo3At(s, [Some(2), Some(0), Some(1)], [1, 2, 0], [], 4) && Consistent(s)
    ensures Run(s).0 == u && Run(s).1 == Fifo3History[4..]
    ensures u.frames == [Some(4), Some(3), Some(0)]
  {
    var t := Fifo3Step4(s);
    RunUnfold(s, t, Hit(1));
    u := Fifo3From5(t);
    SuffixCons(Fifo3History, 4);
  }

  lemma Fifo3From3(s: Sim) returns (u: Sim)
    requires Fifo3At(s, [Some(7), Some(0), Some(1)], [0, 1, 2], [], 3) && Consistent(s)
    ensures Run(s).0 == u && Run(s).1 == Fifo3History[3..]
    ensures u.frames == [Some(4), Some(3), Some(0)]
  {
    var t := Fifo3Step3(s);
    RunUnfold(s, t, Fault(0));
    u := Fifo3From4(t);
    SuffixCons(Fifo3History, 3);
  }

  lemma Fifo3From2(s: Sim) returns (u: Sim)
    requires Fifo3At(s, [Some(7), Some(0), None], [0, 1], [], 2) && Consistent(s)
    ensures Run(s).0 == u && Run(s).1 == Fifo3History[2..]
    ensures u.frames == [Some(4), Some(3), Some(0)]
  {
    var t := Fifo3Step2(s);
    RunUnfold(s, t, Fault(2));
    u := Fifo3From3(t);
    SuffixCons(Fifo3History, 2);
  }

  lemma Fifo3From1(s: Sim) returns (u: Sim)
    requires Fifo3At(s, [Some(7), None, None], [0], [], 1) && Consistent(s)
    ensures Run(s).0 == u && Run(s).1 == Fifo3History[1..]
    ensures u.frames == [Some(4), Some(3), Some(0)]
  {
    var t := Fifo3Step1(s);
    RunUnfold(s, t, Fault(1));
    u := Fifo3From2(t);
    SuffixCons(Fifo3History, 1);
  }

  lemma Fifo3From0(s: Sim) returns (u: Sim)
    requires Fifo3At(s, [None, None, None], [], [], 0) && Consistent(s)
    ensures Run(s).0 == u && Run(s).1 == Fifo3History[0..]
    ensures u.frames == [Some(4), Some(3), Some(0)]
  {
    var t := Fifo3Step0(s);
    RunUnfold(s, t, Fault(0));
    u := Fifo3From1(t);
    SuffixCons(Fifo3History, 0);
  }

  /** FIFO on three frames: seven faults, the only hit is the second reference to 0. */
  lemma Fifo3Run()
    ensures Run(Started(Fifo, 3, [7, 0, 1, 2, 0, 3, 0, 4])).1 == [Fault(0), Fault(1), Fault(2), Fault(0), Hit(1), Fault(1), Fault(2), Fault(0)]
    ensures Run(Started(Fifo, 3, [7, 0, 1, 2, 0, 3, 0, 4])).0.frames == [Some(4), Some(3), Some(0)]
    ensures FaultCount(Fifo, 3, [7, 0, 1, 2, 0, 3, 0, 4]) == 7
  {
    var s := Started(Fifo, 3, [7, 0, 1, 2, 0, 3, 0, 4]);
    StartedIsRunning(Fifo, 3, [7, 0, 1, 2, 0, 3, 0, 4]);
    assert Fifo3At(s, [None, None, None], [], [], 0);
    var u := Fifo3From0(s);
  }

  /** A state of the run of LRU on 3 frames with references [7, 0, 1, 2, 0, 3, 0, 4]. */
  predicate Lru3At(s: Sim, frames: seq<Option<Page>>, fifo: seq<nat>, lru: seq<nat>, current: nat)
  {
    && s == Sim(3, frames, fifo, lru, s.referenceString, current, Some(Lru))
    && s.referenceString == [7, 0, 1, 2, 0, 3, 0, 4]
  }

  lemma Lru3Step0(s: Sim) returns (t: Sim)
    requires Lru3At(s, [None, None, None], [], [], 0) && Consistent(s)
    ensures Lru3At(t, [Some(7), None, None], [], [0], 1) && Step(s) == (t, Fault(0))
  {
    t := s.(frames := [Some(7), None, None], lruOrder := [0], current := 1);
    assert Pending(s) == 7;
    assert Some(7) !in s.frames;
    assert Step(s) == FillStep(s);
    assert IndexOf(s.frames, None) == Some(0);
    assert s.frames[0 := Some(7)] == t.frames;
    assert s.lruOrder + [0] == t.lruOrder;
  }

  lemma Lru3Step1(s: Sim) returns (t: Sim)
    requires Lru3At(s, [Some(7), None, None], [], [0], 1) && Consistent(s)
    ensures Lru3At(t, [Some(7), Some(0), None], [], [0, 1], 2) && Step(s) == (t, Fault(1))
  {
    t := s.(frames := [Some(7), Some(0), None], lruOrder := [0, 1], current := 2);
    assert Pending(s) == 0;
    assert Some(0) !in s.frames;
    assert Step(s) == FillStep(s);
    assert IndexOf(s.frames, None) == Some(1);
    assert s.frames[1 := Some(0)] == t.frames;
    assert s.lruOrder + [1] == t.lruOrder;
  }

  lemma Lru3Step2(s: Sim) returns (t: Sim)
    requires Lru3At(s, [Some(7), Some(0), None], [], [0, 1], 2) && Consistent(s)
    ensures Lru3At(t, [Some(7), Some(0), Some(1)], [], [0, 1, 2], 3) && Step(s) == (t, Fault(2))
  {
    t := s.(frames := [Some(7), Some(0), Some(1)], lruOrder := [0, 1, 2], current := 3);
    assert Pending(s) == 1;
    assert Some(1) !in s.frames;
    assert Step(s) == FillStep(s);
    assert IndexOf(s.frames, None) == Some(2);
    assert s.frames[2 := Some(1)] == t.frames;
    assert s.lruOrder + [2] == t.lruOrder;
  }

  lemma Lru3Step3(s: Sim) returns (t: Sim)
    requires Lru3At(s, [Some(7), Some(0), Some(1)], [], [0, 1, 2], 3) && Consistent(s)
    ensures Lru3At(t, [Some(2), Some(0), Some(1)], [], [1, 2, 0], 4) && Step(s) == (t, Fault(0))
  {
    t := s.(frames := [Some(2), Some(0), Some(1)], lruOrder := [1, 2, 0], current := 4);
    assert Pending(s) == 2;
    assert Some(2) !in s.frames;
    assert None !in s.frames;
    assert Step(s) == EvictStep(s);
    assert s.lruOrder[1..] + [0] == t.lruOrder;
    assert s.frames[0 := Some(2)] == t.frames;
  }

  lemma Lru3Step4(s: Sim) returns (t: Sim)
    requires Lru3At(s, [Some(2), Some(0), Some(1)], [], [1, 2, 0], 4) && Consistent(s)
    ensures Lru3At(t, [Some(2), Some(0), Some(1)], [], [2, 0, 1], 5) && Step(s) == (t, Hit(1))
  {
    t := s.(lruOrder := [2, 0, 1], current := 5);
    assert Pending(s) == 0;
    assert IndexOf(s.frames, Some(0)) == Some(1);
    assert RemoveFirst(s.lruOrder, 1) + [1] == t.lruOrder;
  }

  lemma Lru3Step5(s: Sim) returns (t: Sim)
    requires Lru3At(s, [Some(2), Some(0), Some(1)], [], [2, 0, 1], 5) && Consistent(s)
    ensures Lru3At(t, [Some(2), Some(0), Some(3)], [], [0, 1, 2], 6) && Step(s) == (t, Fault(2))
  {
    t := s.(frames := [Some(2), Some(0), Some(3)], lruOrder := [0, 1, 2], current := 6);
    assert Pending(s) == 3;
    assert Some(3) !in s.frames;
    assert None !in s.frames;
    assert Step(s) == EvictStep(s);
    assert s.lruOrder[1..] + [2] == t.lruOrder;
    assert s.frames[2 := Some(3)] == t.frames;
  }

  lemma Lru3Step6(s: Sim) returns (t: Sim)
    requires Lru3At(s, [Some(2), Some(0), Some(3)], [], [0, 1, 2], 6) && Consistent(s)
    ensures Lru3At(t, [Some(2), Some(0), Some(3)], [], [0, 2, 1], 7) && Step(s) == (t, Hit(1))
  {
    t := s.(lruOrder := [0, 2, 1], current := 7);
    assert Pending(s) == 0;
    assert IndexOf(s.frames, Some(0)) == Some(1);
    assert RemoveFirst(s.lruOrder, 1) + [1] == t.lruOrder;
  }

  lemma Lru3Step7(s: Sim) returns (t: Sim)
    requires Lru3At(s, [Some(2), Some(0), Some(3)], [], [0, 2, 1], 7) && Consistent(s)
    ensures Lru3At(t, [Some(4), Some(0), Some(3)], [], [2, 1, 0], 8) && Step(s) == (t, Fault(0))
  {
    t := s.(frames := [Some(4), Some(0), Some(3)], lruOrder := [2, 1, 0], current := 8);
    assert Pending(s) == 4;
    assert Some(4) !in s.frames;
    assert None !in s.frames;
    assert Step(s) == EvictStep(s);
    assert s.lruOrder[1..] + [0] == t.lruOrder;
    assert s.frames[0 := Some(4)] == t.frames;
  }

  /** The results the run reports, step by step. */
  const Lru3History: seq<StepResult> := [Fault(0), Fault(1), Fault(2), Fault(0), Hit(1), Fault(2), Hit(1), Fault(0)]

  lemma Lru3From8(s: Sim) returns (u: Sim)
    requires Lru3At(s, [Some(4), Some(0), Some(3)], [], [2, 1, 0], 8) && Consistent(s)
    ensures Run(s).0 == u && Run(s).1 == Lru3History[8..]
    ensures u.frames == [Some(4), Some(0), Some(3)]
  {
    u := s;
  }

  lemma Lru3From7(s: Sim) returns (u: Sim)
    requires Lru3At(s, [Some(2), Some(0), Some(3)], [], [0, 2, 1], 7) && Consistent(s)
    ensures Run(s).0 == u && Run(s).1 == Lru3History[7..]
    ensures u.frames == [Some(4), Some(0), Some(3)]
  {
    var t := Lru3Step7(s);
    RunUnfold(s, t, Fault(0));
    u := Lru3From8(t);
    SuffixCons(Lru3History, 7);
  }

  lemma Lru3From6(s: Sim) returns (u: Sim)
    requires Lru3At(s, [Some(2), Some(0), Some(3)], [], [0, 1, 2], 6) && Consistent(s)
    ensures Run(s).0 == u && Run(s).1 == Lru3History[6..]
    ensures u.frames == [Some(4), Some(0), Some(3)]
  {
    var t := Lru3Step6(s);
    RunUnfold(s, t, Hit(1));
    u := Lru3From7(t);
    SuffixCons(Lru3History, 6);
  }

  lemma Lru3From5(s: Sim) returns (u: Sim)
    requires Lru3At(s, [Some(2), Some(0), Some(1)], [], [2, 0, 1], 5) && Consistent(s)
    ensures Run(s).0 == u && Run(s).1 == Lru3History[5..]
    ensures u.frames == [Some(4), Some(0), Some(3)]
  {
    var t := Lru3Step5(s);
    RunUnfold(s, t, Fault(2));
    u := Lru3From6(t);
    SuffixCons(Lru3History, 5);
  }

  lemma Lru3From4(s: Sim) returns (u: Sim)
    requires Lru3At(s, [Some(2), Some(0), Some(1)], [], [1, 2, 0], 4) && Consistent(s)
    ensures Run(s).0 == u && Run(s).1 == Lru3History[4..]
    ensures u.frames == [Some(4), Some(0), Some(3)]
  {
    var t := Lru3Step4(s);
    RunUnfold(s, t, Hit(1));
    u := Lru3From5(t);
    SuffixCons(Lru3History, 4);
  }

  lemma Lru3From3(s: Sim) returns (u: Sim)
    requires Lru3At(s, [Some(7), Some(0), Some(1)], [], [0, 1, 2], 3) && Consistent(s)
    ensures Run(s).0 == u && Run(s).1 == Lru3History[3..]
    ensures u.frames == [Some(4), Some(0), Some(3)]
  {
    var t := Lru3Step3(s);
    RunUnfold(s, t, Fault(0));
    u := Lru3From4(t);
    SuffixCons(Lru3History, 3);
  }

  lemma Lru3From2(s: Sim) returns (u: Sim)
    requires Lru3At(s, [Some(7), Some(0), None], [], [0, 1], 2) && Consistent(s)
    ensures Run(s).0 == u && Run(s).1 == Lru3History[2..]
    ensures u.frames == [Some(4), Some(0), Some(3)]
  {
    var t := Lru3Step2(s);
    RunUnfold(s, t, Fault(2));
    u := Lru3From3(t);
    SuffixCons(Lru3History, 2);
  }

  lemma Lru3From1(s: Sim) returns (u: Sim)
    requires Lru3At(s, [Some(7), None, None], [], [0], 1) && Consistent(s)
    ensures Run(s).0 == u && Run(s).1 == Lru3History[1..]
    ensures u.frames == [Some(4), Some(0), Some(3)]
  {
    var t := Lru3Step1(s);
    RunUnfold(s, t, Fault(1));
    u := Lru3From2(t);
    SuffixCons(Lru3History, 1);
  }

  lemma Lru3From0(s: Sim) returns (u: Sim)
    requires Lru3At(s, [None, None, None], [], [], 0) && Consistent(s)
    ensures Run(s).0 == u && Run(s).1 == Lru3History[0..]
    ensures u.frames == [Some(4), Some(0), Some(3)]
  {
    var t := Lru3Step0(s);
    RunUnfold(s, t, Fault(0));
    u := Lru3From1(t);
    SuffixCons(Lru3History, 0);
  }

  /** LRU on the same input: the hit on 0 saves it from the next two evictions, six faults. */
  lemma Lru3Run()
    ensures Run(Started(Lru, 3, [7, 0, 1, 2, 0, 3, 0, 4])).1 == [Fault(0), Fault(1), Fault(2), Fault(0), Hit(1), Fault(2), Hit(1), Fault(0)]
    ensures Run(Started(Lru, 3, [7, 0, 1, 2, 0, 3, 0, 4])).0.frames == [Some(4), Some(0), Some(3)]
    ensures FaultCount(Lru, 3, [7, 0, 1, 2, 0, 3, 0, 4]) == 6
  {
    var s := Started(Lru, 3, [7, 0, 1, 2, 0, 3, 0, 4]);
    StartedIsRunning(Lru, 3, [7, 0, 1, 2, 0, 3, 0, 4]);
    assert Lru3At(s, [None, None, None], [], [], 0);
    var u := Lru3From0(s);
  }

  /** A state of the run of FIFO on 2 frames with references [1, 2, 3, 1, 2]. */
  predicate Fifo2At(s: Sim, frames: seq<Option<Page>>, fifo: seq<nat>, lru: seq<nat>, current: nat)
  {
    && s == Sim(2, frames, fifo, lru, s.referenceString, current, Some(Fifo))
    && s.referenceString == [1, 2, 3, 1, 2]
  }

  lemma Fifo2Step0(s: Sim) returns (t: Sim)
    requires Fifo2At(s, [None, None], [], [], 0) && Consistent(s)
    ensures Fifo2At(t, [Some(1), None], [0], [], 1) && Step(s) == (t, Fault(0))
  {
    t := s.(frames := [Some(1), None], fifoQueue := [0], current := 1);
    assert Pending(s) == 1;
    assert Some(1) !in s.frames;
    assert Step(s) == FillStep(s);
    assert IndexOf(s.frames, None) == Some(0);
    assert s.frames[0 := Some(1)] == t.frames;
    assert s.fifoQueue + [0] == t.fifoQueue;
  }

  lemma Fifo2Step1(s: Sim) returns (t: Sim)
    requires Fifo2At(s, [Some(1), None], [0], [], 1) && Consistent(s)
    ensures Fifo2At(t, [Some(1), Some(2)], [0, 1], [], 2) && Step(s) == (t, Fault(1))
  {
    t := s.(frames := [Some(1), Some(2)], fifoQueue := [0, 1], current := 2);
    assert Pending(s) == 2;
    assert Some(2) !in s.frames;
    assert Step(s) == FillStep(s);
    assert IndexOf(s.frames, None) == Some(1);
    assert s.frames[1 := Some(2)] == t.frames;
    assert s.fifoQueue + [1] == t.fifoQueue;
  }

  lemma Fifo2Step2(s: Sim) returns (t: Sim)
    requires Fifo2At(s, [Some(1), Some(2)], [0, 1], [], 2) && Consistent(s)
    ensures Fifo2At(t, [Some(3), Some(2)], [1, 0], [], 3) && Step(s) == (t, Fault(0))
  {
    t := s.(frames := [Some(3), Some(2)], fifoQueue := [1, 0], current := 3);
    assert Pending(s) == 3;
    assert Some(3) !in s.frames;
    assert None !in s.frames;
    assert Step(s) == EvictStep(s);
    assert s.fifoQueue[1..] + [0] == t.fifoQueue;
    assert s.frames[0 := Some(3)] == t.frames;
  }

  lemma Fifo2Step3(s: Sim) returns (t: Sim)
    requires Fifo2At(s, [Some(3), Some(2)], [1, 0], [], 3) && Consistent(s)
    ensures Fifo2At(t, [Some(3), Some(1)], [0, 1], [], 4) && Step(s) == (t, Fault(1))
  {
    t := s.(frames := [Some(3), Some(1)], fifoQueue := [0, 1], current := 4);
    assert Pending(s) == 1;
    assert Some(1) !in s.frames;
    assert None !in s.frames;
    assert Step(s) == EvictStep(s);
    assert s.fifoQueue[1..] + [1] == t.fifoQueue;
    assert s.frames[1 := Some(1)] == t.frames;
  }

  lemma Fifo2Step4(s: Sim) returns (t: Sim)
    requires Fifo2At(s, [Some(3), Some(1)], [0, 1], [], 4) && Consistent(s)
    ensures Fifo2At(t, [Some(2), Some(1)], [1, 0], [], 5) && Step(s) == (t, Fault(0))
  {
    t := s.(frames := [Some(2), Some(1)], fifoQueue := [1, 0], current := 5);
    assert Pending(s) == 2;
    assert Some(2) !in s.frames;
    assert None !in s.frames;
    assert Step(s) == EvictStep(s);
    assert s.fifoQueue[1..] + [0] == t.fifoQueue;
    assert s.frames[0 := Some(2)] == t.frames;
  }

  /** The results the run reports, step by step. */
  const Fifo2History: seq<StepResult> := [Fault(0), Fault(1), Fault(0), Fault(1), Fault(0)]

  lemma Fifo2From5(s: Sim) returns (u: Sim)
    requires Fifo2At(s, [Some(2), Some(1)], [1, 0], [], 5) && Consistent(s)
    ensures Run(s).0 == u && Run(s).1 == Fifo2History[5..]
    ensures u.frames == [Some(2), Some(1)]
  {
    u := s;
  }

  lemma Fifo2From4(s: Sim) returns (u: Sim)
    requires Fifo2At(s, [Some(3), Some(1)], [0, 1], [], 4) && Consistent(s)
    ensures Run(s).0 == u && Run(s).1 == Fifo2History[4..]
    ensures u.frames == [Some(2), Some(1)]
  {
    var t := Fifo2Step4(s);
    RunUnfold(s, t, Fault(0));
    u := Fifo2From5(t);
    SuffixCons(Fifo2History, 4);
  }

  lemma Fifo2From3(s: Sim) returns (u: Sim)
    requires Fifo2At(s, [Some(3), Some(2)], [1, 0], [], 3) && Consistent(s)
    ensures Run(s).0 == u && Run(s).1 == Fifo2History[3..]
    ensures u.frames == [Some(2), Some(1)]
  {
    var t := Fifo2Step3(s);
    RunUnfold(s, t, Fault(1));
    u := Fifo2From4(t);
    SuffixCons(Fifo2History, 3);
  }

  lemma Fifo2From2(s: Sim) returns (u: Sim)
    requires Fifo2At(s, [Some(1), Some(2)], [0, 1], [], 2) && Consistent(s)
    ensures Run(s).0 == u && Run(s).1 == Fifo2History[2..]
    ensures u.frames == [Some(2), Some(1)]
  {
    var t := Fifo2Step2(s);
    RunUnfold(s, t, Fault(0));
    u := Fifo2From3(t);
    SuffixCons(Fifo2History, 2);
  }

  lemma Fifo2From1(s: Sim) returns (u: Sim)
    requires Fifo2At(s, [Some(1), None], [0], [], 1) && Consistent(s)
    ensures Run(s).0 == u && Run(s).1 == Fifo2History[1..]
    ensures u.frames == [Some(2), Some(1)]
  {
    var t := Fifo2Step1(s);
    RunUnfold(s, t, Fault(1));
    u := Fifo2From2(t);
    SuffixCons(Fifo2History, 1);
  }

  lemma Fifo2From0(s: Sim) returns (u: Sim)
    requires Fifo2At(s, [None, None], [], [], 0) && Consistent(s)
    ensures Run(s).0 == u && Run(s).1 == Fifo2History[0..]
    ensures u.frames == [Some(2), Some(1)]
  {
    var t := Fifo2Step0(s);
    RunUnfold(s, t, Fault(0));
    u := Fifo2From1(t);
    SuffixCons(Fifo2History, 0);
  }

  /** FIFO on two frames: every reference faults. */
  lemma Fifo2Run()
    ensures Run(Started(Fifo, 2, [1, 2, 3, 1, 2])).1 == [Fault(0), Fault(1), Fault(0), Fault(1), Fault(0)]
    ensures Run(Started(Fifo, 2, [1, 2, 3, 1, 2])).0.frames == [Some(2), Some(1)]
    ensures FaultCount(Fifo, 2, [1, 2, 3, 1, 2]) == 5
  {
    var s := Started(Fifo, 2, [1, 2, 3, 1, 2]);
    StartedIsRunning(Fifo, 2, [1, 2, 3, 1, 2]);
    assert Fifo2At(s, [None, None], [], [], 0);
    var u := Fifo2From0(s);
  }

  /** A state of the run of OPT on 2 frames with references [1, 2, 3, 1, 2]. */
  predicate Opt2At(s: Sim, frames: seq<Option<Page>>, fifo: seq<nat>, lru: seq<nat>, current: nat)
  {
    && s == Sim(2, frames, fifo, lru, s.referenceString, current, Some(Opt))
    && s.referenceString == [1, 2, 3, 1, 2]
  }

  lemma Opt2Step0(s: Sim) returns (t: Sim)
    requires Opt2At(s, [None, None], [], [], 0) && Consistent(s)
    ensures Opt2At(t, [Some(1), None], [], [], 1) && Step(s) == (t, Fault(0))
  {
    t := s.(frames := [Some(1), None], current := 1);
    assert Pending(s) == 1;
    assert Some(1) !in s.frames;
    assert Step(s) == FillStep(s);
    assert IndexOf(s.frames, None) == Some(0);
    assert s.frames[0 := Some(1)] == t.frames;
  }

  lemma Opt2Step1(s: Sim) returns (t: Sim)
    requires Opt2At(s, [Some(1), None], [], [], 1) && Consistent(s)
    ensures Opt2At(t, [Some(1), Some(2)], [], [], 2) && Step(s) == (t, Fault(1))
  {
    t := s.(frames := [Some(1), Some(2)], current := 2);
    assert Pending(s) == 2;
    assert Some(2) !in s.frames;
    assert Step(s) == FillStep(s);
    assert IndexOf(s.frames, None) == Some(1);
    assert s.frames[1 := Some(2)] == t.frames;
  }

  lemma Opt2Step2(s: Sim) returns (t: Sim)
    requires Opt2At(s, [Some(1), Some(2)], [], [], 2) && Consistent(s)
    ensures Opt2At(t, [Some(1), Some(3)], [], [], 3) && Step(s) == (t, Fault(1))
  {
    t := s.(frames := [Some(1), Some(3)], current := 3);
    assert Pending(s) == 3;
    assert Some(3) !in s.frames;
    assert None !in s.frames;
    assert Step(s) == EvictStep(s);
    assert s.referenceString[3..] == [1, 2];
    assert IndexOf(s.referenceString[3..], 1) == Some(0);
    assert NextUse(s.referenceString, 3, Some(1)) == At(0);
    assert IndexOf(s.referenceString[3..], 2) == Some(1);
    assert NextUse(s.referenceString, 3, Some(2)) == At(1);
    assert OptVictim(s.frames, s.referenceString, 3) == 1;
    assert s.frames[1 := Some(3)] == t.frames;
  }

  lemma Opt2Step3(s: Sim) returns (t: Sim)
    requires Opt2At(s, [Some(1), Some(3)], [], [], 3) && Consistent(s)
    ensures Opt2At(t, [Some(1), Some(3)], [], [], 4) && Step(s) == (t, Hit(0))
  {
    t := s.(current := 4);
    assert Pending(s) == 1;
    assert IndexOf(s.frames, Some(1)) == Some(0);
  }

  lemma Opt2Step4(s: Sim) returns (t: Sim)
    requires Opt2At(s, [Some(1), Some(3)], [], [], 4) && Consistent(s)
    ensures Opt2At(t, [Some(2), Some(3)], [], [], 5) && Step(s) == (t, Fault(0))
  {
    t := s.(frames := [Some(2), Some(3)], current := 5);
    assert Pending(s) == 2;
    assert Some(2) !in s.frames;
    assert None !in s.frames;
    assert Step(s) == EvictStep(s);
    assert s.referenceString[5..] == [];
    assert NextUse(s.referenceString, 5, Some(1)) == Never;
    assert NextUse(s.referenceString, 5, Some(3)) == Never;
    assert OptVictim(s.frames, s.referenceString, 5) == 0;
    assert s.frames[0 := Some(2)] == t.frames;
  }

  /** The results the run reports, step by step. */
  const Opt2History: seq<StepResult> := [Fault(0), Fault(1), Fault(1), Hit(0), Fault(0)]

  lemma Opt2From5(s: Sim) returns (u: Sim)
    requires Opt2At(s, [Some(2), Some(3)], [], [], 5) && Consistent(s)
    ensures Run(s).0 == u && Run(s).1 == Opt2History[5..]
    ensures u.frames == [Some(2), Some(3)]
  {
    u := s;
  }

  lemma Opt2From4(s: Sim) returns (u: Sim)
    requires Opt2At(s, [Some(1), Some(3)], [], [], 4) && Consistent(s)
    ensures Run(s).0 == u && Run(s).1 == Opt2History[4..]
    ensures u.frames == [Some(2), Some(3)]
  {
    var t := Opt2Step4(s);
    RunUnfold(s, t, Fault(0));
    u := Opt2From5(t);
    SuffixCons(Opt2History, 4);
  }

  lemma Opt2From3(s: Sim) returns (u: Sim)
    requires Opt2At(s, [Some(1), Some(3)], [], [], 3) && Consistent(s)
    ensures Run(s).0 == u && Run(s).1 == Opt2History[3..]
    ensures u.frames == [Some(2), Some(3)]
  {
    var t := Opt2Step3(s);
    RunUnfold(s, t, Hit(0));
    u := Opt2From4(t);
    SuffixCons(Opt2History, 3);
  }

  lemma Opt2From2(s: Sim) returns (u: Sim)
    requires Opt2At(s, [Some(1), Some(2)], [], [], 2) && Consistent(s)
    ensures Run(s).0 == u && Run(s).1 == Opt2History[2..]
    ensures u.frames == [Some(2), Some(3)]
  {
    var t := Opt2Step2(s);
    RunUnfold(s, t, Fault(1));
    u := Opt2From3(t);
    SuffixCons(Opt2History, 2);
  }

  lemma Opt2From1(s: Sim) returns (u: Sim)
    requires Opt2At(s, [Some(1), None], [], [], 1) && Consistent(s)
    ensures Run(s).0 == u && Run(s).1 == Opt2History[1..]
    ensures u.frames == [Some(2), Some(3)]
  {
    var t := Opt2Step1(s);
    RunUnfold(s, t, Fault(1));
    u := Opt2From2(t);
    SuffixCons(Opt2History, 1);
  }

  lemma Opt2From0(s: Sim) returns (u: Sim)
    requires Opt2At(s, [None, None], [], [], 0) && Consistent(s)
    ensures Run(s).0 == u && Run(s).1 == Opt2History[0..]
    ensures u.frames == [Some(2), Some(3)]
  {
    var t := Opt2Step0(s);
    RunUnfold(s, t, Fault(0));
    u := Opt2From1(t);
    SuffixCons(Opt2History, 0);
  }

  /** OPT on the same input: evicting 2 (used after 1) keeps 1 for a hit, four faults. */
  lemma Opt2Run()
    ensures Run(Started(Opt, 2, [1, 2, 3, 1, 2])).1 == [Fault(0), Fault(1), Fault(1), Hit(0), Fault(0)]
    ensures Run(Started(Opt, 2, [1, 2, 3, 1, 2])).0.frames == [Some(2), Some(3)]
    ensures FaultCount(Opt, 2, [1, 2, 3, 1, 2]) == 4
  {
    var s := Started(Opt, 2, [1, 2, 3, 1, 2]);
    StartedIsRunning(Opt, 2, [1, 2, 3, 1, 2]);
    assert Opt2At(s, [None, None], [], [], 0);
    var u := Opt2From0(s);
  }

  /** One frame and [5, 5, 5]: under every policy a fault, then two hits. */
  lemma SingleFrameUnderEveryPolicy(alg: Algorithm)
    ensures Run(Started(alg, 1, [5, 5, 5])).1 == [Fault(0), Hit(0), Hit(0)]
    ensures FaultCount(alg, 1, [5, 5, 5]) == 1
  {
    match alg
    case Fifo => SingleFifoRun();
    case Lru => SingleLruRun();
    case Opt => SingleOptRun();
  }
  /** On two frames and references [1, 2, 3, 1, 2], OPT faults less often than FIFO. */
  lemma OptBeatsFifoOnTwoFrames()
    ensures FaultCount(Opt, 2, [1, 2, 3, 1, 2]) < FaultCount(Fifo, 2, [1, 2, 3, 1, 2])
  {
    Opt2Run();
    Fifo2Run();
  }
}
