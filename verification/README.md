# Page-replacement simulator engine

A Dafny model of the simulation engine inside `SimulatorFrame`, the Tk frame of
the page-replacement case study. The engine steps a random reference string
through a fixed table of frames under FIFO, LRU or OPT. `main.py` and
`source.py` carry the same engine nearly line for line. The rows below cite
`main.py`; the matching lines in `source.py` are `reset_state` 215-223,
`validate_inputs` 245-252, `start_fifo`/`start_lru`/`start_opt` 269-285,
`start_sim` 292-321, `next_step` 323-363, and the position increment in
`animate` at 381.

The model has four modules:

- `Paging` (paging.dfy) holds the vocabulary and the pure helpers:
  - pages, slots (`Option<Page>`, with `None` for an empty slot), the three
    policies and the input bounds (1..9 frames, 1..30 references, pages 0..9);
  - the Python list operations the engine uses: `list.index` (`IndexOf`),
    `list.remove` (`RemoveFirst`) and `max` (`MaxOf`);
  - OPT's next-use distance. `Distance` is `At(n)` or `Never`, and `Never`
    stands in for `float('inf')`;
  - OPT's victim choice.
- `Engine` (engine.dfy) treats the object's state as a value `Sim`:
  - one call of `next_step` is the function `Step`;
  - a whole run is `Run`;
  - `Consistent` is the invariant: `current` never passes the end, and while
    references remain the table has its run shape;
  - the lemmas state what a step does and that it keeps the invariant.
- `Simulator` (simulator.dfy) is the class `SimulatorFrame`, with the fields
  `max_frames`, `frames`, `fifo_queue`, `lru_order`, `reference_string`,
  `current` and `algorithm`:
  - its methods update those fields in place;
  - each method is proved against `Engine` on a snapshot of the fields;
  - the OPT branch runs the source's loop that builds `future`.
- `Scenarios` (scenarios.dfy) works through complete runs on fixed reference
  strings and proves the whole history, the final table and the fault count
  for each.

The run is one state machine:

- `reset_state` gives the idle state;
- a start with accepted inputs gives a fresh run;
- each step consumes one reference and advances `current` by exactly one.
  The increment that the source performs when a fault's animation ends is
  part of the step.
- once the string is exhausted, a step reports completion and changes nothing.

Behaviour of the code the model keeps:

- `next_step` after the end is not an error: when `current` has reached the
  length of the string it reports completion and returns without changing
  anything (main.py:476-478).
- `next_step` before any start is not an error either: `reset_state` leaves
  an empty reference string (main.py:358), so the first test in `next_step`
  (main.py:476) reports completion at once.
- On three frames and `[7, 0, 1, 2, 0, 3, 0, 4]`, FIFO faults at positions
  0, 1, 2, 3, 5, 6 and 7. That is seven faults, and the final table is
  `[4, 3, 0]`.
- The OPT loop ranges over all `max_frames` slots (main.py:507). It runs
  only on a full table, where these are exactly the occupied slots.

## Model

| member | source | states |
|---|---|---|
| Paging.ValidInputs | main.py:385-391 | definition of `validate_inputs`' range check (1..9 frames, 1..30 references); its use is proved in `Simulator.SimulatorFrame.Start`, which accepts exactly these inputs |
| Paging.IsDraw | main.py:454 | definition of a possible outcome of `[random.randint(0,9) for _ in range(length)]`; `Simulator.SimulatorFrame.Launch` proves its draw is one |
| Paging.IndexOf | main.py:482 | `list.index`: `None` (Python's `ValueError`) exactly when the item is absent; otherwise the position holds the item and no earlier position does |
| Paging.RemoveFirst | main.py:485 | `list.remove` on a list holding the item shortens it by exactly one |
| Paging.RemoveFirstIsSplice | main.py:485 | `remove` deletes exactly the first occurrence, the position `index` reports, and keeps everything else in order |
| Paging.RemoveFirstOfDistinct | main.py:485 | on a duplicate-free list, `remove` leaves a duplicate-free list holding exactly the other elements |
| Paging.NextUse | main.py:508-511 | OPT's distance for one slot is `Never` exactly when the slot is empty or its page does not occur in `refs[from..]`; a finite distance `d` points at an occurrence of the page with none before it |
| Paging.NextUseIsIndex | main.py:509-511 | the distance equals `reference_string[current+1:].index(page)`, and is infinite exactly where `index` raises `ValueError` |
| Paging.MaxOf | main.py:513 | `max(future)` is an element of `future` that no element exceeds |
| Paging.Future | main.py:506-512 | definition of the `future` list, one next-use distance per slot; `Simulator.FutureDistances` proves the loop builds it and `Paging.OptVictimIsIndexOfMax` relates it to the victim |
| Paging.FarthestAmong | main.py:506-513 | definition of the scan for the first farthest slot; it yields a valid index, and its meaning is proved in `Paging.FarthestAmongIsFarthest` |
| Paging.FarthestAmongIsFarthest | main.py:506-513 | the left-to-right scan ends on a slot needed no sooner than any slot it passed, and strictly later than every slot before it |
| Paging.OptVictim | main.py:506-513 | OPT's victim is a valid slot whose page is needed no sooner than any other (`Never` above all finite distances); every lower slot is needed strictly sooner, so ties go to the lowest index |
| Paging.OptVictimIsIndexOfMax | main.py:513 | the victim is exactly `future.index(max(future))` over the per-slot distances |
| Paging.OptTiesAreNeverUsed | main.py:509-513 | two different pages never share a finite next use, so a tie can only be between pages never used again |
| Paging.OptPrefersUnusedPages | main.py:509-513 | if some resident page is never used again, OPT evicts such a page, the lowest-indexed one: every slot before the victim is used again |
| Engine.Idle | main.py:353-361 | definition of the state `reset_state` leaves; its meaning is proved in `Engine.IdleIsConsistent` and `Simulator.SimulatorFrame.ResetState` |
| Engine.Started | main.py:454-458 | definition of the state an accepted start leaves; its meaning is proved in `Engine.StartedIsRunning` and `Simulator.SimulatorFrame.Launch` |
| Engine.Step | main.py:475-515 | definition of one `next_step` call; its meaning is proved in `Engine.StepProgress`, `Engine.StepHit`, `Engine.StepFault`, `Engine.StepMakesResident`, `Engine.StepFillsLowestEmpty`, `Engine.StepEvictsFifo`, `Engine.StepEvictsLru`, `Engine.StepEvictsOpt` and `Engine.StepKeepsConsistent` |
| Engine.HitStep | main.py:481-488 | definition of the hit branch; its meaning is proved in `Engine.StepHit` and `Engine.HitKeepsRunning` |
| Engine.FillStep | main.py:490-495 | definition of the free-slot branch; its meaning is proved in `Engine.StepFillsLowestEmpty` and `Engine.FillKeepsRunning` |
| Engine.EvictStep | main.py:496-515 | definition of the eviction branch; its meaning is proved in `Engine.StepEvicts`, `Engine.StepEvictsFifo`, `Engine.StepEvictsLru` and `Engine.EvictKeepsRunning` |
| Engine.OptEvictStep | main.py:505-514 | definition of OPT's eviction; its meaning is proved in `Engine.OptEvictTakesVictim` and `Engine.StepEvictsOpt` |
| Engine.RotateKeepsSlotQueue | main.py:485-486 | `remove(k)` then `append(k)` on a queue of exactly the occupied slots gives such a queue again, with no duplicates |
| Engine.FillExtendsSlotQueue | main.py:492-494 | filling an empty slot and appending it to the queue keeps the queue a duplicate-free list of exactly the occupied slots |
| Engine.ReplaceKeepsSlotQueue | main.py:499-504 | replacing the page in an occupied slot keeps a queue of the occupied slots valid |
| Engine.HitKeepsRunning | main.py:481-488 | the hit branch keeps the run shape |
| Engine.FillKeepsRunning | main.py:490-495 | the free-slot branch keeps the run shape: occupied slots stay a prefix, no page twice, and the queue follows the table |
| Engine.EvictKeepsRunning | main.py:496-515 | the eviction branch keeps the run shape under every policy |
| Engine.StepKeepsRunning | main.py:475-515 | every step of an unfinished run keeps the shape: `max_frames` slots, occupied slots a prefix, no duplicate page, and the active policy's queue a permutation of the occupied slots (the other queue empty) |
| Engine.StepKeepsConsistent | main.py:475-515 | the step keeps the run invariant, so steps chain |
| Engine.StepProgress | main.py:476-487 | completion is reported exactly when `current` has reached the end, and then nothing changes; otherwise `current` goes up by one and the reference string, frame count and policy stay |
| Engine.StepHit | main.py:481-488 | a hit is reported exactly when the page is resident. It names the page's slot, changes no slot and leaves FIFO's queue alone. Under LRU the slot moves to the tail and the other entries keep their order; under other policies `lru_order` is untouched |
| Engine.StepFault | main.py:489-515 | a fault is reported exactly when the page is not resident, and exactly one slot changes: the reported one, which now holds the page |
| Engine.StepMakesResident | main.py:481-515 | after every step of a run the referenced page sits in the reported slot |
| Engine.StepFillsLowestEmpty | main.py:490-495 | with an empty slot left, the fault takes the lowest-indexed empty slot and appends it to the active policy's queue only |
| Engine.StepEvicts | main.py:496-515 | on a full table the fault replaces an occupied slot |
| Engine.StepEvictsFifo | main.py:497-500 | FIFO evicts the head of `fifo_queue` and rotates it to the tail |
| Engine.StepEvictsLru | main.py:501-504 | LRU evicts the head of `lru_order` and rotates it to the tail |
| Engine.StepEvictsOpt | main.py:505-514 | OPT evicts the slot needed farthest ahead, the lowest such slot, and touches no queue |
| Engine.OptEvictTakesVictim | main.py:513-514 | OPT's eviction replaces exactly the slot `Paging.OptVictim` chooses |
| Engine.FullStaysFull | main.py:490-515 | once no slot is empty, no step empties one |
| Engine.Run | main.py:475-535 | driving the step to the end yields a finished, consistent state on the same string, with one non-completion result per remaining reference |
| Engine.StartedIsRunning | main.py:454-458 | a fresh run (`[None]*max_frames`, cleared queues, `current = 0`) has the run shape and an empty slot |
| Engine.IdleIsConsistent | main.py:353-361 | the state `reset_state` leaves satisfies the invariant and has nothing left to replay |
| Engine.RejectedStartMidRun | main.py:409-413 | a start rejected after the first step of a FIFO run switches the run to LRU with an empty `lru_order` on a full table, which breaks the invariant |
| Simulator.FutureDistances | main.py:506-512 | the loop builds one next-use distance per slot, in slot order |
| Simulator.ChooseOptVictim | main.py:506-513 | `future.index(max(future))` over the loop's list is OPT's victim |
| Simulator.SimulatorFrame.constructor | main.py:350 | construction ends in the idle state |
| Simulator.SimulatorFrame.ResetState | main.py:353-361 | `reset_state`: three frames announced, empty table and queues, empty string, position 0, no policy |
| Simulator.SimulatorFrame.Start | main.py:409-458 | the policy is recorded first. The start is accepted exactly when the inputs are in range, and then the string is a draw of `length` pages in 0..9 and the run starts afresh. A rejected start changes only the policy; it keeps the invariant if no run is in progress, and mid-run it can break it (`Engine.RejectedStartMidRun`) |
| Simulator.SimulatorFrame.StartChecked | main.py:437-458 | the start with the check first: a rejected start changes nothing, and the invariant always holds afterwards |
| Simulator.SimulatorFrame.Launch | main.py:448-458 | `start_sim` after validation: `max_frames` set, a fresh draw, a table of empty slots, cleared queues and position 0 |
| Simulator.SimulatorFrame.NextStep | main.py:475-515 | `next_step` updates the fields exactly as `Engine.Step` does and keeps the invariant |
| Simulator.SimulatorFrame.TakeHit | main.py:481-488 | the hit branch on the fields |
| Simulator.SimulatorFrame.FillFreeSlot | main.py:490-495 | the free-slot branch on the fields, with the position increment the animation performs |
| Simulator.SimulatorFrame.Evict | main.py:496-515 | the eviction branch on the fields, with the OPT loop |
| Simulator.SimulatorFrame.RunToCompletion | main.py:527-535 | the re-armed chain of `next_step` calls ends finished, in the state and with the history `Engine.Run` gives |
| Scenarios.SingleFifoRun | main.py:475-515 | FIFO on one frame and `[5, 5, 5]`: fault, hit, hit; final table `[5]`; one fault |
| Scenarios.SingleLruRun | main.py:475-515 | LRU on one frame and `[5, 5, 5]`: fault, hit, hit; final table `[5]`; one fault |
| Scenarios.SingleOptRun | main.py:475-515 | OPT on one frame and `[5, 5, 5]`: fault, hit, hit; final table `[5]`; one fault |
| Scenarios.SingleFrameUnderEveryPolicy | main.py:475-515 | on one frame and `[5, 5, 5]`, every policy gives fault, hit, hit and one fault |
| Scenarios.Fifo3Run | main.py:475-515 | FIFO on three frames and `[7, 0, 1, 2, 0, 3, 0, 4]`: the exact hit/fault trace, final table `[4, 3, 0]`, seven faults |
| Scenarios.Lru3Run | main.py:475-515 | LRU on the same input: exact trace, final table `[4, 0, 3]`, six faults |
| Scenarios.Fifo2Run | main.py:475-515 | FIFO on two frames and `[1, 2, 3, 1, 2]`: five faults |
| Scenarios.Opt2Run | main.py:475-515 | OPT on the same input: exact trace, final table `[2, 3]`, four faults |
| Scenarios.OptBeatsFifoOnTwoFrames | main.py:496-515 | on two frames and `[1, 2, 3, 1, 2]` OPT faults strictly less often than FIFO |

## Left out

- Drawing, highlighting, the moving-page animation, status text and the warning message (`setup_frames`, `show_warning`, `highlight`, the canvas calls in `animate`): presentation only. `frame_boxes` is presentation state and is not a field of the model.
- The `after` timers: a run is the sequence of steps they trigger. `RunToCompletion` drives that sequence in a loop, and two chains running side by side are not modelled.
- The fault's `current += 1`, which the source performs when the animation ends: the model makes it the last action of the step. A step is not modelled as interrupted between placing the page and advancing the position.
- `random.randint(0, 9)`: the model picks an arbitrary string of the right length with every page in 0..9. No distribution is modelled.
- `int()` parsing of the two entry fields: the model takes integers. The `ValueError` path of `validate_inputs` has no counterpart.
- `clear` (main.py calls `reset_state`, source.py does not) and the other pages and buttons of the app, including `webbrowser` links: UI wiring around the engine.
- `Paging.FarthestAmong` states only that the result is a valid index. Its meaning is in `Paging.FarthestAmongIsFarthest`, and `Paging.OptVictim` carries both.
- Belady optimality in general, determinism and the capacity-monotonicity contrast: the model proves OPT's fewer faults only on the fixed input above. Determinism holds by construction, because `Step` is a function.
- A `None` policy during a run: reset leaves no references to replay, so the `else` (OPT) branch with no policy is unreachable in a run.

## Findings

| source | as written | input that shows it | evidently intended | confidence | as-written member | corrected member |
|---|---|---|---|---|---|---|
| main.py:409-441 | `start_fifo`/`start_lru`/`start_opt` set `algorithm` before `start_sim` checks the inputs, and a rejected start leaves the running `next_step` chain going | FIFO on one frame with references `[1, 2]`; after the first step, press LRU with out-of-range inputs. The next step evicts under LRU from an empty `lru_order`, and `pop(0)` raises `IndexError` | a rejected start does not corrupt a running simulation; the correction leaves it untouched, though stopping it (the warning says the simulation is aborted) would also fit | medium, not executed | Engine.RejectedStartMidRun | Simulator.SimulatorFrame.StartChecked |
