# Lock-step software pipeline (`src/pipeline.hh`), modelled in Dafny

The C++ header `src/pipeline.hh` implements a software pipeline. It runs one
thread per stage, and the stages form a ring: stage `i` consumes the output of
stage `i - 1`, and stage 0 consumes the output of the last stage. Adjacent
stages hand values over through a one-slot `latch`. A `barrier` keeps every
running stage in the same clock cycle. A stage stops once `terminate` reaches
it, either because its own function returned `terminate` or because it
received `terminate` from its predecessor. A stage whose own function returned
`terminate` keeps consuming (draining) its predecessor's latch until
`terminate` arrives there too.

This project models that core and proves properties of it:

- `tokens.dfy` (module `Tokens`) holds the latch values. A `Token` is a tagged
  datatype that replaces the `void*` sentinels `noop`, `something` and
  `terminate`. The module also holds the `unsigned int` counters with explicit
  wrap-around (`u32`, `Inc`, `Dec`).
- `latch.dfy` (module `Latches`) has class `Latch`, with the fields `slot`,
  `produced` and `noopLatch`. Its methods are proved against the pure
  handshake functions `Take` and `Put`. The busy-waits of `consume` and
  `produce` become preconditions. The module also proves properties of
  traces of handshake operations.
- `barrier.dfy` (module `Barriers`) has class `Barrier`, with the fields
  `left`, `reset` and `event`.
  - `operator()` becomes two steps, `Arrive` and `Depart`. The spin on
    `event_` between them becomes the precondition of `Depart`.
  - Lemmas cover the counter arithmetic of a round, of `leave`, and of a
    quorum that shrinks.
- `ring.dfy` (module `Topology`) covers the predecessor links that
  `add_stage` builds, and proves that they form a ring.
- `cycle.dfy` (module `Cycles`) defines one lock-step cycle of all workers as
  a function `Step` over the configuration. The configuration is made of the
  latch states, the workers' control states, the barrier and the cycle
  counter. A cycle has five phases:
  1. the running workers consume;
  2. they cross the barrier;
  3. the counter goes up;
  4. each running worker dispatches on its token, produces, and leaves the
     barrier if it stops;
  5. the draining workers consume.

  The module proves that an invariant `Inv` holds at every cycle boundary.
  `Inv` implies that no spin-wait of this schedule waits forever. The module
  also proves that:
  - termination moves one stage per cycle;
  - every worker has terminated `n - 1` cycles after the first one stopped;
  - once every worker has terminated, nothing changes any more;
  - the counter equals the number of cycles, modulo 2^32.
- `pipeline.dfy` (module `Pipelines`) has class `Pipeline`, with the
  descriptor sequence `stages`, the counter `t` and the `barrier`. It holds:
  - `AddStage`;
  - the set-up of `run` (`Prime`);
  - the workers' loop, executed phase by phase on the real latch and barrier
    objects.

  `RunCycle` proves that one cycle of these methods leaves every object
  exactly as `Step` says. `Run` proves that the whole execution is a run of
  `Step` that starts from `Start`.
- `scenario.dfy` (module `Scenarios`) works through a three-stage pipeline
  cycle by cycle. The first stage is a generator that emits two items and then
  `terminate`; the other two stages pass their input through.

## Model

| member | source | states |
|---|---|---|
| Tokens.Inc | src/pipeline.hh:286 | `++` on an unsigned int: one more, except that the largest value wraps to 0 |
| Tokens.Dec | src/pipeline.hh:143-144 | `--` on an unsigned int: one less, except that 0 wraps to the largest value |
| Tokens.IncDecInverse | src/pipeline.hh:143-162 | `Inc` and `Dec` undo each other on every 32-bit value, wrap-around included |
| Latches.Take | src/pipeline.hh:65-75 | consuming is only possible on a full latch, and leaves it empty |
| Latches.Put | src/pipeline.hh:77-84 | producing is only possible on an empty latch, and leaves it full |
| Latches.PutThenTake | src/pipeline.hh:65-84 | a consume right after `produce(x)` hands over `x` and leaves the latch empty with slot `x` |
| Latches.TakeThenPut | src/pipeline.hh:65-84 | producing back the consumed token restores the latch |
| Latches.HandshakeKeepsPlaceholder | src/pipeline.hh:65-84 | neither `consume` nor `produce` changes `noop_latch` |
| Latches.ReplayDefinedIffAlternating | src/pipeline.hh:65-84 | a sequence of consumes and produces on one latch never blocks exactly when consumes and produces alternate strictly, starting with a consume when the latch is full |
| Latches.HandshakeConservesTokens | src/pipeline.hh:65-84 | along any non-blocking sequence, the token held at the start plus the produced tokens equal the consumed tokens plus the token held at the end, in order: nothing is lost or duplicated |
| Latches.Latch.constructor | src/pipeline.hh:48-52 | a new latch is full, holds `noop` and has `noop` as its placeholder |
| Latches.Latch.Consume | src/pipeline.hh:65-75 | requires a full latch; returns the stored token and empties the latch |
| Latches.Latch.Produce | src/pipeline.hh:77-84 | requires an empty latch; stores the token and marks the latch full |
| Latches.Latch.LatchSet | src/pipeline.hh:86-89 | overwrites the slot and leaves the flag and the placeholder alone |
| Barriers.Initial | src/pipeline.hh:134-139 | `init(n)`: both counters `n`, `event_` down |
| Barriers.AfterArrive | src/pipeline.hh:149-154 | an arrival: `left_` takes one wrapping `--`, `reset_` is kept, and `event_` is up afterwards exactly when it was or `left_` reached 0 |
| Barriers.AfterDepart | src/pipeline.hh:158-166 | a departure with `event_` up: `left_` takes one wrapping `++`, `reset_` is kept, and `event_` stays up exactly when `left_` did not reach `reset_` |
| Barriers.AfterLeave | src/pipeline.hh:141-147 | `leave()`: both counters take one wrapping `--`, and `event_` is up afterwards exactly when it was or `left_` reached 0 |
| Barriers.Barrier.constructor | src/pipeline.hh:129-132 | `left_ = reset_ = 0`, `event_` false |
| Barriers.Barrier.Init | src/pipeline.hh:134-139 | `left_ = reset_ = n`, `event_` false |
| Barriers.Barrier.Leave | src/pipeline.hh:141-147 | both counters lose one, and `event_` is raised when `left_` reaches 0 |
| Barriers.Barrier.Arrive | src/pipeline.hh:149-154 | `left_` loses one, and the arrival that reaches 0 raises `event_` and is reported as the last one |
| Barriers.Barrier.Depart | src/pipeline.hh:158-166 | only once `event_` is up; `left_` gains one, and `event_` is lowered when `left_` is back at `reset_` |
| Barriers.ArrivalsCount | src/pipeline.hh:149-154 | `k` arrivals lower `left_` by `k` and keep `reset_`; `event_` is up afterwards exactly when it was up before or the `k`-th arrival reached 0 |
| Barriers.DeparturesCount | src/pipeline.hh:158-166 | `k` departures raise `left_` by `k` and keep `reset_`; `event_` stays up until `left_` is back at `reset_` |
| Barriers.LeavesCount | src/pipeline.hh:141-147 | `k` calls to `leave` lower both counters by `k`; `event_` goes up when `left_` reaches 0 |
| Barriers.LeaveNSnoc | src/pipeline.hh:141-147 | one more `leave` after `k` of them is `k + 1` of them |
| Barriers.NoEarlyRelease | src/pipeline.hh:149-160 | from rest, `event_` stays down until all `q` participants have arrived, so no participant can get past the wait early |
| Barriers.RoundRestores | src/pipeline.hh:149-167 | from rest, `q` arrivals raise `event_` with `left_ = 0`, and then `q` departures bring the barrier back to exactly where the round started |
| Barriers.Rendezvous | src/pipeline.hh:149-167 | a full round leaves a barrier at rest unchanged |
| Barriers.LeavesShrinkQuorum | src/pipeline.hh:141-167 | after `k` of the `q` participants leave, the barrier is at rest for the remaining `q - k` |
| Barriers.InitialAtRest | src/pipeline.hh:134-139 | `init(n)` with `n > 0` leaves the barrier at rest for `n` participants |
| Topology.Pred | src/pipeline.hh:197-202 | the predecessor `add_stage` records is a valid stage index |
| Topology.PredSuccInverse | src/pipeline.hh:197-202 | each stage is the predecessor of exactly one stage, its successor |
| Topology.AddLink | src/pipeline.hh:195-208 | `add_stage` appends one descriptor with index `k` and predecessor `k - 1` (0 for the first stage), re-points descriptor 0 at the new stage, and changes no other descriptor |
| Topology.AddLinkKeepsRing | src/pipeline.hh:195-208 | appending a stage to a ring gives a ring |
| Topology.RegisteredIsRing | src/pipeline.hh:195-208 | after `k` calls to `add_stage`, descriptor `i` has index `i` and predecessor `i - 1`, and descriptor 0 has predecessor `k - 1` |
| Topology.SingleStageLoopsOnItself | src/pipeline.hh:197-202 | a single stage is its own predecessor |
| Pipelines.Pipeline.constructor | src/pipeline.hh:317-320 | an empty stage list, a new barrier with zero counters, no latches yet, and the counter at 0 |
| Pipelines.Pipeline.AddStage | src/pipeline.hh:195-208 | grows the list by one; the links change as `AddLink` says, so the ring shape is kept; existing latches and functions are kept; the new stage gets the given function and a fresh latch, which is the only object added to the pipeline's latches; the same pipeline is returned for chaining |
| Pipelines.Pipeline.Prime | src/pipeline.hh:218-229 | initialises the barrier for all stages, and gives only the last stage's latch `something` as its slot and its placeholder |
| Cycles.Dispatch | src/pipeline.hh:289-312 | `noop` forwards the placeholder and keeps running; `terminate` is forwarded and stops the worker (`Terminated`), whatever the placeholder; any other token yields `f(t, x)` for the new counter `t`, and the worker drains exactly when that result is `terminate`; so a worker is `Terminated` exactly when it received `terminate` |
| Cycles.ControlBypassesStage | src/pipeline.hh:289-298 | on `noop` and `terminate` the stage function is not called: the outcome is the same for any two stage functions |
| Cycles.CountAfterLeaving | src/pipeline.hh:293-306 | the number of running workers drops by exactly the number that leave the barrier |
| Cycles.ConsumerSeesFull | src/pipeline.hh:267-274 | under the invariant, a latch is full exactly when its consumer is running, so no running worker spins forever in `consume` |
| Cycles.ConsumeReady | src/pipeline.hh:274 | under the invariant, every running worker finds its input latch full |
| Cycles.ConsumeEmptiesAll | src/pipeline.hh:272-302 | after phase 1 every latch is empty, so no `produce` of phase 4 spins forever |
| Cycles.DrainReady | src/pipeline.hh:309-310 | a worker that starts draining always finds its predecessor's latch full |
| Cycles.Inputs | src/pipeline.hh:270-274 | phase 1: a running worker receives its predecessor's slot; a worker that does not run receives nothing (`noop` stands in) |
| Cycles.AfterConsume | src/pipeline.hh:274 | phase 1: every latch whose consumer runs is emptied, and no latch's slot or placeholder changes |
| Cycles.Clock | src/pipeline.hh:286-287 | phase 3: the counter takes one wrapping `++` when some worker crossed the barrier, and stays put otherwise |
| Cycles.Outcomes | src/pipeline.hh:289-312 | phase 4: each worker's outcome is `Dispatch` of its own input, its own placeholder, its own stage function and the new counter |
| Cycles.Dispatched | src/pipeline.hh:289-312 | phase 4: a running worker moves to its outcome's mode; a draining or terminated worker keeps its mode |
| Cycles.AfterProduce | src/pipeline.hh:289-312 | phase 4: a latch is full exactly when its producer ran; a running producer's latch holds its output, the others keep their slot; no placeholder changes |
| Cycles.StopDrainers | src/pipeline.hh:309-311 | phase 5: no worker starts or stops running; a worker is terminated afterwards exactly when it was, or it was draining and the token in its predecessor's latch is `terminate` |
| Cycles.AfterDrain | src/pipeline.hh:309-310 | phase 5: a latch whose consumer drains is emptied, every other latch is as phase 4 left it, and no slot changes |
| Cycles.Drained | src/pipeline.hh:309-311 | phase 5: a worker runs afterwards exactly when it ran after dispatch, and only a worker that was draining can still be draining |
| Cycles.Step | src/pipeline.hh:267-315 | one lock-step cycle: the counter is `Clock`, and the barrier, crossed by every running worker, ends up as if only the workers that stopped had called `leave` |
| Cycles.LatchAcrossStep | src/pipeline.hh:267-315 | after a cycle a latch is full exactly when its producer ran and its consumer does not drain; it holds the producer's output; its placeholder never changes |
| Cycles.WorkerAcrossStep | src/pipeline.hh:267-315 | only a running worker can be running after a cycle; a worker that stops received `terminate` or produced it |
| Cycles.StepPreservesInv | src/pipeline.hh:267-315 | every cycle keeps the invariant: latches full exactly for running consumers, `terminate` exactly in stopped producers' latches, placeholders never `terminate`, and the barrier at rest for the running workers |
| Cycles.StageAcrossStep | src/pipeline.hh:267-315 | the per-stage part of the invariant after a cycle |
| Cycles.RunInv | src/pipeline.hh:267-315 | extracts the invariant that `IsRun` carries for configuration `k`; that the invariant holds along every run from `Start` is `StartInv`, `StepPreservesInv` and `ExtendRun` together |
| Cycles.ExtendRun | src/pipeline.hh:267-315 | a run followed by one more cycle is a run |
| Cycles.StartLatches | src/pipeline.hh:225-229 | every latch is as constructed except the last stage's, which holds `something` as its slot and as its placeholder and is full |
| Cycles.Start | src/pipeline.hh:218-229 | the state `run` starts the workers in: all `n` workers running, the latches of `StartLatches`, the barrier at rest for `n` participants, the counter at 0 |
| Cycles.StartInv | src/pipeline.hh:218-229 | the state `run` starts the workers in satisfies the invariant |
| Cycles.StoppedStaysStopped | src/pipeline.hh:299-312 | a stopped worker never runs again, and a terminated one stays terminated |
| Cycles.TerminationHops | src/pipeline.hh:293-312 | the successor of a stopped worker receives `terminate` in the next cycle and terminates |
| Cycles.AheadIsModular | src/pipeline.hh:197-202 | going `h < n` places around the ring is addition modulo `n` |
| Cycles.AheadCovers | src/pipeline.hh:197-202 | every stage is fewer than `n` places after any other stage |
| Cycles.SpreadOneCycle | src/pipeline.hh:293-312 | each cycle stops one more of the workers after a stopped one |
| Cycles.StoppedSpreads | src/pipeline.hh:293-312 | `k` cycles after worker `s` stopped, the `k` workers after it have stopped |
| Cycles.SpreadInRun | src/pipeline.hh:293-312 | the same, one cycle of a run at a time |
| Cycles.AllTerminateWithin | src/pipeline.hh:293-312 | once any worker has stopped, every worker has terminated `n - 1` cycles later, so nothing deadlocks on a stopped predecessor |
| Cycles.TerminatedIsFinal | src/pipeline.hh:299-312 | once every worker has terminated, a cycle changes nothing |
| Cycles.ClockTicks | src/pipeline.hh:269-287 | the counter goes up by exactly one in every cycle in which some worker runs, and stands still otherwise |
| Cycles.RunningBefore | src/pipeline.hh:267-315 | a worker running after a cycle was running before it |
| Cycles.RunTick | src/pipeline.hh:269-287 | the same two facts for cycle `k` of a run |
| Cycles.ClockCountsCycles | src/pipeline.hh:269-287 | while some worker runs, the counter after `k` cycles is the start value plus `k`, modulo 2^32 |
| Cycles.SingleStageStopsAfterOneCycle | src/pipeline.hh:267-315 | a single stage whose function returns `terminate` on its first input stops after exactly one cycle, with the counter at 1 and the barrier empty |
| Pipelines.Pipeline.ConsumeBy | src/pipeline.hh:270-310 | every worker in the given mode consumes its predecessor's latch; each such latch is emptied, every other latch is unchanged, and each worker gets its predecessor's slot |
| Pipelines.Pipeline.CrossBarrier | src/pipeline.hh:149-167 | the running workers' arrivals and departures leave the barrier as they found it |
| Pipelines.Pipeline.ArriveAll | src/pipeline.hh:149-154 | after all running workers have arrived, `left_` is 0 and `event_` is up |
| Pipelines.Pipeline.DepartAll | src/pipeline.hh:158-166 | after all of them have departed, the barrier is at rest again |
| Pipelines.Pipeline.Handle | src/pipeline.hh:289-312 | a running worker produces what `Dispatch` says, moves to the mode it says, and leaves the barrier exactly when it stops running |
| Pipelines.Pipeline.ProduceBy | src/pipeline.hh:289-312 | every running worker produces its dispatched output into its own latch; the others' latches are unchanged; the barrier sees one `leave` per worker that stopped |
| Pipelines.Pipeline.ProduceAt | src/pipeline.hh:289-312 | worker `i`'s turn in phase 4 extends the `Produced` invariant from workers `0..i-1` to `0..i`: if it runs, it produces its dispatched output into its own latch and calls `leave` exactly if it stops; the latches of workers after `i` are untouched; the barrier has seen one `leave` per stopped worker so far |
| Pipelines.Pipeline.StopDrained | src/pipeline.hh:309-311 | a draining worker that consumed `terminate` stops |
| Pipelines.Pipeline.TGet | src/pipeline.hh:213-216 | `t_get` returns the counter `t_`, which `Run` ties to the number of cycles run |
| Pipelines.Pipeline.Open | src/pipeline.hh:270-287 | phases 1 to 3 leave the latches, the inputs, the barrier and the counter as the pure phases say |
| Pipelines.Pipeline.Close | src/pipeline.hh:289-312 | phases 4 and 5 leave the latches, the modes and the barrier as the pure phases say |
| Pipelines.Pipeline.Cycle | src/pipeline.hh:267-315 | one cycle of the methods does what the pure phases say, and keeps the descriptors and the ring |
| Pipelines.Pipeline.RunCycle | src/pipeline.hh:267-315 | from a state satisfying the invariant, one cycle of the methods leaves the latch objects, the barrier object, the workers' modes and the counter exactly as `Step` says, and `t_` holds the counter if some worker ran |
| Pipelines.Pipeline.Run | src/pipeline.hh:218-239 | with no stage, returns without touching anything; otherwise the objects go through a run of `Step` from `Start`, which ends with every worker terminated or after `fuel` cycles, and `t_` holds the counter |
| Pipelines.Pipeline.Launch | src/pipeline.hh:218-229 | the set-up of `run` puts the objects in the state `Start` |
| Pipelines.Pipeline.Drive | src/pipeline.hh:267-315 | the workers' loops, from `Start`, are a run of `Step` |
| Pipelines.Pipeline.Advance | src/pipeline.hh:267-315 | one cycle extends the run by the configuration `Step` gives |
| Pipelines.BuildAndRun | src/main.cc:155-179 | a program can build a pipeline, register its stage functions with chained `add_stage` calls and run it on objects it owns: the links are those of `Registered`, and the run is a run of `Step` from `Start` over exactly those functions, ending with every worker terminated or out of fuel |
| Scenarios.Started | src/pipeline.hh:218-229 | three stages start in `C0`: two latches as constructed, the last one primed with `something`, all workers running, the barrier at rest for three |
| Scenarios.Cycle1 | src/pipeline.hh:289-290 | three stages: in cycle 1 the generator turns the primed `something` into the first item, and the other stages forward their placeholders |
| Scenarios.Cycle2 | src/pipeline.hh:289-302 | in cycle 2 the generator emits the second item while the first item moves on to the second stage |
| Scenarios.Produce3 | src/pipeline.hh:300-304 | in cycle 3 the generator returns `terminate` and produces it, while the second item and the first item move on |
| Scenarios.Cycle3 | src/pipeline.hh:300-311 | the generator returns `terminate`, leaves the barrier and drains |
| Scenarios.Produce4 | src/pipeline.hh:293-302 | in cycle 4 the second stage forwards `terminate` and stops, and the last stage produces the second item |
| Scenarios.Cycle4 | src/pipeline.hh:293-298 | the second stage receives `terminate`, forwards it and stops, while the last stage handles the second item |
| Scenarios.Cycle5 | src/pipeline.hh:293-311 | the last stage stops, and the draining generator consumes `terminate` and stops |
| Scenarios.FillAndDrain | src/pipeline.hh:267-315 | the three-stage run takes five cycles: some worker runs in each of them, the last stage handles the second item in cycle 4, and afterwards every worker has terminated with the counter at 5 |

## Left out

- Threads, `std::thread` creation and joining (src/pipeline.hh:231-238), the
  `spinlock` (src/pipeline.hh:99-121) and the memory orderings of the atomics
  are not modelled. The workers run in lock-step, one phase after the other,
  and within a phase in stage order. The busy-waits are preconditions, and
  the invariant proves that each of them is met when it is reached. Other
  interleavings of the threads are not covered. In particular, every `leave()`
  happens here after the whole round's departures. In the C++ code `leave()`
  takes no lock (src/pipeline.hh:141-147): a worker that has just departed and
  received `terminate` can lower `reset_` between a peer's `++left_` and that
  peer's comparison with `reset_` (src/pipeline.hh:162). If that peer made the
  last departure, nobody lowers `event_` or releases `lock_`, and the next
  `barrier_()` waits forever in `lock_.acquire()`. This reading of the code
  is not proved in Dafny. That the latch handshake makes
  every worker see the same values under any interleaving is argued, not
  proved.
- The unsynchronised write of `t_` by every thread (src/pipeline.hh:287) is a
  single write of the common counter, done once per cycle in which some worker
  runs.
- `t_` is never initialised in the C++ code. The model's constructor sets it
  to 0, and `Run` states its value only after at least one cycle. The workers'
  local `t` starts at 0, as in the source.
- The move constructor of `latch` (src/pipeline.hh:58-63) is not modelled. It
  exists only so that `std::vector` can relocate descriptors.
- `sd::f` is a `stage_type&` bound to the by-value parameter of `add_stage`
  (src/pipeline.hh:195, 246-261), so it dangles once `add_stage` returns. The
  model stores the function itself. A dangling reference has no counterpart in
  Dafny.
- A stage function takes the cycle counter as well as its input. The stages of
  src/main.cc read `t_get()` and a file. The model treats a stateful stage as
  a fixed function of the cycle and the token. Stages whose behaviour depends
  on history that the cycle number does not determine are not covered.
- Pipelines.Pipeline.Run: the C++ `run` blocks until every thread has
  returned, and it never returns if no stage ever produces `terminate`. The
  model bounds the cycles by `fuel`. `Cycles.AllTerminateWithin` proves that
  all workers terminate within `n - 1` cycles of the first stop.
- Pipelines.Pipeline.Run requires a pipeline whose latches are as constructed
  (`Pristine`). Running a pipeline a second time, which would start from the
  latches of the previous run, is not modelled.
- Pipelines.Pipeline.Run and Pipelines.Pipeline.Prime require fewer than
  2^32 stages. `barrier_.init` takes an `unsigned int`, and the C++ code
  passes a `size_t`, which it would truncate.
- `t_get` is modelled as `Pipelines.Pipeline.TGet`, a getter; the concurrent reads
  of `t_` by other threads are not modelled.
- Of src/main.cc only the build-and-run sequence is modelled
  (`Pipelines.BuildAndRun`); the rest is not part of this model: its stage bodies, its file and
  console I/O, its memory management and its report line. The report line
  (src/main.cc:185) prints `t_get() - 1`. So for the single-stage pipeline of
  `Cycles.SingleStageStopsAfterOneCycle`, whose counter ends at 1, the code
  reports 0 cycles rather than 1. The model follows the code.
