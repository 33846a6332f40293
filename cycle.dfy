/**
 * One lock-step cycle of the whole pipeline, as a function of the state of
 * every latch, every worker and the barrier.
 *
 * In the C++ code each stage runs `operator()(sd_type&)` on its own thread.
 * The barrier keeps all running workers in the same cycle, so a cycle can be
 * stated as one synchronous step made of the worker loop's phases:
 *   1. every running worker consumes its predecessor's latch;
 *   2. the running workers cross the barrier together;
 *   3. the cycle counter goes up by one;
 *   4. every running worker dispatches on the token it received, produces
 *      its output, and leaves the barrier if it stops;
 *   5. every draining worker consumes (and discards) its predecessor's
 *      latch; it stops once that token is `terminate`.
 */
module Cycles {
  import opened Tokens
  import opened Latches
  import opened Barriers
  import opened Topology

  /** The control state of a worker loop: in the `do … while` loop, in the
      consume-and-discard loop after its own stage returned `terminate`, or
      returned from the thread function. */
  datatype Mode = Running | Draining | Terminated

  /** A stage's function, given the cycle in which it is called (the stages
      may read the cycle counter) and the token it received. */
  type StageFn = (u32, Token) -> Token

  /** The output a worker produces and the control state it moves to. */
  datatype Outcome = Outcome(out: Token, mode: Mode)

  /** What a running worker does with the token `x` it consumed:
      `noop` forwards the placeholder without calling the stage,
      `terminate` is forwarded and stops the worker without calling it,
      anything else goes through the stage, whose `terminate` sends the
      worker into draining. */
  function Dispatch(x: Token, placeholder: Token, f: StageFn, t: u32): (r: Outcome)
    ensures x == Noop ==> r == Outcome(placeholder, Running)
    ensures x == Terminate ==> r == Outcome(Terminate, Terminated)
    ensures x != Noop && x != Terminate ==>
      r.out == f(t, x) && r.mode != Terminated && (r.mode == Draining <==> r.out == Terminate)
    ensures r.mode == Terminated <==> x == Terminate
    ensures r.mode == Draining ==> x != Noop && x != Terminate && r.out == Terminate
    ensures placeholder != Terminate ==> (r.mode == Running <==> r.out != Terminate)
  {
    if x == Noop then Outcome(placeholder, Running)
    else if x == Terminate then Outcome(Terminate, Terminated)
    else
      var y := f(t, x);
      Outcome(y, if y == Terminate then Draining else Running)
  }

  /** `noop` and `terminate` never reach the stage function: what a worker
      does with them does not depend on its stage. */
  lemma ControlBypassesStage(x: Token, placeholder: Token, f: StageFn, g: StageFn, t: u32)
    requires x == Noop || x == Terminate
    ensures Dispatch(x, placeholder, f, t) == Dispatch(x, placeholder, g, t)
  {
  }

  /** The state of the whole pipeline between two cycles. `t` is the
      workers' cycle count (the local `t` of every worker, which they all
      agree on, and which each writes to `t_`). */
  datatype Config = Config(latches: seq<LatchState>, modes: seq<Mode>, bar: BarrierState, t: u32)

  /** Number of running workers. */
  function CountRunning(ms: seq<Mode>): (r: nat)
    ensures r <= |ms|
  {
    if ms == [] then 0
    else CountRunning(ms[..|ms| - 1]) + (if ms[|ms| - 1] == Running then 1 else 0)
  }

  /** Number of workers running in `ms` and no longer running in `ms'`. */
  function Leavers(ms: seq<Mode>, ms': seq<Mode>): (r: nat)
    requires |ms| == |ms'|
    ensures r <= |ms|
  {
    if ms == [] then 0
    else
      Leavers(ms[..|ms| - 1], ms'[..|ms| - 1])
        + (if ms[|ms| - 1] == Running && ms'[|ms| - 1] != Running then 1 else 0)
  }

  /** Workers that only ever stop: the running count drops by the leavers. */
  lemma {:induction false} CountAfterLeaving(ms: seq<Mode>, ms': seq<Mode>)
    requires |ms| == |ms'|
    requires forall i :: 0 <= i < |ms| && ms'[i] == Running ==> ms[i] == Running
    ensures CountRunning(ms') + Leavers(ms, ms') == CountRunning(ms)
  {
    if ms != [] {
      var k := |ms| - 1;
      CountAfterLeaving(ms[..k], ms'[..k]);
    }
  }

  /** The running count depends only on which workers run. */
  lemma {:induction false} CountSameRunning(ms: seq<Mode>, ms': seq<Mode>)
    requires |ms| == |ms'|
    requires forall i :: 0 <= i < |ms| ==> (ms[i] == Running <==> ms'[i] == Running)
    ensures CountRunning(ms) == CountRunning(ms')
  {
    if ms != [] {
      var k := |ms| - 1;
      CountSameRunning(ms[..k], ms'[..k]);
    }
  }

  ghost predicate WellSized(c: Config)
  {
    0 < |c.modes| < 0x1_0000_0000 && |c.latches| == |c.modes|
  }

  /** What the invariant says about worker `i` and its input latch:
      the latch is full exactly when the worker runs; a draining worker's
      predecessor still runs; a terminated worker's predecessor has
      stopped. */
  ghost predicate StageOk(c: Config, i: nat)
    requires WellSized(c) && i < |c.modes|
  {
    var j := Pred(i, |c.modes|);
    && (c.latches[j].produced <==> c.modes[i] == Running)
    && (c.modes[i] == Draining ==> c.modes[j] == Running)
    && (c.modes[i] == Terminated ==> c.modes[j] != Running)
  }

  /** What the invariant says about latch `j`: when full, it holds
      `terminate` exactly when its producer has stopped; its placeholder is
      never `terminate`. */
  ghost predicate LatchOk(c: Config, j: nat)
    requires WellSized(c) && j < |c.modes|
  {
    && (c.latches[j].produced ==> (c.latches[j].slot == Terminate <==> c.modes[j] != Running))
    && c.latches[j].noopLatch != Terminate
  }

  /** The invariant every cycle boundary satisfies: every stage and every
      latch is as above, and the barrier is at rest for the running
      workers. */
  ghost predicate Inv(c: Config)
  {
    && WellSized(c)
    && AtRest(c.bar, CountRunning(c.modes) as u32)
    && (forall i :: 0 <= i < |c.modes| ==> StageOk(c, i))
    && (forall j :: 0 <= j < |c.modes| ==> LatchOk(c, j))
  }

  /** Latch `j` is consumed by a running worker exactly when it is full. */
  lemma ConsumerSeesFull(c: Config, j: nat)
    requires Inv(c) && j < |c.modes|
    ensures c.latches[j].produced <==> c.modes[Succ(j, |c.modes|)] == Running
  {
    PredSuccInverse(j, |c.modes|);
    assert StageOk(c, Succ(j, |c.modes|));
  }

  // ---------------------------------------------------------------------
  // The phases of a cycle.

  /** Phase 1: what each running worker consumes (`noop` stands in for the
      workers that consume nothing). */
  function Inputs(c: Config): (r: seq<Token>)
    requires WellSized(c)
    ensures |r| == |c.modes|
    ensures forall i :: 0 <= i < |r| && c.modes[i] == Running ==> r[i] == c.latches[Pred(i, |r|)].slot
    ensures forall i :: 0 <= i < |r| && c.modes[i] != Running ==> r[i] == Noop
  {
    var n := |c.modes|;
    seq(n, i requires 0 <= i < n =>
      if c.modes[i] == Running then c.latches[Pred(i, n)].slot else Noop)
  }

  /** Every latch whose consumer is in mode `m` is consumed. */
  function TakeBy(ls: seq<LatchState>, ms: seq<Mode>, m: Mode): (r: seq<LatchState>)
    requires 0 < |ms| && |ls| == |ms|
    requires forall j :: 0 <= j < |ms| && ms[Succ(j, |ms|)] == m ==> ls[j].produced
    ensures |r| == |ls|
  {
    var n := |ms|;
    seq(n, j requires 0 <= j < n => if ms[Succ(j, n)] == m then Take(ls[j]) else ls[j])
  }

  /** Every running worker produces its output into its own latch. */
  function PutBy(ls: seq<LatchState>, ms: seq<Mode>, outs: seq<Outcome>): (r: seq<LatchState>)
    requires |ls| == |ms| == |outs|
    requires forall j :: 0 <= j < |ms| && ms[j] == Running ==> !ls[j].produced
    ensures |r| == |ls|
  {
    seq(|ls|, j requires 0 <= j < |ls| => if ms[j] == Running then Put(ls[j], outs[j].out) else ls[j])
  }

  /** Every running worker finds its input waiting. */
  lemma ConsumeReady(c: Config)
    requires Inv(c)
    ensures forall j :: 0 <= j < |c.modes| && c.modes[Succ(j, |c.modes|)] == Running ==> c.latches[j].produced
  {
    forall j | 0 <= j < |c.modes| {
      ConsumerSeesFull(c, j);
    }
  }

  /** Phase 1: the latches once every running worker has consumed. */
  function AfterConsume(c: Config): (r: seq<LatchState>)
    requires Inv(c)
    ensures |r| == |c.latches|
    ensures forall j :: 0 <= j < |r| && c.modes[Succ(j, |r|)] == Running ==> !r[j].produced
    ensures forall j :: 0 <= j < |r| ==> r[j].slot == c.latches[j].slot && r[j].noopLatch == c.latches[j].noopLatch
  {
    ConsumeReady(c);
    TakeBy(c.latches, c.modes, Running)
  }

  /** Phase 3: the workers' counter after crossing the barrier. */
  function Clock(c: Config): (r: u32)
    ensures CountRunning(c.modes) > 0 ==> r == Inc(c.t)
    ensures CountRunning(c.modes) == 0 ==> r == c.t
  {
    if CountRunning(c.modes) > 0 then Inc(c.t) else c.t
  }

  /** Phase 4: what every worker would do with its input. */
  function Outcomes(c: Config, fs: seq<StageFn>): (r: seq<Outcome>)
    requires WellSized(c) && |fs| == |c.modes|
    ensures |r| == |c.modes|
    ensures forall i :: 0 <= i < |r| ==> r[i] == Dispatch(Inputs(c)[i], c.latches[i].noopLatch, fs[i], Clock(c))
  {
    var n := |c.modes|;
    var inputs := Inputs(c);
    seq(n, i requires 0 <= i < n =>
      Dispatch(inputs[i], c.latches[i].noopLatch, fs[i], Clock(c)))
  }

  /** Phase 4: the control states after dispatch. */
  function Dispatched(c: Config, fs: seq<StageFn>): (r: seq<Mode>)
    requires WellSized(c) && |fs| == |c.modes|
    ensures |r| == |c.modes|
    ensures forall i :: 0 <= i < |r| && c.modes[i] == Running ==> r[i] == Outcomes(c, fs)[i].mode
    ensures forall i :: 0 <= i < |r| && c.modes[i] != Running ==> r[i] == c.modes[i]
  {
    var n := |c.modes|;
    var outs := Outcomes(c, fs);
    seq(n, i requires 0 <= i < n =>
      if c.modes[i] == Running then outs[i].mode else c.modes[i])
  }

  /** After phase 1 every latch is empty. */
  lemma ConsumeEmptiesAll(c: Config)
    requires Inv(c)
    ensures forall j :: 0 <= j < |c.modes| ==> !AfterConsume(c)[j].produced
  {
    forall j | 0 <= j < |c.modes| {
      ConsumerSeesFull(c, j);
    }
  }

  /** Phase 4: the latches once every running worker has produced. */
  function AfterProduce(c: Config, fs: seq<StageFn>): (r: seq<LatchState>)
    requires Inv(c) && |fs| == |c.modes|
    ensures |r| == |c.latches|
    ensures forall j :: 0 <= j < |r| ==> (r[j].produced <==> c.modes[j] == Running)
    ensures forall j :: 0 <= j < |r| && c.modes[j] == Running ==> r[j].slot == Outcomes(c, fs)[j].out
    ensures forall j :: 0 <= j < |r| && c.modes[j] != Running ==> r[j].slot == c.latches[j].slot
    ensures forall j :: 0 <= j < |r| ==> r[j].noopLatch == c.latches[j].noopLatch
  {
    ConsumeEmptiesAll(c);
    PutBy(AfterConsume(c), c.modes, Outcomes(c, fs))
  }

  /** A worker draining after phase 4 always finds its predecessor's
      latch full. */
  lemma DrainReady(c: Config, fs: seq<StageFn>)
    requires Inv(c) && |fs| == |c.modes|
    ensures forall j :: 0 <= j < |c.modes| && Dispatched(c, fs)[Succ(j, |c.modes|)] == Draining ==>
      AfterProduce(c, fs)[j].produced
  {
    var n := |c.modes|;
    forall j | 0 <= j < n && Dispatched(c, fs)[Succ(j, n)] == Draining
      ensures AfterProduce(c, fs)[j].produced
    {
      var s := Succ(j, n);
      PredSuccInverse(j, n);
      assert StageOk(c, s) && LatchOk(c, j);
      ConsumeEmptiesAll(c);
      if c.modes[s] == Running {
        assert Inputs(c)[s] == c.latches[j].slot;
      }
    }
  }

  /** Phase 5: the latches once every draining worker has consumed. */
  function AfterDrain(c: Config, fs: seq<StageFn>): (r: seq<LatchState>)
    requires Inv(c) && |fs| == |c.modes|
    ensures |r| == |c.latches|
    ensures forall j :: 0 <= j < |r| && Dispatched(c, fs)[Succ(j, |r|)] == Draining ==> !r[j].produced
    ensures forall j :: 0 <= j < |r| && Dispatched(c, fs)[Succ(j, |r|)] != Draining ==> r[j] == AfterProduce(c, fs)[j]
    ensures forall j :: 0 <= j < |r| ==> r[j].slot == AfterProduce(c, fs)[j].slot
  {
    DrainReady(c, fs);
    TakeBy(AfterProduce(c, fs), Dispatched(c, fs), Draining)
  }

  /** Phase 5: a draining worker stops once the token it consumed from its
      predecessor's latch is `terminate`. */
  function StopDrainers(ms: seq<Mode>, ls: seq<LatchState>): (r: seq<Mode>)
    requires 0 < |ms| && |ls| == |ms|
    ensures |r| == |ms|
    ensures forall i :: 0 <= i < |r| ==> (r[i] == Running <==> ms[i] == Running)
    ensures forall i :: 0 <= i < |r| ==>
      (r[i] == Terminated <==> ms[i] == Terminated || (ms[i] == Draining && ls[Pred(i, |r|)].slot == Terminate))
  {
    var n := |ms|;
    seq(n, i requires 0 <= i < n =>
      if ms[i] == Draining && ls[Pred(i, n)].slot == Terminate then Terminated else ms[i])
  }

  /** Phase 5: the control states once the draining workers have seen
      what they consumed. */
  function Drained(c: Config, fs: seq<StageFn>): (r: seq<Mode>)
    requires Inv(c) && |fs| == |c.modes|
    ensures |r| == |c.modes|
    ensures forall i :: 0 <= i < |r| ==> (r[i] == Running <==> Dispatched(c, fs)[i] == Running)
    ensures forall i :: 0 <= i < |r| && r[i] == Draining ==> Dispatched(c, fs)[i] == Draining
  {
    StopDrainers(Dispatched(c, fs), AfterProduce(c, fs))
  }

  /** One lock-step cycle. */
  function Step(c: Config, fs: seq<StageFn>): (r: Config)
    requires Inv(c) && |fs| == |c.modes|
    ensures |r.modes| == |c.modes| && |r.latches| == |c.latches|
    ensures r.t == Clock(c)
    ensures r.bar == LeaveN(c.bar, Leavers(c.modes, Dispatched(c, fs)))
  {
    var q := CountRunning(c.modes) as u32;
    var b1 := Rendezvous(c.bar, q);
    var b2 := LeaveN(b1, Leavers(c.modes, Dispatched(c, fs)));
    Config(AfterDrain(c, fs), Drained(c, fs), b2, Clock(c))
  }

  // ---------------------------------------------------------------------
  // The phases of a cycle, named one by one, as the pipeline's methods
  // carry them out.

  /** What each phase of a cycle leaves behind: the latches after phase 1,
      what the workers consumed, what they would do with it, the latches
      and control states after phase 4, and after phase 5. */
  datatype Phases = Phases(
    l1: seq<LatchState>, inputs: seq<Token>, outs: seq<Outcome>,
    l4: seq<LatchState>, m4: seq<Mode>, l5: seq<LatchState>, m5: seq<Mode>)

  /** `p` is the cycle that starts from latches `ls` and control states
      `ms`, with stage functions `fs` called in cycle `clock`, phase by
      phase and worker by worker. */
  ghost predicate PhasesOf(ls: seq<LatchState>, ms: seq<Mode>, clock: u32, fs: seq<StageFn>, p: Phases)
  {
    var n := |ms|;
    && 0 < n && |ls| == n && |fs| == n
    && |p.l1| == n && |p.inputs| == n && |p.outs| == n && |p.l4| == n
    && |p.m4| == n && |p.l5| == n && |p.m5| == n
    // phase 1
    && (forall j {:trigger ls[j]} :: 0 <= j < n && ms[Succ(j, n)] == Running ==> ls[j].produced)
    && (forall j {:trigger p.l1[j]} :: 0 <= j < n ==> p.l1[j] == if ms[Succ(j, n)] == Running then Take(ls[j]) else ls[j])
    && (forall i {:trigger p.inputs[i]} :: 0 <= i < n ==> p.inputs[i] == if ms[i] == Running then ls[Pred(i, n)].slot else Noop)
    // phase 4
    && (forall j {:trigger p.l1[j]} :: 0 <= j < n && ms[j] == Running ==> !p.l1[j].produced)
    && (forall i {:trigger p.outs[i]} :: 0 <= i < n && ms[i] == Running ==>
          p.outs[i] == Dispatch(p.inputs[i], p.l1[i].noopLatch, fs[i], clock))
    && (forall j {:trigger p.l4[j]} :: 0 <= j < n ==> p.l4[j] == if ms[j] == Running then Put(p.l1[j], p.outs[j].out) else p.l1[j])
    && (forall i {:trigger p.m4[i]} :: 0 <= i < n ==> p.m4[i] == if ms[i] == Running then p.outs[i].mode else ms[i])
    // phase 5
    && (forall j {:trigger p.l4[j]} :: 0 <= j < n && p.m4[Succ(j, n)] == Draining ==> p.l4[j].produced)
    && (forall j {:trigger p.l5[j]} :: 0 <= j < n ==> p.l5[j] == if p.m4[Succ(j, n)] == Draining then Take(p.l4[j]) else p.l4[j])
    && (forall i {:trigger p.m5[i]} :: 0 <= i < n ==>
          p.m5[i] == if p.m4[i] == Draining && p.l4[Pred(i, n)].slot == Terminate then Terminated else p.m4[i])
  }

  /** A cycle from a configuration satisfying the invariant, phase by
      phase: every spin-wait of every phase finds its latch ready, and the
      phases add up to `Step`. */
  lemma StepPhases(c: Config, fs: seq<StageFn>) returns (p: Phases)
    requires Inv(c) && |fs| == |c.modes|
    ensures PhasesOf(c.latches, c.modes, Clock(c), fs, p)
    ensures Step(c, fs) == Config(p.l5, p.m5, LeaveN(c.bar, Leavers(c.modes, p.m4)), Clock(c))
  {
    ConsumeReady(c);
    ConsumeEmptiesAll(c);
    DrainReady(c, fs);
    p := Phases(AfterConsume(c), Inputs(c), Outcomes(c, fs), AfterProduce(c, fs), Dispatched(c, fs),
                AfterDrain(c, fs), Drained(c, fs));
  }

  /** The running count never decreases along a prefix. */
  lemma {:induction false} CountPrefix(ms: seq<Mode>, k: nat)
    requires k <= |ms|
    ensures CountRunning(ms[..k]) <= CountRunning(ms)
    decreases |ms|
  {
    if k < |ms| {
      var p := ms[..|ms| - 1];
      CountPrefix(p, k);
      assert p[..k] == ms[..k];
    } else {
      assert ms[..k] == ms;
    }
  }

  // ---------------------------------------------------------------------
  // The invariant is kept by every cycle.

  /** Latch `j` across a cycle: full afterwards exactly when its producer
      ran and its consumer does not drain; a running producer's output is
      in it; the placeholder never changes. */
  lemma LatchAcrossStep(c: Config, fs: seq<StageFn>, j: nat)
    requires Inv(c) && |fs| == |c.modes| && j < |c.modes|
    ensures AfterProduce(c, fs)[j].produced <==> c.modes[j] == Running
    ensures c.modes[j] == Running ==> AfterProduce(c, fs)[j].slot == Outcomes(c, fs)[j].out
    ensures Step(c, fs).latches[j].produced <==>
      c.modes[j] == Running && Dispatched(c, fs)[Succ(j, |c.modes|)] != Draining
    ensures Step(c, fs).latches[j].slot == AfterProduce(c, fs)[j].slot
    ensures Step(c, fs).latches[j].noopLatch == c.latches[j].noopLatch
  {
    ConsumeEmptiesAll(c);
    DrainReady(c, fs);
  }

  /** Worker `i` across a cycle: only a running worker can be running
      afterwards, and phase 5 never stops a worker that phase 4 left
      running. */
  lemma WorkerAcrossStep(c: Config, fs: seq<StageFn>, i: nat)
    requires Inv(c) && |fs| == |c.modes| && i < |c.modes|
    ensures Dispatched(c, fs)[i] == Running ==> c.modes[i] == Running
    ensures c.modes[i] != Running ==> Dispatched(c, fs)[i] == c.modes[i]
    ensures Step(c, fs).modes[i] == Running <==> Dispatched(c, fs)[i] == Running
    ensures Step(c, fs).modes[i] == Draining ==> Dispatched(c, fs)[i] == Draining
    ensures c.modes[i] == Running ==>
      c.latches[Pred(i, |c.modes|)].produced && Inputs(c)[i] == c.latches[Pred(i, |c.modes|)].slot
    ensures Dispatched(c, fs)[i] != Running ==> c.modes[i] != Running || Outcomes(c, fs)[i].out == Terminate
  {
    assert StageOk(c, i) && LatchOk(c, i);
  }

  /** Every cycle keeps the invariant: no spin-wait of the lock-step
      schedule ever waits for a token that will not come. */
  lemma StepPreservesInv(c: Config, fs: seq<StageFn>)
    requires Inv(c) && |fs| == |c.modes|
    ensures Inv(Step(c, fs))
  {
    var n := |c.modes|;
    var c' := Step(c, fs);
    var m4 := Dispatched(c, fs);
    var l4 := AfterProduce(c, fs);

    // the barrier
    var q := CountRunning(c.modes);
    var k := Leavers(c.modes, m4);
    forall i | 0 <= i < n && m4[i] == Running ensures c.modes[i] == Running {
      WorkerAcrossStep(c, fs, i);
    }
    CountAfterLeaving(c.modes, m4);
    forall i | 0 <= i < n ensures m4[i] == Running <==> c'.modes[i] == Running {
      WorkerAcrossStep(c, fs, i);
    }
    CountSameRunning(m4, c'.modes);
    LeavesShrinkQuorum(c.bar, q as u32, k);

    forall i | 0 <= i < n ensures StageOk(c', i) {
      StageAcrossStep(c, fs, i);
    }
    forall j | 0 <= j < n ensures LatchOk(c', j) {
      LatchAcrossStep(c, fs, j);
      WorkerAcrossStep(c, fs, j);
      assert LatchOk(c, j);
    }
  }

  /** The per-stage part of the invariant after a cycle. */
  lemma StageAcrossStep(c: Config, fs: seq<StageFn>, i: nat)
    requires Inv(c) && |fs| == |c.modes| && i < |c.modes|
    ensures StageOk(Step(c, fs), i)
  {
    var n := |c.modes|;
    var c' := Step(c, fs);
    var j := Pred(i, n);
    var l4 := AfterProduce(c, fs);
    PredSuccInverse(i, n);
    LatchAcrossStep(c, fs, j);
    WorkerAcrossStep(c, fs, i);
    WorkerAcrossStep(c, fs, j);
    assert StageOk(c, i) && LatchOk(c, j);
    DrainReady(c, fs);
    if c.modes[i] == Running {
      assert Inputs(c)[i] == c.latches[j].slot;
    }
    // (a) the input latch is full exactly when the worker runs
    assert c'.latches[j].produced <==> c'.modes[i] == Running;
    // (c) a draining worker's predecessor still runs
    if c'.modes[i] == Draining {
      assert l4[j].slot != Terminate;
    }
  }

  // ---------------------------------------------------------------------
  // Runs of cycles.

  /** A run: a sequence of configurations, each one cycle after the one
      before it, all satisfying the invariant. */
  ghost predicate Follows(cs: seq<Config>, fs: seq<StageFn>, k: nat)
    requires k < |cs|
  {
    Inv(cs[k]) && |fs| == |cs[k].modes| &&
    (k > 0 ==> Inv(cs[k - 1]) && |fs| == |cs[k - 1].modes| && cs[k] == Step(cs[k - 1], fs))
  }

  ghost predicate IsRun(cs: seq<Config>, fs: seq<StageFn>)
  {
    0 < |cs| && forall k :: 0 <= k < |cs| ==> Follows(cs, fs, k)
  }

  /** Every configuration of a run satisfies the invariant. */
  lemma RunInv(cs: seq<Config>, fs: seq<StageFn>, k: nat)
    requires IsRun(cs, fs) && k < |cs|
    ensures Inv(cs[k]) && |fs| == |cs[k].modes|
  {
    assert Follows(cs, fs, k);
  }

  /** A run grows by one cycle at a time. */
  lemma ExtendRun(cs: seq<Config>, fs: seq<StageFn>)
    requires IsRun(cs, fs)
    ensures Inv(cs[|cs| - 1]) && |fs| == |cs[|cs| - 1].modes|
    ensures IsRun(cs + [Step(cs[|cs| - 1], fs)], fs)
  {
    var last := cs[|cs| - 1];
    assert Follows(cs, fs, |cs| - 1);
    StepPreservesInv(last, fs);
    var cs' := cs + [Step(last, fs)];
    forall k | 0 <= k < |cs'| ensures Follows(cs', fs, k) {
      if k < |cs| {
        assert Follows(cs, fs, k);
      }
    }
  }

  /** Every latch full and every worker running, except that the last
      stage's latch holds `something`, also as its placeholder: the state
      `run` starts the workers in. */
  function StartLatches(n: nat): (r: seq<LatchState>)
    requires n > 0
    ensures |r| == n
    ensures forall j :: 0 <= j < n - 1 ==> r[j] == Fresh
    ensures r[n - 1] == LatchState(Something, true, Something)
  {
    seq(n, j requires 0 <= j < n =>
      if j == n - 1 then LatchState(Something, true, Something) else Fresh)
  }

  /** The state `run` starts the workers in. */
  function Start(n: nat): (c: Config)
    requires 0 < n < 0x1_0000_0000
    ensures |c.modes| == n && forall i :: 0 <= i < n ==> c.modes[i] == Running
    ensures c.latches == StartLatches(n)
    ensures AtRest(c.bar, n as u32) && c.t == 0
  {
    Config(StartLatches(n), seq(n, _ => Running), Initial(n as u32), 0)
  }

  predicate AnyRunning(ms: seq<Mode>)
  {
    exists i :: 0 <= i < |ms| && ms[i] == Running
  }

  predicate AllTerminated(ms: seq<Mode>)
  {
    forall i :: 0 <= i < |ms| ==> ms[i] == Terminated
  }

  /** Some worker runs exactly when the running count is positive. */
  lemma {:induction false} CountPositive(ms: seq<Mode>)
    ensures CountRunning(ms) > 0 <==> AnyRunning(ms)
  {
    if ms != [] {
      var k := |ms| - 1;
      CountPositive(ms[..k]);
      if AnyRunning(ms[..k]) {
        var i :| 0 <= i < k && ms[..k][i] == Running;
        assert ms[i] == Running;
      }
      if AnyRunning(ms) && ms[k] != Running {
        var i :| 0 <= i < |ms| && ms[i] == Running;
        assert ms[..k][i] == Running;
      }
    }
  }

  /** With every worker running, all of them count. */
  lemma {:induction false} CountAllRunning(ms: seq<Mode>)
    requires forall i :: 0 <= i < |ms| ==> ms[i] == Running
    ensures CountRunning(ms) == |ms|
  {
    if ms != [] {
      CountAllRunning(ms[..|ms| - 1]);
    }
  }

  /** `run` starts the workers in a state that satisfies the invariant. */
  lemma StartInv(n: nat)
    requires 0 < n < 0x1_0000_0000
    ensures Inv(Start(n))
  {
    var c := Start(n);
    CountAllRunning(c.modes);
    forall i | 0 <= i < n ensures StageOk(c, i) {
    }
    forall j | 0 <= j < n ensures LatchOk(c, j) {
    }
  }

  /** A worker that has stopped never runs again, and a terminated one
      stays terminated. */
  lemma StoppedStaysStopped(c: Config, fs: seq<StageFn>, i: nat)
    requires Inv(c) && |fs| == |c.modes| && i < |c.modes|
    requires c.modes[i] != Running
    ensures Step(c, fs).modes[i] != Running
    ensures c.modes[i] == Terminated ==> Step(c, fs).modes[i] == Terminated
  {
    WorkerAcrossStep(c, fs, i);
  }

  /** Termination moves one stage per cycle: the successor of a stopped
      worker consumes `terminate` in the next cycle and stops. */
  lemma TerminationHops(c: Config, fs: seq<StageFn>, s: nat)
    requires Inv(c) && |fs| == |c.modes| && s < |c.modes|
    requires c.modes[s] != Running
    ensures Step(c, fs).modes[Succ(s, |c.modes|)] != Running
    ensures c.modes[Succ(s, |c.modes|)] == Running ==>
      Inputs(c)[Succ(s, |c.modes|)] == Terminate && Step(c, fs).modes[Succ(s, |c.modes|)] == Terminated
  {
    var n := |c.modes|;
    var i := Succ(s, n);
    PredSuccInverse(s, n);
    WorkerAcrossStep(c, fs, i);
    assert StageOk(c, i) && LatchOk(c, s);
  }

  /** The stage `h` places after `s` around the ring. */
  function Ahead(s: nat, h: nat, n: nat): (r: nat)
    requires s < n
    ensures r < n
    decreases h
  {
    if h == 0 then s else Succ(Ahead(s, h - 1, n), n)
  }

  /** Going `h < n` places around the ring is addition modulo `n`. */
  lemma {:induction false} AheadIsModular(s: nat, h: nat, n: nat)
    requires s < n && h < n
    ensures Ahead(s, h, n) == if s + h < n then s + h else s + h - n
    decreases h
  {
    if h > 0 {
      AheadIsModular(s, h - 1, n);
    }
  }

  /** Every stage is at most `n - 1` places after `s`. */
  lemma AheadCovers(s: nat, i: nat, n: nat)
    requires s < n && i < n
    ensures exists h :: 0 <= h < n && Ahead(s, h, n) == i
  {
    var h := if s <= i then i - s else i + n - s;
    AheadIsModular(s, h, n);
  }

  /** The worker `s` and the `k` workers after it have stopped. */
  ghost predicate StoppedAhead(ms: seq<Mode>, s: nat, k: nat)
    requires s < |ms|
  {
    forall h :: 0 <= h <= k ==> ms[Ahead(s, h, |ms|)] != Running
  }

  /** One more cycle stops one more worker after `s`. */
  lemma SpreadOneCycle(p: Config, fs: seq<StageFn>, s: nat, k: nat)
    requires Inv(p) && |fs| == |p.modes| && s < |p.modes|
    requires StoppedAhead(p.modes, s, k)
    ensures StoppedAhead(Step(p, fs).modes, s, k + 1)
  {
    var n := |p.modes|;
    forall h | 0 <= h <= k + 1
      ensures Step(p, fs).modes[Ahead(s, h, n)] != Running
    {
      if h <= k {
        StoppedStaysStopped(p, fs, Ahead(s, h, n));
      } else {
        TerminationHops(p, fs, Ahead(s, h - 1, n));
      }
    }
  }

  /** `k` cycles after worker `s` stopped, the `k` workers after it have
      stopped too. */
  lemma {:induction false} StoppedSpreads(cs: seq<Config>, fs: seq<StageFn>, s: nat, k: nat)
    requires IsRun(cs, fs) && k < |cs| && s < |cs[0].modes|
    requires cs[0].modes[s] != Running
    ensures s < |cs[k].modes| && StoppedAhead(cs[k].modes, s, k)
    decreases k
  {
    if k == 0 {
      assert Follows(cs, fs, 0);
    } else {
      StoppedSpreads(cs, fs, s, k - 1);
      SpreadInRun(cs, fs, s, k);
    }
  }

  /** `SpreadOneCycle` for the `k`-th cycle of a run. */
  lemma SpreadInRun(cs: seq<Config>, fs: seq<StageFn>, s: nat, k: nat)
    requires IsRun(cs, fs) && 0 < k < |cs| && s < |cs[k - 1].modes|
    requires StoppedAhead(cs[k - 1].modes, s, k - 1)
    ensures s < |cs[k].modes| && StoppedAhead(cs[k].modes, s, k)
  {
    assert Follows(cs, fs, k);
    SpreadOneCycle(cs[k - 1], fs, s, k - 1);
  }

  /** Drain completeness: once any worker has stopped, every worker has
      terminated `n - 1` cycles later. */
  lemma AllTerminateWithin(cs: seq<Config>, fs: seq<StageFn>, s: nat)
    requires IsRun(cs, fs) && s < |cs[0].modes| && |cs[0].modes| <= |cs|
    requires cs[0].modes[s] != Running
    ensures AllTerminated(cs[|cs[0].modes| - 1].modes)
  {
    var n := |cs[0].modes|;
    var r := cs[n - 1];
    RunInv(cs, fs, 0);
    RunInv(cs, fs, n - 1);
    StoppedSpreads(cs, fs, s, n - 1);
    forall i | 0 <= i < n ensures r.modes[i] != Running {
      AheadCovers(s, i, n);
      var h :| 0 <= h < n && Ahead(s, h, n) == i;
    }
    forall i | 0 <= i < n ensures r.modes[i] == Terminated {
      assert StageOk(r, i);
    }
  }

  /** Once every worker has terminated, a cycle changes nothing: nobody
      consumes, produces, crosses the barrier or counts. */
  lemma TerminatedIsFinal(c: Config, fs: seq<StageFn>)
    requires Inv(c) && |fs| == |c.modes| && AllTerminated(c.modes)
    ensures Step(c, fs) == c
  {
    var n := |c.modes|;
    CountPositive(c.modes);
    forall j | 0 <= j < n ensures Step(c, fs).latches[j] == c.latches[j] {
      LatchAcrossStep(c, fs, j);
      ConsumerSeesFull(c, j);
    }
    forall i | 0 <= i < n ensures Step(c, fs).modes[i] == c.modes[i] {
      WorkerAcrossStep(c, fs, i);
    }
    CountAfterLeaving(c.modes, Dispatched(c, fs));
  }

  /** The counter goes up by exactly one in every cycle in which some worker
      still runs (wrapping like an unsigned int), and stands still once all
      have stopped. */
  lemma ClockTicks(c: Config, fs: seq<StageFn>)
    requires Inv(c) && |fs| == |c.modes|
    ensures AnyRunning(c.modes) ==> Step(c, fs).t == Inc(c.t)
    ensures !AnyRunning(c.modes) ==> Step(c, fs).t == c.t
  {
    CountPositive(c.modes);
  }

  /** A worker running after a cycle was running before it. */
  lemma RunningBefore(c: Config, fs: seq<StageFn>)
    requires Inv(c) && |fs| == |c.modes|
    ensures AnyRunning(Step(c, fs).modes) ==> AnyRunning(c.modes)
  {
    if AnyRunning(Step(c, fs).modes) {
      var i :| 0 <= i < |c.modes| && Step(c, fs).modes[i] == Running;
      WorkerAcrossStep(c, fs, i);
    }
  }

  /** Cycle `k` of a run, seen from the counter: it ticks when some worker
      ran before the cycle, and nobody runs after it who did not before. */
  lemma RunTick(cs: seq<Config>, fs: seq<StageFn>, k: nat)
    requires IsRun(cs, fs) && 0 < k < |cs|
    ensures AnyRunning(cs[k - 1].modes) ==> cs[k].t == Inc(cs[k - 1].t)
    ensures AnyRunning(cs[k].modes) ==> AnyRunning(cs[k - 1].modes)
  {
    assert Follows(cs, fs, k);
    ClockTicks(cs[k - 1], fs);
    RunningBefore(cs[k - 1], fs);
  }

  /** While some worker runs, the counter is the number of cycles run so
      far, modulo 2^32. */
  lemma {:induction false} ClockCountsCycles(cs: seq<Config>, fs: seq<StageFn>, k: nat)
    requires IsRun(cs, fs) && k < |cs|
    requires k > 0 ==> AnyRunning(cs[k - 1].modes)
    ensures cs[k].t as int == (cs[0].t as int + k) % 0x1_0000_0000
    decreases k
  {
    if k > 0 {
      if k > 1 {
        RunTick(cs, fs, k - 1);
      }
      ClockCountsCycles(cs, fs, k - 1);
      RunTick(cs, fs, k);
    }
  }

  /** A single stage whose function answers `terminate` to the first
      token: in the first cycle it consumes the `something` primed into its
      own latch, produces `terminate`, leaves the barrier, drains its own
      latch and stops, with the counter at 1. */
  lemma SingleStageStopsAfterOneCycle(f: StageFn)
    requires f(1, Something) == Terminate
    ensures Inv(Start(1))
    ensures Step(Start(1), [f]) == Config([LatchState(Terminate, false, Something)], [Terminated], BarrierState(0, 0, true), 1)
  {
    var c := Start(1);
    StartInv(1);
    CountAllRunning(c.modes);
    assert Inputs(c)[0] == Something;
    assert Outcomes(c, [f])[0] == Outcome(Terminate, Draining);
    assert Dispatched(c, [f]) == [Draining];
    assert AfterProduce(c, [f]) == [LatchState(Terminate, true, Something)];
    assert Drained(c, [f]) == [Terminated];
  }
}
