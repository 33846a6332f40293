/**
 * A three-stage pipeline run cycle by cycle: a generator that emits two
 * work items and then `terminate`, followed by two pass-through stages.
 * The items fill the pipeline one stage per cycle and the termination
 * drains it one stage per cycle; every worker has terminated after five
 * cycles and the counter stands at 5.
 */
module Scenarios {
  import opened Tokens
  import opened Latches
  import opened Barriers
  import opened Cycles

  const A: Token := Payload(0)
  const B: Token := Payload(1)

  /** Emits `A` in cycle 1, `B` in cycle 2 and `terminate` afterwards. */
  const Gen: StageFn := (t: u32, x: Token) => if t == 1 then A else if t == 2 then B else Terminate

  /** Passes its input through. */
  const Pass: StageFn := (t: u32, x: Token) => x

  const Fs: seq<StageFn> := [Gen, Pass, Pass]

  function Full(x: Token, placeholder: Token): LatchState
  {
    LatchState(x, true, placeholder)
  }

  function Empty(x: Token, placeholder: Token): LatchState
  {
    LatchState(x, false, placeholder)
  }

  /** The running count and the number of leavers, spelled out for three
      workers. */
  lemma CountThree(ms: seq<Mode>, ms': seq<Mode>)
    requires |ms| == |ms'| == 3
    ensures CountRunning(ms) == Runs(ms[0]) + Runs(ms[1]) + Runs(ms[2])
    ensures Leavers(ms, ms') == Leaves(ms[0], ms'[0]) + Leaves(ms[1], ms'[1]) + Leaves(ms[2], ms'[2])
  {
    assert ms[..2][..1] == ms[..1] && ms'[..2][..1] == ms'[..1];
    assert ms[..1][..0] == [] && ms'[..1][..0] == [];
    assert CountRunning(ms[..1]) == Runs(ms[0]);
    assert CountRunning(ms[..2]) == CountRunning(ms[..1]) + Runs(ms[1]);
    assert CountRunning(ms) == CountRunning(ms[..2]) + Runs(ms[2]);
    assert Leavers(ms[..1], ms'[..1]) == Leaves(ms[0], ms'[0]);
    assert Leavers(ms[..2], ms'[..2]) == Leavers(ms[..1], ms'[..1]) + Leaves(ms[1], ms'[1]);
    assert Leavers(ms, ms') == Leavers(ms[..2], ms'[..2]) + Leaves(ms[2], ms'[2]);
  }

  function Runs(m: Mode): nat
  {
    if m == Running then 1 else 0
  }

  function Leaves(m: Mode, m': Mode): nat
  {
    if m == Running && m' != Running then 1 else 0
  }

  /** The configurations at the start and after each of the five cycles. */
  const C0: Config := Config([Full(Noop, Noop), Full(Noop, Noop), Full(Something, Something)],
                             [Running, Running, Running], BarrierState(3, 3, false), 0)
  const C1: Config := Config([Full(A, Noop), Full(Noop, Noop), Full(Something, Something)],
                             [Running, Running, Running], BarrierState(3, 3, false), 1)
  const C2: Config := Config([Full(B, Noop), Full(A, Noop), Full(Something, Something)],
                             [Running, Running, Running], BarrierState(3, 3, false), 2)
  const C3: Config := Config([Full(Terminate, Noop), Full(B, Noop), Empty(A, Something)],
                             [Draining, Running, Running], BarrierState(2, 2, false), 3)
  const C4: Config := Config([Empty(Terminate, Noop), Full(Terminate, Noop), Empty(B, Something)],
                             [Draining, Terminated, Running], BarrierState(1, 1, false), 4)
  const C5: Config := Config([Empty(Terminate, Noop), Empty(Terminate, Noop), Empty(Terminate, Something)],
                             [Terminated, Terminated, Terminated], BarrierState(0, 0, true), 5)

  /** The three-stage pipeline starts in `C0`. */
  lemma Started()
    ensures C0 == Start(3) && Inv(C0)
  {
    StartInv(3);
    assert Start(3).latches == C0.latches;
  }

  /** Cycle 1: the generator turns the primed `something` into `A`; the
      other stages see `noop` and forward their placeholders. */
  lemma Cycle1()
    requires Inv(C0)
    ensures Step(C0, Fs) == C1
  {
    var c := C0;
    CountThree(c.modes, Dispatched(c, Fs));
    assert Inputs(c) == [Something, Noop, Noop];
    assert Outcomes(c, Fs) == [Outcome(A, Running), Outcome(Noop, Running), Outcome(Something, Running)];
    assert Dispatched(c, Fs) == c.modes;
    assert AfterDrain(c, Fs) == C1.latches;
    assert Drained(c, Fs) == C1.modes;
  }

  /** Cycle 2: `B` is generated while `A` moves to the second stage. */
  lemma Cycle2()
    requires Inv(C1)
    ensures Step(C1, Fs) == C2
  {
    var c := C1;
    CountThree(c.modes, Dispatched(c, Fs));
    assert Inputs(c) == [Something, A, Noop];
    assert Outcomes(c, Fs) == [Outcome(B, Running), Outcome(A, Running), Outcome(Something, Running)];
    assert Dispatched(c, Fs) == c.modes;
    assert AfterDrain(c, Fs) == C2.latches;
    assert Drained(c, Fs) == C2.modes;
  }

  /** Cycle 3, up to phase 4: the generator returns `terminate` and is
      about to drain. */
  lemma Produce3()
    requires Inv(C2)
    ensures Dispatched(C2, Fs) == [Draining, Running, Running]
    ensures AfterProduce(C2, Fs) == [Full(Terminate, Noop), Full(B, Noop), Full(A, Something)]
  {
    var c := C2;
    assert Inputs(c) == [Something, B, A];
    assert Outcomes(c, Fs) == [Outcome(Terminate, Draining), Outcome(B, Running), Outcome(A, Running)];
  }

  /** Cycle 3: the generator leaves the barrier and drains; it discards the
      `A` the last stage produced. */
  lemma Cycle3()
    requires Inv(C2)
    ensures Step(C2, Fs) == C3
  {
    var c := C2;
    Produce3();
    CountThree(c.modes, Dispatched(c, Fs));
    assert AfterDrain(c, Fs) == C3.latches;
    assert Drained(c, Fs) == C3.modes;
  }

  /** Cycle 4, up to phase 4: the second stage consumes `terminate`,
      forwards it and stops; the last stage produces `B`. */
  lemma Produce4()
    requires Inv(C3)
    ensures Outcomes(C3, Fs)[2] == Outcome(B, Running)
    ensures Dispatched(C3, Fs) == [Draining, Terminated, Running]
    ensures AfterProduce(C3, Fs) == [Empty(Terminate, Noop), Full(Terminate, Noop), Full(B, Something)]
  {
    var c := C3;
    assert Inputs(c) == [Noop, Terminate, B];
    assert Outcomes(c, Fs)[1..] == [Outcome(Terminate, Terminated), Outcome(B, Running)];
  }

  /** Cycle 4: the second stage stops, and the draining generator discards
      the `B` the last stage produced. */
  lemma Cycle4()
    requires Inv(C3)
    ensures Step(C3, Fs) == C4
    ensures Outcomes(C3, Fs)[2] == Outcome(B, Running)
  {
    var c := C3;
    Produce4();
    CountThree(c.modes, Dispatched(c, Fs));
    assert AfterDrain(c, Fs) == C4.latches;
    assert Drained(c, Fs) == C4.modes;
  }

  /** Cycle 5: the last stage consumes `terminate`, forwards it and stops;
      the draining generator consumes it and stops too. */
  lemma Cycle5()
    requires Inv(C4)
    ensures Step(C4, Fs) == C5
  {
    var c := C4;
    CountThree(c.modes, Dispatched(c, Fs));
    assert Inputs(c) == [Noop, Noop, Terminate];
    assert Outcomes(c, Fs)[2] == Outcome(Terminate, Terminated);
    assert Dispatched(c, Fs) == [Draining, Terminated, Terminated];
    assert AfterProduce(c, Fs) == [Empty(Terminate, Noop), Empty(Terminate, Noop), Full(Terminate, Something)];
    assert AfterDrain(c, Fs) == C5.latches;
    assert Drained(c, Fs) == C5.modes;
  }

  /** The run grows one cycle at a time. */
  lemma Run1()
    ensures IsRun([C0, C1], Fs)
  {
    Started();
    Cycle1();
    assert Follows([C0], Fs, 0);
    ExtendRun([C0], Fs);
    assert [C0] + [Step(C0, Fs)] == [C0, C1];
  }

  lemma Run2()
    ensures IsRun([C0, C1, C2], Fs)
  {
    Run1();
    RunInv([C0, C1], Fs, 1);
    Cycle2();
    ExtendRun([C0, C1], Fs);
    assert [C0, C1] + [Step(C1, Fs)] == [C0, C1, C2];
  }

  lemma Run3()
    ensures IsRun([C0, C1, C2, C3], Fs)
  {
    Run2();
    RunInv([C0, C1, C2], Fs, 2);
    Cycle3();
    ExtendRun([C0, C1, C2], Fs);
    assert [C0, C1, C2] + [Step(C2, Fs)] == [C0, C1, C2, C3];
  }

  lemma Run4()
    ensures IsRun([C0, C1, C2, C3, C4], Fs)
    ensures Outcomes(C3, Fs)[2] == Outcome(B, Running)
  {
    Run3();
    RunInv([C0, C1, C2, C3], Fs, 3);
    Cycle4();
    ExtendRun([C0, C1, C2, C3], Fs);
    assert [C0, C1, C2, C3] + [Step(C3, Fs)] == [C0, C1, C2, C3, C4];
  }

  lemma Run5()
    ensures IsRun([C0, C1, C2, C3, C4, C5], Fs)
  {
    Run4();
    RunInv([C0, C1, C2, C3, C4], Fs, 4);
    Cycle5();
    ExtendRun([C0, C1, C2, C3, C4], Fs);
    assert [C0, C1, C2, C3, C4] + [Step(C4, Fs)] == [C0, C1, C2, C3, C4, C5];
  }

  /** The whole run: five cycles, the last stage handles `B` in cycle 4,
      and every worker has terminated with the counter at 5. */
  lemma FillAndDrain()
    ensures IsRun([C0, C1, C2, C3, C4, C5], Fs) && C0 == Start(3)
    ensures forall k :: 0 <= k < 5 ==> AnyRunning([C0, C1, C2, C3, C4, C5][k].modes)
    ensures AllTerminated(C5.modes) && C5.t == 5
    ensures Outcomes(C3, Fs)[2] == Outcome(B, Running)
  {
    Started();
    Run4();
    Run5();
    var cs := [C0, C1, C2, C3, C4, C5];
    forall k | 0 <= k < 5 ensures AnyRunning(cs[k].modes) {
      assert cs[k].modes[2] == Running;
    }
  }
}
