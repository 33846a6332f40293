/**
 * The pipeline object (class `pipeline`): its stage registry, the start-up
 * in `run`, and the workers' loop executed in lock-step, one cycle at a
 * time, on the real latch and barrier objects.
 *
 * Each phase of a cycle is a method that changes the latches or the barrier
 * the way the workers do, proved equal to the matching phase of `Step`;
 * what `Step` guarantees over a run (the invariant, termination one stage
 * per cycle, the cycle count) is proved in module `Cycles`.
 */
module Pipelines {
  import opened Tokens
  import opened Latches
  import opened Barriers
  import opened Topology
  import opened Cycles

  /** The stage descriptor `sd`: the stage's position, its predecessor, its
      function and the latch it produces into. */
  datatype Descriptor = Descriptor(index: nat, pred: nat, f: StageFn, out: Latch)

  /** The topology part of a list of descriptors. */
  ghost function Links(ds: seq<Descriptor>): (r: seq<Link>)
    ensures |r| == |ds|
    ensures forall i :: 0 <= i < |ds| ==> r[i] == Link(ds[i].index, ds[i].pred)
  {
    seq(|ds|, i requires 0 <= i < |ds| => Link(ds[i].index, ds[i].pred))
  }

  /** The stage functions of a list of descriptors, in order. */
  function FnsOf(ds: seq<Descriptor>): (r: seq<StageFn>)
    ensures |r| == |ds|
    ensures forall i :: 0 <= i < |ds| ==> r[i] == ds[i].f
  {
    if ds == [] then [] else FnsOf(ds[..|ds| - 1]) + [ds[|ds| - 1].f]
  }

  class Pipeline {
    /** `p_` */
    var stages: seq<Descriptor>
    /** `t_` */
    var t: u32
    /** `barrier_` */
    const barrier: Barrier
    /** The latches of the stages. */
    ghost var Outs: set<Latch>

    /** The stage functions, in stage order. */
    function Fns(): (r: seq<StageFn>)
      reads this
      ensures |r| == |stages|
    {
      FnsOf(stages)
    }

    /** The descriptors form the ring, and no two stages share a latch. */
    ghost predicate Valid()
      reads this
    {
      && (forall i :: 0 <= i < |stages| ==> stages[i].index == i && stages[i].pred == Pred(i, |stages|))
      && (forall j :: 0 <= j < |stages| ==> stages[j].out in Outs)
      && (forall a, b :: 0 <= a < |stages| && 0 <= b < |stages| && a != b ==> stages[a].out != stages[b].out)
    }

    /** The latch objects currently hold the states `ls`. */
    ghost predicate Holds(ls: seq<LatchState>)
      reads this, Outs
    {
      |ls| == |stages| && forall j :: 0 <= j < |stages| ==> stages[j].out in Outs && stages[j].out.State() == ls[j]
    }

    /** Every latch is as its constructor left it. */
    ghost predicate Pristine()
      reads this, Outs
    {
      forall j :: 0 <= j < |stages| ==> stages[j].out in Outs && stages[j].out.State() == Fresh
    }

    /** An empty pipeline. */
    constructor ()
      ensures Valid() && Pristine() && stages == [] && t == 0
      ensures barrier.State() == BarrierState(0, 0, false)
      ensures fresh(barrier) && Outs == {}
    {
      stages := [];
      Outs := {};
      t := 0;
      barrier := new Barrier();
    }

    /** `add_stage`: appends a descriptor for `s` with a fresh latch and
        re-points stage 0 at the new stage; returns the pipeline itself. */
    method AddStage(s: StageFn) returns (self: Pipeline)
      requires Valid()
      modifies this
      ensures self == this && Valid()
      ensures |stages| == |old(stages)| + 1
      ensures Links(stages) == AddLink(Links(old(stages)))
      ensures forall i :: 0 <= i < |old(stages)| ==>
        stages[i].out == old(stages)[i].out && stages[i].f == old(stages)[i].f
      ensures stages[|stages| - 1].f == s && fresh(stages[|stages| - 1].out)
      ensures stages[|stages| - 1].out.State() == Fresh
      ensures Outs == old(Outs) + {stages[|stages| - 1].out}
      ensures t == old(t)
    {
      var index := |stages|;
      var pred := index - 1;
      if index == 0 {
        pred := 0;
      } else {
        stages := stages[0 := stages[0].(pred := index)];
      }
      var out := new Latch();
      stages := stages + [Descriptor(|stages|, pred, s, out)];
      Outs := Outs + {out};
      assert Links(stages) == AddLink(Links(old(stages)));
      AddLinkKeepsRing(Links(old(stages)));
      assert IsRing(Links(stages));
      self := this;
    }

    /** `t_get`: the cycle count the workers last wrote. */
    function TGet(): (r: u32)
      reads this
      ensures r == t
    {
      t
    }

    /** The set-up of `run`: the barrier is opened for every stage, and the
        last stage's latch is given `something` as its value and as its
        placeholder, so that the first stage has an input in the first
        cycle. */
    method Prime()
      requires Valid() && 0 < |stages| < 0x1_0000_0000
      modifies barrier, Outs
      ensures barrier.State() == Initial(|stages| as u32)
      ensures forall j :: 0 <= j < |stages| - 1 ==> stages[j].out.State() == old(stages[j].out.State())
      ensures var last := stages[|stages| - 1].out;
        last.State() == old(last.State()).(slot := Something, noopLatch := Something)
    {
      var n := |stages|;
      barrier.Init(n as u32);
      stages[n - 1].out.LatchSet(Something);
      stages[n - 1].out.noopLatch := Something;
    }

    /** Every worker in mode `m` consumes its predecessor's latch (phase 1
        for the running workers, phase 5 for the draining ones); `got` is
        what each consumed, `noop` for the workers that consume nothing. */
    method ConsumeBy(ms: seq<Mode>, m: Mode, ghost ls: seq<LatchState>) returns (got: seq<Token>)
      requires Valid() && 0 < |ms| == |stages| && Holds(ls)
      requires forall j {:trigger ls[j]} :: 0 <= j < |ms| && ms[Succ(j, |ms|)] == m ==> ls[j].produced
      modifies Outs
      ensures forall j {:trigger ls[j]} :: 0 <= j < |ms| ==>
        stages[j].out in Outs && stages[j].out.State() == if ms[Succ(j, |ms|)] == m then Take(ls[j]) else ls[j]
      ensures |got| == |ms|
      ensures forall i {:trigger got[i]} :: 0 <= i < |ms| ==> got[i] == if ms[i] == m then ls[Pred(i, |ms|)].slot else Noop
    {
      var n := |stages|;
      got := [];
      var i := 0;
      while i < n
        invariant 0 <= i <= n && |got| == i
        invariant forall k {:trigger got[k]} :: 0 <= k < i ==> got[k] == if ms[k] == m then ls[Pred(k, n)].slot else Noop
        invariant forall j {:trigger ls[j]} :: 0 <= j < n ==>
          stages[j].out.State() == if Succ(j, n) < i && ms[Succ(j, n)] == m then Take(ls[j]) else ls[j]
      {
        var x := Noop;
        PredSuccInverse(i, n);
        if ms[i] == m {
          x := stages[stages[i].pred].out.Consume();
        }
        got := got + [x];
        i := i + 1;
      }
    }

    /** Phase 2: every running worker calls the barrier; once the last of
        them has arrived, all of them depart, and the barrier is back at
        rest. */
    method CrossBarrier(ms: seq<Mode>)
      requires 0 < |ms| < 0x1_0000_0000
      requires AtRest(barrier.State(), CountRunning(ms) as u32)
      modifies barrier
      ensures barrier.State() == old(barrier.State())
    {
      ArriveAll(ms);
      DepartAll(ms);
    }

    /** The arrival halves of phase 2: the last running worker to arrive
        sets the event. */
    method ArriveAll(ms: seq<Mode>)
      requires 0 < |ms| < 0x1_0000_0000
      requires AtRest(barrier.State(), CountRunning(ms) as u32)
      modifies barrier
      ensures barrier.State() == BarrierState(0, CountRunning(ms) as u32, true)
    {
      var q := CountRunning(ms);
      var a := 0;
      var i := 0;
      while i < |ms|
        invariant 0 <= i <= |ms| && a == CountRunning(ms[..i]) && a <= q
        invariant barrier.State() == BarrierState((q - a) as u32, q as u32, a == q)
      {
        assert ms[..i + 1][..i] == ms[..i];
        CountPrefix(ms, i + 1);
        if ms[i] == Running {
          var last := barrier.Arrive();
          a := a + 1;
        }
        i := i + 1;
      }
      assert ms[..|ms|] == ms;
    }

    /** The departure halves of phase 2: once every running worker has left
        the wait, the barrier is at rest again. */
    method DepartAll(ms: seq<Mode>)
      requires 0 < |ms| < 0x1_0000_0000
      requires barrier.State() == BarrierState(0, CountRunning(ms) as u32, true)
      modifies barrier
      ensures AtRest(barrier.State(), CountRunning(ms) as u32)
    {
      var q := CountRunning(ms);
      var d := 0;
      var i := 0;
      while i < |ms|
        invariant 0 <= i <= |ms| && d == CountRunning(ms[..i])
        invariant barrier.State() ==
          if d == q then BarrierState(q as u32, q as u32, q == 0) else BarrierState(d as u32, q as u32, true)
      {
        assert ms[..i + 1][..i] == ms[..i];
        CountPrefix(ms, i + 1);
        if ms[i] == Running {
          barrier.Depart();
          d := d + 1;
        }
        i := i + 1;
      }
      assert ms[..|ms|] == ms;
    }

    /** What a running worker does with the token `x` it consumed in cycle
        `clock`: `noop` makes it produce its placeholder; `terminate` makes
        it leave the barrier, forward `terminate` and stop; anything else
        goes through the stage function, whose result is produced, and a
        `terminate` result makes the worker leave the barrier and drain. */
    method Handle(i: nat, x: Token, clock: u32) returns (mode: Mode)
      requires i < |stages| && !stages[i].out.produced
      modifies barrier, stages[i].out
      ensures var o := Dispatch(x, old(stages[i].out.noopLatch), stages[i].f, clock);
        stages[i].out.State() == Put(old(stages[i].out.State()), o.out) && mode == o.mode
      ensures barrier.State() == if mode == Running then old(barrier.State()) else AfterLeave(old(barrier.State()))
    {
      var out := stages[i].out;
      mode := Running;
      if x == Noop {
        out.Produce(out.noopLatch);
      } else if x == Terminate {
        barrier.Leave();
        out.Produce(Terminate);
        mode := Terminated;
      } else {
        var y := stages[i].f(clock, x);
        out.Produce(y);
        if y == Terminate {
          barrier.Leave();
          mode := Draining;
        }
      }
    }

    /** Phase 4: every running worker handles the token it consumed; `outs`
        is what `Dispatch` says each of them does. */
    method ProduceBy(ms: seq<Mode>, inputs: seq<Token>, clock: u32, ghost ls: seq<LatchState>,
                     ghost outs: seq<Outcome>) returns (ms4: seq<Mode>)
      requires Valid() && |ms| == |stages| == |inputs| == |outs| && Holds(ls)
      requires forall j {:trigger ls[j]} :: 0 <= j < |ms| && ms[j] == Running ==> !ls[j].produced
      requires forall i {:trigger outs[i]} :: 0 <= i < |ms| && ms[i] == Running ==>
        outs[i] == Dispatch(inputs[i], ls[i].noopLatch, Fns()[i], clock)
      modifies barrier, Outs
      ensures forall j {:trigger ls[j]} :: 0 <= j < |ms| ==>
        stages[j].out in Outs && stages[j].out.State() == if ms[j] == Running then Put(ls[j], outs[j].out) else ls[j]
      ensures |ms4| == |ms|
      ensures forall i {:trigger ms4[i]} :: 0 <= i < |ms| ==> ms4[i] == if ms[i] == Running then outs[i].mode else ms[i]
      ensures barrier.State() == LeaveN(old(barrier.State()), Leavers(ms, ms4))
    {
      var n := |stages|;
      ghost var b := barrier.State();
      ms4 := [];
      var i := 0;
      while i < n
        invariant 0 <= i <= n && |ms4| == i
        invariant Produced(ms, inputs, clock, ls, outs, b, i, ms4)
      {
        assert Fns()[i] == stages[i].f;
        ms4 := ProduceAt(ms, inputs, clock, ls, outs, b, i, ms4);
        i := i + 1;
      }
      assert ms[..n] == ms;
    }

    /** The state of phase 4 once the workers before `i` are done. */
    ghost predicate Produced(ms: seq<Mode>, inputs: seq<Token>, clock: u32, ls: seq<LatchState>,
                             outs: seq<Outcome>, b: BarrierState, i: nat, ms4: seq<Mode>)
      reads this, Outs, barrier
    {
      && |ms| == |stages| == |inputs| == |outs| == |ls| && i <= |ms| && |ms4| == i
      && (forall j {:trigger ls[j]} :: 0 <= j < |ms| && ms[j] == Running ==> !ls[j].produced)
      && (forall k {:trigger ms4[k]} :: 0 <= k < i ==> ms4[k] == if ms[k] == Running then outs[k].mode else ms[k])
      && (forall j {:trigger ls[j]} :: 0 <= j < |ms| ==>
          stages[j].out in Outs && stages[j].out.State() == if j < i && ms[j] == Running then Put(ls[j], outs[j].out) else ls[j])
      && barrier.State() == LeaveN(b, Leavers(ms[..i], ms4))
    }

    /** Worker `i` does its part of phase 4. */
    method ProduceAt(ms: seq<Mode>, inputs: seq<Token>, clock: u32, ghost ls: seq<LatchState>,
                     ghost outs: seq<Outcome>, ghost b: BarrierState, i: nat, ms4: seq<Mode>)
      returns (ms4': seq<Mode>)
      requires Valid() && i < |ms| && Produced(ms, inputs, clock, ls, outs, b, i, ms4)
      requires ms[i] == Running ==> outs[i] == Dispatch(inputs[i], ls[i].noopLatch, stages[i].f, clock)
      modifies barrier, Outs
      ensures Produced(ms, inputs, clock, ls, outs, b, i + 1, ms4')
    {
      var mode := ms[i];
      ghost var k := Leavers(ms[..i], ms4);
      if ms[i] == Running {
        assert stages[i].out.State() == ls[i];
        mode := Handle(i, inputs[i], clock);
        if mode != Running {
          LeaveNSnoc(b, k);
        }
      }
      assert ms[..i + 1][..i] == ms[..i];
      assert (ms4 + [mode])[..i] == ms4;
      ms4' := ms4 + [mode];
    }

    /** The drainers that consumed `terminate` stop. */
    static method StopDrained(ms4: seq<Mode>, got: seq<Token>) returns (ms5: seq<Mode>)
      requires |got| == |ms4|
      ensures |ms5| == |ms4|
      ensures forall i {:trigger ms5[i]} :: 0 <= i < |ms4| ==> ms5[i] == if got[i] == Terminate then Terminated else ms4[i]
    {
      ms5 := [];
      var i := 0;
      while i < |ms4|
        invariant 0 <= i <= |ms4| && |ms5| == i
        invariant forall k {:trigger ms5[k]} :: 0 <= k < i ==> ms5[k] == if got[k] == Terminate then Terminated else ms4[k]
      {
        ms5 := ms5 + [if got[i] == Terminate then Terminated else ms4[i]];
        i := i + 1;
      }
    }

    /** Phases 1 to 3 of a cycle as `p` describes them: the running workers
        consume, cross the barrier and, if there are any, tick the counter
        into `t_`. */
    method Open(ms: seq<Mode>, clock: u32, ghost ls: seq<LatchState>, ghost p: Phases)
      returns (inputs: seq<Token>, clock': u32)
      requires Valid() && Holds(ls) && |ms| == |stages| < 0x1_0000_0000
      requires AtRest(barrier.State(), CountRunning(ms) as u32)
      requires PhasesOf(ls, ms, if CountRunning(ms) > 0 then Inc(clock) else clock, Fns(), p)
      modifies this, barrier, Outs
      ensures stages == old(stages) && Outs == old(Outs)
      ensures Holds(p.l1) && inputs == p.inputs
      ensures barrier.State() == old(barrier.State())
      ensures clock' == if CountRunning(ms) > 0 then Inc(clock) else clock
      ensures t == if CountRunning(ms) > 0 then clock' else old(t)
    {
      // phase 1: the running workers consume
      inputs := ConsumeBy(ms, Running, ls);
      assert inputs == p.inputs;
      // phase 2: the barrier
      CrossBarrier(ms);
      // phase 3: the counter
      clock' := clock;
      if CountRunning(ms) > 0 {
        clock' := Inc(clock);
        t := clock';
      }
    }

    /** Phases 4 and 5 of a cycle as `p` describes them: the running workers
        produce, the draining ones consume, and those that consumed
        `terminate` stop. */
    method Close(ms: seq<Mode>, inputs: seq<Token>, clock: u32, ghost ls: seq<LatchState>, ghost p: Phases)
      returns (ms': seq<Mode>)
      requires Valid() && |ms| == |stages| && PhasesOf(ls, ms, clock, Fns(), p)
      requires Holds(p.l1) && inputs == p.inputs
      modifies barrier, Outs
      ensures Holds(p.l5) && ms' == p.m5
      ensures barrier.State() == LeaveN(old(barrier.State()), Leavers(ms, p.m4))
    {
      // phase 4: the running workers produce
      var ms4 := ProduceBy(ms, inputs, clock, p.l1, p.outs);
      assert ms4 == p.m4;
      // phase 5: the draining workers consume
      assert Holds(p.l4);
      var got := ConsumeBy(ms4, Draining, p.l4);
      ms' := StopDrained(ms4, got);
      assert ms' == p.m5;
    }

    /** One lock-step cycle of all the workers, phase by phase, as `p`
        describes it; `t_` receives the counter if some worker ran. */
    method Cycle(ms: seq<Mode>, clock: u32, ghost ls: seq<LatchState>, ghost p: Phases)
      returns (ms': seq<Mode>, clock': u32)
      requires Valid() && Holds(ls) && |ms| == |stages| < 0x1_0000_0000
      requires AtRest(barrier.State(), CountRunning(ms) as u32)
      requires PhasesOf(ls, ms, if CountRunning(ms) > 0 then Inc(clock) else clock, Fns(), p)
      modifies this, barrier, Outs
      ensures stages == old(stages) && Outs == old(Outs) && Valid()
      ensures Holds(p.l5) && ms' == p.m5
      ensures barrier.State() == LeaveN(old(barrier.State()), Leavers(ms, p.m4))
      ensures clock' == if CountRunning(ms) > 0 then Inc(clock) else clock
      ensures t == if CountRunning(ms) > 0 then clock' else old(t)
    {
      var inputs;
      inputs, clock' := Open(ms, clock, ls, p);
      ms' := Close(ms, inputs, clock', ls, p);
    }

    /** One lock-step cycle of all the workers from a configuration that
        satisfies the invariant: the latches, the barrier, the workers'
        control states and their counter end up exactly as `Step` says. */
    method RunCycle(ms: seq<Mode>, clock: u32, ghost c: Config) returns (ms': seq<Mode>, clock': u32)
      requires Valid() && Inv(c) && |stages| == |c.modes|
      requires Holds(c.latches) && ms == c.modes && barrier.State() == c.bar && clock == c.t
      modifies this, barrier, Outs
      ensures stages == old(stages) && Outs == old(Outs) && Valid()
      ensures Holds(Step(c, Fns()).latches) && barrier.State() == Step(c, Fns()).bar
      ensures ms' == Step(c, Fns()).modes && clock' == Step(c, Fns()).t
      ensures t == if CountRunning(ms) > 0 then clock' else old(t)
    {
      ghost var p := StepPhases(c, Fns());
      ms', clock' := Cycle(ms, clock, c.latches, p);
    }

    /** `run`: with no stage it returns at once; otherwise it primes the
        pipeline and lets the workers cycle in lock-step until every one of
        them has terminated, or `fuel` cycles have passed. `trace` is the
        run of `Step` the objects went through, from `Start`. */
    method Run(fuel: nat) returns (modes: seq<Mode>, ghost trace: seq<Config>)
      requires Valid() && Pristine() && |stages| < 0x1_0000_0000
      modifies this, barrier, Outs
      ensures stages == old(stages) && Valid()
      ensures |stages| == 0 ==> modes == [] && trace == [] && barrier.State() == old(barrier.State()) && t == old(t)
      ensures |stages| > 0 ==>
        && IsRun(trace, Fns()) && trace[0] == Start(|stages|) && |trace| <= fuel + 1
        && modes == trace[|trace| - 1].modes
        && (AllTerminated(modes) || |trace| == fuel + 1)
        && Holds(trace[|trace| - 1].latches) && barrier.State() == trace[|trace| - 1].bar
        && (|trace| > 1 ==> t == trace[|trace| - 1].t)
    {
      if |stages| == 0 {
        modes, trace := [], [];
        return;
      }
      Launch();
      modes, trace := Drive(fuel);
    }

    /** The set-up of `run` puts the objects in the configuration `Start`. */
    method Launch()
      requires Valid() && Pristine() && 0 < |stages| < 0x1_0000_0000
      modifies barrier, Outs
      ensures Holds(Start(|stages|).latches) && barrier.State() == Start(|stages|).bar
    {
      Prime();
      assert Holds(Start(|stages|).latches);
    }

    /** The workers' loops, cycle by cycle, from `Start`. */
    method Drive(fuel: nat) returns (modes: seq<Mode>, ghost trace: seq<Config>)
      requires Valid() && 0 < |stages| < 0x1_0000_0000
      requires Holds(Start(|stages|).latches) && barrier.State() == Start(|stages|).bar
      modifies this, barrier, Outs
      ensures stages == old(stages) && Valid()
      ensures IsRun(trace, Fns()) && trace[0] == Start(|stages|) && |trace| <= fuel + 1
      ensures modes == trace[|trace| - 1].modes
      ensures AllTerminated(modes) || |trace| == fuel + 1
      ensures Holds(trace[|trace| - 1].latches) && barrier.State() == trace[|trace| - 1].bar
      ensures |trace| > 1 ==> t == trace[|trace| - 1].t
    {
      var n := |stages|;
      StartInv(n);
      CountAllRunning(Start(n).modes);
      modes := seq(n, _ => Running);
      var clock: u32 := 0;
      trace := [Start(n)];
      var k := 0;
      while k < fuel && !AllTerminated(modes)
        invariant stages == old(stages) && Outs == old(Outs) && Valid()
        invariant k <= fuel && |trace| == k + 1 && trace[0] == Start(n)
        invariant IsRun(trace, Fns())
        invariant Holds(trace[k].latches) && modes == trace[k].modes
        invariant barrier.State() == trace[k].bar && clock == trace[k].t
        invariant k > 0 ==> t == clock
      {
        modes, clock, trace := Advance(modes, clock, trace);
        k := k + 1;
      }
    }

    /** One cycle extends the run the objects have gone through by the
        configuration `Step` says comes next. */
    method Advance(ms: seq<Mode>, clock: u32, ghost cs: seq<Config>) returns (ms': seq<Mode>, clock': u32, ghost cs': seq<Config>)
      requires Valid() && IsRun(cs, Fns())
      requires Holds(cs[|cs| - 1].latches) && ms == cs[|cs| - 1].modes
      requires barrier.State() == cs[|cs| - 1].bar && clock == cs[|cs| - 1].t
      modifies this, barrier, Outs
      ensures stages == old(stages) && Outs == old(Outs) && Valid()
      ensures IsRun(cs', Fns()) && |cs'| == |cs| + 1 && cs'[..|cs|] == cs
      ensures Holds(cs'[|cs|].latches) && ms' == cs'[|cs|].modes
      ensures barrier.State() == cs'[|cs|].bar && clock' == cs'[|cs|].t
      ensures t == if CountRunning(ms) > 0 then clock' else old(t)
      ensures CountRunning(ms) == 0 ==> clock' == clock
    {
      ExtendRun(cs, Fns());
      ghost var c := cs[|cs| - 1];
      ms', clock' := RunCycle(ms, clock, c);
      cs' := cs + [Step(c, Fns())];
      assert cs'[..|cs|] == cs;
    }
  }
  /** What a program using the pipeline does: build one, register the stage
      functions `fs` in order with chained `add_stage` calls, and run it. The
      objects it runs on are its own, and the run goes through the ring of
      exactly these stages. */
  method BuildAndRun(fs: seq<StageFn>, fuel: nat) returns (p: Pipeline, modes: seq<Mode>, ghost trace: seq<Config>)
    requires |fs| < 0x1_0000_0000
    ensures fresh(p) && p.Valid() && p.Fns() == fs && Links(p.stages) == Registered(|fs|)
    ensures |fs| == 0 ==> modes == [] && trace == []
    ensures |fs| > 0 ==>
      && IsRun(trace, fs) && trace[0] == Start(|fs|) && |trace| <= fuel + 1
      && modes == trace[|trace| - 1].modes
      && (AllTerminated(modes) || |trace| == fuel + 1)
      && (|trace| > 1 ==> p.TGet() == trace[|trace| - 1].t)
  {
    p := new Pipeline();
    var i := 0;
    while i < |fs|
      invariant i <= |fs|
      invariant fresh(p) && fresh(p.barrier) && p.Valid() && p.Pristine()
      invariant forall o :: o in p.Outs ==> fresh(o)
      invariant p.Fns() == fs[..i] && Links(p.stages) == Registered(i)
    {
      p := p.AddStage(fs[i]);
      i := i + 1;
    }
    assert fs[..i] == fs;
    modes, trace := p.Run(fuel);
  }
}
