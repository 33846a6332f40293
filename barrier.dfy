/**
 * The reusable rendezvous of the pipeline's workers (class `barrier`), with
 * a quorum that shrinks when a participant leaves for good.
 *
 * `operator()` is one call in the C++ code but two steps here: the arrival
 * (decrement `left_`; the arrival that reaches 0 raises `event_`) and the
 * departure (increment `left_`; the departure that brings it back to
 * `reset_` lowers `event_`). The spin on `event_` between them becomes the
 * departure's precondition. The spinlock around them is not modelled.
 */
module Barriers {
  import opened Tokens

  /** The counters `left_` and `reset_` and the flag `event_`. */
  datatype BarrierState = BarrierState(left: u32, reset: u32, event: bool)

  /** `init(n)`. */
  function Initial(n: u32): (r: BarrierState)
    ensures r.left == n && r.reset == n && !r.event
  {
    BarrierState(n, n, false)
  }

  /** A barrier between two rounds for `q` participants: nobody has arrived,
      and the flag is up only once every participant has left. */
  predicate AtRest(b: BarrierState, q: u32)
  {
    b.left == q && b.reset == q && (b.event <==> q == 0)
  }

  /** The arrival half of `operator()`. */
  function AfterArrive(b: BarrierState): (r: BarrierState)
    ensures r.reset == b.reset && r.left == Dec(b.left)
    ensures r.event <==> b.event || r.left == 0
  {
    var l := Dec(b.left);
    b.(left := l, event := if l == 0 then true else b.event)
  }

  /** The departure half of `operator()`, once `event_` is up. */
  function AfterDepart(b: BarrierState): (r: BarrierState)
    requires b.event
    ensures r.reset == b.reset && r.left == Inc(b.left)
    ensures r.event <==> r.left != b.reset
  {
    var l := Inc(b.left);
    if l == b.reset then b.(left := l, event := false) else b.(left := l)
  }

  /** `leave()`: both counters lose one; `event_` goes up at 0. */
  function AfterLeave(b: BarrierState): (r: BarrierState)
    ensures r.reset == Dec(b.reset) && r.left == Dec(b.left)
    ensures r.event <==> b.event || r.left == 0
  {
    var l := Dec(b.left);
    BarrierState(l, Dec(b.reset), if l == 0 then true else b.event)
  }

  function ArriveN(b: BarrierState, k: nat): BarrierState
    decreases k
  {
    if k == 0 then b else ArriveN(AfterArrive(b), k - 1)
  }

  /** `k` departures, each of which finds `event_` up. */
  function DepartN(b: BarrierState, k: nat): BarrierState
    requires k > 0 ==> b.event
    requires b.left as int + k <= b.reset as int
    decreases k
  {
    if k == 0 then b
    else
      var b' := AfterDepart(b);
      assert k > 1 ==> b'.event;
      DepartN(b', k - 1)
  }

  function LeaveN(b: BarrierState, k: nat): BarrierState
    decreases k
  {
    if k == 0 then b else LeaveN(AfterLeave(b), k - 1)
  }

  /** `k` arrivals lower `left_` by `k`; `event_` goes up only with the
      arrival that brings `left_` to 0. */
  lemma {:induction false} ArrivalsCount(b: BarrierState, k: nat)
    requires k <= b.left as int
    ensures ArriveN(b, k).left as int == b.left as int - k
    ensures ArriveN(b, k).reset == b.reset
    ensures ArriveN(b, k).event <==> b.event || (k > 0 && k == b.left as int)
    decreases k
  {
    if k > 0 {
      ArrivalsCount(AfterArrive(b), k - 1);
    }
  }

  /** `k` departures raise `left_` by `k`; the one that reaches `reset_`
      lowers `event_`. */
  lemma {:induction false} DeparturesCount(b: BarrierState, k: nat)
    requires k > 0 ==> b.event
    requires b.left as int + k <= b.reset as int
    ensures DepartN(b, k).left as int == b.left as int + k
    ensures DepartN(b, k).reset == b.reset
    ensures DepartN(b, k).event <==> if k == 0 then b.event else b.left as int + k != b.reset as int
    decreases k
  {
    if k > 0 {
      DeparturesCount(AfterDepart(b), k - 1);
    }
  }

  /** `k` participants leaving lower both counters by `k`. */
  lemma {:induction false} LeavesCount(b: BarrierState, k: nat)
    requires k <= b.left as int && k <= b.reset as int
    ensures LeaveN(b, k).left as int == b.left as int - k
    ensures LeaveN(b, k).reset as int == b.reset as int - k
    ensures LeaveN(b, k).event <==> b.event || (k > 0 && k == b.left as int)
    decreases k
  {
    if k > 0 {
      LeavesCount(AfterLeave(b), k - 1);
    }
  }

  /** One more participant leaving after `k` have left. */
  lemma {:induction false} LeaveNSnoc(b: BarrierState, k: nat)
    ensures LeaveN(b, k + 1) == AfterLeave(LeaveN(b, k))
    decreases k
  {
    if k > 0 {
      LeaveNSnoc(AfterLeave(b), k - 1);
    }
  }

  /** No participant can depart before every one of the `q` current
      participants has arrived. */
  lemma NoEarlyRelease(b: BarrierState, q: u32, k: nat)
    requires AtRest(b, q) && k < q as int
    ensures !ArriveN(b, k).event
  {
    ArrivalsCount(b, k);
  }

  /** A full round: `q` arrivals release everybody, and after `q`
      departures the barrier is back where the round started. */
  lemma RoundRestores(b: BarrierState, q: u32)
    requires AtRest(b, q) && q > 0
    ensures ArriveN(b, q as nat).event
    ensures ArriveN(b, q as nat).left == 0 && ArriveN(b, q as nat).reset == q
    ensures DepartN(ArriveN(b, q as nat), q as nat) == b
  {
    ArrivalsCount(b, q as nat);
    DeparturesCount(ArriveN(b, q as nat), q as nat);
  }

  /** The whole round as one function. */
  function Rendezvous(b: BarrierState, q: u32): (r: BarrierState)
    requires AtRest(b, q)
    ensures r == b
  {
    if q == 0 then b
    else
      RoundRestores(b, q);
      DepartN(ArriveN(b, q as nat), q as nat)
  }

  /** After `k` of the `q` participants leave, the barrier is at rest for the
      remaining `q - k`. */
  lemma LeavesShrinkQuorum(b: BarrierState, q: u32, k: nat)
    requires AtRest(b, q) && k <= q as int
    ensures AtRest(LeaveN(b, k), (q as int - k) as u32)
  {
    LeavesCount(b, k);
  }

  /** `init(n)` leaves the barrier at rest for `n > 0` participants. */
  lemma InitialAtRest(n: u32)
    requires n > 0
    ensures AtRest(Initial(n), n)
  {
  }

  // ---------------------------------------------------------------------
  // The barrier object.

  class Barrier {
    var left: u32
    var reset: u32
    var event: bool

    function State(): BarrierState
      reads this
    {
      BarrierState(left, reset, event)
    }

    constructor ()
      ensures State() == BarrierState(0, 0, false)
    {
      left, reset, event := 0, 0, false;
    }

    method Init(nbThreads: u32)
      modifies this
      ensures State() == Initial(nbThreads)
    {
      reset := nbThreads;
      left := nbThreads;
      event := false;
    }

    method Leave()
      modifies this
      ensures State() == AfterLeave(old(State()))
    {
      reset := Dec(reset);
      left := Dec(left);
      if left == 0 {
        event := true;
      }
    }

    /** Arrival; `last` is true for the participant that completes the round. */
    method Arrive() returns (last: bool)
      modifies this
      ensures last <==> left == 0
      ensures State() == AfterArrive(old(State()))
    {
      left := Dec(left);
      last := left == 0;
      if last {
        event := true;
      }
    }

    /** Departure, once the round is complete. */
    method Depart()
      requires event
      modifies this
      ensures State() == AfterDepart(old(State()))
    {
      left := Inc(left);
      if left == reset {
        event := false;
      }
    }
  }
}
