/**
 * The single-slot producer/consumer handshake between two adjacent stages
 * (class `latch`). The busy-wait loops of `consume` and `produce` become
 * preconditions: a consumer may only take from a full slot and a producer
 * may only put into an empty one.
 */
module Latches {
  import opened Tokens

  /** The three fields of a latch: the slot `latch_`, the flag `produced_`
      and the placeholder `noop_latch` re-emitted when the owning stage's
      own input was `noop`. */
  datatype LatchState = LatchState(slot: Token, produced: bool, noopLatch: Token)

  /** The state a latch is constructed in: full, holding `noop`, with `noop`
      as its placeholder. */
  const Fresh: LatchState := LatchState(Noop, true, Noop)

  /** `consume`, past its wait: the token handed over is `s.slot`. */
  function Take(s: LatchState): (r: LatchState)
    requires s.produced
    ensures !r.produced
  {
    s.(produced := false)
  }

  /** `produce(x)`, past its wait. */
  function Put(s: LatchState, x: Token): (r: LatchState)
    requires !s.produced
    ensures r.produced
  {
    s.(slot := x, produced := true)
  }

  /** Consuming right after producing `x` hands over `x` and empties the
      slot again; producing back what was just consumed restores the latch. */
  lemma PutThenTake(s: LatchState, x: Token)
    requires !s.produced
    ensures Put(s, x).slot == x && Take(Put(s, x)) == s.(slot := x)
  {
  }

  lemma TakeThenPut(s: LatchState)
    requires s.produced
    ensures Put(Take(s), s.slot) == s
  {
  }

  /** Neither side of the handshake ever touches the placeholder. */
  lemma HandshakeKeepsPlaceholder(s: LatchState, x: Token)
    ensures s.produced ==> Take(s).noopLatch == s.noopLatch
    ensures !s.produced ==> Put(s, x).noopLatch == s.noopLatch
  {
  }

  // ---------------------------------------------------------------------
  // Traces of handshake operations on one latch.

  datatype Op = ConsumeOp | ProduceOp(x: Token)

  datatype Option<T> = None | Some(value: T)

  /** Runs a trace of operations on one latch with no other party around:
      `None` when an operation would spin forever (a consume on an empty
      slot or a produce on a full one); otherwise the final state and the
      tokens handed to the consumer, in order. */
  function Replay(s: LatchState, ops: seq<Op>): Option<(LatchState, seq<Token>)>
    decreases |ops|
  {
    if ops == [] then Some((s, []))
    else match ops[0]
      case ConsumeOp =>
        if !s.produced then None
        else (match Replay(Take(s), ops[1..])
              case None => None
              case Some(res) => Some((res.0, [s.slot] + res.1)))
      case ProduceOp(x) =>
        if s.produced then None else Replay(Put(s, x), ops[1..])
  }

  /** The trace alternates consume and produce, starting with a consume
      exactly when the slot is full. */
  predicate Alternating(full: bool, ops: seq<Op>)
    decreases |ops|
  {
    ops == [] || (ops[0].ConsumeOp? == full && Alternating(!full, ops[1..]))
  }

  /** The tokens a trace produces, in order. */
  function Produced(ops: seq<Op>): seq<Token>
    decreases |ops|
  {
    if ops == [] then []
    else (if ops[0].ProduceOp? then [ops[0].x] else []) + Produced(ops[1..])
  }

  /** The token waiting in a latch, if any. */
  function Held(s: LatchState): (r: seq<Token>)
    ensures |r| == (if s.produced then 1 else 0)
  {
    if s.produced then [s.slot] else []
  }

  /** A trace never blocks exactly when the flag alternates strictly. */
  lemma {:induction false} ReplayDefinedIffAlternating(s: LatchState, ops: seq<Op>)
    ensures Replay(s, ops).Some? <==> Alternating(s.produced, ops)
    decreases |ops|
  {
    if ops != [] {
      match ops[0]
      case ConsumeOp =>
        if s.produced { ReplayDefinedIffAlternating(Take(s), ops[1..]); }
      case ProduceOp(x) =>
        if !s.produced { ReplayDefinedIffAlternating(Put(s, x), ops[1..]); }
    }
  }

  /** No token is lost or duplicated: what was waiting plus what was
      produced equals what was consumed plus what is still waiting. */
  lemma {:induction false} HandshakeConservesTokens(s: LatchState, ops: seq<Op>)
    requires Replay(s, ops).Some?
    ensures Held(s) + Produced(ops) == Replay(s, ops).value.1 + Held(Replay(s, ops).value.0)
    decreases |ops|
  {
    if ops == [] {
    } else {
      match ops[0]
      case ConsumeOp =>
        HandshakeConservesTokens(Take(s), ops[1..]);
        assert Produced(ops) == Produced(ops[1..]);
      case ProduceOp(x) =>
        HandshakeConservesTokens(Put(s, x), ops[1..]);
        assert Produced(ops) == [x] + Produced(ops[1..]);
    }
  }

  // ---------------------------------------------------------------------
  // The latch object.

  class Latch {
    var noopLatch: Token
    var slot: Token
    var produced: bool

    function State(): LatchState
      reads this
    {
      LatchState(slot, produced, noopLatch)
    }

    /** Full, holding `noop`, placeholder `noop`. */
    constructor ()
      ensures State() == Fresh
    {
      noopLatch := Noop;
      slot := Noop;
      produced := true;
    }

    /** Takes the waiting token and leaves the slot empty. */
    method Consume() returns (x: Token)
      requires produced
      modifies this
      ensures x == old(slot)
      ensures State() == Take(old(State()))
    {
      x := slot;
      produced := false;
    }

    /** Stores `x` in the empty slot and marks it full. */
    method Produce(x: Token)
      requires !produced
      modifies this
      ensures State() == Put(old(State()), x)
    {
      slot := x;
      produced := true;
    }

    /** Overwrites the slot without touching the flag. */
    method LatchSet(x: Token)
      modifies this
      ensures State() == old(State()).(slot := x)
    {
      slot := x;
    }
  }
}
