/** The completion queue's count of avalanching operations.

    An operation that will cause further operations registers before it starts and completes when it is
    finalized.  One registration is reserved at construction and given up by `Shutdown`.  The core queue is
    shut down by the completion that brings the count to zero.
 */
module Avalanche {

  /** `inFlight` is `avalanches_in_flight_`; `shutdowns` counts calls of `grpc_completion_queue_shutdown`. */
  datatype Queue = Queue(inFlight: int, shutdowns: nat)

  const Initial := Queue(1, 0)

  function Register(q: Queue): Queue {
    q.(inFlight := q.inFlight + 1)
  }

  function Complete(q: Queue): Queue {
    Queue(q.inFlight - 1, q.shutdowns + if q.inFlight == 1 then 1 else 0)
  }

  class CompletionQueue {
    var avalanchesInFlight: int
    var coreShutdowns: nat

    ghost function View(): Queue
      reads this
    {
      Queue(avalanchesInFlight, coreShutdowns)
    }

    constructor ()
      ensures View() == Initial
    {
      avalanchesInFlight, coreShutdowns := 1, 0;
    }

    method RegisterAvalanching()
      modifies this
      ensures View() == Register(old(View()))
    {
      avalanchesInFlight := avalanchesInFlight + 1;
    }

    method CompleteAvalanching()
      modifies this
      ensures View() == Complete(old(View()))
    {
      var before := avalanchesInFlight;
      avalanchesInFlight := avalanchesInFlight - 1;
      if before == 1 {
        coreShutdowns := coreShutdowns + 1;
      }
    }

    method Shutdown()
      modifies this
      ensures View() == Complete(old(View()))
    {
      CompleteAvalanching();
    }
  }

  // ----- any interleaving of the three operations

  datatype Op = Begin | End | Shut

  /** The queue together with what its users hold: operations begun and not ended, and the reservation. */
  datatype State = State(queue: Queue, open: nat, reserved: bool)

  const Start := State(Initial, 0, true)

  /** Only a registered operation is completed, and `Shutdown` is called once. */
  predicate Enabled(s: State, op: Op) {
    match op
    case Begin => true
    case End => s.open > 0
    case Shut => s.reserved
  }

  function Step(s: State, op: Op): State
    requires Enabled(s, op)
  {
    match op
    case Begin => State(Register(s.queue), s.open + 1, s.reserved)
    case End => State(Complete(s.queue), s.open - 1, s.reserved)
    case Shut => State(Complete(s.queue), s.open, false)
  }

  predicate Allowed(s: State, ops: seq<Op>)
    decreases |ops|
  {
    ops == [] || (Enabled(s, ops[0]) && Allowed(Step(s, ops[0]), ops[1..]))
  }

  function Exec(s: State, ops: seq<Op>): State
    requires Allowed(s, ops)
    decreases |ops|
  {
    if ops == [] then s else Exec(Step(s, ops[0]), ops[1..])
  }

  function Held(s: State): nat {
    s.open + if s.reserved then 1 else 0
  }

  /** How often an operation begins although the core queue has already been shut down. */
  function Late(s: State, ops: seq<Op>): nat
    requires Allowed(s, ops)
    decreases |ops|
  {
    if ops == [] then 0
    else (if ops[0].Begin? && s.queue.inFlight == 0 then 1 else 0) + Late(Step(s, ops[0]), ops[1..])
  }

  /** For every interleaving: the count is what the users hold, and the core queue has been shut down once for
      each time the count came down to zero, which a late registration makes happen again. */
  lemma {:induction false} CountIsHeld(s: State, ops: seq<Op>)
    requires Allowed(s, ops) && s.queue.inFlight == Held(s)
    ensures var e := Exec(s, ops);
            && e.queue.inFlight == Held(e)
            && e.queue.shutdowns + (if e.queue.inFlight > 0 then 1 else 0)
               == s.queue.shutdowns + (if s.queue.inFlight > 0 then 1 else 0) + Late(s, ops)
    decreases |ops|
  {
    if ops != [] {
      CountIsHeld(Step(s, ops[0]), ops[1..]);
    }
  }

  /** Once everything has been given back, the core queue was shut down exactly once if and only if no
      operation was registered after the core shutdown. */
  lemma ShutsDownOnce(ops: seq<Op>)
    requires Allowed(Start, ops)
    ensures var e := Exec(Start, ops);
            && e.queue.inFlight == Held(e)
            && (Late(Start, ops) == 0 ==> e.queue.shutdowns == if Held(e) == 0 then 1 else 0)
            && (Held(e) == 0 ==> (e.queue.shutdowns == 1 <==> Late(Start, ops) == 0))
  {
    CountIsHeld(Start, ops);
  }

  /** Registering after the core shutdown shuts the core queue down a second time. */
  lemma LateRegistrationShutsDownTwice()
    ensures Allowed(Start, [Shut, Begin, End]) && Exec(Start, [Shut, Begin, End]).queue.shutdowns == 2
  {
    var s1 := Step(Start, Shut);
    var s2 := Step(s1, Begin);
    assert [Shut, Begin, End][1..] == [Begin, End];
    assert [Begin, End][1..] == [End];
    assert Allowed(Step(s2, End), []);
    assert Exec(s2, [End]) == Step(s2, End);
    assert Exec(s1, [Begin, End]) == Exec(s2, [End]);
  }
}
