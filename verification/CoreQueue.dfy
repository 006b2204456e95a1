/** The core completion queue: its count of pending events, and what becomes of it when an operation is ended that was
    never begun.

    `grpc_cq_begin_op` refuses once the count is zero.  The code that queues a tag after interception ignores that and
    ends the operation all the same.
 */
module CoreQueue {
  import opened Common

  /** `open`: not told to shut down.  `pending` is `pending_events` and `queued` the number of completions waiting.
      `underway` counts operations begun and not ended, `broken` ends of operations that were not begun. */
  datatype Core = Core(open: bool, pending: int, queued: nat, underway: nat, broken: nat)

  const Fresh := Core(true, 1, 0, 0, 0)

  /** What `grpc_completion_queue_next` comes to. */
  datatype Next = Event | Down | Wait

  function Polled(q: Core): Next {
    if q.queued > 0 then Event else if q.pending == 0 then Down else Wait
  }

  datatype Op = Begin | End | BeginAndEnd | Shutdown | Take

  predicate Enabled(q: Core, op: Op) {
    match op
    case Begin => true
    case End => q.underway > 0
    case BeginAndEnd => true
    case Shutdown => true
    case Take => q.queued > 0
  }

  /** `IncrementIfNonzero`. */
  function Begun(q: Core): Core {
    if q.pending == 0 then q else q.(pending := q.pending + 1, underway := q.underway + 1)
  }

  /** The completion is queued and the count goes down. */
  function Ended(q: Core): Core
    requires q.underway > 0
  {
    q.(pending := q.pending - 1, queued := q.queued + 1, underway := q.underway - 1)
  }

  /** The begin may fail; the end comes regardless, and is then the end of no operation. */
  function BegunAndEnded(q: Core): Core {
    if q.pending == 0 then q.(pending := q.pending - 1, queued := q.queued + 1, broken := q.broken + 1)
    else Ended(Begun(q))
  }

  function Step(q: Core, op: Op): Core
    requires Enabled(q, op)
  {
    match op
    case Begin => Begun(q)
    case End => Ended(q)
    case BeginAndEnd => BegunAndEnded(q)
    case Shutdown => if q.open then q.(open := false, pending := q.pending - 1) else q
    case Take => q.(queued := q.queued - 1)
  }

  predicate Allowed(q: Core, ops: seq<Op>)
    decreases |ops|
  {
    ops == [] || (Enabled(q, ops[0]) && Allowed(Step(q, ops[0]), ops[1..]))
  }

  function Exec(q: Core, ops: seq<Op>): Core
    requires Allowed(q, ops)
    decreases |ops|
  {
    if ops == [] then q else Exec(Step(q, ops[0]), ops[1..])
  }

  predicate Balanced(q: Core) {
    q.pending == q.underway + One(q.open) - q.broken
  }

  lemma {:induction false} BalancedExec(q: Core, ops: seq<Op>)
    requires Balanced(q) && Allowed(q, ops)
    ensures Balanced(Exec(q, ops)) && Exec(q, ops).broken >= q.broken && (!q.open ==> !Exec(q, ops).open)
    decreases |ops|
  {
    if ops != [] {
      BalancedExec(Step(q, ops[0]), ops[1..]);
    }
  }

  /** Main result: in every run, a drained queue reports shutdown exactly when the operations under way, and the one a
      queue counts until it is told to shut down, number the ends that had no beginning.  So a queue on which every end
      had a beginning reports shutdown exactly when it was told to and all its operations have ended; and once one had
      none, a queue that was told to shut down never reports it while nothing is under way. */
  lemma ReportsShutdown(ops: seq<Op>)
    requires Allowed(Fresh, ops)
    ensures var q := Exec(Fresh, ops);
            && (Polled(q) == Down <==> q.queued == 0 && q.underway + One(q.open) == q.broken)
            && (q.broken == 0 ==> (Polled(q) == Down <==> q.queued == 0 && !q.open && q.underway == 0))
            && (q.broken > 0 && !q.open && q.underway == 0 ==> Polled(q) != Down)
  {
    BalancedExec(Fresh, ops);
  }

  /** The tag of the operation that could not be begun is delivered all the same; afterwards, whatever else is done and
      however often the queue is polled, shutdown is not reported while nothing is under way. */
  lemma NeverDown(q: Core, ops: seq<Op>)
    requires Balanced(q) && !q.open && q.pending == 0 && Allowed(Step(q, BeginAndEnd), ops)
    ensures Polled(Step(q, BeginAndEnd)) == Event && Step(q, BeginAndEnd).pending == -1
    ensures var q' := Exec(Step(q, BeginAndEnd), ops); q'.underway == 0 ==> Polled(q') != Down
  {
    BalancedExec(Step(q, BeginAndEnd), ops);
  }
}
