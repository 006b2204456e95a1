/** Asynchronous request objects behind the server completion queue.

    `RequestAsyncCall` allocates a `PayloadAsyncRequest`, which registers an avalanche and asks the core for a
    call.  When the core delivers, `FinalizeResult` either returns the tag to the application and deletes the
    object, or waits for interceptors, or, when the payload does not parse, cancels the call, allocates a
    successor in its own place and deletes itself without telling the application.

    `FinalizeResult` is split where it gives up its object: a replaced or returning object stays alive until a
    separate `Delete` step, so the other threads can run between `new` and `delete this`.

    A request names two queues.  The avalanche is registered on the queue of the call; the core is asked, and answers,
    on the notification queue, which need not be the same.  A core queue accepts an operation only while its count of
    pending events is not zero: one until the queue is shut down, and one for each operation begun and not ended.
 */
module AsyncRequestMachine {
  import opened Common
  import Avalanche

  type Id = nat
  type Payload = string
  type Message = string
  type Parser = Payload -> Option<Message>

  /** `root` is the call of `RequestAsyncCall` an object serves; it stands for the application's tag.
      `intercepted` is `done_intercepting_`. */
  datatype Request = Request(root: nat, call: Option<nat>, intercepted: bool)

  datatype Final = Replaced | Returned(ok: bool)

  /** Where the address of a live object is known. */
  datatype Token =
    | Pending(id: Id)                     // the core has been asked for a call
    | Queued(id: Id, ok: bool)            // an event waits in the core queue
    | Intercepting(id: Id)                // interceptors run
    | Finalizing(id: Id, final: Final)    // `FinalizeResult` is about to delete the object

  /** An incoming call.  The payload is `None` when the core received none. */
  datatype Call = Call(root: nat, payload: Option<Payload>, cancelled: nat, unreffed: nat)

  datatype AppEvent = AppEvent(ok: bool, message: Option<Message>)

  /** The last two: a request is issued on a core queue that accepts no operation, which an assertion catches; and an
      operation is ended that could not be begun, which nothing catches. */
  datatype Fault = UseAfterFree | NoCall | IssueAfterShutdown | EndWithoutBegin

  /** `queue` counts the avalanches of the call queue and `reserved` is its reservation. `shared`: the notification
      queue is the same one. `open` and `pending` are the notification queue's: whether its core queue has not been
      told to shut down, and its `pending_events`. `slots`, `events` and `history` are indexed by root: the
      application's message object, the events it was given, and the calls matched to it. `calls` is indexed by
      call. */
  datatype State = State(
    shared: bool,
    live: map<Id, Request>,
    tokens: multiset<Token>,
    queue: Avalanche.Queue,
    reserved: bool,
    open: bool,
    pending: nat,
    slots: seq<Option<Message>>,
    events: seq<seq<AppEvent>>,
    history: seq<seq<nat>>,
    calls: seq<Call>,
    fault: Option<Fault>)

  datatype Action =
    | Ask(addr: Id)                       // the application calls RequestAsyncCall
    | Shutdown                            // the application shuts the call queue down
    | Silence                             // the application shuts a notification queue of its own down
    | Arrive(id: Id, payload: Option<Payload>)
    | Reject(id: Id)                      // the server was shut down before a call arrived
    | Deliver(id: Id, ok: bool, intercept: bool, addr: Id, garbage: Option<Message>)
    | Resume(id: Id)                      // the interceptors are done
    | Delete(id: Id, final: Final)

  function Init(shared: bool): State {
    State(shared, map[], multiset{}, Avalanche.Initial, true, true, 1, [], [], [], [], None)
  }

  predicate WellFormed(parse: Parser, payload: Option<Payload>) {
    payload.Some? && parse(payload.value).Some?
  }

  /** The application starts nothing on a queue it has shut down. */
  predicate Enabled(s: State, a: Action) {
    && s.fault.None?
    && match a
       case Ask(addr) => s.reserved && s.open && addr !in s.live
       case Shutdown => s.reserved
       case Silence => !s.shared && s.open
       case Arrive(id, _) => Pending(id) in s.tokens
       case Reject(id) => Pending(id) in s.tokens
       case Deliver(id, ok, _, addr, _) => Queued(id, ok) in s.tokens && addr !in s.live
       case Resume(id) => Intercepting(id) in s.tokens
       case Delete(id, final) => Finalizing(id, final) in s.tokens
  }

  function Fail(s: State, f: Fault): State {
    s.(fault := Some(f))
  }

  /** A token changes hands. */
  function Pass(s: State, before: Token, after: Token): State {
    s.(tokens := s.tokens - multiset{before} + multiset{after})
  }

  /** The core queue for notifications is told to shut down. */
  function Close(s: State): State {
    s.(open := false, pending := if s.pending > 0 then s.pending - 1 else 0)
  }

  /** An avalanche is completed, or the reservation given up, on the call queue. */
  function Complete(s: State): State {
    var q := Avalanche.Complete(s.queue);
    if s.shared && q.shutdowns > s.queue.shutdowns then Close(s.(queue := q)) else s.(queue := q)
  }

  /** The constructor: register the avalanche on one queue, then begin an operation on the other. */
  function New(s: State, addr: Id, root: nat): State {
    if s.pending == 0 then Fail(s, IssueAfterShutdown)
    else s.(live := s.live[addr := Request(root, None, false)],
            tokens := s.tokens + multiset{Pending(addr)},
            queue := Avalanche.Register(s.queue), pending := s.pending + 1)
  }

  /** The core ends the operation: its event is queued. */
  function End(s: State): State {
    s.(pending := if s.pending > 0 then s.pending - 1 else 0)
  }

  /** The call is cancelled and released; a failed parse may have left anything in the message object. */
  function Cancel(s: State, k: nat, root: nat, garbage: Option<Message>): State
    requires k < |s.calls| && root < |s.slots|
  {
    var c := s.calls[k];
    s.(calls := s.calls[k := c.(cancelled := c.cancelled + 1, unreffed := c.unreffed + 1)],
       slots := s.slots[root := garbage])
  }

  /** `PayloadAsyncRequest::FinalizeResult` on an event of the core queue. */
  function Finalize(parse: Parser, s: State, id: Id, ok: bool, intercept: bool, addr: Id, garbage: Option<Message>)
    : State
  {
    var e := Queued(id, ok);
    if id !in s.live || s.live[id].root >= |s.slots| then Fail(s, UseAfterFree)
    else
      var r := s.live[id];
      if r.intercepted then Pass(s, e, Finalizing(id, Returned(ok)))
      else if !ok then Pass(s, e, Finalizing(id, Returned(false)))
      else if r.call.None? || r.call.value >= |s.calls| then Fail(s, NoCall)
      else
        var c := s.calls[r.call.value];
        if !WellFormed(parse, c.payload) then
          New(Cancel(Pass(s, e, Finalizing(id, Replaced)), r.call.value, r.root, garbage), addr, r.root)
        else
          var s1 := s.(slots := s.slots[r.root := parse(c.payload.value)]);
          if intercept then Pass(s1.(live := s.live[id := r.(intercepted := true)]), e, Intercepting(id))
          else Pass(s1, e, Finalizing(id, Returned(true)))
  }

  /** `delete this`, then the return to the caller of `Next`. */
  function Destroy(s: State, id: Id, final: Final): State {
    if id !in s.live || s.live[id].root >= |s.events| || |s.slots| != |s.events| then Fail(s, UseAfterFree)
    else
      var root := s.live[id].root;
      var s1 := Complete(s.(live := s.live - {id}, tokens := s.tokens - multiset{Finalizing(id, final)}));
      if final.Replaced? then s1
      else s1.(events := s.events[root := s.events[root] + [AppEvent(final.ok, s.slots[root])]])
  }

  /** `RequestAsyncCall`. */
  function Asked(s: State, addr: Id): State {
    New(s.(slots := s.slots + [None], events := s.events + [[]], history := s.history + [[]]), addr, |s.events|)
  }

  /** The core matches a call to the object and queues its event. */
  function Arrived(s: State, id: Id, payload: Option<Payload>): State {
    if id !in s.live || s.live[id].root >= |s.history| then Fail(s, UseAfterFree)
    else
      var root, c := s.live[id].root, |s.calls|;
      Pass(End(s).(live := s.live[id := s.live[id].(call := Some(c))],
                   calls := s.calls + [Call(root, payload, 0, 0)],
                   history := s.history[root := s.history[root] + [c]]),
           Pending(id), Queued(id, true))
  }

  /** The interceptors are done: an operation is begun and ended at once, whether or not it could be begun. */
  function Resumed(s: State, id: Id): State {
    if s.pending == 0 then Fail(s, EndWithoutBegin) else Pass(s, Intercepting(id), Queued(id, true))
  }

  function Step(parse: Parser, s: State, a: Action): State
    requires Enabled(s, a)
  {
    match a
    case Ask(addr) => Asked(s, addr)
    case Shutdown => Complete(s.(reserved := false))
    case Silence => Close(s)
    case Arrive(id, payload) => Arrived(s, id, payload)
    case Reject(id) => Pass(End(s), Pending(id), Queued(id, false))
    case Deliver(id, ok, intercept, addr, garbage) => Finalize(parse, s, id, ok, intercept, addr, garbage)
    case Resume(id) => Resumed(s, id)
    case Delete(id, final) => Destroy(s, id, final)
  }

  predicate Allowed(parse: Parser, s: State, run: seq<Action>)
    decreases |run|
  {
    run == [] || (Enabled(s, run[0]) && Allowed(parse, Step(parse, s, run[0]), run[1..]))
  }

  function Exec(parse: Parser, s: State, run: seq<Action>): State
    requires Allowed(parse, s, run)
    decreases |run|
  {
    if run == [] then s else Exec(parse, Step(parse, s, run[0]), run[1..])
  }
}
