/** The asynchronous greeter server as a small-step machine.

    Any number of threads run `HandleRpcs`.  A `CallData` instance is known to the gRPC runtime only by
    its address (its tag), addresses of deleted instances may be reused by later allocations, and every
    statement of `Proceed` that touches shared memory is a step of its own.  Handing a tag to the runtime
    is one atomic publication; the runtime answers each published tag with exactly one event, in any order.
 */
module GreeterMachine {
  import opened Common

  type Tag = nat
  type Thread = nat

  datatype Status = Create | Process | Finish

  /** The fields of one instance.  `call` is the RPC bound to `ctx_` once the runtime has matched one. */
  datatype CallData = CallData(status: Status, call: Option<nat>, request: string, reply: string)

  /** Where a thread stands inside `HandleRpcs`.  A constructor runs either for the loop itself
      (`parent.None?`) or inside the `Proceed` of the instance `parent.value`. */
  datatype Pc =
    | Waiting
    | Constructing(child: Tag, parent: Option<Tag>)
    | Requesting(child: Tag, parent: Option<Tag>)
    | Dispatched(tag: Tag)
    | Spawning(tag: Tag)
    | Replying(tag: Tag)
    | Completing(tag: Tag)
    | Publishing(tag: Tag)
    | Deleting(tag: Tag)

  datatype Event = Event(tag: Tag, ok: bool)

  /** Ways the process can go wrong: memory of a deleted instance is touched, the assertion on `status_`
      fails, a reply is sent on a context without a call, or the assertion on `ok` fails. */
  datatype Fault = UseAfterFree | BadStatus | NoCall | NotOk

  /** `names[k]` is the name sent by the k-th matched call and `replies[k]` all replies sent to it. */
  datatype State = State(
    heap: map<Tag, CallData>,
    threads: map<Thread, Pc>,
    requests: multiset<Tag>,
    finishes: multiset<Tag>,
    queue: multiset<Event>,
    names: seq<string>,
    replies: seq<seq<string>>,
    entered: nat,
    created: nat,
    fault: Option<Fault>)

  datatype Action =
    | Enter(th: Thread, addr: Tag)      // a thread calls HandleRpcs and allocates its first instance
    | Run(th: Thread, addr: Tag)        // the next statement of a thread; `addr` is used if it allocates
    | Take(th: Thread, e: Event)        // Next returns an event
    | Match(tag: Tag, name: string)     // the runtime binds an incoming call to a requested tag
    | Refuse(tag: Tag)                  // the runtime completes a request without a call
    | Sent(tag: Tag, ok: bool)          // the runtime completes a Finish operation

  const Init := State(map[], map[], multiset{}, multiset{}, multiset{}, [], [], 0, 0, None)

  const Fresh := CallData(Create, None, "", "")

  predicate Enabled(s: State, a: Action) {
    && s.fault.None?
    && match a
       case Enter(th, addr) => th !in s.threads && addr !in s.heap
       case Run(th, addr) =>
         th in s.threads && s.threads[th] != Waiting && (s.threads[th].Spawning? ==> addr !in s.heap)
       case Take(th, e) => th in s.threads && s.threads[th] == Waiting && e in s.queue
       case Match(tag, _) => tag in s.requests
       case Refuse(tag) => tag in s.requests
       case Sent(tag, _) => tag in s.finishes
  }

  function Fail(s: State, f: Fault): State {
    s.(fault := Some(f))
  }

  function Goto(s: State, th: Thread, pc: Pc): State {
    s.(threads := s.threads[th := pc])
  }

  function Store(s: State, t: Tag, d: CallData): State {
    s.(heap := s.heap[t := d])
  }

  /** `new CallData(service_, cq_)` up to the call of `Proceed` in its constructor, on entry to the loop or
      inside the `Proceed` of a parent. */
  function Allocate(s: State, th: Thread, addr: Tag, parent: Option<Tag>): State {
    Goto(Store(s, addr, Fresh), th, Constructing(addr, parent))
    .(created := s.created + 1, entered := s.entered + if parent.None? then 1 else 0)
  }

  /** What the constructor returns to: the event loop, or the rest of the parent's `Proceed`. */
  function AfterConstructor(parent: Option<Tag>): Pc {
    match parent
    case None => Waiting
    case Some(t) => Replying(t)
  }

  /** One statement of thread `th`. */
  function RunThread(s: State, th: Thread, addr: Tag): State
    requires th in s.threads && s.threads[th] != Waiting
  {
    match s.threads[th]
    case Constructing(c, p) =>
      if c !in s.heap then Fail(s, UseAfterFree)
      else Goto(Store(s, c, s.heap[c].(status := Process)), th, Requesting(c, p))
    case Requesting(c, p) =>
      if c !in s.heap then Fail(s, UseAfterFree)
      else Goto(s.(requests := s.requests + multiset{c}), th, AfterConstructor(p))
    case Dispatched(t) =>
      if t !in s.heap then Fail(s, UseAfterFree)
      else (match s.heap[t].status
            case Create => Goto(Store(s, t, s.heap[t].(status := Process)), th, Requesting(t, None))
            case Process => Goto(s, th, Spawning(t))
            case Finish => Goto(s, th, Deleting(t)))
    case Spawning(t) =>
      if t !in s.heap then Fail(s, UseAfterFree)
      else Allocate(s, th, addr, Some(t))
    case Replying(t) =>
      if t !in s.heap then Fail(s, UseAfterFree)
      else Goto(Store(s, t, s.heap[t].(reply := "Hello " + s.heap[t].request)), th, Completing(t))
    case Completing(t) =>
      if t !in s.heap then Fail(s, UseAfterFree)
      else Goto(Store(s, t, s.heap[t].(status := Finish)), th, Publishing(t))
    case Publishing(t) =>
      if t !in s.heap then Fail(s, UseAfterFree)
      else if s.heap[t].call.None? || s.heap[t].call.value >= |s.replies| then Fail(s, NoCall)
      else
        var k := s.heap[t].call.value;
        Goto(s.(finishes := s.finishes + multiset{t},
                replies := s.replies[k := s.replies[k] + [s.heap[t].reply]]), th, Waiting)
    case Deleting(t) =>
      if t !in s.heap then Fail(s, UseAfterFree)
      else if s.heap[t].status != Finish then Fail(s, BadStatus)
      else Goto(s.(heap := s.heap - {t}), th, Waiting)
  }

  function Step(s: State, a: Action): State
    requires Enabled(s, a)
  {
    match a
    case Enter(th, addr) => Allocate(s, th, addr, None)
    case Run(th, addr) => RunThread(s, th, addr)
    case Take(th, e) =>
      if e.ok then Goto(s.(queue := s.queue - multiset{e}), th, Dispatched(e.tag)) else Fail(s, NotOk)
    case Match(t, name) =>
      if t !in s.heap then Fail(s, UseAfterFree)
      else Store(s, t, s.heap[t].(call := Some(|s.names|), request := name))
           .(names := s.names + [name], replies := s.replies + [[]],
             requests := s.requests - multiset{t}, queue := s.queue + multiset{Event(t, true)})
    case Refuse(t) =>
      s.(requests := s.requests - multiset{t}, queue := s.queue + multiset{Event(t, false)})
    case Sent(t, ok) =>
      s.(finishes := s.finishes - multiset{t}, queue := s.queue + multiset{Event(t, ok)})
  }

  /** A run is a finite list of actions, each enabled where it is taken. */
  predicate Allowed(s: State, run: seq<Action>)
    decreases |run|
  {
    run == [] || (Enabled(s, run[0]) && Allowed(Step(s, run[0]), run[1..]))
  }

  function Exec(s: State, run: seq<Action>): State
    requires Allowed(s, run)
    decreases |run|
  {
    if run == [] then s else Exec(Step(s, run[0]), run[1..])
  }
}
