/** Why `Proceed` sets `status_` before it calls `Finish`: the machine with the two statements exchanged.

    The runtime may complete the operation, and another thread take its event, between the two statements.
 */
module GreeterOrder {
  import opened Common
  import opened GreeterMachine

  /** One statement of the exchanged `Proceed`: the reply is published first, the status is set afterwards. */
  function RunEarly(s: State, th: Thread, addr: Tag): State
    requires th in s.threads && s.threads[th] != Waiting
  {
    match s.threads[th]
    case Completing(t) =>
      if t !in s.heap then Fail(s, UseAfterFree)
      else if s.heap[t].call.None? || s.heap[t].call.value >= |s.replies| then Fail(s, NoCall)
      else
        var k := s.heap[t].call.value;
        Goto(s.(finishes := s.finishes + multiset{t},
                replies := s.replies[k := s.replies[k] + [s.heap[t].reply]]), th, Publishing(t))
    case Publishing(t) =>
      if t !in s.heap then Fail(s, UseAfterFree)
      else Goto(Store(s, t, s.heap[t].(status := Finish)), th, Waiting)
    case _ => RunThread(s, th, addr)
  }

  function StepEarly(s: State, a: Action): State
    requires Enabled(s, a)
  {
    if a.Run? then RunEarly(s, a.th, a.addr) else Step(s, a)
  }

  predicate AllowedEarly(s: State, run: seq<Action>)
    decreases |run|
  {
    run == [] || (Enabled(s, run[0]) && AllowedEarly(StepEarly(s, run[0]), run[1..]))
  }

  function ExecEarly(s: State, run: seq<Action>): State
    requires AllowedEarly(s, run)
    decreases |run|
  {
    if run == [] then s else ExecEarly(StepEarly(s, run[0]), run[1..])
  }

  /** Some run of the exchanged machine leads from one state to the other. */
  ghost predicate Leads(s: State, s': State) {
    exists run :: AllowedEarly(s, run) && ExecEarly(s, run) == s'
  }

  lemma Stays(s: State)
    ensures Leads(s, s)
  {
    assert AllowedEarly(s, []) && ExecEarly(s, []) == s;
  }

  lemma First(s: State, a: Action, s1: State, s': State)
    requires Enabled(s, a) && s1 == StepEarly(s, a) && Leads(s1, s')
    ensures Leads(s, s')
  {
    var run :| AllowedEarly(s1, run) && ExecEarly(s1, run) == s';
    assert ([a] + run)[1..] == run;
    assert AllowedEarly(s, [a] + run) && ExecEarly(s, [a] + run) == s';
  }

  /** The thread has been given an instance that waits to serve call `k`. */
  predicate Serves(s: State, th: Thread, t: Tag, k: nat) {
    && s.fault.None? && th in s.threads && s.threads[th] == Dispatched(t)
    && t in s.heap && s.heap[t].status == Process && s.heap[t].call == Some(k) && k < |s.replies|
  }

  /** What it has done when it has published the reply and is about to set the status. */
  function Published(s: State, th: Thread, addr: Tag, t: Tag, k: nat): State
    requires t in s.heap && k < |s.replies|
  {
    var text := "Hello " + s.heap[t].request;
    s.(heap := s.heap[addr := Fresh.(status := Process)][t := s.heap[t].(reply := text)],
       requests := s.requests + multiset{addr}, finishes := s.finishes + multiset{t},
       replies := s.replies[k := s.replies[k] + [text]],
       threads := s.threads[th := Publishing(t)], created := s.created + 1)
  }

  /** A constructor has returned: its instance has asked for a call. */
  function Constructed(s: State, th: Thread, addr: Tag, parent: Option<Tag>): State {
    s.(heap := s.heap[addr := Fresh.(status := Process)], requests := s.requests + multiset{addr},
       threads := s.threads[th := AfterConstructor(parent)])
  }

  lemma ToConstructed(s: State, th: Thread, addr: Tag, parent: Option<Tag>, s': State)
    requires s.fault.None? && th in s.threads && s.threads[th] == Constructing(addr, parent)
    requires addr in s.heap && s.heap[addr] == Fresh && Leads(Constructed(s, th, addr, parent), s')
    ensures Leads(s, s')
  {
    var s1 := StepEarly(s, Run(th, addr));
    var s2 := StepEarly(s1, Run(th, addr));
    assert s2 == Constructed(s, th, addr, parent);
    First(s1, Run(th, addr), s2, s');
    First(s, Run(th, addr), s1, s');
  }

  /** The replacement has been constructed. */
  function Spawned(s: State, th: Thread, addr: Tag, t: Tag): State {
    Constructed(s, th, addr, Some(t)).(created := s.created + 1)
  }

  lemma SpawningLeads(s: State, th: Thread, addr: Tag, t: Tag, s': State)
    requires s.fault.None? && th in s.threads && s.threads[th] == Spawning(t) && t in s.heap && addr !in s.heap
    requires Leads(Spawned(s, th, addr, t), s')
    ensures Leads(s, s')
  {
    var s1 := Allocate(s, th, addr, Some(t));
    assert Constructed(s1, th, addr, Some(t)) == Spawned(s, th, addr, t);
    ToConstructed(s1, th, addr, Some(t), s');
    First(s, Run(th, addr), s1, s');
  }

  lemma ToSpawned(s: State, th: Thread, addr: Tag, t: Tag, k: nat, s': State)
    requires Serves(s, th, t, k) && addr !in s.heap && Leads(Spawned(s, th, addr, t), s')
    ensures Leads(s, s')
  {
    var s1 := Goto(s, th, Spawning(t));
    assert Spawned(s1, th, addr, t) == Spawned(s, th, addr, t);
    SpawningLeads(s1, th, addr, t, s');
    First(s, Run(th, addr), s1, s');
  }

  lemma ToPublished(s: State, th: Thread, addr: Tag, t: Tag, k: nat, s': State)
    requires Serves(s, th, t, k) && addr !in s.heap && Leads(Published(s, th, addr, t, k), s')
    ensures Leads(s, s')
  {
    var s4 := Spawned(s, th, addr, t);
    var s5 := StepEarly(s4, Run(th, addr));
    var s6 := StepEarly(s5, Run(th, addr));
    assert s6 == Published(s, th, addr, t, k);
    First(s5, Run(th, addr), s6, s');
    First(s4, Run(th, addr), s5, s');
    ToSpawned(s, th, addr, t, k, s');
  }

  /** The runtime has completed the operation and a waiting thread has taken its event. */
  function Taken(s: State, th: Thread, t: Tag): State {
    s.(finishes := s.finishes - multiset{t}, threads := s.threads[th := Dispatched(t)])
  }

  lemma ToTaken(s: State, th: Thread, t: Tag, s': State)
    requires s.fault.None? && th in s.threads && s.threads[th] == Waiting && t in s.finishes
    requires Leads(Taken(s, th, t), s')
    ensures Leads(s, s')
  {
    var s1 := StepEarly(s, Sent(t, true));
    var s2 := StepEarly(s1, Take(th, Event(t, true)));
    assert s.queue + multiset{Event(t, true)} - multiset{Event(t, true)} == s.queue;
    assert s2 == Taken(s, th, t);
    First(s1, Take(th, Event(t, true)), s2, s');
    First(s, Sent(t, true), s1, s');
  }

  /** Both threads have published a reply to the call. */
  function Twice(s: State, th: Thread, th2: Thread, t: Tag, k: nat, addr: Tag, addr2: Tag): State
    requires t in s.heap && k < |s.replies|
  {
    Published(Taken(Published(s, th, addr, t, k), th2, t), th2, addr2, t, k)
  }

  lemma TwiceReplies(s: State, th: Thread, th2: Thread, t: Tag, k: nat, addr: Tag, addr2: Tag)
    requires t in s.heap && k < |s.replies| && addr != t
    ensures var text := "Hello " + s.heap[t].request;
            Twice(s, th, th2, t, k, addr, addr2).replies == s.replies[k := s.replies[k] + [text, text]]
  {
    var text := "Hello " + s.heap[t].request;
    assert s.replies[k] + [text] + [text] == s.replies[k] + [text, text];
  }

  /** Main result: whenever a thread has been given an instance to serve while another waits for an event, the exchanged
      statements let the other serve the same call again: the call is answered twice. */
  lemma AnswersTwice(s: State, th: Thread, th2: Thread, t: Tag, k: nat, addr: Tag, addr2: Tag)
    requires Serves(s, th, t, k) && th2 in s.threads && s.threads[th2] == Waiting
    requires addr !in s.heap && addr2 !in s.heap && addr != addr2
    ensures var text := "Hello " + s.heap[t].request;
            var s' := Twice(s, th, th2, t, k, addr, addr2);
            Leads(s, s') && s'.replies == s.replies[k := s.replies[k] + [text, text]]
  {
    var s1 := Published(s, th, addr, t, k);
    var s2 := Taken(s1, th2, t);
    var s3 := Published(s2, th2, addr2, t, k);
    Stays(s3);
    ToPublished(s2, th2, addr2, t, k, s3);
    ToTaken(s1, th2, t, s3);
    ToPublished(s, th, addr, t, k, s3);
    TwiceReplies(s, th, th2, t, k, addr, addr2);
  }

  /** A thread has entered the loop and waits; its first instance has asked for a call. */
  function Entered(s: State, th: Thread, addr: Tag): State {
    Constructed(s, th, addr, None).(created := s.created + 1, entered := s.entered + 1)
  }

  lemma ToEntered(s: State, th: Thread, addr: Tag, s': State)
    requires s.fault.None? && th !in s.threads && addr !in s.heap && Leads(Entered(s, th, addr), s')
    ensures Leads(s, s')
  {
    var s1 := StepEarly(s, Enter(th, addr));
    assert Constructed(s1, th, addr, None) == Entered(s, th, addr);
    ToConstructed(s1, th, addr, None, s');
    First(s, Enter(th, addr), s1, s');
  }

  /** A call has been matched to an instance and its event taken. */
  function Given(s: State, th: Thread, t: Tag, name: string): State
    requires t in s.heap
  {
    s.(heap := s.heap[t := s.heap[t].(call := Some(|s.names|), request := name)], names := s.names + [name],
       replies := s.replies + [[]], requests := s.requests - multiset{t}, threads := s.threads[th := Dispatched(t)])
  }

  lemma ToGiven(s: State, th: Thread, t: Tag, name: string, s': State)
    requires s.fault.None? && th in s.threads && s.threads[th] == Waiting && t in s.requests && t in s.heap
    requires Leads(Given(s, th, t, name), s')
    ensures Leads(s, s')
  {
    var s1 := StepEarly(s, Match(t, name));
    var s2 := StepEarly(s1, Take(th, Event(t, true)));
    assert s.queue + multiset{Event(t, true)} - multiset{Event(t, true)} == s.queue;
    assert s2 == Given(s, th, t, name);
    First(s1, Take(th, Event(t, true)), s2, s');
    First(s, Match(t, name), s1, s');
  }

  const BothEntered := Entered(Entered(Init, 0, 0), 1, 1)

  lemma BothWait()
    ensures var s := BothEntered;
            && s.fault.None? && s.heap == map[0 := Fresh.(status := Process), 1 := Fresh.(status := Process)]
            && s.threads == map[0 := Waiting, 1 := Waiting] && 0 in s.requests && s.names == [] && s.replies == []
  {
  }

  lemma ToBothEntered(s': State)
    requires Leads(BothEntered, s')
    ensures Leads(Init, s')
  {
    ToEntered(Entered(Init, 0, 0), 1, 1, s');
    ToEntered(Init, 0, 0, s');
  }

  /** Two waiting threads, the first of which has just been given a call. */
  predicate Given0(s: State, name: string) {
    && Serves(s, 0, 0, 0) && 1 in s.threads && s.threads[1] == Waiting && s.replies == [[]]
    && s.heap[0].request == name && 2 !in s.heap && 3 !in s.heap
  }

  lemma FirstIsGiven(s: State, name: string)
    requires s.fault.None? && s.heap == map[0 := Fresh.(status := Process), 1 := Fresh.(status := Process)]
    requires s.threads == map[0 := Waiting, 1 := Waiting] && s.names == [] && s.replies == []
    ensures Given0(Given(s, 0, 0, name), name)
  {
  }

  lemma GivenTwice(s: State, name: string) returns (s': State)
    requires Given0(s, name)
    ensures Leads(s, s') && s'.replies == [["Hello " + name, "Hello " + name]]
  {
    AnswersTwice(s, 0, 1, 0, 0, 2, 3);
    s' := Twice(s, 0, 1, 0, 0, 2, 3);
    assert [] + ["Hello " + name, "Hello " + name] == ["Hello " + name, "Hello " + name];
  }

  /** Main result: with two threads and one call, the exchanged statements answer it twice. */
  lemma PublishingFirstAnswersTwice(name: string)
    ensures exists s :: Leads(Init, s) && s.replies == [["Hello " + name, "Hello " + name]]
  {
    BothWait();
    FirstIsGiven(BothEntered, name);
    var s := GivenTwice(Given(BothEntered, 0, 0, name), name);
    ToGiven(BothEntered, 0, 0, name, s);
    ToBothEntered(s);
  }
}
