/** `CallData::Proceed` as the code it is, and its place among the runs of the machine: a call of `Proceed`
    that no other thread interrupts is one of the interleavings, so everything proved of all runs holds of it.
 */
module GreeterCode {
  import opened Common
  import opened GreeterMachine
  import opened GreeterSafety

  /** The memory shared by all threads and the runtime. */
  datatype Shared = Shared(heap: map<Tag, CallData>, requests: multiset<Tag>, finishes: multiset<Tag>,
                           replies: seq<seq<string>>, created: nat)

  function SharedOf(s: State): Shared {
    Shared(s.heap, s.requests, s.finishes, s.replies, s.created)
  }

  /** What one uninterrupted call of `Proceed` on instance `t` leaves behind; `addr` is where it allocates. */
  function Proceeded(v: Shared, t: Tag, addr: Tag): Shared
    requires t in v.heap && CanServe(v, t) && (v.heap[t].status == Process ==> addr !in v.heap)
  {
    var d := v.heap[t];
    match d.status
    case Create => v.(heap := v.heap[t := d.(status := Process)], requests := v.requests + multiset{t})
    case Process =>
      var k, text := d.call.value, "Hello " + d.request;
      Shared(v.heap[addr := Fresh.(status := Process)][t := d.(status := Finish, reply := text)],
             v.requests + multiset{addr}, v.finishes + multiset{t},
             v.replies[k := v.replies[k] + [text]], v.created + 1)
    case Finish => v.(heap := v.heap - {t})
  }

  /** An instance that is to serve a call has one. */
  predicate CanServe(v: Shared, t: Tag)
    requires t in v.heap
  {
    v.heap[t].status == Process ==> v.heap[t].call.Some? && v.heap[t].call.value < |v.replies|
  }

  class ServerImpl {
    var heap: map<Tag, CallData>
    var requests: multiset<Tag>
    var finishes: multiset<Tag>
    var replies: seq<seq<string>>
    var created: nat

    ghost function View(): Shared
      reads this
    {
      Shared(heap, requests, finishes, replies, created)
    }

    constructor ()
      ensures View() == SharedOf(Init)
    {
      heap, requests, finishes, replies, created := map[], multiset{}, multiset{}, [], 0;
    }

    /** `new CallData(service_, cq_)`: the constructor invokes the serving logic right away. */
    method NewCallData(addr: Tag)
      requires addr !in heap
      modifies this
      ensures View() == old(View()).(heap := old(heap)[addr := Fresh.(status := Process)],
                                     requests := old(requests) + multiset{addr}, created := old(created) + 1)
      decreases 1
    {
      heap := heap[addr := Fresh];
      created := created + 1;
      Proceed(addr, addr);
      assert heap == old(heap)[addr := Fresh.(status := Process)];
    }

    /** Called by the constructor and, on a tag that was taken from the queue, by `HandleRpcs`. */
    method Proceed(t: Tag, addr: Tag)
      requires t in heap && CanServe(View(), t) && (heap[t].status == Process ==> addr !in heap)
      modifies this
      ensures View() == Proceeded(old(View()), t, addr)
      decreases if t in heap && heap[t].status == Process then 2 else 0
    {
      if heap[t].status == Create {
        heap := heap[t := heap[t].(status := Process)];
        requests := requests + multiset{t};
      } else if heap[t].status == Process {
        NewCallData(addr);
        heap := heap[t := heap[t].(reply := "Hello " + heap[t].request)];
        heap := heap[t := heap[t].(status := Finish)];
        var k := heap[t].call.value;
        finishes := finishes + multiset{t};
        replies := replies[k := replies[k] + [heap[t].reply]];
      } else {
        assert heap[t].status == Finish;
        heap := heap - {t};
      }
    }
  }

  /** `n` further statements of one thread. */
  function Alone(th: Thread, addr: Tag, n: nat): seq<Action> {
    seq(n, _ => Run(th, addr))
  }

  /** The machine state of `th` and the shared memory after `th` ran `n` statements alone. */
  ghost predicate EndsIn(s: State, th: Thread, addr: Tag, n: nat, v: Shared) {
    && Allowed(s, Alone(th, addr, n))
    && SharedOf(Exec(s, Alone(th, addr, n))) == v
    && Exec(s, Alone(th, addr, n)).threads == s.threads[th := Waiting]
  }

  lemma EndsNow(s: State, th: Thread, addr: Tag)
    requires th in s.threads && s.threads[th] == Waiting
    ensures EndsIn(s, th, addr, 0, SharedOf(s))
  {
    assert Alone(th, addr, 0) == [];
    assert s.threads[th := Waiting] == s.threads;
  }

  /** One statement earlier. */
  lemma EndsBefore(s: State, th: Thread, addr: Tag, n: nat, v: Shared, s': State)
    requires Enabled(s, Run(th, addr)) && s' == Step(s, Run(th, addr)) && EndsIn(s', th, addr, n, v)
    requires s'.threads[th := Waiting] == s.threads[th := Waiting]
    ensures EndsIn(s, th, addr, n + 1, v)
  {
    assert Alone(th, addr, n + 1)[1..] == Alone(th, addr, n);
  }

  lemma FinishAlone(s: State, th: Thread, addr: Tag)
    requires s.fault.None? && th in s.threads && s.threads[th].Replying?
    requires var t := s.threads[th].tag; t in s.heap && s.heap[t].call.Some? && s.heap[t].call.value < |s.replies|
    ensures var t := s.threads[th].tag;
            var d, text := s.heap[t], "Hello " + s.heap[t].request;
            EndsIn(s, th, addr, 3, Shared(s.heap[t := d.(status := Finish, reply := text)], s.requests,
              s.finishes + multiset{t}, s.replies[d.call.value := s.replies[d.call.value] + [text]], s.created))
  {
    var s1 := Step(s, Run(th, addr));
    var s2 := Step(s1, Run(th, addr));
    var s3 := Step(s2, Run(th, addr));
    EndsNow(s3, th, addr);
    EndsBefore(s2, th, addr, 0, SharedOf(s3), s3);
    EndsBefore(s1, th, addr, 1, SharedOf(s3), s2);
    EndsBefore(s, th, addr, 2, SharedOf(s3), s1);
  }

  /** The state once the replacement has been constructed. */
  function Replaced(s: State, th: Thread, addr: Tag, t: Tag): State {
    s.(heap := s.heap[addr := Fresh.(status := Process)], requests := s.requests + multiset{addr},
       threads := s.threads[th := Replying(t)], created := s.created + 1)
  }

  lemma ConstructAlone(s: State, th: Thread, addr: Tag, n: nat, v: Shared)
    requires s.fault.None? && th in s.threads && s.threads[th].Spawning? && addr !in s.heap
    requires s.threads[th].tag in s.heap && EndsIn(Replaced(s, th, addr, s.threads[th].tag), th, addr, n, v)
    ensures EndsIn(s, th, addr, n + 3, v)
  {
    var s1 := Step(s, Run(th, addr));
    var s2 := Step(s1, Run(th, addr));
    var s3 := Step(s2, Run(th, addr));
    assert s3 == Replaced(s, th, addr, s.threads[th].tag);
    EndsBefore(s2, th, addr, n, v, s3);
    EndsBefore(s1, th, addr, n + 1, v, s2);
    EndsBefore(s, th, addr, n + 2, v, s1);
  }

  lemma SpawnAlone(s: State, th: Thread, addr: Tag)
    requires s.fault.None? && th in s.threads && s.threads[th].Spawning? && addr !in s.heap
    requires var t := s.threads[th].tag; t in s.heap && s.heap[t].call.Some? && s.heap[t].call.value < |s.replies|
    requires s.heap[s.threads[th].tag].status == Process
    ensures EndsIn(s, th, addr, 6, Proceeded(SharedOf(s), s.threads[th].tag, addr))
  {
    FinishAlone(Replaced(s, th, addr, s.threads[th].tag), th, addr);
    ConstructAlone(s, th, addr, 3, Proceeded(SharedOf(s), s.threads[th].tag, addr));
  }

  lemma ServeAlone(s: State, th: Thread, addr: Tag)
    requires s.fault.None? && th in s.threads && s.threads[th].Dispatched? && addr !in s.heap
    requires var t := s.threads[th].tag; t in s.heap && s.heap[t].call.Some? && s.heap[t].call.value < |s.replies|
    requires s.heap[s.threads[th].tag].status == Process
    ensures EndsIn(s, th, addr, 7, Proceeded(SharedOf(s), s.threads[th].tag, addr))
  {
    var s1 := Step(s, Run(th, addr));
    SpawnAlone(s1, th, addr);
    EndsBefore(s, th, addr, 6, Proceeded(SharedOf(s), s.threads[th].tag, addr), s1);
  }

  lemma DeleteAlone(s: State, th: Thread, addr: Tag)
    requires s.fault.None? && th in s.threads && s.threads[th].Dispatched? && addr !in s.heap
    requires s.threads[th].tag in s.heap && s.heap[s.threads[th].tag].status == Finish
    ensures EndsIn(s, th, addr, 2, Proceeded(SharedOf(s), s.threads[th].tag, addr))
  {
    var s1 := Step(s, Run(th, addr));
    var s2 := Step(s1, Run(th, addr));
    EndsNow(s2, th, addr);
    EndsBefore(s1, th, addr, 0, SharedOf(s2), s2);
    EndsBefore(s, th, addr, 1, SharedOf(s2), s1);
  }

  /** The statements of `Proceed` executed by `th` without interruption end in the state `Proceeded` gives. */
  lemma ProceedIsARun(s: State, th: Thread, addr: Tag)
    requires Inv(s) && s.fault.None? && th in s.threads && s.threads[th].Dispatched? && addr !in s.heap
    ensures var t := s.threads[th].tag;
            t in s.heap && CanServe(SharedOf(s), t) &&
            exists n :: EndsIn(s, th, addr, n, Proceeded(SharedOf(s), t, addr))
  {
    var t := s.threads[th].tag;
    assert PcOk(s.heap, s.threads[th]);
    if s.heap[t].status == Process {
      ServeAlone(s, th, addr);
    } else {
      DeleteAlone(s, th, addr);
    }
  }

  lemma TwoAlone(s: State, th: Thread, addr: Tag, s1: State, s2: State)
    requires Enabled(s, Run(th, addr)) && s1 == Step(s, Run(th, addr))
    requires Enabled(s1, Run(th, addr)) && s2 == Step(s1, Run(th, addr))
    ensures Allowed(s, Alone(th, addr, 2)) && Exec(s, Alone(th, addr, 2)) == s2
  {
    var run := Alone(th, addr, 2);
    assert run[0] == Run(th, addr) && run[1..] == [Run(th, addr)] && run[1..][1..] == [];
    assert Allowed(s2, []) && Exec(s2, []) == s2;
    assert Allowed(s1, run[1..]) && Exec(s1, run[1..]) == s2;
  }

  lemma ConstructedAlone(s: State, th: Thread, addr: Tag, t: Tag, parent: Option<Tag>)
    requires s.fault.None? && th in s.threads && s.threads[th] == Constructing(t, parent)
    requires t in s.heap && s.heap[t].status == Create
    ensures Allowed(s, Alone(th, addr, 2))
    ensures SharedOf(Exec(s, Alone(th, addr, 2))) == Proceeded(SharedOf(s), t, addr)
    ensures Exec(s, Alone(th, addr, 2)).threads == s.threads[th := AfterConstructor(parent)]
  {
    var s1 := Step(s, Run(th, addr));
    var s2 := Step(s1, Run(th, addr));
    TwoAlone(s, th, addr, s1, s2);
    assert s2.threads == s.threads[th := AfterConstructor(parent)];
  }

  /** The statements of `Proceed` that the constructor executes, without interruption, end in the state `Proceeded`
      gives, back in whatever called the constructor. */
  lemma ConstructorIsARun(s: State, th: Thread, addr: Tag)
    requires Inv(s) && s.fault.None? && th in s.threads && s.threads[th].Constructing?
    ensures var Constructing(t, parent) := s.threads[th];
            && t in s.heap && s.heap[t].status == Create && Allowed(s, Alone(th, addr, 2))
            && SharedOf(Exec(s, Alone(th, addr, 2))) == Proceeded(SharedOf(s), t, addr)
            && Exec(s, Alone(th, addr, 2)).threads == s.threads[th := AfterConstructor(parent)]
  {
    assert PcOk(s.heap, s.threads[th]);
    ConstructedAlone(s, th, addr, s.threads[th].child, s.threads[th].parent);
  }
}
