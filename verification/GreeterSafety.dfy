/** Ownership in the asynchronous greeter: every live instance has exactly one token.

    A token is a requested tag, a pending Finish, an event in the queue, or a thread that is inside the
    instance's `Proceed` or constructor.  All safety properties of the server follow from counting tokens.
 */
module GreeterSafety {
  import opened Common
  import opened GreeterMachine

  type Heap = map<Tag, CallData>

  /** The instances a thread is working on. */
  function Owned(pc: Pc): set<Tag> {
    match pc
    case Waiting => {}
    case Constructing(c, p) => {c} + (if p.Some? then {p.value} else {})
    case Requesting(c, p) => {c} + (if p.Some? then {p.value} else {})
    case Dispatched(t) => {t}
    case Spawning(t) => {t}
    case Replying(t) => {t}
    case Completing(t) => {t}
    case Publishing(t) => {t}
    case Deleting(t) => {t}
  }

  function Holders(threads: map<Thread, Pc>, t: Tag): set<Thread> {
    set th | th in threads && t in Owned(threads[th])
  }

  /** How often the runtime has `t`: requested, finishing, or as an event not yet taken. */
  function AtRuntime(s: State, t: Tag): nat {
    s.requests[t] + s.finishes[t] + s.queue[Event(t, true)] + s.queue[Event(t, false)]
  }

  function Tokens(s: State, t: Tag): nat {
    AtRuntime(s, t) + |Holders(s.threads, t)|
  }

  /** A live instance has one token, a dead address none. */
  ghost predicate OneToken(s: State) {
    forall t: Tag :: Tokens(s, t) == if t in s.heap then 1 else 0
  }

  predicate Has(heap: Heap, t: Tag, status: Status) {
    t in heap && heap[t].status == status
  }

  /** `t` is bound to a call and has not started to finish. */
  predicate Bound(heap: Heap, t: Tag) {
    Has(heap, t, Process) && heap[t].call.Some?
  }

  predicate Asking(heap: Heap, t: Tag, status: Status) {
    Has(heap, t, status) && heap[t].call.None?
  }

  predicate PcOk(heap: Heap, pc: Pc) {
    match pc
    case Waiting => true
    case Constructing(c, p) => Asking(heap, c, Create) && (p.Some? ==> p.value != c && Bound(heap, p.value))
    case Requesting(c, p) => Asking(heap, c, Process) && (p.Some? ==> p.value != c && Bound(heap, p.value))
    case Dispatched(t) => Bound(heap, t) || Has(heap, t, Finish)
    case Spawning(t) => Bound(heap, t)
    case Replying(t) => Bound(heap, t)
    case Completing(t) => Bound(heap, t) && heap[t].reply == "Hello " + heap[t].request
    case Publishing(t) => Has(heap, t, Finish) && heap[t].call.Some?
                          && heap[t].reply == "Hello " + heap[t].request
    case Deleting(t) => Has(heap, t, Finish)
  }

  /** What the runtime holds agrees with the state the instance is in. */
  predicate TagOk(s: State, t: Tag) {
    && (s.requests[t] > 0 ==> Asking(s.heap, t, Process))
    && (s.finishes[t] > 0 ==> Has(s.heap, t, Finish))
    && (s.queue[Event(t, true)] > 0 ==> Bound(s.heap, t) || Has(s.heap, t, Finish))
    && (s.queue[Event(t, false)] > 0 ==> Asking(s.heap, t, Process) || Has(s.heap, t, Finish))
  }

  /** Each token agrees with the state its instance is in; this is what setting `status_` before every
      publication buys. */
  ghost predicate Agree(s: State) {
    && (forall t :: TagOk(s, t))
    && (forall th :: th in s.threads ==> PcOk(s.heap, s.threads[th]))
  }

  /** Bound instances carry the name of a call that exists. */
  ghost predicate CallsOk(s: State) {
    && |s.replies| == |s.names|
    && forall t :: t in s.heap && s.heap[t].call.Some? ==>
         s.heap[t].call.value < |s.names| && s.heap[t].request == s.names[s.heap[t].call.value]
  }

  /** The only way to stop is an event whose operation failed. */
  predicate Sound(s: State) {
    s.fault.None? || s.fault.value == NotOk
  }

  ghost predicate Inv(s: State) {
    Sound(s) && OneToken(s) && Agree(s) && CallsOk(s)
  }

  // ----- token counting

  lemma Adjust<T>(before: set<T>, after: set<T>, x: T)
    requires after - {x} == before - {x}
    ensures |after| == |before| + (if x in after then 1 else 0) - (if x in before then 1 else 0)
  {
    var others := before - {x};
    assert before == if x in before then others + {x} else others;
    assert after == if x in after then others + {x} else others;
  }

  /** How a thread's move changes the number of threads in `t`. */
  lemma Moved(threads: map<Thread, Pc>, th: Thread, pc: Pc, t: Tag)
    ensures |Holders(threads[th := pc], t)|
         == |Holders(threads, t)| + (if t in Owned(pc) then 1 else 0)
            - (if th in threads && t in Owned(threads[th]) then 1 else 0)
  {
    var before, after := Holders(threads, t), Holders(threads[th := pc], t);
    forall x ensures x in after - {th} <==> x in before - {th} {
    }
    Adjust(before, after, th);
  }

  lemma NoHolder(threads: map<Thread, Pc>, t: Tag)
    requires |Holders(threads, t)| == 0
    ensures forall th :: th in threads ==> t !in Owned(threads[th])
  {
    assert forall th :: th in threads && t in Owned(threads[th]) ==> th in Holders(threads, t);
  }

  /** The token held by a thread is the only one, so nothing else can reach the instance. */
  lemma Exclusive(s: State, th: Thread, t: Tag)
    requires OneToken(s) && th in s.threads && t in Owned(s.threads[th])
    ensures t in s.heap && AtRuntime(s, t) == 0
    ensures forall th2 :: th2 in s.threads && th2 != th ==> t !in Owned(s.threads[th2])
  {
    assert Tokens(s, t) <= 1;
    assert th in Holders(s.threads, t);
    Moved(s.threads, th, Waiting, t);
    NoHolder(s.threads[th := Waiting], t);
    assert forall th2 :: th2 in s.threads && th2 != th ==> s.threads[th := Waiting][th2] == s.threads[th2];
  }

  /** A tag the runtime has is in no thread, and the runtime has it once. */
  lemma Unheld(s: State, t: Tag)
    requires OneToken(s) && AtRuntime(s, t) >= 1
    ensures t in s.heap && AtRuntime(s, t) == 1
    ensures forall th :: th in s.threads ==> t !in Owned(s.threads[th])
  {
    assert Tokens(s, t) >= 1;
    NoHolder(s.threads, t);
  }

  lemma DeadIsUnowned(s: State, t: Tag)
    requires OneToken(s) && t !in s.heap
    ensures AtRuntime(s, t) == 0
    ensures forall th :: th in s.threads ==> t !in Owned(s.threads[th])
  {
    assert Tokens(s, t) == 0;
    NoHolder(s.threads, t);
  }

  // ----- frames

  ghost predicate SameBut(heap: Heap, heap': Heap, t: Tag) {
    forall x :: x != t ==> (x in heap <==> x in heap') && (x in heap ==> heap[x] == heap'[x])
  }

  lemma PcFrame(heap: Heap, heap': Heap, pc: Pc, t: Tag)
    requires PcOk(heap, pc) && t !in Owned(pc) && SameBut(heap, heap', t)
    ensures PcOk(heap', pc)
  {
  }

  /** A step touched only instance `t`, which no thread but `th` can see. */
  lemma AgreeAfter(s: State, s': State, th: Thread, t: Tag)
    requires Agree(s) && SameBut(s.heap, s'.heap, t)
    requires forall th2 :: th2 in s.threads && th2 != th ==> t !in Owned(s.threads[th2])
    requires th in s'.threads && s'.threads == s.threads[th := s'.threads[th]] && PcOk(s'.heap, s'.threads[th])
    requires forall x :: x != t ==> SameAtRuntime(s, s', x)
    requires TagOk(s', t)
    ensures Agree(s')
  {
    forall th2 | th2 in s'.threads ensures PcOk(s'.heap, s'.threads[th2]) {
      if th2 != th {
        PcFrame(s.heap, s'.heap, s.threads[th2], t);
      }
    }
    forall x ensures TagOk(s', x) {
      if x != t {
        assert SameAtRuntime(s, s', x) && TagOk(s, x);
      }
    }
  }

  predicate SameAtRuntime(s: State, s': State, t: Tag) {
    && s'.requests[t] == s.requests[t] && s'.finishes[t] == s.finishes[t]
    && s'.queue[Event(t, true)] == s.queue[Event(t, true)] && s'.queue[Event(t, false)] == s.queue[Event(t, false)]
  }

  /** The balance of tokens over a step of thread `th`: what it held, what it holds now, what the runtime
      gained and whether the instance lives. */
  predicate Balanced(s: State, s': State, th: Thread, t: Tag)
    requires th in s'.threads
  {
    AtRuntime(s', t) + One(t in Owned(s'.threads[th])) + One(t in s.heap)
    == AtRuntime(s, t) + One(th in s.threads && t in Owned(s.threads[th])) + One(t in s'.heap)
  }

  lemma OneTokenAfter(s: State, s': State, th: Thread)
    requires OneToken(s)
    requires th in s'.threads && s'.threads == s.threads[th := s'.threads[th]]
    requires forall t :: Balanced(s, s', th, t)
    ensures OneToken(s')
  {
    forall t: Tag ensures Tokens(s', t) == if t in s'.heap then 1 else 0 {
      assert Tokens(s, t) == if t in s.heap then 1 else 0;
      Moved(s.threads, th, s'.threads[th], t);
      assert Balanced(s, s', th, t);
    }
  }

  // ----- each statement of a thread keeps the invariant

  lemma KeepAllocation(s: State, th: Thread, addr: Tag, parent: Option<Tag>)
    requires Inv(s) && addr !in s.heap
    requires th in s.threads ==> Owned(s.threads[th]) == if parent.Some? then {parent.value} else {}
    requires th !in s.threads ==> parent.None?
    requires parent.Some? ==> Bound(s.heap, parent.value)
    ensures Inv(Allocate(s, th, addr, parent))
  {
    var s' := Allocate(s, th, addr, parent);
    DeadIsUnowned(s, addr);
    assert CallsOk(s');
    assert forall x :: SameAtRuntime(s, s', x);
    AgreeAfter(s, s', th, addr);
    assert forall x :: Balanced(s, s', th, x);
    OneTokenAfter(s, s', th);
  }

  /** The instance a statement is about. */
  function Subject(pc: Pc): Tag
    requires pc != Waiting && !pc.Spawning?
  {
    if pc.Constructing? || pc.Requesting? then pc.child else pc.tag
  }

  lemma StatementThreads(s: State, th: Thread, addr: Tag)
    requires Inv(s) && Enabled(s, Run(th, addr)) && !s.threads[th].Spawning?
    ensures var s' := RunThread(s, th, addr); th in s'.threads && s'.threads == s.threads[th := s'.threads[th]]
  {
    assert PcOk(s.heap, s.threads[th]);
  }

  lemma StatementHeap(s: State, th: Thread, addr: Tag)
    requires Inv(s) && Enabled(s, Run(th, addr)) && !s.threads[th].Spawning?
    ensures SameBut(s.heap, RunThread(s, th, addr).heap, Subject(s.threads[th]))
  {
    assert PcOk(s.heap, s.threads[th]);
  }

  lemma StatementRuntime(s: State, th: Thread, addr: Tag, x: Tag)
    requires Inv(s) && Enabled(s, Run(th, addr)) && !s.threads[th].Spawning? && x != Subject(s.threads[th])
    ensures SameAtRuntime(s, RunThread(s, th, addr), x)
  {
    assert PcOk(s.heap, s.threads[th]);
  }

  /** Only the subject's instance, and what the runtime holds of it, change. */
  lemma StatementLocal(s: State, th: Thread, addr: Tag)
    requires Inv(s) && Enabled(s, Run(th, addr)) && !s.threads[th].Spawning?
    ensures var s', t := RunThread(s, th, addr), Subject(s.threads[th]);
            && SameBut(s.heap, s'.heap, t) && (forall x :: x != t ==> SameAtRuntime(s, s', x))
            && th in s'.threads && s'.threads == s.threads[th := s'.threads[th]]
  {
    StatementThreads(s, th, addr);
    StatementHeap(s, th, addr);
    forall x | x != Subject(s.threads[th]) ensures SameAtRuntime(s, RunThread(s, th, addr), x) {
      StatementRuntime(s, th, addr, x);
    }
  }

  /** The thread and its subject agree again. */
  lemma StatementOwn(s: State, th: Thread, addr: Tag)
    requires Inv(s) && Enabled(s, Run(th, addr)) && !s.threads[th].Spawning?
    ensures var s', t := RunThread(s, th, addr), Subject(s.threads[th]);
            th in s'.threads && PcOk(s'.heap, s'.threads[th]) && TagOk(s', t)
  {
    var t := Subject(s.threads[th]);
    Exclusive(s, th, t);
    assert PcOk(s.heap, s.threads[th]) && TagOk(s, t);
  }

  lemma StatementAgrees(s: State, th: Thread, addr: Tag)
    requires Inv(s) && Enabled(s, Run(th, addr)) && !s.threads[th].Spawning?
    ensures Agree(RunThread(s, th, addr))
  {
    Exclusive(s, th, Subject(s.threads[th]));
    StatementLocal(s, th, addr);
    StatementOwn(s, th, addr);
    AgreeAfter(s, RunThread(s, th, addr), th, Subject(s.threads[th]));
  }

  /** The statement gives its subject to the runtime or deletes it. */
  predicate GivesUp(pc: Pc) {
    pc.Requesting? || pc.Publishing? || pc.Deleting?
  }

  /** The thread keeps what it owned, every instance lives on, and the runtime is not involved. */
  predicate KeepsAll(s: State, s': State, th: Thread) {
    && s'.requests == s.requests && s'.finishes == s.finishes && s'.queue == s.queue && s'.heap.Keys == s.heap.Keys
    && th in s.threads && th in s'.threads && s'.threads == s.threads[th := s'.threads[th]]
    && Owned(s'.threads[th]) == Owned(s.threads[th])
  }

  lemma KeepsAllBalances(s: State, s': State, th: Thread)
    requires OneToken(s) && KeepsAll(s, s', th)
    ensures OneToken(s')
  {
    forall x ensures Balanced(s, s', th, x) {
      assert x in s.heap.Keys <==> x in s'.heap.Keys;
    }
    OneTokenAfter(s, s', th);
  }

  lemma StatementKeepsAll(s: State, th: Thread, addr: Tag)
    requires Inv(s) && Enabled(s, Run(th, addr)) && !s.threads[th].Spawning? && !GivesUp(s.threads[th])
    ensures KeepsAll(s, RunThread(s, th, addr), th)
  {
    assert PcOk(s.heap, s.threads[th]);
  }

  lemma RequestBalances(s: State, th: Thread, addr: Tag)
    requires Inv(s) && Enabled(s, Run(th, addr)) && s.threads[th].Requesting?
    ensures OneToken(RunThread(s, th, addr))
  {
    var s' := RunThread(s, th, addr);
    assert PcOk(s.heap, s.threads[th]);
    assert forall x :: Balanced(s, s', th, x);
    OneTokenAfter(s, s', th);
  }

  lemma PublishBalances(s: State, th: Thread, addr: Tag)
    requires Inv(s) && Enabled(s, Run(th, addr)) && s.threads[th].Publishing?
    ensures OneToken(RunThread(s, th, addr))
  {
    var s' := RunThread(s, th, addr);
    assert PcOk(s.heap, s.threads[th]);
    assert forall x :: Balanced(s, s', th, x);
    OneTokenAfter(s, s', th);
  }

  lemma DeleteBalances(s: State, th: Thread, addr: Tag)
    requires Inv(s) && Enabled(s, Run(th, addr)) && s.threads[th].Deleting?
    ensures OneToken(RunThread(s, th, addr))
  {
    var s' := RunThread(s, th, addr);
    assert PcOk(s.heap, s.threads[th]);
    assert forall x :: Balanced(s, s', th, x);
    OneTokenAfter(s, s', th);
  }

  lemma StatementBalances(s: State, th: Thread, addr: Tag)
    requires Inv(s) && Enabled(s, Run(th, addr)) && !s.threads[th].Spawning?
    ensures OneToken(RunThread(s, th, addr))
  {
    if s.threads[th].Requesting? {
      RequestBalances(s, th, addr);
    } else if s.threads[th].Publishing? {
      PublishBalances(s, th, addr);
    } else if s.threads[th].Deleting? {
      DeleteBalances(s, th, addr);
    } else {
      StatementKeepsAll(s, th, addr);
      KeepsAllBalances(s, RunThread(s, th, addr), th);
    }
  }

  lemma StatementCalls(s: State, th: Thread, addr: Tag)
    requires Inv(s) && Enabled(s, Run(th, addr)) && !s.threads[th].Spawning?
    ensures CallsOk(RunThread(s, th, addr)) && Sound(RunThread(s, th, addr))
  {
    assert PcOk(s.heap, s.threads[th]);
  }

  lemma KeepStatement(s: State, th: Thread, addr: Tag)
    requires Inv(s) && Enabled(s, Run(th, addr)) && !s.threads[th].Spawning?
    ensures Inv(RunThread(s, th, addr))
  {
    StatementAgrees(s, th, addr);
    StatementBalances(s, th, addr);
    StatementCalls(s, th, addr);
  }

  lemma TakeBalances(s: State, th: Thread, e: Event)
    requires Inv(s) && Enabled(s, Take(th, e)) && e.ok
    ensures OneToken(Step(s, Take(th, e)))
  {
    var s' := Step(s, Take(th, e));
    assert e == Event(e.tag, true);
    assert forall x :: Balanced(s, s', th, x);
    OneTokenAfter(s, s', th);
  }

  lemma TakenByOne(s: State, th: Thread, e: Event)
    requires Inv(s) && Enabled(s, Take(th, e)) && e.ok
    ensures var s' := Step(s, Take(th, e));
            AtRuntime(s, e.tag) == 1 && AtRuntime(s', e.tag) == 0 && Holders(s'.threads, e.tag) == {th}
  {
    assert e == Event(e.tag, true);
    Unheld(s, e.tag);
  }

  lemma KeepTake(s: State, th: Thread, e: Event)
    requires Inv(s) && Enabled(s, Take(th, e)) && e.ok
    ensures Inv(Step(s, Take(th, e)))
    ensures var s' := Step(s, Take(th, e));
            AtRuntime(s, e.tag) == 1 && AtRuntime(s', e.tag) == 0 && Holders(s'.threads, e.tag) == {th}
  {
    var s', t := Step(s, Take(th, e)), e.tag;
    TakenByOne(s, th, e);
    TakeBalances(s, th, e);
    Unheld(s, t);
    assert TagOk(s, t);
    assert e == Event(t, true);
    assert forall x :: x != t ==> SameAtRuntime(s, s', x);
    AgreeAfter(s, s', th, t);
  }

  // ----- each step of the runtime keeps the invariant

  /** The runtime passed `t` on to its queue; it may have written into the instance. */
  lemma KeepRuntime(s: State, s': State, t: Tag)
    requires Inv(s) && Sound(s') && CallsOk(s') && s'.threads == s.threads
    requires AtRuntime(s, t) >= 1 && AtRuntime(s', t) == AtRuntime(s, t)
    requires SameBut(s.heap, s'.heap, t) && s'.heap.Keys == s.heap.Keys
    requires forall x :: x != t ==> SameAtRuntime(s, s', x)
    requires TagOk(s', t)
    ensures Inv(s')
  {
    Unheld(s, t);
    forall th | th in s'.threads ensures PcOk(s'.heap, s'.threads[th]) {
      PcFrame(s.heap, s'.heap, s.threads[th], t);
    }
    forall x ensures TagOk(s', x) && Tokens(s', x) == One(x in s'.heap) {
      assert Tokens(s, x) == One(x in s.heap);
      if x != t {
        assert SameAtRuntime(s, s', x) && TagOk(s, x);
      }
    }
  }

  lemma KeepMatch(s: State, t: Tag, name: string)
    requires Inv(s) && Enabled(s, Match(t, name))
    ensures Inv(Step(s, Match(t, name)))
  {
    var s' := Step(s, Match(t, name));
    Unheld(s, t);
    assert TagOk(s, t);
    assert CallsOk(s');
    assert forall x :: x != t ==> SameAtRuntime(s, s', x);
    KeepRuntime(s, s', t);
  }

  lemma KeepRefuse(s: State, t: Tag)
    requires Inv(s) && Enabled(s, Refuse(t))
    ensures Inv(Step(s, Refuse(t)))
  {
    var s' := Step(s, Refuse(t));
    assert TagOk(s, t);
    assert forall x :: x != t ==> SameAtRuntime(s, s', x);
    KeepRuntime(s, s', t);
  }

  lemma KeepSent(s: State, t: Tag, ok: bool)
    requires Inv(s) && Enabled(s, Sent(t, ok))
    ensures Inv(Step(s, Sent(t, ok)))
  {
    var s' := Step(s, Sent(t, ok));
    Unheld(s, t);
    assert TagOk(s, t);
    assert forall x :: x != t ==> SameAtRuntime(s, s', x);
    KeepRuntime(s, s', t);
  }

  lemma KeepAbort(s: State, th: Thread, e: Event)
    requires Inv(s) && Enabled(s, Take(th, e)) && !e.ok
    ensures Inv(Step(s, Take(th, e)))
  {
    var s' := Step(s, Take(th, e));
    forall x ensures TagOk(s', x) && Tokens(s', x) == One(x in s'.heap) {
      assert TagOk(s, x) && Tokens(s, x) == One(x in s.heap);
    }
  }

  // ----- runs

  lemma InvRunThread(s: State, th: Thread, addr: Tag)
    requires Inv(s) && Enabled(s, Run(th, addr))
    ensures Inv(RunThread(s, th, addr))
  {
    match s.threads[th] {
      case Spawning(t) =>
        assert PcOk(s.heap, s.threads[th]);
        KeepAllocation(s, th, addr, Some(t));
      case _ => KeepStatement(s, th, addr);
    }
  }

  lemma InvStep(s: State, a: Action)
    requires Inv(s) && Enabled(s, a)
    ensures Inv(Step(s, a))
  {
    match a {
      case Enter(th, addr) => KeepAllocation(s, th, addr, None);
      case Run(th, addr) => InvRunThread(s, th, addr);
      case Take(th, e) => if e.ok { KeepTake(s, th, e); } else { KeepAbort(s, th, e); }
      case Match(t, name) => KeepMatch(s, t, name);
      case Refuse(t) => KeepRefuse(s, t);
      case Sent(t, ok) => KeepSent(s, t, ok);
    }
  }

  lemma InvInit()
    ensures Inv(Init)
  {
    forall t: Tag ensures Tokens(Init, t) == 0 {
      assert Holders(Init.threads, t) == {};
    }
  }

  lemma {:induction false} InvExec(s: State, run: seq<Action>)
    requires Inv(s) && Allowed(s, run)
    ensures Inv(Exec(s, run))
    decreases |run|
  {
    if run != [] {
      InvStep(s, run[0]);
      InvExec(Step(s, run[0]), run[1..]);
    }
  }

  /** Main result.  However many threads run `HandleRpcs`, whatever the runtime does and however addresses
      are reused: a live instance has exactly one token and a dead one has none, two threads are never in
      the same instance, no deleted instance is touched, the assertion on `status_` never fails, and the
      server stops only on an event whose operation failed. */
  lemma ServerIsSafe(run: seq<Action>)
    requires Allowed(Init, run)
    ensures var s := Exec(Init, run);
            && (forall t: Tag :: Tokens(s, t) == if t in s.heap then 1 else 0)
            && (forall t, th1, th2 | th1 in s.threads && th2 in s.threads ::
                  t in Owned(s.threads[th1]) && t in Owned(s.threads[th2]) ==> th1 == th2)
            && (s.fault.Some? ==> s.fault.value == NotOk)
  {
    InvInit();
    InvExec(Init, run);
    var s := Exec(Init, run);
    forall t, th1, th2 | th1 in s.threads && th2 in s.threads
                         && t in Owned(s.threads[th1]) && t in Owned(s.threads[th2]) ensures th1 == th2 {
      Exclusive(s, th1, t);
    }
  }
}
