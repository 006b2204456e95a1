/** What the asynchronous greeter does for its clients: every matched call is answered exactly once with its
    own name, the number of instances listening for a call never changes while the loops run, and a server at
    rest has deleted everything else.
 */
module GreeterService {
  import opened Common
  import opened GreeterMachine
  import opened GreeterSafety

  /** The part of `Proceed` a thread is in: after the replacement was allocated and before `status_` is FINISH,
      or between that assignment and the publication of the reply. */
  datatype Phase = Serving | Answering

  predicate Doing(pc: Pc, t: Tag, phase: Phase) {
    match phase
    case Serving =>
      || ((pc.Constructing? || pc.Requesting?) && pc.parent == Some(t))
      || pc == Replying(t) || pc == Completing(t)
    case Answering => pc == Publishing(t)
  }

  ghost predicate Busy(threads: map<Thread, Pc>, t: Tag, phase: Phase) {
    exists th :: th in threads && Doing(threads[th], t, phase)
  }

  /** Instances that are waiting for a call, or hold one and have not yet been replaced. */
  ghost function Listening(s: State): set<Tag> {
    set t | t in s.heap && s.heap[t].status != Finish && !Busy(s.threads, t, Serving)
  }

  /** Listening instances that already hold a call. */
  ghost function Matched(s: State): set<Tag> {
    set t | t in Listening(s) && s.heap[t].call.Some?
  }

  /** The instance holds a call whose reply has not been handed to the runtime. */
  ghost predicate Unanswered(s: State, t: Tag) {
    t in s.heap && s.heap[t].call.Some? && (s.heap[t].status != Finish || Busy(s.threads, t, Answering))
  }

  // ----- who is busy with an instance

  lemma BusyHeld(s: State, th: Thread, t: Tag, phase: Phase)
    requires OneToken(s) && th in s.threads && t in Owned(s.threads[th])
    ensures Busy(s.threads, t, phase) <==> Doing(s.threads[th], t, phase)
  {
    Exclusive(s, th, t);
  }

  lemma BusyElsewhere(threads: map<Thread, Pc>, th: Thread, pc: Pc, t: Tag, phase: Phase)
    requires t !in Owned(pc) && (th in threads ==> t !in Owned(threads[th]))
    ensures Busy(threads[th := pc], t, phase) <==> Busy(threads, t, phase)
  {
    if Busy(threads, t, phase) {
      var th2 :| th2 in threads && Doing(threads[th2], t, phase);
      assert Doing(threads[th := pc][th2], t, phase);
    }
  }

  /** Once a thread has let go of an instance, no thread is busy with it. */
  lemma BusyReleased(s: State, s': State, th: Thread, t: Tag, phase: Phase)
    requires OneToken(s) && th in s.threads && t in Owned(s.threads[th])
    requires th in s'.threads && s'.threads == s.threads[th := s'.threads[th]] && t !in Owned(s'.threads[th])
    ensures !Busy(s'.threads, t, phase)
  {
    Exclusive(s, th, t);
  }

  // ----- steps that change nobody's role

  ghost predicate SameView(s: State, s': State, t: Tag) {
    && (t in Listening(s) <==> t in Listening(s'))
    && (t in Matched(s) <==> t in Matched(s'))
    && (Unanswered(s, t) <==> Unanswered(s', t))
    && (Unanswered(s, t) ==> s'.heap[t].call == s.heap[t].call)
  }

  ghost predicate SameInstance(s: State, s': State, t: Tag) {
    (t in s.heap <==> t in s'.heap) && (t in s.heap ==> s.heap[t] == s'.heap[t])
  }

  lemma SameRole(s: State, s': State, th: Thread, t: Tag)
    requires th in s'.threads && s'.threads == s.threads[th := s'.threads[th]] && SameInstance(s, s', t)
    requires t !in Owned(s'.threads[th]) && (th in s.threads ==> t !in Owned(s.threads[th]))
    ensures SameView(s, s', t)
  {
    BusyElsewhere(s.threads, th, s'.threads[th], t, Serving);
    BusyElsewhere(s.threads, th, s'.threads[th], t, Answering);
  }

  predicate IsQuiet(pc: Pc) {
    pc.Constructing? || pc.Requesting? || pc.Dispatched? || pc.Replying? || pc.Completing? || pc.Deleting?
  }

  /** Only thread `th` can be busy with `t`. */
  ghost predicate OnlyBusy(s: State, th: Thread, t: Tag) {
    && th in s.threads
    && (Busy(s.threads, t, Serving) <==> Doing(s.threads[th], t, Serving))
    && (Busy(s.threads, t, Answering) <==> Doing(s.threads[th], t, Answering))
  }

  /** An instance the thread keeps, gives to the runtime or deletes. */
  lemma OwnRole(s: State, s': State, th: Thread, t: Tag)
    requires OneToken(s) && OneToken(s') && th in s.threads && t in Owned(s.threads[th])
    requires th in s'.threads && s'.threads == s.threads[th := s'.threads[th]]
    ensures OnlyBusy(s, th, t) && OnlyBusy(s', th, t)
  {
    BusyHeld(s, th, t, Serving);
    BusyHeld(s, th, t, Answering);
    if t in Owned(s'.threads[th]) {
      BusyHeld(s', th, t, Serving);
      BusyHeld(s', th, t, Answering);
    } else {
      BusyReleased(s, s', th, t, Serving);
      BusyReleased(s, s', th, t, Answering);
    }
  }

  lemma QuietOwned(s: State, th: Thread, addr: Tag, t: Tag)
    requires Enabled(s, Run(th, addr)) && IsQuiet(s.threads[th]) && t in Owned(s.threads[th])
    requires PcOk(s.heap, s.threads[th]) && OnlyBusy(s, th, t) && OnlyBusy(RunThread(s, th, addr), th, t)
    ensures SameView(s, RunThread(s, th, addr), t)
  {
  }

  lemma QuietElsewhere(s: State, th: Thread, addr: Tag, t: Tag)
    requires Enabled(s, Run(th, addr)) && IsQuiet(s.threads[th]) && t !in Owned(s.threads[th])
    requires PcOk(s.heap, s.threads[th])
    ensures SameView(s, RunThread(s, th, addr), t)
  {
    SameRole(s, RunThread(s, th, addr), th, t);
  }

  lemma QuietOwn(s: State, th: Thread, addr: Tag, t: Tag, s': State)
    requires Inv(s) && Enabled(s, Run(th, addr)) && IsQuiet(s.threads[th]) && t in Owned(s.threads[th])
    requires s' == RunThread(s, th, addr) && OneToken(s')
    ensures SameView(s, s', t)
  {
    assert PcOk(s.heap, s.threads[th]);
    StatementThreads(s, th, addr);
    OwnRole(s, s', th, t);
    QuietOwned(s, th, addr, t);
  }

  lemma QuietThread(s: State, th: Thread, addr: Tag, t: Tag)
    requires Inv(s) && Enabled(s, Run(th, addr)) && IsQuiet(s.threads[th])
    ensures SameView(s, RunThread(s, th, addr), t)
  {
    if t in Owned(s.threads[th]) {
      InvRunThread(s, th, addr);
      QuietOwn(s, th, addr, t, RunThread(s, th, addr));
    } else {
      assert PcOk(s.heap, s.threads[th]);
      QuietElsewhere(s, th, addr, t);
    }
  }

  lemma QuietTake(s: State, th: Thread, e: Event, t: Tag)
    requires Enabled(s, Take(th, e)) && e.ok && OneToken(s) && OneToken(Step(s, Take(th, e)))
    ensures SameView(s, Step(s, Take(th, e)), t)
  {
    var s' := Step(s, Take(th, e));
    if t != e.tag {
      SameRole(s, s', th, t);
    } else {
      assert e == Event(t, true);
      Unheld(s, t);
      BusyHeld(s', th, t, Serving);
      BusyHeld(s', th, t, Answering);
    }
  }

  // ----- steps that change a role

  /** A thread outside any instance, or at the point of replacing `parent`, allocates at a free address. */
  ghost predicate Allocates(s: State, th: Thread, addr: Tag, parent: Option<Tag>) {
    && OneToken(s) && addr !in s.heap && OneToken(Allocate(s, th, addr, parent))
    && (th in s.threads ==> s.threads[th] == if parent.Some? then Spawning(parent.value) else Waiting)
    && (th !in s.threads ==> parent.None?)
    && (parent.Some? ==> Bound(s.heap, parent.value))
  }

  lemma ChildRole(s: State, th: Thread, addr: Tag, parent: Option<Tag>)
    requires Allocates(s, th, addr, parent)
    ensures var s' := Allocate(s, th, addr, parent);
            addr !in Listening(s) && addr in Listening(s') && addr !in Matched(s')
            && !Unanswered(s, addr) && !Unanswered(s', addr)
  {
    BusyHeld(Allocate(s, th, addr, parent), th, addr, Serving);
  }

  lemma ParentRole(s: State, th: Thread, addr: Tag, t: Tag)
    requires Allocates(s, th, addr, Some(t))
    ensures var s' := Allocate(s, th, addr, Some(t));
            t in Matched(s) && t !in Listening(s') && Unanswered(s, t) && Unanswered(s', t) && s'.heap[t] == s.heap[t]
  {
    OwnRole(s, Allocate(s, th, addr, Some(t)), th, t);
  }

  /** A new instance listens; the one it replaces, if any, no longer does. */
  lemma AllocationRole(s: State, th: Thread, addr: Tag, parent: Option<Tag>, t: Tag)
    requires Allocates(s, th, addr, parent)
    ensures var s' := Allocate(s, th, addr, parent);
            && (t != addr && Some(t) != parent ==> SameView(s, s', t))
            && (t == addr ==> t !in Listening(s) && t in Listening(s') && t !in Matched(s')
                              && !Unanswered(s, t) && !Unanswered(s', t))
            && (Some(t) == parent ==> t in Matched(s) && t !in Listening(s') && Unanswered(s, t) && Unanswered(s', t)
                                      && s'.heap[t] == s.heap[t])
  {
    if t == addr {
      ChildRole(s, th, addr, parent);
    } else if Some(t) == parent {
      ParentRole(s, th, addr, t);
    } else {
      SameRole(s, Allocate(s, th, addr, parent), th, t);
    }
  }

  lemma MatchRole(s: State, tag: Tag, name: string, t: Tag)
    requires OneToken(s) && TagOk(s, tag) && Enabled(s, Match(tag, name))
    ensures var s' := Step(s, Match(tag, name));
            && (t != tag ==> SameView(s, s', t))
            && (t == tag ==> t in Listening(s) && t !in Matched(s) && t in Matched(s')
                             && !Unanswered(s, t) && Unanswered(s', t))
  {
    Unheld(s, tag);
  }

  lemma PublicationRole(s: State, th: Thread, addr: Tag, t: Tag)
    requires Enabled(s, Run(th, addr)) && s.threads[th].Publishing?
    requires OneToken(s) && OneToken(RunThread(s, th, addr)) && PcOk(s.heap, s.threads[th]) && CallsOk(s)
    ensures var s' := RunThread(s, th, addr);
            && (t != s.threads[th].tag ==> SameView(s, s', t))
            && (t == s.threads[th].tag ==> t !in Listening(s) && t !in Listening(s')
                                           && Unanswered(s, t) && !Unanswered(s', t))
  {
    var s' := RunThread(s, th, addr);
    Exclusive(s, th, s.threads[th].tag);
    if t != s.threads[th].tag {
      SameRole(s, s', th, t);
    } else {
      OwnRole(s, s', th, t);
    }
  }

  // ----- conservation

  /** One listening instance per entered loop, and one creation per loop and per call taken over by a
      replacement. */
  ghost predicate Conserved(s: State) {
    && |Listening(s)| == s.entered
    && s.created + |Matched(s)| == s.entered + |s.names|
  }

  /** An unanswered call is held by exactly one instance; an answered call got exactly one reply, its own. */
  ghost predicate Answers(s: State) {
    && |s.replies| == |s.names|
    && (forall t1, t2 :: Unanswered(s, t1) && Unanswered(s, t2) && s.heap[t1].call == s.heap[t2].call ==> t1 == t2)
    && (forall t :: Unanswered(s, t) ==> s.heap[t].call.value < |s.names| && s.replies[s.heap[t].call.value] == [])
    && (forall k :: 0 <= k < |s.names| ==>
          || s.replies[k] == ["Hello " + s.names[k]]
          || exists t :: Unanswered(s, t) && s.heap[t].call == Some(k))
  }

  lemma SameSets(s: State, s': State)
    requires forall t :: SameView(s, s', t)
    ensures Listening(s') == Listening(s) && Matched(s') == Matched(s)
    ensures forall t :: Unanswered(s', t) <==> Unanswered(s, t)
    ensures forall t :: Unanswered(s', t) ==> t in s.heap && s'.heap[t].call == s.heap[t].call
  {
    forall t ensures t in Listening(s') <==> t in Listening(s) { assert SameView(s, s', t); }
    forall t ensures t in Matched(s') <==> t in Matched(s) { assert SameView(s, s', t); }
    forall t ensures Unanswered(s', t) <==> Unanswered(s, t) { assert SameView(s, s', t); }
    forall t | Unanswered(s', t) ensures t in s.heap && s'.heap[t].call == s.heap[t].call { assert SameView(s, s', t); }
  }

  lemma QuietKeeps(s: State, s': State)
    requires Conserved(s) && Answers(s)
    requires forall t :: SameView(s, s', t)
    requires s'.names == s.names && s'.replies == s.replies && s'.entered == s.entered && s'.created == s.created
    ensures Conserved(s') && Answers(s')
  {
    SameSets(s, s');
    SameAnswers(s, s');
  }

  function Replaced(parent: Option<Tag>): set<Tag> {
    if parent.Some? then {parent.value} else {}
  }

  lemma AllocationSets(s: State, th: Thread, addr: Tag, parent: Option<Tag>)
    requires Allocates(s, th, addr, parent)
    ensures var s' := Allocate(s, th, addr, parent);
            && Listening(s') == Listening(s) - Replaced(parent) + {addr}
            && Matched(s') == Matched(s) - Replaced(parent)
            && addr !in Listening(s) && Replaced(parent) <= Matched(s)
  {
    var s' := Allocate(s, th, addr, parent);
    forall t ensures && (t in Listening(s') <==> t in Listening(s) - Replaced(parent) + {addr})
                     && (t in Matched(s') <==> t in Matched(s) - Replaced(parent))
                     && (t in Replaced(parent) ==> t in Matched(s))
    {
      AllocationRole(s, th, addr, parent, t);
    }
    ChildRole(s, th, addr, parent);
  }

  lemma AllocationConserves(s: State, th: Thread, addr: Tag, parent: Option<Tag>)
    requires Allocates(s, th, addr, parent) && Conserved(s)
    ensures Conserved(Allocate(s, th, addr, parent))
  {
    var s' := Allocate(s, th, addr, parent);
    AllocationSets(s, th, addr, parent);
    AllocationCounts(Listening(s), Matched(s), Listening(s'), Matched(s'), addr, Replaced(parent));
    assert |Replaced(parent)| == if parent.Some? then 1 else 0;
  }

  lemma AllocationKeeps(s: State, th: Thread, addr: Tag, parent: Option<Tag>)
    requires Allocates(s, th, addr, parent) && Conserved(s) && Answers(s)
    ensures var s' := Allocate(s, th, addr, parent); Conserved(s') && Answers(s')
  {
    var s' := Allocate(s, th, addr, parent);
    AllocationConserves(s, th, addr, parent);
    forall t ensures && (Unanswered(s', t) <==> Unanswered(s, t))
                     && (Unanswered(s', t) ==> t in s.heap && s'.heap[t].call == s.heap[t].call)
    {
      AllocationRole(s, th, addr, parent, t);
    }
    SameAnswers(s, s');
  }

  lemma AllocationCounts(listening: set<Tag>, matched: set<Tag>, listening': set<Tag>, matched': set<Tag>,
                         addr: Tag, gone: set<Tag>)
    requires addr !in listening && gone <= matched <= listening
    requires listening' == listening - gone + {addr} && matched' == matched - gone
    ensures |listening'| == |listening| - |gone| + 1 && |matched'| == |matched| - |gone|
  {
    assert |listening - gone| == |listening| - |gone|;
    assert |matched - gone| == |matched| - |gone|;
  }

  lemma SameAnswers(s: State, s': State)
    requires Answers(s) && s'.names == s.names && s'.replies == s.replies
    requires forall t :: Unanswered(s', t) <==> Unanswered(s, t)
    requires forall t :: Unanswered(s', t) ==> t in s.heap && s'.heap[t].call == s.heap[t].call
    ensures Answers(s')
  {
    forall k | 0 <= k < |s'.names| && s'.replies[k] != ["Hello " + s'.names[k]]
      ensures exists t :: Unanswered(s', t) && s'.heap[t].call == Some(k)
    {
      var t :| Unanswered(s, t) && s.heap[t].call == Some(k);
      assert Unanswered(s', t);
    }
  }

  lemma MatchConserves(s: State, tag: Tag, name: string)
    requires Inv(s) && Conserved(s) && Enabled(s, Match(tag, name))
    ensures Conserved(Step(s, Match(tag, name)))
  {
    var s' := Step(s, Match(tag, name));
    assert TagOk(s, tag);
    forall t ensures && (t in Listening(s') <==> t in Listening(s))
                     && (t in Matched(s') <==> t in Matched(s) + {tag})
    {
      MatchRole(s, tag, name, t);
    }
    MatchRole(s, tag, name, tag);
    assert Listening(s') == Listening(s);
    assert Matched(s') == Matched(s) + {tag};
  }

  lemma MatchKeeps(s: State, tag: Tag, name: string)
    requires Inv(s) && Conserved(s) && Answers(s) && Enabled(s, Match(tag, name))
    ensures var s' := Step(s, Match(tag, name)); Conserved(s') && Answers(s')
  {
    var s' := Step(s, Match(tag, name));
    MatchConserves(s, tag, name);
    assert TagOk(s, tag);
    forall t ensures && (Unanswered(s', t) <==> Unanswered(s, t) || t == tag)
                     && (Unanswered(s', t) && t != tag ==> t in s.heap && s'.heap[t].call == s.heap[t].call)
    {
      MatchRole(s, tag, name, t);
    }
    MatchRole(s, tag, name, tag);
    MatchAnswers(s, s', tag);
  }

  lemma MatchAnswers(s: State, s': State, tag: Tag)
    requires Answers(s) && |s'.names| == |s.names| + 1 && s'.names[..|s.names|] == s.names
    requires s'.replies == s.replies + [[]]
    requires forall t :: Unanswered(s', t) <==> Unanswered(s, t) || t == tag
    requires forall t :: Unanswered(s', t) && t != tag ==> t in s.heap && s'.heap[t].call == s.heap[t].call
    requires !Unanswered(s, tag) && tag in s'.heap && s'.heap[tag].call == Some(|s.names|)
    ensures Answers(s')
  {
    forall t | Unanswered(s', t) && t != tag ensures s'.heap[t].call.value < |s.names| {
      assert Unanswered(s, t);
    }
    forall k | 0 <= k < |s'.names| && s'.replies[k] != ["Hello " + s'.names[k]]
      ensures exists t :: Unanswered(s', t) && s'.heap[t].call == Some(k)
    {
      if k == |s.names| {
        assert Unanswered(s', tag);
      } else {
        assert s'.names[k] == s'.names[..|s.names|][k];
        var t :| Unanswered(s, t) && s.heap[t].call == Some(k);
        assert Unanswered(s', t);
      }
    }
  }

  lemma PublicationSets(s: State, th: Thread, addr: Tag)
    requires Inv(s) && Enabled(s, Run(th, addr)) && s.threads[th].Publishing? && OneToken(RunThread(s, th, addr))
    ensures var s' := RunThread(s, th, addr); Listening(s') == Listening(s) && Matched(s') == Matched(s)
  {
    var s' := RunThread(s, th, addr);
    assert PcOk(s.heap, s.threads[th]);
    forall t ensures && (t in Listening(s') <==> t in Listening(s)) && (t in Matched(s') <==> t in Matched(s)) {
      PublicationRole(s, th, addr, t);
    }
  }

  lemma PublicationKeeps(s: State, th: Thread, addr: Tag)
    requires Inv(s) && Conserved(s) && Answers(s) && Enabled(s, Run(th, addr)) && s.threads[th].Publishing?
    ensures var s' := RunThread(s, th, addr); Conserved(s') && Answers(s')
  {
    var s', tag := RunThread(s, th, addr), s.threads[th].tag;
    KeepStatement(s, th, addr);
    PublicationSets(s, th, addr);
    assert PcOk(s.heap, s.threads[th]);
    forall t ensures && (Unanswered(s', t) <==> Unanswered(s, t) && t != tag)
                     && (Unanswered(s', t) ==> t in s.heap && s'.heap[t].call == s.heap[t].call)
    {
      PublicationRole(s, th, addr, t);
    }
    PublicationRole(s, th, addr, tag);
    PublicationAnswers(s, s', tag);
  }

  lemma PublicationAnswers(s: State, s': State, tag: Tag)
    requires Answers(s) && s'.names == s.names
    requires forall t :: Unanswered(s', t) <==> Unanswered(s, t) && t != tag
    requires forall t :: Unanswered(s', t) ==> t in s.heap && s'.heap[t].call == s.heap[t].call
    requires Unanswered(s, tag) && s.heap[tag].call.value < |s.names|
    requires var k := s.heap[tag].call.value; s'.replies == s.replies[k := s.replies[k] + ["Hello " + s.names[k]]]
    ensures Answers(s')
  {
    var k0 := s.heap[tag].call.value;
    assert s'.replies[k0] == ["Hello " + s.names[k0]];
    forall k | 0 <= k < |s'.names| && s'.replies[k] != ["Hello " + s'.names[k]]
      ensures exists t :: Unanswered(s', t) && s'.heap[t].call == Some(k)
    {
      var t :| Unanswered(s, t) && s.heap[t].call == Some(k);
      assert Unanswered(s', t);
    }
  }

  // ----- runs

  ghost predicate Serves(s: State) {
    Inv(s) && Conserved(s) && Answers(s)
  }

  lemma ServesThread(s: State, th: Thread, addr: Tag)
    requires Serves(s) && Enabled(s, Run(th, addr))
    ensures Serves(RunThread(s, th, addr))
  {
    var s' := RunThread(s, th, addr);
    InvRunThread(s, th, addr);
    if IsQuiet(s.threads[th]) {
      forall t ensures SameView(s, s', t) { QuietThread(s, th, addr, t); }
      QuietLedger(s, th, addr);
      QuietKeeps(s, s');
    } else if s.threads[th].Spawning? {
      assert PcOk(s.heap, s.threads[th]);
      AllocationKeeps(s, th, addr, Some(s.threads[th].tag));
    } else {
      PublicationKeeps(s, th, addr);
    }
  }

  lemma QuietLedger(s: State, th: Thread, addr: Tag)
    requires Enabled(s, Run(th, addr)) && IsQuiet(s.threads[th])
    ensures var s' := RunThread(s, th, addr);
            s'.names == s.names && s'.replies == s.replies && s'.entered == s.entered && s'.created == s.created
  {
  }

  lemma ServesQuietly(s: State, a: Action)
    requires Serves(s) && Enabled(s, a) && (a.Take? || a.Refuse? || a.Sent?)
    ensures Conserved(Step(s, a)) && Answers(Step(s, a))
  {
    var s' := Step(s, a);
    InvStep(s, a);
    forall t ensures SameView(s, s', t) {
      if a.Take? && a.e.ok {
        QuietTake(s, a.th, a.e, t);
      }
    }
    QuietKeeps(s, s');
  }

  lemma ServesStep(s: State, a: Action)
    requires Serves(s) && Enabled(s, a)
    ensures Serves(Step(s, a))
  {
    InvStep(s, a);
    match a {
      case Enter(th, addr) => AllocationKeeps(s, th, addr, None);
      case Run(th, addr) => ServesThread(s, th, addr);
      case Match(t, name) => MatchKeeps(s, t, name);
      case _ => ServesQuietly(s, a);
    }
  }

  lemma {:induction false} ServesExec(s: State, run: seq<Action>)
    requires Serves(s) && Allowed(s, run)
    ensures Serves(Exec(s, run))
    decreases |run|
  {
    if run != [] {
      ServesStep(s, run[0]);
      ServesExec(Step(s, run[0]), run[1..]);
    }
  }

  lemma ServesInit()
    ensures Serves(Init)
  {
    InvInit();
    assert Listening(Init) == {};
    assert Matched(Init) == {};
  }

  /** The names of the calls that come in during the run, in order. */
  function Incoming(run: seq<Action>): seq<string> {
    if run == [] then [] else NameIn(run[0]) + Incoming(run[1..])
  }

  function NameIn(a: Action): seq<string> {
    if a.Match? then [a.name] else []
  }

  lemma NamesStep(s: State, a: Action)
    requires Inv(s) && Enabled(s, a)
    ensures Step(s, a).names == s.names + NameIn(a)
  {
    if a.Match? {
      assert TagOk(s, a.tag);
    }
  }

  lemma Regroup(a: seq<string>, b: seq<string>, c: seq<string>)
    ensures a + b + c == a + (b + c)
  {
  }

  lemma {:induction false} NamesExec(s: State, run: seq<Action>)
    requires Inv(s) && Allowed(s, run)
    ensures Exec(s, run).names == s.names + Incoming(run)
    decreases |run|
  {
    if run != [] {
      NamesStep(s, run[0]);
      InvStep(s, run[0]);
      NamesExec(Step(s, run[0]), run[1..]);
      Regroup(s.names, NameIn(run[0]), Incoming(run[1..]));
    }
  }

  /** Instance `t` holds call `k` and has not answered it. */
  ghost predicate Holds(s: State, t: Tag, k: nat) {
    Unanswered(s, t) && s.heap[t].call == Some(k)
  }

  /** Main result.  In every run the number of listening instances equals the number of loops entered, every
      creation is accounted for by a loop or by a call whose instance has been replaced, and every incoming call is
      either answered once, with "Hello " and its own name, or held unanswered by exactly one live instance. */
  lemma ServerServes(run: seq<Action>)
    requires Allowed(Init, run)
    ensures var s := Exec(Init, run);
            && s.names == Incoming(run)
            && |Listening(s)| == s.entered
            && s.created + |Matched(s)| == s.entered + |s.names|
            && |s.replies| == |s.names|
            && forall k :: 0 <= k < |s.names| ==>
                 || (s.replies[k] == ["Hello " + s.names[k]] && forall t :: !Holds(s, t, k))
                 || (s.replies[k] == [] && exists t :: Holds(s, t, k) && forall t2 :: Holds(s, t2, k) ==> t2 == t)
  {
    ServesInit();
    ServesExec(Init, run);
    NamesExec(Init, run);
    var s := Exec(Init, run);
    forall k | 0 <= k < |s.names| && s.replies[k] != ["Hello " + s.names[k]]
      ensures exists t :: Holds(s, t, k) && forall t2 :: Holds(s, t2, k) ==> t2 == t
    {
      var t :| Unanswered(s, t) && s.heap[t].call == Some(k);
      assert Holds(s, t, k);
    }
  }

  /** Every thread waits for an event and the runtime has nothing left to deliver but new calls. */
  predicate AtRest(s: State) {
    && s.fault.None? && s.queue == multiset{} && s.finishes == multiset{}
    && forall th :: th in s.threads ==> s.threads[th] == Waiting
  }

  lemma RestingInstance(s: State, t: Tag)
    requires Inv(s) && AtRest(s) && t in s.heap
    ensures Asking(s.heap, t, Process) && t in s.requests && t in Listening(s)
  {
    assert Tokens(s, t) == 1 && TagOk(s, t);
    assert Holders(s.threads, t) == {};
  }

  lemma RestingInstances(s: State)
    requires Inv(s) && AtRest(s)
    ensures Listening(s) == s.heap.Keys && Matched(s) == {}
    ensures forall t :: !Unanswered(s, t)
    ensures forall t :: t in s.heap ==> t in s.requests
  {
    forall t | t in s.heap ensures Asking(s.heap, t, Process) && t in s.requests && t in Listening(s) {
      RestingInstance(s, t);
    }
    forall t ensures !Unanswered(s, t) {
      if t in s.heap { assert Asking(s.heap, t, Process); }
    }
  }

  /** A server at rest has answered every call exactly once, holds one instance per loop and has deleted all
      the others. */
  lemma RestingServer(run: seq<Action>)
    requires Allowed(Init, run) && AtRest(Exec(Init, run))
    ensures var s := Exec(Init, run);
            && s.names == Incoming(run)
            && s.replies == seq(|s.names|, k requires 0 <= k < |s.names| => ["Hello " + s.names[k]])
            && |s.heap| == s.entered
            && s.created == s.entered + |s.names|
            && (forall t :: t in s.heap ==> t in s.requests)
  {
    ServesInit();
    ServesExec(Init, run);
    NamesExec(Init, run);
    RestingInstances(Exec(Init, run));
  }
}
