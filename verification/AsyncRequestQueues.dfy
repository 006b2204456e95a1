/** A notification queue of its own: when the application may shut it down.

    Request objects keep the queue of the call open by their avalanches.  Nothing keeps a separate notification queue
    open for them, although they begin operations on it: a replaced object issues its successor there, and interceptors
    queue the tag there when they are done.
 */
module AsyncRequestQueues {
  import opened Common
  import opened AsyncRequestMachine
  import opened AsyncRequestSafety

  /** The object may still begin an operation on the notification queue, or its successor may. */
  predicate CanIssue(s: State, id: Id) {
    || Pending(id) in s.tokens || Intercepting(id) in s.tokens
    || (Queued(id, true) in s.tokens && id in s.live && !s.live[id].intercepted)
  }

  ghost predicate Quiet(s: State) {
    forall id :: !CanIssue(s, id)
  }

  // ----- shutting down when no object can issue does no harm

  lemma QuietPass(s: State, s': State, before: Token, after: multiset<Token>)
    requires Quiet(s) && s'.tokens == s.tokens - multiset{before} + after
    requires forall k :: k in after ==> k.Finalizing?
    requires forall id :: id in s'.live ==> id in s.live && s'.live[id] == s.live[id]
    ensures Quiet(s')
  {
    forall x ensures !CanIssue(s', x) {
      assert !CanIssue(s, x);
    }
  }

  lemma QuietDeliver(parse: Parser, s: State, a: Action)
    requires Inv(parse, s) && Quiet(s) && Enabled(s, a) && a.Deliver?
    ensures !Malformed(parse, s, a.id, a.ok)
    ensures Step(parse, s, a) == Pass(s, Queued(a.id, a.ok), Finalizing(a.id, Returned(a.ok)))
  {
    QueuedFits(parse, s, a.id, a.ok);
    assert !CanIssue(s, a.id);
  }

  /** While no object can issue there is nothing to arrive, to reject or to resume. */
  lemma QuietActions(s: State, a: Action)
    requires Quiet(s) && !s.open && Enabled(s, a)
    ensures a.Deliver? || a.Delete? || a.Shutdown?
  {
    if !a.Ask? && !a.Shutdown? && !a.Silence? {
      assert !CanIssue(s, a.id);
    }
  }

  lemma QuietDelete(parse: Parser, s: State, id: Id, final: Final)
    requires Inv(parse, s) && Quiet(s) && !s.open && Finalizing(id, final) in s.tokens
    ensures Quiet(Destroy(s, id, final)) && !Destroy(s, id, final).open
  {
    var s' := Destroy(s, id, final);
    OnlyToken(parse, s, Finalizing(id, final));
    QuietPass(s, s', Finalizing(id, final), multiset{});
  }

  lemma QuietSame(s: State, s': State)
    requires Quiet(s) && s'.tokens == s.tokens && s'.live == s.live
    ensures Quiet(s')
  {
    forall x ensures !CanIssue(s', x) {
      assert !CanIssue(s, x);
    }
  }

  lemma QuietStep(parse: Parser, s: State, a: Action)
    requires Inv(parse, s) && !s.open && Quiet(s) && Enabled(s, a)
    ensures !Starves(parse, s, a) && !Step(parse, s, a).open && Quiet(Step(parse, s, a))
  {
    QuietActions(s, a);
    match a {
      case Deliver(id, ok, _, _, _) =>
        QuietDeliver(parse, s, a);
        QuietPass(s, Step(parse, s, a), Queued(id, ok), multiset{Finalizing(id, Returned(ok))});
      case Delete(id, final) => QuietDelete(parse, s, id, final);
      case Shutdown => QuietSame(s, Step(parse, s, a));
    }
  }

  lemma {:induction false} QuietExec(parse: Parser, s: State, run: seq<Action>)
    requires Inv(parse, s) && Issued(s) && !s.open && Quiet(s) && Allowed(parse, s, run)
    ensures Starved(parse, s, run) == 0
    decreases |run|
  {
    if run != [] {
      QuietStep(parse, s, run[0]);
      InvStep(parse, s, run[0]);
      QuietExec(parse, Step(parse, s, run[0]), run[1..]);
    }
  }

  // ----- shutting down when one can

  ghost predicate Fails(parse: Parser, s: State) {
    exists run :: Allowed(parse, s, run) && Exec(parse, s, run).fault.Some?
  }

  lemma FailsBefore(parse: Parser, s: State, a: Action)
    requires Enabled(s, a) && Fails(parse, Step(parse, s, a))
    ensures Fails(parse, s)
  {
    var run :| Allowed(parse, Step(parse, s, a), run) && Exec(parse, Step(parse, s, a), run).fault.Some?;
    assert ([a] + run)[1..] == run;
    assert Allowed(parse, s, [a] + run) && Exec(parse, s, [a] + run).fault.Some?;
  }

  lemma FailsNow(parse: Parser, s: State, a: Action)
    requires Inv(parse, s) && Enabled(s, a) && Starves(parse, s, a)
    ensures Fails(parse, s)
  {
    StarvedFails(parse, s, a);
    var s' := Step(parse, s, a);
    assert Allowed(parse, s', []) && Exec(parse, s', []).fault.Some?;
    FailsBefore(parse, s, a);
  }

  lemma {:induction false} FreshAddress(used: set<Id>) returns (addr: Id)
    ensures addr !in used && forall x :: x in used ==> x < addr
    decreases |used|
  {
    if used == {} {
      addr := 0;
    } else {
      var x :| x in used;
      var other := FreshAddress(used - {x});
      addr := if x < other then other else x + 1;
      forall y | y in used ensures y < addr {
        assert y == x || y in used - {x};
      }
    }
  }

  /** The object waits for an event or for its interceptors, and may still issue. */
  predicate Waiting(s: State, id: Id) {
    CanIssue(s, id) && Pending(id) !in s.tokens
  }

  lemma ResumeFails(parse: Parser, s: State, id: Id)
    requires Inv(parse, s) && s.pending == 0 && Intercepting(id) in s.tokens
    ensures Fails(parse, s)
  {
    FailsNow(parse, s, Resume(id));
  }

  lemma DeliverFails(parse: Parser, s: State, id: Id)
    requires Inv(parse, s) && Issued(s) && s.pending == 0
    requires Queued(id, true) in s.tokens && id in s.live && !s.live[id].intercepted
    ensures Fails(parse, s)
  {
    var addr := FreshAddress(s.live.Keys);
    var a := Deliver(id, true, true, addr, None);
    QueuedFits(parse, s, id, true);
    if Malformed(parse, s, id, true) {
      FailsNow(parse, s, a);
    } else {
      InvStep(parse, s, a);
      KeepReturn(parse, s, id, true, true, addr, None);
      ResumeFails(parse, Step(parse, s, a), id);
      FailsBefore(parse, s, a);
    }
  }

  lemma RejectKeepsWaiting(parse: Parser, s: State, x: Id, id: Id)
    requires Inv(parse, s) && Issued(s) && Enabled(s, Reject(x)) && Waiting(s, id)
    ensures var s' := Step(parse, s, Reject(x));
            Waiting(s', id) && s'.open == s.open && |Awaited(s'.tokens)| == |Awaited(s.tokens)| - 1
  {
    var s' := Step(parse, s, Reject(x));
    OnlyToken(parse, s, Pending(x));
    AwaitedMore(s'.tokens, s.tokens, x);
  }

  /** Once the operations under way have failed, nothing keeps the core queue alive. */
  lemma {:induction false} DrainedFails(parse: Parser, s: State, id: Id)
    requires Inv(parse, s) && Issued(s) && !s.open && Waiting(s, id)
    ensures Fails(parse, s)
    decreases |Awaited(s.tokens)|
  {
    if Awaited(s.tokens) == {} {
      if Intercepting(id) in s.tokens {
        ResumeFails(parse, s, id);
      } else {
        DeliverFails(parse, s, id);
      }
    } else {
      var x :| x in Awaited(s.tokens);
      AwaitedIs(s.tokens, x);
      RejectKeepsWaiting(parse, s, x, id);
      InvStep(parse, s, Reject(x));
      DrainedFails(parse, Step(parse, s, Reject(x)), id);
      FailsBefore(parse, s, Reject(x));
    }
  }

  lemma ArriveWaits(parse: Parser, s: State, id: Id)
    requires Inv(parse, s) && Enabled(s, Arrive(id, None))
    ensures var s' := Step(parse, s, Arrive(id, None)); Waiting(s', id) && s'.open == s.open
  {
    OnlyToken(parse, s, Pending(id));
  }

  lemma ClosedFails(parse: Parser, s: State, id: Id)
    requires Inv(parse, s) && Issued(s) && !s.open && CanIssue(s, id)
    ensures Fails(parse, s)
  {
    if Pending(id) in s.tokens {
      var a := Arrive(id, None);
      ArriveWaits(parse, s, id);
      InvStep(parse, s, a);
      DrainedFails(parse, Step(parse, s, a), id);
      FailsBefore(parse, s, a);
    } else {
      DrainedFails(parse, s, id);
    }
  }

  /** Main result: in every reachable state, shutting down a separate notification queue can lead to a fault if and only
      if some object may still issue on it. */
  lemma SilenceIsHarmless(parse: Parser, s: State)
    requires Inv(parse, s) && Issued(s) && Enabled(s, Silence)
    ensures Fails(parse, Step(parse, s, Silence)) <==> !Quiet(s)
  {
    var s' := Step(parse, s, Silence);
    InvStep(parse, s, Silence);
    forall id ensures CanIssue(s', id) <==> CanIssue(s, id) {
    }
    if Quiet(s) {
      forall run | Allowed(parse, s', run) ensures Exec(parse, s', run).fault.None? {
        QuietExec(parse, s', run);
        InvExec(parse, s', run);
      }
    } else {
      var id :| CanIssue(s, id);
      ClosedFails(parse, s', id);
    }
  }

  /** The notification queue is shut down only when no object may still issue on it. */
  ghost predicate Polite(parse: Parser, s: State, run: seq<Action>)
    requires Allowed(parse, s, run)
    decreases |run|
  {
    run == [] || ((run[0].Silence? ==> Quiet(s)) && Polite(parse, Step(parse, s, run[0]), run[1..]))
  }

  lemma PoliteStep(parse: Parser, s: State, a: Action)
    requires Inv(parse, s) && Issued(s) && !s.shared && Enabled(s, a)
    requires (s.open || Quiet(s)) && (a.Silence? ==> Quiet(s))
    ensures !Starves(parse, s, a)
    ensures var s' := Step(parse, s, a); (s'.open || Quiet(s')) && !s'.shared
  {
    if !s.open {
      QuietStep(parse, s, a);
    } else if a.Silence? {
      QuietSame(s, Step(parse, s, a));
    }
  }

  /** Runs that respect this have no fault, on two queues as on one. */
  lemma {:induction false} PoliteRunsAreSafe(parse: Parser, s: State, run: seq<Action>)
    requires Inv(parse, s) && Issued(s) && !s.shared && (s.open || Quiet(s)) && Allowed(parse, s, run)
    requires Polite(parse, s, run)
    ensures Starved(parse, s, run) == 0 && Exec(parse, s, run).fault.None?
    decreases |run|
  {
    if run != [] {
      PoliteStep(parse, s, run[0]);
      InvStep(parse, s, run[0]);
      PoliteRunsAreSafe(parse, Step(parse, s, run[0]), run[1..]);
    }
  }

  /** Main result: no run has a fault exactly when the two queues are one.  With two, a malformed call that waits in the
      notification queue while that is shut down is enough, whatever the parser accepts. */
  lemma OneQueueIsSafe(parse: Parser, shared: bool)
    ensures !Fails(parse, Init(shared)) <==> shared
  {
    InvInit(parse, shared);
    if shared {
      forall run | Allowed(parse, Init(shared), run) ensures Exec(parse, Init(shared), run).fault.None? {
        RequestsAreAnswered(parse, shared, run);
      }
    } else {
      var s0 := Init(shared);
      InvStep(parse, s0, Ask(0));
      var s1 := Step(parse, s0, Ask(0));
      assert CanIssue(s1, 0);
      SilenceIsHarmless(parse, s1);
      FailsBefore(parse, s1, Silence);
      FailsBefore(parse, s0, Ask(0));
    }
  }

  /** The shortest such run. */
  lemma MalformedAfterSilence(parse: Parser)
    ensures var run := [Ask(0)] + ([Arrive(0, None)] + ([Silence] + ([Deliver(0, true, false, 1, None)] + [])));
            Allowed(parse, Init(false), run) && Exec(parse, Init(false), run).fault == Some(IssueAfterShutdown)
  {
    var s0 := Init(false);
    var s1 := Step(parse, s0, Ask(0));
    var s2 := Step(parse, s1, Arrive(0, None));
    var s3 := Step(parse, s2, Silence);
    var s4 := Step(parse, s3, Deliver(0, true, false, 1, None));
    assert Allowed(parse, s4, []);
    Extend(parse, s3, Deliver(0, true, false, 1, None), []);
    Extend(parse, s2, Silence, [Deliver(0, true, false, 1, None)] + []);
    Extend(parse, s1, Arrive(0, None), [Silence] + ([Deliver(0, true, false, 1, None)] + []));
    Extend(parse, s0, Ask(0), [Arrive(0, None)] + ([Silence] + ([Deliver(0, true, false, 1, None)] + [])));
  }

  lemma Extend(parse: Parser, s: State, a: Action, run: seq<Action>)
    requires Enabled(s, a) && Allowed(parse, Step(parse, s, a), run)
    ensures Allowed(parse, s, [a] + run) && Exec(parse, s, [a] + run) == Exec(parse, Step(parse, s, a), run)
  {
    assert ([a] + run)[1..] == run;
  }
}
