/** What requests come to, in terms of the calls that arrived and of the parser alone. */
module AsyncRequestCalls {
  import opened Common
  import opened AsyncRequestMachine
  import opened AsyncRequestSafety
  import opened AsyncRequestCode

  // ----- which calls are cancelled

  /** Only calls whose payload is missing or does not deserialize have been cancelled or released. */
  ghost predicate RightlyCancelled(parse: Parser, s: State) {
    forall c :: 0 <= c < |s.calls| && (s.calls[c].cancelled > 0 || s.calls[c].unreffed > 0) ==>
      s.calls[c].payload.None? || parse(s.calls[c].payload.value).None?
  }

  // What the pieces of a step do to the records.

  predicate SameRecords(s: State, s': State) {
    s'.calls == s.calls && s'.history == s.history && s'.events == s.events
  }

  lemma NewKeeps(s: State, addr: Id, root: nat)
    ensures SameRecords(s, New(s, addr, root))
  {
  }

  lemma CompleteKeeps(s: State)
    ensures SameRecords(s, Complete(s)) && SameRecords(s, Close(s)) && SameRecords(s, End(s))
  {
  }

  /** The calls are as before, except that one without a payload that deserializes may have been cancelled. */
  ghost predicate CancelsRightly(parse: Parser, calls: seq<Call>, calls': seq<Call>) {
    && |calls'| == |calls|
    && forall c :: 0 <= c < |calls| ==>
         && calls'[c].payload == calls[c].payload && calls'[c].root == calls[c].root
         && (calls'[c] == calls[c] || calls[c].payload.None? || parse(calls[c].payload.value).None?)
  }

  lemma ReplaceCalls(parse: Parser, s: State, id: Id, k: nat, root: nat, addr: Id, garbage: Option<Message>, e: Token)
    requires k < |s.calls| && root < |s.slots|
    requires s.calls[k].payload.None? || parse(s.calls[k].payload.value).None?
    ensures var s' := New(Cancel(Pass(s, e, Finalizing(id, Replaced)), k, root, garbage), addr, root);
            CancelsRightly(parse, s.calls, s'.calls) && s'.history == s.history && s'.events == s.events
  {
    NewKeeps(Cancel(Pass(s, e, Finalizing(id, Replaced)), k, root, garbage), addr, root);
  }

  lemma DeliverCalls(parse: Parser, s: State, id: Id, ok: bool, intercept: bool, addr: Id, garbage: Option<Message>)
    ensures var s' := Finalize(parse, s, id, ok, intercept, addr, garbage);
            CancelsRightly(parse, s.calls, s'.calls) && s'.history == s.history && s'.events == s.events
  {
    if id in s.live && s.live[id].root < |s.slots| && ok && !s.live[id].intercepted && s.live[id].call.Some?
       && s.live[id].call.value < |s.calls| && !WellFormed(parse, s.calls[s.live[id].call.value].payload) {
      ReplaceCalls(parse, s, id, s.live[id].call.value, s.live[id].root, addr, garbage, Queued(id, ok));
    } else {
      assert SameRecords(s, Finalize(parse, s, id, ok, intercept, addr, garbage));
    }
  }

  lemma DeleteCalls(s: State, id: Id, final: Final)
    ensures Destroy(s, id, final).calls == s.calls && Destroy(s, id, final).history == s.history
    ensures |Destroy(s, id, final).events| == |s.events|
  {
    CompleteKeeps(s.(live := s.live - {id}, tokens := s.tokens - multiset{Finalizing(id, final)}));
  }

  /** What a step other than an arrival does. */
  lemma OtherCalls(parse: Parser, s: State, a: Action)
    requires Enabled(s, a) && !a.Arrive?
    ensures var s' := Step(parse, s, a);
            && CancelsRightly(parse, s.calls, s'.calls)
            && s'.history == s.history + (if a.Ask? then [[]] else [])
            && |s'.events| == |s.events| + if a.Ask? then 1 else 0
  {
    match a {
      case Ask(addr) =>
        var grown := s.(slots := s.slots + [None], events := s.events + [[]], history := s.history + [[]]);
        NewKeeps(grown, addr, |s.events|);
      case Shutdown => CompleteKeeps(s.(reserved := false));
      case Silence => CompleteKeeps(s);
      case Reject(_) => CompleteKeeps(s);
      case Deliver(id, ok, intercept, addr, garbage) => DeliverCalls(parse, s, id, ok, intercept, addr, garbage);
      case Resume(_) =>
      case Delete(id, final) => DeleteCalls(s, id, final);
    }
  }

  lemma CancelledStep(parse: Parser, s: State, a: Action)
    requires RightlyCancelled(parse, s) && Enabled(s, a)
    ensures RightlyCancelled(parse, Step(parse, s, a))
  {
    if !a.Arrive? {
      OtherCalls(parse, s, a);
    }
  }

  /** Main result: in every run, faults included, no call that deserializes is ever cancelled or released. */
  lemma {:induction false} CancelledAreRefused(parse: Parser, s: State, run: seq<Action>)
    requires RightlyCancelled(parse, s) && Allowed(parse, s, run)
    ensures RightlyCancelled(parse, Exec(parse, s, run))
    decreases |run|
  {
    if run != [] {
      CancelledStep(parse, s, run[0]);
      CancelledAreRefused(parse, Step(parse, s, run[0]), run[1..]);
    }
  }

  // ----- the calls of a request

  /** The payload that the action brings for request `r`. */
  function Brings(s: State, a: Action, r: nat): seq<Option<Payload>> {
    if a.Arrive? && a.id in s.live && s.live[a.id].root == r then [a.payload] else []
  }

  /** The payloads that arrive for request `r` during the run, in order. */
  function Given(parse: Parser, s: State, run: seq<Action>, r: nat): seq<Option<Payload>>
    requires Allowed(parse, s, run)
    decreases |run|
  {
    if run == [] then [] else Brings(s, run[0], r) + Given(parse, Step(parse, s, run[0]), run[1..], r)
  }

  function Asks(run: seq<Action>): nat {
    if run == [] then 0 else (if run[0].Ask? then 1 else 0) + Asks(run[1..])
  }

  function PayloadAt(s: State, c: nat): Option<Payload> {
    if c < |s.calls| then s.calls[c].payload else None
  }

  /** The payloads on record for request `r`. */
  function OnRecord(s: State, r: nat): seq<Option<Payload>> {
    if r < |s.history| then seq(|s.history[r]|, i requires 0 <= i < |s.history[r]| => PayloadAt(s, s.history[r][i]))
    else []
  }

  lemma RecordFrame(s: State, s': State, r: nat)
    requires r < |s.history| ==> r < |s'.history| && s'.history[r] == s.history[r] && HistoryOk(s, r)
    requires r >= |s.history| ==> r >= |s'.history| || s'.history[r] == []
    requires |s.calls| <= |s'.calls| && forall c :: 0 <= c < |s.calls| ==> s'.calls[c].payload == s.calls[c].payload
    ensures OnRecord(s', r) == OnRecord(s, r)
  {
    if r < |s.history| {
      var h := s.history[r];
      forall i | 0 <= i < |h| ensures PayloadAt(s', h[i]) == PayloadAt(s, h[i]) {
      }
    }
  }

  lemma RecordArrival(parse: Parser, s: State, id: Id, payload: Option<Payload>, r: nat)
    requires Inv(parse, s) && Pending(id) in s.tokens
    ensures OnRecord(Arrived(s, id, payload), r) == OnRecord(s, r) + Brings(s, Arrive(id, payload), r)
  {
    OnlyToken(parse, s, Pending(id));
    var s', root := Arrived(s, id, payload), s.live[id].root;
    assert root < |s.history|;
    if r < |s.history| {
      assert HistoryOk(s, r);
      if r == root {
        var h := s.history[r];
        forall i | 0 <= i < |h| ensures PayloadAt(s', h[i]) == PayloadAt(s, h[i]) {
        }
        assert s'.history[r] == h + [|s.calls|];
      } else {
        RecordFrame(s, s', r);
      }
    }
  }

  lemma RecordOther(parse: Parser, s: State, a: Action, r: nat)
    requires Inv(parse, s) && Enabled(s, a) && !a.Arrive?
    ensures OnRecord(Step(parse, s, a), r) == OnRecord(s, r)
  {
    OtherCalls(parse, s, a);
    if r < |s.history| {
      assert HistoryOk(s, r);
    }
    RecordFrame(s, Step(parse, s, a), r);
  }

  lemma RecordStep(parse: Parser, s: State, a: Action, r: nat)
    requires Inv(parse, s) && Enabled(s, a)
    ensures OnRecord(Step(parse, s, a), r) == OnRecord(s, r) + Brings(s, a, r)
    ensures |Step(parse, s, a).events| == |s.events| + if a.Ask? then 1 else 0
  {
    if a.Arrive? {
      RecordArrival(parse, s, a.id, a.payload, r);
    } else {
      RecordOther(parse, s, a, r);
      OtherCalls(parse, s, a);
    }
  }

  /** What is on record is what arrived. */
  lemma {:induction false} RecordIsGiven(parse: Parser, s: State, run: seq<Action>, r: nat)
    requires Inv(parse, s) && Issued(s) && Allowed(parse, s, run) && Starved(parse, s, run) == 0
    ensures OnRecord(Exec(parse, s, run), r) == OnRecord(s, r) + Given(parse, s, run, r)
    ensures |Exec(parse, s, run).events| == |s.events| + Asks(run)
    decreases |run|
  {
    if run == [] {
      assert OnRecord(s, r) + [] == OnRecord(s, r);
    } else {
      var s1 := Step(parse, s, run[0]);
      RecordStep(parse, s, run[0], r);
      InvStep(parse, s, run[0]);
      RecordIsGiven(parse, s1, run[1..], r);
      Regroup(OnRecord(s, r), Brings(s, run[0], r), Given(parse, s1, run[1..], r));
    }
  }

  lemma Regroup<T>(a: seq<T>, b: seq<T>, c: seq<T>)
    ensures a + b + c == a + (b + c)
  {
  }

  // ----- the answer to a request

  /** No payload before the last deserializes. */
  predicate OnlyLast(parse: Parser, ps: seq<Option<Payload>>) {
    forall i :: 0 <= i < |ps| - 1 ==> ps[i].None? || parse(ps[i].value).None?
  }

  /** The events of a request to which the payloads `ps` were given: none while all, or all but the one being looked at,
      failed to deserialize; a success with the message of the last, the only one that deserializes; or a failure when
      none does. */
  predicate RightAnswer(parse: Parser, ps: seq<Option<Payload>>, events: seq<AppEvent>) {
    && |events| <= 1 && OnlyLast(parse, ps)
    && (|events| == 1 && events[0].ok ==>
          ps != [] && ps[|ps| - 1].Some? && parse(ps[|ps| - 1].value).Some?
          && events[0].message == parse(ps[|ps| - 1].value))
    && (|events| == 1 && !events[0].ok ==>
          forall i :: 0 <= i < |ps| ==> ps[i].None? || parse(ps[i].value).None?)
  }

  lemma FrontRefused(parse: Parser, s: State, r: nat)
    requires r < |s.history| && HistoryOk(s, r) && s.history[r] != [] && AllSettled(parse, s, Front(s.history[r]))
    ensures OnlyLast(parse, OnRecord(s, r))
  {
    var h, ps := s.history[r], OnRecord(s, r);
    forall i | 0 <= i < |ps| - 1 ensures ps[i].None? || parse(ps[i].value).None? {
      assert Settled(parse, s, Front(h)[i]);
    }
  }

  lemma AllRefused(parse: Parser, s: State, r: nat)
    requires r < |s.history| && HistoryOk(s, r) && AllSettled(parse, s, s.history[r])
    ensures forall i :: 0 <= i < |OnRecord(s, r)| ==>
              OnRecord(s, r)[i].None? || parse(OnRecord(s, r)[i].value).None?
  {
    var h, ps := s.history[r], OnRecord(s, r);
    forall i | 0 <= i < |ps| ensures ps[i].None? || parse(ps[i].value).None? {
      assert Settled(parse, s, h[i]);
    }
  }

  lemma RecordAnswered(parse: Parser, s: State, r: nat)
    requires Inv(parse, s) && r < |s.events|
    ensures RightAnswer(parse, OnRecord(s, r), s.events[r])
  {
    RootCases(parse, s, r);
    assert HistoryOk(s, r);
    if s.events[r] == [] {
      if s.history[r] != [] {
        FrontRefused(parse, s, r);
      }
    } else if s.events[r][0].ok {
      FrontRefused(parse, s, r);
      assert OnRecord(s, r)[|s.history[r]| - 1] == s.calls[Last(s.history[r])].payload;
    } else {
      AllRefused(parse, s, r);
    }
  }

  /** Main result: in every run that does not starve, each of the requests asked for is answered rightly for the
      payloads that arrived for it. */
  lemma AnsweredByFirst(parse: Parser, shared: bool, run: seq<Action>, r: nat)
    requires Allowed(parse, Init(shared), run) && Starved(parse, Init(shared), run) == 0 && r < Asks(run)
    ensures var s := Exec(parse, Init(shared), run);
            |s.events| == Asks(run) && RightAnswer(parse, Given(parse, Init(shared), run, r), s.events[r])
  {
    InvInit(parse, shared);
    InvExec(parse, Init(shared), run);
    RecordIsGiven(parse, Init(shared), run, r);
    var ps := Given(parse, Init(shared), run, r);
    assert OnRecord(Init(shared), r) + ps == ps;
    RecordAnswered(parse, Exec(parse, Init(shared), run), r);
  }

  // ----- one event

  /** A call whose payload deserializes to `m` has been delivered and its object looked at for the first time. */
  predicate Ripe(parse: Parser, s: State, id: Id, m: Message) {
    && Queued(id, true) in s.tokens && Carrying(s, id) && !s.live[id].intercepted
    && s.calls[s.live[id].call.value].payload.Some?
    && parse(s.calls[s.live[id].call.value].payload.value) == Some(m)
  }

  lemma RipeStored(parse: Parser, s: State, id: Id, m: Message)
    requires Ripe(parse, s, id, m) && s.live[id].root < |s.slots|
    ensures var s' := Accepted(parse, s, id, false);
            && s'.slots == s.slots[s.live[id].root := Some(m)] && s'.live == s.live && s'.events == s.events
            && s'.calls == s.calls && s'.fault == s.fault && Finalizing(id, Returned(true)) in s'.tokens
  {
  }

  /** Main result: such an event, without interceptors, gives the application exactly that message, once, and leaves
      every call alone. */
  lemma RipeIsReturned(parse: Parser, s: State, id: Id, addr: Id, garbage: Option<Message>, m: Message)
    requires Inv(parse, s) && Ripe(parse, s, id, m) && addr !in s.live
    ensures var a, b := Deliver(id, true, false, addr, garbage), Delete(id, Returned(true));
            && Enabled(s, a) && Enabled(Step(parse, s, a), b)
            && var s' := Step(parse, Step(parse, s, a), b);
               var root := s.live[id].root;
               && root < |s.events| && s.events[root] == [] && s'.fault.None? && s'.calls == s.calls
               && s'.live == s.live - {id} && s'.events == s.events[root := [AppEvent(true, Some(m))]]
  {
    OnlyToken(parse, s, Queued(id, true));
    FinalizeOutcome(parse, s, id, true, false, addr, garbage);
    RipeStored(parse, s, id, m);
    Destroyed(Accepted(parse, s, id, false), id, Returned(true));
    assert [] + [AppEvent(true, Some(m))] == [AppEvent(true, Some(m))];
  }

  /** With interceptors it waits for them, the message parsed, and nothing is cancelled. */
  lemma RipeIsIntercepted(parse: Parser, s: State, id: Id, addr: Id, garbage: Option<Message>, m: Message)
    requires Inv(parse, s) && Ripe(parse, s, id, m) && addr !in s.live
    ensures var a := Deliver(id, true, true, addr, garbage);
            && Enabled(s, a)
            && var s' := Step(parse, s, a);
               && s'.fault.None? && s'.calls == s.calls && s'.events == s.events && Intercepting(id) in s'.tokens
               && id in s'.live && s.live[id].root < |s'.slots| && s'.slots[s.live[id].root] == Some(m)
  {
    OnlyToken(parse, s, Queued(id, true));
  }

  /** What deletion does to the records. */
  lemma Destroyed(s: State, id: Id, final: Final)
    requires id in s.live && s.live[id].root < |s.events| == |s.slots|
    ensures var s', root := Destroy(s, id, final), s.live[id].root;
            && s'.calls == s.calls && s'.live == s.live - {id}
            && s'.events == if final.Replaced? then s.events
                            else s.events[root := s.events[root] + [AppEvent(final.ok, s.slots[root])]]
  {
    CompleteKeeps(s.(live := s.live - {id}, tokens := s.tokens - multiset{Finalizing(id, final)}));
  }

  /** The code on such an event. */
  lemma FinalizedReturns(parse: Parser, s: State, id: Id, addr: Id, garbage: Option<Message>, m: Message)
    requires Ready(parse, s, id, true) && Ripe(parse, s, id, m) && addr !in s.live
    ensures var s', root := Finalized(parse, s, id, true, false, addr, garbage), s.live[id].root;
            && s'.calls == s.calls && s'.live == s.live - {id}
            && s'.events == s.events[root := s.events[root] + [AppEvent(true, Some(m))]]
  {
    FinalizeOutcome(parse, s, id, true, false, addr, garbage);
    Destroyed(Accepted(parse, s, id, false), id, Returned(true));
  }

  /** The code on a first event whose payload is missing or does not deserialize: the call is cancelled and released, a
      successor asks in its place, and the application hears nothing. */
  lemma FinalizedReplaces(parse: Parser, s: State, id: Id, intercept: bool, addr: Id, garbage: Option<Message>)
    requires Ready(parse, s, id, true) && addr !in s.live && !s.live[id].intercepted
    requires var payload := s.calls[s.live[id].call.value].payload; payload.None? || parse(payload.value).None?
    ensures var s', k := Finalized(parse, s, id, true, intercept, addr, garbage), s.live[id].call.value;
            && s'.events == s.events && s'.live == s.live[addr := Request(s.live[id].root, None, false)] - {id}
            && s'.calls == s.calls[k := s.calls[k].(cancelled := s.calls[k].cancelled + 1,
                                                    unreffed := s.calls[k].unreffed + 1)]
  {
    FinalizeReplaces(parse, s, id, intercept, addr, garbage);
    ReplacingRecords(s, id, addr, garbage);
    Destroyed(Replacing(s, id, addr, garbage), id, Replaced);
  }

  lemma ReplacingRecords(s: State, id: Id, addr: Id, garbage: Option<Message>)
    requires Carrying(s, id) && s.live[id].root < |s.slots| && s.pending > 0
    ensures var s', k := Replacing(s, id, addr, garbage), s.live[id].call.value;
            && s'.events == s.events && |s'.slots| == |s.slots|
            && s'.live == s.live[addr := Request(s.live[id].root, None, false)]
            && s'.calls == s.calls[k := s.calls[k].(cancelled := s.calls[k].cancelled + 1,
                                                    unreffed := s.calls[k].unreffed + 1)]
  {
  }
}
