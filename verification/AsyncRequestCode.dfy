/** `PayloadAsyncRequest::FinalizeResult` as the code it is.  A call that no other thread interrupts has the
    effect of the machine's delivery step followed, when the object gives itself up, by its deletion.
 */
module AsyncRequestCode {
  import opened Common
  import opened AsyncRequestMachine
  import opened AsyncRequestSafety
  import Avalanche

  /** What an event on `id` needs.  A replacement needs a notification queue that accepts operations: otherwise the
      assertion in `IssueRequest` fails. */
  predicate Ready(parse: Parser, s: State, id: Id, ok: bool) {
    && s.fault.None? && id in s.live && s.live[id].root < |s.events| && |s.slots| == |s.events|
    && (ok ==> Carrying(s, id)) && (Malformed(parse, s, id, ok) ==> s.pending > 0)
  }

  /** A delivered tag meets it exactly when the step does not starve, so always when the two queues are one. */
  lemma DeliveredIsReady(parse: Parser, s: State, a: Action)
    requires Inv(parse, s) && Issued(s) && a.Deliver? && Enabled(s, a)
    ensures Ready(parse, s, a.id, a.ok) <==> !Starves(parse, s, a)
    ensures s.shared ==> Ready(parse, s, a.id, a.ok)
  {
    QueuedFits(parse, s, a.id, a.ok);
    OnlyToken(parse, s, Queued(a.id, a.ok));
    if s.shared {
      SharedStep(parse, s, a);
    }
  }

  /** Delivery and, unless interceptors took over, deletion. */
  function Finalized(parse: Parser, s: State, id: Id, ok: bool, intercept: bool, addr: Id, garbage: Option<Message>)
    : State
    requires Ready(parse, s, id, ok) && addr !in s.live
  {
    var s1 := Finalize(parse, s, id, ok, intercept, addr, garbage);
    if Malformed(parse, s, id, ok) then Destroy(s1, id, Replaced)
    else if ok && !s.live[id].intercepted && intercept then s1
    else Destroy(s1, id, Returned(ok))
  }

  /** The ways of a first event. */
  lemma FinalizedFirst(parse: Parser, s: State, id: Id, intercept: bool, addr: Id, garbage: Option<Message>)
    requires Ready(parse, s, id, true) && addr !in s.live && !s.live[id].intercepted
    ensures Malformed(parse, s, id, true) ==>
              Finalized(parse, s, id, true, intercept, addr, garbage)
              == Destroy(Replacing(s, id, addr, garbage), id, Replaced)
    ensures !Malformed(parse, s, id, true) ==>
              Finalized(parse, s, id, true, intercept, addr, garbage)
              == if intercept then Accepted(parse, s, id, true)
                 else Destroy(Accepted(parse, s, id, false), id, Returned(true))
  {
    if Malformed(parse, s, id, true) {
      FinalizeReplaces(parse, s, id, intercept, addr, garbage);
    } else {
      FinalizeOutcome(parse, s, id, true, intercept, addr, garbage);
    }
  }

  lemma FinalizedLast(parse: Parser, s: State, id: Id, ok: bool, intercept: bool, addr: Id, garbage: Option<Message>)
    requires Ready(parse, s, id, ok) && addr !in s.live && (s.live[id].intercepted || !ok)
    ensures Finalized(parse, s, id, ok, intercept, addr, garbage) == Destroy(Returning(s, id, ok), id, Returned(ok))
  {
    FinalizeOutcome(parse, s, id, ok, intercept, addr, garbage);
  }

  class ServerQueue {
    const shared: bool
    var live: map<Id, Request>
    var tokens: multiset<Token>
    var avalanches: Avalanche.Queue
    var reserved: bool
    var open: bool
    var pending: nat
    var slots: seq<Option<Message>>
    var events: seq<seq<AppEvent>>
    var history: seq<seq<nat>>
    var calls: seq<Call>

    ghost function View(): State
      reads this
    {
      State(shared, live, tokens, avalanches, reserved, open, pending, slots, events, history, calls, None)
    }

    /** `RegisteredAsyncRequest` constructor, on the call queue, and `IssueRequest`, on the notification queue. */
    method NewRequest(addr: Id, root: nat)
      requires pending > 0
      modifies this`live, this`avalanches, this`tokens, this`pending
      ensures View() == New(old(View()), addr, root)
    {
      live := live[addr := Request(root, None, false)];
      avalanches := Avalanche.Register(avalanches);
      pending := pending + 1;
      tokens := tokens + multiset{Pending(addr)};
    }

    /** `CompleteAvalanching` of the call queue. */
    method CompleteAvalanching()
      modifies this`avalanches, this`open, this`pending
      ensures View() == Complete(old(View()))
    {
      var before := avalanches.shutdowns;
      avalanches := Avalanche.Complete(avalanches);
      if shared && avalanches.shutdowns > before {
        open := false;
        if pending > 0 {
          pending := pending - 1;
        }
      }
    }

    /** `delete this` of a replaced object; the destructor completes the avalanche. */
    method DeleteRequest(id: Id)
      requires id in live && live[id].root < |events| && |slots| == |events|
      modifies this`live, this`avalanches, this`tokens, this`open, this`pending
      ensures View() == Destroy(old(View()), id, Replaced)
    {
      tokens := tokens - multiset{Finalizing(id, Replaced)};
      live := live - {id};
      CompleteAvalanching();
    }

    /** `BaseAsyncRequest::FinalizeResult` when there is nothing left to intercept. */
    method ReturnTag(id: Id, ok: bool)
      requires id in live && live[id].root < |events| && |slots| == |events|
      modifies this`live, this`avalanches, this`tokens, this`events, this`open, this`pending
      ensures View() == Destroy(old(View()), id, Returned(ok)) && events != old(events)
    {
      var root := live[id].root;
      tokens := tokens - multiset{Finalizing(id, Returned(ok))};
      live := live - {id};
      CompleteAvalanching();
      events := events[root := events[root] + [AppEvent(ok, slots[root])]];
      assert |events[root]| != |old(events)[root]|;
    }

    /** The call is cancelled and released; the failed parse may have left anything in the message object. */
    method CancelCall(k: nat, root: nat, garbage: Option<Message>)
      requires k < |calls| && root < |slots|
      modifies this`calls, this`slots
      ensures View() == Cancel(old(View()), k, root, garbage)
    {
      var c := calls[k];
      calls := calls[k := c.(cancelled := c.cancelled + 1, unreffed := c.unreffed + 1)];
      slots := slots[root := garbage];
    }

    /** Cancels the call and makes way for a successor. */
    method Replace(id: Id, addr: Id, garbage: Option<Message>)
      requires Carrying(View(), id) && live[id].root < |events| && |slots| == |events| && addr !in live
      requires pending > 0
      modifies this`live, this`avalanches, this`tokens, this`calls, this`slots, this`open, this`pending
      ensures var r := old(live[id]);
              View() == Destroy(New(Cancel(old(View()), r.call.value, r.root, garbage), addr, r.root), id, Replaced)
    {
      var r := live[id];
      CancelCall(r.call.value, r.root, garbage);
      NewRequest(addr, r.root);
      DeleteRequest(id);
    }

    /** The payload parsed: run the interceptors, if any, or return the tag. */
    method Accept(id: Id, message: Option<Message>, intercept: bool) returns (returned: bool)
      requires id in live && live[id].root < |events| && |slots| == |events|
      modifies this`live, this`avalanches, this`tokens, this`slots, this`events, this`open, this`pending
      ensures View() == if intercept then Stored(old(View()), id, message, true)
                        else Destroy(Stored(old(View()), id, message, false), id, Returned(true))
      ensures returned <==> events != old(events)
    {
      slots := slots[live[id].root := message];
      if intercept {
        live := live[id := live[id].(intercepted := true)];
        tokens := tokens - multiset{Queued(id, true)} + multiset{Intercepting(id)};
        return false;
      }
      tokens := tokens - multiset{Queued(id, true)} + multiset{Finalizing(id, Returned(true))};
      ReturnTag(id, true);
      return true;
    }

    /** The payload does not deserialize. */
    method Refuse(id: Id, addr: Id, garbage: Option<Message>)
      requires Carrying(View(), id) && live[id].root < |events| && |slots| == |events| && addr !in live
      requires pending > 0
      modifies this`live, this`avalanches, this`tokens, this`calls, this`slots, this`open, this`pending
      ensures View() == Destroy(Replacing(old(View()), id, addr, garbage), id, Replaced)
    {
      tokens := tokens - multiset{Queued(id, true)} + multiset{Finalizing(id, Replaced)};
      Replace(id, addr, garbage);
    }

    /** Returns true when the tag is given to the application. */
    method FinalizeResult(parse: Parser, id: Id, ok: bool, intercept: bool, addr: Id, garbage: Option<Message>)
      returns (returned: bool)
      requires Ready(parse, View(), id, ok) && addr !in live
      modifies this
      ensures View() == Finalized(parse, old(View()), id, ok, intercept, addr, garbage)
      ensures returned <==> events != old(events)
    {
      if live[id].intercepted || !ok {
        FinalizedLast(parse, View(), id, ok, intercept, addr, garbage);
        returned := FinalizeLast(id, ok);
        return;
      }
      FinalizedFirst(parse, View(), id, intercept, addr, garbage);
      var payload := calls[live[id].call.value].payload;
      if !WellFormed(parse, payload) {
        assert Malformed(parse, View(), id, true);
        Refuse(id, addr, garbage);
        return false;
      }
      assert !Malformed(parse, View(), id, true);
      returned := Accept(id, parse(payload.value), intercept);
    }

    /** An event that ends the request: a failure, or the second after the interceptors. */
    method FinalizeLast(id: Id, ok: bool) returns (returned: bool)
      requires id in live && live[id].root < |events| && |slots| == |events|
      modifies this`live, this`avalanches, this`tokens, this`events, this`open, this`pending
      ensures View() == Destroy(Returning(old(View()), id, ok), id, Returned(ok)) && returned && events != old(events)
    {
      tokens := tokens - multiset{Queued(id, ok)} + multiset{Finalizing(id, Returned(ok))};
      ReturnTag(id, ok);
      return true;
    }
  }
}
