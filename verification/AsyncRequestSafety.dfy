/** What `RequestAsyncCall` promises: one live object while a request is outstanding, one event at most, the
    first call that parses, and no call left uncancelled; and what it does to the completion queue: the core
    queue is shut down once, after the last object is gone, and no object asks it for a call afterwards.
 */
module AsyncRequestSafety {
  import opened Common
  import opened AsyncRequestMachine
  import Avalanche

  function Count(tokens: multiset<Token>, id: Id): nat {
    tokens[Pending(id)] + tokens[Queued(id, true)] + tokens[Queued(id, false)] + tokens[Intercepting(id)]
    + tokens[Finalizing(id, Replaced)]
    + tokens[Finalizing(id, Returned(true))] + tokens[Finalizing(id, Returned(false))]
  }

  /** The object has been matched to a call of its own root. */
  predicate Carrying(s: State, id: Id) {
    && id in s.live && s.live[id].call.Some? && s.live[id].call.value < |s.calls|
    && s.calls[s.live[id].call.value].root == s.live[id].root
  }

  /** There is no payload, or it does not deserialize. */
  predicate Refused(parse: Parser, payload: Option<Payload>) {
    payload.None? || parse(payload.value).None?
  }

  /** The application's message object holds what the call's payload parses to. */
  predicate Parsed(parse: Parser, s: State, id: Id) {
    && Carrying(s, id) && s.live[id].root < |s.slots|
    && var payload := s.calls[s.live[id].call.value].payload;
       !Refused(parse, payload) && s.slots[s.live[id].root] == parse(payload.value)
  }

  predicate Unmatched(s: State, id: Id) {
    id in s.live && s.live[id].call.None? && !s.live[id].intercepted
  }

  /** What the place of a token says about its object. */
  predicate Fits(parse: Parser, s: State, k: Token) {
    match k
    case Pending(id) => Unmatched(s, id)
    case Queued(id, ok) =>
      if ok then Carrying(s, id) && (s.live[id].intercepted ==> Parsed(parse, s, id)) else Unmatched(s, id)
    case Intercepting(id) => Parsed(parse, s, id) && s.live[id].intercepted
    case Finalizing(id, final) =>
      match final
      case Replaced => true
      case Returned(ok) => if ok then Parsed(parse, s, id) else Unmatched(s, id)
  }

  predicate FitsIfHeld(parse: Parser, s: State, k: Token) {
    s.tokens[k] > 0 ==> Fits(parse, s, k)
  }

  predicate TokenOk(parse: Parser, s: State, id: Id) {
    && Count(s.tokens, id) == One(id in s.live)
    && (id in s.live ==> s.live[id].root < |s.events|)
    && FitsIfHeld(parse, s, Pending(id))
    && FitsIfHeld(parse, s, Queued(id, true)) && FitsIfHeld(parse, s, Queued(id, false))
    && FitsIfHeld(parse, s, Intercepting(id))
    && FitsIfHeld(parse, s, Finalizing(id, Returned(true))) && FitsIfHeld(parse, s, Finalizing(id, Returned(false)))
  }

  /** The object that stands for its root: alive and not about to be deleted in favour of a successor. */
  predicate Outstanding(s: State, id: Id) {
    id in s.live && s.tokens[Finalizing(id, Replaced)] == 0
  }

  /** Cancelled and released exactly once, and rightly so. */
  predicate Settled(parse: Parser, s: State, c: nat) {
    && c < |s.calls| && Refused(parse, s.calls[c].payload)
    && s.calls[c].cancelled == 1 && s.calls[c].unreffed == 1
  }

  predicate Untouched(s: State, c: nat) {
    c < |s.calls| && s.calls[c].cancelled == 0 && s.calls[c].unreffed == 0
  }

  predicate AllSettled(parse: Parser, s: State, h: seq<nat>) {
    forall i :: 0 <= i < |h| ==> Settled(parse, s, h[i])
  }

  function Front<T>(h: seq<T>): seq<T>
    requires h != []
  {
    h[..|h| - 1]
  }

  function Last<T>(h: seq<T>): T
    requires h != []
  {
    h[|h| - 1]
  }

  /** An outstanding object: no event yet, every earlier call settled, its own call the latest and untouched. */
  predicate HeadOk(parse: Parser, s: State, id: Id)
    requires id in s.live
  {
    var root := s.live[id].root;
    && root < |s.events| && root < |s.history| && s.events[root] == []
    && match s.live[id].call
       case None => AllSettled(parse, s, s.history[root])
       case Some(c) => && s.history[root] != [] && Last(s.history[root]) == c && Untouched(s, c)
                       && AllSettled(parse, s, Front(s.history[root]))
  }

  /** A root that was answered: one event, carrying the last call if that parsed, or the failure. */
  predicate EventOk(parse: Parser, s: State, r: nat) {
    && r < |s.events| && r < |s.history| && |s.events[r]| == 1
    && var e, h := s.events[r][0], s.history[r];
       if e.ok then
         && h != [] && Untouched(s, Last(h)) && !Refused(parse, s.calls[Last(h)].payload)
         && e.message == parse(s.calls[Last(h)].payload.value)
         && AllSettled(parse, s, Front(h))
       else AllSettled(parse, s, h)
  }

  /** The calls of a root, in order of arrival. */
  predicate HistoryOk(s: State, r: nat)
    requires r < |s.history|
  {
    && (forall i :: 0 <= i < |s.history[r]| ==> s.history[r][i] < |s.calls| && s.calls[s.history[r][i]].root == r)
    && (forall i, j :: 0 <= i < j < |s.history[r]| ==> s.history[r][i] < s.history[r][j])
  }

  ghost predicate Served(s: State, r: nat) {
    exists id :: Outstanding(s, id) && s.live[id].root == r
  }

  ghost predicate Chains(parse: Parser, s: State) {
    && |s.slots| == |s.history| == |s.events|
    && (forall r :: 0 <= r < |s.history| ==> HistoryOk(s, r))
    && (forall id :: Outstanding(s, id) ==> HeadOk(parse, s, id))
    && (forall x, y :: Outstanding(s, x) && Outstanding(s, y) && s.live[x].root == s.live[y].root ==> x == y)
    && (forall r :: 0 <= r < |s.events| ==> EventOk(parse, s, r) || Served(s, r))
  }

  /** The avalanche count is the number of live objects and the reservation. */
  predicate Counted(s: State) {
    && s.queue.inFlight == |s.live| + One(s.reserved)
    && s.queue.shutdowns == One(s.queue.inFlight == 0)
  }

  ghost predicate Inv(parse: Parser, s: State) {
    && s.fault.None?
    && (forall id :: TokenOk(parse, s, id))
    && Chains(parse, s)
    && Counted(s)
  }

  // ----- frames

  predicate SameCount(s: State, s': State, id: Id) {
    && s'.tokens[Pending(id)] == s.tokens[Pending(id)]
    && s'.tokens[Queued(id, true)] == s.tokens[Queued(id, true)]
    && s'.tokens[Queued(id, false)] == s.tokens[Queued(id, false)]
    && s'.tokens[Intercepting(id)] == s.tokens[Intercepting(id)]
    && s'.tokens[Finalizing(id, Replaced)] == s.tokens[Finalizing(id, Replaced)]
    && s'.tokens[Finalizing(id, Returned(true))] == s.tokens[Finalizing(id, Returned(true))]
    && s'.tokens[Finalizing(id, Returned(false))] == s.tokens[Finalizing(id, Returned(false))]
  }

  predicate SameObject(s: State, s': State, id: Id) {
    (id in s.live <==> id in s'.live) && (id in s.live ==> s'.live[id] == s.live[id]) && SameCount(s, s', id)
  }

  /** Calls and message objects of all roots but `root` are as before, and nothing is forgotten. */
  ghost predicate OnlyRoot(s: State, s': State, root: nat) {
    && |s.calls| <= |s'.calls| && |s.slots| <= |s'.slots| && |s.events| <= |s'.events| && |s.history| <= |s'.history|
    && (forall c :: 0 <= c < |s.calls| ==>
          && s'.calls[c].root == s.calls[c].root && s'.calls[c].payload == s.calls[c].payload
          && (s.calls[c].root != root ==> s'.calls[c] == s.calls[c]))
    && (forall r :: 0 <= r < |s.slots| && r != root ==> s'.slots[r] == s.slots[r])
    && (forall r :: 0 <= r < |s.events| && r != root ==> s'.events[r] == s.events[r])
    && (forall r :: 0 <= r < |s.history| && r != root ==> s'.history[r] == s.history[r])
  }

  lemma TokenFrame(parse: Parser, s: State, s': State, root: nat, x: Id)
    requires TokenOk(parse, s, x) && SameObject(s, s', x) && OnlyRoot(s, s', root)
    requires Outstanding(s, x) ==> s.live[x].root != root
    ensures TokenOk(parse, s', x)
  {
  }

  lemma SettledFrame(parse: Parser, s: State, s': State, root: nat, r: nat, h: seq<nat>)
    requires OnlyRoot(s, s', root) && r != root
    requires forall i :: 0 <= i < |h| ==> h[i] < |s.calls| && s.calls[h[i]].root == r
    ensures AllSettled(parse, s', h) <==> AllSettled(parse, s, h)
  {
    if AllSettled(parse, s, h) {
      assert forall i :: 0 <= i < |h| ==> Settled(parse, s, h[i]);
    }
    if AllSettled(parse, s', h) {
      assert forall i :: 0 <= i < |h| ==> Settled(parse, s', h[i]);
    }
  }

  lemma OtherHead(parse: Parser, s: State, s': State, root: nat, x: Id)
    requires OnlyRoot(s, s', root) && x in s.live && x in s'.live && s'.live[x] == s.live[x] && s.live[x].root != root
    requires HeadOk(parse, s, x) && HistoryOk(s, s.live[x].root)
    ensures HeadOk(parse, s', x)
  {
    var r := s.live[x].root;
    SettledFrame(parse, s, s', root, r, s.history[r]);
    if s.history[r] != [] {
      SettledFrame(parse, s, s', root, r, Front(s.history[r]));
    }
  }

  lemma OtherEvent(parse: Parser, s: State, s': State, root: nat, r: nat)
    requires OnlyRoot(s, s', root) && r != root && EventOk(parse, s, r) && HistoryOk(s, r)
    ensures EventOk(parse, s', r)
  {
    SettledFrame(parse, s, s', root, r, s.history[r]);
    if s.history[r] != [] {
      SettledFrame(parse, s, s', root, r, Front(s.history[r]));
    }
  }

  /** A step concerned `root` alone and touched only objects of that root. */
  ghost predicate Local(s: State, s': State, root: nat, touched: set<Id>) {
    && OnlyRoot(s, s', root)
    && |s'.slots| == |s'.history| == |s'.events| && root < |s'.events|
    && (|s'.events| == |s.events| || (|s'.events| == |s.events| + 1 && root == |s.events|))
    && (forall x :: x !in touched ==> SameObject(s, s', x))
    && (forall x :: x in touched && x in s.live ==> s.live[x].root == root)
    && (forall x :: x in touched && x in s'.live ==> s'.live[x].root == root)
    && (forall x :: x !in touched && Outstanding(s, x) ==> s.live[x].root != root)
  }

  lemma TokensAfter(parse: Parser, s: State, s': State, root: nat, touched: set<Id>)
    requires (forall id :: TokenOk(parse, s, id)) && Local(s, s', root, touched)
    requires forall x :: x in touched ==> TokenOk(parse, s', x)
    ensures forall id :: TokenOk(parse, s', id)
  {
    forall x ensures TokenOk(parse, s', x) {
      if x !in touched {
        assert TokenOk(parse, s, x) && SameObject(s, s', x);
        TokenFrame(parse, s, s', root, x);
      }
    }
  }

  lemma OutstandingElsewhere(s: State, s': State, root: nat, touched: set<Id>, x: Id)
    requires Local(s, s', root, touched)
    ensures Outstanding(s', x) && s'.live[x].root != root <==> Outstanding(s, x) && s.live[x].root != root
    ensures Outstanding(s', x) && s'.live[x].root != root ==> s'.live[x] == s.live[x]
    ensures x !in touched && Outstanding(s', x) ==> s'.live[x].root != root
  {
    if x !in touched {
      assert SameObject(s, s', x);
    }
  }

  lemma ChainsAfter(parse: Parser, s: State, s': State, root: nat, touched: set<Id>)
    requires Chains(parse, s) && Local(s, s', root, touched) && HistoryOk(s', root)
    requires forall x :: x in touched && Outstanding(s', x) ==> HeadOk(parse, s', x)
    requires forall x, y :: x in touched && y in touched && Outstanding(s', x) && Outstanding(s', y) ==> x == y
    requires EventOk(parse, s', root) || exists x :: x in touched && Outstanding(s', x)
    ensures Chains(parse, s')
  {
    forall x ensures Outstanding(s', x) && s'.live[x].root != root <==> Outstanding(s, x) && s.live[x].root != root
             ensures Outstanding(s', x) && s'.live[x].root != root ==> s'.live[x] == s.live[x]
             ensures x !in touched && Outstanding(s', x) ==> s'.live[x].root != root
    {
      OutstandingElsewhere(s, s', root, touched, x);
    }
    forall x | Outstanding(s', x) ensures HeadOk(parse, s', x) {
      if x !in touched {
        OtherHead(parse, s, s', root, x);
      }
    }
    forall r | 0 <= r < |s'.history| ensures HistoryOk(s', r) {
      if r != root { assert HistoryOk(s, r); }
    }
    forall r | 0 <= r < |s'.events| ensures EventOk(parse, s', r) || Served(s', r) {
      OtherRoot(parse, s, s', root, touched, r);
    }
  }

  lemma OtherRoot(parse: Parser, s: State, s': State, root: nat, touched: set<Id>, r: nat)
    requires Chains(parse, s) && Local(s, s', root, touched) && r < |s'.events|
    requires EventOk(parse, s', root) || exists x :: x in touched && Outstanding(s', x)
    ensures EventOk(parse, s', r) || Served(s', r)
  {
    if r == root {
      if !EventOk(parse, s', root) {
        var x :| x in touched && Outstanding(s', x);
        assert s'.live[x].root == r;
      }
    } else if EventOk(parse, s, r) {
      OtherEvent(parse, s, s', root, r);
    } else {
      var x :| Outstanding(s, x) && s.live[x].root == r;
      OutstandingElsewhere(s, s', root, touched, x);
      assert s'.live[x].root == r;
    }
  }

  // ----- every step keeps the invariant

  lemma CountedNew(s: State, s': State, addr: Id)
    requires Counted(s) && s.queue.inFlight > 0 && addr !in s.live && addr in s'.live
    requires s'.live == s.live[addr := s'.live[addr]]
    requires s'.queue == Avalanche.Register(s.queue) && s'.reserved == s.reserved
    ensures Counted(s')
  {
    assert s'.live.Keys == s.live.Keys + {addr};
  }

  lemma AskLocal(parse: Parser, s: State, addr: Id, s': State)
    requires Inv(parse, s) && addr !in s.live && s.pending > 0 && s' == Asked(s, addr)
    ensures Local(s, s', |s.events|, {addr}) && TokenOk(parse, s', addr) && Outstanding(s', addr)
  {
    assert TokenOk(parse, s, addr);
    forall x | Outstanding(s, x) ensures s.live[x].root != |s.events| {
      assert TokenOk(parse, s, x);
    }
    assert forall x :: x != addr ==> SameObject(s, s', x);
  }

  lemma KeepAsk(parse: Parser, s: State, addr: Id)
    requires Inv(parse, s) && Enabled(s, Ask(addr)) && s.pending > 0
    ensures Inv(parse, Asked(s, addr))
  {
    var s', root := Asked(s, addr), |s.events|;
    CountedNew(s, s', addr);
    AskLocal(parse, s, addr, s');
    TokensAfter(parse, s, s', root, {addr});
    assert addr in {addr};
    ChainsAfter(parse, s, s', root, {addr});
  }

  lemma CountBounds(tokens: multiset<Token>, k: Token)
    ensures tokens[k] <= Count(tokens, k.id)
    ensures k != Finalizing(k.id, Replaced) ==> tokens[k] + tokens[Finalizing(k.id, Replaced)] <= Count(tokens, k.id)
  {
    match k
    case Queued(_, ok) => assert ok || !ok;
    case Finalizing(_, Returned(ok)) => assert ok || !ok;
    case _ =>
  }

  /** The one token of a live object. */
  lemma OnlyToken(parse: Parser, s: State, k: Token)
    requires Inv(parse, s) && k in s.tokens
    ensures k.id in s.live && s.tokens[k] == 1 && TokenOk(parse, s, k.id)
    ensures k != Finalizing(k.id, Replaced) ==> Outstanding(s, k.id) && HeadOk(parse, s, k.id)
    ensures k != Finalizing(k.id, Replaced) ==>
              forall x :: x != k.id && Outstanding(s, x) ==> s.live[x].root != s.live[k.id].root
  {
    assert TokenOk(parse, s, k.id);
    CountBounds(s.tokens, k);
  }

  lemma MovedCount(tokens: multiset<Token>, before: Token, after: Token)
    requires before.id == after.id && tokens[before] == Count(tokens, before.id) == 1
    ensures var tokens' := tokens - multiset{before} + multiset{after};
            tokens'[after] == 1 && Count(tokens', after.id) == 1
  {
    var rest := tokens - multiset{before};
    assert Count(rest, before.id) == 0 by {
      match before
      case Queued(_, ok) => assert ok || !ok;
      case Finalizing(_, Returned(ok)) => assert ok || !ok;
      case _ =>
    }
    CountBounds(rest, after);
    match after
    case Queued(_, ok) => assert ok || !ok;
    case Finalizing(_, Returned(ok)) => assert ok || !ok;
    case _ =>
  }

  lemma MovedElsewhere(s: State, s': State, before: Token, after: Token, x: Id)
    requires before.id == after.id && x != before.id && before.id in s.live
    requires s'.tokens == s.tokens - multiset{before} + multiset{after} && s'.live.Keys == s.live.Keys
    requires forall y :: y in s.live && y != before.id ==> s'.live[y] == s.live[y]
    ensures SameObject(s, s', x)
  {
    assert x in s.live.Keys <==> x in s'.live.Keys;
  }

  /** `id` stands for its root and its token moved from `before` to `after`. */
  lemma MoveIsLocal(parse: Parser, s: State, s': State, before: Token, after: Token)
    requires Inv(parse, s) && before.id == after.id && before in s.tokens && before.id in s.live
    requires before != Finalizing(before.id, Replaced)
    requires s'.tokens == s.tokens - multiset{before} + multiset{after}
    requires s'.live.Keys == s.live.Keys
    requires forall x :: x in s.live && x != before.id ==> s'.live[x] == s.live[x]
    requires s'.live[before.id].root == s.live[before.id].root
    requires OnlyRoot(s, s', s.live[before.id].root)
    requires |s'.slots| == |s'.history| == |s'.events| == |s.events|
    ensures Local(s, s', s.live[before.id].root, {before.id})
    ensures Count(s'.tokens, after.id) == 1 && s'.tokens[after] == 1
  {
    OnlyToken(parse, s, before);
    assert s.tokens[before] == Count(s.tokens, before.id) by { CountBounds(s.tokens, before); }
    MovedCount(s.tokens, before, after);
    forall x | x != before.id ensures SameObject(s, s', x) {
      MovedElsewhere(s, s', before, after, x);
    }
  }

  lemma KeepMove(parse: Parser, s: State, s': State, id: Id)
    requires Inv(parse, s) && s'.fault.None? && id in s.live && Local(s, s', s.live[id].root, {id})
    requires Outstanding(s', id) && TokenOk(parse, s', id) && HeadOk(parse, s', id) && HistoryOk(s', s.live[id].root)
    requires s'.live.Keys == s.live.Keys && s'.queue == s.queue && s'.reserved == s.reserved
    ensures Inv(parse, s')
  {
    TokensAfter(parse, s, s', s.live[id].root, {id});
    assert id in {id};
    ChainsAfter(parse, s, s', s.live[id].root, {id});
    assert |s'.live.Keys| == |s.live.Keys|;
  }

  lemma ArriveHead(parse: Parser, s: State, s': State, id: Id)
    requires id in s.live && id in s'.live && s.live[id].call.None? && HeadOk(parse, s, id)
    requires HistoryOk(s, s.live[id].root)
    requires s'.live[id] == s.live[id].(call := Some(|s.calls|)) && s'.events == s.events
    requires |s'.calls| == |s.calls| + 1 && s'.calls[..|s.calls|] == s.calls && Untouched(s', |s.calls|)
    requires s'.calls[|s.calls|].root == s.live[id].root
    requires var root := s.live[id].root; s'.history == s.history[root := s.history[root] + [|s.calls|]]
    ensures HeadOk(parse, s', id) && HistoryOk(s', s.live[id].root)
  {
    var h := s.history[s.live[id].root];
    assert Front(h + [|s.calls|]) == h;
    assert forall c :: 0 <= c < |s.calls| ==> s'.calls[c] == s'.calls[..|s.calls|][c];
    forall i | 0 <= i < |h| ensures Settled(parse, s', h[i]) {
      assert Settled(parse, s, h[i]);
    }
  }

  lemma ArrivedFits(parse: Parser, s: State, id: Id, payload: Option<Payload>, s': State)
    requires id in s.live && s.live[id].call.None? && !s.live[id].intercepted && HeadOk(parse, s, id)
    requires HistoryOk(s, s.live[id].root) && s' == Arrived(s, id, payload)
    ensures Fits(parse, s', Queued(id, true)) && HeadOk(parse, s', id) && HistoryOk(s', s.live[id].root)
    ensures OnlyRoot(s, s', s.live[id].root)
  {
    ArriveHead(parse, s, s', id);
    ArriveOnly(s, s', s.live[id].root);
  }

  lemma KeepArrive(parse: Parser, s: State, id: Id, payload: Option<Payload>)
    requires Inv(parse, s) && Pending(id) in s.tokens
    ensures Inv(parse, Arrived(s, id, payload))
  {
    OnlyToken(parse, s, Pending(id));
    assert HistoryOk(s, s.live[id].root);
    ArrivedFits(parse, s, id, payload, Arrived(s, id, payload));
    KeepArrived(parse, s, Arrived(s, id, payload), id);
  }

  lemma ArriveOnly(s: State, s': State, root: nat)
    requires |s'.calls| == |s.calls| + 1 && s'.calls[..|s.calls|] == s.calls
    requires s'.slots == s.slots && s'.events == s.events && root < |s.history|
    requires s'.history == s.history[root := s.history[root] + [|s.calls|]]
    ensures OnlyRoot(s, s', root)
  {
    assert forall c :: 0 <= c < |s.calls| ==> s'.calls[c] == s'.calls[..|s.calls|][c];
  }

  lemma KeepArrived(parse: Parser, s: State, s': State, id: Id)
    requires Inv(parse, s) && s'.fault.None? && Pending(id) in s.tokens && id in s.live
    requires s'.tokens == s.tokens - multiset{Pending(id)} + multiset{Queued(id, true)} && s'.live.Keys == s.live.Keys
    requires forall x :: x in s.live && x != id ==> s'.live[x] == s.live[x]
    requires s'.live[id].root == s.live[id].root && OnlyRoot(s, s', s.live[id].root)
    requires |s'.slots| == |s'.history| == |s'.events| == |s.events|
    requires s'.queue == s.queue && s'.reserved == s.reserved
    requires Fits(parse, s', Queued(id, true)) && HeadOk(parse, s', id) && HistoryOk(s', s.live[id].root)
    ensures Inv(parse, s')
  {
    OnlyToken(parse, s, Pending(id));
    MoveIsLocal(parse, s, s', Pending(id), Queued(id, true));
    SoleToken(parse, s', Queued(id, true));
    CountBounds(s'.tokens, Queued(id, true));
    KeepMove(parse, s, s', id);
  }

  lemma SoleToken(parse: Parser, s: State, k: Token)
    requires Count(s.tokens, k.id) == 1 && s.tokens[k] == 1 && Fits(parse, s, k)
    requires k.id in s.live && s.live[k.id].root < |s.events|
    ensures TokenOk(parse, s, k.id)
  {
    match k
    case Queued(_, ok) => assert ok || !ok;
    case Finalizing(_, Returned(ok)) => assert ok || !ok;
    case _ =>
  }

  /** A token moves; calls, history and events stay; at most its own root's message object is written. */
  lemma KeepPass(parse: Parser, s: State, s': State, before: Token, after: Token)
    requires Inv(parse, s) && before.id == after.id && before in s.tokens && before != Finalizing(before.id, Replaced)
    requires before.id in s.live && after != Finalizing(after.id, Replaced)
    requires s'.tokens == s.tokens - multiset{before} + multiset{after} && s'.live.Keys == s.live.Keys
    requires forall x :: x in s.live && x != before.id ==> s'.live[x] == s.live[x]
    requires s'.live[before.id] == s.live[before.id].(intercepted := s'.live[before.id].intercepted)
    requires s'.calls == s.calls && s'.history == s.history && s'.events == s.events
    requires |s'.slots| == |s.slots|
    requires forall r :: 0 <= r < |s.slots| && r != s.live[before.id].root ==> s'.slots[r] == s.slots[r]
    requires s'.queue == s.queue && s'.reserved == s.reserved && s'.fault.None?
    requires Fits(parse, s', after)
    ensures Inv(parse, s')
  {
    OnlyToken(parse, s, before);
    MoveIsLocal(parse, s, s', before, after);
    SoleToken(parse, s', after);
    CountBounds(s'.tokens, after);
    assert HistoryOk(s, s.live[before.id].root);
    SameHead(parse, s, s', before.id);
    KeepMove(parse, s, s', before.id);
  }

  lemma SameHead(parse: Parser, s: State, s': State, id: Id)
    requires id in s.live && id in s'.live && HeadOk(parse, s, id)
    requires s'.live[id].root == s.live[id].root && s'.live[id].call == s.live[id].call
    requires s'.calls == s.calls && s'.history == s.history && s'.events == s.events
    ensures HeadOk(parse, s', id)
    ensures HistoryOk(s, s.live[id].root) ==> HistoryOk(s', s.live[id].root)
  {
    var h := s.history[s.live[id].root];
    assert AllSettled(parse, s, h) ==> AllSettled(parse, s', h) by {
      assert forall i :: 0 <= i < |h| ==> Settled(parse, s, h[i]) ==> Settled(parse, s', h[i]);
    }
    if h != [] {
      assert AllSettled(parse, s, Front(h)) ==> AllSettled(parse, s', Front(h)) by {
        assert forall i :: 0 <= i < |Front(h)| ==> Settled(parse, s, Front(h)[i]) ==> Settled(parse, s', Front(h)[i]);
      }
    }
  }

  lemma KeepReject(parse: Parser, s: State, id: Id)
    requires Inv(parse, s) && Pending(id) in s.tokens
    ensures Inv(parse, Pass(End(s), Pending(id), Queued(id, false)))
  {
    OnlyToken(parse, s, Pending(id));
    KeepPass(parse, s, Pass(End(s), Pending(id), Queued(id, false)), Pending(id), Queued(id, false));
  }

  lemma KeepResume(parse: Parser, s: State, id: Id)
    requires Inv(parse, s) && Intercepting(id) in s.tokens && s.pending > 0
    ensures Inv(parse, Resumed(s, id))
  {
    OnlyToken(parse, s, Intercepting(id));
    KeepPass(parse, s, Resumed(s, id), Intercepting(id), Queued(id, true));
  }

  /** The event is one that `FinalizeResult` answers by replacing the object. */
  predicate Malformed(parse: Parser, s: State, id: Id, ok: bool) {
    ok && Carrying(s, id) && !s.live[id].intercepted && Refused(parse, s.calls[s.live[id].call.value].payload)
  }

  /** What the event finds: a queued object fits its place in the queue. */
  lemma QueuedFits(parse: Parser, s: State, id: Id, ok: bool)
    requires Inv(parse, s) && Queued(id, ok) in s.tokens
    ensures id in s.live && Fits(parse, s, Queued(id, ok)) && s.live[id].root < |s.slots|
  {
    OnlyToken(parse, s, Queued(id, ok));
    assert ok || !ok;
  }

  /** The state when the tag is about to be returned. */
  function Returning(s: State, id: Id, ok: bool): State {
    Pass(s, Queued(id, ok), Finalizing(id, Returned(ok)))
  }

  /** The state when the message has been stored and the interceptors run or the tag is about to be returned. */
  function Stored(s: State, id: Id, message: Option<Message>, intercept: bool): State
    requires id in s.live && s.live[id].root < |s.slots|
  {
    var r := s.live[id];
    var stored := s.(slots := s.slots[r.root := message]);
    if intercept then Pass(stored.(live := s.live[id := r.(intercepted := true)]), Queued(id, true), Intercepting(id))
    else Pass(stored, Queued(id, true), Finalizing(id, Returned(true)))
  }

  /** The same for the message that the payload deserializes to. */
  function Accepted(parse: Parser, s: State, id: Id, intercept: bool): State
    requires Carrying(s, id) && s.live[id].root < |s.slots| && s.calls[s.live[id].call.value].payload.Some?
  {
    Stored(s, id, parse(s.calls[s.live[id].call.value].payload.value), intercept)
  }

  /** An event that ends the request: a failure, or the second delivery after the interceptors. */
  lemma KeepReturned(parse: Parser, s: State, id: Id, ok: bool)
    requires Inv(parse, s) && Queued(id, ok) in s.tokens && id in s.live && (ok ==> s.live[id].intercepted)
    ensures Inv(parse, Returning(s, id, ok)) && Finalizing(id, Returned(ok)) in Returning(s, id, ok).tokens
    ensures ok ==> Parsed(parse, Returning(s, id, ok), id)
  {
    QueuedFits(parse, s, id, ok);
    KeepPass(parse, s, Returning(s, id, ok), Queued(id, ok), Finalizing(id, Returned(ok)));
  }

  /** A payload that parses goes to the interceptors or is returned. */
  lemma KeepAccepted(parse: Parser, s: State, id: Id, intercept: bool)
    requires Inv(parse, s) && Queued(id, true) in s.tokens && Carrying(s, id) && s.live[id].root < |s.slots|
    requires !s.live[id].intercepted && !Refused(parse, s.calls[s.live[id].call.value].payload)
    ensures var s' := Accepted(parse, s, id, intercept);
            && Inv(parse, s') && Parsed(parse, s', id)
            && (if intercept then Intercepting(id) else Finalizing(id, Returned(true))) in s'.tokens
  {
    var after := if intercept then Intercepting(id) else Finalizing(id, Returned(true));
    KeepPass(parse, s, Accepted(parse, s, id, intercept), Queued(id, true), after);
  }

  /** Which of the two a delivery without replacement comes to. */
  lemma FinalizeOutcome(parse: Parser, s: State, id: Id, ok: bool, intercept: bool, addr: Id, garbage: Option<Message>)
    requires id in s.live && s.live[id].root < |s.slots| && (ok ==> Carrying(s, id)) && !Malformed(parse, s, id, ok)
    ensures Finalize(parse, s, id, ok, intercept, addr, garbage) ==
            if ok && !s.live[id].intercepted then Accepted(parse, s, id, intercept) else Returning(s, id, ok)
  {
  }

  /** Without replacement the object goes to its interceptors with the payload parsed, or is about to return its tag
      with the result of the event. */
  lemma KeepReturn(parse: Parser, s: State, id: Id, ok: bool, intercept: bool, addr: Id, garbage: Option<Message>)
    requires Inv(parse, s) && Queued(id, ok) in s.tokens && !Malformed(parse, s, id, ok)
    ensures var s' := Finalize(parse, s, id, ok, intercept, addr, garbage);
            && id in s.live && Inv(parse, s')
            && (if ok && !s.live[id].intercepted && intercept
                then Intercepting(id) in s'.tokens && Parsed(parse, s', id)
                else Finalizing(id, Returned(ok)) in s'.tokens && (ok ==> Parsed(parse, s', id)))
  {
    QueuedFits(parse, s, id, ok);
    FinalizeOutcome(parse, s, id, ok, intercept, addr, garbage);
    if ok && !s.live[id].intercepted {
      KeepAccepted(parse, s, id, intercept);
    } else {
      KeepReturned(parse, s, id, ok);
    }
  }

  lemma ReplacedTokens(tokens: multiset<Token>, tokens': multiset<Token>, id: Id, addr: Id)
    requires id != addr && tokens[Queued(id, true)] == Count(tokens, id) == 1 && Count(tokens, addr) == 0
    requires tokens' ==
             tokens - multiset{Queued(id, true)} + multiset{Finalizing(id, Replaced)} + multiset{Pending(addr)}
    ensures tokens'[Finalizing(id, Replaced)] == Count(tokens', id) == 1
    ensures tokens'[Pending(addr)] == Count(tokens', addr) == 1
  {
  }

  lemma ReplacedElsewhere(s: State, s': State, id: Id, addr: Id, x: Id)
    requires x != id && x != addr && id in s.live && s'.live == s.live[addr := Request(s.live[id].root, None, false)]
    requires s'.tokens ==
             s.tokens - multiset{Queued(id, true)} + multiset{Finalizing(id, Replaced)} + multiset{Pending(addr)}
    ensures SameObject(s, s', x)
  {
  }

  lemma ReplaceTokens(parse: Parser, s: State, s': State, id: Id, addr: Id)
    requires Inv(parse, s) && Queued(id, true) in s.tokens && id in s.live && addr !in s.live
    requires s'.tokens ==
             s.tokens - multiset{Queued(id, true)} + multiset{Finalizing(id, Replaced)} + multiset{Pending(addr)}
    requires s'.live == s.live[addr := Request(s.live[id].root, None, false)] && |s'.events| == |s.events|
    ensures TokenOk(parse, s', id) && TokenOk(parse, s', addr)
    ensures !Outstanding(s', id) && Outstanding(s', addr)
    ensures forall x :: x != id && x != addr ==> SameObject(s, s', x)
  {
    OnlyToken(parse, s, Queued(id, true));
    assert TokenOk(parse, s, addr);
    ReplacedTokens(s.tokens, s'.tokens, id, addr);
    forall x | x != id && x != addr ensures SameObject(s, s', x) {
      ReplacedElsewhere(s, s', id, addr, x);
    }
  }

  lemma ReplaceHead(parse: Parser, s: State, s': State, id: Id, addr: Id)
    requires HeadOkCarrying(parse, s, id) && HistoryOk(s, s.live[id].root)
    requires Refused(parse, s.calls[s.live[id].call.value].payload)
    requires addr in s'.live && s'.live[addr] == Request(s.live[id].root, None, false)
    requires s'.events == s.events && s'.history == s.history
    requires var k := s.live[id].call.value; var c := s.calls[k];
             s'.calls == s.calls[k := c.(cancelled := c.cancelled + 1, unreffed := c.unreffed + 1)]
    ensures HeadOk(parse, s', addr) && HistoryOk(s', s.live[id].root)
  {
    var h, k := s.history[s.live[id].root], s.live[id].call.value;
    forall i | 0 <= i < |h| ensures Settled(parse, s', h[i]) {
      if i < |h| - 1 {
        assert h[i] == Front(h)[i] && Settled(parse, s, Front(h)[i]);
      } else {
        assert h[i] == k;
      }
    }
  }

  predicate HeadOkCarrying(parse: Parser, s: State, id: Id) {
    Carrying(s, id) && HeadOk(parse, s, id)
  }

  lemma ReplaceLocal(s: State, s': State, id: Id, addr: Id)
    requires Carrying(s, id) && addr !in s.live && s.live[id].root < |s.events|
    requires |s.slots| == |s.history| == |s.events|
    requires forall x :: x != id && x != addr ==> SameObject(s, s', x)
    requires s'.live == s.live[addr := Request(s.live[id].root, None, false)]
    requires s'.events == s.events && s'.history == s.history
    requires var k := s.live[id].call.value; var c := s.calls[k];
             s'.calls == s.calls[k := c.(cancelled := c.cancelled + 1, unreffed := c.unreffed + 1)]
    requires |s'.slots| == |s.slots|
    requires forall r :: 0 <= r < |s.slots| && r != s.live[id].root ==> s'.slots[r] == s.slots[r]
    requires forall x :: x != id && Outstanding(s, x) ==> s.live[x].root != s.live[id].root
    ensures Local(s, s', s.live[id].root, {id, addr})
  {
  }

  lemma AfterReplacement(parse: Parser, s: State, s': State, root: nat, id: Id, addr: Id)
    requires (forall x :: TokenOk(parse, s, x)) && Chains(parse, s) && Local(s, s', root, {id, addr})
    requires TokenOk(parse, s', id) && TokenOk(parse, s', addr) && !Outstanding(s', id) && Outstanding(s', addr)
    requires HeadOk(parse, s', addr) && HistoryOk(s', root)
    ensures (forall x :: TokenOk(parse, s', x)) && Chains(parse, s')
  {
    TokensAfter(parse, s, s', root, {id, addr});
    assert addr in {id, addr};
    ChainsAfter(parse, s, s', root, {id, addr});
  }

  lemma KeepReplaced(parse: Parser, s: State, s': State, id: Id, addr: Id)
    requires Inv(parse, s) && s'.fault.None? && Queued(id, true) in s.tokens && Malformed(parse, s, id, true)
    requires addr !in s.live
    requires s'.tokens ==
             s.tokens - multiset{Queued(id, true)} + multiset{Finalizing(id, Replaced)} + multiset{Pending(addr)}
    requires s'.live == s.live[addr := Request(s.live[id].root, None, false)]
    requires s'.events == s.events && s'.history == s.history
    requires var k := s.live[id].call.value; var c := s.calls[k];
             s'.calls == s.calls[k := c.(cancelled := c.cancelled + 1, unreffed := c.unreffed + 1)]
    requires |s'.slots| == |s.slots|
    requires forall r :: 0 <= r < |s.slots| && r != s.live[id].root ==> s'.slots[r] == s.slots[r]
    requires Counted(s')
    ensures Inv(parse, s')
  {
    var root := s.live[id].root;
    OnlyToken(parse, s, Queued(id, true));
    ReplaceTokens(parse, s, s', id, addr);
    assert HistoryOk(s, root);
    ReplaceHead(parse, s, s', id, addr);
    ReplaceLocal(s, s', id, addr);
    AfterReplacement(parse, s, s', root, id, addr);
  }

  /** The state when the object has been replaced and is about to be deleted. */
  function Replacing(s: State, id: Id, addr: Id, garbage: Option<Message>): State
    requires Carrying(s, id) && s.live[id].root < |s.slots|
  {
    var r := s.live[id];
    New(Cancel(Pass(s, Queued(id, true), Finalizing(id, Replaced)), r.call.value, r.root, garbage), addr, r.root)
  }

  lemma FinalizeReplaces(parse: Parser, s: State, id: Id, intercept: bool, addr: Id, garbage: Option<Message>)
    requires Malformed(parse, s, id, true) && s.live[id].root < |s.slots|
    ensures Finalize(parse, s, id, true, intercept, addr, garbage) == Replacing(s, id, addr, garbage)
  {
  }

  lemma ReplacingCounts(parse: Parser, s: State, id: Id, addr: Id, garbage: Option<Message>)
    requires Inv(parse, s) && Carrying(s, id) && s.live[id].root < |s.slots| && addr !in s.live && s.pending > 0
    ensures Counted(Replacing(s, id, addr, garbage))
  {
    assert id in s.live.Keys;
    CountedNew(s, Replacing(s, id, addr, garbage), addr);
  }

  lemma KeepReplacing(parse: Parser, s: State, id: Id, addr: Id, garbage: Option<Message>)
    requires Inv(parse, s) && Queued(id, true) in s.tokens && Malformed(parse, s, id, true) && addr !in s.live
    requires s.live[id].root < |s.slots| && s.pending > 0
    ensures Inv(parse, Replacing(s, id, addr, garbage))
  {
    ReplacingCounts(parse, s, id, addr, garbage);
    KeepReplaced(parse, s, Replacing(s, id, addr, garbage), id, addr);
  }

  /** The malformed call is cancelled and released, for the first time, and the successor stands for the request. */
  lemma KeepReplace(parse: Parser, s: State, id: Id, intercept: bool, addr: Id, garbage: Option<Message>)
    requires Inv(parse, s) && Queued(id, true) in s.tokens && Malformed(parse, s, id, true) && addr !in s.live
    requires s.pending > 0
    ensures var s' := Finalize(parse, s, id, true, intercept, addr, garbage);
            && Inv(parse, s') && Settled(parse, s', s.live[id].call.value)
            && Pending(addr) in s'.tokens && Outstanding(s', addr) && s'.live[addr].root == s.live[id].root
            && id in s'.live && !Outstanding(s', id) && s'.events == s.events
  {
    OnlyToken(parse, s, Queued(id, true));
    FinalizeReplaces(parse, s, id, intercept, addr, garbage);
    KeepReplacing(parse, s, id, addr, garbage);
    ReplaceTokens(parse, s, Replacing(s, id, addr, garbage), id, addr);
  }

  lemma SameHistory(s: State, s': State, r: nat)
    requires s'.calls == s.calls && s'.history == s.history && r < |s.history| && HistoryOk(s, r)
    ensures HistoryOk(s', r)
  {
  }

  lemma RemovedToken(parse: Parser, s: State, s': State, k: Token)
    requires s'.tokens == s.tokens - multiset{k} && s'.live == s.live - {k.id}
    requires s.tokens[k] == Count(s.tokens, k.id) == 1
    ensures TokenOk(parse, s', k.id)
  {
    match k
    case Queued(_, ok) => assert ok || !ok;
    case Finalizing(_, Returned(ok)) => assert ok || !ok;
    case _ =>
  }

  lemma RemovedElsewhere(s: State, s': State, k: Token)
    requires s'.tokens == s.tokens - multiset{k} && s'.live == s.live - {k.id}
    ensures forall x :: x != k.id ==> SameObject(s, s', x)
  {
    forall x | x != k.id ensures SameObject(s, s', x) {
    }
  }

  lemma AfterAnswer(parse: Parser, s: State, s': State, root: nat, id: Id)
    requires (forall x :: TokenOk(parse, s, x)) && Chains(parse, s) && Local(s, s', root, {id})
    requires id !in s'.live && TokenOk(parse, s', id) && EventOk(parse, s', root) && HistoryOk(s', root)
    ensures (forall x :: TokenOk(parse, s', x)) && Chains(parse, s')
  {
    TokensAfter(parse, s, s', root, {id});
    ChainsAfter(parse, s, s', root, {id});
  }

  lemma AnsweredLocal(s: State, s': State, id: Id)
    requires id in s.live && s.live[id].root < |s.events| && |s.slots| == |s.history| == |s.events| == |s'.events|
    requires s'.live == s.live - {id} && forall x :: x != id ==> SameObject(s, s', x)
    requires s'.calls == s.calls && s'.history == s.history && s'.slots == s.slots
    requires forall r :: 0 <= r < |s.events| && r != s.live[id].root ==> s'.events[r] == s.events[r]
    requires forall x :: x != id && Outstanding(s, x) ==> s.live[x].root != s.live[id].root
    ensures Local(s, s', s.live[id].root, {id})
  {
  }

  lemma AnsweredRoot(parse: Parser, s: State, s': State, id: Id, ok: bool)
    requires Inv(parse, s) && Finalizing(id, Returned(ok)) in s.tokens && id in s.live
    requires s'.calls == s.calls && s'.history == s.history && s.live[id].root < |s.events| == |s.slots|
    requires var root := s.live[id].root; s'.events == s.events[root := s.events[root] + [AppEvent(ok, s.slots[root])]]
    ensures EventOk(parse, s', s.live[id].root) && HistoryOk(s', s.live[id].root)
  {
    var k := Finalizing(id, Returned(ok));
    OnlyToken(parse, s, k);
    assert Fits(parse, s, k) by { assert ok || !ok; }
    AnsweredEvent(parse, s, s', id, ok);
    assert HistoryOk(s, s.live[id].root);
    SameHistory(s, s', s.live[id].root);
  }

  lemma AnsweredObject(parse: Parser, s: State, s': State, id: Id, ok: bool)
    requires Inv(parse, s) && Finalizing(id, Returned(ok)) in s.tokens && id in s.live
    requires s'.tokens == s.tokens - multiset{Finalizing(id, Returned(ok))} && s'.live == s.live - {id}
    requires s'.calls == s.calls && s'.history == s.history && s'.slots == s.slots && s.live[id].root < |s.events|
    requires |s'.events| == |s.events|
    requires forall r :: 0 <= r < |s.events| && r != s.live[id].root ==> s'.events[r] == s.events[r]
    ensures TokenOk(parse, s', id) && Local(s, s', s.live[id].root, {id})
  {
    var k := Finalizing(id, Returned(ok));
    OnlyToken(parse, s, k);
    CountBounds(s.tokens, k);
    RemovedToken(parse, s, s', k);
    RemovedElsewhere(s, s', k);
    AnsweredLocal(s, s', id);
  }

  /** The last act of an object that returns its tag: its root has been answered. */
  lemma KeepAnswered(parse: Parser, s: State, s': State, id: Id, ok: bool)
    requires Inv(parse, s) && s'.fault.None? && Finalizing(id, Returned(ok)) in s.tokens && id in s.live
    requires s'.tokens == s.tokens - multiset{Finalizing(id, Returned(ok))} && s'.live == s.live - {id}
    requires s'.calls == s.calls && s'.history == s.history && s'.slots == s.slots && s.live[id].root < |s.events|
    requires |s.slots| == |s.events|
    requires var root := s.live[id].root; s'.events == s.events[root := s.events[root] + [AppEvent(ok, s.slots[root])]]
    requires Counted(s')
    ensures Inv(parse, s')
  {
    AnsweredRoot(parse, s, s', id, ok);
    AnsweredObject(parse, s, s', id, ok);
    AfterAnswer(parse, s, s', s.live[id].root, id);
  }

  lemma AnsweredEvent(parse: Parser, s: State, s': State, id: Id, ok: bool)
    requires id in s.live && HeadOk(parse, s, id) && s.live[id].root < |s.slots|
    requires if ok then Parsed(parse, s, id) else s.live[id].call.None?
    requires s'.calls == s.calls && s'.history == s.history
    requires var root := s.live[id].root; s'.events == s.events[root := s.events[root] + [AppEvent(ok, s.slots[root])]]
    ensures EventOk(parse, s', s.live[id].root)
  {
    var h := s.history[s.live[id].root];
    if ok {
      assert forall i :: 0 <= i < |Front(h)| ==> Settled(parse, s, Front(h)[i]);
    } else {
      assert forall i :: 0 <= i < |h| ==> Settled(parse, s, h[i]);
    }
  }

  lemma BuriedToken(parse: Parser, s: State, s': State, id: Id, x: Id)
    requires Inv(parse, s) && Finalizing(id, Replaced) in s.tokens && id in s.live
    requires s'.tokens == s.tokens - multiset{Finalizing(id, Replaced)} && s'.live == s.live - {id}
    requires s'.calls == s.calls && s'.history == s.history && s'.slots == s.slots && s'.events == s.events
    ensures TokenOk(parse, s', x) && (Outstanding(s', x) <==> Outstanding(s, x))
  {
    OnlyToken(parse, s, Finalizing(id, Replaced));
    assert TokenOk(parse, s, x);
    if x == id {
      RemovedToken(parse, s, s', Finalizing(id, Replaced));
    } else {
      RemovedElsewhere(s, s', Finalizing(id, Replaced));
      assert SameObject(s, s', x);
      TokenFrame(parse, s, s', |s.events|, x);
    }
  }

  /** The last act of a replaced object: its successor carries on. */
  lemma KeepBuried(parse: Parser, s: State, s': State, id: Id)
    requires Inv(parse, s) && s'.fault.None? && Finalizing(id, Replaced) in s.tokens && id in s.live
    requires s'.tokens == s.tokens - multiset{Finalizing(id, Replaced)} && s'.live == s.live - {id}
    requires s'.calls == s.calls && s'.history == s.history && s'.slots == s.slots && s'.events == s.events
    requires Counted(s')
    ensures Inv(parse, s')
  {
    forall x ensures TokenOk(parse, s', x) && (Outstanding(s', x) <==> Outstanding(s, x)) {
      BuriedToken(parse, s, s', id, x);
    }
    BuriedChains(parse, s, s');
  }

  lemma BuriedChains(parse: Parser, s: State, s': State)
    requires Chains(parse, s)
    requires forall x :: Outstanding(s', x) <==> Outstanding(s, x)
    requires forall x :: Outstanding(s', x) ==> x in s.live && s'.live[x] == s.live[x]
    requires s'.calls == s.calls && s'.history == s.history && s'.slots == s.slots && s'.events == s.events
    ensures Chains(parse, s')
  {
    forall r | 0 <= r < |s.history| ensures HistoryOk(s', r) { assert HistoryOk(s, r); }
    forall x | Outstanding(s', x) ensures HeadOk(parse, s', x) {
      assert HeadOk(parse, s, x) && HistoryOk(s, s.live[x].root);
      OtherHead(parse, s, s', |s.events|, x);
    }
    forall r | 0 <= r < |s'.events| ensures EventOk(parse, s', r) || Served(s', r) {
      if EventOk(parse, s, r) {
        OtherEvent(parse, s, s', |s.events|, r);
      } else {
        var x :| Outstanding(s, x) && s.live[x].root == r;
        assert Outstanding(s', x);
      }
    }
  }

  lemma CountedWithout(s: State, id: Id)
    requires Counted(s) && id in s.live
    ensures s.queue.inFlight > 0
    ensures Counted(Complete(s.(live := s.live - {id})))
  {
    assert s.live.Keys == (s.live - {id}).Keys + {id};
  }

  /** What deletion leaves of a replaced object, and of one that returns its tag. */
  lemma DestroyFields(s: State, id: Id, final: Final)
    requires id in s.live && s.live[id].root < |s.events| && |s.slots| == |s.events| && Counted(s) && s.fault.None?
    ensures var s', root := Destroy(s, id, final), s.live[id].root;
            && s'.tokens == s.tokens - multiset{Finalizing(id, final)} && s'.live == s.live - {id} && Counted(s')
            && s'.calls == s.calls && s'.history == s.history && s'.slots == s.slots && s'.fault.None?
            && s'.events == if final.Replaced? then s.events
                            else s.events[root := s.events[root] + [AppEvent(final.ok, s.slots[root])]]
  {
    CountedWithout(s, id);
  }

  lemma KeepDelete(parse: Parser, s: State, id: Id, final: Final)
    requires Inv(parse, s) && Finalizing(id, final) in s.tokens
    ensures Inv(parse, Destroy(s, id, final))
  {
    OnlyToken(parse, s, Finalizing(id, final));
    DestroyFields(s, id, final);
    if final.Replaced? {
      KeepBuried(parse, s, Destroy(s, id, final), id);
    } else {
      KeepAnswered(parse, s, Destroy(s, id, final), id, final.ok);
    }
  }

  /** Only the queues change. */
  lemma KeepQueues(parse: Parser, s: State, s': State)
    requires Inv(parse, s) && Counted(s') && s'.fault.None? && s'.live == s.live && s'.tokens == s.tokens
    requires s'.calls == s.calls && s'.history == s.history && s'.slots == s.slots && s'.events == s.events
    ensures Inv(parse, s')
  {
    forall x ensures TokenOk(parse, s', x) {
      assert TokenOk(parse, s, x) && SameObject(s, s', x);
      TokenFrame(parse, s, s', |s.events|, x);
    }
    BuriedChains(parse, s, s');
  }

  lemma KeepShutdown(parse: Parser, s: State, a: Action)
    requires Inv(parse, s) && (a.Shutdown? || a.Silence?) && Enabled(s, a)
    ensures Inv(parse, Step(parse, s, a))
  {
    KeepQueues(parse, s, Step(parse, s, a));
  }

  // ----- operations begun on the notification queue

  /** The objects the core has been asked for a call for. */
  function Awaited(tokens: multiset<Token>): set<Id> {
    set k | k in tokens && k.Pending? :: k.id
  }

  /** The notification queue's pending events are those operations and, until it is shut down, one more; a queue
      used for both purposes is shut down by its last avalanche. */
  predicate Issued(s: State) {
    && s.pending == |Awaited(s.tokens)| + One(s.open)
    && (s.shared ==> (s.open <==> s.queue.shutdowns == 0))
  }

  lemma AwaitedIs(tokens: multiset<Token>, id: Id)
    ensures id in Awaited(tokens) <==> Pending(id) in tokens
  {
    if Pending(id) in tokens {
      assert Pending(id).id in Awaited(tokens);
    }
  }

  lemma AwaitedSame(before: multiset<Token>, after: multiset<Token>)
    requires forall id :: Pending(id) in before <==> Pending(id) in after
    ensures Awaited(after) == Awaited(before)
  {
    forall id ensures id in Awaited(before) <==> id in Awaited(after) {
      AwaitedIs(before, id);
      AwaitedIs(after, id);
    }
  }

  lemma AwaitedMore(before: multiset<Token>, after: multiset<Token>, addr: Id)
    requires forall id :: Pending(id) in after <==> Pending(id) in before || id == addr
    requires Pending(addr) !in before
    ensures |Awaited(after)| == |Awaited(before)| + 1
  {
    forall id ensures id in Awaited(after) <==> id in Awaited(before) + {addr} {
      AwaitedIs(before, id);
      AwaitedIs(after, id);
    }
    AwaitedIs(before, addr);
    assert Awaited(after) == Awaited(before) + {addr};
  }

  /** The step needs a core queue that still accepts operations and there is none: the assertion of `IssueRequest`
      fails, or an operation that could not be begun is ended. */
  predicate Starves(parse: Parser, s: State, a: Action) {
    && s.pending == 0
    && match a
       case Deliver(id, ok, _, _, _) => Malformed(parse, s, id, ok)
       case Resume(_) => true
       case _ => false
  }

  lemma IssuedArrive(parse: Parser, s: State, s': State, id: Id, ok: bool)
    requires Inv(parse, s) && Issued(s) && Pending(id) in s.tokens
    requires s'.tokens == s.tokens - multiset{Pending(id)} + multiset{Queued(id, ok)}
    requires s'.pending == s.pending - 1 && s'.open == s.open && s'.shared == s.shared && s'.queue == s.queue
    ensures Issued(s')
  {
    OnlyToken(parse, s, Pending(id));
    AwaitedMore(s'.tokens, s.tokens, id);
  }

  lemma AwaitedPositive(s: State, id: Id)
    requires Issued(s) && Pending(id) in s.tokens
    ensures s.pending > 0
  {
    AwaitedIs(s.tokens, id);
    assert |Awaited(s.tokens)| > 0;
  }

  lemma IssuedNew(parse: Parser, s: State, s': State, addr: Id)
    requires Inv(parse, s) && Issued(s) && addr !in s.live && s.queue.shutdowns == s'.queue.shutdowns
    requires forall id :: Pending(id) in s'.tokens <==> Pending(id) in s.tokens || id == addr
    requires s'.pending == s.pending + 1 && s'.open == s.open && s'.shared == s.shared
    ensures Issued(s')
  {
    assert TokenOk(parse, s, addr);
    AwaitedMore(s.tokens, s'.tokens, addr);
  }

  lemma IssuedComplete(s: State)
    requires Issued(s) && s.queue.inFlight > 0 && s.queue.shutdowns == 0
    ensures Issued(Complete(s))
  {
  }

  lemma IssuedDelete(parse: Parser, s: State, id: Id, final: Final)
    requires Inv(parse, s) && Issued(s) && Finalizing(id, final) in s.tokens
    ensures Issued(Destroy(s, id, final))
  {
    OnlyToken(parse, s, Finalizing(id, final));
    CountedWithout(s, id);
    var tokens := s.tokens - multiset{Finalizing(id, final)};
    AwaitedSame(s.tokens, tokens);
    IssuedComplete(s.(live := s.live - {id}, tokens := tokens));
  }

  lemma IssuedReplace(parse: Parser, s: State, s': State, id: Id, addr: Id)
    requires Inv(parse, s) && Issued(s) && addr !in s.live && s.queue.shutdowns == s'.queue.shutdowns
    requires s'.tokens ==
             s.tokens - multiset{Queued(id, true)} + multiset{Finalizing(id, Replaced)} + multiset{Pending(addr)}
    requires s'.pending == s.pending + 1 && s'.open == s.open && s'.shared == s.shared
    ensures Issued(s')
  {
    IssuedNew(parse, s, s', addr);
  }

  lemma IssuedPass(s: State, s': State, before: Token, after: Token)
    requires Issued(s) && !before.Pending? && !after.Pending?
    requires s'.tokens == s.tokens - multiset{before} + multiset{after}
    requires s'.pending == s.pending && s'.open == s.open && s'.shared == s.shared && s'.queue == s.queue
    ensures Issued(s')
  {
    AwaitedSame(s.tokens, s'.tokens);
  }

  lemma IssuedReplacing(parse: Parser, s: State, id: Id, addr: Id, garbage: Option<Message>)
    requires Inv(parse, s) && Issued(s) && Carrying(s, id) && s.live[id].root < |s.slots| && addr !in s.live
    requires s.pending > 0
    ensures Issued(Replacing(s, id, addr, garbage))
  {
    IssuedReplace(parse, s, Replacing(s, id, addr, garbage), id, addr);
  }

  lemma IssuedAccepted(parse: Parser, s: State, id: Id, intercept: bool)
    requires Issued(s) && Carrying(s, id) && s.live[id].root < |s.slots|
    requires s.calls[s.live[id].call.value].payload.Some?
    ensures Issued(Accepted(parse, s, id, intercept))
  {
    var after := if intercept then Intercepting(id) else Finalizing(id, Returned(true));
    IssuedPass(s, Accepted(parse, s, id, intercept), Queued(id, true), after);
  }

  lemma IssuedDeliver(parse: Parser, s: State, a: Action)
    requires Inv(parse, s) && Issued(s) && Enabled(s, a) && a.Deliver? && !Starves(parse, s, a)
    ensures Issued(Step(parse, s, a))
  {
    QueuedFits(parse, s, a.id, a.ok);
    if Malformed(parse, s, a.id, a.ok) {
      FinalizeReplaces(parse, s, a.id, a.intercept, a.addr, a.garbage);
      IssuedReplacing(parse, s, a.id, a.addr, a.garbage);
    } else {
      FinalizeOutcome(parse, s, a.id, a.ok, a.intercept, a.addr, a.garbage);
      if a.ok && !s.live[a.id].intercepted {
        IssuedAccepted(parse, s, a.id, a.intercept);
      } else {
        IssuedPass(s, Returning(s, a.id, a.ok), Queued(a.id, a.ok), Finalizing(a.id, Returned(a.ok)));
      }
    }
  }

  lemma IssuedArrival(parse: Parser, s: State, id: Id, payload: Option<Payload>)
    requires Inv(parse, s) && Issued(s) && Pending(id) in s.tokens
    ensures Issued(Arrived(s, id, payload)) && Issued(Pass(End(s), Pending(id), Queued(id, false)))
  {
    OnlyToken(parse, s, Pending(id));
    AwaitedPositive(s, id);
    IssuedArrive(parse, s, Arrived(s, id, payload), id, true);
    IssuedArrive(parse, s, Pass(End(s), Pending(id), Queued(id, false)), id, false);
  }

  lemma IssuedShutdown(parse: Parser, s: State, a: Action)
    requires Inv(parse, s) && Issued(s) && Enabled(s, a) && (a.Shutdown? || a.Silence?)
    ensures Issued(Step(parse, s, a))
  {
    if a.Shutdown? {
      IssuedComplete(s.(reserved := false));
    }
  }

  lemma IssuedStep(parse: Parser, s: State, a: Action)
    requires Inv(parse, s) && Issued(s) && Enabled(s, a) && !Starves(parse, s, a)
    ensures Issued(Step(parse, s, a))
  {
    match a {
      case Ask(addr) => IssuedNew(parse, s, Asked(s, addr), addr);
      case Arrive(id, payload) => IssuedArrival(parse, s, id, payload);
      case Reject(id) => IssuedArrival(parse, s, id, None);
      case Deliver(_, _, _, _, _) => IssuedDeliver(parse, s, a);
      case Resume(id) => IssuedPass(s, Resumed(s, id), Intercepting(id), Queued(id, true));
      case Delete(id, final) => IssuedDelete(parse, s, id, final);
      case _ => IssuedShutdown(parse, s, a);
    }
  }

  lemma InvStep(parse: Parser, s: State, a: Action)
    requires Inv(parse, s) && Issued(s) && Enabled(s, a) && !Starves(parse, s, a)
    ensures Inv(parse, Step(parse, s, a)) && Issued(Step(parse, s, a))
  {
    IssuedStep(parse, s, a);
    match a {
      case Ask(addr) => KeepAsk(parse, s, addr);
      case Arrive(id, payload) => KeepArrive(parse, s, id, payload);
      case Reject(id) => KeepReject(parse, s, id);
      case Deliver(id, ok, intercept, addr, garbage) =>
        if Malformed(parse, s, id, ok) {
          KeepReplace(parse, s, id, intercept, addr, garbage);
        } else {
          KeepReturn(parse, s, id, ok, intercept, addr, garbage);
        }
      case Resume(id) => KeepResume(parse, s, id);
      case Delete(id, final) => KeepDelete(parse, s, id, final);
      case _ => KeepShutdown(parse, s, a);
    }
  }

  /** A step that starves is the last: a replacement fails the assertion of `IssueRequest`, a resumption ends an
      operation that was not begun. */
  lemma StarvedFails(parse: Parser, s: State, a: Action)
    requires Inv(parse, s) && Enabled(s, a) && Starves(parse, s, a)
    ensures Step(parse, s, a).fault == Some(if a.Deliver? then IssueAfterShutdown else EndWithoutBegin)
  {
    if a.Deliver? {
      OnlyToken(parse, s, Queued(a.id, a.ok));
    }
  }

  /** How many steps of the run starve. */
  function Starved(parse: Parser, s: State, run: seq<Action>): nat
    requires Allowed(parse, s, run)
    decreases |run|
  {
    if run == [] then 0
    else (if Starves(parse, s, run[0]) then 1 else 0) + Starved(parse, Step(parse, s, run[0]), run[1..])
  }

  lemma {:induction false} InvExec(parse: Parser, s: State, run: seq<Action>)
    requires Inv(parse, s) && Issued(s) && Allowed(parse, s, run)
    ensures var s' := Exec(parse, s, run);
            if Starved(parse, s, run) == 0 then Inv(parse, s') && Issued(s')
            else s'.fault == Some(IssueAfterShutdown) || s'.fault == Some(EndWithoutBegin)
    decreases |run|
  {
    if run != [] {
      if Starves(parse, s, run[0]) {
        StarvedFails(parse, s, run[0]);
        assert run[1..] == [];
      } else {
        InvStep(parse, s, run[0]);
        InvExec(parse, Step(parse, s, run[0]), run[1..]);
      }
    }
  }

  lemma InvInit(parse: Parser, shared: bool)
    ensures Inv(parse, Init(shared)) && Issued(Init(shared))
  {
    assert Awaited(multiset{}) == {};
  }

  // ----- main results

  /** `id` is the only live object that stands for root `r`. */
  ghost predicate SoleObject(s: State, r: nat, id: Id) {
    && Outstanding(s, id) && s.live[id].root == r
    && forall x :: Outstanding(s, x) && s.live[x].root == r ==> x == id
  }

  /** A request is in one of two situations.  Outstanding: no event yet, exactly one object standing for it, and every
      call it was given, except possibly the latest, was malformed and has been cancelled and released exactly once.
      Answered: exactly one event and no object; a successful event carries the parse of the last call it was given,
      which was never cancelled and is the first that parses; after a failure event none parsed. */
  ghost predicate RequestOk(parse: Parser, s: State, r: nat)
    requires r < |s.events| == |s.history|
  {
    || (s.events[r] == [] && (exists id :: SoleObject(s, r, id))
        && (s.history[r] == [] || AllSettled(parse, s, Front(s.history[r]))))
    || (EventOk(parse, s, r) && forall id :: Outstanding(s, id) ==> s.live[id].root != r)
  }

  /** Main result. In every run, however payloads parse and interceptors interleave and whichever queues are used:
      the only fault there can be is an operation begun on a notification queue that no longer accepts any, it
      occurs exactly when a step starves, and never when the two queues are one. Otherwise every `RequestAsyncCall`
      is outstanding or answered as it should be. */
  lemma RequestsAreAnswered(parse: Parser, shared: bool, run: seq<Action>)
    requires Allowed(parse, Init(shared), run)
    ensures var s := Exec(parse, Init(shared), run);
            && (s.fault.None? <==> Starved(parse, Init(shared), run) == 0)
            && (s.fault.Some? ==>
                  (s.fault.value == IssueAfterShutdown || s.fault.value == EndWithoutBegin) && !shared)
            && (s.fault.None? ==>
                  |s.history| == |s.events| && forall r :: 0 <= r < |s.events| ==> RequestOk(parse, s, r))
  {
    InvInit(parse, shared);
    InvExec(parse, Init(shared), run);
    if shared {
      SharedNeverStarves(parse, Init(shared), run);
    }
    var s := Exec(parse, Init(shared), run);
    if s.fault.None? {
      forall r | 0 <= r < |s.events| ensures RequestOk(parse, s, r) {
        RootCases(parse, s, r);
      }
    }
  }

  lemma SharedIsOpen(parse: Parser, s: State, k: Token)
    requires Inv(parse, s) && Issued(s) && s.shared && k in s.tokens
    ensures s.pending > 0
  {
    OnlyToken(parse, s, k);
    assert k.id in s.live.Keys;
  }

  lemma SharedStep(parse: Parser, s: State, a: Action)
    requires Inv(parse, s) && Issued(s) && s.shared && Enabled(s, a)
    ensures !Starves(parse, s, a) && Step(parse, s, a).shared
  {
    match a
    case Deliver(id, ok, _, _, _) => SharedIsOpen(parse, s, Queued(id, ok));
    case Resume(id) => SharedIsOpen(parse, s, Intercepting(id));
    case _ =>
  }

  /** With one queue, a live object keeps its core queue open. */
  lemma {:induction false} SharedNeverStarves(parse: Parser, s: State, run: seq<Action>)
    requires Inv(parse, s) && Issued(s) && s.shared && Allowed(parse, s, run)
    ensures Starved(parse, s, run) == 0
    decreases |run|
  {
    if run != [] {
      SharedStep(parse, s, run[0]);
      InvStep(parse, s, run[0]);
      SharedNeverStarves(parse, Step(parse, s, run[0]), run[1..]);
    }
  }

  lemma RootCases(parse: Parser, s: State, r: nat)
    requires Chains(parse, s) && r < |s.events|
    ensures RequestOk(parse, s, r)
  {
    if EventOk(parse, s, r) {
      forall id | Outstanding(s, id) ensures s.live[id].root != r {
        assert HeadOk(parse, s, id);
      }
    } else {
      var id :| Outstanding(s, id) && s.live[id].root == r;
      assert HeadOk(parse, s, id);
      assert SoleObject(s, r, id);
      var h := s.history[r];
      if h != [] && s.live[id].call.None? {
        assert forall i :: 0 <= i < |Front(h)| ==> Settled(parse, s, h[i]);
      }
    }
  }

  /** Main result, for each queue.  The call queue's avalanche count is the number of live request objects plus the
      reservation, so its core queue is shut down exactly once, by whichever step gives up the last of them, and never
      while a replaced object is making way for its successor.  The notification queue accepts operations exactly while
      it is open or an operation is under way; if it is the same queue, it is open until the last object is gone. */
  lemma CoreShutsDownLast(parse: Parser, shared: bool, run: seq<Action>)
    requires Allowed(parse, Init(shared), run) && Starved(parse, Init(shared), run) == 0
    ensures var s := Exec(parse, Init(shared), run);
            && s.queue.inFlight == |s.live| + (if s.reserved then 1 else 0)
            && s.queue.shutdowns == (if s.live == map[] && !s.reserved then 1 else 0)
            && (s.pending > 0 <==> s.open || exists id :: Pending(id) in s.tokens)
            && (s.shared ==> (s.open <==> s.live != map[] || s.reserved))
  {
    InvInit(parse, shared);
    InvExec(parse, Init(shared), run);
    var s := Exec(parse, Init(shared), run);
    assert |s.live| == 0 <==> s.live == map[];
    if s.pending > 0 && !s.open {
      var id :| id in Awaited(s.tokens);
      AwaitedIs(s.tokens, id);
    }
    if id :| Pending(id) in s.tokens {
      AwaitedPositive(s, id);
    }
  }

  /** Why the successor is allocated before `delete this`.  On one queue, after its `Shutdown`, the last object must not
      give up its registration first, or its successor would be issued on a core queue already shut down.  On two queues
      the order makes no difference to that. */
  lemma DeletingFirstWouldFail(parse: Parser, s: State, id: Id, addr: Id)
    requires Inv(parse, s) && Issued(s) && !s.reserved && s.live.Keys == {id} && Pending(id) !in s.tokens
    ensures var gone := Complete(s.(live := s.live - {id}));
            var root := s.live[id].root;
            && (s.shared ==> New(s, addr, root).fault.None? && New(gone, addr, root).fault == Some(IssueAfterShutdown))
            && (!s.shared ==> (New(gone, addr, root).fault.Some? <==> New(s, addr, root).fault.Some?))
  {
    assert |s.live.Keys| == 1;
    forall x ensures x !in Awaited(s.tokens) {
      AwaitedIs(s.tokens, x);
      assert TokenOk(parse, s, x);
    }
    assert Awaited(s.tokens) == {};
  }
}
