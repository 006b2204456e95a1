/** The callback server's `Lister` on several threads.

    Its `NextWrite` advances the iterator before it starts a write, and touches nothing afterwards.  A completion may
    therefore call `NextWrite` on another thread at any time: unlike the `Chatter`, the reactor has no statement left
    that it could overtake.
 */
module ListerMachine {
  import opened RouteTypes
  import opened RouteGuideServices

  /** Where a thread is in `NextWrite`: at the loop's test, about to advance the iterator, or about to compare. */
  datatype Pc = AtLoop | Chosen(f: Feature) | Counted(f: Feature)

  /** `fault`: an iterator beyond the end was read. */
  datatype State =
    State(next: nat, threads: seq<Pc>, outstanding: nat, started: seq<Feature>, finishes: nat, fault: bool)

  /** The constructor is in `NextWrite`. */
  const Init := State(0, [AtLoop], 0, [], 0, false)

  datatype Action = Run(i: nat) | WriteDone(ok: bool)

  predicate Enabled(s: State, a: Action) {
    !s.fault && match a case Run(i) => i < |s.threads| case WriteDone(_) => s.outstanding > 0
  }

  function Without(threads: seq<Pc>, i: nat): seq<Pc>
    requires i < |threads|
  {
    threads[..i] + threads[i + 1..]
  }

  function Step(features: seq<Feature>, r: Rectangle, s: State, a: Action): State
    requires Enabled(s, a)
  {
    match a
    case WriteDone(_) => s.(outstanding := s.outstanding - 1, threads := s.threads + [AtLoop])
    case Run(i) =>
      match s.threads[i]
      case AtLoop =>
        if s.next == |features| then s.(finishes := s.finishes + 1, threads := Without(s.threads, i))
        else if s.next > |features| then s.(fault := true)
        else s.(threads := s.threads[i := Chosen(features[s.next])])
      case Chosen(f) => s.(next := s.next + 1, threads := s.threads[i := Counted(f)])
      case Counted(f) =>
        if Inside(r, f.location)
        then s.(started := s.started + [f], outstanding := s.outstanding + 1, threads := Without(s.threads, i))
        else s.(threads := s.threads[i := AtLoop])
  }

  predicate Allowed(features: seq<Feature>, r: Rectangle, s: State, run: seq<Action>)
    decreases |run|
  {
    run == [] || (Enabled(s, run[0]) && Allowed(features, r, Step(features, r, s, run[0]), run[1..]))
  }

  function Exec(features: seq<Feature>, r: Rectangle, s: State, run: seq<Action>): State
    requires Allowed(features, r, s, run)
    decreases |run|
  {
    if run == [] then s else Exec(features, r, Step(features, r, s, run[0]), run[1..])
  }

  /** How many features have been dealt with; the one a thread has counted and not yet compared is not. */
  function Settled(s: State): int {
    if |s.threads| == 1 && s.threads[0].Counted? then s.next - 1 else s.next
  }

  ghost predicate Inv(features: seq<Feature>, r: Rectangle, s: State) {
    && !s.fault && |s.threads| + s.outstanding + s.finishes == 1
    && 0 <= Settled(s) && s.next <= |features| && s.started == Selected(features[..Settled(s)], r)
    && (|s.threads| == 1 && !s.threads[0].AtLoop? ==>
          Settled(s) < |features| && s.threads[0].f == features[Settled(s)])
    && (s.finishes == 1 ==> s.next == |features|)
  }

  lemma InvStep(features: seq<Feature>, r: Rectangle, s: State, a: Action)
    requires Inv(features, r, s) && Enabled(s, a)
    ensures Inv(features, r, Step(features, r, s, a))
  {
    if a.Run? && s.threads[a.i].Counted? {
      SelectedNext(features, r, Settled(s));
    }
  }

  lemma {:induction false} InvExec(features: seq<Feature>, r: Rectangle, s: State, run: seq<Action>)
    requires Inv(features, r, s) && Allowed(features, r, s, run)
    ensures Inv(features, r, Exec(features, r, s, run))
    decreases |run|
  {
    if run != [] {
      InvStep(features, r, s, run[0]);
      InvExec(features, r, Step(features, r, s, run[0]), run[1..]);
    }
  }

  /** Main result.  Under every schedule, without any condition on when completions arrive: the iterator is never read
      beyond the end; there is one write outstanding, or one thread in `NextWrite`, or the call has been finished once;
      what has been started is a prefix of what the blocking handler writes, and all of it once the call is finished. */
  lemma ListerIsImmune(features: seq<Feature>, r: Rectangle, run: seq<Action>)
    requires Allowed(features, r, Init, run)
    ensures var s := Exec(features, r, Init, run);
            && !s.fault && |s.threads| + s.outstanding + s.finishes == 1
            && s.started <= Selected(features, r)
            && (s.finishes == 1 ==> s.started == Selected(features, r))
  {
    assert features[..0] == [];
    InvExec(features, r, Init, run);
    var s := Exec(features, r, Init, run);
    SelectedGrows(features, r, Settled(s), |features|);
    assert features[..|features|] == features;
  }
}
