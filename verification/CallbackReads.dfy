/** What the callback chat stores is what was read: the rounds of a stream, and the log they share, in terms of the
    completed reads of the run.
 */
module CallbackReads {
  import opened Common
  import opened RouteTypes
  import opened CallbackChat

  /** A completed read: the note it delivered and the length of the log at that moment. */
  datatype Arrival = Arrival(note: Note, seen: nat)

  /** The reads that complete on a stream during the run, in order. */
  function ReadsOf(s: State, run: seq<Action>, st: Stream): seq<Arrival>
    requires Allowed(s, run)
    decreases |run|
  {
    if run == [] then []
    else ReadBy(s, run[0], st) + ReadsOf(Step(s, run[0]), run[1..], st)
  }

  function ReadBy(s: State, a: Action, st: Stream): seq<Arrival> {
    if a.ReadDone? && a.st == st then [Arrival(a.note, |s.log|)] else []
  }

  function RoundsOf(s: State, st: Stream): seq<Round> {
    if st in s.streams then s.streams[st].rounds else []
  }

  function Arrivals(rounds: seq<Round>): seq<Arrival> {
    seq(|rounds|, k requires 0 <= k < |rounds| => Arrival(rounds[k].note, rounds[k].seen))
  }

  lemma ReadStep(s: State, a: Action, st: Stream)
    requires Enabled(s, a)
    ensures Arrivals(RoundsOf(Step(s, a), st)) == Arrivals(RoundsOf(s, st)) + ReadBy(s, a, st)
  {
  }

  lemma {:induction false} RoundsGrow(s: State, run: seq<Action>, st: Stream)
    requires Allowed(s, run)
    ensures Arrivals(RoundsOf(Exec(s, run), st)) == Arrivals(RoundsOf(s, st)) + ReadsOf(s, run, st)
    decreases |run|
  {
    if run != [] {
      ReadStep(s, run[0], st);
      RoundsGrow(Step(s, run[0]), run[1..], st);
    }
  }

  /** Main result: in every run, overtaken or not, round `k` of a stream is about the note of its k-th completed read,
      and copied from all that the log held when that read completed. */
  lemma RoundsAreReads(log: seq<Note>, run: seq<Action>, st: Stream)
    requires Allowed(Start(log), run)
    ensures Arrivals(RoundsOf(Exec(Start(log), run), st)) == ReadsOf(Start(log), run, st)
  {
    RoundsGrow(Start(log), run, st);
  }

  // ----- the log

  /** Round `k` of the stream appended log entry `p`. */
  predicate Owner(s: State, p: nat, st: Stream, k: int) {
    st in s.streams && 0 <= k < |s.streams[st].rounds| && s.streams[st].rounds[k].place == Some(p)
  }

  ghost predicate Owned(s: State, p: nat) {
    exists st, k :: Owner(s, p, st, k)
  }

  /** A round under way is the last one, is about `note_` and has appended nothing. */
  predicate CurrentRound(c: Chatter) {
    InRound(c) ==> c.rounds != [] && Last(c).place.None? && Last(c).note == c.note
  }

  ghost predicate LogOk(log: seq<Note>, s: State) {
    && log <= s.log
    && (forall st :: st in s.streams ==> CurrentRound(s.streams[st]))
    && (forall p: nat, st, k :: Owner(s, p, st, k) ==>
          |log| <= p < |s.log| && s.log[p] == s.streams[st].rounds[k].note)
    && (forall p: nat :: |log| <= p < |s.log| ==> Owned(s, p))
    && (forall p: nat, st, k, st2, k2 :: Owner(s, p, st, k) && Owner(s, p, st2, k2) ==> st == st2 && k == k2)
  }

  /** Nothing changes but the stream of the action, and its rounds keep their notes and places. */
  lemma OwnersStay(s: State, a: Action)
    requires Enabled(s, a) && !(a.Next? && s.streams[a.st].next == |s.streams[a.st].toSend|)
    ensures var s' := Step(s, a);
            && s'.log == s.log
            && (forall p: nat, st, k :: Owner(s', p, st, k) <==> Owner(s, p, st, k))
            && (forall p: nat, st, k :: Owner(s, p, st, k) ==>
                  s'.streams[st].rounds[k].note == s.streams[st].rounds[k].note)
  {
    var s' := Step(s, a);
    forall p: nat, st, k ensures Owner(s', p, st, k) <==> Owner(s, p, st, k)
      ensures Owner(s, p, st, k) ==> s'.streams[st].rounds[k].note == s.streams[st].rounds[k].note
    {
    }
  }

  lemma CurrentStays(s: State, a: Action, st: Stream)
    requires Enabled(s, a) && (st in s.streams ==> CurrentRound(s.streams[st]))
    ensures var s' := Step(s, a); st in s'.streams ==> CurrentRound(s'.streams[st])
  {
  }

  lemma OwnerAdded(s: State, st: Stream)
    requires Enabled(s, Next(st)) && s.streams[st].next == |s.streams[st].toSend| && CurrentRound(s.streams[st])
    ensures var s', n := Step(s, Next(st)), |s.streams[st].rounds| - 1;
            && s'.log == s.log + [s.streams[st].note]
            && (forall p: nat, x, k :: Owner(s', p, x, k) <==>
                  Owner(s, p, x, k) || (p == |s.log| && x == st && k == n))
            && (forall p: nat, x, k :: Owner(s, p, x, k) ==>
                  s'.streams[x].rounds[k].note == s.streams[x].rounds[k].note)
            && s'.streams[st].rounds[n].note == s.streams[st].note
  {
    var s', n := Step(s, Next(st)), |s.streams[st].rounds| - 1;
    forall p: nat, x, k
      ensures Owner(s', p, x, k) <==> Owner(s, p, x, k) || (p == |s.log| && x == st && k == n)
      ensures Owner(s, p, x, k) ==> s'.streams[x].rounds[k].note == s.streams[x].rounds[k].note
    {
    }
  }

  lemma KeepLog(log: seq<Note>, s: State, a: Action)
    requires LogOk(log, s) && Enabled(s, a) && !(a.Next? && s.streams[a.st].next == |s.streams[a.st].toSend|)
    ensures LogOk(log, Step(s, a))
  {
    var s' := Step(s, a);
    OwnersStay(s, a);
    forall st | st in s'.streams ensures CurrentRound(s'.streams[st]) {
      CurrentStays(s, a, st);
    }
    forall p: nat | |log| <= p < |s'.log| ensures Owned(s', p) {
      assert Owned(s, p);
      var st, k :| Owner(s, p, st, k);
      assert Owner(s', p, st, k);
    }
  }

  lemma ExtendLog(log: seq<Note>, s: State, st: Stream)
    requires LogOk(log, s) && Enabled(s, Next(st)) && s.streams[st].next == |s.streams[st].toSend|
    ensures LogOk(log, Step(s, Next(st)))
  {
    var s' := Step(s, Next(st));
    OwnerAdded(s, st);
    forall x | x in s'.streams ensures CurrentRound(s'.streams[x]) {
      CurrentStays(s, Next(st), x);
    }
    forall p: nat | |log| <= p < |s'.log| ensures Owned(s', p) {
      if p < |s.log| {
        assert Owned(s, p);
        var x, k :| Owner(s, p, x, k);
        assert Owner(s', p, x, k);
      } else {
        assert Owner(s', p, st, |s.streams[st].rounds| - 1);
      }
    }
  }

  lemma {:induction false} LogExec(log: seq<Note>, s: State, run: seq<Action>)
    requires LogOk(log, s) && Allowed(s, run)
    ensures LogOk(log, Exec(s, run))
    decreases |run|
  {
    if run != [] {
      var a := run[0];
      if a.Next? && s.streams[a.st].next == |s.streams[a.st].toSend| {
        ExtendLog(log, s, a.st);
      } else {
        KeepLog(log, s, a);
      }
      LogExec(log, Step(s, a), run[1..]);
    }
  }

  /** Main result: in every run, overtaken or not, the log is the initial one followed by notes that were read,
      unchanged: each further entry is the note of exactly one completed read, that of the round that appended it. */
  lemma LogIsReads(log: seq<Note>, run: seq<Action>)
    requires Allowed(Start(log), run)
    ensures var s := Exec(Start(log), run);
            && log <= s.log
            && (forall p: nat :: |log| <= p < |s.log| ==> Owned(s, p))
            && (forall p: nat, st, k :: Owner(s, p, st, k) ==>
                  && |log| <= p < |s.log| && 0 <= k < |ReadsOf(Start(log), run, st)|
                  && s.log[p] == ReadsOf(Start(log), run, st)[k].note && ReadsOf(Start(log), run, st)[k].seen <= p)
            && (forall p: nat, st, k, st2, k2 :: Owner(s, p, st, k) && Owner(s, p, st2, k2) ==> st == st2 && k == k2)
  {
    LogExec(log, Start(log), run);
    SeenExec(Start(log), run);
    var s := Exec(Start(log), run);
    forall p: nat, st, k | Owner(s, p, st, k)
      ensures 0 <= k < |ReadsOf(Start(log), run, st)| && s.log[p] == ReadsOf(Start(log), run, st)[k].note
              && ReadsOf(Start(log), run, st)[k].seen <= p
    {
      RoundsAreReads(log, run, st);
      assert Arrivals(RoundsOf(s, st))[k] == Arrival(s.streams[st].rounds[k].note, s.streams[st].rounds[k].seen);
    }
  }

  /** A round appends behind what it saw. */
  ghost predicate SeenOk(s: State) {
    && (forall st, k :: st in s.streams && 0 <= k < |s.streams[st].rounds| ==> s.streams[st].rounds[k].seen <= |s.log|)
    && (forall p: nat, st, k :: Owner(s, p, st, k) ==> s.streams[st].rounds[k].seen <= p)
  }

  lemma SeenStep(s: State, a: Action)
    requires SeenOk(s) && Enabled(s, a)
    ensures SeenOk(Step(s, a))
  {
    var s' := Step(s, a);
    forall p: nat, st, k | Owner(s', p, st, k) ensures s'.streams[st].rounds[k].seen <= p {
      if !Owner(s, p, st, k) {
        assert s'.streams[st].rounds[k].seen <= |s.log|;
      }
    }
  }

  lemma {:induction false} SeenExec(s: State, run: seq<Action>)
    requires SeenOk(s) && Allowed(s, run)
    ensures SeenOk(Exec(s, run))
    decreases |run|
  {
    if run != [] {
      SeenStep(s, run[0]);
      SeenExec(Step(s, run[0]), run[1..]);
    }
  }
}
