/** What the blocking chat stores is what was read: its log in terms of the reads of the run, and its critical section
    against the handler as code.
 */
module BlockingReads {
  import opened Common
  import opened RouteTypes
  import opened BlockingChat

  function Front(run: seq<Action>): seq<Action>
    requires run != []
  {
    run[..|run| - 1]
  }

  function Last(run: seq<Action>): Action
    requires run != []
  {
    run[|run| - 1]
  }

  /** The note that a stream read last. */
  function LastRead(run: seq<Action>, st: Stream): Option<Note> {
    if run == [] then None
    else if Last(run).Read? && Last(run).st == st then Some(Last(run).note)
    else LastRead(Front(run), st)
  }

  datatype Entry = Entry(author: Stream, note: Option<Note>)

  /** The appends of the run, each with the note that its stream had read last. */
  function Appends(run: seq<Action>): seq<Entry> {
    if run == [] then []
    else Appends(Front(run)) + AppendBy(Front(run), Last(run))
  }

  function AppendBy(run: seq<Action>, a: Action): seq<Entry> {
    if a.Append? then [Entry(a.st, LastRead(run, a.st))] else []
  }

  lemma {:induction false} RunFront(s: State, run: seq<Action>)
    requires Allowed(s, run) && run != []
    ensures Allowed(s, Front(run)) && Enabled(Exec(s, Front(run)), Last(run))
    ensures Exec(s, run) == Step(Exec(s, Front(run)), Last(run))
    decreases |run|
  {
    if |run| > 1 {
      RunFront(Step(s, run[0]), run[1..]);
      assert Front(run)[1..] == Front(run[1..]) && Last(run) == Last(run[1..]);
    } else {
      assert run[1..] == [] && Front(run) == [];
    }
  }

  /** A stream that has a note has read it last. */
  predicate Holds(run: seq<Action>, s: State, st: Stream) {
    st in s.streams && !s.streams[st].Reading? ==> LastRead(run, st) == Some(s.streams[st].note)
  }

  ghost predicate Recorded(run: seq<Action>, s: State) {
    && |s.log| == |s.author| == |Appends(run)|
    && (forall j :: 0 <= j < |s.log| ==> Appends(run)[j] == Entry(s.author[j], Some(s.log[j])))
    && (forall st :: Holds(run, s, st))
  }

  lemma HoldsStep(run: seq<Action>, s: State, s': State, st: Stream)
    requires run != [] && Enabled(s, Last(run)) && s' == Step(s, Last(run)) && Holds(Front(run), s, st)
    ensures Holds(run, s', st)
  {
  }

  lemma RecordedStep(run: seq<Action>, s: State, s': State)
    requires run != [] && Enabled(s, Last(run)) && s' == Step(s, Last(run)) && Recorded(Front(run), s)
    ensures Recorded(run, s')
  {
    forall st ensures Holds(run, s', st) {
      HoldsStep(run, s, s', st);
    }
    if Last(run).Append? {
      assert Holds(Front(run), s, Last(run).st);
    }
  }

  /** Main result: in every run, log entry `j` is, unchanged, the note that its author had read last when the j-th
      append of the run took place. */
  lemma {:induction false} LogIsReads(run: seq<Action>)
    requires Allowed(Init, run)
    ensures var s := Exec(Init, run);
            && |s.log| == |s.author| == |Appends(run)|
            && (forall j :: 0 <= j < |s.log| ==> Appends(run)[j] == Entry(s.author[j], Some(s.log[j])))
    ensures Recorded(run, Exec(Init, run))
    decreases |run|
  {
    if run != [] {
      RunFront(Init, run);
      LogIsReads(Front(run));
      RecordedStep(run, Exec(Init, Front(run)), Exec(Init, run));
    }
  }

  // ----- the critical section

  function Scans(st: Stream, n: nat): seq<Action> {
    if n == 0 then [Append(st)] else [Scan(st)] + Scans(st, n - 1)
  }

  /** The state when the stream has handled its note. */
  function Handled(s: State, st: Stream, note: Note, echoed: seq<Note>, more: seq<Note>): State
    requires st in s.written
  {
    s.(log := s.log + [note], holder := None, streams := s.streams[st := Reading],
       written := s.written[st := s.written[st] + more], author := s.author + [st], answer := s.answer + [echoed])
  }

  lemma {:induction false} ScansHandle(s: State, st: Stream, note: Note, i: nat)
    requires st in s.streams && st in s.written && i <= |s.log|
    requires s.streams[st] == Scanning(note, i, At(s.log[..i], note.location))
    ensures Allowed(s, Scans(st, |s.log| - i))
    ensures Exec(s, Scans(st, |s.log| - i)) ==
            Handled(s, st, note, At(s.log, note.location), At(s.log[i..], note.location))
    decreases |s.log| - i
  {
    var run := Scans(st, |s.log| - i);
    if i == |s.log| {
      LastStep(s, st, note);
    } else {
      var s1 := Step(s, Scan(st));
      AtNext(s.log, i, note.location);
      ScansHandle(s1, st, note, i + 1);
      assert run[1..] == Scans(st, |s.log| - (i + 1));
      ScanMore(s, s1, st, note, i);
    }
  }

  lemma LastStep(s: State, st: Stream, note: Note)
    requires st in s.streams && st in s.written
    requires s.streams[st] == Scanning(note, |s.log|, At(s.log[..|s.log|], note.location))
    ensures Allowed(s, [Append(st)])
    ensures Exec(s, [Append(st)]) ==
            Handled(s, st, note, At(s.log, note.location), At(s.log[|s.log|..], note.location))
  {
    assert s.log[..|s.log|] == s.log && s.log[|s.log|..] == [];
    assert s.written[st := s.written[st] + []] == s.written by {
      assert s.written[st] + [] == s.written[st];
    }
    assert [Append(st)][1..] == [];
    assert Allowed(Step(s, Append(st)), []);
  }

  /** What the rest of the scan writes, after one more entry. */
  lemma ScanMore(s: State, s1: State, st: Stream, note: Note, i: nat)
    requires st in s.streams && st in s.written && i < |s.log| && s.streams[st].Scanning?
    requires s.streams[st].note == note && s.streams[st].next == i && s1 == Step(s, Scan(st))
    ensures Handled(s1, st, note, At(s.log, note.location), At(s.log[i + 1..], note.location))
         == Handled(s, st, note, At(s.log, note.location), At(s.log[i..], note.location))
  {
    assert s.log[i..] == [s.log[i]] + s.log[i + 1..];
    AtConcat([s.log[i]], s.log[i + 1..], note.location);
    assert [s.log[i]][..0] == [];
    var p := note.location;
    var one := if s.log[i].location == p then [s.log[i]] else [];
    assert At([s.log[i]], p) == one;
    assert s1.written[st] == s.written[st] + one;
    assert s1.written[st] + At(s.log[i + 1..], p) == s.written[st] + At(s.log[i..], p);
  }

  /** Main result: the lock, the scan of the whole log and the append of one stream, taken together, echo to it the
      notes at its place and append its note, as `RouteGuideImpl.Handle` does, and change nothing else. */
  lemma SectionIsHandle(s: State, st: Stream, note: Note)
    requires st in s.streams && st in s.written && s.streams[st] == Blocked(note) && s.holder.None?
    ensures var run := [Lock(st)] + Scans(st, |s.log|);
            && Allowed(s, run)
            && Exec(s, run) == s.(log := s.log + [note], streams := s.streams[st := Reading],
                                  written := s.written[st := s.written[st] + At(s.log, note.location)],
                                  author := s.author + [st], answer := s.answer + [At(s.log, note.location)])
  {
    var s1 := Step(s, Lock(st));
    assert s.log[..0] == [] && s.log[0..] == s.log;
    ScansHandle(s1, st, note, 0);
    assert ([Lock(st)] + Scans(st, |s.log|))[1..] == Scans(st, |s.log|);
    assert s1.streams[st := Reading] == s.streams[st := Reading];
  }
}
