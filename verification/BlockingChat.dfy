/** RouteChat of the blocking server: any number of streams share one log of notes, and a stream holds the
    mutex from the start of its scan until its own note has been appended.
 */
module BlockingChat {
  import opened Common
  import opened RouteTypes

  type Stream = nat

  /** A handler waits for a note, waits for the mutex, or scans the log with an iterator. */
  datatype Pc = Reading | Blocked(note: Note) | Scanning(note: Note, next: nat, echoed: seq<Note>)

  /** `author[j]` and `answer[j]` record who appended log entry `j` and what was echoed to its author in the same
      critical section; `written` is everything written to a stream. */
  datatype State = State(
    log: seq<Note>, holder: Option<Stream>, streams: map<Stream, Pc>, written: map<Stream, seq<Note>>,
    author: seq<Stream>, answer: seq<seq<Note>>)

  datatype Action =
    | Open(st: Stream)
    | Read(st: Stream, note: Note)
    | Lock(st: Stream)
    | Scan(st: Stream)               // one iteration of the loop over the log
    | Append(st: Stream)             // the loop is over: push_back and unlock
    | Close(st: Stream)              // Read returns false

  const Init := State([], None, map[], map[], [], [])

  predicate Enabled(s: State, a: Action) {
    match a
    case Open(st) => st !in s.streams && st !in s.written
    case Read(st, _) => st in s.streams && st in s.written && s.streams[st].Reading?
    case Lock(st) => st in s.streams && st in s.written && s.streams[st].Blocked? && s.holder.None?
    case Scan(st) => st in s.streams && st in s.written && s.streams[st].Scanning? && s.streams[st].next < |s.log|
    case Append(st) => st in s.streams && st in s.written && s.streams[st].Scanning? && s.streams[st].next >= |s.log|
    case Close(st) => st in s.streams && st in s.written && s.streams[st].Reading?
  }

  function Step(s: State, a: Action): State
    requires Enabled(s, a)
  {
    match a
    case Open(st) => s.(streams := s.streams[st := Reading], written := s.written[st := []])
    case Read(st, note) => s.(streams := s.streams[st := Blocked(note)])
    case Lock(st) => s.(holder := Some(st), streams := s.streams[st := Scanning(s.streams[st].note, 0, [])])
    case Scan(st) =>
      var Scanning(note, i, echoed) := s.streams[st];
      if s.log[i].location == note.location
      then s.(streams := s.streams[st := Scanning(note, i + 1, echoed + [s.log[i]])],
              written := s.written[st := s.written[st] + [s.log[i]]])
      else s.(streams := s.streams[st := Scanning(note, i + 1, echoed)])
    case Append(st) =>
      var Scanning(note, _, echoed) := s.streams[st];
      s.(log := s.log + [note], holder := None, streams := s.streams[st := Reading],
         author := s.author + [st], answer := s.answer + [echoed])
    case Close(st) => s.(streams := s.streams - {st})
  }

  predicate Allowed(s: State, run: seq<Action>)
    decreases |run|
  {
    run == [] || (Enabled(s, run[0]) && Allowed(Step(s, run[0]), run[1..]))
  }

  function Exec(s: State, run: seq<Action>): State
    requires Allowed(s, run)
    decreases |run|
  {
    if run == [] then s else Exec(Step(s, run[0]), run[1..])
  }

  // ----- every note is answered by the earlier notes at its place

  /** What the answers to the notes of one stream amount to, in log order. */
  function Echoes(author: seq<Stream>, answer: seq<seq<Note>>, st: Stream): seq<Note>
    requires |author| == |answer|
  {
    if author == [] then []
    else Echoes(author[..|author| - 1], answer[..|author| - 1], st)
         + if author[|author| - 1] == st then answer[|author| - 1] else []
  }

  predicate Answered(log: seq<Note>, answer: seq<seq<Note>>, j: nat) {
    j < |log| && j < |answer| && answer[j] == At(log[..j], log[j].location)
  }

  /** Scanning happens only under the mutex and has so far echoed the matches it passed. */
  predicate PcOk(s: State, st: Stream)
    requires st in s.streams
  {
    s.streams[st].Scanning? ==>
      && s.holder == Some(st) && s.streams[st].next <= |s.log|
      && s.streams[st].echoed == At(s.log[..s.streams[st].next], s.streams[st].note.location)
  }

  function Unfinished(s: State, st: Stream): seq<Note> {
    if st in s.streams && s.streams[st].Scanning? then s.streams[st].echoed else []
  }

  ghost predicate Inv(s: State) {
    && |s.log| == |s.author| == |s.answer|
    && (forall st :: st in s.streams ==> st in s.written && PcOk(s, st))
    && (forall j :: 0 <= j < |s.log| ==> Answered(s.log, s.answer, j))
    && (forall st :: st in s.written ==> s.written[st] == Echoes(s.author, s.answer, st) + Unfinished(s, st))
    && (forall j :: 0 <= j < |s.author| ==> s.author[j] in s.written)
  }

  lemma {:induction false} NoEchoes(author: seq<Stream>, answer: seq<seq<Note>>, st: Stream)
    requires |author| == |answer| && forall j :: 0 <= j < |author| ==> author[j] != st
    ensures Echoes(author, answer, st) == []
    decreases |author|
  {
    if author != [] {
      NoEchoes(author[..|author| - 1], answer[..|author| - 1], st);
    }
  }

  lemma KeepOpen(s: State, st: Stream)
    requires Inv(s) && Enabled(s, Open(st))
    ensures Inv(Step(s, Open(st)))
  {
    NoEchoes(s.author, s.answer, st);
    var s' := Step(s, Open(st));
    forall x | x in s'.streams ensures x in s'.written && PcOk(s', x) {
      if x != st { assert PcOk(s, x); }
    }
  }

  lemma ScanPcs(s: State, st: Stream)
    requires Inv(s) && Enabled(s, Scan(st))
    ensures var s' := Step(s, Scan(st)); forall x :: x in s'.streams ==> x in s'.written && PcOk(s', x)
  {
    var s' := Step(s, Scan(st));
    assert PcOk(s, st);
    AtNext(s.log, s.streams[st].next, s.streams[st].note.location);
    forall x | x in s'.streams ensures x in s'.written && PcOk(s', x) {
      if x != st { assert PcOk(s, x); }
    }
  }

  lemma ScanWritten(s: State, st: Stream, x: Stream)
    requires Inv(s) && Enabled(s, Scan(st)) && x in s.written
    ensures var s' := Step(s, Scan(st));
            && x in s'.written && s'.written[x] == Echoes(s.author, s.answer, x) + Unfinished(s', x)
  {
    assert s.written[x] == Echoes(s.author, s.answer, x) + Unfinished(s, x);
  }

  lemma KeepScan(s: State, st: Stream)
    requires Inv(s) && Enabled(s, Scan(st))
    ensures Inv(Step(s, Scan(st)))
  {
    ScanPcs(s, st);
    var s' := Step(s, Scan(st));
    assert s'.log == s.log && s'.author == s.author && s'.answer == s.answer && s'.written.Keys == s.written.Keys;
    forall x | x in s'.written ensures s'.written[x] == Echoes(s'.author, s'.answer, x) + Unfinished(s', x) {
      ScanWritten(s, st, x);
    }
  }

  lemma AppendPcs(s: State, st: Stream)
    requires Inv(s) && Enabled(s, Append(st))
    ensures var s' := Step(s, Append(st)); forall x :: x in s'.streams ==> x in s'.written && PcOk(s', x)
  {
    var s' := Step(s, Append(st));
    assert PcOk(s, st);
    forall x | x in s'.streams ensures x in s'.written && PcOk(s', x) {
      if x != st { assert PcOk(s, x); }
    }
  }

  lemma AnsweredAppend(log: seq<Note>, answer: seq<seq<Note>>, note: Note)
    requires |log| == |answer| && forall j :: 0 <= j < |log| ==> Answered(log, answer, j)
    ensures forall j :: 0 <= j <= |log| ==> Answered(log + [note], answer + [At(log, note.location)], j)
  {
    var log', answer' := log + [note], answer + [At(log, note.location)];
    forall j | 0 <= j <= |log| ensures Answered(log', answer', j) {
      assert log'[..j] == log[..j];
      if j < |log| {
        assert Answered(log, answer, j);
      } else {
        assert log[..j] == log;
      }
    }
  }

  lemma EchoesAppend(author: seq<Stream>, answer: seq<seq<Note>>, st: Stream, more: seq<Note>, x: Stream)
    requires |author| == |answer|
    ensures Echoes(author + [st], answer + [more], x) == Echoes(author, answer, x) + if x == st then more else []
  {
    assert (author + [st])[..|author|] == author && (answer + [more])[..|author|] == answer;
  }

  lemma AppendWritten(s: State, st: Stream, x: Stream)
    requires Inv(s) && Enabled(s, Append(st)) && x in s.written
    ensures var s' := Step(s, Append(st)); s'.written[x] == Echoes(s'.author, s'.answer, x) + Unfinished(s', x)
  {
    EchoesAppend(s.author, s.answer, st, s.streams[st].echoed, x);
    assert s.written[x] == Echoes(s.author, s.answer, x) + Unfinished(s, x);
  }

  /** The recorded answer of an appended note is that of the whole log before it. */
  lemma AppendAnswers(s: State, st: Stream)
    requires Inv(s) && Enabled(s, Append(st))
    ensures var s' := Step(s, Append(st));
            && |s'.log| == |s'.author| == |s'.answer|
            && (forall j :: 0 <= j < |s'.log| ==> Answered(s'.log, s'.answer, j))
            && (forall j :: 0 <= j < |s'.author| ==> s'.author[j] in s'.written)
  {
    AnsweredAppend(s.log, s.answer, s.streams[st].note);
    ScannedAll(s, st);
  }

  /** At the end of the scan, what was echoed is the answer. */
  lemma ScannedAll(s: State, st: Stream)
    requires Inv(s) && Enabled(s, Append(st))
    ensures s.streams[st].echoed == At(s.log, s.streams[st].note.location)
  {
    assert PcOk(s, st);
    assert s.log[..|s.log|] == s.log;
  }

  lemma KeepAppend(s: State, st: Stream)
    requires Inv(s) && Enabled(s, Append(st))
    ensures Inv(Step(s, Append(st)))
  {
    var s' := Step(s, Append(st));
    AppendPcs(s, st);
    AppendAnswers(s, st);
    forall x | x in s'.written ensures s'.written[x] == Echoes(s'.author, s'.answer, x) + Unfinished(s', x) {
      AppendWritten(s, st, x);
    }
  }

  lemma QuietPcs(s: State, a: Action)
    requires Inv(s) && Enabled(s, a) && (a.Read? || a.Lock? || a.Close?)
    ensures var s' := Step(s, a); forall x :: x in s'.streams ==> x in s'.written && PcOk(s', x)
  {
    var s' := Step(s, a);
    forall x | x in s'.streams ensures x in s'.written && PcOk(s', x) {
      if x != a.st { assert PcOk(s, x); }
    }
  }

  lemma QuietWritten(s: State, a: Action, x: Stream)
    requires Inv(s) && Enabled(s, a) && (a.Read? || a.Lock? || a.Close?) && x in s.written
    ensures var s' := Step(s, a);
            && s'.written == s.written && s'.log == s.log && s'.author == s.author && s'.answer == s.answer
            && Unfinished(s', x) == Unfinished(s, x)
  {
  }

  lemma KeepQuiet(s: State, a: Action)
    requires Inv(s) && Enabled(s, a) && (a.Read? || a.Lock? || a.Close?)
    ensures Inv(Step(s, a))
  {
    var s' := Step(s, a);
    QuietPcs(s, a);
    QuietWritten(s, a, a.st);
    forall x | x in s'.written ensures s'.written[x] == Echoes(s'.author, s'.answer, x) + Unfinished(s', x) {
      QuietWritten(s, a, x);
    }
  }

  lemma InvStep(s: State, a: Action)
    requires Inv(s) && Enabled(s, a)
    ensures Inv(Step(s, a))
  {
    match a {
      case Open(st) => KeepOpen(s, st);
      case Scan(st) => KeepScan(s, st);
      case Append(st) => KeepAppend(s, st);
      case _ => KeepQuiet(s, a);
    }
  }

  lemma {:induction false} InvExec(s: State, run: seq<Action>)
    requires Inv(s) && Allowed(s, run)
    ensures Inv(Exec(s, run))
    decreases |run|
  {
    if run != [] {
      InvStep(s, run[0]);
      InvExec(Step(s, run[0]), run[1..]);
    }
  }

  /** Main result.  In every interleaving of any number of streams, the note at log position `j` was answered on its
      own stream by exactly the earlier log entries at its location, in log order, and a stream received nothing
      else. */
  lemma NotesAreAnswered(run: seq<Action>)
    requires Allowed(Init, run)
    ensures var s := Exec(Init, run);
            && |s.log| == |s.author| == |s.answer|
            && (forall j :: 0 <= j < |s.log| ==> s.answer[j] == At(s.log[..j], s.log[j].location))
            && (forall st :: st in s.written && (st in s.streams ==> !s.streams[st].Scanning?) ==>
                  s.written[st] == Echoes(s.author, s.answer, st))
  {
    InvExec(Init, run);
    var s := Exec(Init, run);
    forall j | 0 <= j < |s.log| ensures s.answer[j] == At(s.log[..j], s.log[j].location) {
      assert Answered(s.log, s.answer, j);
    }
    forall st | st in s.written && (st in s.streams ==> !s.streams[st].Scanning?)
      ensures s.written[st] == Echoes(s.author, s.answer, st)
    {
      assert Unfinished(s, st) == [];
    }
  }

  // ----- how many echoes a run writes

  function Total(answer: seq<seq<Note>>): nat {
    if answer == [] then 0 else Total(answer[..|answer| - 1]) + |answer[|answer| - 1]|
  }

  function Pairs(n: nat): nat {
    n * (n - 1) / 2
  }

  /** The sum over the given locations of n(n-1)/2, where n is the number of notes there. */
  function PairsAt(log: seq<Note>, places: seq<Point>): nat {
    if places == [] then 0 else Pairs(|At(log, places[0])|) + PairsAt(log, places[1..])
  }

  predicate Distinct<T(==)>(xs: seq<T>) {
    forall i, j :: 0 <= i < j < |xs| ==> xs[i] != xs[j]
  }

  lemma PairsNext(n: nat)
    ensures Pairs(n + 1) == Pairs(n) + n
  {
    assert (n + 1) * n == n * (n - 1) + 2 * n;
  }

  /** Appending a note raises the sum by the number of notes already at its place. */
  lemma {:induction false} PairsAppend(log: seq<Note>, note: Note, places: seq<Point>)
    requires Distinct(places)
    ensures PairsAt(log + [note], places)
         == PairsAt(log, places) + if note.location in places then |At(log, note.location)| else 0
    decreases |places|
  {
    if places != [] {
      PairsAppend(log, note, places[1..]);
      assert (log + [note])[..|log|] == log;
      if places[0] == note.location {
        PairsNext(|At(log, note.location)|);
        assert note.location !in places[1..];
      }
    }
  }

  lemma {:induction false} PairsOfNothing(places: seq<Point>)
    ensures PairsAt([], places) == 0
    decreases |places|
  {
    if places != [] {
      PairsOfNothing(places[1..]);
    }
  }

  ghost predicate AllAnswered(log: seq<Note>, answer: seq<seq<Note>>) {
    |log| == |answer| && forall j :: 0 <= j < |log| ==> Answered(log, answer, j)
  }

  lemma AnsweredBefore(log: seq<Note>, answer: seq<seq<Note>>, n: nat)
    requires AllAnswered(log, answer) && |log| == n + 1
    ensures AllAnswered(log[..n], answer[..n]) && answer[n] == At(log[..n], log[n].location)
  {
    assert Answered(log, answer, n);
    forall j | 0 <= j < n ensures Answered(log[..n], answer[..n], j) {
      assert Answered(log, answer, j) && log[..n][..j] == log[..j];
    }
  }

  lemma {:induction false} TotalIsPairs(log: seq<Note>, answer: seq<seq<Note>>, places: seq<Point>)
    requires AllAnswered(log, answer) && Distinct(places)
    requires forall j :: 0 <= j < |log| ==> log[j].location in places
    ensures Total(answer) == PairsAt(log, places)
    decreases |log|
  {
    if log == [] {
      PairsOfNothing(places);
    } else {
      var n := |log| - 1;
      AnsweredBefore(log, answer, n);
      TotalIsPairs(log[..n], answer[..n], places);
      PairsAppend(log[..n], log[n], places);
      assert log[..n] + [log[n]] == log;
    }
  }

  /** The number of notes in the answers of the given streams together. */
  function SumEchoes(author: seq<Stream>, answer: seq<seq<Note>>, streams: seq<Stream>): nat
    requires |author| == |answer|
  {
    if streams == [] then 0
    else |Echoes(author, answer, streams[0])| + SumEchoes(author, answer, streams[1..])
  }

  lemma {:induction false} SumAppend(author: seq<Stream>, answer: seq<seq<Note>>, st: Stream, more: seq<Note>,
                                     streams: seq<Stream>)
    requires |author| == |answer| && Distinct(streams)
    ensures SumEchoes(author + [st], answer + [more], streams)
         == SumEchoes(author, answer, streams) + if st in streams then |more| else 0
    decreases |streams|
  {
    if streams != [] {
      SumAppend(author, answer, st, more, streams[1..]);
      EchoesAppend(author, answer, st, more, streams[0]);
      if streams[0] == st {
        assert st !in streams[1..];
      }
    }
  }

  lemma {:induction false} SumOfNothing(streams: seq<Stream>)
    ensures SumEchoes([], [], streams) == 0
    decreases |streams|
  {
    if streams != [] {
      SumOfNothing(streams[1..]);
    }
  }

  /** Every answer goes to one stream. */
  lemma {:induction false} SumIsTotal(author: seq<Stream>, answer: seq<seq<Note>>, streams: seq<Stream>)
    requires |author| == |answer| && Distinct(streams) && forall j :: 0 <= j < |author| ==> author[j] in streams
    ensures SumEchoes(author, answer, streams) == Total(answer)
    decreases |author|
  {
    if author == [] {
      SumOfNothing(streams);
    } else {
      var n := |author| - 1;
      SumIsTotal(author[..n], answer[..n], streams);
      SumAppend(author[..n], answer[..n], author[n], answer[n], streams);
      assert author == author[..n] + [author[n]] && answer == answer[..n] + [answer[n]];
    }
  }

  /** The number of notes written to the given streams together. */
  function SumWritten(written: map<Stream, seq<Note>>, streams: seq<Stream>): nat
    requires forall j :: 0 <= j < |streams| ==> streams[j] in written
  {
    if streams == [] then 0 else |written[streams[0]]| + SumWritten(written, streams[1..])
  }

  lemma {:induction false} WrittenIsEchoes(s: State, streams: seq<Stream>)
    requires |s.author| == |s.answer| && forall j :: 0 <= j < |streams| ==> streams[j] in s.written
    requires forall st :: st in s.written ==> s.written[st] == Echoes(s.author, s.answer, st)
    ensures SumWritten(s.written, streams) == SumEchoes(s.author, s.answer, streams)
    decreases |streams|
  {
    if streams != [] {
      WrittenIsEchoes(s, streams[1..]);
    }
  }

  /** Main result.  In every run, whatever the interleaving: between critical sections, the notes written to all streams
      together number the sum over all locations of n(n-1)/2. */
  lemma TotalEchoes(run: seq<Action>, streams: seq<Stream>, places: seq<Point>)
    requires Allowed(Init, run) && Distinct(places) && Distinct(streams)
    requires forall j :: 0 <= j < |Exec(Init, run).log| ==> Exec(Init, run).log[j].location in places
    requires forall st :: st in Exec(Init, run).written <==> st in streams
    requires forall st :: st in Exec(Init, run).streams ==> !Exec(Init, run).streams[st].Scanning?
    ensures SumWritten(Exec(Init, run).written, streams) == PairsAt(Exec(Init, run).log, places)
  {
    InvExec(Init, run);
    NotesAreAnswered(run);
    var s := Exec(Init, run);
    TotalIsPairs(s.log, s.answer, places);
    SumIsTotal(s.author, s.answer, streams);
    WrittenIsEchoes(s, streams);
  }

  // ----- the handler as code

  class RouteGuideImpl {
    var receivedNotes: seq<Note>

    constructor ()
      ensures receivedNotes == []
    {
      receivedNotes := [];
    }

    /** The critical section for one note: echo the matching notes, then append it. */
    method Handle(note: Note) returns (echoed: seq<Note>)
      modifies this
      ensures echoed == At(old(receivedNotes), note.location)
      ensures receivedNotes == old(receivedNotes) + [note]
    {
      echoed := [];
      for i := 0 to |receivedNotes|
        invariant receivedNotes == old(receivedNotes) && echoed == At(receivedNotes[..i], note.location)
      {
        AtNext(receivedNotes, i, note.location);
        if receivedNotes[i].location == note.location {
          echoed := echoed + [receivedNotes[i]];
        }
      }
      assert receivedNotes[..|receivedNotes|] == receivedNotes;
      receivedNotes := receivedNotes + [note];
    }

    /** One stream served without interference: `notes` is what its reads deliver, `writes[k]` what is written
        between read `k` and the next. */
    method RouteChat(notes: seq<Note>) returns (writes: seq<seq<Note>>)
      modifies this
      ensures receivedNotes == old(receivedNotes) + notes
      ensures |writes| == |notes|
      ensures forall k :: 0 <= k < |notes| ==> Replied(old(receivedNotes), notes, writes, k)
    {
      writes := [];
      for k := 0 to |notes|
        invariant receivedNotes == old(receivedNotes) + notes[..k] && |writes| == k
        invariant forall j :: 0 <= j < k ==> Replied(old(receivedNotes), notes, writes, j)
      {
        var echoed := Handle(notes[k]);
        RepliedNext(old(receivedNotes), notes, writes, echoed);
        writes := writes + [echoed];
        assert notes[..k + 1] == notes[..k] + [notes[k]];
      }
      assert notes[..|notes|] == notes;
    }
  }

  /** Read `k` was answered by the notes before the stream and its own earlier notes, those at the same place. */
  predicate Replied(before: seq<Note>, notes: seq<Note>, writes: seq<seq<Note>>, k: nat) {
    k < |notes| && k < |writes| && writes[k] == At(before + notes[..k], notes[k].location)
  }

  lemma RepliedNext(before: seq<Note>, notes: seq<Note>, writes: seq<seq<Note>>, echoed: seq<Note>)
    requires |writes| < |notes| && forall j :: 0 <= j < |writes| ==> Replied(before, notes, writes, j)
    requires echoed == At(before + notes[..|writes|], notes[|writes|].location)
    ensures forall j :: 0 <= j <= |writes| ==> Replied(before, notes, writes + [echoed], j)
  {
    forall j | 0 <= j <= |writes| ensures Replied(before, notes, writes + [echoed], j) {
      if j < |writes| {
        assert Replied(before, notes, writes, j);
      }
    }
  }
}
