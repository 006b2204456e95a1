/** RouteChat of the callback server: a `Chatter` reactor per stream.  The mutex is released between the copy of
    the matching notes and the append of the received one, and the copies of earlier rounds are never dropped
    from `to_send_notes_`.

    `NextWrite` starts a write before it advances its iterator.  The write may complete, and `OnWriteDone` call
    `NextWrite` on another thread, before the iterator has moved.
 */
module CallbackChat {
  import opened Common
  import opened RouteTypes

  type Stream = nat

  /** What the reactor waits for: a read, its own call of `NextWrite`, the completion of a write, or nothing. */
  datatype Pc = Reading | Sending | Writing | Finished

  /** A round starts with a successful read.  `seen` is the length of the log when the matching notes were copied,
      `place` the position at which the note was appended, `writes` the notes written in between and `sent` their
      positions in `to_send_notes_`. */
  datatype Round = Round(note: Note, seen: nat, place: Option<nat>, writes: seq<Note>, sent: seq<nat>)

  /** The fields `note_`, `to_send_notes_` and `notes_iterator_`, the number of threads that have started a write
      and not yet advanced the iterator, and the history of the stream. */
  datatype Chatter = Chatter(pc: Pc, note: Note, toSend: seq<Note>, next: nat, owed: nat, rounds: seq<Round>)

  /** `StartRead` of the constructor. */
  function Opened(note: Note): Chatter {
    Chatter(Reading, note, [], 0, 0, [])
  }

  /** The first half of `OnReadDone(true)`: the critical section that copies, and the reset of the iterator. */
  function Copied(c: Chatter, note: Note, log: seq<Note>): Chatter {
    c.(pc := Sending, note := note, toSend := c.toSend + At(log, note.location), next := 0,
       rounds := c.rounds + [Round(note, |log|, None, [], [])])
  }

  predicate Ready(c: Chatter) {
    c.pc == Sending && c.rounds != []
  }

  function Last(c: Chatter): Round
    requires c.rounds != []
  {
    c.rounds[|c.rounds| - 1]
  }

  function WithLast(c: Chatter, r: Round): Chatter
    requires c.rounds != []
  {
    c.(rounds := c.rounds[|c.rounds| - 1 := r])
  }

  /** `NextWrite` while notes remain, up to and including `StartWrite`. */
  function Published(c: Chatter): Chatter
    requires Ready(c) && c.next < |c.toSend|
  {
    WithLast(c.(pc := Writing, owed := c.owed + 1),
             Last(c).(writes := Last(c).writes + [c.toSend[c.next]], sent := Last(c).sent + [c.next]))
  }

  /** The increment behind `StartWrite`. */
  function Advanced(c: Chatter): Chatter
    requires c.owed > 0
  {
    c.(next := c.next + 1, owed := c.owed - 1)
  }

  /** `NextWrite` at the end: the note is appended at `place` and the next read is started. */
  function Appended(c: Chatter, place: nat): Chatter
    requires Ready(c)
  {
    WithLast(c.(pc := Reading), Last(c).(place := Some(place)))
  }

  /** A call of `NextWrite` that nothing interrupts: what becomes of the stream and of the log. */
  function Uninterrupted(c: Chatter, log: seq<Note>): (Chatter, seq<Note>)
    requires Ready(c) && c.next <= |c.toSend|
  {
    if c.next < |c.toSend| then (Advanced(Published(c)), log) else (Appended(c, |log|), log + [c.note])
  }

  // ----- the reactor as code

  class NoteLog {
    var notes: seq<Note>

    constructor ()
      ensures notes == []
    {
      notes := [];
    }
  }

  class Reactor {
    const log: NoteLog
    var pc: Pc
    var note: Note
    var toSend: seq<Note>
    var next: nat
    ghost var owed: nat
    ghost var rounds: seq<Round>

    ghost function View(): Chatter
      reads this
    {
      Chatter(pc, note, toSend, next, owed, rounds)
    }

    constructor (log: NoteLog, blank: Note)
      ensures this.log == log && View() == Opened(blank)
    {
      this.log := log;
      pc, note, toSend, next, owed, rounds := Reading, blank, [], 0, 0, [];
    }

    /** The critical section that copies the matching notes, and the reset of the iterator. */
    method Copy(received: Note)
      requires pc == Reading
      modifies this
      ensures View() == Copied(old(View()), received, log.notes)
    {
      note := received;
      var i, was := 0, toSend;
      while i < |log.notes|
        invariant 0 <= i <= |log.notes| && View() == old(View()).(note := received, toSend := toSend)
        invariant toSend == was + At(log.notes[..i], received.location)
      {
        AtNext(log.notes, i, received.location);
        if log.notes[i].location == note.location {
          toSend := toSend + [log.notes[i]];
        }
        i := i + 1;
      }
      assert log.notes[..|log.notes|] == log.notes;
      next := 0;
      pc := Sending;
      rounds := rounds + [Round(note, |log.notes|, None, [], [])];
    }

    method OnReadDone(ok: bool, received: Note)
      requires pc == Reading
      modifies this, log
      ensures ok ==> (View(), log.notes) ==
                     Uninterrupted(Copied(old(View()), received, old(log.notes)), old(log.notes))
      ensures ok ==> note == received && (log.notes == old(log.notes) || log.notes == old(log.notes) + [received])
      ensures ok ==> toSend == old(toSend) + At(old(log.notes), received.location)
      ensures !ok ==> View() == old(View()).(pc := Finished) && log.notes == old(log.notes)
    {
      if ok {
        Copy(received);
        NextWrite();
      } else {
        pc := Finished;
      }
    }

    method OnWriteDone(ok: bool)
      requires pc == Writing && rounds != [] && next <= |toSend|
      modifies this, log
      ensures (View(), log.notes) == Uninterrupted(old(View()).(pc := Sending), old(log.notes))
    {
      pc := Sending;
      NextWrite();
    }

    /** Beyond the end of `to_send_notes_` the iterator must not be compared or read. */
    method NextWrite()
      requires Ready(View()) && next <= |toSend|
      modifies this, log
      ensures (View(), log.notes) == Uninterrupted(old(View()), old(log.notes))
    {
      ghost var r := rounds[|rounds| - 1];
      if next != |toSend| {
        pc, owed := Writing, owed + 1;
        rounds := rounds[|rounds| - 1 := r.(writes := r.writes + [toSend[next]], sent := r.sent + [next])];
        next, owed := next + 1, owed - 1;
      } else {
        rounds := rounds[|rounds| - 1 := r.(place := Some(|log.notes|))];
        log.notes := log.notes + [note];
        pc := Reading;
      }
    }
  }

  // ----- any number of streams over one log

  /** `fault`: an iterator beyond the end of its vector was read. */
  datatype State = State(log: seq<Note>, streams: map<Stream, Chatter>, fault: bool)

  function Start(log: seq<Note>): State {
    State(log, map[], false)
  }

  datatype Action =
    | Open(st: Stream, blank: Note)
    | ReadDone(st: Stream, note: Note)       // OnReadDone(true): copy under the mutex
    | ReadEnd(st: Stream)                    // OnReadDone(false): Finish
    | Next(st: Stream)                       // NextWrite up to StartWrite; its append is a critical section of its own
    | Advance(st: Stream)                    // the increment of the iterator behind StartWrite
    | WriteDone(st: Stream, ok: bool)        // OnWriteDone, which calls NextWrite

  predicate Enabled(s: State, a: Action) {
    && !s.fault
    && if a.Open? then a.st !in s.streams
       else a.st in s.streams && match a
                                 case ReadDone(st, _) => s.streams[st].pc == Reading
                                 case ReadEnd(st) => s.streams[st].pc == Reading
                                 case Next(st) => Ready(s.streams[st])
                                 case Advance(st) => s.streams[st].owed > 0
                                 case WriteDone(st, _) => s.streams[st].pc == Writing
  }

  function Put(s: State, st: Stream, c: Chatter): State {
    s.(streams := s.streams[st := c])
  }

  function Step(s: State, a: Action): State
    requires Enabled(s, a)
  {
    match a
    case Open(st, blank) => Put(s, st, Opened(blank))
    case ReadDone(st, note) => Put(s, st, Copied(s.streams[st], note, s.log))
    case ReadEnd(st) => Put(s, st, s.streams[st].(pc := Finished))
    case Next(st) =>
      var c := s.streams[st];
      if c.next < |c.toSend| then Put(s, st, Published(c))
      else if c.next == |c.toSend| then Put(s, st, Appended(c, |s.log|)).(log := s.log + [c.note])
      else s.(fault := true)
    case Advance(st) => Put(s, st, Advanced(s.streams[st]))
    case WriteDone(st, _) => Put(s, st, s.streams[st].(pc := Sending))
  }

  predicate Allowed(s: State, run: seq<Action>)
    decreases |run|
  {
    run == [] || (Enabled(s, run[0]) && Allowed(Step(s, run[0]), run[1..]))
  }

  function Exec(s: State, run: seq<Action>): State
    requires Allowed(s, run)
    decreases |run|
  {
    if run == [] then s else Exec(Step(s, run[0]), run[1..])
  }

  /** A completion overtakes an increment: `NextWrite` runs although a thread has yet to advance the iterator. */
  predicate Overtakes(s: State, a: Action, st: Stream) {
    a == Next(st) && st in s.streams && s.streams[st].owed > 0
  }

  /** How often that happens on a stream. */
  function Overtaken(s: State, run: seq<Action>, st: Stream): nat
    requires Allowed(s, run)
    decreases |run|
  {
    if run == [] then 0
    else (if Overtakes(s, run[0], st) then 1 else 0) + Overtaken(Step(s, run[0]), run[1..], st)
  }

  // ----- what a stream receives

  /** The notes a round copies: those at its place in the part of the log it saw. */
  function Segment(log: seq<Note>, r: Round): seq<Note> {
    At(if r.seen <= |log| then log[..r.seen] else log, r.note.location)
  }

  /** The copies of all rounds so far. */
  function Copies(log: seq<Note>, rounds: seq<Round>): seq<Note> {
    if rounds == [] then []
    else Copies(log, rounds[..|rounds| - 1]) + Segment(log, rounds[|rounds| - 1])
  }

  /** The round has started the notes it has to send one after the other, none twice and none left out. */
  predicate InOrder(r: Round) {
    |r.sent| == |r.writes| && forall i :: 0 <= i < |r.sent| ==> r.sent[i] == i
  }

  /** A round that is over: it wrote the copies of every round up to itself, and its note was appended to the log
      after the part it saw. */
  predicate RoundOk(log: seq<Note>, rounds: seq<Round>, k: nat)
    requires k < |rounds|
  {
    && rounds[k].writes == Copies(log, rounds[..k + 1])
    && rounds[k].place.Some? && rounds[k].seen <= rounds[k].place.value < |log|
    && log[rounds[k].place.value] == rounds[k].note
  }

  /** The round that is under way. */
  predicate CurrentOk(log: seq<Note>, c: Chatter)
    requires c.rounds != []
  {
    && Last(c).place.None? && Last(c).note == c.note && Last(c).seen <= |log|
    && c.next + c.owed <= |c.toSend| && Last(c).writes == c.toSend[..c.next + c.owed]
  }

  predicate InRound(c: Chatter) {
    c.pc == Sending || c.pc == Writing
  }

  function Done(c: Chatter): nat {
    if InRound(c) && c.rounds != [] then |c.rounds| - 1 else |c.rounds|
  }

  ghost predicate AllInOrder(c: Chatter) {
    forall k :: 0 <= k < |c.rounds| ==> InOrder(c.rounds[k])
  }

  ghost predicate StreamOk(log: seq<Note>, c: Chatter) {
    && c.toSend == Copies(log, c.rounds)
    && AllInOrder(c)
    && c.owed <= (if InRound(c) then 1 else 0)
    && (InRound(c) ==> c.rounds != [] && CurrentOk(log, c))
    && (forall k :: 0 <= k < Done(c) ==> RoundOk(log, c.rounds, k))
    && (forall k :: 0 <= k < |c.rounds| ==> c.rounds[k].seen <= |log|)
    && (forall j, k :: 0 <= j < k < |c.rounds| ==> Before(c.rounds[j], c.rounds[k]))
  }

  /** The note of the first round was appended to the log before the second took its copy. */
  predicate Before(first: Round, second: Round) {
    first.place.Some? && first.place.value < second.seen
  }

  /** Copies depend on what the rounds read and saw, and not on what the log gained since. */
  lemma {:induction false} CopiesFrame(log: seq<Note>, log': seq<Note>, rounds: seq<Round>, rounds': seq<Round>)
    requires log <= log' && |rounds| == |rounds'|
    requires forall k :: 0 <= k < |rounds| ==> rounds[k].seen <= |log|
    requires forall k :: 0 <= k < |rounds| ==> rounds'[k].seen == rounds[k].seen && rounds'[k].note == rounds[k].note
    ensures Copies(log', rounds') == Copies(log, rounds)
    decreases |rounds|
  {
    if rounds != [] {
      var n := |rounds| - 1;
      CopiesFrame(log, log', rounds[..n], rounds'[..n]);
      assert log'[..rounds[n].seen] == log[..rounds[n].seen];
    }
  }

  lemma RoundFrame(log: seq<Note>, log': seq<Note>, rounds: seq<Round>, rounds': seq<Round>, k: nat)
    requires log <= log' && k < |rounds| && k < |rounds'| && rounds'[..k + 1] == rounds[..k + 1]
    requires forall j :: 0 <= j <= k ==> rounds[j].seen <= |log|
    requires RoundOk(log, rounds, k)
    ensures RoundOk(log', rounds', k)
  {
    assert rounds'[k] == rounds'[..k + 1][k] == rounds[..k + 1][k];
    CopiesFrame(log, log', rounds[..k + 1], rounds'[..k + 1]);
  }

  /** Other streams only ever add to the log. */
  lemma StreamGrows(log: seq<Note>, log': seq<Note>, c: Chatter)
    requires StreamOk(log, c) && log <= log'
    ensures StreamOk(log', c)
  {
    CopiesFrame(log, log', c.rounds, c.rounds);
    forall k | 0 <= k < Done(c) ensures RoundOk(log', c.rounds, k) {
      RoundFrame(log, log', c.rounds, c.rounds, k);
    }
  }

  /** Rounds that are over stay so when another is added. */
  lemma EarlierRounds(log: seq<Note>, log': seq<Note>, rounds: seq<Round>, rounds': seq<Round>, k: nat)
    requires log <= log' && k < |rounds| && k < |rounds'| && forall j :: 0 <= j <= k ==> rounds'[j] == rounds[j]
    requires forall j :: 0 <= j < |rounds| ==> rounds[j].seen <= |log|
    requires RoundOk(log, rounds, k)
    ensures RoundOk(log', rounds', k)
  {
    assert rounds'[..k + 1] == rounds[..k + 1];
    RoundFrame(log, log', rounds, rounds', k);
  }

  lemma CopiedCopies(log: seq<Note>, c: Chatter, note: Note)
    requires c.toSend == Copies(log, c.rounds)
    ensures Copied(c, note, log).toSend == Copies(log, Copied(c, note, log).rounds)
  {
    var c' := Copied(c, note, log);
    assert c'.rounds[..|c.rounds|] == c.rounds;
    assert log[..|log|] == log;
  }

  lemma KeepCopied(log: seq<Note>, c: Chatter, note: Note)
    requires StreamOk(log, c) && c.pc == Reading
    ensures StreamOk(log, Copied(c, note, log))
  {
    var c' := Copied(c, note, log);
    CopiedCopies(log, c, note);
    forall k | 0 <= k < Done(c') ensures RoundOk(log, c'.rounds, k) {
      EarlierRounds(log, log, c.rounds, c'.rounds, k);
    }
    CopiedAfter(log, c, note);
  }

  lemma CopiedAfter(log: seq<Note>, c: Chatter, note: Note)
    requires StreamOk(log, c) && c.pc == Reading
    ensures var rounds := Copied(c, note, log).rounds;
            forall j, k :: 0 <= j < k < |rounds| ==> Before(rounds[j], rounds[k])
  {
    var rounds := Copied(c, note, log).rounds;
    forall j, k | 0 <= j < k < |rounds| ensures Before(rounds[j], rounds[k]) {
      assert RoundOk(log, c.rounds, j);
      assert k < |c.rounds| ==> Before(c.rounds[j], c.rounds[k]);
    }
  }

  /** The write is started at the right place, because no increment is owed. */
  lemma PublishedInOrder(c: Chatter)
    requires Ready(c) && c.owed == 0 && c.next < |c.toSend| && AllInOrder(c) && Last(c).writes == c.toSend[..c.next]
    ensures AllInOrder(Published(c))
    ensures Last(Published(c)).writes == c.toSend[..c.next + 1]
  {
    var c' := Published(c);
    assert InOrder(c.rounds[|c.rounds| - 1]);
    forall k | 0 <= k < |c'.rounds| ensures InOrder(c'.rounds[k]) {
      assert InOrder(c.rounds[k]);
    }
  }

  lemma KeepPublished(log: seq<Note>, c: Chatter)
    requires StreamOk(log, c) && Ready(c) && c.owed == 0 && c.next < |c.toSend|
    ensures StreamOk(log, Published(c))
  {
    var c' := Published(c);
    PublishedInOrder(c);
    CopiesFrame(log, log, c.rounds, c'.rounds);
    forall k | 0 <= k < Done(c') ensures RoundOk(log, c'.rounds, k) {
      EarlierRounds(log, log, c.rounds, c'.rounds, k);
    }
    forall j, k | 0 <= j < k < |c'.rounds| ensures Before(c'.rounds[j], c'.rounds[k]) {
      assert Before(c.rounds[j], c.rounds[k]);
    }
  }

  /** A round that has sent everything is over once its note is appended. */
  lemma RoundEnds(log: seq<Note>, log': seq<Note>, rounds: seq<Round>, rounds': seq<Round>, n: nat, note: Note)
    requires |rounds| == |rounds'| == n + 1 && log' == log + [note]
    requires forall k :: 0 <= k <= n ==> rounds[k].seen <= |log|
    requires forall k :: 0 <= k <= n ==> rounds'[k].seen == rounds[k].seen && rounds'[k].note == rounds[k].note
    requires rounds'[n].writes == Copies(log, rounds) && rounds'[n].place == Some(|log|) && rounds'[n].note == note
    ensures RoundOk(log', rounds', n)
  {
    CopiesFrame(log, log', rounds, rounds');
    assert rounds'[..n + 1] == rounds';
  }

  lemma AppendedRound(log: seq<Note>, c: Chatter)
    requires StreamOk(log, c) && Ready(c) && c.owed == 0 && c.next == |c.toSend|
    ensures RoundOk(log + [c.note], Appended(c, |log|).rounds, |c.rounds| - 1)
  {
    assert c.toSend[..c.next] == c.toSend;
    RoundEnds(log, log + [c.note], c.rounds, Appended(c, |log|).rounds, |c.rounds| - 1, c.note);
  }

  lemma AppendedRounds(log: seq<Note>, c: Chatter)
    requires StreamOk(log, c) && Ready(c) && c.owed == 0 && c.next == |c.toSend|
    ensures var c' := Appended(c, |log|); forall k :: 0 <= k < |c'.rounds| ==> RoundOk(log + [c.note], c'.rounds, k)
  {
    var c', log' := Appended(c, |log|), log + [c.note];
    forall k | 0 <= k < |c'.rounds| ensures RoundOk(log', c'.rounds, k) {
      if k < |c.rounds| - 1 {
        EarlierRounds(log, log', c.rounds, c'.rounds, k);
      } else {
        AppendedRound(log, c);
      }
    }
  }

  lemma KeepAppended(log: seq<Note>, c: Chatter)
    requires StreamOk(log, c) && Ready(c) && c.owed == 0 && c.next == |c.toSend|
    ensures StreamOk(log + [c.note], Appended(c, |log|))
  {
    var c' := Appended(c, |log|);
    AppendedRounds(log, c);
    CopiesFrame(log, log + [c.note], c.rounds, c'.rounds);
    forall k | 0 <= k < |c'.rounds| ensures InOrder(c'.rounds[k]) {
      assert InOrder(c.rounds[k]);
    }
    forall j, k | 0 <= j < k < |c'.rounds| ensures Before(c'.rounds[j], c'.rounds[k]) {
      assert Before(c.rounds[j], c.rounds[k]);
    }
  }

  lemma KeepAdvanced(log: seq<Note>, c: Chatter)
    requires StreamOk(log, c) && c.owed > 0
    ensures StreamOk(log, Advanced(c))
  {
    assert forall k :: 0 <= k < Done(c) ==> RoundOk(log, c.rounds, k);
  }

  lemma KeepWriteDone(log: seq<Note>, c: Chatter)
    requires StreamOk(log, c) && c.pc == Writing
    ensures StreamOk(log, c.(pc := Sending))
  {
    assert forall k :: 0 <= k < Done(c) ==> RoundOk(log, c.rounds, k);
  }

  lemma KeepFinished(log: seq<Note>, c: Chatter)
    requires StreamOk(log, c) && c.pc == Reading
    ensures StreamOk(log, c.(pc := Finished))
  {
    assert forall k :: 0 <= k < Done(c) ==> RoundOk(log, c.rounds, k);
  }

  lemma OwnStep(s: State, a: Action)
    requires Enabled(s, a) && (a.st in s.streams ==> StreamOk(s.log, s.streams[a.st])) && !Overtakes(s, a, a.st)
    ensures var s' := Step(s, a); a.st in s'.streams && StreamOk(s'.log, s'.streams[a.st])
  {
    match a {
      case Open(_, _) =>
      case ReadEnd(st) => KeepFinished(s.log, s.streams[st]);
      case Advance(st) => KeepAdvanced(s.log, s.streams[st]);
      case WriteDone(st, _) => KeepWriteDone(s.log, s.streams[st]);
      case ReadDone(st, note) => KeepCopied(s.log, s.streams[st], note);
      case Next(st) =>
        if s.streams[st].next < |s.streams[st].toSend| {
          KeepPublished(s.log, s.streams[st]);
        } else {
          KeepAppended(s.log, s.streams[st]);
        }
    }
  }

  /** One step, of this stream or another, that does not overtake on this one. */
  lemma StreamStep(s: State, a: Action, st: Stream)
    requires Enabled(s, a) && (st in s.streams ==> StreamOk(s.log, s.streams[st])) && !Overtakes(s, a, st)
    ensures var s' := Step(s, a); st in s'.streams ==> StreamOk(s'.log, s'.streams[st])
  {
    if a.st == st {
      OwnStep(s, a);
    } else if st in s.streams {
      StreamGrows(s.log, Step(s, a).log, s.streams[st]);
    }
  }

  // ----- a completion that overtakes an increment

  /** The note at the iterator is started a second time. */
  lemma OvertakingRepeats(s: State, st: Stream)
    requires Enabled(s, Next(st)) && StreamOk(s.log, s.streams[st]) && Overtakes(s, Next(st), st)
    ensures !AllInOrder(Step(s, Next(st)).streams[st])
  {
    var c := s.streams[st];
    var r := Last(Step(s, Next(st)).streams[st]);
    assert InOrder(Last(c));
    assert r.sent[c.next + 1] == c.next;
  }

  lemma DisorderStays(s: State, a: Action, st: Stream)
    requires Enabled(s, a) && st in s.streams && !AllInOrder(s.streams[st])
    ensures st in Step(s, a).streams && !AllInOrder(Step(s, a).streams[st])
  {
    var c, c' := s.streams[st], Step(s, a).streams[st];
    var k :| 0 <= k < |c.rounds| && !InOrder(c.rounds[k]);
    assert |c.rounds| <= |c'.rounds| && !InOrder(c'.rounds[k]) by {
      RoundGrows(s, a, st, k);
    }
  }

  lemma RoundGrows(s: State, a: Action, st: Stream, k: nat)
    requires Enabled(s, a) && st in s.streams && k < |s.streams[st].rounds|
    ensures var r, c' := s.streams[st].rounds[k], Step(s, a).streams[st];
            k < |c'.rounds| && (InOrder(c'.rounds[k]) ==> InOrder(r))
  {
    var c, c' := s.streams[st], Step(s, a).streams[st];
    if a == Next(st) && c.next < |c.toSend| && k == |c.rounds| - 1 {
      var r, r' := c.rounds[k], c'.rounds[k];
      assert r'.sent[..|r.sent|] == r.sent;
      assert forall i :: 0 <= i < |r.sent| ==> r'.sent[i] == r.sent[i];
    }
  }

  lemma {:induction false} DisorderExec(s: State, run: seq<Action>, st: Stream)
    requires Allowed(s, run) && st in s.streams && !AllInOrder(s.streams[st])
    ensures st in Exec(s, run).streams && !AllInOrder(Exec(s, run).streams[st])
    decreases |run|
  {
    if run != [] {
      DisorderStays(s, run[0], st);
      DisorderExec(Step(s, run[0]), run[1..], st);
    }
  }

  lemma {:induction false} StreamExec(s: State, run: seq<Action>, st: Stream)
    requires Allowed(s, run) && (st in s.streams ==> StreamOk(s.log, s.streams[st]))
    ensures var s' := Exec(s, run);
            if Overtaken(s, run, st) == 0 then st in s'.streams ==> StreamOk(s'.log, s'.streams[st])
            else st in s'.streams && !AllInOrder(s'.streams[st])
    decreases |run|
  {
    if run != [] {
      if Overtakes(s, run[0], st) {
        OvertakingRepeats(s, st);
        DisorderExec(Step(s, run[0]), run[1..], st);
      } else {
        StreamStep(s, run[0], st);
        StreamExec(Step(s, run[0]), run[1..], st);
      }
    }
  }

  /** Round `k` is over and wrote the copies of all rounds of the stream so far, each copy being the notes at the
      round's place in a prefix of the log, taken before the round's own note was appended and after that of the round
      before. */
  ghost predicate RoundRepeats(log: seq<Note>, rounds: seq<Round>, k: nat)
    requires k < |rounds|
  {
    RoundOk(log, rounds, k) && forall j :: 0 <= j < k ==> Before(rounds[j], rounds[k])
  }

  /** Main result.  In every interleaving of any number of streams over any log: a stream starts the notes of every
      round one after the other, and its finished rounds repeat all copies so far, if and only if no completion on that
      stream overtakes an increment; what happens on other streams does not matter. */
  lemma RoundsRepeat(log: seq<Note>, run: seq<Action>, st: Stream)
    requires Allowed(Start(log), run) && st in Exec(Start(log), run).streams
    ensures var s := Exec(Start(log), run);
            var c := s.streams[st];
            AllInOrder(c) && (forall k :: 0 <= k < Done(c) ==> RoundRepeats(s.log, c.rounds, k)) <==>
            Overtaken(Start(log), run, st) == 0
  {
    StreamExec(Start(log), run, st);
    var s := Exec(Start(log), run);
    var c := s.streams[st];
    if Overtaken(Start(log), run, st) == 0 {
      forall k | 0 <= k < Done(c) ensures RoundRepeats(s.log, c.rounds, k) {
        assert RoundOk(s.log, c.rounds, k);
      }
    }
  }

  // ----- runs that fail

  lemma Extend(s: State, a: Action, run: seq<Action>)
    requires Enabled(s, a) && Allowed(Step(s, a), run)
    ensures Allowed(s, [a] + run) && Exec(s, [a] + run) == Exec(Step(s, a), run)
  {
    assert ([a] + run)[1..] == run;
  }

  /** Two writes are started before the first increment. */
  function Racing(st: Stream, note: Note, rest: seq<Action>): seq<Action> {
    [Open(st, note)] + ([ReadDone(st, note)] + ([Next(st)] + ([WriteDone(st, true)] + ([Next(st)] + rest))))
  }

  lemma RacingStarts(log: seq<Note>, st: Stream, note: Note, rest: seq<Action>) returns (s: State)
    requires At(log, note.location) != []
    ensures !s.fault && s.log == log && st in s.streams
    ensures var c := s.streams[st];
            && c.pc == Writing && c.toSend == At(log, note.location) && c.next == 0 && c.owed == 2
            && |c.rounds| == 1 && Last(c).writes == [c.toSend[0], c.toSend[0]]
    ensures Allowed(s, rest) ==> Allowed(Start(log), Racing(st, note, rest)) &&
                                 Exec(Start(log), Racing(st, note, rest)) == Exec(s, rest)
  {
    var s0 := Start(log);
    var s1 := Step(s0, Open(st, note));
    var s2 := Step(s1, ReadDone(st, note));
    var s3 := Step(s2, Next(st));
    var s4 := Step(s3, WriteDone(st, true));
    s := Step(s4, Next(st));
    if Allowed(s, rest) {
      var r4 := [Next(st)] + rest;
      var r3 := [WriteDone(st, true)] + r4;
      var r2 := [Next(st)] + r3;
      Extend(s4, Next(st), rest);
      Extend(s3, WriteDone(st, true), r4);
      Extend(s2, Next(st), r3);
      Extend(s1, ReadDone(st, note), r2);
      Extend(s0, Open(st, note), [ReadDone(st, note)] + r2);
    }
  }

  /** Whenever there is a note to send, some interleaving starts the first one twice. */
  lemma FirstNoteTwice(log: seq<Note>, st: Stream, note: Note)
    requires At(log, note.location) != []
    ensures exists run :: Allowed(Start(log), run) && st in Exec(Start(log), run).streams &&
              var c := Exec(Start(log), run).streams[st];
              c.rounds != [] && Last(c).writes == [At(log, note.location)[0], At(log, note.location)[0]]
  {
    var s := RacingStarts(log, st, note, []);
    assert Exec(Start(log), Racing(st, note, [])) == s;
  }

  /** When there is exactly one, the two increments carry the iterator beyond the end and the next `NextWrite` reads it
      there. */
  lemma PastTheEnd(log: seq<Note>, st: Stream, note: Note)
    requires |At(log, note.location)| == 1
    ensures exists run :: Allowed(Start(log), run) && Exec(Start(log), run).fault
  {
    var rest := [Advance(st)] + ([Advance(st)] + ([WriteDone(st, true)] + ([Next(st)] + [])));
    var s := RacingStarts(log, st, note, rest);
    var s1 := Step(s, Advance(st));
    var s2 := Step(s1, Advance(st));
    var s3 := Step(s2, WriteDone(st, true));
    assert Allowed(Step(s3, Next(st)), []);
    Extend(s3, Next(st), []);
    Extend(s2, WriteDone(st, true), [Next(st)] + []);
    Extend(s1, Advance(st), [WriteDone(st, true)] + ([Next(st)] + []));
    Extend(s, Advance(st), [Advance(st)] + ([WriteDone(st, true)] + ([Next(st)] + [])));
    assert Exec(Start(log), Racing(st, note, rest)).fault;
  }

  /** A call of `NextWrite` that nothing interrupts is one of the interleavings. */
  lemma UninterruptedIsARun(s: State, st: Stream)
    requires Enabled(s, Next(st)) && s.streams[st].next <= |s.streams[st].toSend|
    ensures var c := s.streams[st];
            var run := if c.next < |c.toSend| then [Next(st)] + ([Advance(st)] + []) else [Next(st)] + [];
            var after := Uninterrupted(s.streams[st], s.log);
            Allowed(s, run) && Exec(s, run) == State(after.1, s.streams[st := after.0], false)
  {
    var s1 := Step(s, Next(st));
    if s.streams[st].next < |s.streams[st].toSend| {
      assert Allowed(Step(s1, Advance(st)), []);
      Extend(s1, Advance(st), []);
      Extend(s, Next(st), [Advance(st)] + []);
    } else {
      assert Allowed(s1, []);
      Extend(s, Next(st), []);
    }
  }
}
