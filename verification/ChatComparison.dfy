/** How the callback RouteChat differs from the blocking one. */
module ChatComparison {
  import opened Common
  import opened RouteTypes
  import opened CallbackChat
  import BlockingChat

  /** Notes at the round's place that other streams appended after this round's copy and before its own note. */
  function Missed(log: seq<Note>, r: Round): seq<Note>
    requires r.place.Some? && r.seen <= r.place.value < |log|
  {
    At(log[r.seen..r.place.value], r.note.location)
  }

  /** Main result.  In every interleaving in which no completion on the stream overtakes an increment, a completed round
      writes the copies of the earlier rounds and then the answer the blocking server gives to the same note in the same
      log, cut short by the notes it missed; so its last part is the blocking answer exactly when it missed nothing. */
  lemma CallbackAgainstBlocking(log: seq<Note>, run: seq<Action>, st: Stream, k: nat, answer: seq<seq<Note>>)
    requires Allowed(Start(log), run) && Overtaken(Start(log), run, st) == 0
    requires var s := Exec(Start(log), run); st in s.streams && k < Done(s.streams[st])
    requires BlockingChat.AllAnswered(Exec(Start(log), run).log, answer)
    ensures var s := Exec(Start(log), run);
            var r := s.streams[st].rounds;
            && r[k].place.Some? && r[k].seen <= r[k].place.value < |s.log| == |answer|
            && r[k].writes == Copies(s.log, r[..k]) + Segment(s.log, r[k])
            && answer[r[k].place.value] == Segment(s.log, r[k]) + Missed(s.log, r[k])
            && (Segment(s.log, r[k]) == answer[r[k].place.value] <==> Missed(s.log, r[k]) == [])
  {
    RoundsRepeat(log, run, st);
    var s := Exec(Start(log), run);
    var r := s.streams[st].rounds;
    assert RoundRepeats(s.log, r, k);
    assert BlockingChat.Answered(s.log, answer, r[k].place.value);
    AtPrefix(s.log, r[k].seen, r[k].place.value, r[k].note.location);
    assert r[..k + 1][..k] == r[..k];
  }

  // ----- a lone stream

  function Notes(rounds: seq<Round>): seq<Note> {
    seq(|rounds|, k requires 0 <= k < |rounds| => rounds[k].note)
  }

  predicate Alone(run: seq<Action>, st: Stream) {
    forall i :: 0 <= i < |run| ==> run[i].st == st
  }

  /** Every round saw the whole log and appended right behind what it saw. */
  ghost predicate LoneOk(log: seq<Note>, s: State, st: Stream) {
    && s.streams.Keys <= {st}
    && (st !in s.streams ==> s.log == log)
    && (st in s.streams ==>
          var c := s.streams[st];
          && s.log == log + Notes(c.rounds)[..Done(c)]
          && (InRound(c) ==> c.rounds != [] && Last(c).note == c.note)
          && (forall k :: 0 <= k < |c.rounds| ==> c.rounds[k].seen == |log| + k)
          && (forall k :: 0 <= k < Done(c) ==> c.rounds[k].place == Some(|log| + k)))
  }

  lemma LoneAppend(log: seq<Note>, s: State, st: Stream)
    requires LoneOk(log, s, st) && Enabled(s, Next(st)) && s.streams[st].next == |s.streams[st].toSend|
    ensures LoneOk(log, Step(s, Next(st)), st)
  {
    var c, c' := s.streams[st], Step(s, Next(st)).streams[st];
    assert Notes(c'.rounds) == Notes(c.rounds)[..Done(c)] + [c.note];
    assert Notes(c'.rounds)[..Done(c')] == Notes(c'.rounds);
  }

  lemma LoneStep(log: seq<Note>, s: State, a: Action)
    requires LoneOk(log, s, a.st) && Enabled(s, a)
    ensures LoneOk(log, Step(s, a), a.st)
  {
    if a.st in s.streams {
      var c, c' := s.streams[a.st], Step(s, a).streams[a.st];
      if a.Next? && c.next == |c.toSend| {
        LoneAppend(log, s, a.st);
      } else {
        assert |Notes(c.rounds)[..Done(c)]| == Done(c);
        assert Notes(c'.rounds)[..Done(c')] == Notes(c.rounds)[..Done(c)];
      }
    }
  }

  lemma {:induction false} LoneExec(log: seq<Note>, s: State, st: Stream, run: seq<Action>)
    requires LoneOk(log, s, st) && Allowed(s, run) && Alone(run, st)
    ensures LoneOk(log, Exec(s, run), st)
    decreases |run|
  {
    if run != [] {
      LoneStep(log, s, run[0]);
      LoneExec(log, Step(s, run[0]), st, run[1..]);
    }
  }

  function Concat(answers: seq<seq<Note>>): seq<Note> {
    if answers == [] then [] else Concat(answers[..|answers| - 1]) + answers[|answers| - 1]
  }

  /** What the blocking server writes when it serves `notes` on one stream: the contract of its `RouteChat`. */
  ghost predicate Serves(log: seq<Note>, notes: seq<Note>, answers: seq<seq<Note>>) {
    |answers| == |notes| && forall k :: 0 <= k < |notes| ==> BlockingChat.Replied(log, notes, answers, k)
  }

  /** Round `j` saw the initial log and the stream's own earlier notes. */
  predicate LoneRound(log: seq<Note>, final: seq<Note>, rounds: seq<Round>, j: nat) {
    && j < |rounds| && rounds[j].seen == |log| + j <= |final|
    && final[..|log| + j] == log + Notes(rounds)[..j]
  }

  lemma {:induction false} LoneCopies(log: seq<Note>, final: seq<Note>, rounds: seq<Round>,
                                      answers: seq<seq<Note>>, k: nat)
    requires k <= |rounds| && Serves(log, Notes(rounds), answers)
    requires forall j :: 0 <= j < k ==> LoneRound(log, final, rounds, j)
    ensures Copies(final, rounds[..k]) == Concat(answers[..k])
    decreases k
  {
    if k > 0 {
      assert rounds[..k][..k - 1] == rounds[..k - 1] && answers[..k][..k - 1] == answers[..k - 1];
      LoneCopies(log, final, rounds, answers, k - 1);
      assert LoneRound(log, final, rounds, k - 1);
      assert BlockingChat.Replied(log, Notes(rounds), answers, k - 1);
    }
  }

  lemma LoneRounds(log: seq<Note>, s: State, st: Stream, k: nat)
    requires LoneOk(log, s, st) && st in s.streams && k < Done(s.streams[st])
    ensures forall j :: 0 <= j <= k ==> LoneRound(log, s.log, s.streams[st].rounds, j)
  {
    var r, n := s.streams[st].rounds, Done(s.streams[st]);
    var own := Notes(r)[..n];
    forall j | 0 <= j <= k ensures LoneRound(log, s.log, r, j) {
      assert (log + own)[..|log| + j] == log + own[..j];
      assert own[..j] == Notes(r)[..j];
    }
  }

  /** Main result.  On a stream that is alone, and on which no completion overtakes an increment, round `k` of the
      callback server writes all that the blocking server writes up to that note; its answer to the note itself is
      exactly the last part.  The two servers write the same in round `k` if and only if every earlier note was the
      first at its place. */
  lemma LoneStream(log: seq<Note>, run: seq<Action>, st: Stream, k: nat, answers: seq<seq<Note>>)
    requires Allowed(Start(log), run) && Alone(run, st) && Overtaken(Start(log), run, st) == 0
    requires var s := Exec(Start(log), run); st in s.streams && k < Done(s.streams[st])
    requires Serves(log, Notes(Exec(Start(log), run).streams[st].rounds), answers)
    ensures var r := Exec(Start(log), run).streams[st].rounds;
            && k < |r| == |answers|
            && r[k].writes == Concat(answers[..k]) + answers[k]
            && (r[k].writes == answers[k] <==> forall j :: 0 <= j < k ==> answers[j] == [])
  {
    RoundsRepeat(log, run, st);
    LoneExec(log, Start(log), st, run);
    var s := Exec(Start(log), run);
    var r := s.streams[st].rounds;
    assert RoundRepeats(s.log, r, k);
    LoneRounds(log, s, st, k);
    LoneRoundWrites(log, s.log, r, answers, k);
  }

  lemma LoneRoundWrites(log: seq<Note>, final: seq<Note>, rounds: seq<Round>, answers: seq<seq<Note>>, k: nat)
    requires k < |rounds| && rounds[k].writes == Copies(final, rounds[..k + 1])
    requires Serves(log, Notes(rounds), answers)
    requires forall j :: 0 <= j <= k ==> LoneRound(log, final, rounds, j)
    ensures rounds[k].writes == Concat(answers[..k]) + answers[k]
    ensures rounds[k].writes == answers[k] <==> forall j :: 0 <= j < k ==> answers[j] == []
  {
    LoneCopies(log, final, rounds, answers, k + 1);
    LastPart(rounds[k].writes, answers, k);
  }

  /** The last answer is all there is exactly when the earlier ones are empty. */
  lemma LastPart(writes: seq<Note>, answers: seq<seq<Note>>, k: nat)
    requires k < |answers| && writes == Concat(answers[..k + 1])
    ensures writes == Concat(answers[..k]) + answers[k]
    ensures writes == answers[k] <==> forall j :: 0 <= j < k ==> answers[j] == []
  {
    ConcatNext(answers, k);
    ConcatEmpty(answers[..k]);
    SameOnlyIfNone(writes, Concat(answers[..k]), answers[k]);
  }

  lemma ConcatNext(answers: seq<seq<Note>>, k: nat)
    requires k < |answers|
    ensures Concat(answers[..k + 1]) == Concat(answers[..k]) + answers[k]
  {
    assert answers[..k + 1][..k] == answers[..k];
  }

  lemma SameOnlyIfNone(all: seq<Note>, first: seq<Note>, second: seq<Note>)
    requires all == first + second
    ensures all == second <==> first == []
  {
    if all == second {
      assert |all| == |first| + |second|;
    }
  }

  lemma {:induction false} ConcatEmpty(answers: seq<seq<Note>>)
    ensures Concat(answers) == [] <==> forall j :: 0 <= j < |answers| ==> answers[j] == []
    decreases |answers|
  {
    if answers != [] {
      ConcatEmpty(answers[..|answers| - 1]);
    }
  }

  // ----- how much more it writes

  lemma {:induction false} SamePlaceAnswer(log: seq<Note>, notes: seq<Note>, p: Point)
    requires forall i :: 0 <= i < |notes| ==> notes[i].location == p
    ensures |At(log + notes, p)| == |At(log, p)| + |notes|
    decreases |notes|
  {
    if notes == [] {
      assert log + notes == log;
    } else {
      var front := notes[..|notes| - 1];
      SamePlaceAnswer(log, front, p);
      assert (log + notes)[..|log + notes| - 1] == log + front;
    }
  }

  lemma {:induction false} SamePlaceCount(log: seq<Note>, notes: seq<Note>, answers: seq<seq<Note>>, p: Point, k: nat)
    requires Serves(log, notes, answers)
    requires k <= |notes| && forall i :: 0 <= i < |notes| ==> notes[i].location == p
    ensures 2 * |Concat(answers[..k])| == 2 * k * |At(log, p)| + k * (k - 1)
    decreases k
  {
    if k > 0 {
      var m := |At(log, p)|;
      SamePlaceCount(log, notes, answers, p, k - 1);
      SamePlaceAnswer(log, notes[..k - 1], p);
      assert BlockingChat.Replied(log, notes, answers, k - 1);
      assert |answers[k - 1]| == m + k - 1;
      ConcatNext(answers, k - 1);
      SquareStep(m, k);
    }
  }

  lemma SquareStep(m: nat, k: nat)
    requires k > 0
    ensures 2 * (k - 1) * m + (k - 1) * (k - 2) + 2 * (m + k - 1) == 2 * k * m + k * (k - 1)
  {
    assert (k - 1) * (k - 2) + 2 * (k - 1) == k * (k - 1);
  }

  /** The number of notes written in the first `n` rounds. */
  function Written(rounds: seq<Round>, n: nat): nat
    requires n <= |rounds|
  {
    if n == 0 then 0 else Written(rounds, n - 1) + |rounds[n - 1].writes|
  }

  lemma {:induction false} SumOfSquares(rounds: seq<Round>, m: nat, k: nat)
    requires k <= |rounds|
    requires forall j :: 0 <= j < k ==> 2 * |rounds[j].writes| == 2 * (j + 1) * m + (j + 1) * j
    ensures 6 * Written(rounds, k) == 3 * m * k * (k + 1) + (k - 1) * k * (k + 1)
    decreases k
  {
    if k > 0 {
      SumOfSquares(rounds, m, k - 1);
      CubicStep(m, k);
    }
  }

  lemma CubicStep(m: nat, k: nat)
    requires k > 0
    ensures 3 * m * (k - 1) * k + (k - 2) * (k - 1) * k + 3 * (2 * k * m + k * (k - 1))
         == 3 * m * k * (k + 1) + (k - 1) * k * (k + 1)
  {
    assert 3 * m * (k - 1) * k + 6 * k * m == 3 * m * k * (k + 1);
    assert (k - 2) * (k - 1) * k + 3 * k * (k - 1) == (k - 1) * k * (k + 1);
  }

  function BlockingAnswers(log: seq<Note>, notes: seq<Note>): seq<seq<Note>> {
    seq(|notes|, k requires 0 <= k < |notes| => At(log + notes[..k], notes[k].location))
  }

  /** On a lone stream whose notes are all at one place, where the log already held `m` notes: round `k`, counted from
      one, writes k m + k(k-1)/2 notes, and the first `k` rounds together m k(k+1)/2 + (k-1)k(k+1)/6. */
  lemma CubicWrites(log: seq<Note>, run: seq<Action>, st: Stream, p: Point, k: nat)
    requires Allowed(Start(log), run) && Alone(run, st) && Overtaken(Start(log), run, st) == 0
    requires var s := Exec(Start(log), run); st in s.streams && k <= Done(s.streams[st])
    requires var r := Exec(Start(log), run).streams[st].rounds; forall i :: 0 <= i < |r| ==> r[i].note.location == p
    ensures var r, m := Exec(Start(log), run).streams[st].rounds, |At(log, p)|;
            && (k > 0 ==> 2 * |r[k - 1].writes| == 2 * k * m + k * (k - 1))
            && 6 * Written(r, k) == 3 * m * k * (k + 1) + (k - 1) * k * (k + 1)
  {
    var r := Exec(Start(log), run).streams[st].rounds;
    var answers := BlockingAnswers(log, Notes(r));
    forall j | 0 <= j < k ensures 2 * |r[j].writes| == 2 * (j + 1) * |At(log, p)| + (j + 1) * j {
      LoneStream(log, run, st, j, answers);
      ConcatNext(answers, j);
      SamePlaceCount(log, Notes(r), answers, p, j + 1);
    }
    SumOfSquares(r, |At(log, p)|, k);
  }
}
