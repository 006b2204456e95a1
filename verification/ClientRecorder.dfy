/** The client's RecordRoute reactor and the counter that decides when `OnDone` runs.

    Between the completion of a write and the next one the reactor waits for an alarm, outside any reaction; the
    hold keeps the call from being torn down meanwhile.  `ClientCallbackWriterImpl` counts outstanding callbacks:
    three registered at construction, one per hold and per started operation; whoever brings the count to zero
    destroys the call and runs `OnDone`.

    `NextWrite` starts a write before it counts it: the decrement of `points_remaining_` is a statement of its own, and
    the write may complete, its alarm fire and the next `NextWrite` read the old value before it is executed.
 */
module ClientRecorder {
  import opened Common

  /** Progress of the constructor: about to add the hold, to call `NextWrite`, to perform the operations of
      `StartCall`, to give up `StartCall`'s own registration; or over. */
  datatype Stage = Holding | FirstWrite | Starting | Releasing | Constructed

  /** `remaining` is `points_remaining_` and `owed` the number of threads that have started a write and not yet
      counted it. `start`, `finish`, `write` and `writesDone` are operations in flight; `reactions` counts callbacks
      that have run their reaction and not yet given up their registration; `removing` and `removed` count calls of
      `RemoveHold` that are due and done; `writes` and `closes` count calls of `StartWrite` and `StartWritesDone`. */
  datatype State = State(
    stage: Stage, remaining: int, owed: nat, outstanding: int,
    start: bool, finish: bool, write: bool, writesDone: bool, alarm: bool,
    reactions: nat, removing: nat, removed: nat, writes: nat, closes: nat,
    done: nat, fault: bool)

  /** `points` is the initial value of `points_remaining_`; without `held` the constructor forgets the hold. */
  function Init(points: nat, held: bool): State {
    State(if held then Holding else FirstWrite, points, 0, 3, true, true, false, false, false, 0, 0, 0, 0, 0, 0, false)
  }

  predicate Destroyed(s: State) {
    s.done > 0
  }

  /** One registration is given up; the last one destroys the call and runs `OnDone`. */
  function MaybeFinish(s: State): State {
    if Destroyed(s) then s.(fault := true)
    else s.(outstanding := s.outstanding - 1, done := if s.outstanding == 1 then 1 else 0)
  }

  /** `NextWrite` up to and including the publication.  A second write before the first completes, or any use of a
      destroyed call, is a fault. */
  function NextWrite(s: State): State {
    if Destroyed(s) then s.(fault := true)
    else if s.remaining != 0 then
      if s.write then s.(fault := true)
      else s.(outstanding := s.outstanding + 1, write := true, writes := s.writes + 1, owed := s.owed + 1)
    else s.(outstanding := s.outstanding + 1, writesDone := true, closes := s.closes + 1, removing := s.removing + 1)
  }

  /** The decrement behind the publication.  `OnDone` lets the client drop the reactor, so it must not come later. */
  function CountDown(s: State): State
    requires s.owed > 0
  {
    if Destroyed(s) then s.(fault := true) else s.(remaining := s.remaining - 1, owed := s.owed - 1)
  }

  /** A call of `NextWrite` that nothing interrupts. */
  function Uninterrupted(s: State): State {
    var s1 := NextWrite(s);
    if s1.owed > s.owed then CountDown(s1) else s1
  }

  function OnWriteDone(s: State): State {
    if s.alarm then s.(fault := true) else s.(alarm := true)
  }

  // ----- the reactor as code

  class Recorder {
    var pointsRemaining: int
    var callbacksOutstanding: int
    var writeInFlight: bool
    var writesDoneInFlight: bool
    var alarmSet: bool
    var removalsDue: nat
    var writes: nat
    var closes: nat
    var doneCalls: nat
    var fault: bool

    /** The machine state this object and its call stand for, given what they do not hold. */
    ghost function View(rest: State): State
      reads this
    {
      rest.(remaining := pointsRemaining, outstanding := callbacksOutstanding, write := writeInFlight,
            writesDone := writesDoneInFlight, alarm := alarmSet, removing := removalsDue,
            writes := writes, closes := closes, done := doneCalls, fault := fault)
    }

    /** The constructor up to `StartCall`: the hold, then the first write. */
    constructor (points: nat)
      ensures View(Init(points, true)) == Uninterrupted(Init(points, true).(outstanding := 4))
    {
      pointsRemaining, callbacksOutstanding := points, 3;
      writeInFlight, writesDoneInFlight, alarmSet := false, false, false;
      removalsDue, writes, closes, doneCalls, fault := 0, 0, 0, 0, false;
      new;
      callbacksOutstanding := callbacksOutstanding + 1;
      assert View(Init(points, true)) == Init(points, true).(outstanding := 4);
      SendNext();
    }

    /** `NextWrite`; `RemoveHold`, its last statement, is a step of its own. */
    method SendNext()
      modifies this
      ensures forall rest :: View(rest) == Uninterrupted(old(View(rest)))
    {
      if doneCalls > 0 {
        fault := true;
      } else if pointsRemaining != 0 {
        if writeInFlight {
          fault := true;
        } else {
          callbacksOutstanding := callbacksOutstanding + 1;
          writeInFlight := true;
          writes := writes + 1;
          pointsRemaining := pointsRemaining - 1;
        }
      } else {
        callbacksOutstanding := callbacksOutstanding + 1;
        writesDoneInFlight := true;
        closes := closes + 1;
        removalsDue := removalsDue + 1;
      }
    }

    method SetAlarm()
      modifies this
      ensures forall rest :: View(rest) == OnWriteDone(old(View(rest)))
    {
      if alarmSet {
        fault := true;
      } else {
        alarmSet := true;
      }
    }

    method GiveUp()
      modifies this
      ensures forall rest :: View(rest) == MaybeFinish(old(View(rest)))
    {
      if doneCalls > 0 {
        fault := true;
      } else {
        var before := callbacksOutstanding;
        callbacksOutstanding := callbacksOutstanding - 1;
        if before == 1 {
          doneCalls := 1;
        }
      }
    }
  }

  // ----- every schedule

  datatype Action =
    | Construct                // the next statement of the constructor
    | StartDone | FinishDone   // initial metadata; status of the call, which may come at any time
    | WriteDone(ok: bool)      // OnWriteDone, whether or not the write succeeded
    | WritesDoneDone
    | Release                  // a callback returns and gives up its registration
    | AlarmFires               // the alarm's callback calls NextWrite, up to the publication
    | Decrement                // a thread behind the publication of a write counts it
    | RemoveHold

  /** Operations complete only after `StartCall` has performed them. */
  predicate Performed(s: State) {
    s.stage == Releasing || s.stage == Constructed
  }

  /** The constructor calls `StartCall` only once its own call of `NextWrite` has returned. */
  predicate Enabled(s: State, a: Action) {
    && !s.fault
    && match a
       case Construct => s.stage != Constructed && (s.stage == Starting ==> s.owed == 0 && s.removing == 0)
       case StartDone => s.start && Performed(s)
       case FinishDone => s.finish && Performed(s)
       case WriteDone(_) => s.write && Performed(s)
       case WritesDoneDone => s.writesDone && Performed(s)
       case Release => s.reactions > 0
       case AlarmFires => s.alarm
       case Decrement => s.owed > 0
       case RemoveHold => s.removing > 0
  }

  function Step(s: State, a: Action): State
    requires Enabled(s, a)
  {
    match a
    case Construct =>
      (match s.stage
       case Holding => s.(stage := FirstWrite, outstanding := s.outstanding + 1)
       case FirstWrite => NextWrite(s.(stage := Starting))
       case Starting => s.(stage := Releasing)
       case Releasing => MaybeFinish(s.(stage := Constructed))
       case Constructed => s)
    case StartDone => s.(start := false, reactions := s.reactions + 1)
    case FinishDone => s.(finish := false, reactions := s.reactions + 1)
    case WriteDone(_) => OnWriteDone(s.(write := false, reactions := s.reactions + 1))
    case WritesDoneDone => s.(writesDone := false, reactions := s.reactions + 1)
    case Release => MaybeFinish(s.(reactions := s.reactions - 1))
    case AlarmFires => NextWrite(s.(alarm := false))
    case Decrement => CountDown(s)
    case RemoveHold => MaybeFinish(s.(removing := s.removing - 1, removed := s.removed + 1))
  }

  predicate Allowed(s: State, run: seq<Action>)
    decreases |run|
  {
    run == [] || (Enabled(s, run[0]) && Allowed(Step(s, run[0]), run[1..]))
  }

  function Exec(s: State, run: seq<Action>): State
    requires Allowed(s, run)
    decreases |run|
  {
    if run == [] then s else Exec(Step(s, run[0]), run[1..])
  }

  predicate BeforeFirst(s: State) {
    s.stage == Holding || s.stage == FirstWrite
  }

  /** The turn to call `NextWrite` next is in one place: the constructor, a write, the alarm, or, once
      `StartWritesDone` has been called, nowhere. */
  function Turns(s: State): int {
    One(BeforeFirst(s)) + One(s.write) + One(s.alarm) + s.closes
  }

  predicate HoldHeld(s: State) {
    s.stage != Holding && s.removed == 0
  }

  /** Registrations that have not been given up. */
  function Registered(s: State): int {
    One(s.stage != Constructed) + One(s.start) + One(s.finish) + One(s.write) + One(s.writesDone)
    + s.reactions + One(HoldHeld(s))
  }

  ghost predicate Inv(points: nat, s: State) {
    && !s.fault
    && Turns(s) == 1 && s.closes == s.removing + s.removed
    && s.remaining - s.owed + s.writes == points && s.writes <= points
    && (s.closes > 0 ==> s.remaining == 0 && s.owed == 0)
    && (BeforeFirst(s) ==> s.owed == 0 && s.writes == 0)
    && (!Performed(s) ==> !s.alarm) && (s.write || s.alarm ==> s.writes > 0)
    && (s.writesDone ==> s.closes == 1)
    && s.outstanding == Registered(s) && s.done == One(s.outstanding == 0)
  }

  /** Steps still to be taken. */
  function Work(s: State): int {
    (match s.stage case Holding => 4 case FirstWrite => 3 case Starting => 2 case Releasing => 1 case Constructed => 0)
    + 2 * One(s.start) + 2 * One(s.finish) + 4 * (s.remaining - s.owed) + s.owed + 3 * One(s.write) + One(s.alarm)
    + s.reactions + 2 * One(s.writesDone) + s.removing + 3 * (1 - s.closes)
  }

  /** The alarm behind the last write fires while some started write has not been counted. */
  predicate Overtakes(points: nat, s: State, a: Action) {
    a.AlarmFires? && s.owed > 0 && s.writes >= points
  }

  /** How often that happens. */
  function Overtaken(points: nat, s: State, run: seq<Action>): nat
    requires Allowed(s, run)
    decreases |run|
  {
    if run == [] then 0
    else (if Overtakes(points, s, run[0]) then 1 else 0) + Overtaken(points, Step(s, run[0]), run[1..])
  }

  lemma KeepFirstWrite(points: nat, s: State, a: Action)
    requires Inv(points, s) && Enabled(s, a) && a.Construct? && s.stage == FirstWrite
    ensures Inv(points, Step(s, a)) && Work(Step(s, a)) == Work(s) - 1
  {
  }

  lemma KeepHolding(points: nat, s: State, a: Action)
    requires Inv(points, s) && Enabled(s, a) && a.Construct? && (s.stage == Holding || s.stage == Starting)
    ensures Inv(points, Step(s, a)) && Work(Step(s, a)) == Work(s) - 1
  {
  }

  lemma KeepReleasing(points: nat, s: State, a: Action)
    requires Inv(points, s) && Enabled(s, a) && a.Construct? && s.stage == Releasing
    ensures Inv(points, Step(s, a)) && Work(Step(s, a)) == Work(s) - 1
  {
  }

  lemma KeepStart(points: nat, s: State)
    requires Inv(points, s) && Enabled(s, StartDone)
    ensures Inv(points, Step(s, StartDone)) && Work(Step(s, StartDone)) == Work(s) - 1
  {
  }

  lemma KeepFinish(points: nat, s: State)
    requires Inv(points, s) && Enabled(s, FinishDone)
    ensures Inv(points, Step(s, FinishDone)) && Work(Step(s, FinishDone)) == Work(s) - 1
  {
  }

  lemma KeepClose(points: nat, s: State)
    requires Inv(points, s) && Enabled(s, WritesDoneDone)
    ensures Inv(points, Step(s, WritesDoneDone)) && Work(Step(s, WritesDoneDone)) == Work(s) - 1
  {
  }

  lemma KeepWriteDone(points: nat, s: State, a: Action)
    requires Inv(points, s) && Enabled(s, a) && a.WriteDone?
    ensures Inv(points, Step(s, a)) && Work(Step(s, a)) == Work(s) - 1
  {
  }

  lemma KeepLastRelease(points: nat, s: State)
    requires Inv(points, s) && Enabled(s, Release) && s.outstanding == 1
    ensures Inv(points, Step(s, Release)) && Work(Step(s, Release)) == Work(s) - 1
  {
  }

  lemma KeepOtherRelease(points: nat, s: State)
    requires Inv(points, s) && Enabled(s, Release) && s.outstanding != 1
    ensures Inv(points, Step(s, Release)) && Work(Step(s, Release)) == Work(s) - 1
  {
  }

  lemma KeepRemoveHold(points: nat, s: State, a: Action)
    requires Inv(points, s) && Enabled(s, a) && a.RemoveHold?
    ensures Inv(points, Step(s, a)) && Work(Step(s, a)) == Work(s) - 1
  {
  }

  lemma KeepDecrement(points: nat, s: State, a: Action)
    requires Inv(points, s) && Enabled(s, a) && a.Decrement?
    ensures Inv(points, Step(s, a)) && Work(Step(s, a)) == Work(s) - 1
  {
  }

  lemma KeepAlarm(points: nat, s: State, a: Action)
    requires Inv(points, s) && Enabled(s, a) && a.AlarmFires? && !Overtakes(points, s, a)
    ensures Inv(points, Step(s, a)) && Work(Step(s, a)) == Work(s) - 1
  {
  }

  lemma InvStep(points: nat, s: State, a: Action)
    requires Inv(points, s) && Enabled(s, a) && !Overtakes(points, s, a)
    ensures Inv(points, Step(s, a)) && Work(Step(s, a)) == Work(s) - 1
  {
    match a {
      case Construct =>
        match s.stage {
          case FirstWrite => KeepFirstWrite(points, s, a);
          case Releasing => KeepReleasing(points, s, a);
          case _ => KeepHolding(points, s, a);
        }
      case WriteDone(_) => KeepWriteDone(points, s, a);
      case Release =>
        if s.outstanding == 1 {
          KeepLastRelease(points, s);
        } else {
          KeepOtherRelease(points, s);
        }
      case RemoveHold => KeepRemoveHold(points, s, a);
      case Decrement => KeepDecrement(points, s, a);
      case AlarmFires => KeepAlarm(points, s, a);
      case StartDone => KeepStart(points, s);
      case FinishDone => KeepFinish(points, s);
      case WritesDoneDone => KeepClose(points, s);
    }
  }

  /** What the functions behind the actions do to the counter and to the counts of writes and closes. */
  lemma NextWriteCounts(s: State)
    ensures NextWrite(s).writes >= s.writes && NextWrite(s).remaining == s.remaining
    ensures s.remaining < 0 ==> NextWrite(s).closes == s.closes
  {
  }

  predicate SameCounts(s: State, s': State) {
    s'.writes == s.writes && s'.closes == s.closes && s'.remaining == s.remaining
  }

  lemma OthersKeepCounts(s: State)
    ensures SameCounts(s, MaybeFinish(s)) && SameCounts(s, OnWriteDone(s))
  {
  }

  /** The state an action hands to one of those functions. */
  function Before(s: State, a: Action): State
    requires Enabled(s, a)
  {
    match a
    case Construct => if s.stage == FirstWrite then s.(stage := Starting) else s.(stage := Constructed)
    case WriteDone(_) => s.(write := false, reactions := s.reactions + 1)
    case Release => s.(reactions := s.reactions - 1)
    case AlarmFires => s.(alarm := false)
    case RemoveHold => s.(removing := s.removing - 1, removed := s.removed + 1)
    case _ => s
  }

  lemma WritesStep(s: State, a: Action)
    requires Enabled(s, a)
    ensures Step(s, a).writes >= s.writes
  {
    NextWriteCounts(Before(s, a));
    OthersKeepCounts(Before(s, a));
  }

  /** A write is never unstarted. */
  lemma {:induction false} WritesGrow(s: State, run: seq<Action>)
    requires Allowed(s, run)
    ensures Exec(s, run).writes >= s.writes
    decreases |run|
  {
    if run != [] {
      WritesStep(s, run[0]);
      WritesGrow(Step(s, run[0]), run[1..]);
    }
  }

  /** The alarm that overtakes starts one write too many. */
  lemma OneTooMany(points: nat, s: State, a: Action)
    requires Inv(points, s) && Enabled(s, a) && Overtakes(points, s, a)
    ensures Step(s, a).writes == points + 1
  {
  }

  lemma {:induction false} InvExec(points: nat, s: State, run: seq<Action>)
    requires Inv(points, s) && Allowed(s, run)
    ensures Overtaken(points, s, run) == 0 ==> Inv(points, Exec(s, run)) && Work(Exec(s, run)) == Work(s) - |run|
    ensures Overtaken(points, s, run) > 0 ==> Exec(s, run).writes > points
    decreases |run|
  {
    if run != [] {
      if Overtakes(points, s, run[0]) {
        OneTooMany(points, s, run[0]);
        WritesGrow(Step(s, run[0]), run[1..]);
      } else {
        InvStep(points, s, run[0]);
        InvExec(points, Step(s, run[0]), run[1..]);
      }
    }
  }

  predicate Stuck(s: State) {
    && !Enabled(s, Construct) && !Enabled(s, StartDone) && !Enabled(s, FinishDone)
    && !Enabled(s, WriteDone(true)) && !Enabled(s, WriteDone(false)) && !Enabled(s, WritesDoneDone)
    && !Enabled(s, Release) && !Enabled(s, AlarmFires) && !Enabled(s, Decrement) && !Enabled(s, RemoveHold)
  }

  /** What the reactor promises at every moment, and that it gets there. */
  ghost predicate Safe(points: nat, s: State, steps: nat) {
    && !s.fault && s.done <= 1
    && One(s.write) + One(s.alarm) <= 1
    && s.writes <= points && s.closes <= 1 && s.removed <= s.closes
    && (s.closes == 1 ==> s.writes == points && !s.write && !s.alarm)
    && (s.done == 1 ==> s.removed == 1 && s.closes == 1)
    && steps <= 4 * points + 11
    && (Stuck(s) <==> steps == 4 * points + 11)
    && (Stuck(s) ==> s.done == 1)
  }

  lemma InvIsSafe(points: nat, s: State, steps: nat)
    requires Inv(points, s) && Work(s) == 4 * points + 11 - steps
    ensures Safe(points, s, steps)
  {
  }

  /** Main result. For every number of points and every schedule of completions, alarms and decrements: the reactor
      keeps its promises if and only if the alarm behind the last write never fires before all started writes have
      been counted. The promises: nothing is used after the call is destroyed; at most one write or alarm is
      outstanding; exactly the given number of writes is started before the one `StartWritesDone`, after which
      `NextWrite` is not called again; `OnDone` runs at most once and only after the hold was removed; no run is
      longer than 4 N + 11 steps, and a run that cannot continue has taken exactly that many and has run `OnDone`. */
  lemma RecorderIsSafe(points: nat, run: seq<Action>)
    requires Allowed(Init(points, true), run)
    ensures Safe(points, Exec(Init(points, true), run), |run|) <==> Overtaken(points, Init(points, true), run) == 0
    ensures Exec(Init(points, true), run).writes <= points <==> Overtaken(points, Init(points, true), run) == 0
  {
    InvExec(points, Init(points, true), run);
    if Overtaken(points, Init(points, true), run) == 0 {
      InvIsSafe(points, Exec(Init(points, true), run), |run|);
    }
  }

  // ----- one write too many

  lemma OnePointStep(points: nat, s: State, a: Action)
    requires points <= 1 && Inv(points, s) && (Performed(s) ==> s.owed == 0) && Enabled(s, a)
    ensures !Overtakes(points, s, a) && (Performed(Step(s, a)) ==> Step(s, a).owed == 0)
  {
  }

  /** The first write is counted before `StartCall` lets it be performed, so a single point is never sent twice. */
  lemma {:induction false} OnePointIsSafe(points: nat, s: State, run: seq<Action>)
    requires points <= 1 && Inv(points, s) && (Performed(s) ==> s.owed == 0) && Allowed(s, run)
    ensures Overtaken(points, s, run) == 0
    decreases |run|
  {
    if run != [] {
      OnePointStep(points, s, run[0]);
      InvStep(points, s, run[0]);
      OnePointIsSafe(points, Step(s, run[0]), run[1..]);
    }
  }

  lemma BelowZeroConstruct(s: State)
    requires Enabled(s, Construct) && s.remaining < 0
    ensures Step(s, Construct).remaining < 0 && Step(s, Construct).closes == s.closes
  {
    NextWriteCounts(s.(stage := Starting));
    OthersKeepCounts(s.(stage := Constructed));
  }

  lemma BelowZeroStep(s: State, a: Action)
    requires Enabled(s, a) && s.remaining < 0
    ensures Step(s, a).remaining < 0 && Step(s, a).closes == s.closes
  {
    match a {
      case Construct => BelowZeroConstruct(s);
      case AlarmFires => NextWriteCounts(Before(s, a));
      case _ => OthersKeepCounts(Before(s, a));
    }
  }

  /** Once the counter is below zero it stays there, and the stream is never closed. */
  lemma {:induction false} NeverCloses(s: State, run: seq<Action>)
    requires Allowed(s, run) && s.remaining < 0
    ensures Exec(s, run).remaining < 0 && Exec(s, run).closes == s.closes
    decreases |run|
  {
    if run != [] {
      BelowZeroStep(s, run[0]);
      NeverCloses(Step(s, run[0]), run[1..]);
    }
  }

  lemma {:induction false} AllowedConcat(s: State, first: seq<Action>, second: seq<Action>)
    requires Allowed(s, first) && Allowed(Exec(s, first), second)
    ensures Allowed(s, first + second) && Exec(s, first + second) == Exec(Exec(s, first), second)
    decreases |first|
  {
    if first == [] {
      assert first + second == second;
    } else {
      AllowedConcat(Step(s, first[0]), first[1..], second);
      Extend(s, first[0], first[1..] + second);
      assert first + second == [first[0]] + (first[1..] + second);
    }
  }

  /** A write of the constructed reactor is on its way and everything before it is settled. */
  predicate Underway(points: nat, s: State, started: nat) {
    && !s.fault && s.done == 0 && s.stage == Constructed && s.write && !s.alarm
    && s.owed == 0 && s.writes == started && s.remaining == points - started && s.closes == 0 && s.outstanding >= 2
  }

  lemma OneRound(points: nat, s: State, started: nat)
    requires Underway(points, s, started) && started < points
    ensures Allowed(s, [WriteDone(true)] + ([AlarmFires] + ([Decrement] + [])))
    ensures Underway(points, Exec(s, [WriteDone(true)] + ([AlarmFires] + ([Decrement] + []))), started + 1)
  {
    var s1 := Step(s, WriteDone(true));
    var s2 := Step(s1, AlarmFires);
    assert Allowed(Step(s2, Decrement), []);
    Extend(s2, Decrement, []);
    Extend(s1, AlarmFires, [Decrement] + []);
    Extend(s, WriteDone(true), [AlarmFires] + ([Decrement] + []));
  }

  lemma {:induction false} Rounds(points: nat, s: State, started: nat, more: nat) returns (run: seq<Action>)
    requires Underway(points, s, started) && started + more <= points
    ensures Allowed(s, run) && Underway(points, Exec(s, run), started + more)
    decreases more
  {
    run := [];
    if more > 0 {
      OneRound(points, s, started);
      var one := [WriteDone(true)] + ([AlarmFires] + ([Decrement] + []));
      var rest := Rounds(points, Exec(s, one), started + 1, more - 1);
      AllowedConcat(s, one, rest);
      run := one + rest;
    }
  }

  lemma Constructing(points: nat) returns (run: seq<Action>)
    requires points > 0
    ensures Allowed(Init(points, true), run) && Underway(points, Exec(Init(points, true), run), 1)
  {
    var s0 := Init(points, true);
    var s1 := Step(s0, Construct);
    var s2 := Step(s1, Construct);
    var s3 := Step(s2, Decrement);
    var s4 := Step(s3, Construct);
    assert Allowed(Step(s4, Construct), []);
    Extend(s4, Construct, []);
    Extend(s3, Construct, [Construct] + []);
    Extend(s2, Decrement, [Construct] + ([Construct] + []));
    Extend(s1, Construct, [Decrement] + ([Construct] + ([Construct] + [])));
    run := [Construct] + ([Construct] + ([Decrement] + ([Construct] + ([Construct] + []))));
    Extend(s0, Construct, [Construct] + ([Decrement] + ([Construct] + ([Construct] + []))));
  }

  /** With one write to go, the write completes, its alarm fires and so on twice before the first is counted. */
  lemma Overtaking(points: nat, s: State) returns (run: seq<Action>)
    requires points > 0 && Underway(points, s, points - 1)
    ensures Allowed(s, run) && Exec(s, run).writes == points + 1 && Exec(s, run).remaining < 0
    ensures Exec(s, run).closes == 0
  {
    var s1 := Step(s, WriteDone(true));
    var s2 := Step(s1, AlarmFires);
    var s3 := Step(s2, WriteDone(true));
    var s4 := Step(s3, AlarmFires);
    var s5 := Step(s4, Decrement);
    assert Allowed(Step(s5, Decrement), []);
    var r5 := [Decrement] + [];
    var r4, r3 := [Decrement] + r5, [AlarmFires] + ([Decrement] + r5);
    var r2 := [WriteDone(true)] + r3;
    Extend(s5, Decrement, []);
    Extend(s4, Decrement, r5);
    Extend(s3, AlarmFires, r4);
    Extend(s2, WriteDone(true), r3);
    Extend(s1, AlarmFires, r2);
    Extend(s, WriteDone(true), [AlarmFires] + r2);
    run := [WriteDone(true)] + ([AlarmFires] + r2);
  }

  /** A schedule after which more than the given number of writes has been started and the stream is never closed. */
  lemma RunsAway(points: nat) returns (run: seq<Action>)
    requires points >= 2
    ensures Allowed(Init(points, true), run)
    ensures var s := Exec(Init(points, true), run);
            && s.writes == points + 1 && s.closes == 0
            && forall more :: Allowed(s, more) ==> Exec(s, more).closes == 0
  {
    var s0 := Init(points, true);
    var first := Constructing(points);
    var second := Rounds(points, Exec(s0, first), 1, points - 2);
    AllowedConcat(s0, first, second);
    var third := Overtaking(points, Exec(s0, first + second));
    AllowedConcat(s0, first + second, third);
    run := first + second + third;
    var s := Exec(s0, run);
    forall more | Allowed(s, more) ensures Exec(s, more).closes == 0 {
      NeverCloses(s, more);
    }
  }

  /** Main result: the number of writes is right under every schedule exactly when there is at most one point. */
  lemma ExactOnlyForOnePoint(points: nat)
    ensures (forall run :: Allowed(Init(points, true), run) ==> Exec(Init(points, true), run).writes <= points) <==>
            points <= 1
  {
    var s0 := Init(points, true);
    if points <= 1 {
      forall run | Allowed(s0, run) ensures Exec(s0, run).writes <= points {
        OnePointIsSafe(points, s0, run);
        InvExec(points, s0, run);
      }
    } else {
      var run := RunsAway(points);
      assert Exec(s0, run).writes > points;
    }
  }

  // ----- the hold is needed

  lemma Extend(s: State, a: Action, run: seq<Action>)
    requires Enabled(s, a) && Allowed(Step(s, a), run)
    ensures Allowed(s, [a] + run) && Exec(s, [a] + run) == Exec(Step(s, a), run)
  {
    assert ([a] + run)[1..] == run;
  }

  /** With every registration but the write's given up, the end of the write destroys the call while the alarm is
      still set. */
  lemma LastWriteDone(s: State)
    requires !s.fault && s.stage == Constructed && s.write && !s.alarm && s.reactions == 0 && s.outstanding == 1
    requires s.done == 0
    ensures Allowed(s, [WriteDone(true)] + ([Release] + ([AlarmFires] + [])))
    ensures Exec(s, [WriteDone(true)] + ([Release] + ([AlarmFires] + []))).fault
  {
    var s1 := Step(s, WriteDone(true));
    var s2 := Step(s1, Release);
    assert Allowed(Step(s2, AlarmFires), []);
    Extend(s2, AlarmFires, []);
    Extend(s1, Release, [AlarmFires] + []);
    Extend(s, WriteDone(true), [Release] + ([AlarmFires] + []));
  }

  /** Two operations of the call have completed. */
  lemma ReleaseBoth(s: State, run: seq<Action>)
    requires !s.fault && s.stage == Constructed && s.start && s.finish && s.reactions == 0 && s.outstanding > 2
    requires s.done == 0
    requires Allowed(s.(start := false, finish := false, outstanding := s.outstanding - 2), run)
    ensures exists all :: Allowed(s, all)
              && Exec(s, all) == Exec(s.(start := false, finish := false, outstanding := s.outstanding - 2), run)
  {
    var s1 := Step(s, StartDone);
    var s2 := Step(s1, Release);
    var s3 := Step(s2, FinishDone);
    Extend(s3, Release, run);
    Extend(s2, FinishDone, [Release] + run);
    Extend(s1, Release, [FinishDone] + ([Release] + run));
    Extend(s, StartDone, [Release] + ([FinishDone] + ([Release] + run)));
  }

  /** Without the hold, for every number of points from one up, a server that ends the call early makes the alarm's
      `NextWrite` run on a destroyed call. */
  lemma HoldIsNeeded(points: nat)
    requires points > 0
    ensures exists run :: Allowed(Init(points, false), run) && Exec(Init(points, false), run).fault
  {
    var s0 := Init(points, false);
    var s1 := Step(s0, Construct);
    var counted := Step(s1, Decrement);
    var s2 := Step(counted, Construct);
    var s3 := Step(s2, Construct);
    var last := s3.(start := false, finish := false, outstanding := s3.outstanding - 2);
    LastWriteDone(last);
    ReleaseBoth(s3, [WriteDone(true)] + ([Release] + ([AlarmFires] + [])));
    var all :| Allowed(s3, all) && Exec(s3, all).fault;
    Extend(s2, Construct, all);
    Extend(counted, Construct, [Construct] + all);
    Extend(s1, Decrement, [Construct] + ([Construct] + all));
    Extend(s0, Construct, [Decrement] + ([Construct] + ([Construct] + all)));
  }
}
