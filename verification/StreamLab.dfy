/**
 * The endpoints around the stream of apps/p10g_streaming_lab.py: reset, open and cancel. A reset
 * replaces the shared state object; a stream keeps the one it was opened with. State objects are
 * numbered here in the order in which they are made.
 */
module StreamLab {
  import StreamQueue

  datatype Call = Reset | Open(authorized: bool, known: bool) | Cancel(authorized: bool, known: bool)

  datatype Answer = WasReset | Opened(state: nat) | Cancelled(state: nat) | Forbidden | NotFound | Replayed | NotStarted

  /** The current state object, whether it was started, and the objects whose cancel event is set. */
  datatype Lab = Lab(current: nat, started: bool, cancelled: set<nat>) {

    function Step(call: Call): (Lab, Answer) {
      match call
      case Reset => (Lab(current + 1, false, cancelled), WasReset)
      case Open(authorized, known) =>
        if !authorized then (this, Forbidden)
        else if !known then (this, NotFound)
        else if started then (this, Replayed)
        else (this.(started := true), Opened(current))
      case Cancel(authorized, known) =>
        if !authorized then (this, Forbidden)
        else if !known then (this, NotFound)
        else if !started then (this, NotStarted)
        else (this.(cancelled := cancelled + {current}), Cancelled(current))
    }
  }

  const FRESH := Lab(0, false, {})

  function Run(calls: seq<Call>): (r: (Lab, seq<Answer>))
    ensures |r.1| == |calls|
  {
    if calls == [] then (FRESH, [])
    else
      var n := |calls| - 1;
      var (lab, answers) := Run(calls[..n]);
      var (next, answer) := lab.Step(calls[n]);
      (next, answers + [answer])
  }

  class LabState {
    var current: nat
    var started: bool
    var cancelled: set<nat>

    ghost function View(): Lab
      reads this
    {
      Lab(current, started, cancelled)
    }

    constructor ()
      ensures View() == FRESH
    {
      current, started, cancelled := 0, false, {};
    }

    /** Lines 58-63. */
    method ResetLab() returns (answer: Answer)
      modifies this
      ensures (View(), answer) == old(View()).Step(Reset)
    {
      current, started := current + 1, false;
      return WasReset;
    }

    /** Lines 66-80. */
    method OpenStream(authorized: bool, known: bool) returns (answer: Answer)
      modifies this
      ensures (View(), answer) == old(View()).Step(Open(authorized, known))
    {
      if !authorized {
        return Forbidden;
      }
      if !known {
        return NotFound;
      }
      if started {
        return Replayed;
      }
      started := true;
      return Opened(current);
    }

    /** Lines 146-159. */
    method CancelStream(authorized: bool, known: bool) returns (answer: Answer)
      modifies this
      ensures (View(), answer) == old(View()).Step(Cancel(authorized, known))
    {
      if !authorized {
        return Forbidden;
      }
      if !known {
        return NotFound;
      }
      if !started {
        return NotStarted;
      }
      cancelled := cancelled + {current};
      return Cancelled(current);
    }
  }

  function Resets(calls: seq<Call>): nat {
    if calls == [] then 0 else Resets(calls[..|calls| - 1]) + (if calls[|calls| - 1].Reset? then 1 else 0)
  }

  /** What the answers so far say about the lab. */
  ghost predicate Tells(lab: Lab, calls: seq<Call>, answers: seq<Answer>) {
    && lab.current == Resets(calls)
    && (forall i :: 0 <= i < |answers| && answers[i].Opened? ==> answers[i].state <= lab.current)
    && (lab.started <==> Opened(lab.current) in answers)
    && (forall i, j :: 0 <= i < j < |answers| && answers[i].Opened? && answers[j].Opened? ==>
         answers[i].state < answers[j].state)
    && (forall n :: n in lab.cancelled <==> Cancelled(n) in answers)
    && (forall n :: n in lab.cancelled ==> Opened(n) in answers)
  }

  lemma StepTells(lab: Lab, calls: seq<Call>, answers: seq<Answer>, call: Call)
    requires Tells(lab, calls, answers)
    ensures Tells(lab.Step(call).0, calls + [call], answers + [lab.Step(call).1])
  {
    assert (calls + [call])[..|calls|] == calls;
    var answer := lab.Step(call).1;
    assert forall a :: a in answers + [answer] <==> a in answers || a == answer;
    if answer.Opened? {
      assert forall i :: 0 <= i < |answers| && answers[i].Opened? ==> answers[i].state < lab.current;
    }
  }

  lemma {:induction false} RunTells(calls: seq<Call>)
    ensures Tells(Run(calls).0, calls, Run(calls).1)
  {
    if calls != [] {
      var n := |calls| - 1;
      RunTells(calls[..n]);
      StepTells(Run(calls[..n]).0, calls[..n], Run(calls[..n]).1, calls[n]);
      assert calls[..n] + [calls[n]] == calls;
    }
  }

  /** In every run no state object serves two streams: two opened streams have a reset between them. */
  lemma StreamsOpenOncePerReset(calls: seq<Call>, i: nat, j: nat)
    requires i < j < |calls| && Run(calls).1[i].Opened? && Run(calls).1[j].Opened?
    ensures Run(calls).1[i].state < Run(calls).1[j].state <= Resets(calls)
  {
    RunTells(calls);
  }

  /** The cancel event of a stream is set if and only if a cancel call was answered for it, and then it was opened. */
  lemma CancelledIffAnswered(calls: seq<Call>, n: nat)
    ensures n in Run(calls).0.cancelled <==> Cancelled(n) in Run(calls).1
    ensures n in Run(calls).0.cancelled ==> Opened(n) in Run(calls).1
  {
    RunTells(calls);
  }

  /** After a reset, no call reaches a stream opened before it: whether it is cancelled is settled. */
  lemma {:induction false} ResetSettlesOldStreams(calls: seq<Call>, more: seq<Call>, n: nat)
    requires n < Run(calls).0.current
    ensures n in Run(calls + more).0.cancelled <==> n in Run(calls).0.cancelled
    ensures n < Run(calls + more).0.current
    decreases |more|
  {
    if more == [] {
      assert calls + more == calls;
    } else {
      var k := |more| - 1;
      ResetSettlesOldStreams(calls, more[..k], n);
      assert (calls + more)[..|calls| + k] == calls + more[..k];
    }
  }

  lemma {:induction false} AnswerAt(calls: seq<Call>, i: nat)
    requires i < |calls|
    ensures Run(calls).1[i] == Run(calls[..i]).0.Step(calls[i]).1 && Run(calls).1[..i] == Run(calls[..i]).1
    decreases |calls|
  {
    var n := |calls| - 1;
    var answers := Run(calls[..n]).1;
    if i < n {
      AnswerAt(calls[..n], i);
      assert calls[..n][..i] == calls[..i];
      assert Run(calls).1[..i] == answers[..i];
    } else {
      assert Run(calls).1[..n] == answers;
    }
  }

  /**
   * Every answer in every run: an unauthorized call is forbidden, one for another stream is not found,
   * and otherwise it depends on whether a stream was opened since the last reset, of which there have
   * been `Resets` many: the first opening succeeds and later ones are replays, a cancel needs one.
   */
  lemma AnswersAreDecided(calls: seq<Call>, i: nat)
    requires i < |calls|
    ensures var (call, answer, state) := (calls[i], Run(calls).1[i], Resets(calls[..i]));
            var running := Opened(state) in Run(calls).1[..i];
            && (answer == WasReset <==> call == Reset)
            && (answer == Forbidden <==> call != Reset && !call.authorized)
            && (answer == NotFound <==> call != Reset && call.authorized && !call.known)
            && (answer == Replayed <==> call == Open(true, true) && running)
            && (answer == Opened(state) <==> call == Open(true, true) && !running)
            && (answer == NotStarted <==> call == Cancel(true, true) && !running)
            && (answer == Cancelled(state) <==> call == Cancel(true, true) && running)
            && (answer.Opened? || answer.Cancelled? ==> answer.state == state)
  {
    AnswerAt(calls, i);
    RunTells(calls[..i]);
  }

  // ---------------------------------------------------------------------------------------------
  // Calls and streams together
  // ---------------------------------------------------------------------------------------------

  /** What happens in the process: a call, or a turn of the stream that was opened with some state object. */
  datatype Event = Called(call: Call) | Turned(state: nat, actor: StreamQueue.Actor)

  function Calls(events: seq<Event>): seq<Call> {
    if events == [] then []
    else
      var n := |events| - 1;
      Calls(events[..n]) + (if events[n].Called? then [events[n].call] else [])
  }

  /** What the stream of object `n` sees: its own turns, and its cancel event when a call sets it. */
  ghost function ScheduleOf(events: seq<Event>, n: nat): seq<StreamQueue.Actor> {
    if events == [] then []
    else
      var k := |events| - 1;
      ScheduleOf(events[..k], n) + Seen(Run(Calls(events[..k])).0, events[k], n)
  }

  ghost function Seen(lab: Lab, event: Event, n: nat): seq<StreamQueue.Actor> {
    match event
    case Called(call) => if lab.Step(call).1 == Cancelled(n) then [StreamQueue.Cancel] else []
    case Turned(m, actor) => if m == n && !actor.Cancel? then [actor] else []
  }

  lemma {:induction false} CancelSeenIffCancelled(events: seq<Event>, n: nat)
    ensures StreamQueue.Cancel in ScheduleOf(events, n) <==> n in Run(Calls(events)).0.cancelled
  {
    if events != [] {
      var k := |events| - 1;
      CancelSeenIffCancelled(events[..k], n);
      LabAfter(Calls(events[..k]), events[k]);
      SeenCancels(Run(Calls(events[..k])).0, events[k], n);
    }
  }

  lemma LabAfter(calls: seq<Call>, event: Event)
    ensures var lab, added := Run(calls).0, if event.Called? then [event.call] else [];
            Run(calls + added).0 == if event.Called? then lab.Step(event.call).0 else lab
  {
    if event.Called? {
      assert (calls + [event.call])[..|calls|] == calls;
    } else {
      assert calls + [] == calls;
    }
  }

  lemma SeenCancels(lab: Lab, event: Event, n: nat)
    ensures var after := if event.Called? then lab.Step(event.call).0 else lab;
            n in after.cancelled <==> n in lab.cancelled || StreamQueue.Cancel in Seen(lab, event, n)
  {
  }

  /** A stream's cancel event is set exactly when its schedule set it. */
  lemma {:induction false} CancelledIffScheduled(plan: seq<StreamQueue.Frame>, schedule: seq<StreamQueue.Actor>)
    ensures StreamQueue.Run(plan, schedule).cancelled <==> StreamQueue.Cancel in schedule
  {
    if schedule != [] {
      var n := |schedule| - 1;
      CancelledIffScheduled(plan, schedule[..n]);
      NextCancels(StreamQueue.Run(plan, schedule[..n]), schedule[n]);
      assert schedule == schedule[..n] + [schedule[n]];
    }
  }

  lemma NextCancels(s: StreamQueue.Stream, a: StreamQueue.Actor)
    ensures s.Next(a).cancelled <==> s.cancelled || a.Cancel?
  {
  }

  /**
   * A stream that was not cancelled before its state object was replaced sends its whole plan if it
   * finishes, whatever is called afterwards.
   */
  lemma OldStreamSendsItsPlan(plan: seq<StreamQueue.Frame>, events: seq<Event>, more: seq<Event>, n: nat)
    requires n < Run(Calls(events)).0.current && n !in Run(Calls(events)).0.cancelled
    ensures var s := StreamQueue.Run(plan, ScheduleOf(events + more, n));
            !s.cancelled && (s.consumer.Finished? ==> s.emitted == plan)
  {
    CallsAppend(events, more);
    ResetSettlesOldStreams(Calls(events), Calls(more), n);
    CancelSeenIffCancelled(events + more, n);
    var schedule := ScheduleOf(events + more, n);
    CancelledIffScheduled(plan, schedule);
    if StreamQueue.Run(plan, schedule).consumer.Finished? {
      StreamQueue.FinishedStreamIsWhole(plan, schedule);
    }
  }

  lemma {:induction false} CallsAppend(a: seq<Event>, b: seq<Event>)
    ensures Calls(a + b) == Calls(a) + Calls(b)
    decreases |b|
  {
    if b == [] {
      assert a + b == a;
    } else {
      var n := |b| - 1;
      CallsAppend(a, b[..n]);
      assert (a + b)[..|a| + n] == a + b[..n];
    }
  }
}
