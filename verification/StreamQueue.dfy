/**
 * The bounded streaming queue of apps/p10g_streaming_lab.py: a producer task, a consumer generator
 * and a cancel event over one FIFO, stepped in any order. A step is at most the code between two
 * suspension points of one actor; the client may go away at any suspension point of the consumer.
 */
module StreamQueue {
  import opened Shared

  const QUEUE_LIMIT := 2

  datatype Frame = Frame(kind: Kind, payload: string)

  /** What the queue carries: a planned frame, or the `None` that closes the plan. */
  datatype Slot = Item(frame: Frame) | Sentinel

  const CANCEL_FRAME := Frame(Cancelled, "{\"reason\":\"client_cancelled\"}")

  datatype Consumer =
    | Getting                        // awaiting at 101
    | Yielded(frame: Frame)          // suspended at 125
    | Sleeping                       // awaiting at 129
    | CancelYielded(dropped: Frame)  // suspended at 107, with the frame it took out of the queue
    | Reaping                        // awaiting at 120
    | Joining                        // awaiting at 130
    | Finished                       // the generator returned
    | Aborted                        // closed from outside; the `finally` at 131 has run

  datatype Actor = Producer | Consume | Cancel | Disconnect

  function Script(plan: seq<Frame>): seq<Slot> {
    seq(|plan|, i requires 0 <= i < |plan| => Item(plan[i])) + [Sentinel]
  }

  function Max(a: nat, b: nat): nat {
    if a >= b then a else b
  }

  /** The loop at 110-116: discard until the queue is empty or the sentinel came out. */
  function Drain(queue: seq<Slot>): seq<Slot> {
    if queue == [] then [] else if queue[0].Sentinel? then queue[1..] else Drain(queue[1..])
  }

  datatype Stream = Stream(
    plan: seq<Frame>,
    puts: nat,                   // slots the producer has put
    waiting: bool,               // the producer is inside a put that found the queue full
    stopped: bool,               // the producer task was cancelled
    queue: seq<Slot>,
    gets: nat,                   // slots the consumer has taken in its main loop
    consumer: Consumer,
    cancelled: bool,
    emitted: seq<Frame>,
    pauses: nat,
    maxDepth: nat,
    emittedFrames: nat,
    terminalKind: Option<Kind>,
    drained: bool)
  {
    predicate Enabled(a: Actor) {
      match a
      case Producer => !stopped && puts <= |plan| && (waiting ==> |queue| < QUEUE_LIMIT)
      case Consume =>
        (match consumer
         case Getting => queue != []
         case Joining => puts == |plan| + 1
         case Finished => false
         case Aborted => false
         case _ => true)
      case Cancel => !cancelled
      case Disconnect => !consumer.Finished? && !consumer.Aborted?
    }

    /** Lines 88-91 and 92-95: note the pause and wait, or put the next slot. */
    function Produce(): Stream
      requires puts <= |plan|
    {
      if !waiting && |queue| >= QUEUE_LIMIT then this.(waiting := true, pauses := pauses + 1)
      else this.(
        queue := queue + [Script(plan)[puts]],
        puts := puts + 1,
        waiting := false,
        maxDepth := Max(maxDepth, |queue| + 1))
    }

    /** Lines 101-107 and 124-125: take a slot and act on it. */
    function Take(): Stream
      requires queue != []
    {
      var s := this.(queue := queue[1..], gets := gets + 1);
      match queue[0]
      case Sentinel => s.(drained := true, consumer := Joining)
      case Item(f) =>
        if cancelled then s.(emitted := emitted + [CANCEL_FRAME], consumer := CancelYielded(f))
        else s.(emitted := emitted + [f], consumer := Yielded(f))
    }

    function Step(a: Actor): Stream
      requires Enabled(a)
    {
      match a
      case Producer => Produce()
      case Consume =>
        (match consumer
         case Getting => Take()
         case Yielded(f) =>
           this.(emittedFrames := emittedFrames + 1,
                 terminalKind := if f.kind.Terminal() then Some(f.kind) else terminalKind,
                 consumer := Sleeping)
         case Sleeping => this.(consumer := Getting)
         case CancelYielded(_) =>
           this.(emittedFrames := emittedFrames + 1, terminalKind := Some(Cancelled),
                 queue := Drain(queue), drained := true, stopped := true, consumer := Reaping)
         case Reaping => this.(consumer := Finished)
         case Joining => this.(consumer := Finished))
      case Cancel => this.(cancelled := true)
      // the handler at 121 swallows a cancellation that arrives at 120
      case Disconnect => this.(stopped := true, consumer := if consumer.Reaping? then Finished else Aborted)
    }

    /** A step that is not enabled leaves the actor where it is. */
    function Next(a: Actor): Stream {
      if Enabled(a) then Step(a) else this
    }
  }

  function Opened(plan: seq<Frame>): Stream {
    Stream(plan, 0, false, false, [], 0, Getting, false, [], 0, 0, 0, None, false)
  }

  function Run(plan: seq<Frame>, schedule: seq<Actor>): Stream {
    if schedule == [] then Opened(plan)
    else Run(plan, schedule[..|schedule| - 1]).Next(schedule[|schedule| - 1])
  }

  // ---------------------------------------------------------------------------------------------
  // The invariant of every schedule
  // ---------------------------------------------------------------------------------------------

  /** Frames out after `gets` takes when the last of them was met by the cancel event. */
  ghost predicate CutShort(s: Stream) {
    1 <= s.gets <= |s.plan| && s.emitted == s.plan[..s.gets - 1] + [CANCEL_FRAME]
  }

  ghost predicate InOrder(s: Stream) {
    s.gets <= s.puts <= |s.plan| + 1 && s.queue == Script(s.plan)[s.gets..s.puts]
  }

  ghost predicate Flowing(s: Stream) {
    InOrder(s) && s.gets <= |s.plan| && s.emitted == s.plan[..s.gets] && !s.stopped && !s.drained
  }

  ghost predicate ConsumerInvariant(s: Stream) {
    match s.consumer
    case Getting => Flowing(s)
    case Yielded(f) => Flowing(s) && s.gets > 0 && f == s.plan[s.gets - 1]
    case Sleeping => Flowing(s)
    case CancelYielded(f) =>
      InOrder(s) && CutShort(s) && f == s.plan[s.gets - 1] && !s.stopped && !s.drained && s.cancelled
    case Reaping => CutShort(s) && s.stopped && s.drained && s.queue == [] && s.cancelled
    case Joining => s.emitted == s.plan && s.gets == s.puts == |s.plan| + 1 && !s.stopped && s.drained && s.queue == []
    case Finished =>
      && s.drained && s.queue == []
      && (s.stopped ==> CutShort(s) && s.cancelled)
      && (!s.stopped ==> s.emitted == s.plan && s.gets == s.puts == |s.plan| + 1)
    case Aborted =>
      && s.stopped && (s.drained ==> s.queue == [])
      && (CutShort(s) || (s.gets <= |s.plan| && s.emitted == s.plan[..s.gets]) || s.emitted == s.plan)
  }

  ghost predicate CounterInvariant(s: Stream) {
    && s.puts <= |s.plan| + 1 && s.gets <= |s.plan| + 1
    && |s.queue| <= QUEUE_LIMIT && s.maxDepth <= QUEUE_LIMIT
    && s.pauses <= s.puts + (if s.waiting then 1 else 0)
    && (s.waiting ==> s.puts <= |s.plan|)
    && (!s.consumer.Aborted? ==>
          |s.emitted| == s.emittedFrames + (if s.consumer.Yielded? || s.consumer.CancelYielded? then 1 else 0))
    && s.emittedFrames <= |s.emitted| <= s.emittedFrames + 1
  }

  ghost predicate Invariant(s: Stream) {
    ConsumerInvariant(s) && CounterInvariant(s)
  }

  lemma ScriptSlices(plan: seq<Frame>, i: nat, j: nat)
    requires i <= j <= |plan|
    ensures Script(plan)[i..j + 1] == Script(plan)[i..j] + [Script(plan)[j]]
    ensures i < j ==> Script(plan)[i..j][0] == Item(plan[i]) && Script(plan)[i..j][1..] == Script(plan)[i + 1..j]
  {
  }

  /** The sentinel is only ever last, so draining any stretch of the script empties it. */
  lemma {:induction false} DrainEmpties(plan: seq<Frame>, i: nat, j: nat)
    requires i <= j <= |plan| + 1
    ensures Drain(Script(plan)[i..j]) == []
    decreases j - i
  {
    var q := Script(plan)[i..j];
    if i < j {
      assert q[1..] == Script(plan)[i + 1..j];
      if i < |plan| {
        assert q[0] == Item(plan[i]);
        DrainEmpties(plan, i + 1, j);
      } else {
        assert j == i + 1;
      }
    }
  }

  lemma ProduceKeepsInvariant(s: Stream)
    requires Invariant(s) && s.Enabled(Producer)
    ensures Invariant(s.Produce())
  {
    if s.waiting || |s.queue| < QUEUE_LIMIT {
      if s.consumer.Getting? || s.consumer.Yielded? || s.consumer.Sleeping? || s.consumer.CancelYielded? {
        ScriptSlices(s.plan, s.gets, s.puts);
      }
    }
  }

  lemma TakeKeepsInvariant(s: Stream)
    requires Invariant(s) && s.consumer.Getting? && s.queue != []
    ensures Invariant(s.Take())
  {
    var script, q := Script(s.plan), s.queue;
    assert q[0] == script[s.gets] && q[1..] == script[s.gets + 1..s.puts];
    if s.gets < |s.plan| {
      assert s.plan[..s.gets + 1] == s.plan[..s.gets] + [s.plan[s.gets]];
    } else {
      assert s.plan[..s.gets] == s.plan;
    }
  }

  lemma StepKeepsInvariant(s: Stream, a: Actor)
    requires Invariant(s) && s.Enabled(a)
    ensures Invariant(s.Step(a))
  {
    match a
    case Producer => ProduceKeepsInvariant(s);
    case Consume =>
      if s.consumer.Getting? {
        TakeKeepsInvariant(s);
      } else if s.consumer.CancelYielded? {
        DrainEmpties(s.plan, s.gets, s.puts);
      }
    case Cancel =>
    case Disconnect =>
  }

  lemma StepKeepsPlan(s: Stream, a: Actor)
    requires s.Enabled(a)
    ensures s.Step(a).plan == s.plan
  {
  }

  lemma {:induction false} RunKeepsInvariant(plan: seq<Frame>, schedule: seq<Actor>)
    ensures Invariant(Run(plan, schedule)) && Run(plan, schedule).plan == plan
  {
    if schedule != [] {
      var n := |schedule| - 1;
      RunKeepsInvariant(plan, schedule[..n]);
      var s := Run(plan, schedule[..n]);
      if s.Enabled(schedule[n]) {
        StepKeepsInvariant(s, schedule[n]);
        StepKeepsPlan(s, schedule[n]);
      }
    } else {
      assert Script(plan)[0..0] == [];
    }
  }

  // ---------------------------------------------------------------------------------------------
  // What every schedule emits
  // ---------------------------------------------------------------------------------------------

  /** A proper prefix of the plan, then the cancel frame. */
  ghost predicate CancelledPrefix(plan: seq<Frame>, out: seq<Frame>) {
    exists k :: 0 <= k < |plan| && out == plan[..k] + [CANCEL_FRAME]
  }

  /** A normally finished stream emits the whole plan, or a proper prefix of it and then CANCELLED. */
  lemma FinishedStreamIsWhole(plan: seq<Frame>, schedule: seq<Actor>)
    requires Run(plan, schedule).consumer.Finished?
    ensures var s := Run(plan, schedule);
            && (s.emitted == plan || (s.cancelled && CancelledPrefix(plan, s.emitted)))
            && s.emittedFrames == |s.emitted| && s.queue == [] && s.drained
  {
    RunKeepsInvariant(plan, schedule);
    var s := Run(plan, schedule);
    if s.stopped {
      assert s.emitted == plan[..s.gets - 1] + [CANCEL_FRAME];
    }
  }

  /** At every moment, aborted or not, what is out is a prefix of one of those. */
  lemma EveryStreamIsAPrefix(plan: seq<Frame>, schedule: seq<Actor>)
    ensures var out := Run(plan, schedule).emitted;
            out <= plan || CancelledPrefix(plan, out)
  {
    RunKeepsInvariant(plan, schedule);
    var s := Run(plan, schedule);
    if CutShort(s) {
      assert s.emitted == plan[..s.gets - 1] + [CANCEL_FRAME];
    }
  }

  /** A plan in the form `_plan` has: its last frame, and only that one, is terminal. */
  ghost predicate Planned(plan: seq<Frame>) {
    plan != [] && plan[|plan| - 1].kind.Terminal() && forall i :: 0 <= i < |plan| - 1 ==> !plan[i].kind.Terminal()
  }

  /** `terminalKind` reports the terminal frame the consumer has got past, and nothing before that. */
  ghost predicate TerminalKnown(s: Stream)
    requires s.plan != []
  {
    match s.consumer
    case Aborted => true
    case Reaping => s.terminalKind == Some(Cancelled)
    case Finished => s.terminalKind == if s.stopped then Some(Cancelled) else Some(s.plan[|s.plan| - 1].kind)
    case _ => s.terminalKind == if s.emittedFrames == |s.plan| then Some(s.plan[|s.plan| - 1].kind) else None
  }

  lemma StepKeepsTerminal(s: Stream, a: Actor)
    requires Invariant(s) && Planned(s.plan) && s.Enabled(a) && TerminalKnown(s)
    ensures s.Step(a).plan == s.plan && TerminalKnown(s.Step(a))
  {
    if a.Consume? {
      match s.consumer
      case Yielded(f) => assert s.emittedFrames + 1 == s.gets;
      case _ =>
    }
  }

  lemma {:induction false} RunKeepsTerminal(plan: seq<Frame>, schedule: seq<Actor>)
    requires Planned(plan)
    ensures Run(plan, schedule).plan == plan && TerminalKnown(Run(plan, schedule))
  {
    if schedule != [] {
      var n := |schedule| - 1;
      RunKeepsTerminal(plan, schedule[..n]);
      RunKeepsInvariant(plan, schedule[..n]);
      if Run(plan, schedule[..n]).Enabled(schedule[n]) {
        StepKeepsTerminal(Run(plan, schedule[..n]), schedule[n]);
      }
    }
  }

  ghost predicate OneTerminal(out: seq<Frame>) {
    out != [] && forall i :: 0 <= i < |out| ==> (out[i].kind.Terminal() <==> i == |out| - 1)
  }

  lemma CancelledPrefixHasOneTerminal(plan: seq<Frame>, k: nat)
    requires Planned(plan) && k < |plan|
    ensures OneTerminal(plan[..k] + [CANCEL_FRAME])
  {
  }

  /** A finished stream ends in exactly one terminal frame, with nothing after it, and reports its kind. */
  lemma FinishedStreamHasOneTerminal(plan: seq<Frame>, schedule: seq<Actor>)
    requires Planned(plan) && Run(plan, schedule).consumer.Finished?
    ensures var s := Run(plan, schedule);
            OneTerminal(s.emitted) && s.terminalKind == Some(s.emitted[|s.emitted| - 1].kind)
  {
    RunKeepsTerminal(plan, schedule);
    RunKeepsInvariant(plan, schedule);
    FinishedHasOneTerminal(Run(plan, schedule));
  }

  lemma FinishedHasOneTerminal(s: Stream)
    requires ConsumerInvariant(s) && Planned(s.plan) && TerminalKnown(s) && s.consumer.Finished?
    ensures OneTerminal(s.emitted) && s.terminalKind == Some(s.emitted[|s.emitted| - 1].kind)
  {
    if s.stopped {
      CancelledPrefixHasOneTerminal(s.plan, s.gets - 1);
    }
  }

  /** At some moment the cancel event was set and the last planned frame not yet taken. */
  ghost predicate CancelledInTime(plan: seq<Frame>, schedule: seq<Actor>) {
    exists k :: 0 <= k <= |schedule| && Run(plan, schedule[..k]).cancelled && Run(plan, schedule[..k]).gets < |plan|
  }

  lemma InTimeSnoc(plan: seq<Frame>, schedule: seq<Actor>)
    requires schedule != []
    ensures var s := Run(plan, schedule);
            CancelledInTime(plan, schedule) <==>
              CancelledInTime(plan, schedule[..|schedule| - 1]) || (s.cancelled && s.gets < |plan|)
  {
    var n := |schedule| - 1;
    assert schedule[..n + 1] == schedule;
    assert forall k :: 0 <= k <= n ==> schedule[..n][..k] == schedule[..k];
    if CancelledInTime(plan, schedule[..n]) {
      var k :| 0 <= k <= n && Run(plan, schedule[..n][..k]).cancelled && Run(plan, schedule[..n][..k]).gets < |plan|;
      assert Run(plan, schedule[..k]).cancelled;
    }
  }

  /** What the consumer may be doing, depending on whether the event came in time. */
  ghost predicate Timed(s: Stream, inTime: bool) {
    if inTime then
      && s.cancelled && !s.consumer.Joining? && (s.consumer.Finished? ==> s.stopped)
      && (s.consumer.Getting? || s.consumer.Yielded? || s.consumer.Sleeping? ==> s.gets < |s.plan|)
    else
      && !s.consumer.CancelYielded? && !s.consumer.Reaping? && (s.consumer.Finished? ==> !s.stopped)
      && (s.cancelled ==> s.gets >= |s.plan|)
  }

  lemma NextKeepsTimed(s: Stream, a: Actor, inTime: bool)
    requires Invariant(s) && Timed(s, inTime)
    ensures var t := s.Next(a);
            Timed(t, inTime || (t.cancelled && t.gets < |t.plan|))
  {
    if a.Consume? && s.Enabled(a) && s.consumer.Getting? {
      assert s.queue[0] == Script(s.plan)[s.gets];
    }
  }

  lemma {:induction false} RunKeepsTimed(plan: seq<Frame>, schedule: seq<Actor>)
    ensures Timed(Run(plan, schedule), CancelledInTime(plan, schedule)) && Run(plan, schedule).plan == plan
  {
    RunKeepsInvariant(plan, schedule);
    if schedule == [] {
      assert schedule[..0] == [];
    } else {
      var n := |schedule| - 1;
      RunKeepsTimed(plan, schedule[..n]);
      RunKeepsInvariant(plan, schedule[..n]);
      NextKeepsTimed(Run(plan, schedule[..n]), schedule[n], CancelledInTime(plan, schedule[..n]));
      InTimeSnoc(plan, schedule);
    }
  }

  /**
   * Which ending a finished stream has: it is cut short with CANCELLED if the event was set before
   * the last planned frame was taken, and whole if not, even when the event was set later.
   */
  lemma FinishedStreamCancelledIff(plan: seq<Frame>, schedule: seq<Actor>)
    requires Run(plan, schedule).consumer.Finished?
    ensures if CancelledInTime(plan, schedule) then CancelledPrefix(plan, Run(plan, schedule).emitted)
            else Run(plan, schedule).emitted == plan
    ensures Planned(plan) && plan[|plan| - 1].kind.Final? ==>
              (Run(plan, schedule).terminalKind == Some(Cancelled) <==> CancelledInTime(plan, schedule))
  {
    RunKeepsInvariant(plan, schedule);
    RunKeepsTimed(plan, schedule);
    var s := Run(plan, schedule);
    if s.stopped {
      assert s.emitted == plan[..s.gets - 1] + [CANCEL_FRAME];
    }
    if Planned(plan) {
      RunKeepsTerminal(plan, schedule);
    }
  }

  // ---------------------------------------------------------------------------------------------
  // Conservation, bounds and the cancel event
  // ---------------------------------------------------------------------------------------------

  function Items(frames: seq<Frame>): seq<Slot> {
    seq(|frames|, i requires 0 <= i < |frames| => Item(frames[i]))
  }

  /** The planned frames that are out, and the one the consumer took but will not send. */
  ghost function Sent(s: Stream): seq<Frame> {
    if s.consumer.CancelYielded? && s.emitted != [] then s.emitted[..|s.emitted| - 1] else s.emitted
  }

  ghost function InHand(s: Stream): seq<Slot> {
    if s.consumer.CancelYielded? then [Item(s.consumer.dropped)] else []
  }

  /** Until the queue is drained or the client leaves, nothing planned is lost, repeated or reordered. */
  lemma NothingIsLost(plan: seq<Frame>, schedule: seq<Actor>)
    requires !Run(plan, schedule).drained && !Run(plan, schedule).consumer.Aborted?
    ensures var s := Run(plan, schedule);
            && s.puts <= |plan| + 1
            && Items(Sent(s)) + InHand(s) + s.queue + Script(plan)[s.puts..] == Script(plan)
  {
    RunKeepsInvariant(plan, schedule);
    var s := Run(plan, schedule);
    TakenAccountedFor(s);
    CutTwice(Script(plan), s.gets, s.puts);
  }

  lemma CutTwice(script: seq<Slot>, i: nat, j: nat)
    requires i <= j <= |script|
    ensures script[..i] + script[i..j] + script[j..] == script
  {
  }

  lemma TakenAccountedFor(s: Stream)
    requires ConsumerInvariant(s) && !s.drained && !s.consumer.Aborted?
    ensures InOrder(s) && s.gets <= |s.plan| && Items(Sent(s)) + InHand(s) == Script(s.plan)[..s.gets]
  {
    if s.consumer.CancelYielded? {
      assert Sent(s) == s.plan[..s.gets - 1];
    } else {
      assert Items(Sent(s)) + [] == Items(Sent(s));
    }
  }

  /** Depth, puts, gets and pauses are bounded in every schedule. */
  lemma QueueStaysBounded(plan: seq<Frame>, schedule: seq<Actor>)
    ensures var s := Run(plan, schedule);
            && |s.queue| <= QUEUE_LIMIT && s.maxDepth <= QUEUE_LIMIT
            && s.puts <= |plan| + 1 && s.gets <= |plan| + 1 && s.pauses <= |plan| + 1
  {
    RunKeepsInvariant(plan, schedule);
  }

  lemma StepAfterDrain(s: Stream, a: Actor)
    requires Invariant(s) && s.drained && s.Enabled(a)
    ensures s.Step(a).drained && s.Step(a).queue == [] && s.Step(a).emitted == s.emitted
  {
  }

  lemma RunPrefix(plan: seq<Frame>, schedule: seq<Actor>, k: nat)
    requires k < |schedule|
    ensures schedule[..|schedule| - 1][..k] == schedule[..k]
  {
  }

  /** Once `queue_drained` is set the queue is empty, and it stays so. */
  lemma {:induction false} DrainedStaysEmpty(plan: seq<Frame>, schedule: seq<Actor>, k: nat)
    requires k <= |schedule| && Run(plan, schedule[..k]).drained
    ensures Run(plan, schedule).drained && Run(plan, schedule).queue == []
    decreases |schedule|
  {
    RunKeepsInvariant(plan, schedule);
    if k == |schedule| {
      assert schedule[..k] == schedule;
    } else {
      var n := |schedule| - 1;
      RunPrefix(plan, schedule, k);
      DrainedStaysEmpty(plan, schedule[..n], k);
      RunKeepsInvariant(plan, schedule[..n]);
      if Run(plan, schedule[..n]).Enabled(schedule[n]) {
        StepAfterDrain(Run(plan, schedule[..n]), schedule[n]);
      }
    }
  }

  /** The consumer is past its last emission. */
  ghost predicate Sealed(s: Stream) {
    s.consumer.CancelYielded? || s.consumer.Reaping? || s.consumer.Finished? || s.consumer.Aborted?
  }

  lemma StepAfterCancel(s: Stream, a: Actor)
    requires s.cancelled && s.Enabled(a)
    ensures var t := s.Step(a);
            && t.cancelled && (Sealed(s) ==> Sealed(t) && t.emitted == s.emitted)
            && (t.emitted == s.emitted || (t.emitted == s.emitted + [CANCEL_FRAME] && Sealed(t)))
  {
  }

  /** From the moment the cancel event is set, at most one more frame goes out, and it is CANCELLED. */
  lemma {:induction false} NothingAfterCancel(plan: seq<Frame>, schedule: seq<Actor>, k: nat)
    requires k <= |schedule| && Run(plan, schedule[..k]).cancelled
    ensures var before, s := Run(plan, schedule[..k]).emitted, Run(plan, schedule);
            && s.cancelled
            && (s.emitted == before || (s.emitted == before + [CANCEL_FRAME] && Sealed(s)))
    decreases |schedule|
  {
    if k == |schedule| {
      assert schedule[..k] == schedule;
    } else {
      var n := |schedule| - 1;
      RunPrefix(plan, schedule, k);
      NothingAfterCancel(plan, schedule[..n], k);
      if Run(plan, schedule[..n]).Enabled(schedule[n]) {
        StepAfterCancel(Run(plan, schedule[..n]), schedule[n]);
      }
    }
  }

  // ---------------------------------------------------------------------------------------------
  // The counters
  // ---------------------------------------------------------------------------------------------

  /** The producer is given a turn, has something to put, and finds the queue full. */
  ghost predicate FoundFull(s: Stream, a: Actor) {
    a == Producer && s.puts <= |s.plan| && !s.waiting && !s.stopped && |s.queue| == QUEUE_LIMIT
  }

  ghost predicate PausedAt(plan: seq<Frame>, schedule: seq<Actor>, k: nat)
    requires k < |schedule|
  {
    FoundFull(Run(plan, schedule[..k]), schedule[k])
  }

  /** The turns of a schedule at which that happens. */
  ghost function Pauses(plan: seq<Frame>, schedule: seq<Actor>): set<nat> {
    set k | 0 <= k < |schedule| && PausedAt(plan, schedule, k)
  }

  lemma PausesSnoc(plan: seq<Frame>, schedule: seq<Actor>)
    requires schedule != []
    ensures var n := |schedule| - 1;
            var prior := schedule[..n];
            && Pauses(plan, schedule) == Pauses(plan, prior) + (if PausedAt(plan, schedule, n) then {n} else {})
            && n !in Pauses(plan, prior)
  {
    var n := |schedule| - 1;
    forall k | 0 <= k < n
      ensures PausedAt(plan, schedule[..n], k) <==> PausedAt(plan, schedule, k)
    {
      assert schedule[..n][..k] == schedule[..k];
    }
  }

  lemma NextPauses(s: Stream, a: Actor)
    requires |s.queue| <= QUEUE_LIMIT
    ensures s.Next(a).pauses == s.pauses + if FoundFull(s, a) then 1 else 0
  {
  }

  /** In every schedule, `producer_pause_count` is the number of turns at which the producer found the queue full. */
  lemma {:induction false} PausesAreCounted(plan: seq<Frame>, schedule: seq<Actor>)
    ensures Run(plan, schedule).pauses == |Pauses(plan, schedule)|
  {
    if schedule != [] {
      var n := |schedule| - 1;
      PausesAreCounted(plan, schedule[..n]);
      PausesSnoc(plan, schedule);
      RunKeepsInvariant(plan, schedule[..n]);
      NextPauses(Run(plan, schedule[..n]), schedule[n]);
    }
  }

  /** Nothing was put between action `k` and action `n`. */
  ghost predicate NoPutSince(plan: seq<Frame>, schedule: seq<Actor>, k: nat)
    requires k <= |schedule|
  {
    forall l :: k <= l <= |schedule| ==> Run(plan, schedule[..l]).puts == Run(plan, schedule).puts
  }

  lemma NextWaits(s: Stream, a: Actor)
    requires |s.queue| <= QUEUE_LIMIT
    ensures s.Next(a).waiting <==> FoundFull(s, a) || (s.waiting && s.Next(a).puts == s.puts)
    ensures s.puts <= s.Next(a).puts
  {
  }

  /** The producer waits exactly from such a turn to the put that ends it. */
  lemma {:induction false} WaitsSinceItFoundFull(plan: seq<Frame>, schedule: seq<Actor>)
    ensures Run(plan, schedule).waiting <==> exists k :: k in Pauses(plan, schedule) && NoPutSince(plan, schedule, k)
  {
    if schedule != [] {
      var n := |schedule| - 1;
      var prior := schedule[..n];
      WaitsSinceItFoundFull(plan, prior);
      PausesSnoc(plan, schedule);
      RunKeepsInvariant(plan, prior);
      NextWaits(Run(plan, prior), schedule[n]);
      forall k | 0 <= k <= n
        ensures NoPutSince(plan, schedule, k) <==>
            NoPutSince(plan, prior, k) && Run(plan, schedule).puts == Run(plan, prior).puts
      {
        NoPutSnoc(plan, schedule, k);
      }
      if FoundFull(Run(plan, prior), schedule[n]) {
        NoPutAtAll(plan, prior);
        assert NoPutSince(plan, schedule, n);
      }
    }
  }

  lemma NoPutSnoc(plan: seq<Frame>, schedule: seq<Actor>, k: nat)
    requires k < |schedule|
    ensures var prior := schedule[..|schedule| - 1];
            NoPutSince(plan, schedule, k) <==>
              NoPutSince(plan, prior, k) && Run(plan, schedule).puts == Run(plan, prior).puts
  {
    var n := |schedule| - 1;
    assert schedule[..n + 1] == schedule;
    assert forall l :: 0 <= l <= n ==> schedule[..n][..l] == schedule[..l];
    if NoPutSince(plan, schedule, k) {
      assert Run(plan, schedule[..n]).puts == Run(plan, schedule).puts;
      forall l | k <= l <= n
        ensures Run(plan, schedule[..n][..l]).puts == Run(plan, schedule[..n]).puts
      {
        assert Run(plan, schedule[..l]).puts == Run(plan, schedule).puts;
      }
    }
    if NoPutSince(plan, schedule[..n], k) && Run(plan, schedule).puts == Run(plan, schedule[..n]).puts {
      forall l | k <= l <= n + 1
        ensures Run(plan, schedule[..l]).puts == Run(plan, schedule).puts
      {
        if l <= n {
          assert Run(plan, schedule[..n][..l]).puts == Run(plan, schedule[..n]).puts;
        }
      }
    }
  }

  lemma NoPutAtAll(plan: seq<Frame>, schedule: seq<Actor>)
    ensures NoPutSince(plan, schedule, |schedule|)
  {
    assert schedule[..|schedule|] == schedule;
  }

  /** `max_queue_depth` is the greatest depth that the queue ever had, and it had it. */
  lemma {:induction false} MaxDepthIsAttained(plan: seq<Frame>, schedule: seq<Actor>)
    ensures forall k :: 0 <= k <= |schedule| ==> |Run(plan, schedule[..k]).queue| <= Run(plan, schedule).maxDepth
    ensures exists k :: 0 <= k <= |schedule| && |Run(plan, schedule[..k]).queue| == Run(plan, schedule).maxDepth
  {
    assert schedule[..|schedule|] == schedule;
    if schedule == [] {
      assert |Run(plan, schedule[..0]).queue| == Run(plan, schedule).maxDepth;
    } else {
      var n := |schedule| - 1;
      MaxDepthIsAttained(plan, schedule[..n]);
      assert forall k :: 0 <= k <= n ==> schedule[..n][..k] == schedule[..k];
      var s := Run(plan, schedule[..n]);
      NextDepth(s, schedule[n]);
      var k :| 0 <= k <= n && |Run(plan, schedule[..n][..k]).queue| == s.maxDepth;
      assert |Run(plan, schedule[..k]).queue| == s.maxDepth;
      DepthsBelow(plan, schedule);
    }
  }

  lemma DepthsBelow(plan: seq<Frame>, schedule: seq<Actor>)
    requires schedule != []
    requires var n := |schedule| - 1;
             var s := Run(plan, schedule[..n]);
             && (forall k :: 0 <= k <= n ==> |Run(plan, schedule[..n][..k]).queue| <= s.maxDepth)
             && s.maxDepth <= Run(plan, schedule).maxDepth
                  && |Run(plan, schedule).queue| <= Run(plan, schedule).maxDepth
    ensures forall k :: 0 <= k <= |schedule| ==> |Run(plan, schedule[..k]).queue| <= Run(plan, schedule).maxDepth
  {
    var n := |schedule| - 1;
    forall k | 0 <= k <= |schedule|
      ensures |Run(plan, schedule[..k]).queue| <= Run(plan, schedule).maxDepth
    {
      if k <= n {
        assert schedule[..n][..k] == schedule[..k];
      } else {
        assert schedule[..k] == schedule;
      }
    }
  }

  lemma {:induction false} DrainShrinks(queue: seq<Slot>)
    ensures |Drain(queue)| <= |queue|
    decreases |queue|
  {
    if queue != [] {
      DrainShrinks(queue[1..]);
    }
  }

  lemma NextDepth(s: Stream, a: Actor)
    requires |s.queue| <= s.maxDepth
    ensures var t := s.Next(a);
            && |t.queue| <= t.maxDepth && s.maxDepth <= t.maxDepth
            && (t.maxDepth == s.maxDepth || t.maxDepth == |t.queue|)
  {
    DrainShrinks(s.queue);
  }

  // ---------------------------------------------------------------------------------------------
  // Termination and progress
  // ---------------------------------------------------------------------------------------------

  /** Work left: every enabled step of any actor uses some of it up. */
  ghost function Work(s: Stream): int {
    ProducerWork(s) + ConsumerWork(s) + (if s.cancelled then 0 else 1)
  }

  ghost function ProducerWork(s: Stream): int {
    if s.stopped then 0 else 2 * (|s.plan| + 1 - s.puts) - (if s.waiting then 1 else 0)
  }

  ghost function ConsumerWork(s: Stream): int {
    var n := |s.plan| + 1;
    match s.consumer
    case Getting => 3 * (n - s.gets) + 5
    case Yielded(_) => 3 * (n - s.gets) + 7
    case Sleeping => 3 * (n - s.gets) + 6
    case CancelYielded(_) => 3
    case Reaping => 1
    case Joining => 1
    case Finished => 0
    case Aborted => 0
  }

  lemma StepUsesWork(s: Stream, a: Actor)
    requires Invariant(s) && s.Enabled(a)
    ensures 0 <= Work(s.Step(a)) < Work(s)
  {
    match a
    case Producer => assert s.Produce().consumer == s.consumer;
    case Consume =>
      if s.consumer.Getting? {
        TakeUsesWork(s);
      }
    case Cancel =>
    case Disconnect => assert ProducerWork(s) >= 0;
  }

  lemma TakeUsesWork(s: Stream)
    requires Invariant(s) && s.consumer.Getting? && s.queue != []
    ensures 0 <= Work(s.Take()) < Work(s)
  {
    assert s.gets < s.puts;
  }

  /** Steps of a schedule that actually did something. */
  ghost function Effective(plan: seq<Frame>, schedule: seq<Actor>): nat {
    if schedule == [] then 0
    else
      var n := |schedule| - 1;
      Effective(plan, schedule[..n]) + (if Run(plan, schedule[..n]).Enabled(schedule[n]) then 1 else 0)
  }

  /** Every schedule runs out of work: at most 5|plan| + 11 of its steps have an effect. */
  lemma {:induction false} SchedulesTerminate(plan: seq<Frame>, schedule: seq<Actor>)
    ensures 0 <= Work(Run(plan, schedule)) <= 5 * |plan| + 11 - Effective(plan, schedule)
  {
    if schedule != [] {
      var n := |schedule| - 1;
      SchedulesTerminate(plan, schedule[..n]);
      RunKeepsInvariant(plan, schedule[..n]);
      if Run(plan, schedule[..n]).Enabled(schedule[n]) {
        StepUsesWork(Run(plan, schedule[..n]), schedule[n]);
      }
    }
  }

  /** No schedule deadlocks: until the generator is over, the producer or the consumer can move. */
  lemma NoDeadlock(plan: seq<Frame>, schedule: seq<Actor>)
    ensures var s := Run(plan, schedule);
            s.Enabled(Producer) || s.Enabled(Consume) || Ended(s)
  {
    RunKeepsInvariant(plan, schedule);
    SomeoneCanMove(Run(plan, schedule));
  }

  ghost predicate Ended(s: Stream) {
    s.consumer.Finished? || s.consumer.Aborted?
  }

  /** The state after some more turns. */
  ghost function After(s: Stream, turns: seq<Actor>): Stream
    decreases |turns|
  {
    if turns == [] then s else After(s.Next(turns[0]), turns[1..])
  }

  lemma {:induction false} AfterAppend(s: Stream, a: seq<Actor>, b: seq<Actor>)
    ensures After(s, a + b) == After(After(s, a), b)
    decreases |a|
  {
    if a == [] {
      assert a + b == b;
    } else {
      AfterAppend(s.Next(a[0]), a[1..], b);
      assert (a + b)[1..] == a[1..] + b;
    }
  }

  lemma {:induction false} RunIsAfter(plan: seq<Frame>, schedule: seq<Actor>)
    ensures Run(plan, schedule) == After(Opened(plan), schedule)
  {
    if schedule != [] {
      var n := |schedule| - 1;
      RunIsAfter(plan, schedule[..n]);
      AfterAppend(Opened(plan), schedule[..n], [schedule[n]]);
      assert schedule[..n] + [schedule[n]] == schedule && [schedule[n]][1..] == [];
    }
  }

  /** One turn keeps the invariant and the end, and uses up work when it does anything. */
  lemma TurnProgresses(s: Stream, a: Actor)
    requires Invariant(s)
    ensures var t := s.Next(a);
            && Invariant(t) && (Ended(s) ==> Ended(t))
            && (if s.Enabled(a) then Work(t) < Work(s) else t == s)
  {
    if s.Enabled(a) {
      StepKeepsInvariant(s, a);
      StepUsesWork(s, a);
    }
  }

  /** Some turns end the stream, use up work, or contain nobody who could move. */
  lemma {:induction false} TurnsProgress(s: Stream, turns: seq<Actor>)
    requires Invariant(s)
    ensures var t := After(s, turns);
            && Invariant(t) && (Ended(s) ==> Ended(t)) && Work(t) <= Work(s)
            && (Work(t) < Work(s) || forall a :: a in turns ==> !s.Enabled(a))
    decreases |turns|
  {
    if turns != [] {
      TurnProgresses(s, turns[0]);
      TurnsProgress(s.Next(turns[0]), turns[1..]);
      assert forall a :: a in turns <==> a == turns[0] || a in turns[1..];
    }
  }

  /** The rounds of a schedule, end to end. */
  ghost function Flatten(rounds: seq<seq<Actor>>): seq<Actor> {
    if rounds == [] then [] else rounds[0] + Flatten(rounds[1..])
  }

  /** In every round the producer and the consumer each get a turn; cancel and disconnect may come any time. */
  ghost predicate Fair(rounds: seq<seq<Actor>>) {
    forall i :: 0 <= i < |rounds| ==> Producer in rounds[i] && Consume in rounds[i]
  }

  lemma SomeoneCanMove(s: Stream)
    requires Invariant(s)
    ensures s.Enabled(Producer) || s.Enabled(Consume) || Ended(s)
  {
    if s.consumer.Getting? && s.queue == [] {
      assert s.gets == s.puts;
    }
  }

  lemma {:induction false} RoundsEnd(s: Stream, rounds: seq<seq<Actor>>)
    requires Invariant(s) && Fair(rounds) && |rounds| >= Work(s)
    ensures Ended(After(s, Flatten(rounds)))
    decreases |rounds|
  {
    if rounds == [] {
      NoWorkMeansEnded(s);
    } else {
      var t := After(s, rounds[0]);
      SomeoneCanMove(s);
      TurnsProgress(s, rounds[0]);
      AfterAppend(s, rounds[0], Flatten(rounds[1..]));
      if Ended(s) {
        TurnsProgress(t, Flatten(rounds[1..]));
      } else {
        RoundsEnd(t, rounds[1..]);
      }
    }
  }

  lemma NoWorkMeansEnded(s: Stream)
    requires Invariant(s) && Work(s) <= 0
    ensures Ended(s)
  {
  }

  /**
   * From every reachable state, whatever the other actors do, 5|plan| + 11 rounds in which producer
   * and consumer each get a turn bring the generator to its end.
   */
  lemma FairSchedulesEnd(plan: seq<Frame>, schedule: seq<Actor>, rounds: seq<seq<Actor>>)
    requires Fair(rounds) && |rounds| >= 5 * |plan| + 11
    ensures Ended(Run(plan, schedule + Flatten(rounds)))
  {
    RunKeepsInvariant(plan, schedule);
    SchedulesTerminate(plan, schedule);
    RoundsEnd(Run(plan, schedule), rounds);
    RunIsAfter(plan, schedule);
    RunIsAfter(plan, schedule + Flatten(rounds));
    AfterAppend(Opened(plan), schedule, Flatten(rounds));
  }

  // ---------------------------------------------------------------------------------------------
  // The actors as code
  // ---------------------------------------------------------------------------------------------

  class LabStream {
    const plan: seq<Frame>
    var puts: nat
    var waiting: bool
    var stopped: bool
    var queue: seq<Slot>
    var gets: nat
    var consumer: Consumer
    var cancelled: bool
    var emitted: seq<Frame>
    var pauses: nat
    var maxDepth: nat
    var emittedFrames: nat
    var terminalKind: Option<Kind>
    var drained: bool

    ghost function View(): Stream
      reads this
    {
      Stream(plan, puts, waiting, stopped, queue, gets, consumer, cancelled, emitted, pauses, maxDepth, emittedFrames,
        terminalKind, drained)
    }

    constructor (plan: seq<Frame>)
      ensures View() == Opened(plan)
    {
      this.plan := plan;
      puts, waiting, stopped, queue, gets := 0, false, false, [], 0;
      consumer, cancelled, emitted := Getting, false, [];
      pauses, maxDepth, emittedFrames, terminalKind, drained := 0, 0, 0, None, false;
    }

    /** Lines 86-95, up to the next suspension point. */
    method Produce()
      requires View().Enabled(Producer)
      modifies this
      ensures View() == old(View()).Step(Producer)
    {
      if !waiting && |queue| >= QUEUE_LIMIT {
        waiting, pauses := true, pauses + 1;
        return;
      }
      queue := queue + [if puts < |plan| then Item(plan[puts]) else Sentinel];
      puts, waiting := puts + 1, false;
      maxDepth := Max(maxDepth, |queue|);
    }

    /** Lines 110-118: empty the queue, then cancel the producer. */
    method DrainQueue()
      modifies this
      ensures View() == old(View()).(queue := Drain(old(queue)), drained := true, stopped := true)
    {
      while queue != []
        invariant View() == old(View()).(queue := queue)
        invariant Drain(queue) == Drain(old(queue))
        decreases |queue|
      {
        var queued := queue[0];
        queue := queue[1..];
        if queued.Sentinel? {
          break;
        }
      }
      assert queue == Drain(old(queue));
      drained, stopped := true, true;
    }

    /** Lines 101-107 and 124-125. */
    method Take()
      requires queue != []
      modifies this
      ensures View() == old(View()).Take()
    {
      var item := queue[0];
      queue, gets := queue[1..], gets + 1;
      if item.Sentinel? {
        drained, consumer := true, Joining;
      } else if cancelled {
        emitted, consumer := emitted + [CANCEL_FRAME], CancelYielded(item.frame);
      } else {
        emitted, consumer := emitted + [item.frame], Yielded(item.frame);
      }
    }

    /** The consumer, lines 97-133, up to its next suspension point. */
    method Consume()
      requires View().Enabled(Actor.Consume)
      modifies this
      ensures View() == old(View()).Step(Actor.Consume)
    {
      match consumer {
        case Getting => Take();
        case Yielded(f) =>
          emittedFrames := emittedFrames + 1;
          if f.kind.Terminal() {
            terminalKind := Some(f.kind);
          }
          consumer := Sleeping;
        case Sleeping => consumer := Getting;
        case CancelYielded(_) =>
          emittedFrames, terminalKind := emittedFrames + 1, Some(Cancelled);
          DrainQueue();
          consumer := Reaping;
        case Reaping => consumer := Finished;
        case Joining => consumer := Finished;
      }
    }

    /** An arbitrary schedule of the actors; whatever it is, it refines the step relation. */
    method Play(schedule: seq<Actor>)
      requires View() == Opened(plan)
      modifies this
      ensures View() == Run(plan, schedule)
    {
      for n := 0 to |schedule|
        invariant View() == Run(plan, schedule[..n])
      {
        assert schedule[..n + 1][..n] == schedule[..n];
        match schedule[n] {
          case Producer =>
            if !stopped && puts <= |plan| && (!waiting || |queue| < QUEUE_LIMIT) {
              Produce();
            }
          case Consume =>
            if !(consumer.Getting? && queue == []) && !(consumer.Joining? && puts != |plan| + 1)
              && !consumer.Finished? && !consumer.Aborted? {
              Consume();
            }
          case Cancel => cancelled := true;
          case Disconnect =>
            if !consumer.Finished? && !consumer.Aborted? {
              stopped, consumer := true, if consumer.Reaping? then Finished else Aborted;
            }
        }
      }
      assert schedule[..|schedule|] == schedule;
    }
  }
}
