/**
 * The client's socket transport (client/transports/socket.js): one reader slot
 * that frames the server's lines into responses, a serial task queue that keeps
 * one request in flight, and the `disconnecting` flag that hides the close event.
 *
 * The socket, the timers and the queue's scheduling are replaced by events: a
 * line arriving, the read timer firing, the connection coming up, `close`.
 */
module Socket {
  import opened Wrappers
  import Utils

  // ---------------------------------------------------------------------
  // Values
  // ---------------------------------------------------------------------

  /** The `linesWanted` argument of `request`: a count, a terminator line, or nothing. */
  datatype Want = Count(n: int) | Terminator(line: string) | Open

  /** A queued task: the message it writes and the lines it reads back. */
  datatype Task = Task(msg: string, want: Want)

  /** What a request's callback receives: the lines, or an error message. */
  type Response = Result<seq<string>, string>

  /**
   * The object in the reader slot. A fixed-count reader keeps the count it was
   * armed with and the `linesWanted` the line handler counts down; a collecting
   * reader keeps its terminator (null for none). Both keep the lines received.
   */
  datatype Reader =
    | Fixed(wanted: nat, linesWanted: nat, received: seq<string>)
    | Collect(terminator: Option<string>, received: seq<string>)

  const UnexpectedPrefix: string := "Unexpected data received from lockd server: "

  function Unexpected(line: string): string {
    UnexpectedPrefix + line
  }

  /** `'Expected %d line%s but got %d'` */
  function Mismatch(wanted: nat, got: nat): string {
    "Expected " + Utils.NatToString(wanted) + " line" + (if wanted == 1 then "" else "s")
      + " but got " + Utils.NatToString(got)
  }

  predicate NonBlank(lines: seq<string>) {
    forall i :: 0 <= i < |lines| ==> lines[i] != ""
  }

  // ---------------------------------------------------------------------
  // The transport as a state machine
  // ---------------------------------------------------------------------

  /**
   * The transport's state: the queued tasks, whether the queue is paused, the
   * reader slot, the requests written so far (in order), the responses handed
   * to callbacks (in order), the `error` events emitted, the `disconnecting`
   * flag, the `close` listeners `disconnect` registered, and the `close` events
   * re-emitted and disconnect callbacks run.
   */
  datatype State = State(
    tasks: seq<Task>,
    paused: bool,
    reader: Option<Reader>,
    written: seq<Task>,
    results: seq<Response>,
    errors: seq<string>,
    disconnecting: bool,
    closeWaiters: nat,
    closesEmitted: nat,
    disconnectsDone: nat)

  /** A new transport: empty queue, paused until the connection is up, no reader. */
  const Initial: State := State([], true, None, [], [], [], false, 0, 0, 0)

  datatype Event =
    | Connected              // the `net.connect` callback
    | Submit(task: Task) // a call of `request`
    | Line(line: string)     // a line from `split()`
    | Timeout                // the pending read timer fires
    | DisconnectCalled       // a call of `disconnect`
    | Closed                 // the socket's `close` event

  /** How `read` starts: an immediate answer for zero lines, else the reader it arms. */
  datatype Start = Immediate(response: Response) | Armed(reader: Reader)

  function StartRead(want: Want): (s: Start)
    ensures s.Immediate? <==> want == Count(0)
  {
    match want
    case Terminator(t) => Armed(Collect(Some(t), []))
    case Open => Armed(Collect(None, []))
    case Count(n) =>
      if n == 0 then Immediate(Success([]))
      else if n > 0 then Armed(Fixed(n, n, []))
      else Armed(Collect(None, []))
  }

  /**
   * The queue's worker: while the queue runs and no read is pending, the next
   * task writes its message and starts its read.
   */
  function Pump(st: State): State
    decreases |st.tasks|
  {
    if st.paused || st.reader.Some? || st.tasks == [] then st
    else
      var t := st.tasks[0];
      var next := st.(tasks := st.tasks[1..], written := st.written + [t]);
      match StartRead(t.want)
      case Immediate(response) => Pump(next.(results := next.results + [response]))
      case Armed(r) => next.(reader := Some(r))
  }

  /** A line handed to the armed reader: what is left in the slot, and the response if it resolved. */
  function Deliver(r: Reader, line: string): (Option<Reader>, Option<Response>) {
    match r
    case Fixed(n, w, received) =>
      var got := received + [line];
      var slot := if w == 1 then None else Some(Fixed(n, if w == 0 then 0 else w - 1, got));
      (slot, if |got| == n then Some(Success(got)) else None)
    case Collect(t, received) =>
      var got := received + [line];
      if t == Some(line) then (None, Some(Success(got))) else (Some(Collect(t, got)), None)
  }

  /** The line handler. */
  function Feed(st: State, line: string): State {
    if line == "" then st
    else if st.reader.None? then st.(errors := st.errors + [Unexpected(line)])
    else
      var (slot, done) := Deliver(st.reader.value, line);
      match done
      case None => st.(reader := slot)
      case Some(response) => Pump(st.(reader := slot, results := st.results + [response]))
  }

  /** The pending read's timer: a fixed read fails with the count, a collecting read returns what it has. */
  function Expire(st: State): State {
    match st.reader
    case None => st
    case Some(Fixed(n, _, received)) =>
      Pump(st.(reader := None, results := st.results + [Failure(Mismatch(n, |received|))]))
    case Some(Collect(_, received)) =>
      Pump(st.(reader := None, results := st.results + [Success(received)]))
  }

  /** `close`: re-emitted unless disconnecting; every waiting disconnect clears the flag and completes. */
  function OnClosed(st: State): State {
    st.(closesEmitted := if st.disconnecting then st.closesEmitted else st.closesEmitted + 1,
        disconnecting := if st.closeWaiters > 0 then false else st.disconnecting,
        disconnectsDone := st.disconnectsDone + st.closeWaiters,
        closeWaiters := 0)
  }

  function Step(st: State, e: Event): State {
    match e
    case Connected => Pump(st.(paused := false))
    case Submit(r) => Pump(st.(tasks := st.tasks + [r]))
    case Line(line) => Feed(st, line)
    case Timeout => Expire(st)
    case DisconnectCalled => st.(disconnecting := true, closeWaiters := st.closeWaiters + 1)
    case Closed => OnClosed(st)
  }

  /** The state after a run of events. */
  function Run(st: State, events: seq<Event>): State
    decreases |events|
  {
    if events == [] then st else Step(Run(st, events[..|events| - 1]), events[|events| - 1])
  }

  /** Lines fed one after another. */
  function FeedAll(st: State, lines: seq<string>): State
    decreases |lines|
  {
    if lines == [] then st else FeedAll(Feed(st, lines[0]), lines[1..])
  }

  /** The tasks submitted in a run, in order. */
  function Submitted(events: seq<Event>): seq<Task>
    decreases |events|
  {
    if events == [] then []
    else
      var last := events[|events| - 1];
      Submitted(events[..|events| - 1]) + (if last.Submit? then [last.task] else [])
  }

  // ---------------------------------------------------------------------
  // The invariant
  // ---------------------------------------------------------------------

  /** A collecting read's lines: none blank, and the terminator (if any) only as the last line. */
  predicate Collected(t: Option<string>, lines: seq<string>) {
    NonBlank(lines) && (t.Some? && lines != [] ==> t.value !in lines[..|lines| - 1])
  }

  /** A response a request with this `want` can receive. */
  ghost predicate Fits(want: Want, response: Response) {
    match want
    case Count(n) =>
      if n == 0 then response == Success([])
      else if n > 0 then
        && (response.Success? ==> |response.value| == n && NonBlank(response.value))
        && (response.Failure? ==> exists k :: 0 <= k < n && response.error == Mismatch(n, k))
      else response.Success? && Collected(None, response.value)
    case Terminator(t) => response.Success? && Collected(Some(t), response.value)
    case Open => response.Success? && Collected(None, response.value)
  }

  /** The reader a pending request with this `want` has in the slot. */
  predicate ReaderFits(want: Want, r: Reader) {
    match want
    case Count(n) =>
      if n > 0 then r.Fixed? && r.wanted == n && 1 <= r.linesWanted && r.linesWanted + |r.received| == n
                    && NonBlank(r.received)
      else n < 0 && r.Collect? && r.terminator.None? && NonBlank(r.received)
    case Terminator(t) => r.Collect? && r.terminator == Some(t) && NonBlank(r.received) && t !in r.received
    case Open => r.Collect? && r.terminator.None? && NonBlank(r.received)
  }

  /** Everything but the queue being drained. */
  ghost predicate Framed(st: State) {
    && (st.paused ==> st.reader.None? && st.written == [])
    && |st.written| == |st.results| + (if st.reader.Some? then 1 else 0)
    && (forall i :: 0 <= i < |st.results| ==> Fits(st.written[i].want, st.results[i]))
    && (st.reader.Some? ==> ReaderFits(st.written[|st.written| - 1].want, st.reader.value))
    && (st.disconnecting <==> st.closeWaiters > 0)
  }

  /**
   * The transport's invariant: nothing is written while paused; every written
   * request but at most the last has its response, and each response fits its
   * request; the pending request's reader fits it; a running, idle queue is
   * empty; and `disconnecting` is set exactly while a disconnect waits.
   */
  ghost predicate Inv(st: State) {
    Framed(st) && (!st.paused && st.reader.None? ==> st.tasks == [])
  }

  lemma InitialInv()
    ensures Inv(Initial)
  {
  }

  /** The part of the state a response appends to. */
  ghost predicate Extends(st: State, st': State) {
    && st'.written + st'.tasks == st.written + st.tasks
    && |st.written| <= |st'.written|
    && |st.results| <= |st'.results| && st'.results[..|st.results|] == st.results
    && st'.paused == st.paused && st'.errors == st.errors
    && st'.disconnecting == st.disconnecting && st'.closeWaiters == st.closeWaiters
    && st'.closesEmitted == st.closesEmitted && st'.disconnectsDone == st.disconnectsDone
  }

  lemma {:induction false} PumpInv(st: State)
    requires Framed(st)
    ensures Inv(Pump(st))
    ensures Extends(st, Pump(st))
    ensures st.paused || st.reader.Some? ==> Pump(st) == st
    decreases |st.tasks|
  {
    if !(st.paused || st.reader.Some? || st.tasks == []) {
      var t := st.tasks[0];
      var next := st.(tasks := st.tasks[1..], written := st.written + [t]);
      assert next.written + next.tasks == st.written + st.tasks by {
        assert st.tasks == [t] + st.tasks[1..];
      }
      match StartRead(t.want)
      case Immediate(response) => {
        var after := next.(results := next.results + [response]);
        assert t.want == Count(0);
        assert after.results[..|st.results|] == st.results;
        assert Framed(after);
        PumpInv(after);
        var final := Pump(after);
        assert final.results[..|st.results|] == final.results[..|after.results|][..|st.results|];
      }
      case Armed(r) => {
        var after := next.(reader := Some(r));
        assert after.written[|after.written| - 1] == t;
        assert ReaderFits(t.want, r);
      }
    }
  }

  /** A response that resolves the pending read keeps the framing. */
  lemma ResolveFramed(st: State, slot: Option<Reader>, response: Response)
    requires Framed(st) && st.reader.Some?
    requires slot.None?
    requires Fits(st.written[|st.written| - 1].want, response)
    ensures Framed(st.(reader := slot, results := st.results + [response]))
  {
  }

  /** Handing a non-blank line to a reader that fits its request keeps it fitting, or resolves it with a fitting response. */
  lemma DeliverFits(want: Want, r: Reader, line: string)
    requires ReaderFits(want, r) && line != ""
    ensures Deliver(r, line).1.None? ==> Deliver(r, line).0.Some? && ReaderFits(want, Deliver(r, line).0.value)
    ensures Deliver(r, line).1.Some? ==> Deliver(r, line).0.None? && Fits(want, Deliver(r, line).1.value)
  {
    var got := r.received + [line];
    assert NonBlank(got);
    if want.Terminator? {
      assert got[..|got| - 1] == r.received;
    }
  }

  lemma FeedInv(st: State, line: string)
    requires Inv(st)
    ensures Inv(Feed(st, line))
    ensures Extends(st, Feed(st, line)) || (line != "" && st.reader.None?)
  {
    if line != "" && st.reader.Some? {
      var want := st.written[|st.written| - 1].want;
      var (slot, done) := Deliver(st.reader.value, line);
      DeliverFits(want, st.reader.value, line);
      if done.Some? {
        ResolveFramed(st, slot, done.value);
        PumpInv(st.(reader := slot, results := st.results + [done.value]));
      }
    }
  }

  /** What the timer hands back to a request whose reader fits it. */
  function TimedOut(r: Reader): Response {
    if r.Fixed? then Failure(Mismatch(r.wanted, |r.received|)) else Success(r.received)
  }

  lemma TimedOutFits(want: Want, r: Reader)
    requires ReaderFits(want, r)
    ensures Fits(want, TimedOut(r))
  {
    if want.Terminator? && r.received != [] {
      assert r.received[..|r.received| - 1] <= r.received;
    }
  }

  lemma ExpireInv(st: State)
    requires Inv(st)
    ensures Inv(Expire(st))
    ensures Extends(st, Expire(st))
  {
    if st.reader.Some? {
      var response := TimedOut(st.reader.value);
      TimedOutFits(st.written[|st.written| - 1].want, st.reader.value);
      ResolveFramed(st, None, response);
      PumpInv(st.(reader := None, results := st.results + [response]));
    }
  }

  /** Every event keeps the invariant. */
  lemma StepInv(st: State, e: Event)
    requires Inv(st)
    ensures Inv(Step(st, e))
  {
    match e
    case Connected => PumpInv(st.(paused := false));
    case Submit(r) => PumpInv(st.(tasks := st.tasks + [r]));
    case Line(line) => FeedInv(st, line);
    case Timeout => ExpireInv(st);
    case DisconnectCalled =>
    case Closed =>
  }

  /** One event adds to the written-then-queued tasks only the task it submits. */
  lemma StepOrder(st: State, e: Event)
    requires Inv(st)
    ensures Step(st, e).written + Step(st, e).tasks == st.written + st.tasks + (if e.Submit? then [e.task] else [])
    ensures |Step(st, e).written| > |st.written| ==> |Step(st, e).results| >= |st.written|
  {
    match e
    case Connected => PumpInv(st.(paused := false));
    case Submit(r) => {
      PumpInv(st.(tasks := st.tasks + [r]));
      assert st.written + (st.tasks + [r]) == st.written + st.tasks + [r];
    }
    case Line(line) => FeedInv(st, line);
    case Timeout => ExpireInv(st);
    case DisconnectCalled =>
    case Closed =>
  }

  /**
   * Tasks are written in submission order: what has been written, followed
   * by what is still queued, is exactly what was submitted.
   */
  lemma {:induction false} RunOrder(events: seq<Event>)
    ensures Inv(Run(Initial, events))
    ensures Run(Initial, events).written + Run(Initial, events).tasks == Submitted(events)
    decreases |events|
  {
    if events != [] {
      var prefix := events[..|events| - 1];
      var e := events[|events| - 1];
      RunOrder(prefix);
      StepInv(Run(Initial, prefix), e);
      StepOrder(Run(Initial, prefix), e);
    }
  }

  /** At most one task is in flight, and a new write happens only once every earlier one is answered. */
  lemma OneInFlight(st: State, e: Event)
    requires Inv(st)
    ensures |st.written| - |st.results| <= 1
    ensures |Step(st, e).written| > |st.written| ==> |Step(st, e).results| >= |st.written|
  {
    StepOrder(st, e);
  }

  // ---------------------------------------------------------------------
  // Framing one response
  // ---------------------------------------------------------------------

  /** Blank lines are dropped without any effect. */
  lemma BlankLineIgnored(st: State)
    ensures Step(st, Line("")) == st
  {
  }

  /** A non-blank line with no reader armed only emits the unexpected-data error. */
  lemma UnexpectedLine(st: State, line: string)
    requires line != "" && st.reader.None?
    ensures Step(st, Line(line)) == st.(errors := st.errors + [Unexpected(line)])
  {
  }

  /** A zero-line request is answered with no lines as soon as it starts. */
  lemma ZeroLinesAtOnce(st: State, msg: string)
    requires Inv(st) && !st.paused && st.reader.None?
    ensures var st' := Step(st, Submit(Task(msg, Count(0))));
      st'.written == st.written + [Task(msg, Count(0))] && st'.results == st.results + [Success([])]
      && st'.reader.None? && st'.tasks == []
  {
    var t := Task(msg, Count(0));
    var queued := st.(tasks := st.tasks + [t]);
    assert queued.tasks == [t];
    var next := queued.(tasks := [], written := st.written + [t], results := st.results + [Success([])]);
    assert Pump(queued) == Pump(next);
    assert Pump(next) == next;
  }

  /** Fewer lines than a fixed reader still wants are collected in arrival order. */
  lemma {:induction false} FixedProgress(st: State, lines: seq<string>)
    requires st.reader.Some? && st.reader.value.Fixed?
    requires NonBlank(lines) && |lines| < st.reader.value.linesWanted
    requires st.reader.value.linesWanted + |st.reader.value.received| == st.reader.value.wanted
    ensures var r := st.reader.value;
      FeedAll(st, lines) == st.(reader := Some(Fixed(r.wanted, r.linesWanted - |lines|, r.received + lines)))
    decreases |lines|
  {
    if lines != [] {
      var r := st.reader.value;
      var st1 := Feed(st, lines[0]);
      assert st1 == st.(reader := Some(Fixed(r.wanted, r.linesWanted - 1, r.received + [lines[0]])));
      FixedProgress(st1, lines[1..]);
      assert r.received + [lines[0]] + lines[1..] == r.received + lines by {
        assert [lines[0]] + lines[1..] == lines;
      }
      assert FeedAll(st, lines) == FeedAll(st1, lines[1..]);
    } else {
      assert st.reader.value.received + lines == st.reader.value.received;
    }
  }

  /**
   * A fixed reader resolves with exactly its lines, in arrival order, when the
   * last one it wants arrives; the slot is cleared and the queue moves on.
   */
  lemma FixedReadsExactly(st: State, lines: seq<string>)
    requires st.reader.Some? && st.reader.value.Fixed?
    requires NonBlank(lines) && |lines| == st.reader.value.linesWanted >= 1
    requires st.reader.value.linesWanted + |st.reader.value.received| == st.reader.value.wanted
    ensures FeedAll(st, lines) ==
      Pump(st.(reader := None, results := st.results + [Success(st.reader.value.received + lines)]))
  {
    var r := st.reader.value;
    var n := |lines|;
    var init := lines[..n - 1];
    FixedProgress(st, init);
    var mid := FeedAll(st, init);
    FeedAllSplit(st, init, lines[n - 1]);
    assert init + [lines[n - 1]] == lines;
    assert r.received + init + [lines[n - 1]] == r.received + lines;
  }

  /** A fixed read that times out after fewer lines than it wants fails with the count it got. */
  lemma FixedTimeout(st: State, lines: seq<string>)
    requires st.reader.Some? && st.reader.value.Fixed? && st.reader.value.received == []
    requires st.reader.value.linesWanted == st.reader.value.wanted
    requires NonBlank(lines) && |lines| < st.reader.value.wanted
    ensures Step(FeedAll(st, lines), Timeout) ==
      Pump(st.(reader := None, results := st.results + [Failure(Mismatch(st.reader.value.wanted, |lines|))]))
  {
    FixedProgress(st, lines);
  }

  lemma {:induction false} FeedAllSplit(st: State, lines: seq<string>, line: string)
    ensures FeedAll(st, lines + [line]) == Feed(FeedAll(st, lines), line)
    decreases |lines|
  {
    if lines == [] {
      assert [line][1..] == [];
    } else {
      assert (lines + [line])[1..] == lines[1..] + [line];
      FeedAllSplit(Feed(st, lines[0]), lines[1..], line);
    }
  }

  /** A collecting reader keeps lines, in arrival order, until its terminator arrives. */
  lemma {:induction false} CollectProgress(st: State, lines: seq<string>)
    requires st.reader.Some? && st.reader.value.Collect?
    requires NonBlank(lines)
    requires st.reader.value.terminator.Some? ==> st.reader.value.terminator.value !in lines
    ensures var r := st.reader.value;
      FeedAll(st, lines) == st.(reader := Some(Collect(r.terminator, r.received + lines)))
    decreases |lines|
  {
    if lines != [] {
      var r := st.reader.value;
      var st1 := Feed(st, lines[0]);
      assert st1 == st.(reader := Some(Collect(r.terminator, r.received + [lines[0]])));
      CollectProgress(st1, lines[1..]);
      assert r.received + [lines[0]] + lines[1..] == r.received + lines by {
        assert [lines[0]] + lines[1..] == lines;
      }
      assert FeedAll(st, lines) == FeedAll(st1, lines[1..]);
    } else {
      assert st.reader.value.received + lines == st.reader.value.received;
    }
  }

  /** The terminator line resolves a collecting read at once, and is part of the response. */
  lemma TerminatorReads(st: State, lines: seq<string>, t: string)
    requires st.reader.Some? && st.reader.value == Collect(Some(t), st.reader.value.received)
    requires NonBlank(lines) && lines != [] && lines[|lines| - 1] == t
    requires t !in lines[..|lines| - 1]
    ensures FeedAll(st, lines) ==
      Pump(st.(reader := None, results := st.results + [Success(st.reader.value.received + lines)]))
  {
    var r := st.reader.value;
    var n := |lines|;
    var init := lines[..n - 1];
    CollectProgress(st, init);
    FeedAllSplit(st, init, t);
    assert init + [t] == lines;
    assert r.received + init + [t] == r.received + lines;
  }

  /** Without its terminator, a collecting read returns all its lines when the timer fires, never an error. */
  lemma CollectTimeout(st: State, lines: seq<string>)
    requires st.reader.Some? && st.reader.value.Collect?
    requires NonBlank(lines)
    requires st.reader.value.terminator.Some? ==> st.reader.value.terminator.value !in lines
    ensures Step(FeedAll(st, lines), Timeout) ==
      Pump(st.(reader := None, results := st.results + [Success(st.reader.value.received + lines)]))
  {
    CollectProgress(st, lines);
  }

  // ---------------------------------------------------------------------
  // Disconnecting
  // ---------------------------------------------------------------------

  /** While disconnecting, `close` is not re-emitted; it clears the flag and runs every waiting callback. */
  lemma CloseWhileDisconnecting(st: State)
    requires Inv(st) && st.disconnecting
    ensures var st' := Step(st, Closed);
      && st'.closesEmitted == st.closesEmitted
      && !st'.disconnecting && st'.closeWaiters == 0
      && st'.disconnectsDone == st.disconnectsDone + st.closeWaiters
      && Inv(st')
  {
  }

  /** Outside a disconnect, `close` is re-emitted and nothing else changes. */
  lemma CloseOtherwise(st: State)
    requires Inv(st) && !st.disconnecting
    ensures Step(st, Closed) == st.(closesEmitted := st.closesEmitted + 1)
  {
  }

  // ---------------------------------------------------------------------
  // The transport object
  // ---------------------------------------------------------------------

  class SocketTransport {
    var tasks: seq<Task>
    var paused: bool
    var reader: Option<Reader>
    var written: seq<Task>
    var results: seq<Response>
    var errors: seq<string>
    var disconnecting: bool
    var closeWaiters: nat
    var closesEmitted: nat
    var disconnectsDone: nat

    /** The fields as one value. */
    function Current(): State
      reads this
    {
      State(tasks, paused, reader, written, results, errors, disconnecting, closeWaiters, closesEmitted, disconnectsDone)
    }

    constructor ()
      ensures Current() == Initial
    {
      tasks := [];
      paused := true;
      reader := None;
      written := [];
      results := [];
      errors := [];
      disconnecting := false;
      closeWaiters := 0;
      closesEmitted := 0;
      disconnectsDone := 0;
    }

    /** `read`: zero lines answer at once, otherwise the reader for `want` is armed. */
    method Read(want: Want)
      modifies this
      ensures StartRead(want).Immediate? ==>
        Current() == old(Current()).(results := old(results) + [StartRead(want).response])
      ensures StartRead(want).Armed? ==> Current() == old(Current()).(reader := Some(StartRead(want).reader))
    {
      var terminator: Option<string> := None;
      var count: Option<int> := None;
      match want {
        case Terminator(t) => terminator := Some(t);
        case Count(n) => count := Some(n);
        case Open =>
      }
      if count == Some(0) {
        results := results + [Success([])];
      } else if count.Some? && count.value > 0 {
        reader := Some(Fixed(count.value, count.value, []));
      } else {
        reader := Some(Collect(terminator, []));
      }
    }

    /** The queue's worker; a task writes its message and then reads. */
    method Work()
      modifies this
      ensures Current() == Pump(old(Current()))
    {
      while !paused && reader.None? && tasks != []
        invariant Pump(Current()) == Pump(old(Current()))
        decreases |tasks|
      {
        var task := tasks[0];
        tasks := tasks[1..];
        written := written + [task];
        Read(task.want);
      }
    }

    /** The connection is up: the queue resumes. */
    method OnConnect()
      modifies this
      ensures Current() == Step(old(Current()), Connected)
    {
      paused := false;
      Work();
    }

    /** `request`: queue a message and the lines it wants. */
    method Request(msg: string, want: Want)
      modifies this
      ensures Current() == Step(old(Current()), Submit(Task(msg, want)))
    {
      tasks := tasks + [Task(msg, want)];
      Work();
    }

    /** The line handler. */
    method OnLine(line: string)
      modifies this
      ensures Current() == Step(old(Current()), Line(line))
    {
      if line == "" {
        return;
      }
      if reader.None? {
        errors := errors + [Unexpected(line)];
        return;
      }
      match reader.value {
        case Fixed(n, w, received) =>
          // processLine's push lands in the array the slot shares
          var got := received + [line];
          if w == 1 {
            reader := None;
          } else {
            reader := Some(Fixed(n, if w == 0 then 0 else w - 1, got));
          }
          if |got| == n {
            results := results + [Success(got)];
            Work();
          }
        case Collect(t, received) =>
          var got := received + [line];
          if t == Some(line) {
            reader := None;
            results := results + [Success(got)];
            Work();
          } else {
            reader := Some(Collect(t, got));
          }
      }
    }

    /** The read timer fires. */
    method OnTimeout()
      modifies this
      ensures Current() == Step(old(Current()), Timeout)
    {
      match reader {
        case None =>
        case Some(Fixed(n, _, received)) =>
          reader := None;
          results := results + [Failure(Mismatch(n, |received|))];
          Work();
        case Some(Collect(_, received)) =>
          reader := None;
          results := results + [Success(received)];
          Work();
      }
    }

    /** `disconnect`: set the flag and wait for `close`. */
    method Disconnect()
      modifies this
      ensures Current() == Step(old(Current()), DisconnectCalled)
    {
      disconnecting := true;
      closeWaiters := closeWaiters + 1;
    }

    /** The socket's `close` event. */
    method OnClose()
      modifies this
      ensures Current() == Step(old(Current()), Closed)
    {
      if !disconnecting {
        closesEmitted := closesEmitted + 1;
      }
      if closeWaiters > 0 {
        disconnecting := false;
        disconnectsDone := disconnectsDone + closeWaiters;
        closeWaiters := 0;
      }
    }
  }
}
