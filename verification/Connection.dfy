/**
  One WebSocket connection (serbewr/dabluvee-es/wshub/connection.go) as a step
  system: any number of `Send` and `Stop` calls run against one write pump, and
  every atomic operation of the Go code is one step.  A send on a closed channel,
  a second close of a channel and a negative wait-group counter are not ruled out
  by the steps: they lead to a panicked state, which the invariant shows to be
  unreachable.
 */
module ConnectionProtocol {

  datatype Event = Event(id: nat, kind: string)

  /** Where one `Send` call stands; each step executes the operation named next to it. */
  datatype SendPc =
    | Entered       // first isDone check
    | FirstPassed   // sendWg.Add(1)
    | Counted       // second isDone check
    | Selecting     // the select on sendCh and doneCh
    | Leaving       // deferred sendWg.Done()
    | SendReturned

  datatype Outcome = Undecided | Queued | Skipped

  datatype SendCall = SendCall(event: Event, pc: SendPc, outcome: Outcome)

  /** Where one `Stop` call stands. */
  datatype StopPc =
    | Called        // stopOnce.Do
    | Won           // isDone.Store(true)
    | FlagStored    // close(doneCh)
    | DoneClosed    // sendWg.Wait()
    | Waited        // close(sendCh)
    | QueueClosed   // conn.Close() and the end of the once function
    | StopReturned

  /** sync.Once, remembering which call runs the function. */
  datatype Once = Unused | InProgress(owner: nat) | Completed

  datatype PumpPc =
    | PumpStarting          // isDone check before the loop
    | PumpTop               // isDone check at the head of the loop
    | PumpSelect            // select on sendCh, ticker and doneCh
    | PumpWriting(event: Event)  // WriteJSON
    | PumpExited

  datatype State = State(
    capacity: nat,
    isDone: bool,
    inFlight: int,         // sendWg
    doneClosed: bool,      // doneCh
    queueClosed: bool,     // sendCh
    queue: seq<Event>,     // buffer of sendCh
    sends: seq<SendCall>,
    stops: seq<StopPc>,
    once: Once,
    pump: PumpPc,
    entered: seq<Event>,   // history: everything sendCh accepted
    taken: seq<Event>,     // history: everything the pump received
    wire: seq<Event>,      // history: everything written without an error
    panicked: bool)

  function Init(capacity: nat): State {
    State(capacity, false, 0, false, false, [], [], [], Unused, PumpStarting, [], [], [], false)
  }

  datatype Step = CallSend(event: Event) | SendStep(caller: nat) | CallStop | StopStep(stopper: nat) | PumpStep

  function WithSend(s: State, i: nat, pc: SendPc, outcome: Outcome): State
    requires i < |s.sends|
  {
    s.(sends := s.sends[i := SendCall(s.sends[i].event, pc, outcome)])
  }

  function WithStop(s: State, i: nat, pc: StopPc): State
    requires i < |s.stops|
  {
    s.(stops := s.stops[i := pc])
  }

  ghost predicate SelectNext(s: State, i: nat, s': State)
    requires i < |s.sends|
  {
    var e := s.sends[i].event;
    || (s.queueClosed && s' == s.(panicked := true))
    || (!s.queueClosed && |s.queue| < s.capacity
        && s' == WithSend(s, i, Leaving, Queued).(queue := s.queue + [e], entered := s.entered + [e]))
    || (!s.queueClosed && s.queue == [] && s.pump == PumpSelect   // handed to the waiting receiver
        && s' == WithSend(s, i, Leaving, Queued).(entered := s.entered + [e], taken := s.taken + [e],
                                                  pump := PumpWriting(e)))
    || (s.doneClosed && s' == WithSend(s, i, Leaving, Skipped))
  }

  ghost predicate SendNext(s: State, i: nat, s': State) {
    i < |s.sends| &&
    match s.sends[i].pc
    case Entered =>
      s' == if s.isDone then WithSend(s, i, SendReturned, Skipped) else WithSend(s, i, FirstPassed, Undecided)
    case FirstPassed =>
      s' == WithSend(s, i, Counted, Undecided).(inFlight := s.inFlight + 1)
    case Counted =>
      s' == if s.isDone then WithSend(s, i, Leaving, Skipped) else WithSend(s, i, Selecting, Undecided)
    case Selecting => SelectNext(s, i, s')
    case Leaving =>
      s' == if s.inFlight <= 0 then s.(panicked := true)
            else WithSend(s, i, SendReturned, s.sends[i].outcome).(inFlight := s.inFlight - 1)
    case SendReturned => false
  }

  ghost predicate StopNext(s: State, i: nat, s': State) {
    i < |s.stops| &&
    match s.stops[i]
    case Called =>
      || (s.once == Unused && s' == WithStop(s, i, Won).(once := InProgress(i)))
      || (s.once == Completed && s' == WithStop(s, i, StopReturned))
    case Won => s' == WithStop(s, i, FlagStored).(isDone := true)
    case FlagStored =>
      s' == if s.doneClosed then s.(panicked := true) else WithStop(s, i, DoneClosed).(doneClosed := true)
    case DoneClosed => s.inFlight == 0 && s' == WithStop(s, i, Waited)
    case Waited =>
      s' == if s.queueClosed then s.(panicked := true) else WithStop(s, i, QueueClosed).(queueClosed := true)
    case QueueClosed => s' == WithStop(s, i, StopReturned).(once := Completed)
    case StopReturned => false
  }

  ghost predicate PumpNext(s: State, s': State) {
    match s.pump
    case PumpStarting => s' == s.(pump := if s.isDone then PumpExited else PumpTop)
    case PumpTop => s' == s.(pump := if s.isDone then PumpExited else PumpSelect)
    case PumpSelect =>
      || (s.queue != []
          && s' == s.(queue := s.queue[1..], taken := s.taken + [s.queue[0]], pump := PumpWriting(s.queue[0])))
      || (s.queue == [] && s.queueClosed && s' == s.(pump := PumpExited))
      || (s.doneClosed && s' == s.(pump := PumpExited))
      || s' == s.(pump := PumpTop)      // ping written
      || s' == s.(pump := PumpExited)   // ping failed
    case PumpWriting(e) =>
      || s' == s.(pump := PumpTop, wire := s.wire + [e])
      || s' == s.(pump := PumpExited)   // write failed
    case PumpExited => false
  }

  ghost predicate NextStep(s: State, s': State, step: Step) {
    !s.panicked &&
    match step
    case CallSend(e) => s' == s.(sends := s.sends + [SendCall(e, Entered, Undecided)])
    case SendStep(i) => SendNext(s, i, s')
    case CallStop => s' == s.(stops := s.stops + [Called])
    case StopStep(i) => StopNext(s, i, s')
    case PumpStep => PumpNext(s, s')
  }

  ghost predicate Next(s: State, s': State) {
    exists step :: NextStep(s, s', step)
  }

  /** Every finite interleaving, from the state NewConnection builds. */
  ghost predicate IsRun(run: seq<State>, capacity: nat) {
    && |run| > 0 && run[0] == Init(capacity)
    && forall k :: 0 < k < |run| ==> Next(run[k - 1], run[k])
  }

  // ---- Invariant -------------------------------------------------------------

  predicate CountedIn(c: SendCall) { c.pc == Counted || c.pc == Selecting || c.pc == Leaving }

  function CountInFlight(sends: seq<SendCall>): nat {
    if sends == [] then 0
    else CountInFlight(sends[..|sends| - 1]) + if CountedIn(sends[|sends| - 1]) then 1 else 0
  }

  predicate Running(p: StopPc) { p != Called && p != StopReturned }

  /** How far the one effective `Stop` has come: 0 before it starts, 6 once it returned. */
  function Progress(p: StopPc): nat {
    match p
    case Called => 0 case Won => 1 case FlagStored => 2 case DoneClosed => 3
    case Waited => 4 case QueueClosed => 5 case StopReturned => 6
  }

  /** One `Stop` call at most runs the once function; the others wait for it. */
  predicate OnceOk(stops: seq<StopPc>, once: Once) {
    match once
    case Unused => forall i :: 0 <= i < |stops| ==> stops[i] == Called
    case InProgress(o) =>
      && o < |stops| && Running(stops[o])
      && forall i :: 0 <= i < |stops| && i != o ==> stops[i] == Called
    case Completed => forall i :: 0 <= i < |stops| ==> !Running(stops[i])
  }

  function StopProgress(stops: seq<StopPc>, once: Once): nat
    requires OnceOk(stops, once)
  {
    match once
    case Unused => 0
    case InProgress(o) => Progress(stops[o])
    case Completed => 6
  }

  /** The flag and the two closes happen in this order and exactly where `Stop` puts them. */
  predicate FlagsOk(progress: nat, isDone: bool, doneClosed: bool, queueClosed: bool) {
    isDone == (progress >= 2) && doneClosed == (progress >= 3) && queueClosed == (progress >= 5)
  }

  /** No call is inside the select. */
  predicate NobodySelecting(sends: seq<SendCall>) {
    forall i :: 0 <= i < |sends| ==> sends[i].pc != Selecting
  }

  predicate NobodySkipped(sends: seq<SendCall>) {
    forall i :: 0 <= i < |sends| ==> sends[i].outcome != Skipped
  }

  /** A call has an outcome exactly once it is past the select. */
  predicate OutcomesOk(sends: seq<SendCall>) {
    forall i :: 0 <= i < |sends| ==>
      ((sends[i].pc == Leaving || sends[i].pc == SendReturned) <==> sends[i].outcome != Undecided)
  }

  predicate HistoryOk(s: State) {
    && s.entered == s.taken + s.queue
    && |s.queue| <= s.capacity
    && match s.pump
       case PumpWriting(e) => s.taken == s.wire + [e]
       case PumpExited => s.wire <= s.taken
       case _ => s.taken == s.wire
  }

  /** What the sender side of the state promises at a given progress of `Stop`. */
  predicate SendersOk(sends: seq<SendCall>, inFlight: int, progress: nat) {
    && inFlight == CountInFlight(sends)
    && OutcomesOk(sends)
    && (progress >= 4 ==> NobodySelecting(sends))
    && (progress < 2 ==> NobodySkipped(sends))
  }

  predicate Inv(s: State) {
    && !s.panicked
    && OnceOk(s.stops, s.once)
    && FlagsOk(StopProgress(s.stops, s.once), s.isDone, s.doneClosed, s.queueClosed)
    && SendersOk(s.sends, s.inFlight, StopProgress(s.stops, s.once))
    && HistoryOk(s)
  }

  lemma {:induction false} CountUpdate(sends: seq<SendCall>, i: nat, c: SendCall)
    requires i < |sends|
    ensures CountInFlight(sends[i := c])
         == CountInFlight(sends) - (if CountedIn(sends[i]) then 1 else 0) + (if CountedIn(c) then 1 else 0)
  {
    var n := |sends| - 1;
    if i == n {
      assert sends[i := c][..n] == sends[..n];
    } else {
      assert sends[i := c][..n] == sends[..n][i := c];
      CountUpdate(sends[..n], i, c);
    }
  }

  /** The counter is positive while anybody is between Add and Done. */
  lemma {:induction false} CountPositive(sends: seq<SendCall>, i: nat)
    requires i < |sends| && CountedIn(sends[i])
    ensures CountInFlight(sends) > 0
  {
    if i < |sends| - 1 { CountPositive(sends[..|sends| - 1], i); }
  }

  /** And zero means nobody is. */
  lemma {:induction false} CountWitness(sends: seq<SendCall>) returns (i: nat)
    requires CountInFlight(sends) > 0
    ensures i < |sends| && CountedIn(sends[i])
  {
    i := |sends| - 1;
    if !CountedIn(sends[i]) { i := CountWitness(sends[..i]); }
  }

  /** A step of one `Send` changes that call and the queue, nothing of `Stop`. */
  lemma SendFrame(s: State, i: nat, s': State)
    requires Inv(s) && SendNext(s, i, s')
    ensures s'.stops == s.stops && s'.once == s.once && !s'.panicked
    ensures s'.isDone == s.isDone && s'.doneClosed == s.doneClosed && s'.queueClosed == s.queueClosed
    ensures i < |s.sends| && |s'.sends| == |s.sends| && s'.sends == s.sends[i := s'.sends[i]]
    ensures (s'.sends[i].pc == Leaving || s'.sends[i].pc == SendReturned) <==> s'.sends[i].outcome != Undecided
    ensures s'.inFlight == s.inFlight - (if CountedIn(s.sends[i]) then 1 else 0)
                         + (if CountedIn(s'.sends[i]) then 1 else 0)
    ensures s'.sends[i].pc == Selecting ==> !s.isDone
    ensures s'.sends[i].outcome == Skipped ==> s.isDone
  {
    hide HistoryOk;
    if CountedIn(s.sends[i]) { CountPositive(s.sends, i); }
  }

  lemma SendLowersRank(s: State, i: nat, s': State)
    requires Inv(s) && SendNext(s, i, s')
    ensures i < |s'.sends| && i < |s.sends|
    ensures SendRank(s'.sends[i]) + PumpRank(s'.pump) < SendRank(s.sends[i]) + PumpRank(s.pump)
  {
    hide HistoryOk;
    if CountedIn(s.sends[i]) { CountPositive(s.sends, i); }
  }

  /** While the flag is clear no `Send` has been skipped. */
  lemma SkipsFollowFlag(s: State)
    requires Inv(s) && !s.isDone
    ensures NobodySkipped(s.sends)
  {
  }

  lemma StopIsQuiet(s: State, i: nat, s': State)
    requires StopNext(s, i, s')
    ensures s'.sends == s.sends && s'.entered == s.entered
  {
  }

  /** `Stop` and the pump touch neither the calls of `Send` nor what the channel accepted. */
  lemma QuietFrame(s: State, s': State, step: Step)
    requires NextStep(s, s', step) && (step.CallStop? || step.StopStep? || step.PumpStep?)
    ensures s'.sends == s.sends && s'.entered == s.entered
  {
    hide StopNext;
    if step.StopStep? { StopIsQuiet(s, step.stopper, s'); }
  }

  /** The one place where a `Send` adds to what the channel accepted. */
  lemma SendEffect(s: State, i: nat, s': State)
    requires Inv(s) && SendNext(s, i, s')
    ensures |s'.sends| == |s.sends| && s'.sends[i].event == s.sends[i].event
    ensures || (s'.entered == s.entered && s'.sends[i].outcome in {s.sends[i].outcome, Skipped})
            || (s.sends[i].pc == Selecting && s'.sends[i].outcome == Queued
                && s'.entered == s.entered + [s.sends[i].event])
  {
    SendFrame(s, i, s');
  }

  lemma ReturnedHasOutcome(s: State, i: nat)
    requires Inv(s) && i < |s.sends| && s.sends[i].pc == SendReturned
    ensures s.sends[i].outcome != Undecided
  {
  }

  /** All a caller of `Send` needs to know about one step of its call. */
  lemma SendSummary(s: State, i: nat, s': State)
    requires Inv(s) && SendNext(s, i, s')
    ensures |s'.sends| == |s.sends| && s'.sends == s.sends[i := s'.sends[i]]
    ensures s'.sends[i].event == s.sends[i].event
    ensures s'.sends[i].pc == Selecting ==> NobodySkipped(s'.sends)
    ensures || (s'.entered == s.entered && s'.sends[i].outcome in {s.sends[i].outcome, Skipped})
            || (s.sends[i].pc == Selecting && s.sends[i].outcome == Undecided && s'.sends[i].outcome == Queued
                && s'.entered == s.entered + [s.sends[i].event])
  {
    SendFrame(s, i, s');
    SendEffect(s, i, s');
    SendKeepsInv(s, i, s');
    if s'.sends[i].pc == Selecting { SkipsFollowFlag(s'); }
  }

  lemma SendKeepsHistory(s: State, i: nat, s': State)
    requires Inv(s) && SendNext(s, i, s')
    ensures HistoryOk(s')
  {
    hide SendersOk, OnceOk;
    SendFrame(s, i, s');
  }

  lemma SendKeepsInv(s: State, i: nat, s': State)
    requires Inv(s) && SendNext(s, i, s')
    ensures Inv(s')
  {
    hide SendNext, HistoryOk;
    SendFrame(s, i, s');
    SendKeepsHistory(s, i, s');
    CountUpdate(s.sends, i, s'.sends[i]);
  }

  lemma StopKeepsInv(s: State, i: nat, s': State)
    requires Inv(s) && StopNext(s, i, s')
    ensures Inv(s')
  {
    if s.stops[i] == DoneClosed {
      forall j | 0 <= j < |s.sends| ensures s.sends[j].pc != Selecting {
        if CountedIn(s.sends[j]) { CountPositive(s.sends, j); }
      }
    }
  }

  lemma PumpKeepsInv(s: State, s': State)
    requires Inv(s) && PumpNext(s, s')
    ensures Inv(s')
  {
  }

  lemma CallSendKeepsInv(s: State, e: Event)
    requires Inv(s)
    ensures Inv(s.(sends := s.sends + [SendCall(e, Entered, Undecided)]))
  {
    hide OnceOk;
    assert (s.sends + [SendCall(e, Entered, Undecided)])[..|s.sends|] == s.sends;
  }

  lemma CallStopKeepsInv(s: State)
    requires Inv(s)
    ensures Inv(s.(stops := s.stops + [Called]))
  {
    hide SendersOk;
    var stops := s.stops + [Called];
    assert OnceOk(stops, s.once);
    assert StopProgress(stops, s.once) == StopProgress(s.stops, s.once);
  }

  lemma StopKeepsFlag(s: State, i: nat, s': State)
    requires StopNext(s, i, s') && s.isDone
    ensures s'.isDone
  {
  }

  lemma PumpKeepsFlag(s: State, s': State)
    requires PumpNext(s, s')
    ensures s'.isDone == s.isDone
  {
  }

  lemma StepKeepsInv(s: State, s': State, step: Step)
    requires Inv(s) && NextStep(s, s', step)
    ensures Inv(s') && (s.isDone ==> s'.isDone)
  {
    hide Inv, SendNext, StopNext, PumpNext;
    match step
    case CallSend(e) => CallSendKeepsInv(s, e);
    case SendStep(i) =>
      SendKeepsInv(s, i, s');
      SendFrame(s, i, s');
    case CallStop => CallStopKeepsInv(s);
    case StopStep(i) =>
      StopKeepsInv(s, i, s');
      if s.isDone { StopKeepsFlag(s, i, s'); }
    case PumpStep =>
      PumpKeepsInv(s, s');
      PumpKeepsFlag(s, s');
  }

  /**
    In every interleaving nothing panics: sendCh and doneCh are closed at most once and
    nobody sends on a closed channel.  Once sendCh is closed (indeed once the wait is
    over) no call is in the select, and the in-flight counter is the number of calls
    between Add and Done.
   */
  lemma {:induction false} SendStopSafety(run: seq<State>, capacity: nat)
    requires IsRun(run, capacity)
    ensures Inv(run[|run| - 1])
    ensures !run[|run| - 1].panicked
    ensures run[|run| - 1].queueClosed ==> NobodySelecting(run[|run| - 1].sends)
    ensures run[|run| - 1].inFlight == CountInFlight(run[|run| - 1].sends)
  {
    var n := |run| - 1;
    if n > 0 {
      SendStopSafety(run[..n], capacity);
      assert Next(run[n - 1], run[n]);
      var step :| NextStep(run[n - 1], run[n], step);
      StepKeepsInv(run[n - 1], run[n], step);
    }
  }

  /** Once a `Send` was skipped the connection is done, in that state and in every later one. */
  lemma {:induction false} SkippedIsDoneForGood(run: seq<State>, capacity: nat, k: nat)
    requires IsRun(run, capacity) && k < |run| && !NobodySkipped(run[k].sends)
    ensures run[|run| - 1].isDone
  {
    hide Inv, NextStep;
    var n := |run| - 1;
    if k == n {
      SendStopSafety(run, capacity);
      if !run[n].isDone { SkipsFollowFlag(run[n]); }
    } else {
      SkippedIsDoneForGood(run[..n], capacity, k);
      SendStopSafety(run[..n], capacity);
      assert Next(run[n - 1], run[n]);
      var step :| NextStep(run[n - 1], run[n], step);
      StepKeepsInv(run[n - 1], run[n], step);
    }
  }

  /** What reached the wire is a prefix of what the channel accepted, in order. */
  lemma WireIsPrefix(s: State)
    requires Inv(s)
    ensures s.wire <= s.entered
  {
  }

  // ---- Stop always finishes --------------------------------------------------

  function SendRank(c: SendCall): nat {
    match c.pc
    case Entered => 5 case FirstPassed => 4 case Counted => 3
    case Selecting => 2 case Leaving => 1 case SendReturned => 0
  }

  function SendsRank(sends: seq<SendCall>): nat {
    if sends == [] then 0 else SendsRank(sends[..|sends| - 1]) + SendRank(sends[|sends| - 1])
  }

  function StopsRank(stops: seq<StopPc>): nat {
    if stops == [] then 0 else StopsRank(stops[..|stops| - 1]) + 6 - Progress(stops[|stops| - 1])
  }

  function PumpRank(p: PumpPc): nat {
    match p
    case PumpStarting => 2 case PumpTop => 1 case PumpSelect => 3
    case PumpWriting(_) => 2 case PumpExited => 0
  }

  function Rank(s: State): nat { SendsRank(s.sends) + StopsRank(s.stops) + PumpRank(s.pump) }

  lemma {:induction false} SendsRankUpdate(sends: seq<SendCall>, i: nat, c: SendCall)
    requires i < |sends|
    ensures SendsRank(sends[i := c]) == SendsRank(sends) - SendRank(sends[i]) + SendRank(c)
  {
    var n := |sends| - 1;
    if i == n {
      assert sends[i := c][..n] == sends[..n];
    } else {
      assert sends[i := c][..n] == sends[..n][i := c];
      SendsRankUpdate(sends[..n], i, c);
    }
  }

  lemma {:induction false} StopsRankUpdate(stops: seq<StopPc>, i: nat, p: StopPc)
    requires i < |stops|
    ensures StopsRank(stops[i := p]) == StopsRank(stops) + Progress(stops[i]) - Progress(p)
  {
    var n := |stops| - 1;
    if i == n {
      assert stops[i := p][..n] == stops[..n];
    } else {
      assert stops[i := p][..n] == stops[..n][i := p];
      StopsRankUpdate(stops[..n], i, p);
    }
  }

  /** A step of a call (or pump) that is already under way. */
  predicate Internal(step: Step) { step.SendStep? || step.StopStep? || step.PumpStep? }

  /** A step of one `Stop` moves that call forward and leaves the senders and the pump alone. */
  lemma StopFrame(s: State, i: nat, s': State)
    requires Inv(s) && s.isDone && StopNext(s, i, s')
    ensures s'.sends == s.sends && s'.pump == s.pump && s'.isDone
    ensures i < |s.stops| && |s'.stops| == |s.stops| && s'.stops == s.stops[i := s'.stops[i]]
    ensures Progress(s'.stops[i]) > Progress(s.stops[i])
  {
    hide SendersOk, HistoryOk;
  }

  lemma PumpFrame(s: State, s': State)
    requires s.isDone && PumpNext(s, s')
    ensures s'.sends == s.sends && s'.stops == s.stops && s'.isDone == s.isDone
    ensures PumpRank(s'.pump) < PumpRank(s.pump)
  {
  }

  /** Once isDone is stored every internal step makes progress, whatever the scheduler picks. */
  lemma StepLowersRank(s: State, s': State, step: Step)
    requires Inv(s) && s.isDone && Internal(step) && NextStep(s, s', step)
    ensures Rank(s') < Rank(s) && s'.isDone
  {
    hide Inv, SendNext, StopNext, PumpNext, SendRank, Progress, PumpRank, CountedIn;
    match step
    case SendStep(i) =>
      SendFrame(s, i, s');
      SendLowersRank(s, i, s');
      SendsRankUpdate(s.sends, i, s'.sends[i]);
    case StopStep(i) =>
      StopFrame(s, i, s');
      StopsRankUpdate(s.stops, i, s'.stops[i]);
    case PumpStep =>
      PumpFrame(s, s');
  }

  /** Until the effective `Stop` is over some internal step can be taken, even with sendCh full and no reader. */
  lemma StopNeverBlocks(s: State) returns (s': State, step: Step)
    requires Inv(s) && s.isDone && s.once != Completed
    ensures Internal(step) && NextStep(s, s', step)
    ensures !step.PumpStep?
  {
    var o := s.once.owner;
    match s.stops[o]
    case FlagStored =>
      s' := WithStop(s, o, DoneClosed).(doneClosed := true); step := StopStep(o);
    case Waited =>
      s' := WithStop(s, o, QueueClosed).(queueClosed := true); step := StopStep(o);
    case QueueClosed =>
      s' := WithStop(s, o, StopReturned).(once := Completed); step := StopStep(o);
    case DoneClosed =>
      if s.inFlight == 0 {
        s' := WithStop(s, o, Waited); step := StopStep(o);
      } else {
        var i := CountWitness(s.sends);
        step := SendStep(i);
        if s.sends[i].pc == Leaving {
          s' := WithSend(s, i, SendReturned, s.sends[i].outcome).(inFlight := s.inFlight - 1);
        } else {
          s' := WithSend(s, i, Leaving, Skipped);
        }
      }
  }

  ghost predicate InternalNext(s: State, s': State) {
    exists step :: Internal(step) && NextStep(s, s', step)
  }

  ghost predicate CanMove(s: State) {
    exists s' :: InternalNext(s, s')
  }

  ghost predicate InternalRun(run: seq<State>) {
    && |run| > 0
    && forall k :: 0 < k < |run| ==> InternalNext(run[k - 1], run[k])
  }

  /**
    From any reachable state with isDone stored, a schedule of the calls under way is at
    most Rank steps long, and a schedule that cannot be extended has finished `Stop`.
   */
  lemma {:induction false} StopTerminates(run: seq<State>)
    requires InternalRun(run) && Inv(run[0]) && run[0].isDone
    ensures Inv(run[|run| - 1]) && run[|run| - 1].isDone
    ensures |run| - 1 + Rank(run[|run| - 1]) <= Rank(run[0])
    ensures run[|run| - 1].once == Completed
         || CanMove(run[|run| - 1])
  {
    var n := |run| - 1;
    if n > 0 {
      StopTerminates(run[..n]);
      assert InternalNext(run[n - 1], run[n]);
      var step :| Internal(step) && NextStep(run[n - 1], run[n], step);
      StepLowersRank(run[n - 1], run[n], step);
      StepKeepsInv(run[n - 1], run[n], step);
    }
    if run[n].once != Completed {
      var s', step := StopNeverBlocks(run[n]);
      assert InternalNext(run[n], s');
    }
  }

  // ---- The write pump writes -----------------------------------------------------

  ghost predicate PumpReaches(s: State, s': State, n: nat)
    decreases n
  {
    if n == 0 then s' == s else exists m :: PumpNext(s, m) && PumpReaches(m, s', n - 1)
  }

  /** Only what the write pump owns differs. */
  predicate OnlyPumpMoved(s: State, s': State) {
    s' == s.(queue := s'.queue, taken := s'.taken, pump := s'.pump, wire := s'.wire)
  }

  /** How many steps a pump whose writes succeed needs to empty the channel. */
  function PumpWork(s: State): nat {
    4 * |s.queue| + match s.pump
      case PumpStarting => 2 case PumpTop => 1 case PumpSelect => 0
      case PumpWriting(_) => 2 case PumpExited => 0
  }

  /** Unless it is waiting on an empty channel, the pump of an open connection can take a step that does not fail. */
  lemma OpenPumpMoves(s: State) returns (s': State)
    requires Inv(s) && !s.isDone && s.pump != PumpExited && (s.pump == PumpSelect ==> s.queue != [])
    ensures PumpNext(s, s') && OnlyPumpMoved(s, s') && s'.pump != PumpExited && PumpWork(s') < PumpWork(s)
  {
    match s.pump
    case PumpStarting => s' := s.(pump := PumpTop);
    case PumpTop => s' := s.(pump := PumpSelect);
    case PumpSelect =>
      s' := s.(queue := s.queue[1..], taken := s.taken + [s.queue[0]], pump := PumpWriting(s.queue[0]));
    case PumpWriting(e) => s' := s.(pump := PumpTop, wire := s.wire + [e]);
  }

  /**
    From every reachable state of a connection that is not done and whose pump runs, pump steps
    alone can empty the channel, with everything it ever accepted on the wire, in order.
   */
  lemma {:induction false} OpenPumpDrains(s: State) returns (s': State, n: nat)
    requires Inv(s) && !s.isDone && s.pump != PumpExited
    ensures PumpReaches(s, s', n) && OnlyPumpMoved(s, s') && Inv(s')
    ensures s'.queue == [] && s'.pump == PumpSelect && s'.wire == s'.entered == s.entered
    decreases PumpWork(s)
  {
    if s.pump == PumpSelect && s.queue == [] {
      s', n := s, 0;
    } else {
      hide PumpNext, Inv;
      var m := OpenPumpMoves(s);
      PumpKeepsInv(s, m);
      var k;
      s', k := OpenPumpDrains(m);
      n := k + 1;
    }
  }

  /** A write or a ping failed: the only way out of the loop while the flag is clear. */
  predicate PumpFails(s: State, s': State) {
    (s.pump == PumpSelect || s.pump.PumpWriting?) && s' == s.(pump := PumpExited)
  }

  lemma OpenPumpExitsByFailure(s: State, s': State)
    requires Inv(s) && !s.isDone && s.pump != PumpExited && PumpNext(s, s') && s'.pump == PumpExited
    ensures PumpFails(s, s')
  {
  }

  ghost predicate FailedAt(run: seq<State>, k: int) {
    0 <= k < |run| - 1 && !run[k].isDone && PumpFails(run[k], run[k + 1])
  }

  lemma OthersLeaveThePump(s: State, s': State, step: Step)
    requires Inv(s) && NextStep(s, s', step) && !step.PumpStep?
    ensures s.pump != PumpExited ==> s'.pump != PumpExited
  {
    hide StopNext, Inv;
    match step
    case StopStep(i) => StopLeavesThePump(s, i, s');
    case _ =>
  }

  lemma StopLeavesThePump(s: State, i: nat, s': State)
    requires StopNext(s, i, s')
    ensures s'.pump == s.pump
  {
  }

  /** In every run, the pump of a connection that is not done has exited only if a write or a ping failed. */
  lemma {:induction false} DeadPumpHadAFailure(run: seq<State>, capacity: nat)
    requires IsRun(run, capacity) && !run[|run| - 1].isDone && run[|run| - 1].pump == PumpExited
    ensures exists k :: FailedAt(run, k)
  {
    hide Inv, NextStep, PumpFails;
    var n := |run| - 1;
    assert n > 0;
    SendStopSafety(run[..n], capacity);
    assert Next(run[n - 1], run[n]);
    var step :| NextStep(run[n - 1], run[n], step);
    StepKeepsInv(run[n - 1], run[n], step);
    if run[n - 1].pump == PumpExited {
      DeadPumpHadAFailure(run[..n], capacity);
      var k :| FailedAt(run[..n], k);
      assert FailedAt(run, k);
    } else {
      if !step.PumpStep? { OthersLeaveThePump(run[n - 1], run[n], step); }
      PumpStepOf(run[n - 1], run[n], step);
      OpenPumpExitsByFailure(run[n - 1], run[n]);
      assert FailedAt(run, n - 1);
    }
  }

  lemma PumpStepOf(s: State, s': State, step: Step)
    requires NextStep(s, s', step) && step.PumpStep?
    ensures PumpNext(s, s')
  {
  }

  // ---- What one Send and one Stop can always do -------------------------------------

  /** Whether the select of a Send has something to choose. */
  predicate SelectReady(s: State) {
    s.doneClosed || |s.queue| < s.capacity || (s.queue == [] && s.pump == PumpSelect)
  }

  /** A `Send` under way can take its next step, except in a select with nothing ready. */
  lemma SendMoves(s: State, i: nat) returns (s': State)
    requires Inv(s) && i < |s.sends| && s.sends[i].pc != SendReturned
    requires s.sends[i].pc == Selecting ==> SelectReady(s)
    ensures SendNext(s, i, s') && |s'.sends| == |s.sends| && SendRank(s'.sends[i]) < SendRank(s.sends[i])
    ensures s'.isDone == s.isDone && (s.pump != PumpExited ==> s'.pump != PumpExited)
  {
    var e := s.sends[i].event;
    match s.sends[i].pc
    case Entered =>
      s' := if s.isDone then WithSend(s, i, SendReturned, Skipped) else WithSend(s, i, FirstPassed, Undecided);
    case FirstPassed => s' := WithSend(s, i, Counted, Undecided).(inFlight := s.inFlight + 1);
    case Counted =>
      s' := if s.isDone then WithSend(s, i, Leaving, Skipped) else WithSend(s, i, Selecting, Undecided);
    case Selecting => s' := SelectMoves(s, i);
    case Leaving =>
      CountPositive(s.sends, i);
      s' := WithSend(s, i, SendReturned, s.sends[i].outcome).(inFlight := s.inFlight - 1);
  }

  lemma SelectMoves(s: State, i: nat) returns (s': State)
    requires Inv(s) && i < |s.sends| && s.sends[i].pc == Selecting && SelectReady(s)
    ensures SelectNext(s, i, s') && |s'.sends| == |s.sends| && s'.sends[i].pc == Leaving
    ensures s'.isDone == s.isDone && (s.pump != PumpExited ==> s'.pump != PumpExited)
  {
    var e := s.sends[i].event;
    assert !s.queueClosed;
    if s.doneClosed {
      s' := WithSend(s, i, Leaving, Skipped);
    } else if |s.queue| < s.capacity {
      s' := WithSend(s, i, Leaving, Queued).(queue := s.queue + [e], entered := s.entered + [e]);
    } else {
      s' := WithSend(s, i, Leaving, Queued).(entered := s.entered + [e], taken := s.taken + [e], pump := PumpWriting(e));
    }
  }

  /** Nothing a `Stop` does not own differs. */
  predicate OnlyStopMoved(s: State, s': State) {
    s' == s.(stops := s'.stops, once := s'.once, isDone := s'.isDone, doneClosed := s'.doneClosed)
  }

  /** Once some `Stop` was called, steps of `Stop` alone lead to a closed doneCh: every waiting `Send` is released. */
  lemma StopMoves(s: State) returns (s': State, i: nat)
    requires Inv(s) && s.stops != [] && !s.doneClosed
    ensures StopNext(s, i, s') && OnlyStopMoved(s, s') && s'.stops != []
    ensures Inv(s') && StopProgress(s'.stops, s'.once) > StopProgress(s.stops, s.once)
  {
    hide HistoryOk, SendersOk;
    if s.once == Unused {
      i := 0;
      s' := WithStop(s, i, Won).(once := InProgress(i));
    } else {
      i := s.once.owner;
      s' := if s.stops[i] == Won then WithStop(s, i, FlagStored).(isDone := true)
            else WithStop(s, i, DoneClosed).(doneClosed := true);
    }
    StopKeepsInv(s, i, s');
  }

  /** A connection that is done but has not closed doneCh is inside a `Stop`. */
  lemma DoneIsStopping(s: State)
    requires Inv(s) && s.isDone && !s.doneClosed
    ensures s.stops != []
  {
  }

  /** Every `Stop` call that has not returned can move, or waits for a step that can be taken. */
  lemma EveryStopCanMove(s: State, i: nat) returns (s': State, step: Step)
    requires Inv(s) && i < |s.stops| && s.stops[i] != StopReturned
    ensures Internal(step) && NextStep(s, s', step)
  {
    if s.once == Unused {
      s', step := WithStop(s, i, Won).(once := InProgress(i)), StopStep(i);
    } else if s.once == Completed {
      s', step := WithStop(s, i, StopReturned), StopStep(i);
    } else if s.isDone {
      s', step := StopNeverBlocks(s);
    } else {
      var o := s.once.owner;
      s', step := WithStop(s, o, FlagStored).(isDone := true), StopStep(o);
    }
  }

  /** On a connection that is not done, a `Send` that returned has queued its event. */
  lemma OpenSendsAreQueued(run: seq<State>, capacity: nat, i: nat)
    requires IsRun(run, capacity) && !run[|run| - 1].isDone
    requires i < |run[|run| - 1].sends| && run[|run| - 1].sends[i].pc == SendReturned
    ensures run[|run| - 1].sends[i].outcome == Queued
  {
    var s := run[|run| - 1];
    SendStopSafety(run, capacity);
    SkipsFollowFlag(s);
    ReturnedHasOutcome(s, i);
  }
}
