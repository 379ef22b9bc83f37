/**
  Delivery through one client (serbewr/dabluvee-es/wshub/client.go): the
  distribution pump takes events from the client's queue and offers each to a
  snapshot of the connections, while connections are added, removed and stopped
  and the client itself may stop.  Every connection is a full ConnectionProtocol
  state whose `Send` calls come from the pump.
 */
module ClientDelivery {
  import opened ConnectionProtocol

  /** `AddConnection`, at most once for each connection. */
  datatype AddPc =
    | AddEntered
    | AddChecked
    | Registered(from: int)   // history: the position of the first event it is to be offered
    | Refused

  /** `RemoveConnection`. */
  datatype RemoveCall = RemoveEntered(id: nat) | RemoveChecked(id: nat) | RemoveFound(id: nat) | RemoveReturned

  /** `Client.Stop`, run once. */
  datatype ShutdownPc =
    | Open | Flagged | Signalled | Closed | StoppingConnections(left: set<nat>)

  datatype PumpAt =
    | LoopTop                                     // isStopped check
    | Receiving                                   // select on sendCh and doneCh
    | Received(event: Event)                      // isStopped check after a receive
    | Snapshotting(event: Event)                  // GetConnections
    | Visiting(event: Event, pending: set<nat>)   // next connection of the snapshot
    | Sending(event: Event, pending: set<nat>, to: nat, call: nat)  // inside conn.Send
    | PumpDone

  datatype Client = Client(
    capacity: nat,
    queue: seq<Event>,          // buffer of sendCh
    accepted: seq<Event>,       // history: everything sendCh accepted
    isStopped: bool, doneClosed: bool, queueClosed: bool,
    conns: map<nat, State>,     // every connection built for this client
    registry: set<nat>,         // keys of the connections map
    adds: map<nat, AddPc>,
    removes: seq<RemoveCall>,
    shutdown: ShutdownPc,
    at: PumpAt)

  function NewClient(capacity: nat): Client {
    Client(capacity, [], [], false, false, false, map[], {}, map[], [], Open, LoopTop)
  }

  datatype Move =
    | Accept(event: Event)
    | NewConnection(id: nat, buffer: nat) | CallAdd(id: nat) | AddStep(id: nat)
    | CallRemove(id: nat) | RemoveStep(call: nat)
    | ShutdownStep
    | ConnectionStep(id: nat, step: Step)
    | PumpMove

  /** `Client.Send` on an open client: buffered, or handed to the waiting pump; a full buffer drops the event. */
  ghost predicate AcceptNext(s: Client, e: Event, s': Client) {
    !s.isStopped &&
    (|| (|s.queue| < s.capacity && s' == s.(queue := s.queue + [e], accepted := s.accepted + [e]))
     || (s.queue == [] && s.at == Receiving && s' == s.(accepted := s.accepted + [e], at := Received(e))))
  }

  /** How many events the pump has received. */
  function Taken(s: Client): int { |s.accepted| - |s.queue| }

  /** The first event a connection registered now will be part of: the snapshot is taken after the receive. */
  function FirstOffered(s: Client): int {
    if s.at.Received? || s.at.Snapshotting? then Taken(s) - 1 else Taken(s)
  }

  ghost predicate AddNext(s: Client, id: nat, s': Client) {
    id in s.adds &&
    match s.adds[id]
    case AddEntered => s' == s.(adds := s.adds[id := if s.isStopped then Refused else AddChecked])
    case AddChecked =>
      s' == s.(adds := s.adds[id := Registered(FirstOffered(s))], registry := s.registry + {id})
    case _ => false
  }

  ghost predicate StopConnection(s: Client, id: nat, s': Client) {
    id in s.conns && exists c :: NextStep(s.conns[id], c, CallStop) && s' == s.(conns := s.conns[id := c])
  }

  ghost predicate RemoveNext(s: Client, i: nat, s': Client) {
    i < |s.removes| &&
    match s.removes[i]
    case RemoveEntered(id) =>
      s' == s.(removes := s.removes[i := if s.isStopped then RemoveReturned else RemoveChecked(id)])
    case RemoveChecked(id) =>
      s' == if id in s.registry
            then s.(removes := s.removes[i := RemoveFound(id)], registry := s.registry - {id})
            else s.(removes := s.removes[i := RemoveReturned])
    case RemoveFound(id) => StopConnection(s.(removes := s.removes[i := RemoveReturned]), id, s')
    case RemoveReturned => false
  }

  ghost predicate ShutdownNext(s: Client, s': Client) {
    match s.shutdown
    case Open => s' == s.(shutdown := Flagged, isStopped := true)
    case Flagged => s' == s.(shutdown := Signalled, doneClosed := true)
    case Signalled => s' == s.(shutdown := Closed, queueClosed := true)
    case Closed => s' == s.(shutdown := StoppingConnections(s.registry))
    case StoppingConnections(left) =>
      exists id :: id in left && StopConnection(s.(shutdown := StoppingConnections(left - {id})), id, s')
  }

  /** Steps of a connection's own goroutines; its write pump starts with its registration. */
  ghost predicate ConnectionNext(s: Client, id: nat, step: Step, s': Client) {
    && id in s.conns
    && (step.CallStop? || step.StopStep? || (step.PumpStep? && id in s.adds && s.adds[id].Registered?))
    && exists c :: NextStep(s.conns[id], c, step) && s' == s.(conns := s.conns[id := c])
  }

  ghost predicate BeginSend(s: Client, id: nat, s': Client)
    requires s.at.Visiting? && id in s.conns
  {
    exists c :: NextStep(s.conns[id], c, CallSend(s.at.event))
      && s' == s.(conns := s.conns[id := c],
                  at := Sending(s.at.event, s.at.pending - {id}, id, |s.conns[id].sends|))
  }

  ghost predicate ContinueSend(s: Client, s': Client)
    requires s.at.Sending? && s.at.to in s.conns && s.at.call < |s.conns[s.at.to].sends|
  {
    if s.conns[s.at.to].sends[s.at.call].pc == SendReturned then
      s' == s.(at := Visiting(s.at.event, s.at.pending))
    else
      exists c :: NextStep(s.conns[s.at.to], c, SendStep(s.at.call)) && s' == s.(conns := s.conns[s.at.to := c])
  }

  /** The steps of distributionPump outside conn.Send. */
  predicate PumpWalk(s: Client, s': Client) {
    match s.at
    case LoopTop => s' == s.(at := if s.isStopped then PumpDone else Receiving)
    case Receiving =>
      || (s.queue != [] && s' == s.(queue := s.queue[1..], at := Received(s.queue[0])))
      || (s.queue == [] && s.queueClosed && s' == s.(at := PumpDone))
      || (s.doneClosed && s' == s.(at := PumpDone))
    case Received(e) => s' == s.(at := if s.isStopped then PumpDone else Snapshotting(e))
    case Snapshotting(e) => s' == s.(at := if s.registry == {} then LoopTop else Visiting(e, s.registry))
    case Visiting(_, pending) => s' == s.(at := if pending == {} then LoopTop else PumpDone)
    case _ => false
  }

  ghost predicate PumpMoveNext(s: Client, s': Client) {
    if s.at.Sending? then
      s.at.to in s.conns && s.at.call < |s.conns[s.at.to].sends| && ContinueSend(s, s')
    else if s.at.Visiting? && s.at.pending != {} && !s.isStopped then
      exists id :: id in s.at.pending && id in s.conns && BeginSend(s, id, s')
    else
      PumpWalk(s, s')
  }

  ghost predicate MoveNext(s: Client, s': Client, move: Move) {
    match move
    case Accept(e) => AcceptNext(s, e, s')
    case NewConnection(id, buffer) => id !in s.conns && s' == s.(conns := s.conns[id := Init(buffer)])
    case CallAdd(id) => id in s.conns && id !in s.adds && s' == s.(adds := s.adds[id := AddEntered])
    case AddStep(id) => AddNext(s, id, s')
    case CallRemove(id) => s' == s.(removes := s.removes + [RemoveEntered(id)])
    case RemoveStep(i) => RemoveNext(s, i, s')
    case ShutdownStep => ShutdownNext(s, s')
    case ConnectionStep(id, step) => ConnectionNext(s, id, step, s')
    case PumpMove => PumpMoveNext(s, s')
  }

  ghost predicate ClientNext(s: Client, s': Client) {
    exists move :: MoveNext(s, s', move)
  }

  ghost predicate IsClientRun(run: seq<Client>, capacity: nat) {
    && |run| > 0 && run[0] == NewClient(capacity)
    && forall k :: 0 < k < |run| ==> ClientNext(run[k - 1], run[k])
  }

  // ---- Invariant -------------------------------------------------------------

  /** `part` is the piece of `whole` that starts at position `from`. */
  predicate StartsAt(part: seq<Event>, whole: seq<Event>, from: int) {
    0 <= from && from + |part| <= |whole| && part == whole[from..from + |part|]
  }

  predicate Holding(at: PumpAt) { at.Received? || at.Snapshotting? || at.Visiting? || at.Sending? }

  /** The connections of the current snapshot the pump is not finished with. */
  function Ahead(at: PumpAt): set<nat> {
    match at
    case Visiting(_, pending) => pending
    case Sending(_, pending, to, _) => pending + {to}
    case _ => {}
  }

  predicate Delivered(s: Client, id: nat) {
    match s.at
    case Received(_) => false
    case Snapshotting(_) => false
    case Visiting(_, pending) => id !in pending
    case Sending(_, pending, to, call) =>
      id !in pending && (id == to && id in s.conns && call < |s.conns[id].sends|
                         ==> s.conns[id].sends[call].outcome == Queued)
    case _ => true
  }

  /** The position of the next event connection `id` is to be offered. */
  function Position(s: Client, id: nat): int {
    if Delivered(s, id) then Taken(s) else Taken(s) - 1
  }

  predicate Joined(s: Client, id: nat) { id in s.adds && s.adds[id].Registered? }

  /** Where the history of a connection starts. */
  function JoinedAt(s: Client, id: nat): int { if Joined(s, id) then s.adds[id].from else 0 }

  predicate PumpOk(s: Client) {
    && (Holding(s.at) ==> Taken(s) >= 1 && s.accepted[Taken(s) - 1] == s.at.event)
    && (forall id :: id in s.registry ==> Joined(s, id))
    && (forall id :: id in Ahead(s.at) ==> Joined(s, id))
    && (s.at.Sending? ==>
          && s.at.to !in s.at.pending && s.at.to in s.conns
          && s.at.call == |s.conns[s.at.to].sends| - 1
          && s.conns[s.at.to].sends[s.at.call].event == s.at.event
          && (s.conns[s.at.to].sends[s.at.call].pc == Selecting ==> NobodySkipped(s.conns[s.at.to].sends)))
  }

  predicate Idle(sends: seq<SendCall>, exceptFor: int) {
    forall i :: 0 <= i < |sends| && i != exceptFor ==> sends[i].pc == SendReturned
  }

  function ActiveCall(at: PumpAt, id: nat): int {
    if at.Sending? && at.to == id then at.call else -1
  }

  /** Where the accepted events of a connection have to end, if the pump may still serve it. */
  datatype Duty = Free | Due(position: int)

  function DutyOf(s: Client, id: nat): Duty {
    if !s.at.PumpDone? && id in s.registry + Ahead(s.at) then Due(Position(s, id)) else Free
  }

  /**
    What holds of the history of one connection: its channel accepted a piece of the client's
    history from where it joined, and if the pump may still serve it and nothing was skipped,
    the piece reaches up to where the pump stands.
   */
  predicate LedgerOk(joined: bool, from: int, sends: seq<SendCall>, entered: seq<Event>, accepted: seq<Event>,
                     activeCall: int, duty: Duty)
  {
    && (joined || (sends == [] && entered == []))
    && Idle(sends, activeCall)
    && StartsAt(entered, accepted, from)
    && (duty.Due? && NobodySkipped(sends) ==> from + |entered| == duty.position)
  }

  ghost predicate LedgerOf(s: Client, id: nat)
    requires id in s.conns
  {
    LedgerOk(Joined(s, id), JoinedAt(s, id), s.conns[id].sends, s.conns[id].entered, s.accepted,
             ActiveCall(s.at, id), DutyOf(s, id))
  }

  ghost predicate LedgersOk(s: Client) {
    forall id :: id in s.conns ==> LedgerOf(s, id)
  }

  predicate ConnectionsSound(conns: map<nat, State>) {
    forall id :: id in conns ==> Inv(conns[id])
  }

  predicate QueueOk(s: Client) {
    0 <= Taken(s) && s.queue == s.accepted[Taken(s)..]
  }

  ghost predicate Bookkept(s: Client) {
    QueueOk(s) && s.adds.Keys <= s.conns.Keys && PumpOk(s) && LedgersOk(s)
  }

  ghost predicate ClientInv(s: Client) { Bookkept(s) && ConnectionsSound(s.conns) }

  // ---- Preservation ----------------------------------------------------------

  /** A longer history keeps every piece in its place. */
  lemma StartsAtExtends(part: seq<Event>, whole: seq<Event>, from: int, e: Event)
    requires StartsAt(part, whole, from)
    ensures StartsAt(part, whole + [e], from)
  {
    assert (whole + [e])[from..from + |part|] == whole[from..from + |part|];
  }

  /** An untouched history stays good when the duty is kept or dropped. */
  lemma LedgerStays(s: Client, s': Client, j: nat)
    requires j in s.conns && j in s'.conns && LedgerOf(s, j)
    requires s'.conns[j].sends == s.conns[j].sends && s'.conns[j].entered == s.conns[j].entered
    requires s'.accepted == s.accepted && Joined(s', j) == Joined(s, j) && JoinedAt(s', j) == JoinedAt(s, j)
    requires DutyOf(s', j) == Free || DutyOf(s', j) == DutyOf(s, j)
    requires ActiveCall(s'.at, j) == ActiveCall(s.at, j)
    ensures LedgerOf(s', j)
  {
  }

  lemma LedgerGrows(s: Client, s': Client, j: nat, e: Event)
    requires j in s.conns && j in s'.conns && LedgerOf(s, j)
    requires s'.conns[j].sends == s.conns[j].sends && s'.conns[j].entered == s.conns[j].entered
    requires s'.accepted == s.accepted + [e] && Joined(s', j) == Joined(s, j) && JoinedAt(s', j) == JoinedAt(s, j)
    requires DutyOf(s', j) == DutyOf(s, j)
    requires ActiveCall(s'.at, j) == ActiveCall(s.at, j)
    ensures LedgerOf(s', j)
  {
    StartsAtExtends(s.conns[j].entered, s.accepted, JoinedAt(s, j), e);
  }

  /** The connection the pump is sending to has the same calls before and after. */
  predicate SameActiveCalls(s: Client, s': Client) {
    s.at.Sending? ==>
      (s.at.to in s.conns && s.at.to in s'.conns && s'.conns[s.at.to].sends == s.conns[s.at.to].sends)
  }

  /** What a connection is owed depends on the pump, the queue and the registry only. */
  lemma SameDuty(s: Client, s': Client, j: nat)
    requires s'.at == s.at && s'.accepted == s.accepted && s'.queue == s.queue
    requires j in s'.registry ==> j in s.registry
    requires SameActiveCalls(s, s')
    ensures DutyOf(s', j) == Free || DutyOf(s', j) == DutyOf(s, j)
    ensures ActiveCall(s'.at, j) == ActiveCall(s.at, j)
  {
  }

  lemma PumpStays(s: Client, s': Client)
    requires PumpOk(s)
    requires s'.at == s.at && s'.accepted == s.accepted && s'.queue == s.queue && s'.registry <= s.registry
    requires forall id :: Joined(s, id) ==> Joined(s', id)
    requires SameActiveCalls(s, s')
    ensures PumpOk(s')
  {
  }

  lemma AcceptDuty(s: Client, e: Event, s': Client, j: nat)
    requires QueueOk(s) && AcceptNext(s, e, s')
    ensures DutyOf(s', j) == DutyOf(s, j) && ActiveCall(s'.at, j) == ActiveCall(s.at, j)
    ensures s'.conns == s.conns && s'.adds == s.adds && s'.accepted == s.accepted + [e]
  {
  }

  lemma DropOfSnoc(whole: seq<Event>, e: Event, from: nat)
    requires from <= |whole|
    ensures (whole + [e])[from..] == whole[from..] + [e]
  {
  }

  lemma BufferedPump(s: Client, e: Event, s': Client)
    requires QueueOk(s) && PumpOk(s) && s' == s.(queue := s.queue + [e], accepted := s.accepted + [e])
    ensures QueueOk(s') && PumpOk(s')
  {
    hide Ahead;
    DropOfSnoc(s.accepted, e, Taken(s));
  }

  lemma HandedPump(s: Client, e: Event, s': Client)
    requires QueueOk(s) && PumpOk(s) && s.queue == [] && s.at == Receiving
    requires s' == s.(accepted := s.accepted + [e], at := Received(e))
    ensures QueueOk(s') && PumpOk(s')
  {
    assert s'.accepted[Taken(s')..] == [];
  }

  lemma AcceptPump(s: Client, e: Event, s': Client)
    requires QueueOk(s) && PumpOk(s) && AcceptNext(s, e, s')
    ensures QueueOk(s') && PumpOk(s')
  {
    hide QueueOk, PumpOk;
    if s'.at == s.at { BufferedPump(s, e, s'); } else { HandedPump(s, e, s'); }
  }

  lemma AcceptKeeps(s: Client, e: Event, s': Client)
    requires Bookkept(s) && AcceptNext(s, e, s')
    ensures Bookkept(s')
  {
    hide LedgerOk, PumpOk, QueueOk, DutyOf, ActiveCall, AcceptNext;
    AcceptPump(s, e, s');
    AcceptDuty(s, e, s', 0);
    forall j | j in s'.conns ensures LedgerOf(s', j) {
      assert LedgerOf(s, j);
      AcceptDuty(s, e, s', j);
      LedgerGrows(s, s', j, e);
    }
  }

  /** A connection may change anything but its sends and its accepted events. */
  lemma QuietChangeKeeps(s: Client, id: nat, c: State)
    requires Bookkept(s) && id in s.conns
    requires c.sends == s.conns[id].sends && c.entered == s.conns[id].entered
    ensures Bookkept(s.(conns := s.conns[id := c]))
  {
    hide LedgerOk, DutyOf, ActiveCall;
    var s' := s.(conns := s.conns[id := c]);
    PumpStays(s, s');
    forall j | j in s'.conns ensures LedgerOf(s', j) {
      assert LedgerOf(s, j);
      SameDuty(s, s', j);
      LedgerStays(s, s', j);
    }
  }

  lemma QuietConnectionKeeps(s: Client, id: nat, step: Step, c: State)
    requires Bookkept(s) && id in s.conns && (step.CallStop? || step.StopStep? || step.PumpStep?)
    requires NextStep(s.conns[id], c, step)
    ensures Bookkept(s.(conns := s.conns[id := c]))
  {
    QuietFrame(s.conns[id], c, step);
    QuietChangeKeeps(s, id, c);
  }

  /** Steps that leave connections, histories and the pump alone. */
  lemma BookkeepingKeeps(s: Client, s': Client)
    requires Bookkept(s)
    requires s'.conns == s.conns && s'.queue == s.queue && s'.accepted == s.accepted && s'.at == s.at
    requires s'.registry <= s.registry && s'.adds.Keys <= s.conns.Keys
    requires forall id :: Joined(s', id) == Joined(s, id) && JoinedAt(s', id) == JoinedAt(s, id)
    ensures Bookkept(s')
  {
    hide LedgerOk, DutyOf, ActiveCall;
    PumpStays(s, s');
    forall j | j in s'.conns ensures LedgerOf(s', j) {
      assert LedgerOf(s, j);
      SameDuty(s, s', j);
      LedgerStays(s, s', j);
    }
  }

  /** An empty history is good wherever it starts, if nothing is due before. */
  lemma EmptyLedger(joined: bool, from: int, accepted: seq<Event>, activeCall: int, duty: Duty)
    requires 0 <= from <= |accepted| && (duty.Due? ==> duty.position == from)
    ensures LedgerOk(joined, from, [], [], accepted, activeCall, duty)
  {
  }

  /** A connection is due an event only once it has joined. */
  lemma OnlyJoinedAreDue(s: Client, id: nat)
    requires QueueOk(s) && PumpOk(s)
    ensures DutyOf(s, id).Due? ==> Joined(s, id) && 0 <= DutyOf(s, id).position <= |s.accepted|
  {
  }

  lemma NewConnectionKeeps(s: Client, id: nat, buffer: nat, s': Client)
    requires Bookkept(s) && id !in s.conns && s' == s.(conns := s.conns[id := Init(buffer)])
    ensures Bookkept(s')
  {
    hide LedgerOk, DutyOf, ActiveCall;
    assert !Joined(s, id);
    PumpStays(s, s');
    forall j | j in s'.conns ensures LedgerOf(s', j) {
      if j == id {
        OnlyJoinedAreDue(s', j);
        EmptyLedger(Joined(s', j), JoinedAt(s', j), s'.accepted, ActiveCall(s'.at, j), DutyOf(s', j));
      } else {
        assert LedgerOf(s, j);
        SameDuty(s, s', j);
        LedgerStays(s, s', j);
      }
    }
  }

  lemma NotJoinedIsEmpty(s: Client, id: nat)
    requires id in s.conns && LedgerOf(s, id) && !Joined(s, id)
    ensures s.conns[id].sends == [] && s.conns[id].entered == []
  {
  }

  predicate Registers(s: Client, id: nat, s': Client) {
    && id in s.adds && s.adds[id] == AddChecked
    && s' == s.(adds := s.adds[id := Registered(FirstOffered(s))], registry := s.registry + {id})
  }

  lemma RegisterPump(s: Client, id: nat, s': Client)
    requires PumpOk(s) && Registers(s, id, s')
    ensures PumpOk(s')
    ensures forall j :: j != id ==> Joined(s', j) == Joined(s, j) && JoinedAt(s', j) == JoinedAt(s, j)
  {
  }

  /** A connection that joins is due exactly the event it is recorded to start with. */
  lemma JoinsWhereItIsDue(s: Client, id: nat, s': Client)
    requires QueueOk(s) && PumpOk(s) && Registers(s, id, s')
    ensures 0 <= JoinedAt(s', id) <= |s'.accepted|
    ensures DutyOf(s', id).Due? ==> DutyOf(s', id).position == JoinedAt(s', id)
  {
    assert !Joined(s, id);
    assert id !in Ahead(s.at);
  }

  /** A connection that joins starts with an empty history. */
  lemma RegisterKeeps(s: Client, id: nat, s': Client)
    requires Bookkept(s) && Registers(s, id, s')
    ensures Bookkept(s')
  {
    hide LedgerOk, DutyOf, ActiveCall, PumpOk;
    RegisterPump(s, id, s');
    forall j | j in s'.conns ensures LedgerOf(s', j) {
      assert LedgerOf(s, j);
      if j == id {
        NotJoinedIsEmpty(s, j);
        JoinsWhereItIsDue(s, id, s');
        EmptyLedger(Joined(s', j), JoinedAt(s', j), s'.accepted, ActiveCall(s'.at, j), DutyOf(s', j));
      } else {
        RegisterDuty(s, s', j);
        LedgerStays(s, s', j);
      }
    }
  }

  lemma RegisterDuty(s: Client, s': Client, j: nat)
    requires PumpOk(s) && s'.at == s.at && s'.accepted == s.accepted && s'.queue == s.queue && s'.conns == s.conns
    requires j in s'.registry <==> j in s.registry
    ensures DutyOf(s', j) == DutyOf(s, j) && ActiveCall(s'.at, j) == ActiveCall(s.at, j)
  {
  }

  lemma AddKeeps(s: Client, id: nat, s': Client)
    requires Bookkept(s) && AddNext(s, id, s')
    ensures Bookkept(s')
  {
    if s.adds[id] == AddEntered {
      BookkeepingKeeps(s, s');
    } else {
      RegisterKeeps(s, id, s');
    }
  }

  lemma RemoveKeeps(s: Client, i: nat, s': Client)
    requires Bookkept(s) && RemoveNext(s, i, s')
    ensures Bookkept(s')
  {
    hide NextStep, LedgersOk, PumpOk, QueueOk;
    if s.removes[i].RemoveFound? {
      var mid := s.(removes := s.removes[i := RemoveReturned]);
      BookkeepingKeeps(s, mid);
      var c :| NextStep(s.conns[s.removes[i].id], c, CallStop) && s' == mid.(conns := s.conns[s.removes[i].id := c]);
      QuietConnectionKeeps(mid, s.removes[i].id, CallStop, c);
    } else {
      BookkeepingKeeps(s, s');
    }
  }

  lemma ShutdownKeeps(s: Client, s': Client)
    requires Bookkept(s) && ShutdownNext(s, s')
    ensures Bookkept(s')
  {
    hide NextStep, LedgersOk, PumpOk, QueueOk;
    if s.shutdown.StoppingConnections? {
      var left := s.shutdown.left;
      var id :| id in left && StopConnection(s.(shutdown := StoppingConnections(left - {id})), id, s');
      var mid := s.(shutdown := StoppingConnections(left - {id}));
      BookkeepingKeeps(s, mid);
      var c :| NextStep(s.conns[id], c, CallStop) && s' == mid.(conns := s.conns[id := c]);
      QuietConnectionKeeps(mid, id, CallStop, c);
    } else {
      BookkeepingKeeps(s, s');
    }
  }

  lemma PumpWalkDuty(s: Client, s': Client, j: nat)
    requires QueueOk(s) && PumpWalk(s, s')
    ensures DutyOf(s', j) == Free || DutyOf(s', j) == DutyOf(s, j)
    ensures s'.conns == s.conns && s'.accepted == s.accepted && s'.adds == s.adds && s'.registry == s.registry
    ensures ActiveCall(s'.at, j) == ActiveCall(s.at, j)
  {
  }

  lemma ReceiveKeepsPositions(s: Client, s': Client)
    requires QueueOk(s) && PumpOk(s) && s.at == Receiving && PumpWalk(s, s')
    ensures QueueOk(s') && PumpOk(s')
  {
    if s.queue != [] { assert s.queue[1..] == s.accepted[Taken(s) + 1..]; }
  }

  /** The pump may move on as long as it keeps its event and serves registered connections only. */
  lemma MovedPump(s: Client, at': PumpAt)
    requires QueueOk(s) && PumpOk(s) && !at'.Sending?
    requires Holding(at') ==> Holding(s.at) && at'.event == s.at.event
    requires forall id :: id in Ahead(at') ==> id in s.registry
    ensures QueueOk(s.(at := at')) && PumpOk(s.(at := at'))
  {
    assert Taken(s.(at := at')) == Taken(s);
  }

  lemma OtherWalksKeepPositions(s: Client, s': Client)
    requires QueueOk(s) && PumpOk(s) && s.at != Receiving && PumpWalk(s, s')
    ensures QueueOk(s') && PumpOk(s')
  {
    hide QueueOk, PumpOk;
    MovedPump(s, s'.at);
    assert s' == s.(at := s'.at);
  }

  lemma PumpWalkPositions(s: Client, s': Client)
    requires QueueOk(s) && PumpOk(s) && PumpWalk(s, s')
    ensures QueueOk(s') && PumpOk(s')
  {
    hide PumpWalk, PumpOk, QueueOk;
    if s.at == Receiving {
      ReceiveKeepsPositions(s, s');
    } else {
      OtherWalksKeepPositions(s, s');
    }
  }

  lemma PumpWalkLedger(s: Client, s': Client, j: nat)
    requires QueueOk(s) && PumpWalk(s, s') && j in s.conns && j in s'.conns && LedgerOf(s, j)
    ensures LedgerOf(s', j)
  {
    hide LedgerOk, DutyOf, ActiveCall, PumpWalk;
    PumpWalkDuty(s, s', j);
    LedgerStays(s, s', j);
  }

  /** Pump steps outside conn.Send only move the position markers. */
  lemma PumpWalkKeeps(s: Client, s': Client)
    requires Bookkept(s) && PumpWalk(s, s')
    ensures Bookkept(s')
  {
    hide LedgerOk, DutyOf, ActiveCall, PumpWalk, PumpOk, QueueOk;
    PumpWalkPositions(s, s');
    PumpWalkDuty(s, s', 0);
    forall j | j in s'.conns ensures LedgerOf(s', j) {
      assert LedgerOf(s, j);
      PumpWalkLedger(s, s', j);
    }
  }

  predicate BeginsSend(s: Client, id: nat, c: State, s': Client) {
    && s.at.Visiting? && id in s.at.pending && id in s.conns
    && c.entered == s.conns[id].entered
    && c.sends == s.conns[id].sends + [SendCall(s.at.event, Entered, Undecided)]
    && s' == s.(conns := s.conns[id := c],
                at := Sending(s.at.event, s.at.pending - {id}, id, |s.conns[id].sends|))
  }

  lemma BeginSendDuty(s: Client, id: nat, c: State, s': Client, j: nat)
    requires QueueOk(s) && PumpOk(s) && BeginsSend(s, id, c, s')
    ensures DutyOf(s', j) == DutyOf(s, j) && ActiveCall(s.at, j) == -1
    ensures ActiveCall(s'.at, j) == if j == id then |s.conns[id].sends| else -1
  {
  }

  lemma BeginSendPump(s: Client, id: nat, c: State, s': Client)
    requires QueueOk(s) && PumpOk(s) && BeginsSend(s, id, c, s')
    ensures QueueOk(s') && PumpOk(s')
  {
    assert Ahead(s'.at) == Ahead(s.at);
  }

  lemma BeginSendLedger(from: int, sends: seq<SendCall>, call: SendCall, entered: seq<Event>, accepted: seq<Event>,
                        duty: Duty)
    requires LedgerOk(true, from, sends, entered, accepted, -1, duty)
    ensures LedgerOk(true, from, sends + [call], entered, accepted, |sends|, duty)
  {
    if NobodySkipped(sends + [call]) { SkippedBefore(sends, call); }
  }

  lemma BeginSendKeeps(s: Client, id: nat, c: State, s': Client)
    requires Bookkept(s) && BeginsSend(s, id, c, s')
    ensures Bookkept(s')
  {
    hide LedgerOk, DutyOf, ActiveCall, QueueOk;
    BeginSendPump(s, id, c, s');
    assert Joined(s, id);
    hide PumpOk;
    forall j | j in s'.conns ensures LedgerOf(s', j) {
      assert LedgerOf(s, j);
      BeginSendDuty(s, id, c, s', j);
      if j == id {
        BeginSendLedger(JoinedAt(s, j), s.conns[id].sends, SendCall(s.at.event, Entered, Undecided), c.entered,
                        s.accepted, DutyOf(s, j));
      } else {
        LedgerStays(s, s', j);
      }
    }
  }

  lemma SkippedBefore(sends: seq<SendCall>, c: SendCall)
    requires NobodySkipped(sends + [c])
    ensures NobodySkipped(sends)
  {
    forall i | 0 <= i < |sends| ensures sends[i].outcome != Skipped { assert (sends + [c])[i] == sends[i]; }
  }

  predicate EndsSend(s: Client, s': Client) {
    && s.at.Sending? && s.at.to in s.conns && s.at.call < |s.conns[s.at.to].sends|
    && s.conns[s.at.to].sends[s.at.call].pc == SendReturned
    && s.conns[s.at.to].sends[s.at.call].outcome != Undecided
    && s' == s.(at := Visiting(s.at.event, s.at.pending))
  }

  /** The connection just served is done with the event, unless its call was skipped. */
  lemma EndSendDuty(s: Client, s': Client, j: nat)
    requires PumpOk(s) && EndsSend(s, s')
    ensures ActiveCall(s'.at, j) == -1 && (j != s.at.to ==> ActiveCall(s.at, j) == -1)
    ensures DutyOf(s', j) == Free || DutyOf(s', j) == DutyOf(s, j)
      || (j == s.at.to && s.conns[j].sends[s.at.call].outcome == Skipped)
  {
  }

  lemma EndSendPump(s: Client, s': Client)
    requires QueueOk(s) && PumpOk(s) && EndsSend(s, s')
    ensures QueueOk(s') && PumpOk(s')
  {
    assert Ahead(s'.at) <= Ahead(s.at);
  }

  lemma EndSendLedger(joined: bool, from: int, sends: seq<SendCall>, entered: seq<Event>, accepted: seq<Event>,
                      call: nat, before: Duty, after: Duty)
    requires LedgerOk(joined, from, sends, entered, accepted, call, before)
    requires call < |sends| && sends[call].pc == SendReturned
    requires after == Free || after == before || sends[call].outcome == Skipped
    ensures LedgerOk(joined, from, sends, entered, accepted, -1, after)
  {
  }

  lemma EndSendKeeps(s: Client, s': Client)
    requires Bookkept(s) && EndsSend(s, s')
    ensures Bookkept(s')
  {
    hide LedgerOk, DutyOf, QueueOk, PumpOk;
    EndSendPump(s, s');
    forall j | j in s'.conns ensures LedgerOf(s', j) {
      assert LedgerOf(s, j);
      EndSendDuty(s, s', j);
      if j == s.at.to {
        EndSendLedger(Joined(s, j), JoinedAt(s, j), s.conns[j].sends, s.conns[j].entered, s.accepted,
                      s.at.call, DutyOf(s, j), DutyOf(s', j));
      } else {
        LedgerStays(s, s', j);
      }
    }
  }

  /** One step inside conn.Send, as far as this client can tell. */
  predicate SendsOn(s: Client, c: State, s': Client) {
    && s.at.Sending? && s.at.to in s.conns && s' == s.(conns := s.conns[s.at.to := c])
    && s.at.call < |s.conns[s.at.to].sends|
    && SendsOneStep(s.conns[s.at.to], s.at.call, c)
  }

  predicate SendsOneStep(b: State, i: nat, c: State)
    requires i < |b.sends|
  {
    && |c.sends| == |b.sends| && c.sends == b.sends[i := c.sends[i]]
    && c.sends[i].event == b.sends[i].event
    && (c.sends[i].pc == Selecting ==> NobodySkipped(c.sends))
    && (|| (c.entered == b.entered && c.sends[i].outcome in {b.sends[i].outcome, Skipped})
        || (b.sends[i].pc == Selecting && b.sends[i].outcome == Undecided && c.sends[i].outcome == Queued
            && c.entered == b.entered + [b.sends[i].event]))
  }

  /** The connection the pump is sending to is owed this event until it is queued. */
  lemma ActiveDuty(s: Client)
    requires PumpOk(s) && s.at.Sending?
    ensures DutyOf(s, s.at.to)
         == Due(if s.conns[s.at.to].sends[s.at.call].outcome == Queued then Taken(s) else Taken(s) - 1)
    ensures Joined(s, s.at.to)
  {
  }

  lemma SendOnDuty(s: Client, c: State, s': Client, j: nat)
    requires PumpOk(s) && SendsOn(s, c, s') && j != s.at.to
    ensures DutyOf(s', j) == DutyOf(s, j)
  {
  }

  lemma SendOnPump(s: Client, c: State, s': Client)
    requires QueueOk(s) && PumpOk(s) && SendsOn(s, c, s')
    ensures QueueOk(s') && PumpOk(s')
  {
  }

  lemma SkipsRemain(b: State, i: nat, c: State)
    requires i < |b.sends| && SendsOneStep(b, i, c) && NobodySkipped(c.sends)
    ensures NobodySkipped(b.sends) && (c.entered == b.entered ==> c.sends[i].outcome == b.sends[i].outcome)
  {
    forall k | 0 <= k < |b.sends| ensures b.sends[k].outcome != Skipped {
      if k != i { assert c.sends[k] == b.sends[k]; }
    }
  }

  lemma OneMore(part: seq<Event>, whole: seq<Event>, from: int)
    requires StartsAt(part, whole, from) && from + |part| < |whole|
    ensures StartsAt(part + [whole[from + |part|]], whole, from)
  {
    var end := from + |part|;
    assert whole[from..end + 1] == part + [whole[end]];
  }

  /** The event is appended where it belongs, or the connection is marked as skipped. */
  lemma ActiveLedger(b: State, i: nat, c: State, from: int, accepted: seq<Event>, taken: int)
    requires i < |b.sends| && SendsOneStep(b, i, c)
    requires 1 <= taken <= |accepted| && accepted[taken - 1] == b.sends[i].event
    requires b.sends[i].pc == Selecting ==> NobodySkipped(b.sends)
    requires LedgerOk(true, from, b.sends, b.entered, accepted, i,
                      Due(if b.sends[i].outcome == Queued then taken else taken - 1))
    ensures LedgerOk(true, from, c.sends, c.entered, accepted, i,
                     Due(if c.sends[i].outcome == Queued then taken else taken - 1))
  {
    if NobodySkipped(c.sends) { SkipsRemain(b, i, c); }
    if c.entered != b.entered { OneMore(b.entered, accepted, from); }
  }

  lemma ContinueSendKeeps(s: Client, c: State, s': Client)
    requires Bookkept(s) && SendsOn(s, c, s')
    ensures Bookkept(s')
  {
    hide LedgerOk, DutyOf;
    SendOnPump(s, c, s');
    forall j | j in s'.conns ensures LedgerOf(s', j) {
      assert LedgerOf(s, j);
      if j != s.at.to {
        SendOnDuty(s, c, s', j);
        LedgerStays(s, s', j);
      } else {
        ActiveDuty(s);
        ActiveDuty(s');
        ActiveLedger(s.conns[j], s.at.call, c, JoinedAt(s, j), s.accepted, Taken(s));
      }
    }
  }

  lemma SendStepKeeps(s: Client, c: State, s': Client)
    requires Bookkept(s) && s.at.Sending? && s' == s.(conns := s.conns[s.at.to := c])
    requires Inv(s.conns[s.at.to]) && NextStep(s.conns[s.at.to], c, SendStep(s.at.call))
    ensures Bookkept(s')
  {
    hide Inv, LedgersOk;
    SendSummary(s.conns[s.at.to], s.at.call, c);
    ContinueSendKeeps(s, c, s');
  }

  lemma PumpKeeps(s: Client, s': Client)
    requires Bookkept(s) && PumpMoveNext(s, s')
    requires s.at.Sending? ==> Inv(s.conns[s.at.to])
    ensures Bookkept(s')
  {
    if s.at.Sending? {
      var id, call := s.at.to, s.at.call;
      if s.conns[id].sends[call].pc == SendReturned {
        ReturnedHasOutcome(s.conns[id], call);
        EndSendKeeps(s, s');
      } else {
        var c :| NextStep(s.conns[id], c, SendStep(call)) && s' == s.(conns := s.conns[id := c]);
        SendStepKeeps(s, c, s');
      }
    } else if s.at.Visiting? && s.at.pending != {} && !s.isStopped {
      var id :| id in s.at.pending && id in s.conns && BeginSend(s, id, s');
      var c :| NextStep(s.conns[id], c, CallSend(s.at.event))
            && s' == s.(conns := s.conns[id := c],
                        at := Sending(s.at.event, s.at.pending - {id}, id, |s.conns[id].sends|));
      BeginSendKeeps(s, id, c, s');
    } else {
      PumpWalkKeeps(s, s');
    }
  }

  lemma CallAddKeeps(s: Client, id: nat, s': Client)
    requires Bookkept(s) && id in s.conns && id !in s.adds && s' == s.(adds := s.adds[id := AddEntered])
    ensures Bookkept(s')
  {
    hide LedgersOk, PumpOk, QueueOk;
    BookkeepingKeeps(s, s');
  }

  lemma CallRemoveKeeps(s: Client, id: nat, s': Client)
    requires Bookkept(s) && s' == s.(removes := s.removes + [RemoveEntered(id)])
    ensures Bookkept(s')
  {
    hide LedgersOk, PumpOk, QueueOk;
    BookkeepingKeeps(s, s');
  }

  lemma ConnectionStepKeeps(s: Client, id: nat, step: Step, s': Client)
    requires Bookkept(s) && ConnectionNext(s, id, step, s')
    ensures Bookkept(s')
  {
    hide Bookkept, NextStep;
    var c :| NextStep(s.conns[id], c, step) && s' == s.(conns := s.conns[id := c]);
    QuietConnectionKeeps(s, id, step, c);
  }

  lemma BookkeptKeeps(s: Client, s': Client, move: Move)
    requires Bookkept(s) && MoveNext(s, s', move)
    requires s.at.Sending? ==> Inv(s.conns[s.at.to])
    ensures Bookkept(s')
  {
    hide Bookkept, Inv, AcceptNext, AddNext, RemoveNext, ShutdownNext, ConnectionNext, PumpMoveNext;
    match move
    case Accept(e) => AcceptKeeps(s, e, s');
    case NewConnection(id, buffer) => NewConnectionKeeps(s, id, buffer, s');
    case CallAdd(id) => CallAddKeeps(s, id, s');
    case AddStep(id) => AddKeeps(s, id, s');
    case CallRemove(id) => CallRemoveKeeps(s, id, s');
    case RemoveStep(i) => RemoveKeeps(s, i, s');
    case ShutdownStep => ShutdownKeeps(s, s');
    case ConnectionStep(id, step) => ConnectionStepKeeps(s, id, step, s');
    case PumpMove => PumpKeeps(s, s');
  }

  /** Nothing happens to the connections, or one of them takes one step. */
  ghost predicate OneConnectionMoves(conns: map<nat, State>, conns': map<nat, State>) {
    conns' == conns
    || exists id, c, step :: id in conns && NextStep(conns[id], c, step) && conns' == conns[id := c]
  }

  lemma RemoveMovesOne(s: Client, i: nat, s': Client)
    requires RemoveNext(s, i, s')
    ensures OneConnectionMoves(s.conns, s'.conns)
  {
    hide NextStep;
  }

  lemma ShutdownMovesOne(s: Client, s': Client)
    requires ShutdownNext(s, s')
    ensures OneConnectionMoves(s.conns, s'.conns)
  {
    hide NextStep;
  }

  lemma PumpMovesOne(s: Client, s': Client)
    requires PumpMoveNext(s, s')
    ensures OneConnectionMoves(s.conns, s'.conns)
  {
    hide NextStep;
  }

  lemma OthersMoveOne(s: Client, s': Client, move: Move)
    requires MoveNext(s, s', move)
    requires !move.NewConnection? && !move.RemoveStep? && !move.ShutdownStep? && !move.PumpMove?
    ensures OneConnectionMoves(s.conns, s'.conns)
  {
    hide NextStep;
  }

  /** Every step of the client is a step, or no step, of each of its connections. */
  lemma MoveProjects(s: Client, s': Client, move: Move, id: nat)
    requires MoveNext(s, s', move) && id in s'.conns
    ensures id in s.conns ==> s'.conns[id] == s.conns[id] || Next(s.conns[id], s'.conns[id])
    ensures id !in s.conns ==> exists buffer :: s'.conns[id] == Init(buffer)
  {
    hide NextStep, RemoveNext, ShutdownNext, PumpMoveNext, AddNext, AcceptNext, ConnectionNext;
    match move
    case NewConnection(j, buffer) => if j == id { assert s'.conns[id] == Init(buffer); }
    case RemoveStep(i) => RemoveMovesOne(s, i, s');
    case ShutdownStep => ShutdownMovesOne(s, s');
    case PumpMove => PumpMovesOne(s, s');
    case _ => OthersMoveOne(s, s', move);
  }

  lemma InitIsSound(buffer: nat)
    ensures Inv(Init(buffer))
  {
  }

  lemma ConnectionsStaySound(s: Client, s': Client, move: Move)
    requires ConnectionsSound(s.conns) && MoveNext(s, s', move)
    ensures ConnectionsSound(s'.conns)
  {
    hide MoveNext, NextStep, Inv, Init;
    forall id | id in s'.conns ensures Inv(s'.conns[id]) {
      MoveProjects(s, s', move, id);
      if id !in s.conns {
        var buffer :| s'.conns[id] == Init(buffer);
        InitIsSound(buffer);
      } else if s'.conns[id] != s.conns[id] {
        var step :| NextStep(s.conns[id], s'.conns[id], step);
        StepKeepsInv(s.conns[id], s'.conns[id], step);
      }
    }
  }

  lemma MoveKeepsInv(s: Client, s': Client, move: Move)
    requires ClientInv(s) && MoveNext(s, s', move)
    ensures ClientInv(s')
  {
    hide MoveNext, Inv, LedgersOk;
    BookkeptKeeps(s, s', move);
    ConnectionsStaySound(s, s', move);
  }

  lemma NewClientIsSound(capacity: nat)
    ensures ClientInv(NewClient(capacity))
  {
  }

  lemma {:induction false} RunKeepsInv(run: seq<Client>, capacity: nat)
    requires IsClientRun(run, capacity)
    ensures ClientInv(run[|run| - 1])
  {
    hide ClientInv, NewClient, MoveNext;
    var n := |run| - 1;
    if n == 0 {
      NewClientIsSound(capacity);
    } else {
      RunKeepsInv(run[..n], capacity);
      assert ClientNext(run[n - 1], run[n]);
      var move :| MoveNext(run[n - 1], run[n], move);
      MoveKeepsInv(run[n - 1], run[n], move);
    }
  }

  // ---- Delivery --------------------------------------------------------------

  lemma PrefixOfPiece(part: seq<Event>, piece: seq<Event>, whole: seq<Event>, from: int)
    requires part <= piece && StartsAt(piece, whole, from)
    ensures StartsAt(part, whole, from)
  {
    assert whole[from..from + |piece|][..|part|] == whole[from..from + |part|];
  }

  /**
    In every run, whatever joins, leaves or stops meanwhile, what a connection wrote to its
    wire is a contiguous piece of what the client's queue accepted, from the event it joined
    at: in order, without gaps and each accepted position at most once.
   */
  lemma WireIsContiguous(run: seq<Client>, capacity: nat, id: nat)
    requires IsClientRun(run, capacity) && id in run[|run| - 1].conns
    ensures var s := run[|run| - 1]; StartsAt(s.conns[id].wire, s.accepted, JoinedAt(s, id))
  {
    RunKeepsInv(run, capacity);
    var s := run[|run| - 1];
    assert LedgerOf(s, id);
    WireIsPrefix(s.conns[id]);
    PrefixOfPiece(s.conns[id].wire, s.conns[id].entered, s.accepted, JoinedAt(s, id));
  }

  /**
    Nothing is lost on the way to a connection that is registered and has not been stopped:
    whenever the pump is between two events, the connection's channel has accepted exactly
    the events the pump received since the connection joined, all of them and no other.
   */
  lemma RegisteredIsUpToDate(run: seq<Client>, capacity: nat, id: nat)
    requires IsClientRun(run, capacity)
    requires var s := run[|run| - 1]; id in s.registry && s.at in {LoopTop, Receiving}
    ensures var s := run[|run| - 1];
      && id in s.conns && Joined(s, id) && 0 <= JoinedAt(s, id)
      && (!s.conns[id].isDone ==>
            JoinedAt(s, id) <= Taken(s) <= |s.accepted|
            && s.conns[id].entered == s.accepted[JoinedAt(s, id)..Taken(s)])
  {
    RunKeepsInv(run, capacity);
    var s := run[|run| - 1];
    assert Joined(s, id) && id in s.conns;
    assert LedgerOf(s, id);
    if !s.conns[id].isDone { SkipsFollowFlag(s.conns[id]); }
  }

  /** What has joined stays joined where it was, and the accepted events only grow. */
  ghost predicate Remembers(accepted: seq<Event>, adds: map<nat, AddPc>, accepted': seq<Event>, adds': map<nat, AddPc>)
  {
    && accepted <= accepted'
    && forall id :: id in adds && adds[id].Registered? ==> id in adds' && adds'[id] == adds[id]
  }

  lemma RemoveRemembers(s: Client, i: nat, s': Client)
    requires RemoveNext(s, i, s')
    ensures s'.accepted == s.accepted && s'.adds == s.adds
  {
    hide NextStep;
  }

  lemma ShutdownRemembers(s: Client, s': Client)
    requires ShutdownNext(s, s')
    ensures s'.accepted == s.accepted && s'.adds == s.adds
  {
    hide NextStep;
  }

  /** Only the connections, the pump's place and the queue differ. */
  predicate OnlyPumpMoves(s: Client, s': Client) {
    s' == s.(conns := s'.conns, at := s'.at, queue := s'.queue) && |s'.queue| <= |s.queue|
  }

  lemma ContinueSendFrame(s: Client, s': Client)
    requires s.at.Sending? && s.at.to in s.conns && s.at.call < |s.conns[s.at.to].sends| && ContinueSend(s, s')
    ensures OnlyPumpMoves(s, s')
  {
    hide NextStep;
  }

  lemma BeginSendFrame(s: Client, id: nat, s': Client)
    requires s.at.Visiting? && id in s.conns && BeginSend(s, id, s')
    ensures OnlyPumpMoves(s, s')
  {
    hide NextStep;
  }

  lemma PumpWalkFrame(s: Client, s': Client)
    requires PumpWalk(s, s')
    ensures OnlyPumpMoves(s, s')
  {
  }

  /** The distribution pump touches nothing else. */
  lemma PumpFrameOf(s: Client, s': Client)
    requires PumpMoveNext(s, s')
    ensures OnlyPumpMoves(s, s')
  {
    hide BeginSend, ContinueSend, PumpWalk, OnlyPumpMoves;
    if s.at.Sending? {
      ContinueSendFrame(s, s');
    } else if s.at.Visiting? && s.at.pending != {} && !s.isStopped {
      var id :| id in s.at.pending && id in s.conns && BeginSend(s, id, s');
      BeginSendFrame(s, id, s');
    } else {
      PumpWalkFrame(s, s');
    }
  }

  lemma MoveRemembers(s: Client, s': Client, move: Move)
    requires MoveNext(s, s', move)
    ensures Remembers(s.accepted, s.adds, s'.accepted, s'.adds)
  {
    hide NextStep, RemoveNext, ShutdownNext, PumpMoveNext;
    match move
    case RemoveStep(i) => RemoveRemembers(s, i, s');
    case ShutdownStep => ShutdownRemembers(s, s');
    case PumpMove => PumpFrameOf(s, s');
    case _ =>
  }

  lemma JoinIsBounded(s: Client, id: nat)
    requires ClientInv(s) && Joined(s, id)
    ensures 0 <= JoinedAt(s, id) <= |s.accepted|
  {
    assert id in s.conns;
    assert LedgerOf(s, id);
  }

  /**
    The recorded start is no later than what had been accepted when the connection was first
    seen registered, so every event accepted from then on is among those it is owed.
   */
  lemma {:induction false} JoinIsRemembered(run: seq<Client>, capacity: nat, id: nat, k: nat)
    requires IsClientRun(run, capacity) && k < |run| && Joined(run[k], id)
    ensures var s := run[|run| - 1];
      && Joined(s, id) && JoinedAt(s, id) == JoinedAt(run[k], id) && run[k].accepted <= s.accepted
      && 0 <= JoinedAt(s, id) <= |run[k].accepted|
  {
    hide ClientInv, NewClient, MoveNext;
    var n := |run| - 1;
    if k == n {
      RunKeepsInv(run, capacity);
      JoinIsBounded(run[n], id);
    } else {
      JoinIsRemembered(run[..n], capacity, id, k);
      assert ClientNext(run[n - 1], run[n]);
      var move :| MoveNext(run[n - 1], run[n], move);
      MoveRemembers(run[n - 1], run[n], move);
    }
  }

  /** Whatever the client does, none of its connections ever panics. */
  lemma ConnectionsNeverPanic(run: seq<Client>, capacity: nat, id: nat)
    requires IsClientRun(run, capacity) && id in run[|run| - 1].conns
    ensures !run[|run| - 1].conns[id].panicked
  {
    RunKeepsInv(run, capacity);
  }
}
