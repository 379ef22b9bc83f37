/**
  What a running client can always do (serbewr/dabluvee-es/wshub/client.go and connection.go):
  from every reachable state the work under way can be finished so that a healthy connection
  has everything the client accepted on its wire, whatever its neighbours are stuck in.
 */
module ClientProgress {
  import opened ConnectionProtocol
  import opened ClientDelivery

  // ---- What leaves the registry is stopped -----------------------------------------

  ghost predicate StopOnItsWay(removes: seq<RemoveCall>, id: nat) {
    exists i :: 0 <= i < |removes| && removes[i] == RemoveFound(id)
  }

  /** A connection that joined and left again has a `Stop` call, or a remover about to make one. */
  ghost predicate LeaversStop(adds: map<nat, AddPc>, registry: set<nat>, removes: seq<RemoveCall>,
                              conns: map<nat, State>)
  {
    forall id :: id in adds && adds[id].Registered? && id !in registry ==>
      StopOnItsWay(removes, id) || (id in conns && conns[id].stops != [])
  }

  ghost predicate Sound(s: Client) {
    ClientInv(s) && LeaversStop(s.adds, s.registry, s.removes, s.conns)
  }

  lemma StopNextKeepsCalls(s: State, i: nat, s': State)
    requires StopNext(s, i, s')
    ensures |s'.stops| == |s.stops|
  {
  }

  lemma SendNextKeepsCalls(s: State, i: nat, s': State)
    requires SendNext(s, i, s')
    ensures s'.stops == s.stops
  {
  }

  lemma StopsOnlyGrow(s: State, s': State, step: Step)
    requires NextStep(s, s', step)
    ensures |s'.stops| >= |s.stops| && (step.CallStop? ==> s'.stops != [])
  {
    hide StopNext, SendNext;
    match step
    case SendStep(i) => SendNextKeepsCalls(s, i, s');
    case StopStep(i) => StopNextKeepsCalls(s, i, s');
    case _ =>
  }

  lemma ConnectionsKeepStops(conns: map<nat, State>, conns': map<nat, State>)
    requires OneConnectionMoves(conns, conns')
    ensures forall id :: id in conns && conns[id].stops != [] ==> id in conns' && conns'[id].stops != []
  {
    hide NextStep;
    if conns' != conns {
      var id, c, step :| id in conns && NextStep(conns[id], c, step) && conns' == conns[id := c];
      StopsOnlyGrow(conns[id], c, step);
    }
  }

  /** A step that moves no remover and changes no membership keeps every leaver stopping. */
  lemma OthersKeepLeavers(s: Client, s': Client)
    requires LeaversStop(s.adds, s.registry, s.removes, s.conns) && OneConnectionMoves(s.conns, s'.conns)
    requires s'.registry == s.registry && s.removes <= s'.removes
    requires forall id :: Joined(s', id) ==> Joined(s, id)
    ensures LeaversStop(s'.adds, s'.registry, s'.removes, s'.conns)
  {
    hide OneConnectionMoves;
    ConnectionsKeepStops(s.conns, s'.conns);
    forall id | Joined(s', id) && id !in s'.registry
      ensures StopOnItsWay(s'.removes, id) || (id in s'.conns && s'.conns[id].stops != [])
    {
      assert Joined(s, id);
      if StopOnItsWay(s.removes, id) {
        var i :| 0 <= i < |s.removes| && s.removes[i] == RemoveFound(id);
        assert s'.removes[i] == RemoveFound(id);
      }
    }
  }

  lemma AddKeepsLeavers(s: Client, id: nat, s': Client)
    requires LeaversStop(s.adds, s.registry, s.removes, s.conns) && AddNext(s, id, s')
    ensures LeaversStop(s'.adds, s'.registry, s'.removes, s'.conns)
  {
    forall j | Joined(s', j) && j !in s'.registry
      ensures StopOnItsWay(s'.removes, j) || (j in s'.conns && s'.conns[j].stops != [])
    {
      assert Joined(s, j) && j !in s.registry;
    }
  }

  /** A remover that finds a connection holds it until it stops it. */
  predicate RemoverMoves(removes: seq<RemoveCall>, removes': seq<RemoveCall>, i: nat) {
    && |removes'| == |removes| && i < |removes|
    && forall k :: 0 <= k < |removes| && k != i ==> removes'[k] == removes[k]
  }

  lemma RemoveFrameOf(s: Client, i: nat, s': Client)
    requires RemoveNext(s, i, s')
    ensures s'.adds == s.adds && RemoverMoves(s.removes, s'.removes, i)
    ensures forall j :: j in s.registry && j !in s'.registry ==> s'.removes[i] == RemoveFound(j)
    ensures s.removes[i].RemoveFound? ==> s'.registry == s.registry
  {
    hide NextStep;
  }

  lemma OtherRemoverStays(removes: seq<RemoveCall>, removes': seq<RemoveCall>, i: nat, j: nat)
    requires RemoverMoves(removes, removes', i) && StopOnItsWay(removes, j) && removes[i] != RemoveFound(j)
    ensures StopOnItsWay(removes', j)
  {
    var k :| 0 <= k < |removes| && removes[k] == RemoveFound(j);
    assert removes'[k] == RemoveFound(j);
  }

  lemma RemoveKeepsLeavers(s: Client, i: nat, s': Client)
    requires LeaversStop(s.adds, s.registry, s.removes, s.conns) && RemoveNext(s, i, s')
    ensures LeaversStop(s'.adds, s'.registry, s'.removes, s'.conns)
  {
    RemoveMovesOne(s, i, s');
    RemoveFrameOf(s, i, s');
    hide RemoveNext, OneConnectionMoves, RemoverMoves;
    ConnectionsKeepStops(s.conns, s'.conns);
    assert i < |s.removes| == |s'.removes|;
    if s.removes[i].RemoveFound? { FoundIsStopped(s, i, s'); }
    forall j | Joined(s', j) && j !in s'.registry
      ensures StopOnItsWay(s'.removes, j) || (j in s'.conns && s'.conns[j].stops != [])
    {
      if j in s.registry {
        assert s'.removes[i] == RemoveFound(j);
      } else {
        assert Joined(s, j);
        if StopOnItsWay(s.removes, j) && s.removes[i] != RemoveFound(j) {
          OtherRemoverStays(s.removes, s'.removes, i, j);
        }
      }
    }
  }

  /** The last step of RemoveConnection calls Stop on the connection it took out. */
  lemma FoundIsStopped(s: Client, i: nat, s': Client)
    requires RemoveNext(s, i, s') && s.removes[i].RemoveFound?
    ensures var id := s.removes[i].id; id in s'.conns && s'.conns[id].stops != []
  {
    hide NextStep;
    var id := s.removes[i].id;
    var c :| NextStep(s.conns[id], c, CallStop) && s'.conns == s.conns[id := c];
    StopsOnlyGrow(s.conns[id], c, CallStop);
  }

  lemma ShutdownLeaves(s: Client, s': Client)
    requires ShutdownNext(s, s')
    ensures s'.registry == s.registry && s'.removes == s.removes && s'.adds == s.adds
  {
    hide NextStep;
  }

  lemma PumpLeaves(s: Client, s': Client)
    requires PumpMoveNext(s, s')
    ensures s'.registry == s.registry && s'.removes == s.removes && s'.adds == s.adds
  {
    hide PumpMoveNext;
    PumpFrameOf(s, s');
  }

  lemma MoveKeepsLeavers(s: Client, s': Client, move: Move)
    requires LeaversStop(s.adds, s.registry, s.removes, s.conns) && s.adds.Keys <= s.conns.Keys
    requires MoveNext(s, s', move)
    ensures LeaversStop(s'.adds, s'.registry, s'.removes, s'.conns)
  {
    hide NextStep, RemoveNext, ShutdownNext, PumpMoveNext, AddNext;
    match move
    case AddStep(id) => AddKeepsLeavers(s, id, s');
    case RemoveStep(i) => RemoveKeepsLeavers(s, i, s');
    case ShutdownStep =>
      ShutdownMovesOne(s, s');
      ShutdownLeaves(s, s');
      OthersKeepLeavers(s, s');
    case PumpMove =>
      PumpMovesOne(s, s');
      PumpLeaves(s, s');
      OthersKeepLeavers(s, s');
    case NewConnection(id, buffer) => NewKeepsLeavers(s, id, buffer, s');
    case _ =>
      OthersMoveOne(s, s', move);
      OthersKeepLeavers(s, s');
  }

  lemma NewKeepsLeavers(s: Client, id: nat, buffer: nat, s': Client)
    requires LeaversStop(s.adds, s.registry, s.removes, s.conns)
    requires id !in s.conns && s' == s.(conns := s.conns[id := Init(buffer)])
    ensures LeaversStop(s'.adds, s'.registry, s'.removes, s'.conns)
  {
    forall j | Joined(s', j) && j !in s'.registry
      ensures StopOnItsWay(s'.removes, j) || (j in s'.conns && s'.conns[j].stops != [])
    {
      assert Joined(s, j);
    }
  }

  lemma MoveKeepsSound(s: Client, s': Client, move: Move)
    requires Sound(s) && MoveNext(s, s', move)
    ensures Sound(s')
  {
    hide LeaversStop, MoveNext;
    assert s.adds.Keys <= s.conns.Keys;
    hide ClientInv;
    MoveKeepsInv(s, s', move);
    MoveKeepsLeavers(s, s', move);
  }

  lemma {:induction false} RunIsSound(run: seq<Client>, capacity: nat)
    requires IsClientRun(run, capacity)
    ensures Sound(run[|run| - 1])
  {
    var n := |run| - 1;
    RunKeepsInv(run, capacity);
    if n > 0 {
      hide ClientInv, LeaversStop, MoveNext;
      RunIsSound(run[..n], capacity);
      assert ClientNext(run[n - 1], run[n]);
      var move :| MoveNext(run[n - 1], run[n], move);
      MoveKeepsSound(run[n - 1], run[n], move);
    }
  }

  /** In every run a connection that was registered and is no longer has been stopped, or its remover is about to. */
  lemma RemovedIsStopped(run: seq<Client>, capacity: nat, id: nat)
    requires IsClientRun(run, capacity)
    requires var s := run[|run| - 1]; Joined(s, id) && id !in s.registry
    ensures var s := run[|run| - 1];
      StopOnItsWay(s.removes, id) || (id in s.conns && s.conns[id].stops != [])
  {
    hide ClientInv;
    RunIsSound(run, capacity);
  }

  // ---- Work under way ------------------------------------------------------------------

  /**
    Steps nobody has to start: the distribution pump, write pumps, calls of Stop and
    RemoveConnection already made, and the RemoveConnection a write pump makes when it exits.
   */
  predicate Working(s: Client, move: Move) {
    match move
    case PumpMove => true
    case ConnectionStep(_, step) => step.PumpStep? || step.StopStep?
    case CallRemove(id) => id in s.conns && s.conns[id].pump == PumpExited
    case RemoveStep(_) => true
    case _ => false
  }

  ghost predicate WorkNext(s: Client, s': Client) { exists move :: Working(s, move) && MoveNext(s, s', move) }

  ghost predicate Reaches(s: Client, s': Client, n: nat)
    decreases n
  {
    if n == 0 then s' == s else exists m :: WorkNext(s, m) && Reaches(m, s', n - 1)
  }

  lemma {:induction false} ReachesFurther(a: Client, b: Client, c: Client, n: nat, m: nat)
    requires Reaches(a, b, n) && Reaches(b, c, m)
    ensures Reaches(a, c, n + m)
    decreases n
  {
    hide WorkNext;
    if n > 0 {
      var x :| WorkNext(a, x) && Reaches(x, b, n - 1);
      ReachesFurther(x, b, c, n - 1, m);
    }
  }

  lemma ReachesByOne(s: Client, s': Client, move: Move)
    requires Working(s, move) && MoveNext(s, s', move)
    ensures Reaches(s, s', 1)
  {
    hide MoveNext, Working;
    assert WorkNext(s, s');
    assert Reaches(s', s', 0);
  }

  /** Connection `id` is registered and open, and its write pump runs. */
  predicate Serving(s: Client, id: nat) {
    id in s.registry && id in s.conns && !s.conns[id].isDone && s.conns[id].pump != PumpExited
  }

  /** A sound state of a running client that serves `id`. */
  ghost predicate Good(s: Client, id: nat) { Sound(s) && !s.isStopped && Serving(s, id) }

  /** What the work never touches. */
  predicate SameBook(s: Client, s': Client) { s'.accepted == s.accepted && s'.adds == s.adds }

  /** One connection other than by its sends moved, and the pump stands where it stood. */
  predicate SameStand(s: Client, s': Client) { SameBook(s, s') && s'.at == s.at && s'.queue == s.queue }

  ghost predicate Advanced(s: Client, s': Client, n: nat, id: nat) {
    Reaches(s, s', n) && Good(s', id) && SameBook(s, s')
  }

  lemma AdvancedTwice(a: Client, b: Client, c: Client, n: nat, m: nat, id: nat)
    requires Advanced(a, b, n, id) && Advanced(b, c, m, id)
    ensures Advanced(a, c, n + m, id)
  {
    hide Reaches, Good;
    ReachesFurther(a, b, c, n, m);
  }

  lemma AdvancedByOne(s: Client, s': Client, move: Move, id: nat)
    requires Good(s, id) && Working(s, move) && MoveNext(s, s', move)
    requires SameBook(s, s') && !s'.isStopped && Serving(s', id)
    ensures Advanced(s, s', 1, id)
  {
    hide MoveNext, Working, Sound, Reaches;
    ReachesByOne(s, s', move);
    MoveKeepsSound(s, s', move);
  }

  // ---- One connection's own steps inside the client ---------------------------------------

  lemma PumpStepInClient(s: Client, j: nat, c: State, id: nat) returns (s': Client)
    requires Good(s, id) && j in s.conns && Joined(s, j) && Inv(s.conns[j])
    requires PumpNext(s.conns[j], c) && (j == id ==> c.pump != PumpExited && !c.isDone)
    ensures s' == s.(conns := s.conns[j := c]) && Advanced(s, s', 1, id)
  {
    hide Sound, PumpNext;
    s' := s.(conns := s.conns[j := c]);
    assert NextStep(s.conns[j], c, PumpStep);
    assert ConnectionNext(s, j, PumpStep, s');
    AdvancedByOne(s, s', ConnectionStep(j, PumpStep), id);
  }

  lemma StopStepInClient(s: Client, j: nat, i: nat, c: State, id: nat) returns (s': Client)
    requires Good(s, id) && j in s.conns && Inv(s.conns[j]) && j != id && StopNext(s.conns[j], i, c)
    ensures s' == s.(conns := s.conns[j := c]) && Advanced(s, s', 1, id)
  {
    hide Sound, StopNext;
    s' := s.(conns := s.conns[j := c]);
    assert NextStep(s.conns[j], c, StopStep(i));
    assert ConnectionNext(s, j, StopStep(i), s');
    AdvancedByOne(s, s', ConnectionStep(j, StopStep(i)), id);
  }

  /** A connection that is open with a running pump can be drained where it is. */
  lemma {:induction false} DrainInClient(s: Client, j: nat, id: nat) returns (s': Client, n: nat)
    requires Good(s, id) && j in s.conns && Joined(s, j) && Inv(s.conns[j])
    requires !s.conns[j].isDone && s.conns[j].pump != PumpExited
    ensures Advanced(s, s', n, id) && SameStand(s, s')
    ensures j in s'.conns && s'.conns[j].sends == s.conns[j].sends && !s'.conns[j].isDone
    ensures var c := s'.conns[j]; c.queue == [] && c.pump == PumpSelect && c.wire == c.entered
    decreases PumpWork(s.conns[j])
  {
    hide Reaches, Sound, PumpNext, Inv;
    var c := s.conns[j];
    if c.pump == PumpSelect && c.queue == [] {
      s', n := s, 0;
      IdlePumpWroteAll(c);
      assert Reaches(s, s, 0) by { ReachesItself(s); }
    } else {
      var d := OpenPumpMoves(c);
      PumpKeepsInv(c, d);
      var m := PumpStepInClient(s, j, d, id);
      var k;
      s', k := DrainInClient(m, j, id);
      AdvancedTwice(s, m, s', 1, k, id);
      n := 1 + k;
    }
  }

  lemma ReachesItself(s: Client)
    ensures Reaches(s, s, 0)
  {
  }

  lemma IdlePumpWroteAll(c: State)
    requires Inv(c) && c.pump == PumpSelect && c.queue == []
    ensures c.wire == c.entered
  {
  }

  /** A connection with a `Stop` call can be led to close doneCh. */
  lemma {:induction false} CloseDoneInClient(s: Client, j: nat, id: nat) returns (s': Client, n: nat)
    requires Good(s, id) && j in s.conns && j != id && Inv(s.conns[j]) && s.conns[j].stops != []
    ensures Advanced(s, s', n, id) && SameStand(s, s')
    ensures j in s'.conns && s'.conns[j].sends == s.conns[j].sends && s'.conns[j].doneClosed
    decreases 6 - StopProgress(s.conns[j].stops, s.conns[j].once)
  {
    hide Reaches, Sound, StopNext;
    var c := s.conns[j];
    if c.doneClosed {
      s', n := s, 0;
      ReachesItself(s);
    } else {
      var d, i := StopMoves(c);
      ProgressIsBounded(d);
      var m := StopStepInClient(s, j, i, d, id);
      var k;
      s', k := CloseDoneInClient(m, j, id);
      AdvancedTwice(s, m, s', 1, k, id);
      n := 1 + k;
    }
  }

  lemma ProgressIsBounded(c: State)
    requires Inv(c)
    ensures StopProgress(c.stops, c.once) <= 6
  {
  }

  // ---- A broken connection gets its Stop ----------------------------------------------------

  lemma RemoveStepInClient(s: Client, i: nat, s': Client, id: nat)
    requires Good(s, id) && RemoveNext(s, i, s') && SameBook(s, s') && !s'.isStopped && Serving(s', id)
    ensures Advanced(s, s', 1, id)
  {
    hide RemoveNext, Sound;
    AdvancedByOne(s, s', RemoveStep(i), id);
  }

  /** The step that makes the call to Stop. */
  lemma StopFound(s: Client, i: nat, j: nat, id: nat) returns (s': Client)
    requires Good(s, id) && j != id && i < |s.removes| && s.removes[i] == RemoveFound(j) && j in s.conns
    requires Inv(s.conns[j])
    ensures Advanced(s, s', 1, id) && SameStand(s, s')
    ensures j in s'.conns && s'.conns[j].sends == s.conns[j].sends && s'.conns[j].stops != []
  {
    hide Sound;
    var c := s.conns[j].(stops := s.conns[j].stops + [Called]);
    assert !s.conns[j].panicked;
    assert NextStep(s.conns[j], c, CallStop);
    s' := s.(removes := s.removes[i := RemoveReturned], conns := s.conns[j := c]);
    assert RemoveNext(s, i, s');
    RemoveStepInClient(s, i, s', id);
  }

  /** A registered connection whose pump exited is removed by that pump. */
  lemma RemoveBroken(s: Client, j: nat, id: nat) returns (s': Client, i: nat)
    requires Good(s, id) && j != id && j in s.registry && j in s.conns && s.conns[j].pump == PumpExited
    ensures Advanced(s, s', 3, id) && SameStand(s, s') && s'.conns == s.conns
    ensures i < |s'.removes| && s'.removes[i] == RemoveFound(j)
  {
    hide Sound, Reaches;
    i := |s.removes|;
    var a := s.(removes := s.removes + [RemoveEntered(j)]);
    AdvancedByOne(s, a, CallRemove(j), id);
    var b := a.(removes := a.removes[i := RemoveChecked(j)]);
    assert RemoveNext(a, i, b);
    RemoveStepInClient(a, i, b, id);
    s' := b.(removes := b.removes[i := RemoveFound(j)], registry := b.registry - {j});
    assert RemoveNext(b, i, s');
    RemoveStepInClient(b, i, s', id);
    AdvancedTwice(s, a, b, 1, 1, id);
    AdvancedTwice(s, b, s', 2, 1, id);
  }

  lemma SoundConnection(s: Client, j: nat)
    requires Sound(s) && j in s.conns
    ensures Inv(s.conns[j])
  {
  }

  /** A joined connection whose pump exited gets a `Stop` call, if it has none. */
  lemma StopBroken(s: Client, j: nat, id: nat) returns (s': Client, n: nat)
    requires Good(s, id) && j != id && Joined(s, j) && j in s.conns && s.conns[j].pump == PumpExited
    ensures Advanced(s, s', n, id) && SameStand(s, s')
    ensures j in s'.conns && s'.conns[j].sends == s.conns[j].sends && s'.conns[j].stops != []
  {
    hide ClientInv, Reaches, Inv;
    if s.conns[j].stops != [] {
      s', n := s, 0;
      ReachesItself(s);
    } else if j in s.registry {
      var a, i := RemoveBroken(s, j, id);
      SoundConnection(a, j);
      s' := StopFound(a, i, j, id);
      AdvancedTwice(s, a, s', 3, 1, id);
      n := 4;
    } else {
      assert StopOnItsWay(s.removes, j);
      var i :| 0 <= i < |s.removes| && s.removes[i] == RemoveFound(j);
      SoundConnection(s, j);
      s' := StopFound(s, i, j, id);
      n := 1;
    }
  }

  // ---- conn.Send returns ----------------------------------------------------------------------

  predicate ActiveOk(s: Client) {
    && s.at.Sending? && s.at.to in s.conns && Joined(s, s.at.to) && s.at.call < |s.conns[s.at.to].sends|
  }

  lemma SendingIsActive(s: Client)
    requires ClientInv(s) && s.at.Sending?
    ensures ActiveOk(s)
  {
  }

  /** Whatever connection the pump is stuck on, the select of its Send becomes ready. */
  lemma Unblock(s: Client, id: nat) returns (s': Client, n: nat)
    requires Good(s, id) && ActiveOk(s)
    requires s.conns[s.at.to].sends[s.at.call].pc == Selecting
    ensures Advanced(s, s', n, id) && SameStand(s, s') && ActiveOk(s')
    ensures s'.conns[s.at.to].sends == s.conns[s.at.to].sends && SelectReady(s'.conns[s.at.to])
  {
    hide ClientInv, LeaversStop, Reaches, Inv;
    var j := s.at.to;
    var c := s.conns[j];
    SoundConnection(s, j);
    if c.doneClosed {
      s', n := s, 0;
      ReachesItself(s);
    } else if !c.isDone && c.pump != PumpExited {
      s', n := DrainInClient(s, j, id);
    } else {
      var a, k := s, 0;
      if c.isDone { DoneIsStopping(c); ReachesItself(s); } else { a, k := StopBroken(s, j, id); }
      SoundConnection(a, j);
      var m;
      s', m := CloseDoneInClient(a, j, id);
      AdvancedTwice(s, a, s', k, m, id);
      n := k + m;
    }
  }

  lemma SendStepInClient(s: Client, c: State, id: nat) returns (s': Client)
    requires Good(s, id) && ActiveOk(s) && SendNext(s.conns[s.at.to], s.at.call, c)
    requires Inv(s.conns[s.at.to]) && s.conns[s.at.to].sends[s.at.call].pc != SendReturned
    requires c.isDone == s.conns[s.at.to].isDone && (s.conns[s.at.to].pump != PumpExited ==> c.pump != PumpExited)
    ensures s' == s.(conns := s.conns[s.at.to := c]) && Advanced(s, s', 1, id)
  {
    hide Sound, SendNext;
    s' := s.(conns := s.conns[s.at.to := c]);
    assert NextStep(s.conns[s.at.to], c, SendStep(s.at.call));
    assert ContinueSend(s, s');
    AdvancedByOne(s, s', PumpMove, id);
  }

  lemma EndSendInClient(s: Client, id: nat) returns (s': Client)
    requires Good(s, id) && ActiveOk(s) && s.conns[s.at.to].sends[s.at.call].pc == SendReturned
    ensures s' == s.(at := Visiting(s.at.event, s.at.pending)) && Advanced(s, s', 1, id)
  {
    hide Sound;
    s' := s.(at := Visiting(s.at.event, s.at.pending));
    AdvancedByOne(s, s', PumpMove, id);
  }

  /** A Send of the distribution pump always gets back to it. */
  lemma {:induction false} FinishSend(s: Client, id: nat) returns (s': Client, n: nat)
    requires Good(s, id) && ActiveOk(s)
    ensures Advanced(s, s', n, id) && s'.queue == s.queue && s'.at == Visiting(s.at.event, s.at.pending)
    decreases SendRank(s.conns[s.at.to].sends[s.at.call])
  {
    hide Sound, Reaches, Inv, SendNext;
    var j, i := s.at.to, s.at.call;
    if s.conns[j].sends[i].pc == SendReturned {
      s' := EndSendInClient(s, id);
      n := 1;
    } else {
      var a, k := s, 0;
      ReachesItself(s);
      if s.conns[j].sends[i].pc == Selecting { a, k := Unblock(s, id); }
      SoundConnection(a, j);
      var c := SendMoves(a.conns[j], i);
      var b := SendStepInClient(a, c, id);
      AdvancedTwice(s, a, b, k, 1, id);
      var m;
      s', m := FinishSend(b, id);
      AdvancedTwice(s, b, s', k + 1, m, id);
      n := k + 1 + m;
    }
  }

  // ---- The loop of the distribution pump ---------------------------------------------------------

  lemma BeginSendInClient(s: Client, j: nat, id: nat) returns (s': Client)
    requires Good(s, id) && s.at.Visiting? && j in s.at.pending && j in s.conns && Inv(s.conns[j])
    ensures Advanced(s, s', 1, id) && s'.queue == s.queue
    ensures s'.at.Sending? && s'.at.event == s.at.event && s'.at.pending == s.at.pending - {j}
  {
    hide Sound;
    var c := s.conns[j].(sends := s.conns[j].sends + [SendCall(s.at.event, Entered, Undecided)]);
    assert !s.conns[j].panicked;
    assert NextStep(s.conns[j], c, CallSend(s.at.event));
    s' := s.(conns := s.conns[j := c], at := Sending(s.at.event, s.at.pending - {j}, j, |s.conns[j].sends|));
    assert BeginSend(s, j, s');
    AdvancedByOne(s, s', PumpMove, id);
  }

  lemma PendingIsBuilt(s: Client, j: nat)
    requires ClientInv(s) && s.at.Visiting? && j in s.at.pending
    ensures j in s.conns && Inv(s.conns[j])
  {
    assert j in Ahead(s.at);
  }

  /** Every connection of the snapshot is offered the event, and the pump is back at its loop. */
  lemma {:induction false} VisitAll(s: Client, id: nat) returns (s': Client, n: nat)
    requires Good(s, id) && s.at.Visiting?
    ensures Advanced(s, s', n, id) && s'.queue == s.queue && s'.at == LoopTop
    decreases s.at.pending
  {
    hide ClientInv, LeaversStop, Reaches, Inv;
    if s.at.pending == {} {
      s' := s.(at := LoopTop);
      AdvancedByOne(s, s', PumpMove, id);
      n := 1;
    } else {
      var j :| j in s.at.pending;
      PendingIsBuilt(s, j);
      var a := BeginSendInClient(s, j, id);
      SendingIsActive(a);
      var b, k := FinishSend(a, id);
      AdvancedTwice(s, a, b, 1, k, id);
      var m;
      s', m := VisitAll(b, id);
      AdvancedTwice(s, b, s', 1 + k, m, id);
      n := 1 + k + m;
    }
  }

  /** From wherever it stands, a pump that runs gets back to its loop. */
  lemma BackToLoop(s: Client, id: nat) returns (s': Client, n: nat)
    requires Good(s, id) && s.at != PumpDone && s.at != Receiving
    ensures Advanced(s, s', n, id) && s'.queue == s.queue && s'.at == LoopTop
  {
    hide ClientInv, LeaversStop, Reaches;
    match s.at
    case LoopTop =>
      s', n := s, 0;
      ReachesItself(s);
    case Received(e) =>
      var a := s.(at := Snapshotting(e));
      AdvancedByOne(s, a, PumpMove, id);
      var m;
      s', m := AfterSnapshot(a, id);
      AdvancedTwice(s, a, s', 1, m, id);
      n := 1 + m;
    case Snapshotting(e) => s', n := AfterSnapshot(s, id);
    case Visiting(e, pending) => s', n := VisitAll(s, id);
    case Sending(e, pending, to, call) =>
      SendingIsActive(s);
      var a, k := FinishSend(s, id);
      var m;
      s', m := VisitAll(a, id);
      AdvancedTwice(s, a, s', k, m, id);
      n := k + m;
  }

  lemma AfterSnapshot(s: Client, id: nat) returns (s': Client, n: nat)
    requires Good(s, id) && s.at.Snapshotting?
    ensures Advanced(s, s', n, id) && s'.queue == s.queue && s'.at == LoopTop
  {
    hide ClientInv, LeaversStop, Reaches;
    var a := s.(at := Visiting(s.at.event, s.registry));
    assert PumpWalk(s, a);
    AdvancedByOne(s, a, PumpMove, id);
    var m;
    s', m := VisitAll(a, id);
    AdvancedTwice(s, a, s', 1, m, id);
    n := 1 + m;
  }

  lemma NextReceive(s: Client, id: nat) returns (s': Client, n: nat)
    requires Good(s, id) && s.at == Receiving && s.queue != []
    ensures Advanced(s, s', n, id) && s'.queue == s.queue[1..] && s'.at == LoopTop
  {
    hide ClientInv, LeaversStop, Reaches;
    var a := s.(queue := s.queue[1..], at := Received(s.queue[0]));
    assert PumpWalk(s, a);
    AdvancedByOne(s, a, PumpMove, id);
    var m;
    s', m := BackToLoop(a, id);
    AdvancedTwice(s, a, s', 1, m, id);
    n := 1 + m;
  }

  /** The pump works off its whole queue and waits for more. */
  lemma {:induction false} EmptyQueue(s: Client, id: nat) returns (s': Client, n: nat)
    requires Good(s, id) && (s.at == LoopTop || s.at == Receiving)
    ensures Advanced(s, s', n, id) && s'.queue == [] && s'.at == Receiving
    decreases |s.queue|, s.at == LoopTop
  {
    hide ClientInv, LeaversStop, Reaches;
    if s.at == LoopTop {
      var a := s.(at := Receiving);
      assert PumpWalk(s, a);
      AdvancedByOne(s, a, PumpMove, id);
      var m;
      s', m := EmptyQueue(a, id);
      AdvancedTwice(s, a, s', 1, m, id);
      n := 1 + m;
    } else if s.queue == [] {
      s', n := s, 0;
      ReachesItself(s);
    } else {
      var a, k := NextReceive(s, id);
      var m;
      s', m := EmptyQueue(a, id);
      AdvancedTwice(s, a, s', k, m, id);
      n := k + m;
    }
  }

  lemma IdleClientHasOffered(s: Client, id: nat)
    requires ClientInv(s) && Serving(s, id) && s.at == Receiving && s.queue == []
    ensures Joined(s, id) && Inv(s.conns[id]) && 0 <= JoinedAt(s, id) <= |s.accepted|
    ensures s.conns[id].entered == s.accepted[JoinedAt(s, id)..]
  {
    assert LedgerOf(s, id);
    SkipsFollowFlag(s.conns[id]);
    assert s.accepted[JoinedAt(s, id)..|s.accepted|] == s.accepted[JoinedAt(s, id)..];
  }

  /**
    In every reachable state of a client that is not stopped and whose pump runs, for every
    registered connection that is open and whose write pump runs: the work under way, with
    nobody new calling, can go on until everything the client accepted since that connection
    joined is on its wire, in order.  Full, stopping or broken neighbours do not prevent it.
   */
  lemma AcceptedReachesTheWire(run: seq<Client>, capacity: nat, id: nat) returns (s': Client, n: nat)
    requires IsClientRun(run, capacity)
    requires var s := run[|run| - 1]; !s.isStopped && s.at != PumpDone && Serving(s, id)
    ensures var s := run[|run| - 1];
      && Reaches(s, s', n) && SameBook(s, s') && Joined(s, id) && Serving(s', id)
      && 0 <= JoinedAt(s, id) <= |s.accepted|
      && s'.conns[id].wire == s.accepted[JoinedAt(s, id)..]
  {
    hide ClientInv, LeaversStop, Reaches, Inv;
    var s := run[|run| - 1];
    RunIsSound(run, capacity);
    var a, k := s, 0;
    ReachesItself(s);
    if s.at != Receiving { a, k := BackToLoop(s, id); }
    var b, m := EmptyQueue(a, id);
    AdvancedTwice(s, a, b, k, m, id);
    IdleClientHasOffered(b, id);
    var l;
    s', l := DrainInClient(b, id, id);
    AdvancedTwice(s, b, s', k + m, l, id);
    n := k + m + l;
    IdleClientHasOffered(s', id);
  }

  // ---- Joining ---------------------------------------------------------------------------------

  /** On a running client AddConnection registers the connection, in two steps nobody can prevent. */
  lemma AddRegisters(s: Client, id: nat) returns (a: Client, s': Client)
    requires !s.isStopped && id in s.adds && s.adds[id] == AddEntered
    ensures MoveNext(s, a, AddStep(id)) && MoveNext(a, s', AddStep(id))
    ensures id in s'.registry && Joined(s', id) && s'.conns == s.conns
  {
    a := s.(adds := s.adds[id := AddChecked]);
    s' := a.(adds := a.adds[id := Registered(FirstOffered(a))], registry := a.registry + {id});
  }

  /** An AddConnection that has not passed its check. */
  predicate NotChecked(adds: map<nat, AddPc>, id: nat) {
    id in adds ==> adds[id] == AddEntered || adds[id] == Refused
  }

  ghost predicate KeepsRefusing(stopped: bool, adds: map<nat, AddPc>, stopped': bool, adds': map<nat, AddPc>, id: nat) {
    (stopped ==> stopped') && (stopped && NotChecked(adds, id) ==> NotChecked(adds', id))
  }

  lemma MoveKeepsRefusing(s: Client, s': Client, move: Move, id: nat)
    requires MoveNext(s, s', move)
    ensures KeepsRefusing(s.isStopped, s.adds, s'.isStopped, s'.adds, id)
  {
    hide NextStep, PumpMoveNext, RemoveNext, ShutdownNext;
    match move
    case PumpMove => PumpKeepsFlags(s, s');
    case RemoveStep(i) => RemoveKeepsFlags(s, i, s');
    case ShutdownStep => ShutdownKeepsStopped(s, s');
    case _ =>
  }

  lemma PumpKeepsFlags(s: Client, s': Client)
    requires PumpMoveNext(s, s')
    ensures s'.isStopped == s.isStopped && s'.doneClosed == s.doneClosed && s'.queueClosed == s.queueClosed
    ensures s'.shutdown == s.shutdown && s'.adds == s.adds && s'.capacity == s.capacity
    ensures |s'.queue| <= |s.queue|
  {
    hide PumpMoveNext;
    PumpFrameOf(s, s');
  }

  lemma RemoveKeepsFlags(s: Client, i: nat, s': Client)
    requires RemoveNext(s, i, s')
    ensures s'.isStopped == s.isStopped && s'.doneClosed == s.doneClosed && s'.queueClosed == s.queueClosed
    ensures s'.shutdown == s.shutdown && s'.adds == s.adds && s'.capacity == s.capacity && s'.queue == s.queue
  {
    hide NextStep;
  }

  lemma ShutdownKeepsStopped(s: Client, s': Client)
    requires ShutdownNext(s, s')
    ensures (s.isStopped ==> s'.isStopped) && s'.adds == s.adds
  {
    hide NextStep;
  }

  /** A stopped client registers nobody who had not passed the check before. */
  lemma {:induction false} StoppedClientRefuses(run: seq<Client>, capacity: nat, id: nat, k: nat)
    requires IsClientRun(run, capacity) && k < |run| && run[k].isStopped && NotChecked(run[k].adds, id)
    ensures run[|run| - 1].isStopped && NotChecked(run[|run| - 1].adds, id)
  {
    hide MoveNext, NotChecked;
    var n := |run| - 1;
    if k < n {
      StoppedClientRefuses(run[..n], capacity, id, k);
      assert ClientNext(run[n - 1], run[n]);
      var move :| MoveNext(run[n - 1], run[n], move);
      MoveKeepsRefusing(run[n - 1], run[n], move, id);
    }
  }

  /** A running client with room in its queue takes the event. */
  lemma OpenClientAccepts(s: Client, e: Event) returns (s': Client)
    requires !s.isStopped && |s.queue| < s.capacity
    ensures MoveNext(s, s', Accept(e)) && s'.accepted == s.accepted + [e] && s'.conns == s.conns
  {
    s' := s.(queue := s.queue + [e], accepted := s.accepted + [e]);
  }

  lemma StoppedStepTakesNothing(s: Client, s': Client, move: Move)
    requires MoveNext(s, s', move) && s.isStopped
    ensures s'.isStopped && s'.accepted == s.accepted
  {
    hide NextStep, PumpMoveNext, RemoveNext, ShutdownNext, AddNext;
    match move
    case PumpMove => PumpFrameOf(s, s');
    case RemoveStep(i) =>
      RemoveKeepsFlags(s, i, s');
      RemoveRemembers(s, i, s');
    case ShutdownStep =>
      ShutdownKeepsStopped(s, s');
      ShutdownRemembers(s, s');
    case AddStep(id) => AddAcceptsNothing(s, id, s');
    case _ =>
  }

  lemma AddAcceptsNothing(s: Client, id: nat, s': Client)
    requires AddNext(s, id, s')
    ensures s'.isStopped == s.isStopped && s'.accepted == s.accepted
  {
  }

  /** In every run a stopped client takes no event any more. */
  lemma {:induction false} StoppedClientTakesNothing(run: seq<Client>, capacity: nat, k: nat)
    requires IsClientRun(run, capacity) && k < |run| && run[k].isStopped
    ensures run[|run| - 1].isStopped && run[|run| - 1].accepted == run[k].accepted
  {
    hide MoveNext;
    var n := |run| - 1;
    if k < n {
      StoppedClientTakesNothing(run[..n], capacity, k);
      assert ClientNext(run[n - 1], run[n]);
      var move :| MoveNext(run[n - 1], run[n], move);
      StoppedStepTakesNothing(run[n - 1], run[n], move);
    }
  }

  // ---- Stopping the client ----------------------------------------------------------------------

  /** Client.Stop sets the flag, then closes doneCh, then closes sendCh; the buffer never overflows. */
  predicate FlagsFollow(shutdown: ShutdownPc, isStopped: bool, doneClosed: bool, queueClosed: bool) {
    && isStopped == (shutdown != Open)
    && doneClosed == (shutdown != Open && shutdown != Flagged)
    && queueClosed == (shutdown == Closed || shutdown.StoppingConnections?)
  }

  predicate ShutdownOk(s: Client) {
    FlagsFollow(s.shutdown, s.isStopped, s.doneClosed, s.queueClosed) && |s.queue| <= s.capacity
  }

  lemma ShutdownKeepsOk(s: Client, s': Client)
    requires ShutdownOk(s) && ShutdownNext(s, s')
    ensures ShutdownOk(s')
  {
    hide NextStep;
  }

  lemma MoveKeepsShutdownOk(s: Client, s': Client, move: Move)
    requires ShutdownOk(s) && MoveNext(s, s', move)
    ensures ShutdownOk(s')
  {
    hide NextStep, PumpMoveNext, RemoveNext, ShutdownNext, AddNext;
    match move
    case PumpMove => PumpKeepsFlags(s, s');
    case RemoveStep(i) => RemoveKeepsFlags(s, i, s');
    case ShutdownStep => ShutdownKeepsOk(s, s');
    case AddStep(id) => AddKeepsFlags(s, id, s');
    case _ =>
  }

  lemma AddKeepsFlags(s: Client, id: nat, s': Client)
    requires AddNext(s, id, s')
    ensures s'.isStopped == s.isStopped && s'.doneClosed == s.doneClosed && s'.queueClosed == s.queueClosed
    ensures s'.shutdown == s.shutdown && s'.capacity == s.capacity && s'.queue == s.queue
  {
  }

  lemma {:induction false} FlagsInOrder(run: seq<Client>, capacity: nat)
    requires IsClientRun(run, capacity)
    ensures ShutdownOk(run[|run| - 1])
  {
    hide MoveNext, ShutdownOk;
    var n := |run| - 1;
    if n == 0 {
      assert ShutdownOk(NewClient(capacity)) by { NewClientIsOpen(capacity); }
    } else {
      FlagsInOrder(run[..n], capacity);
      assert ClientNext(run[n - 1], run[n]);
      var move :| MoveNext(run[n - 1], run[n], move);
      MoveKeepsShutdownOk(run[n - 1], run[n], move);
    }
  }

  lemma NewClientIsOpen(capacity: nat)
    ensures ShutdownOk(NewClient(capacity))
  {
  }

  /** What Stop still has to stop, and what it has stopped, make up the registry it read. */
  predicate StoppingAll(targets: set<nat>, shutdown: ShutdownPc, conns: map<nat, State>) {
    shutdown.StoppingConnections?
    && forall id :: id in targets ==> id in shutdown.left || (id in conns && conns[id].stops != [])
  }

  lemma ShutdownStepStops(s: Client, s': Client, targets: set<nat>)
    requires StoppingAll(targets, s.shutdown, s.conns) && ShutdownNext(s, s')
    ensures StoppingAll(targets, s'.shutdown, s'.conns)
  {
    hide NextStep;
    var left := s.shutdown.left;
    var id :| id in left && StopConnection(s.(shutdown := StoppingConnections(left - {id})), id, s');
    var c :| NextStep(s.conns[id], c, CallStop) && s'.conns == s.conns[id := c];
    StopsOnlyGrow(s.conns[id], c, CallStop);
    assert s'.shutdown == StoppingConnections(left - {id});
  }

  lemma OthersKeepStoppingAll(s: Client, s': Client, targets: set<nat>)
    requires StoppingAll(targets, s.shutdown, s.conns) && s'.shutdown == s.shutdown
    requires OneConnectionMoves(s.conns, s'.conns)
    ensures StoppingAll(targets, s'.shutdown, s'.conns)
  {
    hide OneConnectionMoves;
    ConnectionsKeepStops(s.conns, s'.conns);
  }

  lemma MoveKeepsStoppingAll(s: Client, s': Client, move: Move, targets: set<nat>)
    requires StoppingAll(targets, s.shutdown, s.conns) && MoveNext(s, s', move)
    ensures StoppingAll(targets, s'.shutdown, s'.conns)
  {
    hide NextStep, PumpMoveNext, RemoveNext, ShutdownNext, AddNext, OneConnectionMoves, StoppingAll;
    match move
    case PumpMove =>
      PumpKeepsFlags(s, s');
      PumpMovesOne(s, s');
      OthersKeepStoppingAll(s, s', targets);
    case RemoveStep(i) =>
      RemoveKeepsFlags(s, i, s');
      RemoveMovesOne(s, i, s');
      OthersKeepStoppingAll(s, s', targets);
    case ShutdownStep => ShutdownStepStops(s, s', targets);
    case AddStep(id) =>
      AddKeepsFlags(s, id, s');
      OthersMoveOne(s, s', move);
      OthersKeepStoppingAll(s, s', targets);
    case NewConnection(id, buffer) => NewKeepsStoppingAll(s, id, buffer, s', targets);
    case _ =>
      OthersMoveOne(s, s', move);
      OthersKeepStoppingAll(s, s', targets);
  }

  lemma NewKeepsStoppingAll(s: Client, id: nat, buffer: nat, s': Client, targets: set<nat>)
    requires StoppingAll(targets, s.shutdown, s.conns)
    requires id !in s.conns && s' == s.(conns := s.conns[id := Init(buffer)])
    ensures StoppingAll(targets, s'.shutdown, s'.conns)
  {
  }

  /** When Client.Stop is through, every connection that was registered when it read the registry has been stopped. */
  lemma {:induction false} ClientStopStopsAll(run: seq<Client>, capacity: nat, k: nat)
    requires IsClientRun(run, capacity) && k + 1 < |run|
    requires run[k].shutdown == Closed && run[k + 1].shutdown.StoppingConnections?
    ensures StoppingAll(run[k].registry, run[|run| - 1].shutdown, run[|run| - 1].conns)
  {
    hide MoveNext, StoppingAll;
    var n := |run| - 1;
    assert ClientNext(run[n - 1], run[n]);
    var move :| MoveNext(run[n - 1], run[n], move);
    if k + 1 == n {
      StoppingStarts(run[k], run[n], move);
    } else {
      ClientStopStopsAll(run[..n], capacity, k);
      MoveKeepsStoppingAll(run[n - 1], run[n], move, run[k].registry);
    }
  }

  lemma StoppingStarts(s: Client, s': Client, move: Move)
    requires MoveNext(s, s', move) && s.shutdown == Closed && s'.shutdown.StoppingConnections?
    ensures StoppingAll(s.registry, s'.shutdown, s'.conns)
  {
    hide NextStep, PumpMoveNext, RemoveNext, AddNext;
    match move
    case PumpMove => PumpKeepsFlags(s, s');
    case RemoveStep(i) => RemoveKeepsFlags(s, i, s');
    case AddStep(id) => AddKeepsFlags(s, id, s');
    case _ =>
  }

  // ---- The pump of a stopped client ends -----------------------------------------------------------

  function WalkRank(at: PumpAt): nat {
    match at
    case PumpDone => 0
    case LoopTop => 1
    case Received(_) => 1
    case Visiting(_, _) => 2
    case Receiving => 2
    case Snapshotting(_) => 3
    case Sending(_, _, _, _) => 3
  }

  /** Once the client is stopped its pump offers no event to anybody any more and is at most three steps from its end. */
  lemma StoppedPumpEnds(s: Client, s': Client)
    requires s.isStopped && !s.at.Sending? && PumpMoveNext(s, s')
    ensures WalkRank(s'.at) < WalkRank(s.at) && s'.conns == s.conns && s'.isStopped
  {
    hide BeginSend, ContinueSend;
  }

  /** And it can take those steps, unless it is inside a Send. */
  lemma StoppedPumpMoves(s: Client) returns (s': Client)
    requires s.isStopped && s.doneClosed && s.at != PumpDone && !s.at.Sending?
    ensures MoveNext(s, s', PumpMove) && WalkRank(s'.at) < WalkRank(s.at)
  {
    match s.at {
      case Snapshotting(e) => s' := s.(at := if s.registry == {} then LoopTop else Visiting(e, s.registry));
      case Visiting(_, pending) => s' := s.(at := if pending == {} then LoopTop else PumpDone);
      case _ => s' := s.(at := PumpDone);
    }
    assert PumpWalk(s, s');
  }
}
