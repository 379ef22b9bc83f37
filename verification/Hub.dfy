/**
  The hub's client map and its shutdown (serbewr/dabluvee-es/wshub/hub.go and
  clients_map.go) as a step system.  Any number of AddClient, GetOrCreateClient,
  RemoveClient and Close calls run against the goroutines that run the clients.
  Client objects and client ids are kept apart: several objects may carry one id.
 */
module HubLifecycle {

  /** The goroutine AddClient and GetOrCreateClient start: Run, then clients.Remove(id), then wg.Done. */
  datatype GoPc = RunningClient | Removing | Releasing | Gone

  datatype Goroutine = Goroutine(client: nat, pc: GoPc)

  datatype Call =
    | AddCalled(client: nat)
    | AddLocked(client: nat)       // SetHub and clients.Add
    | GetCalled(id: nat)
    | GetLocked(id: nat)           // clients.Get, and clients.Add of a new client
    | Mapped(client: nat)          // wg.Go, for both
    | Unlocking                    // deferred unlock, for both
    | RemoveCalled(id: nat)
    | RemoveFound(client: nat)     // client.Stop
    | CloseCalled
    | CloseLocked                  // stopOnce.Do
    | CloseSignalled               // clients.GetAll
    | CloseStopping(snapshot: map<nat, nat>, left: set<nat>)  // go client.Stop for each
    | CloseWaiting(snapshot: map<nat, nat>)                   // wg.Wait
    | CloseClearing(left: set<nat>)                           // clients.Remove for each
    | CloseLeaving(first: bool)                               // deferred unlock
    | Finished

  datatype Lock = Free | HeldBy(call: nat)

  datatype Hub = Hub(
    clients: map<nat, nat>,      // client id -> client object
    ids: map<nat, nat>,          // every client object and its id
    stopped: set<nat>,           // clients whose Stop took effect
    goroutines: seq<Goroutine>,
    wg: int,
    lock: Lock,
    onceUsed: bool,
    doneClosed: bool,
    calls: seq<Call>,
    panicked: bool)

  function NewHub(): Hub { Hub(map[], map[], {}, [], 0, Free, false, false, [], false) }

  datatype Step =
    | NewClient(client: nat, id: nat)
    | ClientStops(client: nat)
    | Begin(call: Call)
    | CallStep(at: nat)
    | GoStep(index: nat)

  predicate Entry(c: Call) { c.AddCalled? || c.GetCalled? || c.RemoveCalled? || c.CloseCalled? }

  function SetCall(s: Hub, i: nat, c: Call): Hub
    requires i < |s.calls|
  {
    s.(calls := s.calls[i := c])
  }

  function Release(s: Hub, i: nat): Hub
    requires i < |s.calls|
  {
    SetCall(s, i, Finished).(lock := Free)
  }

  /** Client.Stop: before Run has started it returns without any effect. */
  predicate MayStop(s: Hub, client: nat, s': Hub) {
    s'.stopped in {s.stopped, s.stopped + {client}} && s' == s.(stopped := s'.stopped)
  }

  /** The steps of Close. */
  ghost predicate CloseNext(s: Hub, i: nat, s': Hub)
    requires i < |s.calls|
  {
    match s.calls[i]
    case CloseCalled => s.lock == Free && s' == SetCall(s, i, CloseLocked).(lock := HeldBy(i))
    case CloseLocked =>
      s' == if s.onceUsed then SetCall(s, i, CloseLeaving(false))
            else if s.doneClosed then s.(panicked := true)
            else SetCall(s, i, CloseSignalled).(onceUsed := true, doneClosed := true)
    case CloseSignalled => s' == SetCall(s, i, CloseStopping(s.clients, s.clients.Keys))
    case CloseStopping(snapshot, left) =>
      if left == {} then s' == SetCall(s, i, CloseWaiting(snapshot))
      else exists id :: id in left && id in snapshot
             && MayStop(SetCall(s, i, CloseStopping(snapshot, left - {id})), snapshot[id], s')
    case CloseWaiting(snapshot) => s.wg == 0 && s' == SetCall(s, i, CloseClearing(snapshot.Keys))
    case CloseClearing(left) =>
      if left == {} then s' == SetCall(s, i, CloseLeaving(true))
      else exists id :: id in left && s' == SetCall(s, i, CloseClearing(left - {id})).(clients := s.clients - {id})
    case CloseLeaving(_) => s' == Release(s, i)
    case _ => false
  }

  ghost predicate CallNext(s: Hub, i: nat, s': Hub) {
    i < |s.calls| &&
    match s.calls[i]
    case AddCalled(c) => s.lock == Free && c in s.ids && s' == SetCall(s, i, AddLocked(c)).(lock := HeldBy(i))
    case AddLocked(c) => c in s.ids && s' == SetCall(s, i, Mapped(c)).(clients := s.clients[s.ids[c] := c])
    case GetCalled(id) => s.lock == Free && s' == SetCall(s, i, GetLocked(id)).(lock := HeldBy(i))
    case GetLocked(id) =>
      if id in s.clients then s' == SetCall(s, i, Unlocking)
      else exists c :: c !in s.ids
             && s' == SetCall(s, i, Mapped(c)).(ids := s.ids[c := id], clients := s.clients[id := c])
    case Mapped(c) =>
      s' == SetCall(s, i, Unlocking).(goroutines := s.goroutines + [Goroutine(c, RunningClient)], wg := s.wg + 1)
    case Unlocking => s' == Release(s, i)
    case RemoveCalled(id) =>
      s' == if id in s.clients then SetCall(s, i, RemoveFound(s.clients[id])).(clients := s.clients - {id})
            else SetCall(s, i, Finished)
    case RemoveFound(c) => MayStop(SetCall(s, i, Finished), c, s')
    case Finished => false
    case _ => CloseNext(s, i, s')
  }

  /** Run returns once the client is stopped or the hub is done; removal is by id, whoever holds the entry. */
  ghost predicate GoNext(s: Hub, g: nat, s': Hub) {
    g < |s.goroutines| &&
    var c := s.goroutines[g].client;
    match s.goroutines[g].pc
    case RunningClient =>
      (s.doneClosed || c in s.stopped) && s' == s.(goroutines := s.goroutines[g := Goroutine(c, Removing)])
    case Removing =>
      c in s.ids && s' == s.(goroutines := s.goroutines[g := Goroutine(c, Releasing)], clients := s.clients - {s.ids[c]})
    case Releasing =>
      s' == if s.wg <= 0 then s.(panicked := true)
            else s.(goroutines := s.goroutines[g := Goroutine(c, Gone)], wg := s.wg - 1)
    case Gone => false
  }

  ghost predicate HubStep(s: Hub, s': Hub, step: Step) {
    !s.panicked &&
    match step
    case NewClient(c, id) => c !in s.ids && s' == s.(ids := s.ids[c := id])
    case ClientStops(c) => s' == s.(stopped := s.stopped + {c})
    case Begin(call) => Entry(call) && s' == s.(calls := s.calls + [call])
    case CallStep(i) => CallNext(s, i, s')
    case GoStep(g) => GoNext(s, g, s')
  }

  ghost predicate HubNext(s: Hub, s': Hub) { exists step :: HubStep(s, s', step) }

  ghost predicate IsHubRun(run: seq<Hub>) {
    && |run| > 0 && run[0] == NewHub()
    && forall k :: 0 < k < |run| ==> HubNext(run[k - 1], run[k])
  }

  // ---- Invariant -------------------------------------------------------------

  predicate Holds(c: Call) {
    c.AddLocked? || c.GetLocked? || c.Mapped? || c.Unlocking? || c.CloseLocked? || c.CloseSignalled?
    || c.CloseStopping? || c.CloseWaiting? || c.CloseClearing? || c.CloseLeaving?
  }

  predicate LockOk(calls: seq<Call>, lock: Lock) {
    && (lock.HeldBy? ==> lock.call < |calls| && Holds(calls[lock.call]))
    && forall i :: 0 <= i < |calls| && Holds(calls[i]) ==> lock == HeldBy(i)
  }

  /** The call that holds the hub mutex. */
  function Holder(s: Hub): Call
    requires LockOk(s.calls, s.lock)
  {
    if s.lock.HeldBy? then s.calls[s.lock.call] else Finished
  }

  predicate Tending(g: Goroutine, c: nat) { g.client == c && (g.pc == RunningClient || g.pc == Removing) }

  /** Some goroutine of client `c` has yet to remove the client's id from the map. */
  ghost predicate Tended(goroutines: seq<Goroutine>, c: nat) {
    exists g :: 0 <= g < |goroutines| && Tending(goroutines[g], c)
  }

  function CountLive(goroutines: seq<Goroutine>): nat {
    if goroutines == [] then 0
    else CountLive(goroutines[..|goroutines| - 1]) + if goroutines[|goroutines| - 1].pc == Gone then 0 else 1
  }

  ghost predicate EntryOk(s: Hub, id: nat)
    requires id in s.clients && LockOk(s.calls, s.lock)
  {
    var c := s.clients[id];
    c in s.ids && s.ids[c] == id && (Holder(s) == Mapped(c) || Tended(s.goroutines, c))
  }

  predicate KnownCalls(s: Hub) {
    && (forall g :: 0 <= g < |s.goroutines| ==> s.goroutines[g].client in s.ids)
    && (forall i :: 0 <= i < |s.calls| && s.calls[i].Mapped? ==> s.calls[i].client in s.ids)
  }

  /** The clients a Close has yet to stop are clients of its snapshot. */
  predicate StopsItsSnapshot(c: Call) { c.CloseStopping? ==> c.left <= c.snapshot.Keys }

  /** What the holder of the mutex may rely on. */
  predicate MutexOk(s: Hub) {
    && !s.panicked
    && s.doneClosed == s.onceUsed
    && LockOk(s.calls, s.lock)
    && (Holder(s).CloseClearing? || Holder(s) == CloseLeaving(true) ==> s.clients == map[])
    && (Closing(Holder(s)) ==> s.doneClosed)
    && StopsItsSnapshot(Holder(s))
  }

  ghost predicate HubInv(s: Hub) {
    && MutexOk(s)
    && KnownCalls(s)
    && s.wg == CountLive(s.goroutines)
    && (forall id :: id in s.clients ==> EntryOk(s, id))
  }

  lemma {:induction false} CountLiveUpdate(gs: seq<Goroutine>, i: nat, g: Goroutine)
    requires i < |gs|
    ensures CountLive(gs[i := g])
         == CountLive(gs) - (if gs[i].pc == Gone then 0 else 1) + (if g.pc == Gone then 0 else 1)
  {
    var n := |gs| - 1;
    if i == n {
      assert gs[i := g][..n] == gs[..n];
    } else {
      assert gs[i := g][..n] == gs[..n][i := g];
      CountLiveUpdate(gs[..n], i, g);
    }
  }

  lemma {:induction false} LiveIsCounted(gs: seq<Goroutine>, i: nat)
    requires i < |gs| && gs[i].pc != Gone
    ensures CountLive(gs) > 0
  {
    if i < |gs| - 1 { LiveIsCounted(gs[..|gs| - 1], i); }
  }

  lemma {:induction false} CountedIsLive(gs: seq<Goroutine>) returns (i: nat)
    requires CountLive(gs) > 0
    ensures i < |gs| && gs[i].pc != Gone
  {
    i := |gs| - 1;
    if gs[i].pc == Gone { i := CountedIsLive(gs[..i]); }
  }

  lemma TendedStays(gs: seq<Goroutine>, gs': seq<Goroutine>, c: nat)
    requires Tended(gs, c) && |gs| <= |gs'|
    requires forall g :: 0 <= g < |gs| && Tending(gs[g], c) ==> Tending(gs'[g], c)
    ensures Tended(gs', c)
  {
    var g :| 0 <= g < |gs| && Tending(gs[g], c);
    assert Tending(gs'[g], c);
  }

  lemma GoKeepsInv(s: Hub, g: nat, s': Hub)
    requires HubInv(s) && GoNext(s, g, s')
    ensures HubInv(s')
  {
    var c := s.goroutines[g].client;
    if s.goroutines[g].pc != Gone { LiveIsCounted(s.goroutines, g); }
    CountLiveUpdate(s.goroutines, g, s'.goroutines[g]);
    forall id | id in s'.clients ensures EntryOk(s', id) {
      assert EntryOk(s, id);
      if Holder(s) != Mapped(s.clients[id]) { TendedStays(s.goroutines, s'.goroutines, s.clients[id]); }
    }
  }

  predicate PlainCall(c: Call) { !c.AddLocked? && !c.GetLocked? && !c.Mapped? && !c.CloseWaiting? }

  /** How the mutex changes hands when call `i` moves on to `c`. */
  predicate LockMoves(calls: seq<Call>, lock: Lock, i: nat, c: Call, lock': Lock)
    requires i < |calls|
  {
    if Holds(c) then (Holds(calls[i]) || lock == Free) && lock' == HeldBy(i)
    else lock' == if Holds(calls[i]) then Free else lock
  }

  lemma LockMovesOk(calls: seq<Call>, lock: Lock, i: nat, c: Call, lock': Lock)
    requires LockOk(calls, lock) && i < |calls| && LockMoves(calls, lock, i, c, lock')
    ensures LockOk(calls[i := c], lock')
  {
  }

  predicate Closing(c: Call) { c.CloseSignalled? || c.CloseStopping? || c.CloseWaiting? }

  /** What every plain call leaves alone, and how it moves the mutex. */
  ghost predicate PlainChange(s: Hub, i: nat, s': Hub)
    requires i < |s.calls|
  {
    && s'.goroutines == s.goroutines && s'.ids == s.ids && s'.wg == s.wg
    && |s'.calls| == |s.calls| && s'.calls == s.calls[i := s'.calls[i]] && !s'.calls[i].Mapped?
    && s'.clients.Keys <= s.clients.Keys && (forall id :: id in s'.clients ==> s'.clients[id] == s.clients[id])
    && LockMoves(s.calls, s.lock, i, s'.calls[i], s'.lock)
    && !s'.panicked && s'.doneClosed == s'.onceUsed && (s.doneClosed ==> s'.doneClosed)
    && (s'.calls[i].CloseClearing? ==> s.calls[i].CloseClearing?)
    && (s'.calls[i] == CloseLeaving(true) ==> s.calls[i] == CloseClearing({}))
    && (Closing(s'.calls[i]) ==> Closing(s.calls[i]) || s'.doneClosed)
    && s.stopped <= s'.stopped && !s'.calls[i].AddCalled? && (s'.calls[i].AddLocked? ==> s.calls[i].AddCalled?)
  }

  lemma PlainCallFrame(s: Hub, i: nat, s': Hub)
    requires CallNext(s, i, s') && PlainCall(s.calls[i])
    requires Holds(s.calls[i]) ==> s.lock == HeldBy(i)
    requires !s.panicked && s.doneClosed == s.onceUsed
    ensures PlainChange(s, i, s')
  {
    match s.calls[i] {
      case RemoveCalled(_) => RemoveFrame(s, i, s');
      case RemoveFound(_) => RemoveFrame(s, i, s');
      case CloseStopping(_, _) => CloseLoopFrame(s, i, s');
      case CloseClearing(_) => CloseLoopFrame(s, i, s');
      case _ => OneShotFrame(s, i, s');
    }
  }

  lemma RemoveFrame(s: Hub, i: nat, s': Hub)
    requires CallNext(s, i, s') && (s.calls[i].RemoveCalled? || s.calls[i].RemoveFound?)
    requires !s.panicked && s.doneClosed == s.onceUsed
    ensures PlainChange(s, i, s')
  {
  }

  lemma CloseLoopFrame(s: Hub, i: nat, s': Hub)
    requires CallNext(s, i, s') && (s.calls[i].CloseStopping? || s.calls[i].CloseClearing?)
    requires s.lock == HeldBy(i)
    requires !s.panicked && s.doneClosed == s.onceUsed
    ensures PlainChange(s, i, s')
  {
  }

  lemma OneShotFrame(s: Hub, i: nat, s': Hub)
    requires CallNext(s, i, s') && PlainCall(s.calls[i])
    requires !s.calls[i].RemoveCalled? && !s.calls[i].RemoveFound?
    requires !s.calls[i].CloseStopping? && !s.calls[i].CloseClearing?
    requires Holds(s.calls[i]) ==> s.lock == HeldBy(i)
    requires !s.panicked && s.doneClosed == s.onceUsed
    ensures PlainChange(s, i, s')
  {
  }

  lemma PlainCallKeepsMutex(s: Hub, i: nat, s': Hub)
    requires MutexOk(s) && CallNext(s, i, s') && PlainCall(s.calls[i])
    ensures MutexOk(s') && (Holder(s).Mapped? ==> Holder(s') == Holder(s))
  {
    PlainCallFrame(s, i, s');
    LockMovesOk(s.calls, s.lock, i, s'.calls[i], s'.lock);
  }

  /** Calls that leave the goroutines alone and add nothing to the map. */
  lemma PlainCallKeepsInv(s: Hub, i: nat, s': Hub)
    requires HubInv(s) && CallNext(s, i, s') && PlainCall(s.calls[i])
    ensures HubInv(s')
  {
    PlainCallFrame(s, i, s');
    PlainCallKeepsMutex(s, i, s');
    forall id | id in s'.clients ensures EntryOk(s', id) {
      assert EntryOk(s, id);
    }
  }

  lemma InsertKeepsInv(s: Hub, i: nat, s': Hub)
    requires HubInv(s) && CallNext(s, i, s') && (s.calls[i].AddLocked? || s.calls[i].GetLocked?)
    ensures HubInv(s')
  {
    forall id | id in s'.clients ensures EntryOk(s', id) {
      if id in s.clients { assert EntryOk(s, id); }
    }
  }

  lemma StartKeepsInv(s: Hub, i: nat, s': Hub)
    requires HubInv(s) && CallNext(s, i, s') && s.calls[i].Mapped?
    ensures HubInv(s')
  {
    var n := |s.goroutines|;
    assert s'.goroutines[..n] == s.goroutines;
    forall id | id in s'.clients ensures EntryOk(s', id) {
      assert EntryOk(s, id);
      if s.clients[id] == s.calls[i].client {
        assert Tending(s'.goroutines[n], s.clients[id]);
      } else {
        TendedStays(s.goroutines, s'.goroutines, s.clients[id]);
      }
    }
  }

  /** When wg.Wait returns under the mutex, every goroutine is gone and the map is empty. */
  lemma WaitOverMeansEmpty(s: Hub)
    requires HubInv(s) && s.wg == 0 && !Holder(s).Mapped?
    ensures s.clients == map[]
  {
    if s.clients != map[] {
      var id :| id in s.clients;
      assert EntryOk(s, id);
      var g :| 0 <= g < |s.goroutines| && Tending(s.goroutines[g], s.clients[id]);
      LiveIsCounted(s.goroutines, g);
    }
  }

  lemma CallKeepsInv(s: Hub, i: nat, s': Hub)
    requires HubInv(s) && CallNext(s, i, s')
    ensures HubInv(s')
  {
    if s.calls[i].AddLocked? || s.calls[i].GetLocked? {
      InsertKeepsInv(s, i, s');
    } else if s.calls[i].Mapped? {
      StartKeepsInv(s, i, s');
    } else if s.calls[i].CloseWaiting? {
      WaitOverMeansEmpty(s);
    } else {
      PlainCallKeepsInv(s, i, s');
    }
  }

  lemma HubStepKeepsInv(s: Hub, s': Hub, step: Step)
    requires HubInv(s) && HubStep(s, s', step)
    ensures HubInv(s')
  {
    match step
    case CallStep(i) => CallKeepsInv(s, i, s');
    case GoStep(g) => GoKeepsInv(s, g, s');
    case _ =>
      forall id | id in s'.clients ensures EntryOk(s', id) {
        assert EntryOk(s, id);
      }
  }

  lemma {:induction false} HubRunKeepsInv(run: seq<Hub>)
    requires IsHubRun(run)
    ensures HubInv(run[|run| - 1])
  {
    var n := |run| - 1;
    if n > 0 {
      HubRunKeepsInv(run[..n]);
      assert HubNext(run[n - 1], run[n]);
      var step :| HubStep(run[n - 1], run[n], step);
      HubStepKeepsInv(run[n - 1], run[n], step);
    }
  }

  /**
    In every run, when the Close call that closes the hub is about to give the mutex back,
    no client is left in the map, even though goroutines remove entries by id and two
    clients may share one.
   */
  lemma ClosedHubIsEmpty(run: seq<Hub>, i: nat)
    requires IsHubRun(run)
    requires i < |run[|run| - 1].calls| && run[|run| - 1].calls[i] == CloseLeaving(true)
    ensures run[|run| - 1].clients == map[]
  {
    HubRunKeepsInv(run);
  }

  /** The loop at the end of Close never finds anything to remove. */
  lemma ClearingRemovesNothing(run: seq<Hub>, i: nat, s': Hub)
    requires IsHubRun(run) && i < |run[|run| - 1].calls| && run[|run| - 1].calls[i].CloseClearing?
    requires CallNext(run[|run| - 1], i, s')
    ensures s'.clients == run[|run| - 1].clients
  {
    HubRunKeepsInv(run);
  }

  /**
    In every reachable state, whoever holds the mutex, an entry of the map belongs to a client
    with a goroutine the wait group counts, or to the call that is about to start that goroutine.
   */
  lemma EntriesAreCounted(run: seq<Hub>, id: nat)
    requires IsHubRun(run) && id in run[|run| - 1].clients
    ensures var s := run[|run| - 1];
      || (Tended(s.goroutines, s.clients[id]) && s.wg > 0)
      || exists i :: 0 <= i < |s.calls| && s.calls[i] == Mapped(s.clients[id])
  {
    HubRunKeepsInv(run);
    var s := run[|run| - 1];
    assert EntryOk(s, id);
    if Holder(s) == Mapped(s.clients[id]) {
      assert s.calls[s.lock.call] == Mapped(s.clients[id]);
    } else {
      var g :| 0 <= g < |s.goroutines| && Tending(s.goroutines[g], s.clients[id]);
      LiveIsCounted(s.goroutines, g);
    }
  }

  // ---- Close always gets through ---------------------------------------------

  function GoRank(g: Goroutine): nat {
    match g.pc
    case RunningClient => 3 case Removing => 2 case Releasing => 1 case Gone => 0
  }

  function GoroutinesRank(gs: seq<Goroutine>): nat {
    if gs == [] then 0 else GoroutinesRank(gs[..|gs| - 1]) + GoRank(gs[|gs| - 1])
  }

  predicate Busy(c: Call) { c.CloseStopping? || c.CloseWaiting? || c.CloseClearing? }

  function CloseRank(c: Call): nat {
    match c
    case CloseStopping(snapshot, left) => |left| + |snapshot.Keys| + 3
    case CloseWaiting(snapshot) => |snapshot.Keys| + 2
    case CloseClearing(left) => |left| + 1
    case _ => 0
  }

  function ClosingRank(s: Hub, i: nat): nat
    requires i < |s.calls|
  {
    GoroutinesRank(s.goroutines) + CloseRank(s.calls[i])
  }

  lemma {:induction false} GoroutinesRankUpdate(gs: seq<Goroutine>, i: nat, g: Goroutine)
    requires i < |gs|
    ensures GoroutinesRank(gs[i := g]) == GoroutinesRank(gs) - GoRank(gs[i]) + GoRank(g)
  {
    var n := |gs| - 1;
    if i == n {
      assert gs[i := g][..n] == gs[..n];
    } else {
      assert gs[i := g][..n] == gs[..n][i := g];
      GoroutinesRankUpdate(gs[..n], i, g);
    }
  }

  predicate ClosingStep(step: Step, i: nat) { step == CallStep(i) || step.GoStep? }

  lemma GoStepLowersRank(s: Hub, g: nat, s': Hub)
    requires GoNext(s, g, s') && (s.goroutines[g].pc == Releasing ==> s.wg > 0)
    ensures s'.calls == s.calls && GoroutinesRank(s'.goroutines) < GoroutinesRank(s.goroutines)
  {
    assert s'.goroutines == s.goroutines[g := s'.goroutines[g]];
    GoroutinesRankUpdate(s.goroutines, g, s'.goroutines[g]);
  }

  lemma CloseStoppingLowersRank(s: Hub, i: nat, s': Hub)
    requires i < |s.calls| && CloseNext(s, i, s') && s.calls[i].CloseStopping? && StopsItsSnapshot(s.calls[i])
    ensures s'.goroutines == s.goroutines && |s'.calls| == |s.calls|
    ensures CloseRank(s'.calls[i]) < CloseRank(s.calls[i])
    ensures StopsItsSnapshot(s'.calls[i]) && Busy(s'.calls[i])
  {
    var snapshot, left := s.calls[i].snapshot, s.calls[i].left;
    if left != {} {
      var id :| id in left && id in snapshot
             && MayStop(SetCall(s, i, CloseStopping(snapshot, left - {id})), snapshot[id], s');
      assert s'.calls[i] == CloseStopping(snapshot, left - {id});
      assert |left - {id}| == |left| - 1;
    }
  }

  /** The clearing loop takes one key, or ends. */
  lemma ClearingTakesOne(s: Hub, i: nat, s': Hub)
    requires i < |s.calls| && CloseNext(s, i, s') && s.calls[i].CloseClearing?
    ensures s'.goroutines == s.goroutines && |s'.calls| == |s.calls|
    ensures var left := s.calls[i].left;
      if left == {} then s'.calls[i] == CloseLeaving(true)
      else exists id :: id in left && s'.calls[i] == CloseClearing(left - {id})
  {
    hide MayStop;
  }

  lemma CloseClearingLowersRank(s: Hub, i: nat, s': Hub)
    requires i < |s.calls| && CloseNext(s, i, s') && s.calls[i].CloseClearing?
    ensures s'.goroutines == s.goroutines && |s'.calls| == |s.calls|
    ensures CloseRank(s'.calls[i]) < CloseRank(s.calls[i])
    ensures s'.calls[i].CloseClearing? || s'.calls[i] == CloseLeaving(true)
  {
    hide CloseNext;
    ClearingTakesOne(s, i, s');
    var left := s.calls[i].left;
    if left != {} {
      var id :| id in left && s'.calls[i] == CloseClearing(left - {id});
      assert |left - {id}| == |left| - 1;
    }
  }

  lemma BusyHoldsTheMutex(s: Hub, i: nat)
    requires HubInv(s) && i < |s.calls| && Busy(s.calls[i])
    ensures s.lock == HeldBy(i) && StopsItsSnapshot(s.calls[i])
  {
  }

  /** With Close in charge, its own steps and those of the goroutines can only be finitely many. */
  lemma ClosingStepLowersRank(s: Hub, i: nat, s': Hub)
    requires HubInv(s) && i < |s.calls| && Busy(s.calls[i]) && ClosingNext(s, i, s')
    ensures HubInv(s') && i < |s'.calls| && ClosingRank(s', i) < ClosingRank(s, i)
    ensures Busy(s'.calls[i]) || s'.calls[i] == CloseLeaving(true)
  {
    BusyHoldsTheMutex(s, i);
    var step :| ClosingStep(step, i) && HubStep(s, s', step);
    HubStepKeepsInv(s, s', step);
    if step.GoStep? {
      if s.goroutines[step.index].pc == Releasing { LiveIsCounted(s.goroutines, step.index); }
      GoStepLowersRank(s, step.index, s');
    } else {
      if s.calls[i].CloseStopping? {
        CloseStoppingLowersRank(s, i, s');
      } else if s.calls[i].CloseClearing? {
        CloseClearingLowersRank(s, i, s');
      }
    }
  }

  /** And one of those steps is always possible: a closed hub lets every Run return. */
  lemma ClosingNeverBlocks(s: Hub, i: nat) returns (step: Step, s': Hub)
    requires HubInv(s) && i < |s.calls| && Busy(s.calls[i])
    ensures ClosingStep(step, i) && HubStep(s, s', step)
  {
    BusyHoldsTheMutex(s, i);
    step := CallStep(i);
    match s.calls[i]
    case CloseStopping(snapshot, left) =>
      if left == {} {
        s' := SetCall(s, i, CloseWaiting(snapshot));
      } else {
        var id :| id in left;
        s' := SetCall(s, i, CloseStopping(snapshot, left - {id}));
        assert MayStop(s', snapshot[id], s');
      }
    case CloseClearing(left) =>
      if left == {} {
        s' := SetCall(s, i, CloseLeaving(true));
      } else {
        var id :| id in left;
        s' := SetCall(s, i, CloseClearing(left - {id})).(clients := s.clients - {id});
      }
    case CloseWaiting(snapshot) =>
      if s.wg == 0 {
        s' := SetCall(s, i, CloseClearing(snapshot.Keys));
      } else {
        var g := CountedIsLive(s.goroutines);
        var c := s.goroutines[g].client;
        step := GoStep(g);
        match s.goroutines[g].pc
        case RunningClient => s' := s.(goroutines := s.goroutines[g := Goroutine(c, Removing)]);
        case Removing =>
          s' := s.(goroutines := s.goroutines[g := Goroutine(c, Releasing)], clients := s.clients - {s.ids[c]});
        case Releasing => s' := s.(goroutines := s.goroutines[g := Goroutine(c, Gone)], wg := s.wg - 1);
      }
  }

  ghost predicate ClosingNext(s: Hub, i: nat, s': Hub) {
    exists step :: ClosingStep(step, i) && HubStep(s, s', step)
  }

  ghost predicate CloseCanMove(s: Hub, i: nat) { exists s' :: ClosingNext(s, i, s') }

  lemma ClosingMovesOrIsDone(s: Hub, i: nat)
    requires HubInv(s) && i < |s.calls|
    requires Busy(s.calls[i]) || s.calls[i] == CloseLeaving(true)
    ensures CloseCanMove(s, i)
    ensures Busy(s.calls[i]) || s.clients == map[]
  {
    if Busy(s.calls[i]) {
      var step, s' := ClosingNeverBlocks(s, i);
      assert ClosingNext(s, i, s');
    } else {
      assert HubStep(s, Release(s, i), CallStep(i));
      assert ClosingNext(s, i, Release(s, i));
    }
  }

  /** Steps of other calls and clients change neither what this Close does nor how much is left to do. */
  lemma OtherStepsKeepRank(s: Hub, s': Hub, step: Step, i: nat)
    requires HubInv(s) && i < |s.calls| && Busy(s.calls[i]) && HubStep(s, s', step) && !ClosingStep(step, i)
    ensures i < |s'.calls| && s'.calls[i] == s.calls[i] && ClosingRank(s', i) == ClosingRank(s, i)
  {
    hide GoroutinesRank, CloseRank;
    BusyHoldsTheMutex(s, i);
    if step.CallStep? { OtherCallsWait(s, s', step.at, i); }
  }

  lemma OtherCallsWait(s: Hub, s': Hub, at: nat, i: nat)
    requires HubInv(s) && i < |s.calls| && Busy(s.calls[i]) && CallNext(s, at, s') && at != i
    ensures s'.goroutines == s.goroutines && i < |s'.calls| && s'.calls[i] == s.calls[i]
  {
    hide EntryOk, KnownCalls, CountLive;
    BusyHoldsTheMutex(s, i);
    assert !Holds(s.calls[at]);
  }

  /** Any interleaving, step by step, from a busy Close until it is about to unlock. */
  ghost predicate ClosingRun(run: seq<Hub>, steps: seq<Step>, i: nat) {
    && |run| == |steps| + 1
    && (forall k :: 0 <= k < |run| ==> i < |run[k].calls|)
    && (forall k :: 0 <= k < |steps| ==> Busy(run[k].calls[i]) && HubStep(run[k], run[k + 1], steps[k]))
    && Busy(run[0].calls[i])
  }

  /** How many of the steps are this Close's own or a goroutine's. */
  function ClosingSteps(steps: seq<Step>, i: nat): nat {
    if steps == [] then 0
    else ClosingSteps(steps[..|steps| - 1], i) + if ClosingStep(steps[|steps| - 1], i) then 1 else 0
  }

  lemma ClosingRunPrefix(run: seq<Hub>, steps: seq<Step>, i: nat)
    requires ClosingRun(run, steps, i) && steps != []
    ensures var n := |steps| - 1; ClosingRun(run[..n + 1], steps[..n], i)
  {
    hide HubStep, Busy;
  }

  lemma StepOfClosingRun(s: Hub, s': Hub, step: Step, i: nat)
    requires HubInv(s) && i < |s.calls| && Busy(s.calls[i]) && HubStep(s, s', step)
    ensures HubInv(s') && i < |s'.calls| && (Busy(s'.calls[i]) || s'.calls[i] == CloseLeaving(true))
    ensures ClosingRank(s', i) + (if ClosingStep(step, i) then 1 else 0) <= ClosingRank(s, i)
  {
    hide HubInv, HubStep, ClosingRank;
    HubStepKeepsInv(s, s', step);
    if ClosingStep(step, i) {
      assert ClosingNext(s, i, s');
      ClosingStepLowersRank(s, i, s');
    } else {
      OtherStepsKeepRank(s, s', step, i);
    }
  }

  lemma {:induction false} ClosingRunIsBounded(run: seq<Hub>, steps: seq<Step>, i: nat)
    requires ClosingRun(run, steps, i) && HubInv(run[0])
    ensures var s := run[|steps|];
            && HubInv(s)
            && ClosingSteps(steps, i) + ClosingRank(s, i) <= ClosingRank(run[0], i)
            && (Busy(s.calls[i]) || (s.calls[i] == CloseLeaving(true) && s.clients == map[]))
            && CloseCanMove(s, i)
  {
    hide HubInv, HubStep, ClosingRank, Busy;
    if steps != [] {
      var n := |steps| - 1;
      ClosingRunPrefix(run, steps, i);
      ClosingRunIsBounded(run[..n + 1], steps[..n], i);
      StepOfClosingRun(run[n], run[n + 1], steps[n], i);
    }
    ClosingMovesOrIsDone(run[|steps|], i);
  }

  /**
    Close never deadlocks on the wait group.  In every interleaving from a reachable state in
    which a Close is at work, whatever other calls begin or wait meanwhile, that Close and the
    goroutines take boundedly many steps, one of those steps is always possible, and when no
    more are needed the map is empty.
   */
  lemma CloseTerminates(history: seq<Hub>, run: seq<Hub>, steps: seq<Step>, i: nat)
    requires IsHubRun(history) && ClosingRun(run, steps, i) && run[0] == history[|history| - 1]
    ensures var s := run[|steps|];
            && ClosingSteps(steps, i) + ClosingRank(s, i) <= ClosingRank(run[0], i)
            && (Busy(s.calls[i]) || (s.calls[i] == CloseLeaving(true) && s.clients == map[]))
            && CloseCanMove(s, i)
  {
    HubRunKeepsInv(history);
    ClosingRunIsBounded(run, steps, i);
  }

  lemma ExtendRun(run: seq<Hub>, s': Hub, step: Step) returns (longer: seq<Hub>)
    requires IsHubRun(run) && HubStep(run[|run| - 1], s', step)
    ensures IsHubRun(longer) && longer[|longer| - 1] == s'
  {
    longer := run + [s'];
    assert HubNext(run[|run| - 1], s');
    forall k | 0 < k < |longer| ensures HubNext(longer[k - 1], longer[k]) {
      if k < |run| { assert longer[k - 1] == run[k - 1] && longer[k] == run[k]; }
    }
  }

  lemma CloseBegunRun() returns (run: seq<Hub>)
    ensures IsHubRun(run)
    ensures run[|run| - 1]
         == NewHub().(calls := [CloseStopping(map[], {})], lock := HeldBy(0), onceUsed := true, doneClosed := true)
  {
    var s := NewHub();
    run := [s];
    s := s.(calls := [CloseCalled]); run := ExtendRun(run, s, Begin(CloseCalled));
    s := s.(calls := [CloseLocked], lock := HeldBy(0)); run := ExtendRun(run, s, CallStep(0));
    s := s.(calls := [CloseSignalled], onceUsed := true, doneClosed := true); run := ExtendRun(run, s, CallStep(0));
    assert s.clients.Keys == {};
    s := s.(calls := [CloseStopping(map[], {})]); run := ExtendRun(run, s, CallStep(0));
  }

  lemma FirstCloseRun() returns (run: seq<Hub>)
    ensures IsHubRun(run)
    ensures run[|run| - 1] == NewHub().(calls := [Finished], onceUsed := true, doneClosed := true)
  {
    run := CloseBegunRun();
    var s := run[|run| - 1];
    s := s.(calls := [CloseWaiting(map[])]); run := ExtendRun(run, s, CallStep(0));
    var none: map<nat, nat> := map[];
    assert none.Keys == {};
    s := s.(calls := [CloseClearing({})]); run := ExtendRun(run, s, CallStep(0));
    s := s.(calls := [CloseLeaving(true)]); run := ExtendRun(run, s, CallStep(0));
    s := s.(calls := [Finished], lock := Free); run := ExtendRun(run, s, CallStep(0));
  }

  lemma AddAfterCloseRun() returns (run: seq<Hub>)
    ensures IsHubRun(run)
    ensures var s := run[|run| - 1];
            && s.calls == [Finished, Finished] && s.lock == Free && !s.panicked
            && s.onceUsed && s.clients == map[7 := 1]
  {
    run := FirstCloseRun();
    var s := run[|run| - 1];
    s := s.(ids := map[1 := 7]); run := ExtendRun(run, s, NewClient(1, 7));
    s := s.(calls := [Finished, AddCalled(1)]); run := ExtendRun(run, s, Begin(AddCalled(1)));
    s := s.(calls := [Finished, AddLocked(1)], lock := HeldBy(1)); run := ExtendRun(run, s, CallStep(1));
    s := s.(calls := [Finished, Mapped(1)], clients := map[7 := 1]); run := ExtendRun(run, s, CallStep(1));
    s := s.(calls := [Finished, Unlocking], goroutines := [Goroutine(1, RunningClient)], wg := 1);
    run := ExtendRun(run, s, CallStep(1));
    s := s.(calls := [Finished, Finished], lock := Free); run := ExtendRun(run, s, CallStep(1));
  }

  /**
    Only the first Close empties the map: a hub accepts clients after it was closed, and a
    second Close leaves them where they are.
   */
  lemma SecondCloseLeavesClients() returns (run: seq<Hub>)
    ensures IsHubRun(run)
    ensures run[|run| - 1].calls == [Finished, Finished, CloseLeaving(false)]
    ensures run[|run| - 1].clients == map[7 := 1]
  {
    run := AddAfterCloseRun();
    var s := run[|run| - 1];
    s := s.(calls := [Finished, Finished, CloseCalled]); run := ExtendRun(run, s, Begin(CloseCalled));
    s := s.(calls := [Finished, Finished, CloseLocked], lock := HeldBy(2)); run := ExtendRun(run, s, CallStep(2));
    s := s.(calls := [Finished, Finished, CloseLeaving(false)]); run := ExtendRun(run, s, CallStep(2));
  }
}
