/**
  What callers of the hub get (serbewr/dabluvee-es/wshub/hub.go): GetOrCreateClient returns the
  client that is there, a client that was added is run, and runs until it is told to stop.
 */
module HubClients {
  import opened HubLifecycle

  /** A run with the step that was taken at each point. */
  ghost predicate Traced(run: seq<Hub>, steps: seq<Step>) {
    |run| == |steps| + 1 && forall k :: 0 <= k < |steps| ==> HubStep(run[k], run[k + 1], steps[k])
  }

  lemma TracedPrefix(run: seq<Hub>, steps: seq<Step>)
    requires Traced(run, steps) && steps != []
    ensures var n := |steps| - 1; Traced(run[..n + 1], steps[..n]) && HubStep(run[n], run[n + 1], steps[n])
  {
    hide HubStep;
  }

  /** The entry of `id` leaves the map. */
  predicate Leaves(s: Hub, s': Hub, id: nat) { id in s.clients && id !in s'.clients }

  // ---- GetOrCreateClient on an id that is mapped -----------------------------------------

  /** A call without the mutex can only take an entry out. */
  lemma NonHolderFrame(s: Hub, at: nat, s': Hub)
    requires CallNext(s, at, s') && s.lock.HeldBy? && !Holds(s.calls[at])
    ensures s'.goroutines == s.goroutines && s'.ids == s.ids && s'.lock == s.lock && s'.wg == s.wg
    ensures |s'.calls| == |s.calls| && forall i :: 0 <= i < |s.calls| && i != at ==> s'.calls[i] == s.calls[i]
    ensures forall id :: id in s'.clients ==> id in s.clients && s'.clients[id] == s.clients[id]
  {
    hide CloseNext;
    if s.calls[at].CloseCalled? { assert CloseNext(s, at, s'); WaitingCloseWaits(s, at, s'); }
  }

  lemma WaitingCloseWaits(s: Hub, at: nat, s': Hub)
    requires at < |s.calls| && s.calls[at].CloseCalled? && CloseNext(s, at, s')
    ensures s.lock == Free
  {
  }

  /** While a call holds the mutex, nobody else adds an entry, an object of its own or a goroutine. */
  lemma OthersOnlyTakeOut(s: Hub, s': Hub, step: Step, i: nat)
    requires HubInv(s) && i < |s.calls| && Holds(s.calls[i]) && HubStep(s, s', step) && step != CallStep(i)
    ensures i < |s'.calls| && s'.calls[i] == s.calls[i] && |s'.goroutines| == |s.goroutines|
    ensures forall id :: id in s'.clients ==> id in s.clients && s'.clients[id] == s.clients[id]
  {
    hide EntryOk, CountLive, CallNext;
    assert s.lock == HeldBy(i);
    match step
    case CallStep(at) =>
      assert at < |s.calls| by { CallExists(s, at, s'); }
      NonHolderFrame(s, at, s');
    case _ =>
  }

  lemma CallExists(s: Hub, at: nat, s': Hub)
    requires CallNext(s, at, s')
    ensures at < |s.calls|
  {
  }

  /** The lookup under the mutex: an id that is mapped is answered as it is, and nothing is made or started. */
  lemma LookupFindsTheClient(s: Hub, i: nat, id: nat, s': Hub)
    requires i < |s.calls| && s.calls[i] == GetLocked(id) && id in s.clients && CallNext(s, i, s')
    ensures s'.clients == s.clients && s'.ids == s.ids && s'.goroutines == s.goroutines && s'.wg == s.wg
    ensures i < |s'.calls| && s'.calls[i] == Unlocking
  {
  }

  lemma UnlockingChangesNothing(s: Hub, i: nat, s': Hub)
    requires i < |s.calls| && s.calls[i] == Unlocking && CallNext(s, i, s')
    ensures s'.clients == s.clients && s'.ids == s.ids && s'.goroutines == s.goroutines
    ensures i < |s'.calls| && s'.calls[i] == Finished
  {
  }

  predicate GetReturnsIt(c: Call, id: nat) { c == GetLocked(id) || c == Unlocking || c == Finished }

  /**
    While GetOrCreateClient goes from getting the mutex to its return, an id that was mapped
    keeps its client and no goroutine is added, in every interleaving in which that entry does
    not leave the map.
   */
  lemma {:induction false} GetKeepsTheClient(run: seq<Hub>, steps: seq<Step>, i: nat, id: nat)
    requires Traced(run, steps) && HubInv(run[0])
    requires i < |run[0].calls| && run[0].calls[i] == GetLocked(id) && id in run[0].clients
    requires forall k :: 0 <= k < |steps| ==> i < |run[k].calls| && run[k].calls[i] != Finished
    requires forall k :: 0 <= k < |steps| ==> !Leaves(run[k], run[k + 1], id)
    ensures var s := run[|steps|];
      && HubInv(s) && i < |s.calls| && GetReturnsIt(s.calls[i], id)
      && id in s.clients && s.clients[id] == run[0].clients[id]
      && |s.goroutines| == |run[0].goroutines|
  {
    hide HubInv, HubStep;
    if steps != [] {
      var n := |steps| - 1;
      TracedPrefix(run, steps);
      GetKeepsTheClient(run[..n + 1], steps[..n], i, id);
      var s, s' := run[n], run[n + 1];
      HubStepKeepsInv(s, s', steps[n]);
      GetStepKeepsTheClient(s, s', steps[n], i, id);
    }
  }

  lemma GetStepKeepsTheClient(s: Hub, s': Hub, step: Step, i: nat, id: nat)
    requires HubInv(s) && HubStep(s, s', step) && id in s.clients && !Leaves(s, s', id)
    requires i < |s.calls| && (s.calls[i] == GetLocked(id) || s.calls[i] == Unlocking)
    ensures i < |s'.calls| && GetReturnsIt(s'.calls[i], id)
    ensures id in s'.clients && s'.clients[id] == s.clients[id] && |s'.goroutines| == |s.goroutines|
  {
    hide HubInv, CallNext, GoNext;
    if step == CallStep(i) {
      if s.calls[i] == Unlocking { UnlockingChangesNothing(s, i, s'); } else { LookupFindsTheClient(s, i, id, s'); }
    } else {
      OthersOnlyTakeOut(s, s', step, i);
    }
  }

  // ---- One client for each id -----------------------------------------------------------------

  predicate Owned(ids: map<nat, nat>, c: nat, id: nat) { c in ids && ids[c] == id }

  predicate NoAdds(calls: seq<Call>) {
    forall i :: 0 <= i < |calls| ==> !calls[i].AddCalled? && !calls[i].AddLocked?
  }

  /** A client under this id is the one in the map. */
  predicate IsMapped(clients: map<nat, nat>, id: nat, c: nat) { id in clients && clients[id] == c }

  predicate GoroutinesMapped(s: Hub, id: nat) {
    forall g :: 0 <= g < |s.goroutines| && Owned(s.ids, s.goroutines[g].client, id) ==>
      (s.goroutines[g].pc == RunningClient || s.goroutines[g].pc == Removing)
      && IsMapped(s.clients, id, s.goroutines[g].client)
  }

  predicate AtMostOne(s: Hub, id: nat) {
    forall g, h :: 0 <= g < h < |s.goroutines| ==>
      !(Owned(s.ids, s.goroutines[g].client, id) && Owned(s.ids, s.goroutines[h].client, id))
  }

  /** A call about to start a goroutine for the id: its client is mapped and nobody runs it yet. */
  predicate StartersMapped(s: Hub, id: nat) {
    forall i :: 0 <= i < |s.calls| && s.calls[i].Mapped? && Owned(s.ids, s.calls[i].client, id) ==>
      IsMapped(s.clients, id, s.calls[i].client)
      && forall g :: 0 <= g < |s.goroutines| ==> !Owned(s.ids, s.goroutines[g].client, id)
  }

  predicate Single(s: Hub, id: nat) {
    NoAdds(s.calls) && GoroutinesMapped(s, id) && AtMostOne(s, id) && StartersMapped(s, id)
  }

  lemma GoKeepsSingle(s: Hub, g: nat, s': Hub, id: nat)
    requires HubInv(s) && Single(s, id) && GoNext(s, g, s') && !Leaves(s, s', id)
    ensures Single(s', id)
  {
    hide EntryOk, MutexOk;
    var c := s.goroutines[g].client;
    forall h | 0 <= h < |s.goroutines| ensures s'.goroutines[h].client == s.goroutines[h].client {}
    assert s'.ids == s.ids && s'.calls == s.calls;
    if Owned(s.ids, c, id) { assert IsMapped(s.clients, id, c); }
  }

  /** A step that adds neither goroutine nor starter, and keeps this entry. */
  lemma QuietKeepsSingle(s: Hub, s': Hub, id: nat)
    requires Single(s, id) && s'.goroutines == s.goroutines && NoAdds(s'.calls)
    requires forall c :: c in s.ids ==> c in s'.ids && s'.ids[c] == s.ids[c]
    requires KnownCalls(s)
    requires id in s.clients ==> id in s'.clients && s'.clients[id] == s.clients[id]
    requires forall i :: 0 <= i < |s'.calls| && s'.calls[i].Mapped? ==> i < |s.calls| && s'.calls[i] == s.calls[i]
    ensures Single(s', id)
  {
    forall g | 0 <= g < |s.goroutines|
      ensures Owned(s'.ids, s.goroutines[g].client, id) == Owned(s.ids, s.goroutines[g].client, id)
    {
      assert s.goroutines[g].client in s.ids;
    }
  }

  /** The lookup that finds nothing makes a client and maps it. */
  lemma CreateKeepsSingle(s: Hub, i: nat, s': Hub, id: nat)
    requires HubInv(s) && Single(s, id) && i < |s.calls| && s.calls[i].GetLocked? && s.calls[i].id !in s.clients
    requires CallNext(s, i, s')
    ensures Single(s', id)
  {
    hide EntryOk, CountLive;
    var x := s.calls[i].id;
    var c :| c !in s.ids && s' == SetCall(s, i, Mapped(c)).(ids := s.ids[c := x], clients := s.clients[x := c]);
    assert s.lock == HeldBy(i);
    forall g | 0 <= g < |s.goroutines|
      ensures Owned(s'.ids, s.goroutines[g].client, id) == Owned(s.ids, s.goroutines[g].client, id)
    {
      assert s.goroutines[g].client in s.ids && s.goroutines[g].client != c;
    }
    forall j | 0 <= j < |s.calls| && j != i ensures !s'.calls[j].Mapped? { assert !Holds(s.calls[j]); }
    if x != id {
      forall g | 0 <= g < |s.goroutines| && Owned(s.ids, s.goroutines[g].client, id)
        ensures IsMapped(s'.clients, id, s.goroutines[g].client)
      {
        assert IsMapped(s.clients, id, s.goroutines[g].client);
      }
    }
  }

  /** The goroutine of a client that was just mapped. */
  lemma StartKeepsSingle(s: Hub, i: nat, s': Hub, id: nat)
    requires HubInv(s) && Single(s, id) && i < |s.calls| && s.calls[i].Mapped? && CallNext(s, i, s')
    ensures Single(s', id)
  {
    hide EntryOk, CountLive;
    var c := s.calls[i].client;
    assert s'.goroutines == s.goroutines + [Goroutine(c, RunningClient)] && s'.ids == s.ids && s'.clients == s.clients;
    assert s.lock == HeldBy(i);
    forall j | 0 <= j < |s'.calls| ensures !s'.calls[j].Mapped? {
      if j != i { assert !Holds(s.calls[j]); }
    }
    if Owned(s.ids, c, id) { assert IsMapped(s.clients, id, c); }
  }

  /** A call that neither maps nor starts anything. */
  predicate MovesQuietly(s: Hub, i: nat, s': Hub) {
    && s'.goroutines == s.goroutines && s'.ids == s.ids && (s.doneClosed ==> s'.doneClosed) && s.stopped <= s'.stopped
    && |s'.calls| == |s.calls|
    && (forall j :: 0 <= j < |s.calls| && j != i ==> s'.calls[j] == s.calls[j])
    && (i < |s.calls| ==> !s'.calls[i].Mapped? && !s'.calls[i].AddCalled?)
    && (i < |s.calls| && s'.calls[i].AddLocked? ==> s.calls[i].AddCalled?)
    && (forall x :: x in s'.clients ==> x in s.clients && s'.clients[x] == s.clients[x])
  }

  predicate QuietCall(s: Hub, i: nat)
    requires i < |s.calls|
  {
    !s.calls[i].AddLocked? && !s.calls[i].Mapped? && (s.calls[i].GetLocked? ==> s.calls[i].id in s.clients)
  }

  lemma FoundLookupIsQuiet(s: Hub, i: nat, s': Hub)
    requires CallNext(s, i, s') && s.calls[i].GetLocked? && s.calls[i].id in s.clients
    ensures MovesQuietly(s, i, s')
  {
  }

  lemma WaitingIsQuiet(s: Hub, i: nat, s': Hub)
    requires CallNext(s, i, s') && s.calls[i].CloseWaiting?
    ensures MovesQuietly(s, i, s')
  {
  }

  lemma QuietCallsMoveQuietly(s: Hub, i: nat, s': Hub)
    requires i < |s.calls| && HubInv(s) && CallNext(s, i, s') && QuietCall(s, i)
    ensures MovesQuietly(s, i, s')
  {
    hide CallNext, EntryOk, KnownCalls, CountLive;
    if s.calls[i].GetLocked? {
      FoundLookupIsQuiet(s, i, s');
    } else if s.calls[i].CloseWaiting? {
      WaitingIsQuiet(s, i, s');
    } else {
      PlainCallFrame(s, i, s');
    }
  }

  lemma StepKeepsSingle(s: Hub, s': Hub, step: Step, id: nat)
    requires HubInv(s) && Single(s, id) && HubStep(s, s', step) && !Leaves(s, s', id)
    requires step.Begin? ==> !step.call.AddCalled?
    ensures Single(s', id)
  {
    assert KnownCalls(s);
    hide HubInv, CallNext, GoNext, KnownCalls, GoroutinesMapped, AtMostOne, StartersMapped;
    match step
    case CallStep(i) =>
      CallExists(s, i, s');
      if s.calls[i].Mapped? {
        StartKeepsSingle(s, i, s', id);
      } else if s.calls[i].GetLocked? && s.calls[i].id !in s.clients {
        CreateKeepsSingle(s, i, s', id);
      } else {
        QuietCallsMoveQuietly(s, i, s');
        QuietKeepsSingle(s, s', id);
      }
    case GoStep(g) => GoKeepsSingle(s, g, s', id);
    case _ => QuietKeepsSingle(s, s', id);
  }

  /**
    In every run in which clients come only from GetOrCreateClient, an id has at most one
    client with a goroutine, the one in the map, for as long as its entry has not left the map.
   */
  lemma {:induction false} OneClientForEachId(run: seq<Hub>, steps: seq<Step>, id: nat)
    requires Traced(run, steps) && run[0] == NewHub()
    requires forall k :: 0 <= k < |steps| ==> steps[k].Begin? ==> !steps[k].call.AddCalled?
    requires forall k :: 0 <= k < |steps| ==> !Leaves(run[k], run[k + 1], id)
    ensures HubInv(run[|steps|]) && Single(run[|steps|], id)
    ensures var s := run[|steps|];
      forall g, h :: 0 <= g < |s.goroutines| && 0 <= h < |s.goroutines|
        && Owned(s.ids, s.goroutines[g].client, id) && Owned(s.ids, s.goroutines[h].client, id)
        ==> g == h && id in s.clients && s.clients[id] == s.goroutines[g].client
  {
    if steps == [] {
      assert HubInv(NewHub());
    } else {
      hide HubInv, HubStep;
      var n := |steps| - 1;
      TracedPrefix(run, steps);
      OneClientForEachId(run[..n + 1], steps[..n], id);
      HubStepKeepsInv(run[n], run[n + 1], steps[n]);
      StepKeepsSingle(run[n], run[n + 1], steps[n], id);
    }
  }

  // ---- A client that was added is run ------------------------------------------------------------

  ghost predicate Started(s: Hub, c: nat) { exists g :: 0 <= g < |s.goroutines| && s.goroutines[g].client == c }

  /** How far the call that adds client `c` has come. */
  ghost predicate AddStage(s: Hub, i: nat, c: nat) {
    i < |s.calls| &&
    (s.calls[i] == AddCalled(c) || s.calls[i] == AddLocked(c) || s.calls[i] == Mapped(c)
     || ((s.calls[i] == Unlocking || s.calls[i] == Finished) && Started(s, c)))
  }

  lemma AddStageMoves(s: Hub, s': Hub, step: Step, i: nat, c: nat)
    requires HubInv(s) && HubStep(s, s', step) && AddStage(s, i, c)
    ensures AddStage(s', i, c)
  {
    hide Started, HubInv;
    if step == CallStep(i) {
      if s.calls[i] == Mapped(c) {
        StartedNow(s, c, s');
      } else if Started(s, c) {
        GoroutinesStay(s, s', step);
        StartedStays(s, s', c);
      }
    } else {
      OtherStepsKeepCall(s, s', step, i);
      GoroutinesStay(s, s', step);
      if Started(s, c) { StartedStays(s, s', c); }
    }
  }

  lemma StartedNow(s: Hub, c: nat, s': Hub)
    requires s'.goroutines == s.goroutines + [Goroutine(c, RunningClient)]
    ensures Started(s', c)
  {
    assert s'.goroutines[|s.goroutines|].client == c;
  }

  predicate SameClients(a: seq<Goroutine>, b: seq<Goroutine>) {
    |a| <= |b| && forall g :: 0 <= g < |a| ==> b[g].client == a[g].client
  }

  lemma StartedStays(s: Hub, s': Hub, c: nat)
    requires Started(s, c) && SameClients(s.goroutines, s'.goroutines)
    ensures Started(s', c)
  {
    var g :| 0 <= g < |s.goroutines| && s.goroutines[g].client == c;
    assert s'.goroutines[g].client == c;
  }

  lemma CallsKeepGoroutines(s: Hub, i: nat, s': Hub)
    requires HubInv(s) && CallNext(s, i, s')
    ensures SameClients(s.goroutines, s'.goroutines)
    ensures |s'.calls| == |s.calls| && forall j :: 0 <= j < |s.calls| && j != i ==> s'.calls[j] == s.calls[j]
  {
    CallExists(s, i, s');
    if QuietCall(s, i) {
      hide CallNext;
      QuietCallsMoveQuietly(s, i, s');
    } else {
      hide CloseNext;
    }
  }

  lemma GoroutinesStay(s: Hub, s': Hub, step: Step)
    requires HubInv(s) && HubStep(s, s', step)
    ensures SameClients(s.goroutines, s'.goroutines)
  {
    hide CallNext, HubInv;
    if step.CallStep? { CallsKeepGoroutines(s, step.at, s'); }
  }

  lemma OtherStepsKeepCall(s: Hub, s': Hub, step: Step, i: nat)
    requires HubInv(s) && HubStep(s, s', step) && i < |s.calls| && step != CallStep(i)
    ensures i < |s'.calls| && s'.calls[i] == s.calls[i]
  {
    hide CallNext, HubInv;
    if step.CallStep? { CallsKeepGoroutines(s, step.at, s'); }
  }

  /** AddClient maps the client it was given, whatever was there, and touches no other id. */
  lemma AddMapsItsClient(s: Hub, i: nat, s': Hub)
    requires CallNext(s, i, s') && s.calls[i].AddLocked?
    ensures var c := s.calls[i].client;
      && c in s.ids && s.ids[c] in s'.clients && s'.clients[s.ids[c]] == c && s'.calls[i] == Mapped(c)
      && forall x :: x != s.ids[c] ==> (x in s'.clients <==> x in s.clients) && (x in s.clients ==> s'.clients[x] == s.clients[x])
  {
  }

  /** When AddClient has returned, a goroutine was started for the client it was given. */
  lemma {:induction false} AddedClientIsRun(run: seq<Hub>, steps: seq<Step>, i: nat, c: nat)
    requires Traced(run, steps) && HubInv(run[0]) && i < |run[0].calls| && run[0].calls[i] == AddCalled(c)
    ensures HubInv(run[|steps|]) && AddStage(run[|steps|], i, c)
    ensures run[|steps|].calls[i] == Finished ==> Started(run[|steps|], c)
  {
    hide HubStep, HubInv;
    if steps != [] {
      var n := |steps| - 1;
      TracedPrefix(run, steps);
      AddedClientIsRun(run[..n + 1], steps[..n], i, c);
      HubStepKeepsInv(run[n], run[n + 1], steps[n]);
      AddStageMoves(run[n], run[n + 1], steps[n], i, c);
    }
  }

  /** So does GetOrCreateClient for the client it made. */
  lemma {:induction false} CreatedClientIsRun(run: seq<Hub>, steps: seq<Step>, i: nat, c: nat)
    requires Traced(run, steps) && HubInv(run[0]) && i < |run[0].calls| && run[0].calls[i] == Mapped(c)
    ensures HubInv(run[|steps|]) && AddStage(run[|steps|], i, c)
    ensures run[|steps|].calls[i] == Finished ==> Started(run[|steps|], c)
  {
    hide HubStep, HubInv;
    if steps != [] {
      var n := |steps| - 1;
      TracedPrefix(run, steps);
      CreatedClientIsRun(run[..n + 1], steps[..n], i, c);
      HubStepKeepsInv(run[n], run[n + 1], steps[n]);
      AddStageMoves(run[n], run[n + 1], steps[n], i, c);
    }
  }

  // ---- When a client leaves --------------------------------------------------------------------------

  predicate ToldToStop(s: Hub, c: nat) { s.doneClosed || c in s.stopped }

  predicate LeavesOnlyWhenTold(s: Hub) {
    forall g :: 0 <= g < |s.goroutines| && s.goroutines[g].pc != RunningClient ==> ToldToStop(s, s.goroutines[g].client)
  }

  lemma CallsOnlyTell(s: Hub, i: nat, s': Hub)
    requires HubInv(s) && CallNext(s, i, s')
    ensures (s.doneClosed ==> s'.doneClosed) && s.stopped <= s'.stopped
    ensures |s'.goroutines| >= |s.goroutines| && s'.goroutines[..|s.goroutines|] == s.goroutines
    ensures forall g :: |s.goroutines| <= g < |s'.goroutines| ==> s'.goroutines[g].pc == RunningClient
  {
    CallExists(s, i, s');
    if QuietCall(s, i) {
      hide CallNext;
      QuietCallsMoveQuietly(s, i, s');
    } else {
      hide CloseNext;
    }
  }

  lemma StepKeepsTold(s: Hub, s': Hub, step: Step)
    requires HubInv(s) && LeavesOnlyWhenTold(s) && HubStep(s, s', step)
    ensures LeavesOnlyWhenTold(s')
  {
    hide CallNext, HubInv;
    if step.CallStep? {
      CallsOnlyTell(s, step.at, s');
      forall g | 0 <= g < |s'.goroutines| && s'.goroutines[g].pc != RunningClient
        ensures ToldToStop(s', s'.goroutines[g].client)
      {
        assert g < |s.goroutines| && s'.goroutines[..|s.goroutines|][g] == s.goroutines[g];
      }
    }
  }

  /** In every run a client's goroutine leaves Run only if the client was stopped or the hub is closed. */
  lemma {:induction false} RunReturnsOnlyWhenTold(run: seq<Hub>)
    requires IsHubRun(run)
    ensures LeavesOnlyWhenTold(run[|run| - 1])
  {
    hide HubStep, HubInv, LeavesOnlyWhenTold;
    var n := |run| - 1;
    if n == 0 {
      assert LeavesOnlyWhenTold(NewHub()) by { NewHubHasNone(); }
    } else {
      RunReturnsOnlyWhenTold(run[..n]);
      HubRunKeepsInv(run[..n]);
      assert HubNext(run[n - 1], run[n]);
      var step :| HubStep(run[n - 1], run[n], step);
      StepKeepsTold(run[n - 1], run[n], step);
    }
  }

  lemma NewHubHasNone()
    ensures LeavesOnlyWhenTold(NewHub())
  {
  }

  /** And then it can: three steps of its own take it off the map and the wait group. */
  lemma StoppedClientLeaves(s: Hub, g: nat) returns (a: Hub, b: Hub, s': Hub)
    requires HubInv(s) && g < |s.goroutines| && s.goroutines[g].pc == RunningClient
    requires ToldToStop(s, s.goroutines[g].client)
    ensures HubStep(s, a, GoStep(g)) && HubStep(a, b, GoStep(g)) && HubStep(b, s', GoStep(g))
    ensures var c := s.goroutines[g].client;
      c in s.ids && s'.goroutines[g] == Goroutine(c, Gone) && s.ids[c] !in s'.clients && s'.wg == s.wg - 1
  {
    hide EntryOk;
    var c := s.goroutines[g].client;
    LiveIsCounted(s.goroutines, g);
    a := s.(goroutines := s.goroutines[g := Goroutine(c, Removing)]);
    b := a.(goroutines := a.goroutines[g := Goroutine(c, Releasing)], clients := a.clients - {s.ids[c]});
    s' := b.(goroutines := b.goroutines[g := Goroutine(c, Gone)], wg := b.wg - 1);
  }

  /** RemoveClient takes exactly its id off the map and goes on to stop the client it found. */
  lemma RemoveTakesTheEntry(s: Hub, i: nat, id: nat, s': Hub)
    requires CallNext(s, i, s') && s.calls[i] == RemoveCalled(id)
    ensures id !in s'.clients && s'.clients == s.clients - {id}
    ensures s'.calls[i] == if id in s.clients then RemoveFound(s.clients[id]) else Finished
  {
    if id !in s.clients { assert s.clients - {id} == s.clients; }
  }

  /** And it can return with that client stopped. */
  lemma RemoveCanStopTheClient(s: Hub, i: nat, c: nat) returns (s': Hub)
    requires !s.panicked && i < |s.calls| && s.calls[i] == RemoveFound(c)
    ensures HubStep(s, s', CallStep(i)) && s'.calls[i] == Finished && s'.stopped == s.stopped + {c}
  {
    s' := SetCall(s, i, Finished).(stopped := s.stopped + {c});
    assert MayStop(SetCall(s, i, Finished), c, s');
  }
}
