/**
  The file cache of the static routes (fileCache in serbewr/server.go): a map bounded in
  size and age.  Times are integers; the clock never runs backwards.
 */
module FileCaching {

  datatype Entry = Entry(present: bool, isDir: bool, timestamp: int)

  type Cache = map<string, Entry>

  // ---- set ---------------------------------------------------------------------

  /** `order` walks every key of the map once. */
  ghost predicate Walks(order: seq<string>, cache: Cache) {
    && (forall k :: k in order <==> k in cache)
    && (forall i, j :: 0 <= i < j < |order| ==> order[i] != order[j])
  }

  /** The eviction loop: the key it ends with, for this order of walking the map. */
  function Victim(order: seq<string>, cache: Cache): (victim: string)
    requires forall k :: k in order ==> k in cache
    ensures victim == "" || victim in order
  {
    if order == [] then ""
    else
      var best := Victim(order[..|order| - 1], cache);
      var k := order[|order| - 1];
      if best == "" || cache[k].timestamp < cache[best].timestamp then k else best
  }

  /** What the map may look like after set(path, ...). */
  ghost predicate AfterSet(before: Cache, after: Cache, maxSize: nat, path: string, e: Entry) {
    exists order :: Walks(order, before) && after == Stored(before, order, maxSize, path, e)
  }

  ghost function Stored(before: Cache, order: seq<string>, maxSize: nat, path: string, e: Entry): Cache
    requires Walks(order, before)
  {
    var kept := if |before| >= maxSize && Victim(order, before) != "" then before - {Victim(order, before)} else before;
    kept[path := e]
  }

  // ---- get, split at the lock upgrade ------------------------------------------------

  datatype Lookup = Hit(entry: Entry) | Absent | Expired

  /** The part under the read lock. */
  function FirstRead(cache: Cache, ttl: int, path: string, now: int): Lookup {
    if path !in cache then Absent
    else if now - cache[path].timestamp > ttl then Expired
    else Hit(cache[path])
  }

  /** The part under the write lock, which looks again before it deletes. */
  function AfterUpgrade(cache: Cache, ttl: int, path: string, now: int): Cache {
    if path in cache && now - cache[path].timestamp > ttl then cache - {path} else cache
  }

  class FileCache {
    var cache: Cache
    const ttl: int
    const maxSize: nat

    constructor (ttl: int, maxSize: nat)
      ensures cache == map[] && this.ttl == ttl && this.maxSize == maxSize
    {
      cache, this.ttl, this.maxSize := map[], ttl, maxSize;
    }

    /** `readAt` and `upgradedAt` are the two readings of the clock. */
    method Get(path: string, readAt: int, upgradedAt: int) returns (cached: bool, present: bool, isDir: bool)
      modifies this
      ensures var seen := FirstRead(old(cache), ttl, path, readAt);
        && cached == seen.Hit?
        && (present == (seen.Hit? && seen.entry.present)) && (isDir == (seen.Hit? && seen.entry.isDir))
        && cache == if seen.Expired? then AfterUpgrade(old(cache), ttl, path, upgradedAt) else old(cache)
    {
      if path !in cache { return false, false, false; }
      var entry := cache[path];
      if readAt - entry.timestamp > ttl {
        if path in cache && upgradedAt - cache[path].timestamp > ttl { cache := cache - {path}; }
        return false, false, false;
      }
      return true, entry.present, entry.isDir;
    }

    method Set(path: string, present: bool, isDir: bool, now: int)
      modifies this
      ensures AfterSet(old(cache), cache, maxSize, path, Entry(present, isDir, now))
    {
      ghost var order: seq<string>;
      ghost var before := cache;
      if |cache| >= maxSize {
        var oldestKey := "";
        var oldestTime := 0;
        var keys := cache.Keys;
        order := [];
        while keys != {}
          invariant keys <= cache.Keys && forall k :: k in order <==> k in cache && k !in keys
          invariant forall i, j :: 0 <= i < j < |order| ==> order[i] != order[j]
          invariant oldestKey == Victim(order, cache)
          invariant oldestKey != "" ==> oldestKey in cache && oldestTime == cache[oldestKey].timestamp
          decreases keys
        {
          var k :| k in keys;
          keys := keys - {k};
          order := order + [k];
          assert order[..|order| - 1] + [k] == order;
          if oldestKey == "" || cache[k].timestamp < oldestTime {
            oldestKey, oldestTime := k, cache[k].timestamp;
          }
        }
        if oldestKey != "" { cache := cache - {oldestKey}; }
      } else {
        order := WalkOf(cache);
      }
      cache := cache[path := Entry(present, isDir, now)];
      assert Walks(order, before);
      assert cache == Stored(before, order, maxSize, path, Entry(present, isDir, now));
    }
  }

  lemma WalkOf(cache: Cache) returns (order: seq<string>)
    ensures Walks(order, cache)
    decreases |cache|
  {
    if cache == map[] {
      order := [];
    } else {
      var k :| k in cache;
      var rest := WalkOf(cache - {k});
      order := [k] + rest;
    }
  }

  // ---- Eviction ----------------------------------------------------------------------

  /** With non-empty keys the loop finds a key with the oldest timestamp, in whatever order it looks. */
  lemma {:induction false} VictimIsOldest(order: seq<string>, cache: Cache)
    requires order != [] && "" !in cache && forall k :: k in order ==> k in cache
    ensures Victim(order, cache) in order && Victim(order, cache) != ""
    ensures forall k :: k in order ==> cache[Victim(order, cache)].timestamp <= cache[k].timestamp
  {
    var n := |order| - 1;
    if n > 0 { VictimIsOldest(order[..n], cache); }
    forall k | k in order ensures cache[Victim(order, cache)].timestamp <= cache[k].timestamp {
      assert k in order[..n] || k == order[n];
    }
  }

  /** What set keeps: everything while there is room, and otherwise all but one oldest entry. */
  ghost predicate Trimmed(before: Cache, kept: Cache, maxSize: nat) {
    || (kept == before && (|before| < maxSize || before == map[]))
    || (|before| >= maxSize && |kept| == |before| - 1
        && exists v :: v in before && kept == before - {v}
             && forall p :: p in before ==> before[v].timestamp <= before[p].timestamp)
  }

  /** Whatever the order of the walk, set evicts an oldest entry if the cache is full and stores the new value. */
  lemma SetEvictsOldest(before: Cache, after: Cache, maxSize: nat, path: string, e: Entry) returns (kept: Cache)
    requires AfterSet(before, after, maxSize, path, e) && "" !in before
    ensures Trimmed(before, kept, maxSize) && after == kept[path := e]
  {
    var order :| Walks(order, before) && after == Stored(before, order, maxSize, path, e);
    kept := before;
    if |before| >= maxSize && before != map[] {
      var k :| k in before;
      assert k in order;
      VictimIsOldest(order, before);
      var v := Victim(order, before);
      kept := before - {v};
      assert kept.Keys == before.Keys - {v};
    } else if order != [] {
      assert order[0] in before;
    }
  }

  /** What set leaves in the map was there before, or is the new value. */
  lemma SetAddsOnlyItsValue(before: Cache, after: Cache, maxSize: nat, path: string, e: Entry)
    requires AfterSet(before, after, maxSize, path, e)
    ensures path in after && after[path] == e
    ensures forall p :: p in after && p != path ==> p in before && after[p] == before[p]
  {
  }

  lemma WalkWithout(order: seq<string>, cache: Cache)
    requires Walks(order, cache) && order != []
    ensures var n := |order| - 1; order[n] in cache && Walks(order[..n], cache - {order[n]})
  {
    var n := |order| - 1;
    assert order[n] in order;
    forall k ensures k in order[..n] <==> k in cache - {order[n]} {
      assert k in order <==> k in order[..n] || k == order[n];
    }
  }

  lemma VictimDependsOnOrder(order: seq<string>, a: Cache, b: Cache)
    requires forall k :: k in order ==> k in a && k in b && a[k] == b[k]
    ensures Victim(order, a) == Victim(order, b)
  {
  }

  predicate EmptyKeyIsOldest(cache: Cache) {
    "" in cache && forall p :: p in cache && p != "" ==> cache[""].timestamp < cache[p].timestamp
  }

  /**
    A full cache evicts something in every walk unless the empty key is in it and strictly
    older than all others: exactly then some walk ends without a victim.
   */
  lemma NoVictimExactlyWhenEmptyKeyIsOldest(cache: Cache)
    requires cache != map[]
    ensures (exists order :: Walks(order, cache) && Victim(order, cache) == "") <==> EmptyKeyIsOldest(cache)
  {
    if order :| Walks(order, cache) && Victim(order, cache) == "" {
      var k :| k in cache;
      assert k in order;
      EmptyKeyCameLast(order, cache);
    }
    if EmptyKeyIsOldest(cache) {
      var rest := WalkOf(cache - {""});
      EmptyKeyLast(rest, cache);
    }
  }

  lemma EmptyKeyCameLast(order: seq<string>, cache: Cache)
    requires Walks(order, cache) && order != [] && Victim(order, cache) == ""
    ensures EmptyKeyIsOldest(cache)
  {
    var n := |order| - 1;
    var rest := order[..n];
    WalkWithout(order, cache);
    assert order[n] == "";
    if rest != [] {
      VictimDependsOnOrder(rest, cache, cache - {""});
      VictimIsOldest(rest, cache - {""});
    }
  }

  lemma EmptyKeyLast(rest: seq<string>, cache: Cache)
    requires EmptyKeyIsOldest(cache) && Walks(rest, cache - {""})
    ensures Walks(rest + [""], cache) && Victim(rest + [""], cache) == ""
  {
    var order := rest + [""];
    assert order[..|rest|] == rest;
    forall k ensures k in order <==> k in cache {
      assert k in order <==> k in rest || k == "";
    }
  }

  /** An empty key can make the loop lose its candidate: it evicts nothing and the map outgrows its bound. */
  lemma EmptyKeyDefeatsEviction(path: string, e: Entry)
    requires path !in {"", "a"}
    ensures var full: Cache := map["" := Entry(true, false, 1), "a" := Entry(true, false, 2)];
            exists after :: AfterSet(full, after, 2, path, e) && |after| == 3
  {
    var full: Cache := map["" := Entry(true, false, 1), "a" := Entry(true, false, 2)];
    var order := ["a", ""];
    assert order[..1] == ["a"] && ["a"][..0] == [];
    assert Victim(["a"], full) == "a";
    assert Victim(order, full) == "";
    assert Walks(order, full);
    var after := Stored(full, order, 2, path, e);
    assert after.Keys == {"", "a", path};
    assert AfterSet(full, after, 2, path, e);
  }

  // ---- Any number of callers -----------------------------------------------------------

  datatype Getter =
    | Reading(path: string)     // the read-locked part
    | Upgrading(path: string)   // between RUnlock and Lock
    | Done(path: string, result: Lookup)

  datatype State = State(
    cache: Cache,
    now: int,
    latest: Cache,          // history: the value most recently set for each path
    getters: seq<Getter>)

  datatype Step =
    | Tick(ticks: nat)
    | SetStep(path: string, present: bool, isDir: bool)
    | CallGet(path: string)
    | GetStep(caller: nat)

  ghost predicate GetNext(s: State, ttl: int, i: nat, s': State) {
    i < |s.getters| &&
    match s.getters[i]
    case Reading(path) =>
      var seen := FirstRead(s.cache, ttl, path, s.now);
      s' == s.(getters := s.getters[i := if seen.Expired? then Upgrading(path) else Done(path, seen)])
    case Upgrading(path) =>
      s' == s.(cache := AfterUpgrade(s.cache, ttl, path, s.now), getters := s.getters[i := Done(path, Expired)])
    case Done(_, _) => false
  }

  ghost predicate Next(s: State, ttl: int, maxSize: nat, s': State, step: Step) {
    match step
    case Tick(n) => s' == s.(now := s.now + n)
    case SetStep(path, present, isDir) =>
      path != "" &&
      var e := Entry(present, isDir, s.now);
      AfterSet(s.cache, s'.cache, maxSize, path, e) && s' == s.(cache := s'.cache, latest := s.latest[path := e])
    case CallGet(path) => s' == s.(getters := s.getters + [Reading(path)])
    case GetStep(i) => GetNext(s, ttl, i, s')
  }

  ghost predicate Reaches(s: State, ttl: int, maxSize: nat, s': State) {
    exists step :: Next(s, ttl, maxSize, s', step)
  }

  ghost predicate IsRun(run: seq<State>, ttl: int, maxSize: nat) {
    && |run| > 0 && run[0].cache == run[0].latest == map[] && run[0].getters == []
    && forall k :: 0 < k < |run| ==> Reaches(run[k - 1], ttl, maxSize, run[k])
  }

  /** The cache holds the latest value of each of its paths, none from the future. */
  predicate Current(s: State) {
    forall p :: p in s.cache ==>
      p != "" && p in s.latest && s.latest[p] == s.cache[p] && s.cache[p].timestamp <= s.now
  }

  /** If a path is cached, so is everything set later that is still within the time to live. */
  predicate RecencySuffix(s: State, ttl: int) {
    forall p, q ::
      (p in s.cache && q in s.latest
       && s.cache[p].timestamp < s.latest[q].timestamp && s.now - s.latest[q].timestamp <= ttl) ==> q in s.cache
  }

  ghost predicate Inv(s: State, ttl: int, maxSize: nat) {
    && Current(s)
    && (forall q :: q in s.latest ==> s.latest[q].timestamp <= s.now)
    && RecencySuffix(s, ttl)
    && (maxSize >= 1 ==> |s.cache| <= maxSize)
  }

  lemma SetKeepsInv(s: State, ttl: int, maxSize: nat, s': State, path: string, e: Entry)
    requires Inv(s, ttl, maxSize) && path != "" && e.timestamp == s.now
    requires AfterSet(s.cache, s'.cache, maxSize, path, e) && s' == s.(cache := s'.cache, latest := s.latest[path := e])
    ensures Inv(s', ttl, maxSize)
  {
    assert "" !in s.cache;
    var kept := SetEvictsOldest(s.cache, s'.cache, maxSize, path, e);
    StoreKeepsInv(s, ttl, maxSize, kept, path, e);
  }

  lemma StoreKeepsInv(s: State, ttl: int, maxSize: nat, kept: Cache, path: string, e: Entry)
    requires Inv(s, ttl, maxSize) && path != "" && e.timestamp == s.now && Trimmed(s.cache, kept, maxSize)
    ensures Inv(s.(cache := kept[path := e], latest := s.latest[path := e]), ttl, maxSize)
  {
    EvictKeepsRecency(s, ttl, maxSize, kept);
    PutKeepsRecency(s.(cache := kept), ttl, path, e);
    if maxSize >= 1 { StoreKeepsBound(s.cache, kept, maxSize, path, e); }
  }

  lemma StoreKeepsBound(before: Cache, kept: Cache, maxSize: nat, path: string, e: Entry)
    requires Trimmed(before, kept, maxSize) && |before| <= maxSize && maxSize >= 1
    ensures |kept[path := e]| <= maxSize
  {
    assert kept[path := e].Keys == kept.Keys + {path};
  }

  lemma EvictKeepsRecency(s: State, ttl: int, maxSize: nat, kept: Cache)
    requires RecencySuffix(s, ttl) && Current(s) && Trimmed(s.cache, kept, maxSize)
    ensures RecencySuffix(s.(cache := kept), ttl) && Current(s.(cache := kept))
  {
  }

  lemma PutKeepsRecency(s: State, ttl: int, path: string, e: Entry)
    requires RecencySuffix(s, ttl) && Current(s) && e.timestamp == s.now && path != ""
    requires forall q :: q in s.latest ==> s.latest[q].timestamp <= s.now
    ensures var t := s.(cache := s.cache[path := e], latest := s.latest[path := e]);
            RecencySuffix(t, ttl) && Current(t)
  {
  }

  lemma GetKeepsInv(s: State, ttl: int, maxSize: nat, s': State, i: nat)
    requires Inv(s, ttl, maxSize) && GetNext(s, ttl, i, s')
    ensures Inv(s', ttl, maxSize)
  {
    if s'.cache != s.cache {
      assert s'.cache.Keys == s.cache.Keys - {s.getters[i].path};
    }
  }

  lemma StepKeepsInv(s: State, ttl: int, maxSize: nat, s': State, step: Step)
    requires Inv(s, ttl, maxSize) && Next(s, ttl, maxSize, s', step)
    ensures Inv(s', ttl, maxSize)
  {
    match step
    case SetStep(path, present, isDir) => SetKeepsInv(s, ttl, maxSize, s', path, Entry(present, isDir, s.now));
    case GetStep(i) => GetKeepsInv(s, ttl, maxSize, s', i);
    case _ =>
  }

  /**
    In every reachable state the cache is within its bound and is a recency suffix of what was
    set: with `p` cached, everything set later and not yet expired is cached too.
   */
  lemma {:induction false} ReachableStates(run: seq<State>, ttl: int, maxSize: nat)
    requires IsRun(run, ttl, maxSize)
    ensures Inv(run[|run| - 1], ttl, maxSize)
  {
    var n := |run| - 1;
    if n > 0 {
      ReachableStates(run[..n], ttl, maxSize);
      assert Reaches(run[n - 1], ttl, maxSize, run[n]);
      var step :| Next(run[n - 1], ttl, maxSize, run[n], step);
      StepKeepsInv(run[n - 1], ttl, maxSize, run[n], step);
    }
  }

  /** A hit is the value most recently set for its path and no older than the time to live. */
  lemma HitIsLatest(run: seq<State>, ttl: int, maxSize: nat, i: nat, s': State)
    requires IsRun(run, ttl, maxSize) && GetNext(run[|run| - 1], ttl, i, s')
    requires s'.getters[i].Done? && s'.getters[i].result.Hit?
    requires run[|run| - 1].getters[i].Reading?
    ensures var s, e, p := run[|run| - 1], s'.getters[i].result.entry, s'.getters[i].path;
            p in s.latest && e == s.latest[p] && 0 <= s.now - e.timestamp <= ttl
  {
    ReachableStates(run, ttl, maxSize);
  }

  /** A lookup that will miss saw its path absent or expired at the first read. */
  lemma MissMeansGone(run: seq<State>, ttl: int, maxSize: nat, i: nat, s': State)
    requires IsRun(run, ttl, maxSize) && GetNext(run[|run| - 1], ttl, i, s')
    requires run[|run| - 1].getters[i].Reading?
    ensures var s, p := run[|run| - 1], run[|run| - 1].getters[i].path;
            (s'.getters[i].Done? && s'.getters[i].result.Hit?)
            <==> (p in s.cache && p in s.latest && s.now - s.latest[p].timestamp <= ttl)
  {
    ReachableStates(run, ttl, maxSize);
  }

  /** A get deletes nothing but an entry that is expired when it is deleted, whatever was set since its first read. */
  lemma GetDeletesOnlyExpired(run: seq<State>, ttl: int, maxSize: nat, i: nat, s': State, p: string)
    requires IsRun(run, ttl, maxSize) && GetNext(run[|run| - 1], ttl, i, s')
    requires p in run[|run| - 1].cache && p !in s'.cache
    ensures var s := run[|run| - 1];
            p == s.getters[i].path && p in s.latest && s.now - s.latest[p].timestamp > ttl
  {
    ReachableStates(run, ttl, maxSize);
  }

  // ---- checkFileAccess against the file system -------------------------------------------

  datatype Kind = Missing | Directory | Regular

  function KindOf(e: Entry): Kind {
    if !e.present then Missing else if e.isDir then Directory else Regular
  }

  /** One request, with the clock readings of get, its lock upgrade, stat and set. */
  datatype Access = Access(path: string, readAt: int, upgradedAt: int, statAt: int, setAt: int)

  predicate InOrder(a: Access) { a.readAt <= a.upgradedAt <= a.statAt <= a.setAt }

  /** checkFileAccess with handleCachedResult and handleCacheMiss; `disk` is the file system over time. */
  ghost predicate AccessNext(cache: Cache, ttl: int, maxSize: nat, disk: (int, string) -> Kind, a: Access,
                             decision: Kind, cache': Cache)
  {
    var seen := FirstRead(cache, ttl, a.path, a.readAt);
    if seen.Hit? then decision == KindOf(seen.entry) && cache' == cache
    else
      var kind := disk(a.statAt, a.path);
      var kept := if seen.Expired? then AfterUpgrade(cache, ttl, a.path, a.upgradedAt) else cache;
      decision == kind
      && AfterSet(kept, cache', maxSize, a.path, Entry(kind != Missing, kind == Directory, a.setAt))
  }

  method CheckFileAccess(fc: FileCache, a: Access, disk: (int, string) -> Kind) returns (decision: Kind)
    modifies fc
    ensures AccessNext(old(fc.cache), fc.ttl, fc.maxSize, disk, a, decision, fc.cache)
  {
    var cached, present, isDir := fc.Get(a.path, a.readAt, a.upgradedAt);
    if cached {
      if !present { return Missing; }
      return if isDir then Directory else Regular;
    }
    var info := disk(a.statAt, a.path);
    if info == Missing {
      fc.Set(a.path, false, false, a.setAt);
      return Missing;
    }
    fc.Set(a.path, true, info == Directory, a.setAt);
    return info;
  }

  /** Each entry records what the disk said at most `lag` before its timestamp. */
  ghost predicate Honest(cache: Cache, disk: (int, string) -> Kind, lag: int) {
    forall p :: p in cache ==> Witnessed(disk, p, KindOf(cache[p]), cache[p].timestamp - lag, cache[p].timestamp)
  }

  predicate NoLaterThan(cache: Cache, time: int) { forall p :: p in cache ==> cache[p].timestamp <= time }

  ghost predicate Witnessed(disk: (int, string) -> Kind, path: string, kind: Kind, from: int, to: int) {
    exists t :: from <= t <= to && disk(t, path) == kind
  }

  /** When a decision is made: on a hit under the read lock, otherwise by the stat. */
  function DecidedAt(cache: Cache, ttl: int, a: Access): int {
    if FirstRead(cache, ttl, a.path, a.readAt).Hit? then a.readAt else a.statAt
  }

  /** The decision was true on the disk at some instant at most `age` before it was made. */
  ghost predicate Fresh(disk: (int, string) -> Kind, cache: Cache, ttl: int, a: Access, decision: Kind, age: int) {
    var at := DecidedAt(cache, ttl, a);
    Witnessed(disk, a.path, decision, at - age, at)
  }

  lemma AccessIsFresh(cache: Cache, ttl: int, maxSize: nat, disk: (int, string) -> Kind, lag: int, a: Access,
                      decision: Kind, cache': Cache)
    requires Honest(cache, disk, lag) && AccessNext(cache, ttl, maxSize, disk, a, decision, cache')
    requires InOrder(a) && a.setAt - a.statAt <= lag && NoLaterThan(cache, a.readAt)
    requires ttl >= 0 && lag >= 0
    ensures Honest(cache', disk, lag) && NoLaterThan(cache', a.setAt)
    ensures Fresh(disk, cache, ttl, a, decision, ttl + lag)
  {
    if FirstRead(cache, ttl, a.path, a.readAt).Hit? {
      var e := cache[a.path];
      assert Witnessed(disk, a.path, KindOf(e), e.timestamp - lag, e.timestamp);
      var t :| e.timestamp - lag <= t <= e.timestamp && disk(t, a.path) == KindOf(e);
      assert a.readAt - (ttl + lag) <= t <= a.readAt;
    } else {
      MissIsFresh(cache, ttl, maxSize, disk, lag, a, decision, cache');
    }
  }

  lemma MissIsFresh(cache: Cache, ttl: int, maxSize: nat, disk: (int, string) -> Kind, lag: int, a: Access,
                    decision: Kind, cache': Cache)
    requires Honest(cache, disk, lag) && AccessNext(cache, ttl, maxSize, disk, a, decision, cache')
    requires InOrder(a) && a.setAt - a.statAt <= lag && NoLaterThan(cache, a.readAt)
    requires !FirstRead(cache, ttl, a.path, a.readAt).Hit?
    ensures decision == disk(a.statAt, a.path)
    ensures Honest(cache', disk, lag) && NoLaterThan(cache', a.setAt)
  {
    var kind := disk(a.statAt, a.path);
    var e := Entry(kind != Missing, kind == Directory, a.setAt);
    assert KindOf(e) == kind;
    var kept := if FirstRead(cache, ttl, a.path, a.readAt).Expired? then AfterUpgrade(cache, ttl, a.path, a.upgradedAt)
                else cache;
    SetAddsOnlyItsValue(kept, cache', maxSize, a.path, e);
    forall p | p in cache'
      ensures Witnessed(disk, p, KindOf(cache'[p]), cache'[p].timestamp - lag, cache'[p].timestamp)
    {
      if p != a.path {
        assert Witnessed(disk, p, KindOf(cache[p]), cache[p].timestamp - lag, cache[p].timestamp);
      } else {
        assert a.setAt - lag <= a.statAt <= a.setAt && disk(a.statAt, p) == KindOf(e);
      }
    }
  }

  ghost predicate AccessReaches(cache: Cache, ttl: int, maxSize: nat, disk: (int, string) -> Kind, a: Access,
                                decision: Kind, cache': Cache)
  {
    InOrder(a) && AccessNext(cache, ttl, maxSize, disk, a, decision, cache')
  }

  /** Requests handled one after the other, the disk changing as it likes in between. */
  ghost predicate AccessRun(caches: seq<Cache>, ttl: int, maxSize: nat, disk: (int, string) -> Kind,
                            accesses: seq<Access>, decisions: seq<Kind>)
  {
    && |caches| == |accesses| + 1 && |decisions| == |accesses| && caches[0] == map[]
    && (forall k :: 0 < k < |accesses| ==> accesses[k - 1].setAt <= accesses[k].readAt)
    && (forall k :: 0 <= k < |accesses| ==>
          AccessReaches(caches[k], ttl, maxSize, disk, accesses[k], decisions[k], caches[k + 1]))
  }

  lemma AccessRunPrefix(caches: seq<Cache>, ttl: int, maxSize: nat, disk: (int, string) -> Kind,
                        accesses: seq<Access>, decisions: seq<Kind>)
    requires AccessRun(caches, ttl, maxSize, disk, accesses, decisions) && accesses != []
    ensures var n := |accesses| - 1;
      && AccessRun(caches[..n + 1], ttl, maxSize, disk, accesses[..n], decisions[..n])
      && AccessReaches(caches[n], ttl, maxSize, disk, accesses[n], decisions[n], caches[n + 1])
      && (if n > 0 then accesses[n - 1].setAt <= accesses[n].readAt else caches[n] == map[])
  {
    hide AccessReaches;
  }

  /** No access takes longer than `lag` from its stat to its set. */
  predicate Prompt(accesses: seq<Access>, lag: int) {
    forall k :: 0 <= k < |accesses| ==> accesses[k].setAt - accesses[k].statAt <= lag
  }

  ghost predicate AllFresh(disk: (int, string) -> Kind, caches: seq<Cache>, ttl: int, accesses: seq<Access>,
                           decisions: seq<Kind>, age: int)
    requires |accesses| == |decisions| <= |caches|
  {
    forall k :: 0 <= k < |accesses| ==> Fresh(disk, caches[k], ttl, accesses[k], decisions[k], age)
  }

  lemma FreshLast(disk: (int, string) -> Kind, caches: seq<Cache>, ttl: int, accesses: seq<Access>,
                  decisions: seq<Kind>, age: int)
    requires 0 < |accesses| == |decisions| <= |caches|
    requires var n := |accesses| - 1;
      && AllFresh(disk, caches[..n + 1], ttl, accesses[..n], decisions[..n], age)
      && Fresh(disk, caches[n], ttl, accesses[n], decisions[n], age)
    ensures AllFresh(disk, caches, ttl, accesses, decisions, age)
  {
    hide Fresh;
    var n := |accesses| - 1;
    forall k | 0 <= k < |accesses| ensures Fresh(disk, caches[k], ttl, accesses[k], decisions[k], age) {
      if k < n {
        assert accesses[..n][k] == accesses[k] && decisions[..n][k] == decisions[k];
        assert caches[..n + 1][k] == caches[k];
      }
    }
  }

  /**
    Over every run of requests each decision is what a direct stat would have said at some
    instant no further back than the time to live, plus the delay between a stat and the
    timestamp of its entry.
   */
  lemma {:induction false} DecisionsAreFresh(caches: seq<Cache>, ttl: int, maxSize: nat, disk: (int, string) -> Kind,
                                             accesses: seq<Access>, decisions: seq<Kind>, lag: int)
    requires AccessRun(caches, ttl, maxSize, disk, accesses, decisions) && ttl >= 0 && lag >= 0
    requires Prompt(accesses, lag)
    ensures Honest(caches[|accesses|], disk, lag)
    ensures accesses != [] ==> NoLaterThan(caches[|accesses|], accesses[|accesses| - 1].setAt)
    ensures AllFresh(disk, caches, ttl, accesses, decisions, ttl + lag)
  {
    if accesses != [] {
      hide AccessNext, Honest, Fresh, AllFresh;
      var n := |accesses| - 1;
      AccessRunPrefix(caches, ttl, maxSize, disk, accesses, decisions);
      DecisionsAreFresh(caches[..n + 1], ttl, maxSize, disk, accesses[..n], decisions[..n], lag);
      assert caches[..n + 1][n] == caches[n];
      assert n > 0 ==> accesses[..n][n - 1] == accesses[n - 1];
      assert NoLaterThan(caches[n], accesses[n].readAt);
      AccessIsFresh(caches[n], ttl, maxSize, disk, lag, accesses[n], decisions[n], caches[n + 1]);
      FreshLast(disk, caches, ttl, accesses, decisions, ttl + lag);
    }
  }

  /** After a stat at 0 whose result was stored at `delay`, a request at the last live instant. */
  function StaleAccesses(path: string, ttl: int, delay: int): seq<Access> {
    [Access(path, 0, 0, 0, delay), Access(path, ttl + delay, ttl + delay, ttl + delay, ttl + delay)]
  }

  lemma FirstStored(maxSize: nat, path: string, e: Entry)
    requires maxSize > 0
    ensures AfterSet(map[], map[path := e], maxSize, path, e)
  {
    var none: Cache := map[];
    assert Walks([], none);
    assert none[path := e] == map[path := e];
    assert Stored(none, [], maxSize, path, e) == map[path := e];
  }

  /**
    The bound is sharp: for every delay between stat and store there is a run whose last
    decision was true at no instant later than one time to live plus that delay before.
    Without a delay the bound is one time to live; with any delay it is more.
   */
  lemma StalenessBoundIsSharp(path: string, ttl: int, maxSize: nat, delay: int)
    requires ttl >= 0 && delay >= 0 && maxSize > 0
    ensures var disk := (t: int, p: string) => if t <= 0 then Regular else Missing;
      var accesses := StaleAccesses(path, ttl, delay);
      var cache: Cache := map[path := Entry(true, false, delay)];
      && AccessRun([map[], cache, cache], ttl, maxSize, disk, accesses, [Regular, Regular])
      && !Fresh(disk, cache, ttl, accesses[1], Regular, ttl + delay - 1)
  {
    var disk := (t: int, p: string) => if t <= 0 then Regular else Missing;
    var accesses := StaleAccesses(path, ttl, delay);
    var cache: Cache := map[path := Entry(true, false, delay)];
    FirstStored(maxSize, path, Entry(true, false, delay));
    assert AccessReaches(map[], ttl, maxSize, disk, accesses[0], Regular, cache);
    assert AccessReaches(cache, ttl, maxSize, disk, accesses[1], Regular, cache);
  }

  /** With stats stored within `lag`, no decision is ever older than one time to live. */
  ghost predicate OneTtlSuffices(ttl: int, maxSize: nat, lag: int) {
    forall caches: seq<Cache>, disk: (int, string) -> Kind, accesses: seq<Access>, decisions: seq<Kind> ::
      AccessRun(caches, ttl, maxSize, disk, accesses, decisions) && Prompt(accesses, lag)
      ==> AllFresh(disk, caches, ttl, accesses, decisions, ttl)
  }

  /** Over all runs one time to live bounds every decision's age exactly when nothing passes between stat and store. */
  lemma OneTtlSufficesExactlyWithoutDelay(ttl: int, maxSize: nat, lag: int)
    requires ttl >= 0 && lag >= 0 && maxSize > 0
    ensures OneTtlSuffices(ttl, maxSize, lag) <==> lag == 0
  {
    if lag == 0 {
      forall caches: seq<Cache>, disk: (int, string) -> Kind, accesses: seq<Access>, decisions: seq<Kind>
        | AccessRun(caches, ttl, maxSize, disk, accesses, decisions) && Prompt(accesses, lag)
        ensures AllFresh(disk, caches, ttl, accesses, decisions, ttl)
      {
        DecisionsAreFresh(caches, ttl, maxSize, disk, accesses, decisions, lag);
      }
    } else {
      DelayBreaksOneTtl("f", ttl, maxSize, lag);
    }
  }

  lemma FreshIsMonotone(disk: (int, string) -> Kind, cache: Cache, ttl: int, a: Access, decision: Kind,
                        age: int, age': int)
    requires age <= age'
    ensures Fresh(disk, cache, ttl, a, decision, age) ==> Fresh(disk, cache, ttl, a, decision, age')
  {
  }

  lemma DelayBreaksOneTtl(path: string, ttl: int, maxSize: nat, lag: int)
    requires ttl >= 0 && lag > 0 && maxSize > 0
    ensures !OneTtlSuffices(ttl, maxSize, lag)
  {
    StalenessBoundIsSharp(path, ttl, maxSize, lag);
    var disk := (t: int, p: string) => if t <= 0 then Regular else Missing;
    var accesses := StaleAccesses(path, ttl, lag);
    var cache: Cache := map[path := Entry(true, false, lag)];
    var caches, decisions := [map[], cache, cache], [Regular, Regular];
    FreshIsMonotone(disk, cache, ttl, accesses[1], Regular, ttl, ttl + lag - 1);
    assert !Fresh(disk, caches[1], ttl, accesses[1], decisions[1], ttl);
    assert Prompt(accesses, lag);
  }

  /** After the second look under the write lock nothing expired is left under the path, and nothing else changed. */
  lemma ExpiredIsDeleted(cache: Cache, ttl: int, path: string, now: int)
    ensures var after := AfterUpgrade(cache, ttl, path, now);
      && (path in after ==> now - after[path].timestamp <= ttl)
      && (path in cache && now - cache[path].timestamp <= ttl ==> path in after)
      && forall p :: p != path ==> (p in after <==> p in cache) && (p in cache ==> after[p] == cache[p])
  {
  }

  // ---- An answer is remembered -------------------------------------------------------

  /** Whatever the stat said, also that nothing is there, is in the cache afterwards, stamped with its storing time. */
  lemma MissIsStored(cache: Cache, ttl: int, maxSize: nat, disk: (int, string) -> Kind, a: Access, decision: Kind,
                     cache': Cache)
    requires AccessNext(cache, ttl, maxSize, disk, a, decision, cache')
    requires !FirstRead(cache, ttl, a.path, a.readAt).Hit?
    ensures decision == disk(a.statAt, a.path)
    ensures a.path in cache' && KindOf(cache'[a.path]) == decision && cache'[a.path].timestamp == a.setAt
  {
    var kind := disk(a.statAt, a.path);
    var kept := if FirstRead(cache, ttl, a.path, a.readAt).Expired? then AfterUpgrade(cache, ttl, a.path, a.upgradedAt)
                else cache;
    SetAddsOnlyItsValue(kept, cache', maxSize, a.path, Entry(kind != Missing, kind == Directory, a.setAt));
  }

  /** In every run a second request for the path within the time to live gets the same answer without a stat. */
  lemma AnswerIsRemembered(caches: seq<Cache>, ttl: int, maxSize: nat, disk: (int, string) -> Kind,
                           accesses: seq<Access>, decisions: seq<Kind>, k: nat)
    requires AccessRun(caches, ttl, maxSize, disk, accesses, decisions) && k + 1 < |accesses|
    requires accesses[k + 1].path == accesses[k].path && accesses[k + 1].readAt - accesses[k].setAt <= ttl
    requires !FirstRead(caches[k], ttl, accesses[k].path, accesses[k].readAt).Hit?
    ensures decisions[k] == disk(accesses[k].statAt, accesses[k].path)
    ensures decisions[k + 1] == decisions[k] && caches[k + 2] == caches[k + 1]
  {
    assert AccessReaches(caches[k], ttl, maxSize, disk, accesses[k], decisions[k], caches[k + 1]);
    assert AccessReaches(caches[k + 1], ttl, maxSize, disk, accesses[k + 1], decisions[k + 1], caches[k + 2]);
    MissIsStored(caches[k], ttl, maxSize, disk, accesses[k], decisions[k], caches[k + 1]);
  }
}
