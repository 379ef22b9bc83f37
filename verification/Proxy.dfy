/**
  ForwardRequest of serbewr/prawxxey/forward.go with its response cache.  The cache is an
  adversary: it may miss, fail, return garbage or lose a write, but what it does return for
  a key was once stored under that key.
 */
module Proxy {
  import opened Fingerprint
  import opened Options
  import opened Policy

  const MAX_INT64: int := 0x7fff_ffff_ffff_ffff
  const DEFAULT_LIMIT: int := 100 * 0x10_0000
  const STATUS_HEADER := "X-Cache-Status"

  datatype HttpClient = NoClient | Client(hasJar: bool)

  datatype Config = Config(client: HttpClient, hasCache: bool, maxBody: int)

  datatype Error = InvalidLimit | NilClient | UpstreamFailed(code: nat) | BodyTooLarge

  datatype Result = Ok(response: Response) | Err(error: Error)

  /** What the upstream server does with a request; the body is all of it. */
  datatype Answer = Answered(response: Response) | Failed(code: nat)

  type Upstream = Payload -> Answer

  datatype Write = Write(key: string, response: Response)

  datatype ReadFate = Miss | ReadFails | Corrupt | Found(index: nat)

  /** What the cache does during one request. */
  datatype Fate = Fate(read: ReadFate, writeLost: bool)

  function Limit(cfg: Config): int { if cfg.maxBody > 0 then cfg.maxBody else DEFAULT_LIMIT }

  predicate ValidLimit(cfg: Config) { 0 <= cfg.maxBody < MAX_INT64 }

  function WithStatus(r: Response, status: string): Response {
    r.(headers := r.headers[STATUS_HEADER := [status]])
  }

  /** doUpstreamRequest: at most limit+1 bytes are read, and one byte too many is an error. */
  function DoUpstream(cfg: Config, p: Payload, up: Upstream): Result {
    if cfg.client == NoClient then Err(NilClient)
    else match up(p)
      case Failed(code) => Err(UpstreamFailed(code))
      case Answered(r) =>
        var limit := Limit(cfg);
        var body := if |r.body| <= limit + 1 then r.body else r.body[..limit + 1];
        if |body| > limit then Err(BodyTooLarge) else Ok(r.(body := body))
  }

  function CacheGet(writes: seq<Write>, key: string, read: ReadFate): Option<Response> {
    if read.Found? && read.index < |writes| && writes[read.index].key == key
    then Some(writes[read.index].response) else None
  }

  ghost function TryCache(cfg: Config, got: Option<Response>): Option<Response> {
    if got.None? || |got.value.body| > Limit(cfg) || !CacheableResponse(got.value) then None
    else Some(WithStatus(got.value, "HIT"))
  }

  ghost function StoreInCache(writes: seq<Write>, key: string, r: Response, lost: bool): seq<Write> {
    if CacheableResponse(r) && !lost then writes + [Write(key, r)] else writes
  }

  function HasJar(cfg: Config): bool { cfg.client.Client? && cfg.client.hasJar }

  /** ForwardRequest: the result and what the cache holds afterwards. */
  ghost function Forward(cfg: Config, p: Payload, keyOf: Payload -> string, up: Upstream,
                         writes: seq<Write>, fate: Fate): (Result, seq<Write>)
  {
    if !ValidLimit(cfg) then (Err(InvalidLimit), writes)
    else if !cfg.hasCache || !CacheableRequest(HasJar(cfg), p) then (DoUpstream(cfg, p, up), writes)
    else
      var cached := TryCache(cfg, CacheGet(writes, keyOf(p), fate.read));
      if cached.Some? then (Ok(cached.value), writes)
      else
        var result := DoUpstream(cfg, p, up);
        if result.Err? then (result, writes)
        else (Ok(WithStatus(result.response, "MISS")),
              StoreInCache(writes, keyOf(p), result.response, fate.writeLost))
  }

  /** The same call without a cache. */
  ghost function Direct(cfg: Config, p: Payload, up: Upstream): Result {
    if !ValidLimit(cfg) then Err(InvalidLimit) else DoUpstream(cfg, p, up)
  }

  /** A cache client: an external store the proxy reads and writes. */
  class CacheStore {
    var writes: seq<Write>

    method Get(key: string, read: ReadFate) returns (got: Option<Response>)
      ensures got == CacheGet(writes, key, read)
    {
      match read
      case Found(i) =>
        if i < |writes| && writes[i].key == key { got := Some(writes[i].response); } else { got := None; }
      case _ => got := None;
    }

    method Set(key: string, r: Response, lost: bool)
      modifies this
      ensures writes == if lost then old(writes) else old(writes) + [Write(key, r)]
    {
      if !lost { writes := writes + [Write(key, r)]; }
    }
  }

  method ForwardRequest(cache: CacheStore, cfg: Config, p: Payload, keyOf: Payload -> string, up: Upstream, fate: Fate)
    returns (result: Result)
    modifies cache
    ensures (result, cache.writes) == Forward(cfg, p, keyOf, up, old(cache.writes), fate)
  {
    if cfg.maxBody < 0 || cfg.maxBody >= MAX_INT64 { return Err(InvalidLimit); }
    if !cfg.hasCache { return DoUpstream(cfg, p, up); }
    var cacheable := IsCacheableRequest(HasJar(cfg), p);
    if !cacheable { return DoUpstream(cfg, p, up); }
    var key := keyOf(p);
    var got := cache.Get(key, fate.read);
    if got.Some? {
      var allowed := IsCacheableResponse(got.value);
      if |got.value.body| <= Limit(cfg) && allowed {
        return Ok(WithStatus(got.value, "HIT"));
      }
    }
    result := DoUpstream(cfg, p, up);
    if result.Err? { return; }
    var storable := IsCacheableResponse(result.response);
    if storable { cache.Set(key, result.response, fate.writeLost); }
    result := Ok(WithStatus(result.response, "MISS"));
  }

  // ---- What a call returns, read off the upstream answer ---------------------------------

  /** The limit a caller sets, 100 MiB if it sets none. */
  function CallersLimit(cfg: Config): int { if cfg.maxBody == 0 then 104857600 else cfg.maxBody }

  /**
    The result when the answer is passed on: each error for its own reason, and otherwise the
    answered status, headers and body, with these headers added.
   */
  predicate PassedOn(cfg: Config, answer: Answer, added: Headers, result: Result) {
    if cfg.maxBody < 0 || cfg.maxBody >= 9223372036854775807 then result == Err(InvalidLimit)
    else if cfg.client.NoClient? then result == Err(NilClient)
    else match answer
      case Failed(code) => result == Err(UpstreamFailed(code))
      case Answered(r) =>
        if |r.body| > CallersLimit(cfg) then result == Err(BodyTooLarge)
        else
          && result.Ok? && result.response.status == r.status && result.response.body == r.body
          && result.response.headers == r.headers + added
  }

  lemma UpstreamIsPassedOn(cfg: Config, p: Payload, up: Upstream)
    requires ValidLimit(cfg)
    ensures PassedOn(cfg, up(p), map[], DoUpstream(cfg, p, up))
  {
    match up(p)
    case Answered(r) => assert r.headers + map[] == r.headers;
    case Failed(_) =>
  }

  /** Without a cache, or for a request that may not be cached, the caller gets the upstream answer itself. */
  lemma UncachedCallGetsTheAnswer(cfg: Config, p: Payload, keyOf: Payload -> string, up: Upstream,
                                  writes: seq<Write>, fate: Fate)
    requires !cfg.hasCache || !CacheableRequest(HasJar(cfg), p)
    ensures PassedOn(cfg, up(p), map[], Forward(cfg, p, keyOf, up, writes, fate).0)
    ensures Forward(cfg, p, keyOf, up, writes, fate).1 == writes
  {
    hide CacheableRequest, DoUpstream, PassedOn;
    if ValidLimit(cfg) { UpstreamIsPassedOn(cfg, p, up); } else { InvalidLimitIsRefused(cfg, up(p), map[]); }
  }

  lemma InvalidLimitIsRefused(cfg: Config, answer: Answer, added: Headers)
    requires !ValidLimit(cfg)
    ensures PassedOn(cfg, answer, added, Err(InvalidLimit))
  {
  }

  /** A client with a cookie jar is never served from the cache and never fills it. */
  lemma JarKeepsOutOfTheCache(cfg: Config, p: Payload, keyOf: Payload -> string, up: Upstream, writes: seq<Write>, fate: Fate)
    requires cfg.client == Client(true)
    ensures PassedOn(cfg, up(p), map[], Forward(cfg, p, keyOf, up, writes, fate).0)
    ensures Forward(cfg, p, keyOf, up, writes, fate).1 == writes
  {
    UncachedCallGetsTheAnswer(cfg, p, keyOf, up, writes, fate);
  }

  /** Some entry under this key that the policy and the caller's limit allow was read. */
  predicate ReadsEntry(writes: seq<Write>, key: string, read: ReadFate) {
    read.Found? && read.index < |writes| && writes[read.index].key == key
  }

  ghost predicate Allowed(cfg: Config, r: Response) { |r.body| <= Limit(cfg) && CacheableResponse(r) }

  /** What a miss stores: the answer under the request's key, if it was passed on, may be stored and is not lost. */
  ghost predicate Stores(writes: seq<Write>, after: seq<Write>, key: string, answer: Answer, result: Result, lost: bool) {
    after == if result.Ok? && answer.Answered? && CacheableResponse(answer.response) && !lost
             then writes + [Write(key, answer.response)] else writes
  }

  lemma StatusIsAdded(cfg: Config, answer: Answer, result: Result, status: string)
    requires PassedOn(cfg, answer, map[], result) && result.Ok?
    ensures PassedOn(cfg, answer, map["X-Cache-Status" := [status]], Ok(WithStatus(result.response, status)))
  {
    match answer
    case Answered(r) =>
      assert r.headers + map[] == r.headers;
      assert WithStatus(result.response, status).headers == r.headers + map["X-Cache-Status" := [status]];
    case Failed(_) =>
  }

  lemma ErrorIsPassedOn(cfg: Config, answer: Answer, result: Result, added: Headers)
    requires PassedOn(cfg, answer, map[], result) && result.Err?
    ensures PassedOn(cfg, answer, added, result)
  {
  }

  lemma PassedOnIsStored(cfg: Config, answer: Answer, result: Result)
    requires PassedOn(cfg, answer, map[], result) && result.Ok?
    ensures answer == Answered(result.response)
  {
    match answer
    case Answered(r) => assert r.headers + map[] == r.headers;
    case Failed(_) =>
  }

  /** A cacheable request that finds nothing usable gets the upstream answer, marked as a miss, and stores it. */
  lemma MissGetsTheAnswer(cfg: Config, p: Payload, keyOf: Payload -> string, up: Upstream, writes: seq<Write>, fate: Fate)
    requires cfg.hasCache && CacheableRequest(HasJar(cfg), p)
    requires !ReadsEntry(writes, keyOf(p), fate.read) || !Allowed(cfg, writes[fate.read.index].response)
    ensures var (result, after) := Forward(cfg, p, keyOf, up, writes, fate);
      && PassedOn(cfg, up(p), map["X-Cache-Status" := ["MISS"]], result)
      && Stores(writes, after, keyOf(p), up(p), result, fate.writeLost)
  {
    hide CacheableRequest, CacheableResponse, DoUpstream, PassedOn;
    var added: Headers := map["X-Cache-Status" := ["MISS"]];
    if !ValidLimit(cfg) {
      InvalidLimitIsRefused(cfg, up(p), added);
    } else {
      UpstreamIsPassedOn(cfg, p, up);
      var result := DoUpstream(cfg, p, up);
      if result.Ok? {
        PassedOnIsStored(cfg, up(p), result);
        StatusIsAdded(cfg, up(p), result, "MISS");
      } else {
        ErrorIsPassedOn(cfg, up(p), result, added);
      }
    }
  }

  /** And one that finds a usable entry gets exactly that, marked as a hit, and stores nothing. */
  lemma HitGetsTheEntry(cfg: Config, p: Payload, keyOf: Payload -> string, up: Upstream, writes: seq<Write>, fate: Fate)
    requires cfg.hasCache && CacheableRequest(HasJar(cfg), p) && ValidLimit(cfg)
    requires ReadsEntry(writes, keyOf(p), fate.read) && Allowed(cfg, writes[fate.read.index].response)
    ensures var (result, after) := Forward(cfg, p, keyOf, up, writes, fate);
      var r := writes[fate.read.index].response;
      && result.Ok? && result.response.status == r.status && result.response.body == r.body
      && result.response.headers == r.headers + map["X-Cache-Status" := ["HIT"]] && after == writes
  {
    hide CacheableRequest, CacheableResponse;
    var r := writes[fate.read.index].response;
    assert WithStatus(r, "HIT").headers == r.headers + map["X-Cache-Status" := ["HIT"]];
  }

  // ---- Runs ----------------------------------------------------------------------

  datatype Request = Request(cfg: Config, payload: Payload, fate: Fate)

  /** The cache after a sequence of requests, each with its own limit and client. */
  ghost function CacheAfter(requests: seq<Request>, keyOf: Payload -> string, up: Upstream,
                            preloaded: seq<Write>): seq<Write>
  {
    if requests == [] then preloaded
    else
      var last := requests[|requests| - 1];
      Forward(last.cfg, last.payload, keyOf, up,
              CacheAfter(requests[..|requests| - 1], keyOf, up, preloaded), last.fate).1
  }

  /** What the next caller gets after those requests. */
  ghost function ResultAfter(requests: seq<Request>, next: Request, keyOf: Payload -> string, up: Upstream): Result {
    Forward(next.cfg, next.payload, keyOf, up, CacheAfter(requests, keyOf, up, []), next.fate).0
  }

  /** A response without the header the cache itself sets. */
  function Bare(r: Response): Response { r.(headers := r.headers - {STATUS_HEADER}) }

  lemma BareOfStatus(r: Response, status: string)
    ensures Bare(WithStatus(r, status)) == Bare(r) && WithStatus(r, status).body == r.body
  {
    assert Bare(WithStatus(r, status)).headers == Bare(r).headers;
  }

  predicate SameButStatus(a: Result, b: Result) {
    a == b || (a.Ok? && b.Ok? && Bare(a.response) == Bare(b.response))
  }

  /** A stored response is the whole answer to some cacheable request with that key. */
  ghost predicate Explained(w: Write, keyOf: Payload -> string, up: Upstream) {
    CacheableResponse(w.response) &&
    exists p :: CacheableRequest(false, p) && keyOf(p) == w.key && up(p) == Answered(w.response)
  }

  lemma JarPlaysNoPart(hasJar: bool, p: Payload)
    requires CacheableRequest(hasJar, p)
    ensures CacheableRequest(false, p)
  {
  }

  lemma ForwardExplains(cfg: Config, p: Payload, keyOf: Payload -> string, up: Upstream, preloaded: seq<Write>,
                        writes: seq<Write>, fate: Fate)
    requires forall w :: w in writes ==> w in preloaded || Explained(w, keyOf, up)
    ensures forall w :: w in Forward(cfg, p, keyOf, up, writes, fate).1 ==> w in preloaded || Explained(w, keyOf, up)
  {
    var after := Forward(cfg, p, keyOf, up, writes, fate).1;
    if after != writes {
      var r := DoUpstream(cfg, p, up).response;
      assert up(p) == Answered(r);
      JarPlaysNoPart(HasJar(cfg), p);
      assert Explained(Write(keyOf(p), r), keyOf, up);
    }
  }

  /**
    Whatever the cache was preloaded with, everything the proxy ever writes is a 2xx response without Set-Cookie, Vary or a blocking
    Cache-Control directive, the complete answer to a cacheable GET or HEAD with that key.
   */
  lemma {:induction false} WritesAreExplained(requests: seq<Request>, keyOf: Payload -> string, up: Upstream,
                                              preloaded: seq<Write>)
    ensures forall w :: w in CacheAfter(requests, keyOf, up, preloaded) ==> w in preloaded || Explained(w, keyOf, up)
  {
    if requests != [] {
      hide Explained, Forward;
      var n := |requests| - 1;
      WritesAreExplained(requests[..n], keyOf, up, preloaded);
      var last := requests[n];
      ForwardExplains(last.cfg, last.payload, keyOf, up, preloaded, CacheAfter(requests[..n], keyOf, up, preloaded),
                      last.fate);
    }
  }

  /** One request that may not be cached. */
  lemma UncacheableBypasses(cfg: Config, p: Payload, keyOf: Payload -> string, up: Upstream, writes: seq<Write>, fate: Fate)
    requires !CacheableRequest(HasJar(cfg), p)
    ensures Forward(cfg, p, keyOf, up, writes, fate) == (Direct(cfg, p, up), writes)
  {
  }

  /** The requests that may be cached, in order. */
  ghost function OnlyCacheable(requests: seq<Request>): seq<Request> {
    if requests == [] then []
    else
      var before, last := OnlyCacheable(requests[..|requests| - 1]), requests[|requests| - 1];
      if CacheableRequest(HasJar(last.cfg), last.payload) then before + [last] else before
  }

  /**
    Over every run from any preloaded cache, requests that may not be cached leave no trace:
    the cache is what it would be had they never been made, and each of them gets the direct
    result.
   */
  lemma {:induction false} UncacheableLeaveNoTrace(requests: seq<Request>, next: Request, keyOf: Payload -> string,
                                                   up: Upstream, preloaded: seq<Write>)
    ensures CacheAfter(requests, keyOf, up, preloaded) == CacheAfter(OnlyCacheable(requests), keyOf, up, preloaded)
    ensures !CacheableRequest(HasJar(next.cfg), next.payload) ==>
      Forward(next.cfg, next.payload, keyOf, up, CacheAfter(requests, keyOf, up, preloaded), next.fate).0
      == Direct(next.cfg, next.payload, up)
  {
    hide Forward, CacheableRequest, Direct;
    var writes := CacheAfter(requests, keyOf, up, preloaded);
    if !CacheableRequest(HasJar(next.cfg), next.payload) {
      UncacheableBypasses(next.cfg, next.payload, keyOf, up, writes, next.fate);
    }
    if requests != [] {
      var n := |requests| - 1;
      var before, last := OnlyCacheable(requests[..n]), requests[n];
      UncacheableLeaveNoTrace(requests[..n], next, keyOf, up, preloaded);
      if CacheableRequest(HasJar(last.cfg), last.payload) {
        assert (before + [last])[..|before|] == before;
      } else {
        UncacheableBypasses(last.cfg, last.payload, keyOf, up, CacheAfter(requests[..n], keyOf, up, preloaded), last.fate);
      }
    }
  }

  /** Whatever the cache was loaded with, a response served from it satisfies the policy and this caller's limit. */
  lemma HitsSatisfyPolicy(cfg: Config, got: Option<Response>)
    requires TryCache(cfg, got).Some?
    ensures got.Some? && CacheableResponse(got.value) && |got.value.body| <= Limit(cfg)
    ensures Bare(TryCache(cfg, got).value) == Bare(got.value)
  {
    BareOfStatus(got.value, "HIT");
  }

  /** This result was served from that entry, which the response policy and this caller's limit allow. */
  ghost predicate ServedFrom(w: Write, cfg: Config, key: string, result: Result) {
    && w.key == key && CacheableResponse(w.response) && |w.response.body| <= Limit(cfg)
    && result == Ok(WithStatus(w.response, "HIT"))
  }

  /** The result is the direct one, or came from that entry of the cache. */
  lemma HitOrDirect(cfg: Config, p: Payload, keyOf: Payload -> string, up: Upstream, writes: seq<Write>, fate: Fate)
    ensures var result := Forward(cfg, p, keyOf, up, writes, fate).0;
      || SameButStatus(result, Direct(cfg, p, up))
      || (CacheableRequest(HasJar(cfg), p) && exists w :: w in writes && ServedFrom(w, cfg, keyOf(p), result))
  {
    hide CacheableRequest, CacheableResponse;
    if ValidLimit(cfg) && cfg.hasCache && CacheableRequest(HasJar(cfg), p) {
      var got := CacheGet(writes, keyOf(p), fate.read);
      if TryCache(cfg, got).Some? {
        var w := writes[fate.read.index];
        HitsSatisfyPolicy(cfg, got);
        assert ServedFrom(w, cfg, keyOf(p), Ok(TryCache(cfg, got).value));
      } else if DoUpstream(cfg, p, up).Ok? {
        BareOfStatus(DoUpstream(cfg, p, up).response, "MISS");
      }
    }
  }

  /**
    Over every run from whatever the cache was preloaded with: a result is the uncached one
    apart from X-Cache-Status, or is served to a cacheable request from an entry that was
    preloaded or stored for good reason, and satisfies the policy and this caller's limit.
   */
  lemma RunsServeThePolicy(requests: seq<Request>, next: Request, keyOf: Payload -> string, up: Upstream,
                           preloaded: seq<Write>)
    ensures var cfg, p := next.cfg, next.payload;
      var result := Forward(cfg, p, keyOf, up, CacheAfter(requests, keyOf, up, preloaded), next.fate).0;
      || SameButStatus(result, Direct(cfg, p, up))
      || (CacheableRequest(HasJar(cfg), p)
          && exists w :: (w in preloaded || Explained(w, keyOf, up)) && ServedFrom(w, cfg, keyOf(p), result))
  {
    hide Explained, Forward, ServedFrom, CacheableRequest, SameButStatus, Direct;
    var writes := CacheAfter(requests, keyOf, up, preloaded);
    WritesAreExplained(requests, keyOf, up, preloaded);
    HitOrDirect(next.cfg, next.payload, keyOf, up, writes, next.fate);
  }

  /** No caller gets a truncated body or one over its own limit. */
  lemma BodiesAreWhole(requests: seq<Request>, next: Request, keyOf: Payload -> string, up: Upstream)
    requires ResultAfter(requests, next, keyOf, up).Ok?
    ensures var r := ResultAfter(requests, next, keyOf, up).response;
            |r.body| <= Limit(next.cfg)
            && exists p :: up(p).Answered? && up(p).response.body == r.body && up(p).response.status == r.status
                      && (p == next.payload || keyOf(p) == keyOf(next.payload))
  {
    WritesAreExplained(requests, keyOf, up, []);
    var writes := CacheAfter(requests, keyOf, up, []);
    var key := keyOf(next.payload);
    var got := CacheGet(writes, key, next.fate.read);
    var r := ResultAfter(requests, next, keyOf, up).response;
    if up(next.payload).Answered? && up(next.payload).response.body == r.body
       && up(next.payload).response.status == r.status {
    } else {
      assert TryCache(next.cfg, got).Some?;
      var w := writes[next.fate.read.index];
      assert Explained(w, keyOf, up);
      var p :| CacheableRequest(false, p) && keyOf(p) == w.key && up(p) == Answered(w.response);
      assert up(p).response.body == r.body;
    }
  }

  // ---- The cache is invisible --------------------------------------------------------

  /** Requests that share a key get the same answer, where an answer can reach the cache at all. */
  ghost predicate KeyDecides(keyOf: Payload -> string, up: Upstream) {
    forall p, q :: CacheableRequest(false, p) && CacheableRequest(false, q) && keyOf(p) == keyOf(q)
      && up(p).Answered? && CacheableResponse(up(p).response) && |up(p).response.body| < MAX_INT64
      ==> up(q).Answered? && Bare(up(q).response) == Bare(up(p).response)
  }

  /** Every caller with a client gets what it would have got without the cache, apart from X-Cache-Status. */
  ghost predicate CacheInvisible(keyOf: Payload -> string, up: Upstream) {
    forall requests: seq<Request>, next: Request :: next.cfg.client != NoClient ==>
      SameButStatus(ResultAfter(requests, next, keyOf, up), Direct(next.cfg, next.payload, up))
  }

  lemma HitMatchesDirect(cfg: Config, p: Payload, keyOf: Payload -> string, up: Upstream, w: Write)
    requires KeyDecides(keyOf, up) && Explained(w, keyOf, up) && w.key == keyOf(p)
    requires ValidLimit(cfg) && cfg.client != NoClient && CacheableRequest(HasJar(cfg), p)
    requires TryCache(cfg, Some(w.response)).Some?
    ensures SameButStatus(Ok(TryCache(cfg, Some(w.response)).value), Direct(cfg, p, up))
  {
    hide CacheableRequest, CacheableResponse;
    var q :| CacheableRequest(false, q) && keyOf(q) == w.key && up(q) == Answered(w.response);
    JarPlaysNoPart(HasJar(cfg), p);
    BareOfStatus(w.response, "HIT");
    assert up(p).Answered? && Bare(up(p).response) == Bare(up(q).response);
  }

  /** A result served from an explained entry is what the caller would have got directly. */
  lemma ServedMatchesDirect(cfg: Config, p: Payload, keyOf: Payload -> string, up: Upstream, w: Write, result: Result)
    requires KeyDecides(keyOf, up) && Explained(w, keyOf, up) && ServedFrom(w, cfg, keyOf(p), result)
    requires cfg.client != NoClient && CacheableRequest(HasJar(cfg), p) && ValidLimit(cfg)
    ensures SameButStatus(result, Direct(cfg, p, up))
  {
    hide CacheableRequest, KeyDecides, Explained, Direct, SameButStatus;
    HitMatchesDirect(cfg, p, keyOf, up, w);
  }

  lemma InvalidLimitIsDirect(cfg: Config, p: Payload, keyOf: Payload -> string, up: Upstream, writes: seq<Write>,
                             fate: Fate)
    requires !ValidLimit(cfg)
    ensures Forward(cfg, p, keyOf, up, writes, fate).0 == Direct(cfg, p, up)
  {
  }

  lemma DecidedKeysHideTheCache(requests: seq<Request>, next: Request, keyOf: Payload -> string, up: Upstream)
    requires KeyDecides(keyOf, up) && next.cfg.client != NoClient
    ensures SameButStatus(ResultAfter(requests, next, keyOf, up), Direct(next.cfg, next.payload, up))
  {
    hide KeyDecides, Explained, Forward, ServedFrom, CacheableRequest, Direct, CacheAfter;
    var cfg, p := next.cfg, next.payload;
    var result := ResultAfter(requests, next, keyOf, up);
    RunsServeThePolicy(requests, next, keyOf, up, []);
    if !ValidLimit(cfg) {
      InvalidLimitIsDirect(cfg, p, keyOf, up, CacheAfter(requests, keyOf, up, []), next.fate);
    } else if !SameButStatus(result, Direct(cfg, p, up)) {
      var w :| Explained(w, keyOf, up) && ServedFrom(w, cfg, keyOf(p), result);
      ServedMatchesDirect(cfg, p, keyOf, up, w, result);
    }
  }

  /** A pair of requests the key does not tell apart can be told apart by a caller. */
  lemma UndecidedKeyIsVisible(p: Payload, q: Payload, keyOf: Payload -> string, up: Upstream)
    returns (first: Request, next: Request)
    requires CacheableRequest(false, p) && CacheableRequest(false, q) && keyOf(p) == keyOf(q)
    requires up(p).Answered? && CacheableResponse(up(p).response) && |up(p).response.body| < MAX_INT64
    requires !(up(q).Answered? && Bare(up(q).response) == Bare(up(p).response))
    ensures next.cfg.client != NoClient
    ensures !SameButStatus(ResultAfter([first], next, keyOf, up), Direct(next.cfg, next.payload, up))
  {
    var cfg := Config(Client(false), true, MAX_INT64 - 1);
    first := Request(cfg, p, Fate(Miss, false));
    next := Request(cfg, q, Fate(Found(0), false));
    FirstRequestIsStored(first, keyOf, up);
    StoredResponseIsServed(first, next, keyOf, up);
    BareOfStatus(up(p).response, "HIT");
  }

  lemma FirstRequestIsStored(first: Request, keyOf: Payload -> string, up: Upstream)
    requires ValidLimit(first.cfg) && first.cfg.hasCache && first.cfg.client == Client(false)
    requires first.fate == Fate(Miss, false) && CacheableRequest(false, first.payload)
    requires up(first.payload).Answered? && CacheableResponse(up(first.payload).response)
    requires |up(first.payload).response.body| <= Limit(first.cfg)
    ensures CacheAfter([first], keyOf, up, []) == [Write(keyOf(first.payload), up(first.payload).response)]
  {
    var r := up(first.payload).response;
    assert DoUpstream(first.cfg, first.payload, up) == Ok(r);
    assert [first][..0] == [];
    assert CacheAfter([first][..0], keyOf, up, []) == [];
  }

  lemma StoredResponseIsServed(first: Request, next: Request, keyOf: Payload -> string, up: Upstream)
    requires up(first.payload).Answered? && CacheableResponse(up(first.payload).response)
    requires CacheAfter([first], keyOf, up, []) == [Write(keyOf(first.payload), up(first.payload).response)]
    requires ValidLimit(next.cfg) && next.cfg.hasCache && next.cfg.client == Client(false)
    requires next.fate.read == Found(0) && CacheableRequest(false, next.payload)
    requires keyOf(next.payload) == keyOf(first.payload) && |up(first.payload).response.body| <= Limit(next.cfg)
    ensures ResultAfter([first], next, keyOf, up) == Ok(WithStatus(up(first.payload).response, "HIT"))
  {
  }

  /**
    Over every run the cache is indistinguishable from the direct path, for every caller and
    every behaviour of the store, if and only if the key decides the answer.
   */
  lemma CacheInvisibleExactlyWhenKeyDecides(keyOf: Payload -> string, up: Upstream)
    ensures CacheInvisible(keyOf, up) <==> KeyDecides(keyOf, up)
  {
    if KeyDecides(keyOf, up) {
      forall requests: seq<Request>, next: Request | next.cfg.client != NoClient
        ensures SameButStatus(ResultAfter(requests, next, keyOf, up), Direct(next.cfg, next.payload, up))
      {
        DecidedKeysHideTheCache(requests, next, keyOf, up);
      }
    } else {
      var p, q :| CacheableRequest(false, p) && CacheableRequest(false, q) && keyOf(p) == keyOf(q)
        && up(p).Answered? && CacheableResponse(up(p).response) && |up(p).response.body| < MAX_INT64
        && !(up(q).Answered? && Bare(up(q).response) == Bare(up(p).response));
      var first, next := UndecidedKeyIsVisible(p, q, keyOf, up);
      var requests := [first];
      assert !SameButStatus(ResultAfter(requests, next, keyOf, up), Direct(next.cfg, next.payload, up));
    }
  }

  /** The default key: a collision-free hash of the fingerprint text, some headers excluded. */
  ghost predicate HashesFingerprint(keyOf: Payload -> string, exclude: set<string>) {
    forall p, q :: keyOf(p) == keyOf(q) ==> Preimage(p, exclude) == Preimage(q, exclude)
  }

  /** With the default key it is enough that the upstream answer depends only on what is fingerprinted. */
  lemma FingerprintedUpstreamHidesTheCache(keyOf: Payload -> string, exclude: set<string>, up: Upstream)
    requires HashesFingerprint(keyOf, exclude)
    requires forall p, q :: Preimage(p, exclude) == Preimage(q, exclude) ==> up(p) == up(q)
    ensures CacheInvisible(keyOf, up)
  {
    assert KeyDecides(keyOf, up);
    CacheInvisibleExactlyWhenKeyDecides(keyOf, up);
  }
}
