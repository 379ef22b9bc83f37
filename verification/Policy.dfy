/** What may be cached: isCacheableRequest and isCacheableResponse of serbewr/prawxxey/forward.go. */
module Policy {
  import opened Text
  import opened HeaderLists
  import opened Fingerprint

  datatype Response = Response(status: int, headers: Headers, body: string)

  predicate Named(name: string, header: string) { EqualFold(name, header) }

  ghost predicate BypassesCache(name: string, values: seq<string>) {
    if Named(name, "Authorization") || Named(name, "Cookie") then true
    else if Named(name, "Cache-Control") then HasDirective(values, ["no-cache", "no-store"])
    else Named(name, "Pragma") && HasDirective(values, ["no-cache"])
  }

  ghost predicate CacheableRequest(hasJar: bool, p: Payload) {
    && p.verb in {"GET", "HEAD"} && !hasJar
    && forall name :: name in p.headers ==> !BypassesCache(name, p.headers[name])
  }

  /** A response field that keeps the response out of the cache (compare section 3 of RFC 9111). */
  ghost predicate ForbidsStoring(name: string, values: seq<string>) {
    || Named(name, "Set-Cookie") || Named(name, "Vary")
    || (Named(name, "Cache-Control") && HasDirective(values, ["no-cache", "no-store", "private"]))
  }

  ghost predicate CacheableResponse(r: Response) {
    200 <= r.status < 300 && forall name :: name in r.headers ==> !ForbidsStoring(name, r.headers[name])
  }

  // ---- The policy in lower-case names ------------------------------------------------

  /** Some element of these lines, cut at its equals sign and trimmed, is this directive in any case. */
  ghost predicate Directs(values: seq<string>, directive: string) {
    exists e :: e in Elements(values) && FoldAll(TrimSpace(Before(e, '='))) == directive
  }

  lemma FoldOfName(name: string, low: string)
    requires |low| == |name| && forall i :: 0 <= i < |name| ==> Fold(name[i]) == low[i]
    ensures FoldAll(name) == low
  {
    assert |FoldAll(name)| == |low|;
  }

  lemma FoldedNames()
    ensures FoldAll("Authorization") == "authorization" && FoldAll("Cookie") == "cookie"
    ensures FoldAll("Cache-Control") == "cache-control" && FoldAll("Pragma") == "pragma"
    ensures FoldAll("Set-Cookie") == "set-cookie" && FoldAll("Vary") == "vary"
  {
    hide FoldAll;
    FoldOfName("Authorization", "authorization");
    FoldOfName("Cookie", "cookie");
    FoldOfName("Cache-Control", "cache-control");
    FoldOfName("Pragma", "pragma");
    FoldOfName("Set-Cookie", "set-cookie");
    FoldOfName("Vary", "vary");
  }

  lemma FoldedDirectives()
    ensures FoldAll("no-cache") == "no-cache" && FoldAll("no-store") == "no-store" && FoldAll("private") == "private"
  {
    hide FoldAll;
    FoldOfName("no-cache", "no-cache");
    FoldOfName("no-store", "no-store");
    FoldOfName("private", "private");
  }

  lemma DirectiveOfList(values: seq<string>, blocked: seq<string>)
    ensures HasDirective(values, blocked) <==> exists b :: b in blocked && Directs(values, FoldAll(b))
  {
    if HasDirective(values, blocked) {
      var e, b :| e in Elements(values) && b in blocked && EqualFold(DirectiveName(e), b);
      assert Directs(values, FoldAll(b));
    }
    if b :| b in blocked && Directs(values, FoldAll(b)) {
      var e :| e in Elements(values) && FoldAll(TrimSpace(Before(e, '='))) == FoldAll(b);
      assert EqualFold(DirectiveName(e), b);
    }
  }

  lemma ThreeDirectives(values: seq<string>)
    ensures HasDirective(values, ["no-cache"]) <==> Directs(values, "no-cache")
    ensures HasDirective(values, ["no-cache", "no-store"]) <==>
      Directs(values, "no-cache") || Directs(values, "no-store")
    ensures HasDirective(values, ["no-cache", "no-store", "private"]) <==>
      Directs(values, "no-cache") || Directs(values, "no-store") || Directs(values, "private")
  {
    hide HasDirective, Directs, FoldAll;
    FoldedDirectives();
    DirectiveOfList(values, ["no-cache"]);
    DirectiveOfList(values, ["no-cache", "no-store"]);
    DirectiveOfList(values, ["no-cache", "no-store", "private"]);
    var three := ["no-cache", "no-store", "private"];
    assert three[0] in three && three[1] in three && three[2] in three;
    var two := ["no-cache", "no-store"];
    assert two[0] in two && two[1] in two;
    assert "no-cache" in ["no-cache"];
  }

  /** A request may be cached exactly when it is a GET or HEAD without a jar, credentials or a directive against it. */
  lemma CacheableRequestExactly(hasJar: bool, p: Payload)
    ensures CacheableRequest(hasJar, p) <==>
      && (p.verb == "GET" || p.verb == "HEAD") && !hasJar
      && forall k :: k in p.headers ==> var low, values := FoldAll(k), p.headers[k];
           && low != "authorization" && low != "cookie"
           && (low == "cache-control" ==> !Directs(values, "no-cache") && !Directs(values, "no-store"))
           && (low == "pragma" ==> !Directs(values, "no-cache"))
  {
    FoldedNames();
    hide HasDirective, Directs, FoldAll;
    forall k | k in p.headers
      ensures BypassesCache(k, p.headers[k]) <==>
        || FoldAll(k) == "authorization" || FoldAll(k) == "cookie"
        || (FoldAll(k) == "cache-control"
            && (Directs(p.headers[k], "no-cache") || Directs(p.headers[k], "no-store")))
        || (FoldAll(k) == "pragma" && Directs(p.headers[k], "no-cache"))
    {
      ThreeDirectives(p.headers[k]);
    }
  }

  /** A response may be cached exactly when it is a 2xx without Set-Cookie, Vary or a directive against it. */
  lemma CacheableResponseExactly(r: Response)
    ensures CacheableResponse(r) <==>
      && 200 <= r.status <= 299
      && forall k :: k in r.headers ==> var low, values := FoldAll(k), r.headers[k];
           && low != "set-cookie" && low != "vary"
           && (low == "cache-control" ==>
                 !Directs(values, "no-cache") && !Directs(values, "no-store") && !Directs(values, "private"))
  {
    FoldedNames();
    hide HasDirective, Directs, FoldAll;
    forall k | k in r.headers
      ensures ForbidsStoring(k, r.headers[k]) <==>
        || FoldAll(k) == "set-cookie" || FoldAll(k) == "vary"
        || (FoldAll(k) == "cache-control"
            && (Directs(r.headers[k], "no-cache") || Directs(r.headers[k], "no-store")
                || Directs(r.headers[k], "private")))
    {
      ThreeDirectives(r.headers[k]);
    }
  }

  method HeaderBypassesCache(name: string, values: seq<string>) returns (bypass: bool)
    ensures bypass <==> BypassesCache(name, values)
  {
    if Named(name, "Authorization") || Named(name, "Cookie") {
      return true;
    } else if Named(name, "Cache-Control") {
      bypass := HasCacheDirective(values, ["no-cache", "no-store"]);
    } else if Named(name, "Pragma") {
      bypass := HasCacheDirective(values, ["no-cache"]);
    } else {
      return false;
    }
  }

  method IsCacheableRequest(hasJar: bool, p: Payload) returns (cacheable: bool)
    ensures cacheable <==> CacheableRequest(hasJar, p)
  {
    hide BypassesCache;
    if p.verb != "GET" && p.verb != "HEAD" { return false; }
    if hasJar { return false; }
    var names := p.headers.Keys;
    while names != {}
      invariant names <= p.headers.Keys
      invariant forall name :: name in p.headers && name !in names ==> !BypassesCache(name, p.headers[name])
      decreases names
    {
      var name :| name in names;
      names := names - {name};
      var bypass := HeaderBypassesCache(name, p.headers[name]);
      if bypass { return false; }
    }
    return true;
  }

  method IsCacheableResponse(r: Response) returns (cacheable: bool)
    ensures cacheable <==> CacheableResponse(r)
  {
    hide Named, HasDirective;
    if r.status < 200 || r.status >= 300 { return false; }
    var names := r.headers.Keys;
    while names != {}
      invariant names <= r.headers.Keys
      invariant forall name :: name in r.headers && name !in names ==> !ForbidsStoring(name, r.headers[name])
      decreases names
    {
      var name :| name in names;
      names := names - {name};
      if Named(name, "Set-Cookie") || Named(name, "Vary") { return false; }
      if !Named(name, "Cache-Control") { continue; }
      var blocked := HasCacheDirective(r.headers[name], ["no-cache", "no-store", "private"]);
      if blocked { return false; }
    }
    return true;
  }
}
