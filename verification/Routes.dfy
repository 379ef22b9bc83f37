/**
  Route groups: serbewr/group.go, middleware.Chain and the route setup of serbewr/server.go.
  Middlewares are named by numbers; `Wrapped(m, h)` is the handler middleware `m` makes of `h`.
 */
module Routes {
  import opened Options
  import opened Text
  import opened Paths

  datatype StaticRouteConfig = StaticRouteConfig(dir: string, path: string)

  datatype Handler = Func(id: nat) | Files(config: StaticRouteConfig) | Wrapped(outer: nat, inner: Handler)

  datatype Route = Route(pattern: string, handler: Handler)

  datatype RouteConfig = RouteConfig(verb: string, path: string, handler: Option<Handler>)

  datatype GroupConfig =
    GroupConfig(path: string, middlewares: seq<nat>, routes: seq<RouteConfig>, groups: seq<GroupConfig>)

  datatype Router =
    Router(globalMiddlewares: seq<nat>, statics: seq<StaticRouteConfig>, groups: seq<GroupConfig>)

  // ---- middleware.Chain ---------------------------------------------------------------

  /** The middlewares a request passes, first to last, on its way to the handler inside. */
  function Layers(h: Handler): seq<nat> { if h.Wrapped? then [h.outer] + Layers(h.inner) else [] }

  function Core(h: Handler): Handler { if h.Wrapped? then Core(h.inner) else h }

  /** The handler with these layers around `h`. */
  function Wrap(h: Handler, middlewares: seq<nat>): Handler {
    if middlewares == [] then h else Wrapped(middlewares[0], Wrap(h, middlewares[1..]))
  }

  method Chain(h: Handler, middlewares: seq<nat>) returns (r: Handler)
    ensures r == Wrap(h, middlewares)
    ensures Layers(r) == middlewares + Layers(h) && Core(r) == Core(h)
  {
    r := h;
    var i := |middlewares|;
    while i > 0
      invariant 0 <= i <= |middlewares|
      invariant r == Wrap(h, middlewares[i..])
    {
      i := i - 1;
      assert middlewares[i..][1..] == middlewares[i + 1..];
      r := Wrapped(middlewares[i], r);
    }
    assert middlewares[0..] == middlewares;
    LayersOfWrap(h, middlewares);
  }

  lemma {:induction false} LayersOfWrap(h: Handler, middlewares: seq<nat>)
    ensures Layers(Wrap(h, middlewares)) == middlewares + Layers(h) && Core(Wrap(h, middlewares)) == Core(h)
  {
    if middlewares != [] {
      LayersOfWrap(h, middlewares[1..]);
      assert middlewares == [middlewares[0]] + middlewares[1..];
    }
  }

  // ---- Paths of groups ------------------------------------------------------------------

  function CleanPrefix(prefix: string): string {
    if prefix == "" || prefix == "/" then ""
    else if Clean(prefix) == "." then "" else TrimSlash(Clean(prefix))
  }

  function JoinPaths(base: string, sub: string): string {
    if sub == "" || sub == "/" then base
    else base + if HasPrefix(sub, "/") then sub else "/" + sub
  }

  function BuildRoute(verb: string, path: string): string {
    var path := if path == "" then "/" else path;
    var verb := TrimSpace(MapChars(Upper, verb));
    if verb == "" then path else verb + " " + path
  }

  lemma UpperKeepsBlanks()
    ensures KeepsBlanks(Upper)
  {
  }

  /**
    The pattern of a route: the method in upper case without the blanks around it, one blank,
    the path; "/" stands for an empty path, and without a method the path stands alone.
   */
  lemma BuildRouteExactly(left: string, verb: string, right: string, path: string)
    requires Blank(left) && Blank(right) && (verb != "" ==> !IsSpace(verb[0]) && !IsSpace(verb[|verb| - 1]))
    ensures var shown := if path == "" then "/" else path;
      BuildRoute(left + verb + right, path)
      == if verb == "" then shown else MapChars(Upper, verb) + " " + shown
  {
    UpperKeepsBlanks();
    TrimOfMap(Upper, left + verb + right);
    TrimOfPadded(left, verb, right);
    TrimOfTrimmed(verb);
  }

  /** A rooted prefix is cleaned and loses its last slash; the root becomes empty. */
  lemma CleanPrefixOfRooted(prefix: string)
    requires Rooted(prefix)
    ensures var names := CleanSegments(prefix);
      AllOrdinary(names) && CleanPrefix(prefix) == if names == [] then "" else RootedPath(names)
  {
    var names := CleanSegments(prefix);
    RootedCleanSegments(prefix);
    if prefix == "/" {
      OwnOfSlash();
      CleanOfRooted([]);
      assert RootedPath([]) == "/";
    } else if names == [] {
      assert Clean(prefix) == "/";
    } else {
      JoinEndsInName(names);
    }
  }

  predicate DoubleSlash(path: string) { exists i :: 0 <= i < |path| - 1 && path[i] == path[i + 1] == '/' }

  lemma DoubleSlashOfTwo(a: string, b: string)
    ensures DoubleSlash(a + b) <==> DoubleSlash(a) || DoubleSlash(b) || (EndsInSlash(a) && Rooted(b))
  {
    var whole := a + b;
    if i :| 0 <= i < |a| - 1 && a[i] == a[i + 1] == '/' { assert whole[i] == whole[i + 1] == '/'; }
    if i :| 0 <= i < |b| - 1 && b[i] == b[i + 1] == '/' {
      assert whole[|a| + i] == b[i] && whole[|a| + i + 1] == b[i + 1];
    }
    if EndsInSlash(a) && Rooted(b) { assert whole[|a| - 1] == whole[|a|] == '/'; }
    if i :| 0 <= i < |whole| - 1 && whole[i] == whole[i + 1] == '/' {
      if i + 1 < |a| {
        assert a[i] == a[i + 1] == '/';
      } else if i >= |a| {
        assert b[i - |a|] == whole[i] && b[i - |a| + 1] == whole[i + 1];
      }
    }
  }

  /** Joining does not clean: exactly when it leaves two slashes in a row, for all inputs. */
  lemma JoinPathsDoublesSlash(base: string, sub: string)
    ensures DoubleSlash(JoinPaths(base, sub)) <==>
      DoubleSlash(base) || (sub != "" && sub != "/" && (DoubleSlash(sub) || EndsInSlash(base)))
  {
    if sub != "" && sub != "/" {
      if HasPrefix(sub, "/") {
        assert sub[0] == "/"[0];
        DoubleSlashOfTwo(base, sub);
      } else {
        assert sub[..1] == [sub[0]] && "/" == ['/'];
        DoubleSlashOfTwo("/", sub);
        DoubleSlashOfTwo(base, "/" + sub);
      }
    }
  }

  lemma TrailingSlashIsDoubled()
    ensures JoinPaths("/api/", "users") == "/api//users"
  {
    assert "users"[..1] == "u";
  }

  // ---- The flattening, on values ----------------------------------------------------------

  function OwnRoutes(routes: seq<RouteConfig>, prefix: string, chain: seq<nat>): seq<Route> {
    if routes == [] then []
    else
      var before, last := OwnRoutes(routes[..|routes| - 1], prefix, chain), routes[|routes| - 1];
      if last.handler.None? then before
      else before + [Route(BuildRoute(last.verb, JoinPaths(prefix, last.path)), Wrap(last.handler.value, chain))]
  }

  /** The routes of one group tree, parents before children, in the order they are written. */
  function Flatten(g: GroupConfig, prefix: string, chain: seq<nat>): seq<Route>
    decreases g, |g.groups| + 1
  {
    var own, inner := JoinPaths(prefix, g.path), chain + g.middlewares;
    OwnRoutes(g.routes, own, inner) + FlattenKids(g, |g.groups|, own, inner)
  }

  function FlattenKids(g: GroupConfig, k: nat, prefix: string, chain: seq<nat>): seq<Route>
    requires k <= |g.groups|
    decreases g, k
  {
    if k == 0 then [] else FlattenKids(g, k - 1, prefix, chain) + Flatten(g.groups[k - 1], prefix, chain)
  }

  /** The router itself is a group with the empty path around the top-level groups. */
  function TopGroup(r: Router): GroupConfig { GroupConfig("", r.globalMiddlewares, [], r.groups) }

  predicate Served(config: StaticRouteConfig) { config.dir != "" && config.path != "" }

  function StaticPattern(path: string): string {
    (if EndsInSlash(path) then path else path + "/") + "{path...}"
  }

  function StaticRoutes(statics: seq<StaticRouteConfig>, globals: seq<nat>): seq<Route> {
    if statics == [] then []
    else
      var before, last := StaticRoutes(statics[..|statics| - 1], globals), statics[|statics| - 1];
      if !Served(last) then before
      else before + [Route(BuildRoute("GET", JoinPaths("", StaticPattern(last.path))), Wrap(Files(last), globals))]
  }

  function AllRoutes(r: Router): seq<Route> {
    Flatten(TopGroup(r), "", []) + StaticRoutes(r.statics, r.globalMiddlewares)
  }

  // ---- The same routes read off the tree --------------------------------------------------

  /** One route with the groups around it, outermost first. */
  datatype Leaf = Leaf(above: seq<GroupConfig>, route: RouteConfig)

  function OwnLeaves(routes: seq<RouteConfig>, above: seq<GroupConfig>): seq<Leaf> {
    if routes == [] then []
    else
      var before, last := OwnLeaves(routes[..|routes| - 1], above), routes[|routes| - 1];
      if last.handler.None? then before else before + [Leaf(above, last)]
  }

  /** The tree walked in pre-order. */
  function Leaves(g: GroupConfig, above: seq<GroupConfig>): seq<Leaf>
    decreases g, |g.groups| + 1
  {
    OwnLeaves(g.routes, above + [g]) + KidLeaves(g, |g.groups|, above + [g])
  }

  function KidLeaves(g: GroupConfig, k: nat, above: seq<GroupConfig>): seq<Leaf>
    requires k <= |g.groups|
    decreases g, k
  {
    if k == 0 then [] else KidLeaves(g, k - 1, above) + Leaves(g.groups[k - 1], above)
  }

  function FoldedPrefix(above: seq<GroupConfig>): string {
    if above == [] then "" else JoinPaths(FoldedPrefix(above[..|above| - 1]), above[|above| - 1].path)
  }

  function AllMiddlewares(above: seq<GroupConfig>): seq<nat> {
    if above == [] then [] else AllMiddlewares(above[..|above| - 1]) + above[|above| - 1].middlewares
  }

  /** The route stands under its groups' folded prefix, inside their middlewares, outermost group first. */
  predicate Matches(route: Route, leaf: Leaf) {
    && leaf.route.handler.Some?
    && route.pattern == BuildRoute(leaf.route.verb, JoinPaths(FoldedPrefix(leaf.above), leaf.route.path))
    && Layers(route.handler) == AllMiddlewares(leaf.above) + Layers(leaf.route.handler.value)
    && Core(route.handler) == Core(leaf.route.handler.value)
  }

  predicate MatchesEach(routes: seq<Route>, leaves: seq<Leaf>) {
    |routes| == |leaves| && forall i :: 0 <= i < |routes| ==> Matches(routes[i], leaves[i])
  }

  lemma {:induction false} OwnRoutesMatch(routes: seq<RouteConfig>, above: seq<GroupConfig>)
    ensures MatchesEach(OwnRoutes(routes, FoldedPrefix(above), AllMiddlewares(above)), OwnLeaves(routes, above))
  {
    if routes != [] {
      OwnRoutesMatch(routes[..|routes| - 1], above);
      var last := routes[|routes| - 1];
      if last.handler.Some? { LayersOfWrap(last.handler.value, AllMiddlewares(above)); }
    }
  }

  lemma {:induction false} FlattenMatches(g: GroupConfig, above: seq<GroupConfig>)
    ensures MatchesEach(Flatten(g, FoldedPrefix(above), AllMiddlewares(above)), Leaves(g, above))
    decreases g, |g.groups| + 1
  {
    var below := above + [g];
    assert below[..|below| - 1] == above;
    OwnRoutesMatch(g.routes, below);
    KidsMatch(g, |g.groups|, below);
  }

  lemma {:induction false} KidsMatch(g: GroupConfig, k: nat, above: seq<GroupConfig>)
    requires k <= |g.groups|
    ensures MatchesEach(FlattenKids(g, k, FoldedPrefix(above), AllMiddlewares(above)), KidLeaves(g, k, above))
    decreases g, k
  {
    if k > 0 {
      KidsMatch(g, k - 1, above);
      FlattenMatches(g.groups[k - 1], above);
    }
  }

  /** Every grouped route of a router, in pre-order: global middlewares first, then each ancestor's. */
  lemma GroupedRoutesMatch(r: Router)
    ensures MatchesEach(Flatten(TopGroup(r), "", []), Leaves(TopGroup(r), []))
    ensures forall leaf :: leaf in Leaves(TopGroup(r), []) ==>
      r.globalMiddlewares <= AllMiddlewares(leaf.above)
  {
    FlattenMatches(TopGroup(r), []);
    LeavesStartAt(TopGroup(r), [], TopGroup(r));
  }

  lemma {:induction false} LeavesStartAt(g: GroupConfig, above: seq<GroupConfig>, top: GroupConfig)
    requires (above + [g])[0] == top
    ensures forall leaf :: leaf in Leaves(g, above) ==> top.middlewares <= AllMiddlewares(leaf.above)
    decreases g, |g.groups| + 1
  {
    FirstMiddlewares(above + [g]);
    OwnLeavesAbove(g.routes, above + [g]);
    KidLeavesStartAt(g, |g.groups|, above + [g], top);
  }

  lemma {:induction false} KidLeavesStartAt(g: GroupConfig, k: nat, above: seq<GroupConfig>, top: GroupConfig)
    requires k <= |g.groups| && above != [] && above[0] == top
    ensures forall leaf :: leaf in KidLeaves(g, k, above) ==> top.middlewares <= AllMiddlewares(leaf.above)
    decreases g, k
  {
    if k > 0 {
      KidLeavesStartAt(g, k - 1, above, top);
      LeavesStartAt(g.groups[k - 1], above, top);
    }
  }

  lemma {:induction false} OwnLeavesAbove(routes: seq<RouteConfig>, above: seq<GroupConfig>)
    ensures forall leaf :: leaf in OwnLeaves(routes, above) ==> leaf.above == above
  {
    if routes != [] { OwnLeavesAbove(routes[..|routes| - 1], above); }
  }

  lemma {:induction false} FirstMiddlewares(above: seq<GroupConfig>)
    requires above != []
    ensures above[0].middlewares <= AllMiddlewares(above)
  {
    if |above| == 1 {
      assert AllMiddlewares([]) == [];
    } else {
      FirstMiddlewares(above[..|above| - 1]);
    }
  }

  // ---- Static routes, read off their configurations ------------------------------------------

  /** The configurations with a directory and a path, in order. */
  function ServedOnly(statics: seq<StaticRouteConfig>): seq<StaticRouteConfig> {
    if statics == [] then []
    else
      var before, last := ServedOnly(statics[..|statics| - 1]), statics[|statics| - 1];
      if last.dir == "" || last.path == "" then before else before + [last]
  }

  /** A GET route for everything below the path, inside the global middlewares. */
  predicate ServesBelow(route: Route, c: StaticRouteConfig, globals: seq<nat>) {
    && route.pattern == "GET " + ((if Rooted(c.path) then "" else "/") + c.path + (if EndsInSlash(c.path) then "" else "/"))
                        + "{path...}"
    && Layers(route.handler) == globals && Core(route.handler) == Files(c)
  }

  predicate ServeEach(routes: seq<Route>, configs: seq<StaticRouteConfig>, globals: seq<nat>) {
    |routes| == |configs| && forall i :: 0 <= i < |routes| ==> ServesBelow(routes[i], configs[i], globals)
  }

  lemma GetIsUpper()
    ensures MapChars(Upper, "GET") == "GET"
  {
    var t := MapChars(Upper, "GET");
    assert |t| == 3 && forall i :: 0 <= i < 3 ==> t[i] == "GET"[i];
  }

  lemma StaticJoin(path: string)
    requires path != ""
    ensures JoinPaths("", StaticPattern(path)) ==
      (if Rooted(path) then "" else "/") + path + (if EndsInSlash(path) then "" else "/") + "{path...}"
  {
    var below := path + if EndsInSlash(path) then "" else "/";
    var pattern := StaticPattern(path);
    assert pattern == below + "{path...}" by { if EndsInSlash(path) { assert path + "" == path; } }
    NoSlashPrefix(pattern);
    assert pattern[0] == path[0];
    assert |pattern| > 1;
    if Rooted(path) {
      assert "" + pattern == pattern && "" + path == path;
    } else {
      assert "" + ("/" + pattern) == "/" + path + (if EndsInSlash(path) then "" else "/") + "{path...}";
    }
  }

  lemma StaticRoutePattern(path: string)
    requires path != ""
    ensures BuildRoute("GET", JoinPaths("", StaticPattern(path))) ==
      "GET " + ((if Rooted(path) then "" else "/") + path + (if EndsInSlash(path) then "" else "/")) + "{path...}"
  {
    StaticJoin(path);
    GetIsUpper();
    hide JoinPaths, StaticPattern, BuildRoute, MapChars;
    var joined := JoinPaths("", StaticPattern(path));
    BuildRouteExactly("", "GET", "", joined);
    assert "" + "GET" + "" == "GET";
    assert "GET" + " " == "GET ";
  }

  lemma StaticRouteServes(c: StaticRouteConfig, globals: seq<nat>)
    requires c.path != ""
    ensures ServesBelow(Route(BuildRoute("GET", JoinPaths("", StaticPattern(c.path))), Wrap(Files(c), globals)), c, globals)
  {
    FilesIsPlain(c);
    hide JoinPaths, StaticPattern, BuildRoute, Wrap, Layers, Core;
    StaticRoutePattern(c.path);
    LayersOfWrap(Files(c), globals);
    assert globals + [] == globals;
  }

  lemma FilesIsPlain(c: StaticRouteConfig)
    ensures Layers(Files(c)) == [] && Core(Files(c)) == Files(c)
  {
  }

  /** One route for each static configuration with a directory and a path, in order, and no other. */
  lemma {:induction false} StaticRoutesServe(statics: seq<StaticRouteConfig>, globals: seq<nat>)
    ensures ServeEach(StaticRoutes(statics, globals), ServedOnly(statics), globals)
  {
    if statics != [] {
      hide BuildRoute, JoinPaths, StaticPattern, Wrap, ServesBelow;
      StaticRoutesServe(statics[..|statics| - 1], globals);
      var last := statics[|statics| - 1];
      if last.path != "" { StaticRouteServes(last, globals); }
    }
  }

  // ---- What the folded prefix is for clean group paths -----------------------------------

  /** A group path in clean form, with or without its first slash; the root adds nothing. */
  predicate NamedPath(path: string, names: seq<string>) {
    AllOrdinary(names) &&
    if names == [] then path == "" || path == "/" else path == PathOf(names, true) || path == PathOf(names, false)
  }

  function Concatenated(names: seq<seq<string>>): seq<string> {
    if names == [] then [] else Concatenated(names[..|names| - 1]) + names[|names| - 1]
  }

  /** The prefix with these names, empty for the root. */
  function PrefixOf(names: seq<string>): string { if names == [] then "" else RootedPath(names) }

  lemma AddNames(base: seq<string>, names: seq<string>)
    requires names != []
    ensures PrefixOf(base) + RootedPath(names) == PrefixOf(base + names)
  {
    if base == [] {
      assert base + names == names;
      assert "" + RootedPath(names) == RootedPath(names);
    } else {
      hide Join;
      JoinAppend(base, names, '/');
      assert RootedPath(base) + RootedPath(names) == "/" + (Join(base, '/') + ['/'] + Join(names, '/'));
    }
  }

  lemma NoSlashPrefix(s: string)
    ensures HasPrefix(s, "/") == Rooted(s)
  {
    if HasPrefix(s, "/") {
      assert s[0] == s[..1][0];
    } else if s != "" {
      assert s[..1] == [s[0]];
    }
  }

  lemma SlashIsAdded(base: string, sub: string, names: seq<string>)
    requires NamedPath(sub, names) && names != []
    ensures JoinPaths(base, sub) == base + RootedPath(names)
  {
    hide Join, AllOrdinary;
    JoinEndsInName(names);
    assert HasPrefix(RootedPath(names), "/");
    NoSlashPrefix(Join(names, '/'));
  }

  lemma JoinOfNamedPaths(base: seq<string>, sub: string, names: seq<string>)
    requires NamedPath(sub, names)
    ensures JoinPaths(PrefixOf(base), sub) == PrefixOf(base + names)
  {
    hide PrefixOf;
    if names == [] {
      assert base + names == base;
    } else {
      SlashIsAdded(PrefixOf(base), sub, names);
      AddNames(base, names);
    }
  }

  /** Groups with clean paths, slashed or not, give the rooted path of all their names in order. */
  lemma {:induction false} PrefixOfCleanGroups(above: seq<GroupConfig>, names: seq<seq<string>>)
    requires |names| == |above| && forall i :: 0 <= i < |above| ==> NamedPath(above[i].path, names[i])
    ensures FoldedPrefix(above) == PrefixOf(Concatenated(names))
  {
    if above != [] {
      var n := |above| - 1;
      PrefixOfCleanGroups(above[..n], names[..n]);
      JoinOfNamedPaths(Concatenated(names[..n]), above[n].path, names[n]);
    }
  }

  // ---- Go slices -------------------------------------------------------------------------------

  /** A Go slice that starts at its array: the array's length is the capacity. */
  datatype Slice = Slice(data: array<nat>, len: nat)

  ghost predicate SliceOk(s: Slice) { s.len <= s.data.Length }

  ghost function Contents(s: Slice): seq<nat>
    requires SliceOk(s)
    reads s.data
  {
    s.data[..s.len]
  }

  /** append: in place while the capacity lasts, otherwise into a new array with room to spare. */
  method Append(s: Slice, xs: seq<nat>, spare: nat) returns (t: Slice)
    requires SliceOk(s)
    modifies s.data
    ensures SliceOk(t) && Contents(t) == old(Contents(s)) + xs
    ensures s.len + |xs| <= s.data.Length ==> t.data == s.data
    ensures s.len + |xs| > s.data.Length ==> fresh(t.data) && s.data[..] == old(s.data[..])
    ensures s.data[..s.len] == old(s.data[..s.len])
    ensures s.len + |xs| <= s.data.Length ==> s.data[s.len + |xs|..] == old(s.data[s.len + |xs|..])
  {
    var need := s.len + |xs|;
    if need <= s.data.Length {
      t := Slice(s.data, need);
    } else {
      var data := new nat[need + spare];
      t := Slice(data, need);
      for i := 0 to s.len
        invariant s.data[..] == old(s.data[..])
        invariant t.data[..i] == s.data[..i]
      {
        t.data[i] := s.data[i];
      }
    }
    ghost var before := old(s.data[..]);
    for i := 0 to |xs|
      invariant fresh(t.data) || t.data == s.data
      invariant t.data != s.data ==> s.data[..] == before
      invariant t.data[..s.len] == before[..s.len]
      invariant t.data[s.len..s.len + i] == xs[..i]
      invariant t.data == s.data ==> t.data[need..] == before[need..]
    {
      t.data[s.len + i] := xs[i];
    }
    assert t.data[..need] == t.data[..s.len] + t.data[s.len..need];
  }

  // ---- Groups ------------------------------------------------------------------------------------

  class Mux {
    var routes: seq<Route>

    constructor ()
      ensures routes == []
    {
      routes := [];
    }

    method Handle(pattern: string, handler: Handler)
      modifies this
      ensures routes == old(routes) + [Route(pattern, handler)]
    {
      routes := routes + [Route(pattern, handler)];
    }
  }

  class Group {
    const mux: Mux
    const prefix: string
    var middlewares: Slice

    ghost predicate Valid()
      reads this
    {
      SliceOk(middlewares)
    }

    ghost function Middlewares(): seq<nat>
      reads this, middlewares.data
      requires Valid()
    {
      Contents(middlewares)
    }

    /** NewGroup: the group keeps the very slice it is given. */
    constructor (mux: Mux, prefix: string, middlewares: Slice)
      requires SliceOk(middlewares)
      ensures Valid() && this.mux == mux && this.prefix == CleanPrefix(prefix) && this.middlewares == middlewares
    {
      this.mux := mux;
      this.prefix := CleanPrefix(prefix);
      this.middlewares := middlewares;
    }

    /** The fields of a group made by Group.Group. */
    constructor Under(mux: Mux, prefix: string, middlewares: Slice)
      requires SliceOk(middlewares)
      ensures Valid() && this.mux == mux && this.prefix == prefix && this.middlewares == middlewares
    {
      this.mux := mux;
      this.prefix := prefix;
      this.middlewares := middlewares;
    }

    method Use(more: seq<nat>, spare: nat)
      requires Valid()
      modifies this, middlewares.data
      ensures Valid() && Middlewares() == old(Middlewares()) + more
      ensures middlewares.data == old(middlewares.data) || fresh(middlewares.data)
      ensures old(middlewares).data[..old(middlewares).len] == old(Middlewares())
      ensures middlewares.data == old(middlewares.data) <==> old(middlewares.len + |more| <= middlewares.data.Length)
    {
      middlewares := Append(middlewares, more, spare);
    }

    /** The group's middlewares and `more` in an array of their own. */
    method Combined(more: seq<nat>) returns (all: Slice)
      requires Valid()
      ensures SliceOk(all) && fresh(all.data) && Contents(all) == Middlewares() + more
      ensures all.len == all.data.Length
    {
      var data := new nat[middlewares.len + |more|];
      all := Slice(data, 0);
      all := Append(all, middlewares.data[..middlewares.len], 0);
      all := Append(all, more, 0);
    }

    /** Group.Group */
    method Subgroup(subPrefix: string, more: seq<nat>) returns (g: Group)
      requires Valid()
      ensures fresh(g) && fresh(g.middlewares.data)
      ensures g.Valid() && g.mux == mux && g.prefix == JoinPaths(prefix, subPrefix)
      ensures g.Middlewares() == Middlewares() + more
    {
      var combined := Combined(more);
      g := new Group.Under(mux, JoinPaths(prefix, subPrefix), combined);
    }

    method Handle(verb: string, pattern: string, handler: Handler, more: seq<nat>)
      requires Valid()
      modifies mux
      ensures mux.routes == old(mux.routes)
        + [Route(BuildRoute(verb, JoinPaths(prefix, pattern)), Wrap(handler, old(Middlewares()) + more))]
    {
      var all := Combined(more);
      var wrapped := Chain(handler, all.data[..all.len]);
      mux.Handle(BuildRoute(verb, JoinPaths(prefix, pattern)), wrapped);
    }
  }

  /** Two groups whose slices live in different arrays: using more on one leaves the other's chain alone. */
  method UseLeavesOthersAlone(g: Group, other: Group, more: seq<nat>, spare: nat)
    requires g.Valid() && other.Valid() && g != other && g.middlewares.data != other.middlewares.data
    modifies g, g.middlewares.data
    ensures g.Valid() && g.Middlewares() == old(g.Middlewares()) + more
    ensures other.Valid() && other.Middlewares() == old(other.Middlewares())
    ensures g.middlewares.data != other.middlewares.data
  {
    g.Use(more, spare);
  }

  /** Groups whose slices live in pairwise different arrays. */
  ghost predicate Apart(groups: set<Group>)
    reads groups
  {
    && (forall g :: g in groups ==> g.Valid())
    && (forall g, h :: g in groups && h in groups && g != h ==> g.middlewares.data != h.middlewares.data)
  }

  /** Use on one of any number of groups keeps them apart and leaves every other chain alone. */
  method UseKeepsApart(ghost groups: set<Group>, g: Group, more: seq<nat>, spare: nat)
    requires g in groups && Apart(groups)
    modifies g, g.middlewares.data
    ensures Apart(groups) && g.Middlewares() == old(g.Middlewares()) + more
    ensures forall h :: h in groups && h != g ==> h.Middlewares() == old(h.Middlewares())
  {
    g.Use(more, spare);
  }

  /** A new subgroup of any of them joins the family; nobody's chain changes. */
  method SubgroupKeepsApart(ghost groups: set<Group>, parent: Group, subPrefix: string, more: seq<nat>)
    returns (child: Group)
    requires parent in groups && Apart(groups)
    ensures fresh(child) && Apart(groups + {child})
    ensures child.prefix == JoinPaths(parent.prefix, subPrefix)
    ensures child.Middlewares() == parent.Middlewares() + more
    ensures forall h :: h in groups ==> h.Middlewares() == old(h.Middlewares())
  {
    child := parent.Subgroup(subPrefix, more);
  }

  // ---- Whole histories of a family of groups ----------------------------------------------------

  /** A group as its users see it: a prefix and a chain, no array. */
  datatype View = View(prefix: string, chain: seq<nat>)

  /** Use on the group made `at`-th, or Group on it; `spare` is the room append leaves. */
  datatype GroupOp = UseOp(at: nat, more: seq<nat>, spare: nat) | SubgroupOp(at: nat, subPrefix: string, more: seq<nat>)

  /** What a call does to plain values: Use changes one entry, Group adds one. */
  function Called(views: seq<View>, op: GroupOp): seq<View>
    requires op.at < |views|
  {
    var v := views[op.at];
    match op
    case UseOp(at, more, _) => views[at := View(v.prefix, v.chain + more)]
    case SubgroupOp(_, subPrefix, more) => views + [View(JoinPaths(v.prefix, subPrefix), v.chain + more)]
  }

  function FamilySize(ops: seq<GroupOp>): nat {
    if ops == [] then 1 else FamilySize(ops[..|ops| - 1]) + if ops[|ops| - 1].SubgroupOp? then 1 else 0
  }

  /** Every call is made on a group that exists by then. */
  predicate History(ops: seq<GroupOp>) {
    forall k :: 0 <= k < |ops| ==> ops[k].at < FamilySize(ops[..k])
  }

  function Family(root: View, ops: seq<GroupOp>): (views: seq<View>)
    requires History(ops)
    ensures |views| == FamilySize(ops)
  {
    if ops == [] then [root]
    else
      var n := |ops| - 1;
      PrefixIsHistory(ops, n);
      assert ops[n].at < FamilySize(ops[..n]);
      Called(Family(root, ops[..n]), ops[n])
  }

  lemma PrefixIsHistory(ops: seq<GroupOp>, n: nat)
    requires History(ops) && n <= |ops|
    ensures History(ops[..n])
  {
    forall k | 0 <= k < n ensures ops[..n][k].at < FamilySize(ops[..n][..k]) {
      assert ops[..n][..k] == ops[..k];
    }
  }

  lemma FamilyStep(root: View, ops: seq<GroupOp>, n: nat)
    requires History(ops) && n < |ops|
    ensures History(ops[..n]) && History(ops[..n + 1]) && ops[n].at < FamilySize(ops[..n])
    ensures Family(root, ops[..n + 1]) == Called(Family(root, ops[..n]), ops[n])
  {
    PrefixIsHistory(ops, n);
    PrefixIsHistory(ops, n + 1);
    assert ops[..n + 1][..n] == ops[..n] && ops[..n + 1][n] == ops[n];
  }

  /** A group object shows this value. */
  ghost predicate Shows(g: Group, v: View)
    reads g, g.middlewares.data
  {
    g.Valid() && g.prefix == v.prefix && g.Middlewares() == v.chain
  }

  ghost predicate AllShow(groups: seq<Group>, views: seq<View>)
    reads groups, set i | 0 <= i < |groups| :: groups[i].middlewares.data
  {
    |groups| == |views| && forall i :: 0 <= i < |groups| ==> Shows(groups[i], views[i])
  }

  ghost predicate OwnArrays(groups: seq<Group>)
    reads groups
  {
    forall i, j :: 0 <= i < j < |groups| ==>
      groups[i] != groups[j] && groups[i].middlewares.data != groups[j].middlewares.data
  }

  method CallUse(groups: seq<Group>, at: nat, more: seq<nat>, spare: nat, ghost views: seq<View>)
    requires at < |groups| && AllShow(groups, views) && OwnArrays(groups)
    modifies groups[at], groups[at].middlewares.data
    ensures AllShow(groups, Called(views, UseOp(at, more, spare))) && OwnArrays(groups)
    ensures forall i :: 0 <= i < |groups| ==>
      fresh(groups[i].middlewares.data) || groups[i].middlewares.data == old(groups[i].middlewares.data)
  {
    groups[at].Use(more, spare);
  }

  method CallSubgroup(groups: seq<Group>, at: nat, subPrefix: string, more: seq<nat>, ghost views: seq<View>)
    returns (after: seq<Group>)
    requires at < |groups| && AllShow(groups, views) && OwnArrays(groups)
    ensures |after| == |groups| + 1 && groups <= after && fresh(after[|groups|])
    ensures fresh(after[|groups|].middlewares.data)
    ensures AllShow(after, Called(views, SubgroupOp(at, subPrefix, more))) && OwnArrays(after)
  {
    hide JoinPaths;
    var child := groups[at].Subgroup(subPrefix, more);
    after := groups + [child];
  }

  method Call(groups: seq<Group>, op: GroupOp, ghost views: seq<View>) returns (after: seq<Group>)
    requires op.at < |groups| && AllShow(groups, views) && OwnArrays(groups)
    modifies groups[op.at], groups[op.at].middlewares.data
    ensures groups <= after && AllShow(after, Called(views, op)) && OwnArrays(after)
    ensures forall i :: |groups| <= i < |after| ==> fresh(after[i])
    ensures forall i :: 0 <= i < |after| ==>
      fresh(after[i].middlewares.data)
      || (i < |groups| && after[i].middlewares.data == old(groups[i].middlewares.data))
  {
    hide Called;
    match op
    case UseOp(at, more, spare) =>
      CallUse(groups, at, more, spare, views);
      after := groups;
    case SubgroupOp(at, subPrefix, more) =>
      after := CallSubgroup(groups, at, subPrefix, more, views);
  }

  /**
    Any number of groups grown from one root by any sequence of Use and Group calls behave as
    plain values: each holds exactly the chain its own calls gave it, whatever arrays append
    reused.
   */
  method Replay(root: Group, ops: seq<GroupOp>) returns (groups: seq<Group>)
    requires root.Valid() && History(ops)
    modifies root, root.middlewares.data
    ensures AllShow(groups, Family(View(root.prefix, old(root.Middlewares())), ops))
  {
    hide Called;
    ghost var start := View(root.prefix, root.Middlewares());
    groups := [root];
    for k := 0 to |ops|
      invariant History(ops[..k]) && AllShow(groups, Family(start, ops[..k])) && OwnArrays(groups)
      invariant forall i :: 0 <= i < |groups| ==> groups[i] == root || fresh(groups[i])
      invariant forall i :: 0 <= i < |groups| ==>
        fresh(groups[i].middlewares.data) || groups[i].middlewares.data == old(root.middlewares.data)
    {
      FamilyStep(start, ops, k);
      groups := Call(groups, ops[k], Family(start, ops[..k]));
    }
    assert ops[..|ops|] == ops;
  }

  function OwnUse(op: GroupOp, i: nat): seq<nat> { if op.UseOp? && op.at == i then op.more else [] }

  /** The middlewares that Use calls on the `i`-th group added, in order. */
  function OwnUses(ops: seq<GroupOp>, i: nat): seq<nat> {
    if ops == [] then [] else OwnUses(ops[..|ops| - 1], i) + OwnUse(ops[|ops| - 1], i)
  }

  lemma CalledAt(views: seq<View>, op: GroupOp, i: nat)
    requires op.at < |views| && i < |views|
    ensures i < |Called(views, op)| && Called(views, op)[i].prefix == views[i].prefix
    ensures Called(views, op)[i].chain == views[i].chain + OwnUse(op, i)
  {
  }

  lemma LastOfTwo(before: seq<GroupOp>, after: seq<GroupOp>)
    requires after != []
    ensures var all, n := before + after, |before| + |after| - 1;
      all[..n] == before + after[..|after| - 1] && all[n] == after[|after| - 1] && all[..n + 1] == all
  {
  }

  lemma {:induction false} FamilyGrows(before: seq<GroupOp>, after: seq<GroupOp>)
    ensures FamilySize(before) <= FamilySize(before + after)
  {
    if after == [] {
      assert before + after == before;
    } else {
      var all := before + after;
      LastOfTwo(before, after);
      FamilyGrows(before, after[..|after| - 1]);
    }
  }

  /**
    Whatever else happens to the family, a group's chain is the one it had, plus what Use calls
    on that very group added since; its prefix never changes.
   */
  lemma {:induction false} ChainIsItsOwnCalls(root: View, before: seq<GroupOp>, after: seq<GroupOp>, i: nat)
    requires History(before + after) && i < FamilySize(before)
    ensures History(before) && i < FamilySize(before + after)
    ensures var was, now := Family(root, before)[i], Family(root, before + after)[i];
      now.prefix == was.prefix && now.chain == was.chain + OwnUses(after, i)
  {
    hide Called, Family, OwnUse, FamilySize;
    var all := before + after;
    assert all[..|before|] == before;
    PrefixIsHistory(all, |before|);
    FamilyGrows(before, after);
    if after == [] {
      assert all == before;
    } else {
      var n := |all| - 1;
      var rest := after[..|after| - 1];
      LastOfTwo(before, after);
      FamilyStep(root, all, n);
      ChainIsItsOwnCalls(root, before, rest, i);
      CalledAt(Family(root, all[..n]), all[n], i);
    }
  }

  /** NewGroup shares: two groups built on one slice with room to spare overwrite each other. */
  method SharedSliceIsOverwritten(mux: Mux, given: Slice, x: nat, y: nat) returns (first: Group, second: Group)
    requires SliceOk(given)
    modifies given.data
    ensures first.Valid() && second.Valid()
    ensures second.Middlewares() == old(Contents(given)) + [y]
    ensures first.Middlewares() == old(Contents(given)) + [if given.len < given.data.Length then y else x]
  {
    first := new Group(mux, "/", given);
    second := new Group(mux, "/", given);
    first.Use([x], 0);
    assert second.Middlewares() == old(Contents(given));
    second.Use([y], 0);
  }

  // ---- The server's setup ---------------------------------------------------------------------------

  method SetupRoute(group: Group, config: RouteConfig)
    requires group.Valid()
    modifies group.mux
    ensures group.mux.routes == old(group.mux.routes) + OwnRoutes([config], group.prefix, old(group.Middlewares()))
  {
    hide BuildRoute, JoinPaths;
    assert [config][..0] == [];
    if config.handler.None? { return; }
    group.Handle(config.verb, config.path, config.handler.value, []);
    assert old(group.Middlewares()) + [] == old(group.Middlewares());
  }

  lemma OwnRoutesSnoc(routes: seq<RouteConfig>, last: RouteConfig, prefix: string, chain: seq<nat>)
    ensures OwnRoutes(routes + [last], prefix, chain)
         == OwnRoutes(routes, prefix, chain) + OwnRoutes([last], prefix, chain)
  {
    assert (routes + [last])[..|routes|] == routes;
    assert [last][..0] == [];
  }

  /** The first loop of setupRouteGroup. */
  method SetupOwnRoutes(group: Group, routes: seq<RouteConfig>)
    requires group.Valid()
    modifies group.mux
    ensures group.mux.routes == old(group.mux.routes) + OwnRoutes(routes, group.prefix, old(group.Middlewares()))
  {
    ghost var base, chain := group.mux.routes, group.Middlewares();
    for i := 0 to |routes|
      invariant group.Valid() && group.Middlewares() == chain
      invariant group.mux.routes == base + OwnRoutes(routes[..i], group.prefix, chain)
    {
      OwnRoutesSnoc(routes[..i], routes[i], group.prefix, chain);
      assert routes[..i + 1] == routes[..i] + [routes[i]];
      SetupRoute(group, routes[i]);
    }
    assert routes[..|routes|] == routes;
  }

  /** Registers one group tree; the parent group and its chain are not touched. */
  method SetupRouteGroup(config: GroupConfig, parent: Group)
    requires parent.Valid()
    modifies parent.mux
    ensures parent.mux.routes == old(parent.mux.routes) + Flatten(config, parent.prefix, old(parent.Middlewares()))
    decreases config
  {
    hide JoinPaths, OwnRoutes;
    var group := parent.Subgroup(config.path, []);
    group.Use(config.middlewares, 0);
    ghost var chain := group.Middlewares();
    assert chain == parent.Middlewares() + config.middlewares;
    SetupOwnRoutes(group, config.routes);
    ghost var own := parent.mux.routes;
    for k := 0 to |config.groups|
      invariant group.Valid() && group.Middlewares() == chain
      invariant parent.mux.routes == own + FlattenKids(config, k, group.prefix, chain)
    {
      SetupRouteGroup(config.groups[k], group);
    }
  }

  method SetupStaticRoute(root: Group, config: StaticRouteConfig)
    requires root.Valid()
    modifies root.mux
    ensures root.mux.routes == old(root.mux.routes)
      + [Route(BuildRoute("GET", JoinPaths(root.prefix, StaticPattern(config.path))),
               Wrap(Files(config), old(root.Middlewares())))]
  {
    var pattern := config.path;
    if !EndsInSlash(pattern) { pattern := pattern + "/"; }
    pattern := pattern + "{path...}";
    root.Handle("GET", pattern, Files(config), []);
    assert old(root.Middlewares()) + [] == old(root.Middlewares());
  }

  method SetupStatics(root: Group, statics: seq<StaticRouteConfig>)
    requires root.Valid() && root.prefix == ""
    modifies root.mux
    ensures root.mux.routes == old(root.mux.routes) + StaticRoutes(statics, old(root.Middlewares()))
  {
    ghost var before, chain := root.mux.routes, root.Middlewares();
    for k := 0 to |statics|
      invariant root.Valid() && root.Middlewares() == chain
      invariant root.mux.routes == before + StaticRoutes(statics[..k], chain)
    {
      assert statics[..k + 1][..k] == statics[..k];
      if Served(statics[k]) { SetupStaticRoute(root, statics[k]); }
    }
    assert statics[..|statics|] == statics;
  }

  /** setupRoutes on a root group that exists. */
  method SetupRoutes(root: Group, r: Router)
    requires root.Valid() && root.prefix == "" && root.Middlewares() == r.globalMiddlewares
    modifies root.mux
    ensures root.mux.routes == old(root.mux.routes) + AllRoutes(r)
  {
    hide Flatten, StaticRoutes;
    ghost var top, globals, before := TopGroup(r), r.globalMiddlewares, root.mux.routes;
    for k := 0 to |r.groups|
      invariant root.Valid() && root.Middlewares() == globals
      invariant root.mux.routes == before + FlattenKids(top, k, "", globals)
    {
      SetupRouteGroup(r.groups[k], root);
    }
    TopGroupAddsNothing(r);
    SetupStatics(root, r.statics);
  }

  lemma TopGroupAddsNothing(r: Router)
    ensures Flatten(TopGroup(r), "", []) == FlattenKids(TopGroup(r), |r.groups|, "", r.globalMiddlewares)
  {
    assert [] + r.globalMiddlewares == r.globalMiddlewares;
    assert OwnRoutes([], "", r.globalMiddlewares) == [];
  }

  /** Whether a router asks for anything to be registered. */
  predicate Registers(r: Router) { r.groups != [] || exists c :: c in r.statics && Served(c) }

  lemma NothingRegistered(r: Router)
    requires !Registers(r)
    ensures AllRoutes(r) == []
  {
    TopGroupAddsNothing(r);
    NoStatics(r.statics, r.globalMiddlewares);
  }

  lemma {:induction false} NoStatics(statics: seq<StaticRouteConfig>, globals: seq<nat>)
    requires forall c :: c in statics ==> !Served(c)
    ensures StaticRoutes(statics, globals) == []
  {
    if statics != [] { NoStatics(statics[..|statics| - 1], globals); }
  }

  class Server {
    const mux: Mux
    var rootGroup: Group?
    var rootGroupOnce: bool

    ghost predicate Valid()
      reads this, rootGroup
    {
      rootGroup != null ==> rootGroup.Valid() && rootGroup.mux == mux
    }

    /** A root group with the empty prefix and this chain. */
    ghost predicate RootHas(chain: seq<nat>)
      reads this, rootGroup, if rootGroup == null then {} else {rootGroup.middlewares.data}
      requires Valid()
    {
      rootGroup != null && rootGroup.prefix == "" && rootGroup.Middlewares() == chain
    }

    constructor ()
      ensures Valid() && fresh(mux) && mux.routes == [] && rootGroup == null && !rootGroupOnce
    {
      mux := new Mux();
      rootGroup := null;
      rootGroupOnce := false;
    }

    method NewRoot()
      requires Valid()
      modifies this`rootGroup
      ensures Valid() && RootHas([]) && fresh(rootGroup) && fresh(rootGroup.middlewares.data)
    {
      var none := new nat[0];
      rootGroup := new Group(mux, "/", Slice(none, 0));
    }

    method GetRootGroup() returns (root: Group?)
      requires Valid()
      modifies this
      ensures Valid() && rootGroupOnce && root == rootGroup
      ensures old(rootGroupOnce) || old(rootGroup) != null ==> rootGroup == old(rootGroup)
      ensures !old(rootGroupOnce) && old(rootGroup) == null ==>
        RootHas([]) && fresh(rootGroup) && fresh(rootGroup.middlewares.data)
    {
      if !rootGroupOnce {
        rootGroupOnce := true;
        if rootGroup == null { NewRoot(); }
      }
      root := rootGroup;
    }

    method SetupGlobalMiddlewares(globals: seq<nat>)
      requires Valid()
      modifies this`rootGroup
      ensures Valid() && RootHas(globals) && fresh(rootGroup) && fresh(rootGroup.middlewares.data)
    {
      NewRoot();
      rootGroup.Use(globals, 0);
    }

    /**
      setupRouter for a router not used before.  A root group asked for earlier belongs to
      the router the server was made with, and sync.Once will not make another: then,
      without global middlewares, the first registration dereferences nil.
     */
    method SetupRouter(r: Router) returns (panicked: bool)
      requires Valid()
      modifies this, mux
      ensures Valid()
      ensures panicked <==> (old(rootGroupOnce) && r.globalMiddlewares == [] && Registers(r))
      ensures mux.routes == old(mux.routes) + if panicked then [] else AllRoutes(r)
    {
      rootGroup := null;
      if |r.globalMiddlewares| > 0 { SetupGlobalMiddlewares(r.globalMiddlewares); }
      var root := GetRootGroup();
      if root == null {
        panicked := Registers(r);
        if !panicked { NothingRegistered(r); }
        return;
      }
      SetupRoutes(root, r);
      panicked := false;
    }
  }
}
