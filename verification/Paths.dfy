/** path.Clean, path.Join and path.Dir of Go's standard library, read as operations on segments. */
module Paths {
  import opened Text

  /** One step of path.Clean: what segment `seg` does to the segments kept so far. */
  function CleanStep(out: seq<string>, seg: string, rooted: bool): seq<string> {
    if seg == "" || seg == "." then out
    else if seg != ".." then out + [seg]
    else if out != [] && out[|out| - 1] != ".." then out[..|out| - 1]
    else if rooted then out
    else out + [".."]
  }

  function CleanFrom(out: seq<string>, segs: seq<string>, rooted: bool): seq<string>
    decreases |segs|
  {
    if segs == [] then out else CleanFrom(CleanStep(out, segs[0], rooted), segs[1..], rooted)
  }

  predicate Rooted(path: string) { path != "" && path[0] == '/' }

  function CleanSegments(path: string): seq<string> { CleanFrom([], Split(path, '/'), Rooted(path)) }

  /** The clean path with these segments. */
  function PathOf(segs: seq<string>, rooted: bool): string {
    if rooted then "/" + Join(segs, '/') else if segs == [] then "." else Join(segs, '/')
  }

  function Clean(path: string): string { PathOf(CleanSegments(path), Rooted(path)) }

  /** path.Join of two elements: empty elements are ignored. */
  function PathJoin(a: string, b: string): string {
    if a == "" && b == "" then "" else if a == "" then Clean(b) else if b == "" then Clean(a) else Clean(a + "/" + b)
  }

  /** Everything up to and including the last slash. */
  function UpToSlash(path: string): string {
    if path == "" || path[|path| - 1] == '/' then path else UpToSlash(path[..|path| - 1])
  }

  function Dir(path: string): string { Clean(UpToSlash(path)) }

  predicate HasPrefix(s: string, prefix: string) { |prefix| <= |s| && s[..|prefix|] == prefix }

  function TrimPrefix(s: string, prefix: string): string {
    if HasPrefix(s, prefix) then s[|prefix|..] else s
  }

  predicate EndsInSlash(s: string) { s != "" && s[|s| - 1] == '/' }

  function TrimSlash(s: string): string { if EndsInSlash(s) then s[..|s| - 1] else s }

  // ---- Segments ------------------------------------------------------------------

  /** A file name: not empty, no slash, neither dot nor dot-dot. */
  predicate Ordinary(seg: string) { seg != "" && seg != "." && seg != ".." && '/' !in seg }

  predicate AllOrdinary(segs: seq<string>) { forall i :: 0 <= i < |segs| ==> Ordinary(segs[i]) }

  predicate NoDotDot(segs: seq<string>) { forall i :: 0 <= i < |segs| ==> segs[i] != ".." }

  /** The segments that name something. */
  function Own(segs: seq<string>): seq<string> {
    if segs == [] then [] else OwnName(segs[0]) + Own(segs[1..])
  }

  function OwnName(seg: string): seq<string> { if seg == "" || seg == "." then [] else [seg] }

  /** The path "/a/b/c" of these segments. */
  function RootedPath(segs: seq<string>): string { "/" + Join(segs, '/') }

  lemma {:induction false} CleanFromAppend(out: seq<string>, a: seq<string>, b: seq<string>, rooted: bool)
    ensures CleanFrom(out, a + b, rooted) == CleanFrom(CleanFrom(out, a, rooted), b, rooted)
    decreases |a|
  {
    if a == [] {
      assert a + b == b;
    } else {
      assert (a + b)[1..] == a[1..] + b;
      CleanFromAppend(CleanStep(out, a[0], rooted), a[1..], b, rooted);
    }
  }

  lemma CleanStepKeepsName(out: seq<string>, seg: string, rooted: bool)
    requires seg != ".."
    ensures CleanStep(out, seg, rooted) == out + OwnName(seg)
  {
    assert out + [] == out;
  }

  /** A name and the dot-dot after it cancel each other. */
  lemma DotDotCancels(out: seq<string>, name: string, rest: seq<string>, rooted: bool)
    requires Ordinary(name)
    ensures CleanFrom(out, [name, ".."] + rest, rooted) == CleanFrom(out, rest, rooted)
  {
    var segs := [name, ".."] + rest;
    assert segs[1..] == [".."] + rest && ([".."] + rest)[1..] == rest;
    assert CleanStep(out, name, rooted) == out + [name];
    assert (out + [name])[..|out|] == out;
    assert CleanStep(out + [name], "..", rooted) == out;
  }

  /** At the root there is nothing above; a relative path keeps the dot-dots it starts with. */
  lemma DotDotAtTheTop(rest: seq<string>)
    ensures CleanFrom([], [".."] + rest, true) == CleanFrom([], rest, true)
    ensures CleanFrom([], [".."] + rest, false) == CleanFrom([".."], rest, false)
    ensures CleanFrom([".."], [".."] + rest, false) == CleanFrom(["..", ".."], rest, false)
  {
    assert ([".."] + rest)[1..] == rest;
    assert [".."] + [".."] == ["..", ".."] && [] + [".."] == [".."];
  }

  /** Without dot-dot, cleaning keeps exactly the segments that name something. */
  lemma {:induction false} CleanFromOwn(out: seq<string>, segs: seq<string>, rooted: bool)
    requires NoDotDot(segs)
    ensures CleanFrom(out, segs, rooted) == out + Own(segs)
    decreases |segs|
  {
    if segs == [] {
      assert out + [] == out;
    } else {
      CleanStepKeepsName(out, segs[0], rooted);
      CleanFromOwn(out + OwnName(segs[0]), segs[1..], rooted);
      assert out + OwnName(segs[0]) + Own(segs[1..]) == out + (OwnName(segs[0]) + Own(segs[1..]));
    }
  }

  lemma {:induction false} OwnAppend(a: seq<string>, b: seq<string>)
    ensures Own(a + b) == Own(a) + Own(b)
  {
    if a == [] {
      assert a + b == b;
    } else {
      assert (a + b)[1..] == a[1..] + b;
      OwnAppend(a[1..], b);
    }
  }

  lemma {:induction false} OwnOfOrdinary(segs: seq<string>)
    requires AllOrdinary(segs)
    ensures Own(segs) == segs
  {
    if segs != [] { OwnOfOrdinary(segs[1..]); }
  }

  lemma {:induction false} OwnIsOrdinary(segs: seq<string>)
    requires NoDotDot(segs) && Without(segs, '/')
    ensures AllOrdinary(Own(segs))
  {
    if segs != [] { OwnIsOrdinary(segs[1..]); }
  }

  /** A rooted path cleans to ordinary segments: dot-dot never survives. */
  lemma {:induction false} RootedCleanIsOrdinary(out: seq<string>, segs: seq<string>)
    requires AllOrdinary(out) && Without(segs, '/')
    ensures AllOrdinary(CleanFrom(out, segs, true))
    decreases |segs|
  {
    if segs != [] { RootedCleanIsOrdinary(CleanStep(out, segs[0], true), segs[1..]); }
  }

  lemma RootedCleanSegments(path: string)
    requires Rooted(path)
    ensures AllOrdinary(CleanSegments(path))
  {
    SplitHasNoSeparator(path, '/');
    RootedCleanIsOrdinary([], Split(path, '/'));
  }

  lemma OrdinaryHasNoSlash(segs: seq<string>)
    requires AllOrdinary(segs)
    ensures Without(segs, '/') && NoDotDot(segs)
  {
  }

  lemma SplitOfRooted(segs: seq<string>)
    requires AllOrdinary(segs) && segs != []
    ensures Split(RootedPath(segs), '/') == [""] + segs
  {
    OrdinaryHasNoSlash(segs);
    SplitOfJoin(segs, '/');
    SplitAtSeparator("", Join(segs, '/'), '/');
    assert "" + ['/'] + Join(segs, '/') == RootedPath(segs);
  }

  /** The segments of "/a/b/c" are a, b, c again. */
  lemma OwnOfRooted(segs: seq<string>)
    requires AllOrdinary(segs)
    ensures NoDotDot(Split(RootedPath(segs), '/')) && Own(Split(RootedPath(segs), '/')) == segs
  {
    hide Split;
    if segs == [] {
      assert RootedPath(segs) == "/";
      OwnOfSlash();
    } else {
      SplitOfRooted(segs);
      OwnAppend([""], segs);
      OwnOfOrdinary(segs);
      OrdinaryHasNoSlash(segs);
    }
  }

  lemma OwnOfSlash()
    ensures Split("/", '/') == ["", ""] && Own(["", ""]) == [] && Own([""]) == []
  {
    assert "/"[1..] == "";
    assert ["", ""][1..] == [""];
  }

  /** Two pieces: a dot-dot-free remainder is cleaned onto whatever the beginning cleans to. */
  lemma CleanOfTwo(a: string, b: string)
    requires a != "" && NoDotDot(Split(b, '/'))
    ensures CleanSegments(a + "/" + b) == CleanSegments(a) + Own(Split(b, '/'))
    ensures Clean(a + "/" + b) == PathOf(CleanSegments(a) + Own(Split(b, '/')), Rooted(a))
  {
    assert a + "/" + b == a + ['/'] + b;
    SplitAtSeparator(a, b, '/');
    CleanFromAppend([], Split(a, '/'), Split(b, '/'), Rooted(a));
    CleanFromOwn(CleanSegments(a), Split(b, '/'), Rooted(a));
  }

  /** A clean rooted path is its own cleaning. */
  lemma CleanOfRooted(segs: seq<string>)
    requires AllOrdinary(segs)
    ensures CleanSegments(RootedPath(segs)) == segs && Clean(RootedPath(segs)) == RootedPath(segs)
  {
    OwnOfRooted(segs);
    CleanFromOwn([], Split(RootedPath(segs), '/'), true);
    assert [] + segs == segs;
  }

  /** A trailing slash does not change what a path cleans to. */
  lemma CleanOfTrailingSlash(a: string)
    requires Rooted(a)
    ensures CleanSegments(a + "/") == CleanSegments(a) && Clean(a + "/") == Clean(a)
  {
    OwnOfSlash();
    CleanOfTwo(a, "");
    assert a + "/" + "" == a + "/";
    assert CleanSegments(a) + [] == CleanSegments(a);
  }

  lemma {:induction false} UpToSlashOfJoin(head: string, name: string)
    requires '/' !in name
    ensures UpToSlash(head + ['/'] + name) == head + ['/']
  {
    var whole := head + ['/'] + name;
    if name == "" {
      assert whole == head + ['/'];
    } else {
      assert whole[..|whole| - 1] == head + ['/'] + name[..|name| - 1];
      UpToSlashOfJoin(head, name[..|name| - 1]);
    }
  }

  /** path.Dir takes the last segment away. */
  lemma DirOfRooted(segs: seq<string>, name: string)
    requires AllOrdinary(segs) && Ordinary(name)
    ensures Dir(RootedPath(segs + [name])) == RootedPath(segs)
  {
    if segs == [] {
      UpToSlashOfJoin("", name);
      assert [] + [name] == [name] && "" + ['/'] + name == "/" + name && "" + ['/'] == "/";
      CleanOfRooted([]);
      assert RootedPath([]) == "/";
    } else {
      JoinAppend(segs, [name], '/');
      assert RootedPath(segs + [name]) == RootedPath(segs) + ['/'] + name;
      UpToSlashOfJoin(RootedPath(segs), name);
      CleanOfTrailingSlash(RootedPath(segs));
      CleanOfRooted(segs);
      assert RootedPath(segs) + ['/'] == RootedPath(segs) + "/";
    }
  }

  /** A path without dot-dot, cleaned, names the same segments. */
  lemma CleanWithoutDotDot(path: string)
    requires NoDotDot(Split(path, '/'))
    ensures CleanSegments(path) == Own(Split(path, '/')) && Own(Split(Clean(path), '/')) == Own(Split(path, '/'))
  {
    var segs := Own(Split(path, '/'));
    CleanFromOwn([], Split(path, '/'), Rooted(path));
    assert [] + segs == segs;
    SplitHasNoSeparator(path, '/');
    OwnIsOrdinary(Split(path, '/'));
    if Rooted(path) {
      OwnOfRooted(segs);
    } else if segs == [] {
      SplitWhole(".", '/');
      assert Own(["."]) == [];
    } else {
      OrdinaryHasNoSlash(segs);
      SplitOfJoin(segs, '/');
      OwnOfOrdinary(segs);
    }
  }

  lemma CleanAgain(path: string)
    requires NoDotDot(Split(path, '/'))
    ensures CleanSegments(Clean(path)) == CleanSegments(path)
  {
    var segs := Own(Split(path, '/'));
    CleanWithoutDotDot(path);
    SplitHasNoSeparator(path, '/');
    OwnIsOrdinary(Split(path, '/'));
    if Rooted(path) {
      CleanOfRooted(segs);
    } else if segs == [] {
      SplitWhole(".", '/');
      assert CleanFrom([], ["."], false) == [];
    } else {
      OrdinaryHasNoSlash(segs);
      SplitOfJoin(segs, '/');
      OwnOfOrdinary(segs);
      CleanFromOwn([], segs, Rooted(Join(segs, '/')));
      assert [] + segs == segs;
    }
  }

  lemma {:induction false} JoinEndsInName(segs: seq<string>)
    requires AllOrdinary(segs) && segs != []
    ensures Join(segs, '/') != "" && Join(segs, '/')[0] != '/' && !EndsInSlash(Join(segs, '/'))
  {
    if |segs| > 1 { JoinEndsInName(segs[1..]); }
  }

  /** A path in clean form names its own segments. */
  lemma NamesOfPathOf(segs: seq<string>, rooted: bool)
    requires AllOrdinary(segs)
    ensures var path := PathOf(segs, rooted);
      path != "" && NoDotDot(Split(path, '/')) && Own(Split(path, '/')) == segs && Rooted(path) == rooted
  {
    OrdinaryHasNoSlash(segs);
    if rooted {
      OwnOfRooted(segs);
    } else if segs == [] {
      SplitWhole(".", '/');
      assert Own(["."]) == [];
    } else {
      JoinEndsInName(segs);
      SplitOfJoin(segs, '/');
      OwnOfOrdinary(segs);
    }
  }

  /** Joining two paths without dot-dot puts their segments one after the other. */
  lemma JoinOfNames(a: string, b: string)
    requires a != "" && b != "" && NoDotDot(Split(a, '/')) && NoDotDot(Split(b, '/'))
    ensures PathJoin(a, b) == PathOf(Own(Split(a, '/')) + Own(Split(b, '/')), Rooted(a))
  {
    assert a + "/" + b == a + ['/'] + b;
    SplitAtSeparator(a, b, '/');
    OwnAppend(Split(a, '/'), Split(b, '/'));
    CleanFromOwn([], Split(a, '/') + Split(b, '/'), Rooted(a));
    assert [] + Own(Split(a, '/') + Split(b, '/')) == Own(Split(a, '/') + Split(b, '/'));
  }
}
