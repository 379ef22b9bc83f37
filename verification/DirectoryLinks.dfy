/** Links of directory listings: serbewr/directory_indexing.go, buildDirectoryListing and buildParentURL. */
module DirectoryLinks {
  import opened Options
  import opened Text
  import opened Paths

  datatype FileInfo = FileInfo(size: int, modTime: int)

  /** One os.DirEntry: `info` is absent when its Info call fails. */
  datatype DirEntry = DirEntry(name: string, isDir: bool, info: Option<FileInfo>)

  datatype DirectoryEntry = DirectoryEntry(name: string, isDir: bool, size: int, modTime: int, url: string)

  datatype Listing = Listing(path: string, parent: string, entries: seq<DirectoryEntry>)

  function RelativePath(url: string, mount: string): string {
    if TrimPrefix(url, mount) == "" then "/" else TrimPrefix(url, mount)
  }

  function WithSlash(path: string): string { if EndsInSlash(path) then path else path + "/" }

  function EntryURL(relative: string, mount: string, name: string, isDir: bool): string {
    var entryPath := PathJoin(relative, name);
    var url := if mount == "/" then entryPath else PathJoin(mount, entryPath);
    if isDir then WithSlash(url) else url
  }

  function ParentURL(relative: string, mount: string): string {
    var dir := Dir(TrimSlash(relative));
    MountedAt(mount, if dir == "." then "/" else dir)
  }

  function MountedAt(mount: string, parentPath: string): string {
    WithSlash(
      if mount == "/" then parentPath else if parentPath == "/" then mount else PathJoin(mount, parentPath))
  }

  /** The rows of a listing: the entries that can be described, in order. */
  function Rows(entries: seq<DirEntry>, relative: string, mount: string): seq<DirectoryEntry> {
    if entries == [] then []
    else
      var before, e := Rows(entries[..|entries| - 1], relative, mount), entries[|entries| - 1];
      if e.info.None? then before
      else before + [DirectoryEntry(e.name, e.isDir, e.info.value.size, e.info.value.modTime,
                                    EntryURL(relative, mount, e.name, e.isDir))]
  }

  // ---- sort.Slice with the listing's order --------------------------------------------

  /** The comparison given to sort.Slice: directories first, then names without regard to case. */
  predicate RowBefore(a: DirectoryEntry, b: DirectoryEntry) {
    if a.isDir != b.isDir then a.isDir else Less(LowerAll(a.name), LowerAll(b.name))
  }

  predicate RowsSorted(rows: seq<DirectoryEntry>) {
    forall i, j :: 0 <= i < j < |rows| ==> !RowBefore(rows[j], rows[i])
  }

  /** The comparison is a strict weak order, so sorting by it makes sense. */
  lemma RowOrder(a: DirectoryEntry, b: DirectoryEntry, c: DirectoryEntry)
    ensures RowBefore(a, b) ==> !RowBefore(b, a)
    ensures !RowBefore(b, a) && !RowBefore(c, b) ==> !RowBefore(c, a)
  {
    var x, y, z := LowerAll(a.name), LowerAll(b.name), LowerAll(c.name);
    NotBothLess(x, y);
    NotLessTransitive(x, y, z);
  }

  lemma NotBothLess(x: string, y: string)
    ensures !(Less(x, y) && Less(y, x))
  {
    if Less(x, y) && Less(y, x) {
      LessTransitive(x, y, x);
      LessIrreflexive(x);
    }
  }

  lemma NotLessTransitive(x: string, y: string, z: string)
    ensures !Less(y, x) && !Less(z, y) ==> !Less(z, x)
  {
    if !Less(y, x) && !Less(z, y) && Less(z, x) {
      LessTotal(y, z);
      LessTotal(x, y);
      if x != y { NotBothLess(x, z); if y != z { LessTransitive(x, y, z); } }
    }
  }

  /** sort.Slice may order equal rows as it likes; this is one way. */
  method SortSlice(rows: seq<DirectoryEntry>) returns (sorted: seq<DirectoryEntry>)
    ensures multiset(sorted) == multiset(rows) && RowsSorted(sorted)
  {
    sorted := [];
    for i := 0 to |rows|
      invariant multiset(sorted) == multiset(rows[..i]) && RowsSorted(sorted)
    {
      assert rows[..i + 1] == rows[..i] + [rows[i]];
      sorted := InsertRow(sorted, rows[i]);
    }
    assert rows[..|rows|] == rows;
  }

  function WithRow(rows: seq<DirectoryEntry>, k: nat, row: DirectoryEntry): seq<DirectoryEntry>
    requires k <= |rows|
  {
    rows[..k] + [row] + rows[k..]
  }

  /** `row` may stand at `k`: after everything it is not before, and before the rest. */
  predicate FitsAt(rows: seq<DirectoryEntry>, k: nat, row: DirectoryEntry) {
    && k <= |rows| && RowsSorted(rows)
    && (k > 0 ==> !RowBefore(row, rows[k - 1]))
    && forall i :: k <= i < |rows| ==> RowBefore(row, rows[i])
  }

  lemma RowFits(rows: seq<DirectoryEntry>, k: nat, row: DirectoryEntry, i: nat, j: nat)
    requires FitsAt(rows, k, row) && i < j <= |rows|
    ensures !RowBefore(WithRow(rows, k, row)[j], WithRow(rows, k, row)[i])
  {
    hide RowBefore;
    var longer := WithRow(rows, k, row);
    if j == k {
      if i < k - 1 { assert !RowBefore(rows[k - 1], rows[i]); }
      RowOrder(rows[i], rows[k - 1], row);
      RowOrder(row, rows[k - 1], row);
    } else if i == k {
      RowOrder(row, rows[j - 1], row);
    }
  }

  lemma RowFitsEverywhere(rows: seq<DirectoryEntry>, k: nat, row: DirectoryEntry)
    requires FitsAt(rows, k, row)
    ensures RowsSorted(WithRow(rows, k, row))
  {
    hide RowBefore;
    var longer := WithRow(rows, k, row);
    forall i, j | 0 <= i < j < |longer| ensures !RowBefore(longer[j], longer[i]) {
      RowFits(rows, k, row, i, j);
    }
  }

  method InsertRow(rows: seq<DirectoryEntry>, row: DirectoryEntry) returns (longer: seq<DirectoryEntry>)
    requires RowsSorted(rows)
    ensures multiset(longer) == multiset(rows + [row]) && RowsSorted(longer)
  {
    hide RowBefore, RowsSorted;
    var k := |rows|;
    while k > 0 && RowBefore(row, rows[k - 1])
      invariant 0 <= k <= |rows|
      invariant forall i :: k <= i < |rows| ==> RowBefore(row, rows[i])
    {
      k := k - 1;
    }
    longer := WithRow(rows, k, row);
    RowFitsEverywhere(rows, k, row);
    assert rows == rows[..k] + rows[k..];
  }

  method BuildDirectoryListing(url: string, entries: seq<DirEntry>, mount: string) returns (listing: Listing)
    ensures listing.path == RelativePath(url, mount)
    ensures listing.parent == if listing.path == "/" then "" else ParentURL(listing.path, mount)
    ensures multiset(listing.entries) == multiset(Rows(entries, listing.path, mount))
    ensures RowsSorted(listing.entries)
  {
    hide PathJoin, ParentURL, TrimPrefix;
    var relative := TrimPrefix(url, mount);
    if relative == "" { relative := "/"; }
    listing := Listing(relative, "", []);
    if relative != "/" { listing := listing.(parent := ParentURL(relative, mount)); }
    for i := 0 to |entries|
      invariant listing.path == relative
      invariant listing.parent == if relative == "/" then "" else ParentURL(relative, mount)
      invariant listing.entries == Rows(entries[..i], relative, mount)
    {
      assert entries[..i + 1][..i] == entries[..i];
      var entry := entries[i];
      if entry.info.None? { continue; }
      var entryURL := PathJoin(relative, entry.name);
      if mount != "/" { entryURL := PathJoin(mount, entryURL); }
      if entry.isDir && !EndsInSlash(entryURL) { entryURL := entryURL + "/"; }
      listing := listing.(entries := listing.entries
        + [DirectoryEntry(entry.name, entry.isDir, entry.info.value.size, entry.info.value.modTime, entryURL)]);
    }
    assert entries[..|entries|] == entries;
    var sorted := SortSlice(listing.entries);
    listing := listing.(entries := sorted);
  }

  // ---- What a listing shows -----------------------------------------------------------

  /** The entries whose Info call succeeds, in order. */
  function Describable(entries: seq<DirEntry>): seq<DirEntry> {
    if entries == [] then []
    else
      Describable(entries[..|entries| - 1])
      + if entries[|entries| - 1].info.Some? then [entries[|entries| - 1]] else []
  }

  predicate Describes(row: DirectoryEntry, e: DirEntry, relative: string, mount: string) {
    && e.info == Some(FileInfo(row.size, row.modTime)) && row.name == e.name && row.isDir == e.isDir
    && row.url == EntryURL(relative, mount, e.name, e.isDir)
  }

  /** Each row shows its own entry's name, kind, size, time and link; entries without Info get none. */
  lemma {:induction false} RowsDescribe(entries: seq<DirEntry>, relative: string, mount: string)
    ensures var rows, shown := Rows(entries, relative, mount), Describable(entries);
      |rows| == |shown| && forall i :: 0 <= i < |rows| ==> Describes(rows[i], shown[i], relative, mount)
  {
    hide EntryURL;
    if entries != [] { RowsDescribe(entries[..|entries| - 1], relative, mount); }
  }

  /** In a sorted listing no directory stands after a file, and within a kind no smaller name after a larger one. */
  lemma SortedMeans(rows: seq<DirectoryEntry>, i: nat, j: nat)
    requires RowsSorted(rows) && i < j < |rows|
    ensures rows[j].isDir ==> rows[i].isDir
    ensures rows[i].isDir == rows[j].isDir ==> !Less(LowerAll(rows[j].name), LowerAll(rows[i].name))
  {
    assert !RowBefore(rows[j], rows[i]);
  }

  // ---- Where the links lead --------------------------------------------------------

  /** A static path other than the root, with or without a trailing slash. */
  predicate StaticAt(mount: string, root: seq<string>) {
    root != [] && AllOrdinary(root) && (mount == RootedPath(root) || mount == RootedPath(root) + "/")
  }

  /** The URL of directory `dir` below the static path: with a slash, or without one for a subdirectory. */
  predicate ListingAt(url: string, root: seq<string>, dir: seq<string>) {
    AllOrdinary(dir) && (url == RootedPath(root + dir) + "/" || (dir != [] && url == RootedPath(root + dir)))
  }

  lemma TrimExactPrefix(prefix: string, rest: string)
    ensures TrimPrefix(prefix + rest, prefix) == rest
  {
  }

  lemma RelativeOfTop(mount: string, root: seq<string>, url: string)
    requires StaticAt(mount, root) && ListingAt(url, root, [])
    ensures RelativePath(url, mount) == "/"
  {
    assert root + [] == root;
    if mount == RootedPath(root) { TrimExactPrefix(mount, "/"); } else { TrimExactPrefix(mount, ""); }
  }

  lemma TrimOneSlash(clean: string, tail: string)
    requires clean != "" && !EndsInSlash(clean) && (tail == "" || tail == "/")
    ensures TrimSlash(clean + tail) == clean
  {
  }

  lemma UrlIsMountAndRest(mount: string, root: seq<string>, url: string, dir: seq<string>)
    returns (rest: string, tail: string)
    requires StaticAt(mount, root) && ListingAt(url, root, dir) && dir != []
    ensures tail == "" || tail == "/"
    ensures url == mount + rest && rest == PathOf(dir, mount == RootedPath(root)) + tail
  {
    tail := if url == RootedPath(root + dir) then "" else "/";
    rest := PathOf(dir, mount == RootedPath(root)) + tail;
    var names := Join(dir, '/');
    assert url == RootedPath(root) + "/" + names + tail by {
      hide AllOrdinary, Join;
      JoinAppend(root, dir, '/');
      assert RootedPath(root + dir) == RootedPath(root) + "/" + names;
    }
    assert mount + rest == RootedPath(root) + "/" + names + tail by {
      hide AllOrdinary, RootedPath, Join;
      Regroup(RootedPath(root), "/", names, tail);
    }
  }

  lemma Regroup(a: string, b: string, c: string, d: string)
    ensures a + b + c + d == a + (b + c + d) == (a + b) + (c + d)
  {
  }

  lemma RelativeBelow(mount: string, root: seq<string>, url: string, dir: seq<string>)
    requires StaticAt(mount, root) && ListingAt(url, root, dir) && dir != []
    ensures var clean := PathOf(dir, mount == RootedPath(root));
      && (RelativePath(url, mount) == clean || RelativePath(url, mount) == clean + "/")
      && TrimSlash(RelativePath(url, mount)) == clean
  {
    hide Join, TrimPrefix;
    var rest, tail := UrlIsMountAndRest(mount, root, url, dir);
    var clean := PathOf(dir, mount == RootedPath(root));
    JoinEndsInName(dir);
    TrimExactPrefix(mount, rest);
    TrimOneSlash(clean, tail);
    assert clean + "" == clean;
  }

  lemma NamesOfClean(path: string, segs: seq<string>, rooted: bool)
    requires AllOrdinary(segs)
    requires path == PathOf(segs, rooted) || path == PathOf(segs, rooted) + "/"
    ensures path != "" && NoDotDot(Split(path, '/')) && Own(Split(path, '/')) == segs
    ensures Rooted(path) == rooted
  {
    var clean := PathOf(segs, rooted);
    NamesOfPathOf(segs, rooted);
    if path != clean {
      assert path == clean + ['/'] + "";
      SplitAtSeparator(clean, "", '/');
      OwnAppend(Split(clean, '/'), [""]);
      assert Own([""]) == [] && segs + [] == segs;
    }
  }

  /** What the handler reads off any listing URL: the segments below the static path. */
  lemma RelativeNames(mount: string, root: seq<string>, url: string, dir: seq<string>)
    requires StaticAt(mount, root) && ListingAt(url, root, dir)
    ensures var relative := RelativePath(url, mount);
      relative != "" && NoDotDot(Split(relative, '/')) && Own(Split(relative, '/')) == dir
  {
    if dir == [] {
      RelativeOfTop(mount, root, url);
      OwnOfSlash();
    } else {
      RelativeBelow(mount, root, url, dir);
      NamesOfClean(RelativePath(url, mount), dir, mount == RootedPath(root));
    }
  }

  lemma NamesOfOne(name: string)
    requires Ordinary(name)
    ensures name != "" && NoDotDot(Split(name, '/')) && Own(Split(name, '/')) == [name]
  {
    SplitWhole(name, '/');
    OwnOfOrdinary([name]);
  }

  lemma StaticNames(mount: string, root: seq<string>)
    requires StaticAt(mount, root)
    ensures mount != "/" && NoDotDot(Split(mount, '/')) && Own(Split(mount, '/')) == root && Rooted(mount)
  {
    JoinEndsInName(root);
    NamesOfClean(mount, root, true);
  }

  /** Every row links to its entry: the static path, the directory's segments, then the name. */
  lemma EntryIsBelow(mount: string, root: seq<string>, url: string, dir: seq<string>, name: string, isDir: bool)
    requires StaticAt(mount, root) && ListingAt(url, root, dir) && Ordinary(name)
    ensures EntryURL(RelativePath(url, mount), mount, name, isDir)
         == RootedPath(root + dir + [name]) + if isDir then "/" else ""
  {
    hide PathJoin, Own, RelativePath, Ordinary, Join, Split, NoDotDot;
    var relative := RelativePath(url, mount);
    RelativeNames(mount, root, url, dir);
    NamesOfOne(name);
    JoinOfNames(relative, name);
    NamesOfPathOf(dir + [name], Rooted(relative));
    StaticNames(mount, root);
    JoinOfNames(mount, PathJoin(relative, name));
    assert root + (dir + [name]) == root + dir + [name];
    JoinEndsInName(root + dir + [name]);
  }

  lemma DirOfName(name: string)
    requires Ordinary(name)
    ensures Dir(name) == "."
  {
    NoSlashAbove(name);
  }

  lemma {:induction false} NoSlashAbove(name: string)
    requires '/' !in name
    ensures UpToSlash(name) == ""
  {
    if name != "" { NoSlashAbove(name[..|name| - 1]); }
  }

  /** path.Dir takes the last segment away, whether or not the path is rooted. */
  lemma DirTakesLast(dir: seq<string>, name: string, rooted: bool)
    requires AllOrdinary(dir) && Ordinary(name)
    ensures Dir(PathOf(dir + [name], rooted)) == PathOf(dir, rooted)
  {
    if rooted {
      DirOfRooted(dir, name);
    } else if dir == [] {
      assert [] + [name] == [name];
      DirOfName(name);
    } else {
      var above := Join(dir, '/');
      JoinAppend(dir, [name], '/');
      UpToSlashOfJoin(above, name);
      JoinEndsInName(dir);
      NamesOfPathOf(dir, false);
      NamesOfClean(above + ['/'], dir, false);
      CleanWithoutDotDot(above + ['/']);
    }
  }

  lemma MountedTop(mount: string, root: seq<string>)
    requires StaticAt(mount, root)
    ensures MountedAt(mount, "/") == RootedPath(root) + "/"
  {
    StaticNames(mount, root);
    JoinEndsInName(root);
  }

  lemma MountedBelow(mount: string, root: seq<string>, dir: seq<string>, rooted: bool)
    requires StaticAt(mount, root) && AllOrdinary(dir) && dir != []
    ensures MountedAt(mount, PathOf(dir, rooted)) == RootedPath(root + dir) + "/"
  {
    hide PathJoin, Own;
    StaticNames(mount, root);
    NotDot(dir, rooted);
    NamesOfPathOf(dir, rooted);
    JoinOfNames(mount, PathOf(dir, rooted));
    JoinEndsInName(root + dir);
  }

  /** The parent link of a subdirectory is the URL of the directory above it. */
  lemma ParentIsAbove(mount: string, root: seq<string>, url: string, dir: seq<string>, name: string)
    requires StaticAt(mount, root) && AllOrdinary(dir) && Ordinary(name) && ListingAt(url, root, dir + [name])
    ensures ParentURL(RelativePath(url, mount), mount) == RootedPath(root + dir) + "/"
  {
    var rooted := mount == RootedPath(root);
    RelativeBelow(mount, root, url, dir + [name]);
    DirTakesLast(dir, name, rooted);
    if dir == [] {
      assert root + [] == root;
      assert PathOf([], true) == "/";
      MountedTop(mount, root);
    } else {
      NotDot(dir, rooted);
      MountedBelow(mount, root, dir, rooted);
    }
  }

  lemma NotDot(dir: seq<string>, rooted: bool)
    requires AllOrdinary(dir) && dir != []
    ensures PathOf(dir, rooted) != "." && PathOf(dir, rooted) != "/"
  {
    JoinEndsInName(dir);
    NamesOfPathOf(dir, rooted);
    SplitWhole(".", '/');
    assert Own(["."]) == [];
    OwnOfSlash();
  }

  lemma SlashOnce(url: string, root: seq<string>, dir: seq<string>)
    requires AllOrdinary(root) && root != [] && ListingAt(url, root, dir)
    ensures WithSlash(url) == RootedPath(root + dir) + "/"
  {
    JoinEndsInName(root + dir);
  }

  /** Down a row and up again ends at the listing it came from, spelled with its slash. */
  lemma ParentUndoesEntry(mount: string, root: seq<string>, url: string, dir: seq<string>, name: string)
    requires StaticAt(mount, root) && ListingAt(url, root, dir) && Ordinary(name)
    ensures var below := EntryURL(RelativePath(url, mount), mount, name, true);
      var back := ParentURL(RelativePath(below, mount), mount);
      back == WithSlash(url) && (back == url <==> EndsInSlash(url))
  {
    hide EntryURL, ParentURL, RelativePath, Join, Ordinary;
    EntryIsBelow(mount, root, url, dir, name, true);
    assert root + (dir + [name]) == root + dir + [name];
    ParentIsAbove(mount, root, RootedPath(root + dir + [name]) + "/", dir, name);
    SlashOnce(url, root, dir);
  }

  /** Up and down the row of the same name ends at the subdirectory again. */
  lemma EntryUndoesParent(mount: string, root: seq<string>, url: string, dir: seq<string>, name: string)
    requires StaticAt(mount, root) && AllOrdinary(dir) && Ordinary(name) && ListingAt(url, root, dir + [name])
    ensures var above := ParentURL(RelativePath(url, mount), mount);
      EntryURL(RelativePath(above, mount), mount, name, true) == WithSlash(url)
  {
    hide EntryURL, ParentURL, RelativePath, Join, WithSlash, Ordinary;
    ParentIsAbove(mount, root, url, dir, name);
    EntryIsBelow(mount, root, RootedPath(root + dir) + "/", dir, name, true);
    assert root + (dir + [name]) == root + dir + [name];
    SlashOnce(url, root, dir + [name]);
  }

  // ---- The static path "/" -------------------------------------------------------------

  /** Resolving a link against the page it stands on (section 5.2 of RFC 3986, no dot segments). */
  function Follow(page: string, link: string): string {
    if Rooted(link) then link else UpToSlash(page) + link
  }

  function ListingURL(dir: seq<string>): string { WithSlash(RootedPath(dir)) }

  /** A page of directory `dir` under static path "/": with the last slash, or without it below the top. */
  predicate RootPage(page: string, dir: seq<string>) {
    AllOrdinary(dir) && (page == ListingURL(dir) || (dir != [] && page == RootedPath(dir)))
  }

  lemma ListingURLBelow(dir: seq<string>)
    requires AllOrdinary(dir) && dir != []
    ensures ListingURL(dir) == RootedPath(dir) + "/" && !EndsInSlash(RootedPath(dir)) && |RootedPath(dir)| > 1
  {
    JoinEndsInName(dir);
  }

  lemma RootRelative(page: string, dir: seq<string>)
    requires RootPage(page, dir)
    ensures var relative := RelativePath(page, "/");
      if dir == [] then relative == "/"
      else (relative == Join(dir, '/') || relative == Join(dir, '/') + "/") && TrimSlash(relative) == Join(dir, '/')
  {
    hide Join, Ordinary;
    if dir == [] {
      assert RootedPath(dir) == "/" by { JoinOfNone(); }
      assert page == "/" + "";
      TrimExactPrefix("/", "");
    } else {
      ListingURLBelow(dir);
      JoinEndsInName(dir);
      var names := Join(dir, '/');
      var tail := if page == RootedPath(dir) then "" else "/";
      assert page == "/" + (names + tail);
      assert names + "" == names;
      TrimExactPrefix("/", names + tail);
      TrimOneSlash(names, tail);
    }
  }

  /** Below static path "/" only the top listing has rooted links; deeper ones come out relative. */
  lemma RootEntryLink(page: string, dir: seq<string>, name: string, isDir: bool)
    requires RootPage(page, dir) && Ordinary(name)
    ensures EntryURL(RelativePath(page, "/"), "/", name, isDir)
         == PathOf(dir + [name], dir == []) + if isDir then "/" else ""
    ensures Rooted(EntryURL(RelativePath(page, "/"), "/", name, isDir)) <==> dir == []
  {
    hide PathJoin, Own, RelativePath, TrimSlash, ListingURL;
    RootRelative(page, dir);
    var relative := RelativePath(page, "/");
    if dir == [] {
      OwnOfSlash();
    } else {
      NamesOfClean(relative, dir, false);
    }
    NamesOfOne(name);
    JoinOfNames(relative, name);
    JoinEndsInName(dir + [name]);
    NamesOfPathOf(dir + [name], dir == []);
  }

  /** A link without its first slash resolves to the rooted one exactly on a page directly below the root. */
  lemma FollowRelative(page: string, link: string)
    requires Rooted(page) && link != "" && !Rooted(link)
    ensures Follow(page, link) == "/" + link <==> |UpToSlash(page)| == 1
  {
    RootedAbove(page);
    assert |Follow(page, link)| == |UpToSlash(page)| + |link|;
  }

  lemma {:induction false} RootedAbove(page: string)
    requires Rooted(page)
    ensures Rooted(UpToSlash(page))
  {
    if page[|page| - 1] != '/' { RootedAbove(page[..|page| - 1]); }
  }

  /** Which pages stand directly below the root. */
  lemma AboveRootPage(page: string, dir: seq<string>)
    requires RootPage(page, dir)
    ensures Rooted(page) && (|UpToSlash(page)| == 1 <==> dir == [] || (|dir| == 1 && !EndsInSlash(page)))
  {
    hide Ordinary;
    if dir == [] {
      assert RootedPath(dir) == "/";
    } else {
      ListingURLBelow(dir);
      if !EndsInSlash(page) { AboveUnslashed(dir[..|dir| - 1], dir[|dir| - 1], dir); }
    }
  }

  lemma AboveUnslashed(above: seq<string>, last: string, dir: seq<string>)
    requires dir == above + [last] && AllOrdinary(dir)
    ensures |UpToSlash(RootedPath(dir))| == 1 <==> above == []
  {
    assert Ordinary(dir[|above|]);
    if above == [] {
      assert dir == [last];
      assert RootedPath(dir) == "" + ['/'] + last;
      UpToSlashOfJoin("", last);
    } else {
      hide Join;
      JoinAppend(above, [last], '/');
      assert Join([last], '/') == last by { JoinOfOne(last); }
      assert RootedPath(dir) == RootedPath(above) + ['/'] + last;
      UpToSlashOfJoin(RootedPath(above), last);
    }
  }

  lemma JoinOfOne(name: string)
    ensures Join([name], '/') == name
  {
  }

  /**
    With static path "/", a row's link reaches its entry exactly from the top listing, and
    from a first-level page spelled without its last slash.
   */
  lemma RootEntryLinksWork(page: string, dir: seq<string>, name: string, isDir: bool)
    requires RootPage(page, dir) && Ordinary(name)
    ensures var entry := RootedPath(dir + [name]) + if isDir then "/" else "";
      Follow(page, EntryURL(RelativePath(page, "/"), "/", name, isDir)) == entry
      <==> dir == [] || (|dir| == 1 && !EndsInSlash(page))
  {
    hide EntryURL, RelativePath, Join, Ordinary, ListingURL;
    RootEntryLink(page, dir, name, isDir);
    AboveRootPage(page, dir);
    var tail := if isDir then "/" else "";
    if dir != [] {
      JoinEndsInName(dir + [name]);
      var link := Join(dir + [name], '/') + tail;
      FollowRelative(page, link);
      assert RootedPath(dir + [name]) + tail == "/" + link;
    }
  }

  /** The parent link is rooted on a first-level page, and relative on every deeper one. */
  lemma RootParentLink(page: string, above: seq<string>, last: string)
    requires RootPage(page, above + [last])
    ensures ParentURL(RelativePath(page, "/"), "/") == if above == [] then "/" else Join(above, '/') + "/"
  {
    hide RelativePath, Own, Dir, Join;
    var dir := above + [last];
    assert Ordinary(dir[|above|]);
    assert forall i :: 0 <= i < |above| ==> above[i] == dir[i];
    RootRelative(page, dir);
    DirTakesLast(above, last, false);
    if above != [] {
      NotDot(above, false);
      JoinEndsInName(above);
    }
  }

  /** With static path "/", the parent link reaches the directory above exactly from the first level, in either spelling. */
  lemma RootParentLinksWork(page: string, above: seq<string>, last: string)
    requires RootPage(page, above + [last])
    ensures Follow(page, ParentURL(RelativePath(page, "/"), "/")) == ListingURL(above) <==> above == []
  {
    hide ParentURL, RelativePath, Join, Ordinary;
    var dir := above + [last];
    RootParentLink(page, above, last);
    if above == [] {
      assert RootedPath(above) == "/" by { JoinOfNone(); }
    } else {
      assert AllOrdinary(above) by { assert forall i :: 0 <= i < |above| ==> above[i] == dir[i]; }
      AboveRootPage(page, dir);
      ListingURLBelow(above);
      JoinEndsInName(above);
      var link := Join(above, '/') + "/";
      FollowRelative(page, link);
      assert ListingURL(above) == "/" + link;
    }
  }

  lemma JoinOfNone()
    ensures Join([], '/') == ""
  {
  }
}
