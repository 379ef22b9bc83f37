/** The string functions of Go's standard library the model needs, with the laws used later. */
module Text {

  // ---- strings.Split with a one-character separator, strings.Join -------------

  function Split(s: string, sep: char): (parts: seq<string>)
    ensures parts != []
  {
    if s == "" then [""]
    else
      var rest := Split(s[1..], sep);
      if s[0] == sep then [""] + rest else [[s[0]] + rest[0]] + rest[1..]
  }

  function Join(parts: seq<string>, sep: char): string {
    if parts == [] then ""
    else if |parts| == 1 then parts[0]
    else parts[0] + [sep] + Join(parts[1..], sep)
  }

  predicate Without(parts: seq<string>, sep: char) {
    forall i :: 0 <= i < |parts| ==> sep !in parts[i]
  }

  /** A separator between two texts splits exactly there. */
  lemma {:induction false} SplitAtSeparator(a: string, b: string, sep: char)
    ensures Split(a + [sep] + b, sep) == Split(a, sep) + Split(b, sep)
  {
    var whole := a + [sep] + b;
    if a == "" {
      assert whole[1..] == b;
    } else {
      assert whole[1..] == a[1..] + [sep] + b;
      SplitAtSeparator(a[1..], b, sep);
      SplitStep(a, sep, Split(b, sep));
    }
  }

  lemma SplitStep(a: string, sep: char, tail: seq<string>)
    requires a != ""
    ensures var whole := Split(a[1..], sep) + tail;
            Split(a, sep) + tail == if a[0] == sep then [""] + whole else [[a[0]] + whole[0]] + whole[1..]
  {
    var rest := Split(a[1..], sep);
    assert (rest + tail)[1..] == rest[1..] + tail;
  }

  lemma {:induction false} SplitWhole(s: string, sep: char)
    requires sep !in s
    ensures Split(s, sep) == [s]
  {
    if s != "" {
      SplitWhole(s[1..], sep);
      assert [s[0]] + s[1..] == s;
    }
  }

  lemma {:induction false} SplitHasNoSeparator(s: string, sep: char)
    ensures Without(Split(s, sep), sep)
  {
    if s != "" { SplitHasNoSeparator(s[1..], sep); }
  }

  lemma {:induction false} SplitOfJoin(parts: seq<string>, sep: char)
    requires parts != [] && Without(parts, sep)
    ensures Split(Join(parts, sep), sep) == parts
  {
    SplitWhole(parts[0], sep);
    if |parts| > 1 {
      SplitOfJoin(parts[1..], sep);
      SplitAtSeparator(parts[0], Join(parts[1..], sep), sep);
      assert [parts[0]] + parts[1..] == parts;
    }
  }

  lemma {:induction false} JoinAppend(a: seq<string>, b: seq<string>, sep: char)
    requires a != [] && b != []
    ensures Join(a + b, sep) == Join(a, sep) + [sep] + Join(b, sep)
  {
    if |a| == 1 {
      assert (a + b)[1..] == b;
    } else {
      assert (a + b)[1..] == a[1..] + b;
      JoinAppend(a[1..], b, sep);
    }
  }

  lemma {:induction false} JoinOfSplit(s: string, sep: char)
    ensures Join(Split(s, sep), sep) == s
  {
    if s != "" {
      JoinOfSplit(s[1..], sep);
      var rest := Split(s[1..], sep);
      assert [s[0]] + s[1..] == s;
      if s[0] == sep {
        assert ([""] + rest)[1..] == rest;
      } else {
        assert ([[s[0]] + rest[0]] + rest[1..])[1..] == rest[1..];
      }
    }
  }

  // ---- strings.Cut (the part before), strings.TrimSpace -----------------------

  function Before(s: string, sep: char): string {
    if s == "" || s[0] == sep then "" else [s[0]] + Before(s[1..], sep)
  }

  /** unicode.IsSpace */
  predicate IsSpace(c: char) {
    c in {'\t', '\n', '\U{000B}', '\U{000C}', '\r', ' ', '\U{0085}', '\U{00A0}', '\U{1680}',
          '\U{2028}', '\U{2029}', '\U{202F}', '\U{205F}', '\U{3000}'}
    || '\U{2000}' <= c <= '\U{200A}'
  }

  predicate Blank(s: string) { forall i :: 0 <= i < |s| ==> IsSpace(s[i]) }

  function TrimLeft(s: string): string {
    if s != "" && IsSpace(s[0]) then TrimLeft(s[1..]) else s
  }

  function TrimRight(s: string): string {
    if s != "" && IsSpace(s[|s| - 1]) then TrimRight(s[..|s| - 1]) else s
  }

  function TrimSpace(s: string): string { TrimRight(TrimLeft(s)) }

  lemma {:induction false} TrimLeftOfPadded(pad: string, s: string)
    requires Blank(pad)
    ensures TrimLeft(pad + s) == TrimLeft(s)
  {
    if pad == "" {
      assert pad + s == s;
    } else {
      assert (pad + s)[1..] == pad[1..] + s;
      TrimLeftOfPadded(pad[1..], s);
    }
  }

  lemma {:induction false} TrimRightOfPadded(s: string, pad: string)
    requires Blank(pad)
    ensures TrimRight(s + pad) == TrimRight(s)
  {
    if pad == "" {
      assert s + pad == s;
    } else {
      assert (s + pad)[..|s + pad| - 1] == s + pad[..|pad| - 1];
      TrimRightOfPadded(s, pad[..|pad| - 1]);
    }
  }

  lemma {:induction false} TrimLeftThenPad(s: string, pad: string)
    requires Blank(pad)
    ensures TrimLeft(s + pad) == TrimLeft(s) + pad || (TrimLeft(s) == "" && TrimLeft(s + pad) == "")
  {
    if s == "" {
      TrimLeftOfPadded(pad, "");
      assert s + pad == pad + "";
    } else if IsSpace(s[0]) {
      assert (s + pad)[1..] == s[1..] + pad;
      TrimLeftThenPad(s[1..], pad);
    }
  }

  /** Blanks around a text do not survive trimming. */
  lemma TrimOfPadded(left: string, s: string, right: string)
    requires Blank(left) && Blank(right)
    ensures TrimSpace(left + s + right) == TrimSpace(s)
  {
    assert left + s + right == left + (s + right);
    TrimLeftOfPadded(left, s + right);
    TrimLeftThenPad(s, right);
    TrimRightOfPadded(TrimLeft(s), right);
  }

  // ---- Letter case -------------------------------------------------------------

  /** ASCII lower case. */
  function Lower(c: char): char {
    if 'A' <= c <= 'Z' then ((c as int) + 32) as char else c
  }

  function Upper(c: char): char {
    if 'a' <= c <= 'z' then ((c as int) - 32) as char else c
  }

  /**
    The character strings.EqualFold compares when one side is ASCII: the long s and the
    Kelvin sign are the only other characters that fold to an ASCII letter.
   */
  function Fold(c: char): char {
    if c == '\U{017F}' then 's' else if c == '\U{212A}' then 'k' else Lower(c)
  }

  function MapChars(f: char -> char, s: string): (t: string)
    ensures |t| == |s| && forall i :: 0 <= i < |s| ==> t[i] == f(s[i])
  {
    if s == "" then "" else [f(s[0])] + MapChars(f, s[1..])
  }

  function LowerAll(s: string): string { MapChars(Lower, s) }

  function FoldAll(s: string): string { MapChars(Fold, s) }

  predicate EqualFold(a: string, b: string) { FoldAll(a) == FoldAll(b) }

  // ---- http.CanonicalHeaderKey ---------------------------------------------------

  /** A byte allowed in a header field name (section 5.6.2 of RFC 9110). */
  predicate TokenChar(c: char) {
    'a' <= c <= 'z' || 'A' <= c <= 'Z' || '0' <= c <= '9'
    || c in {'!', '#', '$', '%', '&', '\'', '*', '+', '-', '.', '^', '_', '`', '|', '~'}
  }

  predicate Token(s: string) { forall i :: 0 <= i < |s| ==> TokenChar(s[i]) }

  function CaseAt(s: string, i: nat, upper: bool): char
    requires i < |s|
  {
    if (if i == 0 then upper else s[i - 1] == '-') then Upper(s[i]) else Lower(s[i])
  }

  /** Upper case at the start and after a hyphen, lower case elsewhere. */
  function Capitalise(s: string, upper: bool): (t: string)
    ensures |t| == |s|
    ensures forall i :: 0 <= i < |s| ==> t[i] == CaseAt(s, i, upper)
  {
    if s == "" then ""
    else [if upper then Upper(s[0]) else Lower(s[0])] + Capitalise(s[1..], s[0] == '-')
  }

  /** A name with a byte outside the token alphabet is returned unchanged. */
  function CanonicalKey(s: string): string {
    if Token(s) then Capitalise(s, true) else s
  }

  lemma CaseOfChar(c: char)
    ensures TokenChar(c) ==> TokenChar(Upper(c)) && TokenChar(Lower(c))
    ensures (Upper(c) == '-') == (c == '-') == (Lower(c) == '-')
    ensures Upper(Upper(c)) == Upper(c) && Lower(Lower(c)) == Lower(c)
  {
  }

  /** Canonical names are fixed points. */
  lemma CanonicalIdempotent(s: string)
    ensures CanonicalKey(CanonicalKey(s)) == CanonicalKey(s)
  {
    if Token(s) {
      var t := Capitalise(s, true);
      forall i | 0 <= i < |t| ensures TokenChar(t[i]) {
        assert TokenChar(s[i]) && t[i] == CaseAt(s, i, true);
        CaseOfChar(s[i]);
      }
      var u := Capitalise(t, true);
      forall i | 0 <= i < |t| ensures u[i] == t[i] {
        assert t[i] == CaseAt(s, i, true) && u[i] == CaseAt(t, i, true);
        CaseOfChar(s[i]);
        if i > 0 {
          assert t[i - 1] == CaseAt(s, i - 1, true);
          CaseOfChar(s[i - 1]);
        }
      }
      assert u == t;
    }
  }

  lemma TokenIgnoresCase(a: string, b: string)
    requires LowerAll(a) == LowerAll(b)
    ensures Token(a) == Token(b)
  {
    assert |a| == |LowerAll(a)| && |b| == |LowerAll(b)|;
    forall i | 0 <= i < |a| ensures TokenChar(a[i]) == TokenChar(b[i]) {
      assert Lower(a[i]) == LowerAll(a)[i] == Lower(b[i]);
    }
  }

  /** Two spellings of one name have one canonical key exactly when they are equal or a valid token. */
  lemma CanonicalIgnoresCase(a: string, b: string)
    requires LowerAll(a) == LowerAll(b)
    ensures CanonicalKey(a) == CanonicalKey(b) <==> a == b || Token(a)
  {
    TokenIgnoresCase(a, b);
    if Token(a) { CapitaliseIgnoresCase(a, b, true); }
  }

  lemma {:induction false} CapitaliseIgnoresCase(a: string, b: string, upper: bool)
    requires LowerAll(a) == LowerAll(b)
    ensures Capitalise(a, upper) == Capitalise(b, upper)
  {
    assert |a| == |LowerAll(a)| && |b| == |LowerAll(b)|;
    if a != "" {
      assert Lower(a[0]) == LowerAll(a)[0] == Lower(b[0]);
      assert LowerAll(a)[1..] == LowerAll(a[1..]) && LowerAll(b)[1..] == LowerAll(b[1..]);
      CapitaliseIgnoresCase(a[1..], b[1..], a[0] == '-');
    }
  }

  /** Folding agrees with ASCII case when neither letter with a non-ASCII partner occurs. */
  lemma FoldIsLower(a: string, b: string)
    requires EqualFold(a, b) && Token(b) && forall i :: 0 <= i < |b| ==> b[i] !in {'s', 'S', 'k', 'K'}
    ensures LowerAll(a) == LowerAll(b)
  {
    assert |a| == |FoldAll(a)| && |b| == |FoldAll(b)|;
    forall i | 0 <= i < |a| ensures Lower(a[i]) == Lower(b[i]) {
      assert Fold(a[i]) == FoldAll(a)[i] == Fold(b[i]);
    }
  }

  // ---- What these functions compute, read off the texts -----------------------------

  const LOWER_LETTERS := "abcdefghijklmnopqrstuvwxyz"
  const UPPER_LETTERS := "ABCDEFGHIJKLMNOPQRSTUVWXYZ"

  /** Case changes each letter to its partner in the other alphabet and nothing else. */
  lemma LettersMatch(c: char)
    ensures forall i :: 0 <= i < 26 ==>
      Lower(UPPER_LETTERS[i]) == LOWER_LETTERS[i] && Upper(LOWER_LETTERS[i]) == UPPER_LETTERS[i]
    ensures c !in UPPER_LETTERS ==> Lower(c) == c
    ensures c !in LOWER_LETTERS ==> Upper(c) == c
  {
    if 'A' <= c <= 'Z' { assert UPPER_LETTERS[c as int - 'A' as int] == c; }
    if 'a' <= c <= 'z' { assert LOWER_LETTERS[c as int - 'a' as int] == c; }
  }

  /** Folding is lower case, except for the long s and the Kelvin sign. */
  lemma FoldExactly(c: char)
    ensures c as int == 383 ==> Fold(c) == 's'
    ensures c as int == 8490 ==> Fold(c) == 'k'
    ensures c as int != 383 && c as int != 8490 ==> Fold(c) == Lower(c)
  {
  }

  /** The blanks of Unicode, by code. */
  lemma IsSpaceExactly(c: char)
    ensures var n := c as int;
      IsSpace(c) <==>
        || 9 <= n <= 13 || n == 32 || n == 133 || n == 160 || n == 5760 || 8192 <= n <= 8202
        || n == 8232 || n == 8233 || n == 8239 || n == 8287 || n == 12288
  {
  }

  /** The token alphabet of section 5.6.2 of RFC 9110, by code. */
  lemma TokenCharExactly(c: char)
    ensures var n := c as int;
      TokenChar(c) <==>
        || 48 <= n <= 57 || 65 <= n <= 90 || 97 <= n <= 122
        || n == 33 || 35 <= n <= 39 || n == 42 || n == 43 || n == 45 || n == 46 || 94 <= n <= 96 || n == 124 || n == 126
  {
  }

  /** The part before the first separator, or everything. */
  lemma {:induction false} BeforeExactly(s: string, sep: char)
    ensures sep !in Before(s, sep)
    ensures Before(s, sep) <= s && (|Before(s, sep)| < |s| ==> s[|Before(s, sep)|] == sep)
  {
    if s != "" && s[0] != sep {
      BeforeExactly(s[1..], sep);
      assert s == [s[0]] + s[1..];
    }
  }

  lemma {:induction false} TrimLeftExactly(s: string) returns (l: string)
    ensures Blank(l) && s == l + TrimLeft(s) && (TrimLeft(s) != "" ==> !IsSpace(TrimLeft(s)[0]))
  {
    l := "";
    if s != "" && IsSpace(s[0]) {
      var more := TrimLeftExactly(s[1..]);
      l := [s[0]] + more;
      assert s == [s[0]] + s[1..];
    }
  }

  lemma {:induction false} TrimRightExactly(s: string) returns (r: string)
    ensures Blank(r) && s == TrimRight(s) + r
    ensures TrimRight(s) != "" ==> !IsSpace(TrimRight(s)[|TrimRight(s)| - 1]) && TrimRight(s)[0] == s[0]
  {
    r := "";
    if s != "" && IsSpace(s[|s| - 1]) {
      var more := TrimRightExactly(s[..|s| - 1]);
      r := more + [s[|s| - 1]];
      assert s == s[..|s| - 1] + [s[|s| - 1]];
    }
  }

  /** What is left when the blanks at both ends are gone. */
  lemma TrimExactly(s: string) returns (l: string, r: string)
    ensures Blank(l) && Blank(r) && s == l + TrimSpace(s) + r
    ensures var t := TrimSpace(s); t != "" ==> !IsSpace(t[0]) && !IsSpace(t[|t| - 1])
  {
    l := TrimLeftExactly(s);
    r := TrimRightExactly(TrimLeft(s));
    assert l + TrimSpace(s) + r == l + (TrimSpace(s) + r);
  }

  /** A text without blanks at its ends is not touched. */
  lemma TrimOfTrimmed(s: string)
    requires s != "" ==> !IsSpace(s[0]) && !IsSpace(s[|s| - 1])
    ensures TrimSpace(s) == s
  {
  }

  /** A name whose letters already stand in canonical case is its own key. */
  lemma CanonicalIsItself(name: string)
    requires Token(name) && forall i :: 0 <= i < |name| ==> CaseAt(name, i, true) == name[i]
    ensures CanonicalKey(name) == name
  {
    assert Capitalise(name, true) == name;
  }

  /** A name in that case is the key of every spelling of it. */
  lemma KeyOfSpelling(name: string, spelling: string)
    requires Token(name) && CanonicalKey(name) == name && LowerAll(spelling) == LowerAll(name)
    ensures CanonicalKey(spelling) == name
  {
    CanonicalIgnoresCase(name, spelling);
  }

  // ---- Order of strings ------------------------------------------------------------

  predicate Less(a: string, b: string) {
    b != "" && (a == "" || a[0] < b[0] || (a[0] == b[0] && Less(a[1..], b[1..])))
  }

  /** `a` comes first where the two differ, or ends first. */
  predicate FirstAt(a: string, b: string, k: nat) {
    k <= |a| && k < |b| && a[..k] == b[..k] && (k == |a| || a[k] < b[k])
  }

  lemma SameStart(a: string, b: string, k: nat)
    requires k <= |a| && k <= |b|
    ensures k > 0 && a[..k] == b[..k] ==> a[0] == b[0]
  {
    if k > 0 { assert a[..k][0] == a[0] && b[..k][0] == b[0]; }
  }

  lemma {:induction false} LessExactly(a: string, b: string)
    ensures Less(a, b) <==> exists k: nat :: FirstAt(a, b, k)
  {
    if a == "" || b == "" || a[0] != b[0] {
      if k: nat :| FirstAt(a, b, k) {
        SameStart(a, b, k);
      }
      if Less(a, b) { assert FirstAt(a, b, 0); }
    } else {
      LessExactly(a[1..], b[1..]);
      if k: nat :| FirstAt(a[1..], b[1..], k) {
        assert a[..k + 1] == [a[0]] + a[1..][..k] && b[..k + 1] == [b[0]] + b[1..][..k];
        assert FirstAt(a, b, k + 1);
      }
      if k: nat :| FirstAt(a, b, k) {
        assert k > 0;
        assert a[1..][..k - 1] == a[..k][1..] && b[1..][..k - 1] == b[..k][1..];
        assert FirstAt(a[1..], b[1..], k - 1);
      }
    }
  }

  lemma {:induction false} LessTransitive(a: string, b: string, c: string)
    requires Less(a, b) && Less(b, c)
    ensures Less(a, c)
  {
    if a != "" && a[0] == b[0] && b[0] == c[0] { LessTransitive(a[1..], b[1..], c[1..]); }
  }

  lemma {:induction false} LessTotal(a: string, b: string)
    ensures a == b || Less(a, b) || Less(b, a)
  {
    if a != "" && b != "" && a[0] == b[0] {
      LessTotal(a[1..], b[1..]);
      if a[1..] == b[1..] { assert a == [a[0]] + a[1..] == b; }
    }
  }

  lemma {:induction false} LessIrreflexive(a: string)
    ensures !Less(a, a)
  {
    if a != "" { LessIrreflexive(a[1..]); }
  }

  // ---- Mapping characters commutes with splitting and trimming -----------------

  ghost predicate Keeps(f: char -> char, sep: char) { forall c :: f(c) == sep <==> c == sep }

  ghost predicate KeepsBlanks(f: char -> char) { forall c :: IsSpace(f(c)) == IsSpace(c) }

  lemma MapOfCons(f: char -> char, c: char, s: string)
    ensures MapChars(f, [c] + s) == [f(c)] + MapChars(f, s)
  {
    assert ([c] + s)[1..] == s;
  }

  ghost predicate MapsEach(f: char -> char, p: seq<string>, q: seq<string>) {
    |p| == |q| && forall i :: 0 <= i < |p| ==> q[i] == MapChars(f, p[i])
  }

  lemma {:induction false} SplitOfMap(f: char -> char, s: string, sep: char)
    requires Keeps(f, sep)
    ensures MapsEach(f, Split(s, sep), Split(MapChars(f, s), sep))
  {
    if s != "" {
      hide Split, MapChars;
      SplitOfMap(f, s[1..], sep);
      SplitOfCons(s[0], s[1..], sep);
      SplitOfCons(f(s[0]), MapChars(f, s[1..]), sep);
      assert s == [s[0]] + s[1..];
      MapOfCons(f, s[0], s[1..]);
      MapOfCons(f, s[0], Split(s[1..], sep)[0]);
    }
  }

  lemma SplitOfCons(c: char, s: string, sep: char)
    ensures Split([c] + s, sep) ==
      var rest := Split(s, sep); if c == sep then [""] + rest else [[c] + rest[0]] + rest[1..]
  {
    assert ([c] + s)[1..] == s;
  }

  lemma {:induction false} BeforeOfMap(f: char -> char, s: string, sep: char)
    requires Keeps(f, sep)
    ensures Before(MapChars(f, s), sep) == MapChars(f, Before(s, sep))
  {
    if s != "" {
      BeforeOfMap(f, s[1..], sep);
      assert MapChars(f, s)[1..] == MapChars(f, s[1..]);
      assert f(s[0]) == sep <==> s[0] == sep;
      if s[0] != sep { assert ([s[0]] + Before(s[1..], sep))[1..] == Before(s[1..], sep); }
    }
  }

  lemma {:induction false} TrimLeftOfMap(f: char -> char, s: string)
    requires KeepsBlanks(f)
    ensures TrimLeft(MapChars(f, s)) == MapChars(f, TrimLeft(s))
  {
    if s != "" {
      TrimLeftOfMap(f, s[1..]);
      assert MapChars(f, s)[1..] == MapChars(f, s[1..]);
      assert IsSpace(f(s[0])) == IsSpace(s[0]);
    }
  }

  lemma {:induction false} TrimRightOfMap(f: char -> char, s: string)
    requires KeepsBlanks(f)
    ensures TrimRight(MapChars(f, s)) == MapChars(f, TrimRight(s))
  {
    if s != "" {
      var n := |s| - 1;
      TrimRightOfMap(f, s[..n]);
      assert MapChars(f, s)[..n] == MapChars(f, s[..n]);
      assert IsSpace(f(s[n])) == IsSpace(s[n]);
    }
  }

  lemma TrimOfMap(f: char -> char, s: string)
    requires KeepsBlanks(f)
    ensures TrimSpace(MapChars(f, s)) == MapChars(f, TrimSpace(s))
  {
    TrimLeftOfMap(f, s);
    TrimRightOfMap(f, TrimLeft(s));
  }

  lemma CaseMapsKeepText()
    ensures KeepsBlanks(Lower) && Keeps(Lower, ',') && KeepsBlanks(Fold) && Keeps(Fold, ',') && Keeps(Fold, '=')
  {
  }
}
