/** Request targets of the HTTP client: percent-decoding, the traversal check and the URL built. */
module Targets {
  import opened Options
  import opened Text
  import opened Paths

  // ---- url.PathUnescape -----------------------------------------------------------

  predicate Hex(c: char) { '0' <= c <= '9' || 'a' <= c <= 'f' || 'A' <= c <= 'F' }

  function HexValue(c: char): nat
    requires Hex(c)
    ensures HexValue(c) < 16
  {
    if '0' <= c <= '9' then (c as int) - ('0' as int)
    else if 'a' <= c <= 'f' then (c as int) - ('a' as int) + 10
    else (c as int) - ('A' as int) + 10
  }

  predicate EscapeAtFront(s: string) { |s| >= 3 && s[0] == '%' && Hex(s[1]) && Hex(s[2]) }

  function ByteAtFront(s: string): char
    requires EscapeAtFront(s)
  {
    (16 * HexValue(s[1]) + HexValue(s[2])) as char
  }

  function Prepend(c: char, rest: Option<string>): Option<string> {
    if rest.None? then None else Some([c] + rest.value)
  }

  /** One percent-decoding (section 2.1 of RFC 3986); a broken escape is an error. Characters stand for bytes. */
  function Unescape(s: string): Option<string> {
    if s == "" then Some("")
    else if EscapeAtFront(s) then Prepend(ByteAtFront(s), Unescape(s[3..]))
    else if s[0] == '%' then None
    else Prepend(s[0], Unescape(s[1..]))
  }

  /** The text after `n` decodings. */
  function Decode(s: string, n: nat): Option<string> {
    if n == 0 then Some(s)
    else
      var before := Decode(s, n - 1);
      if before.None? then None else Unescape(before.value)
  }

  predicate HasDotDot(path: string) { ".." in Split(path, '/') }

  predicate Contains(s: string, part: string) { HasPrefix(s, part) || (s != "" && Contains(s[1..], part)) }

  // ---- What the check accepts --------------------------------------------------------

  /** Each of the first `n` decodings exists and has no dot-dot segment. */
  predicate SafeTo(s: string, n: nat) {
    forall k :: 1 <= k <= n ==> Decode(s, k).Some? && !HasDotDot(Decode(s, k).value)
  }

  /** The `n`-th decoding changed nothing. */
  predicate Settles(s: string, n: nat) { n > 0 && Decode(s, n) == Decode(s, n - 1) }

  predicate Accepts(s: string) {
    || (exists n :: 1 <= n <= 3 && SafeTo(s, n) && Settles(s, n))
    || (SafeTo(s, 3) && !Contains(LowerAll(Decode(s, 3).value), "%2e"))
  }

  /** The loops of hasTraversalSegment. */
  method HasTraversalSegment(escapedPath: string) returns (bad: bool)
    ensures bad <==> !Accepts(escapedPath)
  {
    var decoded := escapedPath;
    for round := 0 to 3
      invariant Decode(escapedPath, round) == Some(decoded)
      invariant SafeTo(escapedPath, round)
      invariant forall n :: 1 <= n <= round ==> !Settles(escapedPath, n)
    {
      var next := Unescape(decoded);
      assert Decode(escapedPath, round + 1) == next;
      if next.None? {
        NotSafeFrom(escapedPath, round + 1);
        return true;
      }
      var segments := Split(next.value, '/');
      for i := 0 to |segments|
        invariant ".." !in segments[..i]
      {
        if segments[i] == ".." {
          NotSafeFrom(escapedPath, round + 1);
          return true;
        }
      }
      assert segments[..|segments|] == segments;
      if next.value == decoded {
        assert SafeTo(escapedPath, round + 1) && Settles(escapedPath, round + 1);
        return false;
      }
      decoded := next.value;
    }
    return Contains(LowerAll(decoded), "%2e");
  }

  lemma NotSafeFrom(s: string, bad: nat)
    requires 1 <= bad <= 3
    requires Decode(s, bad).None? || HasDotDot(Decode(s, bad).value)
    requires forall n :: 1 <= n < bad ==> !Settles(s, n)
    ensures !Accepts(s)
  {
    assert !SafeTo(s, 3);
    forall n | 1 <= n <= 3 ensures !(SafeTo(s, n) && Settles(s, n)) {
      if n >= bad { assert !SafeTo(s, n); }
    }
  }

  // ---- Laws of decoding ----------------------------------------------------------------

  /** Two decoded texts around a slash. */
  function Glue(a: Option<string>, b: Option<string>): Option<string> {
    if a.None? || b.None? then None else Some(a.value + ['/'] + b.value)
  }

  lemma PrependToGlue(c: char, a: Option<string>, b: Option<string>)
    ensures Prepend(c, Glue(a, b)) == Glue(Prepend(c, a), b)
  {
    if a.Some? && b.Some? {
      assert [c] + (a.value + ['/'] + b.value) == [c] + a.value + ['/'] + b.value;
    }
  }

  lemma FrontAroundSlash(a: string, b: string)
    requires a != ""
    ensures var whole := a + ['/'] + b;
      && EscapeAtFront(whole) == EscapeAtFront(a) && whole[1..] == a[1..] + ['/'] + b
      && (EscapeAtFront(a) ==> whole[3..] == a[3..] + ['/'] + b && ByteAtFront(whole) == ByteAtFront(a))
  {
    var whole := a + ['/'] + b;
    assert whole[0] == a[0];
    if |a| == 1 {
      assert whole[1] == '/';
    } else if |a| == 2 {
      assert whole[2] == '/';
    } else {
      assert whole[1] == a[1] && whole[2] == a[2];
    }
  }

  /** Decoding works on each side of a slash separately. */
  lemma {:induction false} UnescapeAroundSlash(a: string, b: string)
    ensures Unescape(a + ['/'] + b) == Glue(Unescape(a), Unescape(b))
    decreases |a|
  {
    if a == "" {
      UnescapeAfterSlash(b);
      assert "" + ['/'] + b == ['/'] + b;
      if Unescape(b).Some? { assert "" + ['/'] + Unescape(b).value == ['/'] + Unescape(b).value; }
    } else {
      FrontAroundSlash(a, b);
      if EscapeAtFront(a) {
        UnescapeAroundSlash(a[3..], b);
        PrependToGlue(ByteAtFront(a), Unescape(a[3..]), Unescape(b));
      } else if a[0] != '%' {
        UnescapeAroundSlash(a[1..], b);
        PrependToGlue(a[0], Unescape(a[1..]), Unescape(b));
      }
    }
  }

  lemma UnescapeAfterSlash(b: string)
    ensures Unescape(['/'] + b) == Prepend('/', Unescape(b))
  {
    var whole := ['/'] + b;
    assert whole[0] == '/' && whole[1..] == b;
  }

  lemma UnescapeOfDotDot()
    ensures Unescape("..") == Some("..")
  {
    assert "."[1..] == "" && ['.'] + "" == ".";
    assert Unescape(".") == Some(".");
    assert ".."[1..] == "." && ['.'] + "." == "..";
  }

  lemma {:induction false} DecodingKeepsDotDotIn(segs: seq<string>, i: nat)
    requires i < |segs| && segs[i] == ".."
    requires Unescape(Join(segs, '/')).Some?
    ensures HasDotDot(Unescape(Join(segs, '/')).value)
    decreases |segs|
  {
    UnescapeOfDotDot();
    SplitWhole("..", '/');
    if |segs| > 1 {
      var rest := Join(segs[1..], '/');
      UnescapeAroundSlash(segs[0], rest);
      SplitAtSeparator(Unescape(segs[0]).value, Unescape(rest).value, '/');
      if i > 0 { DecodingKeepsDotDotIn(segs[1..], i - 1); }
    }
  }

  /** A dot-dot segment never disappears by decoding once more. */
  lemma DecodingKeepsDotDot(s: string)
    requires HasDotDot(s) && Unescape(s).Some?
    ensures HasDotDot(Unescape(s).value)
  {
    var segs := Split(s, '/');
    JoinOfSplit(s, '/');
    var i :| 0 <= i < |segs| && segs[i] == "..";
    DecodingKeepsDotDotIn(segs, i);
  }

  /** Decoding changes a text exactly when it has a percent sign, and then shortens it. */
  lemma {:induction false} UnescapeChanges(s: string)
    ensures '%' !in s ==> Unescape(s) == Some(s)
    ensures '%' in s && Unescape(s).Some? ==> |Unescape(s).value| < |s|
    ensures Unescape(s).Some? ==> |Unescape(s).value| <= |s|
    ensures Unescape(s) == Some(s) <==> '%' !in s
  {
    if s != "" {
      if EscapeAtFront(s) {
        UnescapeChanges(s[3..]);
      } else if s[0] != '%' {
        UnescapeChanges(s[1..]);
        assert s == [s[0]] + s[1..];
      }
    }
  }

  /** The loop stops early exactly at a text without a percent sign. */
  lemma SettledMeansNoPercent(s: string, n: nat)
    requires n > 0 && Decode(s, n - 1).Some?
    ensures Settles(s, n) <==> '%' !in Decode(s, n - 1).value
  {
    UnescapeChanges(Decode(s, n - 1).value);
  }

  lemma {:induction false} DecodeStays(s: string, n: nat, m: nat)
    requires n <= m && Decode(s, n).Some? && '%' !in Decode(s, n).value
    ensures Decode(s, m) == Decode(s, n)
    decreases m - n
  {
    if n < m {
      DecodeStays(s, n, m - 1);
      UnescapeChanges(Decode(s, n).value);
    }
  }

  lemma {:induction false} ContainsItsCharacters(s: string, part: string, i: nat)
    requires i < |part|
    ensures Contains(s, part) ==> part[i] in s
  {
    if HasPrefix(s, part) {
      assert s[..|part|][i] == s[i];
    } else if s != "" {
      ContainsItsCharacters(s[1..], part, i);
    }
  }

  lemma NoPercentAfterLower(s: string)
    requires '%' !in s
    ensures !Contains(LowerAll(s), "%2e")
  {
    var t := LowerAll(s);
    assert |t| == |s|;
    forall i | 0 <= i < |t| ensures t[i] != '%' { assert t[i] == Lower(s[i]); }
    ContainsItsCharacters(t, "%2e", 0);
  }

  /** The text the check ends with: an accepted path settles, or is judged, at its third decoding. */
  lemma AcceptedThirdDecoding(s: string)
    requires Accepts(s)
    ensures SafeTo(s, 3) && !Contains(LowerAll(Decode(s, 3).value), "%2e")
  {
    if n :| 1 <= n <= 3 && SafeTo(s, n) && Settles(s, n) {
      var settled := Decode(s, n - 1);
      if n > 1 { assert Decode(s, n - 1).Some?; }
      SettledMeansNoPercent(s, n);
      forall k | n - 1 <= k ensures Decode(s, k) == settled { DecodeStays(s, n - 1, k); }
      forall k | 1 <= k <= 3 ensures Decode(s, k).Some? && !HasDotDot(Decode(s, k).value) {
        if k > n { assert Decode(s, k) == Decode(s, n); }
      }
      NoPercentAfterLower(Decode(s, 3).value);
    }
  }

  /** No accepted path has a dot-dot segment as written or in its first three decodings. */
  lemma AcceptedIsSafeToThree(s: string)
    requires Accepts(s)
    ensures !HasDotDot(s) && SafeTo(s, 3)
  {
    AcceptedThirdDecoding(s);
    assert Decode(s, 1) == Unescape(s) by { assert Decode(s, 0) == Some(s); }
    if HasDotDot(s) { DecodingKeepsDotDot(s); }
  }

  /** Once no percent sign is left at the third decoding, the path is safe at every depth. */
  lemma SettledIsSafeForever(s: string, depth: nat)
    requires Accepts(s) && Decode(s, 3).Some? && '%' !in Decode(s, 3).value
    ensures Decode(s, depth).Some? && !HasDotDot(Decode(s, depth).value)
  {
    AcceptedIsSafeToThree(s);
    if depth > 3 { DecodeStays(s, 3, depth); }
  }

  // ---- What an escape stands for --------------------------------------------------------

  const LOWER_DIGITS := "0123456789abcdef"
  const UPPER_DIGITS := "0123456789ABCDEF"

  /** How one byte of a text is written: as it is, or as an escape with each digit in either case. */
  datatype Spelling = Plain | Escaped(highUpper: bool, lowUpper: bool)

  function Digit(n: nat, upper: bool): char
    requires n < 16
  {
    if upper then UPPER_DIGITS[n] else LOWER_DIGITS[n]
  }

  function SpelledByte(c: char, how: Spelling): string
    requires how.Escaped? ==> c as int < 256
  {
    if how.Plain? then [c] else ['%', Digit(c as int / 16, how.highUpper), Digit(c as int % 16, how.lowUpper)]
  }

  /** A percent sign must be escaped; any byte may be. */
  predicate Spellable(s: string, how: seq<Spelling>) {
    |how| == |s| && forall i :: 0 <= i < |s| ==> if how[i].Plain? then s[i] != '%' else s[i] as int < 256
  }

  function Spelled(s: string, how: seq<Spelling>): string
    requires Spellable(s, how)
  {
    if s == "" then "" else SpelledByte(s[0], how[0]) + Spelled(s[1..], how[1..])
  }

  lemma DigitValue(n: nat, upper: bool)
    requires n < 16
    ensures Hex(Digit(n, upper)) && HexValue(Digit(n, upper)) == n
  {
  }

  lemma DigitOf(c: char) returns (upper: bool)
    requires Hex(c)
    ensures Digit(HexValue(c), upper) == c
  {
    upper := 'A' <= c <= 'F';
  }

  lemma DigitsOfByte(high: nat, low: nat)
    requires high < 16 && low < 16
    ensures var c := (16 * high + low) as char; c as int < 256 && c as int / 16 == high && c as int % 16 == low
  {
  }

  lemma ByteOfDigits(c: char)
    requires c as int < 256
    ensures c as int / 16 < 16 && (16 * (c as int / 16) + c as int % 16) as char == c
  {
  }

  lemma EscapeDecodes(c: char, h: Spelling, rest: string)
    requires h.Escaped? && c as int < 256
    ensures var e := SpelledByte(c, h) + rest; EscapeAtFront(e) && ByteAtFront(e) == c && e[3..] == rest
  {
    var high, low := c as int / 16, c as int % 16;
    ByteOfDigits(c);
    DigitValue(high, h.highUpper);
    DigitValue(low, h.lowUpper);
    hide Hex, HexValue, Digit;
    var e := SpelledByte(c, h) + rest;
    assert e[0] == '%' && e[1] == Digit(high, h.highUpper) && e[2] == Digit(low, h.lowUpper);
  }

  lemma {:induction false} UnescapeOfSpelled(s: string, how: seq<Spelling>)
    requires Spellable(s, how)
    ensures Unescape(Spelled(s, how)) == Some(s)
  {
    if s != "" {
      hide EscapeAtFront, ByteAtFront, Digit;
      var rest := Spelled(s[1..], how[1..]);
      UnescapeOfSpelled(s[1..], how[1..]);
      assert s == [s[0]] + s[1..];
      if how[0].Escaped? {
        EscapeDecodes(s[0], how[0], rest);
      } else {
        PlainDecodes(s[0], rest);
      }
    }
  }

  lemma PlainDecodes(c: char, rest: string)
    requires c != '%'
    ensures Unescape(SpelledByte(c, Plain) + rest) == Prepend(c, Unescape(rest))
  {
    assert (SpelledByte(c, Plain) + rest)[1..] == rest;
  }

  lemma SpelledCons(c: char, h: Spelling, s: string, how: seq<Spelling>)
    requires Spellable(s, how) && (if h.Plain? then c != '%' else c as int < 256)
    ensures Spellable([c] + s, [h] + how) && Spelled([c] + s, [h] + how) == SpelledByte(c, h) + Spelled(s, how)
  {
    assert ([c] + s)[1..] == s && ([h] + how)[1..] == how;
  }

  lemma SpellingOfEscape(e: string) returns (h: Spelling)
    requires EscapeAtFront(e)
    ensures h.Escaped? && ByteAtFront(e) as int < 256 && e == SpelledByte(ByteAtFront(e), h) + e[3..]
  {
    var high := DigitOf(e[1]);
    var low := DigitOf(e[2]);
    h := Escaped(high, low);
    DigitsOfByte(HexValue(e[1]), HexValue(e[2]));
    hide Hex, HexValue, Digit;
    assert e == ['%', e[1], e[2]] + e[3..];
  }

  lemma {:induction false} SpellingOf(e: string) returns (how: seq<Spelling>)
    requires Unescape(e).Some?
    ensures Spellable(Unescape(e).value, how) && e == Spelled(Unescape(e).value, how)
    decreases |e|
  {
    if e == "" {
      how := [];
    } else {
      hide Spelled, Spellable, ByteAtFront, SpelledByte;
      if EscapeAtFront(e) {
        var rest := SpellingOf(e[3..]);
        var h := SpellingOfEscape(e);
        how := [h] + rest;
        SpelledCons(ByteAtFront(e), h, Unescape(e[3..]).value, rest);
      } else {
        var rest := SpellingOf(e[1..]);
        how := [Plain] + rest;
        SpelledCons(e[0], Plain, Unescape(e[1..]).value, rest);
        PlainByte(e[0]);
        assert e == [e[0]] + e[1..];
      }
    }
  }

  lemma PlainByte(c: char)
    ensures SpelledByte(c, Plain) == [c]
  {
  }

  /** A text decodes to `s` exactly when it is a spelling of `s`, each escaped byte in two digits of either case. */
  lemma UnescapeExactly(e: string, s: string)
    ensures Unescape(e) == Some(s) <==> exists how :: Spellable(s, how) && e == Spelled(s, how)
  {
    if Unescape(e) == Some(s) { var how := SpellingOf(e); }
    if how :| Spellable(s, how) && e == Spelled(s, how) { UnescapeOfSpelled(s, how); }
  }

  /** A percent sign followed by two hexadecimal digits, read from the text. */
  predicate EscapeAt(e: string, i: nat) {
    i + 2 < |e| && (e[i + 1] in LOWER_DIGITS || e[i + 1] in UPPER_DIGITS)
    && (e[i + 2] in LOWER_DIGITS || e[i + 2] in UPPER_DIGITS)
  }

  lemma HexIsDigit(c: char)
    ensures Hex(c) <==> c in LOWER_DIGITS || c in UPPER_DIGITS
  {
    if Hex(c) {
      var upper := DigitOf(c);
      assert Digit(HexValue(c), upper) == c;
    }
  }

  predicate AllEscapesWhole(e: string) { forall i :: 0 <= i < |e| && e[i] == '%' ==> EscapeAt(e, i) }

  lemma WholeFromTail(e: string, n: nat)
    requires 0 < n <= |e| && (forall i :: 1 <= i < n ==> e[i] != '%') && (e[0] == '%' ==> EscapeAt(e, 0))
    ensures AllEscapesWhole(e) <==> AllEscapesWhole(e[n..])
  {
    var t := e[n..];
    forall i | 0 <= i < |t| ensures t[i] == e[n + i] && EscapeAt(t, i) == EscapeAt(e, n + i) {
      if i + 2 < |t| { assert t[i + 1] == e[n + i + 1] && t[i + 2] == e[n + i + 2]; }
    }
    if AllEscapesWhole(t) {
      forall i | 0 <= i < |e| && e[i] == '%' ensures EscapeAt(e, i) {
        if i >= n { assert t[i - n] == '%'; }
      }
    }
  }

  /** Decoding fails exactly on a percent sign without two hexadecimal digits after it. */
  lemma {:induction false} UnescapeFailsExactly(e: string)
    ensures Unescape(e).Some? <==> AllEscapesWhole(e)
    decreases |e|
  {
    if e != "" {
      if |e| >= 3 { HexIsDigit(e[1]); HexIsDigit(e[2]); }
      if EscapeAtFront(e) {
        UnescapeFailsExactly(e[3..]);
        WholeFromTail(e, 3);
      } else if e[0] == '%' {
        assert !EscapeAt(e, 0);
      } else {
        UnescapeFailsExactly(e[1..]);
        WholeFromTail(e, 1);
      }
    }
  }

  /** What decodes to a dot-dot segment in one, two or three rounds is rejected. */
  lemma DecodedDotDotIsRejected(e: string, n: nat)
    requires 1 <= n <= 3 && Decode(e, n).Some? && HasDotDot(Decode(e, n).value)
    ensures !Accepts(e)
  {
    if Accepts(e) { AcceptedIsSafeToThree(e); }
  }

  /** Every spelling of a path with a dot-dot segment is rejected, and every spelling of that, and of that. */
  lemma SpelledDotDotIsRejected(s: string, once: seq<Spelling>, twice: seq<Spelling>, thrice: seq<Spelling>)
    requires HasDotDot(s) && Spellable(s, once) && Spellable(Spelled(s, once), twice)
    requires Spellable(Spelled(Spelled(s, once), twice), thrice)
    ensures !Accepts(Spelled(s, once)) && !Accepts(Spelled(Spelled(s, once), twice))
    ensures !Accepts(Spelled(Spelled(Spelled(s, once), twice), thrice))
  {
    hide Accepts, HasDotDot, Spelled, Unescape;
    var a := Spelled(s, once);
    var b := Spelled(a, twice);
    var c := Spelled(b, thrice);
    UnescapeOfSpelled(s, once);
    UnescapeOfSpelled(a, twice);
    UnescapeOfSpelled(b, thrice);
    DecodedSteps(a, s);
    DecodedSteps(b, a);
    DecodedSteps(c, b);
    assert Decode(b, 2) == Some(s);
    assert Decode(c, 2) == Some(a);
    assert Decode(c, 3) == Some(s);
    DecodedDotDotIsRejected(a, 1);
    DecodedDotDotIsRejected(b, 2);
    DecodedDotDotIsRejected(c, 3);
  }

  lemma DecodedSteps(e: string, s: string)
    requires Unescape(e) == Some(s)
    ensures Decode(e, 1) == Some(s)
  {
    assert Decode(e, 0) == Some(e);
  }

  // ---- What the check lets through -------------------------------------------------------

  /** Percent signs written as escapes. */
  function Escape(s: string): string {
    if s == "" then "" else (if s[0] == '%' then "%25" else [s[0]]) + Escape(s[1..])
  }

  lemma {:induction false} UnescapeOfEscape(s: string)
    ensures Unescape(Escape(s)) == Some(s)
  {
    if s != "" {
      UnescapeOfEscape(s[1..]);
      assert s == [s[0]] + s[1..];
      var e := Escape(s);
      if s[0] == '%' {
        assert e[3..] == Escape(s[1..]) && ByteAtFront(e) == '%';
      } else {
        assert e[1..] == Escape(s[1..]);
      }
    }
  }

  lemma DecodeEscaped(s: string)
    ensures var e := Escape(Escape(Escape(s)));
      Decode(e, 1) == Some(Escape(Escape(s))) && Decode(e, 2) == Some(Escape(s)) && Decode(e, 3) == Some(s)
  {
    var e := Escape(Escape(Escape(s)));
    assert Decode(e, 0) == Some(e);
    UnescapeOfEscape(s);
    UnescapeOfEscape(Escape(s));
    UnescapeOfEscape(Escape(Escape(s)));
  }

  lemma EscapedIsAccepted(s: string)
    requires !HasDotDot(s) && !Contains(LowerAll(s), "%2e")
    ensures Accepts(Escape(Escape(Escape(s))))
  {
    DecodeEscaped(s);
    UnescapeOfEscape(s);
    UnescapeOfEscape(Escape(s));
    if HasDotDot(Escape(s)) { DecodingKeepsDotDot(Escape(s)); }
    if HasDotDot(Escape(Escape(s))) { DecodingKeepsDotDot(Escape(Escape(s))); }
    assert SafeTo(Escape(Escape(Escape(s))), 3);
  }

  /**
    Exactly these texts can be the third decoding of an accepted path: those without a
    dot-dot segment and without an escaped dot. What they decode to next is not looked at.
   */
  lemma ThirdDecodings(s: string)
    ensures (exists e :: Accepts(e) && Decode(e, 3) == Some(s)) <==> !HasDotDot(s) && !Contains(LowerAll(s), "%2e")
  {
    if e :| Accepts(e) && Decode(e, 3) == Some(s) { AcceptedThirdDecoding(e); }
    if !HasDotDot(s) && !Contains(LowerAll(s), "%2e") {
      EscapedIsAccepted(s);
      DecodeEscaped(s);
    }
  }

  lemma DotDotBehindEscapedSlash()
    ensures !HasDotDot("%2f..") && Unescape("%2f..") == Some("/..") && HasDotDot("/..")
  {
    var third := "%2f..";
    SplitWhole(third, '/');
    SplitWhole("..", '/');
    UnescapeOfDotDot();
    assert third[3..] == ".." && ByteAtFront(third) == '/' && ['/'] + ".." == "/..";
    assert "/.."[1..] == "..";
    assert Split("/..", '/') == ["", ".."];
    assert Split("/..", '/')[1] == "..";
  }

  lemma NoEscapedDot()
    ensures !Contains(LowerAll("%2f.."), "%2e")
  {
    var low := LowerAll("%2f..");
    assert |low| == 5 && forall i :: 0 <= i < 5 ==> low[i] == Lower("%2f.."[i]);
    ContainsItsCharacters(low, "%2e", 2);
  }

  lemma ClimbsAfterThree(third: string, fourth: string)
    requires !HasDotDot(third) && !Contains(LowerAll(third), "%2e") && Unescape(third) == Some(fourth)
    ensures var s := Escape(Escape(Escape(third))); Accepts(s) && Decode(s, 4) == Some(fourth)
  {
    EscapedIsAccepted(third);
    DecodeEscaped(third);
  }

  /** An accepted path may climb at its fourth decoding. */
  lemma FourthDecodingMayClimb()
    ensures var s := Escape(Escape(Escape("%2f.."))); Accepts(s) && Decode(s, 4) == Some("/..") && HasDotDot("/..")
  {
    DotDotBehindEscapedSlash();
    NoEscapedDot();
    ClimbsAfterThree("%2f..", "/..");
  }

  /** What is left when no further decoding works or changes anything. */
  function FullyDecoded(s: string): string
    decreases |s|
  {
    UnescapeChanges(s);
    if Unescape(s).None? || Unescape(s).value == s then s else FullyDecoded(Unescape(s).value)
  }

  lemma {:induction false} FullyDecodedKeepsDotDot(s: string)
    requires HasDotDot(s)
    ensures HasDotDot(FullyDecoded(s))
    decreases |s|
  {
    UnescapeChanges(s);
    if Unescape(s).Some? && Unescape(s).value != s {
      DecodingKeepsDotDot(s);
      FullyDecodedKeepsDotDot(Unescape(s).value);
    }
  }

  lemma {:induction false} FullyDecodedOfDecode(s: string, n: nat)
    requires Decode(s, n).Some?
    ensures FullyDecoded(Decode(s, n).value) == FullyDecoded(s)
  {
    if n > 0 {
      FullyDecodedOfDecode(s, n - 1);
      UnescapeChanges(Decode(s, n - 1).value);
    }
  }

  lemma {:induction false} FullyDecodedIsReached(s: string, n: nat) returns (depth: nat)
    requires Decode(s, n).Some?
    ensures Decode(s, depth) == Some(FullyDecoded(s))
    decreases |Decode(s, n).value|
  {
    var now := Decode(s, n).value;
    UnescapeChanges(now);
    FullyDecodedOfDecode(s, n);
    assert Decode(s, n + 1) == Unescape(now);
    if Unescape(now).None? || Unescape(now).value == now {
      depth := n;
    } else {
      depth := FullyDecodedIsReached(s, n + 1);
    }
  }

  ghost predicate ClimbsAtSomeDepth(s: string) {
    exists depth: nat :: Decode(s, depth).Some? && HasDotDot(Decode(s, depth).value)
  }

  /** Exactly when some depth of decoding shows a dot-dot: when the full decoding does. */
  lemma ClimbsExactlyWhenFullyDecodedDoes(s: string)
    ensures ClimbsAtSomeDepth(s) <==> HasDotDot(FullyDecoded(s))
  {
    if depth: nat :| Decode(s, depth).Some? && HasDotDot(Decode(s, depth).value) {
      FullyDecodedKeepsDotDot(Decode(s, depth).value);
      FullyDecodedOfDecode(s, depth);
    }
    if HasDotDot(FullyDecoded(s)) {
      assert Decode(s, 0) == Some(s);
      var depth := FullyDecodedIsReached(s, 0);
    }
  }

  // ---- The request URL ----------------------------------------------------------------------

  datatype Url = Url(scheme: string, host: string, path: string, rawPath: string, rawQuery: string)

  /** What url.Parse reports about a target. */
  datatype Target = Target(
    absolute: bool, host: string, hasUser: bool, fragment: string,
    path: string, escapedPath: string, rawQuery: string)

  /** unicode.IsControl */
  predicate IsControl(c: char) { c <= '\U{001F}' || '\U{007F}' <= c <= '\U{009F}' }

  predicate UnsafeText(target: string) {
    HasPrefix(target, "//") || exists c :: c in target && (c == '\\' || IsControl(c))
  }

  /** The texts refused before parsing, by character code. */
  lemma UnsafeTextExactly(target: string)
    ensures UnsafeText(target) <==>
      || (|target| >= 2 && target[0] as int == 47 && target[1] as int == 47)
      || exists i :: 0 <= i < |target|
           && (target[i] as int == 92 || target[i] as int < 32 || 127 <= target[i] as int < 160)
  {
    if |target| >= 2 { assert target[..2] == [target[0], target[1]]; }
    if c :| c in target && (c == '\\' || IsControl(c)) {
      var i :| 0 <= i < |target| && target[i] == c;
      assert target[i] as int == 92 || target[i] as int < 32 || 127 <= target[i] as int < 160;
    }
    if i :| 0 <= i < |target| && (target[i] as int == 92 || target[i] as int < 32 || 127 <= target[i] as int < 160) {
      assert target[i] in target;
    }
  }

  predicate LeavesBase(t: Target) { t.absolute || t.host != "" || t.hasUser || t.fragment != "" }

  /** A parser keeps its word when the escaped path of what it parsed decodes to the path. */
  ghost predicate ParserOk(parse: string -> Option<Target>) {
    forall text :: parse(text).Some? ==> PathsAgree(parse(text).value)
  }

  predicate PathsAgree(t: Target) { Unescape(t.escapedPath) == Some(t.path) }

  /** A base URL has a host, so its path is empty or rooted. */
  predicate BaseOk(base: Url) { base.path == "" || Rooted(base.path) }

  predicate Rejected(target: string, parsed: Option<Target>) {
    UnsafeText(target) || parsed.None? || LeavesBase(parsed.value) || !Accepts(parsed.value.escapedPath)
  }

  /** The path segments asked for: the base's, cleaned, then the target's own. */
  function SegmentsFor(base: Url, t: Target): seq<string> {
    CleanSegments(base.path) + Own(Split(t.path, '/'))
  }

  method BuildRequestURL(base: Url, target: string, parse: string -> Option<Target>) returns (built: Option<Url>)
    requires BaseOk(base) && ParserOk(parse)
    ensures built.None? <==> Rejected(target, parse(target))
    ensures built.Some? ==> var t := parse(target).value;
      !t.absolute && t.host == "" && !t.hasUser && t.fragment == "" && SafeTo(t.escapedPath, 3)
    ensures built.Some? ==> var url, t := built.value, parse(target).value;
      && url.scheme == base.scheme && url.host == base.host && url.rawQuery == t.rawQuery
      && CleanSegments(url.path) == SegmentsFor(base, t)
      && (t.path == "" ==> url.path == base.path && url.rawPath == base.rawPath)
      && (t.path != "" ==> Own(Split(url.path, '/')) == SegmentsFor(base, t) && url.rawPath == "")
  {
    if UnsafeText(target) { return None; }
    var parsed := parse(target);
    if parsed.None? { return None; }
    var t := parsed.value;
    assert PathsAgree(t);
    var traverses := HasTraversalSegment(t.escapedPath);
    if LeavesBase(t) || traverses { return None; }
    AcceptedIsSafeToThree(t.escapedPath);
    var url := base;
    if t.path != "" {
      url := url.(path := PathJoin(base.path, TrimPrefix(t.path, "/")), rawPath := "");
      AcceptedPathIsJoined(base, t);
    } else {
      assert Own(Split("", '/')) == [];
      assert SegmentsFor(base, t) == CleanSegments(base.path);
    }
    url := url.(rawQuery := t.rawQuery);
    return Some(url);
  }

  lemma DecodedOnce(t: Target)
    requires PathsAgree(t) && Accepts(t.escapedPath)
    ensures NoDotDot(Split(t.path, '/'))
  {
    AcceptedIsSafeToThree(t.escapedPath);
    assert Decode(t.escapedPath, 0) == Some(t.escapedPath);
    assert Decode(t.escapedPath, 1) == Some(t.path);
  }

  /** The leading slash trimmed from a target names no segment. */
  lemma OwnOfTrimmed(path: string)
    requires NoDotDot(Split(path, '/'))
    ensures var rest := TrimPrefix(path, "/");
      NoDotDot(Split(rest, '/')) && Own(Split(rest, '/')) == Own(Split(path, '/'))
  {
    if HasPrefix(path, "/") {
      var segs := Split(path[1..], '/');
      assert path[0] == "/"[0];
      assert Split(path, '/') == [""] + segs;
      forall i | 0 <= i < |segs| ensures segs[i] != ".." { assert ([""] + segs)[i + 1] == segs[i]; }
      assert ([""] + segs)[1..] == segs;
    }
  }

  lemma CleanedSegmentsOf(path: string, segs: seq<string>)
    requires path == RootedPath(segs) && AllOrdinary(segs)
    ensures CleanSegments(path) == segs && Own(Split(path, '/')) == segs
  {
    CleanOfRooted(segs);
    OwnOfRooted(segs);
  }

  /** Joining an accepted target to the base gives exactly the segments asked for. */
  lemma AcceptedPathIsJoined(base: Url, t: Target)
    requires BaseOk(base) && PathsAgree(t) && Accepts(t.escapedPath)
    ensures var path := PathJoin(base.path, TrimPrefix(t.path, "/"));
      Own(Split(path, '/')) == SegmentsFor(base, t) == CleanSegments(path)
  {
    var rest := TrimPrefix(t.path, "/");
    var own := Own(Split(t.path, '/'));
    DecodedOnce(t);
    OwnOfTrimmed(t.path);
    if base.path == "" {
      assert CleanSegments("") == [] && [] + own == own;
      if rest != "" {
        CleanWithoutDotDot(rest);
        CleanAgain(rest);
      }
    } else {
      RootedCleanSegments(base.path);
      SplitHasNoSeparator(rest, '/');
      OwnIsOrdinary(Split(rest, '/'));
      if rest == "" {
        assert CleanSegments(base.path) + [] == CleanSegments(base.path);
        CleanedSegmentsOf(Clean(base.path), CleanSegments(base.path));
      } else {
        CleanOfTwo(base.path, rest);
        CleanedSegmentsOf(Clean(base.path + "/" + rest), CleanSegments(base.path) + own);
      }
    }
  }

  /** The URL of an accepted target lies under the base: the cleaned base comes first, and no segment climbs. */
  lemma StaysUnderBase(base: Url, t: Target)
    requires BaseOk(base) && PathsAgree(t) && Accepts(t.escapedPath)
    ensures CleanSegments(base.path) <= SegmentsFor(base, t) && AllOrdinary(SegmentsFor(base, t))
  {
    DecodedOnce(t);
    SplitHasNoSeparator(t.path, '/');
    OwnIsOrdinary(Split(t.path, '/'));
    if base.path == "" { assert CleanSegments("") == []; } else { RootedCleanSegments(base.path); }
  }
}
