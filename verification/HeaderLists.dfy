/**
  List-valued header fields as serbewr/prawxxey/forward.go reads them: Cache-Control
  and Pragma directives and the tokens of Connection.  Section 5.3 of RFC 9110 lets a
  recipient merge, split and reorder field lines; the laws below say the answers do not
  depend on that, nor on letter case or blanks around an element.
 */
module HeaderLists {
  import opened Text

  /** The comma-separated elements of all field lines, in order. */
  function Elements(values: seq<string>): seq<string> {
    if values == [] then [] else Split(values[0], ',') + Elements(values[1..])
  }

  function DirectiveName(element: string): string { TrimSpace(Before(element, '=')) }

  /** hasCacheDirective reads as: some element, cut at its equals sign, names a blocked directive. */
  ghost predicate HasDirective(values: seq<string>, blocked: seq<string>) {
    exists e, b :: e in Elements(values) && b in blocked && EqualFold(DirectiveName(e), b)
  }

  method HasCacheDirective(values: seq<string>, blocked: seq<string>) returns (found: bool)
    ensures found <==> HasDirective(values, blocked)
  {
    hide TrimSpace, Before, FoldAll;
    for i := 0 to |values|
      invariant !HasDirective(values[..i], blocked)
    {
      ElementsSnoc(values[..i], values[i]);
      assert values[..i + 1] == values[..i] + [values[i]];
      var parts := Split(values[i], ',');
      for j := 0 to |parts|
        invariant forall k, b :: 0 <= k < j && b in blocked ==> !EqualFold(DirectiveName(parts[k]), b)
      {
        var name := TrimSpace(Before(parts[j], '='));
        for k := 0 to |blocked|
          invariant forall b :: b in blocked[..k] ==> !EqualFold(name, b)
        {
          if EqualFold(name, blocked[k]) {
            assert parts[j] in Elements(values[..i + 1]);
            ElementsOfPrefix(values, i + 1);
            assert parts[j] in Elements(values) && blocked[k] in blocked && EqualFold(DirectiveName(parts[j]), blocked[k]);
            return true;
          }
        }
        assert blocked[..|blocked|] == blocked;
      }
    }
    assert values[..|values|] == values;
    return false;
  }

  lemma {:induction false} ElementsAppend(a: seq<string>, b: seq<string>)
    ensures Elements(a + b) == Elements(a) + Elements(b)
  {
    if a == [] {
      assert a + b == b;
    } else {
      assert (a + b)[1..] == a[1..] + b;
      ElementsAppend(a[1..], b);
    }
  }

  lemma ElementsSnoc(values: seq<string>, last: string)
    ensures Elements(values + [last]) == Elements(values) + Split(last, ',')
  {
    ElementsAppend(values, [last]);
    assert Elements([last]) == Split(last, ',');
  }

  lemma ElementsOfPrefix(values: seq<string>, n: nat)
    requires n <= |values|
    ensures forall e :: e in Elements(values[..n]) ==> e in Elements(values)
  {
    ElementsAppend(values[..n], values[n..]);
    assert values[..n] + values[n..] == values;
  }

  /** What a header says, whatever the layout of its lines: its elements, each reduced by `read`. */
  ghost function Said(values: seq<string>, read: string -> string): set<string> {
    set e | e in Elements(values) :: read(e)
  }

  /** How directive detection reads one element. */
  function ReadDirective(e: string): string { FoldAll(DirectiveName(e)) }

  /** How connectionHeaderNames reads one element. */
  function ReadToken(e: string): string { CanonicalKey(TrimSpace(e)) }

  /** The answer of hasCacheDirective depends on what the header says and on nothing else. */
  lemma DirectiveIsSaid(values: seq<string>, blocked: seq<string>)
    ensures HasDirective(values, blocked) <==> exists b :: b in blocked && FoldAll(b) in Said(values, ReadDirective)
  {
    if HasDirective(values, blocked) {
      var e, b :| e in Elements(values) && b in blocked && EqualFold(DirectiveName(e), b);
      assert ReadDirective(e) == FoldAll(b);
    }
    if b :| b in blocked && FoldAll(b) in Said(values, ReadDirective) {
      var e :| e in Elements(values) && ReadDirective(e) == FoldAll(b);
      assert EqualFold(DirectiveName(e), b);
    }
  }

  // ---- Layout ------------------------------------------------------------------

  /** Two neighbouring lines may be merged into one, or one split into two. */
  lemma MergeLines(before: seq<string>, a: string, b: string, after: seq<string>)
    ensures Elements(before + [a + [','] + b] + after) == Elements(before + [a, b] + after)
  {
    ElementsAppend(before + [a + [','] + b], after);
    ElementsAppend(before, [a + [','] + b]);
    ElementsAppend(before + [a, b], after);
    ElementsAppend(before, [a, b]);
    SplitAtSeparator(a, b, ',');
    assert Elements([a, b]) == Split(a, ',') + Split(b, ',') by {
      assert [a, b][1..] == [b];
      assert Elements([b]) == Split(b, ',');
    }
    assert Elements([a + [','] + b]) == Split(a + [','] + b, ',');
  }

  /** All lines may be merged into one. */
  lemma {:induction false} OneLine(values: seq<string>)
    requires values != []
    ensures Elements([Join(values, ',')]) == Elements(values)
  {
    if |values| > 1 {
      OneLine(values[1..]);
      SplitAtSeparator(values[0], Join(values[1..], ','), ',');
    }
  }

  /** Every element may have a line of its own. */
  lemma {:induction false} OneLinePerElement(values: seq<string>)
    ensures Elements(Elements(values)) == Elements(values)
  {
    if values != [] {
      var parts := Split(values[0], ',');
      SplitHasNoSeparator(values[0], ',');
      AloneOnLines(parts);
      OneLinePerElement(values[1..]);
      ElementsAppend(parts, Elements(values[1..]));
    }
  }

  lemma {:induction false} AloneOnLines(parts: seq<string>)
    requires Without(parts, ',')
    ensures Elements(parts) == parts
  {
    if parts != [] {
      SplitWhole(parts[0], ',');
      AloneOnLines(parts[1..]);
    }
  }

  /** Lines may come in any order and any number of times. */
  lemma ReorderLines(values: seq<string>, values': seq<string>, read: string -> string)
    requires forall v :: v in values <==> v in values'
    ensures Said(values, read) == Said(values', read)
  {
    ReorderOneWay(values, values');
    ReorderOneWay(values', values);
  }

  lemma {:induction false} ReorderOneWay(values: seq<string>, values': seq<string>)
    requires forall v :: v in values ==> v in values'
    ensures forall e :: e in Elements(values) ==> e in Elements(values')
  {
    if values != [] {
      ReorderOneWay(values[1..], values');
      LineElementsIn(values', values[0]);
    }
  }

  lemma {:induction false} LineElementsIn(values: seq<string>, v: string)
    requires v in values
    ensures forall e :: e in Split(v, ',') ==> e in Elements(values)
  {
    if v != values[0] { LineElementsIn(values[1..], v); }
  }

  // ---- Blanks ------------------------------------------------------------------

  /** `b` is `a` with blanks around it. */
  ghost predicate Padded(a: string, b: string) {
    exists l, r :: Blank(l) && Blank(r) && b == l + a + r
  }

  lemma {:induction false} BeforeOfLeftPad(l: string, s: string)
    requires Blank(l)
    ensures Before(l + s, '=') == l + Before(s, '=')
  {
    if l == "" {
      assert l + s == s;
    } else {
      assert (l + s)[1..] == l[1..] + s;
      BeforeOfLeftPad(l[1..], s);
    }
  }

  lemma {:induction false} BeforeOfRightPad(s: string, r: string)
    requires Blank(r)
    ensures Before(s + r, '=') == Before(s, '=') || Before(s + r, '=') == Before(s, '=') + r
  {
    if s == "" {
      BeforeOfLeftPad(r, "");
      assert s + r == r + "";
    } else {
      assert (s + r)[1..] == s[1..] + r;
      BeforeOfRightPad(s[1..], r);
    }
  }

  lemma PaddingIsNotRead(a: string, b: string)
    requires Padded(a, b)
    ensures ReadDirective(b) == ReadDirective(a) && ReadToken(b) == ReadToken(a)
  {
    hide TrimSpace, Before, FoldAll, CanonicalKey;
    var l, r :| Blank(l) && Blank(r) && b == l + a + r;
    TrimOfPadded(l, a, r);
    assert b == l + (a + r);
    BeforeOfLeftPad(l, a + r);
    BeforeOfRightPad(a, r);
    TrimOfPadded(l, Before(a, '='), r);
    TrimOfPadded(l, Before(a, '='), "");
    assert l + Before(a, '=') + "" == l + Before(a, '=');
    assert l + (Before(a, '=') + r) == l + Before(a, '=') + r;
  }

  /** Blanks around elements change nothing that is said. */
  lemma PadElements(values: seq<string>, values': seq<string>)
    requires |Elements(values)| == |Elements(values')|
    requires forall i :: 0 <= i < |Elements(values)| ==> Padded(Elements(values)[i], Elements(values')[i])
    ensures Said(values, ReadDirective) == Said(values', ReadDirective)
    ensures Said(values, ReadToken) == Said(values', ReadToken)
  {
    var p, q := Elements(values), Elements(values');
    forall i | 0 <= i < |p| ensures ReadDirective(p[i]) == ReadDirective(q[i]) && ReadToken(p[i]) == ReadToken(q[i]) {
      PaddingIsNotRead(p[i], q[i]);
    }
    PointwiseEqual(p, q, ReadDirective);
    PointwiseEqual(p, q, ReadToken);
  }

  lemma PointwiseEqual(p: seq<string>, q: seq<string>, read: string -> string)
    requires |p| == |q| && forall i :: 0 <= i < |p| ==> read(p[i]) == read(q[i])
    ensures (set e | e in p :: read(e)) == (set e | e in q :: read(e))
  {
    forall i | 0 <= i < |p| ensures read(p[i]) in (set e | e in q :: read(e)) && read(q[i]) in (set e | e in p :: read(e)) {
      assert q[i] in q && p[i] in p;
    }
  }

  // ---- Letter case -------------------------------------------------------------

  /** Two layouts of the same lines whose characters agree after `f`. */
  ghost predicate SameAfter(f: char -> char, values: seq<string>, values': seq<string>) {
    |values| == |values'| && forall i :: 0 <= i < |values| ==> MapChars(f, values[i]) == MapChars(f, values'[i])
  }

  lemma {:induction false} ElementsSameAfter(f: char -> char, values: seq<string>, values': seq<string>)
    requires Keeps(f, ',') && SameAfter(f, values, values')
    ensures SameAfter(f, Elements(values), Elements(values'))
  {
    if values != [] {
      ElementsSameAfter(f, values[1..], values'[1..]);
      SplitOfMap(f, values[0], ',');
      SplitOfMap(f, values'[0], ',');
    }
  }

  /** Directive detection ignores letter case. */
  lemma RecaseDirectives(values: seq<string>, values': seq<string>)
    requires SameAfter(Fold, values, values')
    ensures Said(values, ReadDirective) == Said(values', ReadDirective)
  {
    CaseMapsKeepText();
    ElementsSameAfter(Fold, values, values');
    var p, q := Elements(values), Elements(values');
    forall i | 0 <= i < |p| ensures ReadDirective(p[i]) == ReadDirective(q[i]) {
      ReadOfFolded(p[i]);
      ReadOfFolded(q[i]);
    }
    PointwiseEqual(p, q, ReadDirective);
  }

  lemma ReadOfFolded(e: string)
    ensures ReadDirective(e) == DirectiveName(FoldAll(e))
  {
    CaseMapsKeepText();
    BeforeOfMap(Fold, e, '=');
    TrimOfMap(Fold, Before(e, '='));
  }

  /** So does the token list, for elements that are valid tokens or spelled the same. */
  lemma RecaseTokens(values: seq<string>, values': seq<string>)
    requires SameAfter(Lower, values, values')
    requires forall i :: 0 <= i < |Elements(values)| ==> Token(TrimSpace(Elements(values)[i]))
    ensures Said(values, ReadToken) == Said(values', ReadToken)
  {
    CaseMapsKeepText();
    ElementsSameAfter(Lower, values, values');
    var p, q := Elements(values), Elements(values');
    forall i | 0 <= i < |p| ensures ReadToken(p[i]) == ReadToken(q[i]) {
      RecaseToken(p[i], q[i]);
    }
    PointwiseEqual(p, q, ReadToken);
  }

  /** Exactly the valid tokens are read alike in every spelling. */
  lemma RecaseToken(a: string, b: string)
    requires LowerAll(a) == LowerAll(b)
    ensures ReadToken(a) == ReadToken(b) <==> TrimSpace(a) == TrimSpace(b) || Token(TrimSpace(a))
  {
    CaseMapsKeepText();
    TrimOfMap(Lower, a);
    TrimOfMap(Lower, b);
    CanonicalIgnoresCase(TrimSpace(a), TrimSpace(b));
  }

  /**
    Merging, splitting, reordering, re-casing and padding leave the answer of
    hasCacheDirective alone: it is a function of what is said.
   */
  lemma DirectiveAnswerIsStable(values: seq<string>, values': seq<string>, blocked: seq<string>)
    requires Said(values, ReadDirective) == Said(values', ReadDirective)
    ensures HasDirective(values, blocked) == HasDirective(values', blocked)
  {
    DirectiveIsSaid(values, blocked);
    DirectiveIsSaid(values', blocked);
  }
}
