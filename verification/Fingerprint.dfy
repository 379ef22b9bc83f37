/**
  RequestPayload.HashExcluding of serbewr/prawxxey/request.go.  SHA-256 is a parameter;
  what is modelled is the text that is hashed.
 */
module Fingerprint {
  import opened Text

  type Headers = map<string, seq<string>>

  datatype Payload = Payload(verb: string, url: string, headers: Headers, body: string, clientIP: string, proto: string)

  // ---- sort.Strings ------------------------------------------------------------

  predicate Increasing(keys: seq<string>) {
    forall i, j :: 0 <= i < j < |keys| ==> Less(keys[i], keys[j])
  }

  function Insert(key: string, keys: seq<string>): (r: seq<string>)
    ensures forall k :: k in r <==> k == key || k in keys
  {
    if keys == [] then [key]
    else if Less(key, keys[0]) then [key] + keys
    else [keys[0]] + Insert(key, keys[1..])
  }

  function SortStrings(keys: seq<string>): (r: seq<string>)
    ensures forall k :: k in r <==> k in keys
  {
    if keys == [] then [] else Insert(keys[0], SortStrings(keys[1..]))
  }

  lemma {:induction false} InsertKeepsOrder(key: string, keys: seq<string>)
    requires Increasing(keys) && key !in keys
    ensures Increasing(Insert(key, keys))
  {
    if keys != [] {
      if Less(key, keys[0]) {
        forall i | 0 <= i < |keys| ensures Less(key, keys[i]) {
          if i > 0 { LessTransitive(key, keys[0], keys[i]); }
        }
      } else {
        LessTotal(key, keys[0]);
        InsertKeepsOrder(key, keys[1..]);
        forall k | k in Insert(key, keys[1..]) ensures Less(keys[0], k) {
          if k in keys[1..] {
            var i :| 0 <= i < |keys[1..]| && keys[1..][i] == k;
            assert keys[i + 1] == k;
          }
        }
      }
    }
  }

  ghost predicate Distinct(keys: seq<string>) {
    forall i, j :: 0 <= i < j < |keys| ==> keys[i] != keys[j]
  }

  lemma {:induction false} SortIsIncreasing(keys: seq<string>)
    requires Distinct(keys)
    ensures Increasing(SortStrings(keys))
  {
    if keys != [] {
      SortIsIncreasing(keys[1..]);
      InsertKeepsOrder(keys[0], SortStrings(keys[1..]));
    }
  }

  /** There is only one increasing listing of a set of keys. */
  lemma {:induction false} IncreasingIsUnique(a: seq<string>, b: seq<string>)
    requires Increasing(a) && Increasing(b) && forall k :: k in a <==> k in b
    ensures a == b
  {
    FirstIsMember(a);
    FirstIsMember(b);
    if a != [] {
      FirstIsLeast(a, b[0]);
      FirstIsLeast(b, a[0]);
      if a[0] != b[0] {
        LessTransitive(a[0], b[0], a[0]);
        LessIrreflexive(a[0]);
      }
      TailElements(a);
      TailElements(b);
      IncreasingIsUnique(a[1..], b[1..]);
    }
  }

  lemma FirstIsMember(a: seq<string>)
    ensures a != [] ==> a[0] in a
  {
  }

  lemma FirstIsLeast(a: seq<string>, k: string)
    requires Increasing(a) && k in a
    ensures k == a[0] || Less(a[0], k)
  {
    var i :| 0 <= i < |a| && a[i] == k;
  }

  lemma TailElements(a: seq<string>)
    requires Increasing(a) && a != []
    ensures forall k :: k in a[1..] <==> k in a && k != a[0]
  {
    LessIrreflexive(a[0]);
    assert a == [a[0]] + a[1..];
    forall i | 0 <= i < |a[1..]| ensures a[1..][i] != a[0] {
      assert a[1..][i] == a[i + 1];
    }
  }

  // ---- The text that is hashed -----------------------------------------------------

  function ValueText(values: seq<string>): string {
    if values == [] then "" else "\n" + values[0] + ValueText(values[1..])
  }

  function HeaderText(keys: seq<string>, headers: Headers): string
    requires forall k :: k in keys ==> k in headers
  {
    if keys == [] then "" else "\n" + keys[0] + ValueText(headers[keys[0]]) + HeaderText(keys[1..], headers)
  }

  ghost function Listing(keys: set<string>): (r: seq<string>)
    ensures Distinct(r) && forall k :: k in r <==> k in keys
  {
    if keys == {} then [] else var k :| k in keys; [k] + Listing(keys - {k})
  }

  ghost function KeyOrder(p: Payload, exclude: set<string>): seq<string> {
    SortStrings(Listing(p.headers.Keys - exclude))
  }

  ghost function Preimage(p: Payload, exclude: set<string>): string {
    p.verb + "\n" + p.url + HeaderText(KeyOrder(p, exclude), p.headers) + if p.body == "" then "" else "\n" + p.body
  }

  /**
    The map is walked in an arbitrary order, yet the digest depends on the payload alone: it
    is the hash of Preimage.
   */
  method HashExcluding(p: Payload, exclude: set<string>, sha256: string -> string) returns (digest: string)
    ensures digest == sha256(Preimage(p, exclude))
  {
    var h := p.verb + "\n" + p.url;
    if p.headers != map[] {
      var keys: seq<string> := [];
      var left := p.headers.Keys;
      while left != {}
        invariant left <= p.headers.Keys && Distinct(keys)
        invariant forall k :: k in keys <==> k in p.headers && k !in left && k !in exclude
        decreases left
      {
        var k :| k in left;
        left := left - {k};
        if k !in exclude { keys := keys + [k]; }
      }
      ghost var listed := keys;
      keys := SortStrings(keys);
      SortIsIncreasing(listed);
      SortIsIncreasing(Listing(p.headers.Keys - exclude));
      IncreasingIsUnique(keys, KeyOrder(p, exclude));
      h := WriteHeaders(h, keys, p.headers);
    } else {
      assert Listing(p.headers.Keys - exclude) == [];
    }
    if p.body != "" {
      h := h + "\n" + p.body;
      assert h == Preimage(p, exclude);
    } else {
      assert h == Preimage(p, exclude);
    }
    digest := sha256(h);
  }

  method WriteHeaders(start: string, keys: seq<string>, headers: Headers) returns (h: string)
    requires forall k :: k in keys ==> k in headers
    ensures h == start + HeaderText(keys, headers)
  {
    h := start;
    for i := 0 to |keys|
      invariant h + HeaderText(keys[i..], headers) == start + HeaderText(keys, headers)
    {
      var values := headers[keys[i]];
      ghost var rest := HeaderText(keys[i + 1..], headers);
      assert keys[i..][1..] == keys[i + 1..];
      ghost var goal := start + HeaderText(keys, headers);
      assert h + ("\n" + keys[i] + ValueText(values) + rest) == goal;
      h := h + "\n" + keys[i];
      for j := 0 to |values|
        invariant h + ValueText(values[j..]) + rest == goal
      {
        assert values[j..][1..] == values[j + 1..];
        h := h + "\n" + values[j];
      }
      assert h + ValueText([]) == h;
    }
    assert HeaderText(keys[|keys|..], headers) == "";
  }

  /** Excluded headers leave no trace in the fingerprint. */
  lemma ExcludedHeadersAreIgnored(p: Payload, q: Payload, exclude: set<string>)
    requires q.headers - exclude == p.headers - exclude
    requires q.verb == p.verb && q.url == p.url && q.body == p.body
    ensures Preimage(q, exclude) == Preimage(p, exclude)
  {
    assert q.headers.Keys - exclude == (q.headers - exclude).Keys == p.headers.Keys - exclude;
    var keys := KeyOrder(p, exclude);
    forall k | k in keys ensures q.headers[k] == p.headers[k] {
      assert (q.headers - exclude)[k] == (p.headers - exclude)[k];
    }
    HeaderTextDepends(keys, p.headers, q.headers);
  }

  lemma {:induction false} HeaderTextDepends(keys: seq<string>, a: Headers, b: Headers)
    requires forall k :: k in keys ==> k in a && k in b && a[k] == b[k]
    ensures HeaderText(keys, a) == HeaderText(keys, b)
  {
    if keys != [] { HeaderTextDepends(keys[1..], a, b); }
  }

  // ---- The text as lines -----------------------------------------------------------------

  /** For each key in order, the key and then every one of its values, each on a line of its own. */
  function HeaderLines(keys: seq<string>, headers: Headers): seq<string>
    requires forall k :: k in keys ==> k in headers
  {
    if keys == [] then [] else [keys[0]] + headers[keys[0]] + HeaderLines(keys[1..], headers)
  }

  function Prefixed(lines: seq<string>): string {
    if lines == [] then "" else ['\n'] + lines[0] + Prefixed(lines[1..])
  }

  lemma {:induction false} PrefixedOfTwo(a: seq<string>, b: seq<string>)
    ensures Prefixed(a + b) == Prefixed(a) + Prefixed(b)
  {
    if a == [] {
      assert a + b == b;
    } else {
      assert (a + b)[1..] == a[1..] + b;
      PrefixedOfTwo(a[1..], b);
    }
  }

  lemma {:induction false} ValueTextIsPrefixed(values: seq<string>)
    ensures ValueText(values) == Prefixed(values)
  {
    if values != [] {
      ValueTextIsPrefixed(values[1..]);
      assert "\n" == ['\n'];
    }
  }

  lemma {:induction false} HeaderTextIsPrefixed(keys: seq<string>, headers: Headers)
    requires forall k :: k in keys ==> k in headers
    ensures HeaderText(keys, headers) == Prefixed(HeaderLines(keys, headers))
  {
    if keys != [] {
      HeaderTextIsPrefixed(keys[1..], headers);
      ValueTextIsPrefixed(headers[keys[0]]);
      PrefixedOfTwo([keys[0]] + headers[keys[0]], HeaderLines(keys[1..], headers));
      assert ([keys[0]] + headers[keys[0]])[1..] == headers[keys[0]];
      assert "\n" == ['\n'];
    }
  }

  lemma PrefixedOfCons(lines: seq<string>)
    requires lines != []
    ensures Prefixed(lines) == ['\n'] + lines[0] + Prefixed(lines[1..])
  {
  }

  lemma {:induction false} JoinIsPrefixed(first: string, rest: seq<string>)
    ensures Join([first] + rest, '\n') == first + Prefixed(rest)
    decreases |rest|
  {
    if rest == [] {
      assert [first] + rest == [first];
      assert first + "" == first;
    } else {
      hide Join, Prefixed;
      JoinOfCons(first, rest);
      JoinIsPrefixed(rest[0], rest[1..]);
      assert rest == [rest[0]] + rest[1..];
      PrefixedOfCons(rest);
      assert first + ['\n'] + (rest[0] + Prefixed(rest[1..])) == first + (['\n'] + rest[0] + Prefixed(rest[1..]));
    }
  }

  /** All the lines of the text: method, URL, the headers in increasing order of their keys, the body if there is one. */
  ghost function TextLines(p: Payload, exclude: set<string>): seq<string> {
    [p.verb] + ([p.url] + HeaderLines(KeyOrder(p, exclude), p.headers) + if p.body == "" then [] else [p.body])
  }

  lemma TextOfLines(verb: string, url: string, lines: seq<string>, body: seq<string>)
    ensures verb + "\n" + url + Prefixed(lines) + Prefixed(body) == Join([verb] + ([url] + lines + body), '\n')
  {
    JoinIsPrefixed(verb, [url] + lines + body);
    PrefixedOfTwo([url] + lines, body);
    PrefixedOfTwo([url], lines);
    PrefixedOfOne(url);
    hide Prefixed, Join;
    assert "\n" == ['\n'];
  }

  lemma BodyLine(body: string)
    ensures Prefixed(if body == "" then [] else [body]) == if body == "" then "" else "\n" + body
  {
    PrefixedOfOne(body);
    assert "\n" == ['\n'];
  }

  /**
    For every request the text is exactly these lines: every key not excluded, once and in
    increasing order, each followed by all its values in theirs.
   */
  lemma PreimageIsAllLines(p: Payload, exclude: set<string>)
    ensures Preimage(p, exclude) == Join(TextLines(p, exclude), '\n')
    ensures Increasing(KeyOrder(p, exclude))
    ensures forall k :: k in KeyOrder(p, exclude) <==> k in p.headers && k !in exclude
  {
    var keys := KeyOrder(p, exclude);
    SortIsIncreasing(Listing(p.headers.Keys - exclude));
    hide Prefixed, HeaderText, HeaderLines, Join, SortStrings, Listing;
    HeaderTextIsPrefixed(keys, p.headers);
    BodyLine(p.body);
    TextOfLines(p.verb, p.url, HeaderLines(keys, p.headers), if p.body == "" then [] else [p.body]);
  }

  lemma PrefixedOfOne(line: string)
    ensures Prefixed([line]) == ['\n'] + line
  {
    assert [line][1..] == [];
    assert ['\n'] + line + "" == ['\n'] + line;
  }

  lemma {:induction false} LinesWithout(keys: seq<string>, headers: Headers)
    requires forall k :: k in keys ==> k in headers && OneLine(k) && Without(headers[k], '\n')
    ensures Without(HeaderLines(keys, headers), '\n')
  {
    if keys != [] {
      LinesWithout(keys[1..], headers);
      var k := keys[0];
      assert k in keys;
      assert Without([k] + headers[k], '\n');
    }
  }

  /** No newline in any part of the request. */
  predicate Unbroken(p: Payload) {
    OneLine(p.verb) && OneLine(p.url) && OneLine(p.body)
    && forall k :: k in p.headers ==> OneLine(k) && Without(p.headers[k], '\n')
  }

  lemma {:induction false} OneChangedLine(keys: seq<string>, a: Headers, b: Headers, key: string, tail: seq<string>)
    requires Distinct(keys) && key in keys
    requires forall k :: k in keys ==> k in a && k in b && (k != key ==> a[k] == b[k])
    requires HeaderLines(keys, a) + tail == HeaderLines(keys, b) + tail
    ensures a[key] == b[key]
  {
    var k := keys[0];
    var x, y := HeaderLines(keys[1..], a), HeaderLines(keys[1..], b);
    assert keys == [k] + keys[1..];
    assert HeaderLines(keys, a) == HeaderLines(keys, a)[..|HeaderLines(keys, a)|];
    assert |HeaderLines(keys, a)| == |HeaderLines(keys, b)| by {
      assert |HeaderLines(keys, a) + tail| == |HeaderLines(keys, b) + tail|;
    }
    assert HeaderLines(keys, a) == (HeaderLines(keys, a) + tail)[..|HeaderLines(keys, a)|];
    assert HeaderLines(keys, b) == (HeaderLines(keys, b) + tail)[..|HeaderLines(keys, b)|];
    if k == key {
      SameLines(keys[1..], a, b);
      assert [k] + a[k] + x == [k] + b[k] + x;
      assert |a[k]| == |b[k]|;
      assert a[k] == ([k] + a[k] + x)[1..1 + |a[k]|];
      assert b[k] == ([k] + b[k] + x)[1..1 + |b[k]|];
    } else {
      var front := [k] + a[k];
      assert front + x == front + y;
      assert x == (front + x)[|front|..] && y == (front + y)[|front|..];
      OneChangedLine(keys[1..], a, b, key, []);
    }
  }

  lemma {:induction false} SameLines(keys: seq<string>, a: Headers, b: Headers)
    requires forall k :: k in keys ==> k in a && k in b && a[k] == b[k]
    ensures HeaderLines(keys, a) == HeaderLines(keys, b)
  {
    if keys != [] { SameLines(keys[1..], a, b); }
  }

  lemma TextLinesUnbroken(p: Payload, exclude: set<string>)
    requires Unbroken(p)
    ensures Without(TextLines(p, exclude), '\n')
  {
    hide Preimage;
    PreimageIsAllLines(p, exclude);
    LinesWithout(KeyOrder(p, exclude), p.headers);
  }

  /** On unbroken requests the text determines its lines. */
  lemma TextDeterminesLines(p: Payload, q: Payload, exclude: set<string>)
    requires Unbroken(p) && Unbroken(q) && Preimage(p, exclude) == Preimage(q, exclude)
    ensures TextLines(p, exclude) == TextLines(q, exclude)
  {
    PreimageIsAllLines(p, exclude);
    PreimageIsAllLines(q, exclude);
    TextLinesUnbroken(p, exclude);
    TextLinesUnbroken(q, exclude);
    assert TextLines(p, exclude) != [] && TextLines(q, exclude) != [];
    hide Preimage, TextLines, Join, Split;
    SplitOfJoin(TextLines(p, exclude), '\n');
    SplitOfJoin(TextLines(q, exclude), '\n');
  }

  lemma LinesOf(p: Payload, exclude: set<string>)
    ensures TextLines(p, exclude)[2..]
         == HeaderLines(KeyOrder(p, exclude), p.headers) + if p.body == "" then [] else [p.body]
  {
  }

  /** Two unbroken requests that differ only in the values of one fingerprinted header have different texts. */
  lemma EveryValueCounts(p: Payload, exclude: set<string>, key: string, values: seq<string>)
    requires Unbroken(p) && Without(values, '\n') && key in p.headers && key !in exclude && values != p.headers[key]
    ensures Preimage(p, exclude) != Preimage(p.(headers := p.headers[key := values]), exclude)
  {
    var q := p.(headers := p.headers[key := values]);
    var keys := KeyOrder(p, exclude);
    assert q.headers.Keys == p.headers.Keys;
    assert KeyOrder(q, exclude) == keys;
    PreimageIsAllLines(p, exclude);
    KeyOrderIsDistinct(p, exclude);
    hide Preimage, KeyOrder, TextLines;
    if Preimage(p, exclude) == Preimage(q, exclude) {
      TextDeterminesLines(p, q, exclude);
      LinesOf(p, exclude);
      LinesOf(q, exclude);
      OneChangedLine(keys, p.headers, q.headers, key, if p.body == "" then [] else [p.body]);
    }
  }

  // ---- Reading a request back from its fingerprint text ------------------------------

  predicate OneLine(s: string) { '\n' !in s }

  /** Requests on which the text is unambiguous. */
  predicate Plain(p: Payload, exclude: set<string>) {
    && OneLine(p.verb) && OneLine(p.url) && p.body == ""
    && forall k :: k in p.headers && k !in exclude ==> OneLine(k) && |p.headers[k]| == 1 && OneLine(p.headers[k][0])
  }

  function PairUp(lines: seq<string>): Headers {
    if |lines| < 2 then map[] else PairUp(lines[2..])[lines[0] := [lines[1]]]
  }

  /** The parser: first line the method, second the URL, then names and values in turn. */
  function Parse(text: string): (string, string, Headers) {
    var lines := Split(text, '\n');
    if |lines| < 2 then ("", "", map[]) else (lines[0], lines[1], PairUp(lines[2..]))
  }

  function Pairs(keys: seq<string>, headers: Headers): seq<string>
    requires forall k :: k in keys ==> k in headers && |headers[k]| == 1
  {
    if keys == [] then [] else [keys[0], headers[keys[0]][0]] + Pairs(keys[1..], headers)
  }

  lemma HeaderTextStep(keys: seq<string>, headers: Headers, v: string)
    requires forall k :: k in keys ==> k in headers
    requires keys != [] && headers[keys[0]] == [v]
    ensures HeaderText(keys, headers) == ['\n'] + keys[0] + (['\n'] + v + HeaderText(keys[1..], headers))
  {
    assert ValueText([v]) == "\n" + v;
    assert "\n" == ['\n'];
  }

  lemma JoinOfCons(first: string, rest: seq<string>)
    requires rest != []
    ensures Join([first] + rest, '\n') == first + ['\n'] + Join(rest, '\n')
  {
    assert ([first] + rest)[1..] == rest;
  }

  lemma Regroup(first: string, k: string, v: string, tail: string)
    ensures first + (['\n'] + k + (['\n'] + v + tail)) == first + ['\n'] + (k + ['\n'] + (v + tail))
  {
  }

  lemma PairsStep(keys: seq<string>, headers: Headers, v: string)
    requires forall k :: k in keys ==> k in headers && |headers[k]| == 1
    requires keys != [] && headers[keys[0]] == [v]
    ensures Pairs(keys, headers) == [keys[0]] + ([v] + Pairs(keys[1..], headers))
  {
  }

  lemma {:induction false} HeaderTextIsLines(first: string, keys: seq<string>, headers: Headers)
    requires forall k :: k in keys ==> k in headers && |headers[k]| == 1
    ensures first + HeaderText(keys, headers) == Join([first] + Pairs(keys, headers), '\n')
    decreases |keys|
  {
    if keys == [] {
      assert [first] + Pairs(keys, headers) == [first];
    } else {
      hide Join, HeaderText, Pairs;
      var k, v := keys[0], headers[keys[0]][0];
      var rest, tail := Pairs(keys[1..], headers), HeaderText(keys[1..], headers);
      HeaderTextIsLines(v, keys[1..], headers);
      HeaderTextStep(keys, headers, v);
      PairsStep(keys, headers, v);
      JoinOfCons(k, [v] + rest);
      JoinOfCons(first, [k] + ([v] + rest));
      Regroup(first, k, v, tail);
    }
  }

  lemma PairUpOfTwo(name: string, value: string, rest: seq<string>)
    ensures PairUp([name, value] + rest) == PairUp(rest)[name := [value]]
  {
    assert ([name, value] + rest)[2..] == rest;
  }

  lemma {:induction false} PairUpOfPairs(keys: seq<string>, headers: Headers)
    requires (forall k :: k in keys ==> k in headers && |headers[k]| == 1) && Distinct(keys)
    ensures PairUp(Pairs(keys, headers)) == map k | k in keys :: headers[k]
  {
    if keys != [] {
      hide PairUp;
      PairUpOfPairs(keys[1..], headers);
      PairUpOfTwo(keys[0], headers[keys[0]][0], Pairs(keys[1..], headers));
      assert keys == [keys[0]] + keys[1..];
      assert headers[keys[0]] == [headers[keys[0]][0]];
    }
  }

  lemma {:induction false} PairsAreLines(keys: seq<string>, headers: Headers)
    requires forall k :: k in keys ==> k in headers && |headers[k]| == 1 && OneLine(k) && OneLine(headers[k][0])
    ensures Without(Pairs(keys, headers), '\n')
  {
    if keys != [] {
      PairsAreLines(keys[1..], headers);
      var pairs, rest := Pairs(keys, headers), Pairs(keys[1..], headers);
      forall i | 0 <= i < |pairs| ensures '\n' !in pairs[i] {
        if i >= 2 {
          assert pairs[i] == rest[i - 2];
        } else {
          assert keys[0] in keys && pairs[i] == if i == 0 then keys[0] else headers[keys[0]][0];
        }
      }
    }
  }

  lemma KeyOrderIsDistinct(p: Payload, exclude: set<string>)
    ensures Distinct(KeyOrder(p, exclude))
  {
    var keys := KeyOrder(p, exclude);
    SortIsIncreasing(Listing(p.headers.Keys - exclude));
    forall i, j | 0 <= i < j < |keys| ensures keys[i] != keys[j] { LessIrreflexive(keys[i]); }
  }

  lemma PreimageIsLines(p: Payload, exclude: set<string>)
    requires Plain(p, exclude)
    ensures Preimage(p, exclude) == Join([p.verb] + ([p.url] + Pairs(KeyOrder(p, exclude), p.headers)), '\n')
  {
    var keys := KeyOrder(p, exclude);
    HeaderTextIsLines(p.url, keys, p.headers);
    var lines := [p.url] + Pairs(keys, p.headers);
    assert ([p.verb] + lines)[1..] == lines;
    var tail := HeaderText(keys, p.headers);
    assert p.verb + "\n" + p.url + tail + "" == p.verb + ['\n'] + (p.url + tail);
  }

  /** On plain requests the parser recovers the method, the URL and every header that was not excluded. */
  lemma ParseRecovers(p: Payload, exclude: set<string>)
    requires Plain(p, exclude)
    ensures Parse(Preimage(p, exclude)) == (p.verb, p.url, p.headers - exclude)
  {
    var keys := KeyOrder(p, exclude);
    var pairs := Pairs(keys, p.headers);
    var lines := [p.verb] + ([p.url] + pairs);
    PreimageIsLines(p, exclude);
    PairsAreLines(keys, p.headers);
    SplitOfJoin(lines, '\n');
    assert lines[2..] == pairs;
    KeyOrderIsDistinct(p, exclude);
    PairUpOfPairs(keys, p.headers);
    assert p.headers - exclude == map k | k in keys :: p.headers[k];
  }

  /** So two plain requests with one fingerprint text are the same request, apart from excluded headers. */
  lemma FingerprintIsInjective(p: Payload, q: Payload, exclude: set<string>)
    requires Plain(p, exclude) && Plain(q, exclude) && Preimage(p, exclude) == Preimage(q, exclude)
    ensures p.verb == q.verb && p.url == q.url && p.headers - exclude == q.headers - exclude
  {
    ParseRecovers(p, exclude);
    ParseRecovers(q, exclude);
  }

  lemma HeaderPreimage(verb: string, url: string, k: string, v: string)
    ensures Preimage(Payload(verb, url, map[k := [v]], "", "", ""), {}) == verb + "\n" + url + ("\n" + k + "\n" + v)
  {
    var header: Headers := map[k := [v]];
    OneKeyOrder(Payload(verb, url, header, "", "", ""), [k]);
    OneHeaderText(k, header);
    assert ValueText([v]) == "\n" + v + ValueText([]);
    assert HeaderText([k], header) == "\n" + k + "\n" + v;
    assert verb + "\n" + url + ("\n" + k + "\n" + v) + "" == verb + "\n" + url + ("\n" + k + "\n" + v);
  }

  lemma LineInUrlPreimage(verb: string, url: string)
    ensures Preimage(Payload(verb, url, map[], "", "", ""), {}) == verb + "\n" + url
  {
    OneKeyOrder(Payload(verb, url, map[], "", "", ""), []);
    assert verb + "\n" + url + "" + "" == verb + "\n" + url;
  }

  lemma TwoNamesPreimage(verb: string, url: string, k: string, v: string)
    requires Less(k, v)
    ensures Preimage(Payload(verb, url, map[k := [], v := []], "", "", ""), {})
         == verb + "\n" + url + ("\n" + k + "\n" + v)
  {
    LessIrreflexive(k);
    var two: Headers := map[k := [], v := []];
    OneKeyOrder(Payload(verb, url, two, "", "", ""), [k, v]);
    OneHeaderText(v, two);
    assert [k, v][1..] == [v];
    assert HeaderText([k, v], two) == "\n" + k + "\n" + v;
    assert verb + "\n" + url + ("\n" + k + "\n" + v) + "" == verb + "\n" + url + ("\n" + k + "\n" + v);
  }

  lemma BodyPreimage(verb: string, url: string, k: string, v: string)
    requires v != ""
    ensures Preimage(Payload(verb, url, map[k := []], v, "", ""), {}) == verb + "\n" + url + ("\n" + k + "\n" + v)
  {
    var bare: Headers := map[k := []];
    OneKeyOrder(Payload(verb, url, bare, v, "", ""), [k]);
    OneHeaderText(k, bare);
    assert verb + "\n" + url + ("\n" + k + "") + ("\n" + v) == verb + "\n" + url + ("\n" + k + "\n" + v);
  }

  /**
    Outside the plain requests the text is ambiguous, whatever the parts: a header reads like
    two more lines of the URL, like two headers without values, or like a header and a body.
   */
  lemma OutsideThePlainRequests(verb: string, url: string, k: string, v: string)
    requires Less(k, v)
    ensures var header := Preimage(Payload(verb, url, map[k := [v]], "", "", ""), {});
            && Preimage(Payload(verb, url + ("\n" + k + "\n" + v), map[], "", "", ""), {}) == header
            && Preimage(Payload(verb, url, map[k := [], v := []], "", "", ""), {}) == header
            && Preimage(Payload(verb, url, map[k := []], v, "", ""), {}) == header
  {
    hide Preimage;
    HeaderPreimage(verb, url, k, v);
    LineInUrlPreimage(verb, url + ("\n" + k + "\n" + v));
    TwoNamesPreimage(verb, url, k, v);
    BodyPreimage(verb, url, k, v);
    assert verb + "\n" + (url + ("\n" + k + "\n" + v)) == verb + "\n" + url + ("\n" + k + "\n" + v);
  }

  lemma OneHeaderText(k: string, headers: Headers)
    requires k in headers
    ensures HeaderText([k], headers) == "\n" + k + ValueText(headers[k])
  {
    assert [k][1..] == [];
  }

  lemma OneKeyOrder(p: Payload, keys: seq<string>)
    requires Increasing(keys) && forall k :: k in keys <==> k in p.headers
    ensures KeyOrder(p, {}) == keys
  {
    assert p.headers.Keys - {} == p.headers.Keys;
    SortIsIncreasing(Listing(p.headers.Keys));
    IncreasingIsUnique(KeyOrder(p, {}), keys);
  }
}
