/** setUpstreamHeaders of serbewr/prawxxey/forward.go: which header fields reach the upstream server. */
module HeaderFilter {
  import opened Text
  import opened HeaderLists
  import opened Fingerprint

  /** Section 7.6.1 of RFC 9110; the code keeps nine names. */
  const HOP_BY_HOP := {
    "Connection", "Keep-Alive", "Proxy-Authenticate", "Proxy-Authorization", "Te",
    "Trailer", "Trailers", "Transfer-Encoding", "Upgrade"
  }

  /** http.Header: keys are canonicalised on the way in. */
  class HttpHeader {
    var fields: Headers

    constructor ()
      ensures fields == map[]
    {
      fields := map[];
    }

    method Add(key: string, value: string)
      modifies this
      ensures fields == Appended(old(fields), CanonicalKey(key), [value])
    {
      var k := CanonicalKey(key);
      fields := fields[k := (if k in fields then fields[k] else []) + [value]];
    }

    method Set(key: string, value: string)
      modifies this
      ensures fields == old(fields)[CanonicalKey(key) := [value]]
    {
      fields := fields[CanonicalKey(key) := [value]];
    }
  }

  function Appended(fields: Headers, key: string, values: seq<string>): Headers {
    if values == [] then fields
    else fields[key := (if key in fields then fields[key] else []) + values]
  }

  lemma AppendedTwice(fields: Headers, key: string, values: seq<string>, last: string)
    ensures Appended(Appended(fields, key, values), key, [last]) == Appended(fields, key, values + [last])
  {
    if values == [] {
      assert values + [last] == [last];
    } else {
      var had := if key in fields then fields[key] else [];
      assert had + values + [last] == had + (values + [last]);
    }
  }

  predicate IsConnection(key: string) { EqualFold(key, "Connection") }

  /** The names listed by these elements of a Connection field. */
  ghost function NamesIn(elements: seq<string>): set<string> {
    (set e | e in elements :: ReadToken(e)) - {""}
  }

  ghost function NamesUnder(keys: set<string>, headers: Headers): set<string> {
    set k, n | k in keys && k in headers && IsConnection(k) && n in NamesIn(Elements(headers[k])) :: n
  }

  /** Every name listed in any Connection field. */
  ghost function ConnectionNames(headers: Headers): set<string> { NamesUnder(headers.Keys, headers) }

  lemma NamesUnderStep(keys: set<string>, headers: Headers, key: string)
    requires key in headers
    ensures NamesUnder(keys + {key}, headers)
         == NamesUnder(keys, headers) + if IsConnection(key) then NamesIn(Elements(headers[key])) else {}
  {
    hide Elements, NamesIn, IsConnection;
  }

  lemma NamesAppend(a: seq<string>, e: string)
    ensures NamesIn(a + [e]) == NamesIn(a) + if ReadToken(e) == "" then {} else {ReadToken(e)}
  {
    assert forall x :: x in a + [e] <==> x in a || x == e;
  }

  method ConnectionHeaderNames(headers: Headers) returns (names: set<string>)
    ensures names == ConnectionNames(headers)
  {
    hide Elements, NamesIn, IsConnection;
    names := {};
    var keys := headers.Keys;
    while keys != {}
      invariant keys <= headers.Keys
      invariant names == NamesUnder(headers.Keys - keys, headers)
      decreases keys
    {
      var key :| key in keys;
      NamesUnderStep(headers.Keys - keys, headers, key);
      assert headers.Keys - (keys - {key}) == headers.Keys - keys + {key};
      if IsConnection(key) {
        var line := TokensOf(headers[key]);
        names := names + line;
      }
      keys := keys - {key};
    }
    assert headers.Keys - keys == headers.Keys;
  }

  method TokensOf(values: seq<string>) returns (names: set<string>)
    ensures names == NamesIn(Elements(values))
  {
    names := {};
    for i := 0 to |values|
      invariant names == NamesIn(Elements(values[..i]))
    {
      var parts := Split(values[i], ',');
      ghost var before := Elements(values[..i]);
      for j := 0 to |parts|
        invariant names == NamesIn(before + parts[..j])
      {
        assert before + parts[..j + 1] == before + parts[..j] + [parts[j]];
        NamesAppend(before + parts[..j], parts[j]);
        var name := CanonicalKey(TrimSpace(parts[j]));
        if name != "" { names := names + {name}; }
      }
      assert before + parts[..|parts|] == before + parts;
      ElementsSnoc(values[..i], values[i]);
      assert values[..i + 1] == values[..i] + [values[i]];
    }
    assert values[..|values|] == values;
  }

  // ---- The filter as a function of the order in which the map is walked ---------

  /** The values that end up under canonical key `key` when the map is walked in this order. */
  ghost function Gather(order: seq<string>, input: Headers, key: string): seq<string>
    requires forall k :: k in order ==> k in input
  {
    if order == [] then []
    else
      var last := order[|order| - 1];
      Gather(order[..|order| - 1], input, key) + if CanonicalKey(last) == key then input[last] else []
  }

  /** The names the proxy does not pass on. */
  ghost function Dropped(input: Headers): set<string> { HOP_BY_HOP + ConnectionNames(input) }

  ghost function Filtered(drop: set<string>, order: seq<string>, input: Headers): Headers
    requires forall k :: k in order ==> k in input
  {
    map k | k in order && CanonicalKey(k) !in drop && Gather(order, input, CanonicalKey(k)) != []
          :: CanonicalKey(k) := Gather(order, input, CanonicalKey(k))
  }

  /** `order` walks the whole map, every key once. */
  ghost predicate Walks(order: seq<string>, input: Headers) {
    && (forall k :: k in order <==> k in input)
    && (forall i, j :: 0 <= i < j < |order| ==> order[i] != order[j])
  }

  /** Header.Set, skipped for an empty value. */
  function Put(fields: Headers, name: string, value: string): Headers {
    if value == "" then fields else fields[CanonicalKey(name) := [value]]
  }

  /** The proxy's own fields come last and replace what the client sent. */
  function Forwarded(fields: Headers, source: Payload): Headers {
    var a := Put(fields, "X-Forwarded-For", source.clientIP);
    Put(Put(a, "X-Real-IP", source.clientIP), "X-Forwarded-Proto", source.proto)
  }

  lemma GatherNeedsKey(order: seq<string>, input: Headers, key: string)
    requires forall k :: k in order ==> k in input
    requires Gather(order, input, key) != []
    ensures exists k :: k in order && CanonicalKey(k) == key
  {
    var last := order[|order| - 1];
    if CanonicalKey(last) != key { GatherNeedsKey(order[..|order| - 1], input, key); }
  }

  lemma FilteredLookup(drop: set<string>, order: seq<string>, input: Headers, key: string)
    requires forall k :: k in order ==> k in input
    ensures key in Filtered(drop, order, input) <==> key !in drop && Gather(order, input, key) != []
    ensures key in Filtered(drop, order, input) ==> Filtered(drop, order, input)[key] == Gather(order, input, key)
  {
    if Gather(order, input, key) != [] { GatherNeedsKey(order, input, key); }
  }

  /** One more key of the walk. */
  lemma FilteredStep(drop: set<string>, order: seq<string>, input: Headers, last: string)
    requires last in input && forall k :: k in order ==> k in input
    ensures Filtered(drop, order + [last], input)
         == if CanonicalKey(last) in drop then Filtered(drop, order, input)
            else Appended(Filtered(drop, order, input), CanonicalKey(last), input[last])
  {
    hide Filtered, CanonicalKey;
    var longer := order + [last];
    assert longer[..|order|] == order;
    var a := Filtered(drop, longer, input);
    var was := Filtered(drop, order, input);
    var b := if CanonicalKey(last) in drop then was else Appended(was, CanonicalKey(last), input[last]);
    forall key ensures (key in a <==> key in b) && (key in a ==> a[key] == b[key]) {
      FilteredLookup(drop, order, input, key);
      FilteredLookup(drop, longer, input, key);
    }
    assert a == b;
  }

  method AddAll(header: HttpHeader, key: string, values: seq<string>)
    modifies header
    ensures header.fields == Appended(old(header.fields), CanonicalKey(key), values)
  {
    for j := 0 to |values|
      invariant header.fields == Appended(old(header.fields), CanonicalKey(key), values[..j])
    {
      AppendedTwice(old(header.fields), CanonicalKey(key), values[..j], values[j]);
      assert values[..j + 1] == values[..j] + [values[j]];
      header.Add(key, values[j]);
    }
    assert values[..|values|] == values;
  }

  method SetUpstreamHeaders(header: HttpHeader, source: Payload) returns (ghost order: seq<string>)
    requires header.fields == map[]
    modifies header
    ensures Walks(order, source.headers)
    ensures header.fields == Forwarded(Filtered(Dropped(source.headers), order, source.headers), source)
  {
    var listed := ConnectionHeaderNames(source.headers);
    order := CopyHeaders(header, source.headers, HOP_BY_HOP, listed);
    if source.clientIP != "" {
      header.Set("X-Forwarded-For", source.clientIP);
      header.Set("X-Real-IP", source.clientIP);
    }
    if source.proto != "" {
      header.Set("X-Forwarded-Proto", source.proto);
    }
  }

  /** The loop over the payload's header map. */
  method CopyHeaders(header: HttpHeader, input: Headers, hopByHop: set<string>, listed: set<string>)
    returns (ghost order: seq<string>)
    requires header.fields == map[]
    modifies header
    ensures Walks(order, input) && header.fields == Filtered(hopByHop + listed, order, input)
  {
    var keys := input.Keys;
    order := [];
    while keys != {}
      invariant keys <= input.Keys
      invariant forall k :: k in order <==> k in input && k !in keys
      invariant forall i, j :: 0 <= i < j < |order| ==> order[i] != order[j]
      invariant header.fields == Filtered(hopByHop + listed, order, input)
      decreases keys
    {
      var key :| key in keys;
      keys := keys - {key};
      var canonical := CanonicalKey(key);
      FilteredStep(hopByHop + listed, order, input, key);
      if canonical !in hopByHop && canonical !in listed {
        AddAll(header, key, input[key]);
      }
      order := order + [key];
    }
  }

  // ---- What the filter lets through ----------------------------------------------

  /** `part` occurs in `whole` in one piece. */
  ghost predicate Inside(part: seq<string>, whole: seq<string>) {
    exists before, after :: whole == before + part + after
  }

  lemma {:induction false} GatherKeepsBlocks(order: seq<string>, input: Headers, k: string)
    requires (forall j :: j in order ==> j in input) && k in order
    ensures Inside(input[k], Gather(order, input, CanonicalKey(k)))
  {
    hide CanonicalKey;
    var n := |order| - 1;
    var key := CanonicalKey(k);
    var rest := Gather(order[..n], input, key);
    if order[n] == k {
      assert rest + input[k] == rest + input[k] + [];
      assert Inside(input[k], rest + input[k]);
    } else {
      GatherKeepsBlocks(order[..n], input, k);
      var before, after :| rest == before + input[k] + after;
      var more := if CanonicalKey(order[n]) == key then input[order[n]] else [];
      assert rest + more == before + input[k] + (after + more);
    }
  }

  lemma {:induction false} GatherDistinct(order: seq<string>, input: Headers, k: string)
    requires forall j :: j in order ==> j in input
    requires forall i, j :: 0 <= i < j < |order| && order[i] == k ==> order[j] != k
    requires forall j :: j in order && CanonicalKey(j) == CanonicalKey(k) ==> j == k
    ensures Gather(order, input, CanonicalKey(k)) == if k in order then input[k] else []
  {
    hide CanonicalKey;
    if order != [] {
      var n := |order| - 1;
      GatherDistinct(order[..n], input, k);
      if order[n] == k {
        assert k !in order[..n];
      } else {
        assert k in order <==> k in order[..n];
      }
    }
  }

  // ---- Nothing else gets in: the values are the spellings' value lists and no more --------

  /** The spellings of a canonical key, in the order of the walk. */
  ghost function Spellings(order: seq<string>, key: string): seq<string> {
    if order == [] then []
    else
      var last := order[|order| - 1];
      Spellings(order[..|order| - 1], key) + if CanonicalKey(last) == key then [last] else []
  }

  /** The value lists sent under these spellings, one after the other. */
  ghost function Blocks(spellings: seq<string>, input: Headers): seq<string>
    requires forall k :: k in spellings ==> k in input
  {
    if spellings == [] then []
    else Blocks(spellings[..|spellings| - 1], input) + input[spellings[|spellings| - 1]]
  }

  /** Every spelling of the key in the map, each once. */
  ghost predicate AllSpellings(spellings: seq<string>, input: Headers, key: string) {
    && (forall k :: k in spellings <==> k in input && CanonicalKey(k) == key)
    && (forall i, j :: 0 <= i < j < |spellings| ==> spellings[i] != spellings[j])
  }

  lemma {:induction false} SpellingsOfWalk(order: seq<string>, key: string)
    requires forall i, j :: 0 <= i < j < |order| ==> order[i] != order[j]
    ensures var all := Spellings(order, key);
      && (forall k :: k in all <==> k in order && CanonicalKey(k) == key)
      && (forall i, j :: 0 <= i < j < |all| ==> all[i] != all[j])
  {
    hide CanonicalKey;
    if order != [] {
      var n := |order| - 1;
      SpellingsOfWalk(order[..n], key);
      assert order == order[..n] + [order[n]];
    }
  }

  lemma {:induction false} GatherIsBlocks(order: seq<string>, input: Headers, key: string)
    requires forall k :: k in order ==> k in input
    ensures forall k :: k in Spellings(order, key) ==> k in input
    ensures Gather(order, input, key) == Blocks(Spellings(order, key), input)
  {
    hide CanonicalKey;
    if order != [] {
      var n := |order| - 1;
      GatherIsBlocks(order[..n], input, key);
      var before := Spellings(order[..n], key);
      assert (before + [order[n]])[..|before|] == before;
      assert before + [] == before;
    }
  }

  /** The values sent under a key are exactly the value lists of its spellings, in some order of the spellings. */
  lemma SentValuesAreBlocks(order: seq<string>, input: Headers, key: string) returns (spellings: seq<string>)
    requires Walks(order, input) && key in Filtered(Dropped(input), order, input)
    ensures AllSpellings(spellings, input, key)
    ensures Filtered(Dropped(input), order, input)[key] == Blocks(spellings, input)
  {
    hide CanonicalKey, Gather, Blocks, Spellings, Filtered, Dropped;
    FilteredLookup(Dropped(input), order, input, key);
    SpellingsOfWalk(order, key);
    GatherIsBlocks(order, input, key);
    spellings := Spellings(order, key);
  }

  /**
    What reaches the upstream server, before the proxy adds its own fields: a key is there
    exactly when some spelling of it has a value and it is neither hop-by-hop nor listed in a
    Connection field, its values are those of its spellings, all of them and no other, and the
    values sent under each spelling stay together and in order.
   */
  lemma FilterIsExact(order: seq<string>, input: Headers, key: string)
    requires Walks(order, input)
    ensures var sent := Filtered(Dropped(input), order, input);
      && (key in sent <==>
            key !in HOP_BY_HOP && key !in ConnectionNames(input)
            && exists k :: k in input && CanonicalKey(k) == key && input[k] != [])
      && (key in sent ==> exists all :: AllSpellings(all, input, key) && sent[key] == Blocks(all, input))
      && (key in sent ==> forall k :: k in input && CanonicalKey(k) == key ==> Inside(input[k], sent[key]))
  {
    hide CanonicalKey, Gather, Blocks, Filtered, Inside;
    if key in Filtered(Dropped(input), order, input) { var all := SentValuesAreBlocks(order, input, key); }
    FilteredLookup(Dropped(input), order, input, key);
    GatherNonEmpty(order, input, key);
    forall k | k in input && CanonicalKey(k) == key ensures Inside(input[k], Gather(order, input, key)) {
      GatherKeepsBlocks(order, input, k);
    }
  }

  /** A key sent in one spelling keeps exactly its values. */
  lemma OneSpellingKeepsValues(order: seq<string>, input: Headers, k: string)
    requires Walks(order, input) && k in input
    requires forall j :: j in input && CanonicalKey(j) == CanonicalKey(k) ==> j == k
    requires CanonicalKey(k) in Filtered(Dropped(input), order, input)
    ensures Filtered(Dropped(input), order, input)[CanonicalKey(k)] == input[k]
  {
    FilteredLookup(Dropped(input), order, input, CanonicalKey(k));
    GatherDistinct(order, input, k);
  }

  lemma {:induction false} GatherNonEmpty(order: seq<string>, input: Headers, key: string)
    requires forall k :: k in order ==> k in input
    ensures Gather(order, input, key) != [] <==> exists k :: k in order && CanonicalKey(k) == key && input[k] != []
  {
    hide CanonicalKey;
    if order != [] {
      var n := |order| - 1;
      GatherNonEmpty(order[..n], input, key);
      if k :| k in order && CanonicalKey(k) == key && input[k] != [] {
        assert k in order[..n] || k == order[n];
      }
      assert order[n] in order;
    }
  }

  /** No spelling of a hop-by-hop name is sent, in whatever case its letters are. */
  lemma HopByHopIsNeverSent(order: seq<string>, input: Headers, name: string, spelling: string)
    requires Walks(order, input) && name in HOP_BY_HOP && LowerAll(spelling) == LowerAll(name)
    ensures CanonicalKey(spelling) == name && name !in Filtered(Dropped(input), order, input)
  {
    TableIsCanonical(name);
    KeyOfSpelling(name, spelling);
    hide Filtered, CanonicalKey;
    FilteredLookup(Dropped(input), order, input, name);
  }

  lemma KeyHasLength(s: string)
    ensures |CanonicalKey(s)| == |s|
  {
  }

  lemma ListedIsDropped(input: Headers, field: string, element: string)
    requires field in input && IsConnection(field) && element in Elements(input[field]) && ReadToken(element) != ""
    ensures ReadToken(element) in Dropped(input)
  {
    hide IsConnection, Elements, ReadToken;
    assert ReadToken(element) in NamesIn(Elements(input[field]));
    assert ReadToken(element) in ConnectionNames(input);
  }

  /** Nor is a field whose name some Connection field lists, in whatever case either is spelled. */
  lemma ListedIsNeverSent(order: seq<string>, input: Headers, field: string, element: string, spelling: string)
    requires Walks(order, input) && field in input && IsConnection(field) && element in Elements(input[field])
    requires Token(TrimSpace(element)) && TrimSpace(element) != "" && LowerAll(spelling) == LowerAll(TrimSpace(element))
    ensures CanonicalKey(spelling) !in Filtered(Dropped(input), order, input)
  {
    var token := TrimSpace(element);
    CanonicalIgnoresCase(token, spelling);
    KeyHasLength(token);
    ListedIsDropped(input, field, element);
    hide Filtered, Dropped, CanonicalKey, IsConnection, Elements, TrimSpace, Token, LowerAll, Gather;
    FilteredLookup(Dropped(input), order, input, CanonicalKey(spelling));
  }

  lemma ForwardedForIsCanonical()
    ensures CanonicalKey("X-Forwarded-For") == "X-Forwarded-For"
  {
    hide CanonicalKey;
    CanonicalIsItself("X-Forwarded-For");
  }

  lemma ForwardedProtoIsCanonical()
    ensures CanonicalKey("X-Forwarded-Proto") == "X-Forwarded-Proto"
  {
    hide CanonicalKey;
    CanonicalIsItself("X-Forwarded-Proto");
  }

  lemma RealIpIsCanonical()
    ensures CanonicalKey("X-Real-IP") == "X-Real-Ip"
  {
    RealIpSpelling();
    SameLetters("X-Real-IP", "X-Real-Ip");
    hide CanonicalKey, LowerAll;
    KeyOfSpelling("X-Real-Ip", "X-Real-IP");
  }

  lemma RealIpSpelling()
    ensures Token("X-Real-Ip") && CanonicalKey("X-Real-Ip") == "X-Real-Ip"
  {
    hide CanonicalKey;
    CanonicalIsItself("X-Real-Ip");
  }

  lemma SameLetters(a: string, b: string)
    requires |a| == |b| && forall i :: 0 <= i < |a| ==> Lower(a[i]) == Lower(b[i])
    ensures LowerAll(a) == LowerAll(b)
  {
    assert |LowerAll(a)| == |LowerAll(b)|;
  }

  /** The proxy's own fields: the client's address under two names and the protocol, each only if known; nothing else. */
  lemma OwnFieldsAreSet(fields: Headers, source: Payload, key: string)
    ensures var sent := Forwarded(fields, source);
      var own := if key == "X-Forwarded-For" || key == "X-Real-Ip" then source.clientIP
                 else if key == "X-Forwarded-Proto" then source.proto else "";
      if own != "" then key in sent && sent[key] == [own]
      else (key in sent <==> key in fields) && (key in sent ==> sent[key] == fields[key])
  {
    ForwardedForIsCanonical();
    ForwardedProtoIsCanonical();
    RealIpIsCanonical();
    hide CanonicalKey;
  }

  // ---- Applying the filter to its own output ---------------------------------------

  lemma ConnectionIsPlain()
    ensures Token("Connection") && forall i :: 0 <= i < 10 ==> "Connection"[i] !in {'s', 'S', 'k', 'K'}
  {
  }

  lemma ConnectionIsCanonical()
    ensures CanonicalKey("Connection") == "Connection"
  {
    ConnectionIsPlain();
    var c := "Connection";
    var t := Capitalise(c, true);
    forall i | 0 <= i < |c| ensures t[i] == c[i] { assert t[i] == CaseAt(c, i, true); }
    assert t == c;
  }

  lemma ConnectionIsHopByHop()
    ensures "Connection" in HOP_BY_HOP
  {
  }

  lemma TableIsCanonical(name: string)
    requires name in HOP_BY_HOP
    ensures Token(name) && CanonicalKey(name) == name
  {
    hide CanonicalKey;
    TableIsInCase(name);
    CanonicalIsItself(name);
  }

  /** A valid field name written in canonical case. */
  predicate InCase(name: string) { Token(name) && forall i :: 0 <= i < |name| ==> CaseAt(name, i, true) == name[i] }

  lemma PlainNamesInCase()
    ensures InCase("Connection") && InCase("Te") && InCase("Trailer") && InCase("Trailers") && InCase("Upgrade")
  {
  }

  lemma HyphenNamesInCase()
    ensures InCase("Keep-Alive") && InCase("Transfer-Encoding")
  {
  }

  lemma AuthenticateInCase()
    ensures InCase("Proxy-Authenticate")
  {
  }

  lemma AuthorizationInCase()
    ensures InCase("Proxy-Authorization")
  {
  }

  lemma TableIsInCase(name: string)
    requires name in HOP_BY_HOP
    ensures InCase(name)
  {
    hide InCase;
    PlainNamesInCase();
    HyphenNamesInCase();
    AuthenticateInCase();
    AuthorizationInCase();
  }

  /** Every spelling of Connection canonicalises to the name the filter drops. */
  lemma ConnectionIsDropped(key: string)
    requires IsConnection(key)
    ensures CanonicalKey(key) == "Connection"
  {
    ConnectionIsPlain();
    ConnectionIsCanonical();
    FoldIsLower(key, "Connection");
    TokenIgnoresCase(key, "Connection");
    CanonicalIgnoresCase(key, "Connection");
  }

  /** A header set in the form the filter produces. */
  ghost predicate Settled(drop: set<string>, input: Headers) {
    forall k :: k in input ==> CanonicalKey(k) == k && k !in drop && input[k] != [] && !IsConnection(k)
  }

  lemma SettledListsNothing(input: Headers)
    requires forall k :: k in input ==> !IsConnection(k)
    ensures ConnectionNames(input) == {}
  {
  }

  lemma FilteredIsSettled(drop: set<string>, order: seq<string>, input: Headers)
    requires (forall k :: k in order ==> k in input) && "Connection" in drop
    ensures Settled(drop, Filtered(drop, order, input))
  {
    var a := Filtered(drop, order, input);
    forall key | key in a
      ensures CanonicalKey(key) == key && key !in drop && a[key] != [] && !IsConnection(key)
    {
      FilteredLookup(drop, order, input, key);
      GatherNeedsKey(order, input, key);
      var k :| k in order && CanonicalKey(k) == key;
      CanonicalIdempotent(k);
      if IsConnection(key) { ConnectionIsDropped(key); }
    }
  }

  /** Off the dropped names a settled header set passes unchanged, in whatever order it is walked. */
  lemma SettledPasses(drop: set<string>, order: seq<string>, input: Headers, key: string)
    requires Walks(order, input) && key !in drop
    requires forall k :: k in input ==> CanonicalKey(k) == k && input[k] != []
    ensures key in Filtered(drop, order, input) <==> key in input
    ensures key in input ==> Filtered(drop, order, input)[key] == input[key]
  {
    FilteredLookup(drop, order, input, key);
    GatherNonEmpty(order, input, key);
    if key in input { GatherDistinct(order, input, key); }
  }

  /** Applying the filter to its own output changes nothing, in whatever order either map is walked. */
  lemma FilterIsIdempotent(order: seq<string>, input: Headers, order': seq<string>)
    requires Walks(order, input)
    requires Walks(order', Filtered(Dropped(input), order, input))
    ensures var once := Filtered(Dropped(input), order, input);
            Filtered(Dropped(once), order', once) == once
  {
    ConnectionIsHopByHop();
    FilteredIsSettled(Dropped(input), order, input);
    var once := Filtered(Dropped(input), order, input);
    SettledListsNothing(once);
    FilterOfSettled(Dropped(input), Dropped(once), order', once);
  }

  lemma FilterOfSettled(drop: set<string>, drop': set<string>, order: seq<string>, input: Headers)
    requires drop' <= drop && Settled(drop, input) && Walks(order, input)
    ensures Filtered(drop', order, input) == input
  {
    hide Filtered, CanonicalKey, Gather, IsConnection;
    var a := Filtered(drop', order, input);
    forall key ensures (key in a <==> key in input) && (key in a ==> a[key] == input[key]) {
      if key !in drop' {
        SettledPasses(drop', order, input, key);
      } else {
        FilteredLookup(drop', order, input, key);
      }
    }
    assert a == input;
  }

  /** The names the proxy sets itself are canonical and no spelling of Connection. */
  lemma OwnNameIsOrdinary(name: string)
    requires |name| != 10
    ensures CanonicalKey(CanonicalKey(name)) == CanonicalKey(name) && !IsConnection(CanonicalKey(name))
  {
    CanonicalIdempotent(name);
    assert |FoldAll(CanonicalKey(name))| == |name| && |FoldAll("Connection")| == 10;
  }

  ghost predicate Ordinary(h: Headers) {
    forall k :: k in h ==> CanonicalKey(k) == k && h[k] != [] && !IsConnection(k)
  }

  lemma PutIsOrdinary(h: Headers, name: string, value: string)
    requires Ordinary(h) && |name| != 10
    ensures Ordinary(Put(h, name, value))
  {
    hide CanonicalKey, IsConnection;
    OwnNameIsOrdinary(name);
  }

  lemma ForwardedIsOrdinary(once: Headers, source: Payload)
    requires Ordinary(once)
    ensures Ordinary(Forwarded(once, source))
  {
    var a := Put(once, "X-Forwarded-For", source.clientIP);
    PutIsOrdinary(once, "X-Forwarded-For", source.clientIP);
    PutIsOrdinary(a, "X-Real-IP", source.clientIP);
    PutIsOrdinary(Put(a, "X-Real-IP", source.clientIP), "X-Forwarded-Proto", source.proto);
  }

  /** A second proxy pass over the finished header set sends the very same set. */
  lemma SecondPassIsIdentity(order: seq<string>, source: Payload, order': seq<string>, again: Payload)
    requires Walks(order, source.headers)
    requires again == source.(headers := Forwarded(Filtered(Dropped(source.headers), order, source.headers), source))
    requires Walks(order', again.headers)
    ensures Forwarded(Filtered(Dropped(again.headers), order', again.headers), again) == again.headers
  {
    var drop := Dropped(source.headers);
    var once := Filtered(drop, order, source.headers);
    ConnectionIsHopByHop();
    FilteredIsSettled(drop, order, source.headers);
    ForwardedIsOrdinary(once, source);
    SettledListsNothing(again.headers);
    ForwardedAgain(drop, Dropped(again.headers), once, order', source, again);
  }

  lemma ForwardedAgain(drop: set<string>, drop': set<string>, once: Headers, order: seq<string>,
                       source: Payload, again: Payload)
    requires drop' <= drop && Settled(drop, once)
    requires again == source.(headers := Forwarded(once, source)) && Walks(order, again.headers)
    requires forall k :: k in again.headers ==> CanonicalKey(k) == k && again.headers[k] != []
    ensures Forwarded(Filtered(drop', order, again.headers), again) == again.headers
  {
    var input := again.headers;
    var twice := Filtered(drop', order, input);
    forall key | key in once || key !in input ensures (key in twice <==> key in input) && (key in twice ==> twice[key] == input[key]) {
      FilteredLookup(drop', order, input, key);
      if key !in drop' { SettledPasses(drop', order, input, key); }
    }
    ForwardedCovers(once, twice, source);
  }

  /** `b` agrees with `a` except perhaps at the names in `at`. */
  ghost predicate Agree(a: Headers, b: Headers, at: set<string>) {
    forall k :: k !in at ==> (k in a <==> k in b) && (k in a ==> a[k] == b[k])
  }

  function Touched(name: string, value: string): set<string> {
    if value == "" then {} else {CanonicalKey(name)}
  }

  lemma PutRepairs(a: Headers, b: Headers, at: set<string>, name: string, value: string)
    requires Agree(a, b, at)
    ensures Agree(Put(a, name, value), Put(b, name, value), at - Touched(name, value))
  {
  }

  /** Setting the proxy's own fields again repairs whatever happened to them in between. */
  lemma ForwardedCovers(once: Headers, twice: Headers, source: Payload)
    requires forall key :: key in once || key !in Forwarded(once, source) ==>
               (key in twice <==> key in Forwarded(once, source))
               && (key in twice ==> twice[key] == Forwarded(once, source)[key])
    ensures Forwarded(twice, source) == Forwarded(once, source)
  {
    var x, y, z := "X-Forwarded-For", "X-Real-IP", "X-Forwarded-Proto";
    ThreePuts(once, twice, x, source.clientIP, y, source.clientIP, z, source.proto);
  }

  lemma ThreePuts(once: Headers, twice: Headers, x: string, xv: string, y: string, yv: string, z: string, zv: string)
    requires var h := Put(Put(Put(once, x, xv), y, yv), z, zv);
             forall key :: key in once || key !in h ==> (key in twice <==> key in h) && (key in twice ==> twice[key] == h[key])
    ensures Put(Put(Put(twice, x, xv), y, yv), z, zv) == Put(Put(Put(once, x, xv), y, yv), z, zv)
  {
    var h := Put(Put(Put(once, x, xv), y, yv), z, zv);
    var own := Touched(x, xv) + Touched(y, yv) + Touched(z, zv);
    assert Agree(once, twice, own);
    PutRepairs(once, twice, own, x, xv);
    PutRepairs(Put(once, x, xv), Put(twice, x, xv), own - Touched(x, xv), y, yv);
    PutRepairs(Put(Put(once, x, xv), y, yv), Put(Put(twice, x, xv), y, yv), own - Touched(x, xv) - Touched(y, yv), z, zv);
    assert own - Touched(x, xv) - Touched(y, yv) - Touched(z, zv) == {};
    var a := Put(Put(Put(twice, x, xv), y, yv), z, zv);
    assert forall k :: (k in a <==> k in h) && (k in a ==> a[k] == h[k]);
    assert a == h;
  }
}
