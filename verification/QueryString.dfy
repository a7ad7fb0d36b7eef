/** Printing query parameters in canonical order, and reading them back. */
module QueryString {
  import opened Wrappers
  import opened QueryCodec

  /** Parameter names with their values, as the URL library holds them. */
  type Values = map<Text, seq<Text>>

  datatype Pair = Pair(key: Text, value: Text)

  // ----- The printer -----

  ghost function Listing(keys: set<Text>): seq<Text> {
    if keys == {} then [] else var k :| k in keys; [k] + Listing(keys - {k})
  }

  lemma {:induction false} ListingLists(keys: set<Text>)
    ensures multiset(Listing(keys)) == multiset(keys)
  {
    if keys != {} {
      var l := Listing(keys);
      var k := l[0];
      assert k in keys && l == [k] + Listing(keys - {k});
      ListingLists(keys - {k});
      assert multiset(keys) == multiset{k} + multiset(keys - {k});
    }
  }

  ghost function SortedKeys(keys: set<Text>): seq<Text> {
    Sort(Listing(keys))
  }

  lemma SortedKeysAre(keys: set<Text>)
    ensures forall k :: k in SortedKeys(keys) <==> k in keys
    ensures Unrepeated(SortedKeys(keys))
  {
    ListingLists(keys);
    SortSorts(Listing(keys));
    var s := SortedKeys(keys);
    assert multiset(s) == multiset(keys);
    hide SortedKeys, Listing;
    assert forall k :: k in s <==> k in multiset(keys);
    forall i, j | 0 <= i < j < |s|
      ensures s[i] != s[j]
    {
      TwiceCounts(s, i, j);
    }
  }

  lemma TwiceCounts(s: seq<Text>, i: nat, j: nat)
    requires i < j < |s|
    ensures s[i] == s[j] ==> multiset(s)[s[i]] >= 2
  {
    assert s == s[..i] + [s[i]] + s[i + 1..j] + [s[j]] + s[j + 1..];
  }

  function PairsOf(k: Text, vs: seq<Text>): seq<Pair> {
    if vs == [] then [] else [Pair(k, vs[0])] + PairsOf(k, vs[1..])
  }

  function Pairs(values: Values, keys: seq<Text>): seq<Pair>
    requires forall k :: k in keys ==> k in values
  {
    if keys == [] then []
    else
      var k := keys[|keys| - 1];
      Pairs(values, keys[..|keys| - 1]) + PairsOf(k, Sort(values[k]))
  }

  function Part(p: Pair): Text {
    EscapeKey(p.key) + ['='] + EscapeValue(p.value)
  }

  function Parts(pairs: seq<Pair>): (r: seq<Text>)
    ensures |r| == |pairs|
  {
    seq(|pairs|, i requires 0 <= i < |pairs| => Part(pairs[i]))
  }

  function Join(parts: seq<Text>): Text {
    Joined(parts, '&')
  }

  /** The canonical query: parameters by name, then by value, each percent-encoded. */
  ghost function Encoded(values: Values): Text {
    SortedKeysAre(values.Keys);
    Join(Parts(Pairs(values, SortedKeys(values.Keys))))
  }

  /** Every value list sorted, as the printer leaves them. */
  function SortValues(values: Values): Values {
    map k | k in values :: Sort(values[k])
  }

  // ----- The order of the canonical query -----

  /** By name first, then by value. */
  predicate PairLeq(a: Pair, b: Pair) {
    if a.key == b.key then Leq(a.value, b.value) else Leq(a.key, b.key)
  }

  ghost predicate Ordered(pairs: seq<Pair>) {
    forall i, j :: 0 <= i < j < |pairs| ==> PairLeq(pairs[i], pairs[j])
  }

  lemma {:induction false} PairsOfAre(k: Text, vs: seq<Text>)
    ensures |PairsOf(k, vs)| == |vs| && forall i :: 0 <= i < |vs| ==> PairsOf(k, vs)[i] == Pair(k, vs[i])
  {
    if vs != [] {
      PairsOfAre(k, vs[1..]);
    }
  }

  lemma {:induction false} PairsOrdered(values: Values, keys: seq<Text>)
    requires Sorted(keys) && Unrepeated(keys) && forall k :: k in keys ==> k in values
    ensures Ordered(Pairs(values, keys)) && forall i :: 0 <= i < |Pairs(values, keys)| ==> Pairs(values, keys)[i].key in keys
    decreases |keys|
  {
    if keys != [] {
      var n := |keys| - 1;
      var k, short := keys[n], keys[..n];
      PairsOrdered(values, short);
      PairsOfAre(k, Sort(values[k]));
      SortSorts(values[k]);
      var first, last := Pairs(values, short), PairsOf(k, Sort(values[k]));
      assert Pairs(values, keys) == first + last;
      hide Pairs, PairsOf, Sort, Leq;
      forall i | 0 <= i < |first|
        ensures first[i].key in keys && first[i].key != k && Leq(first[i].key, k)
      {
        var m :| 0 <= m < n && short[m] == first[i].key;
        assert keys[m] == first[i].key;
      }
    }
  }

  /** The canonical query prints the parameters in ascending octet order of their names, then of their values. */
  lemma EncodedInOrder(values: Values) returns (pairs: seq<Pair>)
    ensures Ordered(pairs)
    ensures Encoded(values) == Joined(seq(|pairs|, i requires 0 <= i < |pairs| =>
                                            EscapeKey(pairs[i].key) + "=" + EscapeValue(pairs[i].value)), '&')
  {
    var keys := SortedKeys(values.Keys);
    SortedKeysAre(values.Keys);
    SortSorts(Listing(values.Keys));
    pairs := Pairs(values, keys);
    PairsOrdered(values, keys);
    hide Pairs, SortedKeys;
    assert Parts(pairs) == seq(|pairs|, i requires 0 <= i < |pairs| => EscapeKey(pairs[i].key) + "=" + EscapeValue(pairs[i].value));
  }

  /** The parameter names in whatever order the map is walked. */
  method CollectKeys(values: Values) returns (keys: seq<Text>)
    ensures multiset(keys) == multiset(values.Keys)
  {
    keys := [];
    var todo := values.Keys;
    while todo != {}
      invariant todo <= values.Keys
      invariant multiset(keys) == multiset(values.Keys - todo)
      decreases todo
    {
      var k :| k in todo;
      assert values.Keys - (todo - {k}) == (values.Keys - todo) + {k};
      keys, todo := keys + [k], todo - {k};
    }
    assert values.Keys - todo == values.Keys;
  }

  method PrintValues(k: Text, vals: seq<Text>) returns (parts: seq<Text>)
    ensures parts == Parts(PairsOf(k, vals))
  {
    parts := [];
    assert vals[0..] == vals;
    for j := 0 to |vals|
      invariant parts + Parts(PairsOf(k, vals[j..])) == Parts(PairsOf(k, vals))
    {
      var part := Part(Pair(k, vals[j]));
      assert vals[j..][1..] == vals[j + 1..];
      PartsConcat([Pair(k, vals[j])], PairsOf(k, vals[j + 1..]));
      assert Parts([Pair(k, vals[j])]) == [part];
      assert parts + ([part] + Parts(PairsOf(k, vals[j + 1..]))) == (parts + [part]) + Parts(PairsOf(k, vals[j + 1..]));
      parts := parts + [part];
    }
    assert vals[|vals|..] == [];
    assert parts + [] == parts;
  }

  lemma PartsConcat(a: seq<Pair>, b: seq<Pair>)
    ensures Parts(a + b) == Parts(a) + Parts(b)
  {
  }

  method PrintKeys(values: Values, keys: seq<Text>) returns (parts: seq<Text>)
    requires forall k :: k in keys ==> k in values
    ensures parts == Parts(Pairs(values, keys))
  {
    parts := [];
    for i := 0 to |keys|
      invariant parts == Parts(Pairs(values, keys[..i]))
    {
      var k := keys[i];
      var printed := PrintValues(k, Sort(values[k]));
      assert keys[..i + 1][..i] == keys[..i];
      PartsConcat(Pairs(values, keys[..i]), PairsOf(k, Sort(values[k])));
      parts := parts + printed;
    }
    assert keys[..|keys|] == keys;
  }

  /** Sorts the names and prints each name's sorted values; the lists are sorted in place. */
  method EncodeQuery(values: Values) returns (query: Text, sorted: Values)
    ensures query == Encoded(values)
    ensures sorted == SortValues(values)
  {
    var keys := CollectKeys(values);
    SortedAnyway(keys, values.Keys);
    keys := Sort(keys);
    SortedKeysAre(values.Keys);
    hide Sort, SortedKeys, Listing, Parts, Pairs, Join;
    var parts := PrintKeys(values, keys);
    query := Join(parts);
    sorted := SortValues(values);
  }

  /** The walk order of the map does not show: sorting the names gives the same list. */
  lemma SortedAnyway(keys: seq<Text>, all: set<Text>)
    requires multiset(keys) == multiset(all)
    ensures Sort(keys) == SortedKeys(all)
  {
    ListingLists(all);
    SortCanonical(keys, Listing(all));
  }

  // ----- The parser -----

  /** The text before and after the first separator, or all of it and nothing. */
  function Cut(s: Text, sep: Octet): (r: (Text, Text))
    ensures |r.0| + |r.1| <= |s| && (s != [] ==> |r.1| < |s|)
  {
    if s == [] then ([], [])
    else if s[0] == sep then ([], s[1..])
    else
      var (a, b) := Cut(s[1..], sep);
      ([s[0]] + a, b)
  }

  function Lookup(values: Values, k: Text): seq<Text> {
    if k in values then values[k] else []
  }

  function AddPair(values: Values, p: Pair): Values {
    values[p.key := Lookup(values, p.key) + [p.value]]
  }

  /** One `name=value` piece; pieces that are empty, hold a semicolon or do not decode are skipped. */
  function Absorb(values: Values, piece: Text): Values {
    if piece == [] || ';' in piece then values
    else
      var (k, v) := Cut(piece, '=');
      if Unescape(k).None? || Unescape(v).None? then values
      else AddPair(values, Pair(Unescape(k).value, Unescape(v).value))
  }

  function ParseInto(values: Values, query: Text): Values
    decreases |query|
  {
    if query == [] then values
    else
      var (piece, rest) := Cut(query, '&');
      ParseInto(Absorb(values, piece), rest)
  }

  function ParseQuery(query: Text): Values {
    ParseInto(map[], query)
  }

  // ----- Reading back what was printed -----

  lemma {:induction false} CutAt(a: Text, sep: Octet, b: Text)
    requires forall i :: 0 <= i < |a| ==> a[i] != sep
    ensures Cut(a + [sep] + b, sep) == (a, b)
    ensures Cut(a, sep) == (a, [])
  {
    var s := a + [sep] + b;
    if a == [] {
      assert s[1..] == b;
    } else {
      CutAt(a[1..], sep, b);
      assert s[1..] == a[1..] + [sep] + b && [a[0]] + a[1..] == a;
    }
  }

  lemma PartAbsorbed(values: Values, p: Pair)
    ensures Absorb(values, Part(p)) == AddPair(values, p)
    ensures Part(p) != [] && forall i :: 0 <= i < |Part(p)| ==> Part(p)[i] != '&'
  {
    EscapedPlain(p.key);
    EscapedPlain(p.value);
    KeyRoundTrip(p.key);
    ValueRoundTrip(p.value);
    var k, v := EscapeKey(p.key), EscapeValue(p.value);
    hide EscapeKey, EscapeValue;
    CutAt(k, '=', v);
    hide Unescape, Cut;
    assert ';' !in Part(p);
  }

  function Collect(values: Values, pairs: seq<Pair>): Values
    decreases |pairs|
  {
    if pairs == [] then values else Collect(AddPair(values, pairs[0]), pairs[1..])
  }

  lemma {:induction false} ParseJoined(values: Values, pairs: seq<Pair>)
    ensures ParseInto(values, Join(Parts(pairs))) == Collect(values, pairs)
    decreases |pairs|
  {
    if pairs != [] {
      var p, parts := pairs[0], Parts(pairs);
      var piece := Part(p);
      PartAbsorbed(values, p);
      assert parts[1..] == Parts(pairs[1..]);
      hide Part, Absorb, AddPair;
      if |pairs| == 1 {
        CutAt(piece, '&', []);
        assert ParseInto(values, piece) == ParseInto(Absorb(values, piece), []);
      } else {
        var rest := Join(parts[1..]);
        CutAt(piece, '&', rest);
        assert Join(parts) == piece + ['&'] + rest;
        assert ParseInto(values, Join(parts)) == ParseInto(Absorb(values, piece), rest);
        ParseJoined(AddPair(values, p), pairs[1..]);
      }
    }
  }

  lemma {:induction false} CollectConcat(values: Values, a: seq<Pair>, b: seq<Pair>)
    ensures Collect(values, a + b) == Collect(Collect(values, a), b)
    decreases |a|
  {
    if a == [] {
      assert a + b == b;
    } else {
      assert (a + b)[1..] == a[1..] + b;
      CollectConcat(AddPair(values, a[0]), a[1..], b);
    }
  }

  lemma {:induction false} CollectRun(values: Values, k: Text, vs: seq<Text>)
    ensures Collect(values, PairsOf(k, vs)) == if vs == [] then values else values[k := Lookup(values, k) + vs]
    decreases |vs|
  {
    if vs != [] {
      var one := AddPair(values, Pair(k, vs[0]));
      CollectRun(one, k, vs[1..]);
      assert PairsOf(k, vs)[1..] == PairsOf(k, vs[1..]);
      assert Collect(values, PairsOf(k, vs)) == Collect(one, PairsOf(k, vs[1..]));
      hide Collect, PairsOf;
      AddRest(values, k, vs);
    }
  }

  lemma AddRest(values: Values, k: Text, vs: seq<Text>)
    requires vs != []
    ensures var one := AddPair(values, Pair(k, vs[0]));
            values[k := Lookup(values, k) + vs] == if vs[1..] == [] then one else one[k := Lookup(one, k) + vs[1..]]
  {
    var l := Lookup(values, k);
    assert l + [vs[0]] + vs[1..] == l + vs;
    assert vs[1..] == [] ==> vs == [vs[0]];
  }

  /** The values collected for the given names are their sorted lists. */
  ghost predicate Collected(r: Values, values: Values, keys: seq<Text>)
    requires forall k :: k in keys ==> k in values
  {
    && (forall k :: k in r <==> k in keys)
    && (forall k :: k in keys ==> r[k] == Sort(values[k]))
  }

  lemma CollectedExtend(r: Values, values: Values, init: seq<Text>, k: Text)
    requires forall x :: x in init + [k] ==> x in values
    requires (forall x :: x in init ==> x in values) && Collected(r, values, init) && k !in init
    ensures Collected(r[k := Lookup(r, k) + Sort(values[k])], values, init + [k])
  {
    hide Sort;
    assert Lookup(r, k) + Sort(values[k]) == Sort(values[k]);
    assert forall x :: x in init + [k] <==> x in init || x == k;
  }

  lemma {:induction false} CollectPairs(values: Values, keys: seq<Text>)
    requires forall k :: k in keys ==> k in values && values[k] != []
    requires Unrepeated(keys)
    ensures Collected(Collect(map[], Pairs(values, keys)), values, keys)
    decreases |keys|
  {
    if keys != [] {
      var n := |keys| - 1;
      var k, init := keys[n], keys[..n];
      var vs, soFar := Sort(values[k]), Collect(map[], Pairs(values, init));
      InitUnrepeated(keys);
      hide Unrepeated;
      CollectPairs(values, init);
      CollectLast(values, keys);
      SortNonEmpty(values[k]);
      hide Collect, Pairs, PairsOf, Sort, Collected;
      CollectedExtend(soFar, values, init, k);
    }
  }

  ghost predicate Unrepeated(keys: seq<Text>) {
    forall i, j :: 0 <= i < j < |keys| ==> keys[i] != keys[j]
  }

  lemma InitUnrepeated(keys: seq<Text>)
    requires keys != [] && Unrepeated(keys)
    ensures var k, init := keys[|keys| - 1], keys[..|keys| - 1];
            Unrepeated(init) && k !in init && keys == init + [k]
  {
  }

  /** The pairs of the last name come last and add that name's sorted values. */
  lemma CollectLast(values: Values, keys: seq<Text>)
    requires keys != [] && forall k :: k in keys ==> k in values
    ensures var k, init := keys[|keys| - 1], keys[..|keys| - 1];
            var vs, soFar := Sort(values[k]), Collect(map[], Pairs(values, init));
            Collect(map[], Pairs(values, keys)) == if vs == [] then soFar else soFar[k := Lookup(soFar, k) + vs]
  {
    var k, init := keys[|keys| - 1], keys[..|keys| - 1];
    var vs, soFar := Sort(values[k]), Collect(map[], Pairs(values, init));
    CollectConcat(map[], Pairs(values, init), PairsOf(k, vs));
    assert Pairs(values, keys) == Pairs(values, init) + PairsOf(k, vs);
    hide Pairs, Sort;
    CollectRun(soFar, k, vs);
    hide Collect, PairsOf;
  }

  lemma SortNonEmpty(vs: seq<Text>)
    requires vs != []
    ensures Sort(vs) != []
  {
    SortSorts(vs);
    assert vs[0] in multiset(Sort(vs));
  }

  /** Parsing the canonical query yields the parameters, each name's values in sorted order. */
  lemma QueryRoundTrip(values: Values)
    requires forall k :: k in values ==> values[k] != []
    ensures ParseQuery(Encoded(values)) == SortValues(values)
  {
    var keys := SortedKeys(values.Keys);
    SortedKeysAre(values.Keys);
    hide SortedKeys;
    ParseJoined(map[], Pairs(values, keys));
    CollectPairs(values, keys);
    hide ParseInto, Collect, Pairs, Join, Sort;
  }

  lemma {:induction false} PairsSorted(values: Values, keys: seq<Text>)
    requires forall k :: k in keys ==> k in values
    ensures Pairs(SortValues(values), keys) == Pairs(values, keys)
    decreases |keys|
  {
    if keys != [] {
      var n := |keys| - 1;
      PairsSorted(values, keys[..n]);
      SortIdempotent(values[keys[n]]);
    }
  }

  /** Printing does not depend on the order in which values were stored. */
  lemma EncodedSorted(values: Values)
    ensures Encoded(SortValues(values)) == Encoded(values)
  {
    assert SortValues(values).Keys == values.Keys;
    SortedKeysAre(values.Keys);
    PairsSorted(values, SortedKeys(values.Keys));
  }
}
