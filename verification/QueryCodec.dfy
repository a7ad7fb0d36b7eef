/**
 Query strings: percent-encoding (section 2.1 of RFC 3986), the sorted printer that signing
 uses, and the parser that reads its output back.
 */
module QueryCodec {
  import opened Wrappers

  type Octet = c: char | c as int < 256 witness 'a'
  type Text = seq<Octet>

  /** The parts with a separator between them. */
  function Joined(parts: seq<Text>, sep: Octet): Text {
    if |parts| == 0 then [] else if |parts| == 1 then parts[0] else parts[0] + [sep] + Joined(parts[1..], sep)
  }

  // ----- Percent-encoding -----

  predicate IsUnreserved(c: Octet) {
    'a' <= c <= 'z' || 'A' <= c <= 'Z' || '0' <= c <= '9' || c == '-' || c == '_' || c == '.' || c == '~'
  }

  function HexDigit(n: nat): Octet
    requires n < 16
  {
    "0123456789ABCDEF"[n]
  }

  function HexValue(c: Octet): Option<nat> {
    if '0' <= c <= '9' then Some(c as int - '0' as int)
    else if 'A' <= c <= 'F' then Some(c as int - 'A' as int + 10)
    else if 'a' <= c <= 'f' then Some(c as int - 'a' as int + 10)
    else None
  }

  function Percent(c: Octet): Text {
    ['%', HexDigit(c as int / 16), HexDigit(c as int % 16)]
  }

  /** One octet of a parameter name: a space becomes a plus sign. */
  function EscapeKeyOctet(c: Octet): Text {
    if IsUnreserved(c) then [c] else if c == ' ' then ['+'] else Percent(c)
  }

  /** One octet of a parameter value: a space is percent-encoded. */
  function EscapeValueOctet(c: Octet): Text {
    if IsUnreserved(c) then [c] else Percent(c)
  }

  function EscapeKey(s: Text): Text {
    if s == [] then [] else EscapeKeyOctet(s[0]) + EscapeKey(s[1..])
  }

  function EscapeValue(s: Text): Text {
    if s == [] then [] else EscapeValueOctet(s[0]) + EscapeValue(s[1..])
  }

  /** Decoding fails on a percent sign that two hexadecimal digits do not follow. */
  function Unescape(s: Text): Option<Text> {
    if s == [] then Some([])
    else if s[0] == '%' then
      if |s| < 3 || HexValue(s[1]).None? || HexValue(s[2]).None? then None
      else
        match Unescape(s[3..])
        case None => None
        case Some(rest) => Some([(HexValue(s[1]).value * 16 + HexValue(s[2]).value) as char] + rest)
    else
      match Unescape(s[1..])
      case None => None
      case Some(rest) => Some([if s[0] == '+' then ' ' else s[0]] + rest)
  }

  lemma HexRoundTrip(n: nat)
    requires n < 16
    ensures HexValue(HexDigit(n)) == Some(n)
  {
  }

  lemma PercentRoundTrip(c: Octet, rest: Text)
    requires Unescape(rest).Some?
    ensures Unescape(Percent(c) + rest) == Some([c] + Unescape(rest).value)
  {
    HexRoundTrip(c as int / 16);
    HexRoundTrip(c as int % 16);
    var s := Percent(c) + rest;
    assert s[3..] == rest;
    assert c as int / 16 * 16 + c as int % 16 == c as int;
    hide HexDigit, HexValue;
    assert s[0] == '%' && s[1] == HexDigit(c as int / 16) && s[2] == HexDigit(c as int % 16);
  }

  lemma PlainRoundTrip(c: Octet, rest: Text)
    requires Unescape(rest).Some? && c != '%'
    ensures Unescape([c] + rest) == Some([if c == '+' then ' ' else c] + Unescape(rest).value)
  {
    assert ([c] + rest)[1..] == rest;
  }

  lemma {:induction false} KeyRoundTrip(s: Text)
    ensures Unescape(EscapeKey(s)) == Some(s)
  {
    if s != [] {
      var c, rest := s[0], EscapeKey(s[1..]);
      KeyRoundTrip(s[1..]);
      assert s == [c] + s[1..] && EscapeKey(s) == EscapeKeyOctet(c) + rest;
      if IsUnreserved(c) {
        PlainRoundTrip(c, rest);
      } else if c == ' ' {
        PlainRoundTrip('+', rest);
      } else {
        PercentRoundTrip(c, rest);
      }
    }
  }

  lemma {:induction false} ValueRoundTrip(s: Text)
    ensures Unescape(EscapeValue(s)) == Some(s)
  {
    if s != [] {
      var c, rest := s[0], EscapeValue(s[1..]);
      ValueRoundTrip(s[1..]);
      assert s == [c] + s[1..] && EscapeValue(s) == EscapeValueOctet(c) + rest;
      if IsUnreserved(c) {
        PlainRoundTrip(c, rest);
      } else {
        PercentRoundTrip(c, rest);
      }
    }
  }

  /** Characters that structure a query never appear in encoded text. */
  predicate IsPlain(c: Octet) {
    c != '&' && c != '=' && c != ';'
  }

  ghost predicate AllPlain(s: Text) {
    forall i :: 0 <= i < |s| ==> IsPlain(s[i])
  }

  lemma OctetPlain(c: Octet)
    ensures AllPlain(EscapeKeyOctet(c)) && AllPlain(EscapeValueOctet(c))
  {
    var hex := "0123456789ABCDEF";
    assert forall n :: 0 <= n < 16 ==> IsPlain(hex[n]);
  }

  lemma {:induction false} EscapedPlain(s: Text)
    ensures AllPlain(EscapeKey(s)) && AllPlain(EscapeValue(s))
  {
    if s != [] {
      EscapedPlain(s[1..]);
      OctetPlain(s[0]);
      hide EscapeKeyOctet, EscapeValueOctet, IsPlain;
    }
  }

  /** Names are encoded as values are, and so as RFC 3986 asks, exactly when they hold no space. */
  lemma {:induction false} KeyEncodingStandardIff(s: Text)
    ensures EscapeKey(s) == EscapeValue(s) <==> forall i :: 0 <= i < |s| ==> s[i] != ' '
  {
    if s != [] {
      KeyEncodingStandardIff(s[1..]);
      var k, v := EscapeKeyOctet(s[0]), EscapeValueOctet(s[0]);
      if s[0] == ' ' {
        assert EscapeKey(s)[0] == '+' && EscapeValue(s)[0] == '%';
      } else {
        assert k == v;
        assert EscapeKey(s)[|k|..] == EscapeKey(s[1..]) && EscapeValue(s)[|v|..] == EscapeValue(s[1..]);
        assert forall i :: 0 < i < |s| ==> s[i] == s[1..][i - 1];
      }
    }
  }

  // ----- The standard's percent-encoding -----

  /** The upper-case hexadecimal digit for `n`. */
  ghost predicate IsHex(n: int, d: Octet) {
    d as int == if n < 10 then '0' as int + n else 'A' as int + n - 10
  }

  /** A letter, a digit or one of four marks stands for itself, any other octet is a percent sign and two digits. */
  ghost predicate EncodesOctet(c: Octet, e: Text) {
    if 'A' <= c <= 'Z' || 'a' <= c <= 'z' || '0' <= c <= '9' || c in {'-', '.', '_', '~'} then e == [c]
    else |e| == 3 && e[0] == '%' && IsHex(c as int / 16, e[1]) && IsHex(c as int % 16, e[2])
  }

  function Concat(parts: seq<Text>): Text {
    if parts == [] then [] else parts[0] + Concat(parts[1..])
  }

  lemma HexIs(n: nat)
    requires n < 16
    ensures IsHex(n, HexDigit(n))
  {
    var hex := "0123456789ABCDEF";
    assert hex[n] == if n < 10 then ('0' as int + n) as char else ('A' as int + n - 10) as char;
  }

  lemma OctetEncoded(c: Octet)
    ensures EncodesOctet(c, EscapeValueOctet(c))
    ensures if c == ' ' then EscapeKeyOctet(c) == ['+'] else EncodesOctet(c, EscapeKeyOctet(c))
  {
    HexIs(c as int / 16);
    HexIs(c as int % 16);
    hide HexDigit, IsHex;
  }

  /** A value is encoded octet by octet, as section 2.1 of RFC 3986 says; in a name a space becomes a plus sign. */
  lemma {:induction false} EncodedByStandard(s: Text) returns (values: seq<Text>, names: seq<Text>)
    ensures |values| == |s| && EscapeValue(s) == Concat(values) && forall i :: 0 <= i < |s| ==> EncodesOctet(s[i], values[i])
    ensures |names| == |s| && EscapeKey(s) == Concat(names)
    ensures forall i :: 0 <= i < |s| ==> if s[i] == ' ' then names[i] == ['+'] else EncodesOctet(s[i], names[i])
  {
    if s == [] {
      values, names := [], [];
    } else {
      var vs, ns := EncodedByStandard(s[1..]);
      OctetEncoded(s[0]);
      hide EncodesOctet, EscapeValueOctet, EscapeKeyOctet;
      values, names := [EscapeValueOctet(s[0])] + vs, [EscapeKeyOctet(s[0])] + ns;
      assert values[1..] == vs && names[1..] == ns;
      assert forall i :: 0 < i < |s| ==> s[i] == s[1..][i - 1];
    }
  }

  // ----- Sorting -----

  /** Bytewise lexicographic order. */
  predicate Leq(a: Text, b: Text) {
    a == [] || (b != [] && (a[0] < b[0] || (a[0] == b[0] && Leq(a[1..], b[1..]))))
  }

  lemma {:induction false} LeqTotal(a: Text, b: Text)
    ensures Leq(a, b) || Leq(b, a)
    ensures Leq(a, b) && Leq(b, a) ==> a == b
  {
    if a != [] && b != [] && a[0] == b[0] {
      LeqTotal(a[1..], b[1..]);
      assert a == [a[0]] + a[1..] && b == [b[0]] + b[1..];
    }
  }

  lemma {:induction false} LeqTransitive(a: Text, b: Text, c: Text)
    requires Leq(a, b) && Leq(b, c)
    ensures Leq(a, c)
  {
    if a != [] && a[0] == b[0] && b[0] == c[0] {
      LeqTransitive(a[1..], b[1..], c[1..]);
    }
  }

  /** Both texts agree before position `k`, where `a` has the lower octet. */
  ghost predicate LowerAt(a: Text, b: Text, k: nat) {
    k < |a| && k < |b| && a[k] < b[k] && forall i :: 0 <= i < k ==> a[i] == b[i]
  }

  /** A prefix comes first; otherwise the first octet in which two texts differ decides. */
  lemma {:induction false} LeqIff(a: Text, b: Text)
    ensures Leq(a, b) <==> a <= b || exists k: nat :: LowerAt(a, b, k)
  {
    if a != [] && b != [] {
      if a[0] == b[0] {
        var x, y := a[1..], b[1..];
        LeqIff(x, y);
        assert a <= b <==> x <= y by {
          assert a == [a[0]] + x && b == [b[0]] + y;
        }
        if k: nat :| LowerAt(x, y, k) {
          assert LowerAt(a, b, k + 1);
        }
        if k: nat :| LowerAt(a, b, k) {
          assert LowerAt(x, y, k - 1);
        }
      } else if a[0] < b[0] {
        assert LowerAt(a, b, 0);
      }
    }
  }

  ghost predicate Sorted(s: seq<Text>) {
    forall i, j :: 0 <= i < j < |s| ==> Leq(s[i], s[j])
  }

  function InsertSorted(x: Text, s: seq<Text>): seq<Text> {
    if s == [] || Leq(x, s[0]) then [x] + s else [s[0]] + InsertSorted(x, s[1..])
  }

  function Sort(s: seq<Text>): seq<Text> {
    if s == [] then [] else InsertSorted(s[0], Sort(s[1..]))
  }

  lemma {:induction false} InsertSortedSorts(x: Text, s: seq<Text>)
    requires Sorted(s)
    ensures Sorted(InsertSorted(x, s)) && multiset(InsertSorted(x, s)) == multiset(s) + multiset{x}
  {
    if s == [] {
    } else if Leq(x, s[0]) {
      forall j | 0 <= j < |s|
        ensures Leq(x, s[j])
      {
        if j > 0 {
          LeqTransitive(x, s[0], s[j]);
        }
      }
    } else {
      LeqTotal(x, s[0]);
      InsertSortedSorts(x, s[1..]);
      var r := InsertSorted(x, s[1..]);
      assert s == [s[0]] + s[1..];
      forall j | 0 <= j < |r|
        ensures Leq(s[0], r[j])
      {
        assert r[j] in multiset(r);
        assert r[j] == x || r[j] in s[1..];
      }
    }
  }

  lemma {:induction false} SortSorts(s: seq<Text>)
    ensures Sorted(Sort(s)) && multiset(Sort(s)) == multiset(s)
  {
    if s != [] {
      SortSorts(s[1..]);
      InsertSortedSorts(s[0], Sort(s[1..]));
      assert s == [s[0]] + s[1..];
    }
  }

  /** Two sorted sequences with the same elements are the same. */
  lemma {:induction false} SortedUnique(a: seq<Text>, b: seq<Text>)
    requires Sorted(a) && Sorted(b) && multiset(a) == multiset(b)
    ensures a == b
    decreases |a|
  {
    SameLength(a, b);
    if a != [] {
      SameHead(a, b);
      SameTail(a, b);
      SortedTail(a);
      SortedTail(b);
      hide Leq, Sorted;
      SortedUnique(a[1..], b[1..]);
      assert a == [a[0]] + a[1..];
    }
  }

  lemma SameLength(a: seq<Text>, b: seq<Text>)
    requires multiset(a) == multiset(b)
    ensures |a| == |b|
  {
    assert |multiset(a)| == |a| && |multiset(b)| == |b|;
  }

  lemma SameHead(a: seq<Text>, b: seq<Text>)
    requires Sorted(a) && Sorted(b) && multiset(a) == multiset(b) && a != [] && b != []
    ensures a[0] == b[0]
  {
    HeadLeast(a, b);
    HeadLeast(b, a);
    hide Sorted;
    LeqTotal(a[0], b[0]);
  }

  lemma SameTail(a: seq<Text>, b: seq<Text>)
    requires multiset(a) == multiset(b) && a != [] && b != [] && a[0] == b[0]
    ensures multiset(a[1..]) == multiset(b[1..])
  {
    TailCounts(a);
    TailCounts(b);
  }

  lemma SortedTail(a: seq<Text>)
    requires Sorted(a) && a != []
    ensures Sorted(a[1..])
  {
    hide Leq;
  }

  lemma TailCounts(a: seq<Text>)
    requires a != []
    ensures multiset(a[1..]) == multiset(a) - multiset{a[0]}
  {
    assert a == [a[0]] + a[1..];
  }

  lemma HeadLeast(a: seq<Text>, b: seq<Text>)
    requires Sorted(a) && multiset(a) == multiset(b) && a != [] && b != []
    ensures Leq(a[0], b[0])
  {
    assert b[0] in multiset(a);
    var j :| 0 <= j < |a| && a[j] == b[0];
    LeqTotal(a[0], a[0]);
  }

  /** Sorting forgets the order the elements came in. */
  lemma SortCanonical(a: seq<Text>, b: seq<Text>)
    requires multiset(a) == multiset(b)
    ensures Sort(a) == Sort(b)
  {
    SortSorts(a);
    SortSorts(b);
    SortedUnique(Sort(a), Sort(b));
  }

  lemma SortIdempotent(a: seq<Text>)
    ensures Sort(Sort(a)) == Sort(a)
  {
    SortSorts(a);
    SortCanonical(Sort(a), a);
  }
}
