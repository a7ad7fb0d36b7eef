/**
 AWS Signature Version 4, query-parameter authentication, as the standard defines it: the lines of
 the canonical request, the lines of the string to sign, and the key derived by repeated HMAC.
 */
module SigV4 {
  import opened QueryCodec

  function RequestParts(method_: Text, path: Text, query: Text, host: Text): seq<Text> {
    [method_, path, query, "host:" + host, "", "host", "UNSIGNED-PAYLOAD"]
  }

  function StandardRequest(method_: Text, path: Text, query: Text, host: Text): Text {
    Joined(RequestParts(method_, path, query, host), '\n')
  }

  function ScopeParts(date: Text, region: Text): seq<Text> {
    [date, region, "s3", "aws4_request"]
  }

  function StandardToSign(date: Text, region: Text, timestamp: Text, requestHash: Text): Text {
    Joined(["AWS4-HMAC-SHA256", timestamp, Joined(ScopeParts(date, region), '/'), requestHash], '\n')
  }

  /** Each part in turn is authenticated under the key made so far. */
  function Folded(hmac: (Text, Text) -> Text, key: Text, parts: seq<Text>): Text
    decreases |parts|
  {
    if parts == [] then key else Folded(hmac, hmac(key, parts[0]), parts[1..])
  }

  function StandardSignature(hmac: (Text, Text) -> Text, secret: Text, date: Text, region: Text, timestamp: Text, requestHash: Text): Text {
    hmac(Folded(hmac, "AWS4" + secret, ScopeParts(date, region)), StandardToSign(date, region, timestamp, requestHash))
  }

  // ----- Written out -----

  lemma JoinedOne(a: Text, sep: Octet)
    ensures Joined([a], sep) == a
  {
  }

  lemma JoinedMore(a: Text, rest: seq<Text>, sep: Octet)
    requires rest != []
    ensures Joined([a] + rest, sep) == a + [sep] + Joined(rest, sep)
  {
    assert ([a] + rest)[1..] == rest;
  }

  lemma JoinedFour(a: Text, b: Text, c: Text, d: Text, sep: Octet)
    ensures Joined([a, b, c, d], sep) == a + [sep] + b + [sep] + c + [sep] + d
  {
    JoinedOne(d, sep);
    JoinedMore(c, [d], sep);
    JoinedMore(b, [c, d], sep);
    JoinedMore(a, [b, c, d], sep);
    assert [c] + [d] == [c, d] && [b] + [c, d] == [b, c, d] && [a] + [b, c, d] == [a, b, c, d];
    hide Joined;
  }

  lemma JoinedFive(a: Text, b: Text, c: Text, d: Text, e: Text, sep: Octet)
    ensures Joined([a, b, c, d, e], sep) == a + [sep] + b + [sep] + c + [sep] + d + [sep] + e
  {
    JoinedFour(b, c, d, e, sep);
    JoinedMore(a, [b, c, d, e], sep);
    assert [a] + [b, c, d, e] == [a, b, c, d, e];
    hide Joined;
  }

  lemma JoinedSeven(a: Text, b: Text, c: Text, d: Text, e: Text, f: Text, g: Text, sep: Octet)
    ensures Joined([a, b, c, d, e, f, g], sep) == a + [sep] + b + [sep] + c + [sep] + d + [sep] + e + [sep] + f + [sep] + g
  {
    JoinedFive(c, d, e, f, g, sep);
    JoinedMore(b, [c, d, e, f, g], sep);
    JoinedMore(a, [b, c, d, e, f, g], sep);
    assert [b] + [c, d, e, f, g] == [b, c, d, e, f, g] && [a] + [b, c, d, e, f, g] == [a, b, c, d, e, f, g];
    hide Joined;
  }

  lemma RequestLines(method_: Text, path: Text, query: Text, host: Text)
    ensures StandardRequest(method_, path, query, host)
         == method_ + "\n" + path + "\n" + query + "\n" + "host:" + host + "\n" + "\n" + "host" + "\n" + "UNSIGNED-PAYLOAD"
  {
    hide Joined;
    JoinedSeven(method_, path, query, "host:" + host, "", "host", "UNSIGNED-PAYLOAD", '\n');
  }

  lemma ScopeLine(date: Text, region: Text)
    ensures Joined(ScopeParts(date, region), '/') == date + "/" + region + "/s3/aws4_request"
  {
    hide Joined;
    JoinedFour(date, region, "s3", "aws4_request", '/');
  }

  lemma ToSignLines(date: Text, region: Text, timestamp: Text, requestHash: Text)
    ensures StandardToSign(date, region, timestamp, requestHash)
         == "AWS4-HMAC-SHA256\n" + timestamp + "\n" + (date + "/" + region + "/s3/aws4_request") + "\n" + requestHash
  {
    hide Joined;
    ScopeLine(date, region);
    var scope := Joined(ScopeParts(date, region), '/');
    hide ScopeParts;
    JoinedFour("AWS4-HMAC-SHA256", timestamp, scope, requestHash, '\n');
    assert "AWS4-HMAC-SHA256" + ['\n'] == "AWS4-HMAC-SHA256\n";
  }

  lemma FoldStep(hmac: (Text, Text) -> Text, key: Text, part: Text, rest: seq<Text>)
    ensures Folded(hmac, key, [part] + rest) == Folded(hmac, hmac(key, part), rest)
    ensures Folded(hmac, key, []) == key
    ensures Folded(hmac, hmac(key, part), []) == hmac(key, part)
  {
    assert ([part] + rest)[1..] == rest;
  }

  lemma KeyFolds(hmac: (Text, Text) -> Text, secret: Text, date: Text, region: Text)
    ensures Folded(hmac, "AWS4" + secret, ScopeParts(date, region))
         == hmac(hmac(hmac(hmac("AWS4" + secret, date), region), "s3"), "aws4_request")
  {
    var k0: Text := "AWS4" + secret;
    var s3: Text, end: Text := "s3", "aws4_request";
    var k1, k2, k3 := hmac(k0, date), hmac(hmac(k0, date), region), hmac(hmac(hmac(k0, date), region), s3);
    FoldStep(hmac, k0, date, [region, s3, end]);
    FoldStep(hmac, k1, region, [s3, end]);
    FoldStep(hmac, k2, s3, [end]);
    FoldStep(hmac, k3, end, []);
    hide Folded;
    assert ScopeParts(date, region) == [date] + [region, s3, end] && [region, s3, end] == [region] + [s3, end];
    assert [s3, end] == [s3] + [end] && [end] == [end] + [];
  }

  // ----- What lines determine -----

  /** A text is split in only one way at its first separator. */
  lemma SplitOnce(a: Text, rest: Text, b: Text, rest': Text, sep: Octet)
    requires sep !in a && sep !in b && a + [sep] + rest == b + [sep] + rest'
    ensures a == b && rest == rest'
  {
    var s := a + [sep] + rest;
    assert s[|a|] == sep && s[|b|] == sep;
    assert forall i :: 0 <= i < |a| ==> s[i] == a[i];
    assert forall i :: 0 <= i < |b| ==> s[i] == b[i];
    assert |a| == |b|;
    assert s[..|a|] == a && s[..|a|] == b && s[|a| + 1..] == rest && s[|a| + 1..] == rest';
  }

  lemma {:induction false} JoinedInjective(a: seq<Text>, b: seq<Text>, sep: Octet)
    requires |a| == |b| && (forall i :: 0 <= i < |a| ==> sep !in a[i] && sep !in b[i])
    requires Joined(a, sep) == Joined(b, sep)
    ensures a == b
    decreases |a|
  {
    if |a| > 1 {
      SplitOnce(a[0], Joined(a[1..], sep), b[0], Joined(b[1..], sep), sep);
      JoinedInjective(a[1..], b[1..], sep);
      assert a == [a[0]] + a[1..] && b == [b[0]] + b[1..];
    }
  }

  lemma RequestInjective(m: Text, path: Text, query: Text, host: Text, n: Text, path': Text, query': Text, host': Text)
    requires forall c :: c in m + path + query + host + n + path' + query' + host' ==> c != '\n'
    requires StandardRequest(m, path, query, host) == StandardRequest(n, path', query', host')
    ensures m == n && path == path' && query == query' && host == host'
  {
    var a, b := RequestParts(m, path, query, host), RequestParts(n, path', query', host');
    var all := m + path + query + host + n + path' + query' + host';
    assert '\n' !in all;
    JoinedInjective(a, b, '\n');
    assert a[0] == b[0] && a[1] == b[1] && a[2] == b[2] && a[3] == b[3];
    assert a[3][5..] == host && b[3][5..] == host';
  }
}
