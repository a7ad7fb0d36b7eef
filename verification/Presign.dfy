/**
 Presigned object URLs: AWS Signature Version 4, query-parameter authentication. The hash
 functions are arbitrary; what is proved is that a server can rebuild what was signed.
 */
module Presign {
  import opened Wrappers
  import opened QueryCodec
  import opened QueryString
  import opened SigV4

  /** The parsed endpoint. */
  datatype Endpoint = Endpoint(host: Text, path: Text, rawQuery: Text)
  {
    function Query(): Values {
      ParseQuery(rawQuery)
    }
  }

  datatype Config = Config(endpoint: Text, region: Text, accessKey: Text, secretKey: Text)

  datatype Request = Request(bucket: Text, key: Text, operation: Text, ttlSeconds: int)

  /** Hashing and path handling, left open. */
  datatype Primitives = Primitives(
    sha256Hex: Text -> Text,
    hmac: (Text, Text) -> Text,
    hex: Text -> Text,
    parse: Text -> Option<Endpoint>,
    joinPath: (Text, Text, Text) -> Text,
    escapePath: Text -> Text)

  datatype PresignError = NotConfigured | BadObject | BadOperation | TtlTooLong | BadEndpoint

  /** The presigned URL: host and escaped path as given, and the encoded query. */
  datatype Url = Url(host: Text, path: Text, query: Text)

  const SIGNATURE: Text := "X-Amz-Signature"
  const CREDENTIAL: Text := "X-Amz-Credential"
  const DATE: Text := "X-Amz-Date"
  const ALGORITHM: Text := "X-Amz-Algorithm"
  const EXPIRES: Text := "X-Amz-Expires"
  const SIGNED_HEADERS: Text := "X-Amz-SignedHeaders"

  function UpperOctet(c: Octet): Octet {
    if 'a' <= c <= 'z' then (c as int - 32) as char else c
  }

  function Upper(s: Text): Text {
    seq(|s|, i requires 0 <= i < |s| => UpperOctet(s[i]))
  }

  function Decimal(n: nat): Text {
    if n < 10 then [(n + '0' as int) as char] else Decimal(n / 10) + [(n % 10 + '0' as int) as char]
  }

  predicate Contains(s: Text, t: Text) {
    t <= s || (s != [] && Contains(s[1..], t))
  }

  function Scope(date: Text, region: Text): Text {
    date + "/" + region + "/s3/aws4_request"
  }

  /** The parameters that are signed. */
  function SignedParameters(query: Values, accessKey: Text, scope: Text, timestamp: Text, ttl: nat): Values {
    query[ALGORITHM := ["AWS4-HMAC-SHA256"]]
         [CREDENTIAL := [accessKey + "/" + scope]]
         [DATE := [timestamp]]
         [EXPIRES := [Decimal(ttl)]]
         [SIGNED_HEADERS := ["host"]]
  }

  function CanonicalRequest(method_: Text, path: Text, query: Text, host: Text): Text {
    method_ + "\n" + path + "\n" + query + "\n" + "host:" + host + "\n" + "\n" + "host" + "\n" + "UNSIGNED-PAYLOAD"
  }

  /** The signature over a canonical request, with the key derived from secret, date and region. */
  function Signature(p: Primitives, canonical: Text, secret: Text, date: Text, timestamp: Text, region: Text): Text {
    var toSign := "AWS4-HMAC-SHA256\n" + timestamp + "\n" + Scope(date, region) + "\n" + p.sha256Hex(canonical);
    var key := p.hmac(p.hmac(p.hmac(p.hmac("AWS4" + secret, date), region), "s3"), "aws4_request");
    p.hex(p.hmac(key, toSign))
  }

  function Region(c: Config): Text {
    if c.region == "" then "us-east-1" else c.region
  }

  function Ttl(r: Request): nat {
    if r.ttlSeconds <= 0 then 300 else r.ttlSeconds
  }

  /** Some part of `s` starts with `t`. */
  ghost predicate Occurs(s: Text, t: Text) {
    exists i :: 0 <= i <= |s| && t <= s[i..]
  }

  lemma {:induction false} ContainsIff(s: Text, t: Text)
    ensures Contains(s, t) <==> Occurs(s, t)
  {
    assert s[0..] == s;
    if s != [] && !(t <= s) {
      var rest := s[1..];
      ContainsIff(rest, t);
      assert forall i :: 0 < i <= |s| ==> s[i..] == rest[i - 1..];
      assert forall i :: 0 <= i <= |rest| ==> rest[i..] == s[i + 1..];
    }
  }

  /** What an error says about the request. */
  ghost predicate Fault(p: Primitives, c: Config, r: Request, e: PresignError) {
    match e
    case NotConfigured => "" in {c.endpoint, c.accessKey, c.secretKey}
    case BadObject => "" in {r.bucket, r.key} || '/' in r.bucket || Occurs(r.key, "..")
    case BadOperation => Upper(r.operation) !in {"GET", "PUT"}
    case TtlTooLong => r.ttlSeconds > 900
    case BadEndpoint => p.parse(c.endpoint).None?
  }

  /** A request nothing is wrong with. */
  ghost predicate Acceptable(p: Primitives, c: Config, r: Request) {
    && c.endpoint != "" && c.accessKey != "" && c.secretKey != "" && p.parse(c.endpoint).Some?
    && r.bucket != "" && '/' !in r.bucket
    && r.key != "" && !Occurs(r.key, "..")
    && Upper(r.operation) in {"GET", "PUT"} && r.ttlSeconds <= 900
  }

  function Rank(e: PresignError): nat {
    match e case NotConfigured => 0 case BadObject => 1 case BadOperation => 2 case TtlTooLong => 3 case BadEndpoint => 4
  }

  /** The error names a real fault, and no fault of an earlier kind. */
  ghost predicate FirstFault(p: Primitives, c: Config, r: Request, e: PresignError) {
    Fault(p, c, r, e) && forall d :: Rank(d) < Rank(e) ==> !Fault(p, c, r, d)
  }

  ghost predicate HasValues(q: Values) {
    forall k :: k in q ==> q[k] != []
  }

  /** A parsed query never holds a name without a value. */
  lemma {:induction false} ParsedHasValues(values: Values, query: Text)
    requires HasValues(values)
    ensures HasValues(ParseInto(values, query))
    decreases |query|
  {
    if query != [] {
      var (piece, rest) := Cut(query, '&');
      hide Unescape;
      assert HasValues(Absorb(values, piece));
      ParsedHasValues(Absorb(values, piece), rest);
    }
  }

  ghost function Parameters(p: Primitives, c: Config, r: Request, date: Text, timestamp: Text): Values
    requires p.parse(c.endpoint).Some?
  {
    SignedParameters(p.parse(c.endpoint).value.Query(), c.accessKey, Scope(date, Region(c)), timestamp, Ttl(r))
  }

  ghost function CanonicalQuery(p: Primitives, c: Config, r: Request, date: Text, timestamp: Text): Text
    requires p.parse(c.endpoint).Some?
  {
    Encoded(Parameters(p, c, r, date, timestamp))
  }

  /** The canonical request an accepted request is signed by. */
  ghost function Signed(p: Primitives, c: Config, r: Request, date: Text, timestamp: Text): Text
    requires p.parse(c.endpoint).Some?
  {
    var endpoint := p.parse(c.endpoint).value;
    var path := p.escapePath(p.joinPath(endpoint.path, r.bucket, r.key));
    CanonicalRequest(Upper(r.operation), path, CanonicalQuery(p, c, r, date, timestamp), endpoint.host)
  }

  /** The URL of an accepted request: what was signed, plus the signature over it. */
  ghost function SignedUrl(p: Primitives, c: Config, r: Request, date: Text, timestamp: Text): Url
    requires p.parse(c.endpoint).Some?
  {
    var endpoint := p.parse(c.endpoint).value;
    var path := p.escapePath(p.joinPath(endpoint.path, r.bucket, r.key));
    var signature := Signature(p, Signed(p, c, r, date, timestamp), c.secretKey, date, timestamp, Region(c));
    Url(endpoint.host, path, Encoded(Parameters(p, c, r, date, timestamp)[SIGNATURE := [signature]]))
  }

  method CheckRequest(p: Primitives, config: Config, request: Request) returns (refusal: Option<PresignError>)
    ensures refusal.None? <==> Acceptable(p, config, request)
    ensures refusal.Some? ==> FirstFault(p, config, request, refusal.value)
  {
    ContainsIff(request.key, "..");
    hide Contains, Occurs, Upper;
    if config.endpoint == "" || config.accessKey == "" || config.secretKey == "" {
      return Some(NotConfigured);
    }
    if request.bucket == "" || request.key == "" || '/' in request.bucket || Contains(request.key, "..") {
      return Some(BadObject);
    }
    var operation := Upper(request.operation);
    if operation != "GET" && operation != "PUT" {
      return Some(BadOperation);
    }
    var ttl := if request.ttlSeconds <= 0 then 300 else request.ttlSeconds;
    if ttl > 900 {
      return Some(TtlTooLong);
    }
    if p.parse(config.endpoint).None? {
      return Some(BadEndpoint);
    }
    return None;
  }

  /** Signs the canonical request, then adds the signature and prints the query once more. */
  method Presign(p: Primitives, config: Config, request: Request, date: Text, timestamp: Text)
    returns (r: Result<Url, PresignError>)
    ensures r.Ok? <==> Acceptable(p, config, request)
    ensures match r
            case Ok(url) =>
              && url == SignedUrl(p, config, request, date, timestamp)
              && url.host == p.parse(config.endpoint).value.host
              && url.path == p.escapePath(p.joinPath(p.parse(config.endpoint).value.path, request.bucket, request.key))
            case Err(e) => FirstFault(p, config, request, e)
  {
    var refusal := CheckRequest(p, config, request);
    hide Upper, Decimal, Scope, FirstFault;
    if refusal.Some? {
      return Err(refusal.value);
    }
    var endpoint, region := p.parse(config.endpoint).value, Region(config);
    var path := p.escapePath(p.joinPath(endpoint.path, request.bucket, request.key));
    var query := SignedParameters(endpoint.Query(), config.accessKey, Scope(date, region), timestamp, Ttl(request));
    ghost var given := query;
    assert given == Parameters(p, config, request, date, timestamp);
    hide Parameters, SignedParameters, ParseQuery, Signature, CanonicalRequest, Encoded, Acceptable, SortValues;
    var canonicalQuery: Text;
    canonicalQuery, query := EncodeQuery(query);
    var canonical := CanonicalRequest(Upper(request.operation), path, canonicalQuery, endpoint.host);
    var signature := Signature(p, canonical, config.secretKey, date, timestamp, region);
    query := query[SIGNATURE := [signature]];
    SortThenSet(given, signature);
    var rawQuery: Text;
    rawQuery, query := EncodeQuery(query);
    return Ok(Url(endpoint.host, path, rawQuery));
  }

  /** Encoding once has sorted the lists; setting a parameter afterwards prints the same query. */
  lemma SortThenSet(values: Values, signature: Text)
    ensures Encoded(SortValues(values)[SIGNATURE := [signature]]) == Encoded(values[SIGNATURE := [signature]])
  {
    var a, b := SortValues(values)[SIGNATURE := [signature]], values[SIGNATURE := [signature]];
    assert SortValues(a) == SortValues(b) by {
      forall k | k in values
        ensures Sort(SortValues(values)[k]) == Sort(values[k])
      {
        SortIdempotent(values[k]);
      }
      hide Sort;
    }
    EncodedSorted(a);
    EncodedSorted(b);
  }

  // ----- What the server rebuilds -----

  /** The query a server signs again: everything in the URL but the signature itself. */
  ghost function Rebuilt(query: Text): Text {
    Encoded(ParseQuery(query) - {SIGNATURE})
  }

  lemma RebuiltWithout(values: Values, signature: Text)
    requires HasValues(values)
    ensures Rebuilt(Encoded(values[SIGNATURE := [signature]])) == Encoded(values - {SIGNATURE})
  {
    var full := values[SIGNATURE := [signature]];
    QueryRoundTrip(full);
    var rest := values - {SIGNATURE};
    hide Encoded, ParseQuery, Sort;
    assert SortValues(full) - {SIGNATURE} == SortValues(rest);
    EncodedSorted(rest);
  }

  /** Different parameter sets are never printed alike. */
  lemma EncodedInjective(a: Values, b: Values)
    requires HasValues(a) && HasValues(b) && Encoded(a) == Encoded(b)
    ensures a.Keys == b.Keys
  {
    QueryRoundTrip(a);
    QueryRoundTrip(b);
    hide Encoded, ParseQuery;
    assert SortValues(a).Keys == a.Keys && SortValues(b).Keys == b.Keys;
  }

  lemma ParametersShape(p: Primitives, c: Config, r: Request, date: Text, timestamp: Text)
    requires p.parse(c.endpoint).Some?
    ensures HasValues(Parameters(p, c, r, date, timestamp))
    ensures SIGNATURE in Parameters(p, c, r, date, timestamp) <==> SIGNATURE in p.parse(c.endpoint).value.Query()
  {
    var raw := p.parse(c.endpoint).value.rawQuery;
    ParsedHasValues(map[], raw);
    NamesDiffer();
    hide Decimal, Scope, ParseInto;
  }

  /**
   For every accepted request, what a server rebuilds from the URL is byte for byte the query that
   was signed exactly when the endpoint itself carries no signature parameter.
   */
  lemma RebuiltIsSignedIff(p: Primitives, c: Config, r: Request, date: Text, timestamp: Text)
    requires Acceptable(p, c, r)
    ensures Rebuilt(SignedUrl(p, c, r, date, timestamp).query) == CanonicalQuery(p, c, r, date, timestamp)
            <==> SIGNATURE !in p.parse(c.endpoint).value.Query()
  {
    var q := p.parse(c.endpoint).value.Query();
    var parameters := Parameters(p, c, r, date, timestamp);
    ParametersShape(p, c, r, date, timestamp);
    var signature := Signature(p, Signed(p, c, r, date, timestamp), c.secretKey, date, timestamp, Region(c));
    assert CanonicalQuery(p, c, r, date, timestamp) == Encoded(parameters);
    assert SignedUrl(p, c, r, date, timestamp).query == Encoded(parameters[SIGNATURE := [signature]]);
    hide Decimal, Upper, Occurs, Scope, Parameters, SignedParameters, CanonicalQuery, ParseQuery, SIGNATURE, Signature, Signed, SignedUrl;
    RebuiltWithout(parameters, signature);
    hide Encoded, Rebuilt;
    if SIGNATURE !in q {
      assert parameters - {SIGNATURE} == parameters;
    } else if Encoded(parameters - {SIGNATURE}) == Encoded(parameters) {
      assert SIGNATURE in parameters.Keys && SIGNATURE !in (parameters - {SIGNATURE}).Keys;
      EncodedInjective(parameters - {SIGNATURE}, parameters);
    }
  }

  /** An endpoint that already carries a signature: its old value is signed but cannot be rebuilt. */
  lemma SignedEndpointDiffers(p: Primitives, c: Config, r: Request, date: Text, timestamp: Text, old_: Text)
    requires Acceptable(p, c, r) && p.parse(c.endpoint).value.rawQuery == Encoded(map[SIGNATURE := [old_]])
    ensures Rebuilt(SignedUrl(p, c, r, date, timestamp).query) != CanonicalQuery(p, c, r, date, timestamp)
  {
    var carried: Values := map[SIGNATURE := [old_]];
    QueryRoundTrip(carried);
    hide Upper, Occurs, Encoded, ParseQuery, CanonicalQuery, SignedUrl, Rebuilt;
    assert SIGNATURE in SortValues(carried);
    RebuiltIsSignedIff(p, c, r, date, timestamp);
  }

  // ----- What a server reads from the URL -----

  /** Splits at the last occurrence of `c`. */
  function CutLast(s: Text, c: Octet): (r: Option<(Text, Text)>)
    ensures r.Some? ==> c !in r.value.1 && s == r.value.0 + [c] + r.value.1
  {
    if s == [] then None
    else if s[|s| - 1] == c then Some((s[..|s| - 1], []))
    else
      match CutLast(s[..|s| - 1], c)
      case None => None
      case Some((a, b)) => Some((a, b + [s[|s| - 1]]))
  }

  lemma {:induction false} CutLastAt(a: Text, c: Octet, b: Text)
    requires c !in b
    ensures CutLast(a + [c] + b, c) == Some((a, b))
  {
    var s := a + [c] + b;
    if b == [] {
      assert s[..|s| - 1] == a;
    } else {
      var short := b[..|b| - 1];
      CutLastAt(a, c, short);
      assert s[..|s| - 1] == a + [c] + short && b == short + [b[|b| - 1]];
    }
  }

  datatype Credential = Credential(accessKey: Text, date: Text, region: Text)

  /** Reads a credential from its end: the terminator, the service, the region, the date, the access key. */
  function ReadCredential(s: Text): Option<Credential> {
    match CutLast(s, '/')
    case None => None
    case Some((s1, terminator)) =>
      match CutLast(s1, '/')
      case None => None
      case Some((s2, service)) =>
        match CutLast(s2, '/')
        case None => None
        case Some((s3, region)) =>
          match CutLast(s3, '/')
          case None => None
          case Some((accessKey, date)) =>
            if terminator == "aws4_request" && service == "s3" then Some(Credential(accessKey, date, region)) else None
  }

  /** A credential is read as it was written exactly when neither date nor region holds a slash. */
  lemma CredentialReadIff(accessKey: Text, date: Text, region: Text)
    ensures ReadCredential(accessKey + "/" + Scope(date, region)) == Some(Credential(accessKey, date, region))
       <==> '/' !in date && '/' !in region
  {
    var s3 := accessKey + "/" + date;
    var s2 := s3 + "/" + region;
    var s1 := s2 + "/" + "s3";
    assert accessKey + "/" + Scope(date, region) == s1 + "/" + "aws4_request";
    CutLastAt(s1, '/', "aws4_request");
    CutLastAt(s2, '/', "s3");
    if '/' !in date && '/' !in region {
      CutLastAt(s3, '/', region);
      CutLastAt(accessKey, '/', date);
    }
  }

  /** Signing overwrites or adds exactly these five parameters. */
  lemma SignedAre(query: Values, accessKey: Text, scope: Text, timestamp: Text, ttl: nat)
    ensures var all := SignedParameters(query, accessKey, scope, timestamp, ttl);
            && all.Keys == query.Keys + {ALGORITHM, CREDENTIAL, DATE, EXPIRES, SIGNED_HEADERS}
            && all[ALGORITHM] == ["AWS4-HMAC-SHA256"] && all[SIGNED_HEADERS] == ["host"]
            && all[CREDENTIAL] == [accessKey + "/" + scope] && all[DATE] == [timestamp] && all[EXPIRES] == [Decimal(ttl)]
            && forall k :: k in query && k !in {ALGORITHM, CREDENTIAL, DATE, EXPIRES, SIGNED_HEADERS} ==> all[k] == query[k]
  {
    NamesDiffer();
    hide ALGORITHM, CREDENTIAL, DATE, EXPIRES, SIGNED_HEADERS, SIGNATURE, Decimal;
  }

  lemma ScopeIs(accessKey: Text, date: Text, region: Text)
    ensures accessKey + "/" + Scope(date, region) == Joined([accessKey, date, region, "s3", "aws4_request"], '/')
  {
    JoinedFive(accessKey, date, region, "s3", "aws4_request", '/');
    hide Joined;
  }

  /** The endpoint's own parameters are kept, but for the five that signing sets. */
  lemma ParametersAre(p: Primitives, c: Config, r: Request, date: Text, timestamp: Text)
    requires p.parse(c.endpoint).Some?
    ensures var given, all := p.parse(c.endpoint).value.Query(), Parameters(p, c, r, date, timestamp);
            var region := if c.region == "" then "us-east-1" else c.region;
            && all.Keys == given.Keys + {ALGORITHM, CREDENTIAL, DATE, EXPIRES, SIGNED_HEADERS}
            && all[ALGORITHM] == ["AWS4-HMAC-SHA256"] && all[SIGNED_HEADERS] == ["host"]
            && all[CREDENTIAL] == [Joined([c.accessKey, date, region, "s3", "aws4_request"], '/')]
            && all[DATE] == [timestamp]
            && all[EXPIRES] == [Decimal(if r.ttlSeconds <= 0 then 300 else r.ttlSeconds)]
            && forall k :: k in given && k !in {ALGORITHM, CREDENTIAL, DATE, EXPIRES, SIGNED_HEADERS} ==> all[k] == given[k]
  {
    var region := if c.region == "" then "us-east-1" else c.region;
    SignedAre(p.parse(c.endpoint).value.Query(), c.accessKey, Scope(date, region), timestamp, Ttl(r));
    ScopeIs(c.accessKey, date, region);
    hide ParseQuery, Decimal, Joined, Scope, SignedParameters, ALGORITHM, CREDENTIAL, DATE, EXPIRES, SIGNED_HEADERS;
  }

  /** The five parameter names and that of the signature are all different. */
  lemma NamesDiffer()
    ensures ALGORITHM !in {CREDENTIAL, DATE, EXPIRES, SIGNED_HEADERS, SIGNATURE}
    ensures CREDENTIAL !in {DATE, EXPIRES, SIGNED_HEADERS, SIGNATURE}
    ensures DATE !in {EXPIRES, SIGNED_HEADERS, SIGNATURE} && EXPIRES !in {SIGNED_HEADERS, SIGNATURE} && SIGNED_HEADERS != SIGNATURE
  {
    assert |ALGORITHM| == 15 && |CREDENTIAL| == 16 && |DATE| == 10 && |EXPIRES| == 13 && |SIGNED_HEADERS| == 19 && |SIGNATURE| == 15;
    assert ALGORITHM[6] == 'A' && SIGNATURE[6] == 'S';
  }

  /** Every parameter can be read from the URL as it was signed, with its values sorted. */
  lemma SignedReadable(p: Primitives, c: Config, r: Request, date: Text, timestamp: Text, k: Text)
    requires p.parse(c.endpoint).Some? && k != SIGNATURE
    ensures Lookup(ParseQuery(SignedUrl(p, c, r, date, timestamp).query), k) == Sort(Lookup(Parameters(p, c, r, date, timestamp), k))
  {
    ParametersShape(p, c, r, date, timestamp);
    var parameters := Parameters(p, c, r, date, timestamp);
    var signature := Signature(p, Signed(p, c, r, date, timestamp), c.secretKey, date, timestamp, Region(c));
    hide Decimal, Upper, Scope, Parameters, SignedParameters, Signature, Signed, Encoded, ParseQuery;
    QueryRoundTrip(parameters[SIGNATURE := [signature]]);
    hide Sort;
    assert Sort([]) == [] by { SortEmpty(); }
  }

  lemma SortEmpty()
    ensures Sort([]) == []
  {
  }

  /** The value of a decimal numeral. */
  function ReadDecimal(s: Text): int {
    if s == [] then 0 else ReadDecimal(s[..|s| - 1]) * 10 + s[|s| - 1] as int - '0' as int
  }

  /** A number is printed in decimal digits, without a leading zero. */
  lemma {:induction false} DecimalReads(n: nat)
    ensures var s := Decimal(n);
            && ReadDecimal(s) == n && s != [] && (n > 0 ==> s[0] != '0') && forall i :: 0 <= i < |s| ==> '0' <= s[i] <= '9'
  {
    var s := Decimal(n);
    if n >= 10 {
      DecimalReads(n / 10);
      assert s[..|s| - 1] == Decimal(n / 10);
    } else {
      assert s[..0] == [];
    }
  }

  // ----- Operations -----

  /** `s` spells the upper-case `word`, in letters of either case. */
  ghost predicate Spells(s: Text, word: Text) {
    |s| == |word| && forall i :: 0 <= i < |s| ==> s[i] == word[i] || (s[i] as int == word[i] as int + 32 && 'a' <= s[i] <= 'z')
  }

  lemma UpperIff(s: Text, word: Text)
    requires forall i :: 0 <= i < |word| ==> 'A' <= word[i] <= 'Z'
    ensures Upper(s) == word <==> Spells(s, word)
  {
    if Spells(s, word) {
      forall i | 0 <= i < |s|
        ensures UpperOctet(s[i]) == word[i]
      {
        assert s[i] == word[i] || (s[i] as int == word[i] as int + 32 && 'a' <= s[i] <= 'z');
      }
    }
    if Upper(s) == word {
      forall i | 0 <= i < |s|
        ensures s[i] == word[i] || (s[i] as int == word[i] as int + 32 && 'a' <= s[i] <= 'z')
      {
        assert Upper(s)[i] == UpperOctet(s[i]);
      }
    }
  }

  /**
   What a server makes of a URL and an HTTP method alone, as the standard defines it: it reads date,
   timestamp and region from the parameters, looks up the secret of the access key and signs
   everything but the signature.
   */
  ghost function ServerSignature(p: Primitives, secretOf: Text -> Text, method_: Text, url: Url): Option<Text> {
    var query := ParseQuery(url.query);
    var timestamp, credential := Lookup(query, DATE), Lookup(query, CREDENTIAL);
    if |timestamp| != 1 || |credential| != 1 || ReadCredential(credential[0]).None? then None
    else
      var read := ReadCredential(credential[0]).value;
      var canonical := StandardRequest(method_, url.path, Rebuilt(url.query), url.host);
      Some(p.hex(StandardSignature(p.hmac, secretOf(read.accessKey), read.date, read.region,
                                   timestamp[0], p.sha256Hex(canonical))))
  }

  /** What is signed, and how, is what the standard says. */
  lemma SignsByStandard(p: Primitives, method_: Text, path: Text, query: Text, host: Text,
                        secret: Text, date: Text, timestamp: Text, region: Text)
    ensures CanonicalRequest(method_, path, query, host) == StandardRequest(method_, path, query, host)
    ensures Signature(p, CanonicalRequest(method_, path, query, host), secret, date, timestamp, region)
         == p.hex(StandardSignature(p.hmac, secret, date, region, timestamp, p.sha256Hex(StandardRequest(method_, path, query, host))))
  {
    RequestLines(method_, path, query, host);
    assert CanonicalRequest(method_, path, query, host) == StandardRequest(method_, path, query, host);
    hide CanonicalRequest, StandardRequest;
    ToSignLines(date, region, timestamp, p.sha256Hex(StandardRequest(method_, path, query, host)));
    KeyFolds(p.hmac, secret, date, region);
  }

  /** For parts without line breaks, what is signed determines method, path, query and host. */
  lemma SignedDetermines(m: Text, path: Text, query: Text, host: Text, n: Text, path': Text, query': Text, host': Text)
    requires forall c :: c in m + path + query + host + n + path' + query' + host' ==> c != '\n'
    requires CanonicalRequest(m, path, query, host) == CanonicalRequest(n, path', query', host')
    ensures m == n && path == path' && query == query' && host == host'
  {
    RequestLines(m, path, query, host);
    RequestLines(n, path', query', host');
    hide StandardRequest;
    RequestInjective(m, path, query, host, n, path', query', host');
  }

  /** A server that knows the secret arrives at the signature in the URL. */
  lemma ServerAgrees(p: Primitives, c: Config, r: Request, date: Text, timestamp: Text, secretOf: Text -> Text, method_: Text)
    requires Acceptable(p, c, r) && SIGNATURE !in p.parse(c.endpoint).value.Query()
    requires '/' !in date && '/' !in Region(c) && secretOf(c.accessKey) == c.secretKey
    requires method_ in {"GET", "PUT"} && Spells(r.operation, method_)
    ensures var url := SignedUrl(p, c, r, date, timestamp);
            var answer := ServerSignature(p, secretOf, method_, url);
            answer.Some? && Lookup(ParseQuery(url.query), SIGNATURE) == [answer.value]
  {
    hide SignedUrl, Signed, CanonicalQuery, CanonicalRequest, Upper, Occurs, Spells, ServerSignature, Scope, Region, ReadCredential, Rebuilt;
    hide Lookup, ParseQuery, Signature, StandardRequest, StandardSignature;
    var url := SignedUrl(p, c, r, date, timestamp);
    RebuiltIsSignedIff(p, c, r, date, timestamp);
    CredentialReadable(p, c, r, date, timestamp);
    CredentialReadIff(c.accessKey, date, Region(c));
    MethodIs(r.operation, method_);
    SignedParts(p, c, r, date, timestamp);
    SignsByStandard(p, method_, url.path, CanonicalQuery(p, c, r, date, timestamp), url.host, c.secretKey, date, timestamp, Region(c));
    hide *;
    ServerComputes(p, secretOf, method_, url, c.accessKey + "/" + Scope(date, Region(c)), timestamp);
  }

  lemma MethodIs(operation: Text, method_: Text)
    requires method_ in {"GET", "PUT"} && Spells(operation, method_)
    ensures Upper(operation) == method_
  {
    UpperIff(operation, method_);
  }

  /** What the URL shows of what was signed. */
  lemma SignedParts(p: Primitives, c: Config, r: Request, date: Text, timestamp: Text)
    requires p.parse(c.endpoint).Some?
    ensures var url := SignedUrl(p, c, r, date, timestamp);
            && Signed(p, c, r, date, timestamp) == CanonicalRequest(Upper(r.operation), url.path, CanonicalQuery(p, c, r, date, timestamp), url.host)
            && Lookup(ParseQuery(url.query), SIGNATURE) == [Signature(p, Signed(p, c, r, date, timestamp), c.secretKey, date, timestamp, Region(c))]
  {
    ParametersShape(p, c, r, date, timestamp);
    SignatureReadable(Parameters(p, c, r, date, timestamp), Signature(p, Signed(p, c, r, date, timestamp), c.secretKey, date, timestamp, Region(c)));
    hide Parameters, CanonicalQuery, CanonicalRequest, Signature, Upper, ParseQuery, Encoded, Lookup, Region;
  }

  lemma ServerComputes(p: Primitives, secretOf: Text -> Text, method_: Text, url: Url, credential: Text, timestamp: Text)
    requires Lookup(ParseQuery(url.query), DATE) == [timestamp] && Lookup(ParseQuery(url.query), CREDENTIAL) == [credential]
    requires ReadCredential(credential).Some?
    ensures var read := ReadCredential(credential).value;
            ServerSignature(p, secretOf, method_, url)
            == Some(p.hex(StandardSignature(p.hmac, secretOf(read.accessKey), read.date, read.region, timestamp,
                                            p.sha256Hex(StandardRequest(method_, url.path, Rebuilt(url.query), url.host)))))
  {
    hide ParseQuery, Lookup, DATE, CREDENTIAL, ReadCredential, StandardSignature, StandardRequest, Rebuilt;
  }

  /** Timestamp and credential in particular. */
  lemma CredentialReadable(p: Primitives, c: Config, r: Request, date: Text, timestamp: Text)
    requires p.parse(c.endpoint).Some?
    ensures var query := ParseQuery(SignedUrl(p, c, r, date, timestamp).query);
            && Lookup(query, DATE) == [timestamp]
            && Lookup(query, CREDENTIAL) == [c.accessKey + "/" + Scope(date, Region(c))]
  {
    NamesDiffer();
    SignedReadable(p, c, r, date, timestamp, DATE);
    SignedReadable(p, c, r, date, timestamp, CREDENTIAL);
    SignedAre(p.parse(c.endpoint).value.Query(), c.accessKey, Scope(date, Region(c)), timestamp, Ttl(r));
    hide SignedUrl, Scope, ParseQuery, SignedParameters, DATE, CREDENTIAL, Sort;
    SortOne(timestamp);
    SortOne(c.accessKey + "/" + Scope(date, Region(c)));
  }

  lemma SortOne(a: Text)
    ensures Sort([a]) == [a]
  {
    assert Sort([a]) == InsertSorted(a, []);
  }

  /** The signature can be read back from the URL. */
  lemma SignatureReadable(values: Values, signature: Text)
    requires HasValues(values)
    ensures Lookup(ParseQuery(Encoded(values[SIGNATURE := [signature]])), SIGNATURE) == [signature]
  {
    QueryRoundTrip(values[SIGNATURE := [signature]]);
    assert Sort([signature]) == [signature];
    hide Encoded, ParseQuery, Sort;
  }
}
