/**
 Resource names: the one-pass `slug` and the collapsing, truncating and hashing `dnsName`.
 Labels follow section 2.1 of RFC 1123 and the 63-octet limit of section 2.3.4 of RFC 1035.
 */
module Names {
  import opened Pipelines

  predicate IsAlnum(c: char) {
    'a' <= c <= 'z' || '0' <= c <= '9'
  }

  /** The rest of a string after its leading run of other characters. */
  function DropRun(s: string): (r: string)
    ensures |r| <= |s| && (s != "" && !IsAlnum(s[0]) ==> |r| < |s|)
  {
    if s == "" || IsAlnum(s[0]) then s else DropRun(s[1..])
  }

  /** Replaces every maximal run of characters outside `[a-z0-9]` by one dash. */
  function Collapse(s: string): string
    decreases |s|
  {
    if s == "" then ""
    else if IsAlnum(s[0]) then [s[0]] + Collapse(s[1..])
    else "-" + Collapse(DropRun(s))
  }

  function TrimLeftDashes(s: string): string {
    if s != "" && s[0] == '-' then TrimLeftDashes(s[1..]) else s
  }

  function TrimRightDashes(s: string): string {
    if s != "" && s[|s| - 1] == '-' then TrimRightDashes(s[..|s| - 1]) else s
  }

  function TrimDashes(s: string): string {
    TrimRightDashes(TrimLeftDashes(s))
  }

  /** The name before any truncation. */
  function Normal(raw: string): string {
    TrimDashes(Collapse(raw))
  }

  function LowerAll(lower: char -> char, s: string): string {
    seq(|s|, i requires 0 <= i < |s| => lower(s[i]))
  }

  /** Case mapping leaves label characters alone and makes none out of white space. */
  ghost predicate Lowers(lower: char -> char) {
    && (forall c :: IsAlnum(c) || c == '-' ==> lower(c) == c)
    && (forall c :: IsSpace(c) ==> !IsAlnum(lower(c)))
  }

  /** A digest prints as eight hexadecimal digits. */
  ghost predicate Digests(digest: string -> string) {
    forall s :: |digest(s)| == 8 && forall i :: 0 <= i < 8 ==> IsAlnum(digest(s)[i])
  }

  /** The object name of a resource; `digest` stands for the first eight digits of a SHA-256. */
  function DnsName(lower: char -> char, digest: string -> string, name: string, fallback: string): string {
    var raw := LowerAll(lower, if name == "" then fallback else name);
    var value := if Normal(raw) == "" then "resource" else Normal(raw);
    if |value| <= 63 then value else TrimDashes(value[..54]) + "-" + digest(raw)
  }

  // ----- Tidy names -----

  /** Alphanumeric at both ends, and single dashes in between. */
  ghost predicate Tidy(s: string) {
    && s != "" && IsAlnum(s[0]) && IsAlnum(s[|s| - 1])
    && (forall i :: 0 <= i < |s| ==> IsAlnum(s[i]) || s[i] == '-')
    && (forall i :: 0 <= i < |s| - 1 ==> IsAlnum(s[i]) || IsAlnum(s[i + 1]))
  }

  ghost predicate IsLabel(s: string) {
    && 1 <= |s| <= 63 && IsAlnum(s[0]) && IsAlnum(s[|s| - 1])
    && forall i :: 0 <= i < |s| ==> IsAlnum(s[i]) || s[i] == '-'
  }

  /** Label characters with single dashes, but perhaps a dash at either end. */
  ghost predicate SingleDashes(s: string) {
    && (forall i :: 0 <= i < |s| ==> IsAlnum(s[i]) || s[i] == '-')
    && (forall i :: 0 <= i < |s| - 1 ==> IsAlnum(s[i]) || IsAlnum(s[i + 1]))
  }

  lemma {:induction false} DropRunStops(s: string)
    ensures DropRun(s) == "" || IsAlnum(DropRun(s)[0])
  {
    if s != "" && !IsAlnum(s[0]) {
      DropRunStops(s[1..]);
    }
  }

  lemma {:induction false} CollapseSingle(s: string)
    ensures SingleDashes(Collapse(s))
    ensures s != "" && IsAlnum(s[0]) ==> Collapse(s) != "" && Collapse(s)[0] == s[0]
    decreases |s|
  {
    if s != "" {
      if IsAlnum(s[0]) {
        CollapseSingle(s[1..]);
      } else {
        DropRunStops(s);
        CollapseSingle(DropRun(s));
      }
    }
  }

  lemma {:induction false} TrimLeftTidies(s: string)
    requires SingleDashes(s)
    ensures SingleDashes(TrimLeftDashes(s))
    ensures TrimLeftDashes(s) == "" || IsAlnum(TrimLeftDashes(s)[0])
    ensures |TrimLeftDashes(s)| <= |s|
  {
    if s != "" && s[0] == '-' {
      TrimLeftTidies(s[1..]);
    }
  }

  lemma {:induction false} TrimRightTidies(s: string)
    requires SingleDashes(s) && (s == "" || IsAlnum(s[0]))
    ensures TrimRightDashes(s) <= s
    ensures s != "" ==> Tidy(TrimRightDashes(s))
  {
    if s != "" && s[|s| - 1] == '-' {
      TrimRightTidies(s[..|s| - 1]);
    }
  }

  lemma TrimTidies(s: string)
    requires SingleDashes(s)
    ensures TrimDashes(s) == "" || Tidy(TrimDashes(s))
    ensures |TrimDashes(s)| <= |s|
    ensures s != "" && IsAlnum(s[0]) ==> Tidy(TrimDashes(s))
  {
    TrimLeftTidies(s);
    TrimRightTidies(TrimLeftDashes(s));
  }

  lemma NormalTidy(s: string)
    ensures Normal(s) == "" || Tidy(Normal(s))
  {
    CollapseSingle(s);
    TrimTidies(Collapse(s));
  }

  /** Normalising leaves a tidy name as it is. */
  lemma {:induction false} TidyCollapse(s: string)
    requires SingleDashes(s)
    ensures Collapse(s) == s
    decreases |s|
  {
    if s != "" {
      TidyCollapse(s[1..]);
      if !IsAlnum(s[0]) {
        assert DropRun(s) == s[1..] by {
          assert |s| > 1 ==> IsAlnum(s[1]);
        }
      }
    }
  }

  lemma TidyNormal(s: string)
    requires Tidy(s)
    ensures Normal(s) == s
  {
    TidyCollapse(s);
  }

  // ----- dnsName -----

  lemma TidyJoin(a: string, b: string)
    requires Tidy(a) && b != "" && forall i :: 0 <= i < |b| ==> IsAlnum(b[i])
    ensures Tidy(a + "-" + b)
  {
    var r := a + "-" + b;
    assert r[|a|] == '-' && r[|r| - 1] == b[|b| - 1];
    assert forall i :: 0 <= i < |a| ==> r[i] == a[i];
    assert forall i :: |a| < i < |r| ==> r[i] == b[i - |a| - 1];
  }

  lemma DefaultTidy()
    ensures Tidy("resource")
  {
  }

  lemma DnsNameTidy(lower: char -> char, digest: string -> string, name: string, fallback: string)
    requires Digests(digest)
    ensures var r := DnsName(lower, digest, name, fallback); Tidy(r) && |r| <= 63
  {
    var raw := LowerAll(lower, if name == "" then fallback else name);
    var value := if Normal(raw) == "" then "resource" else Normal(raw);
    NormalTidy(raw);
    DefaultTidy();
    hide Normal, Tidy, LowerAll, TrimDashes;
    if |value| > 63 {
      Truncated(value, digest(raw));
    }
  }

  lemma Truncated(value: string, d: string)
    requires Tidy(value) && |value| > 63 && |d| == 8 && forall i :: 0 <= i < |d| ==> IsAlnum(d[i])
    ensures var r := TrimDashes(value[..54]) + "-" + d; Tidy(r) && |r| <= 63
  {
    var head := value[..54];
    TrimTidies(head);
    hide TrimDashes;
    TidyJoin(TrimDashes(head), d);
  }

  /** Every string gets a valid label of 1 to 63 characters. */
  lemma DnsNameIsLabel(lower: char -> char, digest: string -> string, name: string, fallback: string)
    requires Digests(digest)
    ensures IsLabel(DnsName(lower, digest, name, fallback))
  {
    DnsNameTidy(lower, digest, name, fallback);
  }

  /** Naming a name again changes nothing, whatever the fallback. */
  lemma DnsNameIdempotent(lower: char -> char, digest: string -> string, name: string, fallback: string, other: string)
    requires Lowers(lower) && Digests(digest)
    ensures var r := DnsName(lower, digest, name, fallback); DnsName(lower, digest, r, other) == r
  {
    var r := DnsName(lower, digest, name, fallback);
    DnsNameTidy(lower, digest, name, fallback);
    assert LowerAll(lower, r) == r;
    TidyNormal(r);
  }

  // ----- slug -----

  /** One more character at the end of the input. */
  lemma {:induction false} CollapseSnoc(s: string, c: char)
    ensures Collapse(s + [c]) == if IsAlnum(c) then Collapse(s) + [c]
                                 else if s != "" && !IsAlnum(s[|s| - 1]) then Collapse(s)
                                 else Collapse(s) + "-"
    decreases |s|
  {
    if s == "" {
      assert s + [c] == [c];
      assert DropRun([c]) == if IsAlnum(c) then [c] else "";
    } else if IsAlnum(s[0]) {
      assert (s + [c])[1..] == s[1..] + [c];
      CollapseSnoc(s[1..], c);
      assert |s| > 1 ==> s[1..][|s| - 2] == s[|s| - 1];
    } else {
      DropRunSnoc(s, c);
      CollapseSnoc(DropRun(s), c);
      DropRunEnds(s);
    }
  }

  lemma {:induction false} DropRunSnoc(s: string, c: char)
    requires s != "" && !IsAlnum(s[0])
    ensures DropRun(s + [c]) == if DropRun(s) == "" && !IsAlnum(c) then "" else DropRun(s) + [c]
  {
    assert (s + [c])[1..] == s[1..] + [c];
    if |s| == 1 {
      assert s[1..] + [c] == [c];
    } else if !IsAlnum(s[1]) {
      DropRunSnoc(s[1..], c);
    }
  }

  /** What is left after the first run ends as the whole string does. */
  lemma {:induction false} DropRunEnds(s: string)
    ensures DropRun(s) != "" ==> DropRun(s)[|DropRun(s)| - 1] == s[|s| - 1]
    ensures DropRun(s) == "" && s != "" ==> !IsAlnum(s[|s| - 1])
  {
    if s != "" && !IsAlnum(s[0]) {
      DropRunEnds(s[1..]);
    }
  }

  /** The collapsed string ends in a dash exactly when the input ends in another character. */
  lemma {:induction false} CollapseEnds(s: string)
    requires s != ""
    ensures Collapse(s) != "" && (Collapse(s)[|Collapse(s)| - 1] == '-' <==> !IsAlnum(s[|s| - 1]))
  {
    var k := |s| - 1;
    assert s == s[..k] + [s[k]];
    CollapseSnoc(s[..k], s[k]);
    if !IsAlnum(s[k]) && k > 0 && !IsAlnum(s[k - 1]) {
      CollapseEnds(s[..k]);
    }
  }

  lemma {:induction false} TrimLeftSnoc(s: string, c: char)
    ensures TrimLeftDashes(s + [c]) == if TrimLeftDashes(s) == "" && c == '-' then "" else TrimLeftDashes(s) + [c]
  {
    if s == "" {
      assert s + [c] == [c];
    } else {
      assert (s + [c])[1..] == s[1..] + [c];
      if s[0] == '-' {
        TrimLeftSnoc(s[1..], c);
      }
    }
  }

  lemma {:induction false} TrimLeftEnds(s: string)
    ensures TrimLeftDashes(s) != "" ==> TrimLeftDashes(s)[|TrimLeftDashes(s)| - 1] == s[|s| - 1]
    ensures TrimLeftDashes(s) == "" && s != "" ==> s[|s| - 1] == '-'
  {
    if s != "" && s[0] == '-' {
      TrimLeftEnds(s[1..]);
    }
  }

  /** The buffer of the one-pass loop after reading `s`. */
  function Buffer(s: string): string {
    TrimLeftDashes(Collapse(s))
  }

  /** One iteration: letters and digits are kept, the first other character after one becomes a dash. */
  lemma BufferStep(s: string, c: char)
    ensures Buffer(s + [c]) ==
              if IsAlnum(c) then Buffer(s) + [c]
              else if Buffer(s) != "" && Buffer(s)[|Buffer(s)| - 1] != '-' then Buffer(s) + "-"
              else Buffer(s)
  {
    CollapseSnoc(s, c);
    TrimLeftSnoc(Collapse(s), c);
    TrimLeftSnoc(Collapse(s), '-');
    TrimLeftEnds(Collapse(s));
    if s != "" {
      CollapseEnds(s);
    }
    hide Collapse, TrimLeftDashes;
  }

  method SlugLoop(text: string) returns (r: string)
    ensures r == Normal(text) && r == Spelled(text)
  {
    NormalSpells(text);
    hide Spelled;
    var b, dash := "", false;
    for i := 0 to |text|
      invariant b == Buffer(text[..i])
      invariant dash <==> b != "" && b[|b| - 1] == '-'
    {
      var c := text[i];
      assert text[..i + 1] == text[..i] + [c];
      BufferStep(text[..i], c);
      if IsAlnum(c) {
        b := b + [c];
        dash := false;
      } else if !dash && |b| > 0 {
        b := b + "-";
        dash := true;
      }
    }
    assert text[..|text|] == text;
    TrimLeftIdempotent(Collapse(text));
    r := TrimDashes(b);
  }

  lemma {:induction false} TrimLeftIdempotent(s: string)
    ensures TrimLeftDashes(TrimLeftDashes(s)) == TrimLeftDashes(s)
  {
    if s != "" && s[0] == '-' {
      TrimLeftIdempotent(s[1..]);
    }
  }

  // ----- What a name spells -----

  ghost predicate NoAlnum(s: string) {
    forall i :: 0 <= i < |s| ==> !IsAlnum(s[i])
  }

  /** The letters and digits in their order, and one dash where other characters stand between two of them. */
  ghost function Spelled(s: string): string {
    if s == "" then ""
    else
      var k := |s| - 1;
      var before := s[..k];
      if !IsAlnum(s[k]) then Spelled(before)
      else if NoAlnum(before) then [s[k]]
      else if IsAlnum(s[k - 1]) then Spelled(before) + [s[k]]
      else Spelled(before) + "-" + [s[k]]
  }

  /** The buffer of the loop, and whether its last dash is still to be taken away. */
  lemma {:induction false} BufferSpells(s: string)
    ensures Buffer(s) == (if s != "" && !IsAlnum(s[|s| - 1]) && Spelled(s) != "" then Spelled(s) + "-" else Spelled(s))
    ensures Spelled(s) == "" <==> NoAlnum(s)
    ensures Spelled(s) != "" ==> IsAlnum(Spelled(s)[|Spelled(s)| - 1])
  {
    if s != "" {
      var k := |s| - 1;
      assert s == s[..k] + [s[k]];
      BufferSpells(s[..k]);
      BufferStep(s[..k], s[k]);
      hide Buffer;
      assert forall i :: 0 <= i < k ==> s[..k][i] == s[i];
    }
  }

  /** Collapsing and trimming spells the name. */
  lemma NormalSpells(s: string)
    ensures Normal(s) == Spelled(s)
  {
    BufferSpells(s);
    var b, r := Buffer(s), Spelled(s);
    assert Normal(s) == TrimRightDashes(b);
    hide Buffer, Spelled, Normal;
    if b == r + "-" {
      assert b[..|b| - 1] == r;
      assert TrimRightDashes(b) == TrimRightDashes(r);
    }
    assert TrimRightDashes(r) == r;
  }

  /** `r` is `s` up to at most 54 characters, less a dash at the end. */
  ghost predicate CutShort(s: string, r: string) {
    r <= s && |s| > 53 && (|r| == 54 || (|r| == 53 && s[53] == '-'))
  }

  /**
   The label of a resource: what its name, or else its id, spells in lower case, or a default if that
   is nothing; from 64 characters on, a beginning of it and the digest of the whole lower-case name.
   */
  lemma DnsNameIs(lower: char -> char, digest: string -> string, name: string, fallback: string)
    ensures var raw := LowerAll(lower, if name == "" then fallback else name);
            var r := DnsName(lower, digest, name, fallback);
            if Spelled(raw) == "" then r == "resource"
            else if |Spelled(raw)| <= 63 then r == Spelled(raw)
            else exists head :: CutShort(Spelled(raw), head) && r == head + "-" + digest(raw)
  {
    var raw := LowerAll(lower, if name == "" then fallback else name);
    NormalSpells(raw);
    NormalTidy(raw);
    var value := Spelled(raw);
    hide Normal, Spelled, LowerAll, TrimDashes, CutShort;
    if |value| > 63 {
      CutIs(value);
      var head := TrimDashes(value[..54]);
      assert DnsName(lower, digest, name, fallback) == head + "-" + digest(raw);
    }
  }

  lemma CutIs(value: string)
    requires Tidy(value) && |value| > 63
    ensures CutShort(value, TrimDashes(value[..54]))
  {
    var head := value[..54];
    assert TrimLeftDashes(head) == head;
    if head[53] == '-' {
      assert head[..53] == value[..53] && IsAlnum(value[52]);
      assert TrimRightDashes(head) == TrimRightDashes(head[..53]);
    }
  }

  /** Long names with different digests get different labels. */
  lemma LongNamesApart(lower: char -> char, digest: string -> string, a: string, b: string, fallback: string)
    requires Digests(digest) && a != "" && b != ""
    requires |Spelled(LowerAll(lower, a))| > 63 && |Spelled(LowerAll(lower, b))| > 63
    requires digest(LowerAll(lower, a)) != digest(LowerAll(lower, b))
    ensures DnsName(lower, digest, a, fallback) != DnsName(lower, digest, b, fallback)
  {
    DnsNameIs(lower, digest, a, fallback);
    DnsNameIs(lower, digest, b, fallback);
    var x, y := DnsName(lower, digest, a, fallback), DnsName(lower, digest, b, fallback);
    hide DnsName, Spelled, CutShort, LowerAll;
    assert x[|x| - 8..] == digest(LowerAll(lower, a)) && y[|y| - 8..] == digest(LowerAll(lower, b));
  }

  /** Other characters at the left end leave no trace. */
  lemma LeftJunk(c: char, s: string)
    requires !IsAlnum(c)
    ensures Normal([c] + s) == Normal(s)
  {
    assert ([c] + s)[1..] == s;
    assert DropRun([c] + s) == DropRun(s);
    if s != "" && !IsAlnum(s[0]) {
      assert Collapse([c] + s) == Collapse(s);
    } else {
      assert DropRun(s) == s;
      assert ("-" + Collapse(s))[1..] == Collapse(s);
      assert TrimLeftDashes("-" + Collapse(s)) == TrimLeftDashes(Collapse(s));
    }
  }

  /** Nor do they at the right end. */
  lemma RightJunk(s: string, c: char)
    requires !IsAlnum(c)
    ensures Normal(s + [c]) == Normal(s)
  {
    BufferStep(s, c);
    var b := Buffer(s);
    assert (b + "-")[..|b|] == b;
    hide Collapse, TrimLeftDashes;
    assert TrimRightDashes(b + "-") == TrimRightDashes(b);
  }

  lemma {:induction false} TrimLeftNormal(lower: char -> char, s: string)
    requires Lowers(lower)
    ensures Normal(LowerAll(lower, TrimLeft(s))) == Normal(LowerAll(lower, s))
  {
    if s != "" && IsSpace(s[0]) {
      TrimLeftNormal(lower, s[1..]);
      assert LowerAll(lower, s) == [lower(s[0])] + LowerAll(lower, s[1..]);
      LeftJunk(lower(s[0]), LowerAll(lower, s[1..]));
    }
  }

  lemma {:induction false} TrimRightNormal(lower: char -> char, s: string)
    requires Lowers(lower)
    ensures Normal(LowerAll(lower, TrimRight(s))) == Normal(LowerAll(lower, s))
  {
    if s != "" && IsSpace(s[|s| - 1]) {
      var k := |s| - 1;
      TrimRightNormal(lower, s[..k]);
      assert LowerAll(lower, s) == LowerAll(lower, s[..k]) + [lower(s[k])];
      RightJunk(LowerAll(lower, s[..k]), lower(s[k]));
    }
  }

  /**
   The one-pass `slug` of a string is exactly what `dnsName` makes of it before it falls back to
   a default or truncates, so short names come out the same both ways.
   */
  method Slug(lower: char -> char, value: string) returns (r: string)
    requires Lowers(lower)
    ensures r == Normal(LowerAll(lower, value)) && r == Spelled(LowerAll(lower, value))
    ensures r == "" || Tidy(r)
    ensures forall digest: string -> string, fallback: string ::
              value != "" && 1 <= |r| <= 63 ==> DnsName(lower, digest, value, fallback) == r
  {
    TrimLeftNormal(lower, value);
    TrimRightNormal(lower, TrimLeft(value));
    NormalTidy(LowerAll(lower, value));
    NormalSpells(LowerAll(lower, value));
    hide Spelled, Normal;
    r := SlugLoop(LowerAll(lower, Trim(value)));
  }
}
