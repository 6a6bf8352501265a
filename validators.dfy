/**
 * `validateDomain` and `validateUrl` from main.ts. Each returns `true` or one
 * fixed reason string; here that is `Valid` or `Invalid(reason)`.
 */
module Validators {
  import opened Text

  datatype Validation = Valid | Invalid(reason: string)

  const DomainLengthReason: string := "Domain name must be between 3 and 253 characters long"
  const DomainTldReason: string := "Domain name must include a TLD (e.g., example.com)"
  const DomainLabelReason: string := "Domain name must be a valid domain name"
  const UrlReason: string := "Please enter a valid domain name or IP address (e.g., example.com or 192.168.1.1)"

  /** Reasons the `init` prompts give for an empty answer before calling a validator. */
  const DomainRequiredReason: string := "Domain name is required"
  const TargetRequiredReason: string := "Target is required"

  /** The class `[a-zA-Z0-9-]` of the label pattern. */
  predicate IsLabelChar(c: char) {
    IsAlnum(c) || c == '-'
  }

  /**
   * `^[a-zA-Z0-9](?:[a-zA-Z0-9-]{0,61}[a-zA-Z0-9])?$`: one alphanumeric, or an
   * alphanumeric, up to 61 label characters and a closing alphanumeric.
   */
  predicate IsFirstLabel(part: string)
    ensures IsFirstLabel(part) ==> 1 <= |part| <= 63 && forall i :: 0 <= i < |part| ==> IsLabelChar(part[i])
  {
    || (|part| == 1 && IsAlnum(part[0]))
    || (&& 2 <= |part| <= 63
        && IsAlnum(part[0])
        && (forall i :: 1 <= i < |part| - 1 ==> IsLabelChar(part[i]))
        && IsAlnum(part[|part| - 1]))
  }

  /** Length first, then the presence of a second `.`-part, then the first label only. */
  function ValidateDomain(value: string): (r: Validation)
    ensures r.Invalid? ==> r.reason in {DomainLengthReason, DomainTldReason, DomainLabelReason}
    ensures r == Invalid(DomainLengthReason) <==> |value| < 3 || |value| > 253
    ensures r == Invalid(DomainTldReason) <==> 3 <= |value| <= 253 && '.' !in value
  {
    if |value| < 3 || |value| > 253 then Invalid(DomainLengthReason)
    else
      var parts := Split(value, '.');
      if |parts| < 2 then Invalid(DomainTldReason)
      else if !IsFirstLabel(parts[0]) then Invalid(DomainLabelReason)
      else Valid
  }

  /**
   * A domain is accepted exactly when its length is in [3, 253] and the text
   * before its first `.` is a well-formed label; what follows is never looked at.
   */
  lemma DomainAcceptedIff(value: string)
    ensures ValidateDomain(value) == Valid <==>
      && 3 <= |value| <= 253
      && exists k :: 0 <= k < |value| && value[k] == '.' && '.' !in value[..k] && IsFirstLabel(value[..k])
  {
    var parts := Split(value, '.');
    if '.' in value {
      var k := |parts[0]|;
      assert parts[0] == value[..k];
      if ValidateDomain(value) == Valid {
        assert value[k] == '.' && '.' !in value[..k] && IsFirstLabel(value[..k]);
      }
      forall j | 0 <= j < |value| && value[j] == '.' && '.' !in value[..j]
        ensures j == k
      {
        FirstSeparatorUnique(value, '.', j);
      }
    }
  }

  /** A first label that is well formed and ends at the first `.` is accepted. */
  lemma AcceptedAt(value: string, k: int)
    requires 3 <= |value| <= 253
    requires 0 <= k < |value| && value[k] == '.' && '.' !in value[..k] && IsFirstLabel(value[..k])
    ensures ValidateDomain(value) == Valid
  {
    DomainAcceptedIff(value);
  }

  /** Examples: ordinary names pass, and so does a name whose later label is malformed. */
  lemma DomainAcceptExamples()
    ensures ValidateDomain("a.com") == Valid
    ensures ValidateDomain("my-site.example.org") == Valid
    ensures ValidateDomain("a.-") == Valid
  {
    AcceptedAt("a.com", 1);
    var m := "my-site.example.org";
    assert m[..7] == "my-site";
    AcceptedAt(m, 7);
    AcceptedAt("a.-", 1);
  }

  /** Examples: a leading hyphen fails on the label, a short name on length, a dotless one on the TLD. */
  lemma DomainRejectExamples()
    ensures ValidateDomain("-bad.com") == Invalid(DomainLabelReason)
    ensures ValidateDomain("ab") == Invalid(DomainLengthReason)
    ensures ValidateDomain("abc") == Invalid(DomainTldReason)
  {
    var v := "-bad.com";
    FirstSeparatorUnique(v, '.', 4);
    var parts := Split(v, '.');
    assert parts[0] == v[..4];
  }

  /** The class `[a-zA-Z0-9-_.]` of the hostname pattern: alphanumerics, `-`, `_` and `.`. */
  predicate IsHostChar(c: char) {
    IsAlnum(c) || c == '-' || c == '_' || c == '.'
  }

  /**
   * The language of `^[a-zA-Z0-9][a-zA-Z0-9-_.]*[a-zA-Z0-9](\.[a-zA-Z0-9][a-zA-Z0-9-_.]*[a-zA-Z0-9])*$`:
   * at least two characters, alphanumeric at both ends, host characters inside
   * (HostPatternIff shows the repeated group adds nothing).
   */
  predicate IsHostLike(s: string)
    ensures IsHostLike(s) ==> forall i :: 0 <= i < |s| ==> IsHostChar(s[i])
  {
    && |s| >= 2
    && IsAlnum(s[0])
    && IsAlnum(s[|s| - 1])
    && forall i :: 1 <= i < |s| - 1 ==> IsHostChar(s[i])
  }

  /** The repeated `(\.[a-zA-Z0-9][a-zA-Z0-9-_.]*[a-zA-Z0-9])*` tail, read group by group. */
  ghost predicate DotGroups(t: string)
    decreases |t|
  {
    || t == []
    || (&& t[0] == '.'
        && exists j :: 3 <= j <= |t| && IsHostLike(t[1..j]) && DotGroups(t[j..]))
  }

  /** The hostname pattern read structurally: a first piece, then the repeated group. */
  ghost predicate HostPattern(s: string) {
    exists k :: 2 <= k <= |s| && IsHostLike(s[..k]) && DotGroups(s[k..])
  }

  lemma {:induction false} DotGroupsShape(t: string)
    requires DotGroups(t) && t != []
    ensures t[0] == '.' && IsAlnum(t[|t| - 1])
    ensures forall i :: 0 <= i < |t| ==> IsHostChar(t[i])
    decreases |t|
  {
    var j :| 3 <= j <= |t| && IsHostLike(t[1..j]) && DotGroups(t[j..]);
    if j < |t| {
      DotGroupsShape(t[j..]);
      assert t[|t| - 1] == t[j..][|t| - j - 1];
    } else {
      assert t[|t| - 1] == t[1..j][j - 2];
    }
    forall i | 0 <= i < |t| ensures IsHostChar(t[i]) {
      if i == 0 {
      } else if i < j {
        assert t[i] == t[1..j][i - 1];
      } else {
        assert t[i] == t[j..][i - j];
      }
    }
  }

  /** IsHostLike is exactly the language of the hostname pattern. */
  lemma HostPatternIff(s: string)
    ensures HostPattern(s) <==> IsHostLike(s)
  {
    if IsHostLike(s) {
      assert s[..|s|] == s && s[|s|..] == [];
      assert DotGroups(s[|s|..]);
    }
    if HostPattern(s) {
      var k :| 2 <= k <= |s| && IsHostLike(s[..k]) && DotGroups(s[k..]);
      if k < |s| {
        DotGroupsShape(s[k..]);
        assert s[|s| - 1] == s[k..][|s| - k - 1];
        forall i | 1 <= i < |s| - 1 ensures IsHostChar(s[i]) {
          if i < k - 1 {
            assert s[i] == s[..k][i];
          } else if i == k - 1 {
            assert s[i] == s[..k][k - 1];
          } else {
            assert s[i] == s[k..][i - k];
          }
        }
      } else {
        assert s[..k] == s;
      }
    }
  }

  /** `\d{1,3}` */
  predicate IsDigitGroup(g: string) {
    1 <= |g| <= 3 && forall i :: 0 <= i < |g| ==> IsDigit(g[i])
  }

  /** `^(\d{1,3}\.){3}\d{1,3}$`: four digit groups separated by dots, no octet range check. */
  predicate IsDottedQuad(s: string)
    ensures IsDottedQuad(s) ==> |s| >= 1 && IsDigit(s[0]) && '.' in s && !HasScheme(s)
  {
    var parts := Split(s, '.');
    |parts| == 4 && forall i :: 0 <= i < 4 ==> IsDigitGroup(parts[i])
  }

  /** Any four 1-3 digit groups joined by `.` form a dotted quad. */
  lemma DottedQuadOfGroups(a: string, b: string, c: string, d: string)
    requires IsDigitGroup(a) && IsDigitGroup(b) && IsDigitGroup(c) && IsDigitGroup(d)
    ensures IsDottedQuad(Join([a, b, c, d], '.'))
  {
    var parts := [a, b, c, d];
    SplitJoin(parts, '.');
  }

  /** Every dotted quad is four digit groups joined by `.`: the regex and the model agree both ways. */
  lemma DottedQuadShape(s: string)
    requires IsDottedQuad(s)
    ensures var p := Split(s, '.'); s == Join([p[0], p[1], p[2], p[3]], '.')
  {
    var p := Split(s, '.');
    JoinSplit(s, '.');
    assert p == [p[0], p[1], p[2], p[3]];
  }

  lemma {:induction false} JoinOfDigitGroups(parts: seq<string>)
    requires |parts| >= 1
    requires forall i :: 0 <= i < |parts| ==> IsDigitGroup(parts[i])
    ensures var s := Join(parts, '.');
      && |s| >= 2 * |parts| - 1
      && IsDigit(s[0]) && IsDigit(s[|s| - 1])
      && forall i :: 0 <= i < |s| ==> IsDigit(s[i]) || s[i] == '.'
    decreases |parts|
  {
    if |parts| > 1 {
      JoinOfDigitGroups(parts[1..]);
      var rest := Join(parts[1..], '.');
      var s := parts[0] + ['.'] + rest;
      assert Join(parts, '.') == s;
      assert s[|s| - 1] == rest[|rest| - 1];
      forall i | 0 <= i < |s| ensures IsDigit(s[i]) || s[i] == '.' {
        if i < |parts[0]| {
          assert s[i] == parts[0][i];
        } else if i > |parts[0]| {
          assert s[i] == rest[i - |parts[0]| - 1];
        }
      }
    }
  }

  /**
   * Every dotted quad already matches the hostname pattern, so the IPv4
   * alternative of `validateUrl` never changes its answer.
   */
  lemma DottedQuadIsHostLike(s: string)
    requires IsDottedQuad(s)
    ensures IsHostLike(s)
  {
    var p := Split(s, '.');
    DottedQuadShape(s);
    JoinOfDigitGroups([p[0], p[1], p[2], p[3]]);
  }

  /** Strips one scheme, then accepts a host-like name or a dotted quad. */
  function ValidateUrl(value: string): (r: Validation)
    ensures r.Invalid? ==> r.reason == UrlReason
    ensures r == Valid <==> IsHostLike(StripScheme(value))
  {
    var cleanValue := StripScheme(value);
    assert IsDottedQuad(cleanValue) ==> IsHostLike(cleanValue) by {
      if IsDottedQuad(cleanValue) { DottedQuadIsHostLike(cleanValue); }
    }
    if IsHostLike(cleanValue) || IsDottedQuad(cleanValue) then Valid else Invalid(UrlReason)
  }

  /**
   * A scheme in front is removed before matching, so `http://s` and `https://s`
   * are judged on `s` exactly as written.
   */
  lemma UrlJudgesRemainder(s: string)
    ensures ValidateUrl(HttpScheme + s) == Valid <==> IsHostLike(s)
    ensures ValidateUrl(HttpsScheme + s) == Valid <==> IsHostLike(s)
  {
    StripSchemeOnce(s);
  }

  /** For a value that carries no scheme itself, adding one does not change the verdict. */
  lemma UrlSchemeIrrelevant(s: string)
    requires !HasScheme(s)
    ensures ValidateUrl(HttpScheme + s) == ValidateUrl(s)
    ensures ValidateUrl(HttpsScheme + s) == ValidateUrl(s)
  {
    UrlJudgesRemainder(s);
  }

  /** Only one scheme is stripped: a doubled scheme is rejected although the inner value passes. */
  lemma UrlDoubleSchemeRejected()
    ensures ValidateUrl("http://a.com") == Valid
    ensures ValidateUrl("http://http://a.com") == Invalid(UrlReason)
  {
    assert StripScheme("http://a.com") == "a.com";
    assert IsHostLike("a.com");
    assert StripScheme("http://http://a.com") == "http://a.com";
    assert !IsHostChar("http://a.com"[4]);
  }

  /** `a.b.c.d` spelled with string concatenation is the joined form. */
  lemma JoinFour(a: string, b: string, c: string, d: string)
    ensures Join([a, b, c, d], '.') == a + "." + b + "." + c + "." + d
  {
    assert [a, b, c, d][1..] == [b, c, d];
    assert [b, c, d][1..] == [c, d];
    assert [c, d][1..] == [d];
    assert Join([c, d], '.') == c + "." + d;
    assert b + "." + (c + "." + d) == b + "." + c + "." + d;
    assert a + "." + (b + "." + c + "." + d) == a + "." + b + "." + c + "." + d;
  }

  /**
   * Any four 1-3 digit groups joined by `.` are accepted (with a scheme in
   * front too, by UrlJudgesRemainder, since the quad is host-like).
   */
  lemma UrlAcceptsAnyQuad(a: string, b: string, c: string, d: string)
    requires IsDigitGroup(a) && IsDigitGroup(b) && IsDigitGroup(c) && IsDigitGroup(d)
    ensures IsDottedQuad(a + "." + b + "." + c + "." + d)
    ensures ValidateUrl(a + "." + b + "." + c + "." + d) == Valid
  {
    var s := Join([a, b, c, d], '.');
    JoinFour(a, b, c, d);
    DottedQuadOfGroups(a, b, c, d);
    DottedQuadIsHostLike(s);
    assert s[0] == a[0];
    assert !HasScheme(s);
  }

  /** Examples: no octet range check, and a scheme is stripped before matching. */
  lemma UrlAcceptExamples()
    ensures ValidateUrl("999.999.999.999") == Valid
    ensures ValidateUrl("192.168.1.1") == Valid
    ensures ValidateUrl("https://example.com") == Valid
  {
    HostLikeAccepted("999.999.999.999");
    HostLikeAccepted("192.168.1.1");
    SchemeExampleAccepted();
  }

  lemma HostLikeAccepted(s: string)
    requires IsHostLike(s) && !HasScheme(s)
    ensures ValidateUrl(s) == Valid
  {
  }

  lemma SchemeExampleAccepted()
    ensures ValidateUrl("https://example.com") == Valid
  {
    assert StripScheme("https://example.com") == "example.com";
    assert IsHostLike("example.com");
  }

  /**
   * Rejections: fewer than two characters after the scheme (a single
   * character, or a bare `https://`), or a space or `!` anywhere.
   */
  lemma UrlRejects(value: string)
    requires |StripScheme(value)| < 2 || ' ' in value || '!' in value
    ensures ValidateUrl(value) == Invalid(UrlReason)
  {
    var r := StripScheme(value);
    var n := |value| - |r|;
    assert value == value[..n] + r;
    assert value[..n] == [] || value[..n] == HttpScheme || value[..n] == HttpsScheme;
    if ValidateUrl(value) == Valid {
      forall i | 0 <= i < |value| ensures value[i] != ' ' && value[i] != '!' {
        if i < n {
          assert value[i] == value[..n][i];
        } else {
          assert value[i] == r[i - n];
        }
      }
    }
  }

  /** Examples: the three rejections named above. */
  lemma UrlRejectExamples()
    ensures ValidateUrl("not a domain!") == Invalid(UrlReason)
    ensures ValidateUrl("https://") == Invalid(UrlReason)
    ensures ValidateUrl("a") == Invalid(UrlReason)
  {
    UrlRejects("not a domain!");
    StripSchemeOnce("");
    assert HttpsScheme + "" == "https://";
    UrlRejects("https://");
    UrlRejects("a");
  }

  /** The domain prompt of `init`: an empty answer is refused before `validateDomain` runs. */
  function CheckDomainAnswer(value: string): (r: Validation)
    ensures value == "" ==> r == Invalid(DomainRequiredReason)
    ensures value != "" ==> r == ValidateDomain(value)
  {
    if value == "" then Invalid(DomainRequiredReason) else ValidateDomain(value)
  }

  /** The target prompt of `init`: an empty answer is refused before `validateUrl` runs. */
  function CheckTargetAnswer(value: string): (r: Validation)
    ensures value == "" ==> r == Invalid(TargetRequiredReason)
    ensures value != "" ==> r == ValidateUrl(value)
  {
    if value == "" then Invalid(TargetRequiredReason) else ValidateUrl(value)
  }

  /** The empty-answer checks change only the message: the prompts accept exactly what the validators accept. */
  lemma PromptsAcceptWhatValidatorsAccept(value: string)
    ensures CheckDomainAnswer(value) == Valid <==> ValidateDomain(value) == Valid
    ensures CheckTargetAnswer(value) == Valid <==> ValidateUrl(value) == Valid
  {
    if value == "" {
      UrlRejects(value);
    }
  }
}
