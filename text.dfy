/**
 * String helpers that stand for the JavaScript built-ins main.ts relies on:
 * the ASCII character classes of its regular expressions, the anchored
 * scheme-stripping `replace(/^https?:\/\//, '')`, and `String.prototype.split`
 * with a one-character separator.
 */
module Text {

  /** The regex class `[a-zA-Z0-9]` (no `i` or `u` flag: ASCII only). */
  predicate IsAlnum(c: char) {
    ('a' <= c <= 'z') || ('A' <= c <= 'Z') || ('0' <= c <= '9')
  }

  /** The regex escape `\d` without the `u` flag: ASCII digits only. */
  predicate IsDigit(c: char) {
    '0' <= c <= '9'
  }

  const HttpScheme: string := "http://"
  const HttpsScheme: string := "https://"

  predicate HasScheme(s: string) {
    HttpScheme <= s || HttpsScheme <= s
  }

  /**
   * `s.replace(/^https?:\/\//, '')`. The pattern is anchored at the start and
   * the regex is not global, so at most one leading scheme is removed.
   */
  function StripScheme(s: string): (r: string)
    ensures HttpsScheme <= s ==> s == HttpsScheme + r
    ensures HttpScheme <= s ==> s == HttpScheme + r
    ensures !HasScheme(s) ==> r == s
  {
    if HttpsScheme <= s then
      assert s[4] == 's';
      s[|HttpsScheme|..]
    else if HttpScheme <= s then s[|HttpScheme|..]
    else s
  }

  /** Exactly one scheme is removed, whatever follows it. */
  lemma StripSchemeOnce(s: string)
    ensures StripScheme(HttpScheme + s) == s
    ensures StripScheme(HttpsScheme + s) == s
  {
    assert (HttpScheme + s)[4] == ':';
    assert !(HttpsScheme <= HttpScheme + s);
    assert (HttpScheme + s)[|HttpScheme|..] == s;
    assert (HttpsScheme + s)[|HttpsScheme|..] == s;
  }

  /** A second scheme survives: stripping is not idempotent. */
  lemma StripSchemeNotIdempotent()
    ensures StripScheme("https://http://a") == "http://a"
    ensures StripScheme(StripScheme("https://http://a")) == "a"
  {
    StripSchemeOnce("http://a");
    StripSchemeOnce("a");
  }

  /**
   * `s.split(sep)` for a one-character separator: the pieces between
   * separators, in order, including empty pieces; "" splits into [""].
   */
  function Split(s: string, sep: char): (parts: seq<string>)
    ensures |parts| >= 1
    ensures forall i :: 0 <= i < |parts| ==> sep !in parts[i]
    ensures parts[0] <= s
    ensures |parts| >= 2 <==> sep in s
    ensures sep in s ==> |parts[0]| < |s| && s[|parts[0]|] == sep
    decreases |s|
  {
    if |s| == 0 then [""]
    else
      var rest := Split(s[1..], sep);
      if s[0] == sep then [""] + rest
      else [[s[0]] + rest[0]] + rest[1..]
  }

  /** Joins pieces with the separator between consecutive pieces. */
  function Join(parts: seq<string>, sep: char): (s: string)
    requires |parts| >= 1
    decreases |parts|
  {
    if |parts| == 1 then parts[0] else parts[0] + [sep] + Join(parts[1..], sep)
  }

  /** The first piece of a split is the text before the first separator, and that position is unique. */
  lemma FirstSeparatorUnique(s: string, sep: char, k: int)
    requires 0 <= k < |s| && s[k] == sep && sep !in s[..k]
    ensures k == |Split(s, sep)[0]|
  {
  }

  lemma {:induction false} SplitPrepend(p: string, t: string, sep: char)
    requires sep !in p
    ensures Split(p + t, sep) == [p + Split(t, sep)[0]] + Split(t, sep)[1..]
    decreases |p|
  {
    if |p| > 0 {
      assert (p + t)[1..] == p[1..] + t;
      SplitPrepend(p[1..], t, sep);
      assert [p[0]] + (p[1..] + Split(t, sep)[0]) == p + Split(t, sep)[0];
    } else {
      var parts := Split(t, sep);
      assert p + t == t;
      assert p + parts[0] == parts[0];
      assert [parts[0]] + parts[1..] == parts;
    }
  }

  /** Splitting undoes joining when no piece contains the separator. */
  lemma {:induction false} SplitJoin(parts: seq<string>, sep: char)
    requires |parts| >= 1
    requires forall i :: 0 <= i < |parts| ==> sep !in parts[i]
    ensures Split(Join(parts, sep), sep) == parts
    decreases |parts|
  {
    if |parts| == 1 {
      SplitPrepend(parts[0], "", sep);
      assert parts[0] + "" == parts[0];
    } else {
      var rest := Join(parts[1..], sep);
      SplitJoin(parts[1..], sep);
      assert parts[0] + [sep] + rest == parts[0] + ([sep] + rest);
      SplitPrepend(parts[0], [sep] + rest, sep);
      assert ([sep] + rest)[1..] == rest;
      assert Split([sep] + rest, sep) == [""] + parts[1..];
      assert parts[0] + "" == parts[0];
    }
  }

  /** Joining undoes splitting. */
  lemma {:induction false} JoinSplit(s: string, sep: char)
    ensures Join(Split(s, sep), sep) == s
    decreases |s|
  {
    if |s| > 0 {
      var rest := Split(s[1..], sep);
      JoinSplit(s[1..], sep);
      if s[0] == sep {
        assert s == [sep] + s[1..];
      } else if |rest| == 1 {
        assert s == [s[0]] + s[1..];
      } else {
        assert Join(rest, sep) == rest[0] + [sep] + Join(rest[1..], sep);
        assert ([[s[0]] + rest[0]] + rest[1..])[1..] == rest[1..];
        assert s == [s[0]] + s[1..];
      }
    }
  }
}
