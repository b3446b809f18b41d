/**
 * Semantic versions as the `semver` crate's `Version::parse` accepts them, restricted
 * to the `MAJOR.MINOR.PATCH` core of Semantic Versioning 2.0.0 (section 2): three
 * dot-separated non-negative integers without leading zeros, each below 2^64.
 * Versions compare by major, then minor, then patch (section 11 of the same standard).
 */
module Semver {
  import opened Wrappers
  import opened Numeric

  datatype Version = Version(major: U64, minor: U64, patch: U64)

  /** The strict precedence order of section 11 of Semantic Versioning 2.0.0: lexicographic on the three numbers. */
  predicate Less(a: Version, b: Version) {
    || a.major < b.major
    || (a.major == b.major && a.minor < b.minor)
    || (a.major == b.major && a.minor == b.minor && a.patch < b.patch)
  }

  predicate LessOrEqual(a: Version, b: Version) {
    a == b || Less(a, b)
  }

  /** `Ord::cmp` on versions is a total order. */
  lemma LessOrEqualIsTotalOrder(a: Version, b: Version, c: Version)
    ensures LessOrEqual(a, a)
    ensures LessOrEqual(a, b) && LessOrEqual(b, a) ==> a == b
    ensures LessOrEqual(a, b) && LessOrEqual(b, c) ==> LessOrEqual(a, c)
    ensures LessOrEqual(a, b) || LessOrEqual(b, a)
    ensures Less(a, b) <==> !LessOrEqual(b, a)
  {
  }

  // ---- digits ----

  predicate IsDigit(c: char) { '0' <= c <= '9' }

  function DigitValue(c: char): nat
    requires IsDigit(c)
  {
    c as int - '0' as int
  }

  function DigitChar(d: nat): (c: char)
    requires d < 10
    ensures IsDigit(c) && DigitValue(c) == d
  {
    ('0' as int + d) as char
  }

  predicate AllDigits(s: string) {
    forall i :: 0 <= i < |s| ==> IsDigit(s[i])
  }

  /** A numeric identifier of section 2 of Semantic Versioning 2.0.0: digits, and no leading zero unless it is `0` itself. */
  predicate IsNumericIdentifier(s: string) {
    && |s| > 0
    && AllDigits(s)
    && (s[0] == '0' ==> |s| == 1)
  }

  /** The value of a string of decimal digits, most significant first. */
  function DigitsValue(s: string): nat
    requires AllDigits(s)
  {
    if s == [] then 0 else DigitsValue(s[..|s| - 1]) * 10 + DigitValue(s[|s| - 1])
  }

  /** The decimal text of `n`, the inverse of `DigitsValue` on numeric identifiers. */
  function NatToString(n: nat): (s: string)
    ensures IsNumericIdentifier(s)
  {
    if n < 10 then [DigitChar(n)] else NatToString(n / 10) + [DigitChar(n % 10)]
  }

  lemma {:induction false} NatToStringValue(n: nat)
    ensures DigitsValue(NatToString(n)) == n
  {
    var s := NatToString(n);
    if n >= 10 {
      NatToStringValue(n / 10);
      assert s[..|s| - 1] == NatToString(n / 10);
    }
  }

  lemma {:induction false} LeadingNonZeroIsPositive(s: string)
    requires |s| > 0 && AllDigits(s) && s[0] != '0'
    ensures DigitsValue(s) > 0
  {
    if |s| > 1 {
      var p := s[..|s| - 1];
      assert p[0] == s[0];
      LeadingNonZeroIsPositive(p);
    }
  }

  /** Appending a digit `d` to the decimal text of `q` gives `q * 10 + d`, whose quotient and remainder by 10 are `q` and `d`. */
  lemma AppendDigit(q: nat, d: nat)
    requires d < 10
    ensures (q * 10 + d) / 10 == q && (q * 10 + d) % 10 == d
  {
  }

  lemma {:induction false} NumericIdentifierRoundTrip(s: string)
    requires IsNumericIdentifier(s)
    ensures NatToString(DigitsValue(s)) == s
  {
    if |s| > 1 {
      var p := s[..|s| - 1];
      var d := DigitValue(s[|s| - 1]);
      assert p[0] == s[0];
      LeadingNonZeroIsPositive(p);
      NumericIdentifierRoundTrip(p);
      var n := DigitsValue(s);
      assert n == DigitsValue(p) * 10 + d;
      AppendDigit(DigitsValue(p), d);
      assert NatToString(n) == NatToString(DigitsValue(p)) + [DigitChar(d)];
      assert s == p + [s[|s| - 1]];
    }
  }

  /** One numeric identifier: `None` for a malformed one or one that overflows `u64`. */
  function ParseNumber(s: string): (r: Option<U64>)
    ensures r.Some? ==> IsNumericIdentifier(s) && r.value == DigitsValue(s)
  {
    if IsNumericIdentifier(s) && DigitsValue(s) < U64_MODULUS then Some(DigitsValue(s)) else None
  }

  // ---- splitting on '.' ----

  /** The pieces of `s` between dots; always at least one piece. */
  function Split(s: string): (parts: seq<string>)
    ensures |parts| > 0
    ensures forall i :: 0 <= i < |parts| ==> '.' !in parts[i]
  {
    if s == [] then [""]
    else if s[0] == '.' then [""] + Split(s[1..])
    else
      var t := Split(s[1..]);
      [[s[0]] + t[0]] + t[1..]
  }

  function Join(parts: seq<string>): string
    requires |parts| > 0
  {
    if |parts| == 1 then parts[0] else parts[0] + "." + Join(parts[1..])
  }

  lemma {:induction false} JoinSplit(s: string)
    ensures Join(Split(s)) == s
  {
    if s != [] {
      JoinSplit(s[1..]);
      var t := Split(s[1..]);
      if s[0] != '.' {
        if |t| > 1 {
          assert Split(s)[1..] == t[1..];
          assert Join(t) == t[0] + "." + Join(t[1..]);
        }
      }
    }
  }

  lemma {:induction false} SplitWithoutDot(a: string, b: string)
    requires '.' !in a
    ensures Split(a + "." + b) == [a] + Split(b)
    ensures Split(a) == [a]
  {
    if a == [] {
      assert a + "." + b == "." + b;
      assert ("." + b)[1..] == b;
    } else {
      assert (a + "." + b)[1..] == a[1..] + "." + b;
      assert (a + "." + b)[0] == a[0];
      SplitWithoutDot(a[1..], b);
      assert [a[0]] + a[1..] == a;
    }
  }

  // ---- versions ----

  /** `Version::parse`: exactly three numeric identifiers separated by dots. */
  function Parse(s: string): (r: Option<Version>)
    ensures r.Some? ==> s == NatToString(r.value.major) + "." + NatToString(r.value.minor) + "." + NatToString(r.value.patch)
  {
    var parts := Split(s);
    if |parts| != 3 then None
    else match (ParseNumber(parts[0]), ParseNumber(parts[1]), ParseNumber(parts[2]))
      case (Some(ma), Some(mi), Some(pa)) =>
        CanonicalText(s);
        Some(Version(ma, mi, pa))
      case _ => None
  }

  /** A string of three numeric identifiers joined by dots is the text of their values. */
  lemma CanonicalText(s: string)
    requires |Split(s)| == 3
    requires IsNumericIdentifier(Split(s)[0]) && IsNumericIdentifier(Split(s)[1]) && IsNumericIdentifier(Split(s)[2])
    ensures var parts := Split(s);
            s == NatToString(DigitsValue(parts[0])) + "." + NatToString(DigitsValue(parts[1])) + "."
                 + NatToString(DigitsValue(parts[2]))
  {
    var parts := Split(s);
    NumericIdentifierRoundTrip(parts[0]);
    NumericIdentifierRoundTrip(parts[1]);
    NumericIdentifierRoundTrip(parts[2]);
    JoinSplit(s);
    assert parts[1..][1..] == [parts[2]];
    assert Join(parts[1..]) == parts[1] + "." + parts[2];
    assert Join(parts) == parts[0] + "." + Join(parts[1..]);
    assert s == parts[0] + "." + (parts[1] + "." + parts[2]);
  }

  /** `Version`'s `Display`: `MAJOR.MINOR.PATCH`; parsing the text gives the version back. */
  function Format(v: Version): (s: string)
    ensures Parse(s) == Some(v)
  {
    var a, b, c := NatToString(v.major), NatToString(v.minor), NatToString(v.patch);
    DigitsHaveNoDot(a);
    DigitsHaveNoDot(b);
    DigitsHaveNoDot(c);
    SplitWithoutDot(b, c);
    SplitWithoutDot(c, "");
    assert a + "." + b + "." + c == a + "." + (b + "." + c);
    SplitWithoutDot(a, b + "." + c);
    assert Split(a + "." + b + "." + c) == [a, b, c];
    NatToStringValue(v.major);
    NatToStringValue(v.minor);
    NatToStringValue(v.patch);
    a + "." + b + "." + c
  }

  lemma DigitsHaveNoDot(s: string)
    requires AllDigits(s)
    ensures '.' !in s
  {
  }

  /** The parser accepts only canonical text: a parsed string is the format of its version. */
  lemma FormatParse(s: string)
    requires Parse(s).Some?
    ensures Format(Parse(s).value) == s
  {
  }

  /** Two strings parse to the same version only when they are the same string. */
  lemma ParseInjective(s: string, t: string)
    requires Parse(s).Some? && Parse(s) == Parse(t)
    ensures s == t
  {
    FormatParse(s);
    FormatParse(t);
  }
}
