/**
  The few Python string operations the result-graphing script relies on:
  `startswith`, the `in` substring test, `str.replace` and `%d` formatting.
*/
module Strings {

  /** s.startswith(prefix) */
  predicate StartsWith(s: string, prefix: string) {
    |prefix| <= |s| && s[..|prefix|] == prefix
  }

  /** `part in s`: part occurs in s starting at some position. */
  predicate Contains(s: string, part: string)
    decreases |s|
  {
    StartsWith(s, part) || (|s| > 0 && Contains(s[1..], part))
  }

  /** part occurs in s at index k. */
  predicate OccursAt(s: string, part: string, k: int) {
    0 <= k && k + |part| <= |s| && s[k..k + |part|] == part
  }

  /** Contains agrees with the declarative definition: an occurrence at some index. */
  lemma {:induction false} ContainsAt(s: string, part: string)
    ensures Contains(s, part) <==> exists k :: OccursAt(s, part, k)
    decreases |s|
  {
    if |s| == 0 {
      if |part| == 0 {
        assert OccursAt(s, part, 0);
      }
    } else {
      ContainsAt(s[1..], part);
      if StartsWith(s, part) {
        assert OccursAt(s, part, 0);
      } else if Contains(s[1..], part) {
        var k :| OccursAt(s[1..], part, k);
        assert s[1..][k..k + |part|] == s[k + 1..k + 1 + |part|];
        assert OccursAt(s, part, k + 1);
      }
      if exists k :: OccursAt(s, part, k) {
        var k :| OccursAt(s, part, k);
        if k > 0 {
          assert s[1..][k - 1..k - 1 + |part|] == s[k..k + |part|];
          assert OccursAt(s[1..], part, k - 1);
        }
      }
    }
  }

  /** An occurrence inside a part is an occurrence in any string containing that part. */
  lemma ContainsTransitive(s: string, part: string, inner: string)
    requires Contains(s, part) && Contains(part, inner)
    ensures Contains(s, inner)
  {
    ContainsAt(s, part);
    ContainsAt(part, inner);
    ContainsAt(s, inner);
    var k :| OccursAt(s, part, k);
    var j :| OccursAt(part, inner, j);
    forall i | 0 <= i < |inner|
      ensures s[k + j + i] == inner[i]
    {
      assert part[j + i] == inner[i];
      assert s[k + (j + i)] == part[j + i];
    }
    assert s[k + j..k + j + |inner|] == inner;
    assert OccursAt(s, inner, k + j);
  }

  // ---------------------------------------------------------------------------
  // str.replace
  // ---------------------------------------------------------------------------

  /** s.replace(pattern, replacement): every non-overlapping occurrence, left to right. */
  function ReplaceAll(s: string, pattern: string, replacement: string): string
    requires |pattern| > 0
    decreases |s|
  {
    if |s| == 0 then []
    else if StartsWith(s, pattern) then replacement + ReplaceAll(s[|pattern|..], pattern, replacement)
    else [s[0]] + ReplaceAll(s[1..], pattern, replacement)
  }

  /** A string with no occurrence of the pattern is returned unchanged. */
  lemma {:induction false} ReplaceAbsent(s: string, pattern: string, replacement: string)
    requires |pattern| > 0 && !Contains(s, pattern)
    ensures ReplaceAll(s, pattern, replacement) == s
    decreases |s|
  {
    if |s| > 0 {
      ReplaceAbsent(s[1..], pattern, replacement);
    }
  }

  /**
    Up to the first occurrence of the pattern the text is kept as it is; that
    occurrence becomes the replacement, and the rewrite continues after it.
  */
  lemma {:induction false} ReplaceAllKeepsPrefix(prefix: string, pattern: string, replacement: string, rest: string)
    requires |pattern| > 0
    requires forall k :: 0 <= k < |prefix| ==> !OccursAt(prefix + pattern + rest, pattern, k)
    ensures ReplaceAll(prefix + pattern + rest, pattern, replacement)
              == prefix + replacement + ReplaceAll(rest, pattern, replacement)
    decreases |prefix|
  {
    var s := prefix + pattern + rest;
    if |prefix| == 0 {
      assert s == pattern + rest && s[..|pattern|] == pattern && s[|pattern|..] == rest;
    } else {
      assert !OccursAt(s, pattern, 0);
      assert s[..|pattern|] == s[0..|pattern|];
      assert s[1..] == prefix[1..] + pattern + rest;
      forall k | 0 <= k < |prefix| - 1
        ensures !OccursAt(s[1..], pattern, k)
      {
        assert !OccursAt(s, pattern, k + 1);
        if k + |pattern| <= |s[1..]| {
          assert s[1..][k..k + |pattern|] == s[k + 1..k + 1 + |pattern|];
        }
      }
      ReplaceAllKeepsPrefix(prefix[1..], pattern, replacement, rest);
      assert prefix == [prefix[0]] + prefix[1..];
    }
  }

  /** The rewrite of C++ scope names: std_ becomes std::. */
  function ReplaceStd(s: string): string {
    ReplaceAll(s, "std_", "std::")
  }

  /** A leading std_ with no further std_ after it: only the prefix changes. */
  lemma ReplaceStdOnlyPrefix(s: string)
    requires StartsWith(s, "std_")
    ensures !Contains(s[4..], "std_") ==> ReplaceStd(s) == "std::" + s[4..]
  {
    if !Contains(s[4..], "std_") {
      assert s == [] + "std_" + s[4..];
      ReplaceAllKeepsPrefix([], "std_", "std::", s[4..]);
      ReplaceAbsent(s[4..], "std_", "std::");
    }
  }

  /** Rewriting std_ keeps the first character (both spellings start with 's'). */
  lemma ReplaceStdKeepsFirst(s: string)
    ensures |ReplaceStd(s)| == 0 <==> |s| == 0
    ensures |s| > 0 ==> ReplaceStd(s)[0] == s[0]
  {
  }

  /** After the rewrite, std_ occurs at no index. */
  lemma {:induction false} ReplaceStdLeavesNone(s: string)
    ensures forall k :: !OccursAt(ReplaceStd(s), "std_", k)
    decreases |s|
  {
    var r := ReplaceStd(s);
    if |s| == 0 {
    } else if StartsWith(s, "std_") {
      var rest := ReplaceStd(s[4..]);
      ReplaceStdLeavesNone(s[4..]);
      assert r == "std::" + rest;
      forall k | 0 <= k <= |r| - 4
        ensures !OccursAt(r, "std_", k)
      {
        if k >= 5 {
          assert r[k..k + 4] == rest[k - 5..k - 1];
          assert !OccursAt(rest, "std_", k - 5);
        } else if k == 0 {
          assert r[k..k + 4][3] == r[3] == ':';
        } else {
          assert r[k..k + 4][0] == r[k] == "std::"[k];
        }
      }
    } else {
      var rest := ReplaceStd(s[1..]);
      ReplaceStdLeavesNone(s[1..]);
      assert r == [s[0]] + rest;
      forall k | 0 <= k <= |r| - 4
        ensures !OccursAt(r, "std_", k)
      {
        if k >= 1 {
          assert r[k..k + 4] == rest[k - 1..k + 3];
          assert !OccursAt(rest, "std_", k - 1);
        } else {
          ReplaceStdHead(s);
        }
      }
    }
  }

  /** A string that does not start with std_ does not start with std_ after the rewrite either. */
  lemma ReplaceStdHead(s: string)
    requires |s| > 0 && !StartsWith(s, "std_") && |ReplaceStd(s)| >= 4
    ensures ReplaceStd(s)[..4] != "std_"
  {
    var r := ReplaceStd(s);
    assert r == [s[0]] + ReplaceStd(s[1..]);
    ReplaceStdKeepsFirst(s[1..]);
    assert r[..4][0] == s[0] && r[..4][1] == s[1];
    if s[0] == 's' && s[1] == 't' {
      assert ReplaceStd(s[1..]) == [s[1]] + ReplaceStd(s[2..]);
      ReplaceStdKeepsFirst(s[2..]);
      assert r[..4][2] == s[2];
      if s[2] == 'd' {
        assert ReplaceStd(s[2..]) == [s[2]] + ReplaceStd(s[3..]);
        ReplaceStdKeepsFirst(s[3..]);
        assert r[..4][3] == s[3];
        assert s[..4] == [s[0], s[1], s[2], s[3]];
      }
    }
  }

  /** Hence the rewritten string does not contain std_ in Python's sense either. */
  lemma ReplaceStdRemovesAll(s: string)
    ensures !Contains(ReplaceStd(s), "std_")
  {
    ReplaceStdLeavesNone(s);
    ContainsAt(ReplaceStd(s), "std_");
  }

  // ---------------------------------------------------------------------------
  // "%d"
  // ---------------------------------------------------------------------------

  predicate IsDigit(c: char) {
    '0' <= c <= '9'
  }

  function DigitChar(d: int): (c: char)
    requires 0 <= d < 10
    ensures IsDigit(c)
  {
    ('0' as int + d) as char
  }

  /** Decimal digits of n, most significant first, without leading zeros. */
  function NatToDecimal(n: nat): (r: string)
    ensures |r| > 0 && forall k :: 0 <= k < |r| ==> IsDigit(r[k])
    ensures r[0] == '0' ==> n == 0
  {
    if n < 10 then [DigitChar(n)] else NatToDecimal(n / 10) + [DigitChar(n % 10)]
  }

  /** "%d" % n */
  function IntToDecimal(n: int): string {
    if n < 0 then "-" + NatToDecimal(-n) else NatToDecimal(n)
  }

  /** The value of a string of decimal digits (Python's int() on such a string). */
  function DecimalValue(s: string): int
    requires forall k :: 0 <= k < |s| ==> IsDigit(s[k])
  {
    if |s| == 0 then 0 else DecimalValue(s[..|s| - 1]) * 10 + (s[|s| - 1] as int - '0' as int)
  }

  /** Formatting with "%d" and reading the digits back gives the number again. */
  lemma {:induction false} DecimalRoundTrip(n: nat)
    ensures DecimalValue(NatToDecimal(n)) == n
  {
    if n >= 10 {
      DecimalRoundTrip(n / 10);
      var r := NatToDecimal(n);
      assert r[..|r| - 1] == NatToDecimal(n / 10);
    }
  }
}
