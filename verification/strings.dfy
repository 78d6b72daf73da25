/** String helpers shared by the modules that take identifiers and paths apart. */
module Strings {

  /** Python's `s.split(sep)`: the segments between separators, empty ones included. */
  function Split(s: string, sep: char): (r: seq<string>)
    ensures |r| >= 1
  {
    if |s| == 0 then [""]
    else if s[0] == sep then [""] + Split(s[1..], sep)
    else
      var t := Split(s[1..], sep);
      [[s[0]] + t[0]] + t[1..]
  }

  /** Splitting at a separator splits the segment list. */
  lemma {:induction false} SplitAtSep(a: string, sep: char, b: string)
    ensures Split(a + [sep] + b, sep) == Split(a, sep) + Split(b, sep)
    decreases |a|
  {
    if |a| == 0 {
      assert a + [sep] + b == [sep] + b;
      assert ([sep] + b)[1..] == b;
    } else {
      assert (a + [sep] + b)[1..] == a[1..] + [sep] + b;
      assert (a + [sep] + b)[0] == a[0];
      SplitAtSep(a[1..], sep, b);
    }
  }

  /** A string without the separator is a single segment. */
  lemma {:induction false} SplitNoSep(name: string, sep: char)
    requires forall k :: 0 <= k < |name| ==> name[k] != sep
    ensures Split(name, sep) == [name]
    decreases |name|
  {
    if |name| > 0 {
      SplitNoSep(name[1..], sep);
      assert [name[0]] + name[1..] == name;
    }
  }

  /**
   * The first segment of a split is the text before the first separator; there is a second
   * segment exactly when the separator occurs, and the rest are the split of what follows it.
   */
  lemma {:induction false} SplitHead(s: string, sep: char)
    ensures var r := Split(s, sep);
            sep !in r[0] && r[0] <= s
            && (|r| == 1 <==> sep !in s) && (|r| == 1 ==> r[0] == s)
            && (|r| >= 2 ==> |r[0]| < |s| && s[|r[0]|] == sep && r[1..] == Split(s[|r[0]| + 1..], sep))
    decreases |s|
  {
    if |s| > 0 && s[0] != sep {
      SplitHead(s[1..], sep);
      var t := Split(s[1..], sep);
      assert [s[0]] + t[0] <= s by { assert s == [s[0]] + s[1..]; }
      if sep in s[1..] {
        assert s[1..][|t[0]| + 1..] == s[|t[0]| + 2..];
      } else {
        assert sep !in s by { assert s == [s[0]] + s[1..]; }
      }
    }
  }

  predicate IsDigit(c: char) { '0' <= c <= '9' }

  /** The value of a run of decimal digits, as `int()` reads it. */
  function DigitsValue(d: string): (n: nat)
    requires forall k :: 0 <= k < |d| ==> IsDigit(d[k])
  {
    if |d| == 0 then 0
    else
      assert IsDigit(d[|d| - 1]);
      10 * DigitsValue(d[..|d| - 1]) + (d[|d| - 1] as int - '0' as int)
  }

  /** `str(n)` for a natural number. */
  function NatToString(n: nat): (s: string)
    ensures |s| > 0 && forall k :: 0 <= k < |s| ==> IsDigit(s[k])
    decreases n
  {
    var digit := ['0' + (n % 10) as char];
    if n < 10 then digit else NatToString(n / 10) + digit
  }

  /** `str(n)` for any integer. */
  function IntToString(n: int): (s: string)
    ensures |s| > 0
  {
    if n < 0 then "-" + NatToString(-n) else NatToString(n)
  }

  /** Reading a number back from its decimal text gives the number. */
  lemma {:induction false} NatToStringRoundTrip(n: nat)
    ensures DigitsValue(NatToString(n)) == n
    decreases n
  {
    if n >= 10 {
      NatToStringRoundTrip(n / 10);
      var s := NatToString(n);
      assert s[..|s| - 1] == NatToString(n / 10);
    }
  }
}
