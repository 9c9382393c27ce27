/**
 * Python's `str.isspace` and `str.strip()` (with no argument) on Dafny strings.
 * `strip()` removes every leading and every trailing character for which
 * `isspace` holds, and leaves the interior alone.
 */
module PyStr {

  /** Python's `str.isspace` for one character: the code points Python treats as whitespace. */
  predicate IsSpace(c: char) {
    var n := c as int;
    (9 <= n <= 13) || (28 <= n <= 32) || n == 0x85 || n == 0xA0 || n == 0x1680
    || (0x2000 <= n <= 0x200A) || n == 0x2028 || n == 0x2029 || n == 0x202F
    || n == 0x205F || n == 0x3000
  }

  /** Every character of `s` is whitespace (vacuously true of `""`). */
  predicate AllSpace(s: string) {
    forall i :: 0 <= i < |s| ==> IsSpace(s[i])
  }

  /** `s` neither starts nor ends with whitespace. */
  predicate Trimmed(s: string) {
    s == [] || (!IsSpace(s[0]) && !IsSpace(s[|s| - 1]))
  }

  /** The number of whitespace characters `s` starts with. */
  function LeadingSpaces(s: string): (n: nat)
    ensures n <= |s|
    ensures forall k :: 0 <= k < n ==> IsSpace(s[k])
    ensures n < |s| ==> !IsSpace(s[n])
  {
    if s != [] && IsSpace(s[0]) then 1 + LeadingSpaces(s[1..]) else 0
  }

  /** The number of whitespace characters `s` ends with. */
  function TrailingSpaces(s: string): (n: nat)
    ensures n <= |s|
    ensures forall k :: |s| - n <= k < |s| ==> IsSpace(s[k])
    ensures n < |s| ==> !IsSpace(s[|s| - 1 - n])
  {
    if s != [] && IsSpace(s[|s| - 1]) then 1 + TrailingSpaces(s[..|s| - 1]) else 0
  }

  /**
   * `s.strip()`: the leading whitespace is cut first, then the trailing whitespace of
   * what is left. Empty exactly when `s` is all whitespace, otherwise free of
   * whitespace at both ends.
   */
  function Strip(s: string): (r: string)
    ensures r == [] <==> AllSpace(s)
    ensures Trimmed(r)
  {
    var i := LeadingSpaces(s);
    var t := s[i..];
    var j := |t| - TrailingSpaces(t);
    assert j > 0 ==> t[0] == s[i];
    assert i < |s| ==> 0 < j;
    t[..j]
  }

  /** Cutting leading whitespace stops exactly where a text that does not start with whitespace begins. */
  lemma {:induction false} LeadingSpacesPadded(a: string, t: string)
    requires AllSpace(a)
    requires t == [] || !IsSpace(t[0])
    ensures LeadingSpaces(a + t) == |a|
  {
    if a != [] {
      assert (a + t)[0] == a[0];
      assert (a + t)[1..] == a[1..] + t;
      LeadingSpacesPadded(a[1..], t);
    } else {
      assert a + t == t;
    }
  }

  /** Cutting trailing whitespace stops exactly where a text that does not end with whitespace ends. */
  lemma {:induction false} TrailingSpacesPadded(t: string, b: string)
    requires AllSpace(b)
    requires t == [] || !IsSpace(t[|t| - 1])
    ensures TrailingSpaces(t + b) == |b|
  {
    if b != [] {
      assert (t + b)[|t + b| - 1] == b[|b| - 1];
      assert (t + b)[..|t + b| - 1] == t + b[..|b| - 1];
      TrailingSpacesPadded(t, b[..|b| - 1]);
    } else {
      assert t + b == t;
    }
  }

  /**
   * `strip` characterised: surrounding a text that has no whitespace at either end
   * with any whitespace on both sides, and stripping, gives that text back.
   */
  lemma StripPadded(a: string, m: string, b: string)
    requires AllSpace(a) && AllSpace(b) && Trimmed(m)
    ensures Strip(a + m + b) == m
  {
    var s := a + m + b;
    if m == [] {
      assert s == (a + b) + [];
      LeadingSpacesPadded(a + b, []);
    } else {
      assert s == a + (m + b);
      LeadingSpacesPadded(a, m + b);
      assert s[|a|..] == m + b;
      TrailingSpacesPadded(m, b);
      assert (m + b)[..|m|] == m;
    }
  }

  /** Conversely, every string is a whitespace prefix, then its stripped form, then a whitespace suffix. */
  lemma StripSplit(s: string) returns (a: string, b: string)
    ensures AllSpace(a) && AllSpace(b)
    ensures s == a + Strip(s) + b
  {
    var i := LeadingSpaces(s);
    var t := s[i..];
    var e := i + |t| - TrailingSpaces(t);
    assert Strip(s) == s[i..e] by {
      assert t[..e - i] == s[i..e];
    }
    a, b := s[..i], s[e..];
    assert AllSpace(a) by {
      forall k | 0 <= k < |a| ensures IsSpace(a[k]) { assert a[k] == s[k]; }
    }
    assert AllSpace(b) by {
      forall k | 0 <= k < |b| ensures IsSpace(b[k]) { assert b[k] == t[e - i + k]; }
    }
    SliceSplit(s, i, e);
  }

  /** Cutting a sequence at two points and joining the pieces gives it back. */
  lemma SliceSplit<T>(s: seq<T>, i: nat, j: nat)
    requires i <= j <= |s|
    ensures s == s[..i] + s[i..j] + s[j..]
  {
    assert s == s[..i] + s[i..];
    assert s[i..] == s[i..j] + s[j..];
  }

  /** `strip` yields a given trimmed text exactly when the string is that text with whitespace around it. */
  lemma StripEquals(s: string, m: string)
    requires Trimmed(m)
    ensures Strip(s) == m <==> exists a, b :: AllSpace(a) && AllSpace(b) && s == a + m + b
  {
    forall a, b | AllSpace(a) && AllSpace(b) && s == a + m + b ensures Strip(s) == m {
      StripPadded(a, m, b);
    }
    if Strip(s) == m {
      var a, b := StripSplit(s);
    }
  }

  /** A string with no whitespace at either end strips to itself. */
  lemma StripTrimmed(m: string)
    requires Trimmed(m)
    ensures Strip(m) == m
  {
    assert [] + m + [] == m;
    StripPadded([], m, []);
  }

  /** Stripping twice is stripping once. */
  lemma StripIdempotent(s: string)
    ensures Strip(Strip(s)) == Strip(s)
  {
    StripTrimmed(Strip(s));
  }
}
