/**
 * `String.prototype.trim`: removal of leading and trailing white space and
 * line terminators, as ECMAScript defines them.
 */
module JsText {

  /** ECMAScript WhiteSpace (TAB, VT, FF, ZWNBSP and every Zs code point) or LineTerminator (LF, CR, LS, PS). */
  predicate IsJsSpace(c: char) {
    var n := c as int;
    || n == 0x09 || n == 0x0B || n == 0x0C || n == 0xFEFF
    || n == 0x20 || n == 0xA0 || n == 0x1680 || (0x2000 <= n <= 0x200A)
    || n == 0x202F || n == 0x205F || n == 0x3000
    || n == 0x0A || n == 0x0D || n == 0x2028 || n == 0x2029
  }

  predicate AllSpace(s: string) {
    forall i :: 0 <= i < |s| ==> IsJsSpace(s[i])
  }

  /** Neither end of `s` is white space. */
  predicate IsTrimmed(s: string) {
    s == [] || (!IsJsSpace(s[0]) && !IsJsSpace(s[|s| - 1]))
  }

  /** `trimStart`: what is left after the leading white space. */
  function TrimStart(s: string): (r: string)
    ensures |r| <= |s|
    ensures r == [] || !IsJsSpace(r[0])
  {
    if |s| > 0 && IsJsSpace(s[0]) then TrimStart(s[1..]) else s
  }

  /** `trimEnd`: what is left before the trailing white space; a non-space first character stays first. */
  function TrimEnd(s: string): (r: string)
    ensures |r| <= |s|
    ensures r == [] || !IsJsSpace(r[|r| - 1])
    ensures |s| > 0 && !IsJsSpace(s[0]) && r != [] ==> r[0] == s[0]
  {
    if |s| > 0 && IsJsSpace(s[|s| - 1]) then TrimEnd(s[..|s| - 1]) else s
  }

  /** `trim()`: never longer than its input, and neither end of the result is white space. */
  function Trim(s: string): (r: string)
    ensures |r| <= |s| && IsTrimmed(r)
  {
    TrimEnd(TrimStart(s))
  }

  /** TrimStart drops exactly a white-space prefix. */
  lemma {:induction false} TrimStartDropsSpacePrefix(s: string) returns (k: nat)
    ensures k <= |s| && TrimStart(s) == s[k..] && AllSpace(s[..k])
    ensures TrimStart(s) == [] || !IsJsSpace(TrimStart(s)[0])
  {
    if |s| > 0 && IsJsSpace(s[0]) {
      var k' := TrimStartDropsSpacePrefix(s[1..]);
      k := k' + 1;
      assert s[1..][k'..] == s[k..];
      forall i | 0 <= i < k ensures IsJsSpace(s[..k][i]) {
        if i > 0 { assert s[..k][i] == s[1..][..k'][i - 1]; }
      }
    } else {
      k := 0;
    }
  }

  /** TrimEnd drops exactly a white-space suffix, and leaves a non-space first character alone. */
  lemma {:induction false} TrimEndDropsSpaceSuffix(s: string) returns (j: nat)
    ensures j <= |s| && TrimEnd(s) == s[..j] && AllSpace(s[j..])
    ensures TrimEnd(s) == [] || !IsJsSpace(TrimEnd(s)[|TrimEnd(s)| - 1])
  {
    if |s| > 0 && IsJsSpace(s[|s| - 1]) {
      var s' := s[..|s| - 1];
      j := TrimEndDropsSpaceSuffix(s');
      assert s'[..j] == s[..j];
      forall i | j <= i < |s| ensures IsJsSpace(s[i]) {
        if i < |s| - 1 { assert s[i] == s'[j..][i - j]; }
      }
    } else {
      j := |s|;
    }
  }

  /**
   * The trimmed text is the input with a white-space prefix and a white-space
   * suffix removed, and neither of its ends is white space.
   */
  lemma TrimIsSpaceStrippedInfix(s: string) returns (i: nat, j: nat)
    ensures i <= j <= |s| && Trim(s) == s[i..j]
    ensures AllSpace(s[..i]) && AllSpace(s[j..])
    ensures IsTrimmed(Trim(s))
  {
    i := TrimStartDropsSpacePrefix(s);
    var t := TrimStart(s);
    var j' := TrimEndDropsSpaceSuffix(t);
    j := i + j';
    assert t[..j'] == s[i..j];
    assert t[j'..] == s[j..];
    if Trim(s) != [] {
      assert Trim(s)[0] == t[0];
    }
  }

  /** Only a string made entirely of white space trims to the empty string. */
  lemma TrimEmptyIffAllSpace(s: string)
    ensures Trim(s) == [] <==> AllSpace(s)
  {
    var i, j := TrimIsSpaceStrippedInfix(s);
    if Trim(s) == [] {
      assert i == j;
      forall k | 0 <= k < |s| ensures IsJsSpace(s[k]) {
        if k < i { assert s[k] == s[..i][k]; } else { assert s[k] == s[j..][k - j]; }
      }
    } else {
      assert !IsJsSpace(s[i]);
    }
  }
}
