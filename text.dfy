/**
 * String helpers the handler borrows from JavaScript: the whitespace class
 * shared by `\s` in a regular expression and by `String.prototype.trim`,
 * `trim` itself, and `String.prototype.repeat`.
 */
module Text {

  /**
   * ECMAScript whitespace: the WhiteSpace code points (tab, vertical tab,
   * form feed, the byte order mark and every space separator of Unicode
   * category Zs) together with the LineTerminator code points. The
   * regular-expression class `\s` and `trim` are both defined over exactly
   * this set, so one predicate serves the validator and the trimming.
   */
  predicate IsWs(c: char) {
    c in Whitespace
  }

  const Whitespace: set<char> := {
    '\t', '\n', '\U{000B}', '\U{000C}', '\r', ' ', '\U{00A0}', '\U{1680}',
    '\U{2000}', '\U{2001}', '\U{2002}', '\U{2003}', '\U{2004}', '\U{2005}',
    '\U{2006}', '\U{2007}', '\U{2008}', '\U{2009}', '\U{200A}',
    '\U{2028}', '\U{2029}', '\U{202F}', '\U{205F}', '\U{3000}', '\U{FEFF}'
  }

  predicate AllWs(s: string) {
    forall k :: 0 <= k < |s| ==> IsWs(s[k])
  }

  /** Index of the first character of `s` that is not whitespace, or `|s|`. */
  function FirstNonWs(s: string): (i: nat)
    ensures i <= |s|
    ensures AllWs(s[..i])
    ensures i < |s| ==> !IsWs(s[i])
  {
    if s == [] || !IsWs(s[0]) then 0
    else
      var i := 1 + FirstNonWs(s[1..]);
      assert forall k :: 1 <= k < i ==> s[k] == s[1..][k - 1];
      i
  }

  /** One past the last character of `s` that is not whitespace, or 0. */
  function EndNonWs(s: string): (j: nat)
    ensures j <= |s|
    ensures AllWs(s[j..])
    ensures 0 < j ==> !IsWs(s[j - 1])
  {
    if s == [] || !IsWs(s[|s| - 1]) then |s|
    else
      var j := EndNonWs(s[..|s| - 1]);
      assert forall k :: j <= k < |s| - 1 ==> s[k] == s[..|s| - 1][k];
      j
  }

  /**
   * `String.prototype.trim`: `s` without its leading and trailing
   * whitespace. The result is empty exactly when `s` is all whitespace, and
   * otherwise it starts and ends with a non-whitespace character;
   * `TrimBorders` shows it is the slice of `s` left between the two runs of
   * whitespace.
   */
  function Trim(s: string): (r: string)
    ensures |r| <= |s|
    ensures r == [] <==> AllWs(s)
    ensures r != [] ==> !IsWs(r[0]) && !IsWs(r[|r| - 1])
  {
    var i := FirstNonWs(s);
    var j := EndNonWs(s);
    if j <= i then
      assert AllWs(s) by {
        forall k | 0 <= k < |s| ensures IsWs(s[k]) {
          assert s[..i][k] == s[k];
        }
      }
      []
    else
      assert !AllWs(s) by { assert !IsWs(s[i]); }
      s[i..j]
  }

  /** `Trim(s)` sits in `s` at position `i`, with only whitespace before and after it. */
  lemma TrimBorders(s: string) returns (i: nat)
    ensures i + |Trim(s)| <= |s|
    ensures s[i..i + |Trim(s)|] == Trim(s)
    ensures AllWs(s[..i]) && AllWs(s[i + |Trim(s)|..])
  {
    if AllWs(s) {
      i := 0;
      assert s[0..0] == [] && s[..0] == [] && s[0..] == s;
    } else {
      i := FirstNonWs(s);
    }
  }

  /** Trimming twice is trimming once. */
  lemma TrimIdempotent(s: string)
    ensures Trim(Trim(s)) == Trim(s)
  {
    var r := Trim(s);
    if r != [] {
      assert FirstNonWs(r) == 0;
      assert EndNonWs(r) == |r|;
      assert r[0..|r|] == r;
    }
  }

  /**
   * Trim is determined by its contract: any slice of `s` that is bordered by
   * whitespace, and is either empty or starts and ends with a non-whitespace
   * character, is `Trim(s)`.
   */
  lemma TrimUnique(s: string, p: string, r: string, q: string)
    requires s == p + r + q
    requires AllWs(p) && AllWs(q)
    requires r != [] ==> !IsWs(r[0]) && !IsWs(r[|r| - 1])
    ensures Trim(s) == r
  {
    if r == [] {
      assert AllWs(s) by {
        forall k | 0 <= k < |s| ensures IsWs(s[k]) {
          if k < |p| { assert s[k] == p[k]; } else { assert s[k] == q[k - |p|]; }
        }
      }
    } else {
      assert s[|p|] == r[0];
      assert s[|p| + |r| - 1] == r[|r| - 1];
      var i := FirstNonWs(s);
      var j := EndNonWs(s);
      assert i == |p|;
      assert j == |p| + |r|;
      assert s[i..j] == r;
    }
  }

  /** `String.prototype.repeat`: `n` copies of `c`. */
  function Repeat(c: char, n: nat): (r: string)
    ensures |r| == n
    ensures forall k :: 0 <= k < n ==> r[k] == c
  {
    if n == 0 then [] else [c] + Repeat(c, n - 1)
  }
}
