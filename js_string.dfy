/** The part of JavaScript's String.prototype.trim that the template renderer relies on. */
module JsString {

  /** WhiteSpace and LineTerminator code points of ECMA-262, the set that trim() removes. */
  predicate IsWhitespace(c: char) {
    var n := c as int;
    n == 0x09 || n == 0x0A || n == 0x0B || n == 0x0C || n == 0x0D || n == 0x20
    || n == 0xA0 || n == 0x1680 || (0x2000 <= n <= 0x200A)
    || n == 0x2028 || n == 0x2029 || n == 0x202F || n == 0x205F || n == 0x3000 || n == 0xFEFF
  }

  predicate AllWhitespace(s: string) {
    forall i :: 0 <= i < |s| ==> IsWhitespace(s[i])
  }

  /** A string that trim() leaves as it is: empty, or without whitespace at either end. */
  predicate IsTrimmed(s: string) {
    s == [] || (!IsWhitespace(s[0]) && !IsWhitespace(s[|s| - 1]))
  }

  /** Number of whitespace characters at the start of `s`. */
  function LeadingWhitespace(s: string): (k: nat)
    ensures k <= |s|
    ensures AllWhitespace(s[..k])
    ensures k < |s| ==> !IsWhitespace(s[k])
  {
    if s == [] || !IsWhitespace(s[0]) then 0 else 1 + LeadingWhitespace(s[1..])
  }

  /** Number of whitespace characters at the end of `s`. */
  function TrailingWhitespace(s: string): (k: nat)
    ensures k <= |s|
    ensures AllWhitespace(s[|s| - k..])
    ensures k < |s| ==> !IsWhitespace(s[|s| - 1 - k])
  {
    if s == [] || !IsWhitespace(s[|s| - 1]) then 0 else 1 + TrailingWhitespace(s[..|s| - 1])
  }

  /** String.prototype.trim: `s` without its leading and trailing whitespace. */
  function Trim(s: string): (r: string)
    ensures IsTrimmed(r)
    ensures exists k :: 0 <= k <= |s| - |r| && AllWhitespace(s[..k]) && s[k..k + |r|] == r
                        && AllWhitespace(s[k + |r|..])
  {
    var k := LeadingWhitespace(s);
    var rest := s[k..];
    var r := rest[..|rest| - TrailingWhitespace(rest)];
    assert s[k..k + |r|] == r;
    assert s[k + |r|..] == rest[|rest| - TrailingWhitespace(rest)..];
    assert r != [] ==> r[0] == rest[0];
    r
  }

  /** LeadingWhitespace(s) is the only count with its two properties. */
  lemma LeadingWhitespaceIs(s: string, k: nat)
    requires k <= |s|
    requires forall i :: 0 <= i < k ==> IsWhitespace(s[i])
    requires k < |s| ==> !IsWhitespace(s[k])
    ensures LeadingWhitespace(s) == k
  {
    var j := LeadingWhitespace(s);
    forall i | 0 <= i < j ensures IsWhitespace(s[i]) {
      assert s[..j][i] == s[i];
    }
    assert j < |s| ==> !IsWhitespace(s[j]);
  }

  /** TrailingWhitespace(s) is the only count with its two properties. */
  lemma TrailingWhitespaceIs(s: string, k: nat)
    requires k <= |s|
    requires forall i :: |s| - k <= i < |s| ==> IsWhitespace(s[i])
    requires k < |s| ==> !IsWhitespace(s[|s| - 1 - k])
    ensures TrailingWhitespace(s) == k
  {
    var j := TrailingWhitespace(s);
    forall i | |s| - j <= i < |s| ensures IsWhitespace(s[i]) {
      assert s[|s| - j..][i - (|s| - j)] == s[i];
    }
    assert j < |s| ==> !IsWhitespace(s[|s| - 1 - j]);
  }

  /** Whitespace around a trimmed name does not matter: trim() gives the name back. */
  lemma TrimPadded(w1: string, n: string, w2: string)
    requires AllWhitespace(w1) && AllWhitespace(w2) && IsTrimmed(n)
    ensures Trim(w1 + n + w2) == n
  {
    var s := w1 + n + w2;
    assert forall i :: 0 <= i < |w1| ==> s[i] == w1[i];
    assert forall i :: |w1| + |n| <= i < |s| ==> s[i] == w2[i - |w1| - |n|];
    if n == [] {
      LeadingWhitespaceIs(s, |s|);
    } else {
      assert s[|w1|] == n[0];
      LeadingWhitespaceIs(s, |w1|);
      var rest := s[|w1|..];
      assert rest == n + w2;
      assert forall i :: |n| <= i < |rest| ==> rest[i] == w2[i - |n|];
      assert rest[|n| - 1] == n[|n| - 1];
      TrailingWhitespaceIs(rest, |w2|);
      assert rest[..|n|] == n;
    }
  }

  /** trim() is idempotent. */
  lemma TrimIdempotent(s: string)
    ensures Trim(Trim(s)) == Trim(s)
  {
    TrimPadded([], Trim(s), []);
    assert [] + Trim(s) + [] == Trim(s);
  }
}
