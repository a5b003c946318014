/**
 * The JavaScript string primitives the page relies on: `trim` and the `\s`
 * character class, `toLowerCase`, `includes`, `indexOf` and `startsWith`.
 * Strings are sequences of characters.
 */
module Text {
  import opened Wrappers

  /** The WhiteSpace and LineTerminator code points of ECMAScript: what `trim` removes and `\s` matches. */
  predicate IsSpace(c: char) {
    c == '\t' || c == '\n' || c == '\U{000B}' || c == '\U{000C}' || c == '\r' || c == ' '
    || c == '\U{00A0}' || c == '\U{1680}' || ('\U{2000}' <= c <= '\U{200A}')
    || c == '\U{2028}' || c == '\U{2029}' || c == '\U{202F}' || c == '\U{205F}'
    || c == '\U{3000}' || c == '\U{FEFF}'
  }

  /** Every character of `s` is white space (vacuously true of ""). */
  predicate IsBlank(s: string) {
    forall i :: 0 <= i < |s| ==> IsSpace(s[i])
  }

  /** `s` with its leading white space removed. */
  function TrimStart(s: string): (r: string)
    ensures |r| <= |s| && r == s[|s| - |r|..]
    ensures IsBlank(s[..|s| - |r|])
    ensures r == [] || !IsSpace(r[0])
  {
    if s != [] && IsSpace(s[0]) then
      var r := TrimStart(s[1..]);
      BlankBefore(s, r);
      r
    else s
  }

  /** A blank head in front of a blank prefix of `s[1..]` is a blank prefix of `s`. */
  lemma {:induction false} BlankBefore(s: string, r: string)
    requires s != [] && IsSpace(s[0])
    requires |r| <= |s| - 1 && r == s[1..][|s| - 1 - |r|..] && IsBlank(s[1..][..|s| - 1 - |r|])
    ensures r == s[|s| - |r|..] && IsBlank(s[..|s| - |r|])
  {
    var k := |s| - |r|;
    assert s[1..][k - 1..] == s[k..];
    forall i | 0 <= i < k ensures IsSpace(s[..k][i]) {
      if i > 0 {
        assert s[..k][i] == s[1..][..k - 1][i - 1];
      }
    }
  }

  /** `s` with its trailing white space removed. */
  function TrimEnd(s: string): (r: string)
    ensures |r| <= |s| && r == s[..|r|]
    ensures IsBlank(s[|r|..])
    ensures r == [] || !IsSpace(r[|r| - 1])
  {
    if s != [] && IsSpace(s[|s| - 1]) then
      var r := TrimEnd(s[..|s| - 1]);
      BlankAfter(s, r);
      r
    else s
  }

  /** A blank suffix of `s[..|s| - 1]` followed by a blank last character is a blank suffix of `s`. */
  lemma {:induction false} BlankAfter(s: string, r: string)
    requires s != [] && IsSpace(s[|s| - 1])
    requires |r| <= |s| - 1 && r == s[..|s| - 1][..|r|] && IsBlank(s[..|s| - 1][|r|..])
    ensures r == s[..|r|] && IsBlank(s[|r|..])
  {
    assert s[..|s| - 1][..|r|] == s[..|r|];
    forall j | 0 <= j < |s| - |r| ensures IsSpace(s[|r|..][j]) {
      if j < |s| - 1 - |r| {
        assert s[|r|..][j] == s[..|s| - 1][|r|..][j];
      }
    }
  }

  /** `s` is the blank string `s[..k]`, then `r`, then a blank rest. */
  predicate BlankMargins(s: string, k: int, r: string) {
    0 <= k <= |s| - |r| && r == s[k..k + |r|] && IsBlank(s[..k]) && IsBlank(s[k + |r|..])
  }

  /**
   * `String.prototype.trim`: `s` is some blank margin, then the result, then
   * another blank margin; the result is empty exactly when `s` is blank, and
   * otherwise starts and ends with a non-space, so the margins are maximal.
   */
  function Trim(s: string): (r: string)
    ensures |r| <= |s|
    ensures BlankMargins(s, |s| - |TrimStart(s)|, r)
    ensures r == [] <==> IsBlank(s)
    ensures r != [] ==> !IsSpace(r[0]) && !IsSpace(r[|r| - 1])
  {
    var t := TrimStart(s);
    TrimBothEnds(s, t, TrimEnd(t));
    TrimEnd(t)
  }

  /** The facts `Trim` promises, from those `TrimStart` and `TrimEnd` promise of `t` and `r`. */
  lemma {:induction false} TrimBothEnds(s: string, t: string, r: string)
    requires |t| <= |s| && t == s[|s| - |t|..] && IsBlank(s[..|s| - |t|]) && (t == [] || !IsSpace(t[0]))
    requires |r| <= |t| && r == t[..|r|] && IsBlank(t[|r|..]) && (r == [] || !IsSpace(r[|r| - 1]))
    ensures BlankMargins(s, |s| - |t|, r)
    ensures r == [] <==> IsBlank(s)
    ensures r != [] ==> !IsSpace(r[0]) && !IsSpace(r[|r| - 1])
  {
    var k := |s| - |t|;
    assert s[k..k + |r|] == t[..|r|];
    assert s[k + |r|..] == t[|r|..];
    if r == [] {
      assert t == [] by {
        assert t[|r|..] == t;
      }
      assert s[..k] == s;
    } else {
      assert r[0] == t[0] && s[k] == t[0];
    }
  }

  /** `String.prototype.startsWith`. */
  predicate StartsWith(s: string, prefix: string) {
    |prefix| <= |s| && s[..|prefix|] == prefix
  }

  /** `pattern` occurs in `s` at position `i`. */
  predicate OccursAt(s: string, pattern: string, i: int) {
    0 <= i && i + |pattern| <= |s| && s[i..i + |pattern|] == pattern
  }

  /** `String.prototype.indexOf`, with "not found" as None: the leftmost occurrence of `pattern`. */
  function IndexOf(s: string, pattern: string): (r: Option<nat>)
    ensures r.Some? ==> OccursAt(s, pattern, r.value)
    ensures r.Some? ==> forall j :: 0 <= j < r.value ==> !OccursAt(s, pattern, j)
    ensures r.None? ==> forall j :: !OccursAt(s, pattern, j)
    decreases |s|
  {
    if |pattern| > |s| then None
    else if s[..|pattern|] == pattern then Some(0)
    else
      var rest := IndexOf(s[1..], pattern);
      assert forall j :: 1 <= j ==> (OccursAt(s, pattern, j) <==> OccursAt(s[1..], pattern, j - 1)) by {
        forall j | 1 <= j ensures OccursAt(s, pattern, j) <==> OccursAt(s[1..], pattern, j - 1) {
          if j + |pattern| <= |s| {
            var here, there := s[j..j + |pattern|], s[1..][j - 1..j - 1 + |pattern|];
            forall k | 0 <= k < |pattern| ensures here[k] == there[k] {
              assert here[k] == s[j + k];
            }
            assert here == there;
          }
        }
      }
      match rest
      case None => None
      case Some(k) => Some(k + 1)
  }

  /** `String.prototype.includes`. */
  predicate Contains(s: string, pattern: string) {
    IndexOf(s, pattern).Some?
  }

  /** `toLowerCase` on one character; only A-Z is mapped (see README, Left out). */
  function LowerChar(c: char): char {
    if 'A' <= c <= 'Z' then (c as int + 32) as char else c
  }

  /** `String.prototype.toLowerCase`, character by character. */
  function ToLower(s: string): (r: string)
    ensures |r| == |s|
    ensures forall i :: 0 <= i < |s| ==> r[i] == LowerChar(s[i])
  {
    if s == [] then [] else [LowerChar(s[0])] + ToLower(s[1..])
  }

  /** The empty pattern is found in every string, so `includes("")` always holds. */
  lemma {:induction false} ContainsEmpty(s: string)
    ensures Contains(s, "")
  {
    assert OccursAt(s, "", 0);
  }
}
