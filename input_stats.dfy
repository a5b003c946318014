/**
 * The word counter under the note editor: `value.trim().split(/\s+/).length`.
 * Splitting the empty string yields one empty piece, so a blank editor
 * reports one word.
 */
module InputStats {
  import opened Text

  /** No character of `s` is white space. */
  predicate NoSpace(s: string) {
    forall i :: 0 <= i < |s| ==> !IsSpace(s[i])
  }

  /** `s` with all its white space removed. */
  function Squeeze(s: string): string {
    if s == [] then [] else (if IsSpace(s[0]) then [] else [s[0]]) + Squeeze(s[1..])
  }

  /** The pieces laid end to end. */
  function Concat(pieces: seq<string>): string {
    if pieces == [] then [] else pieces[0] + Concat(pieces[1..])
  }

  /** White space in front of `s` does not change what is left once white space is removed. */
  lemma {:induction false} SqueezeTrimStart(s: string)
    ensures Squeeze(TrimStart(s)) == Squeeze(s)
  {
    if s != [] && IsSpace(s[0]) {
      SqueezeTrimStart(s[1..]);
    }
  }

  /** Removing white space distributes over concatenation. */
  lemma {:induction false} SqueezeAppend(a: string, b: string)
    ensures Squeeze(a + b) == Squeeze(a) + Squeeze(b)
  {
    if a != [] {
      assert (a + b)[1..] == a[1..] + b;
      SqueezeAppend(a[1..], b);
    } else {
      assert a + b == b;
    }
  }

  /** A blank string has nothing left once white space is removed. */
  lemma {:induction false} SqueezeBlank(s: string)
    requires IsBlank(s)
    ensures Squeeze(s) == []
  {
    if s != [] {
      SqueezeBlank(s[1..]);
    }
  }

  /** The second character of `t` is white space: a run of white space at `t[0]` goes on. */
  predicate SpaceNext(t: string) {
    |t| > 1 && IsSpace(t[1])
  }

  /**
   * `t.split(/\s+/)`: the pieces between the runs of white space, built one
   * character at a time. A space that another space follows belongs to the
   * same run; a space that ends a run opens a new piece. There is always at
   * least one piece; the first is empty exactly when `t` starts with white
   * space (or is empty).
   */
  function Split(t: string): (pieces: seq<string>)
    ensures |pieces| >= 1
    ensures t != [] && IsSpace(t[0]) ==> pieces[0] == ""
    ensures t != [] && !IsSpace(t[0]) ==> pieces[0] != ""
    decreases |t|
  {
    if t == [] then [""]
    else
      var rest := Split(t[1..]);
      if IsSpace(t[0]) then
        if SpaceNext(t) then rest else [""] + rest
      else
        [[t[0]] + rest[0]] + rest[1..]
  }

  /**
   * Each piece of `Split(t)` is free of white space, and together the pieces
   * hold exactly the non-space characters of `t`, in order.
   */
  lemma {:induction false} SplitPieces(t: string)
    ensures forall i :: 0 <= i < |Split(t)| ==> NoSpace(Split(t)[i])
    ensures Concat(Split(t)) == Squeeze(t)
    decreases |t|
  {
    var pieces := Split(t);
    if t != [] {
      var rest := Split(t[1..]);
      SplitPieces(t[1..]);
      if IsSpace(t[0]) {
        if !SpaceNext(t) {
          assert pieces[1..] == rest;
          forall i | 0 <= i < |pieces| ensures NoSpace(pieces[i]) {
            if i > 0 {
              assert pieces[i] == rest[i - 1];
            }
          }
        }
      } else {
        assert pieces[1..] == rest[1..];
        assert Concat(rest) == rest[0] + Concat(rest[1..]);
        assert NoSpace(rest[0]);
        forall i | 0 <= i < |pieces| ensures NoSpace(pieces[i]) {
          if i == 0 {
            forall k | 0 <= k < |pieces[0]| ensures !IsSpace(pieces[0][k]) {
              if k > 0 {
                assert pieces[0][k] == rest[0][k - 1];
              }
            }
          } else {
            assert pieces[i] == rest[i];
          }
        }
      }
    }
  }

  /** Splitting a string that does not end in white space gives no empty piece after the first. */
  lemma {:induction false} SplitPiecesNonEmpty(t: string)
    requires t != [] && !IsSpace(t[|t| - 1])
    ensures forall i :: 1 <= i < |Split(t)| ==> Split(t)[i] != ""
    decreases |t|
  {
    var pieces := Split(t);
    var u := t[1..];
    if u != [] {
      var rest := Split(u);
      assert u[|u| - 1] == t[|t| - 1];
      SplitPiecesNonEmpty(u);
      if IsSpace(t[0]) && !SpaceNext(t) {
        forall i | 1 <= i < |pieces| ensures pieces[i] != "" {
          assert pieces[i] == rest[i - 1];
        }
      } else if !IsSpace(t[0]) {
        forall i | 1 <= i < |pieces| ensures pieces[i] != "" {
          assert pieces[i] == rest[i];
        }
      }
    }
  }

  /** Whether a word starts at position `i` of `s`: a non-space character at the start or right after white space. */
  predicate StartsWord(s: string, i: nat)
    requires i < |s|
  {
    !IsSpace(s[i]) && (i == 0 || IsSpace(s[i - 1]))
  }

  /** The number of positions below `n` where a word starts. */
  function StartsBelow(s: string, n: nat): nat
    requires n <= |s|
  {
    if n == 0 then 0 else StartsBelow(s, n - 1) + (if StartsWord(s, n - 1) then 1 else 0)
  }

  /** The number of words of `s`: the number of positions where a word starts. */
  function WordStarts(s: string): nat {
    StartsBelow(s, |s|)
  }

  /** Word starts inside `p` do not depend on what follows `p`. */
  lemma {:induction false} StartsBelowPrefix(p: string, s: string, n: nat)
    requires n <= |p|
    ensures StartsBelow(p + s, n) == StartsBelow(p, n)
  {
    if n > 0 {
      StartsBelowPrefix(p, s, n - 1);
      assert StartsWord(p + s, n - 1) == StartsWord(p, n - 1) by {
        assert (p + s)[n - 1] == p[n - 1];
        if n > 1 {
          assert (p + s)[n - 2] == p[n - 2];
        }
      }
    }
  }

  /** Past its first character, `s` has the same word starts whether or not `p` is in front of it. */
  lemma {:induction false} StartsBelowShift(p: string, s: string, n: nat)
    requires 1 <= n <= |s|
    ensures StartsBelow(p + s, |p| + n) + StartsBelow(s, 1) == StartsBelow(p + s, |p| + 1) + StartsBelow(s, n)
  {
    if n > 1 {
      StartsBelowShift(p, s, n - 1);
      assert StartsWord(p + s, |p| + n - 1) == StartsWord(s, n - 1) by {
        assert (p + s)[|p| + n - 1] == s[n - 1];
        assert (p + s)[|p| + n - 2] == s[n - 2];
      }
    }
  }

  /** No word starts in a blank string. */
  lemma {:induction false} BlankStartsBelow(b: string, n: nat)
    requires IsBlank(b) && n <= |b|
    ensures StartsBelow(b, n) == 0
  {
    if n > 0 {
      BlankStartsBelow(b, n - 1);
    }
  }

  /** White space in front of `s` adds no word. */
  lemma {:induction false} WordStartsBlankPrefix(b: string, s: string)
    requires IsBlank(b)
    ensures WordStarts(b + s) == WordStarts(s)
  {
    if s == [] {
      assert b + s == b;
      BlankStartsBelow(b, |b|);
    } else {
      StartsBelowPrefix(b, s, |b|);
      BlankStartsBelow(b, |b|);
      assert StartsWord(b + s, |b|) == !IsSpace(s[0]) by {
        assert (b + s)[|b|] == s[0];
        if |b| > 0 {
          assert (b + s)[|b| - 1] == b[|b| - 1];
        }
      }
      StartsBelowShift(b, s, |s|);
    }
  }

  /** White space after `s` adds no word. */
  lemma {:induction false} StartsBelowBlankSuffix(s: string, b: string, n: nat)
    requires IsBlank(b) && n <= |b|
    ensures StartsBelow(s + b, |s| + n) == WordStarts(s)
  {
    if n == 0 {
      StartsBelowPrefix(s, b, |s|);
    } else {
      StartsBelowBlankSuffix(s, b, n - 1);
      assert (s + b)[|s| + n - 1] == b[n - 1];
    }
  }

  /** A non-space character in front of `u` starts a word, which absorbs `u`'s first word when `u` starts with one. */
  lemma {:induction false} WordStartsCons(c: char, u: string)
    requires !IsSpace(c)
    ensures WordStarts([c] + u) + (if u != [] && !IsSpace(u[0]) then 1 else 0) == 1 + WordStarts(u)
  {
    var t := [c] + u;
    assert StartsBelow(t, 1) == 1 by {
      assert StartsWord(t, 0);
    }
    if u != [] {
      assert StartsBelow(t, 2) == 1 by {
        assert t[0] == c && t[1] == u[0];
        assert !StartsWord(t, 1);
      }
      assert StartsBelow(u, 1) == if !IsSpace(u[0]) then 1 else 0 by {
        assert StartsWord(u, 0) == !IsSpace(u[0]);
      }
      StartsBelowShift([c], u, |u|);
    }
  }

  /**
   * The number of pieces `split(/\s+/)` gives: one per word, plus an empty
   * piece before a leading run of white space and one after a trailing run;
   * the empty string gives one empty piece.
   */
  lemma {:induction false} SplitCount(t: string)
    ensures |Split(t)| == if t == [] then 1
      else WordStarts(t) + (if IsSpace(t[0]) then 1 else 0) + (if IsSpace(t[|t| - 1]) then 1 else 0)
    decreases |t|
  {
    if t != [] {
      var u := t[1..];
      assert t == [t[0]] + u;
      SplitCount(u);
      assert u != [] ==> u[|u| - 1] == t[|t| - 1] && u[0] == t[1];
      if IsSpace(t[0]) {
        WordStartsBlankPrefix([t[0]], u);
      } else {
        WordStartsCons(t[0], u);
      }
    }
  }

  /** The runs of white space between the pieces of `Split(t)`, in order, built as `Split` builds the pieces. */
  function Gaps(t: string): (gaps: seq<string>)
    ensures t != [] && IsSpace(t[0]) ==> gaps != []
    decreases |t|
  {
    if t == [] then []
    else
      var rest := Gaps(t[1..]);
      if IsSpace(t[0]) then
        if SpaceNext(t) then [[t[0]] + rest[0]] + rest[1..] else [[t[0]]] + rest
      else rest
  }

  /** Every run of `Gaps(t)` is non-empty and blank. */
  lemma {:induction false} GapsBlank(t: string)
    ensures forall i :: 0 <= i < |Gaps(t)| ==> Gaps(t)[i] != "" && IsBlank(Gaps(t)[i])
    decreases |t|
  {
    if t != [] && IsSpace(t[0]) {
      var rest := Gaps(t[1..]);
      GapsBlank(t[1..]);
      var gaps := Gaps(t);
      forall i | 0 <= i < |gaps| ensures gaps[i] != "" && IsBlank(gaps[i]) {
        if SpaceNext(t) {
          if i == 0 {
            forall k | 0 <= k < |gaps[0]| ensures IsSpace(gaps[0][k]) {
              if k > 0 {
                assert gaps[0][k] == rest[0][k - 1];
              }
            }
          } else {
            assert gaps[i] == rest[i];
          }
        } else if i > 0 {
          assert gaps[i] == rest[i - 1];
        }
      }
    } else if t != [] {
      GapsBlank(t[1..]);
    }
  }

  /** The pieces with the gaps put back between them: `pieces[0] + gaps[0] + pieces[1] + ...`. */
  function Join(pieces: seq<string>, gaps: seq<string>): string
    requires |pieces| == |gaps| + 1
  {
    if gaps == [] then pieces[0] else pieces[0] + gaps[0] + Join(pieces[1..], gaps[1..])
  }

  /** A character in front of the first piece ends up in front of the joined string. */
  lemma {:induction false} JoinCons(c: char, pieces: seq<string>, gaps: seq<string>)
    requires |pieces| == |gaps| + 1
    ensures Join([[c] + pieces[0]] + pieces[1..], gaps) == [c] + Join(pieces, gaps)
  {
    var ps := [[c] + pieces[0]] + pieces[1..];
    assert ps[1..] == pieces[1..];
  }

  /** A character in front of the first gap, after an empty first piece, ends up in front of the joined string. */
  lemma {:induction false} JoinGapCons(c: char, pieces: seq<string>, gaps: seq<string>)
    requires |pieces| == |gaps| + 1 && gaps != [] && pieces[0] == ""
    ensures Join(pieces, [[c] + gaps[0]] + gaps[1..]) == [c] + Join(pieces, gaps)
  {
    var gs := [[c] + gaps[0]] + gaps[1..];
    var tail := Join(pieces[1..], gaps[1..]);
    calc {
      Join(pieces, gs);
      pieces[0] + gs[0] + Join(pieces[1..], gs[1..]);
      { assert gs[1..] == gaps[1..]; }
      "" + ([c] + gaps[0]) + tail;
      [c] + ("" + gaps[0] + tail);
      [c] + Join(pieces, gaps);
    }
  }

  /**
   * `split(/\s+/)` cuts `t` at its runs of white space: putting the runs back
   * between the pieces rebuilds `t` (every run is non-empty and blank, by
   * `GapsBlank`).
   */
  lemma {:induction false} SplitRebuilds(t: string)
    ensures |Gaps(t)| + 1 == |Split(t)|
    ensures Join(Split(t), Gaps(t)) == t
    decreases |t|
  {
    if t != [] {
      var u := t[1..];
      SplitRebuilds(u);
      assert t == [t[0]] + u;
      if !IsSpace(t[0]) {
        JoinCons(t[0], Split(u), Gaps(u));
      } else if SpaceNext(t) {
        JoinGapCons(t[0], Split(u), Gaps(u));
      } else {
        var pieces, gaps := Split(t), Gaps(t);
        assert pieces[1..] == Split(u) && gaps[1..] == Gaps(u);
      }
    }
  }

  /** The runs are maximal: no piece strictly between two runs of white space is empty. */
  lemma {:induction false} SplitInteriorNonEmpty(t: string)
    ensures forall i :: 1 <= i < |Split(t)| - 1 ==> Split(t)[i] != ""
    decreases |t|
  {
    if t != [] {
      var pieces := Split(t);
      var u := t[1..];
      var rest := Split(u);
      SplitInteriorNonEmpty(u);
      if !IsSpace(t[0]) {
        forall i | 1 <= i < |pieces| - 1 ensures pieces[i] != "" {
          assert pieces[i] == rest[i];
        }
      } else if !SpaceNext(t) {
        forall i | 1 <= i < |pieces| - 1 ensures pieces[i] != "" {
          assert pieces[i] == rest[i - 1];
          if i == 1 {
            assert u != [] && !IsSpace(u[0]);
          }
        }
      }
    }
  }

  /** The number shown as "N words" for the editor contents `value`. */
  function WordCount(value: string): (n: nat)
    ensures n >= 1
  {
    |Split(Trim(value))|
  }

  /** A blank editor (including the empty one) counts as one word. */
  lemma {:induction false} BlankIsOneWord(value: string)
    requires IsBlank(value)
    ensures WordCount(value) == 1
  {
  }

  /** White space at the end of `s` does not change what is left once white space is removed. */
  lemma {:induction false} SqueezeTrimEnd(s: string)
    ensures Squeeze(TrimEnd(s)) == Squeeze(s)
  {
    var t := TrimEnd(s);
    var trail := s[|t|..];
    assert s == t + trail;
    SqueezeAppend(t, trail);
    SqueezeBlank(trail);
  }

  /** Trimming does not change what is left once white space is removed. */
  lemma {:induction false} SqueezeTrim(value: string)
    ensures Squeeze(Trim(value)) == Squeeze(value)
  {
    SqueezeTrimStart(value);
    SqueezeTrimEnd(TrimStart(value));
  }

  /** Blank margins around `r` add no word. */
  lemma {:induction false} WordStartsMargins(s: string, k: int, r: string)
    requires BlankMargins(s, k, r)
    ensures WordStarts(s) == WordStarts(r)
  {
    var lead, trail := s[..k], s[k + |r|..];
    assert s == lead + (r + trail);
    WordStartsBlankPrefix(lead, r + trail);
    StartsBelowBlankSuffix(r, trail, |trail|);
  }

  /** Trimming removes no word. */
  lemma {:induction false} TrimKeepsWords(value: string)
    ensures WordStarts(Trim(value)) == WordStarts(value)
  {
    WordStartsMargins(value, |value| - |TrimStart(value)|, Trim(value));
  }

  /** A string with no white space at either end splits into one piece per word. */
  lemma {:induction false} TrimmedCount(t: string)
    requires t != [] && !IsSpace(t[0]) && !IsSpace(t[|t| - 1])
    ensures |Split(t)| == WordStarts(t)
  {
    SplitCount(t);
  }

  /**
   * The count shown is the number of words of the editor: the number of
   * positions where a non-space character follows white space or the start;
   * a blank editor still shows one.
   */
  lemma {:induction false} WordCountIsWordStarts(value: string)
    ensures WordCount(value) == if IsBlank(value) then 1 else WordStarts(value)
  {
    if IsBlank(value) {
      BlankIsOneWord(value);
    } else {
      var t := Trim(value);
      TrimmedCount(t);
      TrimKeepsWords(value);
    }
  }

  /**
   * For a non-blank editor the count is the number of words: the pieces are
   * non-empty, free of white space, spell out the non-space characters of the
   * input in order, and there are as many as there are word starts.
   */
  lemma {:induction false} WordsOfInput(value: string)
    requires !IsBlank(value)
    ensures var words := Split(Trim(value));
      |words| == WordStarts(value)
      && (forall i :: 0 <= i < |words| ==> words[i] != "" && NoSpace(words[i]))
      && Concat(words) == Squeeze(value)
  {
    var t := Trim(value);
    assert t != [] && !IsSpace(t[0]) && !IsSpace(t[|t| - 1]);
    SplitPieces(t);
    SplitPiecesNonEmpty(t);
    SqueezeTrim(value);
    WordCountIsWordStarts(value);
  }
}
