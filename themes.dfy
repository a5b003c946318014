/**
 * Colour themes. The chosen index is written to `localStorage` as a decimal
 * string and read back on the next page load with `parseInt(...) || 0`.
 */
module Themes {
  import opened Wrappers
  import opened Text

  datatype Theme = Theme(id: string, icon: string, name: string)

  const ThemeTable: seq<Theme> := [
    Theme("nebula", "fa-moon", "Nebula"),
    Theme("light", "fa-sun", "Daylight"),
    Theme("midnight", "fa-battery-quarter", "Midnight"),
    Theme("terminal", "fa-terminal", "Hacker"),
    Theme("sunset", "fa-fire", "Sunset")
  ]

  /** The theme whose look is the stylesheet's default, so it sets no `data-theme` attribute. */
  const DefaultThemeId := "nebula"

  /** The value of `c` as a digit in bases up to 36; 36 for characters that are no digit at all. */
  function DigitValue(c: char): (v: nat)
    ensures v <= 36
  {
    if '0' <= c <= '9' then c as int - '0' as int
    else if 'a' <= c <= 'z' then c as int - 'a' as int + 10
    else if 'A' <= c <= 'Z' then c as int - 'A' as int + 10
    else 36
  }

  /** The longest prefix of `s` made of digits of base `radix`. */
  function DigitPrefix(s: string, radix: nat): (d: string)
    ensures |d| <= |s| && d == s[..|d|]
    ensures forall i :: 0 <= i < |d| ==> DigitValue(d[i]) < radix
    ensures |d| < |s| ==> DigitValue(s[|d|]) >= radix
  {
    if s != [] && DigitValue(s[0]) < radix then [s[0]] + DigitPrefix(s[1..], radix) else []
  }

  /** The number the digit string `d` denotes in base `radix`, most significant digit first. */
  function DigitsValue(d: string, radix: nat): nat {
    if d == [] then 0 else DigitsValue(d[..|d| - 1], radix) * radix + DigitValue(d[|d| - 1])
  }

  /** -1 when the trimmed text starts with a minus sign, else 1. */
  function SignOf(t: string): int {
    if t != [] && t[0] == '-' then -1 else 1
  }

  /** The trimmed text without its one leading sign, if any. */
  function Unsigned(t: string): string {
    if t != [] && (t[0] == '-' || t[0] == '+') then t[1..] else t
  }

  /** Whether the text starts with "0x" or "0X", which selects base 16. */
  predicate HexPrefixed(u: string) {
    |u| >= 2 && u[0] == '0' && (u[1] == 'x' || u[1] == 'X')
  }

  /** The magnitude read from unsigned text: the longest run of digits after the optional hex prefix; None when it is empty. */
  function ParseMagnitude(u: string): Option<nat> {
    var radix := if HexPrefixed(u) then 16 else 10;
    var digits := DigitPrefix(if HexPrefixed(u) then u[2..] else u, radix);
    if digits == [] then None else Some(DigitsValue(digits, radix))
  }

  /**
   * `parseInt(s)` without a radix, with NaN as None: leading white space and
   * one sign are skipped, a "0x"/"0X" prefix selects base 16, and the longest
   * run of digits that follows is read; no digits at all gives NaN.
   */
  function ParseInt(s: string): (r: Option<int>)
    ensures var u := Unsigned(TrimStart(s));
      r.Some? <==> if HexPrefixed(u) then |u| > 2 && DigitValue(u[2]) < 16 else u != [] && DigitValue(u[0]) < 10
    ensures r.Some? && r.value < 0 ==> TrimStart(s) != [] && TrimStart(s)[0] == '-'
    ensures r.Some? && TrimStart(s) != [] && TrimStart(s)[0] == '-' ==> r.value <= 0
  {
    var t := TrimStart(s);
    match ParseMagnitude(Unsigned(t))
    case None => None
    case Some(m) => Some(SignOf(t) * m)
  }

  /** The decimal digit for `n < 10`. */
  function DigitChar(n: nat): char
    requires n < 10
  {
    ('0' as int + n) as char
  }

  /** `String(n)` for a natural number: its decimal digits, without leading zeros. */
  function Decimal(n: nat): (s: string)
    ensures s != []
    ensures forall i :: 0 <= i < |s| ==> DigitValue(s[i]) < 10
    ensures |s| > 1 ==> s[0] != '0'
  {
    if n < 10 then [DigitChar(n)] else Decimal(n / 10) + [DigitChar(n % 10)]
  }

  /** A string of digits is its own longest digit prefix. */
  lemma {:induction false} AllDigits(s: string, radix: nat)
    requires forall i :: 0 <= i < |s| ==> DigitValue(s[i]) < radix
    ensures DigitPrefix(s, radix) == s
  {
    if s != [] {
      AllDigits(s[1..], radix);
    }
  }

  /** Reading back the decimal digits of `n` gives `n`. */
  lemma {:induction false} DecimalValue(n: nat)
    ensures DigitsValue(Decimal(n), 10) == n
  {
    if n >= 10 {
      DecimalValue(n / 10);
      var d := Decimal(n);
      assert d[..|d| - 1] == Decimal(n / 10);
    }
  }

  /**
   * `parseInt(String(n))` is `n` for every natural number of the model; in
   * the page numbers are doubles (see README, Left out), and only indices
   * below five are ever stored.
   */
  lemma {:induction false} ParseDecimal(n: nat)
    ensures ParseInt(Decimal(n)) == Some(n)
  {
    var s := Decimal(n);
    var c := s[0];
    assert '0' <= c <= '9' by {
      assert DigitValue(c) < 10;
    }
    assert !IsSpace(c);
    assert TrimStart(s) == s;
    assert Unsigned(s) == s && SignOf(s) == 1;
    assert !HexPrefixed(s);
    AllDigits(s, 10);
    DecimalValue(n);
    assert ParseMagnitude(s) == Some(n);
  }

  /** `parseInt(localStorage.getItem('themeIndex')) || 0`: an absent key or NaN gives 0. */
  function LoadedThemeIndex(stored: Option<string>): (r: int)
    ensures stored.None? ==> r == 0
    ensures r != 0 ==> stored.Some? && ParseInt(stored.value) == Some(r)
    ensures stored.Some? && ParseInt(stored.value).Some? && ParseInt(stored.value).value != 0 ==> r != 0
  {
    match stored
    case None => 0
    case Some(s) => ParseInt(s).GetOr(0)
  }

  /** Storing an index and loading it again gives back the same index, so a chosen theme survives a reload. */
  lemma {:induction false} ThemeIndexRoundTrip(index: nat)
    ensures LoadedThemeIndex(Some(Decimal(index))) == index
  {
    ParseDecimal(index);
  }

  /** A key that was never written selects the first theme. */
  lemma {:induction false} FreshPageTheme()
    ensures LoadedThemeIndex(None) == 0 && ThemeTable[0].id == DefaultThemeId
  {
  }

  /** The page's appearance: the `data-theme` attribute, the theme button's tooltip and the stored index. */
  class Appearance {
    var dataTheme: Option<string>
    var buttonTitle: string
    var storedIndex: Option<string>
    var currentIndex: int    // currentThemeIndex: read once at load, never updated by applyTheme

    /**
     * The read of the stored index at page load; page load then goes on with
     * `ApplyTheme(currentIndex)`, which rewrites the stored key.
     */
    constructor (stored: Option<string>)
      ensures storedIndex == stored && currentIndex == LoadedThemeIndex(stored)
      ensures dataTheme == None && buttonTitle == ""
    {
      storedIndex := stored;
      currentIndex := LoadedThemeIndex(stored);
      dataTheme := None;
      buttonTitle := "";
    }

    /**
     * `applyTheme(index)`: the default theme clears `data-theme`, every other
     * theme sets it to its id; the tooltip names the theme; the index is stored
     * so that the next load picks the same theme. `currentIndex` is untouched.
     */
    method ApplyTheme(index: nat)
      requires index < |ThemeTable|
      modifies this
      ensures dataTheme == (if ThemeTable[index].id == DefaultThemeId then None else Some(ThemeTable[index].id))
      ensures buttonTitle == "Current: " + ThemeTable[index].name
      ensures storedIndex == Some(Decimal(index)) && LoadedThemeIndex(storedIndex) == index
      ensures currentIndex == old(currentIndex)
    {
      var theme := ThemeTable[index];
      dataTheme := None;
      if theme.id != DefaultThemeId {
        dataTheme := Some(theme.id);
      }
      buttonTitle := "Current: " + theme.name;
      storedIndex := Some(Decimal(index));
      ThemeIndexRoundTrip(index);
    }
  }
}
