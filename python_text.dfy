/**
 * The Python string operations the offline tools rely on, over ASCII:
 * str.strip(), str.isdigit() and int(str).
 */
module PyText {
  import opened Wrappers
  import opened Text

  /** The ASCII characters str.isspace() accepts: space, tab to carriage return, and the four separators 0x1C-0x1F. */
  predicate IsSpace(c: char) {
    c == ' ' || (0x09 <= c as int <= 0x0D) || (0x1C <= c as int <= 0x1F)
  }

  function StripLeft(s: string): (r: string)
    ensures |r| <= |s| && r == s[|s| - |r|..]
    ensures r == [] || !IsSpace(r[0])
  {
    if s != [] && IsSpace(s[0]) then StripLeft(s[1..]) else s
  }

  function StripRight(s: string): (r: string)
    ensures |r| <= |s| && r == s[..|r|]
    ensures r == [] || !IsSpace(r[|r| - 1])
  {
    if s != [] && IsSpace(s[|s| - 1]) then StripRight(s[..|s| - 1]) else s
  }

  /** str.strip(): leading and trailing whitespace removed. */
  function Strip(s: string): string {
    StripRight(StripLeft(s))
  }

  /** str.isdigit(): non-empty and digits only. */
  predicate IsDigitStr(s: string) {
    |s| > 0 && AllDigits(s)
  }

  /** The digit part int() accepts: digits, with single underscores between digits. */
  predicate PyDigits(s: string) {
    && |s| > 0
    && IsDigit(s[0]) && IsDigit(s[|s| - 1])
    && (forall i :: 0 <= i < |s| ==> IsDigit(s[i]) || s[i] == '_')
    && (forall i :: 0 <= i < |s| - 1 ==> !(s[i] == '_' && s[i + 1] == '_'))
  }

  function RemoveUnderscores(s: string): (r: string)
    requires forall i :: 0 <= i < |s| ==> IsDigit(s[i]) || s[i] == '_'
    ensures AllDigits(r)
  {
    if s == [] then []
    else (if s[0] == '_' then [] else [s[0]]) + RemoveUnderscores(s[1..])
  }

  lemma {:induction false} RemoveUnderscoresOfDigits(s: string)
    requires AllDigits(s)
    ensures RemoveUnderscores(s) == s
  {
    if s != [] {
      RemoveUnderscoresOfDigits(s[1..]);
    }
  }

  /**
   * int(s) for a str argument: surrounding whitespace is ignored, an
   * optional sign, then PyDigits; anything else raises ValueError (None).
   */
  function ParseInt(s: string): (r: Option<int>)
  {
    ParseNumeral(Strip(s))
  }

  /** int() after stripping: an optional sign followed by PyDigits. */
  function ParseNumeral(t: string): (r: Option<int>)
  {
    if t == [] then None
    else
      var body := if t[0] == '-' || t[0] == '+' then t[1..] else t;
      if !PyDigits(body) then None
      else
        var v: int := DecValue(RemoveUnderscores(body));
        Some(if t[0] == '-' then -v else v)
  }

  lemma {:induction false} StripLeftNoSpace(s: string)
    requires s == [] || !IsSpace(s[0])
    ensures StripLeft(s) == s
  {
  }

  lemma {:induction false} StripOfDigits(s: string)
    requires AllDigits(s)
    ensures Strip(s) == s
  {
    StripLeftNoSpace(s);
    assert StripLeft(s) == s;
  }

  lemma ParseNumeralOfDigits(s: string)
    requires IsDigitStr(s)
    ensures ParseNumeral(s) == Some(DecValue(s))
  {
    assert PyDigits(s);
    RemoveUnderscoresOfDigits(s);
  }

  /** int() of a digit string is its decimal value; this is how a token that passed isdigit() is read. */
  lemma ParseIntOfDigits(s: string)
    requires IsDigitStr(s)
    ensures ParseInt(s) == Some(DecValue(s))
  {
    StripOfDigits(s);
    ParseNumeralOfDigits(s);
  }

  /** A number written with at least `width` digits by printf "%0<width>llu" is read back by int(). */
  lemma ParseIntOfZeroPadded(n: nat, width: nat)
    ensures ParseInt(ZeroPad(NatToDec(n), width)) == Some(n)
  {
    var s := ZeroPad(NatToDec(n), width);
    ZeroPaddedValue(n, width);
    ParseIntOfDigits(s);
  }

  /** int() never accepts a string whose stripped form is not a signed PyDigits numeral. */
  lemma ParseIntRejectsLetters(s: string)
    requires |s| > 0 && 'a' <= s[0] <= 'z'
    ensures ParseInt(s) == None
  {
    assert !IsSpace(s[0]);
    StripLeftNoSpace(s);
    var t := Strip(s);
    assert t == StripRight(s);
    if t != [] {
      assert t[0] == s[0];
    }
  }
}
