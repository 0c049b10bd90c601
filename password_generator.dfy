/**
 * ui/password_generator.py: the generator panel. The character set is built
 * from four check boxes (upper case, lower case, digits, punctuation, in that
 * order) and falls back to letters and digits when none is ticked; the
 * length is the spin box text read with Python's `int`. The password goes to
 * the clipboard manager and to the callback when they are present; a length
 * text `int` rejects ends in the error handler with neither.
 */
module PasswordGenerator {
  import opened Wrappers
  import opened Text

  // ------------------------------------------------------------ charset

  /** The ticked class strings joined in order, or `fallback` when none is ticked. */
  function Joined(upper: bool, lower: bool, digits: bool, special: bool,
                  upperChars: string, lowerChars: string, digitChars: string, specialChars: string,
                  fallback: string): string
  {
    var chars := (if upper then upperChars else "") + (if lower then lowerChars else "")
                 + (if digits then digitChars else "") + (if special then specialChars else "");
    if chars == "" then fallback else chars
  }

  /** The set `generate_password` builds from the four flags. */
  function Charset(upper: bool, lower: bool, digits: bool, special: bool): (chars: string)
    ensures |chars| > 0
  {
    Joined(upper, lower, digits, special, ASCII_UPPERCASE, ASCII_LOWERCASE, DIGITS, PUNCTUATION, ASCII_LETTERS + DIGITS)
  }

  /** The `+=` steps of `generate_password`, over the four class strings. */
  method BuildCharset(upper: bool, lower: bool, digits: bool, special: bool,
                      upperChars: string, lowerChars: string, digitChars: string, specialChars: string,
                      fallback: string) returns (chars: string)
    ensures chars == Joined(upper, lower, digits, special, upperChars, lowerChars, digitChars, specialChars, fallback)
  {
    chars := "";
    if upper {
      chars := chars + upperChars;
    }
    if lower {
      chars := chars + lowerChars;
    }
    if digits {
      chars := chars + digitChars;
    }
    if special {
      chars := chars + specialChars;
    }
    if chars == "" {
      chars := fallback;
    }
  }

  /**
   * A character is in the set exactly when its class is ticked, or, with no
   * box ticked, when it is a letter or a digit.
   */
  lemma CharsetMembers(upper: bool, lower: bool, digits: bool, special: bool, c: char)
    ensures c in Charset(upper, lower, digits, special) <==>
      || (upper && IsUpper(c)) || (lower && IsLower(c)) || (digits && IsDigit(c)) || (special && IsPunctuation(c))
      || (!upper && !lower && !digits && !special && IsAlnum(c))
  {
    UppercaseMembers(c);
    LowercaseMembers(c);
    DigitMembers(c);
    PunctuationMembers(c);
    LetterMembers(c);
  }

  /** The set is never empty: 26, 26, 10 and 32 characters per ticked box, else 62. */
  lemma CharsetSize(upper: bool, lower: bool, digits: bool, special: bool)
    ensures |Charset(upper, lower, digits, special)| ==
      if upper || lower || digits || special
      then (if upper then 26 else 0) + (if lower then 26 else 0) + (if digits then 10 else 0) + (if special then 32 else 0)
      else 62
  {
  }

  // ------------------------------------------------------------ int(text)

  /** The ASCII characters `str.strip` and `int` treat as white space. */
  predicate IsSpace(c: char) { c == ' ' || 9 <= c as int <= 13 || 28 <= c as int <= 31 }

  /** `s` without its leading white space (the left half of `str.strip`). */
  function TrimStart(s: string): (r: string)
    ensures |r| <= |s|
    ensures r == [] || !IsSpace(r[0])
  {
    if s != [] && IsSpace(s[0]) then TrimStart(s[1..]) else s
  }

  /** `TrimStart` removes a prefix made only of white space, and nothing else. */
  lemma {:induction false} TrimStartDropsSpaces(s: string)
    ensures var r := TrimStart(s);
      && r == s[|s| - |r|..]
      && forall i :: 0 <= i < |s| - |r| ==> IsSpace(s[i])
  {
    if s != [] && IsSpace(s[0]) {
      TrimStartDropsSpaces(s[1..]);
      var r := TrimStart(s[1..]);
      assert s[1..][|s| - 1 - |r|..] == s[|s| - |r|..];
      forall i | 1 <= i < |s| - |r| ensures IsSpace(s[i]) {
        assert s[1..][i - 1] == s[i];
      }
    }
  }

  /** `s` without its trailing white space (the right half of `str.strip`). */
  function TrimEnd(s: string): (r: string)
    ensures |r| <= |s|
    ensures r == [] || !IsSpace(r[|r| - 1])
  {
    if s != [] && IsSpace(s[|s| - 1]) then TrimEnd(s[..|s| - 1]) else s
  }

  /** `TrimEnd` removes a suffix made only of white space, and nothing else. */
  lemma {:induction false} TrimEndDropsSpaces(s: string)
    ensures var r := TrimEnd(s);
      && r == s[..|r|]
      && forall i :: |r| <= i < |s| ==> IsSpace(s[i])
  {
    if s != [] && IsSpace(s[|s| - 1]) {
      TrimEndDropsSpaces(s[..|s| - 1]);
      var r := TrimEnd(s[..|s| - 1]);
      assert s[..|s| - 1][..|r|] == s[..|r|];
      forall i | |r| <= i < |s| - 1 ensures IsSpace(s[i]) {
        assert s[..|s| - 1][i] == s[i];
      }
    }
  }

  /** Decimal digits with single underscores between them, as `int` accepts them. */
  predicate DigitGroups(b: string) {
    && |b| > 0 && IsDigit(b[0]) && IsDigit(b[|b| - 1])
    && (forall i :: 0 <= i < |b| ==> IsDigit(b[i]) || b[i] == '_')
    && (forall i, j :: 0 <= i < |b| && 0 <= j < |b| && j == i + 1 ==> !(b[i] == '_' && b[j] == '_'))
  }

  function DigitValue(c: char): nat requires IsDigit(c) { c as nat - '0' as nat }

  /** The number the digits spell, underscores skipped. */
  function DigitsValue(b: string): nat
    requires forall i :: 0 <= i < |b| ==> IsDigit(b[i]) || b[i] == '_'
  {
    if b == [] then 0
    else if b[|b| - 1] == '_' then DigitsValue(b[..|b| - 1])
    else DigitsValue(b[..|b| - 1]) * 10 + DigitValue(b[|b| - 1])
  }

  /** `int(text)`: None where it raises ValueError. */
  function ParseInt(text: string): Option<int> {
    ParseTrimmed(TrimEnd(TrimStart(text)))
  }

  /** `int` on text without surrounding white space: an optional sign, then digit groups. */
  function ParseTrimmed(t: string): Option<int> {
    if |t| > 0 && (t[0] == '-' || t[0] == '+') then
      if DigitGroups(t[1..]) then Some(if t[0] == '-' then 0 - DigitsValue(t[1..]) else DigitsValue(t[1..]))
      else None
    else if DigitGroups(t) then Some(DigitsValue(t))
    else None
  }

  function DigitChar(d: nat): (c: char)
    requires d < 10
    ensures IsDigit(c) && DigitValue(c) == d
  {
    ('0' as int + d) as char
  }

  /** `str(n)` for a natural number. */
  function DecimalText(n: nat): (s: string)
    ensures |s| > 0 && forall i :: 0 <= i < |s| ==> IsDigit(s[i])
  {
    if n < 10 then [DigitChar(n)] else DecimalText(n / 10) + [DigitChar(n % 10)]
  }

  lemma {:induction false} DecimalValue(n: nat)
    ensures DigitsValue(DecimalText(n)) == n
  {
    if n >= 10 {
      var s := DecimalText(n);
      assert s[..|s| - 1] == DecimalText(n / 10);
      DecimalValue(n / 10);
    }
  }

  /** A string of digits has no white space to trim (used by `ParseDigits` and `ParsePaddedDigits`). */
  lemma DigitsUntrimmed(s: string)
    requires |s| > 0 && forall i :: 0 <= i < |s| ==> IsDigit(s[i])
    ensures TrimStart(s) == s && TrimEnd(s) == s
  {
  }

  /** `int(s)` for a string of digits is their value (the first case of `ParseDecimal`). */
  lemma ParseDigits(s: string)
    requires |s| > 0 && forall i :: 0 <= i < |s| ==> IsDigit(s[i])
    ensures ParseInt(s) == Some(DigitsValue(s))
  {
    DigitsUntrimmed(s);
    assert DigitGroups(s);
    assert ParseTrimmed(s) == Some(DigitsValue(s));
  }

  /** Text that starts and ends with no white space is left as it is by `strip`. */
  lemma Untrimmed(t: string)
    requires |t| > 0 && !IsSpace(t[0]) && !IsSpace(t[|t| - 1])
    ensures TrimEnd(TrimStart(t)) == t
  {
  }

  /** `int("-" + s)` for a string of digits is minus their value (the second case of `ParseDecimal`). */
  lemma ParseNegatedDigits(s: string)
    requires |s| > 0 && forall i :: 0 <= i < |s| ==> IsDigit(s[i])
    ensures ParseInt("-" + s) == Some(0 - DigitsValue(s))
  {
    var neg := "-" + s;
    assert neg[|neg| - 1] == s[|s| - 1];
    Untrimmed(neg);
    assert DigitGroups(s);
    ParseNegative(s);
    ParseUntrimmed(neg);
  }

  /** A minus sign before digit groups negates their value (the sign step of `ParseNegatedDigits`). */
  lemma ParseNegative(s: string)
    requires DigitGroups(s)
    ensures ParseTrimmed("-" + s) == Some(0 - DigitsValue(s))
  {
    assert ("-" + s)[1..] == s;
  }

  /** On text `strip` leaves alone, `int` is the parse of the text itself (the trim step of `ParseNegatedDigits`). */
  lemma ParseUntrimmed(t: string)
    requires TrimEnd(TrimStart(t)) == t
    ensures ParseInt(t) == ParseTrimmed(t)
  {
  }

  /** A leading space is stripped and nothing more (the left trim step of `ParsePaddedDigits`). */
  lemma TrimsToLine(s: string)
    requires |s| > 0 && !IsSpace(s[0])
    ensures TrimStart(" " + s + "\n") == s + "\n"
  {
    var line := s + "\n";
    assert " " + s + "\n" == " " + line;
    assert ([' '] + line)[1..] == line;
    assert line[0] == s[0];
  }

  /** `int(" " + s + "\n")` for a string of digits is their value (the third case of `ParseDecimal`). */
  lemma ParsePaddedDigits(s: string)
    requires |s| > 0 && forall i :: 0 <= i < |s| ==> IsDigit(s[i])
    ensures ParseInt(" " + s + "\n") == Some(DigitsValue(s))
  {
    var line := s + "\n";
    TrimsToLine(s);
    assert TrimEnd(line) == s by {
      assert line[..|line| - 1] == s;
      DigitsUntrimmed(s);
    }
    ParseDigits(s);
  }

  /** `int(str(n)) == n` and `int("-" + str(n)) == -n`, with or without surrounding spaces. */
  lemma ParseDecimal(n: nat)
    ensures ParseInt(DecimalText(n)) == Some(n)
    ensures ParseInt("-" + DecimalText(n)) == Some(0 - n)
    ensures ParseInt(" " + DecimalText(n) + "\n") == Some(n)
  {
    var s := DecimalText(n);
    DecimalValue(n);
    ParseDigits(s);
    ParseNegatedDigits(s);
    ParsePaddedDigits(s);
  }

  /** The spin box's initial text is read as 16. */
  lemma ParseInitialLength()
    ensures ParseInt("16") == Some(16)
  {
    ParseDecimal(16);
    assert DecimalText(16) == "16";
  }

  /** A length text with a letter in it is rejected. */
  lemma ParseRejectsLetters()
    ensures ParseInt("16a") == None
  {
    var t := "16a";
    assert TrimStart(t) == t;
    assert TrimEnd(t) == t;
    assert !IsDigit(t[2]);
  }

  // ---------------------------------------------------------- the panel

  class PasswordGenerator {
    /** The spin box text, `length_var`. */
    var lengthText: string
    var useUpper: bool
    var useLower: bool
    var useDigits: bool
    var useSpecial: bool
    /** Whether a callback and a clipboard manager were passed in. */
    const hasCallback: bool
    const hasClipboard: bool
    /** The passwords handed to the callback and to the clipboard manager, oldest first. */
    var delivered: seq<string>
    var copied: seq<string>

    /** The panel as it opens: length "16", every box ticked. */
    constructor(hasCallback: bool, hasClipboard: bool)
      ensures lengthText == "16" && useUpper && useLower && useDigits && useSpecial
      ensures this.hasCallback == hasCallback && this.hasClipboard == hasClipboard
      ensures delivered == [] && copied == []
    {
      lengthText := "16";
      useUpper := true;
      useLower := true;
      useDigits := true;
      useSpecial := true;
      this.hasCallback := hasCallback;
      this.hasClipboard := hasClipboard;
      delivered := [];
      copied := [];
    }

    /**
     * `generate_password`: the k-th character is the set's element at the
     * k-th draw of `secrets.choice`; a negative length gives "".
     */
    method GeneratePassword(draw: nat -> nat) returns (r: Option<string>)
      modifies this`delivered, this`copied
      ensures r.None? <==> ParseInt(lengthText).None?
      ensures r.None? ==> delivered == old(delivered) && copied == old(copied)
      ensures r.Some? ==>
        var chars := Charset(useUpper, useLower, useDigits, useSpecial);
        var n := ParseInt(lengthText).value;
        && |r.value| == (if n < 0 then 0 else n)
        && (forall k :: 0 <= k < |r.value| ==> r.value[k] == chars[draw(k) % |chars|])
        && delivered == old(delivered) + (if hasCallback then [r.value] else [])
        && copied == old(copied) + (if hasClipboard then [r.value] else [])
    {
      var chars := BuildCharset(useUpper, useLower, useDigits, useSpecial,
                                ASCII_UPPERCASE, ASCII_LOWERCASE, DIGITS, PUNCTUATION, ASCII_LETTERS + DIGITS);

      var length := ParseInt(lengthText);
      if length.None? {
        return None;
      }
      var n := length.value;
      var password := "";
      var i := 0;
      while i < n
        invariant 0 <= i && (n >= 0 ==> i <= n) && (n < 0 ==> i == 0)
        invariant |password| == i
        invariant forall k :: 0 <= k < i ==> password[k] == chars[draw(k) % |chars|]
      {
        password := password + [chars[draw(i) % |chars|]];
        i := i + 1;
      }
      if hasClipboard {
        copied := copied + [password];
      }
      if hasCallback {
        delivered := delivered + [password];
      }
      r := Some(password);
    }
  }

  /** Every generated character belongs to the set chosen by the ticked boxes. */
  lemma GeneratedFromCharset(upper: bool, lower: bool, digits: bool, special: bool, draw: nat -> nat, password: string)
    requires var chars := Charset(upper, lower, digits, special);
      forall k :: 0 <= k < |password| ==> password[k] == chars[draw(k) % |chars|]
    ensures forall k :: 0 <= k < |password| ==> password[k] in Charset(upper, lower, digits, special)
  {
    var chars := Charset(upper, lower, digits, special);
    forall k | 0 <= k < |password| ensures password[k] in chars {
      assert password[k] == chars[draw(k) % |chars|];
    }
  }
}
