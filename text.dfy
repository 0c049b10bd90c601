/**
 * Character classes and the few string operations of Python's `str` and
 * `string` module that the password manager relies on, restricted to ASCII:
 * `lower()`, `upper()`, `title()`, the `in` substring test, the character
 * constants `string.ascii_uppercase`, ... and the regular-expression class `\w`.
 */
module Text {

  predicate IsUpper(c: char) { 'A' <= c <= 'Z' }
  predicate IsLower(c: char) { 'a' <= c <= 'z' }
  predicate IsDigit(c: char) { '0' <= c <= '9' }
  predicate IsLetter(c: char) { IsUpper(c) || IsLower(c) }
  predicate IsAlnum(c: char) { IsLetter(c) || IsDigit(c) }

  /** `string.punctuation`: the printable ASCII characters that are neither letters, digits nor space. */
  predicate IsPunctuation(c: char) {
    ('!' <= c <= '/') || (':' <= c <= '@') || ('[' <= c <= '`') || ('{' <= c <= '~')
  }

  /** `any(c.isupper() for c in s)` and the regular expression `[A-Z]`. */
  predicate HasUpper(s: string) { exists c :: c in s && IsUpper(c) }
  /** `any(c.islower() for c in s)` and the regular expression `[a-z]`. */
  predicate HasLower(s: string) { exists c :: c in s && IsLower(c) }
  /** `any(c.isdigit() for c in s)` and the regular expression `[0-9]`. */
  predicate HasDigit(s: string) { exists c :: c in s && IsDigit(c) }
  /** `any(not c.isalnum() for c in s)` and the regular expression `[^A-Za-z0-9]`. */
  predicate HasOther(s: string) { exists c :: c in s && !IsAlnum(c) }

  /** Every character of a non-empty string falls into one of the four classes. */
  lemma NonEmptyHasSomeClass(s: string)
    requires s != ""
    ensures HasUpper(s) || HasLower(s) || HasDigit(s) || HasOther(s)
  {
    assert s[0] in s;
  }

  /** The regular-expression class `\w` on ASCII text. */
  predicate IsWordChar(c: char) { IsAlnum(c) || c == '_' }

  const ASCII_UPPERCASE: string := "ABCDEFGHIJKLMNOPQRSTUVWXYZ"
  const ASCII_LOWERCASE: string := "abcdefghijklmnopqrstuvwxyz"
  const ASCII_LETTERS: string := ASCII_LOWERCASE + ASCII_UPPERCASE
  const DIGITS: string := "0123456789"
  /** `string.punctuation`, as its four runs of ASCII codes. */
  const PUNCTUATION_1: string := "!\"#$%&'()*+,-./"
  const PUNCTUATION_2: string := ":;<=>?@"
  const PUNCTUATION_3: string := "[\\]^_`"
  const PUNCTUATION_4: string := "{|}~"
  const PUNCTUATION: string := PUNCTUATION_1 + PUNCTUATION_2 + PUNCTUATION_3 + PUNCTUATION_4

  lemma UppercaseMembers(c: char)
    ensures c in ASCII_UPPERCASE <==> IsUpper(c)
  {
    if IsUpper(c) {
      assert ASCII_UPPERCASE[c as int - 'A' as int] == c;
    }
  }

  lemma LowercaseMembers(c: char)
    ensures c in ASCII_LOWERCASE <==> IsLower(c)
  {
    if IsLower(c) {
      assert ASCII_LOWERCASE[c as int - 'a' as int] == c;
    }
  }

  lemma DigitMembers(c: char)
    ensures c in DIGITS <==> IsDigit(c)
  {
    if IsDigit(c) {
      assert DIGITS[c as int - '0' as int] == c;
    }
  }

  lemma LetterMembers(c: char)
    ensures c in ASCII_LETTERS <==> IsLetter(c)
  {
    UppercaseMembers(c);
    LowercaseMembers(c);
  }

  lemma PunctuationRun(run: string, lo: char, hi: char, c: char)
    requires lo <= hi && |run| == hi as int - lo as int + 1
    requires forall i :: 0 <= i < |run| ==> run[i] as int == lo as int + i
    ensures c in run <==> lo <= c <= hi
  {
    if lo <= c <= hi {
      assert run[c as int - lo as int] == c;
    }
  }

  lemma PunctuationMembers(c: char)
    ensures c in PUNCTUATION <==> IsPunctuation(c)
  {
    PunctuationRun(PUNCTUATION_1, '!', '/', c);
    PunctuationRun(PUNCTUATION_2, ':', '@', c);
    PunctuationRun(PUNCTUATION_3, '[', '`', c);
    PunctuationRun(PUNCTUATION_4, '{', '~', c);
  }

  function ToLower(c: char): char {
    if IsUpper(c) then (c as int - 'A' as int + 'a' as int) as char else c
  }

  function ToUpper(c: char): char {
    if IsLower(c) then (c as int - 'a' as int + 'A' as int) as char else c
  }

  /** `s.lower()` */
  function Lower(s: string): (r: string)
    ensures |r| == |s|
    ensures forall i :: 0 <= i < |s| ==> r[i] == ToLower(s[i])
  {
    seq(|s|, i requires 0 <= i < |s| => ToLower(s[i]))
  }

  /** Whether `t` is a prefix of `s`. */
  predicate IsPrefix(t: string, s: string) {
    |t| <= |s| && s[..|t|] == t
  }

  /** Python's `t in s` for strings, decided left to right. */
  predicate Contains(s: string, t: string)
    decreases |s|
  {
    IsPrefix(t, s) || (|s| > 0 && Contains(s[1..], t))
  }

  /** `t` occurs in `s` starting at offset `i`. */
  predicate OccursAt(s: string, t: string, i: int) {
    0 <= i && i + |t| <= |s| && s[i..i + |t|] == t
  }

  /** `Contains` finds exactly the occurrences of `t` at some offset of `s`. */
  lemma {:induction false} ContainsOccurrence(s: string, t: string)
    ensures Contains(s, t) <==> exists i :: OccursAt(s, t, i)
    decreases |s|
  {
    if IsPrefix(t, s) {
      assert OccursAt(s, t, 0);
    } else if |s| > 0 {
      ContainsOccurrence(s[1..], t);
      if Contains(s[1..], t) {
        var i :| OccursAt(s[1..], t, i);
        assert s[1..][i..i + |t|] == s[i + 1..i + 1 + |t|];
        assert OccursAt(s, t, i + 1);
      }
      if exists i :: OccursAt(s, t, i) {
        var i :| OccursAt(s, t, i);
        assert i != 0;
        assert s[1..][i - 1..i - 1 + |t|] == s[i..i + |t|];
        assert OccursAt(s[1..], t, i - 1);
      }
    } else {
      assert |t| > 0;
    }
  }

  /** The empty string occurs in every string, so an empty search term matches everything. */
  lemma EmptyOccursEverywhere(s: string)
    ensures Contains(s, "")
  {
    assert IsPrefix("", s);
  }

  /**
   * The search test shared by both record stores: the lower-cased term occurs
   * in the lower-cased website or in the lower-cased username.
   */
  predicate MatchesTerm(term: string, website: string, username: string) {
    Contains(Lower(website), Lower(term)) || Contains(Lower(username), Lower(term))
  }

  /** The case of a letter does not matter to the search test. */
  lemma MatchesTermIgnoresCase(term: string, website: string, username: string)
    ensures MatchesTerm(Lower(term), website, username) <==> MatchesTerm(term, website, username)
  {
    assert Lower(Lower(term)) == Lower(term);
  }

  /**
   * `s.title()`: a letter that follows a letter is lower-cased, any other
   * letter is upper-cased; other characters are kept and end a word.
   */
  function TitleFrom(s: string, afterLetter: bool): (r: string)
    ensures |r| == |s|
    decreases |s|
  {
    if s == [] then []
    else [if afterLetter then ToLower(s[0]) else ToUpper(s[0])] + TitleFrom(s[1..], IsLetter(s[0]))
  }

  function Title(s: string): string {
    TitleFrom(s, false)
  }

  lemma {:induction false} TitleFromIdempotent(s: string, afterLetter: bool)
    ensures TitleFrom(TitleFrom(s, afterLetter), afterLetter) == TitleFrom(s, afterLetter)
    decreases |s|
  {
    if s != [] {
      var t := TitleFrom(s, afterLetter);
      assert t[1..] == TitleFrom(s[1..], IsLetter(s[0]));
      assert IsLetter(t[0]) == IsLetter(s[0]);
      TitleFromIdempotent(s[1..], IsLetter(s[0]));
    }
  }

  /** Normalising a website name twice gives the same key as normalising it once. */
  lemma TitleIdempotent(s: string)
    ensures Title(Title(s)) == Title(s)
  {
    TitleFromIdempotent(s, false);
  }
}
