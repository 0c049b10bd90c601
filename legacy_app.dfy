/**
 * Password_Manager_Main_v2_commented.py: the single-window application that
 * keeps data.json, a JSON object from title-cased website name to an entry
 * with e-mail, password, creation date and a list of earlier passwords.
 *
 * The window's entry fields, the clipboard and the strength label are fields
 * of `LegacyApp`; dates are day numbers (`date.toordinal()`); the random
 * module's results are the functions of a `Draws` value.
 */
module LegacyApp {
  import opened Wrappers
  import opened Text
  import PasswordUtils

  // ------------------------------------------------------------- strength

  /** The class `[!@#$%^&*()]` of `check_password_strength`. */
  const SPECIAL_CHARS: string := "!@#$%^&*()"

  predicate HasSpecial(s: string) { exists c :: c in s && c in SPECIAL_CHARS }

  /** `sum(strength_criteria)`: length at least 8, `[a-z]`, `[A-Z]`, `[0-9]`, a special character. */
  function CriteriaCount(password: string): (n: nat)
    ensures n <= 5
  {
    PasswordUtils.Indicator(|password| >= 8) + PasswordUtils.Indicator(HasLower(password))
      + PasswordUtils.Indicator(HasUpper(password)) + PasswordUtils.Indicator(HasDigit(password))
      + PasswordUtils.Indicator(HasSpecial(password))
  }

  /** The text and colour `check_password_strength` gives the strength label. */
  function StrengthLabel(password: string): (string, string) {
    var n := CriteriaCount(password);
    if n == 5 then ("Strong", "green")
    else if n == 3 || n == 4 then ("Medium", "orange")
    else ("Weak", "red")
  }

  /** "Strong" exactly for all five criteria, "Medium" for three or four, "Weak" below three. */
  lemma StrengthLabels(password: string)
    ensures StrengthLabel(password).0 == "Strong" <==> CriteriaCount(password) == 5
    ensures StrengthLabel(password).0 == "Medium" <==> 3 <= CriteriaCount(password) <= 4
    ensures StrengthLabel(password).0 == "Weak" <==> CriteriaCount(password) < 3
  {
  }

  /** Typing one more character never lowers the count of criteria met. */
  lemma CriteriaGrowWithInput(password: string, c: char)
    ensures CriteriaCount(password + [c]) >= CriteriaCount(password)
  {
    var q := password + [c];
    forall x | x in password ensures x in q {
      var i :| 0 <= i < |password| && password[i] == x;
      assert q[i] == x;
    }
  }

  // ---------------------------------------------------------------- e-mail

  /** `[\w\.-]` */
  predicate IsEmailChar(c: char) { IsWordChar(c) || c == '.' || c == '-' }

  /** `d[k]` is the dot of `[\w\.-]+\.\w+` for the whole of `d`. */
  predicate DotAt(d: string, k: int) {
    && 1 <= k < |d| - 1 && d[k] == '.'
    && (forall j :: 0 <= j < k ==> IsEmailChar(d[j]))
    && (forall j :: k < j < |d| ==> IsWordChar(d[j]))
  }

  /** `e[i]` is the `@` of `[\w\.-]+@[\w\.-]+\.\w+` for the whole of `e`. */
  predicate AtSplit(e: string, i: int) {
    && 1 <= i < |e| && e[i] == '@'
    && (forall j :: 0 <= j < i ==> IsEmailChar(e[j]))
    && DomainMatch(e[i + 1..])
  }

  /** `d` matches `[\w\.-]+\.\w+` as a whole. */
  predicate DomainMatch(d: string) { exists k :: 0 <= k < |d| && DotAt(d, k) }

  predicate EmailBody(e: string) { exists i :: 0 <= i < |e| && AtSplit(e, i) }

  /**
   * `validate_email`: `re.match(r'^[\w\.-]+@[\w\.-]+\.\w+$', email)` is a
   * match. `$` also matches before a final newline, so one trailing "\n" is
   * accepted.
   */
  predicate ValidEmail(e: string) {
    EmailBody(e) || (|e| > 0 && e[|e| - 1] == '\n' && EmailBody(e[..|e| - 1]))
  }

  /**
   * A plain address is accepted, also with one trailing newline; a domain
   * without a dot is not.
   */
  lemma EmailExamples()
    ensures ValidEmail("a@b.co")
    ensures ValidEmail("a@b.co\n")
    ensures !ValidEmail("a@bc")
  {
    var e := "a@b.co";
    var d := e[2..];
    assert d == "b.co";
    assert IsWordChar(d[2]) && IsWordChar(d[3]);
    assert DotAt(d, 1);
    assert AtSplit(e, 1);
    assert ("a@b.co\n")[..6] == e;
    var bad := "a@bc";
    forall i | 0 <= i < |bad| && AtSplit(bad, i) ensures false {
    }
    assert !EmailBody(bad);
  }

  /** The text `^...$` has to match: `e` without the one final newline `$` lets through. */
  function MatchedPart(e: string): string {
    if |e| > 0 && e[|e| - 1] == '\n' then e[..|e| - 1] else e
  }

  /** A match of the pattern without the newline ends in a word character. */
  lemma EmailBodyEndsInWordChar(e: string)
    requires EmailBody(e)
    ensures |e| > 0 && IsWordChar(e[|e| - 1])
  {
    var i :| 0 <= i < |e| && AtSplit(e, i);
    var d := e[i + 1..];
    var k :| 0 <= k < |d| && DotAt(d, k);
    assert e[|e| - 1] == d[|d| - 1];
  }

  /**
   * Every accepted address has exactly one `@`, not at the start, a `.` in
   * the domain part after at least one character, and ends in a word
   * character.
   */
  lemma ValidEmailShape(e: string)
    requires ValidEmail(e)
    ensures var b := MatchedPart(e);
      && IsWordChar(b[|b| - 1])
      && exists i :: 0 < i < |b| && b[i] == '@'
           && (forall j :: 0 <= j < |b| && j != i ==> b[j] != '@')
           && (exists k :: i + 1 < k < |b| - 1 && b[k] == '.')
  {
    var b := MatchedPart(e);
    assert EmailBody(b) by {
      if !EmailBody(e) {
        assert |e| > 0 && e[|e| - 1] == '\n';
      } else if |e| > 0 && e[|e| - 1] == '\n' {
        EmailBodyEndsInWordChar(e);
        assert false;
      }
    }
    var i :| 0 <= i < |b| && AtSplit(b, i);
    var d := b[i + 1..];
    var k :| 0 <= k < |d| && DotAt(d, k);
    assert b[|b| - 1] == d[|d| - 1];
    forall j | 0 <= j < |b| && j != i ensures b[j] != '@' {
      if j > i {
        assert b[j] == d[j - i - 1];
      }
    }
    assert b[i + 1 + k] == d[k];
  }

  /** Text without an `@` is never accepted. */
  lemma NoAtRejected(e: string)
    requires forall j :: 0 <= j < |e| ==> e[j] != '@'
    ensures !ValidEmail(e)
  {
    if ValidEmail(e) {
      ValidEmailShape(e);
      assert false;
    }
  }

  // ------------------------------------------------------------------ data

  datatype Entry = Entry(email: string, password: string, creationDate: Option<int>, history: seq<string>)

  /** data.json: absent, not valid JSON, or a parsed object. */
  datatype FileState = Missing | Corrupt | Present(data: map<string, Entry>)

  const HISTORY_LIMIT: nat := 5
  const EXPIRY_DAYS: int := 90

  /**
   * The in-place history step of `save`: the stored password is appended and,
   * if the list is then longer than five, its oldest element is popped.
   */
  function AppendAndTrim(history: seq<string>, password: string): (r: seq<string>)
    ensures |history| <= HISTORY_LIMIT ==> |r| <= HISTORY_LIMIT
    ensures |r| > 0 && r[|r| - 1] == password
    ensures |history| < HISTORY_LIMIT ==> r == history + [password]
    ensures |history| >= HISTORY_LIMIT ==> r == history[1..] + [password]
  {
    var h := history + [password];
    if |h| > HISTORY_LIMIT then h[1..] else h
  }

  /** The entry `save` builds in `new_data`, with an empty history. */
  function NewEntry(email: string, password: string, today: int): Entry {
    Entry(email, password, Some(today), [])
  }

  /** `data` after `save`, as written: the history step, then `data.update(new_data)`. */
  function SavedData(data: map<string, Entry>, key: string, email: string, password: string, today: int): map<string, Entry> {
    var staged := if key in data then data[key := data[key].(history := AppendAndTrim(data[key].history, data[key].password))] else data;
    staged[key := NewEntry(email, password, today)]
  }

  /**
   * `data` after `save` as its comments describe it: the new entry keeps the
   * history the override step built.
   */
  function SavedDataKeepingHistory(data: map<string, Entry>, key: string, email: string, password: string,
                                   today: int): map<string, Entry>
  {
    var history := if key in data then AppendAndTrim(data[key].history, data[key].password) else [];
    data[key := Entry(email, password, Some(today), history)]
  }

  /**
   * As written, the override's history step has no effect: whatever the
   * earlier entry held, the stored history after `save` is empty.
   */
  lemma SaveDiscardsHistory(data: map<string, Entry>, key: string, email: string, password: string, today: int)
    ensures SavedData(data, key, email, password, today)[key].history == []
    ensures key in data ==> SavedData(data, key, email, password, today)[key].history
                              != SavedDataKeepingHistory(data, key, email, password, today)[key].history
  {
  }

  /**
   * With the history kept, an override records the replaced password as the
   * newest history element and the history stays within five entries.
   */
  lemma SaveKeepingHistoryBounds(data: map<string, Entry>, key: string, email: string, password: string, today: int)
    requires key in data && |data[key].history| <= HISTORY_LIMIT
    ensures var h := SavedDataKeepingHistory(data, key, email, password, today)[key].history;
      && 0 < |h| <= HISTORY_LIMIT && h[|h| - 1] == data[key].password
      && (|data[key].history| < HISTORY_LIMIT ==> h[..|h| - 1] == data[key].history)
  {
  }

  /** `save` (either version) stores the new entry under the key and leaves every other website's entry alone. */
  lemma SaveKeepsOthers(data: map<string, Entry>, key: string, email: string, password: string, today: int)
    ensures var d := SavedData(data, key, email, password, today);
      && d.Keys == data.Keys + {key}
      && d[key].email == email && d[key].password == password && d[key].creationDate == Some(today)
      && forall k :: k in data && k != key ==> d[k] == data[k]
    ensures var d := SavedDataKeepingHistory(data, key, email, password, today);
      && d.Keys == data.Keys + {key}
      && d[key].email == email && d[key].password == password && d[key].creationDate == Some(today)
      && forall k :: k in data && k != key ==> d[k] == data[k]
  {
  }

  // --------------------------------------------------------------- search

  datatype FindResult =
    | Found(website: string, email: string, password: string)
    | EnterWebsite
    | NotFound(website: string)
    | NoDataFile
    | InvalidJson

  /**
   * What `find_password` reports for a normalised key. A missing or invalid
   * file is reported before the key is looked at, and a key present in the
   * data is found before the empty-key message is considered.
   */
  function Lookup(file: FileState, key: string): (r: FindResult)
    ensures r.Found? <==> file.Present? && key in file.data
    ensures r.Found? ==> r == Found(key, file.data[key].email, file.data[key].password)
    ensures r == EnterWebsite <==> file.Present? && key !in file.data && key == ""
    ensures r == NoDataFile <==> file.Missing?
    ensures r == InvalidJson <==> file.Corrupt?
    ensures r.NotFound? <==> file.Present? && key !in file.data && key != ""
    ensures r.NotFound? ==> r.website == key
  {
    match file
    case Missing => NoDataFile
    case Corrupt => InvalidJson
    case Present(data) =>
      if key in data then Found(key, data[key].email, data[key].password)
      else if key == "" then EnterWebsite
      else NotFound(key)
  }

  /**
   * After a save of `website`, searching for the same text, or for the key it
   * was stored under, finds the saved e-mail and password.
   */
  lemma FindAfterSave(data: map<string, Entry>, website: string, email: string, password: string, today: int)
    ensures var file := Present(SavedData(data, Title(website), email, password, today));
      && Lookup(file, Title(website)) == Found(Title(website), email, password)
      && Lookup(file, Title(Title(website))) == Found(Title(website), email, password)
  {
    TitleIdempotent(website);
  }

  // --------------------------------------------------------------- expiry

  predicate IsExpired(e: Entry, today: int) {
    e.creationDate.Some? && e.creationDate.value + EXPIRY_DAYS <= today
  }

  /** The websites `check_password_expiration` warns about (the warnings' order is the file's). */
  function ExpiredWebsites(data: map<string, Entry>, today: int): set<string> {
    set w | w in data && IsExpired(data[w], today)
  }

  /** An entry saved on day `saved` is reported from day `saved + 90` on, and not before. */
  lemma SavedEntryExpiry(data: map<string, Entry>, key: string, email: string, password: string, saved: int, today: int)
    ensures key in ExpiredWebsites(SavedData(data, key, email, password, saved), today) <==> saved + 90 <= today
  {
  }

  /** Once expired, an entry stays expired on every later day. */
  lemma ExpiryIsMonotone(data: map<string, Entry>, today: int, later: int)
    requires today <= later
    ensures ExpiredWebsites(data, today) <= ExpiredWebsites(data, later)
  {
  }

  datatype ExpiryOutcome = Warned(websites: set<string>) | ExpiryCrashed

  // ------------------------------------------------------------- generator

  const LETTERS: string := ASCII_LOWERCASE + ASCII_UPPERCASE
  const NUMBERS: string := DIGITS
  const SYMBOLS: string := "!#$%&()*+"

  /**
   * The results of the random module: `counts(0..2)` for the three
   * `randint` calls, `letters(i)`, `symbols(i)`, `numbers(i)` for the i-th
   * `choice` from each list, `swaps(i)` for the index `shuffle` draws at
   * position i.
   */
  datatype Draws = Draws(counts: nat -> nat, letters: nat -> nat, symbols: nat -> nat,
                         numbers: nat -> nat, swaps: nat -> nat)

  /** `randint(lo, hi)` */
  function RandInt(lo: int, hi: int, draw: nat): (r: int)
    requires lo <= hi
    ensures lo <= r <= hi
  {
    lo + draw % (hi - lo + 1)
  }

  /** `[choice(chars) for _ in range(n)]` */
  function Picks(chars: string, n: nat, pick: nat -> nat): (r: string)
    requires |chars| > 0
    ensures |r| == n && forall i :: 0 <= i < n ==> r[i] in chars
  {
    seq(n, i requires 0 <= i < n => chars[pick(i) % |chars|])
  }

  /** The three lists `generate_password` concatenates before shuffling. */
  function Composition(d: Draws): (r: (string, string, string))
    ensures 8 <= |r.0| <= 10 && forall i :: 0 <= i < |r.0| ==> r.0[i] in LETTERS
    ensures 2 <= |r.1| <= 4 && forall i :: 0 <= i < |r.1| ==> r.1[i] in SYMBOLS
    ensures 2 <= |r.2| <= 4 && forall i :: 0 <= i < |r.2| ==> r.2[i] in NUMBERS
  {
    (Picks(LETTERS, RandInt(8, 10, d.counts(0)), d.letters),
     Picks(SYMBOLS, RandInt(2, 4, d.counts(1)), d.symbols),
     Picks(NUMBERS, RandInt(2, 4, d.counts(2)), d.numbers))
  }

  /**
   * Any arrangement of the composition meets at least three criteria (length,
   * a letter, a digit), so a generated password is never labelled "Weak".
   */
  lemma ArrangementAtLeastMedium(d: Draws, password: string)
    requires var c := Composition(d); multiset(password) == multiset(c.0 + c.1 + c.2)
    ensures CriteriaCount(password) >= 3
    ensures StrengthLabel(password).0 != "Weak"
  {
    var c := Composition(d);
    var all := c.0 + c.1 + c.2;
    assert |password| == |all|;
    assert all[0] == c.0[0];
    assert all[0] in multiset(password);
    LetterMembers(c.0[0]);
    assert HasLower(password) || HasUpper(password);
    var n := all[|c.0| + |c.1|];
    assert n == c.2[0];
    assert n in multiset(password);
    DigitMembers(n);
    assert HasDigit(password);
  }

  /** A character the "Medium" example draws: a lower-case letter, '+' or a digit. */
  predicate LowerPlusDigit(x: char) { IsLower(x) || x == '+' || IsDigit(x) }

  /** Eight characters or more, all lower-case letters, '+' or digits, with a letter and a digit: "Medium". */
  lemma MediumWithoutUpperOrSpecial(p: string)
    requires |p| >= 8 && HasLower(p) && HasDigit(p)
    requires forall x :: x in p ==> LowerPlusDigit(x)
    ensures StrengthLabel(p) == ("Medium", "orange")
  {
    assert !HasUpper(p);
    assert !HasSpecial(p) by {
      forall x | x in SPECIAL_CHARS ensures !LowerPlusDigit(x) {
      }
    }
  }

  /** Characters that all parts share a class with are shared by any rearrangement of the parts. */
  lemma RearrangedParts(p: string, a: string, b: string, c: string)
    requires multiset(p) == multiset(a + b + c)
    requires forall i :: 0 <= i < |a| ==> IsLower(a[i])
    requires forall i :: 0 <= i < |b| ==> b[i] == '+'
    requires forall i :: 0 <= i < |c| ==> IsDigit(c[i])
    ensures forall x :: x in p ==> LowerPlusDigit(x)
  {
    var all := a + b + c;
    forall x | x in p ensures LowerPlusDigit(x) {
      assert x in multiset(all);
      var i :| 0 <= i < |all| && all[i] == x;
      if i < |a| {
        assert x == a[i];
      } else if i < |a| + |b| {
        assert x == b[i - |a|];
      } else {
        assert x == c[i - |a| - |b|];
      }
    }
  }

  /**
   * The generator does not guarantee "Strong": when every letter drawn is
   * lower case and every symbol drawn is '+', which is not in the
   * special-character class, the password is rated "Medium".
   */
  lemma GeneratedMayBeMedium(d: Draws, password: string)
    requires forall j :: d.letters(j) % |LETTERS| < 26
    requires forall j :: d.symbols(j) % |SYMBOLS| == 8
    requires var c := Composition(d); multiset(password) == multiset(c.0 + c.1 + c.2)
    ensures StrengthLabel(password) == ("Medium", "orange")
  {
    var c := Composition(d);
    var all := c.0 + c.1 + c.2;
    LowerPlusDigitComposition(d);
    RearrangedParts(password, c.0, c.1, c.2);
    assert |password| == |all| by {
      assert |multiset(password)| == |multiset(all)|;
    }
    assert all[0] in multiset(password);
    assert all[|c.0| + |c.1|] in multiset(password);
    MediumWithoutUpperOrSpecial(password);
  }

  /** Under those draws the letters are lower case, the symbols '+' and the numbers digits. */
  lemma LowerPlusDigitComposition(d: Draws)
    requires forall j :: d.letters(j) % |LETTERS| < 26
    requires forall j :: d.symbols(j) % |SYMBOLS| == 8
    ensures var c := Composition(d);
      && (forall i :: 0 <= i < |c.0| ==> IsLower(c.0[i]))
      && (forall i :: 0 <= i < |c.1| ==> c.1[i] == '+')
      && (forall i :: 0 <= i < |c.2| ==> IsDigit(c.2[i]))
  {
    var c := Composition(d);
    LowerPicks(|c.0|, d.letters);
    PlusPicks(|c.1|, d.symbols);
    forall i | 0 <= i < |c.2| ensures IsDigit(c.2[i]) {
      DigitMembers(c.2[i]);
    }
  }

  /** Letters drawn from the first 26 places of LETTERS are lower case. */
  lemma LowerPicks(n: nat, pick: nat -> nat)
    requires forall j :: pick(j) % |LETTERS| < 26
    ensures forall i :: 0 <= i < n ==> IsLower(Picks(LETTERS, n, pick)[i])
  {
    forall i | 0 <= i < n ensures IsLower(Picks(LETTERS, n, pick)[i]) {
      var x := Picks(LETTERS, n, pick)[i];
      assert x == LETTERS[pick(i) % |LETTERS|] == ASCII_LOWERCASE[pick(i) % |LETTERS|];
      LowercaseMembers(x);
    }
  }

  /** Symbols drawn from place 8 of SYMBOLS are all '+'. */
  lemma PlusPicks(n: nat, pick: nat -> nat)
    requires forall j :: pick(j) % |SYMBOLS| == 8
    ensures forall i :: 0 <= i < n ==> Picks(SYMBOLS, n, pick)[i] == '+'
  {
    forall i | 0 <= i < n ensures Picks(SYMBOLS, n, pick)[i] == '+' {
      assert Picks(SYMBOLS, n, pick)[i] == SYMBOLS[8];
    }
  }

  /**
   * The letters, symbols and digits of `generate_password` joined into one
   * list and shuffled in place: 12-18 characters meeting at least three
   * criteria.
   */
  method ShuffledComposition(d: Draws) returns (password: string)
    ensures 12 <= |password| <= 18
    ensures var c := Composition(d); multiset(password) == multiset(c.0 + c.1 + c.2)
    ensures CriteriaCount(password) >= 3
  {
    var c := Composition(d);
    var list := c.0 + c.1 + c.2;
    var a := new char[|list|](i requires 0 <= i < |list| => list[i]);
    assert a[..] == list;
    Shuffle(a, d.swaps);
    password := a[..];
    assert |password| == |multiset(password)| == |list|;
    ArrangementAtLeastMedium(d, password);
  }

  /** `random.shuffle`: for i from the last index down to 1, swap position i with a drawn j <= i. */
  method Shuffle(a: array<char>, swaps: nat -> nat)
    modifies a
    ensures multiset(a[..]) == multiset(old(a[..]))
  {
    var i := a.Length - 1;
    while i > 0
      invariant i < a.Length
      invariant multiset(a[..]) == multiset(old(a[..]))
    {
      var j := swaps(i) % (i + 1);
      a[i], a[j] := a[j], a[i];
      i := i - 1;
    }
  }

  // ----------------------------------------------------------- the window

  const DEFAULT_EMAIL: string := "youremail@youremailprovider.com"

  datatype SaveOutcome = MissingFields | InvalidEmail | Crashed | Declined | Saved

  class LegacyApp {
    var websiteInput: string
    var emailInput: string
    var passwordInput: string
    /** Text and colour of the strength label. */
    var strength: (string, string)
    var clipboard: Option<string>
    var dataFile: FileState

    /** The window as it opens: empty website and password, the placeholder e-mail. */
    constructor(dataFile: FileState)
      ensures websiteInput == "" && passwordInput == "" && emailInput == DEFAULT_EMAIL
      ensures strength == ("Strength:", "#FFFFFF") && clipboard == None && this.dataFile == dataFile
    {
      websiteInput := "";
      emailInput := DEFAULT_EMAIL;
      passwordInput := "";
      strength := ("Strength:", "#FFFFFF");
      clipboard := None;
      this.dataFile := dataFile;
    }

    /**
     * `save`, as written. Empty fields and a rejected e-mail write nothing;
     * an invalid data.json raises out of the handler; a declined override
     * returns. Otherwise the entry is stored and the website and password
     * fields are cleared.
     */
    method Save(today: int, confirm: bool) returns (r: SaveOutcome)
      modifies this
      ensures r == MissingFields <==> Title(old(websiteInput)) == "" || old(passwordInput) == ""
      ensures r == InvalidEmail <==> Title(old(websiteInput)) != "" && old(passwordInput) != "" && !ValidEmail(old(emailInput))
      ensures r == Crashed <==> Title(old(websiteInput)) != "" && old(passwordInput) != "" && ValidEmail(old(emailInput))
                                && old(dataFile).Corrupt?
      ensures r == Declined <==> Title(old(websiteInput)) != "" && old(passwordInput) != "" && ValidEmail(old(emailInput))
                                 && old(dataFile).Present? && Title(old(websiteInput)) in old(dataFile).data && !confirm
      ensures r != Saved ==> dataFile == old(dataFile) && websiteInput == old(websiteInput) && passwordInput == old(passwordInput)
      ensures r == Saved ==>
        && dataFile == Present(SavedData(if old(dataFile).Present? then old(dataFile).data else map[],
                                         Title(old(websiteInput)), old(emailInput), old(passwordInput), today))
        && websiteInput == "" && passwordInput == ""
      ensures emailInput == old(emailInput) && strength == old(strength) && clipboard == old(clipboard)
    {
      var website := Title(websiteInput);
      var password := passwordInput;
      var email := emailInput;
      if website == "" || password == "" {
        return MissingFields;
      }
      if !ValidEmail(email) {
        return InvalidEmail;
      }
      var data: map<string, Entry>;
      match dataFile {
        case Missing => data := map[];
        case Corrupt => return Crashed;
        case Present(d) => data := d;
      }
      if website in data {
        if !confirm {
          return Declined;
        }
        var e := data[website];
        var history := e.history + [e.password];
        if |history| > HISTORY_LIMIT {
          history := history[1..];
        }
        data := data[website := e.(history := history)];
      }
      data := data[website := NewEntry(email, password, today)];
      dataFile := Present(data);
      websiteInput := "";
      passwordInput := "";
      r := Saved;
    }

    /** `find_password`: look the title-cased website up; a found password goes to the clipboard. */
    method FindPassword() returns (r: FindResult)
      modifies this`clipboard
      ensures r == Lookup(dataFile, Title(websiteInput))
      ensures clipboard == (if r.Found? then Some(r.password) else old(clipboard))
    {
      var website := Title(websiteInput);
      match dataFile {
        case Missing => r := NoDataFile;
        case Corrupt => r := InvalidJson;
        case Present(data) =>
          if website in data {
            clipboard := Some(data[website].password);
            r := Found(website, data[website].email, data[website].password);
          } else if website == "" {
            r := EnterWebsite;
          } else {
            r := NotFound(website);
          }
      }
    }

    /**
     * `check_password_expiration`: a missing file warns about nothing, an
     * invalid one raises, otherwise every entry with a creation date at least
     * 90 days back is warned about.
     */
    method CheckPasswordExpiration(today: int) returns (r: ExpiryOutcome)
      ensures dataFile.Missing? ==> r == Warned({})
      ensures dataFile.Corrupt? ==> r == ExpiryCrashed
      ensures dataFile.Present? ==> r == Warned(ExpiredWebsites(dataFile.data, today))
    {
      match dataFile {
        case Missing => r := Warned({});
        case Corrupt => r := ExpiryCrashed;
        case Present(data) =>
          var remaining := data.Keys;
          var warned: set<string> := {};
          while remaining != {}
            invariant remaining <= data.Keys
            invariant forall w :: w in warned <==> w in data && w !in remaining && IsExpired(data[w], today)
            decreases remaining
          {
            var w :| w in remaining;
            if IsExpired(data[w], today) {
              warned := warned + {w};
            }
            remaining := remaining - {w};
          }
          assert warned == ExpiredWebsites(data, today);
          r := Warned(warned);
      }
    }

    /**
     * `generate_password`: 8-10 letters, 2-4 symbols and 2-4 digits, shuffled;
     * the result replaces the password field, goes to the clipboard and is
     * rated.
     */
    method GeneratePassword(d: Draws) returns (password: string)
      modifies this
      ensures 12 <= |password| <= 18
      ensures var c := Composition(d); multiset(password) == multiset(c.0 + c.1 + c.2)
      ensures CriteriaCount(password) >= 3
      ensures passwordInput == password && clipboard == Some(password) && strength == StrengthLabel(password)
      ensures websiteInput == old(websiteInput) && emailInput == old(emailInput) && dataFile == old(dataFile)
    {
      password := ShuffledComposition(d);
      passwordInput := password;
      clipboard := Some(password);
      strength := StrengthLabel(password);
    }
  }
}
