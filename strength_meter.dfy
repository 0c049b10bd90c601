/**
 * ui/password_strength.py: the strength bar under the password field. A
 * score out of 100 (up to 40 for length, 15 for each character class
 * present) sets the bar, a five-step description sets the label, and the
 * description picks the bar's colour.
 */
module StrengthMeter {
  import opened Text

  const BAR_MAXIMUM: int := 100
  const NO_PASSWORD: string := "No password"

  function Bonus(present: bool): nat { if present then 15 else 0 }

  /** The number of the four classes `[A-Z]`, `[a-z]`, `[0-9]`, `[^A-Za-z0-9]` present. */
  function ClassCount(password: string): (n: nat)
    ensures n <= 4
  {
    (if HasUpper(password) then 1 else 0) + (if HasLower(password) then 1 else 0)
      + (if HasDigit(password) then 1 else 0) + (if HasOther(password) then 1 else 0)
  }

  /** The bar value `update_strength` computes. */
  function Score(password: string): (score: nat) {
    if password == "" then 0
    else
      var lengthScore := if |password| * 4 < 40 then |password| * 4 else 40;
      lengthScore + Bonus(HasUpper(password)) + Bonus(HasLower(password))
        + Bonus(HasDigit(password)) + Bonus(HasOther(password))
  }

  /** The label text for a password. */
  function Describe(password: string): string {
    if password == "" then NO_PASSWORD
    else
      var s := Score(password);
      if s < 20 then "Very weak"
      else if s < 40 then "Weak"
      else if s < 60 then "Moderate"
      else if s < 80 then "Strong"
      else "Very strong"
  }

  /** `colors.get(text, "grey")` */
  function Colour(text: string): string {
    if text == "Very weak" then "red"
    else if text == "Weak" then "orange"
    else if text == "Moderate" then "yellow"
    else if text == "Strong" then "light green"
    else if text == "Very strong" then "green"
    else "grey"
  }

  /**
   * The score is the length part plus 15 per class present; it never leaves
   * the bar's range 0..100, and it is 0 only for the empty password.
   */
  lemma ScoreParts(password: string)
    ensures password != "" ==>
      Score(password) == (if |password| < 10 then 4 * |password| else 40) + 15 * ClassCount(password)
    ensures 0 <= Score(password) <= BAR_MAXIMUM
    ensures Score(password) == 0 <==> password == ""
  {
  }

  /** A non-empty password holds some class, so it scores at least 19. */
  lemma NonEmptyScoresAtLeast19(password: string)
    requires password != ""
    ensures Score(password) >= 19
  {
    NonEmptyHasSomeClass(password);
  }

  /** The bar is full exactly for ten or more characters with all four classes. */
  lemma FullBar(password: string)
    ensures Score(password) == BAR_MAXIMUM <==> |password| >= 10 && ClassCount(password) == 4
  {
  }

  /** Length alone gives at most 40 + 15: "Very strong" needs three classes, "Strong" at least two. */
  lemma StrongNeedsVariety(password: string)
    ensures Describe(password) == "Very strong" ==> ClassCount(password) >= 3
    ensures Describe(password) == "Strong" ==> ClassCount(password) >= 2
  {
    if password != "" {
      ScoreParts(password);
    }
  }

  /** Typing one more character never lowers the score. */
  lemma ScoreGrowsWithInput(password: string, c: char)
    ensures Score(password + [c]) >= Score(password)
  {
    var q := password + [c];
    forall x | x in password ensures x in q {
      var i :| 0 <= i < |password| && password[i] == x;
      assert q[i] == x;
    }
  }

  /** Every label has its own colour; only "No password" falls back to grey. */
  lemma ColourOfLabels(password: string)
    ensures Colour(Describe(password)) == "grey" <==> password == ""
  {
  }

  class PasswordStrength {
    /** `strength_var`, the progress bar's value. */
    var strength: int
    /** `label_var` */
    var description: string
    /** The progress bar's colour. */
    var colour: string

    constructor()
      ensures strength == 0 && description == NO_PASSWORD
    {
      strength := 0;
      description := NO_PASSWORD;
      colour := "";
    }

    /**
     * `update_strength(password)`, which adds up the score field by field
     * and then picks the label; the ensures ties that running total to
     * `Score` and `Describe`, whose properties the lemmas above state.
     */
    method UpdateStrength(password: string)
      modifies this
      ensures strength == Score(password) && 0 <= strength <= BAR_MAXIMUM
      ensures description == Describe(password)
      ensures colour == Colour(description)
    {
      var s: int;
      var text: string;
      if password == "" {
        s := 0;
        text := NO_PASSWORD;
      } else {
        s := 0;
        var lengthScore := if |password| * 4 < 40 then |password| * 4 else 40;
        s := s + lengthScore;
        if HasUpper(password) { s := s + 15; }
        if HasLower(password) { s := s + 15; }
        if HasDigit(password) { s := s + 15; }
        if HasOther(password) { s := s + 15; }
        if s < 20 {
          text := "Very weak";
        } else if s < 40 {
          text := "Weak";
        } else if s < 60 {
          text := "Moderate";
        } else if s < 80 {
          text := "Strong";
        } else {
          text := "Very strong";
        }
      }
      ScoreParts(password);
      strength := s;
      description := text;
      colour := Colour(text);
    }
  }
}
