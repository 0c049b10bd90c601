/**
 * utils/password_utils.py: the encrypted-blob framing `salt(16) || token`,
 * the choice of salt in key derivation, the five-point strength evaluation
 * and the random password of a given length.
 *
 * PBKDF2-HMAC-SHA256 (section 5.2 of RFC 8018) and Fernet are not modelled
 * internally: a `Crypto` value carries them as functions, and the properties
 * the framing relies on (a token decrypts under the key it was made with, a
 * different key is rejected) are stated as predicates on that value and
 * required by the lemmas that use them.
 */
module PasswordUtils {
  import opened Wrappers
  import opened Text

  newtype byte = b: int | 0 <= b < 256
  type Bytes = seq<byte>

  /** A Fernet key: the url-safe base64 text of the 32 derived bytes. */
  type Key = Bytes

  const SALT_LENGTH: nat := 16
  const PBKDF2_ITERATIONS: nat := 100000

  /**
   * The foreign primitives. `fernetEncrypt` takes the key, the plaintext and
   * the fresh material Fernet draws itself (IV and timestamp); `fernetDecrypt`
   * gives None where Fernet raises InvalidToken.
   */
  datatype Crypto = Crypto(
    pbkdf2: (string, Bytes, nat) -> Key,
    fernetEncrypt: (Key, Bytes, Bytes) -> Bytes,
    fernetDecrypt: (Key, Bytes) -> Option<Bytes>)

  /** A token decrypts, under the key it was made with, to its plaintext. */
  ghost predicate DecryptsOwnTokens(c: Crypto) {
    forall k, p, n :: c.fernetDecrypt(k, c.fernetEncrypt(k, p, n)) == Some(p)
  }

  /** A token made under one key is rejected under any other key. */
  ghost predicate RejectsForeignKeys(c: Crypto) {
    forall k1, k2, p, n :: k1 != k2 ==> c.fernetDecrypt(k2, c.fernetEncrypt(k1, p, n)) == None
  }

  /** The key PBKDF2 derives from the password and salt with 100,000 iterations. */
  function KeyFor(c: Crypto, password: string, salt: Bytes): Key {
    c.pbkdf2(password, salt, PBKDF2_ITERATIONS)
  }

  /**
   * `derive_key(master_password, salt)`: a falsy salt (None or empty bytes)
   * is replaced by `freshSalt`, the 16 bytes `os.urandom(16)` returns; the
   * key is derived from the salt that is returned.
   */
  function DeriveKey(c: Crypto, password: string, salt: Bytes, freshSalt: Bytes): (r: (Key, Bytes))
    requires |freshSalt| == SALT_LENGTH
    ensures salt != [] ==> r.1 == salt
    ensures salt == [] ==> r.1 == freshSalt
    ensures |r.1| > 0
    ensures r.0 == KeyFor(c, password, r.1)
  {
    var s := if salt == [] then freshSalt else salt;
    (KeyFor(c, password, s), s)
  }

  /** `encrypt_data`: a fresh salt, then the salt prepended to the Fernet token. */
  function EncryptData(c: Crypto, data: Bytes, password: string, freshSalt: Bytes, nonce: Bytes): (blob: Bytes)
    requires |freshSalt| == SALT_LENGTH
    ensures |blob| >= SALT_LENGTH && blob[..SALT_LENGTH] == freshSalt
    ensures blob[SALT_LENGTH..] == c.fernetEncrypt(KeyFor(c, password, freshSalt), data, nonce)
  {
    var (key, salt) := DeriveKey(c, password, [], freshSalt);
    salt + c.fernetEncrypt(key, data, nonce)
  }

  /** The salt is the first 16 bytes of a blob (fewer if the blob is shorter). */
  function SaltOf(blob: Bytes): (salt: Bytes)
    ensures blob == salt + TokenOf(blob)
    ensures |salt| == if |blob| < SALT_LENGTH then |blob| else SALT_LENGTH
  {
    if |blob| < SALT_LENGTH then blob else blob[..SALT_LENGTH]
  }

  /** The token is whatever follows the salt. */
  function TokenOf(blob: Bytes): Bytes {
    if |blob| < SALT_LENGTH then [] else blob[SALT_LENGTH..]
  }

  /**
   * `decrypt_data`: re-derive the key from the stored salt and decrypt the
   * token; a failure gives None. For an empty blob `derive_key` would draw
   * a fresh salt, but the token is then empty, which Fernet rejects whatever
   * the key, so the result is None directly.
   */
  function DecryptData(c: Crypto, blob: Bytes, password: string): Option<Bytes> {
    if blob == [] then None
    else c.fernetDecrypt(KeyFor(c, password, SaltOf(blob)), TokenOf(blob))
  }

  /** Framing: a blob splits back into the 16-byte salt and the token it was made from. */
  lemma {:induction false} SplitConcat(salt: Bytes, token: Bytes)
    requires |salt| == SALT_LENGTH
    ensures SaltOf(salt + token) == salt && TokenOf(salt + token) == token
  {
    assert (salt + token)[..SALT_LENGTH] == salt;
    assert (salt + token)[SALT_LENGTH..] == token;
  }

  /** Decrypting with the same password undoes encrypting. */
  lemma DecryptEncrypt(c: Crypto, data: Bytes, password: string, freshSalt: Bytes, nonce: Bytes)
    requires DecryptsOwnTokens(c)
    requires |freshSalt| == SALT_LENGTH
    ensures DecryptData(c, EncryptData(c, data, password, freshSalt, nonce), password) == Some(data)
  {
    var token := c.fernetEncrypt(KeyFor(c, password, freshSalt), data, nonce);
    SplitConcat(freshSalt, token);
  }

  /**
   * A password that derives a different key from the stored salt never
   * decrypts the blob: the result is None, not some other plaintext.
   */
  lemma WrongPasswordRejected(c: Crypto, data: Bytes, password: string, other: string, freshSalt: Bytes, nonce: Bytes)
    requires RejectsForeignKeys(c)
    requires |freshSalt| == SALT_LENGTH
    requires KeyFor(c, password, freshSalt) != KeyFor(c, other, freshSalt)
    ensures DecryptData(c, EncryptData(c, data, password, freshSalt, nonce), other) == None
  {
    var token := c.fernetEncrypt(KeyFor(c, password, freshSalt), data, nonce);
    SplitConcat(freshSalt, token);
  }

  // ---------------------------------------------------------------- strength

  const STRENGTH_LEVELS: seq<string> := ["Very Weak", "Weak", "Medium", "Strong", "Very Strong"]
  const STRENGTH_COLOURS: seq<string> := ["red", "orange", "yellow", "blue", "green"]

  function Indicator(b: bool): nat { if b then 1 else 0 }

  /** One point each for: length at least 8, an upper-case letter, a lower-case letter, a digit, a non-alphanumeric character. */
  function StrengthScore(password: string): (score: nat)
    ensures score <= 5
  {
    Indicator(|password| >= 8) + Indicator(HasUpper(password)) + Indicator(HasLower(password))
      + Indicator(HasDigit(password)) + Indicator(HasOther(password))
  }

  /** `evaluate_strength`: the label and colour at index min(score, 4). */
  function EvaluateStrength(password: string): (string, string) {
    var i := if StrengthScore(password) < 4 then StrengthScore(password) else 4;
    (STRENGTH_LEVELS[i], STRENGTH_COLOURS[i])
  }

  /** Scores 4 and 5 share the top label. */
  lemma VeryStrongIffScoreAtLeastFour(password: string)
    ensures EvaluateStrength(password) == ("Very Strong", "green") <==> StrengthScore(password) >= 4
  {
  }

  /**
   * Every character is upper, lower, digit or other, so a non-empty password
   * scores at least one point: "Very Weak" is reported for the empty password only.
   */
  lemma VeryWeakIffEmpty(password: string)
    ensures EvaluateStrength(password).0 == "Very Weak" <==> password == ""
  {
    if password != "" {
      NonEmptyHasSomeClass(password);
    }
  }

  /** The labels get stronger as the score grows. */
  lemma LevelsFollowScore(p: string, q: string)
    requires StrengthScore(p) <= StrengthScore(q)
    ensures LevelIndex(EvaluateStrength(p).0) <= LevelIndex(EvaluateStrength(q).0)
  {
  }

  /** Position of a label in the level list (5 for a label not in it). */
  function LevelIndex(level: string): nat {
    if level == "Very Weak" then 0 else if level == "Weak" then 1 else if level == "Medium" then 2
    else if level == "Strong" then 3 else if level == "Very Strong" then 4 else 5
  }

  // --------------------------------------------------------------- generator

  /** `string.ascii_letters + string.digits + string.punctuation` */
  const GENERATOR_CHARS: string := ASCII_LETTERS + DIGITS + PUNCTUATION

  /**
   * `generate_password(length)`: `length` characters, the i-th chosen by the
   * i-th draw of the random source (`secrets.choice`); a non-positive length
   * gives the empty string, as `range` does.
   */
  function GeneratePassword(length: int, draw: nat -> nat): (password: string)
    ensures |password| == if length < 0 then 0 else length
    ensures forall i :: 0 <= i < |password| ==> password[i] in GENERATOR_CHARS
  {
    var n := if length < 0 then 0 else length;
    seq(n, i requires 0 <= i < n => GENERATOR_CHARS[draw(i) % |GENERATOR_CHARS|])
  }

  /** A generated password holds only ASCII letters, digits and punctuation. */
  lemma GeneratedCharacters(length: int, draw: nat -> nat)
    ensures forall c :: c in GeneratePassword(length, draw) ==> IsAlnum(c) || IsPunctuation(c)
  {
    var p := GeneratePassword(length, draw);
    forall c | c in p ensures IsAlnum(c) || IsPunctuation(c) {
      assert c in GENERATOR_CHARS;
      LetterMembers(c);
      DigitMembers(c);
      PunctuationMembers(c);
      assert c in GENERATOR_CHARS <==> c in ASCII_LETTERS || c in DIGITS || c in PUNCTUATION;
    }
  }
}
