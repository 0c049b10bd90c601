/**
 * auth/authentication.py: the start-up authentication. On first run the user
 * chooses a master password (entered twice until both entries agree), its
 * bcrypt hash is written to master.hash; on later runs the entry is checked
 * against the stored hash. Either way a two-factor check follows, and only
 * then is the plaintext master password handed back.
 *
 * Dialogs are a script of answers (None for Cancel); bcrypt, the hash file
 * and the two-factor dialog are the functions and flags of `AuthEnv`.
 */
module Authentication {
  import opened Wrappers
  import opened PasswordUtils

  /** The answer to the k-th dialog; a script that has run out answers Cancel. */
  function Answer(answers: seq<Option<string>>, k: nat): Option<string> {
    if k < |answers| then answers[k] else None
  }

  /** `not password`: Cancel or an empty entry. */
  predicate Falsy(a: Option<string>) { a.None? || a.value == "" }

  /**
   * What `get_new_master_password` returns for a script whose dialogs
   * alternate entry, confirmation, entry, confirmation, ...
   */
  function NewMasterSpec(answers: seq<Option<string>>): Option<string>
    decreases |answers|
  {
    var entry := Answer(answers, 0);
    if Falsy(entry) then None
    else if Answer(answers, 1) == entry then entry
    else if |answers| < 2 then None
    else NewMasterSpec(answers[2..])
  }

  /** Round `k` (dialogs 2k and 2k+1) entered `p` twice. */
  predicate Confirmed(answers: seq<Option<string>>, k: nat, p: string) {
    2 * k + 1 < |answers| && answers[2 * k] == Some(p) && answers[2 * k + 1] == Some(p)
  }

  /** Round `k` entered something non-empty and a confirmation that differs. */
  predicate Mismatched(answers: seq<Option<string>>, k: nat) {
    2 * k < |answers| && !Falsy(answers[2 * k]) && Answer(answers, 2 * k + 1) != answers[2 * k]
  }

  /**
   * A chosen password is non-empty and was confirmed in some round, after
   * rounds whose confirmation did not match.
   */
  lemma {:induction false} NewMasterSound(answers: seq<Option<string>>)
    ensures NewMasterSpec(answers).Some? ==>
      var p := NewMasterSpec(answers).value;
      p != "" && exists k: nat :: Confirmed(answers, k, p) && forall j: nat :: j < k ==> Mismatched(answers, j)
    decreases |answers|
  {
    var r := NewMasterSpec(answers);
    if r.Some? {
      var p := r.value;
      var entry := Answer(answers, 0);
      if Answer(answers, 1) == entry {
        assert Confirmed(answers, 0, p);
      } else {
        var rest := answers[2..];
        NewMasterSound(rest);
        var k: nat :| Confirmed(rest, k, p) && forall j: nat :: j < k ==> Mismatched(rest, j);
        assert Confirmed(answers, k + 1, p) by {
          assert rest[2 * k] == answers[2 * (k + 1)] && rest[2 * k + 1] == answers[2 * (k + 1) + 1];
        }
        forall j: nat | j < k + 1 ensures Mismatched(answers, j) {
          if j > 0 {
            assert Mismatched(rest, j - 1);
            assert rest[2 * (j - 1)] == answers[2 * j];
            assert Answer(rest, 2 * (j - 1) + 1) == Answer(answers, 2 * j + 1);
          }
        }
      }
    }
  }

  /** A cancelled or empty first entry ends the dialog with None. */
  lemma FirstEntryCancelled(answers: seq<Option<string>>)
    requires Falsy(Answer(answers, 0))
    ensures NewMasterSpec(answers) == None
  {
  }

  /** A round whose confirmation differs (Cancel included) starts the next round. */
  lemma MismatchRetries(answers: seq<Option<string>>)
    requires Mismatched(answers, 0) && |answers| >= 2
    ensures NewMasterSpec(answers) == NewMasterSpec(answers[2..])
  {
  }

  /** `get_new_master_password`: ask for an entry and a confirmation until they agree. */
  method NewMasterPassword(answers: seq<Option<string>>) returns (r: Option<string>)
    ensures r == NewMasterSpec(answers)
    ensures r.Some? ==> r.value != ""
  {
    var k := 0;
    while true
      invariant 0 <= k && (k <= |answers| || k == |answers| + 1)
      invariant NewMasterSpec(answers[if k <= |answers| then k else |answers|..]) == NewMasterSpec(answers)
      invariant k % 2 == 0
      decreases |answers| + 2 - k
    {
      var rest := answers[if k <= |answers| then k else |answers|..];
      var password := Answer(answers, k);
      assert password == Answer(rest, 0);
      if Falsy(password) {
        return None;
      }
      var confirm := Answer(answers, k + 1);
      assert confirm == Answer(rest, 1);
      if confirm == password {
        return password;
      }
      if k + 2 > |answers| {
        assert |rest| < 2;
        return None;
      }
      assert rest[2..] == answers[k + 2..];
      k := k + 2;
    }
  }

  /**
   * The world `authenticate` meets: whether master.hash exists, the answers
   * to the set-up dialogs, `hash_password`, whether writing the hash
   * succeeds, what `load_master_password` reads, the answer to the log-in
   * dialog, `bcrypt.checkpw`, and the outcome of `verify_2fa` per password.
   */
  datatype AuthEnv = AuthEnv(
    hashFileExists: bool,
    setupAnswers: seq<Option<string>>,
    hashOf: string -> Option<Bytes>,
    saveHashOk: bool,
    storedHash: Option<Bytes>,
    loginAnswer: Option<string>,
    checkpw: (string, Bytes) -> bool,
    twoFactorOk: string -> bool)

  /** `not password_hash` / `not stored_hash`: no bytes, or empty bytes. */
  predicate NoHash(h: Option<Bytes>) { h.None? || h.value == [] }

  /** Every gate on the path through `authenticate` passes for master password `pw`. */
  predicate AllGatesPass(env: AuthEnv, pw: string) {
    && pw != ""
    && (if !env.hashFileExists
        then NewMasterSpec(env.setupAnswers) == Some(pw) && !NoHash(env.hashOf(pw)) && env.saveHashOk
        else !NoHash(env.storedHash) && env.loginAnswer == Some(pw) && env.checkpw(pw, env.storedHash.value))
    && env.twoFactorOk(pw)
  }

  /**
   * `authenticate`: the master password is returned exactly when every gate
   * passes; any failed gate gives None.
   */
  method Authenticate(env: AuthEnv) returns (r: Option<string>)
    ensures r.Some? ==> AllGatesPass(env, r.value)
    ensures forall pw :: AllGatesPass(env, pw) ==> r == Some(pw)
  {
    var masterPassword: string;
    if !env.hashFileExists {
      var chosen := NewMasterPassword(env.setupAnswers);
      if chosen.None? || chosen.value == "" {
        return None;
      }
      masterPassword := chosen.value;
      var hash := env.hashOf(masterPassword);
      if NoHash(hash) || !env.saveHashOk {
        return None;
      }
    } else {
      var stored := env.storedHash;
      if NoHash(stored) {
        return None;
      }
      var entered := env.loginAnswer;
      if entered.None? || entered.value == "" {
        return None;
      }
      masterPassword := entered.value;
      if !env.checkpw(masterPassword, stored.value) {
        return None;
      }
    }
    if !env.twoFactorOk(masterPassword) {
      return None;
    }
    return Some(masterPassword);
  }

  /** The gates single out one password: what is returned is the one typed, never the hash. */
  lemma GatesDetermineThePassword(env: AuthEnv, p: string, q: string)
    requires AllGatesPass(env, p) && AllGatesPass(env, q)
    ensures p == q
  {
  }

  /** A failing two-factor check, or a failing password check on an existing install, shuts every password out. */
  lemma FailedGatesRejectAll(env: AuthEnv)
    ensures (forall pw :: !env.twoFactorOk(pw)) ==> forall pw :: !AllGatesPass(env, pw)
    ensures (&& env.hashFileExists && env.loginAnswer.Some? && !NoHash(env.storedHash)
             && !env.checkpw(env.loginAnswer.value, env.storedHash.value))
            ==> forall pw :: !AllGatesPass(env, pw)
  {
  }
}
