# AndroVault core, modelled in Dafny

AndroVault is a desktop password manager written in Python with tkinter. This project models its core logic and proves properties about it:

- **Start-up authentication.** A master password is chosen and confirmed on first run, or checked against its bcrypt hash on later runs. A two-factor check follows either way.
- **Two encrypted account stores.** `AccountManager` keeps a salt-prefixed Fernet blob. `AccountStore` keeps a Fernet token under a key derived with a salt kept in its own file.
- **Password helpers.** These are the blob framing, key derivation, a five-point strength rating and a random generator.
- **The legacy single-window script.** It keeps `data.json` with e-mail, password, creation date and history per website, and covers search, expiry warnings and its own generator and strength label.
- **Two widgets.** The generator panel builds a character set from four check boxes and reads its length with `int`. The strength bar scores out of 100.
- **The session machinery.** This is the application state machine, the inactivity lock, the debounced activity monitor and the settings store with default fallback.

There is one Dafny module per source file:

| file | module |
|---|---|
| `account_manager.dfy` | `AccountManagement` |
| `account_store.dfy` | `AccountStorage` |
| `password_utils.dfy` | `PasswordUtils` |
| `legacy_app.dfy` | `LegacyApp` |
| `strength_meter.dfy` | `StrengthMeter` |
| `password_generator.dfy` | `PasswordGenerator` |
| `authentication.dfy` | `Authentication` |
| `state_manager.dfy` | `StateManagement` |
| `session_manager.dfy` | `SessionManagement` |
| `activity_monitor.dfy` | `ActivityMonitoring` |
| `settings_manager.dfy` | `Settings` |

Shared helpers:
- `wrappers.dfy`: `Option`.
- `text.dfy`: the ASCII behaviour of `str.lower`, `str.title`, the `in` substring test, the `string` constants and the character classes.
- `seqs.dfy`: list filter, first match and `pop`.
- `storage.dfy`: the state of a file after a truncating write that succeeds, cannot open, or stops part-way.

How the outside world enters the model:
- Objects whose fields the Python code updates are Dafny classes with `modifies` clauses.
- Pure computations are functions with lemmas about them.
- The outside world is passed in as parameters:
  - randomness is a `nat -> nat` draw function, or an explicit fresh salt or id;
  - clock readings are integers (microseconds for `datetime.now()`, day numbers for dates);
  - dialog answers are a script;
  - the outcome of a file write is a value;
  - Fernet, PBKDF2, bcrypt and JSON are functions held in a value, and the properties the code relies on (a token decrypts under its own key, `json.loads` inverts `json.dumps`) are preconditions of the lemmas that use them.

What the code does not do:
- **A failed save is not rolled back.** Both stores keep the change in memory and rewrite the file in place, so a failed write can leave it truncated (`AccountManagement.TruncatedWriteLosesAccounts`).
- **The password history is neither bounded nor kept clear of the current password.** In `AccountStore` the history grows without limit and may hold the current password (`AccountStorage.HistoryMayHoldCurrentPassword`). `AccountManager` keeps no history or timestamps at all.
- **Locking discards nothing.** The inactivity lock only sets a flag; the master password and the open stores stay in memory (and, as written, the lock does not even reach the state manager; see Findings).

## Model

| member | source | states |
|---|---|---|
| `AccountManagement.UpsertCreates` | AndroVault/manager/account_manager.py:57-60 | a record without id is appended with the fresh id; length grows by one and every earlier record stays in place |
| `AccountManagement.UpsertReplaces` | AndroVault/manager/account_manager.py:61-71 | a record whose id is present replaces the first record with that id at the same index; an unknown id is appended |
| `AccountManagement.UpsertKeepsIdsUnique` | AndroVault/manager/account_manager.py:56-71 | with unique ids before and a fresh id not in use, ids stay unique after a save |
| `AccountManagement.UpsertThenFind` | AndroVault/manager/account_manager.py:56-71 | after a save, the first record with the stored id is the stored record |
| `AccountManagement.RemoveFirstRemovesId` | AndroVault/manager/account_manager.py:169-173 | with unique ids, deleting an id leaves no record with that id |
| `AccountManagement.EmptyTermKeepsAll` | AndroVault/manager/account_manager.py:26-34 | the case-insensitive filter with the empty term keeps every record, in order |
| `AccountManagement.ReloadAfterSave` | AndroVault/manager/account_manager.py:84-135 | loading the blob `_save_accounts` writes gives back the saved list |
| `AccountManagement.TruncatedWriteLosesAccounts` | AndroVault/manager/account_manager.py:94-128 | a write that truncates the file before any byte is written makes the next load return no accounts |
| `AccountManagement.AccountManager.constructor` | AndroVault/manager/account_manager.py:13-24 | the list is what `_load_accounts` yields for the file: [] for no file, an empty file, failed decryption, empty plaintext or unparsable JSON |
| `AccountManagement.AccountManager.GetAccounts` | AndroVault/manager/account_manager.py:26-34 | the empty term returns the list itself; otherwise the result is the filter of the list by the term: the records whose lower-cased website or username contains the lower-cased term, in list order, each as often as in the list |
| `AccountManagement.AccountManager.SaveAccountsFile` | AndroVault/manager/account_manager.py:112-135 | the file holds the encrypted list (or the write's partial outcome); True exactly on a complete write, after which a reload gives the list back |
| `AccountManagement.AccountManager.SaveAccount` | AndroVault/manager/account_manager.py:36-82 | missing website, username or password returns False and changes nothing; otherwise the list is the upsert, the file is rewritten and the result is that of the write |
| `AccountManagement.AccountManager.GetAccount` | AndroVault/manager/account_manager.py:137-148 | the first record with the id, or None when no record has it |
| `AccountManagement.AccountManager.DeleteAccount` | AndroVault/manager/account_manager.py:160-188 | an empty or unknown id returns False and changes nothing; otherwise the first record with the id is popped and the file rewritten |
| `AccountStorage.UpdateHistory` | data/account_store.py:85-97 | the history grows by exactly the old password and the time of the change iff the password changes, earlier entries keep their places, id and creation time are kept |
| `AccountStorage.HistoryMayHoldCurrentPassword` | data/account_store.py:88-96 | changing p1 to p2 and back leaves p1 both current and in the history |
| `AccountStorage.StoreSalt` | data/account_store.py:20-28 | the salt read from salt.key, or the fresh 16 bytes when the file is missing |
| `AccountStorage.ReopenLoadsSaved` | data/account_store.py:8-53 | once salt.key exists a second start derives the first start's key, whatever fresh bytes it draws, and loads back the list the first start saved |
| `AccountStorage.ReloadAfterSave` | data/account_store.py:40-67 | loading the token `save_accounts` writes gives back the list |
| `AccountStorage.AccountStore.constructor` | data/account_store.py:8-53 | the key is PBKDF2 of the master password with the stored or fresh salt, and salt.key holds that salt afterwards; the list is the decrypted file, or [] for no file, a rejected token or bad JSON |
| `AccountStorage.AccountStore.SaveAccounts` | data/account_store.py:55-67 | the file holds the token (or the write's partial outcome); True exactly on a complete write, after which a reload gives the list back |
| `AccountStorage.AccountStore.AddAccount` | data/account_store.py:69-81 | the new record, with fresh id, both times and an empty history, is appended; the file is then rewritten with the token of the whole list (or the write's partial outcome) and the result is that of the write |
| `AccountStorage.AccountStore.UpdateAccount` | data/account_store.py:83-99 | an unknown id returns False and changes nothing; otherwise only the first record with the id is replaced by its update, the file is rewritten with the token of the whole list (or the write's partial outcome) and the result is that of the write |
| `AccountStorage.AccountStore.GetAccounts` | data/account_store.py:106-116 | the empty term returns the list itself; otherwise the filter of the list by the term: the records matching it case-insensitively, in list order, each as often as in the list |
| `AccountStorage.AccountStore.GetAccount` | data/account_store.py:118-123 | the first record with the id, or None |
| `PasswordUtils.DeriveKey` | utils/password_utils.py:43-58 | a non-empty salt is kept, an empty one is replaced by the fresh 16 bytes; the key is derived from the returned salt |
| `PasswordUtils.EncryptData` | utils/password_utils.py:60-72 | the blob is the fresh salt followed by the Fernet token made under the key derived from it |
| `PasswordUtils.SaltOf` | utils/password_utils.py:77-78 | the blob is the salt followed by the token, and the salt is the first 16 bytes (fewer for a shorter blob) |
| `PasswordUtils.SplitConcat` | utils/password_utils.py:69-78 | a 16-byte salt and a token joined are split back into the same salt and token |
| `PasswordUtils.DecryptEncrypt` | utils/password_utils.py:60-87 | decrypting with the same password undoes encrypting |
| `PasswordUtils.WrongPasswordRejected` | utils/password_utils.py:74-87 | a password deriving a different key from the stored salt gets None, never other plaintext |
| `PasswordUtils.StrengthScore` | utils/password_utils.py:22-34 | the score counts at most five points |
| `PasswordUtils.VeryStrongIffScoreAtLeastFour` | utils/password_utils.py:36-38 | ("Very Strong", "green") exactly for a score of 4 or 5 |
| `PasswordUtils.VeryWeakIffEmpty` | utils/password_utils.py:22-38 | "Very Weak" is returned for the empty password only |
| `PasswordUtils.LevelsFollowScore` | utils/password_utils.py:36-38 | a higher score never gets a weaker label |
| `PasswordUtils.GeneratePassword` | utils/password_utils.py:13-17 | `length` characters (none for a negative length), each from letters, digits and punctuation |
| `PasswordUtils.GeneratedCharacters` | utils/password_utils.py:15-16 | every generated character is an ASCII letter, digit or punctuation character |
| `LegacyApp.CriteriaCount` | Password_Manager_Main_v2_commented.py:59-66 | at most five criteria are met |
| `LegacyApp.StrengthLabels` | Password_Manager_Main_v2_commented.py:68-73 | "Strong" iff all five criteria, "Medium" iff three or four, "Weak" iff fewer than three |
| `LegacyApp.CriteriaGrowWithInput` | Password_Manager_Main_v2_commented.py:59-66 | typing one more character never lowers the count |
| `LegacyApp.EmailExamples` | Password_Manager_Main_v2_commented.py:124-126 | "a@b.co" matches, also with a trailing newline that `$` lets through; "a@bc" does not |
| `LegacyApp.ValidEmailShape` | Password_Manager_Main_v2_commented.py:124-126 | every accepted address (without the one newline `$` allows) has exactly one `@`, not first, a `.` later in the domain part, and ends in a word character |
| `LegacyApp.NoAtRejected` | Password_Manager_Main_v2_commented.py:124-126 | text without an `@` is rejected |
| `LegacyApp.EmailBodyEndsInWordChar` | Password_Manager_Main_v2_commented.py:124-126 | a match of the pattern ends in a word character, so a text ending in a newline matches only through `$` |
| `LegacyApp.AppendAndTrim` | Password_Manager_Main_v2_commented.py:110-112 | the replaced password becomes the newest entry and the oldest is dropped beyond five, so a history of at most five stays within five |
| `LegacyApp.SaveDiscardsHistory` | Password_Manager_Main_v2_commented.py:87-114 | as written, the stored history after a save is always empty, unlike the history the override step built |
| `LegacyApp.SaveKeepingHistoryBounds` | Password_Manager_Main_v2_commented.py:110-112 | with the history kept, it ends with the replaced password, keeps the earlier entries and holds at most five |
| `LegacyApp.SaveKeepsOthers` | Password_Manager_Main_v2_commented.py:87-114 | a save stores e-mail, password and today's date under the key and leaves every other website's entry as it was |
| `LegacyApp.Lookup` | Password_Manager_Main_v2_commented.py:21-36 | found exactly when the file parses and holds the key; the empty-key message exactly for an absent empty key; "no information found for the key" exactly for an absent non-empty key; "no data file" exactly for a missing file and "invalid JSON" exactly for an unparsable one |
| `LegacyApp.FindAfterSave` | Password_Manager_Main_v2_commented.py:18-36 | after saving a website, searching the same text (or its title-cased key) finds the saved e-mail and password |
| `LegacyApp.SavedEntryExpiry` | Password_Manager_Main_v2_commented.py:143-146 | an entry saved on day d is reported as expired exactly from day d + 90 on |
| `LegacyApp.ExpiryIsMonotone` | Password_Manager_Main_v2_commented.py:145-146 | an expired entry stays expired on every later day |
| `LegacyApp.RandInt` | Password_Manager_Main_v2_commented.py:45-47 | `randint(lo, hi)` lies in [lo, hi] |
| `LegacyApp.Picks` | Password_Manager_Main_v2_commented.py:45-47 | n choices, each from the given list |
| `LegacyApp.Composition` | Password_Manager_Main_v2_commented.py:41-47 | 8-10 letters, 2-4 symbols and 2-4 digits, each from its own list |
| `LegacyApp.ArrangementAtLeastMedium` | Password_Manager_Main_v2_commented.py:39-73 | any arrangement of the composition meets length, letter and digit criteria, so it is never rated "Weak" |
| `LegacyApp.GeneratedMayBeMedium` | Password_Manager_Main_v2_commented.py:39-73 | with lower-case letters and '+' as the only symbol drawn ('+' is outside `[!@#$%^&*()]`), the generated password is rated ("Medium", "orange") |
| `LegacyApp.LowerPlusDigitComposition` | Password_Manager_Main_v2_commented.py:41-47 | under those draws the letters are all lower case, the symbols all '+' and the numbers all digits |
| `LegacyApp.LowerPicks` | Password_Manager_Main_v2_commented.py:45 | letters drawn from the lower-case half of the letter list are lower case |
| `LegacyApp.PlusPicks` | Password_Manager_Main_v2_commented.py:46 | symbols drawn at the place of '+' are all '+' |
| `LegacyApp.RearrangedParts` | Password_Manager_Main_v2_commented.py:49-50 | every character of a shuffle of such parts is a lower-case letter, '+' or a digit |
| `LegacyApp.MediumWithoutUpperOrSpecial` | Password_Manager_Main_v2_commented.py:59-73 | eight or more characters, only lower-case letters, '+' and digits, with a letter and a digit, are rated ("Medium", "orange") |
| `LegacyApp.Shuffle` | Password_Manager_Main_v2_commented.py:50 | the shuffle permutes the list in place |
| `LegacyApp.ShuffledComposition` | Password_Manager_Main_v2_commented.py:39-50 | the shuffled list of letters, symbols and digits has 12-18 characters, is a permutation of the composition and meets at least three criteria |
| `LegacyApp.LegacyApp.constructor` | Password_Manager_Main_v2_commented.py:174-189 | empty website and password fields, the placeholder e-mail, the initial strength label |
| `LegacyApp.LegacyApp.Save` | Password_Manager_Main_v2_commented.py:81-121 | each outcome (missing fields, invalid e-mail, invalid JSON, declined override, saved) happens exactly under its condition; only a save changes the file and clears the fields |
| `LegacyApp.LegacyApp.FindPassword` | Password_Manager_Main_v2_commented.py:18-36 | the report is the lookup of the title-cased website; the clipboard changes exactly when a password is found |
| `LegacyApp.LegacyApp.CheckPasswordExpiration` | Password_Manager_Main_v2_commented.py:138-149 | no file warns about nothing, invalid JSON raises, otherwise exactly the entries 90 or more days old are warned about |
| `LegacyApp.LegacyApp.GeneratePassword` | Password_Manager_Main_v2_commented.py:39-55 | 12-18 characters, a permutation of the composition, at least three criteria met; it fills the field and clipboard and sets the label |
| `StrengthMeter.ClassCount` | ui/password_strength.py:46-49 | at most four classes |
| `StrengthMeter.ScoreParts` | ui/password_strength.py:34-49 | the score is min(4·length, 40) plus 15 per class present, within 0..100, and 0 only for the empty password |
| `StrengthMeter.NonEmptyScoresAtLeast19` | ui/password_strength.py:42-49 | a non-empty password scores at least 19 |
| `StrengthMeter.FullBar` | ui/password_strength.py:42-49 | the bar is full iff at least ten characters and all four classes |
| `StrengthMeter.StrongNeedsVariety` | ui/password_strength.py:52-61 | "Very strong" needs three classes and "Strong" two |
| `StrengthMeter.ScoreGrowsWithInput` | ui/password_strength.py:42-49 | typing a character never lowers the score |
| `StrengthMeter.ColourOfLabels` | ui/password_strength.py:68-75 | the colour falls back to grey exactly for "No password" |
| `StrengthMeter.PasswordStrength.constructor` | ui/password_strength.py:13-25 | the bar starts at 0 with "No password" |
| `StrengthMeter.PasswordStrength.UpdateStrength` | ui/password_strength.py:32-75 | the bar, text and colour are the score, its description and the description's colour, with the bar within 0..100 |
| `PasswordGenerator.Charset` | ui/password_generator.py:82-93 | the character set is never empty |
| `PasswordGenerator.BuildCharset` | ui/password_generator.py:82-93 | the `+=` steps give the ticked class strings in order, or the fallback when none is ticked |
| `PasswordGenerator.CharsetMembers` | ui/password_generator.py:82-93 | a character is in the set iff its class is ticked, or, with no box ticked, iff it is a letter or digit |
| `PasswordGenerator.CharsetSize` | ui/password_generator.py:82-93 | 26, 26, 10 and 32 characters per ticked box, 62 with none |
| `PasswordGenerator.TrimStart` | ui/password_generator.py:96 | `int` skips leading white space: the result is empty or starts with a non-space |
| `PasswordGenerator.TrimStartDropsSpaces` | ui/password_generator.py:96 | what `TrimStart` removes is a prefix made only of white space, and the rest is kept as it is |
| `PasswordGenerator.TrimEnd` | ui/password_generator.py:96 | `int` skips trailing white space: the result is empty or ends with a non-space |
| `PasswordGenerator.TrimEndDropsSpaces` | ui/password_generator.py:96 | what `TrimEnd` removes is a suffix made only of white space, and the rest is kept as it is |
| `PasswordGenerator.DigitChar` | ui/password_generator.py:96 | a digit character with the given value |
| `PasswordGenerator.DecimalText` | ui/password_generator.py:96 | `str(n)` is a non-empty string of digits |
| `PasswordGenerator.DecimalValue` | ui/password_generator.py:96 | the digits of `str(n)` spell n |
| `PasswordGenerator.ParseDecimal` | ui/password_generator.py:96 | `int` reads back `str(n)` and `-str(n)`, also surrounded by white space |
| `PasswordGenerator.ParseDigits` | ui/password_generator.py:96 | `int` of a string of digits is the number they spell |
| `PasswordGenerator.ParseNegatedDigits` | ui/password_generator.py:96 | `int` of '-' and digits is minus the number they spell |
| `PasswordGenerator.ParsePaddedDigits` | ui/password_generator.py:96 | surrounding white space does not change what `int` reads |
| `PasswordGenerator.ParseInitialLength` | ui/password_generator.py:27 | the initial text "16" is read as 16 |
| `PasswordGenerator.ParseRejectsLetters` | ui/password_generator.py:96-116 | "16a" is rejected, which ends in the error handler |
| `PasswordGenerator.PasswordGenerator.constructor` | ui/password_generator.py:12-42 | length "16", every box ticked |
| `PasswordGenerator.PasswordGenerator.GeneratePassword` | ui/password_generator.py:78-116 | a length text `int` rejects gives no password and no delivery; otherwise max(n, 0) characters, the k-th picked by the k-th draw, delivered to the clipboard manager and callback when present |
| `PasswordGenerator.GeneratedFromCharset` | ui/password_generator.py:97 | every generated character is in the chosen set |
| `Authentication.NewMasterSound` | auth/authentication.py:10-40 | a chosen password is non-empty and was entered twice in some round, after rounds whose confirmation differed |
| `Authentication.FirstEntryCancelled` | auth/authentication.py:21-23 | a cancelled or empty entry ends the dialog with None |
| `Authentication.MismatchRetries` | auth/authentication.py:33-36 | a differing confirmation starts the next round |
| `Authentication.NewMasterPassword` | auth/authentication.py:10-40 | the loop returns what the round-by-round reading of the dialog script gives, and never an empty password |
| `Authentication.Authenticate` | auth/authentication.py:42-96 | the password is returned iff every gate on its path passes (setup or hash check, then two-factor); any failed gate gives None |
| `Authentication.GatesDetermineThePassword` | auth/authentication.py:42-96 | at most one password passes all gates: the one typed, never the hash |
| `Authentication.FailedGatesRejectAll` | auth/authentication.py:78-88 | a failing two-factor check, or a failing hash check on an existing install, rejects every password |
| `StateManagement.StateManager.constructor` | utils/state_manager.py:15-21 | INITIALIZING, nothing selected, not modified, no observers |
| `StateManagement.StateManager.RegisterObserver` | utils/state_manager.py:23-26 | an observer is appended only when not yet registered, so there are never duplicates |
| `StateManagement.StateManager.SetState` | utils/state_manager.py:34-51 | the new state, or ERROR when the window call or an observer raises; the flag updates happen only with a window |
| `StateManagement.StateManager.HandleStateChange` | utils/state_manager.py:53-71 | without a window nothing changes; READY clears, EDITING sets the modified flag, LOCKED clears the selection |
| `StateManagement.StateManager.SelectAccount` | utils/state_manager.py:73-79 | the id is stored; a non-empty id goes to EDITING, otherwise READY, and the window sets the dirty flag to match; a raising window call or observer leaves ERROR (and a raising window call leaves the flag unchanged) |
| `StateManagement.StateManager.MarkModified` | utils/state_manager.py:81-85 | the flag is set; only a change from clean moves to EDITING, or to ERROR when the window call or an observer raises |
| `StateManagement.StateManager.Reset` | utils/state_manager.py:91-96 | READY, nothing selected, clean; an observer's exception propagates |
| `SessionManagement.SessionManager.constructor` | utils/session_manager.py:7-13 | unlocked, last activity now |
| `SessionManagement.SessionManager.MonitorTick` | utils/session_manager.py:38-41 | afterwards locked iff it was locked or the idle time exceeds the timeout |
| `SessionManagement.SessionManager.MonitorTickIntended` | utils/session_manager.py:38-62 | the same lock decision, with the intended lock: a tick that locks moves the application to LOCKED (ERROR when the window call or an observer raises), any other tick changes no state |
| `SessionManagement.SessionManager.RecordActivity` | utils/session_manager.py:50-52 | the idle time is 0 afterwards |
| `SessionManagement.SessionManager.LockSession` | utils/session_manager.py:54-62 | as written: locked afterwards, and only the lock flag changes |
| `SessionManagement.SessionManager.LockSessionIntended` | utils/session_manager.py:54-62 | locked afterwards; a first lock moves the application to LOCKED (ERROR when the window call or an observer raises) and, with a window that did not raise, clears the selection; a repeated lock changes no state, selection or flag |
| `SessionManagement.SessionManager.UnlockSession` | utils/session_manager.py:64-81 | as written: False whatever the password, nothing changes |
| `SessionManagement.SessionManager.UnlockSessionIntended` | utils/session_manager.py:64-81 | True iff the password verifies; then unlocked, activity recorded and READY (ERROR when the window call or an observer raises), with the dirty flag cleared by a window that did not raise; otherwise nothing changes |
| `SessionManagement.SessionManager.TimeUntilLock` | utils/session_manager.py:87-91 | never negative; 0 iff the idle time has reached the timeout; otherwise idle time plus remainder is the timeout |
| `SessionManagement.SessionManager.ForceLock` | utils/session_manager.py:93-95 | locked afterwards |
| `SessionManagement.SessionManager.Reset` | utils/session_manager.py:97-100 | unlocked and last activity now |
| `SessionManagement.LockBoundary` | utils/session_manager.py:87-91 | at an idle time equal to the timeout nothing is left, yet a tick does not lock |
| `SessionManagement.LockLeavesStateAlone` | utils/session_manager.py:38-62 | as written, the tick after 301 idle seconds locks the session but leaves the application in its earlier state |
| `SessionManagement.IntendedLockReachesState` | utils/session_manager.py:38-62 | after the same 301 idle seconds, the tick with the intended lock leaves the session locked and the application LOCKED |
| `SessionManagement.UnlockNeverSucceeds` | utils/session_manager.py:64-81 | as written, the right password does not unlock a locked session |
| `SessionManagement.IntendedUnlockSucceeds` | utils/session_manager.py:69-74 | with the intended unlock the right password unlocks and the application is READY |
| `ActivityMonitoring.ActivityMonitor.constructor` | utils/activity_monitor.py:6-10 | last activity now |
| `ActivityMonitoring.ActivityMonitor.OnActivity` | utils/activity_monitor.py:31-42 | more than a second after the last recorded event, both clocks take `now`; otherwise nothing changes; afterwards the monitor is at most a second behind |
| `ActivityMonitoring.ActivityMonitor.OnWindowFocus` | utils/activity_monitor.py:44-48 | a focus event is debounced like any other event |
| `ActivityMonitoring.ActivityMonitor.Reset` | utils/activity_monitor.py:76-79 | both clocks take `now` unconditionally |
| `ActivityMonitoring.Burst` | utils/activity_monitor.py:37-39 | a second event within a second of the first is not passed on |
| `Settings.LookupPrefersCurrent` | data/settings_manager.py:59-62 | a stored value wins over the default |
| `Settings.LookupFallsBack` | data/settings_manager.py:59-64 | a missing category or key falls back to the default; a key in neither raises |
| `Settings.LookupAfterSet` | data/settings_manager.py:59-75 | after setting a key the lookup gives the new value and every other lookup is unchanged |
| `Settings.ReloadAnswersAsSaved` | data/settings_manager.py:32-57 | loading a saved table answers every lookup as the table did |
| `Settings.FailedSaveLoadsDefaults` | data/settings_manager.py:32-57 | a write that fails part-way makes the next load return the defaults |
| `Settings.LoadedCategories` | data/settings_manager.py:36-42 | loading keeps every default category and replaces exactly the stored ones, whole |
| `Settings.Category.constructor` | data/settings_manager.py:70 | a dictionary with the given entries |
| `Settings.Materialise` | data/settings_manager.py:9-29 | a new dictionary per category with its contents, none shared |
| `Settings.Overlay` | data/settings_manager.py:38-42 | every stored category is a new dictionary with the stored contents; every other category is the default's own dictionary; no two categories share one |
| `Settings.AfterEntryWrite` | data/settings_manager.py:71 | writing one dictionary changes a table only under the one name where that dictionary sits |
| `Settings.LoadSettings` | data/settings_manager.py:32-46 | the merged table; categories not in the file are the defaults' own dictionaries |
| `Settings.SettingsManager.constructor` | data/settings_manager.py:6-30 | defaults as listed, settings as loaded, with every category the file does not replace shared with the defaults |
| `Settings.SettingsManager.Intended` | data/settings_manager.py:6-46 | the same contents with no dictionary shared |
| `Settings.SettingsManager.SaveSettings` | data/settings_manager.py:48-57 | True exactly on a complete write; the file then holds the settings, and a write that fails part-way leaves it unreadable |
| `Settings.SettingsManager.EnsureCategory` | data/settings_manager.py:69-70 | a missing category is created empty, in a new dictionary; a present one, and whether it is shared, is kept |
| `Settings.SettingsManager.SetEntry` | data/settings_manager.py:71 | the key changes in the category, and in the default when they share a dictionary |
| `Settings.SettingsManager.UpdateSetting` | data/settings_manager.py:66-75 | the category (created if missing) gets the key; the default changes with it iff the dictionary is shared; independence is preserved; result of the save |
| `Settings.SettingsManager.ResetToDefault` | data/settings_manager.py:77-80 | as written: the settings are the defaults' own dictionaries, holding whatever earlier updates put in them |
| `Settings.SettingsManager.ResetToDefaultIntended` | data/settings_manager.py:77-80 | the defaults' contents, in dictionaries of their own |
| `Settings.ResetKeepsUpdatedTimeout` | data/settings_manager.py:66-80 | as written, setting the lock timeout to 60 and resetting keeps 60 |
| `Settings.IntendedResetRestoresTimeout` | data/settings_manager.py:66-80 | with copied categories the reset gives back 300 |
| `Storage.AfterWrite` | AndroVault/manager/account_manager.py:127-128 | a complete write leaves the data, a failed open the old file, a failed write a prefix of the data |
| `Seqs.Filter` | AndroVault/manager/account_manager.py:32-34 | the comprehension lists the elements at the kept positions, in that order |
| `Seqs.KeptPositionsIncrease` | AndroVault/manager/account_manager.py:32-34 | the kept positions strictly increase, so the filter keeps the order of the list and takes each position at most once |
| `Seqs.KeptPositionsExact` | AndroVault/manager/account_manager.py:32-34 | a position is kept exactly when its element passes the test |
| `Seqs.FilterIsSubsequence` | AndroVault/manager/account_manager.py:32-34 | the filter is the subsequence of the list at exactly the passing positions, so order and multiplicity are those of the list |
| `Seqs.FilterMembers` | data/account_store.py:112-116 | every element of the filter is in the list and passes; every passing element of the list is in the filter |
| `Seqs.FilterLength` | data/account_store.py:112-116 | the filter is never longer than the list |
| `Seqs.FilterAppend` | data/account_store.py:112-116 | filtering a concatenation filters each part in order |
| `Seqs.FilterKeepsAll` | AndroVault/manager/account_manager.py:32-34 | when every element passes the filter returns the list itself |
| `Seqs.FirstIndex` | AndroVault/manager/account_manager.py:64-69 | the first position where the test holds, or None when it holds nowhere |
| `Seqs.FirstIndexAt` | data/account_store.py:85-86 | a position where the test first holds is what the search finds |
| `Seqs.FirstIndexNone` | data/account_store.py:85-99 | no passing element means no position |
| `Seqs.RemoveAt` | AndroVault/manager/account_manager.py:173 | `pop(i)` removes exactly position i and shifts the rest |
| `Text.NonEmptyHasSomeClass` | utils/password_utils.py:27-34 | every character of a non-empty string is upper, lower, digit or other |
| `Text.UppercaseMembers` | ui/password_generator.py:84 | `string.ascii_uppercase` holds exactly A-Z |
| `Text.LowercaseMembers` | ui/password_generator.py:86 | `string.ascii_lowercase` holds exactly a-z |
| `Text.DigitMembers` | ui/password_generator.py:88 | `string.digits` holds exactly 0-9 |
| `Text.LetterMembers` | ui/password_generator.py:93 | `string.ascii_letters` holds exactly the letters |
| `Text.PunctuationMembers` | ui/password_generator.py:90 | `string.punctuation` holds exactly the 32 ASCII punctuation characters |
| `Text.Lower` | AndroVault/manager/account_manager.py:31-34 | `lower()` keeps the length and lower-cases each character |
| `Text.ContainsOccurrence` | AndroVault/manager/account_manager.py:33-34 | the `in` test holds iff the term occurs at some offset |
| `Text.EmptyOccursEverywhere` | data/account_store.py:114-115 | the empty string is in every string |
| `Text.MatchesTermIgnoresCase` | AndroVault/manager/account_manager.py:31-34 | lower-casing the term first changes no search result |
| `Text.TitleFrom` | Password_Manager_Main_v2_commented.py:19 | `title()` keeps the length |
| `Text.TitleFromIdempotent` | Password_Manager_Main_v2_commented.py:19 | title-casing twice is title-casing once, from any position |
| `Text.TitleIdempotent` | Password_Manager_Main_v2_commented.py:19 | a normalised website key normalises to itself |

## Left out

- Unicode: `lower`, `title`, `isupper`, `isalnum`, `\w` and `str.strip` are modelled on ASCII only; `int` accepts only ASCII digits and white space here.
- Fernet, PBKDF2-HMAC-SHA256, bcrypt, uuid4, `secrets`, `random`, `os.urandom` and JSON are foreign calls; they are parameters, and their properties are preconditions.
- The two-factor check (TOTP enrolment, QR code, dialogs) is one boolean per password.
- tkinter widgets, message boxes, logging, `os.makedirs` and the clipboard library are not modelled; the clipboard is a field or a list of copied texts.
- The session monitor's daemon thread, `time.sleep` and concurrency are left out; `MonitorTick` is one pass of its loop body, and its exception path (wait five seconds) is not modelled.
- `total_seconds()` returns a float; the model compares whole microseconds instead.
- Exceptions from foreign code (a failing `hash_password`, dialogs raising, JSON values of the wrong type) are modelled only where the source catches them to a result: `None`, `False` or `[]`.
- AccountStorage.AccountStore.constructor: the write of a fresh salt to salt.key is assumed to succeed; in the source a failing write raises out of the constructor, and that path is not modelled.
- LegacyApp.LegacyApp.Save: the final `json.dump` is assumed to succeed; a failed write and its truncated file are not modelled for data.json.
- LegacyApp.LegacyApp.CheckPasswordExpiration: the warnings are modelled as a set, without the file's key order, and a creation date that `strptime` rejects is not modelled.
- LegacyApp.Shuffle: the drawn index is an oracle, so the result is only claimed to be a permutation, not uniformly distributed.
- Authentication.NewMasterPassword: the dialog script is finite; an exhausted script answers Cancel, where the real dialog would wait for more input.
- StateManagement.StateManager.SetState: `notify_observers` skips observers without `on_state_change`; the model folds this into the fault parameter (an observer raises or none does).
- StateManagement.StateManager.IsDirty: returns the flag and carries no contract.
- Settings.SettingsManager.GetSetting: the model has no contract of its own; it is the `Lookup` function, whose properties are the `Lookup*` lemmas.
- Settings: a stored category that is not a JSON object, and a settings file whose top level is not an object, are not modelled separately; both count as unreadable.
- ActivityMonitoring: the blur handler and the clipboard check on focus call the clipboard manager only and are not modelled.
- The `AccountManager.get_password_history` stub (always `[]`) is not modelled.

## Findings

| source | as written | input that shows it | evidently intended | confidence | as-written member | corrected member |
|---|---|---|---|---|---|---|
| Password_Manager_Main_v2_commented.py:87-94, 110-114 | the override appends the old password to the history, then `data.update(new_data)` replaces the whole entry with one whose history is `[]` | save "Site" twice with different passwords: the stored history is `[]` | the new entry keeps the history built by the override step, at most five entries | high (not executed) | `LegacyApp.SaveDiscardsHistory` | `LegacyApp.SaveKeepingHistoryBounds` |
| utils/session_manager.py:67-81 | `unlock_session` imports `verify_master_password`, which auth/authentication.py does not define, so the ImportError is caught and False returned (line 67). With the import fixed, line 72 reads `state_manager.AppState`, which raises AttributeError after `is_locked` is cleared and `record_activity` has run: the session unlocks, but False is returned and the application state is unchanged | lock, then unlock with the right password: False, still locked | the password is verified and, if right, the session unlocks and the application returns to READY | high (not executed) | `SessionManagement.UnlockNeverSucceeds` | `SessionManagement.IntendedUnlockSucceeds` |
| utils/session_manager.py:59 | `self.state_manager.AppState.LOCKED`: `StateManager` has no attribute `AppState`, so the AttributeError is caught after `is_locked` is set and `set_state` is never called | 301 idle seconds with the default timeout of 300: the session is locked, the application state unchanged | the application state becomes LOCKED | high (not executed) | `SessionManagement.LockLeavesStateAlone` | `SessionManagement.IntendedLockReachesState` |
| data/settings_manager.py:39, 43, 71, 79 | `dict.copy()` is shallow: categories not replaced by the file are the defaults' own dictionaries, so `update_setting` changes the default too, and `reset_to_default` cannot restore it | no settings file; set `security.lock_timeout` to 60; reset; `get_setting` gives 60 | reset restores 300 (a deep copy in load and reset) | high (not executed) | `Settings.ResetKeepsUpdatedTimeout` | `Settings.IntendedResetRestoresTimeout` |
