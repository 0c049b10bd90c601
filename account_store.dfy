/**
 * data/account_store.py: the second record store. Accounts carry creation
 * and modification times and an unbounded password history; an update that
 * changes the password first appends the old password with the time of the
 * change. The file is one Fernet token under a key derived from the master
 * password and a salt kept in its own file.
 */
module AccountStorage {
  import opened Wrappers
  import opened Text
  import opened Seqs
  import opened PasswordUtils
  import opened Storage

  datatype HistoryEntry = HistoryEntry(password: string, timestamp: int)

  datatype StoredAccount = StoredAccount(
    id: string, website: string, username: string, password: string,
    createdAt: int, modifiedAt: int, passwordHistory: seq<HistoryEntry>)

  function HasId(id: string): StoredAccount -> bool {
    (a: StoredAccount) => a.id == id
  }

  function Matching(term: string): StoredAccount -> bool {
    (a: StoredAccount) => MatchesTerm(term, a.website, a.username)
  }

  /**
   * The record after `update_account` matched it. `changedAt` and `now` are
   * the two clock readings the update takes (history timestamp, then
   * `modified_at`).
   */
  function Updated(a: StoredAccount, website: string, username: string, password: string,
                   changedAt: int, now: int): StoredAccount
  {
    var history := if a.password != password
                   then a.passwordHistory + [HistoryEntry(a.password, changedAt)]
                   else a.passwordHistory;
    a.(website := website, username := username, password := password,
       modifiedAt := now, passwordHistory := history)
  }

  /**
   * The history grows by exactly one entry, the old password with the time of
   * the change, when the password changes, and is otherwise unchanged; older
   * entries keep their places. Nothing else than the edited fields changes.
   */
  lemma UpdateHistory(a: StoredAccount, website: string, username: string, password: string,
                      changedAt: int, now: int)
    ensures var b := Updated(a, website, username, password, changedAt, now);
      && b.id == a.id && b.createdAt == a.createdAt
      && b.website == website && b.username == username && b.password == password && b.modifiedAt == now
      && b.passwordHistory[..|a.passwordHistory|] == a.passwordHistory
      && (a.password != password <==> |b.passwordHistory| == |a.passwordHistory| + 1)
      && (a.password != password ==> b.passwordHistory[|a.passwordHistory|] == HistoryEntry(a.password, changedAt))
      && (a.password == password ==> b.passwordHistory == a.passwordHistory)
  {
    var b := Updated(a, website, username, password, changedAt, now);
    if a.password != password {
      assert b.passwordHistory[..|a.passwordHistory|] == a.passwordHistory;
    }
  }

  /**
   * The history is not kept free of the current password: changing p1 to p2
   * and back to p1 leaves p1 both current and in the history.
   */
  lemma HistoryMayHoldCurrentPassword()
    ensures var a := StoredAccount("id", "site", "user", "p1", 0, 0, []);
      var b := Updated(Updated(a, "site", "user", "p2", 1, 1), "site", "user", "p1", 2, 2);
      b.password == "p1" && b.passwordHistory == [HistoryEntry("p1", 1), HistoryEntry("p2", 2)]
  {
  }

  /**
   * The salt `_derive_key` uses: what salt.key holds, or the fresh 16 bytes
   * when the file is missing (the constructor then writes them there).
   */
  function StoreSalt(saltFile: Option<Bytes>, freshSalt: Bytes): (salt: Bytes)
    requires |freshSalt| == SALT_LENGTH
    ensures saltFile.Some? ==> salt == saltFile.value
    ensures saltFile.None? ==> salt == freshSalt && |salt| == SALT_LENGTH
  {
    saltFile.GetOr(freshSalt)
  }

  /** `_load_accounts`: no file, a token that does not decrypt, or text that does not parse all give []. */
  function LoadStoredAccounts(c: Crypto, key: Key, file: Option<Bytes>,
                              parse: Bytes -> Option<seq<StoredAccount>>): seq<StoredAccount>
  {
    match file
    case None => []
    case Some(token) =>
      match c.fernetDecrypt(key, token)
      case None => []
      case Some(plain) => parse(plain).GetOr([])
  }

  ghost predicate JsonRoundTrips(serialize: seq<StoredAccount> -> Bytes, parse: Bytes -> Option<seq<StoredAccount>>) {
    forall s :: parse(serialize(s)) == Some(s)
  }

  /** Loading what `save_accounts` wrote gives back the list. */
  lemma ReloadAfterSave(c: Crypto, key: Key, serialize: seq<StoredAccount> -> Bytes,
                        parse: Bytes -> Option<seq<StoredAccount>>, s: seq<StoredAccount>, nonce: Bytes)
    requires DecryptsOwnTokens(c) && JsonRoundTrips(serialize, parse)
    ensures LoadStoredAccounts(c, key, Some(c.fernetEncrypt(key, serialize(s), nonce)), parse) == s
  {
    assert c.fernetDecrypt(key, c.fernetEncrypt(key, serialize(s), nonce)) == Some(serialize(s));
  }

  /**
   * A store opened again after the first start (salt.key now exists) derives
   * the key of the first one, whatever fresh bytes it draws, and so loads
   * back the list the first one saved.
   */
  lemma ReopenLoadsSaved(c: Crypto, masterPassword: string, saltFile: Option<Bytes>, freshSalt: Bytes,
                         laterSalt: Bytes, serialize: seq<StoredAccount> -> Bytes,
                         parse: Bytes -> Option<seq<StoredAccount>>, s: seq<StoredAccount>, nonce: Bytes)
    requires |freshSalt| == SALT_LENGTH && |laterSalt| == SALT_LENGTH
    requires DecryptsOwnTokens(c) && JsonRoundTrips(serialize, parse)
    ensures var first := KeyFor(c, masterPassword, StoreSalt(saltFile, freshSalt));
      var second := KeyFor(c, masterPassword, StoreSalt(Some(StoreSalt(saltFile, freshSalt)), laterSalt));
      && second == first
      && LoadStoredAccounts(c, second, Some(c.fernetEncrypt(first, serialize(s), nonce)), parse) == s
  {
    ReloadAfterSave(c, KeyFor(c, masterPassword, StoreSalt(saltFile, freshSalt)), serialize, parse, s, nonce);
  }

  class AccountStore {
    const crypto: Crypto
    /** The Fernet key derived by `_derive_key`. */
    const key: Key
    const serialize: seq<StoredAccount> -> Bytes
    const parse: Bytes -> Option<seq<StoredAccount>>

    var accounts: seq<StoredAccount>
    /** The contents of accounts.dat; None while it does not exist. */
    var file: Option<Bytes>
    /** The contents of salt.key; None while it does not exist. */
    var saltFile: Option<Bytes>

    ghost predicate Sound() {
      DecryptsOwnTokens(crypto) && JsonRoundTrips(serialize, parse)
    }

    /** `AccountStore(master_password)` with salt.key holding `saltFile` (None: absent). */
    constructor(masterPassword: string, crypto: Crypto, saltFile: Option<Bytes>, freshSalt: Bytes,
                serialize: seq<StoredAccount> -> Bytes, parse: Bytes -> Option<seq<StoredAccount>>,
                file: Option<Bytes>)
      requires |freshSalt| == SALT_LENGTH
      ensures this.saltFile == Some(StoreSalt(saltFile, freshSalt))
      ensures this.crypto == crypto && this.serialize == serialize && this.parse == parse && this.file == file
      ensures key == KeyFor(crypto, masterPassword, StoreSalt(saltFile, freshSalt))
      ensures accounts == LoadStoredAccounts(crypto, key, file, parse)
    {
      this.crypto := crypto;
      this.key := KeyFor(crypto, masterPassword, StoreSalt(saltFile, freshSalt));
      this.serialize := serialize;
      this.parse := parse;
      this.file := file;
      this.saltFile := Some(StoreSalt(saltFile, freshSalt));
      accounts := LoadStoredAccounts(crypto, KeyFor(crypto, masterPassword, StoreSalt(saltFile, freshSalt)), file, parse);
    }

    /** `save_accounts`: write the token of the whole list; true only if the write completed. */
    method SaveAccounts(nonce: Bytes, outcome: WriteOutcome) returns (ok: bool)
      modifies this`file
      ensures file == AfterWrite(old(file), crypto.fernetEncrypt(key, serialize(accounts), nonce), outcome)
      ensures ok == outcome.Written?
      ensures ok && Sound() ==> LoadStoredAccounts(crypto, key, file, parse) == accounts
    {
      file := AfterWrite(file, crypto.fernetEncrypt(key, serialize(accounts), nonce), outcome);
      ok := outcome.Written?;
      if ok && Sound() {
        ReloadAfterSave(crypto, key, serialize, parse, accounts, nonce);
      }
    }

    /**
     * `add_account`: no validation; one record with the fresh id, the given
     * fields, the two clock readings and an empty history is appended.
     */
    method AddAccount(website: string, username: string, password: string, freshId: string,
                      createdAt: int, modifiedAt: int, nonce: Bytes, outcome: WriteOutcome) returns (ok: bool)
      modifies this
      ensures accounts == old(accounts) + [StoredAccount(freshId, website, username, password, createdAt, modifiedAt, [])]
      ensures file == AfterWrite(old(file), crypto.fernetEncrypt(key, serialize(accounts), nonce), outcome)
      ensures saltFile == old(saltFile)
      ensures ok == outcome.Written?
      ensures ok && Sound() ==> LoadStoredAccounts(crypto, key, file, parse) == accounts
    {
      accounts := accounts + [StoredAccount(freshId, website, username, password, createdAt, modifiedAt, [])];
      ok := SaveAccounts(nonce, outcome);
    }

    /**
     * `update_account`: the first record with the id is edited in place and
     * the result is that of the write; an unknown id gives False and changes
     * nothing.
     */
    method UpdateAccount(id: string, website: string, username: string, password: string,
                         changedAt: int, now: int, nonce: Bytes, outcome: WriteOutcome) returns (ok: bool)
      modifies this
      ensures saltFile == old(saltFile)
      ensures FirstIndex(old(accounts), HasId(id)).None? ==> !ok && accounts == old(accounts) && file == old(file)
      ensures FirstIndex(old(accounts), HasId(id)).Some? ==>
        var i := FirstIndex(old(accounts), HasId(id)).value;
        && accounts == old(accounts)[i := Updated(old(accounts)[i], website, username, password, changedAt, now)]
        && file == AfterWrite(old(file), crypto.fernetEncrypt(key, serialize(accounts), nonce), outcome)
        && ok == outcome.Written?
      ensures ok && Sound() ==> LoadStoredAccounts(crypto, key, file, parse) == accounts
    {
      var i := 0;
      while i < |accounts|
        invariant 0 <= i <= |accounts|
        invariant accounts == old(accounts) && file == old(file)
        invariant forall j :: 0 <= j < i ==> accounts[j].id != id
      {
        if accounts[i].id == id {
          FirstIndexAt(accounts, HasId(id), i);
          accounts := accounts[i := Updated(accounts[i], website, username, password, changedAt, now)];
          ok := SaveAccounts(nonce, outcome);
          return;
        }
        i := i + 1;
      }
      forall j | 0 <= j < |accounts| ensures !HasId(id)(accounts[j]) { }
      FirstIndexNone(accounts, HasId(id));
      ok := false;
    }

    /** `get_accounts(search_term)`; "" stands for both None and the empty term. */
    function GetAccounts(term: string): (r: seq<StoredAccount>)
      reads this
      ensures term == "" ==> r == accounts
      ensures forall i :: 0 <= i < |r| ==> r[i] in accounts && MatchesTerm(term, r[i].website, r[i].username)
      ensures forall i :: 0 <= i < |accounts| && MatchesTerm(term, accounts[i].website, accounts[i].username)
                ==> accounts[i] in r
      ensures term != "" ==> r == Filter(accounts, Matching(term))
    {
      if term == "" then accounts
      else
        FilterMembers(accounts, Matching(term));
        Filter(accounts, Matching(term))
    }

    /** `get_account(account_id)`: the first record with the id, or None. */
    method GetAccount(id: string) returns (r: Option<StoredAccount>)
      ensures r.Some? ==> r.value in accounts && r.value.id == id
      ensures r == (match FirstIndex(accounts, HasId(id))
                    case Some(i) => Some(accounts[i])
                    case None => None)
    {
      var i := 0;
      while i < |accounts|
        invariant 0 <= i <= |accounts|
        invariant forall j :: 0 <= j < i ==> accounts[j].id != id
      {
        if accounts[i].id == id {
          FirstIndexAt(accounts, HasId(id), i);
          return Some(accounts[i]);
        }
        i := i + 1;
      }
      forall j | 0 <= j < |accounts| ensures !HasId(id)(accounts[j]) { }
      FirstIndexNone(accounts, HasId(id));
      r := None;
    }
  }
}
