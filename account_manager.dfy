/**
 * AndroVault/manager/account_manager.py: the account list the application
 * works on. Records are validated, then created (fresh id, appended) or
 * replaced in place (first record with the same id); deletion pops the
 * first record with the id; search is a case-insensitive substring filter.
 * Every change rewrites the whole encrypted file; a failed write does not
 * undo the change in memory.
 */
module AccountManagement {
  import opened Wrappers
  import opened Text
  import opened Seqs
  import opened PasswordUtils
  import opened Storage

  /**
   * One account dict. A key that is absent reads as "" (`get` gives None or
   * the empty string, and the code treats both as falsy); `id` "" is an
   * account not yet saved.
   */
  datatype Account = Account(id: string, website: string, username: string, password: string, notes: string)

  /** `all(account_data.get(field) for field in ['website', 'username', 'password'])` */
  predicate HasRequiredFields(a: Account) {
    a.website != "" && a.username != "" && a.password != ""
  }

  function HasId(id: string): Account -> bool {
    (a: Account) => a.id == id
  }

  function Matching(term: string): Account -> bool {
    (a: Account) => MatchesTerm(term, a.website, a.username)
  }

  ghost predicate UniqueIds(s: seq<Account>) {
    forall i, j :: 0 <= i < j < |s| ==> s[i].id != s[j].id
  }

  /** The list after a successful validation in `save_account`. */
  function Upsert(s: seq<Account>, data: Account, freshId: string): seq<Account> {
    if data.id == "" then s + [data.(id := freshId)]
    else match FirstIndex(s, HasId(data.id))
      case Some(i) => s[i := data]
      case None => s + [data]
  }

  /** The list after `delete_account(id)` found `id`, or the list itself. */
  function RemoveFirst(s: seq<Account>, id: string): seq<Account> {
    match FirstIndex(s, HasId(id))
    case Some(i) => RemoveAt(s, i)
    case None => s
  }

  /** A record without id gets the fresh id and goes to the end; nothing before it moves. */
  lemma UpsertCreates(s: seq<Account>, data: Account, freshId: string)
    requires data.id == ""
    ensures |Upsert(s, data, freshId)| == |s| + 1
    ensures Upsert(s, data, freshId)[..|s|] == s
    ensures Upsert(s, data, freshId)[|s|] == data.(id := freshId)
  {
    assert (s + [data.(id := freshId)])[..|s|] == s;
  }

  /**
   * A record whose id is present replaces the first record with that id, at
   * the same position; a record whose id is absent is appended.
   */
  lemma UpsertReplaces(s: seq<Account>, data: Account, freshId: string)
    requires data.id != ""
    ensures (exists i :: 0 <= i < |s| && s[i].id == data.id) ==>
      |Upsert(s, data, freshId)| == |s| &&
      exists i :: 0 <= i < |s| && s[i].id == data.id && Upsert(s, data, freshId) == s[i := data] &&
        forall j :: 0 <= j < i ==> s[j].id != data.id
    ensures (forall i :: 0 <= i < |s| ==> s[i].id != data.id) ==> Upsert(s, data, freshId) == s + [data]
  {
    match FirstIndex(s, HasId(data.id))
    case Some(i) =>
      assert HasId(data.id)(s[i]);
    case None =>
      forall i | 0 <= i < |s| ensures s[i].id != data.id {
        assert !HasId(data.id)(s[i]);
      }
  }

  /** Saving with a fresh id keeps ids unique. */
  lemma UpsertKeepsIdsUnique(s: seq<Account>, data: Account, freshId: string)
    requires UniqueIds(s)
    requires data.id == "" ==> forall i :: 0 <= i < |s| ==> s[i].id != freshId
    ensures UniqueIds(Upsert(s, data, freshId))
  {
    var r := Upsert(s, data, freshId);
    if data.id != "" {
      match FirstIndex(s, HasId(data.id))
      case Some(k) =>
        assert HasId(data.id)(s[k]);
        forall i, j | 0 <= i < j < |r| ensures r[i].id != r[j].id {
          if i != k && j != k {
            assert r[i] == s[i] && r[j] == s[j];
          }
        }
      case None =>
        forall i | 0 <= i < |s| ensures s[i].id != data.id {
          assert !HasId(data.id)(s[i]);
        }
    }
  }

  /** After a save, looking the stored id up finds the stored record. */
  lemma UpsertThenFind(s: seq<Account>, data: Account, freshId: string)
    requires freshId != ""
    requires data.id == "" ==> forall i :: 0 <= i < |s| ==> s[i].id != freshId
    ensures var stored := if data.id == "" then data.(id := freshId) else data;
      var r := Upsert(s, data, freshId);
      match FirstIndex(r, HasId(stored.id))
      case Some(i) => r[i] == stored
      case None => false
  {
    var r := Upsert(s, data, freshId);
    if data.id == "" {
      FirstIndexAt(r, HasId(freshId), |s|);
    } else {
      match FirstIndex(s, HasId(data.id))
      case Some(k) =>
        FirstIndexAt(r, HasId(data.id), k);
      case None =>
        FirstIndexAt(r, HasId(data.id), |s|);
    }
  }

  /** With unique ids, deleting an id leaves no record with that id. */
  lemma RemoveFirstRemovesId(s: seq<Account>, id: string)
    requires UniqueIds(s)
    ensures forall i :: 0 <= i < |RemoveFirst(s, id)| ==> RemoveFirst(s, id)[i].id != id
  {
    match FirstIndex(s, HasId(id))
    case Some(k) =>
      assert HasId(id)(s[k]);
      var r := RemoveAt(s, k);
      forall i | 0 <= i < |r| ensures r[i].id != id {
        if i < k { assert r[i] == s[i]; } else { assert r[i] == s[i + 1]; }
      }
    case None =>
      forall i | 0 <= i < |s| ensures s[i].id != id {
        assert !HasId(id)(s[i]);
      }
  }

  /** An empty term matches every record, so the early return agrees with the comprehension. */
  lemma EmptyTermKeepsAll(s: seq<Account>)
    ensures Filter(s, Matching("")) == s
  {
    forall i | 0 <= i < |s| ensures Matching("")(s[i]) {
      assert Lower("") == "";
      EmptyOccursEverywhere(Lower(s[i].website));
    }
    FilterKeepsAll(s, Matching(""));
  }

  // ---------------------------------------------------------------- persistence

  /** `json.loads` inverts `json.dumps` on account lists, whose text is never empty. */
  ghost predicate JsonRoundTrips(serialize: seq<Account> -> Bytes, parse: Bytes -> Option<seq<Account>>) {
    forall s :: parse(serialize(s)) == Some(s) && serialize(s) != []
  }

  /**
   * `_load_accounts`: no file, an empty file, a decryption that fails or
   * gives empty data, and unparsable text all give the empty list.
   */
  function LoadAccounts(c: Crypto, file: Option<Bytes>, masterPassword: string,
                        parse: Bytes -> Option<seq<Account>>): seq<Account>
  {
    match file
    case None => []
    case Some(blob) =>
      if blob == [] then []
      else match DecryptData(c, blob, masterPassword)
        case None => []
        case Some(plain) =>
          if plain == [] then [] else parse(plain).GetOr([])
  }

  /** What `_save_accounts` writes: the encrypted JSON text of the list. */
  function AccountsBlob(c: Crypto, serialize: seq<Account> -> Bytes, s: seq<Account>,
                        masterPassword: string, salt: Bytes, nonce: Bytes): Bytes
    requires |salt| == SALT_LENGTH
  {
    EncryptData(c, serialize(s), masterPassword, salt, nonce)
  }

  /** Loading what was saved gives back the saved list. */
  lemma ReloadAfterSave(c: Crypto, serialize: seq<Account> -> Bytes, parse: Bytes -> Option<seq<Account>>,
                        s: seq<Account>, masterPassword: string, salt: Bytes, nonce: Bytes)
    requires DecryptsOwnTokens(c) && JsonRoundTrips(serialize, parse)
    requires |salt| == SALT_LENGTH
    ensures LoadAccounts(c, Some(AccountsBlob(c, serialize, s, masterPassword, salt, nonce)), masterPassword, parse) == s
  {
    DecryptEncrypt(c, serialize(s), masterPassword, salt, nonce);
    assert parse(serialize(s)) == Some(s) && serialize(s) != [];
  }

  /**
   * A write that fails before any byte of the new blob reaches the file
   * leaves it empty, and the next start-up then loads no accounts at all.
   */
  lemma TruncatedWriteLosesAccounts(c: Crypto, file: Option<Bytes>, blob: Bytes, masterPassword: string,
                                    parse: Bytes -> Option<seq<Account>>)
    ensures LoadAccounts(c, AfterWrite(file, blob, WriteFailed(0)), masterPassword, parse) == []
  {
  }

  class AccountManager {
    const masterPassword: string
    const crypto: Crypto
    /** `json.dumps(accounts).encode()` */
    const serialize: seq<Account> -> Bytes
    /** `json.loads(data.decode('utf-8'))`; None where it raises */
    const parse: Bytes -> Option<seq<Account>>

    /** `self.accounts` */
    var accounts: seq<Account>
    /** The contents of data/accounts.enc; None while it does not exist. */
    var file: Option<Bytes>

    /** The assumptions under which the file round-trips. */
    ghost predicate Sound() {
      DecryptsOwnTokens(crypto) && JsonRoundTrips(serialize, parse)
    }

    constructor(masterPassword: string, crypto: Crypto, serialize: seq<Account> -> Bytes,
                parse: Bytes -> Option<seq<Account>>, file: Option<Bytes>)
      ensures this.masterPassword == masterPassword && this.crypto == crypto
      ensures this.serialize == serialize && this.parse == parse && this.file == file
      ensures accounts == LoadAccounts(crypto, file, masterPassword, parse)
    {
      this.masterPassword := masterPassword;
      this.crypto := crypto;
      this.serialize := serialize;
      this.parse := parse;
      this.file := file;
      accounts := LoadAccounts(crypto, file, masterPassword, parse);
    }

    /** `get_accounts(search_term)`; "" stands for both None and the empty term. */
    function GetAccounts(term: string): (r: seq<Account>)
      reads this
      ensures term == "" ==> r == accounts
      ensures forall i :: 0 <= i < |r| ==> r[i] in accounts && MatchesTerm(term, r[i].website, r[i].username)
      ensures forall i :: 0 <= i < |accounts| && MatchesTerm(term, accounts[i].website, accounts[i].username)
                ==> accounts[i] in r
      ensures term != "" ==> r == Filter(accounts, Matching(term))
    {
      if term == "" then accounts
      else
        FilterMembers(accounts, Matching(term));
        Filter(accounts, Matching(term))
    }

    /** `_save_accounts`: encrypt and write the whole list; true only if the write completed. */
    method SaveAccountsFile(salt: Bytes, nonce: Bytes, outcome: WriteOutcome) returns (ok: bool)
      requires |salt| == SALT_LENGTH
      modifies this`file
      ensures file == AfterWrite(old(file), AccountsBlob(crypto, serialize, accounts, masterPassword, salt, nonce), outcome)
      ensures ok == outcome.Written?
      ensures ok && Sound() ==> LoadAccounts(crypto, file, masterPassword, parse) == accounts
    {
      var blob := AccountsBlob(crypto, serialize, accounts, masterPassword, salt, nonce);
      file := AfterWrite(file, blob, outcome);
      ok := outcome.Written?;
      if ok && Sound() {
        ReloadAfterSave(crypto, serialize, parse, accounts, masterPassword, salt, nonce);
      }
    }

    /**
     * `save_account(account_data)`. `freshId` is the `uuid4` string a new
     * record receives; `salt`, `nonce` and `outcome` are what the file write
     * draws and how it ends. `saved` is the record as stored (the source
     * writes the new id into the caller's dict).
     */
    method SaveAccount(data: Account, freshId: string, salt: Bytes, nonce: Bytes, outcome: WriteOutcome)
      returns (ok: bool, saved: Account)
      requires freshId != "" && |salt| == SALT_LENGTH
      modifies this
      ensures !HasRequiredFields(data) ==> !ok && accounts == old(accounts) && file == old(file)
      ensures HasRequiredFields(data) ==>
        && saved == (if data.id == "" then data.(id := freshId) else data)
        && accounts == Upsert(old(accounts), data, freshId)
        && file == AfterWrite(old(file), AccountsBlob(crypto, serialize, accounts, masterPassword, salt, nonce), outcome)
        && ok == outcome.Written?
      ensures ok && Sound() ==> LoadAccounts(crypto, file, masterPassword, parse) == accounts
    {
      saved := data;
      if !HasRequiredFields(data) {
        return false, saved;
      }
      if data.id == "" {
        saved := data.(id := freshId);
        accounts := accounts + [saved];
      } else {
        var i := 0;
        var updated := false;
        while i < |accounts| && !updated
          invariant 0 <= i <= |accounts|
          invariant file == old(file)
          decreases |accounts| - i + (if updated then 0 else 1)
          invariant !updated ==> accounts == old(accounts) && forall j :: 0 <= j < i ==> accounts[j].id != data.id
          invariant updated ==> accounts == Upsert(old(accounts), data, freshId)
        {
          if accounts[i].id == data.id {
            FirstIndexAt(accounts, HasId(data.id), i);
            accounts := accounts[i := data];
            updated := true;
          } else {
            i := i + 1;
          }
        }
        if !updated {
          forall j | 0 <= j < |accounts| ensures !HasId(data.id)(accounts[j]) { }
          FirstIndexNone(accounts, HasId(data.id));
          accounts := accounts + [data];
        }
      }
      ok := SaveAccountsFile(salt, nonce, outcome);
    }

    /** `get_account(account_id)`: the first record with the id, or None. */
    method GetAccount(id: string) returns (r: Option<Account>)
      ensures r.Some? ==> r.value in accounts && r.value.id == id
      ensures r == (match FirstIndex(accounts, HasId(id))
                    case Some(i) => Some(accounts[i])
                    case None => None)
    {
      var all := GetAccounts("");
      var i := 0;
      while i < |all|
        invariant 0 <= i <= |all|
        invariant forall j :: 0 <= j < i ==> all[j].id != id
      {
        if all[i].id == id {
          FirstIndexAt(all, HasId(id), i);
          return Some(all[i]);
        }
        i := i + 1;
      }
      forall j | 0 <= j < |all| ensures !HasId(id)(all[j]) { }
      FirstIndexNone(all, HasId(id));
      r := None;
    }

    /**
     * `delete_account(account_id)`: an empty id or an id not present gives
     * False and changes nothing; otherwise the first record with the id is
     * popped and the result is that of the file write.
     */
    method DeleteAccount(id: string, salt: Bytes, nonce: Bytes, outcome: WriteOutcome) returns (ok: bool)
      requires |salt| == SALT_LENGTH
      modifies this
      ensures id == "" || FirstIndex(old(accounts), HasId(id)).None? ==>
        !ok && accounts == old(accounts) && file == old(file)
      ensures id != "" && FirstIndex(old(accounts), HasId(id)).Some? ==>
        && accounts == RemoveFirst(old(accounts), id)
        && file == AfterWrite(old(file), AccountsBlob(crypto, serialize, accounts, masterPassword, salt, nonce), outcome)
        && ok == outcome.Written?
      ensures ok && Sound() ==> LoadAccounts(crypto, file, masterPassword, parse) == accounts
    {
      if id == "" {
        return false;
      }
      var i := 0;
      while i < |accounts|
        invariant 0 <= i <= |accounts|
        invariant accounts == old(accounts) && file == old(file)
        invariant forall j :: 0 <= j < i ==> accounts[j].id != id
      {
        if accounts[i].id == id {
          FirstIndexAt(accounts, HasId(id), i);
          accounts := RemoveAt(accounts, i);
          ok := SaveAccountsFile(salt, nonce, outcome);
          return;
        }
        i := i + 1;
      }
      forall j | 0 <= j < |accounts| ensures !HasId(id)(accounts[j]) { }
      FirstIndexNone(accounts, HasId(id));
      ok := false;
    }
  }
}
