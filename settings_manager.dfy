/**
 * data/settings_manager.py: user preferences, a two-level dictionary of
 * categories and keys, kept in settings.json. Loading overlays the stored
 * categories on the defaults (whole categories, not keys); a lookup falls
 * back to the defaults; an update saves the whole dictionary at once.
 *
 * Each category dictionary is an object here (`Category`), because
 * `dict.copy()` copies only the outer level: after a load or a reset the
 * categories the file did not replace are the very objects held by
 * `default_settings`, so an update to one of them changes the default too.
 * The constructor, `UpdateSetting` and `ResetToDefault` model that as
 * written; the `Intended` constructor and `ResetToDefaultIntended` copy the
 * categories as well, which keeps the defaults intact.
 */
module Settings {
  import opened Wrappers
  import opened Storage

  datatype Value = BoolVal(b: bool) | IntVal(i: int) | StrVal(s: string)

  /** The dictionaries' contents as values: category, then key. */
  type Table = map<string, map<string, Value>>

  /**
   * settings.json: absent, present but not a JSON object of objects (or not
   * readable at all), or holding a table.
   */
  datatype SettingsFile = NoFile | Unreadable | Stored(contents: Table)

  const DEFAULT_SETTINGS: Table := map[
    "clipboard" := map["auto_clear" := BoolVal(true), "clear_delay" := IntVal(30)],
    "security" := map["lock_timeout" := IntVal(300), "min_password_length" := IntVal(12),
                      "require_special_chars" := BoolVal(true)],
    "backup" := map["auto_backup" := BoolVal(true), "backup_interval" := IntVal(24), "keep_backups" := IntVal(10)],
    "ui" := map["theme" := StrVal("system"), "font_size" := IntVal(10), "show_password_strength" := BoolVal(true)]
  ]

  // ------------------------------------------------------------ as values

  /** `get_setting`: the current value, else the default, else None where the KeyError escapes. */
  function Lookup(current: Table, defaults: Table, category: string, key: string): Option<Value> {
    if category in current && key in current[category] then Some(current[category][key])
    else if category in defaults && key in defaults[category] then Some(defaults[category][key])
    else None
  }

  /** `settings.update(stored)`: whole categories of `stored` replace those of `defaults`. */
  function Merge(defaults: Table, stored: Table): Table {
    map c | c in defaults.Keys + stored.Keys :: if c in stored then stored[c] else defaults[c]
  }

  /** The table `_load_settings` yields: the merge for a readable file, the defaults otherwise. */
  function Loaded(defaults: Table, file: SettingsFile): Table {
    if file.Stored? then Merge(defaults, file.contents) else defaults
  }

  /**
   * settings.json after `save_settings` wrote `contents`: `open(..., 'w')`
   * truncates, so a dump that fails part-way leaves a file that no longer
   * parses.
   */
  function AfterSave(file: SettingsFile, contents: Table, outcome: WriteOutcome): SettingsFile {
    match outcome
    case Written => Stored(contents)
    case OpenFailed => file
    case WriteFailed(_) => Unreadable
  }

  /** A stored value wins over the default. */
  lemma LookupPrefersCurrent(current: Table, defaults: Table, category: string, key: string)
    requires category in current && key in current[category]
    ensures Lookup(current, defaults, category, key) == Some(current[category][key])
  {
  }

  /**
   * A missing category or key falls back to the default; a key known to
   * neither is None.
   */
  lemma LookupFallsBack(current: Table, defaults: Table, category: string, key: string)
    requires !(category in current && key in current[category])
    ensures category in defaults && key in defaults[category] ==>
              Lookup(current, defaults, category, key) == Some(defaults[category][key])
    ensures !(category in defaults && key in defaults[category]) ==> Lookup(current, defaults, category, key) == None
  {
  }

  /** Setting a key makes the lookup answer the new value, and changes no other answer. */
  lemma LookupAfterSet(current: Table, defaults: Table, category: string, key: string, value: Value,
                       c: string, k: string)
    ensures var old_ := if category in current then current[category] else map[];
      var updated := current[category := old_[key := value]];
      && Lookup(updated, defaults, category, key) == Some(value)
      && ((c, k) != (category, key) ==> Lookup(updated, defaults, c, k) == Lookup(current, defaults, c, k))
  {
  }

  /**
   * Loading a saved table answers every lookup as the table did: the merge
   * with the defaults adds only what the fallback would give anyway.
   */
  lemma ReloadAnswersAsSaved(defaults: Table, saved: Table, c: string, k: string)
    ensures Lookup(Loaded(defaults, AfterSave(NoFile, saved, Written)), defaults, c, k) == Lookup(saved, defaults, c, k)
  {
  }

  /** A write that fails part-way throws every stored setting away at the next load. */
  lemma FailedSaveLoadsDefaults(defaults: Table, file: SettingsFile, saved: Table, kept: nat)
    ensures Loaded(defaults, AfterSave(file, saved, WriteFailed(kept))) == defaults
  {
  }

  /** Loading keeps every default category and replaces exactly the stored ones. */
  lemma LoadedCategories(defaults: Table, stored: Table)
    ensures Loaded(defaults, Stored(stored)).Keys == defaults.Keys + stored.Keys
    ensures forall c :: c in stored ==> Loaded(defaults, Stored(stored))[c] == stored[c]
    ensures forall c :: c in defaults && c !in stored ==> Loaded(defaults, Stored(stored))[c] == defaults[c]
  {
  }

  // ------------------------------------------------------------ as objects

  /** One category's dictionary. */
  class Category {
    var entries: map<string, Value>

    constructor(entries: map<string, Value>)
      ensures this.entries == entries
    {
      this.entries := entries;
    }
  }

  /** The contents of a dictionary of category dictionaries. */
  function Values(m: map<string, Category>): Table
    reads m.Values
  {
    map c | c in m :: m[c].entries
  }

  /** No two categories share a dictionary. */
  ghost predicate Injective(m: map<string, Category>) {
    forall c, d :: c in m && d in m && c != d ==> m[c] != m[d]
  }

  /** A dictionary of `a` is shared with `b` only under the same category name. */
  ghost predicate SharedOnlyByName(a: map<string, Category>, b: map<string, Category>) {
    forall c, d :: c in a && d in b && a[c] == b[d] ==> c == d
  }

  /** No dictionary of `a` is one of `b`'s. */
  ghost predicate Unshared(a: map<string, Category>, b: map<string, Category>) {
    forall c, d :: c in a && d in b ==> a[c] != b[d]
  }

  /** A new dictionary per category of `table`, holding its contents. */
  method Materialise(table: Table) returns (m: map<string, Category>)
    ensures Values(m) == table && Injective(m)
    ensures forall c :: c in m ==> fresh(m[c])
  {
    m := map[];
    var pending := table.Keys;
    while pending != {}
      invariant pending <= table.Keys && m.Keys == table.Keys - pending
      invariant forall c :: c in m ==> fresh(m[c]) && m[c].entries == table[c]
      invariant Injective(m)
      decreases pending
    {
      var c :| c in pending;
      var category := new Category(table[c]);
      m := m[c := category];
      pending := pending - {c};
    }
  }

  /** The loop of `_load_settings`: each stored category replaces its entry, as a new dictionary. */
  method Overlay(defaults: map<string, Category>, contents: Table) returns (settings: map<string, Category>)
    requires Injective(defaults)
    ensures settings.Keys == defaults.Keys + contents.Keys
    ensures forall c :: c in contents ==> fresh(settings[c]) && settings[c].entries == contents[c]
    ensures forall c :: c in settings && c !in contents ==> settings[c] == defaults[c]
    ensures Injective(settings)
  {
    settings := defaults;
    var pending := contents.Keys;
    while pending != {}
      invariant pending <= contents.Keys
      invariant settings.Keys == defaults.Keys + (contents.Keys - pending)
      invariant forall c :: c in contents && c !in pending ==> fresh(settings[c]) && settings[c].entries == contents[c]
      invariant forall c :: c in settings && !(c in contents && c !in pending) ==> settings[c] == defaults[c]
      invariant Injective(settings)
      decreases pending
    {
      var c :| c in pending;
      var category := new Category(contents[c]);
      settings := settings[c := category];
      pending := pending - {c};
    }
  }

  /**
   * `_load_settings` as written: a shallow copy of the defaults with the
   * stored categories put in as new dictionaries; the others are the
   * defaults' own dictionaries.
   */
  method LoadSettings(defaults: map<string, Category>, file: SettingsFile) returns (settings: map<string, Category>)
    requires Injective(defaults)
    ensures Values(settings) == Loaded(Values(defaults), file)
    ensures Injective(settings) && SharedOnlyByName(settings, defaults)
    ensures defaults.Keys <= settings.Keys
    ensures forall c :: c in defaults && !(file.Stored? && c in file.contents) ==> settings[c] == defaults[c]
    ensures forall c :: c in settings ==> fresh(settings[c]) || (c in defaults && settings[c] == defaults[c])
  {
    if file.Stored? {
      settings := Overlay(defaults, file.contents);
      assert Values(settings) == Merge(Values(defaults), file.contents);
    } else {
      settings := defaults;
    }
  }

  /** Writing one dictionary changes a table only where that dictionary sits. */
  ghost function AfterPut(m: map<string, Category>, name: string, target: Category, before: Table): Table
    reads target
  {
    if name in m && m[name] == target then before[name := target.entries] else before
  }

  /**
   * After writing one dictionary that sits under no other name than `name`,
   * where every other dictionary still holds its `before` contents, the table
   * differs from `before` only where the written dictionary sits.
   */
  lemma AfterEntryWrite(m: map<string, Category>, name: string, target: Category, before: Table)
    requires m.Keys == before.Keys
    requires forall c :: c in m && c != name ==> m[c] != target
    requires forall c :: c in m && m[c] != target ==> m[c].entries == before[c]
    ensures Values(m) == AfterPut(m, name, target, before)
  {
  }

  class SettingsManager {
    const defaultSettings: map<string, Category>
    var settings: map<string, Category>
    /** settings.json */
    var file: SettingsFile

    /** Distinct categories hold distinct dictionaries, shared with the defaults only under one name. */
    ghost predicate Valid()
      reads this
    {
      Injective(settings) && Injective(defaultSettings) && SharedOnlyByName(settings, defaultSettings)
    }

    /** No current category is one of the defaults' dictionaries. */
    ghost predicate Independent()
      reads this
    {
      Unshared(settings, defaultSettings)
    }

    /**
     * `__init__` as written: the default table, then the load; every
     * category the file does not replace is shared with the defaults.
     */
    constructor(file: SettingsFile)
      ensures Valid() && this.file == file
      ensures Values(defaultSettings) == DEFAULT_SETTINGS
      ensures Values(settings) == Loaded(DEFAULT_SETTINGS, file)
      ensures defaultSettings.Keys <= settings.Keys
      ensures forall c :: c in defaultSettings && !(file.Stored? && c in file.contents) ==>
                settings[c] == defaultSettings[c]
      ensures forall c :: c in settings ==> fresh(settings[c])
    {
      var defaults := Materialise(DEFAULT_SETTINGS);
      var loaded := LoadSettings(defaults, file);
      defaultSettings := defaults;
      settings := loaded;
      this.file := file;
    }

    /** `__init__` with the load copying each category: no dictionary is shared. */
    constructor Intended(file: SettingsFile)
      ensures Valid() && Independent() && this.file == file
      ensures Values(defaultSettings) == DEFAULT_SETTINGS
      ensures Values(settings) == Loaded(DEFAULT_SETTINGS, file)
      ensures forall c :: c in settings ==> fresh(settings[c])
    {
      var defaults := Materialise(DEFAULT_SETTINGS);
      var loaded := Materialise(Loaded(Values(defaults), file));
      defaultSettings := defaults;
      settings := loaded;
      this.file := file;
    }

    /** `get_setting` */
    function GetSetting(category: string, key: string): Option<Value>
      reads this, settings.Values, defaultSettings.Values
    {
      Lookup(Values(settings), Values(defaultSettings), category, key)
    }

    /** `save_settings`: True exactly when the dump went through. */
    method SaveSettings(outcome: WriteOutcome) returns (ok: bool)
      modifies this`file
      ensures ok <==> outcome.Written?
      ensures file == AfterSave(old(file), Values(settings), outcome)
    {
      file := AfterSave(file, Values(settings), outcome);
      ok := outcome.Written?;
    }

    /**
     * `if category not in self.settings: self.settings[category] = {}`: a
     * missing category gets a new, empty dictionary; a present one is kept,
     * and with it whether it is shared with the default.
     */
    method EnsureCategory(category: string)
      requires Valid()
      modifies this`settings
      ensures Valid() && category in settings
      ensures category !in old(settings) ==> fresh(settings[category]) && settings[category].entries == map[]
      ensures category in old(settings) ==> settings == old(settings)
      ensures Values(settings) == old(Values(settings))[category := settings[category].entries]
      ensures old(Independent()) ==> Independent()
    {
      if category !in settings {
        var created := new Category(map[]);
        settings := settings[category := created];
      } else {
        assert Values(settings) == Values(settings)[category := settings[category].entries];
      }
    }

    /**
     * `self.settings[category][key] = value`: the key changes in the
     * category's dictionary, and so in the default when that is the same
     * dictionary.
     */
    method SetEntry(category: string, key: string, value: Value)
      requires Valid() && category in settings
      modifies settings[category]
      ensures Values(settings) == old(Values(settings))[category := old(settings[category].entries)[key := value]]
      ensures var shared := category in defaultSettings && settings[category] == defaultSettings[category];
        Values(defaultSettings) == if shared
          then old(Values(defaultSettings))[category := old(Values(defaultSettings))[category][key := value]]
          else old(Values(defaultSettings))
    {
      ghost var current0 := Values(settings);
      ghost var defaults0 := Values(defaultSettings);
      var target := settings[category];
      target.entries := target.entries[key := value];
      forall c | c in settings && settings[c] != target ensures settings[c].entries == current0[c] {
      }
      AfterEntryWrite(settings, category, target, current0);
      forall c | c in defaultSettings && defaultSettings[c] != target ensures defaultSettings[c].entries == defaults0[c] {
      }
      AfterEntryWrite(defaultSettings, category, target, defaults0);
    }

    /**
     * `update_setting`: create the category if missing, set the key, save.
     * When the category's dictionary is the default's, the default changes
     * with it.
     */
    method UpdateSetting(category: string, key: string, value: Value, outcome: WriteOutcome) returns (ok: bool)
      requires Valid()
      modifies this`settings, this`file, settings.Values
      ensures Valid()
      ensures var before := if category in old(settings) then old(settings[category].entries) else map[];
        Values(settings) == old(Values(settings))[category := before[key := value]]
      ensures var shared := category in old(settings) && category in defaultSettings
                            && old(settings[category]) == defaultSettings[category];
        Values(defaultSettings) == if shared
          then old(Values(defaultSettings))[category := old(Values(defaultSettings))[category][key := value]]
          else old(Values(defaultSettings))
      ensures old(Independent()) ==> Independent() && Values(defaultSettings) == old(Values(defaultSettings))
      ensures ok <==> outcome.Written?
      ensures file == AfterSave(old(file), Values(settings), outcome)
    {
      ghost var current0 := Values(settings);
      EnsureCategory(category);
      ghost var mid := Values(settings);
      ghost var entries := settings[category].entries;
      SetEntry(category, key, value);
      assert Values(settings) == current0[category := entries[key := value]] by {
        assert mid[category := entries[key := value]] == current0[category := entries[key := value]];
      }
      ok := SaveSettings(outcome);
    }

    /**
     * `reset_to_default` as written: a shallow copy, so every category is
     * once more the defaults' own dictionary, and the defaults hold whatever
     * earlier updates put in them.
     */
    method ResetToDefault(outcome: WriteOutcome) returns (ok: bool)
      requires Valid()
      modifies this`settings, this`file
      ensures Valid()
      ensures settings == defaultSettings && Values(settings) == Values(defaultSettings)
      ensures ok <==> outcome.Written?
      ensures file == AfterSave(old(file), Values(settings), outcome)
    {
      settings := defaultSettings;
      ok := SaveSettings(outcome);
    }

    /** `reset_to_default` copying each category: the defaults' contents, in dictionaries of their own. */
    method ResetToDefaultIntended(outcome: WriteOutcome) returns (ok: bool)
      requires Valid()
      modifies this`settings, this`file
      ensures Valid() && Independent()
      ensures Values(settings) == Values(defaultSettings)
      ensures ok <==> outcome.Written?
      ensures file == AfterSave(old(file), Values(settings), outcome)
    {
      settings := Materialise(Values(defaultSettings));
      ok := SaveSettings(outcome);
    }
  }

  /**
   * As written, lowering the lock timeout and then resetting to the defaults
   * keeps the lowered timeout: the update went into the defaults' own
   * dictionary.
   */
  method ResetKeepsUpdatedTimeout() returns (timeout: Option<Value>)
    ensures timeout == Some(IntVal(60))
  {
    var manager := new SettingsManager(NoFile);
    assert "security" in DEFAULT_SETTINGS;
    assert "security" in Values(manager.defaultSettings);
    var _ := manager.UpdateSetting("security", "lock_timeout", IntVal(60), Written);
    var _ := manager.ResetToDefault(Written);
    timeout := manager.GetSetting("security", "lock_timeout");
  }

  /** With the categories copied, the same steps give the default timeout back. */
  method IntendedResetRestoresTimeout() returns (timeout: Option<Value>)
    ensures timeout == Some(IntVal(300))
  {
    var manager := new SettingsManager.Intended(NoFile);
    ghost var defaults := Values(manager.defaultSettings);
    assert defaults["security"]["lock_timeout"] == IntVal(300);
    var _ := manager.UpdateSetting("security", "lock_timeout", IntVal(60), Written);
    assert Values(manager.defaultSettings) == defaults;
    var _ := manager.ResetToDefaultIntended(Written);
    assert Values(manager.settings) == defaults;
    LookupPrefersCurrent(defaults, defaults, "security", "lock_timeout");
    timeout := manager.GetSetting("security", "lock_timeout");
  }
}
