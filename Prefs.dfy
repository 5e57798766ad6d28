/** The preferences model (cola/prefs/model.py): a two-store git
    configuration (the repository's and the user's) and the undoable
    command that sets one value in it. Values are strings; a missing
    value is None. */
module Prefs {
  import opened Text

  const RepoSource := "repo"

  /** The two configuration stores as a value. */
  datatype Stores = Stores(repo: map<string, string>, user: map<string, string>)

  /** gitcfg's get_repo. */
  function GetRepo(st: Stores, key: string): Option<string> {
    if key in st.repo then Some(st.repo[key]) else None
  }

  /** gitcfg's general get: the repository's value wins over the user's. */
  function GetAny(st: Stores, key: string): Option<string> {
    if key in st.repo then Some(st.repo[key])
    else if key in st.user then Some(st.user[key])
    else None
  }

  /** set_config's store routing: "repo" writes the repository store,
      every other source the user store. */
  function Write(st: Stores, source: string, key: string, value: string): (r: Stores)
    ensures source == RepoSource ==> r.repo == st.repo[key := value] && r.user == st.user
    ensures source != RepoSource ==> r.user == st.user[key := value] && r.repo == st.repo
  {
    if source == RepoSource then st.(repo := st.repo[key := value]) else st.(user := st.user[key := value])
  }

  /** get_config's routing: "repo" reads the repository store, every other
      source the general lookup. */
  function Read(st: Stores, source: string, key: string): (r: Option<string>)
    ensures source == RepoSource ==> r == GetRepo(st, key)
    ensures source != RepoSource ==> r == GetAny(st, key)
  {
    if source == RepoSource then GetRepo(st, key) else GetAny(st, key)
  }

  /** A repository value written is read back. */
  lemma ReadAfterWriteRepo(st: Stores, key: string, value: string)
    ensures Read(Write(st, RepoSource, key, value), RepoSource, key) == Some(value)
  {
  }

  /** A user value written is read back unless the repository overrides it. */
  lemma ReadAfterWriteUser(st: Stores, source: string, key: string, value: string)
    requires source != RepoSource
    ensures key !in st.repo ==> Read(Write(st, source, key, value), source, key) == Some(value)
    ensures key in st.repo ==> Read(Write(st, source, key, value), source, key) == Some(st.repo[key])
  {
  }

  /** Writing one key leaves every other key of both stores alone. */
  lemma WriteOtherKeys(st: Stores, source: string, key: string, value: string, other: string)
    requires other != key
    ensures GetRepo(Write(st, source, key, value), other) == GetRepo(st, other)
    ensures GetAny(Write(st, source, key, value), other) == GetAny(st, other)
  {
  }

  /** SetConfigCommand.do then undo, as written: `do` remembers
      get_config(source, key) and `undo` writes it back when it is not
      None. */
  function DoThenUndo(st: Stores, source: string, key: string, value: string): Stores {
    var saved := Read(st, source, key);
    var done := Write(st, source, key, value);
    if saved.None? then done else Write(done, source, key, saved.value)
  }

  /** For the repository store, undo restores the stores whenever the key
      had a value. */
  lemma DoThenUndoRepo(st: Stores, key: string, value: string)
    requires key in st.repo
    ensures DoThenUndo(st, RepoSource, key, value) == st
  {
    assert st.repo[key := value][key := st.repo[key]] == st.repo;
  }

  /** When the key had no value, undo leaves the new value in place. */
  lemma DoThenUndoMissing(st: Stores, source: string, key: string, value: string)
    requires Read(st, source, key).None?
    ensures Read(DoThenUndo(st, source, key, value), source, key) == Read(Write(st, source, key, value), source, key)
  {
  }

  /** The user store loses its own value when the repository also sets the
      key: undo writes the repository's value into the user store. */
  lemma DoThenUndoUserOverridden()
    ensures var st := Stores(map["k" := "a"], map["k" := "b"]);
            DoThenUndo(st, "user", "k", "c").user["k"] == "a" && st.user["k"] == "b"
  {
  }

  /** The store `source` writes to, read directly. */
  function ReadOwn(st: Stores, source: string, key: string): Option<string> {
    if source == RepoSource then GetRepo(st, key)
    else if key in st.user then Some(st.user[key])
    else None
  }

  /** do then undo when `do` remembers the value of the store it writes. */
  function DoThenUndoOwn(st: Stores, source: string, key: string, value: string): Stores {
    var saved := ReadOwn(st, source, key);
    var done := Write(st, source, key, value);
    if saved.None? then done else Write(done, source, key, saved.value)
  }

  /** Remembering the written store's own value, undo restores both stores
      whenever that store had a value for the key. */
  lemma DoThenUndoOwnRestores(st: Stores, source: string, key: string, value: string)
    requires ReadOwn(st, source, key).Some?
    ensures DoThenUndoOwn(st, source, key, value) == st
  {
    if source == RepoSource {
      assert st.repo[key := value][key := st.repo[key]] == st.repo;
    } else {
      assert st.user[key := value][key := st.user[key]] == st.user;
    }
  }

  /** gitcfg.instance(): the two stores, updated in place. */
  class GitConfig {
    var repo: map<string, string>
    var user: map<string, string>

    constructor (st: Stores)
      ensures Value() == st
    {
      repo := st.repo;
      user := st.user;
    }

    function Value(): Stores
      reads this
    {
      Stores(repo, user)
    }

    method SetRepo(key: string, value: string)
      modifies this
      ensures repo == old(repo)[key := value] && user == old(user)
    {
      repo := repo[key := value];
    }

    method SetUser(key: string, value: string)
      modifies this
      ensures user == old(user)[key := value] && repo == old(repo)
    {
      user := user[key := value];
    }
  }

  /** notify_observers(message_config_updated, source, config, value) */
  datatype ConfigUpdated = ConfigUpdated(source: string, config: string, value: string)

  /** PreferencesModel: routes reads and writes to the stores and tells its
      observers about every write. */
  class PreferencesModel {
    const config: GitConfig
    var notified: seq<ConfigUpdated>

    constructor (config: GitConfig)
      ensures this.config == config && notified == []
    {
      this.config := config;
      notified := [];
    }

    /** set_config(source, config, value) */
    method SetConfig(source: string, key: string, value: string)
      modifies this, config
      ensures config.Value() == Write(old(config.Value()), source, key, value)
      ensures notified == old(notified) + [ConfigUpdated(source, key, value)]
    {
      if source == RepoSource {
        config.SetRepo(key, value);
      } else {
        config.SetUser(key, value);
      }
      notified := notified + [ConfigUpdated(source, key, value)];
    }

    /** get_config(source, config) */
    method GetConfig(source: string, key: string) returns (r: Option<string>)
      ensures r == Read(config.Value(), source, key)
    {
      if source == RepoSource {
        r := if key in config.repo then Some(config.repo[key]) else None;
      } else {
        r := if key in config.repo then Some(config.repo[key])
             else if key in config.user then Some(config.user[key])
             else None;
      }
    }
  }

  /** SetConfigCommand: an undoable write of one configuration value. */
  class SetConfigCommand {
    const source: string
    const config: string
    const value: string
    const undoable: bool
    var oldValue: Option<string>

    constructor (source: string, config: string, value: string)
      ensures this.source == source && this.config == config && this.value == value
      ensures undoable && oldValue == None
    {
      this.source := source;
      this.config := config;
      this.value := value;
      undoable := true;
      oldValue := None;
    }

    /** do(): remember the current value, then write the new one. */
    method Do(context: PreferencesModel)
      modifies this, context, context.config
      ensures oldValue == Read(old(context.config.Value()), source, config)
      ensures context.config.Value() == Write(old(context.config.Value()), source, config, value)
      ensures context.notified == old(context.notified) + [ConfigUpdated(source, config, value)]
    {
      oldValue := context.GetConfig(source, config);
      context.SetConfig(source, config, value);
    }

    /** undo(): write the remembered value back, if there was one. */
    method Undo(context: PreferencesModel)
      modifies context, context.config
      ensures oldValue.None? ==> context.config.Value() == old(context.config.Value())
      ensures oldValue.None? ==> context.notified == old(context.notified)
      ensures oldValue.Some? ==> context.config.Value() == Write(old(context.config.Value()), source, config, oldValue.value)
      ensures oldValue.Some? ==> context.notified == old(context.notified) + [ConfigUpdated(source, config, oldValue.value)]
    {
      if oldValue.None? {
        return;
      }
      context.SetConfig(source, config, oldValue.value);
    }
  }

  /** do followed by undo on the same command leaves the stores as
      DoThenUndo says. */
  method DoUndo(context: PreferencesModel, source: string, key: string, value: string)
      returns (cmd: SetConfigCommand)
    modifies context, context.config
    ensures context.config.Value() == DoThenUndo(old(context.config.Value()), source, key, value)
  {
    cmd := new SetConfigCommand(source, key, value);
    cmd.Do(context);
    cmd.Undo(context);
  }
}
