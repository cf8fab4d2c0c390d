/**
 * The `SimpleTODO.sublime-settings` object: a table from project directory
 * to that project's list of records, and the copy last written to disk.
 */
module TodoStore {
  import opened Wrappers
  import opened Todo

  /** `load_todo` on a snapshot of the table: a directory without an entry has no records. */
  function Stored(entries: map<string, seq<Item>>, directory: string): seq<Item> {
    if directory in entries then entries[directory] else []
  }

  /**
   * Writing a list for one directory and reading it back gives that list in
   * the same order, and every other directory reads as before.
   */
  lemma SaveThenLoad(entries: map<string, seq<Item>>, directory: string, todo: seq<Item>, other: string)
    ensures Stored(entries[directory := todo], directory) == todo
    ensures other != directory ==> Stored(entries[directory := todo], other) == Stored(entries, other)
  {
  }

  /** Loading never fails, and a directory with no entry reads as the empty list. */
  lemma LoadMissing(entries: map<string, seq<Item>>, directory: string)
    requires directory !in entries
    ensures Stored(entries, directory) == []
  {
  }

  class Settings {
    /** The settings object as the running plugin sees it. */
    var entries: map<string, seq<Item>>
    /** What `save_settings` last wrote to the settings file. */
    var persisted: map<string, seq<Item>>

    /** `load_settings` on a file holding `initial`. */
    constructor (initial: map<string, seq<Item>>)
      ensures entries == initial && persisted == initial
    {
      entries := initial;
      persisted := initial;
    }

    /** `settings.get(key)`, `None` for a missing key. */
    function Get(key: string): (r: Option<seq<Item>>)
      reads this
      ensures r.Some? <==> key in entries
      ensures r.Some? ==> r.value == entries[key]
    {
      if key in entries then Some(entries[key]) else None
    }

    /** `settings.set(key, value)`. */
    method Set(key: string, value: seq<Item>)
      modifies this
      ensures entries == old(entries)[key := value]
      ensures persisted == old(persisted)
    {
      entries := entries[key := value];
    }

    /** `sublime.save_settings`: the file now holds what the object holds. */
    method Save()
      modifies this
      ensures entries == old(entries)
      ensures persisted == entries
    {
      persisted := entries;
    }
  }
}
