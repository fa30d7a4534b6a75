/**
 * The browser's `localStorage` and the helpers that keep the last visited directory in it
 * (frontend/src/utils/storage.util.ts).
 */
module Storage {
  import opened Wrappers

  /** The key under which the current directory is persisted. */
  const CwdKey: string := "cwd"

  /** What `getCwd` answers when nothing usable is stored. */
  const DefaultCwd: string := "/"

  /** A string-to-string store shared by the whole page. */
  class LocalStorage {
    var items: map<string, string>

    constructor (items: map<string, string>)
      ensures this.items == items
    {
      this.items := items;
    }

    /** `localStorage.getItem(key)`: the stored string, or `null`. */
    method GetItem(key: string) returns (value: Option<string>)
      ensures key in items ==> value == Some(items[key])
      ensures key !in items ==> value == None
    {
      value := if key in items then Some(items[key]) else None;
    }

    /** `localStorage.setItem(key, value)`: overwrites one key. */
    method SetItem(key: string, value: string)
      modifies this
      ensures items == old(items)[key := value]
    {
      items := items[key := value];
    }
  }

  /**
   * JavaScript's `stored || fallback` on a `string | null`: both `null` and the empty
   * string are falsy, so both give way to the fallback.
   */
  function OrElse(stored: Option<string>, fallback: string): (r: string)
    ensures stored.Some? && stored.value != "" ==> r == stored.value
    ensures stored.None? || stored.value == "" ==> r == fallback
  {
    match stored
    case Some(s) => if s != "" then s else fallback
    case None => fallback
  }

  /** The value `getCwd` would answer for the store contents `items`. */
  function StoredCwd(items: map<string, string>): string
  {
    OrElse(if CwdKey in items then Some(items[CwdKey]) else None, DefaultCwd)
  }

  /** `getCwd()`: the stored directory when it is a non-empty string, otherwise `"/"`. */
  method GetCwd(storage: LocalStorage) returns (cwd: string)
    ensures CwdKey in storage.items && storage.items[CwdKey] != "" ==> cwd == storage.items[CwdKey]
    ensures CwdKey !in storage.items || storage.items[CwdKey] == "" ==> cwd == DefaultCwd
    ensures cwd == StoredCwd(storage.items)
  {
    var stored := storage.GetItem(CwdKey);
    cwd := OrElse(stored, DefaultCwd);
  }

  /** `setCwd(cwd)`: writes key `"cwd"` and nothing else. */
  method SetCwd(storage: LocalStorage, cwd: string)
    modifies storage
    ensures storage.items == old(storage.items)[CwdKey := cwd]
    ensures forall k :: k in old(storage.items) && k != CwdKey ==> k in storage.items && storage.items[k] == old(storage.items)[k]
  {
    storage.SetItem(CwdKey, cwd);
  }

  /** After `setCwd(cwd)`, `getCwd()` gives `cwd` back, except that an empty `cwd` reads as `"/"`. */
  lemma SetThenGetCwd(items: map<string, string>, cwd: string)
    ensures StoredCwd(items[CwdKey := cwd]) == if cwd == "" then DefaultCwd else cwd
  {
  }

  /** Writing another key does not change what `getCwd()` answers. */
  lemma OtherKeysDoNotMatter(items: map<string, string>, key: string, value: string)
    requires key != CwdKey
    ensures StoredCwd(items[key := value]) == StoredCwd(items)
  {
  }
}
