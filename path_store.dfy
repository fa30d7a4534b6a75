/** The `usePath` store: the single mutable current directory of the listing page (frontend/src/stores/path.store.ts). */
module PathStore {
  import opened Wrappers
  import Storage

  /** The directory shown when nothing usable is persisted. */
  const DefaultPath: string := "/qs/files"

  /** The path a freshly created store starts from, given the store contents. */
  function InitialPath(items: map<string, string>): (path: string)
    ensures Storage.CwdKey in items && items[Storage.CwdKey] != "" ==> path == items[Storage.CwdKey]
    ensures Storage.CwdKey !in items || items[Storage.CwdKey] == "" ==> path == DefaultPath
  {
    Storage.OrElse(if Storage.CwdKey in items then Some(items[Storage.CwdKey]) else None, DefaultPath)
  }

  class Store {
    var path: string

    /** `path: localStorage.getItem("cwd") || "/qs/files"`, read once when the store is created. */
    constructor (storage: Storage.LocalStorage)
      ensures path == InitialPath(storage.items)
    {
      var stored := storage.GetItem(Storage.CwdKey);
      path := Storage.OrElse(stored, DefaultPath);
    }

    /** `setPath(newPath)`: replaces the path verbatim, with no normalisation and no write to storage. */
    method SetPath(newPath: string)
      modifies this
      ensures path == newPath
    {
      path := newPath;
    }
  }
}
