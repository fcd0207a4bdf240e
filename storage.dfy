/**
 * `window.localStorage`: string items under string keys. When storage is
 * unavailable (private mode, blocked by the browser) every access throws.
 * Every read in the application catches that and treats it as a missing
 * key; a failed write changes nothing, and `SetItem`/`RemoveItem` report it
 * so that each caller can take the path its own `catch` takes.
 */
module WebStorage {
  import opened Wrappers

  class Storage {
    var items: map<string, string>
    var available: bool

    constructor (initial: map<string, string>, usable: bool)
      ensures items == initial && available == usable
    {
      items := initial;
      available := usable;
    }

    /** `getItem(key)`, with a thrown exception read as `null`. */
    function Get(key: string): Option<string>
      reads this
    {
      if available && key in items then Some(items[key]) else None
    }

    /** `setItem(key, value)`; `ok` is false when the call throws. */
    method SetItem(key: string, value: string) returns (ok: bool)
      modifies this
      ensures ok == available && available == old(available)
      ensures items == if ok then old(items)[key := value] else old(items)
    {
      ok := available;
      if ok {
        items := items[key := value];
      }
    }

    /** `removeItem(key)`; `ok` is false when the call throws. */
    method RemoveItem(key: string) returns (ok: bool)
      modifies this
      ensures ok == available && available == old(available)
      ensures items == if ok then old(items) - {key} else old(items)
    {
      ok := available;
      if ok {
        items := items - {key};
      }
    }
  }
}
