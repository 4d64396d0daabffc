/**
 * src/services/mockApi.ts: MockStorage, an in-memory key-value store with the
 * `localStorage` interface. The `delay`/`mockApiCall`/`mockApiError` helpers
 * only wait on a timer and are not part of this model.
 */
module MockApi {

  import opened Wrappers

  /** What `getItem(k)` returns for store `m`: `m.get(k) || null`, so an empty value reads as null. */
  function ReadBack(m: map<string, string>, k: string): Option<string>
  {
    if k in m && m[k] != "" then Some(m[k]) else None
  }

  /** A value stored under k reads back (when non-empty) and other keys read as before. */
  lemma ReadBackAfterSet(m: map<string, string>, k: string, v: string, k': string)
    ensures ReadBack(m[k := v], k') == if k' == k then (if v == "" then None else Some(v)) else ReadBack(m, k')
  {
  }

  /** Removing k makes it read as null and leaves every other key alone. */
  lemma ReadBackAfterRemove(m: map<string, string>, k: string, k': string)
    ensures ReadBack(m - {k}, k') == if k' == k then None else ReadBack(m, k')
  {
  }

  /** A later write to the same key overwrites the earlier one. */
  lemma SetOverwrites(m: map<string, string>, k: string, v: string, w: string)
    ensures m[k := v][k := w] == m[k := w]
  {
  }

  class MockStorage {
    var storage: map<string, string>

    /** An empty store: every key reads as null. */
    constructor ()
      ensures storage == map[]
      ensures forall k :: ReadBack(storage, k) == None
    {
      storage := map[];
    }

    method SetItem(key: string, value: string)
      modifies this
      ensures storage == old(storage)[key := value]
      ensures ReadBack(storage, key) == if value == "" then None else Some(value)
    {
      storage := storage[key := value];
    }

    method GetItem(key: string) returns (r: Option<string>)
      ensures r == ReadBack(storage, key)
      ensures r.Some? ==> key in storage && r.value == storage[key] && r.value != ""
      ensures key !in storage ==> r.None?
    {
      if key in storage && storage[key] != "" {
        r := Some(storage[key]);
      } else {
        r := None;
      }
    }

    method RemoveItem(key: string)
      modifies this
      ensures storage == old(storage) - {key}
      ensures ReadBack(storage, key) == None
      ensures forall k | k != key :: ReadBack(storage, k) == ReadBack(old(storage), k)
    {
      storage := storage - {key};
    }

    method Clear()
      modifies this
      ensures storage == map[]
      ensures forall k :: ReadBack(storage, k) == None
    {
      storage := map[];
    }
  }
}
