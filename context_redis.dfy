/**
 * The cache-backed key/value repository: string values under string keys,
 * written with `set`, read with `get`, and removed with get-and-delete.
 */
module ContextRedis {
  import opened Wrappers

  /** What a read of `key` returns from `values`: the value, or null. */
  function Lookup(values: map<string, string>, key: string): Option<string>
  {
    if key in values then Some(values[key]) else None
  }

  class ContextStorageRepository {
    /** The content of the key/value store behind `valueOperations`. */
    var values: map<string, string>

    constructor (values: map<string, string>)
      ensures this.values == values
    {
      this.values := values;
    }

    /** Stores `value` under `key`, replacing whatever was there. */
    method Add(key: string, value: string)
      modifies this
      ensures values == old(values)[key := value]
      ensures Lookup(values, key) == Some(value)
      ensures forall k :: k != key ==> Lookup(values, k) == Lookup(old(values), k)
    {
      values := values[key := value];
    }

    /** The value under `key`, or null; the store is not changed. */
    method Get(key: string) returns (value: Option<string>)
      ensures value.Some? <==> key in values
      ensures value.Some? ==> value.value == values[key]
    {
      if key in values {
        value := Some(values[key]);
      } else {
        value := None;
      }
    }

    /** Removes `key` and returns the value it held before, or null. */
    method Delete(key: string) returns (previous: Option<string>)
      modifies this
      ensures previous == Lookup(old(values), key)
      ensures values == old(values) - {key}
      ensures Lookup(values, key).None?
      ensures forall k :: k != key ==> Lookup(values, k) == Lookup(old(values), k)
    {
      previous := Lookup(values, key);
      values := values - {key};
    }
  }

  /** Add then get: the value just stored is read back, and a delete after it returns that value and leaves nothing. */
  method AddGetDelete(repository: ContextStorageRepository, key: string, value: string) returns (read: Option<string>, removed: Option<string>)
    modifies repository
    ensures read == Some(value) && removed == Some(value)
    ensures Lookup(repository.values, key).None?
    ensures forall k :: k != key ==> Lookup(repository.values, k) == Lookup(old(repository.values), k)
  {
    repository.Add(key, value);
    read := repository.Get(key);
    removed := repository.Delete(key);
  }
}
