/**
 * The relational context store: a table of rows keyed by the generated
 * session key, written by merge, read by field list and deleted by key.
 * The pure functions `Stored`, `Read` and `Deleted` say what one call does to
 * (or reads from) the table; the class below performs the calls in place.
 */
module ContextService {
  import opened Wrappers
  import opened ContextDocuments

  /** The repository's content: generated key to row. */
  type Table = map<string, Row>

  function Find(t: Table, g: string): Option<Row>
  {
    if g in t then Some(t[g]) else None
  }

  /** Every row sits under its own primary key. */
  predicate Keyed(t: Table)
  {
    forall g :: g in t ==> t[g].key == g
  }

  /** The row at `g` holds a JSON object with a `context` node: the only case in which a read answers. */
  predicate HasContext(t: Table, g: string)
  {
    g in t && t[g].value.Some? && t[g].value.value.Object? && t[g].value.value.context.Some?
  }

  function ContextOf(t: Table, g: string): map<string, string>
    requires HasContext(t, g)
  {
    t[g].value.value.context.value
  }

  /** The table after `field := value` is written under `g` at time `now` with a lifetime of `ttl` seconds. */
  function Stored(t: Table, field: string, value: string, g: string, ttl: nat, now: int): (r: Table)
    requires MergeReady(Find(t, g))
    ensures r.Keys == t.Keys + {g}
    ensures forall h :: h in t && h != g ==> r[h] == t[h]
    ensures r[g].key == g && r[g].validUntil == now + ttl
    ensures r[g].value == Some(ToDocument(NextData(Find(t, g), field, value, now)))
  {
    t[g := Row(g, Some(ToDocument(NextData(Find(t, g), field, value, now))), now + ttl)]
  }

  /**
   * The answer to a read of `keys` under `g`: null when there is no row or no
   * context node, otherwise one entry per requested key, in order, null where
   * the field is missing. Expiry is not consulted.
   */
  function Read(t: Table, g: string, keys: seq<string>): (r: Option<seq<Option<string>>>)
    ensures r.Some? <==> HasContext(t, g)
    ensures r.Some? ==> |r.value| == |keys|
    ensures r.Some? ==> forall i :: 0 <= i < |keys| ==> r.value[i] == Field(ContextOf(t, g), keys[i])
  {
    if HasContext(t, g) then Some(LookupAll(ContextOf(t, g), keys)) else None
  }

  /** The table after the row at `g` is deleted. */
  function Deleted(t: Table, g: string): (r: Table)
    ensures g !in r
    ensures r.Keys == t.Keys - {g}
    ensures forall h :: h in r ==> r[h] == t[h]
  {
    t - {g}
  }

  /** A read of the written field right after a write returns the written value. */
  lemma StoreThenRead(t: Table, field: string, value: string, g: string, ttl: nat, now: int)
    requires MergeReady(Find(t, g))
    ensures Read(Stored(t, field, value, g, ttl, now), g, [field]) == Some([Some(value)])
  {
    var r := Stored(t, field, value, g, ttl, now);
    assert ContextOf(r, g) == NextData(Find(t, g), field, value, now).context;
    var answer := Read(r, g, [field]).value;
    assert answer[0] == Field(ContextOf(r, g), field);
    assert answer == [Some(value)];
  }

  /** A write keeps every other field of the stored context node with its old value. */
  lemma StoreKeepsOtherFields(t: Table, field: string, value: string, g: string, ttl: nat, now: int, other: string)
    requires MergeReady(Find(t, g)) && HasContext(t, g) && other != field
    ensures Read(Stored(t, field, value, g, ttl, now), g, [other]) == Read(t, g, [other])
  {
  }

  /** After a write the context node holds the old fields plus the written one, and nothing else. */
  lemma StoreFieldSet(t: Table, field: string, value: string, g: string, ttl: nat, now: int)
    requires MergeReady(Find(t, g))
    ensures HasContext(Stored(t, field, value, g, ttl, now), g)
    ensures ContextOf(Stored(t, field, value, g, ttl, now), g).Keys
            == (if HasContext(t, g) then ContextOf(t, g).Keys else {}) + {field}
  {
  }

  /** Reads under any other key see the same answer before and after a write or a delete at `g`. */
  lemma OnlyItsRowChanges(t: Table, field: string, value: string, g: string, ttl: nat, now: int, h: string, keys: seq<string>)
    requires MergeReady(Find(t, g)) && h != g
    ensures Read(Stored(t, field, value, g, ttl, now), h, keys) == Read(t, h, keys)
    ensures Read(Deleted(t, g), h, keys) == Read(t, h, keys)
  {
  }

  /** After a delete a read under the same key is null, whatever is asked; deleting again changes nothing. */
  lemma DeleteThenRead(t: Table, g: string, keys: seq<string>)
    ensures Read(Deleted(t, g), g, keys).None?
    ensures Deleted(Deleted(t, g), g) == Deleted(t, g)
  {
  }

  /** Two writes of different fields to one key: a read of both returns both values, in request order. */
  lemma TwoWritesMerge(t: Table, g: string, a: string, va: string, b: string, vb: string, ttl1: nat, now1: int, ttl2: nat, now2: int)
    requires MergeReady(Find(t, g)) && a != b
    ensures MergeReady(Find(Stored(t, a, va, g, ttl1, now1), g))
    ensures Read(Stored(Stored(t, a, va, g, ttl1, now1), b, vb, g, ttl2, now2), g, [a, b]) == Some([Some(va), Some(vb)])
  {
    var t1 := Stored(t, a, va, g, ttl1, now1);
    var t2 := Stored(t1, b, vb, g, ttl2, now2);
    assert ContextOf(t1, g) == NextData(Find(t, g), a, va, now1).context;
    assert PriorFields(Find(t1, g)) == ContextOf(t1, g);
    assert ContextOf(t2, g) == NextData(Find(t1, g), b, vb, now2).context;
    var answer := Read(t2, g, [a, b]).value;
    assert answer[0] == Field(ContextOf(t2, g), a) && answer[1] == Field(ContextOf(t2, g), b);
    assert answer == [Some(va), Some(vb)];
  }

  /**
   * Two writes of one field to one key: the second value wins, the creation
   * time stays that of the first write, the update time and the expiry are
   * those of the second.
   */
  lemma OverwriteKeepsCreatedAt(t: Table, g: string, a: string, v1: string, v2: string, ttl1: nat, now1: int, ttl2: nat, now2: int)
    requires g !in t
    ensures MergeReady(Find(Stored(t, a, v1, g, ttl1, now1), g))
    ensures var t2 := Stored(Stored(t, a, v1, g, ttl1, now1), a, v2, g, ttl2, now2);
            && Read(t2, g, [a]) == Some([Some(v2)])
            && t2[g].value.value.createdAt == Some(now1)
            && t2[g].value.value.updatedAt == Some(now2)
            && t2[g].validUntil == now2 + ttl2
  {
    var t1 := Stored(t, a, v1, g, ttl1, now1);
    assert PriorCreatedAt(Find(t1, g)) == Some(now1);
    StoreThenRead(t1, a, v2, g, ttl2, now2);
  }

  /** The repository seen as an object: `storeValue`, `getValue` and `deleteValue` act on its rows. */
  class ContextStorageService {
    var rows: Table

    ghost predicate Valid()
      reads this
    {
      Keyed(rows)
    }

    constructor (rows: Table)
      requires Keyed(rows)
      ensures Valid() && this.rows == rows
    {
      this.rows := rows;
    }

    /** Merges `contextKey := contextValue` into the document at `generatedKey` and saves it to expire `ttl` seconds from `now`. */
    method StoreValue(contextKey: string, contextValue: string, generatedKey: string, ttl: nat, now: int)
      requires Valid() && MergeReady(Find(rows, generatedKey))
      modifies this
      ensures Valid()
      ensures rows == Stored(old(rows), contextKey, contextValue, generatedKey, ttl, now)
    {
      var existingContext := ContextKeyExits(contextKey, contextValue, generatedKey, now);
      rows := rows[generatedKey := Row(generatedKey, Some(ToDocument(existingContext)), now + ttl)];
    }

    /** The document the next write produces: merged into the stored one if there is a row, new otherwise. */
    method ContextKeyExits(contextKey: string, contextValue: string, generatedKey: string, now: int) returns (data: ContextData)
      requires MergeReady(Find(rows, generatedKey))
      ensures data == NextData(Find(rows, generatedKey), contextKey, contextValue, now)
    {
      if generatedKey !in rows {
        data := CreateNewContext(contextKey, contextValue, now);
        return;
      }
      var existingContext := rows[generatedKey].value;
      var updatedContext: map<string, string>;
      var createdAt := now;
      match existingContext {
        case None =>
          updatedContext := map[contextKey := contextValue];
        case Some(doc) =>
          updatedContext := MergeFields(doc.context.value, contextKey, contextValue);
          if doc.createdAt.Some? {
            createdAt := doc.createdAt.value;
          }
      }
      data := ContextData(createdAt, now, updatedContext);
    }

    /** The stored values of `keys` under `generatedKey`, or null. */
    method GetValue(generatedKey: string, keys: seq<string>) returns (values: Option<seq<Option<string>>>)
      ensures values == Read(rows, generatedKey, keys)
    {
      if generatedKey !in rows {
        return None;
      }
      match rows[generatedKey].value {
        case Some(Object(_, _, Some(contextNode))) =>
          values := Some(LookupAll(contextNode, keys));
        case _ =>
          values := None;
      }
    }

    /** Removes the row at `generatedKey`, if any. */
    method DeleteValue(generatedKey: string)
      requires Valid()
      modifies this
      ensures Valid()
      ensures rows == Deleted(old(rows), generatedKey)
    {
      rows := rows - {generatedKey};
    }
  }
}
