/**
 * The JSON document kept per session key by the context store, the row that
 * holds it, and the field-level merge that a write performs on it.
 */
module ContextDocuments {
  import opened Wrappers

  /** The document a write produces: creation and update time (epoch seconds) and the fields. */
  datatype ContextData = ContextData(createdAt: int, updatedAt: int, context: map<string, string>)

  /**
   * A stored JSON value as the service sees it when it reads a row back.
   * `Object` is a JSON object whose `createdAt`, `updatedAt` and `context`
   * members may each be missing; `Unreadable` is any value that is not such an
   * object or that cannot be parsed again.
   */
  datatype Document =
    | Object(createdAt: Option<int>, updatedAt: Option<int>, context: Option<map<string, string>>)
    | Unreadable

  /** One row of the `context_storage` table: primary key, JSON value (SQL null = None), expiry. */
  datatype Row = Row(key: string, value: Option<Document>, validUntil: int)

  /** The JSON tree a `ContextData` becomes when it is converted for storage. */
  function ToDocument(d: ContextData): Document
  {
    Object(Some(d.createdAt), Some(d.updatedAt), Some(d.context))
  }

  /** The text a JSON object gives for member `key`, or null when it has no such member. */
  function Field(fields: map<string, string>, key: string): Option<string>
  {
    if key in fields then Some(fields[key]) else None
  }

  /** The fields after `field := value` is folded into `fields`: overwritten if present, inserted if absent. */
  function Merged(fields: map<string, string>, field: string, value: string): (r: map<string, string>)
    ensures r.Keys == fields.Keys + {field}
    ensures r[field] == value
    ensures forall j :: j in fields && j != field ==> r[j] == fields[j]
  {
    fields[field := value]
  }

  /**
   * The merge as the service performs it: copy every stored entry into a fresh
   * map, replacing the value of `field` on the way, then add `field` if it was
   * not among them.
   */
  method MergeFields(fields: map<string, string>, field: string, value: string) returns (updated: map<string, string>)
    ensures updated == Merged(fields, field, value)
  {
    updated := map[];
    var pending := fields.Keys;
    while pending != {}
      invariant pending <= fields.Keys
      invariant updated.Keys == fields.Keys - pending
      invariant forall j :: j in updated ==> updated[j] == (if j == field then value else fields[j])
      decreases pending
    {
      var j :| j in pending;
      updated := updated[j := if j == field then value else fields[j]];
      pending := pending - {j};
    }
    if field !in updated {
      updated := updated[field := value];
    }
  }

  /**
   * What a write needs from the row it finds: no row, a row whose value is
   * null, or a JSON object that has a `context` member. Any other row makes
   * the merge dereference a missing node.
   */
  predicate MergeReady(existing: Option<Row>)
  {
    match existing
    case None => true
    case Some(row) =>
      match row.value
      case None => true
      case Some(doc) => doc.Object? && doc.context.Some?
  }

  /** The fields a write starts from: those of the stored `context` node, or none. */
  function PriorFields(existing: Option<Row>): map<string, string>
    requires MergeReady(existing)
  {
    if existing.Some? && existing.value.value.Some? then existing.value.value.value.context.value else map[]
  }

  /** The `createdAt` member of the stored document, when the row has one. */
  function PriorCreatedAt(existing: Option<Row>): Option<int>
  {
    match existing
    case None => None
    case Some(row) =>
      match row.value
      case Some(Object(createdAt, _, _)) => createdAt
      case _ => None
  }

  /** A document for a key that has no row yet: one field, both timestamps `now`. */
  function CreateNewContext(field: string, value: string, now: int): (d: ContextData)
    ensures d.context.Keys == {field} && d.context[field] == value
    ensures d.createdAt == now && d.updatedAt == now
  {
    ContextData(now, now, map[field := value])
  }

  /**
   * The document a write of `field := value` at time `now` produces from the
   * row it found.
   */
  function NextData(existing: Option<Row>, field: string, value: string, now: int): (d: ContextData)
    requires MergeReady(existing)
    ensures d.updatedAt == now
    ensures d.context.Keys == PriorFields(existing).Keys + {field}
    ensures d.context[field] == value
    ensures forall j :: j in PriorFields(existing) && j != field ==> d.context[j] == PriorFields(existing)[j]
    ensures PriorCreatedAt(existing).Some? ==> d.createdAt == PriorCreatedAt(existing).value
    ensures PriorCreatedAt(existing).None? ==> d.createdAt == now
  {
    match existing
    case None => CreateNewContext(field, value, now)
    case Some(row) =>
      match row.value
      case None => ContextData(now, now, map[field := value])
      case Some(doc) =>
        var createdAt := if doc.createdAt.Some? then doc.createdAt.value else now;
        ContextData(createdAt, now, Merged(doc.context.value, field, value))
  }

  /** The requested fields of a document, in request order, null where a field is missing. */
  function LookupAll(fields: map<string, string>, keys: seq<string>): (r: seq<Option<string>>)
    ensures |r| == |keys|
    ensures forall i :: 0 <= i < |keys| ==> r[i] == Field(fields, keys[i])
  {
    if keys == [] then [] else [Field(fields, keys[0])] + LookupAll(fields, keys[1..])
  }
}
