# Session context store — a Dafny model

This project models the session context store of the integration engine. An
integration chain uses it to keep small string-to-string documents between
otherwise stateless processing steps. Each document lives under a generated
key, `context:<context service id>:<session id>`. A write merges one field
into the document. A read returns the values of a list of fields. A delete
removes the document.

Three source files are modelled:

- `ContextStorageService` (module `ContextService`, with the documents and the
  merge in module `ContextDocuments`). The JPA repository behind it is a
  `map<string, Row>` held by the class `ContextStorageService`. `Row` is the
  `context_storage` entity: key, JSON value and `validUntil`. The JSON value is
  the datatype `Document`, shaped like `ContextData`. The pure functions
  `Stored`, `Read` and `Deleted` say what one call does to the table.
  `StoreValue`, `GetValue` and `DeleteValue` are proved against them.
  `ContextKeyExits` copies the stored fields in a loop, as the source does,
  and is proved to build `NextData` of the stored row. Its copy loop,
  `MergeFields`, is proved equal to the merge `Merged`.
- `ContextStorageProcessor` (module `ContextProcessor`). It covers the key
  builder, the comma-split field filter with Java's `String.split` rules, the
  single-key test, case-insensitive enum reading and the default connect
  timeout. It also covers dispatch of GET/SET/DELETE and the placement of the
  GET answer. The exchange is a class. Its session-context properties are a
  constant record of optional values. Its body, headers and properties are
  fields that a GET may write.
- The cache `ContextStorageRepository` (module `ContextRedis`): a class whose
  `values` map stands for the key/value store. It offers `Add`, `Get` and
  `Delete`, where `Delete` is get-and-delete.

Time is an integer `now` in epoch seconds, passed as a parameter. A missing
Java value (`null`) is `None`.

Behaviour of the code worth knowing:

- No expiry on read. `getValue` never looks at `validUntil`, so `Read`
  returns a document whatever its expiry. A lifetime of 0 does not hide a
  document.
- No identifier check. `createKey` concatenates whatever the properties hold.
  An absent id becomes the text `null`, as in Java string concatenation, and
  nothing fails. Two pairs of present ids give the same key only if they are
  equal, provided the context service ids contain no `:` (`CreateKeyInjective`).
  A `:` inside an id, or an absent id next to the id `null`, can make two pairs
  collide (`CreateKeyCollisions`).
- A read of a missing key or a missing context node returns null, not an
  empty list.
- TTL type mismatch. `processSetValue` (ContextStorageProcessor.java:92-94)
  turns the TTL property into a `LocalDateTime` and passes it to
  `storeValue`. But `storeValue` (ContextStorageService.java:47) takes `long`
  seconds. The model passes the TTL to the service as a number of seconds,
  unchanged.

Edge cases of the source that the model keeps:

- Absent SET value. Jackson stores JSON `null`, and every later read
  (`asText`) and merge turns it into the text `"null"`. The model stores
  `"null"`.
- Absent SET field name. The merge map accepts a null key, but converting the
  document to JSON fails on it. The SET fails before anything is saved
  (`MissingFieldName`).
- Absent TTL. Unboxing the property throws before any write (`MissingTtl`).
- Absent or unknown operation or target. The switch on a null enum throws, and
  `Enum.valueOf` throws on an unknown name. Nothing is changed.
- A stored value that is not a JSON object, or cannot be parsed again
  (`Document.Unreadable`), reads as null. This covers the catch block of
  `getValue`.
- The field filter follows `String.split(",")`. A filter with no comma is one
  field, even when it is empty. Otherwise trailing empty pieces are dropped,
  so `"a,b,,"` asks for `a` and `b`, and `","` asks for nothing.

## Model

| member | source | states |
|---|---|---|
| `ContextDocuments.Merged` | src/main/java/org/qubership/integration/platform/engine/service/contextstorage/ContextStorageService.java:61-67 | the merged fields are the old ones plus the written field; the written field has the new value whether it was present or not; every other field keeps its old value |
| `ContextDocuments.MergeFields` | src/main/java/org/qubership/integration/platform/engine/service/contextstorage/ContextStorageService.java:61-67 | the copy loop (replace the written field on the way) followed by put-if-absent computes exactly `Merged` |
| `ContextDocuments.CreateNewContext` | src/main/java/org/qubership/integration/platform/engine/service/contextstorage/ContextStorageService.java:80-88 | a new document holds only the written field with its value, and its creation and update times are both `now` |
| `ContextDocuments.NextData` | src/main/java/org/qubership/integration/platform/engine/service/contextstorage/ContextStorageService.java:57-78 | the next document has update time `now`; it keeps the stored creation time when there is one and otherwise uses `now`; its fields are the stored ones (none for a new row or a null value) with the written field set |
| `ContextDocuments.LookupAll` | src/main/java/org/qubership/integration/platform/engine/service/contextstorage/ContextStorageService.java:100-102 | one answer per requested key, same length and order; entry i is the stored text of key i, or null when the field is missing |
| `ContextService.Stored` | src/main/java/org/qubership/integration/platform/engine/service/contextstorage/ContextStorageService.java:47-55 | a write adds or replaces only the row at the generated key; that row is keyed by it, expires at `now + ttl` whatever it had before, and holds the next document |
| `ContextService.Read` | src/main/java/org/qubership/integration/platform/engine/service/contextstorage/ContextStorageService.java:90-109 | a read is null exactly when there is no row or no context node; otherwise it has one entry per requested key, in order, null for a missing field |
| `ContextService.Deleted` | src/main/java/org/qubership/integration/platform/engine/service/contextstorage/ContextStorageService.java:111-113 | a delete removes the row at the key and leaves every other row as it was |
| `ContextService.StoreThenRead` | src/main/java/org/qubership/integration/platform/engine/service/contextstorage/ContextStorageService.java:47-77 | reading the written field right after a write returns `[value]` |
| `ContextService.StoreKeepsOtherFields` | src/main/java/org/qubership/integration/platform/engine/service/contextstorage/ContextStorageService.java:63-66 | a write leaves the answer for every other field of the stored document unchanged |
| `ContextService.StoreFieldSet` | src/main/java/org/qubership/integration/platform/engine/service/contextstorage/ContextStorageService.java:64-67 | after a write the row has a context node, and its field set is the old field set plus the written field |
| `ContextService.OnlyItsRowChanges` | src/main/java/org/qubership/integration/platform/engine/service/contextstorage/ContextStorageService.java:47-113 | a write or a delete at one key does not change any read at another key |
| `ContextService.DeleteThenRead` | src/main/java/org/qubership/integration/platform/engine/service/contextstorage/ContextStorageService.java:111-113 | after a delete every read at that key is null, and deleting twice is the same as deleting once |
| `ContextService.TwoWritesMerge` | src/main/java/org/qubership/integration/platform/engine/service/contextstorage/ContextStorageService.java:57-78 | writing field a and then field b under one key makes a read of `[a, b]` return both values in order |
| `ContextService.OverwriteKeepsCreatedAt` | src/main/java/org/qubership/integration/platform/engine/service/contextstorage/ContextStorageService.java:72-73 | two writes of one field to a new key: the second value wins, the creation time stays that of the first write, the update time and expiry are those of the second |
| `ContextService.ContextStorageService.constructor` | src/main/java/org/qubership/integration/platform/engine/service/contextstorage/ContextStorageService.java:40-45 | the service starts over the given repository content |
| `ContextService.ContextStorageService.StoreValue` | src/main/java/org/qubership/integration/platform/engine/service/contextstorage/ContextStorageService.java:47-55 | the table afterwards is `Stored` of the table before; every row stays under its own key |
| `ContextService.ContextStorageService.ContextKeyExits` | src/main/java/org/qubership/integration/platform/engine/service/contextstorage/ContextStorageService.java:57-78 | the document it builds from the stored row is `NextData` of that row |
| `ContextService.ContextStorageService.GetValue` | src/main/java/org/qubership/integration/platform/engine/service/contextstorage/ContextStorageService.java:90-109 | the answer is `Read` of the current table, and the table is not changed |
| `ContextService.ContextStorageService.DeleteValue` | src/main/java/org/qubership/integration/platform/engine/service/contextstorage/ContextStorageService.java:111-113 | the table afterwards is `Deleted` of the table before |
| `ContextProcessor.Show` | src/main/java/org/qubership/integration/platform/engine/camel/processors/ContextStorageProcessor.java:119 | a present id is used as it is; an absent one is the text `null` |
| `ContextProcessor.CreateKey` | src/main/java/org/qubership/integration/platform/engine/camel/processors/ContextStorageProcessor.java:116-120 | the key starts with `context:`, continues with the context service id, a `:` and the session id, and has exactly that length |
| `ContextProcessor.CreateKeyInjective` | src/main/java/org/qubership/integration/platform/engine/camel/processors/ContextStorageProcessor.java:116-120 | two present id pairs give the same key only when they are equal, provided the context service ids contain no `:` |
| `ContextProcessor.CreateKeyCollisions` | src/main/java/org/qubership/integration/platform/engine/camel/processors/ContextStorageProcessor.java:116-120 | without that proviso keys collide: `a:b`/`c` and `a`/`b:c`, and an absent id and the id `null` |
| `ContextProcessor.SplitAll` | src/main/java/org/qubership/integration/platform/engine/camel/processors/ContextStorageProcessor.java:74 | the pieces of a filter between commas: at least one, none containing a comma |
| `ContextProcessor.JoinSplitAll` | src/main/java/org/qubership/integration/platform/engine/camel/processors/ContextStorageProcessor.java:74 | joining the pieces with commas gives back the filter |
| `ContextProcessor.DropTrailingEmpty` | src/main/java/org/qubership/integration/platform/engine/camel/processors/ContextStorageProcessor.java:74 | the result is a prefix of the pieces, does not end in an empty piece, and only empty pieces were dropped |
| `ContextProcessor.IsSingleKey` | src/main/java/org/qubership/integration/platform/engine/camel/processors/ContextStorageProcessor.java:102-104 | the filter is a single key if and only if it splits into exactly one piece |
| `ContextProcessor.SingleKeyIsOnePiece` | src/main/java/org/qubership/integration/platform/engine/camel/processors/ContextStorageProcessor.java:102-104 | a single-key filter gives the field list holding just the filter |
| `ContextProcessor.FieldList` | src/main/java/org/qubership/integration/platform/engine/camel/processors/ContextStorageProcessor.java:73-75 | no fields when the keys property is absent; a comma-free filter (even an empty one) is kept whole; otherwise the pieces in order, a prefix of all pieces that leaves out exactly the trailing empty pieces |
| `ContextProcessor.ToUpperCase` | src/main/java/org/qubership/integration/platform/engine/camel/processors/ContextStorageProcessor.java:108 | upper-casing keeps the length and upper-cases each letter |
| `ContextProcessor.OperationValueOf` | src/main/java/org/qubership/integration/platform/engine/camel/processors/ContextStorageProcessor.java:25-29 | a name gives an operation exactly when it is that operation's name |
| `ContextProcessor.TargetValueOf` | src/main/java/org/qubership/integration/platform/engine/camel/processors/ContextStorageProcessor.java:31-35 | a name gives a target exactly when it is that target's name |
| `ContextProcessor.ReadEnumValue` | src/main/java/org/qubership/integration/platform/engine/camel/processors/ContextStorageProcessor.java:106-110 | absent property gives null; otherwise the constant `valueOf` gives for the upper-cased text, and an unknown-name failure carrying that text when there is none |
| `ContextProcessor.ReadOperation` | src/main/java/org/qubership/integration/platform/engine/camel/processors/ContextStorageProcessor.java:106-110 | absent property gives null; otherwise the operation whose name equals the upper-cased text; any other text is an unknown name |
| `ContextProcessor.ReadTarget` | src/main/java/org/qubership/integration/platform/engine/camel/processors/ContextStorageProcessor.java:106-110 | the same reading for the target property |
| `ContextProcessor.ReadIgnoresCase` | src/main/java/org/qubership/integration/platform/engine/camel/processors/ContextStorageProcessor.java:106-110 | a property and its upper-cased spelling read as the same constant |
| `ContextProcessor.ConnectTimeout` | src/main/java/org/qubership/integration/platform/engine/camel/processors/ContextStorageProcessor.java:112-114 | 120000 ms when the property is absent, the given value otherwise |
| `ContextProcessor.SetHeader` | src/main/java/org/qubership/integration/platform/engine/camel/processors/ContextStorageProcessor.java:84 | the header is set under the name, it is the only header left whose name matches regardless of letter case, and every header with a different name keeps its value |
| `ContextProcessor.SetProperty` | src/main/java/org/qubership/integration/platform/engine/camel/processors/ContextStorageProcessor.java:85 | a null answer removes the property and any other answer is stored under the name; every other property keeps its value |
| `ContextProcessor.GetOutcome` | src/main/java/org/qubership/integration/platform/engine/camel/processors/ContextStorageProcessor.java:72-87 | a GET succeeds exactly when the target is known and, unless it is the body, a target name is given; an absent target fails as missing, an unknown one as unknown with its upper-cased name, and a header or property target without a name as a missing target name |
| `ContextProcessor.SetOutcome` | src/main/java/org/qubership/integration/platform/engine/camel/processors/ContextStorageProcessor.java:89-95 | a SET succeeds exactly when a TTL and a field name are given; a missing TTL is reported first, then a missing field name |
| `ContextProcessor.ProcessOutcome` | src/main/java/org/qubership/integration/platform/engine/camel/processors/ContextStorageProcessor.java:62-70 | a request fails with a missing operation exactly when the property is absent, and with an unknown operation carrying the upper-cased name when no constant has it; otherwise it ends as the named operation ends; a DELETE always succeeds |
| `ContextProcessor.ContextStorageProcessor.constructor` | src/main/java/org/qubership/integration/platform/engine/camel/processors/ContextStorageProcessor.java:55-60 | the processor uses the given service |
| `ContextProcessor.ContextStorageProcessor.Process` | src/main/java/org/qubership/integration/platform/engine/camel/processors/ContextStorageProcessor.java:62-70 | exactly one of get, set or delete happens, at the generated key of the exchange: GET changes only the exchange, SET and DELETE change only the store; a failure changes nothing |
| `ContextProcessor.ContextStorageProcessor.ProcessGetValue` | src/main/java/org/qubership/integration/platform/engine/camel/processors/ContextStorageProcessor.java:72-87 | the answer for the comma-split field list at the generated key goes to exactly one of body, header `name` (replacing a header whose name differs only in letter case) or property `name` (removed when the answer is null); the other two are unchanged |
| `ContextProcessor.ContextStorageProcessor.ProcessSetValue` | src/main/java/org/qubership/integration/platform/engine/camel/processors/ContextStorageProcessor.java:89-95 | the store afterwards is `Stored` with the exchange's field, value, generated key and TTL; a failure leaves it unchanged |
| `ContextProcessor.ContextStorageProcessor.DeleteSessionContext` | src/main/java/org/qubership/integration/platform/engine/camel/processors/ContextStorageProcessor.java:97-100 | the store afterwards is `Deleted` at the generated key |
| `ContextProcessor.SetThenGetSameKey` | src/main/java/org/qubership/integration/platform/engine/camel/processors/ContextStorageProcessor.java:72-95 | a SET and then a GET of that single field, with the same context and session ids, reads back the value written |
| `ContextRedis.ContextStorageRepository.constructor` | src/main/java/org/qubership/integration/platform/engine/camel/context/storage/ContextStorageRepository.java:16-23 | the repository starts over the given store content |
| `ContextRedis.ContextStorageRepository.Add` | src/main/java/org/qubership/integration/platform/engine/camel/context/storage/ContextStorageRepository.java:26-28 | the value is stored under the key, replacing any previous one, and every other key is unchanged |
| `ContextRedis.ContextStorageRepository.Get` | src/main/java/org/qubership/integration/platform/engine/camel/context/storage/ContextStorageRepository.java:30-32 | returns the stored value, or null when the key is absent; the store is not changed |
| `ContextRedis.ContextStorageRepository.Delete` | src/main/java/org/qubership/integration/platform/engine/camel/context/storage/ContextStorageRepository.java:34-36 | returns the value held before the call, or null; afterwards the key is absent and every other key is unchanged |
| `ContextRedis.AddGetDelete` | src/main/java/org/qubership/integration/platform/engine/camel/context/storage/ContextStorageRepository.java:26-36 | add, then get, then delete of one key: the get and the delete both return the added value, the key is gone afterwards, and other keys are as they were |

## Left out

- The clock. `Instant.now()` is called up to three times per write, for the creation time, the update time and `validUntil`. The model uses one `now` parameter for all three.
- JSON text. Jackson's `convertValue`, `readTree` and `asText` are not modelled. The stored value is the datatype `Document`. Stored context values are taken to be strings, which is all this code writes.
- `Long` and `LocalDateTime` ranges. Overflow of `now + ttl` and the date-time range are not modelled. Integers are unbounded.
- Negative TTLs are not modelled. The TTL is a natural number of seconds, although `storeValue` takes a signed `long` and `plusSeconds` accepts a negative value.
- `ContextProcessor.ToUpperCase`: upper-cases ASCII letters only. Java's locale-sensitive Unicode upper-casing, under which a few non-ASCII letters map to ASCII capitals, is not modelled.
- `ContextProcessor.ContextStorageProcessor.ProcessGetValue`: a HEADER or PROPERTY target with no target name is a failure that changes nothing. The framework's exact behaviour for a null header or property name is not part of this model.
- `ContextProcessor.SetHeader`: header names are matched up to ASCII letter case, as `ToUpperCase` does. The framework's header map keeps the spelling of the name already present, but the model keeps the new spelling. A lookup ignoring case sees the same value either way.
- The exchange's own properties. The session-context inputs are a fixed record, separate from the property map a GET writes to. A target name equal to one of the input property names therefore does not change the inputs in the model.
- The unwrap option and the use of the connect timeout in GET. Both are commented out in the source (ContextStorageProcessor.java:79-80). `ConnectTimeout` is modelled but nothing calls it.
- `Document` and `MergeReady`: a stored JSON object whose `context` member is present but is not an object (JSON `null`, a string, a number) is not modelled. The code then reads a list of nulls, one per requested key, and a write replaces that member with the merged fields. The model has no such document: it is either read as having no context node, or excluded from writes by `MergeReady`. This code never writes such a document.
- A stored value with no `context` node, or one that is not a JSON object, makes a write dereference a missing node. The model makes this a precondition (`MergeReady`) of `StoreValue` and of a SET in `Process` that has a TTL (a SET without one fails before the row is read). It is not a modelled failure.
- The read-modify-write race between `findById` and `save`. This is a concurrency matter. The model is sequential.
- `deleteById` on a missing key does nothing in the model. Versions of the repository library that throw in that case are not modelled.
- The cache repository's `redisTemplate`, `objectMapper` and serializers, and the rejection of null keys or values by the Redis client. The model's keys and values are never null.
- Spring wiring (`RedisAutoConfiguration`), deployment-time registry binding (`ContextStorageDependencyBinder`), the JPA interface as code, and the unused `ContextStorage` DTO. These are not part of this model.
