/**
 * The pipeline step that reads the session-context request from the
 * exchange's properties, builds the composite key and performs one GET, SET
 * or DELETE against the context storage service, placing a GET's answer in
 * the body, a header or a property.
 */
module ContextProcessor {
  import opened Wrappers
  import opened ContextDocuments
  import opened ContextService

  // ---------------------------------------------------------------- keys

  const Context: string := "context"

  /** How Java string concatenation renders a possibly-null String. */
  function Show(p: Option<string>): (s: string)
    ensures p.Some? ==> s == p.value
    ensures p.None? ==> s == "null"
  {
    match p
    case None => "null"
    case Some(text) => text
  }

  /** The generated storage key: `context`, the context service id and the session id, joined by `:`. */
  function CreateKey(contextServiceId: Option<string>, sessionId: Option<string>): (key: string)
    ensures |key| == 9 + |Show(contextServiceId)| + |Show(sessionId)|
    ensures key[..8] == "context:"
    ensures key[8..8 + |Show(contextServiceId)|] == Show(contextServiceId)
    ensures key[8 + |Show(contextServiceId)|] == ':'
    ensures key[9 + |Show(contextServiceId)|..] == Show(sessionId)
  {
    Context + ":" + Show(contextServiceId) + ":" + Show(sessionId)
  }

  /** Two present identifier pairs give the same key only if they are equal, when the context service id has no `:`. */
  lemma CreateKeyInjective(contextServiceId: string, sessionId: string, contextServiceId': string, sessionId': string)
    requires ':' !in contextServiceId && ':' !in contextServiceId'
    requires CreateKey(Some(contextServiceId), Some(sessionId)) == CreateKey(Some(contextServiceId'), Some(sessionId'))
    ensures contextServiceId == contextServiceId' && sessionId == sessionId'
  {
  }

  /** Without that condition keys collide: a `:` inside an id, or an absent id next to the id "null". */
  lemma CreateKeyCollisions()
    ensures CreateKey(Some("a:b"), Some("c")) == CreateKey(Some("a"), Some("b:c"))
    ensures CreateKey(None, Some("s")) == CreateKey(Some("null"), Some("s"))
  {
  }

  // ------------------------------------------------------ field filter

  /** The pieces of `s` between commas, empty pieces included. */
  function SplitAll(s: string): (pieces: seq<string>)
    ensures |pieces| >= 1
    ensures forall i :: 0 <= i < |pieces| ==> ',' !in pieces[i]
  {
    if s == [] then [[]]
    else
      var rest := SplitAll(s[1..]);
      if s[0] == ',' then [[]] + rest else [[s[0]] + rest[0]] + rest[1..]
  }

  function JoinWithCommas(pieces: seq<string>): string
    requires |pieces| >= 1
  {
    if |pieces| == 1 then pieces[0] else pieces[0] + "," + JoinWithCommas(pieces[1..])
  }

  /** Joining the pieces with commas gives back the filter: the pieces are the filter's, in order. */
  lemma {:induction false} JoinSplitAll(s: string)
    ensures JoinWithCommas(SplitAll(s)) == s
  {
    if s != [] {
      var rest := SplitAll(s[1..]);
      JoinSplitAll(s[1..]);
      if s[0] == ',' {
        assert SplitAll(s)[1..] == rest;
        assert JoinWithCommas(SplitAll(s)) == [] + "," + s[1..];
      } else {
        var pieces := SplitAll(s);
        assert pieces[0] == [s[0]] + rest[0] && pieces[1..] == rest[1..];
        if |rest| == 1 {
          assert JoinWithCommas(pieces) == [s[0]] + rest[0];
        } else {
          assert JoinWithCommas(rest) == rest[0] + "," + JoinWithCommas(rest[1..]);
          assert JoinWithCommas(pieces) == [s[0]] + rest[0] + "," + JoinWithCommas(rest[1..]);
        }
        assert s == [s[0]] + s[1..];
      }
    }
  }

  /** `pieces` without its trailing empty strings. */
  function DropTrailingEmpty(pieces: seq<string>): (r: seq<string>)
    ensures r <= pieces
    ensures r == [] || r[|r| - 1] != []
    ensures forall i :: |r| <= i < |pieces| ==> pieces[i] == []
  {
    if pieces != [] && pieces[|pieces| - 1] == [] then DropTrailingEmpty(pieces[..|pieces| - 1]) else pieces
  }

  lemma {:induction false} SplitAllWithoutComma(s: string)
    requires ',' !in s
    ensures SplitAll(s) == [s]
  {
    if s != [] {
      SplitAllWithoutComma(s[1..]);
      assert s == [s[0]] + s[1..];
    }
  }

  /**
   * The field names a GET asks for: none when the keys property is absent,
   * else `filter.split(",")` as Java computes it: the whole filter (even an
   * empty one) when it has no comma, otherwise its comma-separated pieces in
   * order with every trailing empty piece dropped.
   */
  function FieldList(keys: Option<string>): (fields: seq<string>)
    ensures keys.None? ==> fields == []
    ensures keys.Some? ==> fields <= SplitAll(keys.value)
    ensures keys.Some? ==> forall i :: |fields| <= i < |SplitAll(keys.value)| ==> SplitAll(keys.value)[i] == []
    ensures keys.Some? && ',' !in keys.value ==> fields == [keys.value]
    ensures keys.Some? && ',' in keys.value ==> fields == [] || fields[|fields| - 1] != []
  {
    match keys
    case None => []
    case Some(filter) =>
      if ',' !in filter then SplitAllWithoutComma(filter); [filter]
      else DropTrailingEmpty(SplitAll(filter))
  }

  /** A string is one piece exactly when it has no comma. */
  lemma {:induction false} OnePieceWithoutComma(s: string)
    ensures |SplitAll(s)| == 1 <==> ',' !in s
  {
    if s != [] {
      OnePieceWithoutComma(s[1..]);
      assert ',' in s <==> s[0] == ',' || ',' in s[1..] by {
        assert s == [s[0]] + s[1..];
      }
    }
  }

  /** The filter names one field exactly when it has no comma, that is, when it is a single piece. */
  function IsSingleKey(filter: string): (single: bool)
    ensures single <==> |SplitAll(filter)| == 1
  {
    OnePieceWithoutComma(filter);
    ',' !in filter
  }

  /** A single-key filter asks for exactly the field it names. */
  lemma SingleKeyIsOnePiece(filter: string)
    ensures IsSingleKey(filter) ==> FieldList(Some(filter)) == [filter]
  {
  }

  // -------------------------------------------------------------- enums

  datatype Operation = Get | Set | Delete

  datatype Target = Header | Property | Body

  /** The outcome of reading an enum-valued property: absent, a constant, or a name no constant has. */
  datatype EnumRead<T> = Absent | Found(constant: T) | NoSuchConstant(name: string)

  /** Upper-casing of one character (ASCII letters only). */
  function UpperChar(c: char): char
  {
    if 'a' <= c <= 'z' then (c as int - 32) as char else c
  }

  function ToUpperCase(s: string): (r: string)
    ensures |r| == |s|
    ensures forall i :: 0 <= i < |s| ==> r[i] == UpperChar(s[i])
  {
    if s == [] then [] else [UpperChar(s[0])] + ToUpperCase(s[1..])
  }

  /** The constant of an enum-valued property: looked up by its upper-cased text with `valueOf`. */
  function ReadEnumValue<T>(property: Option<string>, valueOf: string -> Option<T>): (r: EnumRead<T>)
    ensures r.Absent? <==> property.None?
    ensures property.Some? ==> (r.Found? <==> valueOf(ToUpperCase(property.value)).Some?)
    ensures r.Found? ==> valueOf(ToUpperCase(property.value)) == Some(r.constant)
    ensures r.NoSuchConstant? ==> r.name == ToUpperCase(property.value)
  {
    match property
    case None => Absent
    case Some(text) =>
      var name := ToUpperCase(text);
      match valueOf(name)
      case Some(constant) => Found(constant)
      case None => NoSuchConstant(name)
  }

  function OperationName(op: Operation): string
  {
    match op
    case Get => "GET"
    case Set => "SET"
    case Delete => "DELETE"
  }

  /** `Operation.valueOf`: the constant with exactly this name. */
  function OperationValueOf(name: string): (r: Option<Operation>)
    ensures forall op :: r == Some(op) <==> name == OperationName(op)
  {
    if name == "GET" then Some(Get)
    else if name == "SET" then Some(Set)
    else if name == "DELETE" then Some(Delete)
    else None
  }

  function TargetName(target: Target): string
  {
    match target
    case Header => "HEADER"
    case Property => "PROPERTY"
    case Body => "BODY"
  }

  /** `Target.valueOf`: the constant with exactly this name. */
  function TargetValueOf(name: string): (r: Option<Target>)
    ensures forall t :: r == Some(t) <==> name == TargetName(t)
  {
    if name == "HEADER" then Some(Header)
    else if name == "PROPERTY" then Some(Property)
    else if name == "BODY" then Some(Body)
    else None
  }

  /** The operation property, read case-insensitively. */
  function ReadOperation(property: Option<string>): (r: EnumRead<Operation>)
    ensures r.Absent? <==> property.None?
    ensures forall op :: r == Found(op) <==> property.Some? && ToUpperCase(property.value) == OperationName(op)
  {
    ReadEnumValue(property, OperationValueOf)
  }

  /** The target property, read case-insensitively. */
  function ReadTarget(property: Option<string>): (r: EnumRead<Target>)
    ensures r.Absent? <==> property.None?
    ensures forall t :: r == Found(t) <==> property.Some? && ToUpperCase(property.value) == TargetName(t)
  {
    ReadEnumValue(property, TargetValueOf)
  }

  /** Any spelling of a constant's name, whatever its letter case, reads as that constant. */
  lemma ReadIgnoresCase(text: string)
    ensures ReadOperation(Some(text)) == ReadOperation(Some(ToUpperCase(text)))
    ensures ReadTarget(Some(text)) == ReadTarget(Some(ToUpperCase(text)))
  {
  }

  // ----------------------------------------------------- connect timeout

  const DefaultConnectTimeoutMillis: int := 120000

  /** The connect timeout in milliseconds: the property's value, or two minutes when it is absent. */
  function ConnectTimeout(property: Option<int>): (millis: int)
    ensures property.None? ==> millis == 120000
    ensures property.Some? ==> millis == property.value
  {
    match property
    case None => DefaultConnectTimeoutMillis
    case Some(m) => m
  }

  // ------------------------------------------------------------ exchange

  /** The session-context properties of an exchange, each possibly absent. */
  datatype SessionProperties = SessionProperties(
    operation: Option<string>,
    contextId: Option<string>,
    sessionId: Option<string>,
    key: Option<string>,
    value: Option<string>,
    ttl: Option<nat>,
    keys: Option<string>,
    target: Option<string>,
    targetName: Option<string>,
    connectTimeout: Option<int>)

  /** What a destination can hold: something the step did not put there, or a GET's answer (possibly null). */
  datatype Value = Opaque(text: string) | ContextValues(values: Option<seq<Option<string>>>)

  /** The three places a GET can write to. */
  datatype Outputs = Outputs(body: Value, headers: map<string, Value>, properties: map<string, Value>)

  class Exchange {
    const session: SessionProperties
    var body: Value
    var headers: map<string, Value>
    var properties: map<string, Value>

    constructor (session: SessionProperties, body: Value, headers: map<string, Value>, properties: map<string, Value>)
      ensures this.session == session && Destinations() == Outputs(body, headers, properties)
    {
      this.session := session;
      this.body := body;
      this.headers := headers;
      this.properties := properties;
    }

    /** The body, headers and properties, the destinations a GET can write to. */
    function Destinations(): Outputs
      reads this
    {
      Outputs(body, headers, properties)
    }
  }

  /** Header names are compared without regard to letter case. */
  predicate SameHeaderName(a: string, b: string)
  {
    ToUpperCase(a) == ToUpperCase(b)
  }

  /**
   * `setHeader(name, value)`: the header is set under `name`, and any header
   * whose name differs from it only in letter case is replaced by it.
   */
  function SetHeader(headers: map<string, Value>, name: string, value: Value): (r: map<string, Value>)
    ensures name in r && r[name] == value
    ensures forall k :: k in r && SameHeaderName(k, name) ==> k == name
    ensures forall k :: k in r <==> k == name || (k in headers && !SameHeaderName(k, name))
    ensures forall k :: k in r && k != name ==> r[k] == headers[k]
  {
    (map k | k in headers && !SameHeaderName(k, name) :: headers[k])[name := value]
  }

  /** `setProperty(name, value)`: a null answer removes the property, any other value is stored under `name`. */
  function SetProperty(properties: map<string, Value>, name: string, value: Value): (r: map<string, Value>)
    ensures name in r <==> value != ContextValues(None)
    ensures name in r ==> r[name] == value
    ensures forall k :: k != name ==> (k in r <==> k in properties)
    ensures forall k :: k != name && k in r ==> r[k] == properties[k]
  {
    if value == ContextValues(None) then properties - {name} else properties[name := value]
  }

  /** `result` was put at exactly one destination, chosen by `target`, and the other two are as they were. */
  predicate PlacedAt(target: Target, name: Option<string>, result: Value, before: Outputs, after: Outputs)
  {
    match target
    case Body => after == before.(body := result)
    case Header => name.Some? && after == before.(headers := SetHeader(before.headers, name.value, result))
    case Property => name.Some? && after == before.(properties := SetProperty(before.properties, name.value, result))
  }

  // ------------------------------------------------------------ outcomes

  /** Why a request fails; every failure happens before the store or the exchange is changed. */
  datatype Failure =
    | MissingOperation
    | UnknownOperation(operation: string)
    | MissingTarget
    | UnknownTarget(target: string)
    | MissingTargetName
    | MissingTtl
    | MissingFieldName

  datatype Outcome = Done | Failed(failure: Failure)

  function KeyOf(s: SessionProperties): string
  {
    CreateKey(s.contextId, s.sessionId)
  }

  /** How a GET ends: it needs a known target, and a name unless the target is the body. */
  function GetOutcome(s: SessionProperties): (r: Outcome)
    ensures r == Done <==> ReadTarget(s.target).Found? && (ReadTarget(s.target).constant != Body ==> s.targetName.Some?)
    ensures r == Failed(MissingTarget) <==> s.target.None?
    ensures ReadTarget(s.target).NoSuchConstant? ==> r == Failed(UnknownTarget(ReadTarget(s.target).name))
    ensures ReadTarget(s.target).Found? && ReadTarget(s.target).constant != Body && s.targetName.None? ==> r == Failed(MissingTargetName)
  {
    match ReadTarget(s.target)
    case Absent => Failed(MissingTarget)
    case NoSuchConstant(name) => Failed(UnknownTarget(name))
    case Found(target) => if target != Body && s.targetName.None? then Failed(MissingTargetName) else Done
  }

  /** How a SET ends: it needs a lifetime and a field name. */
  function SetOutcome(s: SessionProperties): (r: Outcome)
    ensures r == Done <==> s.ttl.Some? && s.key.Some?
    ensures s.ttl.None? ==> r == Failed(MissingTtl)
    ensures s.ttl.Some? && s.key.None? ==> r == Failed(MissingFieldName)
  {
    if s.ttl.None? then Failed(MissingTtl)
    else if s.key.None? then Failed(MissingFieldName)
    else Done
  }

  /** How a request ends: it needs a known operation, then whatever that operation needs. */
  function ProcessOutcome(s: SessionProperties): (r: Outcome)
    ensures r == Failed(MissingOperation) <==> s.operation.None?
    ensures ReadOperation(s.operation).NoSuchConstant? ==> r == Failed(UnknownOperation(ReadOperation(s.operation).name))
    ensures ReadOperation(s.operation) == Found(Delete) ==> r == Done
    ensures ReadOperation(s.operation) == Found(Get) ==> r == GetOutcome(s)
    ensures ReadOperation(s.operation) == Found(Set) ==> r == SetOutcome(s)
  {
    match ReadOperation(s.operation)
    case Absent => Failed(MissingOperation)
    case NoSuchConstant(name) => Failed(UnknownOperation(name))
    case Found(Get) => GetOutcome(s)
    case Found(Set) => SetOutcome(s)
    case Found(Delete) => Done
  }

  /** What a SET of an exchange needs from the row it will merge into, once it has a lifetime and reaches the store. */
  predicate SetReady(s: SessionProperties, rows: Table)
  {
    ReadOperation(s.operation) == Found(Set) && s.ttl.Some? ==> MergeReady(Find(rows, KeyOf(s)))
  }

  // ----------------------------------------------------------- processor

  class ContextStorageProcessor {
    const service: ContextStorageService

    constructor (service: ContextStorageService)
      ensures this.service == service
    {
      this.service := service;
    }

    /** Performs the one operation the exchange names, at time `now`. */
    method Process(exchange: Exchange, now: int) returns (outcome: Outcome)
      requires service.Valid() && SetReady(exchange.session, service.rows)
      modifies exchange, service
      ensures service.Valid()
      ensures outcome == ProcessOutcome(exchange.session)
      ensures outcome.Failed? ==> service.rows == old(service.rows) && exchange.Destinations() == old(exchange.Destinations())
      ensures ReadOperation(exchange.session.operation) != Found(Get) ==> exchange.Destinations() == old(exchange.Destinations())
      ensures ReadOperation(exchange.session.operation) == Found(Get) ==> service.rows == old(service.rows)
      ensures ReadOperation(exchange.session.operation) == Found(Get) && outcome == Done ==>
                var s := exchange.session;
                PlacedAt(ReadTarget(s.target).constant, s.targetName,
                         ContextValues(Read(service.rows, KeyOf(s), FieldList(s.keys))),
                         old(exchange.Destinations()), exchange.Destinations())
      ensures ReadOperation(exchange.session.operation) == Found(Set) && outcome == Done ==>
                var s := exchange.session;
                service.rows == Stored(old(service.rows), s.key.value, Show(s.value), KeyOf(s), s.ttl.value, now)
      ensures ReadOperation(exchange.session.operation) == Found(Delete) ==>
                service.rows == Deleted(old(service.rows), KeyOf(exchange.session))
    {
      var operation := ReadOperation(exchange.session.operation);
      match operation
      case Absent =>
        outcome := Failed(MissingOperation);
      case NoSuchConstant(name) =>
        outcome := Failed(UnknownOperation(name));
      case Found(Get) =>
        outcome := ProcessGetValue(exchange);
      case Found(Set) =>
        outcome := ProcessSetValue(exchange, now);
      case Found(Delete) =>
        DeleteSessionContext(exchange);
        outcome := Done;
    }

    /** Reads the requested fields under the exchange's key and puts the answer where the target says. */
    method ProcessGetValue(exchange: Exchange) returns (outcome: Outcome)
      modifies exchange
      ensures outcome == GetOutcome(exchange.session)
      ensures outcome.Failed? ==> exchange.Destinations() == old(exchange.Destinations())
      ensures outcome == Done ==>
                var s := exchange.session;
                PlacedAt(ReadTarget(s.target).constant, s.targetName,
                         ContextValues(Read(service.rows, KeyOf(s), FieldList(s.keys))),
                         old(exchange.Destinations()), exchange.Destinations())
    {
      var contextKey := FieldList(exchange.session.keys);
      var target := ReadTarget(exchange.session.target);
      if target.NoSuchConstant? {
        return Failed(UnknownTarget(target.name));
      }
      var name := exchange.session.targetName;
      var generatedKey := CreateKey(exchange.session.contextId, exchange.session.sessionId);
      var value := service.GetValue(generatedKey, contextKey);
      match target {
        case Absent =>
          outcome := Failed(MissingTarget);
        case Found(Body) =>
          exchange.body := ContextValues(value);
          outcome := Done;
        case Found(Header) =>
          if name.None? {
            return Failed(MissingTargetName);
          }
          exchange.headers := SetHeader(exchange.headers, name.value, ContextValues(value));
          outcome := Done;
        case Found(Property) =>
          if name.None? {
            return Failed(MissingTargetName);
          }
          exchange.properties := SetProperty(exchange.properties, name.value, ContextValues(value));
          outcome := Done;
      }
    }

    /** Merges the exchange's field and value into the document under its key, with the exchange's lifetime. */
    method ProcessSetValue(exchange: Exchange, now: int) returns (outcome: Outcome)
      requires service.Valid() && (exchange.session.ttl.Some? ==> MergeReady(Find(service.rows, KeyOf(exchange.session))))
      modifies service
      ensures service.Valid()
      ensures outcome == SetOutcome(exchange.session)
      ensures outcome.Failed? ==> service.rows == old(service.rows)
      ensures outcome == Done ==>
                var s := exchange.session;
                service.rows == Stored(old(service.rows), s.key.value, Show(s.value), KeyOf(s), s.ttl.value, now)
    {
      var contextKey := exchange.session.key;
      var contextValue := Show(exchange.session.value);
      if exchange.session.ttl.None? {
        return Failed(MissingTtl);
      }
      var ttl := exchange.session.ttl.value;
      var generatedKey := CreateKey(exchange.session.contextId, exchange.session.sessionId);
      if contextKey.None? {
        return Failed(MissingFieldName);
      }
      service.StoreValue(contextKey.value, contextValue, generatedKey, ttl, now);
      outcome := Done;
    }

    /** Deletes the document under the exchange's key. */
    method DeleteSessionContext(exchange: Exchange)
      requires service.Valid()
      modifies service
      ensures service.Valid()
      ensures service.rows == Deleted(old(service.rows), KeyOf(exchange.session))
    {
      var generatedKey := CreateKey(exchange.session.contextId, exchange.session.sessionId);
      service.DeleteValue(generatedKey);
    }
  }

  /** A SET and then a GET of the same field through one exchange's properties read back the value written. */
  lemma SetThenGetSameKey(writer: SessionProperties, reader: SessionProperties, rows: Table, now: int)
    requires writer.contextId == reader.contextId && writer.sessionId == reader.sessionId
    requires writer.ttl.Some? && writer.key.Some? && reader.keys == writer.key && IsSingleKey(writer.key.value)
    requires MergeReady(Find(rows, KeyOf(writer)))
    ensures Read(Stored(rows, writer.key.value, Show(writer.value), KeyOf(writer), writer.ttl.value, now), KeyOf(reader), FieldList(reader.keys))
            == Some([Some(Show(writer.value))])
  {
    SingleKeyIsOnePiece(writer.key.value);
    StoreThenRead(rows, writer.key.value, Show(writer.value), KeyOf(writer), writer.ttl.value, now);
  }
}
