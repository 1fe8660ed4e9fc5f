/** The JSON-RPC 2.0 envelope: encoding, decoding and classification by shape. */
module JsonRpc {
  import opened Wrappers
  import opened JsonValue

  const VERSION := "2.0"

  datatype RequestId = Number(n: Int64) | Text(s: string) | NoId

  datatype ErrorObject = ErrorObject(code: Int64, message: string, data: Option<Json>)

  datatype Request = Request(id: RequestId, name: string, params: Option<Json>)

  datatype Notification = Notification(name: string, params: Option<Json>)

  datatype Payload = Success(result: Json) | Failure(error: ErrorObject)

  datatype Response = Response(id: RequestId, payload: Payload)

  datatype Message =
    | Requesting(request: Request)
    | Notifying(notification: Notification)
    | Responding(response: Response)

  function EncodeId(id: RequestId): Json {
    match id
    case Number(n) => Integer(n as WireInt)
    case Text(s) => Str(s)
    case NoId => Null
  }

  function DecodeId(j: Json): Option<RequestId> {
    match j
    case Integer(n) => if n < 0x8000_0000_0000_0000 then Some(Number(n as Int64)) else None
    case Str(s) => Some(Text(s))
    case Null => Some(NoId)
    case _ => None
  }

  /** A present `null` is read as an absent value. */
  function NonNull(fields: map<string, Json>, key: string): Option<Json> {
    if Optional(fields, key).Null? then None else Some(Optional(fields, key))
  }

  predicate RightVersion(fields: map<string, Json>) {
    Present(fields, "jsonrpc") == Some(Str(VERSION))
  }

  function EncodeError(error: ErrorObject): Json {
    Obj(map["code" := Integer(error.code as WireInt), "message" := Str(error.message)] + Field("data", error.data))
  }

  function DecodeError(j: Json): Option<ErrorObject> {
    var fields :- AsRecord(j, ["code", "message", "data"]);
    var code :- Present(fields, "code");
    var message :- RequiredString(fields, "message");
    if code.Integer? && code.n < 0x8000_0000_0000_0000
    then Some(ErrorObject(code.n as Int64, message, NonNull(fields, "data"))) else None
  }

  function Encode(m: Message): Json {
    match m
    case Requesting(Request(id, name, params)) =>
      Obj(map["jsonrpc" := Str(VERSION), "id" := EncodeId(id), "method" := Str(name)] + Field("params", params))
    case Notifying(Notification(name, params)) =>
      Obj(map["jsonrpc" := Str(VERSION), "method" := Str(name)] + Field("params", params))
    case Responding(Response(id, Success(result))) =>
      Obj(map["jsonrpc" := Str(VERSION), "id" := EncodeId(id), "result" := result])
    case Responding(Response(id, Failure(error))) =>
      Obj(map["jsonrpc" := Str(VERSION), "id" := EncodeId(id), "error" := EncodeError(error)])
  }

  function DecodeRequest(j: Json): Option<Request> {
    var fields :- AsRecord(j, ["jsonrpc", "id", "method", "params"]);
    var rawId :- Present(fields, "id");
    var id :- DecodeId(rawId);
    var name :- RequiredString(fields, "method");
    if RightVersion(fields) then Some(Request(id, name, NonNull(fields, "params"))) else None
  }

  function DecodeNotification(j: Json): Option<Notification> {
    var fields :- AsRecord(j, ["jsonrpc", "method", "params"]);
    var name :- RequiredString(fields, "method");
    if RightVersion(fields) then Some(Notification(name, NonNull(fields, "params"))) else None
  }

  /** The payload is flattened onto the envelope: `result` if there is one. */
  function DecodePayload(fields: map<string, Json>): Option<Payload> {
    if "result" in fields then Some(Success(fields["result"])) else
    var raw :- Present(fields, "error");
    var error :- DecodeError(raw);
    Some(Failure(error))
  }

  function DecodeResponse(j: Json): Option<Response> {
    if !j.Obj? || !RightVersion(j.fields) then None else
    var rawId :- Present(j.fields, "id");
    var id :- DecodeId(rawId);
    var payload :- DecodePayload(j.fields);
    Some(Response(id, payload))
  }

  /** Untagged: the first shape that fits. */
  function Decode(j: Json): Option<Message> {
    var request := DecodeRequest(j);
    if request.Some? then Some(Requesting(request.value)) else
    var notification := DecodeNotification(j);
    if notification.Some? then Some(Notifying(notification.value)) else
    var response :- DecodeResponse(j);
    Some(Responding(response))
  }

  // ---- classification ----

  /** An id as section 4 of JSON-RPC 2.0 has it, restricted to 64 bits. */
  predicate UsableId(j: Json) {
    IsInt64(j) || j.Str? || j.Null?
  }

  predicate IsInt64(j: Json) {
    j.Integer? && j.n < 0x8000_0000_0000_0000
  }

  /** An error object as section 5.1 of JSON-RPC 2.0 has it, or its three fields
      in their order. */
  predicate IsErrorObject(j: Json) {
    && Shaped(j, 3)
    && (var code := Given(j, 3, "code", 0); code.Some? && IsInt64(code.value))
    && (var message := Given(j, 3, "message", 1); message.Some? && message.value.Str?)
  }

  /** And what it says. */
  predicate ReadsError(j: Json, error: ErrorObject) {
    && Shaped(j, 3)
    && Given(j, 3, "code", 0) == Some(Integer(error.code as WireInt))
    && Given(j, 3, "message", 1) == Some(Str(error.message))
    && ReadsRaw(Given(j, 3, "data", 2), error.data)
  }

  lemma ErrorObjectsAreRecognized(j: Json)
    ensures DecodeError(j).Some? <==> IsErrorObject(j)
    ensures DecodeError(j).Some? ==> ReadsError(j, DecodeError(j).value)
  {
    var names := ["code", "message", "data"];
    RecordIsGiven(j, names);
    if Shaped(j, 3) {
      var fields := AsRecord(j, names).value;
      assert Present(fields, names[0]) == Given(j, 3, "code", 0);
      assert Present(fields, names[1]) == Given(j, 3, "message", 1);
      assert Present(fields, names[2]) == Given(j, 3, "data", 2);
    }
  }

  lemma KeysDiffer()
    ensures "jsonrpc" != "id" && "jsonrpc" != "method" && "jsonrpc" != "params" && "id" != "method" && "id" != "params"
    ensures "method" != "params" && "result" != "error"
    ensures "code" != "message" && "code" != "data" && "message" != "data"
    ensures "id" != "result" && "id" != "error" && "jsonrpc" != "result" && "jsonrpc" != "error"
    ensures "method" != "result" && "method" != "error"
  {
    assert |"jsonrpc"| == 7 && |"id"| == 2 && |"method"| == 6 && |"params"| == 6 && |"result"| == 6 && |"error"| == 5;
    assert "method"[0] != "params"[0] && "method"[0] != "result"[0];
    assert |"code"| == 4 && |"data"| == 4 && |"message"| == 7 && "code"[0] != "data"[0];
  }

  /** Objects, completely. The version must be right. With a string method the
      message is a request iff it has a usable id, and a notification otherwise,
      even when its id is fractional or too large. Without one it is a response
      iff it has a usable id and a result or a proper error. */
  lemma ObjectsAreClassified(fields: map<string, Json>)
    ensures var m := Decode(Obj(fields));
            var name := RequiredString(fields, "method");
            if Present(fields, "jsonrpc") != Some(Str("2.0")) then m.None?
            else if name.Some? && "id" in fields && UsableId(fields["id"]) then
              m.Some? && m.value.Requesting? && EncodeId(m.value.request.id) == fields["id"]
              && m.value.request.name == name.value && ReadsRaw(Present(fields, "params"), m.value.request.params)
            else if name.Some? then
              m.Some? && m.value.Notifying?
              && m.value.notification.name == name.value
              && ReadsRaw(Present(fields, "params"), m.value.notification.params)
            else
              (m.Some? <==> "id" in fields && UsableId(fields["id"])
                            && ("result" in fields || ("error" in fields && IsErrorObject(fields["error"]))))
              && (m.Some? ==> m.value.Responding? && EncodeId(m.value.response.id) == fields["id"]
                              && if "result" in fields then m.value.response.payload == Success(fields["result"])
                                 else m.value.response.payload.Failure?
                                      && ReadsError(fields["error"], m.value.response.payload.error))
  {
    if "error" in fields {
      ErrorObjectsAreRecognized(fields["error"]);
    }
  }

  /** A request whose id is fractional is not answered: it is a notification. */
  lemma FractionalIdIsNotification()
    ensures var m := Obj(map["jsonrpc" := Str(VERSION), "id" := Float(1.5), "method" := Str("tasks/get")]);
            Decode(m) == Some(Notifying(Notification("tasks/get", None)))
  {
    KeysDiffer();
  }

  /** Arrays: read by position, of exactly four elements as a request, of
      exactly three as a notification, and never as a response. */
  lemma ArraysAreClassified(items: seq<Json>)
    ensures var m := Decode(Arr(items));
            && (m.Some? <==> || (|items| == 4 && items[0] == Str("2.0") && UsableId(items[1]) && items[2].Str?)
                             || (|items| == 3 && items[0] == Str("2.0") && items[1].Str?))
            && (m.Some? && |items| == 4 ==>
                  m.value.Requesting? && EncodeId(m.value.request.id) == items[1]
                  && Str(m.value.request.name) == items[2] && ReadsRaw(Some(items[3]), m.value.request.params))
            && (m.Some? && |items| == 3 ==>
                  m.value.Notifying?
                  && Str(m.value.notification.name) == items[1]
                  && ReadsRaw(Some(items[2]), m.value.notification.params))
  {
    if |items| == 4 {
      ByPositionRequest(items);
    }
    if |items| == 3 {
      ByPositionNotification(items);
    }
  }

  lemma ByPositionRequest(items: seq<Json>)
    requires |items| == 4
    ensures var fields := AsRecord(Arr(items), ["jsonrpc", "id", "method", "params"]);
            && fields.Some?
            && Present(fields.value, "jsonrpc") == Some(items[0]) && Present(fields.value, "id") == Some(items[1])
            && Present(fields.value, "method") == Some(items[2]) && Present(fields.value, "params") == Some(items[3])
  {
    var names := ["jsonrpc", "id", "method", "params"];
    assert names[0] == "jsonrpc" && names[1] == "id" && names[2] == "method" && names[3] == "params";
  }

  lemma ByPositionNotification(items: seq<Json>)
    requires |items| == 3
    ensures var fields := AsRecord(Arr(items), ["jsonrpc", "method", "params"]);
            && fields.Some?
            && Present(fields.value, "jsonrpc") == Some(items[0]) && Present(fields.value, "method") == Some(items[1])
            && Present(fields.value, "params") == Some(items[2])
  {
    var names := ["jsonrpc", "method", "params"];
    assert names[0] == "jsonrpc" && names[1] == "method" && names[2] == "params";
  }

  /** Nothing else is a message. */
  lemma ScalarsAreRefused(j: Json)
    requires !j.Obj? && !j.Arr?
    ensures Decode(j).None?
  {
  }

  // ---- what is written ----

  /** An error object: code, message, and data if there are any. */
  lemma ErrorIsWritten(error: ErrorObject)
    ensures var j := EncodeError(error);
            && j.Obj? && j.fields.Keys <= {"code", "message", "data"}
            && Present(j.fields, "code") == Some(Integer(error.code as WireInt))
            && Present(j.fields, "message") == Some(Str(error.message)) && Present(j.fields, "data") == error.data
  {
    KeysDiffer();
    FieldAdded(map["code" := Integer(error.code as WireInt), "message" := Str(error.message)], "data", error.data);
  }

  /** A message is written as an object with the version, and exactly the members
      that section 4 and section 5 of JSON-RPC 2.0 give its kind. */
  lemma MessageIsWritten(m: Message)
    ensures Encode(m).Obj?
    ensures var fields := Encode(m).fields;
            && Present(fields, "jsonrpc") == Some(Str("2.0"))
            && match m
               case Requesting(r) =>
                 && fields.Keys <= {"jsonrpc", "id", "method", "params"}
                 && Present(fields, "id") == Some(EncodeId(r.id)) && Present(fields, "method") == Some(Str(r.name))
                 && Present(fields, "params") == r.params
               case Notifying(n) =>
                 && fields.Keys <= {"jsonrpc", "method", "params"}
                 && Present(fields, "method") == Some(Str(n.name)) && Present(fields, "params") == n.params
               case Responding(r) =>
                 && Present(fields, "id") == Some(EncodeId(r.id))
                 && match r.payload
                    case Success(result) => fields.Keys == {"jsonrpc", "id", "result"} && fields["result"] == result
                    case Failure(error) =>
                      fields.Keys == {"jsonrpc", "id", "error"} && fields["error"] == EncodeError(error)
  {
    KeysDiffer();
    match m
    case Requesting(r) =>
      FieldAdded(map["jsonrpc" := Str(VERSION), "id" := EncodeId(r.id), "method" := Str(r.name)], "params", r.params);
    case Notifying(n) => FieldAdded(map["jsonrpc" := Str(VERSION), "method" := Str(n.name)], "params", n.params);
    case Responding(_) =>
  }

  // ---- round trip ----

  /** No params and no error data are present but null. */
  predicate Lossless(m: Message) {
    match m
    case Requesting(r) => r.params != Some(Null)
    case Notifying(n) => n.params != Some(Null)
    case Responding(r) => r.payload.Failure? ==> r.payload.error.data != Some(Null)
  }

  lemma DecodedIsLossless(j: Json)
    requires Decode(j).Some?
    ensures Lossless(Decode(j).value)
  {
  }

  lemma ErrorRoundTrip(error: ErrorObject)
    requires error.data != Some(Null)
    ensures DecodeError(EncodeError(error)) == Some(error)
  {
    KeysDiffer();
  }

  lemma RequestRoundTrip(r: Request)
    requires r.params != Some(Null)
    ensures Decode(Encode(Requesting(r))) == Some(Requesting(r))
  {
    KeysDiffer();
  }

  lemma NotificationRoundTrip(n: Notification)
    requires n.params != Some(Null)
    ensures Decode(Encode(Notifying(n))) == Some(Notifying(n))
  {
    KeysDiffer();
  }

  lemma ResponseRoundTrip(r: Response)
    requires r.payload.Failure? ==> r.payload.error.data != Some(Null)
    ensures Decode(Encode(Responding(r))) == Some(Responding(r))
  {
    KeysDiffer();
    var fields := Encode(Responding(r)).fields;
    assert "method" !in fields;
    if r.payload.Failure? {
      ErrorRoundTrip(r.payload.error);
      assert "result" !in fields;
    }
  }

  /** A message survives the wire exactly when nothing in it is present but
      null; so on those messages encoding is injective. */
  lemma MessageRoundTrip(m: Message)
    ensures Decode(Encode(m)) == Some(m) <==> Lossless(m)
  {
    if Lossless(m) {
      match m
      case Requesting(r) => RequestRoundTrip(r);
      case Notifying(n) => NotificationRoundTrip(n);
      case Responding(r) => ResponseRoundTrip(r);
    } else if Decode(Encode(m)).Some? {
      DecodedIsLossless(Encode(m));
    }
  }
}
