/** Dispatch of requests to the task methods, discovery and the tool listing. */
module Handlers {
  import opened Wrappers
  import opened JsonValue
  import opened Metadata
  import opened Tasks
  import opened AtomicStore
  import opened TaskTable
  import opened SqliteStore
  import opened ToolRegistry
  import Outcome
  import opened JsonRpc

  const METHOD_DISCOVER := "server/discover"
  const METHOD_LIST := "tools/list"
  const METHOD_CALL := "tools/call"
  const METHOD_GET := "tasks/get"
  const METHOD_UPDATE := "tasks/update"
  const METHOD_CANCEL := "tasks/cancel"

  const METHOD_NOT_FOUND: Int64 := -32601
  const INVALID_PARAMS: Int64 := -32602
  const INTERNAL_ERROR: Int64 := -32603

  /** What an instance is set up with: its serialized discovery result, and the
      texts of errors that come from libraries. */
  datatype Setup = Setup(discovery: Json, refusal: Request -> string, databaseText: string)

  /** An instance as its clients see it: its setup and its sorted tools. */
  datatype Config = Config(setup: Setup, listing: seq<ToolEntry>)

  /** The answer to `tools/list`. */
  function ListingPayload(config: Config): Payload {
    Success(EncodeListing(ListingOf(config.listing)))
  }

  function Error(code: Int64, message: string): Payload {
    Failure(ErrorObject(code, message, None))
  }

  /** Absent params are read as an empty object. */
  function Params(req: Request): Json {
    if req.params.Some? then req.params.value else Obj(map[])
  }

  function TaskIdParams(req: Request): Option<string> {
    var fields :- AsRecord(Params(req), ["taskId", "_meta"]);
    var _ :- OptionalMeta(fields);
    RequiredString(fields, "taskId")
  }

  function UpdateParams(req: Request): Option<(string, TaskStatus)> {
    var fields :- AsRecord(Params(req), ["taskId", "status", "_meta"]);
    var _ :- OptionalMeta(fields);
    var id :- RequiredString(fields, "taskId");
    var raw :- Present(fields, "status");
    var status :- Outcome.DecodeStatus(raw);
    Some((id, status))
  }

  predicate ListParamsOk(req: Request) {
    var fields := AsRecord(Params(req), ["cursor", "_meta"]);
    fields.Some? && OptionalString(fields.value, "cursor").Some? && OptionalMeta(fields.value).Some?
  }

  /** What a request comes down to: an answer, the listing of the tools,
      or one store operation. */
  datatype Plan = Answer(payload: Payload) | ListTools | Perform(op: Op)

  function PlanFor(setup: Setup, req: Request): Plan
    requires req.name != METHOD_CALL
  {
    var badParams := Answer(Error(INVALID_PARAMS, setup.refusal(req)));
    if req.name == METHOD_DISCOVER then Answer(Success(setup.discovery))
    else if req.name == METHOD_LIST then (if ListParamsOk(req) then ListTools else badParams)
    else if req.name == METHOD_GET then
      (match TaskIdParams(req) case Some(id) => Perform(Op.Get(id)) case None => badParams)
    else if req.name == METHOD_UPDATE then
      (match UpdateParams(req) case Some((id, to)) => Perform(Op.Update(id, to)) case None => badParams)
    else if req.name == METHOD_CANCEL then
      (match TaskIdParams(req) case Some(id) => Perform(Op.Cancel(id)) case None => badParams)
    else Answer(Error(METHOD_NOT_FOUND, "Method not found: " + req.name))
  }

  function StoreErrorPayload(setup: Setup, error: StoreError): Payload {
    match error
    case NotFound(id) => Error(INVALID_PARAMS, "Task not found: " + id)
    case IllegalTransition(from, to) =>
      Error(INVALID_PARAMS, "Illegal task transition: " + AsStr(from) + " -> " + AsStr(to))
    case Sqlite => Error(INTERNAL_ERROR, setup.databaseText)
  }

  function ReplyPayload(setup: Setup, reply: Reply): Payload {
    match reply
    case Found(task) => Success(Outcome.EncodeTask(task))
    case Rejected(error) => StoreErrorPayload(setup, error)
    case Stored => Success(Null) // no request inserts
  }

  /** One request against the atomic store. */
  function Handle(config: Config, tasks: TaskMap, req: Request): (TaskMap, Response)
    requires req.name != METHOD_CALL
  {
    match PlanFor(config.setup, req)
    case Answer(payload) => (tasks, Response(req.id, payload))
    case ListTools => (tasks, Response(req.id, ListingPayload(config)))
    case Perform(op) =>
      var (next, reply) := Apply(op, tasks);
      (next, Response(req.id, ReplyPayload(config.setup, reply)))
  }

  /** Every response echoes the id of its request, carries exactly one of
      `result` and `error`, and leaves the tasks alone when it is an error. */
  lemma ResponsesAreProper(config: Config, tasks: TaskMap, req: Request)
    requires req.name != METHOD_CALL && KeyedById(tasks)
    ensures var (next, resp) := Handle(config, tasks, req);
            var fields := JsonRpc.Encode(Responding(resp)).fields;
            && "id" in fields && fields["id"] == EncodeId(req.id)
            && ("result" in fields <==> "error" !in fields)
            && ("error" in fields ==> next == tasks)
  {
    KeysDiffer();
    if PlanFor(config.setup, req).Perform? {
      StepContract(PlanFor(config.setup, req).op, tasks);
    }
  }

  /** Typed params, as a client serializes them into a request. */
  function TaskParams(id: string, meta: Option<Meta>): Json {
    Obj(map["taskId" := Str(id)] + MetaField(meta))
  }

  function UpdateTaskParams(id: string, to: TaskStatus, meta: Option<Meta>): Json {
    Obj(map["taskId" := Str(id), "status" := Str(AsStr(to))] + MetaField(meta))
  }

  lemma TaskParamsDecode(rid: RequestId, name: string, id: string, meta: Option<Meta>)
    requires Clean(meta)
    ensures TaskIdParams(Request(rid, name, Some(TaskParams(id, meta)))) == Some(id)
  {
    assert |"taskId"| == 6 && |"_meta"| == 5;
    MetaRoundTrip(meta, TaskParams(id, meta).fields);
  }

  lemma UpdateFieldsDecode(req: Request, fields: map<string, Json>, id: string, to: TaskStatus, meta: Option<Meta>)
    requires Clean(meta) && req.params == Some(Obj(fields))
    requires "taskId" in fields && fields["taskId"] == Str(id)
    requires "status" in fields && fields["status"] == Str(AsStr(to))
    requires Optional(fields, "_meta") == Optional(MetaField(meta), "_meta")
    ensures UpdateParams(req) == Some((id, to))
  {
    MetaRoundTrip(meta, fields);
    ParseAsStr(to);
    assert AsRecord(Params(req), ["taskId", "status", "_meta"]) == Some(fields);
  }

  lemma UpdateParamsDecode(rid: RequestId, name: string, id: string, to: TaskStatus, meta: Option<Meta>)
    requires Clean(meta)
    ensures UpdateParams(Request(rid, name, Some(UpdateTaskParams(id, to, meta)))) == Some((id, to))
  {
    assert |"taskId"| == 6 && |"status"| == 6 && |"_meta"| == 5 && "taskId"[0] != "status"[0];
    var params := UpdateTaskParams(id, to, meta);
    UpdateFieldsDecode(Request(rid, name, Some(params)), params.fields, id, to, meta);
  }

  /** What a client asks for is the store operation that is performed. */
  lemma RequestsArePerformed(config: Config, rid: RequestId, id: string, to: TaskStatus, meta: Option<Meta>)
    requires Clean(meta)
    ensures METHOD_GET != METHOD_CALL && METHOD_UPDATE != METHOD_CALL && METHOD_CANCEL != METHOD_CALL
    ensures PlanFor(config.setup, Request(rid, METHOD_GET, Some(TaskParams(id, meta)))) == Perform(Op.Get(id))
    ensures PlanFor(config.setup, Request(rid, METHOD_CANCEL, Some(TaskParams(id, meta)))) == Perform(Op.Cancel(id))
    ensures PlanFor(config.setup, Request(rid, METHOD_UPDATE, Some(UpdateTaskParams(id, to, meta))))
            == Perform(Op.Update(id, to))
  {
    MethodNamesDiffer();
    TaskParamsDecode(rid, METHOD_GET, id, meta);
    TaskParamsDecode(rid, METHOD_CANCEL, id, meta);
    UpdateParamsDecode(rid, METHOD_UPDATE, id, to, meta);
  }

  // ---- which params are accepted, and what they ask for ----

  /** Params of `tasks/get` and `tasks/cancel`: a task id, and metadata if any. */
  predicate AsksForTask(params: Json, id: string) {
    && Shaped(params, 2)
    && Given(params, 2, "taskId", 0) == Some(Str(id))
    && MetaOrNothing(Given(params, 2, "_meta", 1))
  }

  predicate AsksForSomeTask(params: Json) {
    && Shaped(params, 2)
    && (var id := Given(params, 2, "taskId", 0); id.Some? && id.value.Str?)
    && MetaOrNothing(Given(params, 2, "_meta", 1))
  }

  /** Params of `tasks/update`: a status as well. */
  predicate AsksForUpdate(params: Json, id: string, to: TaskStatus) {
    && Shaped(params, 3)
    && Given(params, 3, "taskId", 0) == Some(Str(id))
    && Outcome.ReadsStatus(Given(params, 3, "status", 1), to)
    && MetaOrNothing(Given(params, 3, "_meta", 2))
  }

  predicate AsksForSomeUpdate(params: Json) {
    && Shaped(params, 3)
    && (var id := Given(params, 3, "taskId", 0); id.Some? && id.value.Str?)
    && Outcome.StatusReadable(Given(params, 3, "status", 1))
    && MetaOrNothing(Given(params, 3, "_meta", 2))
  }

  /** Params of `tools/list`: a cursor and metadata if any. */
  predicate AsksForTools(params: Json) {
    && Shaped(params, 2)
    && TextOrNothing(Given(params, 2, "cursor", 0))
    && MetaOrNothing(Given(params, 2, "_meta", 1))
  }

  lemma TaskParamsAreJudged(req: Request)
    ensures TaskIdParams(req).Some? <==> AsksForSomeTask(Params(req))
    ensures TaskIdParams(req).Some? ==> AsksForTask(Params(req), TaskIdParams(req).value)
  {
    var names := ["taskId", "_meta"];
    assert names[0] == "taskId" && names[1] == "_meta" && |"taskId"| == 6 && |"_meta"| == 5;
    RecordIsGiven(Params(req), names);
    if Shaped(Params(req), 2) {
      var fields := AsRecord(Params(req), names).value;
      OptionalMetaIsRead(fields);
      assert Present(fields, names[0]) == Given(Params(req), 2, "taskId", 0);
      assert Present(fields, names[1]) == Given(Params(req), 2, "_meta", 1);
    }
  }

  lemma UpdateParamsAreJudged(req: Request)
    ensures UpdateParams(req).Some? <==> AsksForSomeUpdate(Params(req))
    ensures UpdateParams(req).Some? ==> AsksForUpdate(Params(req), UpdateParams(req).value.0, UpdateParams(req).value.1)
  {
    var names := ["taskId", "status", "_meta"];
    assert names[0] == "taskId" && names[1] == "status" && names[2] == "_meta";
    assert |"taskId"| == 6 && |"status"| == 6 && |"_meta"| == 5 && "taskId"[0] != "status"[0];
    RecordIsGiven(Params(req), names);
    if Shaped(Params(req), 3) {
      var fields := AsRecord(Params(req), names).value;
      OptionalMetaIsRead(fields);
      assert Present(fields, names[0]) == Given(Params(req), 3, "taskId", 0);
      assert Present(fields, names[1]) == Given(Params(req), 3, "status", 1);
      assert Present(fields, names[2]) == Given(Params(req), 3, "_meta", 2);
      if "status" in fields {
        Outcome.StatusIsRead(fields["status"]);
      }
    }
  }

  lemma ListParamsAreJudged(req: Request)
    ensures ListParamsOk(req) <==> AsksForTools(Params(req))
  {
    var names := ["cursor", "_meta"];
    assert names[0] == "cursor" && names[1] == "_meta" && |"cursor"| == 6 && |"_meta"| == 5;
    RecordIsGiven(Params(req), names);
    if Shaped(Params(req), 2) {
      var fields := AsRecord(Params(req), names).value;
      OptionalMetaIsRead(fields);
      assert Present(fields, names[0]) == Given(Params(req), 2, "cursor", 0);
      assert Present(fields, names[1]) == Given(Params(req), 2, "_meta", 1);
      OptionalTextIsRead(fields, "cursor");
    }
  }

  /** Whatever is written as a status is written as one only. */
  lemma OneStatus(given: Option<Json>, a: TaskStatus, b: TaskStatus)
    requires Outcome.ReadsStatus(given, a) && Outcome.ReadsStatus(given, b)
    ensures a == b
  {
    Outcome.StatusIsRead(given.value);
  }

  /** The response is an error about the params, and nothing has happened. */
  predicate ParamsRefused(tasks: TaskMap, next: TaskMap, resp: Response) {
    next == tasks && resp.payload.Failure? && resp.payload.error.code == -32602
  }

  /** Any params of `tasks/get`, `tasks/cancel` and `tasks/update`: the one store
      operation they ask for is performed, and if they ask for none they are
      refused without effect. */
  lemma ParamsAreJudged(config: Config, tasks: TaskMap, req: Request)
    requires req.name != METHOD_CALL
    ensures var (next, resp) := Handle(config, tasks, req);
            var params := if req.params.Some? then req.params.value else Obj(map[]);
            var plan := PlanFor(config.setup, req);
            && (req.name == "tasks/get" ==>
                  && (forall id :: AsksForTask(params, id) <==> plan == Perform(Op.Get(id)))
                  && (!AsksForSomeTask(params) ==> ParamsRefused(tasks, next, resp)))
            && (req.name == "tasks/cancel" ==>
                  && (forall id :: AsksForTask(params, id) <==> plan == Perform(Op.Cancel(id)))
                  && (!AsksForSomeTask(params) ==> ParamsRefused(tasks, next, resp)))
            && (req.name == "tasks/update" ==>
                  && (forall id, to :: AsksForUpdate(params, id, to) <==> plan == Perform(Op.Update(id, to)))
                  && (!AsksForSomeUpdate(params) ==> ParamsRefused(tasks, next, resp)))
  {
    MethodNamesDiffer();
    TaskParamsAreJudged(req);
    UpdateParamsAreJudged(req);
    forall id, to | AsksForUpdate(Params(req), id, to) ensures UpdateParams(req) == Some((id, to)) {
      OneStatus(Given(Params(req), 3, "status", 1), to, UpdateParams(req).value.1);
    }
  }

  /** A misspelt status is refused, and cancels nothing. */
  lemma MisspeltStatusIsRefused(config: Config, tasks: TaskMap, rid: RequestId)
    ensures METHOD_UPDATE != METHOD_CALL
    ensures var params := Obj(map["taskId" := Str("t1"), "status" := Str("input_required")]);
            var (next, resp) := Handle(config, tasks, Request(rid, METHOD_UPDATE, Some(params)));
            ParamsRefused(tasks, next, resp)
  {
    MethodNamesDiffer();
    var params := Obj(map["taskId" := Str("t1"), "status" := Str("input_required")]);
    assert |"taskId"| == 6 && |"status"| == 6 && "taskId"[0] != "status"[0];
    assert |"input_required"| == 14 && |AsStr(Working)| == 7 && |AsStr(InputRequired)| == 13 && |AsStr(Failed)| == 6;
    assert |AsStr(Completed)| == 9 && |AsStr(Cancelled)| == 9;
    assert !Outcome.StatusReadable(Given(params, 3, "status", 1));
    ParamsAreJudged(config, tasks, Request(rid, METHOD_UPDATE, Some(params)));
  }

  /** Any request, by its method and its params: discovery and the listing
      answer with what the instance has, an unknown method is refused as such, and
      a working store never causes an internal error. */
  lemma ErrorCodesSayWhy(config: Config, tasks: TaskMap, req: Request)
    requires req.name != METHOD_CALL
    ensures var (next, resp) := Handle(config, tasks, req);
            var params := if req.params.Some? then req.params.value else Obj(map[]);
            var known := {"server/discover", "tools/list", "tasks/get", "tasks/update", "tasks/cancel"};
            && (req.name !in known <==> resp.payload.Failure? && resp.payload.error.code == -32601)
            && (req.name in known && resp.payload.Failure? ==> resp.payload.error.code == -32602)
            && (req.name == "server/discover" ==> resp.payload == Success(config.setup.discovery))
            && (req.name == "tools/list" ==>
                  && (AsksForTools(params) ==> resp.payload == ListingPayload(config))
                  && (!AsksForTools(params) ==> ParamsRefused(tasks, next, resp)))
  {
    MethodNamesDiffer();
    ListParamsAreJudged(req);
  }

  /** A store's refusal tells the client what it was about. */
  lemma StoreErrorsAreTold(setup: Setup, error: StoreError)
    ensures var payload := StoreErrorPayload(setup, error);
            && payload.Failure? && payload.error.data.None?
            && (payload.error.code == -32603 <==> error.Sqlite?)
            && (payload.error.code == -32602 <==> !error.Sqlite?)
            && (error.NotFound? ==> payload.error.message == "Task not found: " + error.id)
            && (error.IllegalTransition? ==>
                  payload.error.message
                  == "Illegal task transition: " + AsStr(error.from) + " -> " + AsStr(error.to))
  {
  }

  /** The result of a task method is the stored task, as a client decodes it. */
  lemma ResultsAreTasks(config: Config, tasks: TaskMap, req: Request)
    requires req.name in {METHOD_GET, METHOD_UPDATE, METHOD_CANCEL} && KeyedById(tasks)
    requires forall id :: id in tasks ==> tasks[id] == StoredPart(tasks[id])
    ensures req.name != METHOD_CALL
    ensures var (next, resp) := Handle(config, tasks, req);
            resp.payload.Success? ==>
              exists id :: id in next && Outcome.DecodeTask(resp.payload.result) == Some(next[id])
                           && PlanFor(config.setup, req) in {Perform(Op.Get(id)), Perform(Op.Cancel(id)),
                                                             Perform(Op.Update(id, next[id].status))}
  {
    MethodNamesDiffer();
    var (next, resp) := Handle(config, tasks, req);
    if resp.payload.Success? {
      var op := PlanFor(config.setup, req).op;
      StepContract(op, tasks);
      var task := Apply(op, tasks).1.task;
      assert task == StoredPart(task);
      Outcome.TaskRoundTrip(task);
      assert next[op.id] == task;
    }
  }

  lemma MethodNamesDiffer()
    ensures METHOD_GET != METHOD_CALL && METHOD_UPDATE != METHOD_CALL && METHOD_CANCEL != METHOD_CALL
    ensures METHOD_GET != METHOD_DISCOVER && METHOD_UPDATE != METHOD_DISCOVER && METHOD_CANCEL != METHOD_DISCOVER
    ensures METHOD_GET != METHOD_LIST && METHOD_UPDATE != METHOD_LIST && METHOD_CANCEL != METHOD_LIST
    ensures METHOD_GET != METHOD_UPDATE && METHOD_GET != METHOD_CANCEL && METHOD_UPDATE != METHOD_CANCEL
    ensures METHOD_DISCOVER != METHOD_LIST && METHOD_CALL != METHOD_LIST && METHOD_CALL != METHOD_DISCOVER
  {
    assert |METHOD_GET| == 9 && |METHOD_UPDATE| == 12 && |METHOD_CANCEL| == 12;
    assert |METHOD_CALL| == 10 && |METHOD_LIST| == 10 && |METHOD_DISCOVER| == 15;
    assert METHOD_UPDATE[6] == 'u' && METHOD_CANCEL[6] == 'c' && METHOD_CALL[6] == 'c' && METHOD_LIST[6] == 'l';
  }

  /** A server instance: its setup, its tools and its connection to the store. */
  class ServerState {
    const setup: Setup
    const registry: Registry
    const store: SqliteStore

    constructor (setup: Setup, registry: Registry, store: SqliteStore)
      ensures this.setup == setup && this.registry == registry && this.store == store
    {
      this.setup, this.registry, this.store := setup, registry, store;
    }

    /** `config` is how clients see this instance. */
    ghost predicate Shows(config: Config) {
      config.setup == setup && SomeOrder(config.listing, registry.tools) && SortedByName(config.listing)
    }

    /** The tools are all there, one for one, whatever order they come in. */
    method HandleToolsList(hashOrder: seq<ToolEntry>, ghost config: Config) returns (payload: Payload)
      requires SomeOrder(hashOrder, registry.tools) && Shows(config)
      ensures payload == ListingPayload(config) && ShowsTools(payload.result, Definitions(registry.tools))
    {
      var result := registry.ListResult(hashOrder);
      ghost var listing :|
        SomeOrder(listing, registry.tools) && Sorts(hashOrder, listing) && result == ListingOf(listing);
      ListingIsUnique(registry.tools, listing, config.listing);
      SerializedListing(registry.tools, listing);
      payload := Success(EncodeListing(result));
    }

    /** Nothing of the instance but how it is configured enters into the
        response, whatever order its tools come in this time: it is the atomic
        store's, on the shared tasks, or an internal error without effect when a
        statement failed. */
    method Dispatch(req: Request, hashOrder: seq<ToolEntry>, ghost config: Config) returns (resp: Response)
      requires req.name != METHOD_CALL && Known(store.db.rows)
      requires SomeOrder(hashOrder, registry.tools) && Shows(config)
      modifies store.db
      ensures Known(store.db.rows) && resp.id == req.id
      ensures store.db.Healthy(old(store.db.clock)) ==>
                (Abs(store.db.rows), resp) == Handle(config, Abs(old(store.db.rows)), req)
      ensures !store.db.Healthy(old(store.db.clock)) ==>
                && store.db.rows == old(store.db.rows)
                && resp.payload.Failure? && resp.payload.error.code == -32603
      ensures req.name == "tools/list" && resp.payload.Success? ==>
                ShowsTools(resp.payload.result, Definitions(registry.tools))
    {
      MethodNamesDiffer();
      var plan := PlanFor(setup, req);
      if plan.Answer? {
        return Response(req.id, plan.payload);
      }
      if plan.ListTools? {
        var listed := HandleToolsList(hashOrder, config);
        return Response(req.id, listed);
      }
      var reply := store.Perform(plan.op);
      resp := Response(req.id, ReplyPayload(setup, reply));
    }
  }
}
