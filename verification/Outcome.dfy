/** Everything a `tools/call` can resolve to, on the wire and back. */
module Outcome {
  import opened Wrappers
  import opened JsonValue
  import opened Metadata
  import opened Tasks

  datatype ContentBlock = TextBlock(text: string, meta: Option<Meta>) | OtherBlock(value: Json)

  datatype Outcome =
    | Content(content: seq<ContentBlock>, structured: Option<Json>, isError: Option<bool>, meta: Option<Meta>)
    | TaskHandle(task: Task, meta: Option<Meta>)
    | InputRequest(inputRequests: map<string, Json>, requestState: string, meta: Option<Meta>)

  const TASK_TAG := "task"
  const INPUT_TAG := "inputRequired"
  const TASK_KEYS: set<string> := {"id", "status", "_meta"}

  // ---- encoding ----

  function EncodeBlock(block: ContentBlock): Json {
    match block
    case TextBlock(text, meta) => Obj(map["type" := Str("text"), "text" := Str(text)] + MetaField(meta))
    case OtherBlock(value) => value
  }

  function EncodeBlocks(blocks: seq<ContentBlock>): (items: seq<Json>)
    ensures |items| == |blocks|
  {
    seq(|blocks|, i requires 0 <= i < |blocks| => EncodeBlock(blocks[i]))
  }

  /** Extra fields are written last, so a clash overwrites a typed one. */
  function EncodeTask(task: Task): Json {
    Obj(map["id" := Str(task.id), "status" := Str(AsStr(task.status))] + MetaField(task.meta) + task.extra)
  }

  function Encode(outcome: Outcome): Json {
    match outcome
    case Content(content, structured, isError, meta) =>
      Obj(map["content" := Arr(EncodeBlocks(content))] + Field("structuredContent", structured)
          + Field("isError", if isError.Some? then Some(Bool(isError.value)) else None) + MetaField(meta))
    case TaskHandle(task, meta) =>
      Obj(map["resultType" := Str(TASK_TAG), "task" := EncodeTask(task)] + MetaField(meta))
    case InputRequest(inputRequests, requestState, meta) =>
      Obj(map["resultType" := Str(INPUT_TAG),
              "inputRequests" := Obj(inputRequests), "requestState" := Str(requestState)]
          + MetaField(meta))
  }

  // ---- decoding ----

  function DecodeText(j: Json): Option<ContentBlock> {
    var fields :- AsRecord(j, ["type", "text", "_meta"]);
    var kind :- RequiredString(fields, "type");
    var text :- RequiredString(fields, "text");
    var meta :- OptionalMeta(fields);
    if kind == "text" then Some(TextBlock(text, meta)) else None
  }

  /** Untagged: a text block if it reads as one, otherwise kept verbatim. */
  function DecodeBlock(j: Json): ContentBlock {
    var text := DecodeText(j);
    if text.Some? then text.value else OtherBlock(j)
  }

  function DecodeBlocks(items: seq<Json>): (blocks: seq<ContentBlock>)
    ensures |blocks| == |items|
  {
    seq(|items|, i requires 0 <= i < |items| => DecodeBlock(items[i]))
  }

  function OptionalBool(fields: map<string, Json>, key: string): Option<Option<bool>> {
    match Optional(fields, key)
    case Null => Some(None)
    case Bool(b) => Some(Some(b))
    case _ => None
  }

  function OptionalValue(fields: map<string, Json>, key: string): Option<Json> {
    match Optional(fields, key)
    case Null => None
    case j => Some(j)
  }

  function DecodeContent(j: Json): Option<Outcome> {
    var fields :- AsRecord(j, ["content", "structuredContent", "isError", "_meta"]);
    if "content" !in fields || !fields["content"].Arr? then None else
    var isError :- OptionalBool(fields, "isError");
    var meta :- OptionalMeta(fields);
    Some(Content(DecodeBlocks(fields["content"].items), OptionalValue(fields, "structuredContent"), isError, meta))
  }

  /** A status is its name, or an object mapping only its name to `null`. */
  function DecodeStatus(j: Json): Option<TaskStatus> {
    match j
    case Str(s) => ParseStatus(s)
    case Obj(fields) =>
      if |fields| == 1 then
        (if fields == map["working" := Null] then Some(Working)
         else if fields == map["inputRequired" := Null] then Some(InputRequired)
         else if fields == map["completed" := Null] then Some(Completed)
         else if fields == map["failed" := Null] then Some(Failed)
         else if fields == map["cancelled" := Null] then Some(Cancelled)
         else None)
      else None
    case _ => None
  }

  function DecodeTask(j: Json): Option<Task> {
    if !j.Obj? then None else
    var id :- RequiredString(j.fields, "id");
    var status :- if "status" in j.fields then DecodeStatus(j.fields["status"]) else None;
    var meta :- OptionalMeta(j.fields);
    Some(Task(id, status, meta, j.fields - TASK_KEYS))
  }

  function DecodeTaskHandle(fields: map<string, Json>): Option<Outcome> {
    var task :- if "task" in fields then DecodeTask(fields["task"]) else None;
    var meta :- OptionalMeta(fields);
    Some(TaskHandle(task, meta))
  }

  function DecodeInputRequest(fields: map<string, Json>): Option<Outcome> {
    if "inputRequests" !in fields || !fields["inputRequests"].Obj? then None else
    var requestState :- RequiredString(fields, "requestState");
    var meta :- OptionalMeta(fields);
    Some(InputRequest(fields["inputRequests"].fields, requestState, meta))
  }

  /** The discriminator, when there is one and it is a string. */
  function ResultType(j: Json): Option<string> {
    if j.Obj? then RequiredString(j.fields, "resultType") else None
  }

  function Decode(j: Json): Option<Outcome> {
    var tag := ResultType(j);
    if tag.None? then DecodeContent(j)
    else if tag.value == TASK_TAG then DecodeTaskHandle(j.fields)
    else if tag.value == INPUT_TAG then DecodeInputRequest(j.fields)
    else None
  }

  // ---- what survives ----

  ghost predicate BlockOk(block: ContentBlock) {
    match block
    case TextBlock(_, meta) => Clean(meta)
    case OtherBlock(value) => DecodeText(value).None?
  }

  /** Extra keys do not clash with typed ones, no other block reads as text, and
      no structured content is present but null. */
  ghost predicate WellFormed(outcome: Outcome) {
    match outcome
    case Content(content, structured, _, meta) =>
      && (forall i :: 0 <= i < |content| ==> BlockOk(content[i]))
      && structured != Some(Null) && Clean(meta)
    case TaskHandle(task, meta) =>
      && task.extra.Keys !! TASK_KEYS && Clean(task.meta) && Clean(meta)
    case InputRequest(_, _, meta) => Clean(meta)
  }

  lemma DecodedMetaIsClean(fields: map<string, Json>)
    requires OptionalMeta(fields).Some?
    ensures Clean(OptionalMeta(fields).value)
  {
  }

  lemma DecodedBlockIsOk(j: Json)
    ensures BlockOk(DecodeBlock(j))
  {
    if DecodeText(j).Some? {
      DecodedMetaIsClean(AsRecord(j, ["type", "text", "_meta"]).value);
    }
  }

  /** Whatever was decoded is well formed. */
  lemma DecodedIsWellFormed(j: Json)
    requires Decode(j).Some?
    ensures WellFormed(Decode(j).value)
  {
    var tag := ResultType(j);
    if tag.None? {
      var fields := AsRecord(j, ["content", "structuredContent", "isError", "_meta"]).value;
      DecodedMetaIsClean(fields);
      forall i | 0 <= i < |fields["content"].items| ensures BlockOk(DecodeBlocks(fields["content"].items)[i]) {
        DecodedBlockIsOk(fields["content"].items[i]);
      }
    } else {
      DecodedMetaIsClean(j.fields);
      if tag.value == TASK_TAG {
        DecodedMetaIsClean(j.fields["task"].fields);
      }
    }
  }

  lemma BlockRoundTrip(block: ContentBlock)
    requires BlockOk(block)
    ensures DecodeBlock(EncodeBlock(block)) == block
  {
    if block.TextBlock? {
      var fields := EncodeBlock(block).fields;
      assert "type" != "text" && |"_meta"| == 5 && |"type"| == 4 && |"text"| == 4;
      MetaRoundTrip(block.meta, fields);
    }
  }

  /** Two required fields and an optional one, below extra fields that avoid
      all three, can be told apart again. */
  lemma TaskFieldsApart(a: string, va: Json, b: string, vb: Json, c: string, vc: Option<Json>, extra: map<string, Json>)
    requires a != b && a != c && b != c && extra.Keys !! {a, b, c}
    ensures var all := map[a := va, b := vb] + Field(c, vc) + extra;
            && all - {a, b, c} == extra
            && a in all && all[a] == va && b in all && all[b] == vb
            && Optional(all, c) == (if vc.Some? then vc.value else Null)
  {
  }

  lemma TaskRoundTrip(task: Task)
    requires task.extra.Keys !! TASK_KEYS && Clean(task.meta)
    ensures DecodeTask(EncodeTask(task)) == Some(task)
  {
    assert |"id"| == 2 && |"status"| == 6 && |"_meta"| == 5;
    ParseAsStr(task.status);
    TaskFieldsApart("id", Str(task.id), "status", Str(AsStr(task.status)),
                    "_meta", if task.meta.Some? then Some(EncodeMeta(task.meta.value)) else None, task.extra);
    MetaRoundTrip(task.meta, EncodeTask(task).fields);
  }

  lemma ContentFields(outcome: Outcome)
    requires outcome.Content?
    ensures var fields := Encode(outcome).fields;
            && "resultType" !in fields
            && "content" in fields && fields["content"] == Arr(EncodeBlocks(outcome.content))
            && Optional(fields, "structuredContent")
               == (if outcome.structured.Some? then outcome.structured.value else Null)
            && Optional(fields, "isError") == (if outcome.isError.Some? then Bool(outcome.isError.value) else Null)
            && Optional(fields, "_meta") == Optional(MetaField(outcome.meta), "_meta")
  {
    assert |"content"| == 7 && |"isError"| == 7 && "content"[0] != "isError"[0];
    assert |"structuredContent"| == 17 && |"_meta"| == 5 && |"resultType"| == 10;
    var content := Arr(EncodeBlocks(outcome.content));
    var isError := if outcome.isError.Some? then Some(Bool(outcome.isError.value)) else None;
    var meta := if outcome.meta.Some? then Some(EncodeMeta(outcome.meta.value)) else None;
    FieldsApart("content", Some(content), "structuredContent", outcome.structured,
                "isError", isError, "_meta", meta, map[]);
    var all := Field("content", Some(content)) + Field("structuredContent", outcome.structured)
               + Field("isError", isError) + Field("_meta", meta) + map[];
    assert Encode(outcome).fields == all;
  }

  lemma ContentRoundTrip(outcome: Outcome)
    requires outcome.Content? && WellFormed(outcome)
    ensures Decode(Encode(outcome)) == Some(outcome)
  {
    ContentFields(outcome);
    MetaRoundTrip(outcome.meta, Encode(outcome).fields);
    var items := EncodeBlocks(outcome.content);
    forall i | 0 <= i < |items| ensures DecodeBlocks(items)[i] == outcome.content[i] {
      BlockRoundTrip(outcome.content[i]);
    }
    assert DecodeBlocks(items) == outcome.content;
  }

  lemma TaskHandleRoundTrip(outcome: Outcome)
    requires outcome.TaskHandle? && WellFormed(outcome)
    ensures Decode(Encode(outcome)) == Some(outcome)
  {
    var fields := Encode(outcome).fields;
    assert |"task"| == 4 && |"_meta"| == 5 && |"resultType"| == 10;
    MetaRoundTrip(outcome.meta, fields);
    TaskRoundTrip(outcome.task);
  }

  lemma InputRequestDecodes(fields: map<string, Json>, outcome: Outcome)
    requires outcome.InputRequest? && Clean(outcome.meta)
    requires Present(fields, "resultType") == Some(Str("inputRequired"))
    requires Present(fields, "inputRequests") == Some(Obj(outcome.inputRequests))
    requires Present(fields, "requestState") == Some(Str(outcome.requestState))
    requires Present(fields, "_meta") == MetaValue(outcome.meta)
    ensures Decode(Obj(fields)) == Some(outcome)
  {
    assert |TASK_TAG| == 4 && |INPUT_TAG| == 13;
    MetaRoundTrip(outcome.meta, fields);
  }

  lemma InputRequestRoundTrip(outcome: Outcome)
    requires outcome.InputRequest? && WellFormed(outcome)
    ensures Decode(Encode(outcome)) == Some(outcome)
  {
    OutcomeIsWritten(outcome);
    InputRequestDecodes(Encode(outcome).fields, outcome);
  }

  /** An outcome survives the wire exactly when it is well formed. */
  lemma OutcomeRoundTrip(outcome: Outcome)
    ensures Decode(Encode(outcome)) == Some(outcome) <==> WellFormed(outcome)
  {
    if WellFormed(outcome) {
      match outcome
      case Content(_, _, _, _) => ContentRoundTrip(outcome);
      case TaskHandle(_, _) => TaskHandleRoundTrip(outcome);
      case InputRequest(_, _, _) => InputRequestRoundTrip(outcome);
    } else if Decode(Encode(outcome)).Some? {
      DecodedIsWellFormed(Encode(outcome));
    }
  }

  /** So encoding is injective there, and the kinds have disjoint images. */
  lemma EncodeInjective(a: Outcome, b: Outcome)
    requires WellFormed(a) && WellFormed(b) && Encode(a) == Encode(b)
    ensures a == b
  {
    OutcomeRoundTrip(a);
    OutcomeRoundTrip(b);
  }

  /** The discriminator alone decides the kind, and one that is a string but not
      a known tag is refused, whatever else the value holds. */
  lemma TagDecidesKind(j: Json)
    ensures Decode(j).Some? ==>
              && (Decode(j).value.Content? <==> ResultType(j).None?)
              && (Decode(j).value.TaskHandle? <==> ResultType(j) == Some(TASK_TAG))
              && (Decode(j).value.InputRequest? <==> ResultType(j) == Some(INPUT_TAG))
    ensures ResultType(j).Some? && ResultType(j).value !in {TASK_TAG, INPUT_TAG} ==> Decode(j).None?
  {
    assert |TASK_TAG| == 4 && |INPUT_TAG| == 13;
  }

  // ---- what is written ----

  function MetaValue(meta: Option<Meta>): Option<Json> {
    if meta.Some? then Some(EncodeMeta(meta.value)) else None
  }

  /** A task is written with its status as plain text. */
  lemma TaskIsWritten(task: Task)
    ensures var j := EncodeTask(task);
            && j.Obj? && KeepsExtra(j.fields, task.extra, {"id", "status", "_meta"})
            && Shows(j.fields, task.extra, "id", Some(Str(task.id)))
            && Shows(j.fields, task.extra, "status", Some(Str(AsStr(task.status))))
            && Shows(j.fields, task.extra, "_meta", MetaValue(task.meta))
  {
    assert |"id"| == 2 && |"status"| == 6 && |"_meta"| == 5;
    var required := map["id" := Str(task.id), "status" := Str(AsStr(task.status))];
    FieldAdded(required, "_meta", MetaValue(task.meta));
    ExtraOnTop(required + MetaField(task.meta), task.extra);
  }

  /** A text block is written as an object of that type, any other as it is. */
  lemma BlockIsWritten(block: ContentBlock)
    ensures block.OtherBlock? ==> EncodeBlock(block) == block.value
    ensures block.TextBlock? ==>
              var j := EncodeBlock(block);
              && j.Obj? && j.fields.Keys <= {"type", "text", "_meta"}
              && Present(j.fields, "type") == Some(Str("text")) && Present(j.fields, "text") == Some(Str(block.text))
              && Present(j.fields, "_meta") == MetaValue(block.meta)
  {
    assert |"type"| == 4 && |"text"| == 4 && "type"[1] != "text"[1] && |"_meta"| == 5;
    if block.TextBlock? {
      FieldAdded(map["type" := Str("text"), "text" := Str(block.text)], "_meta", MetaValue(block.meta));
    }
  }

  /** An outcome is written as an object with its discriminator, if it has one,
      and the values it has; an absent value has no key. */
  lemma OutcomeIsWritten(outcome: Outcome)
    ensures Encode(outcome).Obj?
    ensures var fields := Encode(outcome).fields;
            && Present(fields, "_meta") == MetaValue(outcome.meta)
            && match outcome
               case Content(content, structured, isError, _) =>
                 && fields.Keys <= {"content", "structuredContent", "isError", "_meta"}
                 && Present(fields, "content") == Some(Arr(EncodeBlocks(content)))
                 && Present(fields, "structuredContent") == structured
                 && Present(fields, "isError") == (if isError.Some? then Some(Bool(isError.value)) else None)
               case TaskHandle(task, _) =>
                 && fields.Keys <= {"resultType", "task", "_meta"}
                 && Present(fields, "resultType") == Some(Str("task"))
                 && Present(fields, "task") == Some(EncodeTask(task))
               case InputRequest(inputRequests, requestState, _) =>
                 && fields.Keys <= {"resultType", "inputRequests", "requestState", "_meta"}
                 && Present(fields, "resultType") == Some(Str("inputRequired"))
                 && Present(fields, "inputRequests") == Some(Obj(inputRequests))
                 && Present(fields, "requestState") == Some(Str(requestState))
  {
    match outcome
    case Content(_, _, _, _) => ContentIsWritten(outcome);
    case TaskHandle(task, meta) =>
      assert |"resultType"| == 10 && |"task"| == 4 && |"_meta"| == 5;
      FieldAdded(map["resultType" := Str(TASK_TAG), "task" := EncodeTask(task)], "_meta", MetaValue(meta));
    case InputRequest(inputRequests, requestState, meta) =>
      assert |"resultType"| == 10 && |"inputRequests"| == 13 && |"requestState"| == 12 && |"_meta"| == 5;
      FieldAdded(map["resultType" := Str(INPUT_TAG), "inputRequests" := Obj(inputRequests),
                     "requestState" := Str(requestState)], "_meta", MetaValue(meta));
  }

  lemma ContentIsWritten(outcome: Outcome)
    requires outcome.Content?
    ensures var fields := Encode(outcome).fields;
            && fields.Keys <= {"content", "structuredContent", "isError", "_meta"}
            && Present(fields, "content") == Some(Arr(EncodeBlocks(outcome.content)))
            && Present(fields, "structuredContent") == outcome.structured
            && Present(fields, "isError") == (if outcome.isError.Some? then Some(Bool(outcome.isError.value)) else None)
            && Present(fields, "_meta") == MetaValue(outcome.meta)
  {
    assert |"content"| == 7 && |"isError"| == 7 && "content"[0] != "isError"[0];
    assert |"structuredContent"| == 17 && |"_meta"| == 5;
    var isError := if outcome.isError.Some? then Some(Bool(outcome.isError.value)) else None;
    var first := map["content" := Arr(EncodeBlocks(outcome.content))];
    var second := first + Field("structuredContent", outcome.structured);
    var third := second + Field("isError", isError);
    FieldAdded(first, "structuredContent", outcome.structured);
    FieldAdded(second, "isError", isError);
    FieldAdded(third, "_meta", MetaValue(outcome.meta));
  }

  // ---- what arbitrary JSON is read as ----

  /** A status is written as its name, or as an object with `null` under it. */
  predicate ReadsStatus(given: Option<Json>, status: TaskStatus) {
    given == Some(Str(AsStr(status))) || given == Some(Obj(map[AsStr(status) := Null]))
  }

  predicate StatusReadable(given: Option<Json>) {
    exists status :: ReadsStatus(given, status)
  }

  /** A task: whatever is not one of its three fields is kept as extra. */
  predicate ReadsTask(j: Json, task: Task) {
    && j.Obj?
    && Present(j.fields, "id") == Some(Str(task.id))
    && ReadsStatus(Present(j.fields, "status"), task.status)
    && ReadsMeta(Present(j.fields, "_meta"), task.meta)
    && task.extra == j.fields - {"id", "status", "_meta"}
  }

  predicate TaskReadable(j: Json) {
    && j.Obj?
    && (var id := Present(j.fields, "id"); id.Some? && id.value.Str?)
    && StatusReadable(Present(j.fields, "status"))
    && MetaOrNothing(Present(j.fields, "_meta"))
  }

  /** A text block; other keys are ignored. */
  predicate ReadsTextBlock(j: Json, text: string, meta: Option<Meta>) {
    && Shaped(j, 3)
    && Given(j, 3, "type", 0) == Some(Str("text")) && Given(j, 3, "text", 1) == Some(Str(text))
    && ReadsMeta(Given(j, 3, "_meta", 2), meta)
  }

  predicate TextBlockReadable(j: Json) {
    && Shaped(j, 3)
    && Given(j, 3, "type", 0) == Some(Str("text"))
    && (var text := Given(j, 3, "text", 1); text.Some? && text.value.Str?)
    && MetaOrNothing(Given(j, 3, "_meta", 2))
  }

  /** A block: a text block if it can be one, else itself. */
  predicate ReadsBlock(j: Json, block: ContentBlock) {
    if TextBlockReadable(j) then block.TextBlock? && ReadsTextBlock(j, block.text, block.meta)
    else block == OtherBlock(j)
  }

  predicate ReadsBlocks(items: seq<Json>, blocks: seq<ContentBlock>) {
    |blocks| == |items| && forall i :: 0 <= i < |items| ==> ReadsBlock(items[i], blocks[i])
  }

  predicate HasTag(j: Json) {
    j.Obj? && "resultType" in j.fields && j.fields["resultType"].Str?
  }

  /** What each kind of outcome is read from. Other keys are ignored. */
  predicate Reads(j: Json, outcome: Outcome) {
    match outcome
    case Content(content, structured, isError, meta) =>
      && !HasTag(j) && Shaped(j, 4)
      && (var given := Given(j, 4, "content", 0);
          given.Some? && given.value.Arr? && ReadsBlocks(given.value.items, content))
      && ReadsRaw(Given(j, 4, "structuredContent", 1), structured)
      && ReadsFlag(Given(j, 4, "isError", 2), isError)
      && ReadsMeta(Given(j, 4, "_meta", 3), meta)
    case TaskHandle(task, meta) =>
      && j.Obj? && Present(j.fields, "resultType") == Some(Str("task"))
      && (var given := Present(j.fields, "task"); given.Some? && ReadsTask(given.value, task))
      && ReadsMeta(Present(j.fields, "_meta"), meta)
    case InputRequest(inputRequests, requestState, meta) =>
      && j.Obj? && Present(j.fields, "resultType") == Some(Str("inputRequired"))
      && Present(j.fields, "inputRequests") == Some(Obj(inputRequests))
      && Present(j.fields, "requestState") == Some(Str(requestState))
      && ReadsMeta(Present(j.fields, "_meta"), meta)
  }

  /** What is an outcome at all. */
  predicate Readable(j: Json) {
    if !HasTag(j) then
      && Shaped(j, 4)
      && (var content := Given(j, 4, "content", 0); content.Some? && content.value.Arr?)
      && (var isError := Given(j, 4, "isError", 2); Nothing(isError) || isError.value.Bool?)
      && MetaOrNothing(Given(j, 4, "_meta", 3))
    else
      && MetaOrNothing(Present(j.fields, "_meta"))
      && if j.fields["resultType"] == Str("task") then
           var task := Present(j.fields, "task"); task.Some? && TaskReadable(task.value)
         else
           && j.fields["resultType"] == Str("inputRequired")
           && (var requests := Present(j.fields, "inputRequests"); requests.Some? && requests.value.Obj?)
           && (var state := Present(j.fields, "requestState"); state.Some? && state.value.Str?)
  }

  lemma StatusIsRead(j: Json)
    ensures forall status :: DecodeStatus(j) == Some(status) <==> ReadsStatus(Some(j), status)
  {
    forall status ensures DecodeStatus(j) == Some(status) <==> ReadsStatus(Some(j), status) {
      ParseAsStr(status);
      if j.Obj? {
        StatusObjectIsRead(j.fields, status);
      }
    }
  }

  lemma StatusObjectIsRead(fields: map<string, Json>, status: TaskStatus)
    ensures DecodeStatus(Obj(fields)) == Some(status) <==> fields == map[AsStr(status) := Null]
  {
    if fields == map[AsStr(status) := Null] {
      assert |fields.Keys| == |{AsStr(status)}| == 1;
      assert forall other: TaskStatus :: fields == map[AsStr(other) := Null] ==> AsStr(other) in fields.Keys;
      forall other: TaskStatus | fields == map[AsStr(other) := Null] ensures other == status {
        AsStrInjective(other, status);
      }
      StatusFound(fields, status);
    }
  }

  lemma StatusFound(fields: map<string, Json>, status: TaskStatus)
    requires |fields| == 1 && fields == map[AsStr(status) := Null]
    requires forall other: TaskStatus :: fields == map[AsStr(other) := Null] ==> other == status
    ensures DecodeStatus(Obj(fields)) == Some(status)
  {
    assert fields == map["working" := Null] ==> fields == map[AsStr(Working) := Null];
    assert fields == map["inputRequired" := Null] ==> fields == map[AsStr(InputRequired) := Null];
    assert fields == map["completed" := Null] ==> fields == map[AsStr(Completed) := Null];
    assert fields == map["failed" := Null] ==> fields == map[AsStr(Failed) := Null];
    assert fields == map["cancelled" := Null] ==> fields == map[AsStr(Cancelled) := Null];
  }

  lemma TaskIsRead(j: Json)
    ensures DecodeTask(j).Some? <==> TaskReadable(j)
    ensures DecodeTask(j).Some? ==> ReadsTask(j, DecodeTask(j).value)
  {
    if j.Obj? {
      OptionalMetaIsRead(j.fields);
      if "status" in j.fields {
        StatusIsRead(j.fields["status"]);
      }
    }
  }

  lemma TextBlockIsRead(j: Json)
    ensures DecodeText(j).Some? <==> TextBlockReadable(j)
    ensures DecodeText(j).Some? ==>
              DecodeText(j).value.TextBlock? && ReadsTextBlock(j, DecodeText(j).value.text, DecodeText(j).value.meta)
  {
    var names := ["type", "text", "_meta"];
    assert names[0] == "type" && names[1] == "text" && names[2] == "_meta";
    assert |"type"| == 4 && |"text"| == 4 && "type"[1] != "text"[1] && |"_meta"| == 5;
    RecordIsGiven(j, names);
    if Shaped(j, 3) {
      var fields := AsRecord(j, names).value;
      OptionalMetaIsRead(fields);
      assert Present(fields, names[0]) == Given(j, 3, "type", 0);
      assert Present(fields, names[1]) == Given(j, 3, "text", 1);
      assert Present(fields, names[2]) == Given(j, 3, "_meta", 2);
    }
  }

  lemma BlockIsRead(j: Json)
    ensures ReadsBlock(j, DecodeBlock(j))
  {
    TextBlockIsRead(j);
  }

  lemma ContentIsRead(j: Json)
    requires !HasTag(j)
    ensures DecodeContent(j).Some? <==> Readable(j)
    ensures DecodeContent(j).Some? ==> Reads(j, DecodeContent(j).value)
  {
    var names := ["content", "structuredContent", "isError", "_meta"];
    assert names[0] == "content" && names[1] == "structuredContent" && names[2] == "isError" && names[3] == "_meta";
    RecordIsGiven(j, names);
    if Shaped(j, 4) {
      var fields := AsRecord(j, names).value;
      OptionalMetaIsRead(fields);
      assert Present(fields, names[0]) == Given(j, 4, "content", 0);
      assert Present(fields, names[1]) == Given(j, 4, "structuredContent", 1);
      assert Present(fields, names[2]) == Given(j, 4, "isError", 2);
      assert Present(fields, names[3]) == Given(j, 4, "_meta", 3);
      if "content" in fields && fields["content"].Arr? {
        forall i | 0 <= i < |fields["content"].items|
          ensures ReadsBlock(fields["content"].items[i], DecodeBlocks(fields["content"].items)[i])
        {
          BlockIsRead(fields["content"].items[i]);
        }
      }
    }
  }

  /** Decoding, completely: which JSON is an outcome at all, and what every part
      of the outcome is in terms of the JSON. */
  lemma OutcomesAreRead(j: Json)
    ensures Decode(j).Some? <==> Readable(j)
    ensures Decode(j).Some? ==> Reads(j, Decode(j).value)
  {
    if !HasTag(j) {
      ContentIsRead(j);
    } else {
      OptionalMetaIsRead(j.fields);
      assert |TASK_TAG| == 4 && |INPUT_TAG| == 13;
      if "task" in j.fields {
        TaskIsRead(j.fields["task"]);
      }
    }
  }

  /** So an answer without content is refused, not read as an empty success. */
  lemma EmptyAnswerIsRefused()
    ensures Decode(Obj(map[])).None?
  {
    OutcomesAreRead(Obj(map[]));
  }
}
