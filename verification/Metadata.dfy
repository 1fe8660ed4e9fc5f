/** The `_meta` object: reserved keys are typed, all others are kept. */
module Metadata {
  import opened Wrappers
  import opened JsonValue

  const CLIENT_INFO := "io.modelcontextprotocol/clientInfo"
  const TRACEPARENT := "traceparent"
  const TRACESTATE := "tracestate"
  const BAGGAGE := "baggage"
  const RESERVED: set<string> := {CLIENT_INFO, TRACEPARENT, TRACESTATE, BAGGAGE}

  datatype ClientInfo = ClientInfo(name: string, version: string)

  datatype Meta = Meta(
    clientInfo: Option<ClientInfo>,
    traceparent: Option<string>,
    tracestate: Option<string>,
    baggage: Option<string>,
    extra: map<string, Json>)

  function EncodeClientInfo(info: ClientInfo): Json {
    Obj(map["name" := Str(info.name), "version" := Str(info.version)])
  }

  function DecodeClientInfo(j: Json): Option<ClientInfo> {
    var fields :- AsRecord(j, ["name", "version"]);
    var name :- RequiredString(fields, "name");
    var version :- RequiredString(fields, "version");
    Some(ClientInfo(name, version))
  }

  function Text(value: Option<string>): Option<Json> {
    match value
    case None => None
    case Some(s) => Some(Str(s))
  }

  function Reserved(meta: Meta): map<string, Json> {
    Field(CLIENT_INFO, if meta.clientInfo.Some? then Some(EncodeClientInfo(meta.clientInfo.value)) else None)
    + Field(TRACEPARENT, Text(meta.traceparent))
    + Field(TRACESTATE, Text(meta.tracestate))
    + Field(BAGGAGE, Text(meta.baggage))
  }

  /** Extra keys are written after the reserved ones, so a clash overwrites. */
  function EncodeMeta(meta: Meta): Json {
    Obj(Reserved(meta) + meta.extra)
  }

  function DecodeMeta(j: Json): Option<Meta> {
    if !j.Obj? then None else
    var clientInfo :- OptionalClientInfo(j.fields);
    var traceparent :- OptionalString(j.fields, TRACEPARENT);
    var tracestate :- OptionalString(j.fields, TRACESTATE);
    var baggage :- OptionalString(j.fields, BAGGAGE);
    Some(Meta(clientInfo, traceparent, tracestate, baggage, j.fields - RESERVED))
  }

  function OptionalClientInfo(fields: map<string, Json>): Option<Option<ClientInfo>> {
    match Optional(fields, CLIENT_INFO)
    case Null => Some(None)
    case j =>
      var info :- DecodeClientInfo(j);
      Some(Some(info))
  }

  function OptionalMeta(fields: map<string, Json>): Option<Option<Meta>> {
    match Optional(fields, "_meta")
    case Null => Some(None)
    case j =>
      var meta :- DecodeMeta(j);
      Some(Some(meta))
  }

  function MetaField(meta: Option<Meta>): map<string, Json> {
    Field("_meta", if meta.Some? then Some(EncodeMeta(meta.value)) else None)
  }

  /** The extra keys do not clash with the reserved ones. */
  predicate Clean(meta: Option<Meta>) {
    meta.Some? ==> meta.value.extra.Keys !! RESERVED
  }

  lemma ReservedKeysDiffer()
    ensures CLIENT_INFO != TRACEPARENT && CLIENT_INFO != TRACESTATE && CLIENT_INFO != BAGGAGE
    ensures TRACEPARENT != TRACESTATE && TRACEPARENT != BAGGAGE && TRACESTATE != BAGGAGE
  {
    assert |CLIENT_INFO| == 34 && |TRACEPARENT| == 11 && |TRACESTATE| == 10 && |BAGGAGE| == 7;
  }

  lemma ClientInfoRoundTrip(info: ClientInfo)
    ensures DecodeClientInfo(EncodeClientInfo(info)) == Some(info)
  {
    assert "name" != "version" by { assert |"name"| == 4 && |"version"| == 7; }
  }

  lemma TypedApart(a: string, va: Option<Json>, b: string, vb: Option<Json>, c: string, vc: Option<Json>,
                   d: string, vd: Option<Json>)
    requires a != b && a != c && a != d && b != c && b != d && c != d
    ensures var typed := Field(a, va) + Field(b, vb) + Field(c, vc) + Field(d, vd);
            && typed.Keys <= {a, b, c, d}
            && Optional(typed, a) == (if va.Some? then va.value else Null)
            && Optional(typed, b) == (if vb.Some? then vb.value else Null)
            && Optional(typed, c) == (if vc.Some? then vc.value else Null)
            && Optional(typed, d) == (if vd.Some? then vd.value else Null)
  {
  }

  lemma ExtraApart(typed: map<string, Json>, keys: set<string>, extra: map<string, Json>)
    requires typed.Keys <= keys && extra.Keys !! keys
    ensures typed + extra - keys == extra
    ensures forall key :: key in keys ==> Optional(typed + extra, key) == Optional(typed, key)
  {
  }

  /** Four distinct optional fields below extra fields that avoid them can all
      be told apart again. */
  lemma FieldsApart(a: string, va: Option<Json>, b: string, vb: Option<Json>, c: string, vc: Option<Json>,
                    d: string, vd: Option<Json>, extra: map<string, Json>)
    requires a != b && a != c && a != d && b != c && b != d && c != d
    requires extra.Keys !! {a, b, c, d}
    ensures var all := Field(a, va) + Field(b, vb) + Field(c, vc) + Field(d, vd) + extra;
            && all - {a, b, c, d} == extra
            && Optional(all, a) == (if va.Some? then va.value else Null)
            && Optional(all, b) == (if vb.Some? then vb.value else Null)
            && Optional(all, c) == (if vc.Some? then vc.value else Null)
            && Optional(all, d) == (if vd.Some? then vd.value else Null)
  {
    var typed := Field(a, va) + Field(b, vb) + Field(c, vc) + Field(d, vd);
    TypedApart(a, va, b, vb, c, vc, d, vd);
    ExtraApart(typed, {a, b, c, d}, extra);
  }

  lemma OptionalClientInfoRead(fields: map<string, Json>, info: Option<ClientInfo>)
    requires Optional(fields, CLIENT_INFO) == if info.Some? then EncodeClientInfo(info.value) else Null
    ensures OptionalClientInfo(fields) == Some(info)
  {
    if info.Some? {
      ClientInfoRoundTrip(info.value);
    }
  }

  /** Every encoded field is where it is looked for. */
  lemma MetaFields(meta: Meta)
    requires Clean(Some(meta))
    ensures var fields := EncodeMeta(meta).fields;
            && fields - RESERVED == meta.extra
            && Optional(fields, CLIENT_INFO)
               == (if meta.clientInfo.Some? then EncodeClientInfo(meta.clientInfo.value) else Null)
            && OptionalString(fields, TRACEPARENT) == Some(meta.traceparent)
            && OptionalString(fields, TRACESTATE) == Some(meta.tracestate)
            && OptionalString(fields, BAGGAGE) == Some(meta.baggage)
  {
    ReservedKeysDiffer();
    var info := if meta.clientInfo.Some? then Some(EncodeClientInfo(meta.clientInfo.value)) else None;
    FieldsApart(CLIENT_INFO, info, TRACEPARENT, Text(meta.traceparent), TRACESTATE, Text(meta.tracestate),
                BAGGAGE, Text(meta.baggage), meta.extra);
  }

  lemma CleanMetaRoundTrip(meta: Meta)
    requires Clean(Some(meta))
    ensures DecodeMeta(EncodeMeta(meta)) == Some(meta)
  {
    MetaFields(meta);
    OptionalClientInfoRead(EncodeMeta(meta).fields, meta.clientInfo);
  }

  /** A `_meta` field survives the trip exactly when its extra keys are clean. */
  lemma MetaRoundTrip(meta: Option<Meta>, fields: map<string, Json>)
    requires Optional(fields, "_meta") == Optional(MetaField(meta), "_meta")
    ensures OptionalMeta(fields) == Some(meta) <==> Clean(meta)
  {
    if meta.Some? {
      if Clean(meta) {
        CleanMetaRoundTrip(meta.value);
      }
    }
  }

  // ---- what is written ----

  /** Client information is written as an object of its two texts. */
  lemma ClientInfoIsWritten(info: ClientInfo)
    ensures var j := EncodeClientInfo(info);
            && j.Obj? && j.fields.Keys == {"name", "version"}
            && j.fields["name"] == Str(info.name) && j.fields["version"] == Str(info.version)
  {
    assert "name" != "version" by { assert |"name"| == 4 && |"version"| == 7; }
  }

  /** Metadata is written with the typed values it has, none for those it has
      not, and all extra ones. */
  lemma MetaIsWritten(meta: Meta)
    ensures var j := EncodeMeta(meta);
            && j.Obj?
            && KeepsExtra(j.fields, meta.extra,
                          {"io.modelcontextprotocol/clientInfo", "traceparent", "tracestate", "baggage"})
            && Shows(j.fields, meta.extra, "io.modelcontextprotocol/clientInfo",
                     if meta.clientInfo.Some? then Some(EncodeClientInfo(meta.clientInfo.value)) else None)
            && Shows(j.fields, meta.extra, "traceparent", Text(meta.traceparent))
            && Shows(j.fields, meta.extra, "tracestate", Text(meta.tracestate))
            && Shows(j.fields, meta.extra, "baggage", Text(meta.baggage))
  {
    ReservedShow(meta);
    ExtraOnTop(Reserved(meta), meta.extra);
  }

  lemma ReservedShow(meta: Meta)
    ensures var typed := Reserved(meta);
            && typed.Keys <= RESERVED
            && Present(typed, CLIENT_INFO)
               == (if meta.clientInfo.Some? then Some(EncodeClientInfo(meta.clientInfo.value)) else None)
            && Present(typed, TRACEPARENT) == Text(meta.traceparent)
            && Present(typed, TRACESTATE) == Text(meta.tracestate) && Present(typed, BAGGAGE) == Text(meta.baggage)
  {
    ReservedKeysDiffer();
    var info := if meta.clientInfo.Some? then Some(EncodeClientInfo(meta.clientInfo.value)) else None;
    var first := Field(CLIENT_INFO, info);
    var second := first + Field(TRACEPARENT, Text(meta.traceparent));
    var third := second + Field(TRACESTATE, Text(meta.tracestate));
    FieldAdded(first, TRACEPARENT, Text(meta.traceparent));
    FieldAdded(second, TRACESTATE, Text(meta.tracestate));
    FieldAdded(third, BAGGAGE, Text(meta.baggage));
  }

  // ---- what arbitrary JSON is read as ----

  /** Client information: its two texts, by name or in order. */
  predicate ReadsClientInfo(j: Json, info: ClientInfo) {
    && Shaped(j, 2)
    && Given(j, 2, "name", 0) == Some(Str(info.name)) && Given(j, 2, "version", 1) == Some(Str(info.version))
  }

  predicate ClientInfoReadable(j: Json) {
    && Shaped(j, 2)
    && (var name := Given(j, 2, "name", 0); name.Some? && name.value.Str?)
    && (var version := Given(j, 2, "version", 1); version.Some? && version.value.Str?)
  }

  /** Metadata: an object, its typed keys each absent, `null` or of their type,
      and everything else kept. */
  predicate ReadsAsMeta(j: Json, meta: Meta) {
    && j.Obj?
    && (var info := Present(j.fields, "io.modelcontextprotocol/clientInfo");
        if Nothing(info) then meta.clientInfo.None?
        else meta.clientInfo.Some? && ReadsClientInfo(info.value, meta.clientInfo.value))
    && ReadsText(Present(j.fields, "traceparent"), meta.traceparent)
    && ReadsText(Present(j.fields, "tracestate"), meta.tracestate)
    && ReadsText(Present(j.fields, "baggage"), meta.baggage)
    && meta.extra
       == j.fields - {"io.modelcontextprotocol/clientInfo", "traceparent", "tracestate", "baggage"}
  }

  predicate MetaReadable(j: Json) {
    && j.Obj?
    && (var info := Present(j.fields, "io.modelcontextprotocol/clientInfo");
        Nothing(info) || ClientInfoReadable(info.value))
    && TextOrNothing(Present(j.fields, "traceparent"))
    && TextOrNothing(Present(j.fields, "tracestate"))
    && TextOrNothing(Present(j.fields, "baggage"))
  }

  /** A `_meta` field. */
  predicate ReadsMeta(given: Option<Json>, meta: Option<Meta>) {
    if Nothing(given) then meta.None? else meta.Some? && ReadsAsMeta(given.value, meta.value)
  }

  predicate MetaOrNothing(given: Option<Json>) {
    Nothing(given) || MetaReadable(given.value)
  }

  lemma ClientInfoIsRead(j: Json)
    ensures DecodeClientInfo(j).Some? <==> ClientInfoReadable(j)
    ensures forall info :: DecodeClientInfo(j) == Some(info) <==> ReadsClientInfo(j, info)
  {
    var names := ["name", "version"];
    assert names[0] == "name" && names[1] == "version" && |"name"| == 4 && |"version"| == 7;
    RecordIsGiven(j, names);
    if Shaped(j, 2) {
      var fields := AsRecord(j, names).value;
      assert Present(fields, names[0]) == Given(j, 2, "name", 0);
      assert Present(fields, names[1]) == Given(j, 2, "version", 1);
    }
  }

  lemma OptionalTextIsRead(fields: map<string, Json>, key: string)
    ensures OptionalString(fields, key).Some? <==> TextOrNothing(Present(fields, key))
    ensures forall text :: OptionalString(fields, key) == Some(text) <==> ReadsText(Present(fields, key), text)
  {
  }

  lemma OptionalClientInfoIsRead(fields: map<string, Json>)
    ensures var given := Present(fields, CLIENT_INFO);
            && (OptionalClientInfo(fields).Some? <==> Nothing(given) || ClientInfoReadable(given.value))
            && forall info :: OptionalClientInfo(fields) == Some(info)
                              <==> if Nothing(given) then info.None?
                                   else info.Some? && ReadsClientInfo(given.value, info.value)
  {
    if CLIENT_INFO in fields {
      ClientInfoIsRead(fields[CLIENT_INFO]);
    }
  }

  /** Metadata is read exactly when every typed key is of its type, and then as
      exactly this. */
  lemma MetaIsRead(j: Json)
    ensures DecodeMeta(j).Some? <==> MetaReadable(j)
    ensures forall meta :: DecodeMeta(j) == Some(meta) <==> ReadsAsMeta(j, meta)
  {
    if j.Obj? {
      OptionalClientInfoIsRead(j.fields);
      OptionalTextIsRead(j.fields, TRACEPARENT);
      OptionalTextIsRead(j.fields, TRACESTATE);
      OptionalTextIsRead(j.fields, BAGGAGE);
    }
  }

  lemma OptionalMetaIsRead(fields: map<string, Json>)
    ensures OptionalMeta(fields).Some? <==> MetaOrNothing(Present(fields, "_meta"))
    ensures forall meta :: OptionalMeta(fields) == Some(meta) <==> ReadsMeta(Present(fields, "_meta"), meta)
  {
    if "_meta" in fields {
      MetaIsRead(fields["_meta"]);
    }
  }
}
