/** JSON values, as the wire types are decoded from and encoded to. */
module JsonValue {
  import opened Wrappers

  /** Integers the JSON layer can represent: signed or unsigned 64 bits. */
  newtype WireInt = n: int | -0x8000_0000_0000_0000 <= n < 0x1_0000_0000_0000_0000

  type UInt64 = n: WireInt | 0 <= n witness 0

  newtype Int64 = n: int | -0x8000_0000_0000_0000 <= n < 0x8000_0000_0000_0000

  datatype Json =
    | Null
    | Bool(b: bool)
    | Integer(n: WireInt)
    | Float(r: real)
    | Str(s: string)
    | Arr(items: seq<Json>)
    | Obj(fields: map<string, Json>)

  /** The fields a plain record is decoded from: an object gives its own
      fields, an array exactly as long as the record gives them by position,
      anything else is refused. */
  function AsRecord(j: Json, names: seq<string>): (fields: Option<map<string, Json>>)
    requires forall a, b :: 0 <= a < b < |names| ==> names[a] != names[b]
    ensures j.Obj? ==> fields == Some(j.fields)
    ensures j.Arr? ==> (fields.Some? <==> |j.items| == |names|)
    ensures j.Arr? && fields.Some? ==>
              forall i :: 0 <= i < |names| ==> names[i] in fields.value && fields.value[names[i]] == j.items[i]
    ensures !j.Obj? && !j.Arr? ==> fields.None?
  {
    match j
    case Obj(fields) => Some(fields)
    case Arr(items) => if |items| == |names| then Some(ByPosition(names, items)) else None
    case _ => None
  }

  function ByPosition(names: seq<string>, items: seq<Json>): (fields: map<string, Json>)
    requires |names| == |items|
    requires forall a, b :: 0 <= a < b < |names| ==> names[a] != names[b]
    ensures forall i :: 0 <= i < |names| ==> names[i] in fields && fields[names[i]] == items[i]
  {
    if names == [] then map[] else ByPosition(names[1..], items[1..])[names[0] := items[0]]
  }

  function Present(fields: map<string, Json>, key: string): Option<Json> {
    if key in fields then Some(fields[key]) else None
  }

  /** A value of which a plain record with so many fields can be read. */
  predicate Shaped(j: Json, count: nat) {
    j.Obj? || (j.Arr? && |j.items| == count)
  }

  /** What such a value gives for the field `key`, which is number `at`. */
  function Given(j: Json, count: nat, key: string, at: nat): Option<Json> {
    match j
    case Obj(fields) => Present(fields, key)
    case Arr(items) => if |items| == count && at < count then Some(items[at]) else None
    case _ => None
  }

  /** A record's fields are the given ones. */
  lemma RecordIsGiven(j: Json, names: seq<string>)
    requires forall a, b :: 0 <= a < b < |names| ==> names[a] != names[b]
    ensures AsRecord(j, names).Some? <==> Shaped(j, |names|)
    ensures Shaped(j, |names|) ==> forall i :: 0 <= i < |names| ==>
              Present(AsRecord(j, names).value, names[i]) == Given(j, |names|, names[i], i)
  {
  }

  /** A given value that is absent or `null` reads as nothing. */
  predicate Nothing(given: Option<Json>) {
    given.None? || given.value.Null?
  }

  /** What an optional text, a flag and a raw value are read as. */
  predicate ReadsText(given: Option<Json>, text: Option<string>) {
    if Nothing(given) then text.None? else text.Some? && given.value == Str(text.value)
  }

  predicate ReadsFlag(given: Option<Json>, flag: Option<bool>) {
    if Nothing(given) then flag.None? else flag.Some? && given.value == Bool(flag.value)
  }

  predicate ReadsRaw(given: Option<Json>, raw: Option<Json>) {
    raw == if Nothing(given) then None else given
  }

  predicate TextOrNothing(given: Option<Json>) {
    Nothing(given) || given.value.Str?
  }

  /** An optional field: absent and `null` are the same. */
  function Optional(fields: map<string, Json>, key: string): Json {
    if key in fields then fields[key] else Null
  }

  function OptionalString(fields: map<string, Json>, key: string): Option<Option<string>> {
    match Optional(fields, key)
    case Null => Some(None)
    case Str(s) => Some(Some(s))
    case _ => None
  }

  function RequiredString(fields: map<string, Json>, key: string): Option<string> {
    if key in fields && fields[key].Str? then Some(fields[key].s) else None
  }

  /** An optional field on the way out: skipped when absent. */
  function Field(key: string, value: Option<Json>): map<string, Json> {
    match value
    case None => map[]
    case Some(j) => map[key := j]
  }

  // ---- what an encoded object shows ----

  /** `key` shows `value`, unless an extra field takes its place. */
  predicate Shows(fields: map<string, Json>, extra: map<string, Json>, key: string, value: Option<Json>) {
    key !in extra ==> Present(fields, key) == value
  }

  /** Every extra field is there, and nothing else but typed ones. */
  predicate KeepsExtra(fields: map<string, Json>, extra: map<string, Json>, typed: set<string>) {
    && (forall key :: key in extra ==> Present(fields, key) == Some(extra[key]))
    && (forall key :: key in fields ==> key in extra || key in typed)
  }

  /** Adding an optional field shows it and hides nothing else. */
  lemma FieldAdded(fields: map<string, Json>, key: string, value: Option<Json>)
    ensures forall other :: other != key ==> Present(fields + Field(key, value), other) == Present(fields, other)
    ensures key !in fields ==> Present(fields + Field(key, value), key) == value
  {
  }

  lemma ExtraOnTop(typed: map<string, Json>, extra: map<string, Json>)
    ensures forall key :: key in extra ==> Present(typed + extra, key) == Some(extra[key])
    ensures forall key :: key !in extra ==> Present(typed + extra, key) == Present(typed, key)
    ensures forall key :: key in typed + extra ==> key in extra || key in typed
  {
  }
}
