/** The tool registry: a map filled from a list, and its sorted listing. */
module ToolRegistry {
  import opened Wrappers
  import opened JsonValue
  import opened Metadata
  import opened Ordering

  /** A registered tool; `handler` stands for the code behind it. */
  datatype ToolEntry = ToolEntry(definition: Tool, handler: int)

  datatype Tool = Tool(
    name: string,
    title: Option<string>,
    description: Option<string>,
    inputSchema: Json,
    outputSchema: Option<Json>,
    meta: Option<Meta>,
    extra: map<string, Json>)

  datatype ListToolsResult = ListToolsResult(
    tools: seq<Tool>,
    nextCursor: Option<string>,
    ttlMs: Option<UInt64>,
    cacheScope: Option<string>,
    meta: Option<Meta>)

  function TypedFields(tool: Tool): map<string, Json> {
    map["name" := Str(tool.name), "inputSchema" := tool.inputSchema]
    + Field("title", Text(tool.title)) + Field("description", Text(tool.description))
    + Field("outputSchema", tool.outputSchema) + MetaField(tool.meta)
  }

  /** Extra fields are written last, as everywhere. */
  function EncodeTool(tool: Tool): Json {
    Obj(TypedFields(tool) + tool.extra)
  }

  function EncodeListing(r: ListToolsResult): Json {
    Obj(map["tools" := Arr(seq(|r.tools|, i requires 0 <= i < |r.tools| => EncodeTool(r.tools[i])))]
        + Field("nextCursor", Text(r.nextCursor))
        + Field("ttlMs", if r.ttlMs.Some? then Some(Integer(r.ttlMs.value)) else None)
        + Field("cacheScope", Text(r.cacheScope)) + MetaField(r.meta))
  }

  /** The listing of entries already in order. */
  function ListingOf(sorted: seq<ToolEntry>): ListToolsResult {
    ListToolsResult(seq(|sorted|, i requires 0 <= i < |sorted| => sorted[i].definition),
                    None, Some(60_000), Some("session"), None)
  }

  const TOOL_KEYS: set<string> := {"name", "title", "description", "inputSchema", "outputSchema", "_meta"}

  /** What a client finds in a serialized tool. */
  predicate ShowsTool(j: Json, tool: Tool) {
    && j.Obj?
    && KeepsExtra(j.fields, tool.extra, TOOL_KEYS)
    && Shows(j.fields, tool.extra, "name", Some(Str(tool.name)))
    && Shows(j.fields, tool.extra, "title", Text(tool.title))
    && Shows(j.fields, tool.extra, "description", Text(tool.description))
    && Shows(j.fields, tool.extra, "inputSchema", Some(tool.inputSchema))
    && Shows(j.fields, tool.extra, "outputSchema", tool.outputSchema)
    && Shows(j.fields, tool.extra, "_meta", if tool.meta.Some? then Some(EncodeMeta(tool.meta.value)) else None)
  }

  /** What a client finds in a serialized listing: the tools, one for one. */
  predicate ShowsTools(j: Json, tools: seq<Tool>) {
    && j.Obj? && j.fields.Keys == {"tools", "ttlMs", "cacheScope"}
    && j.fields["ttlMs"] == Integer(60_000) && j.fields["cacheScope"] == Str("session")
    && j.fields["tools"].Arr? && |j.fields["tools"].items| == |tools|
    && forall i :: 0 <= i < |tools| ==> ShowsTool(j.fields["tools"].items[i], tools[i])
  }

  lemma ToolKeysDiffer()
    ensures "name" != "title" && "name" != "description" && "name" != "inputSchema" && "name" != "outputSchema"
    ensures "title" != "description" && "title" != "inputSchema" && "title" != "outputSchema"
    ensures "description" != "inputSchema" && "description" != "outputSchema" && "inputSchema" != "outputSchema"
    ensures "_meta" != "name" && "_meta" != "title" && "_meta" != "description"
    ensures "_meta" != "inputSchema" && "_meta" != "outputSchema"
  {
    assert |"name"| == 4 && |"title"| == 5 && |"description"| == 11 && |"inputSchema"| == 11 && |"outputSchema"| == 12;
    assert |"_meta"| == 5 && "title"[0] != "_meta"[0] && "description"[0] != "inputSchema"[0];
  }

  lemma TypedFieldsShow(tool: Tool)
    ensures var meta := if tool.meta.Some? then Some(EncodeMeta(tool.meta.value)) else None;
            var typed := TypedFields(tool);
            && typed.Keys <= TOOL_KEYS
            && Present(typed, "name") == Some(Str(tool.name)) && Present(typed, "inputSchema") == Some(tool.inputSchema)
            && Present(typed, "title") == Text(tool.title) && Present(typed, "description") == Text(tool.description)
            && Present(typed, "outputSchema") == tool.outputSchema && Present(typed, "_meta") == meta
  {
    ToolKeysDiffer();
    var required := map["name" := Str(tool.name), "inputSchema" := tool.inputSchema];
    var titled := required + Field("title", Text(tool.title));
    var described := titled + Field("description", Text(tool.description));
    var complete := described + Field("outputSchema", tool.outputSchema);
    FieldAdded(required, "title", Text(tool.title));
    FieldAdded(titled, "description", Text(tool.description));
    FieldAdded(described, "outputSchema", tool.outputSchema);
    FieldAdded(complete, "_meta", if tool.meta.Some? then Some(EncodeMeta(tool.meta.value)) else None);
  }

  lemma ToolIsShown(tool: Tool)
    ensures ShowsTool(EncodeTool(tool), tool)
  {
    TypedFieldsShow(tool);
    ExtraOnTop(TypedFields(tool), tool.extra);
  }

  lemma ListingIsShown(listing: seq<ToolEntry>)
    ensures ShowsTools(EncodeListing(ListingOf(listing)), ListingOf(listing).tools)
  {
    var r := ListingOf(listing);
    assert |"tools"| == 5 && |"ttlMs"| == 5 && |"cacheScope"| == 10 && "tools"[1] != "ttlMs"[1];
    forall i | 0 <= i < |r.tools| ensures ShowsTool(EncodeTool(r.tools[i]), r.tools[i]) {
      ToolIsShown(r.tools[i]);
    }
  }

  /** Tools that show alike are alike, if their extra fields and metadata are
      clean: a serialized tool can be read back. */
  lemma ToolReadsBack(j: Json, a: Tool, b: Tool)
    requires ShowsTool(j, a) && ShowsTool(j, b) && a.extra.Keys !! TOOL_KEYS && b.extra.Keys !! TOOL_KEYS
    requires Clean(a.meta) && Clean(b.meta)
    ensures a == b
  {
    assert a.extra.Keys == j.fields.Keys - TOOL_KEYS == b.extra.Keys;
    assert a.extra == b.extra by {
      forall key | key in a.extra ensures a.extra[key] == b.extra[key] {
        assert Present(j.fields, key) == Some(a.extra[key]) == Some(b.extra[key]);
      }
    }
    if a.meta.Some? && b.meta.Some? {
      CleanMetaRoundTrip(a.meta.value);
      CleanMetaRoundTrip(b.meta.value);
    }
  }

  /** `entries[i]` is the last registration of its name. */
  ghost predicate LastOfName(entries: seq<ToolEntry>, i: int) {
    0 <= i < |entries| && forall j :: i < j < |entries| ==> entries[j].definition.name != entries[i].definition.name
  }

  /** Every registered name maps to its last registration, and nothing else. */
  ghost predicate LastWins(entries: seq<ToolEntry>, tools: map<string, ToolEntry>) {
    && (forall name :: name in tools ==>
          exists i :: LastOfName(entries, i) && entries[i].definition.name == name && tools[name] == entries[i])
    && (forall i :: 0 <= i < |entries| ==> entries[i].definition.name in tools)
  }

  /** That determines the map. */
  lemma LastWinsUnique(entries: seq<ToolEntry>, a: map<string, ToolEntry>, b: map<string, ToolEntry>)
    requires LastWins(entries, a) && LastWins(entries, b)
    ensures a == b
  {
    forall name | name in a ensures name in b && a[name] == b[name] {
      var i :| LastOfName(entries, i) && entries[i].definition.name == name && a[name] == entries[i];
      var j :| LastOfName(entries, j) && entries[j].definition.name == name && b[name] == entries[j];
      assert i == j;
    }
    assert forall name :: name in b ==> name in a;
  }

  /** The order in which the hash map happens to give its values. */
  ghost predicate SomeOrder(values: seq<ToolEntry>, tools: map<string, ToolEntry>) {
    && (forall i :: 0 <= i < |values| ==>
          values[i].definition.name in tools && tools[values[i].definition.name] == values[i])
    && (forall name :: name in tools ==> exists i :: 0 <= i < |values| && values[i].definition.name == name)
    && (forall i, j :: 0 <= i < j < |values| ==> values[i].definition.name != values[j].definition.name)
  }

  ghost predicate SortedByName(entries: seq<ToolEntry>) {
    forall i, j :: 0 <= i < j < |entries| ==> Less(entries[i].definition.name, entries[j].definition.name)
  }

  /** The sorted listing of the same entries. */
  ghost predicate Sorts(values: seq<ToolEntry>, listing: seq<ToolEntry>) {
    multiset(values) == multiset(listing) && SortedByName(listing)
  }

  function Names(entries: seq<ToolEntry>): (names: seq<string>)
    ensures |names| == |entries|
  {
    seq(|entries|, i requires 0 <= i < |entries| => entries[i].definition.name)
  }

  /** The listing is canonical: whatever order the hash map yields, there is one
      sorted listing, and it follows the sorted names. */
  lemma ListingIsCanonical(tools: map<string, ToolEntry>, listing: seq<ToolEntry>)
    requires SomeOrder(listing, tools) && SortedByName(listing)
    ensures Names(listing) == SortedKeys(tools.Keys)
    ensures forall i :: 0 <= i < |listing| ==> listing[i] == tools[SortedKeys(tools.Keys)[i]]
  {
    var names := Names(listing);
    forall name ensures name in names <==> name in tools {
      if name in names {
        var i :| 0 <= i < |names| && names[i] == name;
        assert listing[i].definition.name == name;
      }
      if name in tools {
        var i :| 0 <= i < |listing| && listing[i].definition.name == name;
        assert names[i] == name;
      }
    }
    IncreasingUnique(names, SortedKeys(tools.Keys));
    forall i | 0 <= i < |listing| ensures listing[i] == tools[SortedKeys(tools.Keys)[i]] {
      assert names[i] == listing[i].definition.name;
    }
  }

  lemma ListingIsUnique(tools: map<string, ToolEntry>, a: seq<ToolEntry>, b: seq<ToolEntry>)
    requires SomeOrder(a, tools) && SortedByName(a) && SomeOrder(b, tools) && SortedByName(b)
    ensures a == b
  {
    ListingIsCanonical(tools, a);
    ListingIsCanonical(tools, b);
    assert |a| == |Names(a)| && |b| == |Names(b)|;
  }

  /** The definitions of all tools in a map, by name. */
  ghost function Definitions(tools: map<string, ToolEntry>): seq<Tool> {
    var names := SortedKeys(tools.Keys);
    seq(|names|, i requires 0 <= i < |names| => assert names[i] in names; tools[names[i]].definition)
  }

  lemma ListingShowsLookups(tools: map<string, ToolEntry>, listing: seq<ToolEntry>)
    requires SomeOrder(listing, tools) && SortedByName(listing)
    ensures ListingOf(listing).tools == Definitions(tools)
    ensures var names := SortedKeys(tools.Keys);
            forall i :: 0 <= i < |names| ==> names[i] in tools && Definitions(tools)[i].name == names[i]
  {
    ListingIsCanonical(tools, listing);
    var names := SortedKeys(tools.Keys);
    assert |names| == |Names(listing)|;
    forall i | 0 <= i < |names|
      ensures names[i] in tools && listing[i].definition.name == names[i] && listing[i] == tools[names[i]]
    {
      assert names[i] in names;
      assert listing[i] == tools[names[i]] && Names(listing)[i] == names[i];
    }
  }

  /** What a client finds in the serialized listing of a map's tools. */
  lemma SerializedListing(tools: map<string, ToolEntry>, listing: seq<ToolEntry>)
    requires SomeOrder(listing, tools) && SortedByName(listing)
    ensures ShowsTools(EncodeListing(ListingOf(listing)), Definitions(tools))
  {
    ListingShowsLookups(tools, listing);
    ListingIsShown(listing);
  }

  /** Two maps built from the same registrations, each giving its values in an
      order of its own, are listed alike. */
  lemma ListingsAgree(entries: seq<ToolEntry>,
                      tools: map<string, ToolEntry>, order: seq<ToolEntry>, listing: seq<ToolEntry>,
                      otherTools: map<string, ToolEntry>, otherOrder: seq<ToolEntry>, otherListing: seq<ToolEntry>)
    requires LastWins(entries, tools) && SomeOrder(order, tools) && Sorts(order, listing)
    requires LastWins(entries, otherTools) && SomeOrder(otherOrder, otherTools) && Sorts(otherOrder, otherListing)
    ensures listing == otherListing
  {
    LastWinsUnique(entries, tools, otherTools);
    OrderKept(order, listing, tools);
    OrderKept(otherOrder, otherListing, tools);
    ListingIsUnique(tools, listing, otherListing);
  }

  /** Puts an entry with a new name where it belongs. */
  method InsertByName(sorted: seq<ToolEntry>, entry: ToolEntry) returns (r: seq<ToolEntry>)
    requires SortedByName(sorted)
    requires forall i :: 0 <= i < |sorted| ==> sorted[i].definition.name != entry.definition.name
    ensures SortedByName(r) && multiset(r) == multiset(sorted + [entry])
  {
    var k := 0;
    while k < |sorted| && Less(sorted[k].definition.name, entry.definition.name)
      invariant k <= |sorted|
      invariant forall i :: 0 <= i < k ==> Less(sorted[i].definition.name, entry.definition.name)
    {
      k := k + 1;
    }
    r := sorted[..k] + [entry] + sorted[k..];
    assert sorted == sorted[..k] + sorted[k..];
    if k < |sorted| {
      LessTotal(sorted[k].definition.name, entry.definition.name);
      forall j | k < j < |sorted| ensures Less(entry.definition.name, sorted[j].definition.name) {
        LessTransitive(entry.definition.name, sorted[k].definition.name, sorted[j].definition.name);
      }
    }
  }

  lemma OrderKept(values: seq<ToolEntry>, sorted: seq<ToolEntry>, tools: map<string, ToolEntry>)
    requires SomeOrder(values, tools) && Sorts(values, sorted)
    ensures SomeOrder(sorted, tools)
  {
    forall i | 0 <= i < |sorted|
      ensures sorted[i].definition.name in tools && tools[sorted[i].definition.name] == sorted[i]
    {
      assert sorted[i] in multiset(sorted);
      assert sorted[i] in multiset(values);
    }
    forall name | name in tools ensures exists i :: 0 <= i < |sorted| && sorted[i].definition.name == name {
      var i :| 0 <= i < |values| && values[i].definition.name == name;
      assert values[i] in multiset(values);
      assert values[i] in multiset(sorted);
    }
    forall i, j | 0 <= i < j < |sorted| ensures sorted[i].definition.name != sorted[j].definition.name {
      LessTotal(sorted[i].definition.name, sorted[j].definition.name);
    }
  }

  lemma NextNameIsNew(tools: map<string, ToolEntry>, hashOrder: seq<ToolEntry>, sorted: seq<ToolEntry>, n: nat)
    requires SomeOrder(hashOrder, tools) && n < |hashOrder| && multiset(sorted) == multiset(hashOrder[..n])
    ensures forall i :: 0 <= i < |sorted| ==> sorted[i].definition.name != hashOrder[n].definition.name
  {
    forall i | 0 <= i < |sorted| ensures sorted[i].definition.name != hashOrder[n].definition.name {
      assert sorted[i] in multiset(sorted);
      assert sorted[i] in multiset(hashOrder[..n]);
    }
  }

  lemma LastWinsStep(before: seq<ToolEntry>, entry: ToolEntry, tools: map<string, ToolEntry>)
    requires LastWins(before, tools)
    ensures LastWins(before + [entry], tools[entry.definition.name := entry])
  {
    var shown, more := before + [entry], tools[entry.definition.name := entry];
    forall name | name in more
      ensures exists i :: LastOfName(shown, i) && shown[i].definition.name == name && more[name] == shown[i]
    {
      if name == entry.definition.name {
        assert LastOfName(shown, |before|) && shown[|before|] == entry;
      } else {
        var i :| LastOfName(before, i) && before[i].definition.name == name && tools[name] == before[i];
        assert shown[i] == before[i];
        assert LastOfName(shown, i);
      }
    }
  }

  class Registry {
    const tools: map<string, ToolEntry>

    constructor FromEntries(entries: seq<ToolEntry>)
      ensures LastWins(entries, tools)
    {
      var collected: map<string, ToolEntry> := map[];
      for n := 0 to |entries|
        invariant LastWins(entries[..n], collected)
      {
        ghost var before := collected;
        collected := collected[entries[n].definition.name := entries[n]];
        assert entries[..n + 1] == entries[..n] + [entries[n]];
        LastWinsStep(entries[..n], entries[n], before);
      }
      assert entries[..|entries|] == entries;
      tools := collected;
    }

    function Get(name: string): Option<ToolEntry> {
      if name in tools then Some(tools[name]) else None
    }

    /** All tools sorted by name, from whatever order the map yields. The loop
        stands for the library sort; any other gives the same result. */
    method AllSorted(hashOrder: seq<ToolEntry>) returns (entries: seq<ToolEntry>)
      requires SomeOrder(hashOrder, tools)
      ensures SomeOrder(entries, tools) && Sorts(hashOrder, entries)
    {
      entries := [];
      for n := 0 to |hashOrder|
        invariant SortedByName(entries) && multiset(entries) == multiset(hashOrder[..n])
      {
        NextNameIsNew(tools, hashOrder, entries, n);
        assert hashOrder[..n + 1] == hashOrder[..n] + [hashOrder[n]];
        entries := InsertByName(entries, hashOrder[n]);
      }
      assert hashOrder[..|hashOrder|] == hashOrder;
      OrderKept(hashOrder, entries, tools);
    }

    /** The `tools/list` result: strictly increasing by name, exactly the names
        registered, each with the definition `Get` gives for it. */
    method ListResult(hashOrder: seq<ToolEntry>) returns (r: ListToolsResult)
      requires SomeOrder(hashOrder, tools)
      ensures var names := SortedKeys(tools.Keys);
              && |r.tools| == |names|
              && forall i :: 0 <= i < |names| ==>
                   r.tools[i].name == names[i] && Get(names[i]).Some? && r.tools[i] == Get(names[i]).value.definition
      ensures exists listing :: SomeOrder(listing, tools) && Sorts(hashOrder, listing) && r == ListingOf(listing)
    {
      var sorted := AllSorted(hashOrder);
      ListingShowsLookups(tools, sorted);
      r := ListToolsResult(seq(|sorted|, i requires 0 <= i < |sorted| => sorted[i].definition),
                           None, Some(60_000), Some("session"), None);
      assert r == ListingOf(sorted);
    }
  }
}
