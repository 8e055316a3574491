/**
 The tool-schema sanitizer as a function on JSON trees, with its fixed points.
 `Sanitizers` holds the in-place code that computes it.
 */
module SanitizerModel {
  import opened Jsons

  /** How the sanitizer treats the value of a schema member. */
  datatype Kind =
    | PropertiesKind
    | AdditionalKind
    | SchemaKind
    | SliceKind
    | MapKind
    | OtherKind

  function KindOf(key: string): Kind {
    if key == "properties" then PropertiesKind
    else if key == "additionalProperties" then AdditionalKind
    else if key == "items" || key == "not" then SchemaKind
    else if key == "anyOf" || key == "oneOf" || key == "allOf" || key == "prefixItems" then SliceKind
    else if key == "$defs" || key == "definitions" || key == "patternProperties" then MapKind
    else OtherKind
  }

  /** The schema that accepts everything yet is not empty. */
  const ANY := Obj(map["type" := Arr([
    Str("object"), Str("string"), Str("number"), Str("boolean"), Str("array"), Str("null")])])

  const ANY_OBJECT := Obj(map["type" := Str("object")])

  /** A `properties` member that is removed with its key. */
  predicate Dropped(key: string, v: Json) {
    KindOf(key) == PropertiesKind && IsBlank(v)
  }

  /** A schema object with every schema position below it rewritten. */
  function SanitizeNode(v: Json): Json
    decreases v, 0
  {
    if v.Obj? then
      Obj(map k | k in v.members && !Dropped(k, v.members[k]) :: SanitizeMember(k, v.members[k]))
    else v
  }

  /** A value in a schema position. */
  function SanitizeChild(v: Json): Json
    decreases v, 1
  {
    if IsBlank(v) then ANY else SanitizeNode(v)
  }

  function SanitizeMap(v: Json): Json
    decreases v, 2
  {
    if v.Obj? then Obj(map k | k in v.members :: SanitizeChild(v.members[k])) else v
  }

  function SanitizeSlice(v: Json): Json
    decreases v, 2
  {
    if v.Arr? then Arr(seq(|v.items|, i requires 0 <= i < |v.items| => SanitizeChild(v.items[i]))) else v
  }

  function SanitizeMember(key: string, v: Json): Json
    decreases v, 3
  {
    match KindOf(key)
    case PropertiesKind => SanitizeMap(v)
    case AdditionalKind => if IsBlank(v) then Bool(true) else SanitizeNode(v)
    case SchemaKind => if IsBlank(v) then ANY else if v.Obj? then SanitizeNode(v) else SanitizeSlice(v)
    case SliceKind => SanitizeSlice(v)
    case MapKind => SanitizeMap(v)
    case OtherKind => v
  }

  /** What a pass leaves at one member. */
  lemma MemberAfter(v: Json, key: string)
    requires v.Obj? && key in v.members
    ensures key in SanitizeNode(v).members <==> !Dropped(key, v.members[key])
    ensures key in SanitizeNode(v).members ==>
      SanitizeNode(v).members[key] == SanitizeMember(key, v.members[key])
  {
  }

  // ---------------------------------------------------------------- clean trees

  /** No schema position below v is blank and no `properties` member is. */
  ghost predicate CleanNode(v: Json)
    decreases v, 0
  {
    v.Obj? ==> forall k :: k in v.members ==> !Dropped(k, v.members[k]) && CleanMember(k, v.members[k])
  }

  ghost predicate CleanChild(v: Json)
    decreases v, 1
  {
    !IsBlank(v) && CleanNode(v)
  }

  ghost predicate CleanMap(v: Json)
    decreases v, 2
  {
    v.Obj? ==> forall k :: k in v.members ==> CleanChild(v.members[k])
  }

  ghost predicate CleanSlice(v: Json)
    decreases v, 2
  {
    v.Arr? ==> forall i :: 0 <= i < |v.items| ==> CleanChild(v.items[i])
  }

  ghost predicate CleanMember(key: string, v: Json)
    decreases v, 3
  {
    match KindOf(key)
    case PropertiesKind => CleanMap(v)
    case AdditionalKind => CleanChild(v)
    case SchemaKind => CleanChild(v) && CleanSlice(v)
    case SliceKind => CleanSlice(v)
    case MapKind => CleanMap(v)
    case OtherKind => true
  }

  /** Sanitizing changes nothing exactly when the tree is clean. */
  lemma {:induction false} FixedNode(v: Json)
    ensures SanitizeNode(v) == v <==> CleanNode(v)
    decreases v, 0
  {
    if v.Obj? {
      var w := SanitizeNode(v);
      forall k | k in v.members
        ensures SanitizeMember(k, v.members[k]) == v.members[k] <==> CleanMember(k, v.members[k])
      {
        FixedMember(k, v.members[k]);
      }
      if w == v {
        forall k | k in v.members
          ensures !Dropped(k, v.members[k]) && CleanMember(k, v.members[k])
        {
          assert k in w.members && w.members[k] == v.members[k];
        }
      }
      if CleanNode(v) {
        assert w.members == v.members;
      }
    }
  }

  lemma {:induction false} FixedChild(v: Json)
    ensures SanitizeChild(v) == v <==> CleanChild(v)
    decreases v, 1
  {
    assert "type" in ANY.members;
    FixedNode(v);
  }

  lemma {:induction false} FixedMap(v: Json)
    ensures SanitizeMap(v) == v <==> CleanMap(v)
    decreases v, 2
  {
    if v.Obj? {
      var w := SanitizeMap(v);
      forall k | k in v.members
        ensures SanitizeChild(v.members[k]) == v.members[k] <==> CleanChild(v.members[k])
      {
        FixedChild(v.members[k]);
      }
      if w == v {
        forall k | k in v.members
          ensures CleanChild(v.members[k])
        {
          assert w.members[k] == v.members[k];
        }
      }
      if CleanMap(v) {
        assert w.members == v.members;
      }
    }
  }

  lemma {:induction false} FixedSlice(v: Json)
    ensures SanitizeSlice(v) == v <==> CleanSlice(v)
    decreases v, 2
  {
    if v.Arr? {
      var w := SanitizeSlice(v);
      forall i | 0 <= i < |v.items|
        ensures SanitizeChild(v.items[i]) == v.items[i] <==> CleanChild(v.items[i])
      {
        FixedChild(v.items[i]);
      }
      if w == v {
        forall i | 0 <= i < |v.items|
          ensures CleanChild(v.items[i])
        {
          assert w.items[i] == v.items[i];
        }
      }
      if CleanSlice(v) {
        assert w.items == v.items;
      }
    }
  }

  lemma {:induction false} FixedMember(key: string, v: Json)
    ensures SanitizeMember(key, v) == v <==> CleanMember(key, v)
    decreases v, 3
  {
    FixedChild(v);
    FixedNode(v);
    FixedMap(v);
    FixedSlice(v);
  }

  // -------------------------------------------------------------- how many passes

  /** An object that one pass turns into the empty object. */
  predicate Hollow(v: Json) {
    v.Obj? && v.members.Keys == {"properties"} && IsBlank(v.members["properties"])
  }

  /** No value in a schema position below v is hollow. */
  ghost predicate SolidNode(v: Json)
    decreases v, 0
  {
    v.Obj? ==> forall k :: k in v.members ==> SolidMember(k, v.members[k])
  }

  ghost predicate SolidChild(v: Json)
    decreases v, 1
  {
    !Hollow(v) && SolidNode(v)
  }

  ghost predicate SolidMap(v: Json)
    decreases v, 2
  {
    v.Obj? ==> forall k :: k in v.members ==> SolidChild(v.members[k])
  }

  ghost predicate SolidSlice(v: Json)
    decreases v, 2
  {
    v.Arr? ==> forall i :: 0 <= i < |v.items| ==> SolidChild(v.items[i])
  }

  ghost predicate SolidMember(key: string, v: Json)
    decreases v, 3
  {
    match KindOf(key)
    case PropertiesKind => SolidMap(v)
    case AdditionalKind => SolidChild(v)
    case SchemaKind => SolidChild(v) && SolidSlice(v)
    case SliceKind => SolidSlice(v)
    case MapKind => SolidMap(v)
    case OtherKind => true
  }

  lemma AnyIsClean()
    ensures CleanChild(ANY) && SolidChild(ANY) && CleanNode(ANY_OBJECT) && CleanChild(Bool(true))
  {
    assert "type" in ANY.members;
    assert "type" in ANY_OBJECT.members;
    assert KindOf("type") == OtherKind;
  }

  /** A pass leaves a blank behind exactly where it met a hollow object. */
  lemma NodeBlank(v: Json)
    requires v.Obj? && v != EMPTY_OBJECT
    ensures IsBlank(SanitizeNode(v)) <==> Hollow(v)
  {
    var w := SanitizeNode(v);
    if IsBlank(w) {
      forall k | k in v.members
        ensures k == "properties" && IsBlank(v.members[k])
      {
        assert k !in w.members;
      }
      var k :| k in v.members;
      assert v.members.Keys == {"properties"};
    }
    if Hollow(v) {
      assert w.members == map[];
    }
  }

  /** One pass cleans a tree exactly when no value below it is hollow. */
  lemma {:induction false} OnePassNode(v: Json)
    ensures CleanNode(SanitizeNode(v)) <==> SolidNode(v)
    decreases v, 0
  {
    if v.Obj? {
      var w := SanitizeNode(v);
      forall k | k in v.members
        ensures CleanMember(k, SanitizeMember(k, v.members[k])) <==> SolidMember(k, v.members[k])
        ensures !Dropped(k, v.members[k]) ==> !Dropped(k, SanitizeMember(k, v.members[k]))
        ensures Dropped(k, v.members[k]) ==> SolidMember(k, v.members[k])
      {
        OnePassMember(k, v.members[k]);
        if !Dropped(k, v.members[k]) {
          KeptProperties(k, v.members[k]);
        }
      }
      if SolidNode(v) {
        forall k | k in w.members
          ensures !Dropped(k, w.members[k]) && CleanMember(k, w.members[k])
        {
          assert w.members[k] == SanitizeMember(k, v.members[k]);
        }
      }
      if CleanNode(w) {
        forall k | k in v.members
          ensures SolidMember(k, v.members[k])
        {
          if !Dropped(k, v.members[k]) {
            assert k in w.members && w.members[k] == SanitizeMember(k, v.members[k]);
          }
        }
      }
    }
  }

  lemma KeptProperties(key: string, v: Json)
    requires !Dropped(key, v)
    ensures !Dropped(key, SanitizeMember(key, v))
  {
    if KindOf(key) == PropertiesKind && v.Obj? {
      assert SanitizeMap(v).members.Keys == v.members.Keys;
    }
  }

  lemma {:induction false} OnePassChild(v: Json)
    ensures CleanChild(SanitizeChild(v)) <==> SolidChild(v)
    decreases v, 1
  {
    AnyIsClean();
    OnePassNode(v);
    if !IsBlank(v) && v.Obj? {
      NodeBlank(v);
    }
  }

  lemma {:induction false} OnePassMap(v: Json)
    ensures CleanMap(SanitizeMap(v)) <==> SolidMap(v)
    decreases v, 2
  {
    if v.Obj? {
      var w := SanitizeMap(v);
      forall k | k in v.members
        ensures CleanChild(w.members[k]) <==> SolidChild(v.members[k])
      {
        OnePassChild(v.members[k]);
      }
    }
  }

  lemma {:induction false} OnePassSlice(v: Json)
    ensures CleanSlice(SanitizeSlice(v)) <==> SolidSlice(v)
    decreases v, 2
  {
    if v.Arr? {
      var w := SanitizeSlice(v);
      forall i | 0 <= i < |v.items|
        ensures CleanChild(w.items[i]) <==> SolidChild(v.items[i])
      {
        OnePassChild(v.items[i]);
      }
    }
  }

  lemma {:induction false} OnePassMember(key: string, v: Json)
    ensures CleanMember(key, SanitizeMember(key, v)) <==> SolidMember(key, v)
    decreases v, 3
  {
    AnyIsClean();
    OnePassChild(v);
    OnePassMap(v);
    OnePassSlice(v);
    if KindOf(key) == SchemaKind && v.Arr? {
      assert CleanChild(SanitizeSlice(v)) && SolidChild(v);
    }
  }

  /** A pass leaves nothing hollow behind. */
  lemma {:induction false} PassIsSolidNode(v: Json)
    ensures SolidNode(SanitizeNode(v)) && !Hollow(SanitizeNode(v))
    decreases v, 0
  {
    if v.Obj? {
      var w := SanitizeNode(v);
      forall k | k in w.members
        ensures SolidMember(k, w.members[k]) && !Dropped(k, w.members[k])
      {
        PassIsSolidMember(k, v.members[k]);
        KeptProperties(k, v.members[k]);
      }
    }
  }

  lemma {:induction false} PassIsSolidChild(v: Json)
    ensures SolidChild(SanitizeChild(v))
    decreases v, 1
  {
    AnyIsClean();
    PassIsSolidNode(v);
  }

  lemma {:induction false} PassIsSolidMap(v: Json)
    ensures SolidMap(SanitizeMap(v))
    decreases v, 2
  {
    if v.Obj? {
      forall k | k in v.members
        ensures SolidChild(SanitizeChild(v.members[k]))
      {
        PassIsSolidChild(v.members[k]);
      }
    }
  }

  lemma {:induction false} PassIsSolidSlice(v: Json)
    ensures SolidSlice(SanitizeSlice(v))
    decreases v, 2
  {
    if v.Arr? {
      forall i | 0 <= i < |v.items|
        ensures SolidChild(SanitizeChild(v.items[i]))
      {
        PassIsSolidChild(v.items[i]);
      }
    }
  }

  lemma {:induction false} PassIsSolidMember(key: string, v: Json)
    ensures SolidMember(key, SanitizeMember(key, v))
    decreases v, 3
  {
    AnyIsClean();
    PassIsSolidChild(v);
    PassIsSolidNode(v);
    PassIsSolidMap(v);
    PassIsSolidSlice(v);
  }

  // ----------------------------------------------------------------- whole tools

  /** One entry of a tools list: its `inputSchema` if it has one. */
  function SanitizeTool(tool: map<string, Json>): map<string, Json> {
    if "inputSchema" !in tool then tool
    else if IsBlank(tool["inputSchema"]) then tool["inputSchema" := ANY_OBJECT]
    else tool["inputSchema" := SanitizeNode(tool["inputSchema"])]
  }

  ghost predicate CleanTool(tool: map<string, Json>) {
    "inputSchema" in tool ==> CleanChild(tool["inputSchema"])
  }

  ghost predicate SolidTool(tool: map<string, Json>) {
    "inputSchema" in tool ==> SolidChild(tool["inputSchema"])
  }

  lemma FixedTool(tool: map<string, Json>)
    ensures SanitizeTool(tool) == tool <==> CleanTool(tool)
  {
    if "inputSchema" in tool {
      var schema := tool["inputSchema"];
      AnyIsClean();
      assert "type" in ANY_OBJECT.members;
      FixedNode(schema);
      assert SanitizeTool(tool)["inputSchema"] == schema ==> SanitizeTool(tool) == tool;
    }
  }

  /** One pass leaves a clean tool exactly when neither the schema nor a value below it is hollow. */
  lemma OnePassTool(tool: map<string, Json>)
    ensures CleanTool(SanitizeTool(tool)) <==> SolidTool(tool)
    ensures SanitizeTool(SanitizeTool(tool)) == SanitizeTool(tool) <==> SolidTool(tool)
  {
    FixedTool(SanitizeTool(tool));
    if "inputSchema" in tool {
      var schema := tool["inputSchema"];
      AnyIsClean();
      OnePassChild(schema);
      assert "type" in ANY_OBJECT.members;
    }
  }

  /** Two passes always do. */
  lemma TwoPassesTool(tool: map<string, Json>)
    ensures var twice := SanitizeTool(SanitizeTool(tool));
      CleanTool(twice) && SanitizeTool(twice) == twice
  {
    var once := SanitizeTool(tool);
    if "inputSchema" in tool {
      AnyIsClean();
      assert SolidChild(ANY_OBJECT) by {
        assert "type" in ANY_OBJECT.members && KindOf("type") == OtherKind;
      }
      PassIsSolidNode(tool["inputSchema"]);
      assert SolidTool(once);
    }
    OnePassTool(once);
    FixedTool(SanitizeTool(once));
  }

  /** A property whose schema is `{"properties": {}}` needs the second pass. */
  lemma OnePassIsNotEnough()
    ensures var tool := map["inputSchema" := Obj(map["properties" := EMPTY_OBJECT])];
      && SanitizeTool(tool) == map["inputSchema" := EMPTY_OBJECT]
      && SanitizeTool(SanitizeTool(tool)) == map["inputSchema" := ANY_OBJECT]
  {
    var schema := Obj(map["properties" := EMPTY_OBJECT]);
    assert "properties" in schema.members;
    NodeBlank(schema);
    assert SanitizeNode(schema).Obj?;
  }

  // ------------------------------------------------------------ a tools/list answer

  /** Tools decode as objects; a null entry decodes as an object without members. */
  predicate IsToolArray(v: Json) {
    v.Arr? && forall i :: 0 <= i < |v.items| ==> v.items[i].Obj? || v.items[i].Null?
  }

  predicate HasTools(body: Json) {
    && body.Obj? && "result" in body.members
    && body.members["result"].Obj? && "tools" in body.members["result"].members
    && IsToolArray(body.members["result"].members["tools"])
  }

  function ToolsOf(body: Json): seq<Json>
    requires HasTools(body)
  {
    body.members["result"].members["tools"].items
  }

  function SanitizeEntry(entry: Json): Json {
    if entry.Obj? then Obj(SanitizeTool(entry.members)) else entry
  }

  function SanitizeEntries(tools: seq<Json>): seq<Json> {
    seq(|tools|, i requires 0 <= i < |tools| => SanitizeEntry(tools[i]))
  }

  function WithTools(body: Json, tools: seq<Json>): Json
    requires HasTools(body)
  {
    var result := body.members["result"];
    Obj(body.members["result" := Obj(result.members["tools" := Arr(tools)])])
  }

  function SanitizeToolsList(body: Json): Json {
    if HasTools(body) then WithTools(body, SanitizeEntries(ToolsOf(body))) else body
  }

  /** Everything in an answer but the schemas is kept: envelope, tools, their order, their other members. */
  lemma ToolsListKeepsTheRest(body: Json)
    requires HasTools(body)
    ensures var after := SanitizeToolsList(body);
      && HasTools(after) && |ToolsOf(after)| == |ToolsOf(body)|
      && after.members.Keys == body.members.Keys
      && after.members["result"].members.Keys == body.members["result"].members.Keys
      && (forall k :: k in body.members && k != "result" ==> after.members[k] == body.members[k])
      && (forall k :: k in body.members["result"].members && k != "tools" ==>
            after.members["result"].members[k] == body.members["result"].members[k])
      && (forall i, k :: 0 <= i < |ToolsOf(body)| && ToolsOf(body)[i].Obj? && k != "inputSchema" ==>
            && ToolsOf(after)[i].Obj?
            && (k in ToolsOf(after)[i].members <==> k in ToolsOf(body)[i].members)
            && (k in ToolsOf(body)[i].members ==> ToolsOf(after)[i].members[k] == ToolsOf(body)[i].members[k]))
  {
  }

  /** Members that are not schema positions are kept as they are, null or not. */
  lemma OtherMembersUntouched(v: Json, key: string)
    requires v.Obj? && KindOf(key) == OtherKind
    ensures key in SanitizeNode(v).members <==> key in v.members
    ensures key in v.members ==> SanitizeNode(v).members[key] == v.members[key]
  {
  }
}
