/**
 What one pass of the sanitizer does, keyword by keyword and tool by tool, written
 out with the names and values of JSON Schema and of a tools/list answer.
 */
module SanitizerKeywords {
  import opened Jsons
  import opened SanitizerModel
  import opened SchemaMeaning

  /** `{"type": ["object", "string", "number", "boolean", "array", "null"]}` */
  ghost predicate IsSixTypes(v: Json) {
    && v.Obj? && v.members.Keys == {"type"}
    && v.members["type"] ==
      Arr([Str("object"), Str("string"), Str("number"), Str("boolean"), Str("array"), Str("null")])
  }

  /** What becomes of a value in a schema position. */
  ghost predicate Rewritten(was: Json, now: Json) {
    if was == Null || was == Obj(map[]) then IsSixTypes(now)
    else if was.Obj? then now == SanitizeNode(was)
    else now == was
  }

  ghost predicate AllRewritten(was: seq<Json>, now: seq<Json>) {
    |now| == |was| && forall i :: 0 <= i < |was| ==> Rewritten(was[i], now[i])
  }

  ghost predicate EachRewritten(was: map<string, Json>, now: map<string, Json>) {
    now.Keys == was.Keys && forall k :: k in was ==> Rewritten(was[k], now[k])
  }

  lemma ChildIsRewritten(v: Json)
    ensures Rewritten(v, SanitizeChild(v))
  {
  }

  lemma SliceIsRewritten(v: Json)
    requires v.Arr?
    ensures SanitizeSlice(v).Arr? && AllRewritten(v.items, SanitizeSlice(v).items)
  {
    forall i | 0 <= i < |v.items|
      ensures Rewritten(v.items[i], SanitizeSlice(v).items[i])
    {
      ChildIsRewritten(v.items[i]);
    }
  }

  lemma MapIsRewritten(v: Json)
    requires v.Obj?
    ensures SanitizeMap(v).Obj? && EachRewritten(v.members, SanitizeMap(v).members)
  {
    forall k | k in v.members
      ensures Rewritten(v.members[k], SanitizeMap(v).members[k])
    {
      ChildIsRewritten(v.members[k]);
    }
  }

  /** `anyOf`, `oneOf`, `allOf` and `prefixItems`: every schema of the list. */
  lemma SliceKeywords(m: map<string, Json>, key: string)
    requires key in m && (key == "anyOf" || key == "oneOf" || key == "allOf" || key == "prefixItems")
    ensures var w := SanitizeNode(Obj(m)).members;
      key in w && if m[key].Arr? then w[key].Arr? && AllRewritten(m[key].items, w[key].items) else w[key] == m[key]
  {
    MemberAfter(Obj(m), key);
    if m[key].Arr? {
      SliceIsRewritten(m[key]);
    }
  }

  /** `$defs`, `definitions` and `patternProperties`: every schema of the map. */
  lemma MapKeywords(m: map<string, Json>, key: string)
    requires key in m && (key == "$defs" || key == "definitions" || key == "patternProperties")
    ensures var w := SanitizeNode(Obj(m)).members;
      key in w && if m[key].Obj? then w[key].Obj? && EachRewritten(m[key].members, w[key].members) else w[key] == m[key]
  {
    MemberAfter(Obj(m), key);
    if m[key].Obj? {
      MapIsRewritten(m[key]);
    }
  }

  /** `items` and `not`: one schema, or a list of them. */
  lemma SchemaKeywords(m: map<string, Json>, key: string)
    requires key in m && (key == "items" || key == "not")
    ensures var w := SanitizeNode(Obj(m)).members;
      && key in w
      && if m[key].Arr? then w[key].Arr? && AllRewritten(m[key].items, w[key].items) else Rewritten(m[key], w[key])
  {
    MemberAfter(Obj(m), key);
    if m[key].Arr? {
      SliceIsRewritten(m[key]);
    } else {
      ChildIsRewritten(m[key]);
    }
  }

  /** `additionalProperties`: null and `{}` become true. */
  lemma AdditionalKeyword(m: map<string, Json>)
    requires "additionalProperties" in m
    ensures var v, w := m["additionalProperties"], SanitizeNode(Obj(m)).members;
      && "additionalProperties" in w
      && w["additionalProperties"] ==
        if v == Null || v == Obj(map[]) then Bool(true) else if v.Obj? then SanitizeNode(v) else v
  {
    MemberAfter(Obj(m), "additionalProperties");
  }

  /** `properties`: removed if it is null or `{}`, else every schema of the map. */
  lemma PropertiesKeyword(m: map<string, Json>)
    requires "properties" in m
    ensures var v, w := m["properties"], SanitizeNode(Obj(m)).members;
      if v == Null || v == Obj(map[]) then "properties" !in w
      else
        && "properties" in w
        && if v.Obj? then w["properties"].Obj? && EachRewritten(v.members, w["properties"].members)
           else w["properties"] == v
  {
    MemberAfter(Obj(m), "properties");
    if m["properties"].Obj? {
      MapIsRewritten(m["properties"]);
    }
  }

  /** Every other member is kept as it is, null or not, and none is added. */
  lemma OtherKeywords(m: map<string, Json>, key: string)
    requires key != "properties" && key != "additionalProperties" && key != "items" && key != "not"
    requires key != "anyOf" && key != "oneOf" && key != "allOf" && key != "prefixItems"
    requires key != "$defs" && key != "definitions" && key != "patternProperties"
    ensures var w := SanitizeNode(Obj(m)).members;
      (key in w <==> key in m) && (key in m ==> w[key] == m[key])
  {
    OtherMembersUntouched(Obj(m), key);
  }

  /** No keyword is added. */
  lemma NoKeywordIsAdded(m: map<string, Json>)
    ensures SanitizeNode(Obj(m)).Obj? && SanitizeNode(Obj(m)).members.Keys <= m.Keys
  {
  }

  // ------------------------------------------------------------------------ tools

  /** A tool's `inputSchema`: null and `{}` become `{"type": "object"}`, an object is rewritten. */
  lemma ToolIs(tool: map<string, Json>)
    ensures SanitizeTool(tool).Keys == tool.Keys
    ensures forall k :: k in tool && k != "inputSchema" ==> SanitizeTool(tool)[k] == tool[k]
    ensures "inputSchema" in tool ==>
      var v, w := tool["inputSchema"], SanitizeTool(tool)["inputSchema"];
      if v == Null || v == Obj(map[]) then w == Obj(map["type" := Str("object")])
      else if v.Obj? then w == SanitizeNode(v)
      else w == v
  {
  }

  // ---------------------------------------------------------------------- answers

  /** `{"result": {"tools": [...]}}`, every entry an object or null. */
  ghost predicate Lists(body: Json, tools: seq<Json>) {
    && body.Obj? && "result" in body.members
    && body.members["result"].Obj? && "tools" in body.members["result"].members
    && body.members["result"].members["tools"] == Arr(tools)
    && forall i :: 0 <= i < |tools| ==> tools[i].Obj? || tools[i].Null?
  }

  ghost predicate EntriesRewritten(was: seq<Json>, now: seq<Json>) {
    && |now| == |was|
    && forall i :: 0 <= i < |was| ==>
         if was[i].Obj? then now[i] == Obj(SanitizeTool(was[i].members)) else now[i] == was[i]
  }

  /** In an answer of that shape every tool is rewritten, in place and in order. */
  lemma EveryToolIsRewritten(body: Json, tools: seq<Json>) returns (after: seq<Json>)
    requires Lists(body, tools)
    ensures Lists(SanitizeToolsList(body), after) && EntriesRewritten(tools, after)
  {
    after := SanitizeEntries(tools);
    assert ToolsOf(body) == tools;
    forall i | 0 <= i < |after|
      ensures after[i] == SanitizeEntry(tools[i]) && (after[i].Obj? || after[i].Null?)
    {
    }
  }

  /** Any other answer is returned as it is. */
  lemma OtherAnswersUntouched(body: Json)
    requires forall tools :: !Lists(body, tools)
    ensures SanitizeToolsList(body) == body
  {
    if HasTools(body) {
      var tools := ToolsOf(body);
      assert Lists(body, tools);
    }
  }

  ghost predicate AllClean(tools: seq<Json>) {
    forall i :: 0 <= i < |tools| && tools[i].Obj? ==> CleanTool(tools[i].members)
  }

  /** An answer is left as it is if and only if every tool in it is clean. */
  lemma FixedAnswer(body: Json, tools: seq<Json>)
    requires Lists(body, tools)
    ensures SanitizeToolsList(body) == body <==> AllClean(tools)
  {
    var after := EveryToolIsRewritten(body, tools);
    forall i | 0 <= i < |tools| && tools[i].Obj?
      ensures after[i] == tools[i] <==> CleanTool(tools[i].members)
    {
      FixedTool(tools[i].members);
      assert tools[i] == Obj(tools[i].members);
    }
    if AllClean(tools) {
      assert after == tools;
      SameTools(body);
    }
  }

  lemma SameTools(body: Json)
    requires HasTools(body) && SanitizeEntries(ToolsOf(body)) == ToolsOf(body)
    ensures SanitizeToolsList(body) == body
  {
    var m := body.members;
    var r := m["result"].members;
    assert r["tools" := Arr(ToolsOf(body))] == r;
    assert m["result" := Obj(r)] == m;
  }

  /** After two passes over an answer every tool in it is clean. */
  lemma TwoPassesOverAnswer(body: Json, tools: seq<Json>) returns (after: seq<Json>)
    requires Lists(body, tools)
    ensures Lists(SanitizeToolsList(SanitizeToolsList(body)), after) && |after| == |tools| && AllClean(after)
  {
    var once := EveryToolIsRewritten(body, tools);
    after := EveryToolIsRewritten(SanitizeToolsList(body), once);
    forall i | 0 <= i < |after| && after[i].Obj?
      ensures CleanTool(after[i].members)
    {
      TwoPassesTool(tools[i].members);
    }
  }

  /**
   The tools of a sanitized answer take the arguments they took before: each schema
   agrees with the old one on an instance if and only if the old one was not blank
   or the instance is an object.
   */
  lemma AnswerKeepsMeaning(o: Oracle, body: Json, tools: seq<Json>, i: nat, inst: Json)
    requires Lists(body, tools) && i < |tools| && tools[i].Obj? && "inputSchema" in tools[i].members
    requires o.nullVerdict || NullFreeChild(tools[i].members["inputSchema"])
    ensures HasTools(SanitizeToolsList(body)) && i < |ToolsOf(SanitizeToolsList(body))|
    ensures var was, now := tools[i].members["inputSchema"], ToolsOf(SanitizeToolsList(body))[i];
      && now.Obj? && "inputSchema" in now.members
      && ((Accepts(o, now.members["inputSchema"], inst) <==> Accepts(o, was, inst))
        <==> (was != Null && was != Obj(map[])) || inst.Obj?)
  {
    var after := EveryToolIsRewritten(body, tools);
    assert ToolsOf(SanitizeToolsList(body)) == after;
    SameTool(o, tools[i].members, inst);
  }
}
