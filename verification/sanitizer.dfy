/**
 The sanitizer as it runs: it overwrites and deletes members of decoded maps and
 elements of decoded slices in place and reports whether it changed anything.
 Each method is proved to leave the tree that `SanitizerModel` computes, and to
 report a change exactly when the tree is another one.
 */
module Sanitizers {
  import opened Jsons
  import opened JsonHeap
  import opened SanitizerModel

  // ------------------------------------------------------- one keyword at a time

  ghost const FIRST_KEYS := {"properties", "additionalProperties", "items", "not"}
  ghost const SLICE_KEYS := {"anyOf", "oneOf", "allOf", "prefixItems"}
  ghost const MAP_KEYS := {"$defs", "definitions", "patternProperties"}

  /** The members after one keyword has been dealt with. */
  ghost function ApplyKey(m: map<string, Json>, key: string): map<string, Json> {
    if key !in m then m
    else if Dropped(key, m[key]) then m - {key}
    else m[key := SanitizeMember(key, m[key])]
  }

  /** m is w with the keys in done dealt with. */
  ghost predicate Progress(w: map<string, Json>, m: map<string, Json>, done: set<string>) {
    forall k ::
      && (k in m <==> k in w && !(k in done && Dropped(k, w[k])))
      && (k in m ==> m[k] == if k in done then SanitizeMember(k, w[k]) else w[k])
  }

  lemma ProgressStep(w: map<string, Json>, m: map<string, Json>, done: set<string>, key: string)
    requires Progress(w, m, done) && key !in done
    ensures Progress(w, ApplyKey(m, key), done + {key})
    ensures ApplyKey(m, key) != w <==> m != w || ApplyKey(m, key) != m
  {
    assert m != w ==> ApplyKey(m, key) != w;
  }

  ghost predicate AllKeys(done: set<string>) {
    forall k :: KindOf(k) != OtherKind ==> k in done
  }

  lemma ProgressEnds(w: map<string, Json>, m: map<string, Json>, done: set<string>)
    requires Progress(w, m, done) && AllKeys(done)
    ensures Obj(m) == SanitizeNode(Obj(w))
  {
    var n := SanitizeNode(Obj(w)).members;
    forall k
      ensures (k in m <==> k in n) && (k in m ==> m[k] == n[k])
    {
      if k in w {
        MemberAfter(Obj(w), k);
        if KindOf(k) == OtherKind {
          assert SanitizeMember(k, w[k]) == w[k];
        }
      }
    }
    assert m == n;
  }

  /** What a keyword does, by what its member holds. */
  lemma KeyCases(m: map<string, Json>, key: string)
    requires key in m && KindOf(key) != OtherKind
    ensures var v, n := m[key], ApplyKey(m, key);
      match KindOf(key)
      case PropertiesKind =>
        if IsBlank(v) then n == m - {key} && n != m else n == m[key := SanitizeMap(v)]
      case AdditionalKind =>
        if IsBlank(v) then n == m[key := Bool(true)] && n != m else n == m[key := SanitizeNode(v)]
      case SchemaKind =>
        if IsBlank(v) then n == m[key := ANY] && n != m
        else if v.Obj? then n == m[key := SanitizeNode(v)]
        else n == m[key := SanitizeSlice(v)]
      case SliceKind => n == m[key := SanitizeSlice(v)]
      case MapKind => n == m[key := SanitizeMap(v)]
  {
    AnyIsNotBlank();
    assert m[key := ANY][key] == ANY && m[key := Bool(true)][key] == Bool(true);
    assert key !in m - {key};
  }

  lemma AnyIsNotBlank()
    ensures !IsBlank(ANY)
  {
    assert "type" in ANY.members;
  }

  lemma ChildCases(v: Json)
    ensures IsBlank(v) ==> SanitizeChild(v) == ANY != v
    ensures !IsBlank(v) && v.Obj? ==> SanitizeChild(v) == SanitizeNode(v)
    ensures !IsBlank(v) && !v.Obj? ==> SanitizeChild(v) == v
  {
    AnyIsNotBlank();
  }

  /** A schema object that was w and has had the keys in done dealt with. */
  ghost predicate Underway(schema: Json, w: map<string, Json>, done: set<string>) {
    schema.Obj? && Progress(w, schema.members, done)
  }

  lemma UnderwayNext(schema: Json, w: map<string, Json>, done: set<string>, key: string)
    requires Underway(schema, w, done) && key !in done
    ensures Untouched(schema, Obj(w), key)
    ensures Underway(Obj(ApplyKey(schema.members, key)), w, done + {key})
    ensures ApplyKey(schema.members, key) != w <==>
      schema.members != w || ApplyKey(schema.members, key) != schema.members
  {
    ProgressStep(w, schema.members, done, key);
  }

  /** The schema's member at key is still the one of whole. */
  ghost predicate Untouched(schema: Json, whole: Json, key: string) {
    && schema.Obj? && whole.Obj?
    && (key in schema.members <==> key in whole.members)
    && (key in schema.members ==> schema.members[key] == whole.members[key])
  }

  // -------------------------------------------------------------------- any schemas

  method NewAny() returns (any: JsonObject)
    ensures fresh(any) && fresh(any.repr) && any.Valid() && any.model == ANY
  {
    var names := ["object", "string", "number", "boolean", "array", "null"];
    var types := new JsonArray.OfStrings(names);
    any := new JsonObject.Singleton("type", VArr(types));
    assert seq(6, i requires 0 <= i < 6 => Str(names[i])) ==
      [Str("object"), Str("string"), Str("number"), Str("boolean"), Str("array"), Str("null")];
  }

  /** `value == nil || isEmptyObject(value)`. */
  method IsNilOrEmpty(value: Value) returns (blank: bool)
    requires Intact(value)
    ensures blank <==> IsBlank(Tree(value))
  {
    blank := value.VNull? || (value.VObj? && value.obj.members == map[]);
  }

  // ------------------------------------------------------------------- the loops

  /** Rewrites the schema object held at key and brings the holder up to date. */
  method SanitizeObjectAt(m: JsonObject, key: string, ghost whole: Json) returns (changed: bool)
    requires m.Valid() && key in m.members && m.members[key].VObj? && Untouched(m.model, whole, key)
    modifies m.repr
    ensures m.Valid() && fresh(m.repr - old(m.repr))
    ensures m.model == Obj(old(m.model).members[key := SanitizeNode(whole.members[key])])
    ensures changed <==> SanitizeNode(whole.members[key]) != whole.members[key]
    decreases whole, 0
  {
    changed := SanitizeJSONSchema(m.members[key].obj);
    m.Refresh(key);
  }

  /** One turn of the loops over a map of schemas. */
  method SanitizeEntryOf(m: JsonObject, key: string, ghost whole: Json) returns (changed: bool)
    requires m.Valid() && key in m.members && Untouched(m.model, whole, key)
    modifies m.repr
    ensures m.Valid() && fresh(m.repr - old(m.repr))
    ensures m.model == Obj(old(m.model).members[key := SanitizeChild(whole.members[key])])
    ensures changed <==> SanitizeChild(whole.members[key]) != whole.members[key]
    decreases whole, 1
  {
    ChildCases(whole.members[key]);
    var value := m.members[key];
    SameShape(value);
    var blank := IsNilOrEmpty(value);
    if blank {
      var any := NewAny();
      m.Put(key, VObj(any));
      return true;
    }
    if !value.VObj? {
      assert m.model == Obj(m.model.members[key := whole.members[key]]);
      return false;
    }
    changed := SanitizeObjectAt(m, key, whole);
  }

  /** The loop over the entries of a map of schemas, in any order. */
  method SanitizeMapEntries(m: JsonObject) returns (changed: bool)
    requires m.Valid()
    modifies m.repr
    ensures m.Valid() && fresh(m.repr - old(m.repr))
    ensures m.model == SanitizeMap(old(m.model))
    ensures changed <==> m.model != old(m.model)
    decreases m.model, 3
  {
    ghost var before := m.model;
    changed := false;
    var todo := m.members.Keys;
    EntriesStart(before, todo);
    while todo != {}
      invariant m.Valid() && fresh(m.repr - old(m.repr))
      invariant EntriesDone(before, m.model, todo, changed)
      decreases todo
    {
      var key :| key in todo;
      changed := SanitizeNextEntry(m, key, changed, before, todo);
      todo := todo - {key};
    }
    EntriesEnd(before, m.model, changed);
  }

  /** One turn of the loop. */
  method SanitizeNextEntry(m: JsonObject, key: string, changed: bool, ghost before: Json, ghost todo: set<string>)
    returns (changed': bool)
    requires m.Valid() && EntriesDone(before, m.model, todo, changed) && key in todo
    modifies m.repr
    ensures m.Valid() && fresh(m.repr - old(m.repr))
    ensures EntriesDone(before, m.model, todo - {key}, changed')
    decreases before, 2
  {
    EntriesStep(before, m.model, todo, changed, key);
    var c := SanitizeEntryOf(m, key, before);
    changed' := changed || c;
  }

  /** The entries outside todo are rewritten, and changed says if that made a difference. */
  ghost predicate EntriesDone(before: Json, now: Json, todo: set<string>, changed: bool) {
    && before.Obj? && now.Obj? && todo <= now.members.Keys == before.members.Keys
    && (forall k :: k in before.members ==>
          now.members[k] == if k in todo then before.members[k] else SanitizeChild(before.members[k]))
    && (changed <==> now != before)
  }

  lemma EntriesStart(before: Json, todo: set<string>)
    requires before.Obj? && todo == before.members.Keys
    ensures EntriesDone(before, before, todo, false)
  {
  }

  lemma EntriesStep(before: Json, now: Json, todo: set<string>, changed: bool, key: string)
    requires EntriesDone(before, now, todo, changed) && key in todo
    ensures Untouched(now, before, key)
    ensures EntriesDone(before, Obj(now.members[key := SanitizeChild(before.members[key])]), todo - {key},
                        changed || SanitizeChild(before.members[key]) != before.members[key])
  {
    var next := Obj(now.members[key := SanitizeChild(before.members[key])]);
    if now != before {
      var k :| k in before.members && now.members[k] != before.members[k];
      assert k != key && next.members[k] != before.members[k];
    } else if SanitizeChild(before.members[key]) == before.members[key] {
      assert next.members == before.members;
    } else {
      assert next.members[key] != before.members[key];
    }
  }

  lemma EntriesEnd(before: Json, now: Json, changed: bool)
    requires EntriesDone(before, now, {}, changed)
    ensures now == SanitizeMap(before) && (changed <==> now != before)
  {
    assert now.members == SanitizeMap(before).members;
  }

  /** Rewrites the schema object held at index and brings the holder up to date. */
  method SanitizeObjectIn(a: JsonArray, index: nat, ghost whole: Json) returns (changed: bool)
    requires a.Valid() && index < |a.items| && a.items[index].VObj?
    requires whole.Arr? && index < |whole.items| && whole.items[index] == a.model.items[index]
    modifies a.repr
    ensures a.Valid() && fresh(a.repr - old(a.repr))
    ensures a.model == Arr(old(a.model).items[index := SanitizeNode(whole.items[index])])
    ensures changed <==> SanitizeNode(whole.items[index]) != whole.items[index]
    decreases whole, 0
  {
    changed := SanitizeJSONSchema(a.items[index].obj);
    a.Refresh(index);
  }

  /** One turn of the loop over a slice of schemas. */
  method SanitizeElementOf(a: JsonArray, index: nat, ghost whole: Json) returns (changed: bool)
    requires a.Valid() && index < |a.items|
    requires whole.Arr? && index < |whole.items| && whole.items[index] == a.model.items[index]
    modifies a.repr
    ensures a.Valid() && fresh(a.repr - old(a.repr))
    ensures a.model == Arr(old(a.model).items[index := SanitizeChild(whole.items[index])])
    ensures changed <==> SanitizeChild(whole.items[index]) != whole.items[index]
    decreases whole, 1
  {
    ChildCases(whole.items[index]);
    var value := a.items[index];
    SameShape(value);
    var blank := IsNilOrEmpty(value);
    if blank {
      var any := NewAny();
      a.Put(index, VObj(any));
      return true;
    }
    if !value.VObj? {
      assert a.model == Arr(a.model.items[index := whole.items[index]]);
      return false;
    }
    changed := SanitizeObjectIn(a, index, whole);
  }

  method SanitizeSchemaSlice(a: JsonArray) returns (changed: bool)
    requires a.Valid()
    modifies a.repr
    ensures a.Valid() && fresh(a.repr - old(a.repr))
    ensures a.model == SanitizeSlice(old(a.model))
    ensures changed <==> a.model != old(a.model)
    decreases a.model, 2
  {
    ghost var before := a.model;
    changed := false;
    var i := 0;
    while i < |a.items|
      invariant a.Valid() && fresh(a.repr - old(a.repr))
      invariant i <= |a.items| == |before.items|
      invariant forall j :: 0 <= j < |before.items| ==>
        a.model.items[j] == if j < i then SanitizeChild(before.items[j]) else before.items[j]
      invariant changed <==> exists j :: 0 <= j < i && SanitizeChild(before.items[j]) != before.items[j]
      decreases |before.items| - i
    {
      var c := SanitizeElementOf(a, i, before);
      changed := changed || c;
      i := i + 1;
    }
    assert a.model.items == SanitizeSlice(before).items;
    if changed {
      ghost var j :| 0 <= j < |before.items| && SanitizeChild(before.items[j]) != before.items[j];
      assert a.model.items[j] != before.items[j];
    } else {
      assert a.model.items == before.items;
    }
  }

  /** Rewrites the map of schemas held at key and brings the holder up to date. */
  method SanitizeMapAt(m: JsonObject, key: string, ghost whole: Json) returns (changed: bool)
    requires m.Valid() && key in m.members && m.members[key].VObj? && Untouched(m.model, whole, key)
    modifies m.repr
    ensures m.Valid() && fresh(m.repr - old(m.repr))
    ensures m.model == Obj(old(m.model).members[key := SanitizeMap(whole.members[key])])
    ensures changed <==> SanitizeMap(whole.members[key]) != whole.members[key]
    decreases whole, 0
  {
    changed := SanitizeMapEntries(m.members[key].obj);
    m.Refresh(key);
  }

  /** Rewrites the slice of schemas held at key and brings the holder up to date. */
  method SanitizeSliceAt(m: JsonObject, key: string, ghost whole: Json) returns (changed: bool)
    requires m.Valid() && key in m.members && m.members[key].VArr? && Untouched(m.model, whole, key)
    modifies m.repr
    ensures m.Valid() && fresh(m.repr - old(m.repr))
    ensures m.model == Obj(old(m.model).members[key := SanitizeSlice(whole.members[key])])
    ensures changed <==> SanitizeSlice(whole.members[key]) != whole.members[key]
    decreases whole, 0
  {
    changed := SanitizeSchemaSlice(m.members[key].arr);
    m.Refresh(key);
  }

  lemma UpdateDiffers(m: map<string, Json>, key: string, v: Json)
    requires key in m
    ensures m[key := v] != m <==> v != m[key]
  {
    assert m[key := m[key]] == m;
    assert m[key := v][key] == v;
  }

  // ---------------------------------------------------------------- the keywords

  method SanitizeProperties(schema: JsonObject, ghost w: map<string, Json>, ghost done: set<string>)
    returns (changed: bool)
    requires schema.Valid() && Underway(schema.model, w, done) && "properties" !in done
    modifies schema.repr
    ensures schema.Valid() && fresh(schema.repr - old(schema.repr))
    ensures schema.model == Obj(ApplyKey(old(schema.model).members, "properties"))
    ensures changed <==> schema.model != old(schema.model)
    ensures Underway(schema.model, w, done + {"properties"})
    ensures schema.model.members != w <==> old(schema.model).members != w || changed
    decreases Obj(w), 4
  {
    ghost var whole := Obj(w);
    UnderwayNext(schema.model, w, done, "properties");
    changed := false;
    assert schema.model == Obj(schema.model.members);
    if "properties" !in schema.members {
      return;
    }
    KeyCases(schema.model.members, "properties");
    var props := schema.members["properties"];
    SameShape(props);
    var blank := IsNilOrEmpty(props);
    if blank {
      schema.Delete("properties");
      return true;
    }
    UpdateDiffers(schema.model.members, "properties", SanitizeMap(whole.members["properties"]));
    if props.VObj? {
      changed := SanitizeMapAt(schema, "properties", whole);
    }
  }

  method SanitizeAdditionalProperties(schema: JsonObject, ghost w: map<string, Json>, ghost done: set<string>)
    returns (changed: bool)
    requires schema.Valid() && Underway(schema.model, w, done) && "additionalProperties" !in done
    modifies schema.repr
    ensures schema.Valid() && fresh(schema.repr - old(schema.repr))
    ensures schema.model == Obj(ApplyKey(old(schema.model).members, "additionalProperties"))
    ensures changed <==> schema.model != old(schema.model)
    ensures Underway(schema.model, w, done + {"additionalProperties"})
    ensures schema.model.members != w <==> old(schema.model).members != w || changed
    decreases Obj(w), 4
  {
    ghost var whole := Obj(w);
    UnderwayNext(schema.model, w, done, "additionalProperties");
    changed := false;
    assert schema.model == Obj(schema.model.members);
    if "additionalProperties" !in schema.members {
      return;
    }
    KeyCases(schema.model.members, "additionalProperties");
    var value := schema.members["additionalProperties"];
    SameShape(value);
    var blank := IsNilOrEmpty(value);
    if blank {
      schema.Put("additionalProperties", VBool(true));
      return true;
    }
    UpdateDiffers(schema.model.members, "additionalProperties", SanitizeNode(whole.members["additionalProperties"]));
    if value.VObj? {
      changed := SanitizeObjectAt(schema, "additionalProperties", whole);
    }
  }

  /** The value of a keyword that holds one schema, or a list of them in old drafts. */
  method SanitizeSchemaAt(schema: JsonObject, key: string, ghost whole: Json) returns (changed: bool)
    requires schema.Valid() && key in schema.members && Untouched(schema.model, whole, key) && KindOf(key) == SchemaKind
    modifies schema.repr
    ensures schema.Valid() && fresh(schema.repr - old(schema.repr))
    ensures schema.model == Obj(ApplyKey(old(schema.model).members, key))
    ensures changed <==> schema.model != old(schema.model)
    decreases whole, 3
  {
    changed := false;
    assert schema.model == Obj(schema.model.members);
    KeyCases(schema.model.members, key);
    var value := schema.members[key];
    SameShape(value);
    var blank := IsNilOrEmpty(value);
    if blank {
      var any := NewAny();
      schema.Put(key, VObj(any));
      return true;
    }
    if value.VObj? {
      UpdateDiffers(schema.model.members, key, SanitizeNode(whole.members[key]));
      changed := SanitizeObjectAt(schema, key, whole);
    } else {
      UpdateDiffers(schema.model.members, key, SanitizeSlice(whole.members[key]));
      if value.VArr? {
        changed := SanitizeSliceAt(schema, key, whole);
      }
    }
  }

  method SanitizeSchemaKeyword(schema: JsonObject, key: string, ghost w: map<string, Json>, ghost done: set<string>)
    returns (changed: bool)
    requires schema.Valid() && Underway(schema.model, w, done) && key !in done && KindOf(key) == SchemaKind
    modifies schema.repr
    ensures schema.Valid() && fresh(schema.repr - old(schema.repr))
    ensures schema.model == Obj(ApplyKey(old(schema.model).members, key))
    ensures changed <==> schema.model != old(schema.model)
    ensures Underway(schema.model, w, done + {key})
    ensures schema.model.members != w <==> old(schema.model).members != w || changed
    decreases Obj(w), 4
  {
    changed := false;
    UnderwayNext(schema.model, w, done, key);
    assert schema.model == Obj(schema.model.members);
    if key in schema.members {
      changed := SanitizeSchemaAt(schema, key, Obj(w));
    }
  }

  method SanitizeSchemaSliceKeyword(
    schema: JsonObject, key: string, ghost w: map<string, Json>, ghost done: set<string>)
    returns (changed: bool)
    requires schema.Valid() && Underway(schema.model, w, done) && key !in done && KindOf(key) == SliceKind
    modifies schema.repr
    ensures schema.Valid() && fresh(schema.repr - old(schema.repr))
    ensures schema.model == Obj(ApplyKey(old(schema.model).members, key))
    ensures changed <==> schema.model != old(schema.model)
    ensures Underway(schema.model, w, done + {key})
    ensures schema.model.members != w <==> old(schema.model).members != w || changed
    decreases Obj(w), 4
  {
    ghost var whole := Obj(w);
    UnderwayNext(schema.model, w, done, key);
    changed := false;
    assert schema.model == Obj(schema.model.members);
    if key !in schema.members {
      return;
    }
    KeyCases(schema.model.members, key);
    UpdateDiffers(schema.model.members, key, SanitizeSlice(whole.members[key]));
    SameShape(schema.members[key]);
    if schema.members[key].VArr? {
      changed := SanitizeSliceAt(schema, key, whole);
    }
  }

  method SanitizeSchemaMapKeyword(schema: JsonObject, key: string, ghost w: map<string, Json>, ghost done: set<string>)
    returns (changed: bool)
    requires schema.Valid() && Underway(schema.model, w, done) && key !in done && KindOf(key) == MapKind
    modifies schema.repr
    ensures schema.Valid() && fresh(schema.repr - old(schema.repr))
    ensures schema.model == Obj(ApplyKey(old(schema.model).members, key))
    ensures changed <==> schema.model != old(schema.model)
    ensures Underway(schema.model, w, done + {key})
    ensures schema.model.members != w <==> old(schema.model).members != w || changed
    decreases Obj(w), 4
  {
    ghost var whole := Obj(w);
    UnderwayNext(schema.model, w, done, key);
    changed := false;
    assert schema.model == Obj(schema.model.members);
    if key !in schema.members {
      return;
    }
    KeyCases(schema.model.members, key);
    UpdateDiffers(schema.model.members, key, SanitizeMap(whole.members[key]));
    SameShape(schema.members[key]);
    if schema.members[key].VObj? {
      changed := SanitizeMapAt(schema, key, whole);
    }
  }

  /** `properties`, `additionalProperties`, `items` and `not`, in this order. */
  method SanitizeFirstKeywords(schema: JsonObject, ghost w: map<string, Json>, ghost done: set<string>)
    returns (changed: bool)
    requires schema.Valid() && Underway(schema.model, w, done) && done !! FIRST_KEYS
    modifies schema.repr
    ensures schema.Valid() && fresh(schema.repr - old(schema.repr))
    ensures Underway(schema.model, w, done + FIRST_KEYS)
    ensures schema.model.members != w <==> old(schema.model).members != w || changed
    decreases Obj(w), 5
  {
    var c1 := SanitizeProperties(schema, w, done);
    var c2 := SanitizeAdditionalProperties(schema, w, done + {"properties"});
    var c3 := SanitizeSchemaKeyword(schema, "items", w, done + {"properties"} + {"additionalProperties"});
    var c4 := SanitizeSchemaKeyword(schema, "not", w, done + {"properties"} + {"additionalProperties"} + {"items"});
    assert done + {"properties"} + {"additionalProperties"} + {"items"} + {"not"} == done + FIRST_KEYS;
    changed := c1 || c2 || c3 || c4;
  }

  /** The keywords that hold a list of schemas. */
  method SanitizeSliceKeywords(schema: JsonObject, ghost w: map<string, Json>, ghost done: set<string>)
    returns (changed: bool)
    requires schema.Valid() && Underway(schema.model, w, done) && done !! SLICE_KEYS
    modifies schema.repr
    ensures schema.Valid() && fresh(schema.repr - old(schema.repr))
    ensures Underway(schema.model, w, done + SLICE_KEYS)
    ensures schema.model.members != w <==> old(schema.model).members != w || changed
    decreases Obj(w), 5
  {
    var c1 := SanitizeSchemaSliceKeyword(schema, "anyOf", w, done);
    var c2 := SanitizeSchemaSliceKeyword(schema, "oneOf", w, done + {"anyOf"});
    var c3 := SanitizeSchemaSliceKeyword(schema, "allOf", w, done + {"anyOf"} + {"oneOf"});
    var c4 := SanitizeSchemaSliceKeyword(schema, "prefixItems", w, done + {"anyOf"} + {"oneOf"} + {"allOf"});
    assert done + {"anyOf"} + {"oneOf"} + {"allOf"} + {"prefixItems"} == done + SLICE_KEYS;
    changed := c1 || c2 || c3 || c4;
  }

  /** The keywords that hold a map of schemas. */
  method SanitizeMapKeywords(schema: JsonObject, ghost w: map<string, Json>, ghost done: set<string>)
    returns (changed: bool)
    requires schema.Valid() && Underway(schema.model, w, done) && done !! MAP_KEYS
    modifies schema.repr
    ensures schema.Valid() && fresh(schema.repr - old(schema.repr))
    ensures Underway(schema.model, w, done + MAP_KEYS)
    ensures schema.model.members != w <==> old(schema.model).members != w || changed
    decreases Obj(w), 5
  {
    var c1 := SanitizeSchemaMapKeyword(schema, "$defs", w, done);
    var c2 := SanitizeSchemaMapKeyword(schema, "definitions", w, done + {"$defs"});
    var c3 := SanitizeSchemaMapKeyword(schema, "patternProperties", w, done + {"$defs"} + {"definitions"});
    assert done + {"$defs"} + {"definitions"} + {"patternProperties"} == done + MAP_KEYS;
    changed := c1 || c2 || c3;
  }

  method SanitizeCollections(schema: JsonObject, ghost w: map<string, Json>, ghost done: set<string>)
    returns (changed: bool)
    requires schema.Valid() && Underway(schema.model, w, done) && done !! SLICE_KEYS && done !! MAP_KEYS
    modifies schema.repr
    ensures schema.Valid() && fresh(schema.repr - old(schema.repr))
    ensures Underway(schema.model, w, done + SLICE_KEYS + MAP_KEYS)
    ensures schema.model.members != w <==> old(schema.model).members != w || changed
    decreases Obj(w), 6
  {
    var slices := SanitizeSliceKeywords(schema, w, done);
    var maps := SanitizeMapKeywords(schema, w, done + SLICE_KEYS);
    changed := slices || maps;
  }

  lemma KeywordsAreAll()
    ensures AllKeys({} + FIRST_KEYS + SLICE_KEYS + MAP_KEYS)
    ensures FIRST_KEYS !! SLICE_KEYS && FIRST_KEYS !! MAP_KEYS && SLICE_KEYS !! MAP_KEYS
  {
  }

  method SanitizeJSONSchema(schema: JsonObject) returns (changed: bool)
    requires schema.Valid()
    modifies schema.repr
    ensures schema.Valid() && fresh(schema.repr - old(schema.repr))
    ensures schema.model == SanitizeNode(old(schema.model))
    ensures changed <==> schema.model != old(schema.model)
    decreases schema.model, 7
  {
    ghost var w := schema.model.members;
    assert schema.model == Obj(w);
    KeywordsAreAll();
    var first := SanitizeFirstKeywords(schema, w, {});
    var others := SanitizeCollections(schema, w, {} + FIRST_KEYS);
    changed := first || others;
    ProgressEnds(w, schema.model.members, {} + FIRST_KEYS + SLICE_KEYS + MAP_KEYS);
  }

  // ----------------------------------------------------------------------- tools

  method NewAnyObject() returns (any: JsonObject)
    ensures fresh(any) && fresh(any.repr) && any.Valid() && any.model == ANY_OBJECT
  {
    any := new JsonObject.Singleton("type", VStr("object"));
  }

  lemma ToolCases(tool: map<string, Json>)
    requires "inputSchema" in tool
    ensures var v, after := tool["inputSchema"], SanitizeTool(tool);
      && (IsBlank(v) ==> after == tool["inputSchema" := ANY_OBJECT] && after != tool)
      && (!IsBlank(v) ==> after == tool["inputSchema" := SanitizeNode(v)])
  {
    assert "type" in ANY_OBJECT.members;
    assert tool["inputSchema" := ANY_OBJECT]["inputSchema"] == ANY_OBJECT;
  }

  method SanitizeToolInputSchema(tool: JsonObject) returns (changed: bool)
    requires tool.Valid()
    modifies tool.repr
    ensures tool.Valid() && fresh(tool.repr - old(tool.repr))
    ensures tool.model == Obj(SanitizeTool(old(tool.model).members))
    ensures changed <==> tool.model != old(tool.model)
  {
    assert tool.model == Obj(tool.model.members);
    if "inputSchema" !in tool.members {
      return false;
    }
    ghost var w := tool.model.members;
    ToolCases(w);
    var raw := tool.members["inputSchema"];
    SameShape(raw);
    var blank := IsNilOrEmpty(raw);
    if blank {
      var any := NewAnyObject();
      tool.Put("inputSchema", VObj(any));
      return true;
    }
    UpdateDiffers(w, "inputSchema", SanitizeNode(w["inputSchema"]));
    if !raw.VObj? {
      return false;
    }
    changed := SanitizeObjectAt(tool, "inputSchema", tool.model);
  }

  /** One turn of the loop over the tools; a null entry decodes as a nil map. */
  method SanitizeToolIn(tools: JsonArray, index: nat, ghost whole: seq<Json>) returns (changed: bool)
    requires tools.Valid() && index < |tools.items| && (tools.items[index].VObj? || tools.items[index].VNull?)
    requires index < |whole| && whole[index] == tools.model.items[index]
    modifies tools.repr
    ensures tools.Valid() && fresh(tools.repr - old(tools.repr))
    ensures tools.items == old(tools.items)
    ensures tools.model == Arr(old(tools.model).items[index := SanitizeEntry(whole[index])])
    ensures changed <==> SanitizeEntry(whole[index]) != whole[index]
  {
    if tools.items[index].VObj? {
      changed := SanitizeToolInputSchema(tools.items[index].obj);
      tools.Refresh(index);
    } else {
      assert tools.model == Arr(tools.model.items[index := whole[index]]);
      changed := false;
    }
  }

  ghost predicate HoldsTools(tools: JsonArray)
    reads tools
  {
    forall i :: 0 <= i < |tools.items| ==> tools.items[i].VObj? || tools.items[i].VNull?
  }

  method SanitizeTools(tools: JsonArray) returns (changed: bool)
    requires tools.Valid() && HoldsTools(tools)
    modifies tools.repr
    ensures tools.Valid() && fresh(tools.repr - old(tools.repr))
    ensures tools.model == Arr(SanitizeEntries(old(tools.model).items))
    ensures changed <==> tools.model != old(tools.model)
  {
    ghost var before := tools.model.items;
    changed := false;
    var i := 0;
    while i < |tools.items|
      invariant tools.Valid() && fresh(tools.repr - old(tools.repr))
      invariant tools.items == old(tools.items) && i <= |tools.items| == |before|
      invariant forall j :: 0 <= j < |before| ==>
        tools.model.items[j] == if j < i then SanitizeEntry(before[j]) else before[j]
      invariant changed <==> exists j :: 0 <= j < i && SanitizeEntry(before[j]) != before[j]
    {
      var c := SanitizeToolIn(tools, i, before);
      changed := changed || c;
      i := i + 1;
    }
    assert tools.model.items == SanitizeEntries(before);
    if changed {
      ghost var j :| 0 <= j < |before| && SanitizeEntry(before[j]) != before[j];
      assert tools.model.items[j] != before[j];
    } else {
      assert tools.model.items == before;
    }
  }

  /** Whether the list decodes as a list of tools. */
  method DecodesAsTools(value: Value) returns (ok: bool)
    requires Intact(value)
    ensures ok <==> IsToolArray(Tree(value))
    ensures ok ==> value.VArr? && HoldsTools(value.arr)
  {
    SameShape(value);
    if !value.VArr? {
      return false;
    }
    var items := value.arr.items;
    for i := 0 to |items|
      invariant forall j :: 0 <= j < i ==> items[j].VObj? || items[j].VNull?
    {
      SameShape(items[i]);
      assert Tree(items[i]) == Tree(value).items[i];
      if !items[i].VObj? && !items[i].VNull? {
        assert !Tree(items[i]).Obj? && !Tree(items[i]).Null?;
        return false;
      }
    }
    forall i | 0 <= i < |items|
      ensures Tree(value).items[i].Obj? || Tree(value).items[i].Null?
    {
      SameShape(items[i]);
      assert Tree(items[i]) == Tree(value).items[i];
    }
    return true;
  }

  /** Rewrites the tools held at `tools` and brings the holder up to date. */
  method SanitizeToolsAt(result: JsonObject) returns (changed: bool)
    requires result.Valid() && "tools" in result.members
    requires result.members["tools"].VArr? && HoldsTools(result.members["tools"].arr)
    modifies result.repr
    ensures result.Valid() && fresh(result.repr - old(result.repr))
    ensures old(result.model.members["tools"]).Arr?
    ensures result.model ==
      Obj(old(result.model).members["tools" := Arr(SanitizeEntries(old(result.model.members["tools"]).items))])
    ensures changed <==> result.model.members["tools"] != old(result.model.members["tools"])
  {
    SameShape(result.members["tools"]);
    changed := SanitizeTools(result.members["tools"].arr);
    result.Refresh("tools");
  }

  ghost function ResultAfter(m: map<string, Json>): Json {
    if "tools" in m && IsToolArray(m["tools"]) then Obj(m["tools" := Arr(SanitizeEntries(m["tools"].items))])
    else Obj(m)
  }

  lemma ResultDecides(w: map<string, Json>)
    requires "result" in w && w["result"].Obj?
    ensures SanitizeToolsList(Obj(w)) == Obj(w["result" := ResultAfter(w["result"].members)])
  {
    if !HasTools(Obj(w)) {
      assert w["result" := w["result"]] == w;
    }
  }

  /** The tools of a `result` object. */
  method SanitizeResult(result: JsonObject) returns (changed: bool)
    requires result.Valid()
    modifies result.repr
    ensures result.Valid() && fresh(result.repr - old(result.repr))
    ensures result.model == ResultAfter(old(result.model).members)
    ensures changed <==> result.model != old(result.model)
  {
    assert result.model == Obj(result.model.members);
    if "tools" !in result.members {
      return false;
    }
    var ok := DecodesAsTools(result.members["tools"]);
    if !ok {
      return false;
    }
    ghost var w := result.model.members;
    UpdateDiffers(w, "tools", Arr(SanitizeEntries(w["tools"].items)));
    changed := SanitizeToolsAt(result);
  }

  method SanitizeResultAt(root: JsonObject) returns (changed: bool)
    requires root.Valid() && "result" in root.members && root.members["result"].VObj?
    modifies root.repr
    ensures root.Valid()
    ensures root.model == SanitizeToolsList(old(root.model))
    ensures changed <==> root.model != old(root.model)
  {
    ghost var w := root.model.members;
    assert root.model == Obj(w);
    var result := root.members["result"].obj;
    SameShape(root.members["result"]);
    changed := SanitizeResult(result);
    root.Refresh("result");
    ResultDecides(w);
    UpdateDiffers(w, "result", result.model);
  }

  /**
   A whole JSON-RPC answer, decoded.  Anything that is not shaped like a
   tools/list result is left as it is.
   */
  method SanitizeToolsListJSON(body: Value) returns (changed: bool)
    requires Intact(body) && Roots(body) <= Footprint(body)
    modifies Footprint(body)
    ensures Intact(body)
    ensures Tree(body) == SanitizeToolsList(old(Tree(body)))
    ensures changed <==> Tree(body) != old(Tree(body))
  {
    SameShape(body);
    if !body.VObj? {
      return false;
    }
    var root := body.obj;
    assert root.model == Obj(root.model.members);
    if "result" !in root.members {
      return false;
    }
    var result := root.members["result"];
    SameShape(result);
    if !result.VObj? {
      return false;
    }
    changed := SanitizeResultAt(root);
  }
}
