/**
 What a JSON Schema accepts, for the keywords the sanitizer looks at, and the
 proof that sanitizing does not change it.

 Sections 4.3.2, 10.2 and 10.3 of JSON Schema Core and section 6.1.1 of JSON
 Schema Validation (draft 2020-12).  Every other keyword is covered by an
 arbitrary verdict on the members that carry it.
 */
module SchemaMeaning {
  import opened Jsons
  import opened SanitizerModel

  /**
   What the theorems leave open.
     matches      does a property name match a pattern
     others       what the members with uninterpreted keywords say of an instance
     nullVerdict  what null says in a schema position, where it is not legal
     malformed    what any other value that is no schema says there
   */
  datatype Oracle = Oracle(
    matches: (string, string) -> bool,
    others: (map<string, Json>, Json) -> bool,
    nullVerdict: bool,
    malformed: bool)

  /** The keywords the validator knows, by name; the sanitizer's own table is not consulted. */
  predicate HoldsSchema(key: string) {
    key == "additionalProperties" || key == "items" || key == "not"
  }

  predicate HoldsSlice(key: string) {
    key == "anyOf" || key == "oneOf" || key == "allOf" || key == "prefixItems"
  }

  predicate HoldsMap(key: string) {
    key == "properties" || key == "patternProperties" || key == "$defs" || key == "definitions"
  }

  predicate Interpreted(key: string) {
    key == "type" || HoldsSchema(key) || HoldsSlice(key) || HoldsMap(key)
  }

  function Others(m: map<string, Json>): map<string, Json> {
    map k | k in m && !Interpreted(k) :: m[k]
  }

  /** Type names of section 6.1.1; an integer is a number without a fraction. */
  predicate HasType(inst: Json, name: string) {
    match inst
    case Null => name == "null"
    case Bool(_) => name == "boolean"
    case Num(n) => name == "number" || (name == "integer" && n == n.Floor as real)
    case Str(_) => name == "string"
    case Arr(_) => name == "array"
    case Obj(_) => name == "object"
  }

  ghost predicate TypeAllows(o: Oracle, m: map<string, Json>, inst: Json) {
    "type" in m ==>
      match m["type"]
      case Str(name) => HasType(inst, name)
      case Arr(names) => exists i :: 0 <= i < |names| && names[i].Str? && HasType(inst, names[i].text)
      case Null => o.nullVerdict
      case _ => o.malformed
  }

  function MemberNames(m: map<string, Json>, key: string): set<string> {
    if key in m && m[key].Obj? then m[key].members.Keys else {}
  }

  function ItemCount(m: map<string, Json>, key: string): nat {
    if key in m && m[key].Arr? then |m[key].items| else 0
  }

  /** A property that neither `properties` nor `patternProperties` speaks of. */
  ghost predicate IsAdditional(o: Oracle, m: map<string, Json>, name: string) {
    name !in MemberNames(m, "properties")
    && forall p :: p in MemberNames(m, "patternProperties") ==> !o.matches(p, name)
  }

  /** Section 4.3.2: true and the empty schema accept everything, false nothing. */
  ghost predicate Accepts(o: Oracle, schema: Json, inst: Json)
    decreases schema, 1
  {
    match schema
    case Null => o.nullVerdict
    case Bool(verdict) => verdict
    case Obj(m) =>
      && TypeAllows(o, m, inst)
      && (Others(m) == map[] || o.others(Others(m), inst))
      && (forall k :: k in m ==> MemberAccepts(o, m, k, inst))
    case _ => o.malformed
  }

  /** Sections 10.2 and 10.3, keyword by keyword. */
  ghost predicate MemberAccepts(o: Oracle, m: map<string, Json>, key: string, inst: Json)
    requires key in m
    decreases Obj(m), 0
  {
    var v := m[key];
    if key == "properties" then
      if v.Null? then o.nullVerdict
      else if !v.Obj? then o.malformed
      else inst.Obj? ==>
        forall k :: k in v.members && k in inst.members ==> Accepts(o, v.members[k], inst.members[k])
    else if key == "additionalProperties" then
      inst.Obj? ==>
        forall k :: k in inst.members && IsAdditional(o, m, k) ==> Accepts(o, v, inst.members[k])
    else if key == "patternProperties" then
      if v.Null? then o.nullVerdict
      else if !v.Obj? then o.malformed
      else inst.Obj? ==>
        forall p, k :: p in v.members && k in inst.members && o.matches(p, k) ==>
          Accepts(o, v.members[p], inst.members[k])
    else if key == "not" then
      !Accepts(o, v, inst)
    else if key == "items" then
      if v.Arr? then  // the array form of earlier drafts
        inst.Arr? ==>
          forall i :: 0 <= i < |v.items| && i < |inst.items| ==> Accepts(o, v.items[i], inst.items[i])
      else inst.Arr? ==>
        forall i :: ItemCount(m, "prefixItems") <= i < |inst.items| ==> Accepts(o, v, inst.items[i])
    else if HoldsSlice(key) then
      if v.Null? then o.nullVerdict
      else if !v.Arr? then o.malformed
      else SliceAccepts(o, key, v.items, inst)
    else true
  }

  ghost predicate SliceAccepts(o: Oracle, key: string, schemas: seq<Json>, inst: Json)
    decreases Arr(schemas), 0
  {
    if key == "prefixItems" then
      inst.Arr? ==>
        forall i :: 0 <= i < |schemas| && i < |inst.items| ==> Accepts(o, schemas[i], inst.items[i])
    else if key == "anyOf" then
      exists i :: 0 <= i < |schemas| && Accepts(o, schemas[i], inst)
    else if key == "oneOf" then
      exists i ::
        && 0 <= i < |schemas| && Accepts(o, schemas[i], inst)
        && forall j :: 0 <= j < |schemas| && Accepts(o, schemas[j], inst) ==> j == i
    else
      forall i :: 0 <= i < |schemas| ==> Accepts(o, schemas[i], inst)
  }

  // -------------------------------------------------------------- null-free trees

  /** No schema position the sanitizer visits holds null. */
  ghost predicate NullFreeNode(v: Json)
    decreases v, 0
  {
    v.Obj? ==> forall k :: k in v.members ==> NullFreeMember(k, v.members[k])
  }

  ghost predicate NullFreeChild(v: Json)
    decreases v, 1
  {
    v != Null && NullFreeNode(v)
  }

  ghost predicate NullFreeMap(v: Json)
    decreases v, 2
  {
    v.Obj? ==> forall k :: k in v.members ==> NullFreeChild(v.members[k])
  }

  ghost predicate NullFreeSlice(v: Json)
    decreases v, 2
  {
    v.Arr? ==> forall i :: 0 <= i < |v.items| ==> NullFreeChild(v.items[i])
  }

  ghost predicate NullFreeMember(key: string, v: Json)
    decreases v, 3
  {
    && (key == "properties" ==> v != Null)
    && (HoldsMap(key) ==> NullFreeMap(v))
    && (HoldsSchema(key) ==> NullFreeChild(v))
    && (key == "items" || key == "not" || HoldsSlice(key) ==> NullFreeSlice(v))
  }

  // ---------------------------------------------------------- meaning is preserved

  lemma SixTypesCoverAll(o: Oracle, inst: Json)
    ensures TypeAllows(o, ANY.members, inst)
  {
    var names := ANY.members["type"].items;
    var i := match inst
      case Obj(_) => 0
      case Str(_) => 1
      case Num(_) => 2
      case Bool(_) => 3
      case Arr(_) => 4
      case Null => 5;
    assert names[i].Str? && HasType(inst, names[i].text);
  }

  /** With `type` as the only member the type decides. */
  lemma OnlyTypeDecides(o: Oracle, v: Json, inst: Json)
    requires v.Obj? && v.members.Keys <= {"type"}
    ensures Accepts(o, v, inst) <==> TypeAllows(o, v.members, inst)
  {
    assert Others(v.members) == map[] by {
      assert forall k :: k in v.members ==> Interpreted(k);
    }
    forall k | k in v.members
      ensures MemberAccepts(o, v.members, k, inst)
    {
      assert k == "type" && KindOf("type") == OtherKind;
    }
  }

  lemma AnyAcceptsEverything(o: Oracle, inst: Json)
    ensures Accepts(o, ANY, inst)
  {
    SixTypesCoverAll(o, inst);
    OnlyTypeDecides(o, ANY, inst);
  }

  lemma EmptyAcceptsEverything(o: Oracle, inst: Json)
    ensures Accepts(o, EMPTY_OBJECT, inst)
  {
    OnlyTypeDecides(o, EMPTY_OBJECT, inst);
  }

  lemma AnyObjectAcceptsObjects(o: Oracle, inst: Json)
    ensures Accepts(o, ANY_OBJECT, inst) <==> inst.Obj?
  {
    OnlyTypeDecides(o, ANY_OBJECT, inst);
  }

  /** A blank schema accepts everything, null only where null reads as anything. */
  lemma BlankAccepts(o: Oracle, v: Json, inst: Json)
    requires IsBlank(v) && (o.nullVerdict || v != Null)
    ensures Accepts(o, v, inst)
  {
    EmptyAcceptsEverything(o, inst);
  }

  /** Keywords whose reading depends on siblings see the same siblings. */
  lemma SiblingsKept(o: Oracle, v: Json)
    requires v.Obj?
    ensures var m, w := v.members, SanitizeNode(v).members;
      && MemberNames(w, "properties") == MemberNames(m, "properties")
      && MemberNames(w, "patternProperties") == MemberNames(m, "patternProperties")
      && ItemCount(w, "prefixItems") == ItemCount(m, "prefixItems")
      && (forall name :: IsAdditional(o, w, name) <==> IsAdditional(o, m, name))
  {
    var m, w := v.members, SanitizeNode(v).members;
    assert KindOf("properties") == PropertiesKind;
    assert KindOf("patternProperties") == MapKind;
    assert KindOf("prefixItems") == SliceKind;
    KeysKept(v, "properties");
    KeysKept(v, "patternProperties");
    if "prefixItems" in m {
      assert w["prefixItems"] == SanitizeSlice(m["prefixItems"]);
    }
  }

  lemma KeysKept(v: Json, key: string)
    requires v.Obj? && (KindOf(key) == PropertiesKind || KindOf(key) == MapKind)
    ensures MemberNames(SanitizeNode(v).members, key) == MemberNames(v.members, key)
  {
    if key in v.members && !Dropped(key, v.members[key]) {
      assert SanitizeNode(v).members[key] == SanitizeMap(v.members[key]);
    }
  }

  lemma OthersKept(v: Json)
    requires v.Obj?
    ensures var m, w := v.members, SanitizeNode(v).members;
      Others(w) == Others(m) && ("type" in w <==> "type" in m) && ("type" in m ==> w["type"] == m["type"])
  {
    var m, w := v.members, SanitizeNode(v).members;
    forall k
      ensures k in Others(w) <==> k in Others(m)
      ensures k in Others(m) ==> Others(w)[k] == Others(m)[k]
    {
      if KindOf(k) == OtherKind {
        OtherMembersUntouched(v, k);
      }
    }
    assert KindOf("type") == OtherKind;
    OtherMembersUntouched(v, "type");
  }

  /** The values at one member accept the same, whatever the instance. */
  ghost predicate SameVerdicts(o: Oracle, v: Json, w: Json) {
    forall inst :: Accepts(o, v, inst) <==> Accepts(o, w, inst)
  }

  lemma {:induction false} SameChild(o: Oracle, v: Json)
    requires o.nullVerdict || NullFreeChild(v)
    ensures SameVerdicts(o, v, SanitizeChild(v))
    decreases v, 1
  {
    forall inst
      ensures Accepts(o, v, inst) <==> Accepts(o, SanitizeChild(v), inst)
    {
      if IsBlank(v) {
        AnyAcceptsEverything(o, inst);
        BlankAccepts(o, v, inst);
      } else {
        SameNode(o, v, inst);
      }
    }
  }

  lemma {:induction false} SameMap(o: Oracle, v: Json)
    requires v.Obj? && (o.nullVerdict || NullFreeMap(v))
    ensures forall k :: k in v.members ==> SameVerdicts(o, v.members[k], SanitizeMap(v).members[k])
    decreases v, 2
  {
    forall k | k in v.members
      ensures SameVerdicts(o, v.members[k], SanitizeMap(v).members[k])
    {
      SameChild(o, v.members[k]);
    }
  }

  lemma {:induction false} SameSlice(o: Oracle, v: Json)
    requires v.Arr? && (o.nullVerdict || NullFreeSlice(v))
    ensures forall i :: 0 <= i < |v.items| ==> SameVerdicts(o, v.items[i], SanitizeSlice(v).items[i])
    decreases v, 2
  {
    forall i | 0 <= i < |v.items|
      ensures SameVerdicts(o, v.items[i], SanitizeSlice(v).items[i])
    {
      SameChild(o, v.items[i]);
    }
  }

  /** A single-schema keyword: its new value accepts what the old one did. */
  lemma {:induction false} SameSchema(o: Oracle, key: string, v: Json)
    requires KindOf(key) == AdditionalKind || KindOf(key) == SchemaKind
    requires o.nullVerdict || NullFreeChild(v)
    ensures SameVerdicts(o, v, SanitizeMember(key, v))
    decreases v, 2
  {
    SameChild(o, v);
    forall inst
      ensures Accepts(o, v, inst) <==> Accepts(o, SanitizeMember(key, v), inst)
    {
      if IsBlank(v) {
        BlankAccepts(o, v, inst);
        AnyAcceptsEverything(o, inst);
      } else {
        assert Accepts(o, v, inst) <==> Accepts(o, SanitizeChild(v), inst);
      }
    }
  }

  lemma {:induction false} SameMapKeyword(o: Oracle, v: Json, key: string, inst: Json)
    requires v.Obj? && key in v.members && (KindOf(key) == PropertiesKind || KindOf(key) == MapKind)
    requires o.nullVerdict || NullFreeMember(key, v.members[key])
    requires key in SanitizeNode(v).members
    ensures MemberAccepts(o, SanitizeNode(v).members, key, inst) <==> MemberAccepts(o, v.members, key, inst)
    decreases v, 0, 0, 0
  {
    var x, w := v.members[key], SanitizeNode(v).members;
    MemberAfter(v, key);
    assert SanitizeMember(key, x) == SanitizeMap(x);
    if x.Obj? {
      SameMap(o, x);
      assert w[key].members.Keys == x.members.Keys;
    }
  }

  lemma {:induction false} SameSliceKeyword(o: Oracle, v: Json, key: string, inst: Json)
    requires v.Obj? && key in v.members && KindOf(key) == SliceKind
    requires o.nullVerdict || NullFreeMember(key, v.members[key])
    ensures MemberAccepts(o, SanitizeNode(v).members, key, inst) <==> MemberAccepts(o, v.members, key, inst)
    decreases v, 0, 0, 0
  {
    var x, w := v.members[key], SanitizeNode(v).members;
    MemberAfter(v, key);
    assert SanitizeMember(key, x) == SanitizeSlice(x);
    if x.Arr? {
      SameSlice(o, x);
      SameSliceVerdict(o, key, x.items, w[key].items, inst);
    }
  }

  lemma SliceImplies(o: Oracle, key: string, xs: seq<Json>, ys: seq<Json>, inst: Json)
    requires |xs| == |ys|
    requires forall i, part :: 0 <= i < |xs| ==> (Accepts(o, xs[i], part) <==> Accepts(o, ys[i], part))
    requires SliceAccepts(o, key, xs, inst)
    ensures SliceAccepts(o, key, ys, inst)
  {
    if key == "prefixItems" {
    } else if key == "anyOf" {
      var i :| 0 <= i < |xs| && Accepts(o, xs[i], inst);
      assert Accepts(o, ys[i], inst);
    } else if key == "oneOf" {
      var i :| 0 <= i < |xs| && Accepts(o, xs[i], inst)
        && forall j :: 0 <= j < |xs| && Accepts(o, xs[j], inst) ==> j == i;
      assert Accepts(o, ys[i], inst);
      assert forall j :: 0 <= j < |ys| && Accepts(o, ys[j], inst) ==> j == i;
    }
  }

  lemma SameSliceVerdict(o: Oracle, key: string, xs: seq<Json>, ys: seq<Json>, inst: Json)
    requires |xs| == |ys| && forall i :: 0 <= i < |xs| ==> SameVerdicts(o, xs[i], ys[i])
    ensures SliceAccepts(o, key, xs, inst) <==> SliceAccepts(o, key, ys, inst)
  {
    forall i, part | 0 <= i < |xs|
      ensures Accepts(o, xs[i], part) <==> Accepts(o, ys[i], part)
    {
      assert SameVerdicts(o, xs[i], ys[i]);
    }
    if SliceAccepts(o, key, xs, inst) {
      SliceImplies(o, key, xs, ys, inst);
    }
    if SliceAccepts(o, key, ys, inst) {
      SliceImplies(o, key, ys, xs, inst);
    }
  }

  lemma {:induction false} SameMember(o: Oracle, v: Json, key: string, inst: Json)
    requires v.Obj? && key in v.members
    requires o.nullVerdict || NullFreeMember(key, v.members[key])
    ensures var w := SanitizeNode(v).members;
      if key in w then MemberAccepts(o, w, key, inst) <==> MemberAccepts(o, v.members, key, inst)
      else MemberAccepts(o, v.members, key, inst)
    decreases v, 0, 0, 1
  {
    var x := v.members[key];
    SiblingsKept(o, v);
    MemberAfter(v, key);
    match KindOf(key)
    case PropertiesKind =>
      if key in SanitizeNode(v).members {
        SameMapKeyword(o, v, key, inst);
      }
    case AdditionalKind =>
      SameSchema(o, key, x);
    case SchemaKind =>
      SameSchema(o, key, x);
      if x.Arr? { SameSlice(o, x); }
    case SliceKind =>
      SameSliceKeyword(o, v, key, inst);
    case MapKind =>
      SameMapKeyword(o, v, key, inst);
    case OtherKind =>
  }

  /**
   The sanitized schema accepts exactly the same instances, provided null reads
   as "anything" or the schema has no null in a schema position.
   */
  lemma {:induction false} SameNode(o: Oracle, v: Json, inst: Json)
    requires o.nullVerdict || NullFreeNode(v)
    ensures Accepts(o, SanitizeNode(v), inst) <==> Accepts(o, v, inst)
    decreases v, 0, 1
  {
    if v.Obj? {
      var w := SanitizeNode(v).members;
      OthersKept(v);
      SameMembers(o, v, inst);
      assert TypeAllows(o, w, inst) <==> TypeAllows(o, v.members, inst);
      AcceptsObject(o, v.members, inst);
      AcceptsObject(o, w, inst);
    }
  }

  ghost predicate MembersAccept(o: Oracle, m: map<string, Json>, inst: Json) {
    forall k :: k in m ==> MemberAccepts(o, m, k, inst)
  }

  lemma AcceptsObject(o: Oracle, m: map<string, Json>, inst: Json)
    ensures Accepts(o, Obj(m), inst) <==>
      TypeAllows(o, m, inst) && (Others(m) == map[] || o.others(Others(m), inst)) && MembersAccept(o, m, inst)
  {
  }

  lemma {:induction false} SameMembers(o: Oracle, v: Json, inst: Json)
    requires v.Obj? && (o.nullVerdict || NullFreeNode(v))
    ensures MembersAccept(o, SanitizeNode(v).members, inst) <==> MembersAccept(o, v.members, inst)
    decreases v, 0, 0, 2
  {
    var w := SanitizeNode(v).members;
    forall k | k in v.members
      ensures if k in w then MemberAccepts(o, w, k, inst) <==> MemberAccepts(o, v.members, k, inst)
        else MemberAccepts(o, v.members, k, inst)
    {
      SameMember(o, v, k, inst);
    }
  }

  /**
   A tool's schema: the same, except that a blank one becomes the schema of all
   objects, so the two agree exactly on objects (where null is read as anything).
   */
  lemma SameTool(o: Oracle, tool: map<string, Json>, inst: Json)
    requires "inputSchema" in tool
    requires o.nullVerdict || NullFreeChild(tool["inputSchema"])
    ensures (Accepts(o, SanitizeTool(tool)["inputSchema"], inst) <==> Accepts(o, tool["inputSchema"], inst))
      <==> !IsBlank(tool["inputSchema"]) || inst.Obj?
  {
    var v := tool["inputSchema"];
    if IsBlank(v) {
      BlankAccepts(o, v, inst);
      AnyObjectAcceptsObjects(o, inst);
    } else {
      SameNode(o, v, inst);
    }
  }

  /** Where null does not accept everything, rewriting it does change the meaning. */
  lemma NullIsReadAsAnything(o: Oracle, inst: Json)
    requires !o.nullVerdict
    ensures var v := Obj(map["not" := Null]);
      Accepts(o, v, inst) && !Accepts(o, SanitizeNode(v), inst)
  {
    var v := Obj(map["not" := Null]);
    var w := SanitizeNode(v).members;
    MemberAfter(v, "not");
    assert w["not"] == ANY && MemberAccepts(o, v.members, "not", inst);
    AnyAcceptsEverything(o, inst);
    assert !MemberAccepts(o, w, "not", inst);
    assert Others(v.members) == map[];
  }
}
