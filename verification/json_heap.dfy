/**
 Decoded JSON as the code holds it: maps and slices that are shared by reference
 and updated in place.  Each container carries, for specifications, the tree it
 stands for and the set of containers below it.
 */
module JsonHeap {
  import opened Jsons

  datatype Value =
    | VNull
    | VBool(truth: bool)
    | VNum(number: real)
    | VStr(text: string)
    | VArr(arr: JsonArray)
    | VObj(obj: JsonObject)

  ghost function Roots(v: Value): set<object> {
    match v
    case VArr(a) => {a}
    case VObj(o) => {o}
    case _ => {}
  }

  ghost function Footprint(v: Value): set<object>
    reads Roots(v)
  {
    match v
    case VArr(a) => a.repr
    case VObj(o) => o.repr
    case _ => {}
  }

  ghost function Tree(v: Value): Json
    reads Roots(v)
  {
    match v
    case VNull => Null
    case VBool(b) => Bool(b)
    case VNum(n) => Num(n)
    case VStr(s) => Str(s)
    case VArr(a) => a.model
    case VObj(o) => o.model
  }

  /** The value lives inside the given room. */
  ghost predicate Within(v: Value, room: set<object>)
    reads Roots(v)
  {
    Roots(v) <= Footprint(v) <= room
  }

  ghost predicate Intact(v: Value)
    reads Roots(v), Footprint(v)
    decreases Footprint(v), 1
  {
    match v
    case VArr(a) => a.Valid()
    case VObj(o) => o.Valid()
    case _ => true
  }

  lemma SameShape(v: Value)
    requires Intact(v)
    ensures Tree(v).Obj? <==> v.VObj?
    ensures Tree(v).Arr? <==> v.VArr?
  {
  }

  /** A value is as it was if nothing it is made of has changed. */
  twostate lemma Unmoved(v: Value)
    requires old(Intact(v)) && Roots(v) <= old(Footprint(v)) && unchanged(old(Footprint(v)))
    ensures Intact(v) && Tree(v) == old(Tree(v)) && Footprint(v) == old(Footprint(v))
  {
  }

  class JsonArray {
    var items: seq<Value>
    ghost var model: Json
    ghost var repr: set<object>

    ghost predicate Valid()
      reads this, repr
      decreases repr, 0
    {
      && this in repr
      && model.Arr? && |model.items| == |items|
      && (forall i :: 0 <= i < |items| ==> Roots(items[i]) <= repr && Within(items[i], repr - {this}))
      && (forall i :: 0 <= i < |items| ==> Intact(items[i]) && Tree(items[i]) == model.items[i])
      && (forall i, j :: 0 <= i < j < |items| ==> Footprint(items[i]) !! Footprint(items[j]))
    }

    constructor OfStrings(texts: seq<string>)
      ensures Valid() && repr == {this}
      ensures model == Arr(seq(|texts|, i requires 0 <= i < |texts| => Str(texts[i])))
    {
      items := seq(|texts|, i requires 0 <= i < |texts| => VStr(texts[i]));
      model := Arr(seq(|texts|, i requires 0 <= i < |texts| => Str(texts[i])));
      repr := {this};
      new;
      forall i | 0 <= i < |items|
        ensures items[i] == VStr(texts[i]) && Roots(items[i]) == {} && Footprint(items[i]) == {}
        ensures Tree(items[i]) == Str(texts[i]) == model.items[i]
      {
      }
    }

    /** Everything but the element at index is as Valid says. */
    ghost predicate ValidElsewhere(index: int)
      reads this, repr, set i, r | 0 <= i < |items| && r in Roots(items[i]) :: r
    {
      && this in repr
      && model.Arr? && |model.items| == |items|
      && (forall i :: 0 <= i < |items| && i != index ==> Roots(items[i]) <= repr && Within(items[i], repr - {this}))
      && (forall i :: 0 <= i < |items| && i != index ==> Intact(items[i]) && Tree(items[i]) == model.items[i])
      && (forall i, j :: 0 <= i < |items| && 0 <= j < |items| && i != j ==> Footprint(items[i]) !! Footprint(items[j]))
    }

    /** The element at index was updated in place: bring model and repr up to date. */
    ghost method Refresh(index: nat)
      requires index < |items| && ValidElsewhere(index)
      requires Intact(items[index]) && Roots(items[index]) <= Footprint(items[index])
      requires this !in Footprint(items[index])
      modifies `model, `repr
      ensures Valid() && repr == old(repr) + Footprint(items[index])
      ensures model == Arr(old(model).items[index := Tree(items[index])])
    {
      model := Arr(model.items[index := Tree(items[index])]);
      repr := repr + Footprint(items[index]);
    }

    /** `arr[index] = value`. */
    method Put(index: nat, value: Value)
      requires Valid() && index < |items|
      requires Intact(value) && Roots(value) <= Footprint(value) && Footprint(value) !! repr
      modifies this
      ensures Valid() && repr == old(repr) + Footprint(value)
      ensures model == Arr(old(model).items[index := Tree(value)])
    {
      items := items[index := value];
      Refresh(index);
    }
  }

  class JsonObject {
    var members: map<string, Value>
    ghost var model: Json
    ghost var repr: set<object>

    ghost predicate Valid()
      reads this, repr
      decreases repr, 0
    {
      && this in repr
      && model.Obj? && model.members.Keys == members.Keys
      && (forall k :: k in members ==> Roots(members[k]) <= repr && Within(members[k], repr - {this}))
      && (forall k :: k in members ==> Intact(members[k]) && Tree(members[k]) == model.members[k])
      && (forall k, l :: k in members && l in members && k != l ==> Footprint(members[k]) !! Footprint(members[l]))
    }

    constructor Singleton(key: string, value: Value)
      requires Intact(value) && Roots(value) <= Footprint(value)
      ensures Valid() && repr == {this} + Footprint(value)
      ensures model == Obj(map[key := Tree(value)])
    {
      members := map[key := value];
      model := Obj(map[key := Tree(value)]);
      repr := {this} + Footprint(value);
    }

    /** Everything but the member at key is as Valid says. */
    ghost predicate ValidElsewhere(key: string)
      reads this, repr, set k, r | k in members && r in Roots(members[k]) :: r
    {
      && this in repr
      && model.Obj? && model.members.Keys + {key} == members.Keys + {key}
      && (forall k :: k in members && k != key ==> Roots(members[k]) <= repr && Within(members[k], repr - {this}))
      && (forall k :: k in members && k != key ==> Intact(members[k]) && Tree(members[k]) == model.members[k])
      && (forall k, l :: k in members && l in members && k != l ==> Footprint(members[k]) !! Footprint(members[l]))
    }

    /** The member at key was set or updated in place: bring model and repr up to date. */
    ghost method Refresh(key: string)
      requires key in members && ValidElsewhere(key)
      requires Intact(members[key]) && Roots(members[key]) <= Footprint(members[key])
      requires this !in Footprint(members[key])
      modifies `model, `repr
      ensures Valid() && repr == old(repr) + Footprint(members[key])
      ensures model == Obj(old(model).members[key := Tree(members[key])])
    {
      var tree := Tree(members[key]);
      model := Obj(model.members[key := tree]);
      repr := repr + Footprint(members[key]);
      assert model.members.Keys == members.Keys;
      forall k | k in members
        ensures Intact(members[k]) && Tree(members[k]) == old(Tree(members[k]))
        ensures Footprint(members[k]) == old(Footprint(members[k]))
      {
        Unmoved(members[k]);
      }
    }

    /** `m[key] = value`. */
    method Put(key: string, value: Value)
      requires Valid()
      requires Intact(value) && Roots(value) <= Footprint(value) && Footprint(value) !! repr
      modifies this
      ensures Valid() && repr == old(repr) + Footprint(value)
      ensures model == Obj(old(model).members[key := Tree(value)])
      ensures members == old(members)[key := value]
    {
      ghost var before := members;
      members := members[key := value];
      forall k | k in before && k != key
        ensures Intact(members[k]) && Tree(members[k]) == old(Tree(before[k]))
        ensures Footprint(members[k]) == old(Footprint(before[k]))
      {
        Unmoved(before[k]);
      }
      Unmoved(value);
      Refresh(key);
    }

    /** `delete(m, key)`. */
    method Delete(key: string)
      requires Valid()
      modifies this
      ensures Valid() && repr == old(repr)
      ensures model == Obj(old(model).members - {key})
    {
      members := members - {key};
      model := Obj(model.members - {key});
    }
  }
}
