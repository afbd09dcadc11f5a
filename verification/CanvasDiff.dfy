/** The change list between two canvas documents, and the comparison of JSON values it rests on. */
module CanvasDiff {
  import opened Wrappers

  // ---------------------------------------------------------------------------------------------
  // Values
  // ---------------------------------------------------------------------------------------------

  datatype Field = Field(key: string, value: Value)

  /** A JSON value, or the runtime's undefined. Fields stand in the order they were set; for a repeated key the first
      counts. */
  datatype Value = Undefined | Null | Bool(b: bool) | Num(n: real) | Str(s: string) | Arr(items: seq<Value>) | Obj(fields: seq<Field>)

  function IndexOfKey(fields: seq<Field>, key: string): (r: Option<nat>)
    ensures r.Some? ==> r.value < |fields| && fields[r.value].key == key
  {
    if fields == [] then None
    else if fields[0].key == key then Some(0)
    else
      var rest := IndexOfKey(fields[1..], key);
      if rest.Some? then Some(rest.value + 1) else None
  }

  lemma {:induction false} IndexOfKeyFinds(fields: seq<Field>, key: string)
    ensures IndexOfKey(fields, key).Some? <==> exists i :: 0 <= i < |fields| && fields[i].key == key
  {
    if fields == [] {
    } else {
      IndexOfKeyFinds(fields[1..], key);
      if exists i :: 0 <= i < |fields| && fields[i].key == key {
        var i :| 0 <= i < |fields| && fields[i].key == key;
        assert i > 0 ==> fields[1..][i - 1].key == key;
      }
    }
  }

  function KeysOf(fields: seq<Field>): seq<string> {
    seq(|fields|, i requires 0 <= i < |fields| => fields[i].key)
  }

  /** Each string once, where it first occurs. */
  function Distinct(s: seq<string>): seq<string> {
    if s == [] then []
    else
      var before := Distinct(s[..|s| - 1]);
      if s[|s| - 1] in before then before else before + [s[|s| - 1]]
  }

  lemma {:induction false} DistinctKeeps(s: seq<string>)
    ensures forall x :: x in Distinct(s) <==> x in s
  {
    if s == [] {
    } else {
      DistinctKeeps(s[..|s| - 1]);
      assert s == s[..|s| - 1] + [s[|s| - 1]];
    }
  }

  /** Reading a field; a missing one reads as undefined. */
  function Get(v: Value, key: string): Value
    requires v.Obj?
  {
    var i := IndexOfKey(v.fields, key);
    if i.Some? then v.fields[i.value].value else Undefined
  }

  /** The names every object of the runtime inherits. A missing field of such a name does not read as undefined, but as a
      function, or, for `__proto__`, as the object they are inherited from. */
  const INHERITED := {"__proto__", "constructor", "hasOwnProperty", "isPrototypeOf", "propertyIsEnumerable", "toLocaleString",
                      "toString", "valueOf", "__defineGetter__", "__defineSetter__", "__lookupGetter__", "__lookupSetter__"}

  /** The value compares as equal to the object all names are inherited from, which has no fields of its own and null for
      its `__proto__`. */
  predicate LikePrototype(v: Value) {
    v.Obj? && forall f :: f in v.fields ==>
      if f.key == "__proto__" then Get(v, f.key) == Null else f.key !in INHERITED && Get(v, f.key) == Undefined
  }

  /** Comparing what two objects hold under one key. */
  predicate EqualAt(a: Value, b: Value, key: string)
    requires a.Obj? && b.Obj?
    decreases a, 0
  {
    var i, j := IndexOfKey(a.fields, key), IndexOfKey(b.fields, key);
    if i.Some? && j.Some? then EqualValues(a.fields[i.value].value, b.fields[j.value].value)
    else if i.None? && j.None? then true
    else
      var present := if i.Some? then a.fields[i.value].value else b.fields[j.value].value;
      if key == "__proto__" then LikePrototype(present) else key !in INHERITED && present == Undefined
  }

  predicate EqualValues(a: Value, b: Value)
    decreases a, 1
  {
    if a.Arr? && b.Arr? then |a.items| == |b.items| && forall i :: 0 <= i < |a.items| ==> EqualValues(a.items[i], b.items[i])
    else if a.Obj? && b.Obj? then
      var keys := Distinct(KeysOf(a.fields) + KeysOf(b.fields));
      forall i :: 0 <= i < |keys| ==> EqualAt(a, b, keys[i])
    else !a.Arr? && !a.Obj? && a == b
  }

  /** The value as a mathematical object: arrays as sequences, objects as finite maps without undefined fields. */
  datatype Structure = Absent | Nothing | Truth(b: bool) | Number(n: real) | Text(s: string) | List(items: seq<Structure>)
    | Map(fields: map<string, Structure>)

  function StructureOf(v: Value): Structure
    decreases v, 1
  {
    match v
    case Undefined => Absent
    case Null => Nothing
    case Bool(b) => Truth(b)
    case Num(n) => Number(n)
    case Str(s) => Text(s)
    case Arr(items) => List(seq(|items|, i requires 0 <= i < |items| => StructureOf(items[i])))
    case Obj(fields) => Map(map key | key in KeysOf(fields) && StructureAt(v, key) != Absent :: StructureAt(v, key))
  }

  function StructureAt(v: Value, key: string): Structure
    requires v.Obj?
    decreases v, 0
  {
    var i := IndexOfKey(v.fields, key);
    if i.Some? then StructureOf(v.fields[i.value].value) else Absent
  }

  /** No field of an inherited name inside holds undefined; so of every JSON value, which holds no undefined at all. */
  ghost predicate Proper(v: Value) {
    match v
    case Arr(items) => forall i :: 0 <= i < |items| ==> Proper(items[i])
    case Obj(fields) => forall i :: 0 <= i < |fields| ==> (fields[i].key in INHERITED ==> fields[i].value != Undefined) && Proper(fields[i].value)
    case _ => true
  }

  /** ... and no field inside is named `__proto__`. */
  ghost predicate Plain(v: Value) {
    match v
    case Arr(items) => forall i :: 0 <= i < |items| ==> Plain(items[i])
    case Obj(fields) => forall i :: 0 <= i < |fields| ==>
      fields[i].key != "__proto__" && (fields[i].key in INHERITED ==> fields[i].value != Undefined) && Plain(fields[i].value)
    case _ => true
  }

  lemma {:induction false} PlainIsProper(v: Value)
    requires Plain(v)
    ensures Proper(v)
  {
    match v
    case Arr(items) =>
      forall i | 0 <= i < |items|
        ensures Proper(items[i])
      {
        PlainIsProper(items[i]);
      }
    case Obj(fields) =>
      forall i | 0 <= i < |fields|
        ensures Proper(fields[i].value)
      {
        PlainIsProper(fields[i].value);
      }
    case _ =>
  }

  /** Only one of two objects that stand at the same place in both values has a field named `__proto__`. */
  ghost predicate OneSided(a: Value, b: Value)
    decreases a, 1
  {
    if a.Arr? && b.Arr? then exists i :: 0 <= i < |a.items| && i < |b.items| && OneSided(a.items[i], b.items[i])
    else a.Obj? && b.Obj? && exists key :: OneSidedAt(a, b, key)
  }

  ghost predicate OneSidedAt(a: Value, b: Value, key: string)
    requires a.Obj? && b.Obj?
    decreases a, 0
  {
    var i, j := IndexOfKey(a.fields, key), IndexOfKey(b.fields, key);
    if i.Some? && j.Some? then OneSided(a.fields[i.value].value, b.fields[j.value].value)
    else key == "__proto__" && (i.Some? || j.Some?)
  }

  lemma KeyInKeys(fields: seq<Field>, key: string)
    ensures key in KeysOf(fields) <==> IndexOfKey(fields, key).Some?
  {
    IndexOfKeyFinds(fields, key);
    if key in KeysOf(fields) {
      var i :| 0 <= i < |fields| && KeysOf(fields)[i] == key;
      assert fields[i].key == key;
    }
    var r := IndexOfKey(fields, key);
    if r.Some? {
      assert KeysOf(fields)[r.value] == key;
    }
  }

  /** Whether or not `__proto__` fields occur: two values have the same structure exactly when `equalValues` says so and no `__proto__` field is
      one-sided. */
  lemma {:induction false} SameStructureExactly(a: Value, b: Value)
    requires Proper(a) && Proper(b)
    ensures StructureOf(a) == StructureOf(b) <==> EqualValues(a, b) && !OneSided(a, b)
    decreases a, 1
  {
    if a.Arr? && b.Arr? {
      forall i | 0 <= i < |a.items| && i < |b.items|
        ensures StructureOf(a.items[i]) == StructureOf(b.items[i]) <==> EqualValues(a.items[i], b.items[i]) && !OneSided(a.items[i], b.items[i])
      {
        SameStructureExactly(a.items[i], b.items[i]);
      }
      SameLists(a, b);
    } else if a.Obj? && b.Obj? {
      forall key
        ensures SameAt(a, b, key) <==> EqualAt(a, b, key) && !OneSidedAt(a, b, key)
      {
        SameAtExactly(a, b, key);
      }
      SameMaps(a, b);
    }
  }

  lemma {:induction false} SameAtExactly(a: Value, b: Value, key: string)
    requires a.Obj? && b.Obj? && Proper(a) && Proper(b)
    ensures SameAt(a, b, key) <==> EqualAt(a, b, key) && !OneSidedAt(a, b, key)
    decreases a, 0
  {
    var i, j := IndexOfKey(a.fields, key), IndexOfKey(b.fields, key);
    if i.Some? && j.Some? {
      SameStructureExactly(a.fields[i.value].value, b.fields[j.value].value);
    } else if i.Some? {
      OnlyUndefinedIsAbsent(a.fields[i.value].value);
    } else if j.Some? {
      OnlyUndefinedIsAbsent(b.fields[j.value].value);
    }
  }

  lemma OnlyUndefinedIsAbsent(v: Value)
    ensures StructureOf(v) == Absent <==> v == Undefined
  {
  }

  lemma SameLists(a: Value, b: Value)
    requires a.Arr? && b.Arr?
    requires forall i :: 0 <= i < |a.items| && i < |b.items| ==>
      (StructureOf(a.items[i]) == StructureOf(b.items[i]) <==> EqualValues(a.items[i], b.items[i]) && !OneSided(a.items[i], b.items[i]))
    ensures StructureOf(a) == StructureOf(b) <==> EqualValues(a, b) && !OneSided(a, b)
  {
    var s, r := StructureOf(a).items, StructureOf(b).items;
    assert (forall i :: 0 <= i < |s| ==> s[i] == StructureOf(a.items[i])) && forall i :: 0 <= i < |r| ==> r[i] == StructureOf(b.items[i]);
    if EqualValues(a, b) && !OneSided(a, b) {
      assert s == r;
    }
    if s == r {
      forall i | 0 <= i < |a.items|
        ensures EqualValues(a.items[i], b.items[i]) && !OneSided(a.items[i], b.items[i])
      {
        assert s[i] == r[i];
      }
    }
  }

  /** Without a `__proto__` field on either side nothing is one-sided. */
  lemma {:induction false} PlainIsNeverOneSided(a: Value, b: Value)
    requires Plain(a) && Plain(b)
    ensures !OneSided(a, b)
    decreases a
  {
    if a.Arr? && b.Arr? {
      forall i | 0 <= i < |a.items| && i < |b.items|
        ensures !OneSided(a.items[i], b.items[i])
      {
        PlainIsNeverOneSided(a.items[i], b.items[i]);
      }
    } else if a.Obj? && b.Obj? {
      forall key
        ensures !OneSidedAt(a, b, key)
      {
        var i, j := IndexOfKey(a.fields, key), IndexOfKey(b.fields, key);
        if i.Some? && j.Some? {
          PlainIsNeverOneSided(a.fields[i.value].value, b.fields[j.value].value);
        }
      }
    }
  }

  /** `equalValues` decides structural equality; so it is an equivalence that ignores the order of keys. */
  lemma EqualIsSameStructure(a: Value, b: Value)
    requires Plain(a) && Plain(b)
    ensures EqualValues(a, b) <==> StructureOf(a) == StructureOf(b)
  {
    PlainIsProper(a);
    PlainIsProper(b);
    PlainIsNeverOneSided(a, b);
    SameStructureExactly(a, b);
  }

  lemma EqualAtIsSameStructure(a: Value, b: Value, key: string)
    requires a.Obj? && b.Obj? && Plain(a) && Plain(b)
    ensures EqualAt(a, b, key) <==> StructureAt(a, key) == StructureAt(b, key)
  {
    PlainIsProper(a);
    PlainIsProper(b);
    PlainIsNeverOneSided(a, b);
    assert !OneSidedAt(a, b, key);
    SameAtExactly(a, b, key);
  }

  ghost predicate SameAt(a: Value, b: Value, key: string)
    requires a.Obj? && b.Obj?
  {
    StructureAt(a, key) == StructureAt(b, key)
  }

  lemma MapHolds(v: Value, key: string)
    requires v.Obj?
    ensures var m := StructureOf(v).fields; (if key in m then m[key] else Absent) == StructureAt(v, key)
    ensures key in StructureOf(v).fields ==> StructureOf(v).fields[key] != Absent
  {
    KeyInKeys(v.fields, key);
  }

  lemma MapsAgree(a: Value, b: Value)
    requires a.Obj? && b.Obj?
    ensures StructureOf(a) == StructureOf(b) <==> forall key :: SameAt(a, b, key)
  {
    var s, r := StructureOf(a).fields, StructureOf(b).fields;
    forall key
      ensures SameAt(a, b, key) <==> (if key in s then s[key] else Absent) == (if key in r then r[key] else Absent)
      ensures (key in s ==> s[key] != Absent) && (key in r ==> r[key] != Absent)
    {
      MapHolds(a, key);
      MapHolds(b, key);
    }
    if forall key :: SameAt(a, b, key) {
      forall key
        ensures (key in s <==> key in r) && (key in s ==> s[key] == r[key])
      {
        assert SameAt(a, b, key);
      }
      assert s == r;
    }
  }

  /** A key of neither object compares as equal and is not one-sided. */
  lemma OtherKeysAgree(a: Value, b: Value, key: string)
    requires a.Obj? && b.Obj? && key !in Distinct(KeysOf(a.fields) + KeysOf(b.fields))
    ensures EqualAt(a, b, key)
  {
    DistinctKeeps(KeysOf(a.fields) + KeysOf(b.fields));
    KeyInKeys(a.fields, key);
    KeyInKeys(b.fields, key);
  }

  lemma SameMaps(a: Value, b: Value)
    requires a.Obj? && b.Obj? && forall key :: SameAt(a, b, key) <==> EqualAt(a, b, key) && !OneSidedAt(a, b, key)
    ensures StructureOf(a) == StructureOf(b) <==> EqualValues(a, b) && !OneSided(a, b)
  {
    var keys := Distinct(KeysOf(a.fields) + KeysOf(b.fields));
    MapsAgree(a, b);
    if EqualValues(a, b) && !OneSided(a, b) {
      forall key
        ensures SameAt(a, b, key)
      {
        if key in keys {
          var i :| 0 <= i < |keys| && keys[i] == key;
          assert EqualAt(a, b, keys[i]);
        } else {
          OtherKeysAgree(a, b, key);
        }
      }
    }
    if StructureOf(a) == StructureOf(b) {
      forall i | 0 <= i < |keys|
        ensures EqualAt(a, b, keys[i])
      {
        assert SameAt(a, b, keys[i]);
      }
      forall key
        ensures !OneSidedAt(a, b, key)
      {
        assert SameAt(a, b, key);
      }
    }
  }

  lemma {:induction false} EqualToItself(v: Value)
    ensures EqualValues(v, v)
    decreases v
  {
    if v.Arr? {
      forall i | 0 <= i < |v.items|
        ensures EqualValues(v.items[i], v.items[i])
      {
        EqualToItself(v.items[i]);
      }
    } else if v.Obj? {
      var keys := Distinct(KeysOf(v.fields) + KeysOf(v.fields));
      forall i | 0 <= i < |keys|
        ensures EqualAt(v, v, keys[i])
      {
        var j := IndexOfKey(v.fields, keys[i]);
        if j.Some? {
          EqualToItself(v.fields[j.value].value);
        }
      }
    }
  }

  lemma {:induction false} IndexOfAppended(fields: seq<Field>, f: Field, key: string)
    ensures IndexOfKey(fields + [f], key) ==
      if IndexOfKey(fields, key).Some? then IndexOfKey(fields, key) else if f.key == key then Some(|fields|) else None
  {
    if fields == [] {
      assert [f][1..] == [];
      assert fields + [f] == [f];
    } else {
      assert (fields + [f])[1..] == fields[1..] + [f];
      IndexOfAppended(fields[1..], f, key);
    }
  }

  function WithProto(a: Value, v: Value): Value
    requires a.Obj?
  {
    Obj(a.fields + [Field("__proto__", v)])
  }

  lemma OtherFieldsStayEqual(a: Value, v: Value, key: string)
    requires a.Obj? && key != "__proto__"
    ensures EqualAt(a, WithProto(a, v), key)
  {
    IndexOfAppended(a.fields, Field("__proto__", v), key);
    var i := IndexOfKey(a.fields, key);
    if i.Some? {
      EqualToItself(a.fields[i.value].value);
    }
  }

  /** For every object without a `__proto__` field and every value: adding the value under that name changes the object, but goes
      unnoticed exactly when the value looks like the object all names are inherited from. */
  lemma ProtoIsHiddenExactly(a: Value, v: Value)
    requires a.Obj? && IndexOfKey(a.fields, "__proto__").None? && v != Undefined
    ensures StructureOf(a) != StructureOf(WithProto(a, v))
    ensures EqualValues(a, WithProto(a, v)) <==> LikePrototype(v)
  {
    var b := WithProto(a, v);
    var keys := Distinct(KeysOf(a.fields) + KeysOf(b.fields));
    IndexOfAppended(a.fields, Field("__proto__", v), "__proto__");
    MapHolds(a, "__proto__");
    MapHolds(b, "__proto__");
    OnlyUndefinedIsAbsent(v);
    assert StructureAt(b, "__proto__") == StructureOf(v);
    KeyInKeys(b.fields, "__proto__");
    DistinctKeeps(KeysOf(a.fields) + KeysOf(b.fields));
    var k :| 0 <= k < |keys| && keys[k] == "__proto__";
    assert EqualAt(a, b, keys[k]) <==> LikePrototype(v);
    forall i | 0 <= i < |keys| && keys[i] != "__proto__"
      ensures EqualAt(a, b, keys[i])
    {
      OtherFieldsStayEqual(a, v, keys[i]);
    }
  }

  /** An inherited name can hide a difference: an empty object and one whose `__proto__` field is an empty object. */
  lemma InheritedNameHidesChange()
    ensures var a, b := Obj([]), Obj([Field("__proto__", Obj([]))]);
      EqualValues(a, b) && StructureOf(a) != StructureOf(b)
  {
    var a, b := Obj([]), Obj([Field("__proto__", Obj([]))]);
    assert WithProto(a, Obj([])) == b;
    ProtoIsHiddenExactly(a, Obj([]));
  }

  // ---------------------------------------------------------------------------------------------
  // The change list
  // ---------------------------------------------------------------------------------------------

  datatype Action = Created | Deleted | Updated | Moved

  /** A change of a page, or of one of its elements. */
  datatype Change = Change(page: string, element: Option<string>, action: Action, fields: seq<string>)

  function Unequal(a: Value, b: Value, keys: seq<string>): seq<string>
    requires a.Obj? && b.Obj?
  {
    if keys == [] then []
    else
      var key := keys[|keys| - 1];
      Unequal(a, b, keys[..|keys| - 1]) + (if EqualAt(a, b, key) then [] else [key])
  }

  function ChangedFields(a: Value, b: Value): seq<string>
    requires a.Obj? && b.Obj?
  {
    Unequal(a, b, Distinct(KeysOf(a.fields) + KeysOf(b.fields)))
  }

  function Except(s: seq<string>, x: string): seq<string> {
    if s == [] then [] else Except(s[..|s| - 1], x) + (if s[|s| - 1] == x then [] else [s[|s| - 1]])
  }

  predicate HasId(v: Value) {
    v.Obj? && Get(v, "id").Str?
  }

  function Id(v: Value): string
    requires HasId(v)
  {
    Get(v, "id").s
  }

  type Identified = v: Value | HasId(v) witness Obj([Field("id", Str(""))])

  function IdentifiedOnes(items: seq<Value>): seq<Identified> {
    if items == [] then []
    else IdentifiedOnes(items[..|items| - 1]) + (if HasId(items[|items| - 1]) then [items[|items| - 1]] else [])
  }

  function ListAt(v: Value, key: string): seq<Identified> {
    if v.Obj? && Get(v, key).Arr? then IdentifiedOnes(Get(v, key).items) else []
  }

  function PagesOf(document: Value): seq<Identified> {
    ListAt(document, "pages")
  }

  function ElementsOf(page: Option<Identified>): seq<Identified> {
    if page.Some? then ListAt(page.value, "elements") else []
  }

  function Ids(list: seq<Identified>): seq<string> {
    seq(|list|, i requires 0 <= i < |list| => Id(list[i]))
  }

  function FirstWith(list: seq<Identified>, id: string): (r: Option<nat>)
    ensures r.Some? ==> r.value < |list| && Id(list[r.value]) == id
  {
    if list == [] then None
    else if Id(list[0]) == id then Some(0)
    else
      var rest := FirstWith(list[1..], id);
      if rest.Some? then Some(rest.value + 1) else None
  }

  function LastWith(list: seq<Identified>, id: string): (r: Option<nat>)
    ensures r.Some? ==> r.value < |list| && Id(list[r.value]) == id
  {
    if list == [] then None
    else if Id(list[|list| - 1]) == id then Some(|list| - 1)
    else LastWith(list[..|list| - 1], id)
  }

  /** Both lists' ids, each once. */
  function AllIds(a: seq<Identified>, b: seq<Identified>): seq<string> {
    Distinct(Ids(a) + Ids(b))
  }

  function ItemAt(list: seq<Identified>, i: Option<nat>): Option<Identified>
    requires i.Some? ==> i.value < |list|
  {
    if i.Some? then Some(list[i.value]) else None
  }

  /** Deleted or created; or else what changed in it, and whether it moved. */
  function Compared(page: string, element: Option<string>, i: Option<nat>, j: Option<nat>, fields: seq<string>): seq<Change> {
    if i.None? || j.None? then [Change(page, element, if i.Some? then Deleted else Created, [])]
    else
      (if fields == [] then [] else [Change(page, element, Updated, fields)])
      + (if i == j then [] else [Change(page, element, Moved, ["index"])])
  }

  function FieldsBetween(a: Option<Identified>, b: Option<Identified>): seq<string> {
    if a.Some? && b.Some? then ChangedFields(a.value, b.value) else []
  }

  function ElementDiff(page: string, a: seq<Identified>, b: seq<Identified>, id: string): seq<Change> {
    var i, j := LastWith(a, id), LastWith(b, id);
    Compared(page, Some(id), i, j, FieldsBetween(ItemAt(a, i), ItemAt(b, j)))
  }

  /** The changes of every id, one after the other. */
  function Concat(diff: string -> seq<Change>, ids: seq<string>): seq<Change> {
    if ids == [] then [] else Concat(diff, ids[..|ids| - 1]) + diff(ids[|ids| - 1])
  }

  function ElementDiffs(page: string, a: seq<Identified>, b: seq<Identified>): string -> seq<Change> {
    id => ElementDiff(page, a, b, id)
  }

  function ElementsDiff(page: string, a: seq<Identified>, b: seq<Identified>): seq<Change> {
    Concat(ElementDiffs(page, a, b), AllIds(a, b))
  }

  function PageDiff(a: seq<Identified>, b: seq<Identified>, id: string): seq<Change> {
    var i, j := FirstWith(a, id), FirstWith(b, id);
    var p, q := ItemAt(a, i), ItemAt(b, j);
    Compared(id, None, i, j, Except(FieldsBetween(p, q), "elements"))
    + ElementsDiff(id, ElementsOf(p), ElementsOf(q))
  }

  function PageDiffs(a: seq<Identified>, b: seq<Identified>): string -> seq<Change> {
    id => PageDiff(a, b, id)
  }

  function PagesDiff(a: seq<Identified>, b: seq<Identified>): seq<Change> {
    Concat(PageDiffs(a, b), AllIds(a, b))
  }

  function Diff(before: Value, after: Value): seq<Change> {
    PagesDiff(PagesOf(before), PagesOf(after))
  }

  lemma ConcatStep(diff: string -> seq<Change>, ids: seq<string>, k: nat)
    requires k < |ids|
    ensures Concat(diff, ids[..k + 1]) == Concat(diff, ids[..k]) + diff(ids[k])
  {
    assert ids[..k + 1][..k] == ids[..k];
  }

  method CompareItems(page: string, element: Option<string>, i: Option<nat>, j: Option<nat>, fields: seq<string>) returns (changes: seq<Change>)
    ensures changes == Compared(page, element, i, j, fields)
  {
    changes := [];
    if i.None? || j.None? {
      return [Change(page, element, if i.Some? then Deleted else Created, [])];
    }
    if fields != [] {
      changes := changes + [Change(page, element, Updated, fields)];
    }
    if i != j {
      changes := changes + [Change(page, element, Moved, ["index"])];
    }
  }

  method DiffElements(page: string, oldList: seq<Identified>, newList: seq<Identified>) returns (changes: seq<Change>)
    ensures changes == ElementsDiff(page, oldList, newList)
  {
    changes := [];
    var ids := AllIds(oldList, newList);
    for k := 0 to |ids|
      invariant changes == Concat(ElementDiffs(page, oldList, newList), ids[..k])
    {
      ConcatStep(ElementDiffs(page, oldList, newList), ids, k);
      var i, j := LastWith(oldList, ids[k]), LastWith(newList, ids[k]);
      var more := CompareItems(page, Some(ids[k]), i, j, FieldsBetween(ItemAt(oldList, i), ItemAt(newList, j)));
      changes := changes + more;
    }
    assert ids[..|ids|] == ids;
  }

  method DiffPage(beforePages: seq<Identified>, afterPages: seq<Identified>, pageId: string) returns (changes: seq<Change>)
    ensures changes == PageDiffs(beforePages, afterPages)(pageId)
  {
    var i, j := FirstWith(beforePages, pageId), FirstWith(afterPages, pageId);
    var a, b := ItemAt(beforePages, i), ItemAt(afterPages, j);
    changes := CompareItems(pageId, None, i, j, Except(FieldsBetween(a, b), "elements"));
    var more := DiffElements(pageId, ElementsOf(a), ElementsOf(b));
    changes := changes + more;
  }

  method DiffCanvasDocuments(before: Value, after: Value) returns (changes: seq<Change>)
    ensures changes == Diff(before, after)
  {
    changes := [];
    var beforePages, afterPages := PagesOf(before), PagesOf(after);
    var ids := AllIds(beforePages, afterPages);
    ghost var diff := PageDiffs(beforePages, afterPages);
    for k := 0 to |ids|
      invariant changes == Concat(diff, ids[..k])
    {
      ConcatStep(diff, ids, k);
      var more := DiffPage(beforePages, afterPages, ids[k]);
      changes := changes + more;
    }
    assert ids[..|ids|] == ids;
  }

  // ---------------------------------------------------------------------------------------------
  // Sound and complete
  // ---------------------------------------------------------------------------------------------

  ghost predicate UniqueIds(list: seq<Identified>) {
    forall i, j :: 0 <= i < j < |list| ==> Id(list[i]) != Id(list[j])
  }

  /** Unique ids, and plain elements. */
  ghost predicate ProperList(list: seq<Identified>) {
    UniqueIds(list) && forall i :: 0 <= i < |list| ==> Plain(list[i])
  }

  ghost predicate ProperPages(pages: seq<Identified>) {
    ProperList(pages) && forall p :: p in pages ==> UniqueIds(ElementsOf(Some(p)))
  }

  /** Equal fields other than the elements, and equal identified elements in the same order. */
  ghost predicate SamePage(p: Identified, q: Identified) {
    && Id(p) == Id(q) && (forall key :: key != "elements" ==> SameAt(p, q, key))
    && SameElements(ElementsOf(Some(p)), ElementsOf(Some(q)))
  }

  ghost predicate SameElements(a: seq<Identified>, b: seq<Identified>) {
    |a| == |b| && forall i :: 0 <= i < |a| ==> StructureOf(a[i]) == StructureOf(b[i])
  }

  ghost predicate SamePages(a: seq<Identified>, b: seq<Identified>) {
    |a| == |b| && forall i :: 0 <= i < |a| ==> SamePage(a[i], b[i])
  }

  lemma {:induction false} UnequalAreUnequal(a: Value, b: Value, keys: seq<string>)
    requires a.Obj? && b.Obj?
    ensures forall key :: key in Unequal(a, b, keys) <==> key in keys && !EqualAt(a, b, key)
  {
    if keys == [] {
    } else {
      UnequalAreUnequal(a, b, keys[..|keys| - 1]);
      assert keys == keys[..|keys| - 1] + [keys[|keys| - 1]];
    }
  }

  /** The changed fields are exactly those in which the two objects differ. */
  lemma ChangedFieldsDiffer(a: Value, b: Value, key: string)
    requires a.Obj? && b.Obj? && Plain(a) && Plain(b)
    ensures key in ChangedFields(a, b) <==> !SameAt(a, b, key)
  {
    var keys := Distinct(KeysOf(a.fields) + KeysOf(b.fields));
    UnequalAreUnequal(a, b, keys);
    DistinctKeeps(KeysOf(a.fields) + KeysOf(b.fields));
    EqualAtIsSameStructure(a, b, key);
    KeyInKeys(a.fields, key);
    KeyInKeys(b.fields, key);
  }

  lemma {:induction false} ExceptKeeps(s: seq<string>, x: string)
    ensures forall y :: y in Except(s, x) <==> y in s && y != x
  {
    if s == [] {
    } else {
      ExceptKeeps(s[..|s| - 1], x);
      assert s == s[..|s| - 1] + [s[|s| - 1]];
    }
  }

  lemma NoneIsEmpty(s: seq<string>)
    ensures s == [] <==> forall x :: x !in s
  {
    if s != [] {
      assert s[0] in s;
    }
  }

  lemma {:induction false} FirstIsThere(list: seq<Identified>, id: string)
    ensures FirstWith(list, id).Some? <==> id in Ids(list)
  {
    if list == [] {
    } else {
      FirstIsThere(list[1..], id);
      assert Ids(list) == [Id(list[0])] + Ids(list[1..]);
    }
  }

  lemma {:induction false} LastIsThere(list: seq<Identified>, id: string)
    ensures LastWith(list, id).Some? <==> id in Ids(list)
  {
    if list == [] {
    } else {
      LastIsThere(list[..|list| - 1], id);
      assert Ids(list) == Ids(list[..|list| - 1]) + [Id(list[|list| - 1])];
    }
  }

  /** With unique ids an item is found where it stands. */
  lemma FoundInPlace(list: seq<Identified>, i: nat)
    requires UniqueIds(list) && i < |list|
    ensures FirstWith(list, Id(list[i])) == Some(i) && LastWith(list, Id(list[i])) == Some(i) && Id(list[i]) in Ids(list)
  {
    assert Ids(list)[i] == Id(list[i]);
    FirstIsThere(list, Id(list[i]));
    LastIsThere(list, Id(list[i]));
  }

  lemma InAllIds(a: seq<Identified>, b: seq<Identified>, id: string)
    ensures id in AllIds(a, b) <==> id in Ids(a) || id in Ids(b)
  {
    DistinctKeeps(Ids(a) + Ids(b));
  }

  lemma {:induction false} NoChangesAtAll(diff: string -> seq<Change>, ids: seq<string>)
    ensures Concat(diff, ids) == [] <==> forall id :: id in ids ==> diff(id) == []
  {
    if ids == [] {
    } else {
      NoChangesAtAll(diff, ids[..|ids| - 1]);
      assert ids == ids[..|ids| - 1] + [ids[|ids| - 1]];
    }
  }

  lemma SameObjects(a: Identified, b: Identified)
    requires Plain(a) && Plain(b)
    ensures ChangedFields(a, b) == [] <==> StructureOf(a) == StructureOf(b)
  {
    NoneIsEmpty(ChangedFields(a, b));
    forall key
      ensures key in ChangedFields(a, b) <==> !SameAt(a, b, key)
    {
      ChangedFieldsDiffer(a, b, key);
    }
    MapsAgree(a, b);
  }

  lemma IdIsText(v: Identified)
    ensures StructureAt(v, "id") == Text(Id(v))
  {
  }

  lemma SameStructureSameId(a: Identified, b: Identified)
    requires StructureOf(a) == StructureOf(b)
    ensures Id(a) == Id(b)
  {
    MapsAgree(a, b);
    assert SameAt(a, b, "id");
    IdIsText(a);
    IdIsText(b);
  }

  // Elements -------------------------------------------------------------------------------------

  lemma NotCompared(page: string, element: Option<string>, i: Option<nat>, j: Option<nat>, fields: seq<string>)
    ensures Compared(page, element, i, j, fields) == [] <==> i.Some? && i == j && fields == []
  {
  }

  lemma NoElementDiff(page: string, a: seq<Identified>, b: seq<Identified>, i: nat, j: nat)
    requires i < |a| && j < |b| && LastWith(a, Id(a[i])) == Some(i) && LastWith(b, Id(a[i])) == Some(j) && Plain(a[i]) && Plain(b[j])
    ensures ElementDiff(page, a, b, Id(a[i])) == [] <==> i == j && StructureOf(a[i]) == StructureOf(b[j])
  {
    SameObjects(a[i], b[j]);
    NotCompared(page, Some(Id(a[i])), Some(i), Some(j), ChangedFields(a[i], b[j]));
  }

  lemma ElementInPlace(page: string, a: seq<Identified>, b: seq<Identified>, i: nat)
    requires ProperList(a) && ProperList(b) && i < |a|
    ensures ElementDiff(page, a, b, Id(a[i])) == [] <==> i < |b| && StructureOf(a[i]) == StructureOf(b[i])
  {
    FoundInPlace(a, i);
    var j := LastWith(b, Id(a[i]));
    if i < |b| && StructureOf(a[i]) == StructureOf(b[i]) {
      SameStructureSameId(a[i], b[i]);
      FoundInPlace(b, i);
    }
    if j.Some? {
      NoElementDiff(page, a, b, i, j.value);
    }
  }

  lemma NewElementShows(page: string, a: seq<Identified>, b: seq<Identified>, j: nat)
    requires UniqueIds(b) && j < |b| && ElementDiff(page, a, b, Id(b[j])) == []
    ensures j < |a|
  {
  }

  lemma ElementIsKept(page: string, a: seq<Identified>, b: seq<Identified>, i: nat)
    requires ProperList(a) && ProperList(b) && i < |a| && forall id :: id in AllIds(a, b) ==> ElementDiff(page, a, b, id) == []
    ensures i < |b| && StructureOf(a[i]) == StructureOf(b[i])
  {
    FoundInPlace(a, i);
    InAllIds(a, b, Id(a[i]));
    ElementInPlace(page, a, b, i);
  }

  lemma NoElementChange(page: string, a: seq<Identified>, b: seq<Identified>)
    requires ProperList(a) && ProperList(b) && forall id :: id in AllIds(a, b) ==> ElementDiff(page, a, b, id) == []
    ensures SameElements(a, b)
  {
    if |b| < |a| {
      ElementIsKept(page, a, b, |b|);
    }
    forall i | 0 <= i < |a|
      ensures i < |b| && StructureOf(a[i]) == StructureOf(b[i])
    {
      ElementIsKept(page, a, b, i);
    }
    if |a| < |b| {
      FoundInPlace(b, |a|);
      InAllIds(a, b, Id(b[|a|]));
      NewElementShows(page, a, b, |a|);
    }
  }

  lemma SameElementsSameIds(a: seq<Identified>, b: seq<Identified>)
    requires SameElements(a, b)
    ensures Ids(a) == Ids(b)
  {
    forall i | 0 <= i < |a|
      ensures Ids(a)[i] == Ids(b)[i]
    {
      SameStructureSameId(a[i], b[i]);
    }
  }

  /** Elements: no change is reported exactly when both lists hold equal elements in the same order. */
  lemma NoChangeMeansSameElements(page: string, a: seq<Identified>, b: seq<Identified>)
    requires ProperList(a) && ProperList(b)
    ensures ElementsDiff(page, a, b) == [] <==> SameElements(a, b)
  {
    NoChangesAtAll(ElementDiffs(page, a, b), AllIds(a, b));
    if ElementsDiff(page, a, b) == [] {
      forall id | id in AllIds(a, b)
        ensures ElementDiff(page, a, b, id) == []
      {
        assert ElementDiffs(page, a, b)(id) == [];
      }
      NoElementChange(page, a, b);
    }
    if SameElements(a, b) {
      SameElementsSameIds(a, b);
      forall id | id in AllIds(a, b)
        ensures ElementDiffs(page, a, b)(id) == []
      {
        InAllIds(a, b, id);
        var i :| 0 <= i < |a| && Ids(a)[i] == id;
        ElementInPlace(page, a, b, i);
      }
    }
  }

  lemma {:induction false} IdentifiedArePlain(items: seq<Value>)
    requires forall i :: 0 <= i < |items| ==> Plain(items[i])
    ensures forall i :: 0 <= i < |IdentifiedOnes(items)| ==> Plain(IdentifiedOnes(items)[i])
  {
    if items == [] {
    } else {
      IdentifiedArePlain(items[..|items| - 1]);
    }
  }

  lemma ElementsArePlain(page: Identified)
    requires Plain(page)
    ensures forall i :: 0 <= i < |ElementsOf(Some(page))| ==> Plain(ElementsOf(Some(page))[i])
  {
    var items := Get(page, "elements");
    if items.Arr? {
      assert Plain(items);
      IdentifiedArePlain(items.items);
    }
  }

  // Pages ----------------------------------------------------------------------------------------

  lemma SameFields(p: Identified, q: Identified)
    requires Plain(p) && Plain(q)
    ensures Except(ChangedFields(p, q), "elements") == [] <==> forall key :: key != "elements" ==> SameAt(p, q, key)
  {
    NoneIsEmpty(Except(ChangedFields(p, q), "elements"));
    ExceptKeeps(ChangedFields(p, q), "elements");
    forall key
      ensures key in ChangedFields(p, q) <==> !SameAt(p, q, key)
    {
      ChangedFieldsDiffer(p, q, key);
    }
  }

  lemma PageAgainst(id: string, p: Identified, q: Identified)
    requires Plain(p) && Plain(q) && UniqueIds(ElementsOf(Some(p))) && UniqueIds(ElementsOf(Some(q))) && Id(p) == Id(q)
    ensures Except(ChangedFields(p, q), "elements") == [] && ElementsDiff(id, ElementsOf(Some(p)), ElementsOf(Some(q))) == []
       <==> SamePage(p, q)
  {
    ElementsArePlain(p);
    ElementsArePlain(q);
    NoChangeMeansSameElements(id, ElementsOf(Some(p)), ElementsOf(Some(q)));
    SameFields(p, q);
  }

  lemma NoPageDiff(a: seq<Identified>, b: seq<Identified>, i: nat, j: nat)
    requires i < |a| && j < |b| && FirstWith(a, Id(a[i])) == Some(i) && FirstWith(b, Id(a[i])) == Some(j)
    requires Plain(a[i]) && Plain(b[j]) && UniqueIds(ElementsOf(Some(a[i]))) && UniqueIds(ElementsOf(Some(b[j])))
    ensures PageDiff(a, b, Id(a[i])) == [] <==> i == j && SamePage(a[i], b[j])
  {
    var id, p, q := Id(a[i]), a[i], b[j];
    var head := Compared(id, None, Some(i), Some(j), Except(ChangedFields(p, q), "elements"));
    NotCompared(id, None, Some(i), Some(j), Except(ChangedFields(p, q), "elements"));
    PageAgainst(id, p, q);
    assert PageDiff(a, b, id) == head + ElementsDiff(id, ElementsOf(Some(p)), ElementsOf(Some(q)));
  }

  lemma PageInPlace(a: seq<Identified>, b: seq<Identified>, i: nat)
    requires ProperPages(a) && ProperPages(b) && i < |a|
    ensures PageDiff(a, b, Id(a[i])) == [] <==> i < |b| && SamePage(a[i], b[i])
  {
    FoundInPlace(a, i);
    var j := FirstWith(b, Id(a[i]));
    if i < |b| && SamePage(a[i], b[i]) {
      FoundInPlace(b, i);
    }
    if j.Some? {
      assert a[i] in a && b[j.value] in b;
      NoPageDiff(a, b, i, j.value);
    }
  }

  lemma PageIsKept(a: seq<Identified>, b: seq<Identified>, i: nat)
    requires ProperPages(a) && ProperPages(b) && i < |a| && forall id :: id in AllIds(a, b) ==> PageDiff(a, b, id) == []
    ensures i < |b| && SamePage(a[i], b[i])
  {
    FoundInPlace(a, i);
    InAllIds(a, b, Id(a[i]));
    PageInPlace(a, b, i);
  }

  lemma NoPageChange(a: seq<Identified>, b: seq<Identified>)
    requires ProperPages(a) && ProperPages(b) && forall id :: id in AllIds(a, b) ==> PageDiff(a, b, id) == []
    ensures SamePages(a, b)
  {
    if |b| < |a| {
      PageIsKept(a, b, |b|);
    }
    forall i | 0 <= i < |a|
      ensures i < |b| && SamePage(a[i], b[i])
    {
      PageIsKept(a, b, i);
    }
    if |a| < |b| {
      FoundInPlace(b, |a|);
      InAllIds(a, b, Id(b[|a|]));
    }
  }

  /** The change list is empty exactly when the identified pages agree in order, in their fields, and in their identified
      elements in order. */
  lemma NoChangeMeansSameCanvas(before: Value, after: Value)
    requires ProperPages(PagesOf(before)) && ProperPages(PagesOf(after))
    ensures Diff(before, after) == [] <==> SamePages(PagesOf(before), PagesOf(after))
  {
    var a, b := PagesOf(before), PagesOf(after);
    NoChangesAtAll(PageDiffs(a, b), AllIds(a, b));
    if Diff(before, after) == [] {
      forall id | id in AllIds(a, b)
        ensures PageDiff(a, b, id) == []
      {
        assert PageDiffs(a, b)(id) == [];
      }
      NoPageChange(a, b);
    }
    if SamePages(a, b) {
      forall id | id in AllIds(a, b)
        ensures PageDiffs(a, b)(id) == []
      {
        SamePageNoChange(a, b, id);
      }
    }
  }

  lemma SamePagesSameIds(a: seq<Identified>, b: seq<Identified>)
    requires SamePages(a, b)
    ensures Ids(a) == Ids(b)
  {
  }

  lemma SamePageNoChange(a: seq<Identified>, b: seq<Identified>, id: string)
    requires ProperPages(a) && ProperPages(b) && SamePages(a, b) && id in AllIds(a, b)
    ensures PageDiff(a, b, id) == []
  {
    InAllIds(a, b, id);
    SamePagesSameIds(a, b);
    var i :| 0 <= i < |a| && Ids(a)[i] == id;
    PageInPlace(a, b, i);
  }
}
