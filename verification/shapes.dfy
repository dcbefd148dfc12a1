/** Schema shapes (Definition/Shape.php): a named node of the service's type graph,
    a variant tag, and the raw record it was built from. */
module Shapes {
  import opened Base

  /** The shape classes. The factory builds the first four; exception shapes
      only ever come out of the shape locator. */
  datatype Kind = PlainShape | StructureShape | ListShape | MapShape | ExceptionShape

  /** A shape: its variant, the name it was created under, and its raw record
      (the keys `type`, `_documentation`, `members`, `required`, ...). */
  datatype Shape = Shape(kind: Kind, name: string, data: map<string, Value>)

  /** Tag constants the factory dispatches on. */
  const StructureTag: string := "structure"
  const ListTag: string := "list"
  const MapTag: string := "map"

  /** The raw record carries a string `type` tag. */
  predicate HasTypeTag(data: map<string, Value>) {
    "type" in data && data["type"].Str?
  }

  function TypeTag(data: map<string, Value>): string
    requires HasTypeTag(data)
  {
    data["type"].s
  }

  /** Record-shaped: a structure, or an exception (which is a structure that
      stands for an error response). */
  predicate IsStructure(s: Shape) {
    s.kind == StructureShape || s.kind == ExceptionShape
  }

  predicate IsException(s: Shape) {
    s.kind == ExceptionShape
  }

  /** `Shape::create`: picks the variant from the `type` tag and keeps the name
      and the record unchanged. Every tag other than the three named ones gives
      a plain shape, so the factory never fails. */
  function Create(name: string, data: map<string, Value>): (s: Shape)
    requires HasTypeTag(data)
    ensures s.name == name && s.data == data
    ensures s.kind == StructureShape <==> TypeTag(data) == StructureTag
    ensures s.kind == ListShape <==> TypeTag(data) == ListTag
    ensures s.kind == MapShape <==> TypeTag(data) == MapTag
    ensures s.kind == PlainShape <==> TypeTag(data) !in {StructureTag, ListTag, MapTag}
    ensures !IsException(s)
  {
    var tag := TypeTag(data);
    var kind :=
      if tag == StructureTag then StructureShape
      else if tag == ListTag then ListShape
      else if tag == MapTag then MapShape
      else PlainShape;
    Shape(kind, name, data)
  }

  function GetName(s: Shape): string {
    s.name
  }

  /** `getType`: the record's `type` tag. */
  function GetType(s: Shape): string
    requires HasTypeTag(s.data)
  {
    TypeTag(s.data)
  }

  /** `get`: the raw attribute `key`, or nothing when the record has none. */
  function Get(s: Shape, key: string): (r: Option<Value>)
    ensures r.Some? <==> key in s.data
    ensures r.Some? ==> r.value == s.data[key]
  {
    if key in s.data then Some(s.data[key]) else None
  }

  /** `getDocumentation`: the raw `_documentation` attribute, with no default. */
  function GetDocumentation(s: Shape): Option<Value> {
    if "_documentation" in s.data then Some(s.data["_documentation"]) else None
  }

  /** The tag a variant is built from, for the variants the factory builds. */
  function KindTag(k: Kind): Option<string> {
    match k
    case StructureShape => Some(StructureTag)
    case ListShape => Some(ListTag)
    case MapShape => Some(MapTag)
    case PlainShape => None
    case ExceptionShape => None
  }

  /** What the accessors of a freshly created shape report: the name it was
      created under, the tag it was created from, and exactly the attributes
      of its record; the documentation is the `_documentation` attribute. */
  lemma CreateAccessors(name: string, data: map<string, Value>, key: string)
    requires HasTypeTag(data)
    ensures GetName(Create(name, data)) == name
    ensures GetType(Create(name, data)) == TypeTag(data)
    ensures Get(Create(name, data), key) == (if key in data then Some(data[key]) else None)
    ensures GetDocumentation(Create(name, data)) == Get(Create(name, data), "_documentation")
  {
  }

  /** The variant of a created shape agrees with what `getType` reports: a
      structure, list or map shape reports exactly its own tag, and a plain
      shape reports some other tag. */
  lemma CreatedKindAgreesWithType(name: string, data: map<string, Value>)
    requires HasTypeTag(data)
    ensures var s := Create(name, data);
      (KindTag(s.kind).Some? ==> KindTag(s.kind).value == GetType(s)) &&
      (KindTag(s.kind).None? <==> GetType(s) !in {StructureTag, ListTag, MapTag})
  {
  }

  /** Two records with the same tag give the same variant, whatever else they
      hold and whatever name they are created under. */
  lemma SameTagSameKind(n1: string, d1: map<string, Value>, n2: string, d2: map<string, Value>)
    requires HasTypeTag(d1) && HasTypeTag(d2)
    ensures Create(n1, d1).kind == Create(n2, d2).kind <==>
      (TypeTag(d1) == TypeTag(d2) ||
       (TypeTag(d1) !in {StructureTag, ListTag, MapTag} && TypeTag(d2) !in {StructureTag, ListTag, MapTag}))
  {
  }
}
