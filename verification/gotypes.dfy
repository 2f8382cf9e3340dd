/** The closed world of Go types and values the configuration core works with.
    Reflection (`reflect.Type`, `reflect.Value`) is replaced by a type descriptor
    and a value sum type. */
module GoTypes {

  /** The structural category of a type, `reflect.Type.Kind()`. The kinds the core
      dispatches on have their own constructors; every other kind keeps its Go name
      (`int64`, `struct`, `float64`, ...). */
  datatype Kind = KString | KInt | KBool | KSlice | KMap | KOther(name: string)

  /** `Kind.String()`. */
  function KindName(k: Kind): string
  {
    match k
    case KString => "string"
    case KInt => "int"
    case KBool => "bool"
    case KSlice => "slice"
    case KMap => "map"
    case KOther(name) => name
  }

  /** A type: its name as printed by `reflect.Type.String()` and its kind. */
  datatype GoType = GoType(name: string, kind: Kind)

  /** `time.Duration`, a named type of kind int64. */
  const DurationType: GoType := GoType("time.Duration", KOther("int64"))

  /** A dynamically typed Go value, as held by a valid `reflect.Value`.
      `VString`, `VInt` and `VBool` are values of the builtin types `string`,
      `int` and `bool`; `VDuration` is a `time.Duration` in nanoseconds;
      `VList` and `VMap` are what a structured decoder produces for slices and
      maps; `VZero(t)` is the zero value of a type `t` that has no other
      constructor here (a named type, a nil slice or map, a zero struct). */
  datatype Value =
    | VString(s: string)
    | VInt(i: int)
    | VBool(b: bool)
    | VDuration(nanos: int)
    | VList(elems: seq<Value>)
    | VMap(keys: seq<Value>, vals: seq<Value>)
    | VZero(typ: GoType)

  /** `reflect.Zero(t)`: the zero value of `t`. Only the builtin scalar types and
      `time.Duration` get a concrete value; every other type, named types of a
      builtin kind included, gets `VZero(t)`, which equals no string, int, bool or duration value,
      just as a named type's value never equals a builtin one under Go's `==`. */
  function Zero(t: GoType): (z: Value)
    ensures z.VZero? <==> t !in {GoType("string", KString), GoType("int", KInt), GoType("bool", KBool), DurationType}
    ensures z.VZero? ==> z.typ == t
    ensures t == GoType("string", KString) ==> z == VString("")
    ensures t == GoType("int", KInt) ==> z == VInt(0)
    ensures t == GoType("bool", KBool) ==> z == VBool(false)
    ensures t == DurationType ==> z == VDuration(0)
  {
    if t == GoType("string", KString) then VString("")
    else if t == GoType("int", KInt) then VInt(0)
    else if t == GoType("bool", KBool) then VBool(false)
    else if t == DurationType then VDuration(0)
    else VZero(t)
  }

  /** Whether Go's `==` on two interface values holding this value can run without
      a panic: slices and maps (decoded ones and nil ones alike) cannot be compared. */
  predicate Comparable(v: Value)
  {
    match v
    case VList(_) => false
    case VMap(_, _) => false
    case VZero(t) => t.kind != KSlice && t.kind != KMap
    case _ => true
  }
}
