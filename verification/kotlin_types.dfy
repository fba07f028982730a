/** The part of a resolved Kotlin type that the mapper reads: what its
    classifier is, and whether the type is marked nullable. */
module KotlinTypes {
  import opened Names

  /** A declared class, interface or object: its fully-qualified name
      (DescriptorUtils.getFqName), its own class id, and whether it is a
      companion object. */
  datatype ClassDesc = ClassDesc(fqName: FqName, classId: ClassId, isCompanion: bool)

  /** A resolved type. `Array<E>` is always `ArrayOf(E, _)`; the primitive
      array classes such as `IntArray` are ordinary `ClassType`s. */
  datatype KType =
    | TypeParamRef(bounds: seq<KType>, nullable: bool)
    | ArrayOf(elem: KType, nullable: bool)
    | ClassType(cls: ClassDesc, nullable: bool)

  /** Every type parameter met along first bounds and array elements has
      at least one upper bound. */
  predicate WellFormed(t: KType)
  {
    match t
    case TypeParamRef(bounds, _) => |bounds| > 0 && WellFormed(bounds[0])
    case ArrayOf(elem, _) => WellFormed(elem)
    case ClassType(_, _) => true
  }

  /** Every class met along first bounds and array elements has a name and
      an id made of valid unqualified names. */
  predicate ValidNames(t: KType)
  {
    match t
    case TypeParamRef(bounds, _) => |bounds| == 0 || ValidNames(bounds[0])
    case ArrayOf(elem, _) => ValidNames(elem)
    case ClassType(cls, _) => ValidSegments(cls.fqName) && ValidClassId(cls.classId)
  }

  /** The measure on which the mapping recurses. Only the first upper bound
      of a type parameter is ever consulted. */
  function Size(t: KType): nat
  {
    match t
    case TypeParamRef(bounds, _) => 1 + (if |bounds| > 0 then Size(bounds[0]) else 0)
    case ArrayOf(elem, _) => 1 + Size(elem)
    case ClassType(_, _) => 1
  }

  /** TypeUtils.makeNullable: the same type, marked nullable. */
  function MakeNullable(t: KType): (r: KType)
    ensures r.nullable
    ensures Size(r) == Size(t)
    ensures WellFormed(r) == WellFormed(t) && ValidNames(r) == ValidNames(t)
    ensures t.nullable ==> r == t
    ensures r.(nullable := t.nullable) == t
  {
    match t
    case TypeParamRef(bounds, _) => TypeParamRef(bounds, true)
    case ArrayOf(elem, _) => ArrayOf(elem, true)
    case ClassType(cls, _) => ClassType(cls, true)
  }

  /** The type reached by following first upper bounds until the classifier
      is no longer a type parameter. */
  function RepresentativeBound(t: KType): (r: KType)
    requires WellFormed(t)
    ensures !r.TypeParamRef? && WellFormed(r)
    ensures Size(r) <= Size(t)
    ensures !t.TypeParamRef? ==> r == t
    decreases Size(t)
  {
    match t
    case TypeParamRef(bounds, _) => RepresentativeBound(bounds[0])
    case _ => t
  }
}
