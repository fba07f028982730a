/** RuntimeTypeMapper.mapJvmClassToKotlinClassId: a JVM class to the id of
    the Kotlin class that stands for it. */
module ClassMapper {
  import opened Optional
  import opened Names
  import opened Descriptors
  import opened Primitives
  import opened KotlinTypes
  import opened Registration
  import opened TypeMapper

  /** A JVM class as reflection reports it: an array class with its
      component class, one of the eight primitive classes, or a class or
      interface with its class id. */
  datatype JvmClass =
    | ArrayClass(component: JvmClass)
    | PrimitiveClass(kind: PrimitiveKind)
    | ObjectClass(classId: ClassId)

  /** JavaToKotlinClassMap.mapJavaToKotlin, as the ids of the Kotlin classes. */
  type JavaToKotlin = map<FqName, ClassId>

  /** InverseIntrinsicObjectsMapping: JVM class to intrinsic companion object. */
  type InverseIntrinsics = map<FqName, ClassId>

  /** The field descriptor the JVM itself gives a class (section 4.3.2 of the
      Java Virtual Machine Specification). */
  function JvmDescriptor(c: JvmClass): (r: string)
    ensures |r| >= 1
    ensures r[0] == '[' <==> c.ArrayClass?
  {
    match c
    case ArrayClass(component) => "[" + JvmDescriptor(component)
    case PrimitiveClass(p) => [BaseTypeChar(p)]
    case ObjectClass(id) => Desc(id)
  }

  /** The private `Class<*>.primitiveType`: the primitive kind of a class,
      when it is one of the primitive classes. */
  function PrimitiveTypeOf(c: JvmClass): (r: Option<PrimitiveKind>)
    ensures r.Some? <==> |JvmDescriptor(c)| == 1
    ensures r.Some? ==> JvmDescriptor(c) == [BaseTypeChar(r.value)]
  {
    if c.PrimitiveClass? then Some(c.kind) else None
  }

  function MapJvmClassToKotlinClassId(javaToKotlin: JavaToKotlin, inverseIntrinsics: InverseIntrinsics, c: JvmClass): (r: ClassId)
    ensures c.PrimitiveClass? ==>
              PrimitiveByFqName(AsSingleFqName(r)) == Some(c.kind) && !r.isLocal && |r.relativeClassName| == 1
    ensures c.ArrayClass? && c.component.PrimitiveClass? ==>
              && PrimitiveByArrayFqName(AsSingleFqName(r)) == Some(c.component.kind)
              && !r.isLocal && |r.relativeClassName| == 1
    ensures c.ArrayClass? && !c.component.PrimitiveClass? ==>
              AsSingleFqName(r) == ArrayFqName && !r.isLocal && |r.relativeClassName| == 1
    ensures c.ObjectClass? && c.classId.isLocal ==> r == c.classId
  {
    if c.ArrayClass? then
      match PrimitiveTypeOf(c.component)
      case Some(p) =>
        PrimitiveByArrayFqNameInverse(PrimitiveArrayFqName(p), p);
        TopLevel(PrimitiveArrayFqName(p))
      case None => TopLevel(ArrayFqName)
    else if PrimitiveTypeOf(c).Some? then
      var p := PrimitiveTypeOf(c).value;
      PrimitiveByFqNameInverse(PrimitiveFqName(p), p);
      TopLevel(PrimitiveFqName(p))
    else
      var id := c.classId;
      if !id.isLocal then
        var fq := AsSingleFqName(id);
        if fq in javaToKotlin then javaToKotlin[fq]
        else if fq in inverseIntrinsics then inverseIntrinsics[fq]
        else id
      else id
  }

  /** Arrays of reference types all map to `kotlin.Array`: the component
      class is erased. */
  lemma ReferenceArraysErased(javaToKotlin: JavaToKotlin, inverseIntrinsics: InverseIntrinsics, c1: JvmClass, c2: JvmClass)
    requires !c1.PrimitiveClass? && !c2.PrimitiveClass?
    ensures MapJvmClassToKotlinClassId(javaToKotlin, inverseIntrinsics, ArrayClass(c1))
         == MapJvmClassToKotlinClassId(javaToKotlin, inverseIntrinsics, ArrayClass(c2))
         == TopLevel(ArrayFqName)
  {
  }

  /** For a non-local class the base map is consulted first, then the
      inverse intrinsic map, and the class's own id is the fallback. */
  lemma ObjectClassLookupOrder(javaToKotlin: JavaToKotlin, inverseIntrinsics: InverseIntrinsics, id: ClassId)
    requires !id.isLocal
    ensures var fq := AsSingleFqName(id);
            var r := MapJvmClassToKotlinClassId(javaToKotlin, inverseIntrinsics, ObjectClass(id));
            && (fq in javaToKotlin ==> r == javaToKotlin[fq])
            && (fq !in javaToKotlin && fq in inverseIntrinsics ==> r == inverseIntrinsics[fq])
            && (fq !in javaToKotlin && fq !in inverseIntrinsics ==> r == id)
  {
  }

  /** A local class keeps its own id even when either map has an entry
      under the same name. */
  lemma LocalClassBypass(javaToKotlin: JavaToKotlin, inverseIntrinsics: InverseIntrinsics, id: ClassId)
    requires id.isLocal
    ensures MapJvmClassToKotlinClassId(javaToKotlin, inverseIntrinsics, ObjectClass(id)) == id
    ensures MapJvmClassToKotlinClassId(map[], map[], ObjectClass(id))
         == MapJvmClassToKotlinClassId(javaToKotlin, inverseIntrinsics, ObjectClass(id))
  {
  }

  /** Every base-type descriptor is the descriptor of a primitive class, so
      the primitive classes are exactly the classes with one-character
      descriptors. */
  lemma BaseTypeIsPrimitiveClass(ch: char)
    requires IsBaseType(ch)
    ensures exists c :: JvmDescriptor(c) == [ch] && PrimitiveTypeOf(c).Some?
  {
    BaseTypeCharSurjective(ch);
    var p :| BaseTypeChar(p) == ch;
    assert JvmDescriptor(PrimitiveClass(p)) == [ch];
  }

  /** The Kotlin class type named by a class id, non-nullable and not a
      companion object. */
  function KotlinTypeOf(id: ClassId): KType
  {
    ClassType(ClassDesc(AsSingleFqName(id), id, false), false)
  }

  /** Reverse then forward gives back the JVM class's own descriptor, for
      primitive classes, primitive arrays, and classes that neither map
      knows and the registration table does not name. */
  lemma ReverseThenForward(table: Table, intrinsics: Intrinsics, javaToKotlin: JavaToKotlin,
                           inverseIntrinsics: InverseIntrinsics, c: JvmClass)
    requires match c
             case ArrayClass(component) => component.PrimitiveClass?
             case PrimitiveClass(_) => true
             case ObjectClass(id) =>
               var fq := AsSingleFqName(id);
               && (id.isLocal || (fq !in javaToKotlin && fq !in inverseIntrinsics))
               && fq !in table && !IsPrimitiveName(fq)
    ensures var r := MapJvmClassToKotlinClassId(javaToKotlin, inverseIntrinsics, c);
            MapTypeToJvmDesc(table, intrinsics, KotlinTypeOf(r)) == JvmDescriptor(c)
  {
    var r := MapJvmClassToKotlinClassId(javaToKotlin, inverseIntrinsics, c);
    var cls := ClassDesc(AsSingleFqName(r), r, false);
    match c
    case ArrayClass(component) =>
      PrimitiveByArrayFqNameInverse(AsSingleFqName(r), component.kind);
      PrimitiveArrayTypeDesc(table, intrinsics, cls, component.kind, false);
    case PrimitiveClass(p) =>
      PrimitiveByFqNameInverse(AsSingleFqName(r), p);
      PrimitiveTypeDesc(table, intrinsics, cls, p);
    case ObjectClass(id) =>
      UnregisteredClassDesc(table, intrinsics, cls, false);
  }
}
