/** RuntimeTypeMapper.mapTypeToJvmDesc: a resolved Kotlin type to the JVM
    field descriptor it is compiled to (section 4.3.2 of the Java Virtual
    Machine Specification). */
module TypeMapper {
  import opened Names
  import opened Descriptors
  import opened Primitives
  import opened KotlinTypes
  import opened Registration

  /** IntrinsicObjects.mapType: the fixed JVM class of an intrinsic
      companion object, keyed by the object's fully-qualified name. */
  type Intrinsics = map<FqName, FqName>

  predicate ValidIntrinsics(intrinsics: Intrinsics)
  {
    forall k :: k in intrinsics ==> ValidSegments(intrinsics[k])
  }

  /** The descriptor of a class type, in the source's order: primitive,
      primitive array, registration table, intrinsic companion object,
      the class's own id. */
  function MapClassToJvmDesc(table: Table, intrinsics: Intrinsics, cls: ClassDesc, nullable: bool): (r: string)
    ensures DescriptorValues(table) && ValidIntrinsics(intrinsics) && ValidClassId(cls.classId) ==> IsFieldDescriptor(r)
    ensures ObjectShapedValues(table) ==> |r| >= 1
    ensures nullable && ObjectShapedValues(table) ==> |r| >= 2
  {
    var fq := cls.fqName;
    match PrimitiveByFqName(fq)
    case Some(p) =>
      if nullable then WrapperDesc(p) else [BaseTypeChar(p)]
    case None =>
      match PrimitiveByArrayFqName(fq)
      case Some(p) =>
        ArrayOfFieldDescriptor([BaseTypeChar(p)]);
        "[" + [BaseTypeChar(p)]
      case None =>
        if fq in table then table[fq]
        else if cls.isCompanion && fq in intrinsics then
          DescIsFieldDescriptor(TopLevel(intrinsics[fq]));
          Desc(TopLevel(intrinsics[fq]))
        else
          DescIsFieldDescriptor(cls.classId);
          Desc(cls.classId)
  }

  /** The source's mapTypeToJvmDesc, as written. Every result is a field
      descriptor when the names it is built from are valid. */
  function MapTypeToJvmDesc(table: Table, intrinsics: Intrinsics, t: KType): (r: string)
    requires WellFormed(t)
    ensures DescriptorValues(table) && ValidIntrinsics(intrinsics) && ValidNames(t) ==> IsFieldDescriptor(r)
    ensures ObjectShapedValues(table) ==> |r| >= 1
    decreases Size(t)
  {
    match t
    case TypeParamRef(bounds, _) =>
      MapTypeToJvmDesc(table, intrinsics, bounds[0])
    case ArrayOf(elem, _) =>
      var d := MapTypeToJvmDesc(table, intrinsics, MakeNullable(elem));
      assert ("[" + d)[1..] == d;
      "[" + d
    case ClassType(cls, nullable) =>
      MapClassToJvmDesc(table, intrinsics, cls, nullable)
  }

  /** The name of one of the builtin primitive or primitive-array classes. */
  predicate IsPrimitiveName(fq: FqName)
  {
    exists p :: fq == PrimitiveFqName(p) || fq == PrimitiveArrayFqName(p)
  }

  lemma NotPrimitiveName(fq: FqName)
    requires !IsPrimitiveName(fq)
    ensures PrimitiveByFqName(fq).None? && PrimitiveByArrayFqName(fq).None?
  {
    match PrimitiveByFqName(fq)
    case Some(p) => PrimitiveByFqNameInverse(fq, p);
    case None =>
    match PrimitiveByArrayFqName(fq)
    case Some(p) => PrimitiveByArrayFqNameInverse(fq, p);
    case None =>
  }

  /** A type parameter resolves to whatever its chain of first upper bounds
      ends in, however long the chain. */
  lemma {:induction false} TypeParamResolvesToBound(table: Table, intrinsics: Intrinsics, t: KType)
    requires WellFormed(t)
    ensures MapTypeToJvmDesc(table, intrinsics, t) == MapTypeToJvmDesc(table, intrinsics, RepresentativeBound(t))
    decreases Size(t)
  {
    if t.TypeParamRef? {
      TypeParamResolvesToBound(table, intrinsics, t.bounds[0]);
    }
  }

  /** A non-nullable primitive class type maps to its base-type character and
      a nullable one to its wrapper class; the two never coincide, and
      neither the table nor the intrinsics are consulted. */
  lemma PrimitiveTypeDesc(table: Table, intrinsics: Intrinsics, cls: ClassDesc, p: PrimitiveKind)
    requires cls.fqName == PrimitiveFqName(p)
    ensures MapTypeToJvmDesc(table, intrinsics, ClassType(cls, false)) == [BaseTypeChar(p)]
    ensures MapTypeToJvmDesc(table, intrinsics, ClassType(cls, true)) == WrapperDesc(p)
    ensures MapTypeToJvmDesc(table, intrinsics, ClassType(cls, false)) != MapTypeToJvmDesc(table, intrinsics, ClassType(cls, true))
  {
    PrimitiveByFqNameInverse(cls.fqName, p);
  }

  /** A primitive-array class type maps to one '[' and the raw base type,
      whether or not it is nullable. */
  lemma PrimitiveArrayTypeDesc(table: Table, intrinsics: Intrinsics, cls: ClassDesc, p: PrimitiveKind, nullable: bool)
    requires cls.fqName == PrimitiveArrayFqName(p)
    ensures MapTypeToJvmDesc(table, intrinsics, ClassType(cls, nullable)) == ['[', BaseTypeChar(p)]
  {
    PrimitiveNamesDisjoint(cls.fqName);
    PrimitiveByArrayFqNameInverse(cls.fqName, p);
  }

  /** `Array<E>` maps to '[' followed by the descriptor of `E?`: the
      nullability of the element and of the array itself do not matter. */
  lemma ArrayElementNullabilityIgnored(table: Table, intrinsics: Intrinsics, elem: KType, n1: bool, n2: bool)
    requires WellFormed(elem)
    ensures MapTypeToJvmDesc(table, intrinsics, ArrayOf(elem, n1))
         == MapTypeToJvmDesc(table, intrinsics, ArrayOf(MakeNullable(elem), n2))
    ensures MapTypeToJvmDesc(table, intrinsics, ArrayOf(elem, n1))
         == "[" + MapTypeToJvmDesc(table, intrinsics, MakeNullable(elem))
  {
  }

  /** `Array<Int>` and `Array<Int?>` both map to '[' and the wrapper class,
      which differs from what `IntArray` maps to. */
  lemma ArrayOfPrimitiveIsBoxed(table: Table, intrinsics: Intrinsics, cls: ClassDesc, arrayCls: ClassDesc,
                                p: PrimitiveKind, n1: bool, n2: bool)
    requires cls.fqName == PrimitiveFqName(p) && arrayCls.fqName == PrimitiveArrayFqName(p)
    ensures MapTypeToJvmDesc(table, intrinsics, ArrayOf(ClassType(cls, n1), n2)) == "[" + WrapperDesc(p)
    ensures MapTypeToJvmDesc(table, intrinsics, ArrayOf(ClassType(cls, n1), n2))
         != MapTypeToJvmDesc(table, intrinsics, ClassType(arrayCls, n2))
  {
    PrimitiveTypeDesc(table, intrinsics, cls, p);
    PrimitiveArrayTypeDesc(table, intrinsics, arrayCls, p, n2);
    assert ("[" + WrapperDesc(p))[1] == 'L';
  }

  /** A registered name resolves through the table, whether or not the class
      is also an intrinsic companion object. */
  lemma RegisteredNameWins(table: Table, intrinsics: Intrinsics, cls: ClassDesc, nullable: bool)
    requires !IsPrimitiveName(cls.fqName) && cls.fqName in table
    ensures MapTypeToJvmDesc(table, intrinsics, ClassType(cls, nullable)) == table[cls.fqName]
  {
    NotPrimitiveName(cls.fqName);
  }

  /** An unregistered class goes to its intrinsic JVM class only when it is
      a companion object with an intrinsic mapping, and to its own class id
      otherwise. */
  lemma UnregisteredClassDesc(table: Table, intrinsics: Intrinsics, cls: ClassDesc, nullable: bool)
    requires !IsPrimitiveName(cls.fqName) && cls.fqName !in table
    ensures cls.isCompanion && cls.fqName in intrinsics ==>
              MapTypeToJvmDesc(table, intrinsics, ClassType(cls, nullable)) == "L" + Join(intrinsics[cls.fqName], '/') + ";"
    ensures !(cls.isCompanion && cls.fqName in intrinsics) ==>
              MapTypeToJvmDesc(table, intrinsics, ClassType(cls, nullable)) == "L" + InternalName(cls.classId) + ";"
  {
    NotPrimitiveName(cls.fqName);
    if cls.isCompanion && cls.fqName in intrinsics {
      DescOfTopLevel(intrinsics[cls.fqName]);
    }
  }

  /** Round trip through the registration table: a class whose name was
      last registered against a Java class maps to that Java class's
      descriptor. */
  lemma RegisteredClassRoundTrip(events: seq<Registration>, intrinsics: Intrinsics, cls: ClassDesc, nullable: bool, i: nat)
    requires !IsPrimitiveName(cls.fqName)
    requires i < |events| && cls.fqName in Written(events[i])
    requires forall j :: i < j < |events| ==> cls.fqName !in Written(events[j])
    ensures MapTypeToJvmDesc(BuildTable(events), intrinsics, ClassType(cls, nullable)) == Desc(events[i].javaClassId)
  {
    FoldLastWriteWins(map[], events, cls.fqName, i);
    RegisteredNameWins(BuildTable(events), intrinsics, cls, nullable);
  }

  /** Only a non-nullable primitive class, reached through any chain of
      type-parameter bounds, maps to a one-character descriptor. */
  lemma {:induction false} BaseTypeExactlyForNonNullPrimitives(table: Table, intrinsics: Intrinsics, t: KType)
    requires WellFormed(t) && ObjectShapedValues(table)
    ensures |MapTypeToJvmDesc(table, intrinsics, t)| == 1 <==>
            (var b := RepresentativeBound(t); b.ClassType? && !b.nullable && PrimitiveByFqName(b.cls.fqName).Some?)
    decreases Size(t)
  {
    match t
    case TypeParamRef(bounds, _) =>
      BaseTypeExactlyForNonNullPrimitives(table, intrinsics, bounds[0]);
    case ArrayOf(_, _) =>
    case ClassType(cls, nullable) =>
      if PrimitiveByFqName(cls.fqName).None? {
        match PrimitiveByArrayFqName(cls.fqName)
        case Some(p) =>
        case None =>
          if cls.fqName in table {
            assert IsObjectShaped(table[cls.fqName]);
          }
      }
  }

  /** The mapping with the nullability of a type-parameter reference carried
      over to its first bound, so that `T?` and the elements of `Array<T>`
      are boxed as `Int?` and the elements of `Array<Int>` are. A nullable
      type never maps to a base type. */
  function MapTypeToJvmDescBoxed(table: Table, intrinsics: Intrinsics, t: KType): (r: string)
    requires WellFormed(t)
    ensures DescriptorValues(table) && ValidIntrinsics(intrinsics) && ValidNames(t) ==> IsFieldDescriptor(r)
    ensures ObjectShapedValues(table) ==> |r| >= 1
    ensures ObjectShapedValues(table) && t.nullable ==> |r| >= 2
    decreases Size(t)
  {
    match t
    case TypeParamRef(bounds, nullable) =>
      MapTypeToJvmDescBoxed(table, intrinsics, if nullable then MakeNullable(bounds[0]) else bounds[0])
    case ArrayOf(elem, _) =>
      var d := MapTypeToJvmDescBoxed(table, intrinsics, MakeNullable(elem));
      assert ("[" + d)[1..] == d;
      "[" + d
    case ClassType(cls, nullable) =>
      MapClassToJvmDesc(table, intrinsics, cls, nullable)
  }

  /** No type parameter is met along array elements. */
  predicate NoTypeParams(t: KType)
  {
    match t
    case TypeParamRef(_, _) => false
    case ArrayOf(elem, _) => NoTypeParams(elem)
    case ClassType(_, _) => true
  }

  /** The boxing mapping differs from the source's only where a type
      parameter is involved. */
  lemma {:induction false} BoxedAgreesWithoutTypeParams(table: Table, intrinsics: Intrinsics, t: KType)
    requires WellFormed(t) && NoTypeParams(t)
    ensures MapTypeToJvmDescBoxed(table, intrinsics, t) == MapTypeToJvmDesc(table, intrinsics, t)
    decreases Size(t)
  {
    if t.ArrayOf? {
      BoxedAgreesWithoutTypeParams(table, intrinsics, MakeNullable(t.elem));
    }
  }

  /** Under the boxing mapping a nullable type always gets a reference
      descriptor: an object descriptor `L…;` or an array descriptor `[…`. */
  lemma {:induction false} BoxedNullableIsReference(table: Table, intrinsics: Intrinsics, t: KType)
    requires WellFormed(t) && t.nullable && ObjectShapedValues(table)
    ensures var d := MapTypeToJvmDescBoxed(table, intrinsics, t);
            |d| >= 2 && (d[0] == 'L' || d[0] == '[')
    decreases Size(t)
  {
    match t
    case TypeParamRef(bounds, _) =>
      assert MapTypeToJvmDescBoxed(table, intrinsics, t)
          == MapTypeToJvmDescBoxed(table, intrinsics, MakeNullable(bounds[0]));
      BoxedNullableIsReference(table, intrinsics, MakeNullable(bounds[0]));
    case ArrayOf(_, _) =>
    case ClassType(cls, _) =>
      if cls.fqName in table {
        assert IsObjectShaped(table[cls.fqName]);
      }
  }

  /** The elements of an array are never given a base-type descriptor by the
      boxing mapping: `Array<E>` always maps to '[' and an object or array
      descriptor. */
  lemma BoxedArrayElementIsReference(table: Table, intrinsics: Intrinsics, elem: KType, nullable: bool)
    requires WellFormed(elem) && ObjectShapedValues(table)
    ensures var d := MapTypeToJvmDescBoxed(table, intrinsics, ArrayOf(elem, nullable));
            |d| >= 3 && d[0] == '[' && (d[1] == 'L' || d[1] == '[')
  {
    assert MapTypeToJvmDescBoxed(table, intrinsics, ArrayOf(elem, nullable))
        == "[" + MapTypeToJvmDescBoxed(table, intrinsics, MakeNullable(elem));
    BoxedNullableIsReference(table, intrinsics, MakeNullable(elem));
  }

  /** `kotlin.Int` and `kotlin.IntArray` as class types. */
  const IntClass: ClassDesc := ClassDesc(PrimitiveFqName(Int), TopLevel(PrimitiveFqName(Int)), false)

  const IntArrayClass: ClassDesc := ClassDesc(PrimitiveArrayFqName(Int), TopLevel(PrimitiveArrayFqName(Int)), false)

  /** The wrapper of `Int` is `java.lang.Integer`. */
  lemma IntegerWrapper()
    ensures WrapperDesc(Int) == "Ljava/lang/Integer;"
  {
    JoinThree("java", "lang", "Integer", '/');
  }

  /** A type parameter `T : Int`. */
  const IntBoundedParam: KType := TypeParamRef([ClassType(IntClass, false)], false)

  /** As written, `Array<T>` with `T : Int` maps to "[I", the descriptor of
      `IntArray`, and `T?` maps to the raw "I". */
  lemma TypeParamBoundedByIntIsNotBoxed(table: Table, intrinsics: Intrinsics)
    ensures MapTypeToJvmDesc(table, intrinsics, ArrayOf(IntBoundedParam, false)) == "[I"
    ensures MapTypeToJvmDesc(table, intrinsics, ArrayOf(IntBoundedParam, false))
         == MapTypeToJvmDesc(table, intrinsics, ClassType(IntArrayClass, false))
    ensures MapTypeToJvmDesc(table, intrinsics, MakeNullable(IntBoundedParam)) == "I"
  {
    var bound := ClassType(IntClass, false);
    var tp := TypeParamRef([bound], true);
    assert MakeNullable(IntBoundedParam) == tp;
    assert MapTypeToJvmDesc(table, intrinsics, tp) == MapTypeToJvmDesc(table, intrinsics, [bound][0]);
    PrimitiveTypeDesc(table, intrinsics, IntClass, Int);
    PrimitiveArrayTypeDesc(table, intrinsics, IntArrayClass, Int, false);
  }

  /** The boxing mapping gives `Array<T>` with `T : Int` the same descriptor
      as `Array<Int>`, and `T?` that of `Int?`. */
  lemma TypeParamBoundedByIntIsBoxed(table: Table, intrinsics: Intrinsics)
    ensures MapTypeToJvmDescBoxed(table, intrinsics, MakeNullable(IntBoundedParam)) == WrapperDesc(Int)
    ensures MapTypeToJvmDescBoxed(table, intrinsics, ArrayOf(IntBoundedParam, false))
         == MapTypeToJvmDesc(table, intrinsics, ArrayOf(ClassType(IntClass, false), false))
         == "[" + WrapperDesc(Int)
  {
    var bound := ClassType(IntClass, false);
    var tp := TypeParamRef([bound], true);
    assert MakeNullable(IntBoundedParam) == tp;
    assert MapTypeToJvmDescBoxed(table, intrinsics, tp) == MapTypeToJvmDescBoxed(table, intrinsics, MakeNullable([bound][0]));
    PrimitiveTypeDesc(table, intrinsics, IntClass, Int);
  }
}
