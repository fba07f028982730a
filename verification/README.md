# RuntimeTypeMapper in Dafny

This project models `RuntimeTypeMapper` from Kotlin's JVM reflection runtime. The mapper
translates type identities between Kotlin and the JVM, in both directions.

- **Registration table.** The base Java/Kotlin class-map initializer calls back the two
  `register` overloads. From those calls the mapper builds a map from a Kotlin class's
  fully-qualified name to the JVM descriptor of its Java class. Only registrations meant
  for the Kotlin-to-Java direction write to it. The model is a left fold (`Registration.Fold`,
  `Registration.BuildTable`) over an arbitrary sequence of registration events.
- **`mapTypeToJvmDesc`** (`TypeMapper.MapTypeToJvmDesc`). A resolved Kotlin type becomes a
  field descriptor in the sense of section 4.3.2 of the Java Virtual Machine Specification.
  The checks run in a fixed first-match order:
  1. a type parameter resolves through its first upper bound;
  2. `Array<E>` gives `[` followed by the descriptor of `E?`;
  3. a primitive class gives its base-type character, or its wrapper class when nullable;
  4. a primitive-array class gives `[` and the base type;
  5. otherwise the registration table, then the intrinsic mapping (companion objects only),
     then the class's own id.
- **`mapJvmClassToKotlinClassId`** (`ClassMapper.MapJvmClassToKotlinClassId`). A JVM class
  becomes a Kotlin class id:
  - a primitive array gives the Kotlin primitive-array class;
  - any other array gives `kotlin.Array`;
  - a primitive gives the Kotlin primitive class;
  - a non-local class is looked up first in the base Java-to-Kotlin map, then in the
    inverse intrinsic map;
  - anything else keeps its own id.

Modules:

| module | file | contents |
|---|---|---|
| `Optional` | optional.dfy | the `Option` type for Kotlin's nullable lookup results |
| `Names` | names.dfy | fully-qualified names, `ClassId`, `ClassId.topLevel`, the internal binary name (sections 4.2.1 and 4.2.2 of the Java Virtual Machine Specification) |
| `Descriptors` | descriptors.dfy | the field-descriptor grammar, `ClassId.desc` |
| `Primitives` | primitives.dfy | the eight primitive kinds, their Kotlin class names, base types and wrapper classes |
| `KotlinTypes` | kotlin_types.dfy | class descriptors, resolved types, `makeNullable`, the size measure |
| `Registration` | registration.dfy | the two `register` overloads and the registration fold |
| `TypeMapper` | type_mapper.dfy | `mapTypeToJvmDesc` and its properties, and the boxing correction described under Findings |
| `ClassMapper` | class_mapper.dfy | `mapJvmClassToKotlinClassId`, `Class<*>.primitiveType`, the round trip |

The mapper's own registration table (RuntimeTypeMapper.kt:39) is built by
`Registration.BuildTable` and passed to the mapping functions as a parameter (`Table`).
External collaborators are parameters too:
- `IntrinsicObjects.mapType` (`Intrinsics`, keyed by the companion object's name);
- `JavaToKotlinClassMap` (`JavaToKotlin`);
- `InverseIntrinsicObjectsMapping` (`InverseIntrinsics`).

The Kotlin primitive class names (`kotlin.Int`, `kotlin.IntArray`, …), the base-type
characters `Z C B S I F J D` and the wrapper classes (`java.lang.Integer`, …) are
concrete constants.

## Model

| member | source | states |
|---|---|---|
| Registration.Register | core/reflection.jvm/src/kotlin/reflect/jvm/internal/RuntimeTypeMapper.kt:45-49 | with direction `BOTH` or `KOTLIN_TO_JAVA`, the Kotlin name maps to the descriptor of the Java class id; with any other direction the table is unchanged; every other key keeps its value |
| Registration.RegisterReadOnlyMutable | core/reflection.jvm/src/kotlin/reflect/jvm/internal/RuntimeTypeMapper.kt:51-54 | the read-only and the mutable name both map to the descriptor of the one Java class id; exactly those two keys are added; every other key keeps its value |
| Registration.Apply | core/reflection.jvm/src/kotlin/reflect/jvm/internal/RuntimeTypeMapper.kt:45-54 | one callback adds exactly the names it writes, gives them its Java class's descriptor, and leaves every other entry alone; a Java-to-Kotlin-only callback changes nothing |
| Registration.BuildTable | core/reflection.jvm/src/kotlin/reflect/jvm/internal/RuntimeTypeMapper.kt:39-43 | the initialized table names exactly the classes some registration wrote; every value has the `L…;` shape, and is a well-formed field descriptor when the Java class ids are |
| Registration.FoldKeys | core/reflection.jvm/src/kotlin/reflect/jvm/internal/RuntimeTypeMapper.kt:45-54 | after any sequence of callbacks, the keys are the old keys plus every name some callback wrote |
| Registration.FoldLastWriteWins | core/reflection.jvm/src/kotlin/reflect/jvm/internal/RuntimeTypeMapper.kt:45-54 | a name holds the descriptor of the last registration that wrote it |
| Registration.FoldUntouched | core/reflection.jvm/src/kotlin/reflect/jvm/internal/RuntimeTypeMapper.kt:45-49 | a name that no registration writes keeps its old value |
| Registration.FoldValues | core/reflection.jvm/src/kotlin/reflect/jvm/internal/RuntimeTypeMapper.kt:47 | every value is an old value or the descriptor of some registered Java class |
| Registration.FoldKeepsObjectShape | core/reflection.jvm/src/kotlin/reflect/jvm/internal/RuntimeTypeMapper.kt:47 | registrations only ever store object descriptors `L…;` |
| Registration.FoldKeepsDescriptors | core/reflection.jvm/src/kotlin/reflect/jvm/internal/RuntimeTypeMapper.kt:47 | with valid Java class ids, every stored value is a well-formed field descriptor |
| Registration.BackwardOnlyIgnored | core/reflection.jvm/src/kotlin/reflect/jvm/internal/RuntimeTypeMapper.kt:46 | dropping every Java-to-Kotlin-only registration leaves the resulting table the same |
| Registration.ApplyCommutes | core/reflection.jvm/src/kotlin/reflect/jvm/internal/RuntimeTypeMapper.kt:39 | two registrations that agree on every name they share may be made in either order: the insertion order of the table does not matter |
| Names.TopLevel | core/reflection.jvm/src/kotlin/reflect/jvm/internal/RuntimeTypeMapper.kt:98 | `ClassId.topLevel(fq)` is a non-local class id with a one-segment class name that stands for `fq` |
| Names.InternalNameIsClassName | core/reflection.jvm/src/kotlin/reflect/jvm/internal/RuntimeTypeMapper.kt:121 | a class id made of valid unqualified names has a well-formed internal name: names separated by single `/` |
| Names.InternalNameOfTopLevel | core/reflection.jvm/src/kotlin/reflect/jvm/internal/RuntimeTypeMapper.kt:86 | the internal name of a top-level class is its fully-qualified name with every `.` written as `/` |
| Descriptors.Desc | core/reflection.jvm/src/kotlin/reflect/jvm/internal/RuntimeTypeMapper.kt:120-121 | a class id's descriptor has the object shape `L…;` |
| Descriptors.DescIsFieldDescriptor | core/reflection.jvm/src/kotlin/reflect/jvm/internal/RuntimeTypeMapper.kt:120-121 | the descriptor of a class id made of valid names is a field descriptor in the section 4.3.2 grammar |
| Descriptors.DescOfTopLevel | core/reflection.jvm/src/kotlin/reflect/jvm/internal/RuntimeTypeMapper.kt:86 | the descriptor of `ClassId.topLevel(fq)` is `L`, then `fq` with `/` separators, then `;` |
| Primitives.PrimitiveByFqNameInverse | core/reflection.jvm/src/kotlin/reflect/jvm/internal/RuntimeTypeMapper.kt:73 | the primitive lookup by name finds primitive `p` exactly for the name `kotlin.<P>` |
| Primitives.PrimitiveByArrayFqNameInverse | core/reflection.jvm/src/kotlin/reflect/jvm/internal/RuntimeTypeMapper.kt:78 | the primitive-array lookup by name finds `p` exactly for the name `kotlin.<P>Array` |
| Primitives.PrimitiveNamesDisjoint | core/reflection.jvm/src/kotlin/reflect/jvm/internal/RuntimeTypeMapper.kt:73-80 | no name is both a primitive and a primitive array, and neither is `kotlin.Array`, so the order of the two lookups cannot matter |
| Primitives.WrapperDesc | core/reflection.jvm/src/kotlin/reflect/jvm/internal/RuntimeTypeMapper.kt:75 | the wrapper descriptor is a well-formed object descriptor `Ljava/lang/<Wrapper>;` |
| Primitives.BaseTypeCharInjective | core/reflection.jvm/src/kotlin/reflect/jvm/internal/RuntimeTypeMapper.kt:74-75 | distinct primitives get distinct base-type characters |
| KotlinTypes.MakeNullable | core/reflection.jvm/src/kotlin/reflect/jvm/internal/RuntimeTypeMapper.kt:67 | `makeNullable` gives the same type with only the nullable mark set: classifier, bounds, element and class are kept, so are size and well-formedness (the array recursion terminates); it is idempotent |
| KotlinTypes.RepresentativeBound | core/reflection.jvm/src/kotlin/reflect/jvm/internal/RuntimeTypeMapper.kt:59-61 | following first upper bounds ends in a type that is not a type parameter, no larger than the start |
| TypeMapper.MapClassToJvmDesc | core/reflection.jvm/src/kotlin/reflect/jvm/internal/RuntimeTypeMapper.kt:70-90 | the class-type result is a field descriptor when the names are valid; a nullable class type never gets a one-character base type |
| TypeMapper.MapTypeToJvmDesc | core/reflection.jvm/src/kotlin/reflect/jvm/internal/RuntimeTypeMapper.kt:57-91 | every result is a field descriptor in the section 4.3.2 grammar, given a table of descriptors and valid names; it is never empty |
| TypeMapper.TypeParamResolvesToBound | core/reflection.jvm/src/kotlin/reflect/jvm/internal/RuntimeTypeMapper.kt:59-61 | a type parameter maps to exactly what the end of its chain of first upper bounds maps to, for chains of any length |
| TypeMapper.PrimitiveTypeDesc | core/reflection.jvm/src/kotlin/reflect/jvm/internal/RuntimeTypeMapper.kt:73-76 | a primitive class type maps to its base-type character when non-nullable and to its wrapper's descriptor when nullable; the two differ; the table and intrinsics are not consulted |
| TypeMapper.PrimitiveArrayTypeDesc | core/reflection.jvm/src/kotlin/reflect/jvm/internal/RuntimeTypeMapper.kt:78-80 | a primitive-array class maps to `[` and the raw base type, whatever its nullability |
| TypeMapper.ArrayElementNullabilityIgnored | core/reflection.jvm/src/kotlin/reflect/jvm/internal/RuntimeTypeMapper.kt:63-68 | `Array<E>` maps to `[` and the descriptor of `E?`; the nullability of the element and of the array make no difference |
| TypeMapper.ArrayOfPrimitiveIsBoxed | core/reflection.jvm/src/kotlin/reflect/jvm/internal/RuntimeTypeMapper.kt:63-80 | `Array<Int>` and `Array<Int?>` map to `[` and the wrapper descriptor, which differs from what `IntArray` maps to |
| TypeMapper.RegisteredNameWins | core/reflection.jvm/src/kotlin/reflect/jvm/internal/RuntimeTypeMapper.kt:82-88 | a registered, non-primitive name resolves through the table even when the class is also an intrinsic companion object |
| TypeMapper.UnregisteredClassDesc | core/reflection.jvm/src/kotlin/reflect/jvm/internal/RuntimeTypeMapper.kt:84-90 | an unregistered class gets its intrinsic class `L<fq with />;` only when it is a companion object with an intrinsic mapping, and `L<own internal name>;` otherwise |
| TypeMapper.RegisteredClassRoundTrip | core/reflection.jvm/src/kotlin/reflect/jvm/internal/RuntimeTypeMapper.kt:82 | for a table built from registrations, a class named by the last registration that wrote its name maps to that registration's Java class descriptor |
| TypeMapper.BaseTypeExactlyForNonNullPrimitives | core/reflection.jvm/src/kotlin/reflect/jvm/internal/RuntimeTypeMapper.kt:57-91 | a one-character descriptor comes out exactly when the type, after following first bounds, is a non-nullable primitive class |
| TypeMapper.MapTypeToJvmDescBoxed | core/reflection.jvm/src/kotlin/reflect/jvm/internal/RuntimeTypeMapper.kt:59-68 | corrected mapping: a nullable type, including a nullable type parameter, never maps to a base type, and every result is a field descriptor |
| TypeMapper.BoxedAgreesWithoutTypeParams | core/reflection.jvm/src/kotlin/reflect/jvm/internal/RuntimeTypeMapper.kt:57-91 | on every type without type parameters, the corrected mapping equals the mapping as written |
| TypeMapper.BoxedNullableIsReference | core/reflection.jvm/src/kotlin/reflect/jvm/internal/RuntimeTypeMapper.kt:59-68 | under the corrected mapping, a nullable type, whether behind type parameters or not, gets a descriptor starting with `L` or `[` |
| TypeMapper.BoxedArrayElementIsReference | core/reflection.jvm/src/kotlin/reflect/jvm/internal/RuntimeTypeMapper.kt:63-68 | under the corrected mapping, `Array<E>` maps to `[` followed by an object descriptor (`L`) or an array descriptor (`[`), never a base type |
| TypeMapper.TypeParamBoundedByIntIsNotBoxed | core/reflection.jvm/src/kotlin/reflect/jvm/internal/RuntimeTypeMapper.kt:59-68 | as written, `Array<T>` with `T : Int` maps to `[I`, the same as `IntArray`, and `T?` maps to `I` |
| TypeMapper.TypeParamBoundedByIntIsBoxed | core/reflection.jvm/src/kotlin/reflect/jvm/internal/RuntimeTypeMapper.kt:63-68 | under the corrected mapping, `Array<T>` with `T : Int` maps like `Array<Int>`, and `T?` maps to the wrapper like `Int?` |
| TypeMapper.IntegerWrapper | core/reflection.jvm/src/kotlin/reflect/jvm/internal/RuntimeTypeMapper.kt:75 | the wrapper descriptor of `Int` is `Ljava/lang/Integer;` |
| ClassMapper.PrimitiveTypeOf | core/reflection.jvm/src/kotlin/reflect/jvm/internal/RuntimeTypeMapper.kt:117-118 | a class reports a primitive kind exactly when its JVM descriptor is one character, and then that character is the kind's base type |
| ClassMapper.BaseTypeIsPrimitiveClass | core/reflection.jvm/src/kotlin/reflect/jvm/internal/RuntimeTypeMapper.kt:117-118 | every base-type character `Z C B S I F J D` is the one-character descriptor of some class that reports a primitive kind |
| ClassMapper.MapJvmClassToKotlinClassId | core/reflection.jvm/src/kotlin/reflect/jvm/internal/RuntimeTypeMapper.kt:93-115 | primitive class → the top-level, non-local Kotlin class id the primitive lookup recognises as that kind; primitive array → the top-level Kotlin primitive-array class id of its component; other array → the top-level id `kotlin.Array`; local class → its own id |
| ClassMapper.ReferenceArraysErased | core/reflection.jvm/src/kotlin/reflect/jvm/internal/RuntimeTypeMapper.kt:94-99 | any two arrays of non-primitive components map to the same id, `kotlin.Array` |
| ClassMapper.ObjectClassLookupOrder | core/reflection.jvm/src/kotlin/reflect/jvm/internal/RuntimeTypeMapper.kt:105-114 | a non-local class: a base-map hit wins over the inverse intrinsic map; the inverse intrinsic map comes second; with neither, the class's own id unchanged |
| ClassMapper.LocalClassBypass | core/reflection.jvm/src/kotlin/reflect/jvm/internal/RuntimeTypeMapper.kt:105-114 | a local class keeps its own id, and the result is the same as with both maps empty |
| ClassMapper.ReverseThenForward | core/reflection.jvm/src/kotlin/reflect/jvm/internal/RuntimeTypeMapper.kt:93-115 | for primitives, primitive arrays and unmapped, unregistered classes, mapping to a Kotlin class id and back to a descriptor yields the JVM class's own descriptor |

## Left out

- `libraries/tools/kotlin-gradle-plugin/src/main/kotlin/org/jetbrains/kotlin/gradle/targets/js/dukat/DukatTask.kt` is not part of this model. It is a Gradle task: lazy npm resolution, output directories and an external process, with no mapping logic.
- The class list that `init()` (RuntimeTypeMapper.kt:41-43) feeds in comes from `JavaToKotlinClassMapBuilder`, which is not part of this model. The model takes any sequence of registration events.
- `JvmClassName.byClassId` is not part of this model. `Names.InternalName` writes the package with `/` and nested class names with `$`, the JVM's binary-name convention.
- `KotlinBuiltIns`, `JvmPrimitiveType`, `IntrinsicObjects`, `InverseIntrinsicObjectsMapping` and `JavaToKotlinClassMap` are not part of this model. The name lookups and wrapper names are the well-known constants. The three class maps are parameters.
- Java reflection on `Class<*>` is replaced by the closed type `ClassMapper.JvmClass`. `void.class` has no primitive kind here: the source would fail looking up `"void"`.
- `Class<*>.primitiveType` goes from a class's simple name through `JvmPrimitiveType.get`. The model's primitive classes carry their kind directly.
- `KotlinBuiltIns.isArray` is represented by the `ArrayOf` constructor. A `ClassType` whose name is `kotlin.Array` is not treated as an array.
- Type parameters: only the first upper bound is ever read, so `WellFormed` and `Size` look only at it. The zero-bound case that `first()` would throw on is excluded by `WellFormed`.
- In the source, `DescriptorUtils.getFqName` and `classId` both come from one class descriptor and agree for non-local classes. The model keeps them as two fields of `KotlinTypes.ClassDesc` and does not relate them. This over-approximates the source, and every lemma holds without the relation. `FqNameUnsafe` is modelled as a plain list of name segments.
- The unchecked cast at RuntimeTypeMapper.kt:70 is not modelled. The `match` over `KType` is exhaustive, so that cast cannot fail.
- Thread-safety of the `object` initializer and the insertion order of `linkedMapOf` are not modelled. Neither is observable through the mapping; `Registration.ApplyCommutes` shows order does not matter for registrations that agree.

## Findings

| source | as written | input that shows it | evidently intended | confidence | as-written member | corrected member |
|---|---|---|---|---|---|---|
| core/reflection.jvm/src/kotlin/reflect/jvm/internal/RuntimeTypeMapper.kt:59-68 | the type-parameter case recurses on the first bound and drops the reference's own nullability, so the `makeNullable` in the array case never reaches a primitive behind a type parameter | `Array<T>` with `T : Int` gives `[I`, the descriptor of `IntArray`; `T?` gives the raw `I` | the element of `Array<E>` is boxed, as the comment at lines 65-66 says, so `Array<T>` gives `[Ljava/lang/Integer;`, as `Array<Int>` does | medium, not executed | TypeMapper.TypeParamBoundedByIntIsNotBoxed | TypeMapper.MapTypeToJvmDescBoxed |

The corrected mapping passes a type parameter's nullability on to its first bound.
`TypeMapper.BoxedAgreesWithoutTypeParams` proves the change matters only where type
parameters occur. So the lemmas about class types, primitive arrays, registered names and
the round trip in `ClassMapper.ReverseThenForward` hold unchanged for the corrected mapping;
they are stated about the mapping as written.
