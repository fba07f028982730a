/** The eight primitive kinds, their Kotlin class names (as KotlinBuiltIns
    knows them) and their JVM forms (as JvmPrimitiveType knows them). */
module Primitives {
  import opened Optional
  import opened Names
  import opened Descriptors

  datatype PrimitiveKind = Boolean | Char | Byte | Short | Int | Float | Long | Double

  /** The simple name of the Kotlin class of a primitive, e.g. "Int". */
  function TypeName(p: PrimitiveKind): Name
  {
    match p
    case Boolean => "Boolean"
    case Char => "Char"
    case Byte => "Byte"
    case Short => "Short"
    case Int => "Int"
    case Float => "Float"
    case Long => "Long"
    case Double => "Double"
  }

  /** The simple name of the Kotlin primitive-array class, e.g. "IntArray". */
  function ArrayTypeName(p: PrimitiveKind): Name
  {
    match p
    case Boolean => "BooleanArray"
    case Char => "CharArray"
    case Byte => "ByteArray"
    case Short => "ShortArray"
    case Int => "IntArray"
    case Float => "FloatArray"
    case Long => "LongArray"
    case Double => "DoubleArray"
  }

  function PrimitiveFqName(p: PrimitiveKind): FqName
  {
    ["kotlin", TypeName(p)]
  }

  function PrimitiveArrayFqName(p: PrimitiveKind): FqName
  {
    ["kotlin", ArrayTypeName(p)]
  }

  /** `kotlin.Array`, the generic array class. */
  const ArrayFqName: FqName := ["kotlin", "Array"]

  function ByTypeName(name: Name): Option<PrimitiveKind>
  {
    if name == "Boolean" then Some(Boolean)
    else if name == "Char" then Some(Char)
    else if name == "Byte" then Some(Byte)
    else if name == "Short" then Some(Short)
    else if name == "Int" then Some(Int)
    else if name == "Float" then Some(Float)
    else if name == "Long" then Some(Long)
    else if name == "Double" then Some(Double)
    else None
  }

  function ByArrayTypeName(name: Name): Option<PrimitiveKind>
  {
    if name == "BooleanArray" then Some(Boolean)
    else if name == "CharArray" then Some(Char)
    else if name == "ByteArray" then Some(Byte)
    else if name == "ShortArray" then Some(Short)
    else if name == "IntArray" then Some(Int)
    else if name == "FloatArray" then Some(Float)
    else if name == "LongArray" then Some(Long)
    else if name == "DoubleArray" then Some(Double)
    else None
  }

  /** KotlinBuiltIns.getPrimitiveTypeByFqName. */
  function PrimitiveByFqName(fq: FqName): Option<PrimitiveKind>
  {
    if |fq| == 2 && fq[0] == "kotlin" then ByTypeName(fq[1]) else None
  }

  /** KotlinBuiltIns.getPrimitiveTypeByArrayClassFqName. */
  function PrimitiveByArrayFqName(fq: FqName): Option<PrimitiveKind>
  {
    if |fq| == 2 && fq[0] == "kotlin" then ByArrayTypeName(fq[1]) else None
  }

  /** The name lookup finds a primitive exactly for that primitive's class name. */
  lemma PrimitiveByFqNameInverse(fq: FqName, p: PrimitiveKind)
    ensures PrimitiveByFqName(fq) == Some(p) <==> fq == PrimitiveFqName(p)
  {
  }

  /** The array-name lookup finds a primitive exactly for that primitive's
      array class name. */
  lemma PrimitiveByArrayFqNameInverse(fq: FqName, p: PrimitiveKind)
    ensures PrimitiveByArrayFqName(fq) == Some(p) <==> fq == PrimitiveArrayFqName(p)
  {
  }

  /** No class is at once a primitive, a primitive array and `kotlin.Array`. */
  lemma PrimitiveNamesDisjoint(fq: FqName)
    ensures PrimitiveByFqName(fq).Some? ==> PrimitiveByArrayFqName(fq).None? && fq != ArrayFqName
    ensures PrimitiveByArrayFqName(fq).Some? ==> fq != ArrayFqName
  {
  }

  /** The JVM base-type character (JvmPrimitiveType.getDesc), table 4.3-A of
      the Java Virtual Machine Specification. */
  function BaseTypeChar(p: PrimitiveKind): (c: char)
    ensures IsBaseType(c)
  {
    match p
    case Boolean => 'Z'
    case Char => 'C'
    case Byte => 'B'
    case Short => 'S'
    case Int => 'I'
    case Float => 'F'
    case Long => 'J'
    case Double => 'D'
  }

  /** The boxing class of a primitive (JvmPrimitiveType.getWrapperFqName). */
  function WrapperFqName(p: PrimitiveKind): (fq: FqName)
    ensures |fq| == 3 && fq[..2] == ["java", "lang"]
  {
    match p
    case Boolean => ["java", "lang", "Boolean"]
    case Char => ["java", "lang", "Character"]
    case Byte => ["java", "lang", "Byte"]
    case Short => ["java", "lang", "Short"]
    case Int => ["java", "lang", "Integer"]
    case Float => ["java", "lang", "Float"]
    case Long => ["java", "lang", "Long"]
    case Double => ["java", "lang", "Double"]
  }

  lemma WrapperNameValid(p: PrimitiveKind)
    ensures ValidSegments(WrapperFqName(p))
  {
    var fq := WrapperFqName(p);
    assert IsUnqualifiedName("java") && IsUnqualifiedName("lang");
    assert fq[0] == "java" && fq[1] == "lang";
    match p
    case Boolean => assert IsUnqualifiedName("Boolean");
    case Char => assert IsUnqualifiedName("Character");
    case Byte => assert IsUnqualifiedName("Byte");
    case Short => assert IsUnqualifiedName("Short");
    case Int => assert IsUnqualifiedName("Integer");
    case Float => assert IsUnqualifiedName("Float");
    case Long => assert IsUnqualifiedName("Long");
    case Double => assert IsUnqualifiedName("Double");
  }

  /** The descriptor of the boxing class, e.g. "Ljava/lang/Integer;". */
  function WrapperDesc(p: PrimitiveKind): (r: string)
    ensures IsFieldDescriptor(r) && IsObjectShaped(r)
    ensures r == "L" + Join(WrapperFqName(p), '/') + ";"
  {
    DescOfTopLevel(WrapperFqName(p));
    WrapperNameValid(p);
    DescIsFieldDescriptor(TopLevel(WrapperFqName(p)));
    Desc(TopLevel(WrapperFqName(p)))
  }

  /** Distinct primitives have distinct base types: the base type identifies
      the primitive. */
  lemma BaseTypeCharInjective(p: PrimitiveKind, q: PrimitiveKind)
    ensures BaseTypeChar(p) == BaseTypeChar(q) <==> p == q
  {
  }

  /** Every base-type character belongs to exactly one primitive. */
  lemma BaseTypeCharSurjective(c: char)
    requires IsBaseType(c)
    ensures exists p :: BaseTypeChar(p) == c
  {
    if c == 'Z' { assert BaseTypeChar(Boolean) == c; }
    else if c == 'C' { assert BaseTypeChar(Char) == c; }
    else if c == 'B' { assert BaseTypeChar(Byte) == c; }
    else if c == 'S' { assert BaseTypeChar(Short) == c; }
    else if c == 'I' { assert BaseTypeChar(Int) == c; }
    else if c == 'F' { assert BaseTypeChar(Float) == c; }
    else if c == 'J' { assert BaseTypeChar(Long) == c; }
    else { assert BaseTypeChar(Double) == c; }
  }
}
