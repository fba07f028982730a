/** JVM field descriptors, section 4.3.2 of the Java Virtual Machine
    Specification:
      FieldDescriptor = BaseType | 'L' ClassName ';' | '[' FieldDescriptor */
module Descriptors {
  import opened Names

  /** The one-character descriptors of the eight primitive types. */
  predicate IsBaseType(c: char)
  {
    c in "ZCBSIFJD"
  }

  predicate IsFieldDescriptor(s: string)
    decreases |s|
  {
    || (|s| == 1 && IsBaseType(s[0]))
    || (|s| >= 3 && s[0] == 'L' && s[|s| - 1] == ';' && IsClassName(s[1..|s| - 1]))
    || (|s| >= 2 && s[0] == '[' && IsFieldDescriptor(s[1..]))
  }

  /** The outer shape of an object-type descriptor, whatever its class name. */
  predicate IsObjectShaped(s: string)
  {
    |s| >= 2 && s[0] == 'L' && s[|s| - 1] == ';'
  }

  /** The object-type descriptor of a class (the private `ClassId.desc`). */
  function Desc(id: ClassId): (r: string)
    ensures IsObjectShaped(r)
  {
    "L" + InternalName(id) + ";"
  }

  /** A class id made of valid names has a well-formed descriptor. */
  lemma DescIsFieldDescriptor(id: ClassId)
    ensures ValidClassId(id) ==> IsFieldDescriptor(Desc(id))
  {
    InternalNameIsClassName(id);
    var r := Desc(id);
    assert r[1..|r| - 1] == InternalName(id);
  }

  /** The descriptor of a top-level class is its dotted name written with
      '/' between `L` and `;`. */
  lemma DescOfTopLevel(fq: FqName)
    ensures Desc(TopLevel(fq)) == "L" + Join(fq, '/') + ";"
  {
    InternalNameOfTopLevel(fq);
  }

  /** One array dimension in front of a field descriptor is again one. */
  lemma ArrayOfFieldDescriptor(s: string)
    requires IsFieldDescriptor(s)
    ensures IsFieldDescriptor("[" + s)
  {
    assert ("[" + s)[1..] == s;
  }
}
