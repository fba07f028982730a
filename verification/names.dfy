/** Names of classes on both sides of the mapping: fully-qualified names,
    class ids, and the internal form of a binary class name from
    section 4.2.1 of the Java Virtual Machine Specification. */
module Names {

  /** One segment of a qualified name, such as "kotlin" or "Int". */
  type Name = string

  /** A fully-qualified class name, held as its dot-separated segments.
      A class always has at least one segment: the root package never names
      a class. */
  type FqName = s: seq<Name> | |s| > 0 witness ["Any"]

  /** A class id: the package, the class name relative to the package
      (one segment per nesting level), and whether the class is local or
      anonymous. */
  datatype ClassId = ClassId(packageFqName: seq<Name>, relativeClassName: FqName, isLocal: bool)

  /** The segments separated by `sep`. */
  function Join(segments: seq<Name>, sep: char): string
  {
    if |segments| == 0 then ""
    else if |segments| == 1 then segments[0]
    else segments[0] + [sep] + Join(segments[1..], sep)
  }

  lemma JoinThree(a: Name, b: Name, c: Name, sep: char)
    ensures Join([a, b, c], sep) == a + [sep] + b + [sep] + c
  {
    assert [a, b, c][1..] == [b, c] && [b, c][1..] == [c];
    assert Join([b, c], sep) == b + [sep] + c;
  }

  /** The one name that a package-qualified class id stands for. */
  function AsSingleFqName(id: ClassId): (fq: FqName)
    ensures |fq| == |id.packageFqName| + |id.relativeClassName|
    ensures fq[|fq| - 1] == id.relativeClassName[|id.relativeClassName| - 1]
  {
    id.packageFqName + id.relativeClassName
  }

  /** The id of a top-level, non-local class with the given name. */
  function TopLevel(fq: FqName): (id: ClassId)
    ensures AsSingleFqName(id) == fq
    ensures !id.isLocal && |id.relativeClassName| == 1
  {
    ClassId(fq[..|fq| - 1], [fq[|fq| - 1]], false)
  }

  /** The internal form of the binary name of a class: package segments
      separated by '/', nested class names separated by '$'. */
  function InternalName(id: ClassId): string
  {
    var relative := Join(id.relativeClassName, '$');
    if |id.packageFqName| == 0 then relative
    else Join(id.packageFqName, '/') + "/" + relative
  }

  /** An unqualified name in the sense of section 4.2.2 of the Java Virtual
      Machine Specification: non-empty, without '.', ';', '[' or '/'. */
  predicate IsUnqualifiedName(s: string)
  {
    |s| > 0 && forall i :: 0 <= i < |s| ==> s[i] !in ".;[/"
  }

  predicate ValidSegments(segments: seq<Name>)
  {
    forall i :: 0 <= i < |segments| ==> IsUnqualifiedName(segments[i])
  }

  predicate ValidClassId(id: ClassId)
  {
    ValidSegments(id.packageFqName) && ValidSegments(id.relativeClassName)
  }

  /** A class name in internal form: unqualified names separated by single
      '/' characters. */
  predicate IsClassName(s: string)
  {
    && |s| > 0
    && (forall i :: 0 <= i < |s| ==> s[i] !in ".;[")
    && s[0] != '/'
    && s[|s| - 1] != '/'
    && (forall i :: 0 <= i < |s| - 1 && s[i] == '/' ==> s[i + 1] != '/')
  }

  lemma JoinSnoc(p: seq<Name>, x: Name, sep: char)
    requires |p| > 0
    ensures Join(p + [x], sep) == Join(p, sep) + [sep] + x
    decreases |p|
  {
    if |p| == 1 {
      assert (p + [x])[1..] == [x];
    } else {
      assert (p + [x])[1..] == p[1..] + [x];
      JoinSnoc(p[1..], x, sep);
    }
  }

  /** Names joined by a separator that is itself allowed in an unqualified
      name (such as '$') form one unqualified name. */
  lemma {:induction false} JoinUnqualified(segments: seq<Name>, sep: char)
    requires |segments| > 0 && ValidSegments(segments)
    requires sep !in ".;[/"
    ensures IsUnqualifiedName(Join(segments, sep))
    decreases |segments|
  {
    if |segments| > 1 {
      var a, b := segments[0], Join(segments[1..], sep);
      assert IsUnqualifiedName(a);
      JoinUnqualified(segments[1..], sep);
      var s := a + [sep] + b;
      forall i | 0 <= i < |s|
        ensures s[i] !in ".;[/"
      {
        if i < |a| {
          assert s[i] == a[i];
        } else if i == |a| {
          assert s[i] == sep;
        } else {
          assert s[i] == b[i - |a| - 1];
        }
      }
    }
  }

  lemma ConcatClassName(a: string, b: string)
    requires IsClassName(a) && IsClassName(b)
    ensures IsClassName(a + "/" + b)
  {
    var s := a + "/" + b;
    forall i | 0 <= i < |s|
      ensures s[i] !in ".;["
    {
      if i < |a| {
        assert s[i] == a[i];
      } else if i > |a| {
        assert s[i] == b[i - |a| - 1];
      }
    }
    forall i | 0 <= i < |s| - 1 && s[i] == '/'
      ensures s[i + 1] != '/'
    {
      if i < |a| - 1 {
        assert s[i] == a[i] && s[i + 1] == a[i + 1];
      } else if i == |a| {
        assert s[i + 1] == b[0];
      } else if i > |a| {
        assert s[i] == b[i - |a| - 1] && s[i + 1] == b[i - |a|];
      }
    }
  }

  lemma {:induction false} JoinClassName(segments: seq<Name>)
    requires |segments| > 0 && ValidSegments(segments)
    ensures IsClassName(Join(segments, '/'))
    decreases |segments|
  {
    assert IsUnqualifiedName(segments[0]);
    if |segments| > 1 {
      JoinClassName(segments[1..]);
      ConcatClassName(segments[0], Join(segments[1..], '/'));
    }
  }

  /** A class id built from valid names has a well-formed internal name. */
  lemma InternalNameIsClassName(id: ClassId)
    ensures ValidClassId(id) ==> IsClassName(InternalName(id))
  {
    if ValidClassId(id) {
      JoinUnqualified(id.relativeClassName, '$');
      var relative := Join(id.relativeClassName, '$');
      if |id.packageFqName| > 0 {
        JoinClassName(id.packageFqName);
        ConcatClassName(Join(id.packageFqName, '/'), relative);
      }
    }
  }

  /** The internal name of a top-level class is its fully-qualified name
      with every '.' written as '/'. */
  lemma InternalNameOfTopLevel(fq: FqName)
    ensures InternalName(TopLevel(fq)) == Join(fq, '/')
  {
    var id := TopLevel(fq);
    if |fq| > 1 {
      JoinSnoc(fq[..|fq| - 1], fq[|fq| - 1], '/');
      assert fq[..|fq| - 1] + [fq[|fq| - 1]] == fq;
    }
  }
}
