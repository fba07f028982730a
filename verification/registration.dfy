/** The registration table: the map from a Kotlin class's fully-qualified
    name to the JVM descriptor it is compiled to, filled by the callbacks
    that the base Java/Kotlin class-map initializer makes. */
module Registration {
  import opened Names
  import opened Descriptors
  import opened KotlinTypes

  /** For which direction of the class map a registration is meant. */
  datatype Direction = JavaToKotlin | KotlinToJava | Both

  type Table = map<FqName, string>

  /** One callback of the initializer: a single Kotlin class, or a
      read-only/mutable pair that shares one Java class. */
  datatype Registration =
    | Single(javaClassId: ClassId, kotlinClass: ClassDesc, direction: Direction)
    | ReadOnlyMutable(javaClassId: ClassId, readOnly: ClassDesc, mutable: ClassDesc)

  /** The Kotlin-to-JVM direction is requested. */
  predicate WritesForward(d: Direction)
  {
    d == Both || d == KotlinToJava
  }

  predicate ObjectShapedValues(table: Table)
  {
    forall k :: k in table ==> IsObjectShaped(table[k])
  }

  predicate DescriptorValues(table: Table)
  {
    forall k :: k in table ==> IsFieldDescriptor(table[k])
  }

  /** The single-class callback. */
  function Register(table: Table, javaClassId: ClassId, kotlinClass: ClassDesc, direction: Direction): (r: Table)
    ensures WritesForward(direction) ==> kotlinClass.fqName in r && r[kotlinClass.fqName] == Desc(javaClassId)
    ensures !WritesForward(direction) ==> r == table
    ensures r.Keys == table.Keys + (if WritesForward(direction) then {kotlinClass.fqName} else {})
    ensures forall k :: k in table && k != kotlinClass.fqName ==> r[k] == table[k]
  {
    if WritesForward(direction) then table[kotlinClass.fqName := Desc(javaClassId)] else table
  }

  /** The read-only/mutable callback: the mutable name is registered first,
      then the read-only one, both in both directions. */
  function RegisterReadOnlyMutable(table: Table, javaClassId: ClassId, readOnly: ClassDesc, mutable: ClassDesc): (r: Table)
    ensures readOnly.fqName in r && r[readOnly.fqName] == Desc(javaClassId)
    ensures mutable.fqName in r && r[mutable.fqName] == Desc(javaClassId)
    ensures r.Keys == table.Keys + {readOnly.fqName, mutable.fqName}
    ensures forall k :: k in table && k != readOnly.fqName && k != mutable.fqName ==> r[k] == table[k]
  {
    Register(Register(table, javaClassId, mutable, Both), javaClassId, readOnly, Both)
  }

  /** The names a registration writes into the table. */
  function Written(e: Registration): set<FqName>
  {
    match e
    case Single(_, kotlinClass, direction) => if WritesForward(direction) then {kotlinClass.fqName} else {}
    case ReadOnlyMutable(_, readOnly, mutable) => {readOnly.fqName, mutable.fqName}
  }

  /** One callback applied to the table. */
  function Apply(table: Table, e: Registration): (r: Table)
    ensures r.Keys == table.Keys + Written(e)
    ensures forall k :: k in Written(e) ==> r[k] == Desc(e.javaClassId)
    ensures forall k :: k in table && k !in Written(e) ==> r[k] == table[k]
    ensures e.Single? && !WritesForward(e.direction) ==> r == table
  {
    match e
    case Single(javaClassId, kotlinClass, direction) => Register(table, javaClassId, kotlinClass, direction)
    case ReadOnlyMutable(javaClassId, readOnly, mutable) => RegisterReadOnlyMutable(table, javaClassId, readOnly, mutable)
  }

  /** The registrations applied in order, starting from `table`. */
  function Fold(table: Table, events: seq<Registration>): (r: Table)
    decreases |events|
  {
    if |events| == 0 then table
    else Apply(Fold(table, events[..|events| - 1]), events[|events| - 1])
  }

  /** The table as the initializer leaves it. */
  function BuildTable(events: seq<Registration>): (r: Table)
    ensures ObjectShapedValues(r)
    ensures (forall i :: 0 <= i < |events| ==> ValidClassId(events[i].javaClassId)) ==> DescriptorValues(r)
    ensures r.Keys == AllWritten(events)
  {
    FoldKeys(map[], events);
    FoldKeepsObjectShape(map[], events);
    if forall i :: 0 <= i < |events| ==> ValidClassId(events[i].javaClassId) then
      FoldKeepsDescriptors(map[], events);
      Fold(map[], events)
    else
      Fold(map[], events)
  }

  /** Every name some registration writes, wherever it stands in the
      sequence. */
  function AllWritten(events: seq<Registration>): set<FqName>
  {
    set i, k | 0 <= i < |events| && k in Written(events[i]) :: k
  }

  /** The folded table holds exactly the names it held before and the names
      some registration wrote. */
  lemma {:induction false} FoldKeys(table: Table, events: seq<Registration>)
    ensures Fold(table, events).Keys == table.Keys + AllWritten(events)
    decreases |events|
  {
    if |events| > 0 {
      var n := |events| - 1;
      var prev := events[..n];
      FoldKeys(table, prev);
      forall k | k in AllWritten(events)
        ensures k in AllWritten(prev) + Written(events[n])
      {
        var i :| 0 <= i < |events| && k in Written(events[i]);
        if i < n {
          assert prev[i] == events[i];
        }
      }
      forall k | k in AllWritten(prev)
        ensures k in AllWritten(events)
      {
        var i :| 0 <= i < |prev| && k in Written(prev[i]);
        assert prev[i] == events[i];
      }
    }
  }

  /** One step of the fold. */
  lemma FoldStep(table: Table, events: seq<Registration>)
    requires |events| > 0
    ensures Fold(table, events) == Apply(Fold(table, events[..|events| - 1]), events[|events| - 1])
  {
  }

  /** Last write wins: a name holds the descriptor of the last registration
      that wrote it. */
  lemma {:induction false} FoldLastWriteWins(table: Table, events: seq<Registration>, k: FqName, i: nat)
    requires i < |events| && k in Written(events[i])
    requires forall j :: i < j < |events| ==> k !in Written(events[j])
    ensures k in Fold(table, events) && Fold(table, events)[k] == Desc(events[i].javaClassId)
    decreases |events|
  {
    var n := |events| - 1;
    FoldStep(table, events);
    if i < n {
      FoldLastWriteWins(table, events[..n], k, i);
    }
  }

  /** A name that no registration writes keeps its old value. */
  lemma {:induction false} FoldUntouched(table: Table, events: seq<Registration>, k: FqName)
    requires k in table
    requires forall i :: 0 <= i < |events| ==> k !in Written(events[i])
    ensures k in Fold(table, events) && Fold(table, events)[k] == table[k]
    decreases |events|
  {
    if |events| > 0 {
      FoldStep(table, events);
      FoldUntouched(table, events[..|events| - 1], k);
    }
  }

  /** The descriptors of all Java classes the registrations name. */
  function RegisteredDescs(events: seq<Registration>): set<string>
  {
    set i | 0 <= i < |events| :: Desc(events[i].javaClassId)
  }

  /** Every value of the folded table was there before or is the descriptor
      of a registered Java class. */
  lemma {:induction false} FoldValues(table: Table, events: seq<Registration>)
    ensures forall k :: k in Fold(table, events) ==> Fold(table, events)[k] in table.Values + RegisteredDescs(events)
    decreases |events|
  {
    if |events| > 0 {
      var n := |events| - 1;
      FoldStep(table, events);
      FoldValues(table, events[..n]);
      assert Desc(events[n].javaClassId) in RegisteredDescs(events);
      assert RegisteredDescs(events[..n]) <= RegisteredDescs(events);
    }
  }

  /** Every value the registrations write is an object descriptor. */
  lemma FoldKeepsObjectShape(table: Table, events: seq<Registration>)
    requires ObjectShapedValues(table)
    ensures ObjectShapedValues(Fold(table, events))
  {
    FoldValues(table, events);
    var r := Fold(table, events);
    forall k | k in r
      ensures IsObjectShaped(r[k])
    {
      if r[k] in table.Values {
        var k' :| k' in table && table[k'] == r[k];
      } else {
        var i :| 0 <= i < |events| && r[k] == Desc(events[i].javaClassId);
      }
    }
  }

  /** Every value is a well-formed field descriptor when the Java class ids
      are made of valid names. */
  lemma FoldKeepsDescriptors(table: Table, events: seq<Registration>)
    requires DescriptorValues(table)
    requires forall i :: 0 <= i < |events| ==> ValidClassId(events[i].javaClassId)
    ensures DescriptorValues(Fold(table, events))
  {
    FoldValues(table, events);
    var r := Fold(table, events);
    forall k | k in r
      ensures IsFieldDescriptor(r[k])
    {
      if r[k] in table.Values {
        var k' :| k' in table && table[k'] == r[k];
      } else {
        var i :| 0 <= i < |events| && r[k] == Desc(events[i].javaClassId);
        DescIsFieldDescriptor(events[i].javaClassId);
      }
    }
  }

  /** Registrations meant only for the Java-to-Kotlin direction. */
  predicate IsBackwardOnly(e: Registration)
  {
    e.Single? && e.direction == JavaToKotlin
  }

  function DropBackwardOnly(events: seq<Registration>): (r: seq<Registration>)
    ensures forall i :: 0 <= i < |r| ==> !IsBackwardOnly(r[i])
    ensures |r| <= |events|
  {
    if |events| == 0 then []
    else if IsBackwardOnly(events[|events| - 1]) then DropBackwardOnly(events[..|events| - 1])
    else DropBackwardOnly(events[..|events| - 1]) + [events[|events| - 1]]
  }

  /** Java-to-Kotlin-only registrations leave no trace in the table. */
  lemma {:induction false} BackwardOnlyIgnored(table: Table, events: seq<Registration>)
    ensures Fold(table, DropBackwardOnly(events)) == Fold(table, events)
    decreases |events|
  {
    if |events| > 0 {
      var n := |events| - 1;
      var prev, e := events[..n], events[n];
      BackwardOnlyIgnored(table, prev);
      assert Fold(table, events) == Apply(Fold(table, prev), e);
      if IsBackwardOnly(e) {
        assert DropBackwardOnly(events) == DropBackwardOnly(prev);
      } else {
        var d := DropBackwardOnly(prev) + [e];
        assert DropBackwardOnly(events) == d;
        assert d[..|d| - 1] == DropBackwardOnly(prev);
        assert Fold(table, d) == Apply(Fold(table, DropBackwardOnly(prev)), e);
      }
    }
  }

  /** Two registrations that agree on every name they both write may be
      made in either order. */
  lemma ApplyCommutes(table: Table, e1: Registration, e2: Registration)
    requires forall k :: k in Written(e1) && k in Written(e2) ==> Desc(e1.javaClassId) == Desc(e2.javaClassId)
    ensures Apply(Apply(table, e1), e2) == Apply(Apply(table, e2), e1)
  {
    var a, b := Apply(Apply(table, e1), e2), Apply(Apply(table, e2), e1);
    forall k | k in a
      ensures a[k] == b[k]
    {
    }
  }
}
