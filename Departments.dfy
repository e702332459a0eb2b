/**
  `Department` of PatientLibraryTask15: a named collection built once from a
  sequence of patients, keeping each patient object the first time it appears.
  `List.Contains` uses `Patient`'s inherited `Equals`, which is reference
  equality, so membership here is object identity (`in` on a sequence of
  references).
*/
module Departments {
  import opened Patients

  /** `s` with every element after its first occurrence removed, in first-occurrence order. */
  function Distinct<T(==)>(s: seq<T>): (d: seq<T>)
    ensures |d| <= |s|
    ensures s != [] ==> d != [] && d[0] == s[0]
  {
    if s == [] then []
    else
      var d := Distinct(s[..|s| - 1]);
      if s[|s| - 1] in d then d else d + [s[|s| - 1]]
  }

  ghost predicate NoDuplicates<T>(s: seq<T>)
  {
    forall i, j :: 0 <= i < j < |s| ==> s[i] != s[j]
  }

  /** Index of the first occurrence of `x` in `s`. */
  function FirstIndex<T(==)>(s: seq<T>, x: T): (i: nat)
    requires x in s
    ensures i < |s| && s[i] == x && x !in s[..i]
  {
    if s[0] == x then 0 else 1 + FirstIndex(s[1..], x)
  }

  /** `Distinct` keeps exactly the elements of its input. */
  lemma {:induction false} DistinctSameElements<T>(s: seq<T>)
    ensures forall x :: x in Distinct(s) <==> x in s
  {
    if s != [] {
      var init := s[..|s| - 1];
      DistinctSameElements(init);
      assert s == init + [s[|s| - 1]];
    }
  }

  lemma DistinctMember<T>(s: seq<T>, x: T)
    requires x in Distinct(s)
    ensures x in s
  {
    DistinctSameElements(s);
  }

  /** `Distinct` keeps each element only once. */
  lemma {:induction false} DistinctHasNoDuplicates<T>(s: seq<T>)
    ensures NoDuplicates(Distinct(s))
  {
    if s != [] {
      DistinctHasNoDuplicates(s[..|s| - 1]);
    }
  }

  /** The elements `Distinct` keeps come in the order of their first occurrences in the input. */
  lemma {:induction false} DistinctFirstOccurrenceOrder<T>(s: seq<T>, i: int, j: int)
    requires 0 <= i < j < |Distinct(s)|
    ensures Distinct(s)[i] in s && Distinct(s)[j] in s
    ensures FirstIndex(s, Distinct(s)[i]) < FirstIndex(s, Distinct(s)[j])
  {
    var init := s[..|s| - 1];
    var d := Distinct(init);
    DistinctSameElements(init);
    DistinctSameElements(s);
    var x, y := Distinct(s)[i], Distinct(s)[j];
    assert x == d[i] && d[i] in d;
    DistinctMember(init, x);
    FirstIndexOfPrefix(init, s, x);
    if j < |d| {
      DistinctFirstOccurrenceOrder(init, i, j);
      FirstIndexOfPrefix(init, s, y);
    } else {
      // y is the last element of s, new to the prefix; x was already in it
      assert y == s[|s| - 1] && y !in init;
      assert FirstIndex(s, y) == |s| - 1;
    }
  }

  /** The first occurrence of an element of a prefix lies in that prefix. */
  lemma FirstIndexOfPrefix<T>(init: seq<T>, s: seq<T>, x: T)
    requires init <= s && x in init
    ensures FirstIndex(s, x) == FirstIndex(init, x)
  {
    var k, m := FirstIndex(s, x), FirstIndex(init, x);
    assert s[m] == x;
  }

  /** A sequence without duplicates is its own `Distinct`; in particular `Distinct` is idempotent. */
  lemma {:induction false} DistinctOfDistinct<T>(s: seq<T>)
    requires NoDuplicates(s)
    ensures Distinct(s) == s
  {
    if s != [] {
      var init := s[..|s| - 1];
      DistinctOfDistinct(init);
      assert s[|s| - 1] !in init;
    }
  }

  /** The number of kept elements is the number of distinct elements of the input, at most its length. */
  lemma {:induction false} DistinctCount<T>(s: seq<T>)
    ensures |Distinct(s)| == |set x | x in s|
    ensures |Distinct(s)| <= |s|
  {
    if s != [] {
      var init := s[..|s| - 1];
      var last := s[|s| - 1];
      DistinctCount(init);
      DistinctSameElements(init);
      assert s == init + [last];
      assert (set x | x in s) == (set x | x in init) + {last};
      if last !in init {
        assert last !in (set x | x in init);
      } else {
        assert (set x | x in s) == (set x | x in init);
      }
    }
  }

  /** Two different objects are both kept, whatever their fields; a repeated object is dropped. */
  lemma DistinctByIdentity(p: Patient, q: Patient)
    requires p != q
    ensures Distinct([p, q, p]) == [p, q]
  {
    assert [p][..0] == [];
    assert Distinct([p]) == [p];
    assert [p, q][..1] == [p];
    assert Distinct([p, q]) == [p, q];
    assert [p, q, p][..2] == [p, q];
  }

  /** The department built from `[peter, kate, phil, john, tom, peter]` holds the first five, in order. */
  lemma RepeatedPatientDropped(peter: Patient, kate: Patient, phil: Patient, john: Patient, tom: Patient)
    requires NoDuplicates([peter, kate, phil, john, tom])
    ensures Distinct([peter, kate, phil, john, tom, peter]) == [peter, kate, phil, john, tom]
    ensures |Distinct([peter, kate, phil, john, tom, peter])| == 5
  {
    var five := [peter, kate, phil, john, tom];
    DistinctOfDistinct(five);
    assert [peter, kate, phil, john, tom, peter][..5] == five;
    assert peter in five;
  }

  class Department {
    var departmentName: string
    /** The private list, filled by the constructor and never changed afterwards. */
    const patientList: seq<Patient>

    /** What the constructor leaves behind: no patient object is stored twice. */
    ghost predicate Valid()
    {
      NoDuplicates(patientList)
    }

    /** `new Department(departmentName, patients)`: one pass, appending each patient not yet in the list. */
    constructor (departmentName: string, patients: seq<Patient>)
      ensures this.departmentName == departmentName
      ensures patientList == Distinct(patients)
      ensures Valid()
      ensures forall p :: p in patientList <==> p in patients
      ensures PatientNumber() == |set p | p in patients| <= |patients|
    {
      this.departmentName := departmentName;
      var list: seq<Patient> := [];
      var i := 0;
      while i < |patients|
        invariant 0 <= i <= |patients|
        invariant list == Distinct(patients[..i])
      {
        assert patients[..i + 1][..i] == patients[..i];
        if patients[i] !in list {
          list := list + [patients[i]];
        }
        i := i + 1;
      }
      assert patients[..|patients|] == patients;
      patientList := list;
      DistinctHasNoDuplicates(patients);
      DistinctSameElements(patients);
      DistinctCount(patients);
    }

    /** `PatientNumber`: the count of stored patients, which is the number of different objects among them. */
    function PatientNumber(): (n: nat)
      requires Valid()
      ensures n == |set p | p in patientList|
    {
      DistinctOfDistinct(patientList);
      DistinctCount(patientList);
      |patientList|
    }

    /** `GetEnumerator`: yields the stored patients in order, changing nothing. */
    method GetEnumerator() returns (items: seq<Patient>)
      ensures items == patientList
    {
      items := patientList;
    }
  }
}
