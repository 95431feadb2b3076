/** Types shared by the vision and the control modules. */
module Common {

  /** A value that may be absent (Python's `None`). */
  datatype Option<T> = None | Some(value: T)

  /** An integer image coordinate (row, column), or an offset between two of them. */
  datatype Point = Point(row: int, col: int)

  /** True if no element of `s` occurs twice. */
  predicate Distinct<T(==)>(s: seq<T>)
  {
    forall i, j :: 0 <= i < j < |s| ==> s[i] != s[j]
  }

  /** The set of the elements of `s`. */
  function Elements<T>(s: seq<T>): set<T>
  {
    set x | x in s
  }

  lemma {:induction false} ElementsAtMost<T>(s: seq<T>)
    ensures |Elements(s)| <= |s|
  {
    if s != [] {
      var t := s[..|s| - 1];
      ElementsAtMost(t);
      assert Elements(s) == Elements(t) + {s[|s| - 1]};
    }
  }

  lemma {:induction false} DistinctElements<T>(s: seq<T>)
    requires Distinct(s)
    ensures |Elements(s)| == |s|
  {
    if s != [] {
      var t := s[..|s| - 1];
      assert Distinct(t);
      DistinctElements(t);
      assert s[|s| - 1] !in Elements(t);
      assert Elements(s) == Elements(t) + {s[|s| - 1]};
    }
  }

  /** A duplicate-free sequence drawn from `pool` is no longer than `pool`. */
  lemma DistinctWithin<T>(s: seq<T>, pool: seq<T>)
    requires Distinct(s)
    requires forall i :: 0 <= i < |s| ==> s[i] in pool
    ensures |s| <= |pool|
  {
    DistinctElements(s);
    ElementsAtMost(pool);
    assert Elements(s) <= Elements(pool);
    SubsetCard(Elements(s), Elements(pool));
  }

  lemma {:induction false} SubsetCard<T>(a: set<T>, b: set<T>)
    requires a <= b
    ensures |a| <= |b|
  {
    if a != {} {
      var x :| x in a;
      SubsetCard(a - {x}, b - {x});
    }
  }
}
