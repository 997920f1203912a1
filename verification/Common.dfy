/** Small vocabulary shared by the whole model. */
module Common {
  datatype Option<+T> = None | Some(value: T)

  /** Position of each value is unique. */
  predicate NoDuplicates<T(==)>(s: seq<T>) {
    forall i, j :: 0 <= i < j < |s| ==> s[i] != s[j]
  }

  /** The distinct values of a sequence. */
  function Elements<T>(s: seq<T>): set<T> {
    set x | x in s
  }

  function Max(a: int, b: int): int { if a >= b then a else b }

  function Min(a: int, b: int): int { if a <= b then a else b }

  /** A subset is never larger than its superset. */
  lemma {:induction false} SubsetSize<T>(a: set<T>, b: set<T>)
    requires a <= b
    ensures |a| <= |b|
  {
    if a != {} {
      var x :| x in a;
      SubsetSize(a - {x}, b - {x});
    }
  }

  /** A duplicate-free sequence has as many values as positions. */
  lemma {:induction false} NoDuplicatesSize<T>(s: seq<T>)
    requires NoDuplicates(s)
    ensures |Elements(s)| == |s|
  {
    if s != [] {
      var init := s[..|s| - 1];
      NoDuplicatesSize(init);
      assert s == init + [s[|s| - 1]];
      assert s[|s| - 1] !in Elements(init);
      assert Elements(s) == Elements(init) + {s[|s| - 1]};
    }
  }

  /** Remove the only occurrence of a value. */
  function Without<T(==)>(s: seq<T>, x: T): seq<T> {
    if s == [] then []
    else if s[0] == x then Without(s[1..], x)
    else [s[0]] + Without(s[1..], x)
  }

  lemma {:induction false} WithoutProperties<T>(s: seq<T>, x: T)
    ensures Elements(Without(s, x)) == Elements(s) - {x}
    ensures NoDuplicates(s) ==> NoDuplicates(Without(s, x))
    ensures |Without(s, x)| <= |s|
    ensures x !in s ==> Without(s, x) == s
  {
    if s != [] {
      WithoutProperties(s[1..], x);
      assert s == [s[0]] + s[1..];
      assert Elements(s) == {s[0]} + Elements(s[1..]);
      var rest := Without(s[1..], x);
      assert Elements([s[0]] + rest) == {s[0]} + Elements(rest);
      if NoDuplicates(s) {
        assert NoDuplicates(s[1..]);
        assert s[0] !in Elements(s[1..]);
        assert s[0] !in Elements(rest);
        assert forall i :: 0 <= i < |rest| ==> rest[i] in Elements(rest);
      }
    }
  }
}
