/** Small definitions shared by every component. */
module Basics {

  datatype Option<+T> = None | Some(value: T)

  function Min(a: int, b: int): int {
    if a <= b then a else b
  }

  function Max(a: int, b: int): int {
    if a >= b then a else b
  }

  ghost predicate NoDuplicates<T>(s: seq<T>) {
    forall i, j :: 0 <= i < j < |s| ==> s[i] != s[j]
  }

  /** Distinct members of a set are no more than the set has. */
  lemma DistinctWithin<T>(s: seq<T>, all: set<T>)
    requires NoDuplicates(s) && forall x :: x in s ==> x in all
    ensures |s| <= |all|
    decreases |s|
  {
    if s != [] {
      assert forall x :: x in s[1..] ==> x in all - {s[0]};
      DistinctWithin(s[1..], all - {s[0]});
    }
  }

  /** As many distinct members as the set has are all of them. */
  lemma DistinctAll<T>(s: seq<T>, all: set<T>)
    requires NoDuplicates(s) && |s| == |all| && forall x :: x in s ==> x in all
    ensures forall x :: x in all ==> x in s
  {
    forall x | x in all
      ensures x in s
    {
      if x !in s {
        DistinctWithin(s, all - {x});
      }
    }
  }

  /** A finite nonempty set of numbers has a largest element. */
  lemma LargestExists(keys: set<nat>)
    requires keys != {}
    ensures exists m :: m in keys && forall k :: k in keys ==> k <= m
  {
    var m :| m in keys;
    if k :| k in keys && k > m {
      var rest := set j | j in keys && j > m;
      assert k in rest && m !in rest && rest < keys;
      LargestExists(rest);
      var top :| top in rest && forall j :: j in rest ==> j <= top;
      assert forall j :: j in keys ==> j in rest || j <= m;
    }
  }

  /** The row id SQLite gives a new row of a table without AUTOINCREMENT. */
  ghost function NextRowId(keys: set<nat>): (id: nat)
    ensures id !in keys
  {
    if keys == {} then 1 else
    LargestExists(keys);
    var m :| m in keys && forall k :: k in keys ==> k <= m;
    m + 1
  }
}
