/** Path prefixes and the scopes a task reserves. */
module Paths {

  const SEPARATOR := "/"

  predicate StartsWith(s: string, prefix: string) {
    prefix <= s
  }

  predicate EndsWith(s: string, suffix: string) {
    |suffix| <= |s| && s[|s| - |suffix|..] == suffix
  }

  function AsDirectory(path: string): string {
    if EndsWith(path, SEPARATOR) then path else path + SEPARATOR
  }

  /** pathWithin: at or below a prefix. */
  predicate Within(prefix: string, path: string) {
    prefix == path || StartsWith(path, AsDirectory(prefix))
  }

  /** directoryRelative: strictly below a directory. */
  predicate Inside(directory: string, path: string) {
    |AsDirectory(directory)| < |path| && StartsWith(path, AsDirectory(directory))
  }

  /** The same relative path below another directory. */
  function Rebased(source: string, destination: string, path: string): string
    requires Inside(source, path)
  {
    AsDirectory(destination) + path[|AsDirectory(source)|..]
  }

  lemma RebasedApart(source: string, destination: string, p: string, q: string)
    requires Inside(source, p) && Inside(source, q) && p != q
    ensures Rebased(source, destination, p) != Rebased(source, destination, q)
  {
    var n := |AsDirectory(source)|;
    assert p == p[..n] + p[n..] && q == q[..n] + q[n..];
    var d := |AsDirectory(destination)|;
    assert Rebased(source, destination, p)[d..] == p[n..] && Rebased(source, destination, q)[d..] == q[n..];
  }

  const BLANKS: set<char> := {' ', '\t', '\n', '\r', '\U{000B}', '\U{000C}', '\U{0085}', '\U{00A0}'}

  /** validateDirectoryPath: not blank, and without a NUL. */
  predicate ValidDirectory(path: string) {
    (exists i :: 0 <= i < |path| && path[i] !in BLANKS) && '\0' !in path
  }

  datatype Scope = Scope(exact: seq<string>, prefixes: seq<string>)

  /** The paths a scope reserves. */
  ghost predicate Reserves(scope: Scope, path: string) {
    path in scope.exact || exists p :: p in scope.prefixes && Within(p, path)
  }

  lemma DirectoryIsBelow(p: string, q: string)
    requires AsDirectory(p) <= AsDirectory(q)
    ensures Within(p, q) || Within(q, p)
  {
    if |AsDirectory(p)| > |q| {
      assert AsDirectory(p) == AsDirectory(q);
    } else {
      assert AsDirectory(q)[..|q|] == q;
      assert AsDirectory(p) <= q;
    }
  }

  /** Two directories share a path only if one is at or below the other. */
  lemma SharedPathNests(p: string, q: string, path: string)
    requires Within(p, path) && Within(q, path)
    ensures Within(p, q) || Within(q, p)
  {
    if p != path && q != path {
      if |AsDirectory(p)| <= |AsDirectory(q)| {
        assert AsDirectory(q) == path[..|AsDirectory(q)|];
        DirectoryIsBelow(p, q);
      } else {
        DirectoryIsBelow(q, p);
      }
    }
  }

  /** scopesOverlap, loop by loop. */
  method Overlap(left: Scope, right: Scope) returns (overlap: bool)
    ensures overlap == Overlaps(left, right)
  {
    for i := 0 to |left.exact|
      invariant forall k :: 0 <= k < i ==> !ExactMeets(left.exact[k], right)
    {
      var a := left.exact[i];
      for j := 0 to |right.exact|
        invariant forall k :: 0 <= k < j ==> right.exact[k] != a
      {
        if a == right.exact[j] {
          assert a in left.exact && ExactMeets(a, right);
          return true;
        }
      }
      for j := 0 to |right.prefixes|
        invariant forall k :: 0 <= k < j ==> !Within(right.prefixes[k], a)
      {
        if Within(right.prefixes[j], a) {
          assert a in left.exact && ExactMeets(a, right);
          return true;
        }
      }
    }
    for i := 0 to |left.prefixes|
      invariant forall k :: 0 <= k < i ==> !PrefixMeets(left.prefixes[k], right)
    {
      var p := left.prefixes[i];
      for j := 0 to |right.exact|
        invariant forall k :: 0 <= k < j ==> !Within(p, right.exact[k])
      {
        if Within(p, right.exact[j]) {
          assert p in left.prefixes && PrefixMeets(p, right);
          return true;
        }
      }
      for j := 0 to |right.prefixes|
        invariant forall k :: 0 <= k < j ==> !Within(p, right.prefixes[k]) && !Within(right.prefixes[k], p)
      {
        if Within(p, right.prefixes[j]) || Within(right.prefixes[j], p) {
          assert p in left.prefixes && PrefixMeets(p, right);
          return true;
        }
      }
    }
    return false;
  }

  ghost predicate ExactMeets(a: string, right: Scope) {
    a in right.exact || exists q :: q in right.prefixes && Within(q, a)
  }

  ghost predicate PrefixMeets(p: string, right: Scope) {
    (exists b :: b in right.exact && Within(p, b)) || exists q :: q in right.prefixes && (Within(p, q) || Within(q, p))
  }

  ghost predicate Overlaps(left: Scope, right: Scope) {
    (exists a :: a in left.exact && ExactMeets(a, right)) || exists p :: p in left.prefixes && PrefixMeets(p, right)
  }

  /** Scopes overlap exactly when some path belongs to both. */
  lemma OverlapIsSharing(left: Scope, right: Scope)
    ensures Overlaps(left, right) <==> exists path :: Reserves(left, path) && Reserves(right, path)
  {
    if Overlaps(left, right) {
      if a :| a in left.exact && ExactMeets(a, right) {
        assert Reserves(left, a) && Reserves(right, a);
      } else {
        var p :| p in left.prefixes && PrefixMeets(p, right);
        if b :| b in right.exact && Within(p, b) {
          assert Reserves(left, b) && Reserves(right, b);
        } else {
          var q :| q in right.prefixes && (Within(p, q) || Within(q, p));
          var shared := if Within(p, q) then q else p;
          assert Within(q, q) && Within(p, p);
          assert Reserves(left, shared) && Reserves(right, shared);
        }
      }
    }
    if path :| Reserves(left, path) && Reserves(right, path) {
      SharingOverlaps(left, right, path);
    }
  }

  lemma SharingOverlaps(left: Scope, right: Scope, path: string)
    requires Reserves(left, path) && Reserves(right, path)
    ensures Overlaps(left, right)
  {
    if path in left.exact {
      assert ExactMeets(path, right);
    } else {
      var p :| p in left.prefixes && Within(p, path);
      if path !in right.exact {
        var q :| q in right.prefixes && Within(q, path);
        SharedPathNests(p, q, path);
      }
      assert PrefixMeets(p, right);
    }
  }

  lemma OverlapIsSymmetric(left: Scope, right: Scope)
    ensures Overlaps(left, right) <==> Overlaps(right, left)
  {
    OverlapIsSharing(left, right);
    OverlapIsSharing(right, left);
  }
}
