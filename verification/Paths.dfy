/**
 Base paths: how a subtree of a backend becomes a tree of relative paths (object/sync/sync.go,
 object/backend/memory/backend.go).  Paths are taken as already cleaned.
 */
module Paths {
  import opened SyncModel

  /** Joins a base path and a relative one. */
  function Full(base: string, rel: string): string {
    if base == "" then rel else if rel == "" then base else base + "/" + rel
  }

  predicate Clean(p: string) {
    p != "" && p[0] != '/' && p[|p| - 1] != '/'
  }

  /** A listing matches plain string prefixes. */
  predicate Matches(base: string, p: string) {
    base == "" || base <= p || base + "/" <= p
  }

  /** Cuts off the base by its length, and one slash if there is one. */
  function Relative(base: string, p: string): string {
    if base != "" && |p| > |base| then
      var rest := p[|base|..];
      if rest[0] == '/' then rest[1..] else rest
    else p
  }

  predicate Below(base: string, p: string) {
    base == "" || base + "/" <= p
  }

  /** A listed path is recovered from its relative one exactly when it lies below the base as a directory. */
  lemma RelativeRecovers(base: string, p: string)
    requires Clean(p) && Matches(base, p)
    ensures Full(base, Relative(base, p)) == p <==> Below(base, p)
  {
    if base != "" {
      if Below(base, p) {
        assert p == base + "/" + p[|base| + 1..];
        assert p[|base|..][1..] == p[|base| + 1..];
      } else if |p| > |base| {
        var rel := Relative(base, p);
        if rel != "" {
          FullIsBelow(base, rel);
        }
      }
    }
  }

  lemma FullIsBelow(base: string, rel: string)
    requires rel != ""
    ensures Below(base, Full(base, rel)) && Matches(base, Full(base, rel))
    ensures Relative(base, Full(base, rel)) == rel
  {
    if base != "" {
      assert base + "/" + rel == base + ("/" + rel);
      assert Full(base, rel)[|base|..] == "/" + rel;
    }
  }

  /** Without the boundary two different files become one: a sync of "data" sees "database/x" as "base/x". */
  lemma BoundaryNeeded()
    ensures Matches("data", "database/x") && !Below("data", "database/x")
    ensures Relative("data", "database/x") == Relative("data", "data/base/x") == "base/x"
  {
    assert "database/x"[4] != ("data" + "/")[4];
    assert "database/x"[4..] == "base/x";
    assert "data/base/x"[4..][1..] == "base/x";
  }

  /** Two subtrees share a path exactly when one base lies within the other. */
  lemma SubtreesMeet(base1: string, base2: string)
    ensures (exists p :: p != "" && Below(base1, p) && Below(base2, p)) <==>
            base1 == base2 || Below(base1, base2) || Below(base2, base1)
  {
    if base1 == base2 || Below(base1, base2) || Below(base2, base1) {
      var p := if Below(base1, base2) then base2 + "/x" else base1 + "/x";
      PrefixOfPrefix(base1 + "/", base2, p);
      PrefixOfPrefix(base2 + "/", base1, p);
      assert p != "" && Below(base1, p) && Below(base2, p);
    }
    if p :| p != "" && Below(base1, p) && Below(base2, p) {
      if base1 != "" && base2 != "" {
        if |base1| <= |base2| {
          PrefixesAgree(base1, base2, p);
        } else {
          PrefixesAgree(base2, base1, p);
        }
      }
    }
  }

  lemma PrefixOfPrefix(a: string, b: string, c: string)
    ensures a <= b && b <= c ==> a <= c
  {
    if a <= b && b <= c {
      assert c[..|a|] == b[..|a|];
    }
  }

  lemma PrefixesAgree(a: string, b: string, p: string)
    requires a + "/" <= p && b + "/" <= p && |a| <= |b|
    ensures a == b || a + "/" <= b
  {
    assert (a + "/") == p[..|a| + 1] && (b + "/") == p[..|b| + 1];
    assert a == p[..|a|] && b == p[..|b|];
    if |a| < |b| {
      assert b[..|a| + 1] == p[..|a| + 1];
    }
  }

  // ----- the tree below a base -----

  /** The files below a base by relative path. */
  function TreeOf(objects: Tree, base: string): Tree {
    map rel | rel in RelativePaths(objects, base) && Full(base, rel) in objects :: objects[Full(base, rel)]
  }

  function RelativePaths(objects: Tree, base: string): set<string> {
    set p | p in objects && Below(base, p) && Relative(base, p) != "" :: Relative(base, p)
  }

  /** A write to a path below the base is a write to its relative path in the tree. */
  lemma WriteBelow(objects: Tree, base: string, rel: string, obj: Object)
    requires rel != ""
    ensures TreeOf(objects[Full(base, rel) := obj], base) == TreeOf(objects, base)[rel := obj]
  {
    var p, after := Full(base, rel), objects[Full(base, rel) := obj];
    FullIsBelow(base, rel);
    forall r | r != ""
      ensures r in TreeOf(after, base) <==> r in TreeOf(objects, base)[rel := obj]
      ensures r in TreeOf(after, base) ==> TreeOf(after, base)[r] == TreeOf(objects, base)[rel := obj][r]
    {
      TreeAt(objects, base, r);
      TreeAt(after, base, r);
      FullInjective(base, rel, r);
    }
  }

  /** A deletion below the base is one in the tree. */
  lemma DeleteBelow(objects: Tree, base: string, rel: string)
    requires rel != ""
    ensures TreeOf(objects - {Full(base, rel)}, base) == TreeOf(objects, base) - {rel}
  {
    var after := objects - {Full(base, rel)};
    var tree := TreeOf(objects, base) - {rel};
    forall r | r != ""
      ensures r in TreeOf(after, base) <==> r in tree
      ensures r in TreeOf(after, base) ==> TreeOf(after, base)[r] == tree[r]
    {
      DeletedAt(objects, base, rel, r);
    }
    assert TreeOf(after, base).Keys == tree.Keys;
  }

  lemma DeletedAt(objects: Tree, base: string, rel: string, r: string)
    requires rel != "" && r != ""
    ensures var after := TreeOf(objects - {Full(base, rel)}, base);
            && (r in after <==> r in TreeOf(objects, base) && r != rel)
            && (r in after ==> after[r] == TreeOf(objects, base)[r])
  {
    TreeAt(objects, base, r);
    TreeAt(objects - {Full(base, rel)}, base, r);
    FullInjective(base, rel, r);
  }

  /** What happens below one base is not seen from another that does not overlap it. */
  lemma OtherSubtreeUntouched(objects: Tree, objects': Tree, base: string, other: string, rel: string)
    requires rel != "" && base != other && !Below(base, other) && !Below(other, base)
    requires forall p | p != Full(base, rel) :: Same(objects', objects, p)
    ensures TreeOf(objects', other) == TreeOf(objects, other)
  {
    FullIsBelow(base, rel);
    SubtreesMeet(base, other);
    forall r | r != ""
      ensures r in TreeOf(objects', other) <==> r in TreeOf(objects, other)
      ensures r in TreeOf(objects', other) ==> TreeOf(objects', other)[r] == TreeOf(objects, other)[r]
    {
      TreeAt(objects, other, r);
      TreeAt(objects', other, r);
      FullIsBelow(other, r);
      assert Full(other, r) != Full(base, rel);
      assert Same(objects', objects, Full(other, r));
    }
  }

  lemma TreeAt(objects: Tree, base: string, rel: string)
    requires rel != ""
    ensures rel in TreeOf(objects, base) <==> Full(base, rel) in objects
    ensures rel in TreeOf(objects, base) ==> TreeOf(objects, base)[rel] == objects[Full(base, rel)]
  {
    FullIsBelow(base, rel);
  }

  lemma FullInjective(base: string, a: string, b: string)
    requires a != "" && b != ""
    ensures Full(base, a) == Full(base, b) <==> a == b
  {
    FullIsBelow(base, a);
    FullIsBelow(base, b);
  }
}
