/** Places: a local and a path of projections. */
module Places {
  datatype Proj = FieldOf(name: string) | AnyIndex | DerefOf

  datatype Place = Place(root: string, projs: seq<Proj>)

  predicate IsPrefixOf(a: Place, b: Place) {
    a.root == b.root && a.projs <= b.projs
  }

  predicate Overlaps(a: Place, b: Place) {
    IsPrefixOf(a, b) || IsPrefixOf(b, a)
  }

  /** At most one projection is kept. */
  function Truncate(p: Place): Place {
    if p.projs == [] then p else Place(p.root, [p.projs[0]])
  }

  function Extend(p: Place, proj: Proj): Place { Place(p.root, p.projs + [proj]) }

  /** What a place denotes: a field of a reference is a field of what it points to. */
  function Solid(projs: seq<Proj>): seq<Proj> {
    if projs == [] then [] else (if projs[0].DerefOf? then [] else [projs[0]]) + Solid(projs[1..])
  }

  function Memory(p: Place): Place { Place(p.root, Solid(p.projs)) }

  /** Two places of one local meet in memory. */
  predicate Meets(a: Place, b: Place) { Overlaps(Memory(a), Memory(b)) }

  /** The zipped comparison the prefix test runs. */
  method PrefixTest(a: Place, b: Place) returns (r: bool)
    ensures r == IsPrefixOf(a, b)
  {
    if a.root != b.root || |a.projs| > |b.projs| { return false; }
    var i := 0;
    while i < |a.projs|
      invariant 0 <= i <= |a.projs| && a.projs[..i] == b.projs[..i]
    {
      if a.projs[i] != b.projs[i] { return false; }
      i := i + 1;
    }
    return true;
  }

  /** Two places overlap exactly when some memory lies under both. */
  lemma OverlapIffCommonExtension(a: Place, b: Place)
    ensures Overlaps(a, b) <==> exists c :: IsPrefixOf(a, c) && IsPrefixOf(b, c)
  {
    if Overlaps(a, b) {
      var c := if IsPrefixOf(a, b) then b else a;
      assert IsPrefixOf(a, c) && IsPrefixOf(b, c);
    }
    if c :| IsPrefixOf(a, c) && IsPrefixOf(b, c) {
      if |a.projs| <= |b.projs| {
        assert a.projs == c.projs[..|b.projs|][..|a.projs|];
      } else {
        assert b.projs == c.projs[..|a.projs|][..|b.projs|];
      }
    }
  }

  /** Truncation never separates places that overlap. */
  lemma TruncateIsConservative(a: Place, b: Place)
    requires Overlaps(a, b)
    ensures Overlaps(Truncate(a), Truncate(b))
  {
    if a.projs != [] && b.projs != [] { assert a.projs[0] == b.projs[0]; }
  }

  lemma {:induction false} SolidSplits(a: seq<Proj>, b: seq<Proj>)
    ensures Solid(a + b) == Solid(a) + Solid(b)
    decreases |a|
  {
    if a == [] {
      assert a + b == b;
    } else {
      assert (a + b)[0] == a[0] && (a + b)[1..] == a[1..] + b;
      SolidSplits(a[1..], b);
    }
  }

  /** Places that overlap meet. */
  lemma OverlapsMeet(a: Place, b: Place)
    requires Overlaps(a, b)
    ensures Meets(a, b)
  {
    if IsPrefixOf(a, b) {
      assert b.projs == a.projs + b.projs[|a.projs|..];
      SolidSplits(a.projs, b.projs[|a.projs|..]);
    } else {
      assert a.projs == b.projs + a.projs[|b.projs|..];
      SolidSplits(b.projs, a.projs[|b.projs|..]);
    }
  }

  /** The checker tells two places that meet apart exactly when one of them starts
      with a dereference and the other with something else. */
  lemma MeetsTruncated(a: Place, b: Place)
    requires Meets(a, b)
    ensures !Overlaps(Truncate(a), Truncate(b))
       <==> a.projs != [] && b.projs != [] && (a.projs[0].DerefOf? <==> !b.projs[0].DerefOf?)
  {
    if a.projs != [] && b.projs != [] {
      if !a.projs[0].DerefOf? && !b.projs[0].DerefOf? {
        assert Solid(a.projs)[0] == a.projs[0] && Solid(b.projs)[0] == b.projs[0];
      }
      assert Truncate(a).projs[0] == a.projs[0] && Truncate(b).projs[0] == b.projs[0];
    }
  }

  /** Truncating after every step is truncating the full path once. */
  lemma TruncateStepwise(p: Place, proj: Proj)
    ensures Truncate(Extend(Truncate(p), proj)) == Truncate(Extend(p, proj))
  {
  }
}
