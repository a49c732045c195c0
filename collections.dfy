/** Duplicate-free sequences, the way the components hold a JavaScript
    `Set` or a list they keep free of repeats, and `filter` by inequality. */
module Collections {
  predicate Distinct(s: seq<string>)
  {
    forall i, j :: 0 <= i < j < |s| ==> s[i] != s[j]
  }

  /** `set.delete(id)`, or `filter((k) => k !== id)`: the other members
      stay, in their order. */
  function Without(s: seq<string>, id: string): (r: seq<string>)
    ensures forall x :: x in r <==> x in s && x != id
    ensures Distinct(s) ==> Distinct(r)
    ensures |r| <= |s|
    decreases |s|
  {
    if s == [] then []
    else
      var init, last := s[..|s| - 1], s[|s| - 1];
      assert s == init + [last];
      assert Distinct(s) ==> Distinct(init) && last !in init;
      Without(init, id) + (if last != id then [last] else [])
  }

  /** Deleting distributes over concatenation: the kept members keep their
      order. */
  lemma {:induction false} WithoutAppend(x: seq<string>, y: seq<string>, id: string)
    ensures Without(x + y, id) == Without(x, id) + Without(y, id)
    decreases |y|
  {
    if y != [] {
      var init := y[..|y| - 1];
      assert (x + y)[..|x + y| - 1] == x + init;
      WithoutAppend(x, init, id);
    } else {
      assert x + y == x;
    }
  }

  /** A single member is kept exactly when it is not the one deleted. */
  lemma WithoutOne(x: string, id: string)
    ensures Without([x], id) == if x == id then [] else [x]
  {
    assert [x][..0] == [];
  }

  /** Deleting a member that is not there changes nothing. */
  lemma {:induction false} WithoutAbsent(s: seq<string>, id: string)
    requires id !in s
    ensures Without(s, id) == s
    decreases |s|
  {
    if s != [] {
      var init := s[..|s| - 1];
      assert s == init + [s[|s| - 1]];
      WithoutAbsent(init, id);
    }
  }

  /** Dropping the last member, when it is the one deleted, leaves what
      deleting it from the rest leaves. */
  lemma WithoutLast(s: seq<string>, x: string)
    ensures Without(s + [x], x) == Without(s, x)
  {
    assert (s + [x])[..|s|] == s;
  }
}
