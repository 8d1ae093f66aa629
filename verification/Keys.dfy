/** Compound keys: two texts joined by a colon. */
module Keys {
  function Join(a: string, b: string): string { a + ":" + b }

  predicate ColonFree(s: string) { forall i :: 0 <= i < |s| ==> s[i] != ':' }

  lemma JoinSecondInjective(a: string, x: string, y: string)
    requires Join(a, x) == Join(a, y)
    ensures x == y
  {
    assert x == Join(a, x)[|a| + 1..] && y == Join(a, y)[|a| + 1..];
  }

  /** The first colon marks the end of a colon-free first part. */
  lemma JoinInjective(a: string, x: string, b: string, y: string)
    requires ColonFree(a) && ColonFree(b) && Join(a, x) == Join(b, y)
    ensures a == b && x == y
  {
    var s, t := Join(a, x), Join(b, y);
    assert s[|a|] == ':' && t[|b|] == ':';
    assert forall i :: 0 <= i < |a| ==> s[i] == a[i];
    assert forall i :: 0 <= i < |b| ==> t[i] == b[i];
    assert |a| == |b|;
    assert a == s[..|a|] && b == t[..|b|];
    JoinSecondInjective(a, x, y);
  }

  // ----- key prefixes -----

  /** A layer's keys: bare without a prefix, otherwise joined to it. */
  function BuildKey(prefix: string, key: string): string {
    if prefix == "" then key else Join(prefix, key)
  }

  /** The fixed front of every key a layer builds. */
  function Front(prefix: string): string { if prefix == "" then "" else prefix + ":" }

  lemma BuildKeyInjective(prefix: string, x: string, y: string)
    requires BuildKey(prefix, x) == BuildKey(prefix, y)
    ensures x == y
  {
    if prefix != "" {
      JoinSecondInjective(prefix, x, y);
    }
  }

  ghost predicate Disjoint(p: string, q: string) {
    forall x, y :: BuildKey(p, x) != BuildKey(q, y)
  }

  lemma BuildKeyByFront(prefix: string, key: string)
    ensures BuildKey(prefix, key) == Front(prefix) + key
  {}

  /** Two layers can share a key exactly when the front of one continues the front of the other. */
  lemma DisjointExactly(p: string, q: string)
    ensures Disjoint(p, q) <==> !(Front(p) <= Front(q)) && !(Front(q) <= Front(p))
  {
    if Front(p) <= Front(q) {
      var x := Front(q)[|Front(p)|..];
      BuildKeyByFront(p, x);
      BuildKeyByFront(q, "");
      assert BuildKey(p, x) == BuildKey(q, "");
    } else if Front(q) <= Front(p) {
      var y := Front(p)[|Front(q)|..];
      BuildKeyByFront(q, y);
      BuildKeyByFront(p, "");
      assert BuildKey(p, "") == BuildKey(q, y);
    } else {
      forall x, y ensures BuildKey(p, x) != BuildKey(q, y) {
        BuildKeyByFront(p, x);
        BuildKeyByFront(q, y);
        FrontsOfSame(Front(p), x, Front(q), y);
      }
    }
  }

  lemma FrontsOfSame(a: string, x: string, b: string, y: string)
    ensures a + x == b + y ==> a <= b || b <= a
  {
    if a + x == b + y {
      var s := a + x;
      assert a == s[..|a|] && b == s[..|b|];
      if |a| <= |b| {
        assert a == b[..|a|];
      } else {
        assert b == a[..|b|];
      }
    }
  }

  lemma FrontDeterminesPrefix(p: string, q: string)
    requires ColonFree(p) && ColonFree(q) && p != "" && q != ""
    ensures Front(p) <= Front(q) ==> p == q
  {
    if Front(p) <= Front(q) {
      assert Front(q)[|p|] == Front(p)[|p|] == ':';
      assert forall i :: 0 <= i < |q| ==> Front(q)[i] == q[i] != ':';
      assert p == Front(p)[..|p|] && q == Front(q)[..|q|];
    }
  }

  /** Different prefixes without colons never meet, unless one of them is empty. */
  lemma ColonFreePrefixesDisjoint(p: string, q: string)
    requires ColonFree(p) && ColonFree(q) && p != q
    ensures Disjoint(p, q) <==> p != "" && q != ""
  {
    DisjointExactly(p, q);
    if p != "" && q != "" {
      FrontDeterminesPrefix(p, q);
      FrontDeterminesPrefix(q, p);
    }
  }
}
