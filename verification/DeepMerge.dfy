/** Field-level merging of configuration values. */
module DeepMerges {
  import opened Json
  import opened Options

  const EMPTY: Json := Object(map[])

  function FieldOr(v: Json, k: string, default: Json): Json
    requires v.Object?
  {
    if k in v.fields then v.fields[k] else default
  }

  /** The overlay's keys that take part: a null in an overlay object leaves the base alone. */
  function Effective(overlay: map<string, Json>): set<string> {
    set k | k in overlay && !overlay[k].Null?
  }

  /** The meaning of a merge, key by key, with no order among the keys. */
  function Merge(base: Json, overlay: Json): Json
    decreases overlay
  {
    if base.Object? && overlay.Object? then
      var o := overlay.fields;
      Object(map k | k in base.fields.Keys + Effective(o) ::
        if k in o && o[k].Object? then Merge(FieldOr(base, k, EMPTY), o[k])
        else if k in o && !o[k].Null? then o[k]
        else base.fields[k])
    else overlay
  }

  /** The loop over the overlay, taking its keys in whatever order: the result does not depend on it. */
  method DeepMerge(base: Json, overlay: Json) returns (merged: Json)
    ensures merged == Merge(base, overlay)
    decreases overlay
  {
    if !(base.Object? && overlay.Object?) {
      return overlay;
    }
    var baseMap, overlayMap := base.fields, overlay.fields;
    var todo := overlayMap.Keys;
    while todo != {}
      invariant todo <= overlayMap.Keys
      invariant baseMap.Keys == base.fields.Keys + (Effective(overlayMap) - todo)
      invariant forall k :: k in baseMap ==>
        baseMap[k] == (if k in overlayMap && k !in todo && !overlayMap[k].Null?
          then Merge(base, overlay).fields[k] else base.fields[k])
      decreases todo
    {
      var k :| k in todo;
      var v := overlayMap[k];
      todo := todo - {k};
      if v.Null? {
        continue;
      }
      if v.Object? {
        var child := if k in baseMap then baseMap[k] else EMPTY;
        var mergedChild := DeepMerge(child, v);
        baseMap := baseMap[k := mergedChild];
      } else {
        baseMap := baseMap[k := v];
      }
    }
    assert Effective(overlayMap) - todo == Effective(overlayMap);
    assert baseMap == Merge(base, overlay).fields;
    merged := Object(baseMap);
  }

  // ----- laws that hold for all values -----

  lemma {:induction false} MergeIdempotent(x: Json)
    ensures Merge(x, x) == x
    decreases x
  {
    if x.Object? {
      forall k | k in x.fields && x.fields[k].Object? ensures Merge(x.fields[k], x.fields[k]) == x.fields[k] {
        MergeIdempotent(x.fields[k]);
      }
      assert Merge(x, x).fields == x.fields;
    }
  }

  /** Applying the same overlay again changes nothing. */
  lemma {:induction false} MergeAgain(a: Json, b: Json)
    ensures Merge(Merge(a, b), b) == Merge(a, b)
    decreases b
  {
    if a.Object? && b.Object? {
      var once := Merge(a, b);
      forall k | k in b.fields && b.fields[k].Object? ensures Merge(once.fields[k], b.fields[k]) == once.fields[k] {
        MergeAgain(FieldOr(a, k, EMPTY), b.fields[k]);
      }
      assert Merge(once, b).fields == once.fields;
    } else {
      MergeIdempotent(b);
    }
  }

  // ----- which side supplies a path -----

  type Path = seq<string>

  /** Following a path ends at a value, at an object that lacks the next key, or at a value that is no object. */
  datatype Walk = Found(v: Json) | Missing | Blocked

  function Follow(v: Json, path: Path): Walk {
    if path == [] then Found(v)
    else if !v.Object? then Blocked
    else if path[0] !in v.fields then Missing
    else Follow(v.fields[path[0]], path[1..])
  }

  predicate ReachesObject(w: Walk) { w.Found? && w.v.Object? }

  /** After i keys the overlay has an answer of its own: a value that is no object and, inside it, not null. */
  predicate EndsInLeaf(b: Json, path: Path, i: nat)
    requires i <= |path|
  {
    var w := Follow(b, path[..i]);
    w.Found? && !w.v.Object? && (i > 0 ==> !w.v.Null?)
  }

  /** After i keys the overlay has an object, but under the next key nothing or a null. */
  predicate FallsSilent(b: Json, path: Path, i: nat)
    requires i < |path|
  {
    ReachesObject(Follow(b, path[..i]))
      && (Follow(b, path[..i + 1]) == Missing || Follow(b, path[..i + 1]) == Found(Null))
  }

  /** Every path through every overlay is of one of three kinds. */
  lemma {:induction false} OverlayWalkKinds(b: Json, path: Path)
    ensures ReachesObject(Follow(b, path)) || (exists i :: 0 <= i <= |path| && EndsInLeaf(b, path, i))
      || (exists i :: 0 <= i < |path| && FallsSilent(b, path, i))
    decreases |path|
  {
    assert path[..0] == [];
    if path != [] && b.Object? {
      var k := path[0];
      assert path[..1] == [k] && path[..1][1..] == [];
      if k !in b.fields || b.fields[k].Null? {
        assert FallsSilent(b, path, 0);
      } else {
        var v, rest := b.fields[k], path[1..];
        OverlayWalkKinds(v, rest);
        forall i | 0 <= i <= |rest| ensures Follow(b, path[..i + 1]) == Follow(v, rest[..i]) {
          assert path[..i + 1][0] == k && path[..i + 1][1..] == rest[..i];
        }
        if i :| 0 <= i <= |rest| && EndsInLeaf(v, rest, i) {
          assert EndsInLeaf(b, path, i + 1);
        } else if i :| 0 <= i < |rest| && FallsSilent(v, rest, i) {
          assert FallsSilent(b, path, i + 1);
        }
      }
    } else if !b.Object? {
      assert EndsInLeaf(b, path, 0);
    }
  }

  /** What the merge puts under a key that the overlay holds an object for. */
  lemma FollowMergedChild(a: Json, b: Json, path: Path)
    requires a.Object? && b.Object? && path != [] && path[0] in b.fields && b.fields[path[0]].Object?
    ensures Follow(Merge(a, b), path) == Follow(Merge(FieldOr(a, path[0], EMPTY), b.fields[path[0]]), path[1..])
  {}

  /** A leaf of the overlay wins, at its own path and for everything behind it. */
  lemma {:induction false} OverlayLeafWins(a: Json, b: Json, path: Path, i: nat)
    requires i <= |path| && EndsInLeaf(b, path, i)
    ensures Follow(Merge(a, b), path) == Follow(b, path)
    decreases i
  {
    if a.Object? && b.Object? && i > 0 {
      var k := path[0];
      assert path[..i][0] == k && path[..i][1..] == path[1..][..i - 1];
      assert Follow(b, path[..i]) == Follow(b.fields[k], path[1..][..i - 1]);
      if b.fields[k].Object? {
        FollowMergedChild(a, b, path);
        OverlayLeafWins(FieldOr(a, k, EMPTY), b.fields[k], path[1..], i - 1);
      }
    }
  }

  /** Where the overlay's objects end without an answer -- key absent, or null -- the base answers, if its
      objects reach that far; if a value of the base stands in the way, the overlay stands as it is; and if the base
      ends even earlier, there is nothing. */
  lemma {:induction false} SilentOverlayLeavesBase(a: Json, b: Json, path: Path, i: nat)
    requires i < |path| && FallsSilent(b, path, i)
    ensures Follow(Merge(a, b), path) == match Follow(a, path[..i])
      case Found(v) => if v.Object? then Follow(a, path) else Follow(b, path)
      case Missing => Missing
      case Blocked => Follow(b, path)
    decreases i
  {
    var k := path[0];
    assert path[..0] == [] && path[..1] == [k] && path[..1][1..] == [];
    if a.Object? && i > 0 {
      assert path[..i][0] == k && path[..i][1..] == path[1..][..i - 1];
      assert path[..i + 1][0] == k && path[..i + 1][1..] == path[1..][..i];
      var v := b.fields[k];
      assert Follow(b, path[..i]) == Follow(v, path[1..][..i - 1]);
      assert FallsSilent(v, path[1..], i - 1);
      FollowMergedChild(a, b, path);
      SilentOverlayLeavesBase(FieldOr(a, k, EMPTY), v, path[1..], i - 1);
      if k !in a.fields {
        EmptyWalk(path[1..][..i - 1]);
        EmptyWalk(path[1..]);
      }
    } else if a.Object? {
      assert k !in b.fields || Follow(b, path[..1]) == Found(b.fields[k]);
    }
  }

  lemma EmptyWalk(path: Path)
    ensures Follow(EMPTY, path) == if path == [] then Found(EMPTY) else Missing
  {}

  /** Where the overlay has an object, the two sides are merged there, unless the base cannot be followed that far. */
  lemma {:induction false} OverlayObjectMerges(a: Json, b: Json, path: Path)
    requires ReachesObject(Follow(b, path))
    ensures Follow(Merge(a, b), path) == match Follow(a, path)
      case Found(v) => Found(Merge(v, Follow(b, path).v))
      case Missing => Found(Merge(EMPTY, Follow(b, path).v))
      case Blocked => Follow(b, path)
    decreases |path|
  {
    if path != [] && a.Object? {
      var k := path[0];
      assert ReachesObject(Follow(b.fields[k], path[1..]));
      OverlayObjectMerges(FieldOr(a, k, EMPTY), b.fields[k], path[1..]);
      FollowMergedChild(a, b, path);
      EmptyWalk(path[1..]);
    }
  }

  // ----- associativity -----

  predicate NullFree(v: Json) {
    v.Object? ==> forall k :: k in v.fields ==> !v.fields[k].Null? && NullFree(v.fields[k])
  }

  /** Under base, the overlay may be stripped of its nulls first: wherever an object of it lands on a value that is
      no object, it has none. */
  predicate NullsDoNotMatter(base: Json, overlay: Json) {
    overlay.Object? ==>
      if !base.Object? then NullFree(overlay)
      else forall k ::
        k in overlay.fields && k in base.fields && overlay.fields[k].Object? ==>
          NullsDoNotMatter(base.fields[k], overlay.fields[k])
  }

  /** Nothing of base would survive in the merge, and nothing of overlay would be dropped. */
  predicate Absorbs(overlay: Json, base: Json) {
    base.Object? && overlay.Object? ==>
      && (forall k :: k in base.fields ==> k in overlay.fields)
      && (forall k :: k in overlay.fields ==>
            match overlay.fields[k]
            case Null => k in base.fields && base.fields[k].Null?
            case Object(_) => Absorbs(overlay.fields[k], FieldOr(base, k, EMPTY))
            case _ => true)
  }

  /** The shapes for which merging associates: followed down the keys that all three share, a value of the middle
      that is no object must not hide anything of the left from the right, and a key missing in the middle must not
      let a null of the right through. */
  predicate Associates(a: Json, b: Json, c: Json)
    decreases c, 1
  {
    c.Object? && a.Object? ==>
      if !b.Object? then Absorbs(c, a)
      else forall k :: k in c.fields && c.fields[k].Object? ==> AssociatesAt(a, b, c, k)
  }

  /** What associativity asks of one key of three objects. */
  predicate AssociatesAt(a: Json, b: Json, c: Json, k: string)
    requires a.Object? && b.Object? && c.Object?
    decreases c, 0
  {
    k in c.fields && c.fields[k].Object? ==>
      var x, z := FieldOr(a, k, EMPTY), c.fields[k];
      if k !in b.fields then NullsDoNotMatter(x, z)
      else match b.fields[k]
        case Null => true
        case Object(_) => Associates(x, b.fields[k], z)
        case _ => Absorbs(z, x)
  }

  lemma {:induction false} AbsorbsExactly(overlay: Json, base: Json)
    ensures Merge(base, overlay) == overlay <==> Absorbs(overlay, base)
    decreases overlay
  {
    if base.Object? && overlay.Object? {
      var m, o := Merge(base, overlay).fields, overlay.fields;
      forall k | k in o && o[k].Object?
        ensures m[k] == o[k] <==> Absorbs(o[k], FieldOr(base, k, EMPTY))
      {
        AbsorbsExactly(o[k], FieldOr(base, k, EMPTY));
      }
      if Absorbs(overlay, base) {
        assert m == o;
      }
      if m == o {
        forall k | k in base.fields ensures k in o {
          assert k in m;
        }
        forall k | k in o && o[k].Null? ensures k in base.fields && base.fields[k].Null? {
          assert k in m;
        }
      }
    }
  }

  /** Stripping the nulls of an overlay first is invisible exactly when they never matter. */
  lemma {:induction false} PrunedOverlay(base: Json, overlay: Json)
    requires overlay.Object?
    ensures Merge(base, Merge(EMPTY, overlay)) == Merge(base, overlay) <==> NullsDoNotMatter(base, overlay)
    decreases overlay
  {
    var pruned, o := Merge(EMPTY, overlay), overlay.fields;
    if !base.Object? {
      NullFreeExactly(overlay);
    } else {
      var m, n := Merge(base, pruned).fields, Merge(base, overlay).fields;
      assert pruned.fields.Keys == Effective(o);
      forall k | k in pruned.fields ensures !pruned.fields[k].Null? {
        MergeOntoGivesObject(EMPTY, o[k]);
      }
      assert Effective(pruned.fields) == Effective(o);
      assert m.Keys == n.Keys;
      forall k | k in m ensures m[k] == n[k]
        <==> (k in o && k in base.fields && o[k].Object? ==> NullsDoNotMatter(base.fields[k], o[k])) {
        if k in o && o[k].Object? {
          assert pruned.fields[k] == Merge(EMPTY, o[k]);
          PrunedOverlay(FieldOr(base, k, EMPTY), o[k]);
          if k !in base.fields {
            EmptyBaseHidesNulls(o[k]);
          }
        }
      }
      if m != n {
        var k :| k in m && m[k] != n[k];
      }
    }
  }

  /** Merging onto nothing strips the nulls; it leaves exactly the null-free values alone. */
  lemma {:induction false} NullFreeExactly(overlay: Json)
    requires overlay.Object?
    ensures Merge(EMPTY, overlay) == overlay <==> NullFree(overlay)
    decreases overlay
  {
    var m, o := Merge(EMPTY, overlay).fields, overlay.fields;
    forall k | k in o && o[k].Object? ensures m[k] == o[k] <==> NullFree(o[k]) {
      NullFreeExactly(o[k]);
    }
    if m == o {
      forall k | k in o ensures !o[k].Null? {
        assert k in m;
      }
    }
    if NullFree(overlay) {
      assert m.Keys == o.Keys;
    }
  }

  lemma MergeOntoGivesObject(base: Json, overlay: Json)
    ensures Merge(base, overlay).Null? <==> overlay.Null?
    ensures Merge(base, overlay).Object? <==> overlay.Object?
  {}

  lemma EmptyBaseHidesNulls(overlay: Json)
    requires overlay.Object?
    ensures NullsDoNotMatter(EMPTY, overlay)
  {}

  lemma {:induction false} MergeAssociatesAt(a: Json, b: Json, c: Json, k: string)
    requires a.Object? && b.Object? && c.Object?
    requires k in Merge(Merge(a, b), c).fields
    ensures k in Merge(a, Merge(b, c)).fields
    ensures Merge(Merge(a, b), c).fields[k] == Merge(a, Merge(b, c)).fields[k] <==> AssociatesAt(a, b, c, k)
    decreases c, 0
  {
    var ab, bc := Merge(a, b), Merge(b, c);
    if k in c.fields && c.fields[k].Object? {
      var x, z := FieldOr(a, k, EMPTY), c.fields[k];
      MergeOntoGivesObject(FieldOr(b, k, EMPTY), z);
      assert bc.fields[k] == Merge(FieldOr(b, k, EMPTY), z);
      assert Merge(a, bc).fields[k] == Merge(x, bc.fields[k]);
      assert Merge(ab, c).fields[k] == Merge(FieldOr(ab, k, EMPTY), z);
      if k !in b.fields {
        PrunedOverlay(x, z);
      } else if b.fields[k].Object? {
        assert ab.fields[k] == Merge(x, b.fields[k]);
        MergeAssociatesExactly(x, b.fields[k], z);
      } else if !b.fields[k].Null? {
        AbsorbsExactly(z, x);
      }
    } else if k in c.fields && !c.fields[k].Null? {
    } else {
      if k in b.fields && b.fields[k].Object? {
        MergeOntoGivesObject(FieldOr(a, k, EMPTY), b.fields[k]);
      }
    }
  }

  /** Merging three values associates exactly for the shapes described by Associates. */
  lemma {:induction false} MergeAssociatesExactly(a: Json, b: Json, c: Json)
    ensures Merge(Merge(a, b), c) == Merge(a, Merge(b, c)) <==> Associates(a, b, c)
    decreases c, 1
  {
    if c.Object? && a.Object? {
      if !b.Object? {
        AbsorbsExactly(c, a);
      } else {
        var left, right := Merge(Merge(a, b), c).fields, Merge(a, Merge(b, c)).fields;
        forall k | k in left ensures k in right && (left[k] == right[k] <==> AssociatesAt(a, b, c, k)) {
          MergeAssociatesAt(a, b, c, k);
        }
        forall k | k in right ensures k in left {
          if k in b.fields && b.fields[k].Object? {
            MergeOntoGivesObject(FieldOr(a, k, EMPTY), b.fields[k]);
          }
        }
        if left == right {
          forall k | k in c.fields && c.fields[k].Object? ensures AssociatesAt(a, b, c, k) {
            assert k in left;
          }
        }
      }
    }
  }

  /** The same paths lead to objects on both sides, as far as both have them. */
  predicate Agree(x: Json, y: Json) {
    && (x.Object? <==> y.Object?)
    && (x.Object? ==> forall k :: k in x.fields && k in y.fields ==> Agree(x.fields[k], y.fields[k]))
  }

  lemma {:induction false} AgreementHidesNulls(base: Json, overlay: Json)
    requires Agree(base, overlay)
    ensures NullsDoNotMatter(base, overlay)
    decreases overlay
  {
    if overlay.Object? {
      forall k | k in overlay.fields && k in base.fields && overlay.fields[k].Object?
        ensures NullsDoNotMatter(base.fields[k], overlay.fields[k])
      {
        AgreementHidesNulls(base.fields[k], overlay.fields[k]);
      }
    }
  }

  lemma {:induction false} AgreeingShapesAssociate(a: Json, b: Json, c: Json)
    requires Agree(a, b) && Agree(b, c) && Agree(a, c)
    ensures Associates(a, b, c)
    decreases c
  {
    if c.Object? {
      forall k | k in c.fields && c.fields[k].Object? ensures AssociatesAt(a, b, c, k) {
        var x, z := FieldOr(a, k, EMPTY), c.fields[k];
        assert Agree(x, z);
        if k in b.fields {
          AgreeingShapesAssociate(x, b.fields[k], z);
        } else {
          AgreementHidesNulls(x, z);
        }
      }
    }
  }

  /** Values that agree path by path on what is an object merge associatively, nulls or not. */
  lemma {:induction false} AgreeingValuesAssociate(a: Json, b: Json, c: Json)
    requires Agree(a, b) && Agree(b, c) && Agree(a, c)
    ensures Merge(Merge(a, b), c) == Merge(a, Merge(b, c))
  {
    AgreeingShapesAssociate(a, b, c);
    MergeAssociatesExactly(a, b, c);
  }

  function Single(k: string, v: Json): Json { Object(map[k := v]) }

  lemma SingleNullFree(k: string, v: Json)
    requires !v.Null? && NullFree(v)
    ensures NullFree(Single(k, v))
  {}

  /** Null-free values need not: a middle value that is no object makes the left side forget an object. */
  lemma DisagreeingShapesBreakAssociativity()
    ensures var a, b, c := Single("k", Single("x", Bool(true))), Single("k", Bool(true)), Single("k", EMPTY);
      && NullFree(a) && NullFree(b) && NullFree(c)
      && Merge(Merge(a, b), c) != Merge(a, Merge(b, c))
  {
    var inner := Single("x", Bool(true));
    var a, b, c := Single("k", inner), Single("k", Bool(true)), Single("k", EMPTY);
    SingleNullFree("x", Bool(true));
    SingleNullFree("k", inner);
    SingleNullFree("k", Bool(true));
    SingleNullFree("k", EMPTY);
    assert "x" in inner.fields && "x" !in EMPTY.fields;
    assert !Absorbs(EMPTY, inner);
    assert !AssociatesAt(a, b, c, "k");
    MergeAssociatesExactly(a, b, c);
  }

  /** Where shapes disagree a null makes the difference: every null-free value of the same shape associates. */
  lemma {:induction false} NullsBreakAssociativity()
    ensures var a, c := Single("k", Bool(true)), Single("k", Single("n", Null));
      && Merge(Merge(a, EMPTY), c) != Merge(a, Merge(EMPTY, c))
      && (forall d :: NullFree(d) ==> Merge(Merge(a, EMPTY), d) == Merge(a, Merge(EMPTY, d)))
  {
    var a, inner := Single("k", Bool(true)), Single("n", Null);
    var c := Single("k", inner);
    assert inner.fields["n"].Null? && c.fields["k"] == inner;
    assert !NullsDoNotMatter(Bool(true), inner);
    assert !AssociatesAt(a, EMPTY, c, "k");
    MergeAssociatesExactly(a, EMPTY, c);
    forall d | NullFree(d) ensures Merge(Merge(a, EMPTY), d) == Merge(a, Merge(EMPTY, d)) {
      if d.Object? {
        forall k | k in d.fields && d.fields[k].Object? ensures AssociatesAt(a, EMPTY, d, k) {
          assert NullFree(d.fields[k]);
        }
      }
      MergeAssociatesExactly(a, EMPTY, d);
    }
  }
}
