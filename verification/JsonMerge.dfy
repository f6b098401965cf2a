/**
 Three-way merge over JSON trees, in the five forms the program writes it:
 a success test, a "changes nothing" test, an effect check, the merge itself,
 and a forced overlay.  Keys are a type parameter, so the laws hold for the
 key names of any record.
 */
module JsonMerge {
  import opened Wrappers

  datatype Json<!K(==)> =
    | Null
    | Bool(flag: bool)
    | Num(number: int)
    | Str(text: string)
    | Arr(items: seq<Json<K>>)
    | Obj(fields: map<K, Json<K>>)

  /** Same number of keys and every left key present on the right. */
  predicate SameKeys<K>(left: map<K, Json<K>>, right: map<K, Json<K>>)
    ensures SameKeys(left, right) <==> left.Keys == right.Keys
  {
    SameKeysMeansEqual(left, right);
    |left| == |right| && forall k :: k in left ==> k in right
  }

  lemma {:induction false} SameKeysMeansEqual<K>(left: map<K, Json<K>>, right: map<K, Json<K>>)
    ensures (|left| == |right| && forall k :: k in left ==> k in right) <==> left.Keys == right.Keys
  {
    assert |left| == |left.Keys| && |right| == |right.Keys|;
    if |left| == |right| && forall k :: k in left ==> k in right {
      assert left.Keys <= right.Keys;
      SubsetOfSameSize(left.Keys, right.Keys);
    }
  }

  lemma {:induction false} SubsetOfSameSize<T>(a: set<T>, b: set<T>)
    requires a <= b && |a| == |b|
    ensures a == b
  {
    assert b == a + (b - a);
    assert |b| == |a| + |b - a|;
  }

  /** All three are objects with the same key set, so the merge descends. */
  predicate Descends<K>(before: Json<K>, after: Json<K>, current: Json<K>) {
    before.Obj? && after.Obj? && current.Obj? &&
    SameKeys(before.fields, after.fields) && SameKeys(before.fields, current.fields)
  }

  predicate Compatible<K>(before: Json<K>, after: Json<K>, current: Json<K>) {
    if before == after then true
    else if Descends(before, after, current) then
      forall k :: k in before.fields ==> Compatible(before.fields[k], after.fields[k], current.fields[k])
    else current == before || current == after
  }

  predicate ChangedEqual<K>(before: Json<K>, after: Json<K>, left: Json<K>, right: Json<K>) {
    if before == after then true
    else if Descends(before, after, left) && right.Obj? && SameKeys(before.fields, right.fields) then
      forall k :: k in before.fields ==>
        ChangedEqual(before.fields[k], after.fields[k], left.fields[k], right.fields[k])
    else left == right
  }

  predicate Effect<K>(before: Json<K>, after: Json<K>, actualBefore: Json<K>, actualAfter: Json<K>) {
    if before == after then actualBefore == actualAfter
    else if Descends(before, after, actualBefore) && actualAfter.Obj? && SameKeys(before.fields, actualAfter.fields) then
      forall k :: k in before.fields ==>
        Effect(before.fields[k], after.fields[k], actualBefore.fields[k], actualAfter.fields[k])
    else actualAfter == after && (actualBefore == before || actualBefore == after)
  }

  function Merge<K>(before: Json<K>, after: Json<K>, current: Json<K>): (merged: Option<Json<K>>) {
    if before == after then Some(current)
    else if Descends(before, after, current) then
      if forall k :: k in before.fields ==> Merge(before.fields[k], after.fields[k], current.fields[k]).Some? then
        Some(Obj(map k | k in before.fields :: Merge(before.fields[k], after.fields[k], current.fields[k]).value))
      else None
    else if current == before || current == after then Some(after)
    else None
  }

  lemma {:induction false} EffectIsMerge<K>(b: Json<K>, a: Json<K>, c: Json<K>, m: Json<K>)
    ensures Effect(b, a, c, m) <==> Merge(b, a, c) == Some(m)
  {
    if b != a && Descends(b, a, c) {
      if m.Obj? && SameKeys(b.fields, m.fields) {
        forall k | k in b.fields
          ensures Effect(b.fields[k], a.fields[k], c.fields[k], m.fields[k]) <==>
                  Merge(b.fields[k], a.fields[k], c.fields[k]) == Some(m.fields[k])
        {
          EffectIsMerge(b.fields[k], a.fields[k], c.fields[k], m.fields[k]);
        }
        if Effect(b, a, c, m) {
          assert Merge(b, a, c).value.fields == m.fields;
        }
      }
    }
  }

  lemma {:induction false} CompatibleIsMergeable<K>(b: Json<K>, a: Json<K>, c: Json<K>)
    ensures Compatible(b, a, c) <==> Merge(b, a, c).Some?
  {
    if b != a && Descends(b, a, c) {
      forall k | k in b.fields
        ensures Compatible(b.fields[k], a.fields[k], c.fields[k]) <==>
                Merge(b.fields[k], a.fields[k], c.fields[k]).Some?
      {
        CompatibleIsMergeable(b.fields[k], a.fields[k], c.fields[k]);
      }
    }
  }

  /** A change counts as already made exactly when merging it changes nothing. */
  lemma {:induction false} ChangedEqualIsNoOp<K>(b: Json<K>, a: Json<K>, c: Json<K>)
    ensures ChangedEqual(b, a, c, a) <==> Merge(b, a, c) == Some(c)
  {
    if b != a && Descends(b, a, c) {
      forall k | k in b.fields
        ensures ChangedEqual(b.fields[k], a.fields[k], c.fields[k], a.fields[k]) <==>
                Merge(b.fields[k], a.fields[k], c.fields[k]) == Some(c.fields[k])
      {
        ChangedEqualIsNoOp(b.fields[k], a.fields[k], c.fields[k]);
      }
      if ChangedEqual(b, a, c, a) {
        assert Merge(b, a, c).value.fields == c.fields;
      }
    }
  }

  lemma {:induction false} MergeOntoBase<K>(b: Json<K>, a: Json<K>)
    ensures Merge(b, a, b) == Some(a)
  {
    if b != a && Descends(b, a, b) {
      forall k | k in b.fields
        ensures Merge(b.fields[k], a.fields[k], b.fields[k]) == Some(a.fields[k])
      {
        MergeOntoBase(b.fields[k], a.fields[k]);
      }
      assert Merge(b, a, b).value.fields == a.fields;
    }
  }

  /** Neither side of a merge is privileged. */
  lemma {:induction false} MergeSymmetric<K>(b: Json<K>, x: Json<K>, y: Json<K>)
    ensures Merge(b, x, y) == Merge(b, y, x)
  {
    if b == x {
      MergeOntoBase(b, y);
    } else if b == y {
      MergeOntoBase(b, x);
    } else if Descends(b, x, y) {
      forall k | k in b.fields
        ensures Merge(b.fields[k], x.fields[k], y.fields[k]) == Merge(b.fields[k], y.fields[k], x.fields[k])
      {
        MergeSymmetric(b.fields[k], x.fields[k], y.fields[k]);
      }
      MergeInside(b, x, y, y, x);
    }
  }

  /** Objects of one shape merge to m when every member does. */
  lemma {:induction false} MembersMerge<K>(b: Json<K>, a: Json<K>, c: Json<K>, m: Json<K>)
    requires Descends(b, a, c) && m.Obj? && m.fields.Keys == b.fields.Keys
    requires forall k :: k in b.fields ==> Merge(b.fields[k], a.fields[k], c.fields[k]) == Some(m.fields[k])
    ensures Merge(b, a, c) == Some(m)
  {
    if b == a {
      assert m.fields == c.fields;
    } else {
      assert Merge(b, a, c).value.fields == m.fields;
    }
  }

  lemma {:induction false} MemberRefuses<K>(b: Json<K>, a: Json<K>, c: Json<K>, k: K)
    requires Descends(b, a, c) && k in b.fields && Merge(b.fields[k], a.fields[k], c.fields[k]).None?
    ensures Merge(b, a, c).None?
  {
  }

  lemma {:induction false} MergeInside<K>(b: Json<K>, a: Json<K>, c: Json<K>, a': Json<K>, c': Json<K>)
    requires b != a && b != a' && Descends(b, a, c) && Descends(b, a', c')
    requires forall k :: k in b.fields ==>
      Merge(b.fields[k], a.fields[k], c.fields[k]) == Merge(b.fields[k], a'.fields[k], c'.fields[k])
    ensures Merge(b, a, c) == Merge(b, a', c')
  {
    if Merge(b, a, c).Some? {
      assert Merge(b, a, c).value.fields == Merge(b, a', c').value.fields;
    }
  }

  lemma {:induction false} MergeIdempotent<K>(b: Json<K>, a: Json<K>, c: Json<K>)
    requires Merge(b, a, c).Some?
    ensures Merge(b, a, Merge(b, a, c).value) == Merge(b, a, c)
  {
    var m := Merge(b, a, c).value;
    if b != a && Descends(b, a, c) {
      forall k | k in b.fields
        ensures Merge(b.fields[k], a.fields[k], m.fields[k]) == Some(m.fields[k])
      {
        MergeIdempotent(b.fields[k], a.fields[k], c.fields[k]);
      }
      assert Merge(b, a, m).value.fields == m.fields;
    } else if b != a && Descends(b, a, m) {
      MergeSelf(b, a);
    }
  }

  lemma {:induction false} MergeSelf<K>(b: Json<K>, a: Json<K>)
    ensures Merge(b, a, a) == Some(a)
  {
    if b != a && Descends(b, a, a) {
      forall k | k in b.fields
        ensures Merge(b.fields[k], a.fields[k], a.fields[k]) == Some(a.fields[k])
      {
        MergeSelf(b.fields[k], a.fields[k]);
      }
      assert Merge(b, a, a).value.fields == a.fields;
    }
  }

  /** A merge that lands back on the base was a merge of no change. */
  lemma {:induction false} MergeReachesBase<K>(b: Json<K>, a: Json<K>, c: Json<K>)
    requires Merge(b, a, c) == Some(b)
    ensures a == b
  {
    if b != a && Descends(b, a, c) {
      forall k | k in b.fields
        ensures a.fields[k] == b.fields[k]
      {
        MergeReachesBase(b.fields[k], a.fields[k], c.fields[k]);
      }
    }
  }

  /** Apply two changes of one base, the first then the second. */
  function MergeBoth<K>(base: Json<K>, first: Json<K>, second: Json<K>, current: Json<K>): Option<Json<K>> {
    match Merge(base, first, current)
    case None => None
    case Some(middle) => Merge(base, second, middle)
  }

  /** Two changes of one base can be applied to any value in either order. */
  lemma {:induction false} MergesCommute<K>(b: Json<K>, x: Json<K>, y: Json<K>, c: Json<K>)
    ensures MergeBoth(b, x, y, c) == MergeBoth(b, y, x, c)
    decreases b, 1
  {
    if b != x && b != y {
      if Descends(b, x, c) && Descends(b, y, c) {
        CommuteInside(b, x, y, c);
      } else {
        OneSidedFails(b, x, y, c);
        OneSidedFails(b, y, x, c);
      }
    }
  }

  lemma {:induction false} CommuteInside<K>(b: Json<K>, x: Json<K>, y: Json<K>, c: Json<K>)
    requires b != x && b != y && Descends(b, x, c) && Descends(b, y, c)
    ensures MergeBoth(b, x, y, c) == MergeBoth(b, y, x, c)
    decreases b, 0
  {
    forall k | k in b.fields
      ensures MergeBoth(b.fields[k], x.fields[k], y.fields[k], c.fields[k]) ==
              MergeBoth(b.fields[k], y.fields[k], x.fields[k], c.fields[k])
    {
      MergesCommute(b.fields[k], x.fields[k], y.fields[k], c.fields[k]);
    }
    MergeBothInside(b, x, y, c);
    MergeBothInside(b, y, x, c);
    BothInsideAgree(b, x, y, c);
  }

  /** Both merges taken key by key. */
  function BothInside<K>(b: Json<K>, x: Json<K>, y: Json<K>, c: Json<K>): Option<Json<K>>
    requires Descends(b, x, c) && Descends(b, y, c)
  {
    if forall k :: k in b.fields ==> MergeBoth(b.fields[k], x.fields[k], y.fields[k], c.fields[k]).Some? then
      Some(Obj(map k | k in b.fields :: MergeBoth(b.fields[k], x.fields[k], y.fields[k], c.fields[k]).value))
    else None
  }

  lemma {:induction false} MergeBothInside<K>(b: Json<K>, x: Json<K>, y: Json<K>, c: Json<K>)
    requires b != x && b != y && Descends(b, x, c) && Descends(b, y, c)
    ensures MergeBoth(b, x, y, c) == BothInside(b, x, y, c)
  {
    if Merge(b, x, c).Some? {
      var m := Merge(b, x, c).value;
      assert Descends(b, y, m);
      if MergeBoth(b, x, y, c).Some? {
        assert MergeBoth(b, x, y, c).value.fields == BothInside(b, x, y, c).value.fields;
      }
    }
  }

  lemma {:induction false} BothInsideAgree<K>(b: Json<K>, x: Json<K>, y: Json<K>, c: Json<K>)
    requires Descends(b, x, c) && Descends(b, y, c)
    requires forall k :: k in b.fields ==>
      MergeBoth(b.fields[k], x.fields[k], y.fields[k], c.fields[k]) ==
      MergeBoth(b.fields[k], y.fields[k], x.fields[k], c.fields[k])
    ensures BothInside(b, x, y, c) == BothInside(b, y, x, c)
  {
    if BothInside(b, x, y, c).Some? {
      assert BothInside(b, x, y, c).value.fields == BothInside(b, y, x, c).value.fields;
    }
  }

  /** Where the shapes differ, two real changes only combine if they are the same change. */
  lemma {:induction false} OneSidedFails<K>(b: Json<K>, x: Json<K>, y: Json<K>, c: Json<K>)
    requires b != x && b != y && !(Descends(b, x, c) && Descends(b, y, c))
    ensures MergeBoth(b, x, y, c) == if x == y && (c == b || c == x) then Some(x) else None
  {
    if x == y && (c == b || c == x) {
      MergeOntoBase(b, x);
      MergeSelf(b, x);
    } else if Merge(b, x, c).Some? {
      var m := Merge(b, x, c).value;
      if m == b {
        MergeReachesBase(b, x, c);
      }
    }
  }

  // Overlay: the forced form used to propose a way out of a conflict.

  /** A missing key reads as null. */
  function At<K>(fields: map<K, Json<K>>, k: K): Json<K> {
    if k in fields then fields[k] else Null
  }

  /** Descends on equal key counts alone, unlike the merge. */
  function Overlay<K>(before: Json<K>, after: Json<K>, current: Json<K>): (forced: Json<K>) {
    if before == after then current
    else if before.Obj? && after.Obj? && current.Obj? &&
            |before.fields| == |after.fields| && |before.fields| == |current.fields| then
      Obj(map k | k in current.fields.Keys + before.fields.Keys ::
            if k in before.fields then
              Overlay(before.fields[k], At(after.fields, k), At(current.fields, k))
            else current.fields[k])
    else after
  }

  /** Wherever overlay descends the key sets agree, so it never invents or loses a key. */
  predicate SameShape<K>(before: Json<K>, after: Json<K>, current: Json<K>) {
    if before == after then true
    else if before.Obj? && after.Obj? && current.Obj? &&
            |before.fields| == |after.fields| && |before.fields| == |current.fields| then
      Descends(before, after, current) &&
      forall k :: k in before.fields ==> SameShape(before.fields[k], after.fields[k], current.fields[k])
    else true
  }

  /** When the merge succeeds, overlay gives the same value exactly on trees of one shape. */
  lemma {:induction false} OverlayIsMerge<K>(b: Json<K>, a: Json<K>, c: Json<K>)
    requires Merge(b, a, c).Some?
    ensures Overlay(b, a, c) == Merge(b, a, c).value <==> SameShape(b, a, c)
  {
    var m, o := Merge(b, a, c).value, Overlay(b, a, c);
    if b != a && Descends(b, a, c) {
      forall k | k in b.fields
        ensures Overlay(b.fields[k], a.fields[k], c.fields[k]) == m.fields[k] <==>
                SameShape(b.fields[k], a.fields[k], c.fields[k])
      {
        OverlayIsMerge(b.fields[k], a.fields[k], c.fields[k]);
      }
      assert o.fields.Keys == m.fields.Keys;
      assert forall k :: k in b.fields ==> o.fields[k] == Overlay(b.fields[k], a.fields[k], c.fields[k]);
      if SameShape(b, a, c) {
        assert o.fields == m.fields;
      }
    } else if b != a && b.Obj? && a.Obj? && c.Obj? && |b.fields| == |a.fields| && |b.fields| == |c.fields| {
      assert b.fields.Keys != a.fields.Keys by { MergeSelf(b, a); }
      assert o.fields.Keys == c.fields.Keys + b.fields.Keys;
      assert !(b.fields.Keys <= a.fields.Keys) by {
        if b.fields.Keys <= a.fields.Keys { SubsetOfSameSize(b.fields.Keys, a.fields.Keys); }
      }
    }
  }

  /** Objects of one shape overlay to m when every member does. */
  lemma {:induction false} MembersOverlay<K>(b: Json<K>, a: Json<K>, c: Json<K>, m: Json<K>)
    requires Descends(b, a, c) && m.Obj? && m.fields.Keys == b.fields.Keys
    requires forall k :: k in b.fields ==> Overlay(b.fields[k], a.fields[k], c.fields[k]) == m.fields[k]
    ensures Overlay(b, a, c) == m
  {
    if b == a {
      assert m.fields == c.fields;
    } else {
      assert |b.fields| == |b.fields.Keys| && |a.fields| == |a.fields.Keys| && |c.fields| == |c.fields.Keys|;
      assert Overlay(b, a, c).fields == m.fields;
    }
  }

  /**
   Why OverlayIsMerge needs the shapes: where the key counts agree but the keys do not, overlay leaves a null behind.
   Rows have fixed keys, so the program never overlays such trees.
   */
  lemma {:induction false} OverlayDiffersOnRenamedKey()
    ensures var b := Obj(map[1 := Bool(true)]); var a := Obj(map[2 := Bool(true)]);
            Merge(b, a, b) == Some(a) && Overlay(b, a, b) == Obj(map[1 := Null])
  {
    var b: Json<int> := Obj(map[1 := Bool(true)]);
    var a: Json<int> := Obj(map[2 := Bool(true)]);
    assert 1 in b.fields && 1 !in a.fields;
    assert |b.fields| == 1 && |a.fields| == 1;
    assert Overlay(b.fields[1], Null, b.fields[1]) == Null;
    assert Overlay(b, a, b).fields == map[1 := Null];
  }
}
