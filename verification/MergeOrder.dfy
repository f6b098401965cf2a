/** Many changes of one base, in any order, over trees and over rows. */
module MergeOrder {
  import opened Wrappers
  import opened JsonMerge
  import opened Registrations
  import opened RowMerge

  /** The changes of one base, merged into the current value one after the other. */
  function MergeAll<K>(base: Json<K>, changes: seq<Json<K>>, current: Json<K>): Option<Json<K>> {
    if changes == [] then Some(current)
    else
      match Merge(base, changes[0], current)
      case None => None
      case Some(next) => MergeAll(base, changes[1..], next)
  }

  lemma {:induction false} MergeTwo<K>(b: Json<K>, x: Json<K>, y: Json<K>, rest: seq<Json<K>>, c: Json<K>)
    ensures MergeAll(b, [x, y] + rest, c) ==
            match MergeBoth(b, x, y, c) case None => None case Some(m) => MergeAll(b, rest, m)
  {
    assert ([x, y] + rest)[1..] == [y] + rest && ([y] + rest)[1..] == rest;
  }

  /** Any change can be merged first. */
  lemma {:induction false} BringToFront<K>(b: Json<K>, changes: seq<Json<K>>, i: nat, c: Json<K>)
    requires i < |changes|
    ensures MergeAll(b, changes, c) == MergeAll(b, [changes[i]] + changes[..i] + changes[i + 1..], c)
    decreases i
  {
    if i == 0 {
      assert [changes[0]] + changes[..0] + changes[1..] == changes;
    } else {
      var x, y, tail := changes[0], changes[i], changes[1..i] + changes[i + 1..];
      assert changes[1..][..i - 1] == changes[1..i] && changes[1..][i..] == changes[i + 1..];
      assert [y] + changes[1..i] + changes[i + 1..] == [y] + tail;
      assert [y] + changes[..i] + changes[i + 1..] == [y, x] + tail;
      if Merge(b, x, c).Some? {
        BringToFront(b, changes[1..], i - 1, Merge(b, x, c).value);
      }
      assert ([x] + ([y] + tail))[1..] == [y] + tail && [x] + ([y] + tail) == [x, y] + tail;
      assert MergeAll(b, changes, c) == MergeAll(b, [x, y] + tail, c);
      MergeTwo(b, x, y, tail, c);
      MergeTwo(b, y, x, tail, c);
      MergesCommute(b, x, y, c);
    }
  }

  /** Where the first of xs stands in a reordering, and what is left without it. */
  lemma {:induction false} FindFirst<T>(xs: seq<T>, ys: seq<T>) returns (i: nat)
    requires xs != [] && multiset(xs) == multiset(ys)
    ensures i < |ys| && ys[i] == xs[0] && multiset(xs[1..]) == multiset(ys[..i] + ys[i + 1..])
  {
    assert xs[0] in multiset(xs);
    i :| 0 <= i < |ys| && ys[i] == xs[0];
    assert xs == [xs[0]] + xs[1..] && ys == ys[..i] + ([ys[i]] + ys[i + 1..]);
    assert multiset(xs[1..]) == multiset(xs) - multiset{xs[0]};
    assert multiset(ys[..i] + ys[i + 1..]) == multiset(ys) - multiset{ys[i]};
  }

  lemma {:induction false} MergeFirst<K>(b: Json<K>, x: Json<K>, rest: seq<Json<K>>, c: Json<K>)
    ensures MergeAll(b, [x] + rest, c) == match Merge(b, x, c) case None => None case Some(m) => MergeAll(b, rest, m)
  {
    assert ([x] + rest)[1..] == rest;
  }

  /** Any number of changes of one base can be merged in any order, with the same success and the same result. */
  lemma {:induction false} MergeAllIgnoresOrder<K>(b: Json<K>, xs: seq<Json<K>>, ys: seq<Json<K>>, c: Json<K>)
    requires multiset(xs) == multiset(ys)
    ensures MergeAll(b, xs, c) == MergeAll(b, ys, c)
    decreases |xs|
  {
    if xs == [] {
      assert |multiset(ys)| == 0;
    } else {
      var i := FindFirst(xs, ys);
      BringToFront(b, ys, i, c);
      assert [ys[i]] + ys[..i] + ys[i + 1..] == [xs[0]] + (ys[..i] + ys[i + 1..]);
      MergeFirst(b, xs[0], ys[..i] + ys[i + 1..], c);
      if Merge(b, xs[0], c).Some? {
        MergeAllIgnoresOrder(b, xs[1..], ys[..i] + ys[i + 1..], Merge(b, xs[0], c).value);
      }
    }
  }

  // Rows.

  /** Rows, and the people on them, have fixed keys: overlay never meets trees of different shapes. */
  lemma {:induction false} RowsShareShape(b: Registration, a: Registration, c: Registration)
    ensures SameShape(Encode(b), Encode(a), Encode(c))
  {
    RowShape(b, a, c);
    forall k | k in Encode(b).fields
      ensures SameShape(Encode(b).fields[k], Encode(a).fields[k], Encode(c).fields[k])
    {
      FieldsShareShape(b, a, c, k);
    }
    ShapeInside(Encode(b), Encode(a), Encode(c));
  }

  lemma {:induction false} ShapeInside(b: Tree, a: Tree, c: Tree)
    requires Descends(b, a, c) && forall k :: k in b.fields ==> SameShape(b.fields[k], a.fields[k], c.fields[k])
    ensures SameShape(b, a, c)
  {
  }

  lemma {:induction false} FieldsShareShape(b: Registration, a: Registration, c: Registration, k: Field)
    ensures SameShape(FieldTree(b, k), FieldTree(a, k), FieldTree(c, k))
  {
    PeopleShareShape(b.person, a.person, c.person);
  }

  lemma {:induction false} PeopleShareShape(b: Option<Person>, a: Option<Person>, c: Option<Person>)
    ensures SameShape(EncodePerson(b), EncodePerson(a), EncodePerson(c))
  {
    if b.Some? && a.Some? && c.Some? {
      PersonShape(b.value, a.value, c.value);
    }
  }

  /** So on rows overlay is the merge wherever the merge succeeds. */
  lemma {:induction false} RowOverlayIsMerge(b: Registration, a: Registration, c: Registration)
    requires Merge(Encode(b), Encode(a), Encode(c)).Some?
    ensures Overlay(Encode(b), Encode(a), Encode(c)) == Merge(Encode(b), Encode(a), Encode(c)).value
  {
    RowsShareShape(b, a, c);
    OverlayIsMerge(Encode(b), Encode(a), Encode(c));
  }

  /** The changes of one base row, merged into the current row one after the other, as the feed does. */
  function MergeFeedRows(base: Registration, changes: seq<Registration>, current: Registration): Option<Registration> {
    if changes == [] then Some(current)
    else
      match MergeFeedRow(base, changes[0], current)
      case None => None
      case Some(next) => MergeFeedRows(base, changes[1..], next)
  }

  function Projections(rows: seq<Registration>): seq<Tree> {
    if rows == [] then [] else [Projection(rows[0])] + Projections(rows[1..])
  }

  lemma {:induction false} ProjectionsJoin(xs: seq<Registration>, ys: seq<Registration>)
    ensures Projections(xs + ys) == Projections(xs) + Projections(ys)
  {
    if xs == [] {
      assert xs + ys == ys;
    } else {
      ProjectionsJoin(xs[1..], ys);
      assert (xs + ys)[1..] == xs[1..] + ys;
    }
  }

  lemma {:induction false} ProjectionsPermute(xs: seq<Registration>, ys: seq<Registration>)
    requires multiset(xs) == multiset(ys)
    ensures multiset(Projections(xs)) == multiset(Projections(ys))
    decreases |xs|
  {
    if xs == [] {
      assert |multiset(ys)| == 0;
    } else {
      var i := FindFirst(xs, ys);
      ProjectionsPermute(xs[1..], ys[..i] + ys[i + 1..]);
      ProjectionsJoin(ys[..i], ys[i + 1..]);
      ProjectionsJoin(ys[..i], ys[i..]);
      assert ys == ys[..i] + ys[i..] && ys[i..][1..] == ys[i + 1..];
    }
  }

  /** Merging rows is merging their projections, and the evidence mark stays the current one throughout. */
  lemma {:induction false} FeedRowsAgree(b: Registration, changes: seq<Registration>, c: Registration)
    ensures match MergeFeedRows(b, changes, c)
            case None => MergeAll(Projection(b), Projections(changes), Projection(c)) == None
            case Some(m) => MergeAll(Projection(b), Projections(changes), Projection(c)) == Some(Projection(m)) &&
                            m.hasTimingEvidence == c.hasTimingEvidence
  {
    if changes != [] {
      FeedMergeAgrees(b, changes[0], c);
      assert Projections(changes)[1..] == Projections(changes[1..]);
      if MergeFeedRow(b, changes[0], c).Some? {
        FeedRowsAgree(b, changes[1..], MergeFeedRow(b, changes[0], c).value);
      }
    }
  }

  /** Whatever the order in which changes of one base row arrive, they merge together or not, and into the same row. */
  lemma {:induction false} FeedRowsIgnoreOrder(b: Registration, xs: seq<Registration>, ys: seq<Registration>, c: Registration)
    requires multiset(xs) == multiset(ys)
    ensures MergeFeedRows(b, xs, c) == MergeFeedRows(b, ys, c)
  {
    ProjectionsPermute(xs, ys);
    MergeAllIgnoresOrder(Projection(b), Projections(xs), Projections(ys), Projection(c));
    FeedRowsAgree(b, xs, c);
    FeedRowsAgree(b, ys, c);
    if MergeFeedRows(b, xs, c).Some? && MergeFeedRows(b, ys, c).Some? {
      EncodeInjective(MergeFeedRows(b, xs, c).value, MergeFeedRows(b, ys, c).value);
    }
  }
}
