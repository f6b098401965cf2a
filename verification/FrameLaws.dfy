/** Where each frame of a merged track comes from: the time of its first ingest, the address given last. */
module FrameLaws {
  import opened Wrappers
  import opened PhotoFrames

  predicate Knows(key: KeyOf, frames: seq<Frame>, k: string) {
    exists i :: 0 <= i < |frames| && key(frames[i].url) == k
  }

  predicate FirstAt(key: KeyOf, items: seq<Frame>, k: string, i: int) {
    0 <= i < |items| && key(items[i].url) == k && forall j :: 0 <= j < i ==> key(items[j].url) != k
  }

  predicate LastAt(key: KeyOf, items: seq<Frame>, k: string, i: int) {
    0 <= i < |items| && key(items[i].url) == k && forall j :: i < j < |items| ==> key(items[j].url) != k
  }

  /** A known frame keeps its time; a new one is put where its first item says, shifted. */
  ghost predicate TimeFrom(key: KeyOf, frames: seq<Frame>, items: seq<Frame>, delta: int, g: Frame) {
    var k := key(g.url);
    if Knows(key, frames, k) then exists i :: 0 <= i < |frames| && key(frames[i].url) == k && frames[i].timeMs == g.timeMs
    else exists i :: FirstAt(key, items, k, i) && items[i].timeMs + delta == g.timeMs
  }

  /** A frame among the items has the address of the last of them; any other stays as it was. */
  ghost predicate UrlFrom(key: KeyOf, frames: seq<Frame>, items: seq<Frame>, g: Frame) {
    var k := key(g.url);
    if Knows(key, items, k) then exists i :: LastAt(key, items, k, i) && items[i].url == g.url
    else g in frames
  }

  ghost predicate Merged(key: KeyOf, frames: seq<Frame>, items: seq<Frame>, delta: int, r: seq<Frame>) {
    (forall g :: g in r ==> TimeFrom(key, frames, items, delta, g) && UrlFrom(key, frames, items, g)) &&
    forall k :: Knows(key, r, k) <==> Knows(key, frames, k) || Knows(key, items, k)
  }

  lemma {:induction false} KnowsMore(key: KeyOf, items: seq<Frame>, f: Frame, k: string)
    ensures Knows(key, items + [f], k) <==> Knows(key, items, k) || key(f.url) == k
  {
    var all := items + [f];
    assert all[|items|] == f;
    if Knows(key, items, k) {
      var i :| 0 <= i < |items| && key(items[i].url) == k;
      assert all[i] == items[i];
    }
  }

  lemma {:induction false} TimeMore(key: KeyOf, frames: seq<Frame>, items: seq<Frame>, f: Frame, delta: int, g: Frame)
    requires TimeFrom(key, frames, items, delta, g)
    ensures TimeFrom(key, frames, items + [f], delta, g)
  {
    var k := key(g.url);
    if !Knows(key, frames, k) {
      var i :| FirstAt(key, items, k, i) && items[i].timeMs + delta == g.timeMs;
      assert FirstAt(key, items + [f], k, i);
    }
  }

  lemma {:induction false} UrlMore(key: KeyOf, frames: seq<Frame>, items: seq<Frame>, f: Frame, g: Frame)
    requires UrlFrom(key, frames, items, g) && key(g.url) != key(f.url)
    ensures UrlFrom(key, frames, items + [f], g)
  {
    var k := key(g.url);
    KnowsMore(key, items, f, k);
    if Knows(key, items, k) {
      var i :| LastAt(key, items, k, i) && items[i].url == g.url;
      assert LastAt(key, items + [f], k, i);
    }
  }

  lemma {:induction false} NewItem(key: KeyOf, frames: seq<Frame>, items: seq<Frame>, f: Frame, delta: int)
    requires !Knows(key, frames, key(f.url)) && !Knows(key, items, key(f.url))
    ensures var g := Frame(f.timeMs + delta, f.url);
            TimeFrom(key, frames, items + [f], delta, g) && UrlFrom(key, frames, items + [f], g)
  {
    KnowsMore(key, items, f, key(f.url));
    assert FirstAt(key, items + [f], key(f.url), |items|);
    assert LastAt(key, items + [f], key(f.url), |items|);
  }

  lemma {:induction false} KnownItem(key: KeyOf, frames: seq<Frame>, items: seq<Frame>, f: Frame, delta: int, g: Frame)
    requires TimeFrom(key, frames, items, delta, g) && key(g.url) == key(f.url)
    ensures var h := Frame(g.timeMs, f.url);
            TimeFrom(key, frames, items + [f], delta, h) && UrlFrom(key, frames, items + [f], h)
  {
    var h := Frame(g.timeMs, f.url);
    TimeMore(key, frames, items, f, delta, g);
    KnowsMore(key, items, f, key(f.url));
    assert LastAt(key, items + [f], key(f.url), |items|);
    assert TimeFrom(key, frames, items, delta, h);
  }

  lemma {:induction false} OneMerged(key: KeyOf, frames: seq<Frame>, items: seq<Frame>, f: Frame, delta: int, r: seq<Frame>)
    requires Merged(key, frames, items, delta, r) && UniqueKeys(key, r)
    ensures Merged(key, frames, items + [f], delta, AppendOne(key, r, f, delta))
    ensures UniqueKeys(key, AppendOne(key, r, f, delta))
  {
    var after := AppendOne(key, r, f, delta);
    var at := IndexOf(key, r, key(f.url));
    forall g | g in after
      ensures TimeFrom(key, frames, items + [f], delta, g) && UrlFrom(key, frames, items + [f], g)
    {
      var j :| 0 <= j < |after| && after[j] == g;
      if at.None? && j == |r| {
        assert !Knows(key, r, key(f.url));
        NewItem(key, frames, items, f, delta);
      } else if at.Some? && j == at.value {
        assert r[j] in r;
        KnownItem(key, frames, items, f, delta, r[j]);
      } else {
        assert r[j] in r && g == r[j];
        TimeMore(key, frames, items, f, delta, g);
        UrlMore(key, frames, items, f, g);
      }
    }
    forall k
      ensures Knows(key, after, k) <==> Knows(key, frames, k) || Knows(key, items + [f], k)
    {
      KnowsMore(key, items, f, k);
      AfterKnows(key, r, f, delta, k);
    }
  }

  lemma {:induction false} AfterKnows(key: KeyOf, r: seq<Frame>, f: Frame, delta: int, k: string)
    ensures Knows(key, AppendOne(key, r, f, delta), k) <==> Knows(key, r, k) || key(f.url) == k
  {
    var at := IndexOf(key, r, key(f.url));
    var after := AppendOne(key, r, f, delta);
    if at.None? {
      KnowsMore(key, r, Frame(f.timeMs + delta, f.url), k);
    } else {
      assert forall j :: 0 <= j < |r| ==> key(after[j].url) == key(r[j].url);
    }
  }

  lemma {:induction false} AllMerged(key: KeyOf, frames: seq<Frame>, items: seq<Frame>, delta: int)
    requires UniqueKeys(key, frames) && AppendAll(key, frames, items, delta).Some?
    ensures Merged(key, frames, items, delta, AppendAll(key, frames, items, delta).value)
    ensures UniqueKeys(key, AppendAll(key, frames, items, delta).value)
  {
    if items == [] {
      forall g | g in frames
        ensures TimeFrom(key, frames, items, delta, g) && UrlFrom(key, frames, items, g)
      {
        var i :| 0 <= i < |frames| && frames[i] == g;
      }
    } else {
      var front, last := items[..|items| - 1], items[|items| - 1];
      AllMerged(key, frames, front, delta);
      OneMerged(key, frames, front, last, delta, AppendAll(key, frames, front, delta).value);
      assert items == front + [last];
    }
  }

  /**
   A poll merged into a stored track: every frame has the time it was first stored with, or the shifted time of its
   first item if it is new, and the address of the last item for it; no frame is lost and none appears from nowhere.
   */
  lemma {:induction false} FramesComeFrom(key: KeyOf, stored: seq<Frame>, incoming: seq<Frame>, delta: int)
    requires UniqueKeys(key, stored) && Addressed(stored) && MergeFrames(key, stored, incoming, delta).Some?
    ensures Merged(key, stored, incoming, delta, MergeFrames(key, stored, incoming, delta).value)
  {
    UniqueIsAppended(key, stored);
    var all := AppendAll(key, stored, incoming, delta).value;
    AllMerged(key, stored, incoming, delta);
    SortKeeps(key, all);
    var m := SortFrames(all);
    forall k
      ensures Knows(key, m, k) <==> Knows(key, all, k)
    {
      SameKnows(key, m, all, k);
      SameKnows(key, all, m, k);
    }
  }

  lemma {:induction false} SameKnows(key: KeyOf, a: seq<Frame>, b: seq<Frame>, k: string)
    requires forall g :: g in a ==> g in b
    ensures Knows(key, a, k) ==> Knows(key, b, k)
  {
    if Knows(key, a, k) {
      var i :| 0 <= i < |a| && key(a[i].url) == k;
      assert a[i] in b;
    }
  }
}
