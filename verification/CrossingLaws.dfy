/** The collapsing of photos told by the photos themselves: which join, which stand apart, and which one is shown. */
module CrossingLaws {
  import opened Wrappers
  import opened PhotoMerge
  import opened PhotoViewCache

  /** The device a photo came from: its source, or its camera's label when it has none. */
  predicate OneDevice(p: Photo, q: Photo) {
    (if p.sourceId != "" then p.sourceId else p.cameraLabel) == (if q.sourceId != "" then q.sourceId else q.cameraLabel)
  }

  predicate TwoNumbers(p: Photo, q: Photo) {
    p.bib != "" && q.bib != "" && p.bib != q.bib
  }

  /** The photo can be of the same crossing: soon enough after the first one, of another device, of no other number. */
  predicate Fits(items: seq<Photo>, p: Photo, window: int) {
    items != [] && p.timeMs - items[0].timeMs <= window &&
    forall q :: q in items ==> !OneDevice(q, p) && !TwoNumbers(q, p)
  }

  /** The number of a cluster is one of its photos'. */
  predicate Numbered(c: Cluster) {
    c.bib != "" ==> exists q :: q in c.items && q.bib == c.bib
  }

  lemma {:induction false} TakesIsFits(c: Cluster, p: Photo, window: int)
    requires OneCrossing(c, window) && Numbered(c)
    ensures Takes(c, p, window) <==> Fits(c.items, p, window)
  {
    if Device(p) in c.cams {
      var q :| q in c.items && Device(q) == Device(p);
      assert OneDevice(q, p);
    } else {
      forall q | q in c.items
        ensures !OneDevice(q, p)
      {
        assert Device(q) in c.cams;
      }
    }
    if c.bib != "" {
      var q :| q in c.items && q.bib == c.bib;
      assert TwoNumbers(q, p) <==> p.bib != "" && c.bib != p.bib;
    }
  }

  ghost predicate AllNumbered(clusters: seq<Cluster>) {
    forall i :: 0 <= i < |clusters| ==> Numbered(clusters[i])
  }

  lemma {:induction false} JoinedIsNumbered(c: Cluster, p: Photo)
    requires Numbered(c)
    ensures Numbered(Joined(c, p))
  {
    var j := Joined(c, p);
    if c.bib != "" {
      var q :| q in c.items && q.bib == c.bib;
      assert q in j.items;
    } else {
      assert p in j.items;
    }
  }

  lemma {:induction false} PlacedIsNumbered(photos: seq<Photo>, window: int)
    ensures AllNumbered(PlaceAll(photos, window))
  {
    if photos != [] {
      var front, last := photos[..|photos| - 1], photos[|photos| - 1];
      PlacedIsNumbered(front, window);
      var before := PlaceAll(front, window);
      var i := Newest(before, last, window);
      if i.Some? {
        JoinedIsNumbered(before[i.value], last);
      } else {
        var c := Cluster([last], {Device(last)}, last.timeMs, last.bib);
        assert last in c.items;
      }
    }
  }

  /** The photo joined this group, and no later one could have taken it. */
  predicate JoinedAt(before: seq<Cluster>, after: seq<Cluster>, p: Photo, window: int, i: nat) {
    i < |before| == |after| && Fits(before[i].items, p, window) && after[i].items == before[i].items + [p] &&
    (forall j :: 0 <= j < |before| && j != i ==> after[j] == before[j]) &&
    forall j :: i < j < |before| ==> !Fits(before[j].items, p, window)
  }

  /** The photo opened a group of its own, because no group could have taken it. */
  predicate OpenedBy(before: seq<Cluster>, after: seq<Cluster>, p: Photo, window: int) {
    |after| == |before| + 1 && after[..|before|] == before && after[|before|].items == [p] &&
    forall j :: 0 <= j < |before| ==> !Fits(before[j].items, p, window)
  }

  /** Every photo, in order of time, joins the latest group it fits, and opens a new one exactly if it fits none. */
  lemma {:induction false} JoinsTheLatest(photos: seq<Photo>, window: int)
    requires ByTime(photos) && window > 0 && photos != []
    ensures var before, after, p := PlaceAll(photos[..|photos| - 1], window), PlaceAll(photos, window), photos[|photos| - 1];
            OpenedBy(before, after, p, window) || exists i :: 0 <= i < |before| && JoinedAt(before, after, p, window, i)
  {
    var front, p := photos[..|photos| - 1], photos[|photos| - 1];
    var before := PlaceAll(front, window);
    PlacedWell(front, window);
    PlacedIsNumbered(front, window);
    forall j | 0 <= j < |before|
      ensures Takes(before[j], p, window) <==> Fits(before[j].items, p, window)
    {
      TakesIsFits(before[j], p, window);
    }
    var i := Newest(before, p, window);
    if i.Some? {
      assert JoinedAt(before, PlaceAll(photos, window), p, window, i.value);
    }
  }

  /** Something in the earlier group kept this photo out of it. */
  predicate KeptOut(items: seq<Photo>, p: Photo, window: int) {
    items != [] &&
    (p.timeMs - items[0].timeMs > window || exists q :: q in items && q.timeMs <= p.timeMs && (OneDevice(q, p) || TwoNumbers(q, p)))
  }

  ghost predicate Apart(clusters: seq<Cluster>, window: int) {
    forall i, j :: 0 <= i < j < |clusters| ==> clusters[j].items != [] && KeptOut(clusters[i].items, clusters[j].items[0], window)
  }

  lemma {:induction false} StaysOut(items: seq<Photo>, p: Photo, q: Photo, window: int)
    requires KeptOut(items, p, window)
    ensures KeptOut(items + [q], p, window)
  {
    if p.timeMs - items[0].timeMs <= window {
      var x :| x in items && x.timeMs <= p.timeMs && (OneDevice(x, p) || TwoNumbers(x, p));
      assert x in items + [q];
    }
  }

  lemma {:induction false} JoinKeepsApart(before: seq<Cluster>, after: seq<Cluster>, p: Photo, window: int, i: nat)
    requires Apart(before, window) && JoinedAt(before, after, p, window, i)
    ensures Apart(after, window)
  {
    forall k, j | 0 <= k < j < |after|
      ensures after[j].items != [] && KeptOut(after[k].items, after[j].items[0], window)
    {
      assert KeptOut(before[k].items, before[j].items[0], window);
      assert after[j].items[0] == before[j].items[0];
      if k == i {
        StaysOut(before[k].items, before[j].items[0], p, window);
      }
    }
  }

  lemma {:induction false} OpenKeepsApart(before: seq<Cluster>, after: seq<Cluster>, p: Photo, window: int)
    requires Apart(before, window) && OpenedBy(before, after, p, window)
    requires forall i, q :: 0 <= i < |before| && q in before[i].items ==> q.timeMs <= p.timeMs
    requires forall i :: 0 <= i < |before| ==> before[i].items != []
    ensures Apart(after, window)
  {
    forall k, j | 0 <= k < j < |after|
      ensures after[j].items != [] && KeptOut(after[k].items, after[j].items[0], window)
    {
      assert after[k] == after[..|before|][k] == before[k];
      if j < |before| {
        assert after[j] == after[..|before|][j] == before[j];
      } else {
        assert !Fits(before[k].items, p, window);
      }
    }
  }

  lemma {:induction false} ItemsComeFrom(clusters: seq<Cluster>, i: nat, q: Photo)
    requires i < |clusters| && q in clusters[i].items
    ensures q in AllItems(clusters)
  {
    if i < |clusters| - 1 {
      ItemsComeFrom(clusters[..|clusters| - 1], i, q);
    }
  }

  lemma {:induction false} PlacedApart(photos: seq<Photo>, window: int)
    requires ByTime(photos) && window > 0
    ensures Apart(PlaceAll(photos, window), window)
  {
    if photos != [] {
      var front, p := photos[..|photos| - 1], photos[|photos| - 1];
      var before, after := PlaceAll(front, window), PlaceAll(photos, window);
      PlacedApart(front, window);
      JoinsTheLatest(photos, window);
      if i :| 0 <= i < |before| && JoinedAt(before, after, p, window, i) {
        JoinKeepsApart(before, after, p, window, i);
      } else {
        PlacedIsFilled(front, window);
        PlacedItems(front, window);
        forall i, q | 0 <= i < |before| && q in before[i].items
          ensures q.timeMs <= p.timeMs
        {
          ItemsComeFrom(before, i, q);
          assert q in multiset(front);
          LastIsLatest(photos, q);
        }
        OpenKeepsApart(before, after, p, window);
      }
    }
  }

  /** No two crossings could have been one: whatever opened the later one did not fit the earlier. */
  lemma {:induction false} CrossingsAreApart(photos: seq<Photo>, windowMs: int)
    ensures Apart(Clusters(photos, windowMs), if windowMs <= 0 then 1200 else windowMs)
  {
    SortSorts(photos);
    PlacedApart(SortByTime(photos), Window(windowMs));
  }

  // The finish shown for a crossing.

  predicate ByHand(p: Photo) {
    p.bibSource == "manual" && p.bib != ""
  }

  /** The first photo whose number a person confirmed; without one, the first of the latest. */
  predicate Shown(items: seq<Photo>, k: nat) {
    k < |items| &&
    if exists q :: q in items && ByHand(q) then ByHand(items[k]) && forall j :: 0 <= j < k ==> !ByHand(items[j])
    else (forall j :: 0 <= j < |items| ==> items[j].timeMs <= items[k].timeMs) &&
         forall j :: 0 <= j < k ==> items[j].timeMs < items[k].timeMs
  }

  lemma {:induction false} FirstConfirmedAt(items: seq<Photo>) returns (k: nat)
    requires exists q :: q in items && ByHand(q)
    ensures k < |items| && FirstConfirmed(items) == Some(items[k]) && ByHand(items[k]) && forall j :: 0 <= j < k ==> !ByHand(items[j])
  {
    if ByHand(items[0]) {
      k := 0;
    } else {
      var q :| q in items && ByHand(q);
      assert q in items[1..];
      k := FirstConfirmedAt(items[1..]);
      k := k + 1;
      assert forall j :: 0 < j < k ==> items[j] == items[1..][j - 1];
    }
  }

  lemma {:induction false} LatestAt(items: seq<Photo>) returns (k: nat)
    requires items != []
    ensures k < |items| && Latest(items) == items[k] && forall j :: 0 <= j < |items| ==> items[j].timeMs <= items[k].timeMs
    ensures forall j :: 0 <= j < k ==> items[j].timeMs < items[k].timeMs
  {
    if |items| == 1 {
      k := 0;
    } else {
      var front, last := items[..|items| - 1], items[|items| - 1];
      k := LatestAt(front);
      if last.timeMs > front[k].timeMs {
        k := |items| - 1;
      }
    }
  }

  lemma {:induction false} ShowsOne(items: seq<Photo>) returns (k: nat)
    requires items != []
    ensures Shown(items, k) && MergeCluster(items).photo == items[k] && MergeCluster(items).count == |items|
  {
    if exists q :: q in items && ByHand(q) {
      k := FirstConfirmedAt(items);
    } else {
      k := LatestAt(items);
    }
  }

  /** Each label stands where its first photo comes. */
  predicate InOrderSeen(items: seq<Photo>, cams: seq<string>, firsts: seq<int>) {
    |firsts| == |cams| &&
    (forall a :: 0 <= a < |cams| ==>
      0 <= firsts[a] < |items| && cams[a] != "" && items[firsts[a]].cameraLabel == cams[a] &&
      forall j :: 0 <= j < firsts[a] ==> items[j].cameraLabel != cams[a]) &&
    (forall a, b :: 0 <= a < b < |cams| ==> firsts[a] < firsts[b]) &&
    forall j :: 0 <= j < |items| && items[j].cameraLabel != "" ==> items[j].cameraLabel in cams
  }

  lemma {:induction false} LabelsInOrder(items: seq<Photo>) returns (firsts: seq<int>)
    ensures InOrderSeen(items, Labels(items), firsts)
  {
    if items == [] {
      firsts := [];
    } else {
      var front, last := items[..|items| - 1], items[|items| - 1];
      firsts := LabelsInOrder(front);
      var before, after := Labels(front), Labels(items);
      assert forall j :: 0 <= j < |front| ==> front[j] == items[j];
      if after != before {
        firsts := firsts + [|items| - 1];
        assert after == before + [last.cameraLabel];
        forall j | 0 <= j < |items| - 1
          ensures items[j].cameraLabel != last.cameraLabel
        {
          assert front[j].cameraLabel != "" ==> front[j].cameraLabel in before;
        }
      }
    }
  }

  // Photos of one instant.

  function TakenAt(photos: seq<Photo>, timeMs: int): seq<Photo> {
    if photos == [] then []
    else TakenAt(photos[..|photos| - 1], timeMs) + if photos[|photos| - 1].timeMs == timeMs then [photos[|photos| - 1]] else []
  }

  lemma {:induction false} TakenLater(photos: seq<Photo>, timeMs: int)
    requires forall p :: p in photos ==> p.timeMs != timeMs
    ensures TakenAt(photos, timeMs) == []
  {
    if photos != [] {
      TakenLater(photos[..|photos| - 1], timeMs);
    }
  }

  lemma {:induction false} InsertedStably(p: Photo, sorted: seq<Photo>, timeMs: int)
    requires ByTime(sorted)
    ensures TakenAt(InsertByTime(p, sorted), timeMs) == TakenAt(sorted, timeMs) + if p.timeMs == timeMs then [p] else []
  {
    if sorted == [] || sorted[|sorted| - 1].timeMs <= p.timeMs {
      assert (sorted + [p])[..|sorted|] == sorted;
    } else {
      var front, last := sorted[..|sorted| - 1], sorted[|sorted| - 1];
      InsertedStably(p, front, timeMs);
      var inserted := InsertByTime(p, front);
      assert (inserted + [last])[..|inserted|] == inserted;
    }
  }

  /** Photos of one instant keep the order they came in, so the collapsing does not depend on chance. */
  lemma {:induction false} SortIsStable(photos: seq<Photo>, timeMs: int)
    ensures TakenAt(SortByTime(photos), timeMs) == TakenAt(photos, timeMs)
  {
    if photos != [] {
      SortSorts(photos[..|photos| - 1]);
      SortIsStable(photos[..|photos| - 1], timeMs);
      InsertedStably(photos[|photos| - 1], SortByTime(photos[..|photos| - 1]), timeMs);
    }
  }

  // The cache.

  /** A version that is cached is answered as it stands; only its place in the queue moves. */
  lemma {:induction false} HitKeepsEverything(c: Cache, key: Key, s: Snapshot)
    requires key in c.entries && c.entries[key].version == s.version
    ensures var d := Load(c, key, s);
            d.entries.Keys == c.entries.Keys && d.clock == c.clock + 1 && d.entries[key].used == d.clock &&
            d.entries[key].version == c.entries[key].version && d.entries[key].photos == c.entries[key].photos &&
            d.entries[key].merged == c.entries[key].merged && forall k :: k in c.entries && k != key ==> d.entries[k] == c.entries[k]
  {
  }

  /** However many views are asked for, at most four are kept, and a view is dropped only when four others are. */
  lemma {:induction false} FourAreKept(requests: seq<Request>, history: History, key: Key, s: Snapshot, k: Key)
    requires forall r :: r in requests ==> r.snapshot.photos == history(r.key.eventId, r.snapshot.version)
    ensures var c := LoadAll(Cache(map[], 0), requests);
            |c.entries| <= 4 &&
            (k in c.entries && k !in Load(c, key, s).entries ==>
              |c.entries| == 4 && key !in c.entries && forall j :: j in c.entries ==> c.entries[k].used <= c.entries[j].used)
  {
    LoadsRefine(requests, history);
    var c := LoadAll(Cache(map[], 0), requests);
    if k in c.entries && k !in Load(c, key, s).entries {
      EvictsTheOldest(c, key, s, k);
    }
  }
}
