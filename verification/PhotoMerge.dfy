/** Collapsing the photos several cameras took of one crossing into one finish. */
module PhotoMerge {
  import opened Wrappers

  datatype Photo = Photo(id: string, timeMs: int, sourceId: string, cameraLabel: string, bib: string, bibSource: string)

  datatype Finish = Finish(photo: Photo, cams: seq<string>, count: nat)

  /** Photos taken for one crossing, with what the next one is held against. */
  datatype Cluster = Cluster(items: seq<Photo>, cams: set<string>, anchor: int, bib: string)

  const DefaultWindowMs := 1200

  function Device(p: Photo): string {
    if p.sourceId != "" then p.sourceId else p.cameraLabel
  }

  function Devices(items: seq<Photo>): set<string> {
    set p | p in items :: Device(p)
  }

  // Stable order by time.

  /** After every photo that is not later. */
  function InsertByTime(p: Photo, sorted: seq<Photo>): seq<Photo> {
    if sorted == [] || sorted[|sorted| - 1].timeMs <= p.timeMs then sorted + [p]
    else InsertByTime(p, sorted[..|sorted| - 1]) + [sorted[|sorted| - 1]]
  }

  function SortByTime(photos: seq<Photo>): seq<Photo> {
    if photos == [] then [] else InsertByTime(photos[|photos| - 1], SortByTime(photos[..|photos| - 1]))
  }

  predicate ByTime(photos: seq<Photo>) {
    forall i, j :: 0 <= i < j < |photos| ==> photos[i].timeMs <= photos[j].timeMs
  }

  function InsertNewest(f: Finish, sorted: seq<Finish>): seq<Finish> {
    if sorted == [] || sorted[|sorted| - 1].photo.timeMs >= f.photo.timeMs then sorted + [f]
    else InsertNewest(f, sorted[..|sorted| - 1]) + [sorted[|sorted| - 1]]
  }

  function SortNewest(finishes: seq<Finish>): seq<Finish> {
    if finishes == [] then [] else InsertNewest(finishes[|finishes| - 1], SortNewest(finishes[..|finishes| - 1]))
  }

  predicate NewestFirst(finishes: seq<Finish>) {
    forall i, j :: 0 <= i < j < |finishes| ==> finishes[i].photo.timeMs >= finishes[j].photo.timeMs
  }

  // Clusters.

  predicate NoConflict(c: Cluster, p: Photo) {
    c.bib == "" || p.bib == "" || c.bib == p.bib
  }

  /** The cluster can take the photo: close enough, another camera, no other number. */
  predicate Takes(c: Cluster, p: Photo, window: int) {
    p.timeMs - c.anchor <= window && Device(p) !in c.cams && NoConflict(c, p)
  }

  /** The newest cluster that can take the photo, over all clusters. */
  function Newest(clusters: seq<Cluster>, p: Photo, window: int): (i: Option<nat>)
    ensures i.Some? ==> i.value < |clusters| && Takes(clusters[i.value], p, window) &&
                        forall j :: i.value < j < |clusters| ==> !Takes(clusters[j], p, window)
    ensures i.None? ==> forall j :: 0 <= j < |clusters| ==> !Takes(clusters[j], p, window)
  {
    if clusters == [] then None
    else if Takes(clusters[|clusters| - 1], p, window) then Some(|clusters| - 1)
    else Newest(clusters[..|clusters| - 1], p, window)
  }

  function Joined(c: Cluster, p: Photo): Cluster {
    Cluster(c.items + [p], c.cams + {Device(p)}, c.anchor, if c.bib == "" then p.bib else c.bib)
  }

  function Place(clusters: seq<Cluster>, p: Photo, window: int): seq<Cluster> {
    var i := Newest(clusters, p, window);
    if i.Some? then clusters[i.value := Joined(clusters[i.value], p)]
    else clusters + [Cluster([p], {Device(p)}, p.timeMs, p.bib)]
  }

  function PlaceAll(photos: seq<Photo>, window: int): seq<Cluster> {
    if photos == [] then [] else Place(PlaceAll(photos[..|photos| - 1], window), photos[|photos| - 1], window)
  }

  // The representative.

  /** The first of the newest items. */
  function Latest(items: seq<Photo>): (p: Photo)
    requires items != []
    ensures p in items && forall q :: q in items ==> q.timeMs <= p.timeMs
  {
    if |items| == 1 then items[0]
    else
      var front, last := Latest(items[..|items| - 1]), items[|items| - 1];
      assert forall q :: q in items ==> q in items[..|items| - 1] || q == last;
      if last.timeMs > front.timeMs then last else front
  }

  predicate Confirmed(p: Photo) {
    p.bibSource == "manual" && p.bib != ""
  }

  function FirstConfirmed(items: seq<Photo>): (p: Option<Photo>)
    ensures p.Some? ==> p.value in items && Confirmed(p.value)
    ensures p.None? ==> forall q :: q in items ==> !Confirmed(q)
  {
    if items == [] then None
    else if Confirmed(items[0]) then Some(items[0])
    else
      assert forall q :: q in items ==> q == items[0] || q in items[1..];
      FirstConfirmed(items[1..])
  }

  /** The camera labels, each once, in order of first appearance. */
  function Labels(items: seq<Photo>): (r: seq<string>)
    ensures forall l :: l in r <==> l != "" && exists p :: p in items && p.cameraLabel == l
    ensures forall i, j :: 0 <= i < j < |r| ==> r[i] != r[j]
  {
    if items == [] then []
    else
      var front, last := Labels(items[..|items| - 1]), items[|items| - 1];
      assert forall q :: q in items <==> q in items[..|items| - 1] || q == last;
      if last.cameraLabel == "" || last.cameraLabel in front then front else front + [last.cameraLabel]
  }

  function MergeCluster(items: seq<Photo>): Finish
    requires items != []
  {
    var confirmed := FirstConfirmed(items);
    Finish(if confirmed.Some? then confirmed.value else Latest(items), Labels(items), |items|)
  }

  predicate Filled(clusters: seq<Cluster>) {
    forall i :: 0 <= i < |clusters| ==> clusters[i].items != []
  }

  function Finishes(clusters: seq<Cluster>): (r: seq<Finish>)
    requires Filled(clusters)
    ensures |r| == |clusters| && forall i :: 0 <= i < |r| ==> r[i] == MergeCluster(clusters[i].items)
  {
    seq(|clusters|, i requires 0 <= i < |clusters| => MergeCluster(clusters[i].items))
  }

  function Window(windowMs: int): int {
    if windowMs <= 0 then DefaultWindowMs else windowMs
  }

  function Clusters(photos: seq<Photo>, windowMs: int): seq<Cluster> {
    PlaceAll(SortByTime(photos), Window(windowMs))
  }

  function Merge(photos: seq<Photo>, windowMs: int): seq<Finish> {
    PlacedIsFilled(SortByTime(photos), Window(windowMs));
    SortNewest(Finishes(Clusters(photos, windowMs)))
  }

  lemma {:induction false} PlacedIsFilled(photos: seq<Photo>, window: int)
    ensures Filled(PlaceAll(photos, window))
  {
    if photos != [] {
      PlacedIsFilled(photos[..|photos| - 1], window);
    }
  }

  // Sorting.

  lemma {:induction false} InsertAdds(p: Photo, sorted: seq<Photo>)
    ensures multiset(InsertByTime(p, sorted)) == multiset(sorted) + multiset{p}
  {
    if !(sorted == [] || sorted[|sorted| - 1].timeMs <= p.timeMs) {
      InsertAdds(p, sorted[..|sorted| - 1]);
      assert sorted == sorted[..|sorted| - 1] + [sorted[|sorted| - 1]];
    }
  }

  lemma {:induction false} InsertSorts(p: Photo, sorted: seq<Photo>)
    requires ByTime(sorted)
    ensures ByTime(InsertByTime(p, sorted))
  {
    if !(sorted == [] || sorted[|sorted| - 1].timeMs <= p.timeMs) {
      var front, last := sorted[..|sorted| - 1], sorted[|sorted| - 1];
      InsertSorts(p, front);
      InsertAdds(p, front);
      forall q | q in InsertByTime(p, front) ensures q.timeMs <= last.timeMs {
        assert q in multiset(InsertByTime(p, front));
        assert q == p || q in front;
      }
      Appended(InsertByTime(p, front), last);
    } else if sorted != [] {
      forall q | q in sorted ensures q.timeMs <= p.timeMs {
        LastIsLatest(sorted, q);
      }
      Appended(sorted, p);
    }
  }

  lemma {:induction false} Appended(sorted: seq<Photo>, last: Photo)
    requires ByTime(sorted) && forall q :: q in sorted ==> q.timeMs <= last.timeMs
    ensures ByTime(sorted + [last])
  {
  }

  lemma {:induction false} SortSorts(photos: seq<Photo>)
    ensures ByTime(SortByTime(photos)) && multiset(SortByTime(photos)) == multiset(photos)
  {
    if photos != [] {
      var front, last := photos[..|photos| - 1], photos[|photos| - 1];
      SortSorts(front);
      InsertSorts(last, SortByTime(front));
      InsertAdds(last, SortByTime(front));
      assert photos == front + [last];
    }
  }

  predicate DistinctTimes(photos: seq<Photo>) {
    forall p, q :: p in photos && q in photos && p.timeMs == q.timeMs ==> p == q
  }

  lemma {:induction false} LastIsLatest(photos: seq<Photo>, p: Photo)
    requires ByTime(photos) && p in photos
    ensures p.timeMs <= photos[|photos| - 1].timeMs
  {
    var i :| 0 <= i < |photos| && photos[i] == p;
  }

  lemma {:induction false} LastsAgree(a: seq<Photo>, b: seq<Photo>)
    requires ByTime(a) && ByTime(b) && multiset(a) == multiset(b) && DistinctTimes(a) && a != []
    ensures b != [] && a[|a| - 1] == b[|b| - 1]
  {
    var x := a[|a| - 1];
    assert x in multiset(b);
    var y := b[|b| - 1];
    assert y in multiset(a);
    LastIsLatest(a, y);
    LastIsLatest(b, x);
  }

  lemma {:induction false} FrontOf(photos: seq<Photo>)
    requires photos != [] && ByTime(photos)
    ensures var front, last := photos[..|photos| - 1], photos[|photos| - 1];
            photos == front + [last] && multiset(front) == multiset(photos) - multiset{last} && ByTime(front) &&
            (DistinctTimes(photos) ==> DistinctTimes(front))
  {
    assert photos == photos[..|photos| - 1] + [photos[|photos| - 1]];
  }

  /** Two ordered lists of the same photos, no two at one time, are the same list. */
  lemma {:induction false} OrderIsUnique(a: seq<Photo>, b: seq<Photo>)
    requires ByTime(a) && ByTime(b) && multiset(a) == multiset(b) && DistinctTimes(a)
    ensures a == b
  {
    if a == [] {
      assert |b| == |multiset(b)|;
    } else {
      LastsAgree(a, b);
      FrontOf(a);
      FrontOf(b);
      OrderIsUnique(a[..|a| - 1], b[..|b| - 1]);
    }
  }

  /** In whatever order the photos come, the finishes are the same, as long as no two photos share a time. */
  lemma {:induction false} MergeIgnoresOrder(a: seq<Photo>, b: seq<Photo>, windowMs: int)
    requires multiset(a) == multiset(b) && DistinctTimes(a)
    ensures Merge(a, windowMs) == Merge(b, windowMs)
  {
    SortSorts(a);
    SortSorts(b);
    forall p | p in SortByTime(a) ensures p in a {
      assert p in multiset(SortByTime(a));
      assert p in multiset(a);
    }
    OrderIsUnique(SortByTime(a), SortByTime(b));
  }

  lemma {:induction false} OldestLast(finishes: seq<Finish>, last: Finish)
    requires NewestFirst(finishes) && forall g :: g in finishes ==> g.photo.timeMs >= last.photo.timeMs
    ensures NewestFirst(finishes + [last])
  {
    assert forall i :: 0 <= i < |finishes| ==> finishes[i] in finishes;
  }

  lemma {:induction false} InsertNewestSorts(f: Finish, sorted: seq<Finish>)
    requires NewestFirst(sorted)
    ensures NewestFirst(InsertNewest(f, sorted)) && multiset(InsertNewest(f, sorted)) == multiset(sorted) + multiset{f}
    ensures forall g :: g in InsertNewest(f, sorted) <==> g == f || g in sorted
  {
    if !(sorted == [] || sorted[|sorted| - 1].photo.timeMs >= f.photo.timeMs) {
      var front, last := sorted[..|sorted| - 1], sorted[|sorted| - 1];
      InsertNewestSorts(f, front);
      assert sorted == front + [last];
      OldestLast(InsertNewest(f, front), last);
    } else {
      OldestLast(sorted, f);
    }
  }

  lemma {:induction false} NewestSorts(finishes: seq<Finish>)
    ensures NewestFirst(SortNewest(finishes)) && multiset(SortNewest(finishes)) == multiset(finishes)
  {
    if finishes != [] {
      var front, last := finishes[..|finishes| - 1], finishes[|finishes| - 1];
      NewestSorts(front);
      InsertNewestSorts(last, SortNewest(front));
      assert finishes == front + [last];
    }
  }

  // What a cluster is.

  predicate SameNumber(p: Photo, q: Photo) {
    p.bib == "" || q.bib == "" || p.bib == q.bib
  }

  /** One crossing: one photo per camera, all within the window of the first, no two numbers. */
  predicate OneCrossing(c: Cluster, window: int) {
    c.items != [] && c.items[0].timeMs == c.anchor && |c.cams| == |c.items| &&
    c.cams == Devices(c.items) &&
    (forall p :: p in c.items ==> c.anchor <= p.timeMs <= c.anchor + window && (p.bib == "" || p.bib == c.bib)) &&
    (c.bib == "" ==> forall p :: p in c.items ==> p.bib == "")
  }

  predicate Anchored(clusters: seq<Cluster>) {
    forall i, j :: 0 <= i < j < |clusters| ==> clusters[i].anchor <= clusters[j].anchor
  }

  /** All clusters lie before the photo in time. */
  predicate Behind(clusters: seq<Cluster>, timeMs: int) {
    forall i :: 0 <= i < |clusters| ==> clusters[i].anchor <= timeMs
  }

  predicate Crossings(clusters: seq<Cluster>, window: int) {
    forall i :: 0 <= i < |clusters| ==> OneCrossing(clusters[i], window)
  }

  lemma {:induction false} JoinedIsOne(c: Cluster, p: Photo, window: int)
    requires OneCrossing(c, window) && Takes(c, p, window) && c.anchor <= p.timeMs
    ensures OneCrossing(Joined(c, p), window)
  {
    var j := Joined(c, p);
    assert forall q :: q in j.items <==> q in c.items || q == p;
    assert j.items[0] == c.items[0];
    assert Devices(j.items) == Devices(c.items) + {Device(p)};
  }

  lemma {:induction false} PlaceKeeps(clusters: seq<Cluster>, p: Photo, window: int)
    requires Crossings(clusters, window) && Anchored(clusters) && Behind(clusters, p.timeMs) && window > 0
    ensures Crossings(Place(clusters, p, window), window) && Anchored(Place(clusters, p, window))
    ensures Behind(Place(clusters, p, window), p.timeMs)
  {
    var i := Newest(clusters, p, window);
    if i.Some? {
      JoinedIsOne(clusters[i.value], p, window);
    } else {
      var c := Cluster([p], {Device(p)}, p.timeMs, p.bib);
      assert OneCrossing(c, window) by {
        assert p in c.items;
      }
    }
  }

  lemma {:induction false} PlacedWell(photos: seq<Photo>, window: int)
    requires ByTime(photos) && window > 0
    ensures Crossings(PlaceAll(photos, window), window) && Anchored(PlaceAll(photos, window))
    ensures photos != [] ==> Behind(PlaceAll(photos, window), photos[|photos| - 1].timeMs)
  {
    if photos != [] {
      var front, last := photos[..|photos| - 1], photos[|photos| - 1];
      PlacedWell(front, window);
      assert Behind(PlaceAll(front, window), last.timeMs) by {
        if front != [] { assert front[|front| - 1].timeMs <= last.timeMs; }
      }
      PlaceKeeps(PlaceAll(front, window), last, window);
    }
  }

  // Nothing is lost or repeated.

  function AllItems(clusters: seq<Cluster>): multiset<Photo> {
    if clusters == [] then multiset{} else AllItems(clusters[..|clusters| - 1]) + multiset(clusters[|clusters| - 1].items)
  }

  function Counts(finishes: seq<Finish>): nat {
    if finishes == [] then 0 else Counts(finishes[..|finishes| - 1]) + finishes[|finishes| - 1].count
  }

  lemma {:induction false} UpdatedItems(clusters: seq<Cluster>, i: nat, p: Photo)
    requires i < |clusters|
    ensures AllItems(clusters[i := Joined(clusters[i], p)]) == AllItems(clusters) + multiset{p}
  {
    var n, joined := |clusters| - 1, Joined(clusters[i], p);
    var updated := clusters[i := joined];
    if i < n {
      assert updated[..n] == clusters[..n][i := joined] && updated[n] == clusters[n];
      UpdatedItems(clusters[..n], i, p);
    } else {
      assert updated[..n] == clusters[..n] && updated[n] == joined;
      assert multiset(joined.items) == multiset(clusters[n].items) + multiset{p};
    }
  }

  lemma {:induction false} PlacedItems(photos: seq<Photo>, window: int)
    ensures AllItems(PlaceAll(photos, window)) == multiset(photos)
  {
    if photos != [] {
      var front, last := photos[..|photos| - 1], photos[|photos| - 1];
      var before := PlaceAll(front, window);
      PlacedItems(front, window);
      assert photos == front + [last];
      var i := Newest(before, last, window);
      if i.Some? {
        UpdatedItems(before, i.value, last);
      } else {
        var c := Cluster([last], {Device(last)}, last.timeMs, last.bib);
        assert (before + [c])[..|before|] == before;
      }
    }
  }

  lemma {:induction false} CountsOfClusters(clusters: seq<Cluster>)
    requires Filled(clusters)
    ensures Counts(Finishes(clusters)) == |AllItems(clusters)|
  {
    if clusters != [] {
      var n := |clusters| - 1;
      CountsOfClusters(clusters[..n]);
      assert Finishes(clusters)[..n] == Finishes(clusters[..n]);
    }
  }

  lemma {:induction false} CountsInserted(f: Finish, sorted: seq<Finish>)
    ensures Counts(InsertNewest(f, sorted)) == Counts(sorted) + f.count
  {
    if sorted == [] || sorted[|sorted| - 1].photo.timeMs >= f.photo.timeMs {
      assert (sorted + [f])[..|sorted|] == sorted;
    } else {
      var front, last := sorted[..|sorted| - 1], sorted[|sorted| - 1];
      CountsInserted(f, front);
      var inserted := InsertNewest(f, front);
      assert (inserted + [last])[..|inserted|] == inserted;
    }
  }

  lemma {:induction false} CountsSorted(finishes: seq<Finish>)
    ensures Counts(SortNewest(finishes)) == Counts(finishes)
  {
    if finishes != [] {
      CountsSorted(finishes[..|finishes| - 1]);
      CountsInserted(finishes[|finishes| - 1], SortNewest(finishes[..|finishes| - 1]));
    }
  }

  /**
   The photos are partitioned into crossings: every photo is in exactly one cluster, each cluster is one crossing, and the
   finishes, newest first, are one per cluster with counts that add up to the number of photos.
   */
  lemma {:induction false} MergePartitions(photos: seq<Photo>, windowMs: int)
    ensures var clusters := Clusters(photos, windowMs);
            AllItems(clusters) == multiset(photos) && Crossings(clusters, Window(windowMs)) && Filled(clusters) &&
            multiset(Merge(photos, windowMs)) == multiset(Finishes(clusters))
    ensures NewestFirst(Merge(photos, windowMs)) && Counts(Merge(photos, windowMs)) == |photos|
  {
    var window := Window(windowMs);
    SortSorts(photos);
    PlacedWell(SortByTime(photos), window);
    PlacedItems(SortByTime(photos), window);
    PlacedIsFilled(SortByTime(photos), window);
    var clusters := Clusters(photos, windowMs);
    NewestSorts(Finishes(clusters));
    CountsSorted(Finishes(clusters));
    CountsOfClusters(clusters);
    assert |multiset(photos)| == |photos|;
  }

  /** Two photos of one crossing come from different cameras and carry no two different numbers. */
  lemma {:induction false} CrossingIsOneRunner(c: Cluster, window: int, i: nat, j: nat)
    requires OneCrossing(c, window) && i < j < |c.items|
    ensures Device(c.items[i]) != Device(c.items[j]) && SameNumber(c.items[i], c.items[j])
    ensures -window <= c.items[i].timeMs - c.items[j].timeMs <= window
  {
    assert c.items[i] in c.items && c.items[j] in c.items;
    if Device(c.items[i]) == Device(c.items[j]) {
      FewerDevices(c.items, i, j);
    }
  }

  lemma {:induction false} DevicesFit(items: seq<Photo>)
    ensures |Devices(items)| <= |items|
  {
    if items != [] {
      var front, last := items[..|items| - 1], items[|items| - 1];
      DevicesFit(front);
      assert forall p :: p in items <==> p in front || p == last;
      assert Devices(items) == Devices(front) + {Device(last)};
    }
  }

  lemma {:induction false} FewerDevices(items: seq<Photo>, i: nat, j: nat)
    requires i < j < |items| && Device(items[i]) == Device(items[j])
    ensures |Devices(items)| < |items|
  {
    var rest := items[..j] + items[j + 1..];
    assert items[i] in items[..j] && items[i] in rest;
    assert forall p :: p in rest ==> p in items;
    forall p | p in items ensures Device(p) in Devices(rest) {
      var k :| 0 <= k < |items| && items[k] == p;
      if k < j {
        assert rest[k] == p;
      } else if k > j {
        assert rest[k - 1] == p;
      } else {
        assert items[i] in rest;
      }
    }
    assert Devices(items) == Devices(rest);
    DevicesFit(rest);
  }

  // The loops.

  /** Scans from the newest cluster and stops at the first one out of the window: the older ones are out of it too. */
  method FindCluster(clusters: seq<Cluster>, p: Photo, window: int) returns (target: Option<nat>)
    requires Anchored(clusters)
    ensures target == Newest(clusters, p, window)
  {
    var i := |clusters|;
    assert clusters[..i] == clusters;
    while i > 0
      invariant 0 <= i <= |clusters| && Newest(clusters, p, window) == Newest(clusters[..i], p, window)
    {
      var c := clusters[i - 1];
      assert clusters[..i][..i - 1] == clusters[..i - 1] && clusters[..i][i - 1] == c;
      if p.timeMs - c.anchor > window {
        forall j | 0 <= j < i ensures !Takes(clusters[..i][j], p, window) {
          assert clusters[j].anchor <= c.anchor;
        }
        return None;
      }
      i := i - 1;
      if Device(p) in c.cams {
        continue;
      }
      if c.bib != "" && p.bib != "" && c.bib != p.bib {
        continue;
      }
      return Some(i);
    }
    return None;
  }

  method ClusterPhotos(asc: seq<Photo>, window: int) returns (clusters: seq<Cluster>)
    requires ByTime(asc) && window > 0
    ensures clusters == PlaceAll(asc, window)
  {
    clusters := [];
    for i := 0 to |asc|
      invariant clusters == PlaceAll(asc[..i], window)
    {
      var p := asc[i];
      assert asc[..i + 1][..i] == asc[..i];
      PlacedWell(asc[..i], window);
      var target := FindCluster(clusters, p, window);
      if target.None? {
        clusters := clusters + [Cluster([p], {Device(p)}, p.timeMs, p.bib)];
      } else {
        var c := clusters[target.value];
        var bib := c.bib;
        if bib == "" {
          bib := p.bib;
        }
        clusters := clusters[target.value := Cluster(c.items + [p], c.cams + {Device(p)}, c.anchor, bib)];
      }
    }
    assert asc[..|asc|] == asc;
  }

  lemma {:induction false} LatestNext(items: seq<Photo>, i: nat)
    requires 0 < i < |items|
    ensures var before := Latest(items[..i]);
            Latest(items[..i + 1]) == if items[i].timeMs > before.timeMs then items[i] else before
  {
    assert items[..i + 1][..i] == items[..i];
  }

  lemma {:induction false} LabelsNext(items: seq<Photo>, i: nat)
    requires i < |items|
    ensures var before, name := Labels(items[..i]), items[i].cameraLabel;
            Labels(items[..i + 1]) == if name != "" && name !in before then before + [name] else before
  {
    assert items[..i + 1][..i] == items[..i];
  }

  method Represent(items: seq<Photo>) returns (f: Finish)
    requires items != []
    ensures f == MergeCluster(items)
  {
    var rep := items[0];
    for i := 1 to |items|
      invariant rep == Latest(items[..i])
    {
      LatestNext(items, i);
      if items[i].timeMs > rep.timeMs {
        rep := items[i];
      }
    }
    assert items[..|items|] == items;
    var i := 0;
    while i < |items| && !Confirmed(items[i])
      invariant i <= |items| && FirstConfirmed(items) == FirstConfirmed(items[i..])
    {
      assert items[i..][1..] == items[i + 1..];
      i := i + 1;
    }
    if i < |items| {
      rep := items[i];
    }
    var cams := CameraLabels(items);
    return Finish(rep, cams, |items|);
  }

  method CameraLabels(items: seq<Photo>) returns (cams: seq<string>)
    ensures cams == Labels(items)
  {
    cams := [];
    for k := 0 to |items|
      invariant cams == Labels(items[..k])
    {
      LabelsNext(items, k);
      if items[k].cameraLabel != "" && items[k].cameraLabel !in cams {
        cams := cams + [items[k].cameraLabel];
      }
    }
    assert items[..|items|] == items;
  }

  method MergeFinishes(photos: seq<Photo>, windowMs: int) returns (out: seq<Finish>)
    ensures out == Merge(photos, windowMs)
  {
    var window := windowMs;
    if window <= 0 {
      window := DefaultWindowMs;
    }
    SortSorts(photos);
    var clusters := ClusterPhotos(SortByTime(photos), window);
    PlacedIsFilled(SortByTime(photos), window);
    var found := RepresentAll(clusters);
    return SortNewest(found);
  }

  method RepresentAll(clusters: seq<Cluster>) returns (found: seq<Finish>)
    requires Filled(clusters)
    ensures found == Finishes(clusters)
  {
    found := [];
    for i := 0 to |clusters|
      invariant |found| == i && forall j :: 0 <= j < i ==> found[j] == MergeCluster(clusters[j].items)
    {
      var f := Represent(clusters[i].items);
      found := found + [f];
    }
  }
}
