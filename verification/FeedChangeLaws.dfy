/** What the merge of one feed change promises: lifecycle, evidence, and that it can be repeated. */
module FeedChangeLaws {
  import opened Wrappers
  import opened TextOrder
  import opened JsonMerge
  import opened Registrations
  import opened RowMerge
  import opened Transitions
  import opened Operations
  import opened FeedLog
  import opened SiteFeed

  predicate HasSide(change: FeedChange) {
    change.before.Some? || change.after.Some?
  }

  /** A creation or deletion conflicts exactly when a row stands here that is not the image the change speaks of. */
  predicate WrongLife(current: Option<Registration>, change: FeedChange) {
    if change.before.None? then change.after.Some? && current.Some? && Bare(current.value) != Bare(change.after.value)
    else if change.after.None? then current.Some? && Bare(current.value) != Bare(change.before.value)
    else current.None?
  }

  /** An update of a row that stands here conflicts exactly when the projections do not merge. */
  predicate WrongState(current: Option<Registration>, change: FeedChange) {
    change.before.Some? && change.after.Some? && current.Some? &&
    Merge(Projection(change.before.value), Projection(change.after.value), Projection(current.value)).None?
  }

  lemma {:induction false} ChangeConflicts(current: Option<Registration>, change: FeedChange)
    requires HasSide(change)
    ensures MergeChange(current, change) == Err(FeedLifecycleConflict) <==> WrongLife(current, change)
    ensures MergeChange(current, change) == Err(FeedStateConflict) <==> WrongState(current, change)
    ensures MergeChange(current, change).Err? ==> WrongLife(current, change) || WrongState(current, change)
  {
    if change.before.Some? && change.after.Some? && current.Some? {
      FeedMergeAgrees(change.before.value, change.after.value, current.value);
    }
  }

  /** The evidence mark is never carried: a row that stays keeps its own, and a new row starts without one. */
  lemma {:induction false} ChangeKeepsEvidence(current: Option<Registration>, change: FeedChange)
    requires HasSide(change) && MergeChange(current, change).Ok? && MergeChange(current, change).value.Some?
    ensures MergeChange(current, change).value.value.hasTimingEvidence == (current.Some? && current.value.hasTimingEvidence)
    ensures change.after.Some?
  {
  }

  /** A change that was merged can be merged again and changes nothing more. */
  lemma {:induction false} ChangeTwiceIsOnce(current: Option<Registration>, change: FeedChange)
    requires HasSide(change) && MergeChange(current, change).Ok?
    ensures MergeChange(MergeChange(current, change).value, change) == MergeChange(current, change)
  {
    if change.before.Some? && change.after.Some? {
      var b, a, c := change.before.value, change.after.value, current.value;
      var m := MergeFeedRow(b, a, c).value;
      FeedMergeAgrees(b, a, c);
      FeedMergeAgrees(b, a, m);
      MergeIdempotent(Projection(b), Projection(a), Projection(c));
      EncodeInjective(MergeFeedRow(b, a, m).value, m);
    }
  }

  // The heads of a row.

  lemma {:induction false} InsertAscends(head: string, sorted: seq<string>)
    requires Ascending(sorted)
    ensures Ascending(Insert(head, sorted))
  {
    if sorted != [] && sorted[0] != head {
      BeforeTotal(head, sorted[0]);
      if Before(head, sorted[0]) {
        LeadsAscending(head, sorted);
      } else {
        InsertAscends(head, sorted[1..]);
        forall h | h in Insert(head, sorted[1..]) ensures Before(sorted[0], h) {
          if h in sorted[1..] {
            var i :| 0 <= i < |sorted[1..]| && sorted[1..][i] == h;
            assert h == sorted[i + 1];
          }
        }
        LeadsAll(sorted[0], Insert(head, sorted[1..]));
      }
    }
  }

  lemma {:induction false} LeadsAscending(head: string, sorted: seq<string>)
    requires Ascending(sorted) && sorted != [] && Before(head, sorted[0])
    ensures Ascending([head] + sorted)
  {
    forall h | h in sorted ensures Before(head, h) {
      var i :| 0 <= i < |sorted| && sorted[i] == h;
      if i > 0 {
        BeforeTransitive(head, sorted[0], sorted[i]);
      }
    }
    LeadsAll(head, sorted);
  }

  lemma {:induction false} LeadsAll(head: string, sorted: seq<string>)
    requires Ascending(sorted) && forall h :: h in sorted ==> Before(head, h)
    ensures Ascending([head] + sorted)
  {
    var all := [head] + sorted;
    forall i, j | 0 <= i < j < |all| ensures Before(all[i], all[j]) {
      assert all[j] == sorted[j - 1] && sorted[j - 1] in sorted;
      if i > 0 { assert all[i] == sorted[i - 1]; }
    }
  }

  /** A row's heads are in order, each once, so the limit on them counts different actions. */
  lemma {:induction false} HeadsAscend(heads: seq<string>)
    ensures Ascending(UniqueHeads(heads))
    ensures |UniqueHeads(heads)| == |set h | h in heads && h != ""|
  {
    OnlyAscending(heads);
    AscendingCounts(UniqueHeads(heads));
    assert (set h | h in UniqueHeads(heads)) == (set h | h in heads && h != "");
  }

  lemma {:induction false} OnlyAscending(heads: seq<string>)
    ensures Ascending(UniqueHeads(heads))
  {
    if heads != [] {
      OnlyAscending(heads[..|heads| - 1]);
      InsertAscends(heads[|heads| - 1], UniqueHeads(heads[..|heads| - 1]));
    }
  }
}
