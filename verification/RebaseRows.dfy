/** What a rebase leaves in each row of the snapshot, member by member. */
module RebaseRows {
  import opened Wrappers
  import opened TextRules
  import opened Registrations
  import opened RowMerge
  import opened Transitions
  import opened Operations
  import opened FeedLog
  import opened Tables
  import opened SiteFeed
  import opened SiteFeedLaws
  import opened SiteSync
  import opened Rebase
  import opened RebaseLaws
  import opened SiteActionLaws

  /** The stored site row of this id, if the site still has it. */
  predicate Based(d: Desk, id: string) {
    id in d.siteRows && !d.siteRows[id].deleted
  }

  /** The site has not touched the row since the last baseline. */
  predicate SiteStood(d: Desk, server: Registration) {
    Based(d, server.id) && SameFeed(d.siteRows[server.id].value, server)
  }

  /** The site's change since the baseline can be merged into the local row. */
  predicate Joins(d: Desk, server: Registration, local: Registration) {
    if Based(d, server.id) then FreeFeed(d.siteRows[server.id].value, server, local) else SameFeed(local, server)
  }

  /** The merged row: the site's changes over the local row, evidence from either side, heads as they were. */
  predicate JoinedRow(d: Desk, server: Registration, local: Registration, row: Row) {
    !row.deleted && row.heads == HeadsOf(d.rows, server.id) &&
    row.value.hasTimingEvidence == (local.hasTimingEvidence || server.hasTimingEvidence) &&
    if Based(d, server.id) then TakesOver(d.siteRows[server.id].value, server, local, row.value.(hasTimingEvidence := local.hasTimingEvidence))
    else SameFeed(row.value, local)
  }

  /** The local row after the rebase. */
  predicate RebasedTo(d: Desk, rows: map<string, Row>, server: Registration) {
    var id := server.id;
    if SiteStood(d, server) then At(rows, id) == At(d.rows, id)
    else if !Live(d.rows, id) then
      if Based(d, id) then At(rows, id) == At(d.rows, id)
      else
        Live(rows, id) && SameFeed(rows[id].value, server) && rows[id].heads == HeadsOf(d.rows, id) &&
        rows[id].value.hasTimingEvidence == server.hasTimingEvidence
    else
      var local := WithEvidence(d, d.rows[id].value);
      if Joins(d, server, local) then id in rows && JoinedRow(d, server, local, rows[id])
      else if server.hasTimingEvidence && !local.hasTimingEvidence then
        At(rows, id) == Some(Row(local.(hasTimingEvidence := true), d.rows[id].heads, false))
      else At(rows, id) == At(d.rows, id)
  }

  lemma {:induction false} ServerCases(d: Desk, server: Registration)
    requires !SiteStood(d, server)
    ensures Unmoved(d, server) <==> SiteStood(d, server)
    ensures !Live(d.rows, server.id) ==>
              if Based(d, server.id) then MergeServer(d, server).Err? && !LearnsEvidence(d, server)
              else MergeServer(d, server) == Ok(server)
    ensures Live(d.rows, server.id) ==>
              var local := WithEvidence(d, d.rows[server.id].value);
              (MergeServer(d, server).Ok? <==> Joins(d, server, local)) &&
              (LearnsEvidence(d, server) <==> server.hasTimingEvidence && !local.hasTimingEvidence)
  {
    if Based(d, server.id) {
      SameProjectionIsSameFeed(d.siteRows[server.id].value, server);
    }
    if Live(d.rows, server.id) {
      SameProjectionIsSameFeed(WithEvidence(d, d.rows[server.id].value), server);
    }
  }

  lemma {:induction false} JoinedServer(d: Desk, server: Registration)
    requires Live(d.rows, server.id) && MergeServer(d, server).Ok?
    ensures JoinedRow(d, server, WithEvidence(d, d.rows[server.id].value),
                      Row(MergeServer(d, server).value, d.rows[server.id].heads, false))
  {
    var local := WithEvidence(d, d.rows[server.id].value);
    if Based(d, server.id) {
      MergedTakesOver(d.siteRows[server.id].value, server, local);
    }
  }

  /** Each row of the snapshot after a rebase: as it was, created, merged, or only marked as timed. */
  lemma {:induction false} RebasedRowReads(d: Desk, snapshot: Snapshot, e: Desk, i: nat)
    requires Consistent(d) && SiteNamed(d) && RebasesTo(d, snapshot, e) && i < |snapshot.registrations|
    ensures RebasedTo(d, e.rows, snapshot.registrations[i])
  {
    var server := snapshot.registrations[i];
    RebaseMergesRows(d, snapshot, e, i);
    if SiteStood(d, server) {
      SameProjectionIsSameFeed(d.siteRows[server.id].value, server);
    } else {
      ServerCases(d, server);
      if Live(d.rows, server.id) && MergeServer(d, server).Ok? {
        JoinedServer(d, server);
      }
    }
  }

  // The report.

  /** A live row of the old baseline that the snapshot no longer has. */
  predicate Dropped(d: Desk, rows: seq<Registration>, id: string) {
    Based(d, id) && forall r :: r in rows ==> r.id != id
  }

  lemma {:induction false} IdsAreNames(rows: seq<Registration>, id: string)
    ensures id in Ids(rows) <==> exists r :: r in rows && r.id == id
  {
    if id in Ids(rows) {
      var i :| 0 <= i < |rows| && rows[i].id == id;
      assert rows[i] in rows;
    }
  }

  lemma {:induction false} MissingIsDropped(d: Desk, rows: seq<Registration>)
    ensures forall id :: id in Missing(d, rows) <==> Dropped(d, rows, id)
  {
    forall id
      ensures id in Missing(d, rows) <==> Dropped(d, rows, id)
    {
      IdsAreNames(rows, id);
    }
  }

  lemma {:induction false} MissingAreApart(items: map<string, Item>, missing: set<string>, a: Application)
    requires items.Keys !! missing
    ensures var all := items + map id | id in missing :: Item(Review, Some(SnapshotRegistrationMissing));
            |With(all, a)| == |With(items, a)| + if a.Review? then |missing| else 0
  {
    var all := items + map id | id in missing :: Item(Review, Some(SnapshotRegistrationMissing));
    if a.Review? {
      assert With(all, a) == With(items, a) + missing;
    } else {
      assert With(all, a) == With(items, a);
    }
  }

  /** Each row a rebase has to tell of, once: a row the site moved with what became of it, and a row it dropped for review. */
  lemma {:induction false} RebaseReports(d: Desk, snapshot: Snapshot)
    requires RebaseRoster(d, snapshot).reply.Ok?
    ensures var r := RebaseRoster(d, snapshot).reply.value; var rows := snapshot.registrations;
            Tallied(r) &&
            (forall s :: s in rows ==>
              if SiteStood(d, s) then s.id !in r.items
              else s.id in r.items && (r.items[s.id].application.AppliedHere? <==> MergeServer(d, s).Ok?)) &&
            (forall id :: Dropped(d, rows, id) ==> id in r.items && r.items[id] == Item(Review, Some(SnapshotRegistrationMissing))) &&
            forall id :: id in r.items ==> Dropped(d, rows, id) || exists s :: s in rows && s.id == id
  {
    var rows := snapshot.registrations;
    var w := WorkAll(d, rows);
    assert DistinctIds(rows);
    WorkReports(d, rows);
    MissingIsDropped(d, rows);
    MissingAreApart(w.report.items, Missing(d, rows), AppliedHere);
    MissingAreApart(w.report.items, Missing(d, rows), Review);
    var r := WithMissing(w.report, Missing(d, rows));
    forall s | s in rows
      ensures if SiteStood(d, s) then s.id !in r.items
              else s.id in r.items && (r.items[s.id].application.AppliedHere? <==> MergeServer(d, s).Ok?)
    {
      MovedIsReported(d, rows, s, w.report.items);
    }
    forall id | id in r.items
      ensures Dropped(d, rows, id) || exists s :: s in rows && s.id == id
    {
      IdsAreNames(rows, id);
    }
  }

  lemma {:induction false} MovedIsReported(d: Desk, rows: seq<Registration>, s: Registration, items: map<string, Item>)
    requires s in rows && RebaseLaws.Reported(d, items, s)
    ensures if SiteStood(d, s) then s.id !in items else s.id in items && (items[s.id].application.AppliedHere? <==> MergeServer(d, s).Ok?)
    ensures !Dropped(d, rows, s.id)
  {
    if Based(d, s.id) {
      SameProjectionIsSameFeed(d.siteRows[s.id].value, s);
    }
  }
}
