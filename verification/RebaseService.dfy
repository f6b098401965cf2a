/** The rebase as the program runs it: one pass over the snapshot, one over the stored site rows, then the writes. */
module RebaseService {
  import opened Wrappers
  import opened TextRules
  import opened Registrations
  import opened Transitions
  import opened Operations
  import opened FeedLog
  import opened Tables
  import opened EventStore
  import opened SiteFeed
  import opened SiteFeedService
  import opened Rebase

  method CheckRows(store: Store, rows: seq<Registration>) returns (valid: bool)
    ensures valid == ValidRows(rows, store.eventId)
  {
    var incoming: set<string> := {};
    for i := 0 to |rows|
      invariant forall j :: 0 <= j < i ==> Validate(rows[j]).None? && rows[j].eventId == store.eventId
      invariant forall j, k :: 0 <= j < k < i ==> rows[j].id != rows[k].id
      invariant forall id :: id in incoming <==> exists j :: 0 <= j < i && rows[j].id == id
    {
      if Validate(rows[i]).Some? || rows[i].eventId != store.eventId {
        return false;
      }
      if rows[i].id in incoming {
        return false;
      }
      incoming := incoming + {rows[i].id};
    }
    return true;
  }

  method PlanSnapshot(store: Store, rows: seq<Registration>) returns (w: Work)
    ensures w == WorkAll(store.View(), rows)
  {
    var plans: seq<Plan>, sites: seq<Registration>, report := [], [], Rebased(0, 0, map[]);
    for i := 0 to |rows|
      invariant Work(plans, sites, report) == WorkAll(store.View(), rows[..i])
    {
      assert rows[..i + 1][..i] == rows[..i];
      var server := rows[i];
      if BaseLive(store.View(), server.id) && SameProjection(store.siteRows[server.id].value, server) {
        continue;
      }
      var current := FindRow(store.View(), server.id);
      var merged := MergeServer(store.View(), server);
      if merged.Ok? {
        plans := plans + [Plan(server.id, current.known, current.value.Some?, Some(merged.value), current.heads)];
        report := Rebased(report.applied + 1, report.review, report.items[server.id := Item(AppliedHere, None)]);
      } else {
        report := Rebased(report.applied, report.review + 1, report.items[server.id := Item(Review, Some(merged.error))]);
        if current.value.Some? && server.hasTimingEvidence && !current.value.value.hasTimingEvidence {
          var retained := current.value.value.(hasTimingEvidence := true);
          plans := plans + [Plan(server.id, current.known, true, Some(retained), current.heads)];
        }
      }
      sites := sites + [server];
    }
    assert rows[..|rows|] == rows;
    return Work(plans, sites, report);
  }

  method CollectIds(rows: seq<Registration>) returns (ids: set<string>)
    ensures ids == Ids(rows)
  {
    ids := {};
    for i := 0 to |rows|
      invariant ids == Ids(rows[..i])
    {
      assert rows[..i + 1][i] == rows[i];
      assert forall j :: 0 <= j < i ==> rows[..i + 1][j] == rows[..i][j];
      ids := ids + {rows[i].id};
    }
    assert rows[..|rows|] == rows;
  }

  /** Reports the live site rows the snapshot lacks, in whatever order they are visited. */
  method ReportMissing(store: Store, rows: seq<Registration>, report: Rebased) returns (r: Rebased)
    ensures r == WithMissing(report, Missing(store.View(), rows))
  {
    var incoming := CollectIds(rows);
    var todo := store.siteRows.Keys;
    var missing: set<string> := {};
    while todo != {}
      invariant todo <= store.siteRows.Keys
      invariant missing == set id | id in Missing(store.View(), rows) && id !in todo
      decreases |todo|
    {
      var id :| id in todo;
      todo := todo - {id};
      if !store.siteRows[id].deleted && id !in incoming {
        missing := missing + {id};
      }
    }
    assert missing == Missing(store.View(), rows);
    return Rebased(report.applied, report.review + |missing|,
                   report.items + map id | id in missing :: Item(Review, Some(SnapshotRegistrationMissing)));
  }

  method PutSiteRows(store: Store, rows: seq<Registration>) returns (done: Result<(), Failure>)
    modifies store`siteRows
    ensures Follows(PutSites(old(store.View()), rows), done, store.View())
  {
    ghost var d := store.View();
    for i := 0 to |rows|
      invariant PutSites(d, rows[..i]) == Ok(store.View())
    {
      assert rows[..i + 1][..i] == rows[..i];
      done := PutSiteRow(store, rows[i], false);
      if done.Err? {
        PutSitesStop(d, rows, i + 1);
        return;
      }
    }
    assert rows[..|rows|] == rows;
    return Ok(());
  }

  lemma {:induction false} PutSitesStop(d: Desk, rows: seq<Registration>, n: nat)
    requires n <= |rows| && PutSites(d, rows[..n]).Err?
    ensures PutSites(d, rows) == PutSites(d, rows[..n])
  {
    if n < |rows| {
      assert rows[..|rows| - 1][..n] == rows[..n];
      PutSitesStop(d, rows[..|rows| - 1], n);
    } else {
      assert rows[..n] == rows;
    }
  }

  method PerformWork(store: Store, snapshot: Snapshot, w: Work) returns (done: Result<(), Failure>)
    requires snapshot.cursor.Some?
    modifies store`rows, store`members, store`siteRows, store`rebases, store`scope
    ensures Follows(Perform(old(store.View()), snapshot, w), done, store.View())
  {
    done := ApplyPacketFeedPlans(store, w.plans);
    if done.Err? {
      return;
    }
    done := PutSiteRows(store, w.sites);
    if done.Err? {
      return;
    }
    if store.rebases >= 64 {
      return Err(RebaseLimit);
    }
    store.rebases := store.rebases + 1;
    store.scope := Scope(store.scope.scopeId, snapshot.baselineId, snapshot.cursor.value);
  }

  method RebasePacketIssuanceRoster(store: Store, snapshot: Snapshot) returns (reply: Result<Rebased, Failure>)
    modifies store
    ensures RebaseDone(store.View(), reply) == RebaseRoster(old(store.View()), snapshot)
  {
    var saved := store.View();
    if !Acceptable(store.View(), snapshot) {
      return Err(InvalidRebase);
    }
    if !BaselineComplete(store.View()) {
      return Err(BaselineUnavailable);
    }
    var valid := CheckRows(store, snapshot.registrations);
    if !valid {
      return Err(InvalidRebase);
    }
    var w := PlanSnapshot(store, snapshot.registrations);
    var report := ReportMissing(store, snapshot.registrations, w.report);
    var done := PerformWork(store, snapshot, w);
    if done.Err? {
      store.Rollback(saved);
      return Err(done.error);
    }
    return Ok(report);
  }
}
