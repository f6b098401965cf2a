/** What a rebase keeps and what it moves, row by row. */
module RebaseLaws {
  import opened Wrappers
  import opened TextRules
  import opened Registrations
  import opened RowMerge
  import opened Transitions
  import opened Operations
  import opened FeedLog
  import opened Tables
  import opened SiteFeed
  import opened SiteFeedLaws
  import opened SiteSync
  import opened Rebase

  // The work list.

  /** The row written for one snapshot row, if any. */
  function PlanFor(d: Desk, server: Registration): Option<Plan> {
    if Unmoved(d, server) then None
    else
      var merged := MergeServer(d, server);
      if merged.Ok? then Some(RowPlan(d, server.id, merged.value))
      else if LearnsEvidence(d, server) then
        Some(RowPlan(d, server.id, FindRow(d, server.id).value.value.(hasTimingEvidence := true)))
      else None
  }

  predicate DistinctIds(rows: seq<Registration>) {
    forall i, j :: 0 <= i < j < |rows| ==> rows[i].id != rows[j].id
  }

  function Found(d: Desk, rows: seq<Registration>): (found: seq<Option<Plan>>)
    ensures |found| == |rows|
  {
    if rows == [] then [] else Found(d, rows[..|rows| - 1]) + [PlanFor(d, rows[|rows| - 1])]
  }

  /** The plans are the found ones, each for another row. */
  ghost predicate Listed(found: seq<Option<Plan>>, plans: seq<Plan>) {
    (forall p :: p in plans ==> exists i :: 0 <= i < |found| && found[i] == Some(p)) &&
    (forall i :: 0 <= i < |found| ==> found[i].Some? ==> found[i].value in plans) &&
    forall i, j :: 0 <= i < j < |plans| ==> plans[i].id != plans[j].id
  }

  /** The plans are those of the snapshot rows, one each at most. */
  ghost predicate PlansMatch(d: Desk, rows: seq<Registration>, plans: seq<Plan>) {
    Listed(Found(d, rows), plans)
  }

  lemma {:induction false} FoundAt(d: Desk, rows: seq<Registration>, i: nat)
    requires i < |rows|
    ensures Found(d, rows)[i] == PlanFor(d, rows[i])
  {
    if i < |rows| - 1 {
      FoundAt(d, rows[..|rows| - 1], i);
    }
  }

  lemma {:induction false} PlanSource(d: Desk, rows: seq<Registration>, plans: seq<Plan>, p: Plan) returns (i: nat)
    requires PlansMatch(d, rows, plans) && p in plans
    ensures i < |rows| && PlanFor(d, rows[i]) == Some(p)
  {
    var found := Found(d, rows);
    i :| 0 <= i < |found| && found[i] == Some(p);
    FoundAt(d, rows, i);
  }

  lemma {:induction false} PlanTaken(d: Desk, rows: seq<Registration>, plans: seq<Plan>, i: nat)
    requires PlansMatch(d, rows, plans) && i < |rows| && PlanFor(d, rows[i]).Some?
    ensures PlanFor(d, rows[i]).value in plans
  {
    FoundAt(d, rows, i);
    assert Found(d, rows)[i].Some?;
  }

  lemma {:induction false} ListedOneMore(found: seq<Option<Plan>>, plans: seq<Plan>, last: Option<Plan>)
    requires Listed(found, plans) && (last.Some? ==> forall p :: p in plans ==> p.id != last.value.id)
    ensures Listed(found + [last], if last.Some? then plans + [last.value] else plans)
  {
    var all, more := found + [last], if last.Some? then plans + [last.value] else plans;
    forall p | p in more ensures exists i :: 0 <= i < |all| && all[i] == Some(p) {
      if p in plans {
        var i :| 0 <= i < |found| && found[i] == Some(p);
        assert all[i] == Some(p);
      } else {
        assert all[|found|] == Some(p);
      }
    }
  }

  lemma {:induction false} PlanNamesRow(d: Desk, server: Registration)
    ensures PlanFor(d, server).Some? ==> PlanFor(d, server).value.id == server.id && PlanFor(d, server).value.after.Some?
  {
  }

  lemma {:induction false} WorkPlans(d: Desk, rows: seq<Registration>)
    requires DistinctIds(rows)
    ensures PlansMatch(d, rows, WorkAll(d, rows).plans)
  {
    if rows != [] {
      var front, last := rows[..|rows| - 1], rows[|rows| - 1];
      var before := WorkAll(d, front).plans;
      assert forall i :: 0 <= i < |front| ==> front[i] == rows[i];
      WorkPlans(d, front);
      PlanNamesRow(d, last);
      forall p | p in before ensures p.id != last.id {
        var i := PlanSource(d, front, before, p);
        PlanNamesRow(d, front[i]);
      }
      WorkOneMore(d, rows);
      ListedOneMore(Found(d, front), before, PlanFor(d, last));
    }
  }

  lemma {:induction false} WorkOneMore(d: Desk, rows: seq<Registration>)
    requires rows != []
    ensures var before, plan := WorkAll(d, rows[..|rows| - 1]).plans, PlanFor(d, rows[|rows| - 1]);
            WorkAll(d, rows).plans == if plan.Some? then before + [plan.value] else before
  {
  }

  lemma {:induction false} WorkSites(d: Desk, rows: seq<Registration>)
    ensures forall r :: r in WorkAll(d, rows).sites <==> r in rows && !Unmoved(d, r)
  {
    if rows != [] {
      WorkSites(d, rows[..|rows| - 1]);
      assert forall r :: r in rows <==> r in rows[..|rows| - 1] || r == rows[|rows| - 1];
    }
  }

  // Rows.

  lemma {:induction false} ServerKeepsName(d: Desk, server: Registration)
    requires Consistent(d) && SiteNamed(d) && server.eventId == d.eventId && MergeServer(d, server).Ok?
    ensures MergeServer(d, server).value.id == server.id && MergeServer(d, server).value.eventId == d.eventId
  {
    MergeNamesRow(FindRow(d, server.id).value, SnapshotChange(d, server));
  }

  lemma {:induction false} PlanIsProper(d: Desk, server: Registration)
    requires Consistent(d) && SiteNamed(d) && server.eventId == d.eventId && PlanFor(d, server).Some?
    ensures var p := PlanFor(d, server).value; NamedPlan(p) && OwnPlan(p, d.eventId) && p.known == (p.id in d.rows)
  {
    if MergeServer(d, server).Ok? {
      ServerKeepsName(d, server);
    }
  }

  lemma {:induction false} WorkIsProper(d: Desk, rows: seq<Registration>)
    requires Consistent(d) && SiteNamed(d) && ValidRows(rows, d.eventId)
    ensures ProperPlans(d, WorkAll(d, rows).plans)
    ensures forall p :: p in WorkAll(d, rows).plans ==> OwnPlan(p, d.eventId)
  {
    WorkPlans(d, rows);
    forall p | p in WorkAll(d, rows).plans
      ensures NamedPlan(p) && p.known == (p.id in d.rows) && OwnPlan(p, d.eventId)
    {
      var i := PlanSource(d, rows, WorkAll(d, rows).plans, p);
      PlanIsProper(d, rows[i]);
    }
  }

  lemma {:induction false} PutSitesOnly(d: Desk, rows: seq<Registration>)
    requires PutSites(d, rows).Ok?
    ensures var e := PutSites(d, rows).value; e == d.(siteRows := e.siteRows)
    ensures forall id :: id !in Ids(rows) ==> SiteAt(PutSites(d, rows).value, id) == SiteAt(d, id)
    ensures DistinctIds(rows) ==> forall r :: r in rows ==> SiteAt(PutSites(d, rows).value, r.id) == Some(SiteRow(r, false))
  {
    if rows != [] {
      var front := rows[..|rows| - 1];
      PutSitesOnly(d, front);
      assert forall i :: 0 <= i < |front| ==> front[i] == rows[i];
      assert forall id :: id in Ids(front) ==> id in Ids(rows);
      assert rows[|rows| - 1].id in Ids(rows);
      assert forall r :: r in rows <==> r in front || r == rows[|rows| - 1];
    }
  }

  function SiteAt(d: Desk, id: string): Option<SiteRow> {
    if id in d.siteRows then Some(d.siteRows[id]) else None
  }

  predicate RebasesTo(d: Desk, snapshot: Snapshot, e: Desk) {
    RebaseRoster(d, snapshot).reply.Ok? && e == RebaseRoster(d, snapshot).desk
  }

  /** The rebase as row writes followed by site rows. */
  lemma {:induction false} RebaseShape(d: Desk, snapshot: Snapshot, e: Desk)
    requires RebasesTo(d, snapshot, e)
    ensures Acceptable(d, snapshot) && BaselineComplete(d) && ValidRows(snapshot.registrations, d.eventId)
    ensures var w := WorkAll(d, snapshot.registrations); var f := WritePlans(d, w.plans);
            f.Ok? && PutSites(f.value, w.sites).Ok? && e.rows == f.value.rows && e.members == f.value.members &&
            e.siteRows == PutSites(f.value, w.sites).value.siteRows && e.rebases == d.rebases + 1 && d.rebases < 64 &&
            e.scope == Scope(d.scope.scopeId, snapshot.baselineId, snapshot.cursor.value)
    ensures var w := WorkAll(d, snapshot.registrations);
            e == d.(rows := e.rows, members := e.members, siteRows := e.siteRows, rebases := e.rebases, scope := e.scope)
  {
    var w := WorkAll(d, snapshot.registrations);
    WritePlansIsLocal(d, w.plans);
    PutSitesOnly(WritePlans(d, w.plans).value, w.sites);
  }

  lemma {:induction false} RebasedRows(d: Desk, snapshot: Snapshot, e: Desk)
    requires Consistent(d) && SiteNamed(d) && RebasesTo(d, snapshot, e)
    ensures RowsAsPlanned(d.rows, e.rows, WorkAll(d, snapshot.registrations).plans)
    ensures PlansMatch(d, snapshot.registrations, WorkAll(d, snapshot.registrations).plans)
  {
    RebaseShape(d, snapshot, e);
    WorkIsProper(d, snapshot.registrations);
    WorkPlans(d, snapshot.registrations);
    WritePlansRows(d, WorkAll(d, snapshot.registrations).plans);
  }

  /** A snapshot row's local row afterwards. */
  function RowResult(d: Desk, server: Registration): Option<Row> {
    var p := PlanFor(d, server);
    if p.Some? then Some(Row(p.value.after.value, p.value.heads, false)) else At(d.rows, server.id)
  }

  lemma {:induction false} RebasedRow(d: Desk, snapshot: Snapshot, e: Desk, i: nat)
    requires Consistent(d) && SiteNamed(d) && RebasesTo(d, snapshot, e) && i < |snapshot.registrations|
    ensures PlanFor(d, snapshot.registrations[i]).Some? ==> PlanFor(d, snapshot.registrations[i]).value.after.Some?
    ensures At(e.rows, snapshot.registrations[i].id) == RowResult(d, snapshot.registrations[i])
  {
    var rows, server := snapshot.registrations, snapshot.registrations[i];
    var plans := WorkAll(d, rows).plans;
    RebasedRows(d, snapshot, e);
    RebaseShape(d, snapshot, e);
    PlanNamesRow(d, server);
    if PlanFor(d, server).Some? {
      PlanTaken(d, rows, plans, i);
      PlannedRowAt(d, e, plans, PlanFor(d, server).value);
    } else {
      NotPlanned(d, rows, plans, i);
    }
  }

  lemma {:induction false} PlannedRowAt(d: Desk, e: Desk, plans: seq<Plan>, p: Plan)
    requires RowsAsPlanned(d.rows, e.rows, plans) && p in plans
    ensures At(e.rows, p.id) == RowPlanned(d.rows, p)
  {
    var j :| 0 <= j < |plans| && plans[j] == p;
  }

  lemma {:induction false} NotPlanned(d: Desk, rows: seq<Registration>, plans: seq<Plan>, i: nat)
    requires PlansMatch(d, rows, plans) && DistinctIds(rows) && i < |rows| && PlanFor(d, rows[i]).None?
    ensures !PlansName(plans, rows[i].id)
  {
    forall j | 0 <= j < |plans| ensures plans[j].id != rows[i].id {
      var k := PlanSource(d, rows, plans, plans[j]);
      PlanNamesRow(d, rows[k]);
      assert k != i;
    }
  }

  lemma {:induction false} OtherRowsStay(d: Desk, snapshot: Snapshot, e: Desk, id: string)
    requires Consistent(d) && SiteNamed(d) && RebasesTo(d, snapshot, e) && id !in Ids(snapshot.registrations)
    ensures At(e.rows, id) == At(d.rows, id)
  {
    var rows := snapshot.registrations;
    var plans := WorkAll(d, rows).plans;
    RebasedRows(d, snapshot, e);
    PlansStayListed(d, rows, plans, id);
  }

  lemma {:induction false} PlansStayListed(d: Desk, rows: seq<Registration>, plans: seq<Plan>, id: string)
    requires PlansMatch(d, rows, plans) && id !in Ids(rows)
    ensures !PlansName(plans, id)
  {
    forall j | 0 <= j < |plans| ensures plans[j].id != id {
      var k := PlanSource(d, rows, plans, plans[j]);
      PlanNamesRow(d, rows[k]);
      assert rows[k].id in Ids(rows);
    }
  }

  // The main results.

  /** In a row both sides have, the snapshot is merged in over the old site row; evidence comes from either side. */
  lemma {:induction false} ServerMergeIsThreeWay(d: Desk, server: Registration)
    requires BaseLive(d, server.id) && FindRow(d, server.id).value.Some?
    ensures var local := FindRow(d, server.id).value.value;
            MergeServer(d, server) ==
            match MergeFeedRow(d.siteRows[server.id].value, server, local)
            case None => Err(FeedStateConflict)
            case Some(m) => Ok(m.(hasTimingEvidence := local.hasTimingEvidence || server.hasTimingEvidence))
  {
  }

  /**
   After a rebase: a row the site did not move is untouched; a row that merges holds the merge, under its old heads;
   a row in conflict is untouched but for learning of timing evidence; rows outside the snapshot are untouched.
   */
  lemma {:induction false} RebaseMergesRows(d: Desk, snapshot: Snapshot, e: Desk, i: nat)
    requires Consistent(d) && SiteNamed(d) && RebasesTo(d, snapshot, e) && i < |snapshot.registrations|
    ensures var server := snapshot.registrations[i]; var id := server.id; var heads := FindRow(d, id).heads;
            if Unmoved(d, server) then At(e.rows, id) == At(d.rows, id)
            else if MergeServer(d, server).Ok? then At(e.rows, id) == Some(Row(MergeServer(d, server).value, heads, false))
            else if LearnsEvidence(d, server) then
              At(e.rows, id) == Some(Row(FindRow(d, id).value.value.(hasTimingEvidence := true), heads, false))
            else At(e.rows, id) == At(d.rows, id)
  {
    RebasedRow(d, snapshot, e, i);
  }

  /** Causal heads survive a rebase on every row. */
  lemma {:induction false} RebaseKeepsHeads(d: Desk, snapshot: Snapshot, e: Desk, id: string)
    requires Consistent(d) && SiteNamed(d) && RebasesTo(d, snapshot, e) && id in d.rows
    ensures id in e.rows && e.rows[id].heads == d.rows[id].heads
  {
    if id in Ids(snapshot.registrations) {
      var i :| 0 <= i < |snapshot.registrations| && snapshot.registrations[i].id == id;
      RebaseMergesRows(d, snapshot, e, i);
    } else {
      OtherRowsStay(d, snapshot, e, id);
    }
  }

  lemma {:induction false} MergeServerKeepsEvidence(d: Desk, server: Registration)
    requires MergeServer(d, server).Ok? && FindRow(d, server.id).value.Some?
    ensures FindRow(d, server.id).value.value.hasTimingEvidence ==> MergeServer(d, server).value.hasTimingEvidence
  {
  }

  function MemberAt(d: Desk, id: string): Option<Member> {
    if id in d.members then Some(d.members[id]) else None
  }

  lemma {:induction false} WritePlansMembers(d: Desk, plans: seq<Plan>, id: string)
    requires WritePlans(d, plans).Ok? && !PlansName(plans, id) && forall p :: p in plans ==> NamedPlan(p)
    ensures MemberAt(WritePlans(d, plans).value, id) == MemberAt(d, id)
  {
    if plans != [] {
      var front := plans[..|plans| - 1];
      assert forall i :: 0 <= i < |front| ==> front[i] == plans[i];
      WritePlansMembers(d, front, id);
      assert plans[|plans| - 1] in plans && plans[|plans| - 1].id != id;
    }
  }

  /** Where no row was planned, neither the row nor its member is touched. */
  lemma {:induction false} UnplannedStays(d: Desk, snapshot: Snapshot, e: Desk, id: string)
    requires Consistent(d) && SiteNamed(d) && RebasesTo(d, snapshot, e)
    requires !PlansName(WorkAll(d, snapshot.registrations).plans, id)
    ensures At(e.rows, id) == At(d.rows, id) && MemberAt(e, id) == MemberAt(d, id)
  {
    RebasedRows(d, snapshot, e);
    RebaseShape(d, snapshot, e);
    WorkIsProper(d, snapshot.registrations);
    WritePlansMembers(d, WorkAll(d, snapshot.registrations).plans, id);
  }

  lemma {:induction false} SameRowSameEvidence(d: Desk, e: Desk, id: string)
    requires At(e.rows, id) == At(d.rows, id) && MemberAt(e, id) == MemberAt(d, id)
    requires e.loggedNumbers == d.loggedNumbers && e.loggedEpcs == d.loggedEpcs && Named(d)
    ensures FindRow(e, id) == FindRow(d, id)
  {
  }

  /** A row known to have taken part in timing is never again taken for one that has not. */
  lemma {:induction false} RebaseKeepsEvidence(d: Desk, snapshot: Snapshot, e: Desk, id: string)
    requires Consistent(d) && SiteNamed(d) && RebasesTo(d, snapshot, e)
    requires FindRow(d, id).value.Some? && FindRow(d, id).value.value.hasTimingEvidence
    ensures FindRow(e, id).value.Some? && FindRow(e, id).value.value.hasTimingEvidence
  {
    var plans := WorkAll(d, snapshot.registrations).plans;
    RebaseShape(d, snapshot, e);
    if PlansName(plans, id) {
      RebasedRows(d, snapshot, e);
      var j :| 0 <= j < |plans| && plans[j].id == id;
      var i := PlanSource(d, snapshot.registrations, plans, plans[j]);
      PlanNamesRow(d, snapshot.registrations[i]);
      RebaseMergesRows(d, snapshot, e, i);
      if MergeServer(d, snapshot.registrations[i]).Ok? {
        MergeServerKeepsEvidence(d, snapshot.registrations[i]);
      }
    } else {
      UnplannedStays(d, snapshot, e, id);
      SameRowSameEvidence(d, e, id);
    }
  }

  // The site's side.

  lemma {:induction false} SitesAreDistinct(d: Desk, rows: seq<Registration>)
    requires DistinctIds(rows)
    ensures DistinctIds(WorkAll(d, rows).sites)
    ensures forall r :: r in WorkAll(d, rows).sites ==> r in rows
  {
    if rows != [] {
      var front := rows[..|rows| - 1];
      assert forall i :: 0 <= i < |front| ==> front[i] == rows[i];
      SitesAreDistinct(d, front);
      assert forall r :: r in front ==> r.id != rows[|rows| - 1].id;
    }
  }

  lemma {:induction false} RebasedSites(d: Desk, snapshot: Snapshot, e: Desk)
    requires RebasesTo(d, snapshot, e)
    ensures forall r :: r in snapshot.registrations ==>
              SiteAt(e, r.id) == if Unmoved(d, r) then SiteAt(d, r.id) else Some(SiteRow(r, false))
    ensures forall id :: id !in Ids(snapshot.registrations) ==> SiteAt(e, id) == SiteAt(d, id)
  {
    var rows, w := snapshot.registrations, WorkAll(d, snapshot.registrations);
    RebaseShape(d, snapshot, e);
    SitesListed(d, rows);
    WritePlansIsLocal(d, w.plans);
    var f := WritePlans(d, w.plans).value;
    PutSitesOnly(f, w.sites);
    assert forall id :: SiteAt(e, id) == SiteAt(PutSites(f, w.sites).value, id);
    assert forall id :: SiteAt(f, id) == SiteAt(d, id);
  }

  lemma {:induction false} SitesListed(d: Desk, rows: seq<Registration>)
    requires DistinctIds(rows)
    ensures var sites := WorkAll(d, rows).sites;
            DistinctIds(sites) && (forall id :: id in Ids(sites) ==> id in Ids(rows)) &&
            forall r :: r in rows ==> if Unmoved(d, r) then r.id !in Ids(sites) else r in sites
  {
    var sites := WorkAll(d, rows).sites;
    SitesAreDistinct(d, rows);
    WorkSites(d, rows);
    forall id | id in Ids(sites) ensures id in Ids(rows) {
      var i :| 0 <= i < |sites| && sites[i].id == id;
      assert sites[i] in rows;
    }
    forall r | r in rows && Unmoved(d, r) ensures r.id !in Ids(sites) {
      UnmovedIsNotListed(d, rows, sites, r);
    }
  }

  lemma {:induction false} UnmovedIsNotListed(d: Desk, rows: seq<Registration>, sites: seq<Registration>, r: Registration)
    requires DistinctIds(rows) && r in rows && Unmoved(d, r)
    requires forall s :: s in sites <==> s in rows && !Unmoved(d, s)
    ensures r.id !in Ids(sites)
  {
    forall i | 0 <= i < |sites| ensures sites[i].id != r.id {
      assert sites[i] in sites;
      var j :| 0 <= j < |rows| && rows[j] == sites[i];
      var k :| 0 <= k < |rows| && rows[k] == r;
      assert j != k;
    }
  }

  /** After a rebase the stored site row of every snapshot row is the snapshot's, and the others are as before. */
  lemma {:induction false} RebaseTakesSnapshot(d: Desk, snapshot: Snapshot, e: Desk)
    requires RebasesTo(d, snapshot, e)
    ensures forall r :: r in snapshot.registrations ==> Unmoved(e, r)
    ensures forall id :: id !in Ids(snapshot.registrations) ==> SiteAt(e, id) == SiteAt(d, id)
  {
    RebasedSites(d, snapshot, e);
    forall r | r in snapshot.registrations ensures Unmoved(e, r) {
      assert SiteAt(e, r.id).Some?;
    }
  }

  lemma {:induction false} NothingToDo(d: Desk, rows: seq<Registration>)
    requires forall r :: r in rows ==> Unmoved(d, r)
    ensures WorkAll(d, rows) == Work([], [], Rebased(0, 0, map[]))
  {
    if rows != [] {
      NothingToDo(d, rows[..|rows| - 1]);
    }
  }

  lemma {:induction false} RebaseCompletes(d: Desk, snapshot: Snapshot, e: Desk)
    requires Consistent(d) && SiteNamed(d) && RebasesTo(d, snapshot, e)
    ensures BaselineComplete(e)
  {
    RebaseShape(d, snapshot, e);
    RebaseTakesSnapshot(d, snapshot, e);
    forall id | id in e.rows ensures id in e.siteRows {
      if id in Ids(snapshot.registrations) {
        var i :| 0 <= i < |snapshot.registrations| && snapshot.registrations[i].id == id;
        assert Unmoved(e, snapshot.registrations[i]);
      } else {
        OtherRowsStay(d, snapshot, e, id);
        assert id in d.rows;
        assert SiteAt(e, id) == SiteAt(d, id);
      }
    }
  }

  /** Rebasing onto the same snapshot again succeeds below the limit and changes no row, member or site row. */
  lemma {:induction false} RebaseTwiceIsOnce(d: Desk, snapshot: Snapshot, e: Desk)
    requires Consistent(d) && SiteNamed(d) && RebasesTo(d, snapshot, e)
    ensures RebaseRoster(e, snapshot).reply.Ok? <==> e.rebases < 64
    ensures RebaseRoster(e, snapshot).desk ==
            if e.rebases < 64 then e.(rebases := e.rebases + 1) else e
  {
    RebaseShape(d, snapshot, e);
    RebaseTakesSnapshot(d, snapshot, e);
    RebaseCompletes(d, snapshot, e);
    NothingToDo(e, snapshot.registrations);
  }

  // A whole snapshot.

  /** The snapshot as the site's rows. */
  function SnapshotRows(rows: seq<Registration>): Rows {
    map id | id in Ids(rows) && Find(rows, id).Some? :: Bare(Find(rows, id).value)
  }

  lemma {:induction false} SnapshotRowAt(rows: seq<Registration>, r: Registration)
    requires DistinctIds(rows) && r in rows
    ensures RowNow(SnapshotRows(rows), r.id) == Some(Bare(r))
  {
    var i :| 0 <= i < |rows| && rows[i] == r;
    assert r.id in Ids(rows);
    var found := Find(rows, r.id);
    assert found.Some?;
    var j :| 0 <= j < |rows| && rows[j] == found.value;
  }

  lemma {:induction false} BaselineAt(d: Desk, id: string)
    ensures RowNow(Baseline(d), id) ==
            if SiteAt(d, id).Some? && !SiteAt(d, id).value.deleted then Some(Bare(SiteAt(d, id).value.value)) else None
  {
  }

  /** If the snapshot lacks no live site row, the stored site rows become exactly the snapshot. */
  lemma {:induction false} RebaseIsSnapshot(d: Desk, snapshot: Snapshot, e: Desk)
    requires RebasesTo(d, snapshot, e) && Missing(d, snapshot.registrations) == {}
    ensures Baseline(e) == SnapshotRows(snapshot.registrations)
  {
    var rows := snapshot.registrations;
    RebaseShape(d, snapshot, e);
    RebaseTakesSnapshot(d, snapshot, e);
    forall id ensures RowNow(Baseline(e), id) == RowNow(SnapshotRows(rows), id) {
      BaselineAt(e, id);
      if id in Ids(rows) {
        var i :| 0 <= i < |rows| && rows[i].id == id;
        SnapshotRowAt(rows, rows[i]);
        assert Unmoved(e, rows[i]);
      } else {
        assert id !in Missing(d, rows);
        assert SiteAt(e, id) == SiteAt(d, id);
      }
    }
    SameEverywhere(Baseline(e), SnapshotRows(rows));
  }

  lemma {:induction false} SyncedRowRebases(d: Desk, server: Registration)
    requires Consistent(d) && Synced(d)
    ensures Unmoved(d, server) ==> RowNow(LocalRows(d.rows), server.id) == Some(Bare(server))
    ensures !Unmoved(d, server) ==> MergeServer(d, server).Ok? && Bare(MergeServer(d, server).value) == Bare(server)
  {
    if Unmoved(d, server) {
      assert server.id in Baseline(d);
    } else {
      SyncedRowTakesChange(d, SnapshotChange(d, server));
    }
  }

  /** Without local work, rebasing onto a whole snapshot reviews nothing and leaves the local rows equal to it. */
  lemma {:induction false} RebaseKeepsSync(d: Desk, snapshot: Snapshot, e: Desk)
    requires Consistent(d) && SiteNamed(d) && Synced(d) && RebasesTo(d, snapshot, e)
    requires Missing(d, snapshot.registrations) == {}
    ensures Synced(e) && LocalRows(e.rows) == SnapshotRows(snapshot.registrations)
  {
    var rows := snapshot.registrations;
    RebaseShape(d, snapshot, e);
    RebaseIsSnapshot(d, snapshot, e);
    forall id ensures RowNow(LocalRows(e.rows), id) == RowNow(SnapshotRows(rows), id) {
      LocalRowAt(e.rows, id);
      LocalRowAt(d.rows, id);
      if id in Ids(rows) {
        var i :| 0 <= i < |rows| && rows[i].id == id;
        SnapshotRowAt(rows, rows[i]);
        SyncedRowRebases(d, rows[i]);
        RebaseMergesRows(d, snapshot, e, i);
      } else {
        OtherRowsStay(d, snapshot, e, id);
        assert id !in Missing(d, rows);
        assert id !in Baseline(d);
      }
    }
    SameEverywhere(LocalRows(e.rows), SnapshotRows(rows));
  }

  // The report.

  function With(items: map<string, Item>, a: Application): set<string> {
    set id | id in items && items[id].application == a
  }

  /** Each item is counted once, as applied or as reviewed. */
  predicate Tallied(r: Rebased) {
    r.applied == |With(r.items, AppliedHere)| && r.review == |With(r.items, Review)|
  }

  lemma {:induction false} OneMoreItem(items: map<string, Item>, id: string, item: Item, a: Application)
    requires id !in items
    ensures |With(items[id := item], a)| == |With(items, a)| + if item.application == a then 1 else 0
  {
    if item.application == a {
      assert With(items[id := item], a) == With(items, a) + {id};
    } else {
      assert With(items[id := item], a) == With(items, a);
    }
  }

  /** A row the site moved is reported, as applied or with the reason against it; an unmoved one is not. */
  predicate Reported(d: Desk, items: map<string, Item>, r: Registration) {
    if Unmoved(d, r) then r.id !in items else r.id in items && items[r.id] == ItemFor(d, r)
  }

  function ItemFor(d: Desk, r: Registration): Item {
    var merged := MergeServer(d, r);
    if merged.Ok? then Item(AppliedHere, None) else Item(Review, Some(merged.error))
  }

  lemma {:induction false} WorkOneReports(d: Desk, w: Work, server: Registration)
    requires Tallied(w.report) && server.id !in w.report.items
    ensures var r := WorkOne(d, w, server).report;
            Tallied(r) && r.items == if Unmoved(d, server) then w.report.items else w.report.items[server.id := ItemFor(d, server)]
  {
    OneMoreItem(w.report.items, server.id, ItemFor(d, server), AppliedHere);
    OneMoreItem(w.report.items, server.id, ItemFor(d, server), Review);
  }

  /** The report of a rebase: every moved row once, with what became of it, and the counts to match. */
  lemma {:induction false} WorkReports(d: Desk, rows: seq<Registration>)
    requires DistinctIds(rows)
    ensures Tallied(WorkAll(d, rows).report) && WorkAll(d, rows).report.items.Keys <= Ids(rows)
    ensures forall r :: r in rows ==> Reported(d, WorkAll(d, rows).report.items, r)
  {
    if rows != [] {
      var front, last := rows[..|rows| - 1], rows[|rows| - 1];
      assert forall i :: 0 <= i < |front| ==> front[i] == rows[i];
      WorkReports(d, front);
      IdsOfMore(front, last);
      assert front + [last] == rows;
      assert last.id !in Ids(front);
      var w := WorkAll(d, front);
      WorkOneReports(d, w, last);
      assert WorkAll(d, rows) == WorkOne(d, w, last);
      ReportsOneMore(d, front, last, w.report.items, WorkOne(d, w, last).report.items);
    } else {
      var none: map<string, Item> := map[];
      assert With(none, AppliedHere) == {} && With(none, Review) == {};
    }
  }

  lemma {:induction false} ReportsOneMore(d: Desk, front: seq<Registration>, last: Registration, items: map<string, Item>, items': map<string, Item>)
    requires (forall r :: r in front ==> Reported(d, items, r)) && items.Keys <= Ids(front) && last.id !in Ids(front)
    requires items' == if Unmoved(d, last) then items else items[last.id := ItemFor(d, last)]
    ensures items'.Keys <= Ids(front) + {last.id}
    ensures forall r :: r in front + [last] ==> Reported(d, items', r)
  {
    forall r | r in front + [last] ensures Reported(d, items', r) {
      if r in front {
        IdsOfMore(front, last);
        assert Reported(d, items, r) && r.id != last.id;
      } else {
        assert r == last;
      }
    }
  }

  lemma {:induction false} IdsOfMore(rows: seq<Registration>, last: Registration)
    ensures Ids(rows + [last]) == Ids(rows) + {last.id}
    ensures forall r :: r in rows ==> r.id in Ids(rows)
  {
    var more := rows + [last];
    assert more[|rows|] == last;
    assert forall i :: 0 <= i < |rows| ==> more[i] == rows[i];
  }
}
