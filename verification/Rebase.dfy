/** Rebasing onto a fresh snapshot of the site: the stored site rows are the merge base, local work is kept. */
module Rebase {
  import opened Wrappers
  import opened TextRules
  import opened Registrations
  import opened RowMerge
  import opened Transitions
  import opened Operations
  import opened FeedLog
  import opened Tables
  import opened SiteFeed

  /** A snapshot; its cursor is absent when it is not the decimal form of a number. */
  datatype Snapshot = Snapshot(
    schemaVersion: int, sourceKind: string, eventId: string, scopeId: string, baselineId: string,
    cursor: Option<int>, registrations: seq<Registration>)

  datatype Item = Item(application: Application, code: Option<Code>)

  datatype Rebased = Rebased(applied: nat, review: nat, items: map<string, Item>)

  /** What a rebase is going to do: row writes, new site rows, and the report. */
  datatype Work = Work(plans: seq<Plan>, sites: seq<Registration>, report: Rebased)

  predicate BaseLive(d: Desk, id: string) {
    id in d.siteRows && !d.siteRows[id].deleted
  }

  predicate Unmoved(d: Desk, server: Registration) {
    BaseLive(d, server.id) && SameProjection(d.siteRows[server.id].value, server)
  }

  function SnapshotChange(d: Desk, server: Registration): FeedChange {
    FeedChange(server.id, if BaseLive(d, server.id) then Some(d.siteRows[server.id].value) else None, Some(server))
  }

  /** The merge of the snapshot's row into the local one, timing evidence from either side. */
  function MergeServer(d: Desk, server: Registration): (r: Result<Registration, Code>)
  {
    var merged := MergeChange(FindRow(d, server.id).value, SnapshotChange(d, server));
    if merged.Err? then Err(merged.error)
    else if merged.value.None? then Err(FeedStateConflict)
    else Ok(merged.value.value.(hasTimingEvidence := merged.value.value.hasTimingEvidence || server.hasTimingEvidence))
  }

  function RowPlan(d: Desk, id: string, after: Registration): Plan {
    var current := FindRow(d, id);
    Plan(id, current.known, current.value.Some?, Some(after), current.heads)
  }

  /** A row in conflict keeps its value and only learns of timing evidence. */
  predicate LearnsEvidence(d: Desk, server: Registration) {
    var current := FindRow(d, server.id);
    current.value.Some? && server.hasTimingEvidence && !current.value.value.hasTimingEvidence
  }

  function WorkOne(d: Desk, w: Work, server: Registration): Work {
    if Unmoved(d, server) then w
    else
      var merged := MergeServer(d, server);
      var sites := w.sites + [server];
      if merged.Ok? then
        Work(w.plans + [RowPlan(d, server.id, merged.value)], sites,
             Rebased(w.report.applied + 1, w.report.review, w.report.items[server.id := Item(AppliedHere, None)]))
      else
        Work(if LearnsEvidence(d, server)
             then w.plans + [RowPlan(d, server.id, FindRow(d, server.id).value.value.(hasTimingEvidence := true))] else w.plans,
             sites,
             Rebased(w.report.applied, w.report.review + 1, w.report.items[server.id := Item(Review, Some(merged.error))]))
  }

  function WorkAll(d: Desk, rows: seq<Registration>): Work {
    if rows == [] then Work([], [], Rebased(0, 0, map[]))
    else WorkOne(d, WorkAll(d, rows[..|rows| - 1]), rows[|rows| - 1])
  }

  function Ids(rows: seq<Registration>): set<string> {
    set i | 0 <= i < |rows| :: rows[i].id
  }

  /** Live site rows the snapshot no longer has; they are only reported. */
  function Missing(d: Desk, rows: seq<Registration>): set<string> {
    set id | id in d.siteRows && !d.siteRows[id].deleted && id !in Ids(rows)
  }

  function WithMissing(report: Rebased, missing: set<string>): Rebased {
    Rebased(report.applied, report.review + |missing|,
            report.items + map id | id in missing :: Item(Review, Some(SnapshotRegistrationMissing)))
  }

  predicate Acceptable(d: Desk, snapshot: Snapshot) {
    snapshot.schemaVersion == 2 && snapshot.sourceKind == "site" && snapshot.eventId == d.eventId &&
    snapshot.scopeId != "" && snapshot.scopeId == d.scope.scopeId && snapshot.baselineId != "" &&
    snapshot.cursor.Some? && snapshot.cursor.value >= 0 && |snapshot.registrations| <= 20000
  }

  predicate ValidRows(rows: seq<Registration>, eventId: string) {
    (forall i :: 0 <= i < |rows| ==> Validate(rows[i]).None? && rows[i].eventId == eventId) &&
    forall i, j :: 0 <= i < j < |rows| ==> rows[i].id != rows[j].id
  }

  predicate BaselineComplete(d: Desk) {
    forall id :: id in d.rows ==> id in d.siteRows
  }

  function PutSites(d: Desk, rows: seq<Registration>): Result<Desk, Failure> {
    if rows == [] then Ok(d)
    else
      var front := PutSites(d, rows[..|rows| - 1]);
      if front.Err? then front else PutSite(front.value, rows[|rows| - 1], false)
  }

  datatype RebaseDone = RebaseDone(desk: Desk, reply: Result<Rebased, Failure>)

  /** Writes the planned rows and the site rows, counts the rebase and moves baseline and cursor. */
  function Perform(d: Desk, snapshot: Snapshot, w: Work): Result<Desk, Failure>
    requires snapshot.cursor.Some?
  {
    var written := WritePlans(d, w.plans);
    if written.Err? then written
    else
      var sited := PutSites(written.value, w.sites);
      if sited.Err? then sited
      else if d.rebases >= 64 then Err(RebaseLimit)
      else
        Ok(sited.value.(rebases := d.rebases + 1,
                        scope := Scope(d.scope.scopeId, snapshot.baselineId, snapshot.cursor.value)))
  }

  /** The rebase as one transaction. */
  function RebaseRoster(d: Desk, snapshot: Snapshot): RebaseDone {
    if !Acceptable(d, snapshot) then RebaseDone(d, Err(InvalidRebase))
    else if !BaselineComplete(d) then RebaseDone(d, Err(BaselineUnavailable))
    else if !ValidRows(snapshot.registrations, d.eventId) then RebaseDone(d, Err(InvalidRebase))
    else
      var w := WorkAll(d, snapshot.registrations);
      var done := Perform(d, snapshot, w);
      if done.Err? then RebaseDone(d, Err(done.error))
      else RebaseDone(done.value, Ok(WithMissing(w.report, Missing(d, snapshot.registrations))))
  }
}
