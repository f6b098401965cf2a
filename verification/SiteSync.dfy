/** All-or-nothing application of site actions, and local rows that stay equal to the site's. */
module SiteSync {
  import opened Wrappers
  import opened TextRules
  import opened JsonMerge
  import opened Registrations
  import opened RowMerge
  import opened Transitions
  import opened Operations
  import opened FeedLog
  import opened Tables
  import opened SiteFeed
  import opened SiteFeedLaws

  // All rows of an action, or none.

  predicate DistinctRows(changes: seq<FeedChange>) {
    forall i, j :: 0 <= i < j < |changes| ==> changes[i].registrationId != changes[j].registrationId
  }

  predicate PlannedAs(d: Desk, changes: seq<FeedChange>, plans: seq<Plan>, actionId: string, decided: Option<string>) {
    |plans| == |changes| && forall i :: 0 <= i < |changes| ==> PlanOne(d, changes[i], actionId, decided) == Ok(plans[i])
  }

  predicate AllPlannable(d: Desk, changes: seq<FeedChange>, actionId: string, decided: Option<string>) {
    forall i :: 0 <= i < |changes| ==> PlanOne(d, changes[i], actionId, decided).Ok?
  }

  lemma {:induction false} PlanAllIsEach(d: Desk, changes: seq<FeedChange>, actionId: string, decided: Option<string>)
    ensures PlanAll(d, changes, actionId, decided).Ok? <==> AllPlannable(d, changes, actionId, decided)
    ensures PlanAll(d, changes, actionId, decided).Ok? ==>
              PlannedAs(d, changes, PlanAll(d, changes, actionId, decided).value, actionId, decided)
  {
    if changes != [] {
      var front, last := changes[..|changes| - 1], changes[|changes| - 1];
      var plans, plan := PlanAll(d, front, actionId, decided), PlanOne(d, last, actionId, decided);
      PlanAllIsEach(d, front, actionId, decided);
      PlannableSplits(d, changes, actionId, decided);
      assert PlanAll(d, changes, actionId, decided) ==
        if plans.Err? then plans else if plan.Err? then Err(plan.error) else Ok(plans.value + [plan.value]);
      if plans.Ok? && plan.Ok? {
        PlannedOneMore(d, changes, plans.value, plan.value, actionId, decided);
      }
    }
  }

  lemma {:induction false} PlannableSplits(d: Desk, changes: seq<FeedChange>, actionId: string, decided: Option<string>)
    requires changes != []
    ensures var n := |changes| - 1;
            AllPlannable(d, changes, actionId, decided) <==>
            AllPlannable(d, changes[..n], actionId, decided) && PlanOne(d, changes[n], actionId, decided).Ok?
  {
    var n := |changes| - 1;
    if AllPlannable(d, changes[..n], actionId, decided) && PlanOne(d, changes[n], actionId, decided).Ok? {
      forall i | 0 <= i < |changes| ensures PlanOne(d, changes[i], actionId, decided).Ok? {
        if i < n { assert changes[..n][i] == changes[i]; }
      }
    }
    if AllPlannable(d, changes, actionId, decided) {
      forall i | 0 <= i < n ensures PlanOne(d, changes[..n][i], actionId, decided).Ok? {
        assert changes[..n][i] == changes[i];
      }
    }
  }

  lemma {:induction false} PlannedOneMore(d: Desk, changes: seq<FeedChange>, plans: seq<Plan>, plan: Plan, actionId: string, decided: Option<string>)
    requires changes != [] && PlannedAs(d, changes[..|changes| - 1], plans, actionId, decided)
    requires PlanOne(d, changes[|changes| - 1], actionId, decided) == Ok(plan)
    ensures PlannedAs(d, changes, plans + [plan], actionId, decided)
  {
    var n := |changes| - 1;
    forall i | 0 <= i <= n ensures PlanOne(d, changes[i], actionId, decided) == Ok((plans + [plan])[i]) {
      if i < n { assert changes[..n][i] == changes[i]; }
    }
  }

  /** What a plan leaves in a row's place. */
  function RowPlanned(rows: map<string, Row>, p: Plan): Option<Row> {
    if p.after.Some? then Some(Row(p.after.value, p.heads, false))
    else if p.id in rows then
      Some(if p.known && p.wasLive then rows[p.id].(heads := p.heads, deleted := true) else rows[p.id])
    else None
  }

  function At(rows: map<string, Row>, id: string): Option<Row> {
    if id in rows then Some(rows[id]) else None
  }

  predicate NamedPlan(p: Plan) {
    p.after.Some? ==> p.after.value.id == p.id
  }

  lemma {:induction false} WritePlanRow(d: Desk, p: Plan)
    requires WritePlan(d, p).Ok? && NamedPlan(p) && p.known == (p.id in d.rows)
    ensures At(WritePlan(d, p).value.rows, p.id) == RowPlanned(d.rows, p)
    ensures forall id :: id != p.id ==> At(WritePlan(d, p).value.rows, id) == At(d.rows, id)
  {
  }

  predicate ProperPlans(d: Desk, plans: seq<Plan>) {
    (forall p :: p in plans ==> NamedPlan(p) && p.known == (p.id in d.rows)) &&
    forall i, j :: 0 <= i < j < |plans| ==> plans[i].id != plans[j].id
  }

  predicate PlansName(plans: seq<Plan>, id: string) {
    exists i :: 0 <= i < |plans| && plans[i].id == id
  }

  /** Every planned row is as planned, and no other row changed. */
  ghost predicate RowsAsPlanned(rows: map<string, Row>, rows': map<string, Row>, plans: seq<Plan>) {
    (forall i :: 0 <= i < |plans| ==> At(rows', plans[i].id) == RowPlanned(rows, plans[i])) &&
    forall id :: !PlansName(plans, id) ==> At(rows', id) == At(rows, id)
  }

  lemma {:induction false} WritePlansRows(d: Desk, plans: seq<Plan>)
    requires WritePlans(d, plans).Ok? && ProperPlans(d, plans)
    ensures RowsAsPlanned(d.rows, WritePlans(d, plans).value.rows, plans)
  {
    if plans != [] {
      var front, last := plans[..|plans| - 1], plans[|plans| - 1];
      assert forall i :: 0 <= i < |front| ==> front[i] == plans[i];
      assert last in plans;
      WritePlansRows(d, front);
      var e := WritePlans(d, front).value;
      assert !PlansName(front, last.id);
      assert At(e.rows, last.id) == At(d.rows, last.id);
      WritePlanRow(e, last);
      OneMorePlanned(d.rows, e.rows, WritePlan(e, last).value.rows, front, last);
      assert plans == front + [last];
    }
  }

  lemma {:induction false} OneMorePlanned(rows: map<string, Row>, rows1: map<string, Row>, rows2: map<string, Row>, front: seq<Plan>, last: Plan)
    requires RowsAsPlanned(rows, rows1, front) && !PlansName(front, last.id) && At(rows1, last.id) == At(rows, last.id)
    requires At(rows2, last.id) == RowPlanned(rows1, last)
    requires forall id :: id != last.id ==> At(rows2, id) == At(rows1, id)
    ensures RowsAsPlanned(rows, rows2, front + [last])
  {
    var plans := front + [last];
    forall i | 0 <= i < |plans| ensures At(rows2, plans[i].id) == RowPlanned(rows, plans[i]) {
      if i < |front| {
        assert plans[i] == front[i];
      }
    }
    assert forall i :: 0 <= i < |front| ==> plans[i] == front[i];
    assert plans[|front|] == last;
    assert forall id :: PlansName(front, id) ==> PlansName(plans, id);
  }

  lemma {:induction false} MergeNamesRow(current: Option<Registration>, ch: FeedChange)
    requires NamedChange(ch) && (current.Some? ==> current.value.id == ch.registrationId)
    requires MergeChange(current, ch).Ok? && MergeChange(current, ch).value.Some?
    ensures MergeChange(current, ch).value.value.id == ch.registrationId
  {
  }

  /** Rows are stored under their own names. */
  predicate Named(d: Desk) {
    forall id :: id in d.rows ==> d.rows[id].value.id == id
  }

  lemma {:induction false} PlansAreProper(d: Desk, changes: seq<FeedChange>, plans: seq<Plan>, actionId: string, decided: Option<string>)
    requires PlannedAs(d, changes, plans, actionId, decided) && NamedChanges(changes) && DistinctRows(changes) && Named(d)
    ensures ProperPlans(d, plans)
    ensures forall i :: 0 <= i < |plans| ==> plans[i].id == changes[i].registrationId
  {
    forall i | 0 <= i < |plans|
      ensures plans[i].id == changes[i].registrationId && NamedPlan(plans[i]) && plans[i].known == (plans[i].id in d.rows)
    {
      assert PlanOne(d, changes[i], actionId, decided) == Ok(plans[i]);
      assert changes[i] in changes;
      if plans[i].after.Some? {
        MergeNamesRow(FindRow(d, changes[i].registrationId).value, changes[i]);
      }
    }
  }

  /** What one change alone makes of its row. */
  function RowMerged(d: Desk, ch: FeedChange, actionId: string, decided: Option<string>): Option<Row>
    requires PlanOne(d, ch, actionId, decided).Ok?
  {
    RowPlanned(d.rows, PlanOne(d, ch, actionId, decided).value)
  }

  predicate ChangesName(changes: seq<FeedChange>, id: string) {
    exists i :: 0 <= i < |changes| && changes[i].registrationId == id
  }

  /**
   An action is applied here exactly when each of its rows can take its change, with at most 64 heads; then every row
   is merged and no other is touched.  Otherwise it goes to review and no row or member changes.
   */
  lemma {:induction false} AllRowsOrNone(d: Desk, action: FeedAction, decided: Option<string>)
    requires NamedChanges(action.changes) && DistinctRows(action.changes) && Named(d)
    requires ApplyChanges(d, action, decided).Ok?
    ensures var a := ApplyChanges(d, action, decided).value;
            (a.application.AppliedHere? <==> AllPlannable(d, action.changes, action.actionId, decided)) &&
            (a.application.AppliedHere? ==>
              (forall i :: 0 <= i < |action.changes| ==>
                At(a.desk.rows, action.changes[i].registrationId) == RowMerged(d, action.changes[i], action.actionId, decided)) &&
              (forall id :: !ChangesName(action.changes, id) ==> At(a.desk.rows, id) == At(d.rows, id))) &&
            (!a.application.AppliedHere? ==> a.application.Review? && a.desk == d)
  {
    PlanAllIsEach(d, action.changes, action.actionId, decided);
    var plans := PlanAll(d, action.changes, action.actionId, decided);
    if plans.Ok? {
      PlansAreProper(d, action.changes, plans.value, action.actionId, decided);
      WritePlansRows(d, plans.value);
      PlannedChanges(action.changes, plans.value);
    }
  }

  lemma {:induction false} PlannedChanges(changes: seq<FeedChange>, plans: seq<Plan>)
    requires |plans| == |changes| && forall i :: 0 <= i < |plans| ==> plans[i].id == changes[i].registrationId
    ensures forall id :: PlansName(plans, id) <==> ChangesName(changes, id)
  {
    forall id ensures PlansName(plans, id) <==> ChangesName(changes, id) {
      if PlansName(plans, id) {
        var i :| 0 <= i < |plans| && plans[i].id == id;
        assert changes[i].registrationId == id;
      }
      if ChangesName(changes, id) {
        var i :| 0 <= i < |changes| && changes[i].registrationId == id;
        assert plans[i].id == id;
      }
    }
  }

  // Staying equal to the site.

  /** The live local rows, without their evidence marks. */
  function LocalRows(rows: map<string, Row>): Rows {
    map id | id in rows && !rows[id].deleted :: Bare(rows[id].value)
  }

  /** No local divergence: the live rows are the site's rows. */
  predicate Synced(d: Desk) {
    LocalRows(d.rows) == Baseline(d)
  }

  predicate HeadsFit(d: Desk, action: FeedAction) {
    forall ch :: ch in action.changes ==>
      |HeadsAfter(FindRow(d, ch.registrationId).heads, action.actionId, None)| <= 64
  }

  /** A change of the base is taken whole, the evidence mark apart. */
  lemma {:induction false} MergeOnBase(b: Registration, a: Registration, c: Registration)
    requires Bare(c) == Bare(b)
    ensures MergeFeedRow(b, a, c) == Some(a.(hasTimingEvidence := c.hasTimingEvidence))
  {
    assert SameFeed(b, c);
    var t := TakeRow(b, a, c);
    assert SameFeed(t, a);
  }

  lemma {:induction false} SyncedRowTakesChange(d: Desk, ch: FeedChange)
    requires Synced(d) && BaselineHolds(d, ch) && (ch.before.Some? || ch.after.Some?)
    ensures var merged := MergeChange(FindRow(d, ch.registrationId).value, ch);
            merged.Ok? && merged.value.Some? == ch.after.Some? &&
            (ch.after.Some? ==> Bare(merged.value.value) == Bare(ch.after.value))
  {
    var id := ch.registrationId;
    var current := FindRow(d, id).value;
    assert current.Some? <==> id in LocalRows(d.rows);
    assert id in LocalRows(d.rows) <==> id in Baseline(d);
    if current.Some? {
      assert Bare(current.value) == LocalRows(d.rows)[id] == Baseline(d)[id];
      if ch.before.Some? && ch.after.Some? {
        MergeOnBase(ch.before.value, ch.after.value, current.value);
      }
    }
  }

  function RowNow(rows: Rows, id: string): Option<Registration> {
    if id in rows then Some(rows[id]) else None
  }

  lemma {:induction false} SiteChangesAt(rows: Rows, changes: seq<FeedChange>)
    requires DistinctRows(changes)
    ensures forall i :: 0 <= i < |changes| ==>
              RowNow(SiteChanges(rows, changes), changes[i].registrationId) == BareSide(changes[i].after)
    ensures forall id :: !ChangesName(changes, id) ==> RowNow(SiteChanges(rows, changes), id) == RowNow(rows, id)
  {
    if changes != [] {
      var front, last := changes[..|changes| - 1], changes[|changes| - 1];
      assert forall i :: 0 <= i < |front| ==> front[i] == changes[i];
      SiteChangesAt(rows, front);
      assert forall id :: ChangesName(front, id) ==> ChangesName(changes, id);
      assert forall i :: 0 <= i < |front| ==> front[i].registrationId != last.registrationId;
    }
  }

  lemma {:induction false} LocalRowAt(rows: map<string, Row>, id: string)
    ensures RowNow(LocalRows(rows), id) ==
            if At(rows, id).Some? && !At(rows, id).value.deleted then Some(Bare(At(rows, id).value.value)) else None
  {
  }

  predicate Sided(changes: seq<FeedChange>) {
    forall ch :: ch in changes ==> ch.before.Some? || ch.after.Some?
  }

  /** On rows equal to the site's, every change of a trusted action can be planned while the heads fit. */
  lemma {:induction false} SyncedIsPlannable(d: Desk, action: FeedAction)
    requires Synced(d) && BaselineMatches(d, action.changes) && Sided(action.changes) && HeadsFit(d, action)
    ensures AllPlannable(d, action.changes, action.actionId, None)
  {
    forall i | 0 <= i < |action.changes| ensures PlanOne(d, action.changes[i], action.actionId, None).Ok? {
      assert action.changes[i] in action.changes;
      SyncedRowTakesChange(d, action.changes[i]);
    }
  }

  lemma {:induction false} PlannedRowIsTheSites(d: Desk, ch: FeedChange, actionId: string)
    requires Synced(d) && Named(d) && BaselineHolds(d, ch) && (ch.before.Some? || ch.after.Some?)
    requires PlanOne(d, ch, actionId, None).Ok?
    ensures var row := RowMerged(d, ch, actionId, None);
            (if row.Some? && !row.value.deleted then Some(Bare(row.value.value)) else None) == BareSide(ch.after)
  {
    SyncedRowTakesChange(d, ch);
  }

  /** Local rows after an applied action move exactly as the site's rows do. */
  lemma {:induction false} SyncedRowsFollow(d: Desk, action: FeedAction)
    requires Synced(d) && Named(d) && BaselineMatches(d, action.changes) && Sided(action.changes)
    requires NamedChanges(action.changes) && DistinctRows(action.changes) && HeadsFit(d, action)
    requires ApplyChanges(d, action, None).Ok?
    ensures var a := ApplyChanges(d, action, None).value;
            a.application.AppliedHere? && LocalRows(a.desk.rows) == SiteChanges(LocalRows(d.rows), action.changes)
  {
    SyncedIsPlannable(d, action);
    AllRowsOrNone(d, action, None);
    SiteChangesAt(LocalRows(d.rows), action.changes);
    var e := ApplyChanges(d, action, None).value.desk;
    var after := SiteChanges(LocalRows(d.rows), action.changes);
    forall id ensures RowNow(LocalRows(e.rows), id) == RowNow(after, id) {
      LocalRowAt(e.rows, id);
      LocalRowAt(d.rows, id);
      if ChangesName(action.changes, id) {
        var i :| 0 <= i < |action.changes| && action.changes[i].registrationId == id;
        assert action.changes[i] in action.changes;
        PlannedRowIsTheSites(d, action.changes[i], action.actionId);
      }
    }
    SameEverywhere(LocalRows(e.rows), after);
  }

  lemma {:induction false} SameEverywhere(x: Rows, y: Rows)
    requires forall id :: RowNow(x, id) == RowNow(y, id)
    ensures x == y
  {
    forall id ensures id in x <==> id in y {
      assert RowNow(x, id) == RowNow(y, id);
    }
    forall id | id in x ensures x[id] == y[id] {
      assert RowNow(x, id) == RowNow(y, id);
    }
  }

  /** The changes of a plain action, as parsing leaves them. */
  predicate PlainAction(action: FeedAction) {
    NamedChanges(action.changes) && DistinctRows(action.changes) && Sided(action.changes) && !IsResolution(action) &&
    (action.outcome.Applied? || action.outcome.Equivalent? || action.outcome.Conflict?) &&
    (action.outcome.Equivalent? ==> action.changes == [])
  }

  lemma {:induction false} ParsedIsPlain(action: FeedAction, scopeId: string, eventId: string)
    requires ParsedAction(action, scopeId, eventId) && !(action.operation.Some? && action.operation.value.schemaVersion == 2)
    ensures PlainAction(action)
  {
    ParsedIsNamed(action, scopeId, eventId);
    forall ch | ch in action.changes ensures ch.before.Some? || ch.after.Some? {
      assert ParsedFeedChange(ch, eventId);
    }
  }

  lemma {:induction false} SyncedHere(d: Desk, action: FeedAction)
    requires Synced(d) && Named(d) && PlainAction(action) && HeadsFit(d, action)
    requires Trusted(action) ==> BaselineMatches(d, action.changes)
    requires ApplyHere(d, action).Ok?
    ensures var a := ApplyHere(d, action).value;
            LocalRows(a.desk.rows) == (if Trusted(action) then SiteChanges(LocalRows(d.rows), action.changes) else LocalRows(d.rows)) &&
            (action.outcome.Applied? ==> a.application.AppliedHere?)
  {
    if action.outcome.Applied? {
      SyncedRowsFollow(d, action);
    }
  }

  lemma {:induction false} NewActionKeepsRows(d: Desk, action: FeedAction)
    requires ApplyNew(d, action).Ok? && !IsResolution(action) && SiteNamed(d) && NamedChanges(action.changes)
    ensures ApplyHere(d, action).Ok? && ApplyNew(d, action).value.desk.rows == ApplyHere(d, action).value.desk.rows
    ensures ApplyNew(d, action).value.application == ApplyHere(d, action).value.application
    ensures Trusted(action) ==> BaselineMatches(d, action.changes)
  {
    var a := ApplyHere(d, action).value;
    HereIsLocal(d, action);
    SettleFollowsSite(a.desk, action, a.application, a.code);
  }

  /** One plain action on rows equal to the site's keeps them equal, and one that applied at the site applies here. */
  lemma {:induction false} SyncedStaysSynced(d: Desk, action: FeedAction)
    requires Synced(d) && Named(d) && SiteNamed(d) && PlainAction(action) && HeadsFit(d, action)
    requires ApplyNew(d, action).Ok?
    ensures Synced(ApplyNew(d, action).value.desk)
    ensures action.outcome.Applied? ==> ApplyNew(d, action).value.application.AppliedHere?
  {
    NewActionKeepsRows(d, action);
    NewActionSiteSide(d, action);
    SyncedHere(d, action);
  }

  // Rows keep their names, their event and their members.

  predicate OfEvent(changes: seq<FeedChange>, eventId: string) {
    forall ch :: ch in changes ==> (ch.after.Some? ==> ch.after.value.eventId == eventId)
  }

  predicate OwnPlan(p: Plan, eventId: string) {
    p.after.Some? ==> p.after.value.id == p.id && p.after.value.eventId == eventId
  }

  lemma {:induction false} WritePlansKeepConsistent(d: Desk, plans: seq<Plan>)
    requires Consistent(d) && WritePlans(d, plans).Ok? && forall p :: p in plans ==> OwnPlan(p, d.eventId)
    ensures Consistent(WritePlans(d, plans).value) && WritePlans(d, plans).value.eventId == d.eventId
  {
    if plans != [] {
      WritePlansKeepConsistent(d, plans[..|plans| - 1]);
      var e := WritePlans(d, plans[..|plans| - 1]).value;
      assert plans[|plans| - 1] in plans;
      WritePlanKeepsConsistent(e, plans[|plans| - 1]);
    }
  }

  lemma {:induction false} WritePlanKeepsConsistent(d: Desk, p: Plan)
    requires Consistent(d) && WritePlan(d, p).Ok? && OwnPlan(p, d.eventId)
    ensures Consistent(WritePlan(d, p).value) && WritePlan(d, p).value.eventId == d.eventId
  {
  }

  lemma {:induction false} PlanIsOwn(d: Desk, ch: FeedChange, actionId: string, decided: Option<string>)
    requires Consistent(d) && NamedChange(ch) && (ch.after.Some? ==> ch.after.value.eventId == d.eventId)
    requires PlanOne(d, ch, actionId, decided).Ok?
    ensures OwnPlan(PlanOne(d, ch, actionId, decided).value, d.eventId)
  {
  }

  lemma {:induction false} ApplyChangesKeepsConsistent(d: Desk, action: FeedAction, decided: Option<string>)
    requires Consistent(d) && NamedChanges(action.changes) && OfEvent(action.changes, d.eventId)
    requires ApplyChanges(d, action, decided).Ok?
    ensures Consistent(ApplyChanges(d, action, decided).value.desk)
  {
    PlanAllIsEach(d, action.changes, action.actionId, decided);
    var plans := PlanAll(d, action.changes, action.actionId, decided);
    if plans.Ok? {
      forall p | p in plans.value ensures OwnPlan(p, d.eventId) {
        var i :| 0 <= i < |plans.value| && plans.value[i] == p;
        assert action.changes[i] in action.changes;
        PlanIsOwn(d, action.changes[i], action.actionId, decided);
      }
      WritePlansKeepConsistent(d, plans.value);
    }
  }

  lemma {:induction false} ResolutionKeepsConsistent(d: Desk, action: FeedAction)
    requires Consistent(d) && NamedChanges(action.changes) && OfEvent(action.changes, d.eventId)
    requires IsResolution(action) && ApplyResolution(d, action).Ok?
    ensures Consistent(ApplyResolution(d, action).value.desk)
  {
    var op := action.operation.value;
    var inputId := op.command.inputs[0];
    if !action.outcome.Conflict? && inputId !in d.resolutions {
      ApplyChangesKeepsConsistent(d, action, Some(inputId));
      var a := ApplyChanges(d, action, Some(inputId)).value;
      ApplyChangesIsLocal(d, action, Some(inputId));
      SavedIsLocal(a.desk, op, LocalOutcome(a.application, action.outcome), a.code);
    } else {
      SavedIsLocal(d, op, Conflict, action.code);
      SavedIsLocal(d, op, Conflict, Some(ResolutionAlreadyDecided));
    }
  }

  lemma {:induction false} HereKeepsConsistent(d: Desk, action: FeedAction)
    requires Consistent(d) && NamedChanges(action.changes) && OfEvent(action.changes, d.eventId) && ApplyHere(d, action).Ok?
    ensures Consistent(ApplyHere(d, action).value.desk)
  {
    if IsResolution(action) {
      ResolutionKeepsConsistent(d, action);
    } else if action.outcome.Applied? {
      ApplyChangesKeepsConsistent(d, action, None);
    }
  }

  lemma {:induction false} NewActionKeepsConsistent(d: Desk, action: FeedAction)
    requires Consistent(d) && SiteNamed(d) && NamedChanges(action.changes) && OfEvent(action.changes, d.eventId)
    requires ApplyNew(d, action).Ok?
    ensures Consistent(ApplyNew(d, action).value.desk) && ApplyNew(d, action).value.desk.eventId == d.eventId
    ensures SiteNamed(ApplyNew(d, action).value.desk)
  {
    HereKeepsConsistent(d, action);
    var a := ApplyHere(d, action).value;
    HereIsLocal(d, action);
    SettleFollowsSite(a.desk, action, a.application, a.code);
    NewActionSiteSide(d, action);
  }

  // Pages.

  /** The log as the local rows need it: plain actions on rows of this event. */
  predicate PlainLog(log: seq<FeedAction>, eventId: string) {
    forall i :: 0 <= i < |log| ==>
      log[i].sequence == i + 1 && PlainAction(log[i]) && OfEvent(log[i].changes, eventId)
  }

  /** The heads stay within the limit at every action of the page. */
  predicate HeadsFitAll(d: Desk, actions: seq<FeedAction>) {
    actions == [] ||
    (HeadsFitAll(d, actions[..|actions| - 1]) &&
     HeadsFit(ApplyActions(d, actions[..|actions| - 1]).desk, actions[|actions| - 1]))
  }

  ghost predicate InStep(d: Desk, start: Rows, log: seq<FeedAction>, n: nat) {
    TracksTo(d, start, log, n) && Synced(d) && Consistent(d)
  }

  /** What an action that fits does to a store that is in step. */
  ghost predicate SyncStep(d: Desk, e: Desk, action: FeedAction) {
    SiteStep(d, e, action) && HeadsFit(d, action) &&
    (var inStep := action.actionId !in d.siteActions && Synced(d) && Consistent(d) && SiteNamed(d);
     inStep && PlainAction(action) && OfEvent(action.changes, d.eventId) ==> Synced(e) && Consistent(e))
  }

  lemma {:induction false} ActionIsSyncStep(d: Desk, action: FeedAction)
    requires ApplyAction(d, action).Ok? && HeadsFit(d, action)
    ensures SyncStep(d, ApplyAction(d, action).value.desk, action)
  {
    ActionIsSiteStep(d, action);
    if action.actionId !in d.siteActions && Synced(d) && Consistent(d) && SiteNamed(d) && PlainAction(action) &&
       OfEvent(action.changes, d.eventId) {
      SyncedStaysSynced(d, action);
      NewActionKeepsConsistent(d, action);
    }
  }

  lemma {:induction false} StepStaysInStep(d: Desk, e: Desk, start: Rows, log: seq<FeedAction>, n: nat)
    requires n < |log| && PlainLog(log, d.eventId) && InStep(d, start, log, n) && SyncStep(d, e, log[n])
    ensures InStep(e, start, log, n + 1) && SameScope(d, e)
  {
    StepTracks(d, e, start, log, n);
  }

  lemma {:induction false} InStepByRows(d: Desk, e: Desk, start: Rows, log: seq<FeedAction>, n: nat)
    requires InStep(d, start, log, n) && e == d.(scope := e.scope)
    ensures InStep(e, start, log, n) && LocalRows(e.rows) == SiteRowsAt(start, log, n)
  {
  }

  /** The desks that several fitting actions in a row pass through. */
  ghost predicate SyncCourse(desks: seq<Desk>, actions: seq<FeedAction>) {
    |desks| == |actions| + 1 &&
    (actions == [] ||
     var n := |actions| - 1;
     SyncCourse(desks[..n + 1], actions[..n]) && SyncStep(desks[n], desks[n + 1], actions[n]))
  }

  lemma {:induction false} ActionsSyncCourse(d: Desk, actions: seq<FeedAction>) returns (desks: seq<Desk>)
    requires ApplyActions(d, actions).reply.Ok? && HeadsFitAll(d, actions)
    ensures SyncCourse(desks, actions) && desks[0] == d && desks[|actions|] == ApplyActions(d, actions).desk
  {
    if actions == [] {
      desks := [d];
    } else {
      LastAction(d, actions);
      ActionIsSyncStep(ApplyActions(d, actions[..|actions| - 1]).desk, actions[|actions| - 1]);
      var front := ActionsSyncCourse(d, actions[..|actions| - 1]);
      desks := front + [ApplyActions(d, actions).desk];
      assert desks[..|actions|] == front;
    }
  }

  lemma {:induction false} ActionsStayInStep(desks: seq<Desk>, start: Rows, log: seq<FeedAction>, c: nat, actions: seq<FeedAction>)
    requires SyncCourse(desks, actions) && Stretch(actions, log, c) && PlainLog(log, desks[0].eventId)
    requires InStep(desks[0], start, log, c)
    ensures InStep(desks[|actions|], start, log, c + |actions|) && SameScope(desks[0], desks[|actions|])
  {
    if actions != [] {
      var n := |actions| - 1;
      ActionsStayInStep(desks[..n + 1], start, log, c, actions[..n]);
      StepStaysInStep(desks[n], desks[n + 1], start, log, c + n);
    }
  }

  /** In step at the committed cursor. */
  ghost predicate InStepNow(d: Desk, start: Rows, log: seq<FeedAction>) {
    0 <= d.scope.cursor && InStep(d, start, log, d.scope.cursor) && LocalRows(d.rows) == SiteRowsAt(start, log, d.scope.cursor)
  }

  /** What a page does: nothing if it fails, otherwise its actions and the new cursor. */
  ghost predicate PageStep(d: Desk, e: Desk, desks: seq<Desk>, page: FeedPage) {
    e == d ||
    (SyncCourse(desks, page.actions) && desks[0] == d && d.scope.cursor == page.after &&
     e == desks[|page.actions|].(scope := desks[|page.actions|].scope.(cursor := page.next)))
  }

  lemma {:induction false} PageStepStaysInStep(d: Desk, e: Desk, desks: seq<Desk>, page: FeedPage, start: Rows, log: seq<FeedAction>)
    requires 0 <= page.after && page.next == page.after + |page.actions| && Stretch(page.actions, log, page.after)
    requires PageStep(d, e, desks, page) && PlainLog(log, d.eventId) && InStepNow(d, start, log)
    ensures InStepNow(e, start, log) && e.eventId == d.eventId
  {
    if e != d {
      ActionsStayInStep(desks, start, log, page.after, page.actions);
      InStepByRows(desks[|page.actions|], e, start, log, page.next);
    }
  }

  lemma {:induction false} PageIsPageStep(d: Desk, page: FeedPage) returns (desks: seq<Desk>)
    requires page.next == page.after + |page.actions| && HeadsFitAll(d, page.actions)
    ensures PageStep(d, ApplyPage(d, page).desk, desks, page)
  {
    PageIsActions(d, page);
    desks := [];
    if ApplyPage(d, page).reply.Ok? {
      desks := ActionsSyncCourse(d, page.actions);
    }
  }

  /**
   With no local edits, no resolutions in the log and the heads within 64, the local rows are the site's rows at the
   committed cursor after every page, whether it succeeds or fails.
   */
  lemma {:induction false} PageStaysInStep(d: Desk, page: FeedPage, start: Rows, log: seq<FeedAction>)
    requires PlainLog(log, d.eventId) && ServedFrom(page, log) && HeadsFitAll(d, page.actions) && InStepNow(d, start, log)
    ensures InStepNow(ApplyPage(d, page).desk, start, log) && ApplyPage(d, page).desk.eventId == d.eventId
  {
    ServedIsStretch(page, log);
    var desks := PageIsPageStep(d, page);
    PageStepStaysInStep(d, ApplyPage(d, page).desk, desks, page, start, log);
  }

  predicate HeadsFitPages(d: Desk, pages: seq<FeedPage>) {
    pages == [] ||
    (HeadsFitPages(d, pages[..|pages| - 1]) &&
     HeadsFitAll(ApplyPages(d, pages[..|pages| - 1]), pages[|pages| - 1].actions))
  }

  lemma {:induction false} PagesStayInStep(d: Desk, pages: seq<FeedPage>, start: Rows, log: seq<FeedAction>)
    requires PlainLog(log, d.eventId) && HeadsFitPages(d, pages) && forall p :: p in pages ==> ServedFrom(p, log)
    requires InStepNow(d, start, log)
    ensures InStepNow(ApplyPages(d, pages), start, log) && ApplyPages(d, pages).eventId == d.eventId
  {
    if pages != [] {
      PagesStayInStep(d, pages[..|pages| - 1], start, log);
      PageStaysInStep(ApplyPages(d, pages[..|pages| - 1]), pages[|pages| - 1], start, log);
    }
  }
}
