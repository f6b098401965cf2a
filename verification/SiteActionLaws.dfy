/** What one action of the site leaves behind: rows, heads, records and journal, told without the merge's own helpers. */
module SiteActionLaws {
  import opened Wrappers
  import opened TextRules
  import opened Registrations
  import opened RowMerge
  import opened Transitions
  import opened Operations
  import opened FeedLog
  import opened Tables
  import opened SiteFeed
  import opened SiteFeedLaws
  import opened SiteSync
  import opened PublishLaws
  import opened ProposalLaws

  // Heads.

  lemma {:induction false} WithoutExactly(heads: seq<string>, head: string)
    ensures forall h :: h in Without(heads, head) <==> h in heads && h != head
  {
    if heads != [] {
      WithoutExactly(heads[..|heads| - 1], head);
      assert forall h :: h in heads <==> h in heads[..|heads| - 1] || h == heads[|heads| - 1];
    }
  }

  /** The action joins the heads it was made on, and takes the place of the one it decides. */
  predicate HeadsFollow(was: seq<string>, now: seq<string>, actionId: string, decided: Option<string>) {
    (forall h :: h in now ==> h == actionId || (h in was && h != "" && Some(h) != decided)) &&
    actionId in now && forall h :: h in was && h != "" && Some(h) != decided ==> h in now
  }

  lemma {:induction false} HeadsExactly(heads: seq<string>, actionId: string, decided: Option<string>)
    requires actionId != ""
    ensures HeadsFollow(heads, HeadsAfter(heads, actionId, decided), actionId, decided)
  {
    var kept := if decided.Some? then Without(heads, decided.value) else heads;
    if decided.Some? {
      WithoutExactly(heads, decided.value);
    }
    assert forall h :: h in kept + [actionId] <==> h in kept || h == actionId;
  }

  // One row.

  predicate Live(rows: map<string, Row>, id: string) {
    id in rows && !rows[id].deleted
  }

  /** The heads a row has, whether it is live or not. */
  function HeadsOf(rows: map<string, Row>, id: string): seq<string> {
    if id in rows then rows[id].heads else []
  }

  /** Each member the site changed is the site's, unless both sides changed it differently; the others stay. */
  predicate TakesOver(b: Registration, a: Registration, c: Registration, now: Registration) {
    LaidOver(b.(hasTimingEvidence := false), a.(hasTimingEvidence := false), c, now)
  }

  /** The row as a change of the site leaves it: removed, created, or with the change laid over it. */
  predicate RowTakes(d: Desk, rows: map<string, Row>, ch: FeedChange) {
    var id := ch.registrationId;
    if ch.after.None? then
      if Live(d.rows, id) then id in rows && rows[id].deleted && rows[id].value == d.rows[id].value
      else At(rows, id) == At(d.rows, id)
    else
      Live(rows, id) &&
      if !Live(d.rows, id) then ch.before.None? && Shows(rows[id].value, ch.after.value)
      else if ch.before.None? then SameFeed(rows[id].value, d.rows[id].value) && SameFeed(rows[id].value, ch.after.value)
      else
        rows[id].value.hasTimingEvidence == WithEvidence(d, d.rows[id].value).hasTimingEvidence &&
        TakesOver(ch.before.value, ch.after.value, WithEvidence(d, d.rows[id].value), rows[id].value)
  }

  predicate RowHeads(d: Desk, rows: map<string, Row>, ch: FeedChange, actionId: string, decided: Option<string>) {
    var id := ch.registrationId;
    (ch.after.Some? || Live(d.rows, id)) ==> HeadsFollow(HeadsOf(d.rows, id), HeadsOf(rows, id), actionId, decided)
  }

  lemma {:induction false} MergedTakesOver(b: Registration, a: Registration, c: Registration)
    requires MergeFeedRow(b, a, c).Some?
    ensures TakesOver(b, a, c, MergeFeedRow(b, a, c).value)
  {
  }

  lemma {:induction false} SameProjectionIsSameFeed(x: Registration, y: Registration)
    ensures SameProjection(x, y) <==> SameFeed(x, y)
  {
  }

  lemma {:induction false} PlanFacts(d: Desk, ch: FeedChange, actionId: string, decided: Option<string>)
    requires PlanOne(d, ch, actionId, decided).Ok?
    ensures var p := PlanOne(d, ch, actionId, decided).value;
            p.id == ch.registrationId && p.known == (p.id in d.rows) && p.wasLive == Live(d.rows, p.id) &&
            p.heads == HeadsAfter(HeadsOf(d.rows, p.id), actionId, decided) && (p.after.Some? <==> ch.after.Some?)
  {
  }

  lemma {:induction false} PlacedHeads(rows: map<string, Row>, now: map<string, Row>, p: Plan, actionId: string, decided: Option<string>)
    requires At(now, p.id) == RowPlanned(rows, p) && p.known == (p.id in rows) && p.wasLive == Live(rows, p.id)
    requires HeadsFollow(HeadsOf(rows, p.id), p.heads, actionId, decided) && (p.after.Some? || Live(rows, p.id))
    ensures HeadsFollow(HeadsOf(rows, p.id), HeadsOf(now, p.id), actionId, decided)
  {
  }

  lemma {:induction false} PlannedHeads(d: Desk, rows: map<string, Row>, ch: FeedChange, actionId: string, decided: Option<string>)
    requires PlanOne(d, ch, actionId, decided).Ok? && actionId != ""
    requires At(rows, ch.registrationId) == RowMerged(d, ch, actionId, decided)
    ensures RowHeads(d, rows, ch, actionId, decided)
  {
    PlanFacts(d, ch, actionId, decided);
    var p := PlanOne(d, ch, actionId, decided).value;
    HeadsExactly(HeadsOf(d.rows, p.id), actionId, decided);
    if ch.after.Some? || Live(d.rows, p.id) {
      PlacedHeads(d.rows, rows, p, actionId, decided);
    }
  }

  lemma {:induction false} PlannedUpdate(d: Desk, rows: map<string, Row>, ch: FeedChange, actionId: string, decided: Option<string>)
    requires PlanOne(d, ch, actionId, decided).Ok? && ch.before.Some? && ch.after.Some?
    requires At(rows, ch.registrationId) == RowMerged(d, ch, actionId, decided)
    ensures RowTakes(d, rows, ch)
  {
    MergedTakesOver(ch.before.value, ch.after.value, WithEvidence(d, d.rows[ch.registrationId].value));
  }

  lemma {:induction false} PlannedLifecycle(d: Desk, rows: map<string, Row>, ch: FeedChange, actionId: string, decided: Option<string>)
    requires PlanOne(d, ch, actionId, decided).Ok? && (ch.before.None? || ch.after.None?)
    requires At(rows, ch.registrationId) == RowMerged(d, ch, actionId, decided)
    ensures RowTakes(d, rows, ch)
  {
    if ch.before.None? && ch.after.Some? && Live(d.rows, ch.registrationId) {
      SameProjectionIsSameFeed(WithEvidence(d, d.rows[ch.registrationId].value), ch.after.value);
    }
  }

  lemma {:induction false} PlannedRowTakes(d: Desk, rows: map<string, Row>, ch: FeedChange, actionId: string, decided: Option<string>)
    requires PlanOne(d, ch, actionId, decided).Ok? && actionId != ""
    requires At(rows, ch.registrationId) == RowMerged(d, ch, actionId, decided)
    ensures RowTakes(d, rows, ch) && RowHeads(d, rows, ch, actionId, decided)
  {
    PlannedHeads(d, rows, ch, actionId, decided);
    if ch.before.Some? && ch.after.Some? {
      PlannedUpdate(d, rows, ch, actionId, decided);
    } else {
      PlannedLifecycle(d, rows, ch, actionId, decided);
    }
  }

  /** An action applied here leaves each of its rows as its change says, under heads that name it, and no other row moved. */
  lemma {:induction false} AppliedRowsTake(d: Desk, action: FeedAction, decided: Option<string>)
    requires NamedChanges(action.changes) && DistinctRows(action.changes) && Named(d) && action.actionId != ""
    requires ApplyChanges(d, action, decided).Ok? && ApplyChanges(d, action, decided).value.application.AppliedHere?
    ensures var e := ApplyChanges(d, action, decided).value.desk;
            (forall i :: 0 <= i < |action.changes| ==>
              RowTakes(d, e.rows, action.changes[i]) && RowHeads(d, e.rows, action.changes[i], action.actionId, decided)) &&
            forall id :: !ChangesName(action.changes, id) ==> At(e.rows, id) == At(d.rows, id)
  {
    AllRowsOrNone(d, action, decided);
    var e := ApplyChanges(d, action, decided).value.desk;
    forall i | 0 <= i < |action.changes|
      ensures RowTakes(d, e.rows, action.changes[i]) && RowHeads(d, e.rows, action.changes[i], action.actionId, decided)
    {
      assert action.changes[i] in action.changes;
      PlannedRowTakes(d, e.rows, action.changes[i], action.actionId, decided);
    }
  }

  // One action.

  /** What an action of the site came to here, and why. */
  predicate CameTo(outcome: Outcome, code: Option<Code>, application: Application, why: Option<Code>) {
    match outcome
    case Applied => (application.AppliedHere? && why.None?) || (application.Review? && why.Some?)
    case Equivalent => application.Observed? && why == code
    case Conflict => application.Review? && why == code
    case _ => application.Observed?
  }

  /** The operation's outcome here: the site's word only where it took effect here too. */
  predicate RecordedAs(outcome: Outcome, application: Application, siteOutcome: Outcome) {
    (outcome.Applied? <==> application.AppliedHere?) &&
    (outcome.Equivalent? <==> application.Observed? && siteOutcome.Equivalent?) &&
    (outcome.Applied? || outcome.Equivalent? || outcome.Conflict?)
  }

  /** The operation is on record: as it was if it was known, with what it came to here if not. */
  predicate OnRecord(d: Desk, e: Desk, op: Operation, application: Application, siteOutcome: Outcome, why: Option<Code>) {
    op.operationId in e.operations && e.operations == d.operations[op.operationId := e.operations[op.operationId]] &&
    var r := e.operations[op.operationId];
    r.operation == op && r.eventId == d.eventId &&
    if op.operationId in d.operations then r == d.operations[op.operationId]
    else RecordedAs(r.outcome, application, siteOutcome) && r.code == why
  }

  lemma {:induction false} SavedIsOnRecord(d: Desk, op: Operation, application: Application, siteOutcome: Outcome, why: Option<Code>)
    requires SaveReceived(d, op, LocalOutcome(application, siteOutcome), why).Ok?
    ensures var e := SaveReceived(d, op, LocalOutcome(application, siteOutcome), why).value;
            OnRecord(d, e, op, application, siteOutcome, why) && e == d.(operations := e.operations)
  {
  }

  lemma {:induction false} ChangesComeTo(d: Desk, action: FeedAction, decided: Option<string>)
    requires ApplyChanges(d, action, decided).Ok?
    ensures var a := ApplyChanges(d, action, decided).value;
            CameTo(Applied, None, a.application, a.code) && (a.application.Review? ==> a.desk == d) &&
            a.desk == d.(rows := a.desk.rows, members := a.desk.members)
  {
    ApplyChangesIsLocal(d, action, decided);
  }

  /** The parts of a new action that went through. */
  lemma {:induction false} NewParts(d: Desk, action: FeedAction) returns (here: Landed, settled: Desk)
    requires ApplyNew(d, action).Ok?
    ensures ApplyHere(d, action) == Ok(here) && Settle(here.desk, action, here.application, here.code) == Ok(settled)
    ensures Journal(settled, action, here.application, here.code).Ok?
    ensures ApplyNew(d, action).value ==
            Landed(Journal(settled, action, here.application, here.code).value, here.application, here.code)
  {
    here := ApplyHere(d, action).value;
    settled := Settle(here.desk, action, here.application, here.code).value;
  }

  lemma {:induction false} AdvanceOneTouchesSite(d: Desk, ch: FeedChange)
    requires AdvanceOne(d, ch).Ok?
    ensures var e := AdvanceOne(d, ch).value; e == d.(siteRows := e.siteRows)
  {
  }

  lemma {:induction false} AdvanceTouchesSite(d: Desk, changes: seq<FeedChange>)
    requires AdvanceBaseline(d, changes).Ok?
    ensures var e := AdvanceBaseline(d, changes).value; e == d.(siteRows := e.siteRows)
  {
    if changes != [] {
      AdvanceTouchesSite(d, changes[..|changes| - 1]);
      AdvanceOneTouchesSite(AdvanceBaseline(d, changes[..|changes| - 1]).value, changes[|changes| - 1]);
    }
  }

  lemma {:induction false} SettledRecord(d: Desk, action: FeedAction, application: Application, code: Option<Code>)
    requires Settle(d, action, application, code).Ok? && !IsResolution(action)
    ensures var e := Settle(d, action, application, code).value;
            e == d.(siteRows := e.siteRows, operations := e.operations) &&
            if action.operation.Some? then OnRecord(d, e, action.operation.value, application, action.outcome, code)
            else e.operations == d.operations
  {
    var advanced := if Trusted(action) then AdvanceBaseline(d, action.changes) else Ok(d);
    if Trusted(action) {
      AdvanceTouchesSite(d, action.changes);
    }
    if action.operation.Some? {
      SavedIsOnRecord(advanced.value, action.operation.value, application, action.outcome, code);
    }
  }

  /** A new action of the site is journalled with what it came to, moves rows only if it applied here, and its operation is on record. */
  lemma {:induction false} ActionLands(d: Desk, action: FeedAction)
    requires ApplyNew(d, action).Ok? && !IsResolution(action)
    ensures var a := ApplyNew(d, action).value; var e := a.desk;
            CameTo(action.outcome, action.code, a.application, a.code) &&
            e.siteActions == d.siteActions[action.actionId := SiteAction(action, a.application, a.code)] &&
            (!a.application.AppliedHere? ==> e.rows == d.rows && e.members == d.members) &&
            (a.application.AppliedHere? ==>
              ApplyChanges(d, action, None).Ok? && ApplyChanges(d, action, None).value.application.AppliedHere? &&
              e.rows == ApplyChanges(d, action, None).value.desk.rows) &&
            e.resolutions == d.resolutions && e.scope == d.scope &&
            if action.operation.Some? then OnRecord(d, e, action.operation.value, a.application, action.outcome, a.code)
            else e.operations == d.operations
  {
    var here, settled := NewParts(d, action);
    if action.outcome.Applied? {
      ChangesComeTo(d, action, None);
    }
    SettledRecord(here.desk, action, here.application, here.code);
  }

  /** The first decision on a conflict known here stands; it applies or goes to review, and a later one only goes to review. */
  lemma {:induction false} ResolutionLands(d: Desk, action: FeedAction)
    requires IsResolution(action) && ApplyResolution(d, action).Ok?
    ensures var op := action.operation.value; var inputId := op.command.inputs[0];
            inputId in d.operations && inputId in d.siteActions && d.siteActions[inputId].action.outcome.Conflict?
    ensures var a := ApplyResolution(d, action).value; var e := a.desk;
            var op := action.operation.value; var inputId := op.command.inputs[0];
            (!a.application.AppliedHere? ==> e.rows == d.rows && e.members == d.members) &&
            e == d.(rows := e.rows, members := e.members, operations := e.operations, resolutions := e.resolutions) &&
            (!a.application.Observed? ==> OnRecord(d, e, op, a.application, Applied, a.code)) &&
            if action.outcome.Conflict? then
              a.application.Review? && a.code == action.code && e.resolutions == d.resolutions
            else if inputId in d.resolutions then
              e.resolutions == d.resolutions &&
              if d.resolutions[inputId].operationId == op.operationId then a.application.Observed? && e == d
              else a.application.Review? && a.code == Some(ResolutionAlreadyDecided)
            else
              CameTo(Applied, None, a.application, a.code) &&
              e.resolutions == d.resolutions[inputId := Resolution(op.operationId, |op.command.keep| == 1, op.command.reason)] &&
              (a.application.AppliedHere? ==>
                ApplyChanges(d, action, Some(inputId)).Ok? && ApplyChanges(d, action, Some(inputId)).value.application.AppliedHere? &&
                e.rows == ApplyChanges(d, action, Some(inputId)).value.desk.rows)
  {
    var op := action.operation.value;
    var inputId := op.command.inputs[0];
    if !action.outcome.Conflict? && inputId !in d.resolutions {
      ChangesComeTo(d, action, Some(inputId));
      var a := ApplyChanges(d, action, Some(inputId)).value;
      SavedIsOnRecord(a.desk, op, a.application, Applied, a.code);
      assert LocalOutcome(a.application, action.outcome) == LocalOutcome(a.application, Applied);
    } else if action.outcome.Conflict? {
      SavedIsOnRecord(d, op, Review, Applied, action.code);
    } else if d.resolutions[inputId].operationId != op.operationId {
      SavedIsOnRecord(d, op, Review, Applied, Some(ResolutionAlreadyDecided));
    }
  }

  /** A decision that applies here stands on its rows in place of the operation it decides, beside every other head. */
  lemma {:induction false} DecisionTakesItsPlace(d: Desk, action: FeedAction)
    requires NamedChanges(action.changes) && DistinctRows(action.changes) && Named(d) && action.actionId != ""
    requires IsResolution(action) && ApplyResolution(d, action).Ok? && ApplyResolution(d, action).value.application.AppliedHere?
    ensures var e := ApplyResolution(d, action).value.desk; var inputId := action.operation.value.command.inputs[0];
            (forall i :: 0 <= i < |action.changes| ==>
              RowTakes(d, e.rows, action.changes[i]) && RowHeads(d, e.rows, action.changes[i], action.actionId, Some(inputId))) &&
            forall id :: !ChangesName(action.changes, id) ==> At(e.rows, id) == At(d.rows, id)
  {
    ResolutionLands(d, action);
    AppliedRowsTake(d, action, Some(action.operation.value.command.inputs[0]));
  }
}
