/** Applying a page of the site's feed: baseline, three-way merge, resolutions, journal, relay and cursor as one unit. */
module SiteFeed {
  import opened Wrappers
  import opened TextOrder
  import opened TextRules
  import opened JsonMerge
  import opened Registrations
  import opened RowMerge
  import opened Transitions
  import opened Operations
  import opened FeedLog
  import opened Tables

  datatype FeedPage = FeedPage(scopeId: string, after: int, next: int, head: int, actions: seq<FeedAction>)

  predicate ParsedPage(page: FeedPage, eventId: string) {
    0 <= page.after <= page.next <= page.head && page.next == page.after + |page.actions| && |page.actions| <= 100 &&
    (forall i :: 0 <= i < |page.actions| ==>
      page.actions[i].sequence == page.after + 1 + i && ParsedAction(page.actions[i], page.scopeId, eventId)) &&
    forall i, j :: 0 <= i < j < |page.actions| ==> page.actions[i].actionId != page.actions[j].actionId
  }

  // Heads.

  /** Inserts a head into an ordered list, once. */
  function Insert(head: string, sorted: seq<string>): (r: seq<string>)
    ensures forall h :: h in r <==> h == head || h in sorted
  {
    if sorted == [] then [head]
    else if sorted[0] == head then sorted
    else if Before(head, sorted[0]) then [head] + sorted
    else [sorted[0]] + Insert(head, sorted[1..])
  }

  /** The distinct non-empty heads, in order. */
  function UniqueHeads(heads: seq<string>): (r: seq<string>)
    ensures forall h :: h in r <==> h in heads && h != ""
  {
    if heads == [] then []
    else
      var front, last := UniqueHeads(heads[..|heads| - 1]), heads[|heads| - 1];
      assert forall h :: h in heads <==> h in heads[..|heads| - 1] || h == last;
      if last == "" then front else Insert(last, front)
  }

  // Merging one change.

  /** A stored row as the merge sees it: its value if it is live, and its heads in any case. */
  datatype Found = Found(value: Option<Registration>, heads: seq<string>, known: bool)

  function FindRow(d: Desk, id: string): Found {
    if id !in d.rows then Found(None, [], false)
    else if d.rows[id].deleted then Found(None, d.rows[id].heads, true)
    else Found(Some(WithEvidence(d, d.rows[id].value)), d.rows[id].heads, true)
  }

  /** The three-way merge of one row through its JSON form; the evidence mark stays the current one. */
  function MergeValue(before: Registration, after: Registration, current: Registration): (r: Option<Registration>)
    ensures r == MergeFeedRow(before, after, current)
  {
    FeedMergeAgrees(before, after, current);
    var merged := Merge(Projection(before), Projection(after), Projection(current));
    if merged.None? then None
    else
      DecodeEncode(MergeFeedRow(before, after, current).value);
      assert merged.value == Projection(MergeFeedRow(before, after, current).value);
      var row := Decode(merged.value.fields);
      if row.None? then None
      else
        assert row.value.(hasTimingEvidence := current.hasTimingEvidence) == MergeFeedRow(before, after, current).value;
        Some(row.value.(hasTimingEvidence := current.hasTimingEvidence))
  }

  predicate SameProjection(x: Registration, y: Registration)
    ensures SameProjection(x, y) <==> Bare(x) == Bare(y)
  {
    EncodeInjective(x, y);
    Projection(x) == Projection(y)
  }

  /** What a change makes of the current row: a new value, no row, or a conflict. */
  function MergeChange(current: Option<Registration>, change: FeedChange): Result<Option<Registration>, Code> {
    if change.before.None? && change.after.None? then Err(FeedLifecycleConflict)
    else if change.before.None? then
      if current.None? then Ok(Some(Bare(change.after.value)))
      else if SameProjection(current.value, change.after.value) then Ok(current)
      else Err(FeedLifecycleConflict)
    else if change.after.None? then
      if current.None? || SameProjection(current.value, change.before.value) then Ok(None) else Err(FeedLifecycleConflict)
    else if current.None? then Err(FeedLifecycleConflict)
    else
      var merged := MergeFeedRow(change.before.value, change.after.value, current.value);
      if merged.None? then Err(FeedStateConflict) else Ok(merged)
  }

  // Plans.

  datatype Plan = Plan(id: string, known: bool, wasLive: bool, after: Option<Registration>, heads: seq<string>)

  /** Heads after the action; a resolution replaces the operation it decides. */
  function HeadsAfter(heads: seq<string>, actionId: string, decided: Option<string>): seq<string> {
    UniqueHeads((if decided.Some? then Without(heads, decided.value) else heads) + [actionId])
  }

  function Without(heads: seq<string>, head: string): seq<string> {
    if heads == [] then []
    else
      var front, last := Without(heads[..|heads| - 1], head), heads[|heads| - 1];
      if last == head then front else front + [last]
  }

  function PlanOne(d: Desk, change: FeedChange, actionId: string, decided: Option<string>): Result<Plan, Code> {
    var current := FindRow(d, change.registrationId);
    var merged := MergeChange(current.value, change);
    var heads := HeadsAfter(current.heads, actionId, decided);
    if merged.Err? then Err(merged.error)
    else if |heads| > 64 then Err(FeedHeadLimit)
    else Ok(Plan(change.registrationId, current.known, current.value.Some?, merged.value, heads))
  }

  /** All changes planned against the rows as they are, or the first reason against. */
  function PlanAll(d: Desk, changes: seq<FeedChange>, actionId: string, decided: Option<string>): Result<seq<Plan>, Code> {
    if changes == [] then Ok([])
    else
      var front := PlanAll(d, changes[..|changes| - 1], actionId, decided);
      if front.Err? then front
      else
        var last := PlanOne(d, changes[|changes| - 1], actionId, decided);
        if last.Err? then Err(last.error) else Ok(front.value + [last.value])
  }

  function WritePlan(d: Desk, p: Plan): Result<Desk, Failure> {
    if p.after.None? then (if p.known && p.wasLive then DropRow(d, p.id, p.heads) else Ok(d))
    else SaveRow(d, p.after.value, p.heads, !p.known)
  }

  function WritePlans(d: Desk, plans: seq<Plan>): Result<Desk, Failure> {
    if plans == [] then Ok(d)
    else
      var front := WritePlans(d, plans[..|plans| - 1]);
      if front.Err? then front else WritePlan(front.value, plans[|plans| - 1])
  }

  datatype Landed = Landed(desk: Desk, application: Application, code: Option<Code>)

  /** The whole action or none of it: one row in the way sends it to review. */
  function ApplyChanges(d: Desk, action: FeedAction, decided: Option<string>): Result<Landed, Failure> {
    var plans := PlanAll(d, action.changes, action.actionId, decided);
    if plans.Err? then Ok(Landed(d, Review, Some(plans.error)))
    else
      var written := WritePlans(d, plans.value);
      if written.Err? then Err(written.error) else Ok(Landed(written.value, AppliedHere, None))
  }

  // The site's own rows.

  predicate BaselineHolds(d: Desk, change: FeedChange) {
    var id := change.registrationId;
    if change.before.None? then id !in d.siteRows || d.siteRows[id].deleted
    else id in d.siteRows && !d.siteRows[id].deleted && SameProjection(d.siteRows[id].value, change.before.value)
  }

  predicate BaselineMatches(d: Desk, changes: seq<FeedChange>) {
    forall ch :: ch in changes ==> BaselineHolds(d, ch)
  }

  function PutSite(d: Desk, row: Registration, deleted: bool): Result<Desk, Failure> {
    if Validate(row).Some? || row.eventId != d.eventId then Err(InvalidSiteRow)
    else Ok(d.(siteRows := d.siteRows[row.id := SiteRow(row, deleted)]))
  }

  function AdvanceOne(d: Desk, change: FeedChange): Result<Desk, Failure> {
    var id := change.registrationId;
    if change.after.Some? then PutSite(d, change.after.value, false)
    else if id in d.siteRows then PutSite(d, d.siteRows[id].value, true)
    else if change.before.Some? then PutSite(d, change.before.value, true)
    else Err(SiteBaselineMismatch)
  }

  function AdvanceBaseline(d: Desk, changes: seq<FeedChange>): Result<Desk, Failure> {
    if changes == [] then Ok(d)
    else
      var front := AdvanceBaseline(d, changes[..|changes| - 1]);
      if front.Err? then front else AdvanceOne(front.value, changes[|changes| - 1])
  }

  // The journal.

  function LocalOutcome(application: Application, siteOutcome: Outcome): Outcome {
    if application.AppliedHere? then Applied
    else if application.Observed? && siteOutcome.Equivalent? then Equivalent
    else Conflict
  }

  /** An operation known here keeps its own outcome; an unknown one is recorded with what it came to here. */
  function SaveReceived(d: Desk, op: Operation, outcome: Outcome, code: Option<Code>): Result<Desk, Failure> {
    if op.operationId in d.operations then
      var r := d.operations[op.operationId];
      if r.eventId != d.eventId || r.operation != op then Err(ActionIdentity) else Ok(d)
    else if SequenceTaken(d, op) then Err(ActionIdentity)
    else Ok(d.(operations := d.operations[op.operationId := OperationRecord(op, d.eventId, outcome, code)]))
  }

  predicate ConflictSeen(d: Desk, inputId: string) {
    inputId in d.siteActions &&
    var a := d.siteActions[inputId].action;
    a.actionId == inputId && a.kind.OperationAction? && a.outcome.Conflict? && a.operation.Some? &&
    a.operation.value.operationId == inputId
  }

  predicate InputKnown(d: Desk, op: Operation, inputId: string) {
    inputId in d.operations && d.operations[inputId].eventId == d.eventId &&
    d.operations[inputId].operation.scopeId == op.scopeId && d.operations[inputId].operation.baselineId == op.baselineId
  }

  function Recorded(d: Desk, op: Operation, outcome: Outcome, application: Application, code: Option<Code>): Result<Landed, Failure> {
    var saved := SaveReceived(d, op, outcome, code);
    if saved.Err? then Err(saved.error) else Ok(Landed(saved.value, application, code))
  }

  /** A decision between conflicting branches; the first decision for an input stands. */
  function ApplyResolution(d: Desk, action: FeedAction): Result<Landed, Failure>
    requires action.operation.Some? && |action.operation.value.command.inputs| == 1
  {
    var op := action.operation.value;
    var inputId := op.command.inputs[0];
    if !InputKnown(d, op, inputId) || !ConflictSeen(d, inputId) then Err(ResolutionInputMissing)
    else if action.outcome.Conflict? then Recorded(d, op, Conflict, Review, action.code)
    else if inputId in d.resolutions then
      if d.resolutions[inputId].operationId == op.operationId then Ok(Landed(d, Observed, None))
      else Recorded(d, op, Conflict, Review, Some(ResolutionAlreadyDecided))
    else
      var done := ApplyChanges(d, action, Some(inputId));
      if done.Err? then done
      else
        var a := done.value;
        var saved := SaveReceived(a.desk, op, LocalOutcome(a.application, action.outcome), a.code);
        if saved.Err? then Err(saved.error)
        else
          var kept := Resolution(op.operationId, |op.command.keep| == 1, op.command.reason);
          Ok(Landed(saved.value.(resolutions := saved.value.resolutions[inputId := kept]), a.application, a.code))
  }

  predicate Trusted(action: FeedAction) {
    action.outcome.Applied? || action.outcome.Equivalent?
  }

  predicate IsResolution(action: FeedAction) {
    action.operation.Some? && action.operation.value.schemaVersion == 2 && |action.operation.value.command.inputs| == 1
  }

  function ApplyHere(d: Desk, action: FeedAction): Result<Landed, Failure> {
    if IsResolution(action) then ApplyResolution(d, action)
    else if action.outcome.Conflict? then Ok(Landed(d, Review, action.code))
    else if action.outcome.Applied? then ApplyChanges(d, action, None)
    else Ok(Landed(d, Observed, action.code))
  }

  predicate SequenceSeen(d: Desk, sequence: int) {
    exists id :: id in d.siteActions && d.siteActions[id].action.sequence == sequence
  }

  /** The journal entry of an action, and its relay to the tablets. */
  function Journal(d: Desk, action: FeedAction, application: Application, code: Option<Code>): Result<Desk, Failure> {
    if action.actionId in d.siteActions || SequenceSeen(d, action.sequence) then Err(StorageFailure)
    else
      var relayed := Relay(d.feed, action);
      if relayed.Err? then Err(FeedFailure(relayed.error))
      else
        Ok(d.(siteActions := d.siteActions[action.actionId := SiteAction(action, application, code)], feed := relayed.value))
  }

  /** The site's rows and the operations journal after an action was applied here. */
  function Settle(d: Desk, action: FeedAction, application: Application, code: Option<Code>): Result<Desk, Failure> {
    var advanced := if Trusted(action) then AdvanceBaseline(d, action.changes) else Ok(d);
    if advanced.Err? then advanced
    else if action.operation.Some? && !IsResolution(action) then
      SaveReceived(advanced.value, action.operation.value, LocalOutcome(application, action.outcome), code)
    else advanced
  }

  function ApplyNew(d: Desk, action: FeedAction): Result<Landed, Failure> {
    if action.operation.Some? && action.actionId in d.operations && d.operations[action.actionId].operation != action.operation.value
    then Err(ActionIdentity)
    else if Trusted(action) && !IsResolution(action) && !BaselineMatches(d, action.changes) then Err(SiteBaselineMismatch)
    else
      var here := ApplyHere(d, action);
      if here.Err? then here
      else
        var a := here.value;
        var settled := Settle(a.desk, action, a.application, a.code);
        if settled.Err? then Err(settled.error)
        else
          var done := Journal(settled.value, action, a.application, a.code);
          if done.Err? then Err(done.error) else Ok(Landed(done.value, a.application, a.code))
  }

  /** An action seen before must be the same in every byte and is skipped. */
  function ApplyAction(d: Desk, action: FeedAction): Result<Landed, Failure> {
    if action.actionId in d.siteActions then
      var seen := d.siteActions[action.actionId];
      if seen.action != action then Err(ActionIdentity) else Ok(Landed(d, seen.application, seen.code))
    else ApplyNew(d, action)
  }

  datatype Report = Report(actionId: string, application: Application, code: Option<Code>, known: bool)

  datatype Progress = Progress(desk: Desk, reply: Result<seq<Report>, Failure>)

  function ApplyActions(d: Desk, actions: seq<FeedAction>): Progress {
    if actions == [] then Progress(d, Ok([]))
    else
      var front := ApplyActions(d, actions[..|actions| - 1]);
      if front.reply.Err? then front
      else
        var action := actions[|actions| - 1];
        var last := ApplyAction(front.desk, action);
        if last.Err? then Progress(front.desk, Err(last.error))
        else
          var known := action.actionId in front.desk.siteActions;
          var report := Report(action.actionId, last.value.application, last.value.code, known);
          Progress(last.value.desk, Ok(front.reply.value + [report]))
  }

  /** The page as one transaction: a failure leaves everything, the cursor included, as it was. */
  function ApplyPage(d: Desk, page: FeedPage): Progress {
    if d.scope.scopeId == "" || d.scope.scopeId != page.scopeId || d.scope.cursor != page.after then
      Progress(d, Err(CursorChanged))
    else
      var all := ApplyActions(d, page.actions);
      if all.reply.Err? then Progress(d, all.reply)
      else Progress(all.desk.(scope := all.desk.scope.(cursor := page.next)), all.reply)
  }
}
