/** Who is turned away before anything is decided, and by exactly which condition, at every door of the Desk. */
module GateLaws {
  import opened Wrappers
  import opened TextRules
  import opened Registrations
  import opened Transitions
  import opened Operations
  import opened FeedLog
  import opened Tables
  import opened Receiver
  import opened SiteFeed
  import opened SiteFeedLaws
  import opened SiteActionLaws
  import opened Rebase
  import opened Resolutions

  // Tablet uploads.

  /** The upload belongs to this store: scope, event and tablet are the connection's, and the event is joined to the scope. */
  predicate Belongs(d: Desk, c: Connection, op: Operation) {
    op.scopeId == c.scopeId && op.originInstanceId == c.originInstanceId && c.eventId == d.eventId &&
    d.scope.scopeId == c.scopeId && c.scopeId != ""
  }

  /** The name is taken by other content, or by the same content in another event. */
  predicate NameTaken(d: Desk, c: Connection, op: Operation) {
    op.operationId in d.operations &&
    (d.operations[op.operationId].operation != op || d.operations[op.operationId].eventId != c.eventId)
  }

  predicate Final(d: Desk, id: string) {
    id in d.operations && !d.operations[id].outcome.Waiting?
  }

  /** Another operation of the same tablet has this place in its sequence. */
  predicate PlaceTaken(d: Desk, op: Operation) {
    exists id :: id in d.operations && id != op.operationId &&
      d.operations[id].operation.originInstanceId == op.originInstanceId &&
      d.operations[id].operation.originSequence == op.originSequence
  }

  /** Each refusal of an upload has its one condition; a final answer comes before a taken place. */
  lemma {:induction false} UploadTurnedAway(d: Desk, c: Connection, op: Operation)
    requires op.changes != []
    ensures var r := ReceiveOne(d, c, op);
            if !Belongs(d, c, op) then r == Received(d, Err(OperationScopeConflict))
            else if NameTaken(d, c, op) then r == Received(d, Err(OperationIdentityConflict))
            else if Final(d, op.operationId) then
              r.desk == d && r.reply == Ok(Receipt(op.operationId, d.operations[op.operationId].outcome,
                                                   d.operations[op.operationId].code, true))
            else if PlaceTaken(d, op) then r == Received(d, Err(OperationSequenceConflict))
            else
              r == Admit(d, c, op) &&
              (r.reply.Ok? ==> r.reply.value.operationId == op.operationId && (r.reply.value.known <==> op.operationId in d.operations))
    ensures ReceiveOne(d, c, op).reply.Err? ==> ReceiveOne(d, c, op).desk == d
  {
  }

  /** A batch is one to sixty-four operations, answered one by one in order up to the first that fails. */
  lemma {:induction false} BatchExactly(d: Desk, c: Connection, ops: seq<Operation>)
    requires forall op :: op in ops ==> op.changes != []
    ensures !(1 <= |ops| <= 64) ==> ReceiveBatch(d, c, ops) == BatchReceived(d, Err(InvalidOperationBatch))
    ensures |ops| == 1 ==>
              var one := ReceiveOne(d, c, ops[0]);
              ReceiveBatch(d, c, ops).desk == one.desk && (one.reply.Ok? ==> ReceiveBatch(d, c, ops).reply == Ok([one.reply.value]))
    ensures 2 <= |ops| <= 64 ==>
              var front := ReceiveBatch(d, c, ops[..|ops| - 1]);
              if front.reply.Err? then ReceiveBatch(d, c, ops) == front
              else
                var last := ReceiveOne(front.desk, c, ops[|ops| - 1]);
                ReceiveBatch(d, c, ops) ==
                BatchReceived(last.desk, if last.reply.Ok? then Ok(front.reply.value + [last.reply.value]) else Err(last.reply.error))
  {
    if |ops| == 1 {
      OneReceived(d, c, ops);
    }
  }

  lemma {:induction false} OneReceived(d: Desk, c: Connection, ops: seq<Operation>)
    requires |ops| == 1 && ops[0].changes != []
    ensures var one := ReceiveOne(d, c, ops[0]);
            ReceiveAll(d, c, ops) == BatchReceived(one.desk, if one.reply.Ok? then Ok([one.reply.value]) else Err(one.reply.error))
  {
    assert ops[..0] == [];
    assert ReceiveAll(d, c, []) == BatchReceived(d, Ok([]));
    var one := ReceiveOne(d, c, ops[0]);
    if one.reply.Ok? {
      assert [] + [one.reply.value] == [one.reply.value];
    }
  }

  predicate InForce(d: Desk, id: string) {
    id in d.operations && (d.operations[id].outcome.Applied? || d.operations[id].outcome.Equivalent?)
  }

  lemma {:induction false} RerunWaits(d: Desk, current: seq<Registration>, op: Operation)
    requires op.command.kind.CorrectMove? && !InForce(d, op.command.operationId)
    ensures RerunDecision(d, current, op) == Verdict(Waiting, Some(CorrectionDependencyMissing), [])
  {
  }

  lemma {:induction false} RerunIsDecided(d: Desk, current: seq<Registration>, op: Operation)
    requires op.command.kind.CorrectMove? ==> InForce(d, op.command.operationId)
    ensures !RerunDecision(d, current, op).outcome.Waiting?
    ensures op.command.kind.CorrectMove? && d.operations[op.command.operationId].operation.schemaVersion != 1 ==>
              RerunDecision(d, current, op) == Verdict(Conflict, Some(CorrectionReviewRequired), [])
  {
  }

  /** A decision on the rows waits exactly while the operation it corrects is not in force here. */
  lemma {:induction false} CorrectionWaits(d: Desk, current: seq<Registration>, op: Operation)
    requires |current| == |op.changes|
    requires FirstClash(op.changes, current).None? && !AllEquivalent(op.changes, current)
    ensures MergeDecision(d, current, op) == RerunDecision(d, current, op)
    ensures RerunDecision(d, current, op).outcome.Waiting? <==> op.command.kind.CorrectMove? && !InForce(d, op.command.operationId)
  {
    if op.command.kind.CorrectMove? && !InForce(d, op.command.operationId) {
      RerunWaits(d, current, op);
    } else {
      RerunIsDecided(d, current, op);
    }
  }

  /** The four places where an operation or action counts as having taken effect. */
  lemma {:induction false} EffectIsLookedUp(d: Desk, id: string)
    ensures Accepted(d, id) <==>
            (id in d.operations && d.operations[id].eventId == d.eventId && d.operations[id].outcome in {Applied, Equivalent}) ||
            (exists e :: e in d.feed.live && e.actionId == id && e.outcome in {Applied, Equivalent}) ||
            (exists e :: e in d.feed.archive && e.actionId == id && e.outcome in {Applied, Equivalent}) ||
            (id in d.siteActions && d.siteActions[id].application in {AppliedHere, Observed})
  {
    RowsInEffect(d.feed.live, id);
    RowsInEffect(d.feed.archive, id);
  }

  lemma {:induction false} RowsInEffect(rows: seq<Entry>, id: string)
    ensures InEffect(rows, id) <==> exists e :: e in rows && e.actionId == id && e.outcome in {Applied, Equivalent}
  {
    if InEffect(rows, id) {
      var i :| 0 <= i < |rows| && rows[i].actionId == id && (rows[i].outcome.Applied? || rows[i].outcome.Equivalent?);
      assert rows[i] in rows;
    }
  }

  /** A decision is put on record exactly if its operation or its event is known and the feed takes it, and then with its own outcome. */
  lemma {:induction false} RecordedExactly(d: Desk, op: Operation, v: Verdict)
    requires op.changes != []
    ensures Persist(d, op, v).Ok? <==>
            (op.operationId in d.operations || op.changes[0].before.eventId in d.events) &&
            Publish(d.feed, op, v.outcome, v.code, v.changes).Ok?
    ensures Persist(d, op, v).Ok? ==>
              var r := Persist(d, op, v).value.operations[op.operationId];
              r.outcome == v.outcome && r.code == v.code &&
              if op.operationId in d.operations
              then r.operation == d.operations[op.operationId].operation && r.eventId == d.operations[op.operationId].eventId
              else r.operation == op && r.eventId == op.changes[0].before.eventId
  {
  }

  // The feed.

  /** A change of the Desk is published exactly if it is named, is neither empty nor too large, and no live row has its name. */
  lemma {:induction false} AnnouncedExactly(f: Feed, actionId: string, sourceCode: string, changes: seq<Change>)
    ensures Announce(f, actionId, sourceCode, changes).Ok? <==>
            Uuid(actionId) && 1 <= |changes| <= 20000 && 1 <= ByteLength(sourceCode) <= 64 &&
            forall e :: e in f.live ==> e.actionId != actionId && e.sequence != f.head + 1
  {
    if HasAction(f.live, actionId) {
      var i :| 0 <= i < |f.live| && f.live[i].actionId == actionId;
      assert f.live[i] in f.live;
    }
    if HasSequence(f.live, f.head + 1) {
      var i :| 0 <= i < |f.live| && f.live[i].sequence == f.head + 1;
      assert f.live[i] in f.live;
    }
  }

  function Least(a: int, b: int): int {
    if a < b then a else b
  }

  /** Retention goes as far as it may in one batch of a hundred: up to `keep` rows from the head, or not at all. */
  lemma {:induction false} RetentionGoes(f: Feed, keep: int)
    ensures var plan := RetentionPlan(f, keep);
            plan.head == f.head && plan.firstAvailable == f.floor && !plan.executed &&
            if f.head - keep < f.floor then plan.processed == 0 && plan.through == 0 && plan.candidate == 0
            else
              plan.through == Least(f.head - keep, f.floor + 99) && plan.processed == plan.through - f.floor + 1 &&
              plan.candidate == f.head - keep - f.floor + 1
  {
  }

  /** Retention refuses a bad request, only looks when it is not told to run, and runs exactly when something is due. */
  lemma {:induction false} RetentionRuns(f: Feed, keep: int, execute: bool, now: int)
    requires 1 <= f.floor <= f.head + 1
    ensures var c := Compact(f, keep, execute, now); var due := f.floor <= f.head - keep;
            if !(1 <= keep <= 100000 && 0 < now) then c == Compaction(f, Err(InvalidRetentionRequest))
            else if !execute || !due then c == Compaction(f, Ok(RetentionPlan(f, keep)))
            else
              var archived := Archive(f, Least(f.head - keep, f.floor + 99), now);
              if archived.Err? then c == Compaction(f, Err(archived.error))
              else c.feed == archived.value && c.reply.Ok? && c.reply.value.executed && c.reply.value.firstAvailable == archived.value.floor
  {
  }

  /** Bad questions of a reader, and only they, are refused before the log is looked at. */
  lemma {:induction false} QuestionsRefused(f: Feed, cursor: int, limit: int)
    requires 1 <= f.floor <= f.head + 1
    ensures ReadPage(f, cursor, limit) == Err(InvalidQuery) <==> !(0 <= cursor && 1 <= limit <= 100)
    ensures ReadPage(f, cursor, limit) == Err(CursorAhead) <==> 1 <= limit <= 100 && 0 <= cursor && cursor > f.head
  {
  }

  /** A page that is served holds consecutive rows from the cursor on. */
  lemma {:induction false} PageIsConsecutive(f: Feed, cursor: int, limit: int)
    requires ReadPage(f, cursor, limit).Ok?
    ensures var page := ReadPage(f, cursor, limit).value;
            page.after == cursor && page.next == cursor + |page.actions| && page.head == f.head &&
            (page.hasMore <==> page.next < f.head) &&
            forall i :: 0 <= i < |page.actions| ==> page.actions[i].sequence == cursor + 1 + i
  {
  }

  /** A stretch to archive is refused exactly if it is not the next one to a hundred live rows at some time. */
  lemma {:induction false} StretchRefused(f: Feed, through: int, at: int)
    requires 1 <= f.floor <= f.head + 1
    ensures Archive(f, through, at) == Err(InvalidArchiveRange) <==>
            !(f.floor <= through <= f.head && through <= f.floor + 99 && 0 < at)
  {
    StoredOrExists(f.archive, Between(f.live, f.floor, through));
  }

  lemma {:induction false} StoredOrExists(archive: seq<Entry>, batch: seq<Entry>)
    ensures StoreAll(archive, batch).Ok? || StoreAll(archive, batch) == Err(RowExists)
  {
    if batch != [] {
      StoredOrExists(archive, batch[..|batch| - 1]);
    }
  }

  // The site's actions.

  /** Another action was journalled under this number. */
  predicate NumberSeen(d: Desk, sequence: int) {
    exists id :: id in d.siteActions && d.siteActions[id].action.sequence == sequence
  }

  /** An operation of this name is known here with other content. */
  predicate OtherContent(d: Desk, action: FeedAction) {
    action.operation.Some? && action.actionId in d.operations && d.operations[action.actionId].operation != action.operation.value
  }

  /** The action changed rows of the site, and is not a decision, which stands on its conflict instead. */
  predicate MovesSite(action: FeedAction) {
    (action.outcome.Applied? || action.outcome.Equivalent?) &&
    !(action.operation.Some? && action.operation.value.schemaVersion == 2 && |action.operation.value.command.inputs| == 1)
  }

  /** A new action of the site is stopped, before anything else, by other content under its name or by a baseline it does not fit. */
  lemma {:induction false} ActionStopped(d: Desk, action: FeedAction)
    requires action.actionId !in d.siteActions
    ensures if OtherContent(d, action) then ApplyAction(d, action) == Err(ActionIdentity)
            else if MovesSite(action) && exists ch :: ch in action.changes && OffBaseline(d, ch) then
              ApplyAction(d, action) == Err(SiteBaselineMismatch)
            else
              (ApplyHere(d, action).Err? ==> ApplyAction(d, action) == Err(ApplyHere(d, action).error)) &&
              (ApplyAction(d, action).Ok? ==> !NumberSeen(d, action.sequence))
  {
    forall ch | ch in action.changes
      ensures BaselineHolds(d, ch) <==> !OffBaseline(d, ch)
    {
    }
    if ApplyAction(d, action).Ok? {
      HereKeepsJournal(d, action);
    }
  }

  /** The change does not start where the stored site row is. */
  predicate OffBaseline(d: Desk, ch: FeedChange) {
    var id := ch.registrationId;
    if ch.before.None? then id in d.siteRows && !d.siteRows[id].deleted
    else id !in d.siteRows || d.siteRows[id].deleted || !SameFeed(d.siteRows[id].value, ch.before.value)
  }

  lemma {:induction false} WritesKeepJournal(d: Desk, plans: seq<Plan>)
    ensures WritePlans(d, plans).Ok? ==> WritePlans(d, plans).value.siteActions == d.siteActions
  {
    if plans != [] {
      WritesKeepJournal(d, plans[..|plans| - 1]);
    }
  }

  lemma {:induction false} AdvanceKeepsJournal(d: Desk, changes: seq<FeedChange>)
    ensures AdvanceBaseline(d, changes).Ok? ==> AdvanceBaseline(d, changes).value.siteActions == d.siteActions
  {
    if changes != [] {
      AdvanceKeepsJournal(d, changes[..|changes| - 1]);
    }
  }

  lemma {:induction false} ChangesKeepJournal(d: Desk, action: FeedAction, decided: Option<string>)
    ensures ApplyChanges(d, action, decided).Ok? ==> ApplyChanges(d, action, decided).value.desk.siteActions == d.siteActions
  {
    var plans := PlanAll(d, action.changes, action.actionId, decided);
    if plans.Ok? {
      WritesKeepJournal(d, plans.value);
    }
  }

  lemma {:induction false} ResolutionKeepsJournal(d: Desk, action: FeedAction)
    requires IsResolution(action) && ApplyResolution(d, action).Ok?
    ensures ApplyResolution(d, action).value.desk.siteActions == d.siteActions
  {
    ResolutionIsLocal(d, action);
  }

  lemma {:induction false} HereIsUnjournalled(d: Desk, action: FeedAction)
    requires ApplyHere(d, action).Ok?
    ensures ApplyHere(d, action).value.desk.siteActions == d.siteActions
  {
    if IsResolution(action) {
      ResolutionKeepsJournal(d, action);
    } else {
      ChangesKeepJournal(d, action, None);
    }
  }

  lemma {:induction false} SettledIsUnjournalled(d: Desk, action: FeedAction, application: Application, code: Option<Code>)
    requires Settle(d, action, application, code).Ok?
    ensures Settle(d, action, application, code).value.siteActions == d.siteActions
  {
    AdvanceKeepsJournal(d, action.changes);
  }

  lemma {:induction false} HereKeepsJournal(d: Desk, action: FeedAction)
    requires ApplyNew(d, action).Ok?
    ensures action.actionId !in d.siteActions && !NumberSeen(d, action.sequence)
    ensures var a := ApplyNew(d, action).value;
            a.desk.siteActions == d.siteActions[action.actionId := SiteAction(action, a.application, a.code)]
  {
    var here, settled := NewParts(d, action);
    HereIsUnjournalled(d, action);
    SettledIsUnjournalled(here.desk, action, here.application, here.code);
  }

  /** An operation the site brings is recorded exactly if it is the one known here, or is new and its place is free. */
  lemma {:induction false} SiteRecordExactly(d: Desk, op: Operation, outcome: Outcome, code: Option<Code>)
    ensures var saved := SaveReceived(d, op, outcome, code);
            if op.operationId in d.operations then
              if d.operations[op.operationId].operation == op && d.operations[op.operationId].eventId == d.eventId then saved == Ok(d)
              else saved == Err(ActionIdentity)
            else if PlaceTaken(d, op) then saved == Err(ActionIdentity)
            else saved == Ok(d.(operations := d.operations[op.operationId := OperationRecord(op, d.eventId, outcome, code)]))
  {
  }

  /** A page is taken only by the scope it was asked for, at the cursor it was asked from; then it is all its actions or nothing. */
  lemma {:induction false} PageTurnedAway(d: Desk, page: FeedPage)
    ensures if d.scope.scopeId == "" || page.scopeId != d.scope.scopeId || page.after != d.scope.cursor
            then ApplyPage(d, page) == Progress(d, Err(CursorChanged))
            else
              var all := ApplyActions(d, page.actions);
              if all.reply.Err? then ApplyPage(d, page) == Progress(d, all.reply)
              else
                ApplyPage(d, page).reply == all.reply && ApplyPage(d, page).desk.scope.cursor == page.next &&
                ApplyPage(d, page).desk.scope.scopeId == all.desk.scope.scopeId &&
                ApplyPage(d, page).desk.scope.baselineId == all.desk.scope.baselineId &&
                ApplyPage(d, page).desk.(scope := all.desk.scope) == all.desk
  {
  }

  /** A decision is refused for want of its input exactly if the conflict is not known here from both sides. */
  lemma {:induction false} DecisionNeedsItsConflict(d: Desk, action: FeedAction)
    requires IsResolution(action)
    ensures var op := action.operation.value; var inputId := op.command.inputs[0];
            ApplyResolution(d, action).Ok? ==>
              inputId in d.operations && d.operations[inputId].eventId == d.eventId &&
              d.operations[inputId].operation.scopeId == op.scopeId && d.operations[inputId].operation.baselineId == op.baselineId &&
              inputId in d.siteActions && d.siteActions[inputId].action.outcome.Conflict? &&
              d.siteActions[inputId].action.actionId == inputId && d.siteActions[inputId].action.kind.OperationAction? &&
              d.siteActions[inputId].action.operation.Some? && d.siteActions[inputId].action.operation.value.operationId == inputId
  {
  }

  type SiteJournal = map<string, SiteAction>

  /** The report of one action agrees with the journal, and says whether the action was there before. */
  predicate Reported(before: SiteJournal, after: SiteJournal, action: FeedAction, report: Report) {
    report.actionId == action.actionId && (report.known <==> action.actionId in before) &&
    action.actionId in after && after[action.actionId] == SiteAction(action, report.application, report.code)
  }

  predicate NamesAction(actions: seq<FeedAction>, id: string) {
    exists i :: 0 <= i < |actions| && actions[i].actionId == id
  }

  /** Every action is reported, and the journal has what it had and the actions. */
  ghost predicate AllReported(before: SiteJournal, after: SiteJournal, actions: seq<FeedAction>, reports: seq<Report>) {
    |reports| == |actions| && (forall i :: 0 <= i < |actions| ==> Reported(before, after, actions[i], reports[i])) &&
    (forall id :: id in after <==> id in before || NamesAction(actions, id)) && forall id :: id in before ==> id in after && after[id] == before[id]
  }

  lemma {:induction false} NamesOneMore(front: seq<FeedAction>, last: FeedAction, id: string)
    ensures NamesAction(front + [last], id) <==> NamesAction(front, id) || last.actionId == id
  {
    var all := front + [last];
    assert all[|front|] == last;
    if NamesAction(front, id) {
      var i :| 0 <= i < |front| && front[i].actionId == id;
      assert all[i] == front[i];
    }
  }

  lemma {:induction false} OneMoreReported(before: SiteJournal, middle: SiteJournal, front: seq<FeedAction>, reports: seq<Report>,
                                           last: FeedAction, report: Report)
    requires AllReported(before, middle, front, reports) && !NamesAction(front, last.actionId)
    requires report.actionId == last.actionId && (report.known <==> last.actionId in middle)
    requires last.actionId in middle ==> middle[last.actionId] == SiteAction(last, report.application, report.code)
    ensures AllReported(before, middle[last.actionId := SiteAction(last, report.application, report.code)], front + [last], reports + [report])
  {
    var after := middle[last.actionId := SiteAction(last, report.application, report.code)];
    var all, told := front + [last], reports + [report];
    forall i | 0 <= i < |all|
      ensures Reported(before, after, all[i], told[i])
    {
      if i < |front| {
        assert Reported(before, middle, front[i], reports[i]);
      }
    }
    forall id
      ensures id in after <==> id in before || NamesAction(all, id)
    {
      NamesOneMore(front, last, id);
    }
  }

  /** The page's report names each action, what it came to and whether it was known before the page. */
  lemma {:induction false} PageReports(d: Desk, actions: seq<FeedAction>)
    requires ApplyActions(d, actions).reply.Ok?
    requires forall i, j :: 0 <= i < j < |actions| ==> actions[i].actionId != actions[j].actionId
    ensures AllReported(d.siteActions, ApplyActions(d, actions).desk.siteActions, actions, ApplyActions(d, actions).reply.value)
  {
    if actions != [] {
      var front, last := actions[..|actions| - 1], actions[|actions| - 1];
      assert forall i :: 0 <= i < |front| ==> front[i] == actions[i];
      assert !NamesAction(front, last.actionId);
      PageReports(d, front);
      var before := ApplyActions(d, front);
      ActionIsJournalled(before.desk, last);
      var landed := ApplyAction(before.desk, last).value;
      OneMoreReported(d.siteActions, before.desk.siteActions, front, before.reply.value, last,
                      Report(last.actionId, landed.application, landed.code, last.actionId in before.desk.siteActions));
      assert actions == front + [last];
    }
  }

  lemma {:induction false} ActionIsJournalled(d: Desk, action: FeedAction)
    requires ApplyAction(d, action).Ok?
    ensures var a := ApplyAction(d, action).value;
            a.desk.siteActions == d.siteActions[action.actionId := SiteAction(action, a.application, a.code)]
    ensures action.actionId in d.siteActions ==>
              ApplyAction(d, action).value.desk == d &&
              d.siteActions[action.actionId] == SiteAction(action, ApplyAction(d, action).value.application, ApplyAction(d, action).value.code)
  {
    if action.actionId in d.siteActions {
      assert d.siteActions[action.actionId].action == action;
    } else {
      HereKeepsJournal(d, action);
    }
  }

  // Snapshots.

  /** A snapshot of this event and scope, in the format in use, of a size that can be taken. */
  predicate Usable(d: Desk, s: Snapshot) {
    s.schemaVersion == 2 && s.sourceKind == "site" && s.eventId == d.eventId && s.scopeId == d.scope.scopeId &&
    s.scopeId != "" && s.baselineId != "" && s.cursor.Some? && s.cursor.value >= 0 && |s.registrations| <= 20000
  }

  predicate RowsUsable(rows: seq<Registration>, eventId: string) {
    (forall r :: r in rows ==> ValidRegistration(r) && r.eventId == eventId) &&
    forall i, j :: 0 <= i < j < |rows| ==> rows[i].id != rows[j].id
  }

  /** A rebase is refused as invalid or for want of a baseline exactly on these grounds, and counts up to sixty-four. */
  lemma {:induction false} RebaseTurnedAway(d: Desk, s: Snapshot)
    ensures var r := RebaseRoster(d, s); var based := forall id :: id in d.rows ==> id in d.siteRows;
            (r.reply == Err(BaselineUnavailable) <==> Usable(d, s) && !based) &&
            (!Usable(d, s) || (based && !RowsUsable(s.registrations, d.eventId)) ==> r == RebaseDone(d, Err(InvalidRebase))) &&
            (r.reply.Ok? ==>
              Usable(d, s) && based && RowsUsable(s.registrations, d.eventId) && d.rebases < 64 && r.desk.rebases == d.rebases + 1) &&
            (r.reply.Err? ==> r.desk == d)
  {
    RowsCheck(s.registrations, d.eventId);
    if RebaseRoster(d, s).reply == Err(BaselineUnavailable) {
      WorkNeverLacksBaseline(d, s);
    }
  }

  lemma {:induction false} RowsCheck(rows: seq<Registration>, eventId: string)
    ensures ValidRows(rows, eventId) <==> RowsUsable(rows, eventId)
  {
    if ValidRows(rows, eventId) {
      forall r | r in rows
        ensures ValidRegistration(r) && r.eventId == eventId
      {
        var i :| 0 <= i < |rows| && rows[i] == r;
        assert Validate(rows[i]).None?;
      }
    } else if RowsUsable(rows, eventId) {
      forall i | 0 <= i < |rows|
        ensures Validate(rows[i]).None? && rows[i].eventId == eventId
      {
        assert rows[i] in rows;
      }
    }
  }

  lemma {:induction false} WriteFailure(d: Desk, plans: seq<Plan>)
    ensures WritePlans(d, plans).Err? ==> WritePlans(d, plans) == Err(StorageFailure)
  {
    if plans != [] {
      WriteFailure(d, plans[..|plans| - 1]);
    }
  }

  lemma {:induction false} SiteFailure(d: Desk, rows: seq<Registration>)
    ensures PutSites(d, rows).Err? ==> PutSites(d, rows) == Err(InvalidSiteRow)
  {
    if rows != [] {
      SiteFailure(d, rows[..|rows| - 1]);
    }
  }

  lemma {:induction false} WorkNeverLacksBaseline(d: Desk, s: Snapshot)
    requires s.cursor.Some?
    ensures Perform(d, s, WorkAll(d, s.registrations)) != Err(BaselineUnavailable)
  {
    var w := WorkAll(d, s.registrations);
    WriteFailure(d, w.plans);
    if WritePlans(d, w.plans).Ok? {
      SiteFailure(WritePlans(d, w.plans).value, w.sites);
    }
  }

  // Decisions at the Desk.

  predicate Blanks(s: string) {
    forall c :: c in s ==> Space(c)
  }

  /** The text without the blanks around it. */
  predicate Trimmed(s: string, t: string) {
    (t == "" || (!Space(t[0]) && !Space(t[|t| - 1]))) &&
    exists i :: 0 <= i <= |s| - |t| && t == s[i..i + |t|] && Blanks(s[..i]) && Blanks(s[i + |t|..])
  }

  lemma {:induction false} LeftTrimmed(s: string) returns (i: nat)
    ensures i <= |s| && TrimLeft(s) == s[i..] && Blanks(s[..i]) && (i < |s| ==> !Space(s[i]))
  {
    if s != "" && Space(s[0]) {
      i := LeftTrimmed(s[1..]);
      assert s[1..][i..] == s[i + 1..];
      assert s[..i + 1] == [s[0]] + s[1..][..i];
      i := i + 1;
    } else {
      i := 0;
    }
  }

  lemma {:induction false} RightTrimmed(s: string) returns (j: nat)
    ensures j <= |s| && TrimRight(s) == s[..j] && Blanks(s[j..]) && (j > 0 ==> !Space(s[j - 1]))
  {
    if s != "" && Space(s[|s| - 1]) {
      var front := s[..|s| - 1];
      j := RightTrimmed(front);
      assert front[..j] == s[..j];
      assert s[j..] == front[j..] + [s[|s| - 1]];
    } else {
      j := |s|;
    }
  }

  lemma {:induction false} TrimIsExact(s: string)
    ensures Trimmed(s, Trim(s))
  {
    var i := LeftTrimmed(s);
    var j := RightTrimmed(s[i..]);
    var t := Trim(s);
    assert t == s[i..][..j] == s[i..i + j];
    assert s[i..][j..] == s[i + |t|..];
    if t != "" {
      assert t[0] == s[i] && t[|t| - 1] == s[i..][j - 1];
    }
  }

  /** A decision goes through only on an open conflict of this event, with a reason and a name of readable length. */
  lemma {:induction false} DecisionTurnedAway(d: Desk, x: Decision)
    ensures var reason, actor := Trim(x.reason), Trim(x.actor);
            Trimmed(x.reason, reason) && Trimmed(x.actor, actor) &&
            if !(1 <= |reason| <= 500 && 1 <= |actor| <= 160) then Resolve(d, x) == Resolved(d, Err(InvalidResolution))
            else if x.inputId !in d.operations || d.operations[x.inputId].eventId != d.eventId ||
                    !d.operations[x.inputId].outcome.Conflict? then Resolve(d, x) == Resolved(d, Err(ResolutionInputMissing))
            else if x.inputId in d.resolutions then Resolve(d, x) == Resolved(d, Err(ResolutionDecided))
            else
              var offer := Propose(d, d.operations[x.inputId].operation);
              (offer.Err? ==> Resolve(d, x) == Resolved(d, Err(offer.error))) &&
              (offer.Ok? && offer.value != x.seen ==> Resolve(d, x) == Resolved(d, Err(ResolutionStale))) &&
              (offer == Ok(x.seen) && x.apply && !x.seen.applicable ==> Resolve(d, x) == Resolved(d, Err(ProposalNotApplicable)))
  {
    TrimIsExact(x.reason);
    TrimIsExact(x.actor);
  }
}
