/** Feed application as the program runs it: loops over actions and rows inside one transaction per page. */
module SiteFeedService {
  import opened Wrappers
  import opened TextRules
  import opened Registrations
  import opened RowMerge
  import opened Transitions
  import opened Operations
  import opened FeedLog
  import opened Tables
  import opened EventStore
  import opened SiteFeed
  import opened TextOrder
  import opened FeedChangeLaws

  predicate FollowsLanded(spec: Result<Landed, Failure>, done: Result<Report, Failure>, actionId: string, known: bool, now: Desk) {
    match spec
    case Ok(a) => done == Ok(Report(actionId, a.application, a.code, known)) && now == a.desk
    case Err(f) => done == Err(f)
  }

  /** What an action came to here: how it was applied, and the code that goes with it. */
  datatype Came = Came(application: Application, code: Option<Code>)

  predicate FollowsCame(spec: Result<Landed, Failure>, done: Result<Came, Failure>, now: Desk) {
    match spec
    case Ok(a) => done == Ok(Came(a.application, a.code)) && now == a.desk
    case Err(f) => done == Err(f)
  }

  method UniquePacketHeads(heads: seq<string>) returns (result: seq<string>)
    ensures result == UniqueHeads(heads)
    ensures Ascending(result) && forall h :: h in result <==> h in heads && h != ""
  {
    HeadsAscend(heads);
    result := [];
    for i := 0 to |heads|
      invariant result == UniqueHeads(heads[..i])
    {
      assert heads[..i + 1][..i] == heads[..i];
      if heads[i] != "" {
        result := Insert(heads[i], result);
      }
    }
    assert heads[..|heads|] == heads;
  }

  method RemoveHead(heads: seq<string>, head: string) returns (result: seq<string>)
    ensures result == Without(heads, head)
  {
    result := [];
    for i := 0 to |heads|
      invariant result == Without(heads[..i], head)
    {
      assert heads[..i + 1][..i] == heads[..i];
      if heads[i] != head {
        result := result + [heads[i]];
      }
    }
    assert heads[..|heads|] == heads;
  }

  /** The merge of one change, by way of the JSON form of the rows. */
  method MergePacketFeedChange(current: Option<Registration>, change: FeedChange) returns (merged: Result<Option<Registration>, Code>)
    ensures merged == MergeChange(current, change)
  {
    if change.before.None? && change.after.None? {
      return Err(FeedLifecycleConflict);
    }
    if change.before.None? {
      if current.None? {
        return Ok(Some(Bare(change.after.value)));
      }
      if SameProjection(current.value, change.after.value) {
        return Ok(current);
      }
      return Err(FeedLifecycleConflict);
    }
    if change.after.None? {
      if current.None? || SameProjection(current.value, change.before.value) {
        return Ok(None);
      }
      return Err(FeedLifecycleConflict);
    }
    if current.None? {
      return Err(FeedLifecycleConflict);
    }
    var value := MergeValue(change.before.value, change.after.value, current.value);
    if value.None? {
      return Err(FeedStateConflict);
    }
    return Ok(value);
  }

  method PlanChanges(store: Store, changes: seq<FeedChange>, actionId: string, decided: Option<string>)
    returns (plans: Result<seq<Plan>, Code>)
    ensures plans == PlanAll(store.View(), changes, actionId, decided)
  {
    var out: seq<Plan> := [];
    for i := 0 to |changes|
      invariant PlanAll(store.View(), changes[..i], actionId, decided) == Ok(out)
    {
      assert changes[..i + 1][..i] == changes[..i];
      var change := changes[i];
      var current := FindRow(store.View(), change.registrationId);
      var merged := MergePacketFeedChange(current.value, change);
      if merged.Err? {
        PlanAllStops(store.View(), changes, actionId, decided, i + 1);
        return Err(merged.error);
      }
      var heads := current.heads;
      if decided.Some? {
        heads := RemoveHead(heads, decided.value);
      }
      heads := UniquePacketHeads(heads + [actionId]);
      if |heads| > 64 {
        PlanAllStops(store.View(), changes, actionId, decided, i + 1);
        return Err(FeedHeadLimit);
      }
      out := out + [Plan(change.registrationId, current.known, current.value.Some?, merged.value, heads)];
    }
    assert changes[..|changes|] == changes;
    return Ok(out);
  }

  lemma {:induction false} PlanAllStops(d: Desk, changes: seq<FeedChange>, actionId: string, decided: Option<string>, n: nat)
    requires n <= |changes| && PlanAll(d, changes[..n], actionId, decided).Err?
    ensures PlanAll(d, changes, actionId, decided) == PlanAll(d, changes[..n], actionId, decided)
  {
    if n < |changes| {
      assert changes[..|changes| - 1][..n] == changes[..n];
      PlanAllStops(d, changes[..|changes| - 1], actionId, decided, n);
    } else {
      assert changes[..n] == changes;
    }
  }

  method ApplyPacketFeedPlans(store: Store, plans: seq<Plan>) returns (done: Result<(), Failure>)
    modifies store`rows, store`members
    ensures Follows(WritePlans(old(store.View()), plans), done, store.View())
  {
    ghost var d := store.View();
    for i := 0 to |plans|
      invariant WritePlans(d, plans[..i]) == Ok(store.View())
    {
      assert plans[..i + 1][..i] == plans[..i];
      var plan := plans[i];
      done := Ok(());
      if plan.after.None? {
        if plan.known && plan.wasLive {
          done := store.DeletePacketRegistration(plan.id, plan.heads);
        }
      } else if plan.known {
        done := store.PutPacketRegistration(plan.after.value, plan.heads);
      } else {
        done := store.InsertPacketRegistration(plan.after.value, plan.heads);
      }
      if done.Err? {
        WritePlansStop(d, plans, i + 1);
        return;
      }
    }
    assert plans[..|plans|] == plans;
    return Ok(());
  }

  lemma {:induction false} WritePlansStop(d: Desk, plans: seq<Plan>, n: nat)
    requires n <= |plans| && WritePlans(d, plans[..n]).Err?
    ensures WritePlans(d, plans) == WritePlans(d, plans[..n])
  {
    if n < |plans| {
      assert plans[..|plans| - 1][..n] == plans[..n];
      WritePlansStop(d, plans[..|plans| - 1], n);
    } else {
      assert plans[..n] == plans;
    }
  }

  method ApplyPacketFeedChanges(store: Store, action: FeedAction, decided: Option<string>) returns (done: Result<Came, Failure>)
    modifies store`rows, store`members
    ensures FollowsCame(ApplyChanges(old(store.View()), action, decided), done, store.View())
  {
    var plans := PlanChanges(store, action.changes, action.actionId, decided);
    if plans.Err? {
      return Ok(Came(Review, Some(plans.error)));
    }
    var written := ApplyPacketFeedPlans(store, plans.value);
    if written.Err? {
      return Err(written.error);
    }
    return Ok(Came(AppliedHere, None));
  }

  method ValidatePacketSiteBaseline(store: Store, changes: seq<FeedChange>) returns (holds: bool)
    ensures holds == BaselineMatches(store.View(), changes)
  {
    for i := 0 to |changes|
      invariant forall ch :: ch in changes[..i] ==> BaselineHolds(store.View(), ch)
    {
      var change := changes[i];
      assert change in changes;
      if change.before.None? {
        if change.registrationId in store.siteRows && !store.siteRows[change.registrationId].deleted {
          return false;
        }
      } else if change.registrationId !in store.siteRows || store.siteRows[change.registrationId].deleted ||
                !SameProjection(store.siteRows[change.registrationId].value, change.before.value) {
        return false;
      }
      assert changes[..i + 1] == changes[..i] + [change];
    }
    assert changes[..|changes|] == changes;
    return true;
  }

  method PutSiteRow(store: Store, row: Registration, deleted: bool) returns (done: Result<(), Failure>)
    modifies store`siteRows
    ensures Follows(PutSite(old(store.View()), row, deleted), done, store.View())
  {
    if Validate(row).Some? || row.eventId != store.eventId {
      return Err(InvalidSiteRow);
    }
    store.siteRows := store.siteRows[row.id := SiteRow(row, deleted)];
    return Ok(());
  }

  method AdvancePacketSiteBaseline(store: Store, changes: seq<FeedChange>) returns (done: Result<(), Failure>)
    modifies store`siteRows
    ensures Follows(AdvanceBaseline(old(store.View()), changes), done, store.View())
  {
    ghost var d := store.View();
    for i := 0 to |changes|
      invariant AdvanceBaseline(d, changes[..i]) == Ok(store.View())
    {
      assert changes[..i + 1][..i] == changes[..i];
      var change := changes[i];
      if change.after.Some? {
        done := PutSiteRow(store, change.after.value, false);
      } else if change.registrationId in store.siteRows {
        done := PutSiteRow(store, store.siteRows[change.registrationId].value, true);
      } else if change.before.Some? {
        done := PutSiteRow(store, change.before.value, true);
      } else {
        done := Err(SiteBaselineMismatch);
      }
      if done.Err? {
        AdvanceStops(d, changes, i + 1);
        return;
      }
    }
    assert changes[..|changes|] == changes;
    return Ok(());
  }

  lemma {:induction false} AdvanceStops(d: Desk, changes: seq<FeedChange>, n: nat)
    requires n <= |changes| && AdvanceBaseline(d, changes[..n]).Err?
    ensures AdvanceBaseline(d, changes) == AdvanceBaseline(d, changes[..n])
  {
    if n < |changes| {
      assert changes[..|changes| - 1][..n] == changes[..n];
      AdvanceStops(d, changes[..|changes| - 1], n);
    } else {
      assert changes[..n] == changes;
    }
  }

  method SaveReceivedPacketOperation(store: Store, op: Operation, outcome: Outcome, code: Option<Code>) returns (done: Result<(), Failure>)
    modifies store`operations
    ensures Follows(SaveReceived(old(store.View()), op, outcome, code), done, store.View())
  {
    if op.operationId in store.operations {
      var existing := store.operations[op.operationId];
      if existing.eventId != store.eventId || existing.operation != op {
        return Err(ActionIdentity);
      }
      return Ok(());
    }
    if SequenceTaken(store.View(), op) {
      return Err(ActionIdentity);
    }
    store.operations := store.operations[op.operationId := OperationRecord(op, store.eventId, outcome, code)];
    return Ok(());
  }

  method SaveDecision(store: Store, op: Operation, outcome: Outcome, application: Application, code: Option<Code>) returns (done: Result<Came, Failure>)
    modifies store`operations
    ensures FollowsCame(Recorded(old(store.View()), op, outcome, application, code), done, store.View())
  {
    var saved := SaveReceivedPacketOperation(store, op, outcome, code);
    if saved.Err? {
      return Err(saved.error);
    }
    return Ok(Came(application, code));
  }

  method ApplyPacketResolution(store: Store, action: FeedAction) returns (done: Result<Came, Failure>)
    requires action.operation.Some? && |action.operation.value.command.inputs| == 1
    modifies store`rows, store`members, store`operations, store`resolutions
    ensures FollowsCame(ApplyResolution(old(store.View()), action), done, store.View())
  {
    var op := action.operation.value;
    var inputId := op.command.inputs[0];
    if !InputKnown(store.View(), op, inputId) || !ConflictSeen(store.View(), inputId) {
      return Err(ResolutionInputMissing);
    }
    if action.outcome.Conflict? {
      done := SaveDecision(store, op, Conflict, Review, action.code);
      return;
    }
    if inputId in store.resolutions {
      if store.resolutions[inputId].operationId == op.operationId {
        return Ok(Came(Observed, None));
      }
      done := SaveDecision(store, op, Conflict, Review, Some(ResolutionAlreadyDecided));
      return;
    }
    done := ApplyPacketFeedChanges(store, action, Some(inputId));
    if done.Err? {
      return;
    }
    var saved := SaveReceivedPacketOperation(store, op, LocalOutcome(done.value.application, action.outcome), done.value.code);
    if saved.Err? {
      return Err(saved.error);
    }
    store.resolutions := store.resolutions[inputId := Resolution(op.operationId, |op.command.keep| == 1, op.command.reason)];
  }

  method ApplyLocally(store: Store, action: FeedAction) returns (done: Result<Came, Failure>)
    modifies store`rows, store`members, store`operations, store`resolutions
    ensures FollowsCame(ApplyHere(old(store.View()), action), done, store.View())
  {
    if IsResolution(action) {
      done := ApplyPacketResolution(store, action);
    } else if action.outcome.Conflict? {
      done := Ok(Came(Review, action.code));
    } else if action.outcome.Applied? {
      done := ApplyPacketFeedChanges(store, action, None);
    } else {
      done := Ok(Came(Observed, action.code));
    }
  }

  method SettleAction(store: Store, action: FeedAction, came: Came) returns (done: Result<(), Failure>)
    modifies store`siteRows, store`operations
    ensures Follows(Settle(old(store.View()), action, came.application, came.code), done, store.View())
  {
    if Trusted(action) {
      done := AdvancePacketSiteBaseline(store, action.changes);
      if done.Err? {
        return;
      }
    }
    done := Ok(());
    if action.operation.Some? && !IsResolution(action) {
      done := SaveReceivedPacketOperation(store, action.operation.value, LocalOutcome(came.application, action.outcome), came.code);
    }
  }

  method JournalAction(store: Store, action: FeedAction, came: Came) returns (done: Result<(), Failure>)
    modifies store`siteActions, store`live, store`lastSequence
    ensures Follows(Journal(old(store.View()), action, came.application, came.code), done, store.View())
  {
    if action.actionId in store.siteActions || SequenceSeen(store.View(), action.sequence) {
      return Err(StorageFailure);
    }
    store.siteActions := store.siteActions[action.actionId := SiteAction(action, came.application, came.code)];
    done := store.RelayPacketSiteAction(action);
  }

  method ApplyNewAction(store: Store, action: FeedAction) returns (done: Result<Came, Failure>)
    modifies store
    ensures FollowsCame(ApplyNew(old(store.View()), action), done, store.View())
  {
    if action.operation.Some? && action.actionId in store.operations &&
       store.operations[action.actionId].operation != action.operation.value {
      return Err(ActionIdentity);
    }
    if Trusted(action) && !IsResolution(action) {
      var holds := ValidatePacketSiteBaseline(store, action.changes);
      if !holds {
        return Err(SiteBaselineMismatch);
      }
    }
    done := ApplyLocally(store, action);
    if done.Err? {
      return;
    }
    var settled := SettleAction(store, action, done.value);
    if settled.Err? {
      return Err(settled.error);
    }
    var journaled := JournalAction(store, action, done.value);
    if journaled.Err? {
      return Err(journaled.error);
    }
  }

  method ApplyOneAction(store: Store, action: FeedAction) returns (done: Result<Report, Failure>)
    modifies store
    ensures FollowsLanded(ApplyAction(old(store.View()), action), done, action.actionId,
                          action.actionId in old(store.siteActions), store.View())
  {
    if action.actionId in store.siteActions {
      var seen := store.siteActions[action.actionId];
      if seen.action != action {
        return Err(ActionIdentity);
      }
      return Ok(Report(action.actionId, seen.application, seen.code, true));
    }
    var came := ApplyNewAction(store, action);
    if came.Err? {
      return Err(came.error);
    }
    return Ok(Report(action.actionId, came.value.application, came.value.code, false));
  }

  method ApplyAll(store: Store, actions: seq<FeedAction>) returns (reply: Result<seq<Report>, Failure>)
    modifies store
    ensures reply == ApplyActions(old(store.View()), actions).reply
    ensures reply.Ok? ==> store.View() == ApplyActions(old(store.View()), actions).desk
  {
    ghost var d := store.View();
    var applications: seq<Report> := [];
    for i := 0 to |actions|
      invariant ApplyActions(d, actions[..i]) == Progress(store.View(), Ok(applications))
    {
      assert actions[..i + 1][..i] == actions[..i];
      var done := ApplyOneAction(store, actions[i]);
      if done.Err? {
        ApplyActionsStop(d, actions, i + 1);
        return Err(done.error);
      }
      applications := applications + [done.value];
    }
    assert actions[..|actions|] == actions;
    return Ok(applications);
  }

  lemma {:induction false} ApplyActionsStop(d: Desk, actions: seq<FeedAction>, n: nat)
    requires n <= |actions| && ApplyActions(d, actions[..n]).reply.Err?
    ensures ApplyActions(d, actions) == ApplyActions(d, actions[..n])
  {
    if n < |actions| {
      assert actions[..|actions| - 1][..n] == actions[..n];
      ApplyActionsStop(d, actions[..|actions| - 1], n);
    } else {
      assert actions[..n] == actions;
    }
  }

  /** The page, its journal, its relay and the cursor: all of it or none. */
  method ApplyPacketFeedPage(store: Store, page: FeedPage) returns (reply: Result<seq<Report>, Failure>)
    modifies store
    ensures Progress(store.View(), reply) == ApplyPage(old(store.View()), page)
  {
    var saved := store.View();
    if store.scope.scopeId == "" || store.scope.scopeId != page.scopeId || store.scope.cursor != page.after {
      return Err(CursorChanged);
    }
    reply := ApplyAll(store, page.actions);
    if reply.Err? {
      store.Rollback(saved);
    } else {
      store.scope := store.scope.(cursor := page.next);
    }
  }
}
