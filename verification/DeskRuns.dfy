/** Whole runs of one event's store: tablets, site pages, rebases, decisions, retention and timing in any order. */
module DeskRuns {
  import opened Wrappers
  import opened TextRules
  import opened Registrations
  import opened Transitions
  import TransitionLaws
  import opened Operations
  import opened FeedLog
  import opened Tables
  import opened Receiver
  import ReceiverBibs
  import opened ReceiverLaws
  import opened SiteFeed
  import opened SiteFeedLaws
  import opened SiteSync
  import opened Rebase
  import opened RebaseLaws
  import opened Resolutions
  import opened ResolutionLaws
  import opened DeskEdits

  datatype DeskStep =
    | Tablet(c: Connection, op: Operation)
    | SitePage(page: FeedPage)
    | SiteSnapshot(snapshot: Snapshot)
    | Organiser(decision: Decision)
    | Retention(keep: int, execute: bool, now: int)
    | DeskEdit(actionId: string, after: Registration)
    | Timing(numbers: set<int>, epcs: set<string>, marked: set<string>, recorded: set<string>)

  /** What each input is known to satisfy once parsed. */
  predicate Arrives(d: Desk, step: DeskStep) {
    match step
    case Tablet(c, op) => ParsedOperation(op)
    case SitePage(page) => ParsedPage(page, d.eventId)
    case _ => true
  }

  function Step(d: Desk, step: DeskStep): Desk
    requires Arrives(d, step)
  {
    match step
    case Tablet(c, op) => ReceiveOne(d, c, op).desk
    case SitePage(page) => ApplyPage(d, page).desk
    case SiteSnapshot(snapshot) => RebaseRoster(d, snapshot).desk
    case Organiser(x) => Resolve(d, x).desk
    case Retention(keep, execute, now) => d.(feed := Compact(d.feed, keep, execute, now).feed)
    case DeskEdit(actionId, after) => EditMember(d, actionId, after)
    case Timing(numbers, epcs, marked, recorded) => Timed(d, numbers, epcs, marked, recorded)
  }

  /** An edit that is refused changes nothing. */
  function EditMember(d: Desk, actionId: string, after: Registration): Desk {
    var edited := EditRow(d, actionId, after);
    if edited.Ok? then edited.value else d
  }

  /** Reads are logged; starts, finishes and results of participants come and go. */
  function Timed(d: Desk, numbers: set<int>, epcs: set<string>, marked: set<string>, recorded: set<string>): Desk {
    d.(loggedNumbers := d.loggedNumbers + numbers, loggedEpcs := d.loggedEpcs + epcs,
       members := map id | id in d.members :: d.members[id].(marked := id in marked, recorded := id in recorded))
  }

  predicate Sound(d: Desk) {
    Consistent(d) && SiteNamed(d) && WellNumbered(d.feed)
  }

  /** A later state: decisions stand, the journal of site actions and the log of the feed only grow. */
  ghost predicate Grows(d: Desk, e: Desk) {
    LaterState(d, e) && WellNumbered(e.feed) && Log(d.feed) <= Log(e.feed) &&
    forall id :: id in d.siteActions ==> id in e.siteActions && e.siteActions[id] == d.siteActions[id]
  }

  lemma {:induction false} GrowsOn(a: Desk, b: Desk, c: Desk)
    requires Grows(a, b) && Grows(b, c)
    ensures Grows(a, c)
  {
    forall id | Decided(a, id) ensures id in c.operations && c.operations[id] == a.operations[id] {
      assert Decided(b, id);
    }
  }

  // Acceptance is never lost.

  lemma {:induction false} InEffectInLog(f: Feed, id: string)
    ensures InEffect(f.live, id) || InEffect(f.archive, id) <==> InEffect(Log(f), id)
  {
    if InEffect(f.archive, id) {
      var i :| 0 <= i < |f.archive| && f.archive[i].actionId == id && (f.archive[i].outcome.Applied? || f.archive[i].outcome.Equivalent?);
      assert Log(f)[i] == f.archive[i];
    }
    if InEffect(f.live, id) {
      var i :| 0 <= i < |f.live| && f.live[i].actionId == id && (f.live[i].outcome.Applied? || f.live[i].outcome.Equivalent?);
      assert Log(f)[|f.archive| + i] == f.live[i];
    }
  }

  /** What was accepted stays accepted, archived or not. */
  lemma {:induction false} GrowthKeepsAccepted(d: Desk, e: Desk, id: string)
    requires Grows(d, e) && Accepted(d, id)
    ensures Accepted(e, id)
  {
    InEffectInLog(d.feed, id);
    InEffectInLog(e.feed, id);
    if InEffect(Log(d.feed), id) {
      var i :| 0 <= i < |Log(d.feed)| && Log(d.feed)[i].actionId == id &&
               (Log(d.feed)[i].outcome.Applied? || Log(d.feed)[i].outcome.Equivalent?);
      assert Log(e.feed)[i] == Log(d.feed)[i];
    }
  }

  // Tablets.

  lemma {:induction false} FeedStepGrows(f: Feed, step: FeedStep)
    requires WellNumbered(f)
    ensures WellNumbered(Next(f, step)) && Log(f) <= Log(Next(f, step))
  {
    StepExtendsTheLog(f, step);
  }

  lemma {:induction false} AdmittedFeed(d: Desk, op: Operation, r: Received, a: Assessed)
    requires op.changes != [] && Admitted(d, op, r, a)
    ensures var v := a.verdict; Publish(d.feed, op, v.outcome, v.code, v.changes) == Ok(r.desk.feed)
    ensures r.desk.siteActions == d.siteActions && r.desk.siteRows == d.siteRows
  {
    PersistKeepsRows(a.desk, op, a.verdict);
  }

  lemma {:induction false} AdmittedGrows(d: Desk, c: Connection, op: Operation, r: Received, a: Assessed)
    requires op.changes != [] && Admitted(d, op, r, a) && WellNumbered(d.feed) && InScope(d, c, op) && !Decided(d, op.operationId)
    requires op.operationId in d.operations ==> SameIdentity(d.operations[op.operationId], c, op)
    ensures Grows(d, r.desk) && r.desk.siteRows == d.siteRows
  {
    AdmittedIsRecorded(d, c, op, r, a);
    AdmittedFeed(d, op, r, a);
    PublishGrows(d.feed, op, a.verdict, r.desk.feed);
  }

  lemma {:induction false} PublishGrows(f: Feed, op: Operation, v: Verdict, g: Feed)
    requires WellNumbered(f) && Publish(f, op, v.outcome, v.code, v.changes) == Ok(g)
    ensures WellNumbered(g) && Log(f) <= Log(g)
  {
    FeedStepGrows(f, PublishStep(op, v.outcome, v.code, v.changes));
  }

  lemma {:induction false} AdmittedConsistent(d: Desk, op: Operation, r: Received, a: Assessed)
    requires op.changes != [] && Admitted(d, op, r, a) && Consistent(d)
    requires a.verdict.outcome.Applied? ==> EventOf(op) == d.eventId
    ensures Consistent(r.desk)
  {
    PersistKeepsRows(a.desk, op, a.verdict);
    if a.verdict.outcome.Applied? {
      WritesKeepConsistent(d, a.desk, op, a.verdict.changes);
    }
  }

  lemma {:induction false} WritesKeepConsistent(d: Desk, e: Desk, op: Operation, changes: seq<Change>)
    requires Consistent(d) && Aligned(CurrentRows(d, op), op) && EventOf(op) == d.eventId
    requires TransitionLaws.GoodChanges(CurrentRows(d, op), op.command.kind, changes) && Wrote(d, e, changes, [op.operationId])
    ensures Consistent(e)
  {
    forall id | id in e.rows
      ensures id in e.members && e.rows[id].value.id == id && e.rows[id].value.eventId == e.eventId
    {
      if LastFor(changes, id).Some? {
        ReceiverBibs.WrittenRowIsNamed(d, op, changes, LastFor(changes, id).value);
      }
    }
  }

  lemma {:induction false} TabletStep(d: Desk, c: Connection, op: Operation)
    requires Sound(d) && ParsedOperation(op)
    ensures Grows(d, ReceiveOne(d, c, op).desk) && Sound(ReceiveOne(d, c, op).desk)
  {
    ReceiveOrAdmit(d, c, op);
    if ReceiveOne(d, c, op).desk != d && Admit(d, c, op).reply.Ok? {
      var a := AdmitWell(d, c, op);
      AdmittedGrows(d, c, op, Admit(d, c, op), a);
      if a.verdict.outcome.Applied? {
        ReceiverBibs.AppliedInThisEvent(d, c, op, a);
      }
      AdmittedConsistent(d, op, Admit(d, c, op), a);
    } else {
      GrowsSelf(d);
    }
  }

  // The site.

  predicate OwnAction(action: FeedAction, eventId: string) {
    NamedChanges(action.changes) && OfEvent(action.changes, eventId)
  }

  lemma {:induction false} ParsedIsOwn(action: FeedAction, scopeId: string, eventId: string)
    requires ParsedAction(action, scopeId, eventId)
    ensures OwnAction(action, eventId)
  {
    ParsedIsNamed(action, scopeId, eventId);
    forall ch | ch in action.changes && ch.after.Some? ensures ch.after.value.eventId == eventId {
      assert ParsedFeedChange(ch, eventId);
    }
  }

  lemma {:induction false} NewActionGrows(d: Desk, action: FeedAction)
    requires Sound(d) && OwnAction(action, d.eventId) && ApplyNew(d, action).Ok?
    ensures Grows(d, ApplyNew(d, action).value.desk) && Sound(ApplyNew(d, action).value.desk)
    ensures SameScope(d, ApplyNew(d, action).value.desk)
  {
    var e := ApplyNew(d, action).value.desk;
    NewActionKeepsConsistent(d, action);
    NewActionSiteSide(d, action);
    NewActionJournal(d, action);
    FeedStepGrows(d.feed, RelayStep(action));
  }

  lemma {:induction false} NewActionJournal(d: Desk, action: FeedAction)
    requires SiteNamed(d) && NamedChanges(action.changes) && ApplyNew(d, action).Ok?
    ensures JournalGrows(d, ApplyNew(d, action).value.desk)
    ensures ApplyNew(d, action).value.desk.feed == Next(d.feed, RelayStep(action))
  {
    HereIsLocal(d, action);
    var a := ApplyHere(d, action).value;
    SettleFollowsSite(a.desk, action, a.application, a.code);
  }

  lemma {:induction false} ActionGrows(d: Desk, action: FeedAction)
    requires Sound(d) && OwnAction(action, d.eventId) && ApplyAction(d, action).Ok?
    ensures Grows(d, ApplyAction(d, action).value.desk) && Sound(ApplyAction(d, action).value.desk)
    ensures SameScope(d, ApplyAction(d, action).value.desk)
  {
    if action.actionId !in d.siteActions {
      NewActionGrows(d, action);
    }
  }

  lemma {:induction false} ActionsGrow(d: Desk, actions: seq<FeedAction>)
    requires Sound(d) && (forall i :: 0 <= i < |actions| ==> OwnAction(actions[i], d.eventId)) && ApplyActions(d, actions).reply.Ok?
    ensures Grows(d, ApplyActions(d, actions).desk) && Sound(ApplyActions(d, actions).desk)
    ensures SameScope(d, ApplyActions(d, actions).desk)
  {
    if actions != [] {
      LastAction(d, actions);
      ActionsGrow(d, actions[..|actions| - 1]);
      var e := ApplyActions(d, actions[..|actions| - 1]).desk;
      ActionGrows(e, actions[|actions| - 1]);
      GrowsOn(d, e, ApplyActions(d, actions).desk);
    }
  }

  lemma {:induction false} PageStep(d: Desk, page: FeedPage)
    requires Sound(d) && ParsedPage(page, d.eventId)
    ensures Grows(d, ApplyPage(d, page).desk) && Sound(ApplyPage(d, page).desk)
  {
    forall i | 0 <= i < |page.actions| ensures OwnAction(page.actions[i], d.eventId) {
      ParsedIsOwn(page.actions[i], page.scopeId, d.eventId);
    }
    AppliedPageGrows(d, page);
  }

  lemma {:induction false} AppliedPageGrows(d: Desk, page: FeedPage)
    requires Sound(d) && forall i :: 0 <= i < |page.actions| ==> OwnAction(page.actions[i], d.eventId)
    ensures Grows(d, ApplyPage(d, page).desk) && Sound(ApplyPage(d, page).desk)
  {
    if ApplyPage(d, page).reply.Ok? {
      ActionsGrow(d, page.actions);
    }
  }

  lemma {:induction false} SnapshotStep(d: Desk, snapshot: Snapshot)
    requires Sound(d)
    ensures Grows(d, RebaseRoster(d, snapshot).desk) && Sound(RebaseRoster(d, snapshot).desk)
  {
    var e := RebaseRoster(d, snapshot).desk;
    if RebaseRoster(d, snapshot).reply.Ok? {
      RebaseShape(d, snapshot, e);
      WorkIsProper(d, snapshot.registrations);
      WritePlansKeepConsistent(d, WorkAll(d, snapshot.registrations).plans);
      RebasedSites(d, snapshot, e);
      forall id | id in e.siteRows ensures e.siteRows[id].value.id == id {
        assert SiteAt(e, id) == Some(e.siteRows[id]);
        if id in Ids(snapshot.registrations) {
          var i :| 0 <= i < |snapshot.registrations| && snapshot.registrations[i].id == id;
          assert snapshot.registrations[i] in snapshot.registrations;
        }
      }
    } else {
      GrowsSelf(d);
    }
  }

  // The organiser.

  lemma {:induction false} PutAllKeepsConsistent(d: Desk, changes: seq<Change>, heads: seq<string>)
    requires Consistent(d) && PutAll(d, changes, heads).Ok?
    requires forall ch :: ch in changes ==> ch.after.eventId == d.eventId
    ensures Consistent(PutAll(d, changes, heads).value) && PutAll(d, changes, heads).value.eventId == d.eventId
  {
    if changes != [] {
      PutAllKeepsConsistent(d, changes[..|changes| - 1], heads);
      assert changes[|changes| - 1] in changes;
    }
  }

  lemma {:induction false} WrittenDecision(d: Desk, x: Decision, candidate: Candidate, written: Desk)
    requires Consistent(d) && WriteDecision(d, x, candidate) == Ok(written)
    requires x.apply ==> ProperChanges(candidate.changes, d.eventId)
    ensures SameElsewhere(d, written) && Consistent(written)
  {
    if x.apply {
      ProperIsNamed(candidate.changes, d.eventId);
      PutAllIsLocal(d, candidate.changes, [x.resolutionId]);
      PutAllKeepsConsistent(d, candidate.changes, [x.resolutionId]);
    }
  }

  lemma {:induction false} ResolvedProperly(d: Desk, x: Decision) returns (candidate: Candidate, written: Desk)
    requires Consistent(d) && Resolve(d, x).reply.Ok?
    ensures WriteDecision(d, x, candidate) == Ok(written) && (x.apply ==> ProperChanges(candidate.changes, d.eventId))
    ensures RecordDecision(written, x, ResolutionOf(x, candidate)) == Ok(Resolve(d, x).desk)
  {
    candidate, written := ResolvedShape(d, x);
    if x.apply {
      ApplicableRewrites(d, d.operations[x.inputId].operation);
    }
  }

  lemma {:induction false} RefusedDecision(d: Desk, x: Decision)
    requires Resolve(d, x).reply.Err?
    ensures Resolve(d, x).desk == d
  {
  }

  lemma {:induction false} DecisionStep(d: Desk, x: Decision)
    requires Sound(d)
    ensures Grows(d, Resolve(d, x).desk) && Sound(Resolve(d, x).desk)
  {
    if Resolve(d, x).reply.Err? {
      RefusedDecision(d, x);
      GrowsSelf(d);
    } else {
      var candidate, written := ResolvedProperly(d, x);
      WrittenDecision(d, x, candidate, written);
      RecordedGrows(d, written, x, ResolutionOf(x, candidate), Resolve(d, x).desk);
    }
  }

  lemma {:induction false} GrowsSelf(d: Desk)
    requires WellNumbered(d.feed)
    ensures Grows(d, d)
  {
  }

  lemma {:induction false} RecordedGrows(d: Desk, written: Desk, x: Decision, op: Operation, e: Desk)
    requires Sound(d) && SameElsewhere(d, written) && Consistent(written) && RecordDecision(written, x, op) == Ok(e)
    ensures Grows(d, e) && Sound(e)
  {
    PublishGrows(d.feed, op, Verdict(Applied, None, op.changes), e.feed);
  }

  // Runs.

  lemma {:induction false} RetentionStep(d: Desk, keep: int, execute: bool, now: int)
    requires Sound(d)
    ensures var e := d.(feed := Compact(d.feed, keep, execute, now).feed); Grows(d, e) && Sound(e)
  {
    FeedStepGrows(d.feed, CompactStep(keep, execute, now));
  }

  lemma {:induction false} TimingStep(d: Desk, numbers: set<int>, epcs: set<string>, marked: set<string>, recorded: set<string>)
    requires Sound(d)
    ensures Grows(d, Timed(d, numbers, epcs, marked, recorded)) && Sound(Timed(d, numbers, epcs, marked, recorded))
  {
  }

  lemma {:induction false} AnnounceGrows(f: Feed, actionId: string, sourceCode: string, changes: seq<Change>)
    requires WellNumbered(f) && Announce(f, actionId, sourceCode, changes).Ok?
    ensures WellNumbered(Announce(f, actionId, sourceCode, changes).value)
    ensures Log(f) <= Log(Announce(f, actionId, sourceCode, changes).value)
  {
    FeedStepGrows(f, AnnounceStep(actionId, sourceCode, changes));
  }

  lemma {:induction false} EditStep(d: Desk, actionId: string, after: Registration)
    requires Sound(d)
    ensures Grows(d, EditMember(d, actionId, after)) && Sound(EditMember(d, actionId, after))
  {
    if EditRow(d, actionId, after).Ok? {
      var heads, changes, written := EditByParts(d, actionId, after);
      PutKeepsConsistent(d, after, heads, written);
      AnnounceGrows(d.feed, actionId, "chrono_desk.local_edit", changes);
      RowsAndFeedGrow(d, EditRow(d, actionId, after).value);
    } else {
      GrowsSelf(d);
    }
  }

  lemma {:induction false} RowsAndFeedGrow(d: Desk, e: Desk)
    requires Sound(d) && e == d.(rows := e.rows, members := e.members, feed := e.feed)
    requires Consistent(e) && WellNumbered(e.feed) && Log(d.feed) <= Log(e.feed)
    ensures Grows(d, e) && Sound(e)
  {
  }

  lemma {:induction false} StepGrows(d: Desk, step: DeskStep)
    requires Sound(d) && Arrives(d, step)
    ensures Grows(d, Step(d, step)) && Sound(Step(d, step))
  {
    match step
    case Tablet(c, op) => TabletStep(d, c, op);
    case SitePage(page) => PageStep(d, page);
    case SiteSnapshot(snapshot) => SnapshotStep(d, snapshot);
    case Organiser(x) => DecisionStep(d, x);
    case Retention(keep, execute, now) => RetentionStep(d, keep, execute, now);
    case DeskEdit(actionId, after) => EditStep(d, actionId, after);
    case Timing(numbers, epcs, marked, recorded) => TimingStep(d, numbers, epcs, marked, recorded);
  }

  /** The states of a run, each from the one before by a step whose input parsed. */
  ghost predicate IsRun(states: seq<Desk>, steps: seq<DeskStep>) {
    |states| == |steps| + 1 && forall i :: 0 <= i < |steps| ==> Took(states[i], steps[i], states[i + 1])
  }

  predicate Took(d: Desk, step: DeskStep, e: Desk) {
    Arrives(d, step) && e == Step(d, step)
  }

  lemma {:induction false} TookAt(states: seq<Desk>, steps: seq<DeskStep>, i: nat)
    requires IsRun(states, steps) && i < |steps|
    ensures Took(states[i], steps[i], states[i + 1])
  {
  }

  lemma {:induction false} TookGrows(d: Desk, step: DeskStep, e: Desk)
    requires Sound(d) && Took(d, step, e)
    ensures Grows(d, e) && Sound(e)
  {
    StepGrows(d, step);
  }

  /** Each state grows out of the one before, as long as it was sound. */
  ghost predicate Growing(states: seq<Desk>) {
    states != [] && forall i :: 0 <= i < |states| - 1 ==> GrowsSoundly(states[i], states[i + 1])
  }

  ghost predicate GrowsSoundly(d: Desk, e: Desk) {
    Sound(d) ==> Grows(d, e) && Sound(e)
  }

  lemma {:induction false} RunIsGrowing(states: seq<Desk>, steps: seq<DeskStep>)
    requires IsRun(states, steps)
    ensures Growing(states)
  {
    forall i | 0 <= i < |states| - 1 ensures GrowsSoundly(states[i], states[i + 1]) {
      TookAt(states, steps, i);
      if Sound(states[i]) {
        TookGrows(states[i], steps[i], states[i + 1]);
      }
    }
  }

  lemma {:induction false} GrowthAdds(a: Desk, b: Desk, c: Desk)
    requires Sound(a) && Grows(a, b) && Sound(b) && GrowsSoundly(b, c)
    ensures Grows(a, c) && Sound(c)
  {
    GrowsOn(a, b, c);
  }

  lemma {:induction false} GrowingGrows(states: seq<Desk>, i: nat, j: nat)
    requires Growing(states) && i <= j < |states| && Sound(states[i])
    ensures Grows(states[i], states[j]) && Sound(states[j])
    decreases j
  {
    if i == j {
      GrowsSelf(states[i]);
    } else {
      GrowingGrows(states, i, j - 1);
      GrowthAdds(states[i], states[j - 1], states[j]);
    }
  }

  /**
   Over any run, from any state of it to any later one: no decided operation changes its outcome, the feed's log and
   the journal of site actions only grow, and the store stays sound.
   */
  lemma {:induction false} RunGrows(states: seq<Desk>, steps: seq<DeskStep>, i: nat, j: nat)
    requires IsRun(states, steps) && Sound(states[0]) && i <= j < |states|
    ensures Grows(states[i], states[j]) && Sound(states[j])
  {
    RunIsGrowing(states, steps);
    GrowingGrows(states, 0, i);
    GrowingGrows(states, i, j);
  }

  /** Acceptance is never lost over a run, archiving included. */
  lemma {:induction false} RunKeepsAccepted(states: seq<Desk>, steps: seq<DeskStep>, i: nat, j: nat, id: string)
    requires IsRun(states, steps) && Sound(states[0]) && i <= j < |states| && Accepted(states[i], id)
    ensures Accepted(states[j], id)
  {
    RunGrows(states, steps, i, j);
    GrowthKeepsAccepted(states[i], states[j], id);
  }

  /**
   An operation of this event that got a final outcome at step i gets the same answer whenever it is sent again later
   in the run, and the store does not change.
   */
  lemma {:induction false} RunRepeatsAnswers(states: seq<Desk>, steps: seq<DeskStep>, i: nat, j: nat, c: Connection, op: Operation)
    requires IsRun(states, steps) && Sound(states[0]) && i < j < |states| && steps[i] == Tablet(c, op)
    requires ParsedOperation(op) && Ours(states[i], c, op)
    requires var reply := ReceiveOne(states[i], c, op).reply; reply.Ok? && !reply.value.outcome.Waiting?
    ensures ReceiveOne(states[j], c, op) ==
            Received(states[j], Ok(ReceiveOne(states[i], c, op).reply.value.(known := true)))
  {
    RunGrows(states, steps, 0, i);
    RunGrows(states, steps, i + 1, j);
    assert Took(states[i], steps[i], states[i + 1]);
    ResendRepeats(states[i], c, op, states[j]);
  }

  /** An action that came with some page before is skipped by every later one: it changes nothing again. */
  lemma {:induction false} RunSkipsKnownActions(states: seq<Desk>, steps: seq<DeskStep>, i: nat, j: nat, action: FeedAction)
    requires IsRun(states, steps) && Sound(states[0]) && i <= j < |states| && action.actionId in states[i].siteActions
    ensures ApplyAction(states[j], action).Ok? ==> ApplyAction(states[j], action).value.desk == states[j]
    ensures ApplyAction(states[j], action).Ok? <==> states[i].siteActions[action.actionId].action == action
  {
    RunGrows(states, steps, i, j);
  }

  /** No operation name changes the rows at two steps of a run at which tablets send it. */
  lemma {:induction false} RunAppliesOnce(states: seq<Desk>, steps: seq<DeskStep>, i: nat, j: nat, c: Connection, op: Operation,
      c': Connection, op': Operation)
    requires IsRun(states, steps) && Sound(states[0]) && i < j < |steps|
    requires steps[i] == Tablet(c, op) && steps[j] == Tablet(c', op') && op'.operationId == op.operationId
    requires ParsedOperation(op) && ParsedOperation(op')
    ensures states[i + 1].rows == states[i].rows || states[j + 1] == states[j]
  {
    RunGrows(states, steps, 0, i);
    RunGrows(states, steps, i + 1, j);
    assert Took(states[i], steps[i], states[i + 1]) && Took(states[j], steps[j], states[j + 1]);
    if states[i + 1].rows != states[i].rows {
      EffectAtMostOnce(states[i], c, op, states[j], c', op');
    }
  }

  /**
   An operation decided at step j, applied, equivalent or in conflict, had every action its author had seen accepted
   before that step, and they are all still accepted at every later one.
   */
  lemma {:induction false} RunRespectsCauses(states: seq<Desk>, steps: seq<DeskStep>, j: nat, k: nat, c: Connection, op: Operation, head: string)
    requires IsRun(states, steps) && Sound(states[0]) && j < |steps| && j <= k < |states| && steps[j] == Tablet(c, op)
    requires ParsedOperation(op) && !Decided(states[j], op.operationId) && NamesHead(op, head)
    requires var reply := ReceiveOne(states[j], c, op).reply;
             reply.Ok? && (reply.value.outcome.Applied? || reply.value.outcome.Equivalent? || reply.value.outcome.Conflict?)
    ensures Accepted(states[j], head) && Accepted(states[k], head) && head != op.operationId
  {
    RunGrows(states, steps, 0, j);
    DecidedAfterItsHeads(states[j], c, op);
    RunKeepsAccepted(states, steps, j, k, head);
  }

  // Batches.

  predicate BatchParsed(c: Connection, ops: seq<Operation>) {
    forall op :: op in ops ==> ParsedOperation(op) && EventOf(op) == c.eventId
  }

  function Known(receipts: seq<Receipt>): (r: seq<Receipt>)
    ensures |r| == |receipts| && forall i :: 0 <= i < |r| ==> r[i] == receipts[i].(known := true)
  {
    seq(|receipts|, i requires 0 <= i < |receipts| => receipts[i].(known := true))
  }

  lemma {:induction false} LastReceived(d: Desk, c: Connection, ops: seq<Operation>)
    requires ops != [] && forall op :: op in ops ==> op.changes != []
    ensures forall op :: op in ops[..|ops| - 1] ==> op in ops
    ensures ops[|ops| - 1] in ops
    ensures var front := ReceiveAll(d, c, ops[..|ops| - 1]);
            front.reply.Err? ==> ReceiveAll(d, c, ops) == front
    ensures var front := ReceiveAll(d, c, ops[..|ops| - 1]); var one := ReceiveOne(front.desk, c, ops[|ops| - 1]);
            front.reply.Ok? ==> ReceiveAll(d, c, ops).desk == one.desk && (ReceiveAll(d, c, ops).reply.Ok? <==> one.reply.Ok?)
    ensures var front := ReceiveAll(d, c, ops[..|ops| - 1]); var one := ReceiveOne(front.desk, c, ops[|ops| - 1]);
            front.reply.Ok? && one.reply.Ok? ==> ReceiveAll(d, c, ops).reply.value == front.reply.value + [one.reply.value]
  {
  }

  lemma {:induction false} BatchGrows(d: Desk, c: Connection, ops: seq<Operation>)
    requires Sound(d) && BatchParsed(c, ops)
    ensures Grows(d, ReceiveAll(d, c, ops).desk) && Sound(ReceiveAll(d, c, ops).desk)
  {
    if ops != [] {
      LastReceived(d, c, ops);
      BatchGrows(d, c, ops[..|ops| - 1]);
      var e := ReceiveAll(d, c, ops[..|ops| - 1]);
      if e.reply.Ok? {
        TabletStep(e.desk, c, ops[|ops| - 1]);
        GrowsOn(d, e.desk, ReceiveOne(e.desk, c, ops[|ops| - 1]).desk);
      }
    }
  }

  /** Sending a whole batch again, any time later, repeats its receipts and changes nothing, once no receipt is a wait. */
  lemma {:induction false} BatchRepeats(d: Desk, c: Connection, ops: seq<Operation>, later: Desk)
    requires Sound(d) && BatchParsed(c, ops) && ReceiveAll(d, c, ops).reply.Ok?
    requires forall r :: r in ReceiveAll(d, c, ops).reply.value ==> !r.outcome.Waiting?
    requires Grows(ReceiveAll(d, c, ops).desk, later)
    decreases |ops|, 1
    ensures ReceiveAll(later, c, ops) == BatchReceived(later, Ok(Known(ReceiveAll(d, c, ops).reply.value)))
  {
    if ops != [] {
      LastReceived(d, c, ops);
      BatchGrows(d, c, ops[..|ops| - 1]);
      var e := ReceiveAll(d, c, ops[..|ops| - 1]);
      LastRepeats(d, c, ops, later, e.desk, e.reply.value);
    }
  }

  lemma {:induction false} LastRepeats(d: Desk, c: Connection, ops: seq<Operation>, later: Desk, e: Desk, receipts: seq<Receipt>)
    requires Sound(d) && BatchParsed(c, ops) && ops != []
    requires forall op :: op in ops[..|ops| - 1] ==> op in ops && op.changes != []
    requires forall op :: op in ops ==> op.changes != []
    requires ReceiveAll(d, c, ops[..|ops| - 1]) == BatchReceived(e, Ok(receipts)) && Sound(e)
    requires ParsedOperation(ops[|ops| - 1]) && EventOf(ops[|ops| - 1]) == c.eventId
    requires var one := ReceiveOne(e, c, ops[|ops| - 1]);
             one.reply.Ok? && !one.reply.value.outcome.Waiting? && Grows(one.desk, later) &&
             ReceiveAll(d, c, ops).reply == Ok(receipts + [one.reply.value])
    requires forall r :: r in receipts ==> !r.outcome.Waiting?
    ensures ReceiveAll(later, c, ops) == BatchReceived(later, Ok(Known(ReceiveAll(d, c, ops).reply.value)))
    decreases |ops|, 0
  {
    var last := ops[|ops| - 1];
    var one := ReceiveOne(e, c, last);
    TabletStep(e, c, last);
    GrowsOn(e, one.desk, later);
    BatchRepeats(d, c, ops[..|ops| - 1], later);
    ResendRepeats(e, c, last, later);
    LastReceived(later, c, ops);
    assert Known(receipts + [one.reply.value]) == Known(receipts) + [one.reply.value.(known := true)];
  }
}
