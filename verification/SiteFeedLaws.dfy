/** Following the site: what the stored baseline, the local rows and the journal are after any pages of its feed. */
module SiteFeedLaws {
  import opened Wrappers
  import opened TextRules
  import opened JsonMerge
  import opened Registrations
  import opened RowMerge
  import opened Transitions
  import opened TransitionLaws
  import opened Operations
  import opened FeedLog
  import opened Tables
  import opened SiteFeed

  type Rows = map<string, Registration>

  // The site as a function of its own log.

  /** The site's rows after one change: its after image, or no row. */
  function SiteChange(rows: Rows, ch: FeedChange): Rows {
    if ch.after.Some? then rows[ch.registrationId := Bare(ch.after.value)] else rows - {ch.registrationId}
  }

  function SiteChanges(rows: Rows, changes: seq<FeedChange>): Rows {
    if changes == [] then rows else SiteChange(SiteChanges(rows, changes[..|changes| - 1]), changes[|changes| - 1])
  }

  /** The site's rows after its first n actions; conflicts change nothing there. */
  function SiteRowsAt(start: Rows, log: seq<FeedAction>, n: nat): Rows
    requires n <= |log|
  {
    if n == 0 then start
    else
      var before := SiteRowsAt(start, log, n - 1);
      if Trusted(log[n - 1]) then SiteChanges(before, log[n - 1].changes) else before
  }

  predicate SiteLog(log: seq<FeedAction>, scopeId: string, eventId: string) {
    forall i :: 0 <= i < |log| ==> log[i].sequence == i + 1 && ParsedAction(log[i], scopeId, eventId)
  }

  /** The page is a stretch of the site's log. */
  predicate ServedFrom(page: FeedPage, log: seq<FeedAction>) {
    0 <= page.after <= page.next <= |log| && page.actions == log[page.after..page.next]
  }

  /** The site rows this store believes in. */
  function Baseline(d: Desk): Rows {
    LiveSite(d.siteRows)
  }

  function LiveSite(rows: map<string, SiteRow>): Rows {
    map id | id in rows && !rows[id].deleted :: Bare(rows[id].value)
  }

  predicate SiteNamed(d: Desk) {
    forall id :: id in d.siteRows ==> d.siteRows[id].value.id == id
  }

  // Frames.

  /** Applying an action to the local rows leaves the site's rows, the journal of site actions and the feed alone. */
  predicate LocalOnly(d: Desk, d': Desk) {
    d' == d.(rows := d'.rows, members := d'.members, operations := d'.operations, resolutions := d'.resolutions)
  }

  lemma {:induction false} WritePlansIsLocal(d: Desk, plans: seq<Plan>)
    requires WritePlans(d, plans).Ok?
    ensures var e := WritePlans(d, plans).value; e == d.(rows := e.rows, members := e.members)
  {
    if plans != [] {
      WritePlansIsLocal(d, plans[..|plans| - 1]);
    }
  }

  lemma {:induction false} ApplyChangesIsLocal(d: Desk, action: FeedAction, decided: Option<string>)
    requires ApplyChanges(d, action, decided).Ok?
    ensures var e := ApplyChanges(d, action, decided).value.desk; e == d.(rows := e.rows, members := e.members)
  {
    var plans := PlanAll(d, action.changes, action.actionId, decided);
    if plans.Ok? {
      WritePlansIsLocal(d, plans.value);
    }
  }

  /** Records are added, never changed. */
  predicate JournalGrows(d: Desk, d': Desk) {
    forall id :: id in d.operations ==> id in d'.operations && d'.operations[id] == d.operations[id]
  }

  lemma {:induction false} ResolutionIsLocal(d: Desk, action: FeedAction)
    requires IsResolution(action) && ApplyResolution(d, action).Ok?
    ensures LocalOnly(d, ApplyResolution(d, action).value.desk) && JournalGrows(d, ApplyResolution(d, action).value.desk)
  {
    var op := action.operation.value;
    var inputId := op.command.inputs[0];
    if !action.outcome.Conflict? && inputId !in d.resolutions {
      ApplyChangesIsLocal(d, action, Some(inputId));
      var a := ApplyChanges(d, action, Some(inputId)).value;
      SavedIsLocal(a.desk, op, LocalOutcome(a.application, action.outcome), a.code);
    } else {
      SavedIsLocal(d, op, Conflict, action.code);
      SavedIsLocal(d, op, Conflict, Some(ResolutionAlreadyDecided));
    }
  }

  lemma {:induction false} SavedIsLocal(d: Desk, op: Operation, outcome: Outcome, code: Option<Code>)
    ensures SaveReceived(d, op, outcome, code).Ok? ==>
      var e := SaveReceived(d, op, outcome, code).value;
      e == d.(operations := e.operations) && JournalGrows(d, e)
  {
  }

  lemma {:induction false} HereIsLocal(d: Desk, action: FeedAction)
    requires ApplyHere(d, action).Ok?
    ensures LocalOnly(d, ApplyHere(d, action).value.desk) && JournalGrows(d, ApplyHere(d, action).value.desk)
  {
    if IsResolution(action) {
      ResolutionIsLocal(d, action);
    } else if action.outcome.Applied? {
      ApplyChangesIsLocal(d, action, None);
    }
  }

  // The baseline.

  predicate NamedChange(ch: FeedChange) {
    (ch.before.Some? ==> ch.before.value.id == ch.registrationId) && (ch.after.Some? ==> ch.after.value.id == ch.registrationId)
  }

  predicate NamedChanges(changes: seq<FeedChange>) {
    forall ch :: ch in changes ==> NamedChange(ch)
  }

  lemma {:induction false} AdvanceOneStep(d: Desk, ch: FeedChange)
    requires SiteNamed(d) && NamedChange(ch) && AdvanceOne(d, ch).Ok?
    ensures var e := AdvanceOne(d, ch).value;
            SiteNamed(e) && e == d.(siteRows := e.siteRows) && Baseline(e) == SiteChange(Baseline(d), ch)
  {
    var id := ch.registrationId;
    var row := if ch.after.Some? then ch.after.value else if id in d.siteRows then d.siteRows[id].value else ch.before.value;
    var e := AdvanceOne(d, ch).value;
    assert e.siteRows == d.siteRows[id := SiteRow(row, ch.after.None?)];
    LiveAfterPut(d.siteRows, id, row);
  }

  lemma {:induction false} LiveAfterPut(rows: map<string, SiteRow>, id: string, row: Registration)
    ensures LiveSite(rows[id := SiteRow(row, false)]) == LiveSite(rows)[id := Bare(row)]
    ensures LiveSite(rows[id := SiteRow(row, true)]) == LiveSite(rows) - {id}
  {
  }

  /** The stored site rows move exactly as the site's own rows do. */
  lemma {:induction false} AdvanceFollowsSite(d: Desk, changes: seq<FeedChange>)
    requires SiteNamed(d) && NamedChanges(changes) && AdvanceBaseline(d, changes).Ok?
    ensures var e := AdvanceBaseline(d, changes).value;
            SiteNamed(e) && e == d.(siteRows := e.siteRows) && Baseline(e) == SiteChanges(Baseline(d), changes)
  {
    if changes != [] {
      var front := changes[..|changes| - 1];
      AdvanceFollowsSite(d, front);
      AdvanceOneStep(AdvanceBaseline(d, front).value, changes[|changes| - 1]);
    }
  }

  lemma {:induction false} ParsedIsNamed(action: FeedAction, scopeId: string, eventId: string)
    requires ParsedAction(action, scopeId, eventId)
    ensures NamedChanges(action.changes)
    ensures action.operation.Some? && action.operation.value.schemaVersion == 2 ==> IsResolution(action)
  {
    forall ch | ch in action.changes ensures NamedChange(ch) {
      assert ParsedFeedChange(ch, eventId);
    }
  }

  /** What a newly applied action leaves on the site's side of the store. */
  ghost predicate SiteSide(d: Desk, e: Desk, action: FeedAction) {
    SiteNamed(e) && e.eventId == d.eventId && e.scope == d.scope &&
    Baseline(e) == (if Trusted(action) then SiteChanges(Baseline(d), action.changes) else Baseline(d)) &&
    action.actionId !in d.siteActions && action.actionId in e.siteActions &&
    e.siteActions == d.siteActions[action.actionId := e.siteActions[action.actionId]] &&
    e.siteActions[action.actionId].action == action
  }

  lemma {:induction false} SettleFollowsSite(d: Desk, action: FeedAction, application: Application, code: Option<Code>)
    requires SiteNamed(d) && NamedChanges(action.changes) && Settle(d, action, application, code).Ok?
    ensures var e := Settle(d, action, application, code).value;
            SiteNamed(e) && e == d.(siteRows := e.siteRows, operations := e.operations) && JournalGrows(d, e) &&
            Baseline(e) == if Trusted(action) then SiteChanges(Baseline(d), action.changes) else Baseline(d)
  {
    var advanced := if Trusted(action) then AdvanceBaseline(d, action.changes).value else d;
    if Trusted(action) {
      AdvanceFollowsSite(d, action.changes);
    }
    if action.operation.Some? {
      SavedIsLocal(advanced, action.operation.value, LocalOutcome(application, action.outcome), code);
    }
  }

  lemma {:induction false} NewActionSiteSide(d: Desk, action: FeedAction)
    requires SiteNamed(d) && NamedChanges(action.changes) && ApplyNew(d, action).Ok?
    ensures SiteSide(d, ApplyNew(d, action).value.desk, action)
  {
    HereIsLocal(d, action);
    var a := ApplyHere(d, action).value;
    assert Baseline(a.desk) == Baseline(d);
    SettleFollowsSite(a.desk, action, a.application, a.code);
  }

  /** What following the site needs of its log: running numbers, and changes that name their rows. */
  predicate NumberedLog(log: seq<FeedAction>) {
    forall i :: 0 <= i < |log| ==> log[i].sequence == i + 1 && NamedChanges(log[i].changes)
  }

  lemma {:induction false} ParsedLogIsNumbered(log: seq<FeedAction>, scopeId: string, eventId: string)
    requires SiteLog(log, scopeId, eventId)
    ensures NumberedLog(log)
  {
    forall i | 0 <= i < |log| ensures NamedChanges(log[i].changes) {
      ParsedIsNamed(log[i], scopeId, eventId);
    }
  }

  /** The store has followed the site's log up to action n and knows no other action. */
  ghost predicate TracksTo(d: Desk, start: Rows, log: seq<FeedAction>, n: nat) {
    n <= |log| && SiteNamed(d) && Baseline(d) == SiteRowsAt(start, log, n) &&
    forall id :: id in d.siteActions ==> d.siteActions[id].action.actionId == id && 1 <= d.siteActions[id].action.sequence <= n
  }

  /** What an action does to the site's side of the store: nothing when it was applied before. */
  ghost predicate SiteStep(d: Desk, e: Desk, action: FeedAction) {
    if action.actionId in d.siteActions then e == d && d.siteActions[action.actionId].action == action
    else SiteNamed(d) && NamedChanges(action.changes) ==> SiteSide(d, e, action)
  }

  lemma {:induction false} ActionIsSiteStep(d: Desk, action: FeedAction)
    requires ApplyAction(d, action).Ok?
    ensures SiteStep(d, ApplyAction(d, action).value.desk, action)
  {
    if action.actionId !in d.siteActions && SiteNamed(d) && NamedChanges(action.changes) {
      NewActionSiteSide(d, action);
    }
  }

  lemma {:induction false} SiteSideTracks(d: Desk, e: Desk, start: Rows, log: seq<FeedAction>, n: nat)
    requires n < |log| && log[n].sequence == n + 1 && TracksTo(d, start, log, n) && SiteSide(d, e, log[n])
    ensures TracksTo(e, start, log, n + 1)
  {
  }

  lemma {:induction false} StepTracks(d: Desk, e: Desk, start: Rows, log: seq<FeedAction>, n: nat)
    requires n < |log| && NumberedLog(log) && TracksTo(d, start, log, n) && SiteStep(d, e, log[n])
    ensures TracksTo(e, start, log, n + 1) && SameScope(d, e) && log[n].actionId !in d.siteActions
  {
    assert log[n].actionId !in d.siteActions by {
      assert log[n].sequence == n + 1;
    }
    SiteSideTracks(d, e, start, log, n);
  }

  /** What the last of several actions was applied to. */
  lemma {:induction false} LastAction(d: Desk, actions: seq<FeedAction>)
    requires actions != [] && ApplyActions(d, actions).reply.Ok?
    ensures var front := ApplyActions(d, actions[..|actions| - 1]);
            front.reply.Ok? && ApplyAction(front.desk, actions[|actions| - 1]).Ok? &&
            ApplyActions(d, actions).desk == ApplyAction(front.desk, actions[|actions| - 1]).value.desk
  {
  }

  /** The actions are the log's own, from one past the given sequence on. */
  predicate Stretch(actions: seq<FeedAction>, log: seq<FeedAction>, c: nat) {
    c + |actions| <= |log| &&
    (actions == [] || (Stretch(actions[..|actions| - 1], log, c) && actions[|actions| - 1] == log[c + |actions| - 1]))
  }

  /** The desks that several actions in a row pass through. */
  ghost predicate Course(desks: seq<Desk>, actions: seq<FeedAction>) {
    |desks| == |actions| + 1 &&
    (actions == [] ||
     var n := |actions| - 1;
     Course(desks[..n + 1], actions[..n]) && SiteStep(desks[n], desks[n + 1], actions[n]))
  }

  lemma {:induction false} ActionsCourse(d: Desk, actions: seq<FeedAction>) returns (desks: seq<Desk>)
    requires ApplyActions(d, actions).reply.Ok?
    ensures Course(desks, actions) && desks[0] == d && desks[|actions|] == ApplyActions(d, actions).desk
  {
    if actions == [] {
      desks := [d];
    } else {
      LastAction(d, actions);
      ActionIsSiteStep(ApplyActions(d, actions[..|actions| - 1]).desk, actions[|actions| - 1]);
      var front := ActionsCourse(d, actions[..|actions| - 1]);
      desks := front + [ApplyActions(d, actions).desk];
      assert desks[..|actions|] == front;
    }
  }

  lemma {:induction false} ActionsTrack(desks: seq<Desk>, start: Rows, log: seq<FeedAction>, c: nat, actions: seq<FeedAction>)
    requires Course(desks, actions) && Stretch(actions, log, c) && NumberedLog(log) && TracksTo(desks[0], start, log, c)
    ensures TracksTo(desks[|actions|], start, log, c + |actions|) && SameScope(desks[0], desks[|actions|])
  {
    if actions != [] {
      var n := |actions| - 1;
      ActionsTrack(desks[..n + 1], start, log, c, actions[..n]);
      StepTracks(desks[n], desks[n + 1], start, log, c + n);
    }
  }

  predicate SameScope(d: Desk, e: Desk) {
    e.scope == d.scope && e.eventId == d.eventId
  }

  /** The stored site rows are the site's own rows at the committed cursor. */
  ghost predicate Tracks(d: Desk, start: Rows, log: seq<FeedAction>) {
    0 <= d.scope.cursor <= |log| && TracksTo(d, start, log, d.scope.cursor)
  }

  /** A page that goes through is its actions applied from the cursor; one that fails is nothing at all. */
  lemma {:induction false} PageIsActions(d: Desk, page: FeedPage)
    ensures var r, all := ApplyPage(d, page), ApplyActions(d, page.actions);
            if r.reply.Err? then r.desk == d
            else all.reply.Ok? && d.scope.cursor == page.after && r.desk == all.desk.(scope := all.desk.scope.(cursor := page.next))
  {
  }

  lemma {:induction false} SliceIsStretch(log: seq<FeedAction>, from: nat, to: nat)
    requires from <= to <= |log|
    ensures Stretch(log[from..to], log, from)
  {
    if from < to {
      SliceIsStretch(log, from, to - 1);
      assert log[from..to][..to - from - 1] == log[from..to - 1];
    }
  }

  lemma {:induction false} ServedIsStretch(page: FeedPage, log: seq<FeedAction>)
    requires ServedFrom(page, log)
    ensures Stretch(page.actions, log, page.after) && page.after + |page.actions| == page.next
  {
    SliceIsStretch(log, page.after, page.next);
  }

  lemma {:induction false} TracksByRows(d: Desk, e: Desk, start: Rows, log: seq<FeedAction>, n: nat)
    requires TracksTo(d, start, log, n) && e.siteRows == d.siteRows && e.siteActions == d.siteActions
    ensures TracksTo(e, start, log, n)
  {
  }

  lemma {:induction false} CourseTracks(desks: seq<Desk>, e: Desk, start: Rows, log: seq<FeedAction>, c: nat, actions: seq<FeedAction>)
    requires Course(desks, actions) && Stretch(actions, log, c) && NumberedLog(log)
    requires Tracks(desks[0], start, log) && desks[0].scope.cursor == c
    requires var last := desks[|actions|]; e == last.(scope := last.scope.(cursor := c + |actions|))
    ensures Tracks(e, start, log) && e.eventId == desks[0].eventId && e.scope == desks[0].scope.(cursor := c + |actions|)
  {
    ActionsTrack(desks, start, log, c, actions);
    TracksByRows(desks[|actions|], e, start, log, c + |actions|);
  }

  /** A page of the site's log keeps the baseline at the cursor; a page that fails changes nothing at all. */
  lemma {:induction false} PageTracks(d: Desk, page: FeedPage, start: Rows, log: seq<FeedAction>)
    requires NumberedLog(log) && ServedFrom(page, log) && Tracks(d, start, log)
    ensures Tracks(ApplyPage(d, page).desk, start, log)
    ensures ApplyPage(d, page).reply.Err? ==> ApplyPage(d, page).desk == d
    ensures ApplyPage(d, page).reply.Ok? ==> ApplyPage(d, page).desk.scope == d.scope.(cursor := page.next)
    ensures ApplyPage(d, page).desk.eventId == d.eventId && ApplyPage(d, page).desk.scope.scopeId == d.scope.scopeId
  {
    ServedIsStretch(page, log);
    PageIsActions(d, page);
    if ApplyPage(d, page).reply.Ok? {
      var desks := ActionsCourse(d, page.actions);
      CourseTracks(desks, ApplyPage(d, page).desk, start, log, page.after, page.actions);
    }
  }

  function ApplyPages(d: Desk, pages: seq<FeedPage>): Desk {
    if pages == [] then d else ApplyPage(ApplyPages(d, pages[..|pages| - 1]), pages[|pages| - 1]).desk
  }

  /** Over any run of pages, in any order and with any failures, the baseline is the site's rows at the cursor. */
  lemma {:induction false} PagesTrack(d: Desk, pages: seq<FeedPage>, start: Rows, log: seq<FeedAction>)
    requires SiteLog(log, d.scope.scopeId, d.eventId) && Tracks(d, start, log)
    requires forall p :: p in pages ==> ServedFrom(p, log)
    ensures var e := ApplyPages(d, pages);
            Tracks(e, start, log) && e.eventId == d.eventId && e.scope.scopeId == d.scope.scopeId
  {
    if pages != [] {
      ParsedLogIsNumbered(log, d.scope.scopeId, d.eventId);
      PagesTrack(d, pages[..|pages| - 1], start, log);
      PageTracks(ApplyPages(d, pages[..|pages| - 1]), pages[|pages| - 1], start, log);
    }
  }
}
