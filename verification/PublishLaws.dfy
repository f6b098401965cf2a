/** What the Desk's feed tells the tablets: every entry against the rows that stood and the rows now stored. */
module PublishLaws {
  import opened Wrappers
  import opened TextRules
  import opened Registrations
  import opened Transitions
  import opened TransitionLaws
  import opened CommandEffects
  import opened Operations
  import opened FeedLog
  import opened Tables
  import opened Receiver
  import opened ReceiverLaws

  /** An image carries every member of the row but the evidence mark. */
  predicate Shows(image: Registration, row: Registration) {
    SameFeed(image, row) && !image.hasTimingEvidence
  }

  /** One told change: the row before, if there was one, and the row as it is stored now. */
  predicate Tells(rows: map<string, Row>, now: map<string, Row>, ch: FeedChange) {
    var id := ch.registrationId;
    (ch.before.Some? <==> id in rows) && (id in rows ==> !rows[id].deleted && Shows(ch.before.value, rows[id].value)) &&
    ch.after.Some? && id in now && !now[id].deleted && Shows(ch.after.value, now[id].value)
  }

  predicate Told(changes: seq<FeedChange>, id: string) {
    exists i :: 0 <= i < |changes| && changes[i].registrationId == id
  }

  /** The changes are what happened between two states of the rows: each is true, and none is kept back. */
  ghost predicate TellsAll(rows: map<string, Row>, now: map<string, Row>, changes: seq<FeedChange>) {
    (forall i :: 0 <= i < |changes| ==> Tells(rows, now, changes[i])) &&
    (forall i, j :: 0 <= i < j < |changes| ==> changes[i].registrationId != changes[j].registrationId) &&
    forall id :: Told(changes, id) || Stands(rows, now, id)
  }

  predicate Stands(rows: map<string, Row>, now: map<string, Row>, id: string) {
    (id in now <==> id in rows) && (id in rows ==> now[id] == rows[id])
  }

  /** One entry more at the end of the log, under the next number. */
  predicate OneMore(f: Feed, g: Feed) {
    g.archive == f.archive && g.floor == f.floor && g.head == f.head + 1 &&
    |g.live| == |f.live| + 1 && g.live[..|f.live|] == f.live && g.live[|f.live|].sequence == f.head + 1
  }

  /** The log has an entry made from this operation. */
  predicate InLog(f: Feed, operationId: string) {
    (exists i :: 0 <= i < |f.live| && f.live[i].source == Some(operationId)) ||
    exists i :: 0 <= i < |f.archive| && f.archive[i].source == Some(operationId)
  }

  /** Waiting and refused operations are nobody's business yet, nor is a race change that did not go through. */
  predicate Worthy(op: Operation, outcome: Outcome) {
    !outcome.Waiting? && !outcome.Rejected? && (op.command.kind.ChangeRace? ==> outcome.Applied?)
  }

  predicate NamesOperation(e: Entry, op: Operation, outcome: Outcome, code: Option<Code>) {
    e.actionId == op.operationId && e.source == Some(op.operationId) && e.outcome == outcome && e.code == code &&
    e.kind == (if op.command.kind.ChangeRace? then ServerChange else OperationAction)
  }

  /** A row as the tablets see it, or nothing. */
  predicate Side(image: Option<Registration>, row: Registration, there: bool) {
    if there then image.Some? && Shows(image.value, row) else image.None?
  }

  // What Publish puts into an entry.

  lemma {:induction false} VirtualIsBlank(row: Registration)
    ensures IsVirtual(row) <==> Blank(row)
  {
  }

  /** The sides of a published change: a tablet's new row has no before, a decision's blank row no after. */
  lemma {:induction false} PublishedAt(op: Operation, changes: seq<Change>, i: nat)
    requires i < |changes| && changes[i].after.id == changes[i].registrationId
    ensures var p := PublishedChanges(op, changes); var ch := changes[i];
            |p| == |changes| && p[i].registrationId == ch.registrationId &&
            Side(p[i].before, ch.before,
                 op.schemaVersion == 2 || !(GivesRow(op.command.kind) && Blank(ch.before))) &&
            Side(p[i].after, ch.after, op.schemaVersion != 2 || !Blank(ch.after))
  {
    VirtualIsBlank(changes[i].before);
    VirtualIsBlank(changes[i].after);
  }

  predicate GivesRow(kind: CommandType) {
    kind.CreateRegistration? || kind.ReturnToReserve?
  }

  lemma {:induction false} PublishByParts(f: Feed, op: Operation, outcome: Outcome, code: Option<Code>, changes: seq<Change>)
    requires Publish(f, op, outcome, code, changes).Ok?
    ensures var g := Publish(f, op, outcome, code, changes).value;
            if Worthy(op, outcome) && !InLog(f, op.operationId) then
              OneMore(f, g) && NamesOperation(g.live[|f.live|], op, outcome, code) &&
              g.live[|f.live|].changes == PublishedChanges(op, changes) &&
              g.live[|f.live|].sourceCode ==
                (if op.schemaVersion == 2 then "admin.packet_issuance_resolution" else "pwa.packet_issuance")
            else g == f
  {
  }

  // A received operation.

  /** What an applied operation's changes say about the rows before them. */
  predicate StoodBefore(d: Desk, op: Operation, ch: Change) {
    ch.after.id == ch.registrationId &&
    if ch.registrationId in d.rows then
      !d.rows[ch.registrationId].deleted && SameFeed(ch.before, d.rows[ch.registrationId].value) &&
      !(GivesRow(op.command.kind) && Blank(ch.before))
    else GivesRow(op.command.kind) && Blank(ch.before)
  }

  lemma {:induction false} ToldOne(d: Desk, now: map<string, Row>, op: Operation, changes: seq<Change>, heads: seq<string>, i: nat)
    requires op.schemaVersion == 1 && i < |changes| && StoodBefore(d, op, changes[i])
    requires WroteRows(d.rows, now, changes, heads) && LastFor(changes, changes[i].registrationId) == Some(changes[i])
    ensures var p := PublishedChanges(op, changes);
            |p| == |changes| && p[i].registrationId == changes[i].registrationId && Tells(d.rows, now, p[i])
  {
    PublishedAt(op, changes, i);
  }

  lemma {:induction false} NothingUntold(rows: map<string, Row>, now: map<string, Row>, changes: seq<Change>, p: seq<FeedChange>, heads: seq<string>, id: string)
    requires WroteRows(rows, now, changes, heads) && |p| == |changes|
    requires forall i :: 0 <= i < |p| ==> p[i].registrationId == changes[i].registrationId
    ensures Told(p, id) || Stands(rows, now, id)
  {
    var last := LastFor(changes, id);
    if last.Some? {
      var i :| 0 <= i < |changes| && changes[i] == last.value;
      assert p[i].registrationId == id;
    }
  }

  lemma {:induction false} ToldEach(d: Desk, now: map<string, Row>, op: Operation, changes: seq<Change>, heads: seq<string>)
    requires op.schemaVersion == 1 && |changes| <= 2
    requires |changes| == 2 ==> changes[0].registrationId != changes[1].registrationId
    requires forall i :: 0 <= i < |changes| ==> StoodBefore(d, op, changes[i])
    requires WroteRows(d.rows, now, changes, heads)
    ensures |PublishedChanges(op, changes)| == |changes|
    ensures forall i :: 0 <= i < |changes| ==>
              PublishedChanges(op, changes)[i].registrationId == changes[i].registrationId &&
              Tells(d.rows, now, PublishedChanges(op, changes)[i])
  {
    forall i | 0 <= i < |changes|
      ensures PublishedChanges(op, changes)[i].registrationId == changes[i].registrationId &&
              Tells(d.rows, now, PublishedChanges(op, changes)[i])
    {
      LastOfFew(changes, i);
      ToldOne(d, now, op, changes, heads, i);
    }
  }

  lemma {:induction false} ToldAll(d: Desk, now: map<string, Row>, op: Operation, changes: seq<Change>, p: seq<FeedChange>, heads: seq<string>)
    requires op.schemaVersion == 1 && |changes| <= 2 && p == PublishedChanges(op, changes)
    requires |changes| == 2 ==> changes[0].registrationId != changes[1].registrationId
    requires forall i :: 0 <= i < |changes| ==> StoodBefore(d, op, changes[i])
    requires WroteRows(d.rows, now, changes, heads)
    ensures TellsAll(d.rows, now, p)
  {
    ToldEach(d, now, op, changes, heads);
    NoneUntold(d.rows, now, changes, p, heads);
    TwoAreDistinct(changes, p);
    TellsByParts(d.rows, now, p);
  }

  lemma {:induction false} TwoAreDistinct(changes: seq<Change>, p: seq<FeedChange>)
    requires |p| == |changes| <= 2 && (|changes| == 2 ==> changes[0].registrationId != changes[1].registrationId)
    requires forall i :: 0 <= i < |p| ==> p[i].registrationId == changes[i].registrationId
    ensures forall i, j :: 0 <= i < j < |p| ==> p[i].registrationId != p[j].registrationId
  {
  }

  lemma {:induction false} TellsByParts(rows: map<string, Row>, now: map<string, Row>, p: seq<FeedChange>)
    requires forall i :: 0 <= i < |p| ==> Tells(rows, now, p[i])
    requires forall i, j :: 0 <= i < j < |p| ==> p[i].registrationId != p[j].registrationId
    requires forall id :: Told(p, id) || Stands(rows, now, id)
    ensures TellsAll(rows, now, p)
  {
  }

  lemma {:induction false} NoneUntold(rows: map<string, Row>, now: map<string, Row>, changes: seq<Change>, p: seq<FeedChange>, heads: seq<string>)
    requires WroteRows(rows, now, changes, heads) && |p| == |changes|
    requires forall i :: 0 <= i < |p| ==> p[i].registrationId == changes[i].registrationId
    ensures forall id :: Told(p, id) || Stands(rows, now, id)
  {
    forall id
      ensures Told(p, id) || Stands(rows, now, id)
    {
      NothingUntold(rows, now, changes, p, heads, id);
    }
  }

  lemma {:induction false} LastOfFew(changes: seq<Change>, i: nat)
    requires i < |changes| <= 2 && (|changes| == 2 ==> changes[0].registrationId != changes[1].registrationId)
    ensures LastFor(changes, changes[i].registrationId) == Some(changes[i])
  {
    if |changes| == 2 {
      assert changes[..1] == [changes[0]];
    }
  }

  /** A row of the operation as it stood: a live stored row, or the blank image of one to be created. */
  predicate StoodRow(d: Desk, op: Operation, row: Registration) {
    if row.id in d.rows then
      !d.rows[row.id].deleted && SameFeed(row, d.rows[row.id].value) &&
      (GivesRow(op.command.kind) ==> op.command.kind.ReturnToReserve? && row.id == op.command.registrationId)
    else GivesRow(op.command.kind) && Blank(row)
  }

  lemma {:induction false} ReadRowStood(d: Desk, op: Operation, i: nat)
    requires Consistent(d) && i < |op.changes| && ReadRow(d, op.changes[i].registrationId).Some?
    requires GivesRow(op.command.kind) ==>
      op.command.kind.ReturnToReserve? && op.changes[i].registrationId == op.command.registrationId
    ensures CurrentOf(d, op, i).id in d.rows && StoodRow(d, op, CurrentOf(d, op, i))
  {
  }

  ghost predicate AllStood(d: Desk, op: Operation) {
    forall i :: 0 <= i < |op.changes| ==> StoodRow(d, op, CurrentOf(d, op, i))
  }

  lemma {:induction false} NumberStood(d: Desk, op: Operation)
    requires ParsedOperation(op) && Consistent(d) && (op.command.kind.AssignNumber? || op.command.kind.CreateRegistration?)
    requires AssessNumber(d, op).Ok? && AssessNumber(d, op).value.verdict.outcome.Applied?
    ensures AllStood(d, op)
  {
    NumberRow(d, op);
    if op.command.kind.CreateRegistration? {
      VirtualIsBlank(CurrentOf(d, op, 0));
    } else {
      ReadRowStood(d, op, 0);
    }
  }

  lemma {:induction false} ReturnStood(d: Desk, op: Operation)
    requires ParsedOperation(op) && Consistent(d) && op.command.kind.ReturnToReserve? && EventOf(op) == d.eventId
    requires AssessReturn(d, op).Ok? && AssessReturn(d, op).value.verdict.outcome.Applied?
    ensures AllStood(d, op)
  {
    ReturnRows(d, op);
    ParsedReturn(op);
    ReadRowStood(d, op, 0);
    VirtualIsBlank(op.changes[1].before);
  }

  lemma {:induction false} PlainStood(d: Desk, op: Operation)
    requires Consistent(d) && !GivesRow(op.command.kind) && AssessRows(d, op).Ok? && AssessRows(d, op).value.verdict.outcome.Applied?
    ensures AllStood(d, op)
  {
    assert ReadAll(d, op.changes).Some?;
    forall i | 0 <= i < |op.changes|
      ensures StoodRow(d, op, CurrentOf(d, op, i))
    {
      ReadRowStood(d, op, i);
    }
  }

  lemma {:induction false} RowsStood(d: Desk, c: Connection, op: Operation, a: Assessed)
    requires ParsedOperation(op) && Consistent(d) && Assess(d, c, op) == Ok(a) && c.eventId == d.eventId
    requires a.verdict.outcome.Applied?
    ensures AllStood(d, op)
  {
    if op.command.kind.CreateRegistration? || op.command.kind.AssignNumber? {
      NumberStood(d, op);
    } else if op.command.kind.ReturnToReserve? {
      ReturnStood(d, op);
    } else {
      PlainStood(d, op);
    }
  }

  /** A row whose number goes back to the reserve is held by somebody, so it is not blank. */
  lemma {:induction false} ReturnedRowIsHeld(current: seq<Registration>, command: Command, ch: Change)
    requires command.kind.ReturnToReserve? && Apply(current, command).Ok? && ch in Apply(current, command).value
    ensures ch.registrationId == command.registrationId ==> Held(ch.before)
    ensures ch.registrationId == command.registrationId || ch.registrationId == command.targetId
  {
    RefusedOffRoster(current, command);
    var source :| source in current && source.id == command.registrationId;
    var c := Apply(current, command).value;
    CommandExactly(current, command, source, c);
    assert Effect(current, source, command, c);
    assert ch == c[0] || ch == c[1];
  }

  lemma {:induction false} ChangeStood(d: Desk, op: Operation, changes: seq<Change>, i: nat)
    requires AllStood(d, op) && i < |changes| && GoodChange(CurrentRows(d, op), op.command.kind, changes[i])
    requires op.command.kind.ReturnToReserve? ==>
      Apply(CurrentRows(d, op), op.command).Ok? && changes == Apply(CurrentRows(d, op), op.command).value
    ensures StoodBefore(d, op, changes[i])
  {
    var current := CurrentRows(d, op);
    var k :| 0 <= k < |current| && current[k] == changes[i].before;
    assert StoodRow(d, op, CurrentOf(d, op, k));
    if op.command.kind.ReturnToReserve? {
      ReturnedRowIsHeld(current, op.command, changes[i]);
    }
  }

  lemma {:induction false} AppliedIsTold(d: Desk, c: Connection, op: Operation, a: Assessed)
    requires ParsedOperation(op) && Consistent(d) && Assess(d, c, op) == Ok(a) && c.eventId == d.eventId
    requires a.verdict.outcome.Applied? && AppliedWell(d, op, a)
    ensures TellsAll(d.rows, a.desk.rows, PublishedChanges(op, a.verdict.changes))
  {
    RowsStood(d, c, op, a);
    ReturnIsApplied(d, c, op, a);
    forall i | 0 <= i < |a.verdict.changes|
      ensures StoodBefore(d, op, a.verdict.changes[i])
    {
      ChangeStood(d, op, a.verdict.changes, i);
    }
    ToldAll(d, a.desk.rows, op, a.verdict.changes, PublishedChanges(op, a.verdict.changes), [op.operationId]);
  }

  lemma {:induction false} ReturnIsApplied(d: Desk, c: Connection, op: Operation, a: Assessed)
    requires ParsedOperation(op) && Consistent(d) && Assess(d, c, op) == Ok(a) && c.eventId == d.eventId
    requires a.verdict.outcome.Applied?
    ensures op.command.kind.ReturnToReserve? ==>
      Apply(CurrentRows(d, op), op.command).Ok? && a.verdict.changes == Apply(CurrentRows(d, op), op.command).value
  {
    if op.command.kind.ReturnToReserve? {
      ReturnRows(d, op);
      ParsedReturn(op);
      var current := CurrentRows(d, op);
      assert MergeDecision(d, current, op) == a.verdict;
      AppliedIsRerun(d, current, op);
    }
  }

  /** What one received operation adds to the log. */
  ghost predicate Announced(d: Desk, op: Operation, r: Received)
    requires r.reply.Ok?
  {
    OneMore(d.feed, r.desk.feed) &&
    var e := r.desk.feed.live[|d.feed.live|];
    NamesOperation(e, op, r.reply.value.outcome, r.reply.value.code) && e.sourceCode == "pwa.packet_issuance" &&
    TellsAll(d.rows, r.desk.rows, e.changes)
  }

  /**
   A received operation that is decided now and not in the log yet gets one entry, which tells every row it changed
   as it stood and as it is stored, and nothing else; in every other case the feed stays as it was.
   */
  lemma {:induction false} ReceivedIsTold(d: Desk, c: Connection, op: Operation)
    requires ParsedOperation(op) && Consistent(d)
    ensures var r := ReceiveOne(d, c, op);
            if r.reply.Ok? && !Decided(d, op.operationId) && Worthy(op, r.reply.value.outcome) && !InLog(d.feed, op.operationId)
            then Announced(d, op, r)
            else r.desk.feed == d.feed
  {
    ReceiveOrAdmit(d, c, op);
    var r := ReceiveOne(d, c, op);
    if r.reply.Ok? && !Decided(d, op.operationId) {
      var a := AdmitWell(d, c, op);
      if a.verdict.outcome.Applied? {
        AppliedIsTold(d, c, op, a);
      }
      AdmittedIsTold(d, op, r, a);
    }
  }

  lemma {:induction false} AdmittedIsTold(d: Desk, op: Operation, r: Received, a: Assessed)
    requires op.changes != [] && op.schemaVersion == 1 && Admitted(d, op, r, a)
    requires a.verdict.outcome.Applied? ==> TellsAll(d.rows, a.desk.rows, PublishedChanges(op, a.verdict.changes))
    ensures if Worthy(op, a.verdict.outcome) && !InLog(d.feed, op.operationId) then Announced(d, op, r) else r.desk.feed == d.feed
  {
    PersistKeepsRows(a.desk, op, a.verdict);
    assert a.desk.feed == d.feed;
    PublishByParts(d.feed, op, a.verdict.outcome, a.verdict.code, a.verdict.changes);
    if !a.verdict.outcome.Applied? {
      assert PublishedChanges(op, a.verdict.changes) == [];
    }
  }

  // Relayed site actions.

  /** A site action goes into the log as it came, unless a live row carries it already. */
  lemma {:induction false} RelayedAsItCame(f: Feed, action: FeedAction)
    requires Relay(f, action).Ok?
    ensures var g := Relay(f, action).value;
            if g == f then
              exists i :: 0 <= i < |f.live| && f.live[i].actionId == action.actionId && f.live[i].kind == action.kind &&
                f.live[i].source == Some(action.actionId)
            else
              OneMore(f, g) &&
              var e := g.live[|f.live|];
              e.actionId == action.actionId && e.kind == action.kind && e.sourceCode == action.sourceCode &&
              e.source == (if action.operation.Some? then Some(action.actionId) else None) &&
              e.outcome == action.outcome && e.code == action.code && |e.changes| == |action.changes| &&
              forall i :: 0 <= i < |e.changes| ==> ToldAlike(e.changes[i], action.changes[i])
  {
  }

  predicate ToldAlike(told: FeedChange, came: FeedChange) {
    told.registrationId == came.registrationId &&
    Side(told.before, if came.before.Some? then came.before.value else NoRegistration, came.before.Some?) &&
    Side(told.after, if came.after.Some? then came.after.value else NoRegistration, came.after.Some?)
  }

  // Changes of the Desk itself.

  /** A change of the Desk goes into the log image by image, under its own name. */
  lemma {:induction false} AnnouncedAsIs(f: Feed, actionId: string, sourceCode: string, changes: seq<Change>)
    requires Announce(f, actionId, sourceCode, changes).Ok?
    ensures actionId != ""
    ensures var g := Announce(f, actionId, sourceCode, changes).value;
            OneMore(f, g) &&
            var e := g.live[|f.live|];
            e.actionId == actionId && e.kind.ServerChange? && e.sourceCode == sourceCode && e.source.None? &&
            e.outcome.Applied? && e.code.None? && |e.changes| == |changes| &&
            forall i :: 0 <= i < |changes| ==>
              e.changes[i].registrationId == changes[i].registrationId &&
              Side(e.changes[i].before, changes[i].before, true) && Side(e.changes[i].after, changes[i].after, true)
  {
  }

  // A reader.

  /** A reader's table after a told change: the after image, or no row. */
  function TakeChange(table: map<string, Registration>, ch: FeedChange): map<string, Registration> {
    if ch.after.Some? then table[ch.registrationId := ch.after.value] else table - {ch.registrationId}
  }

  function TakeIn(table: map<string, Registration>, changes: seq<FeedChange>): map<string, Registration> {
    if changes == [] then table else TakeChange(TakeIn(table, changes[..|changes| - 1]), changes[|changes| - 1])
  }

  /** The table shows the row of this id exactly if it is live. */
  predicate ShowsRow(table: map<string, Registration>, rows: map<string, Row>, id: string) {
    (id in table <==> id in rows && !rows[id].deleted) && (id in table ==> Shows(table[id], rows[id].value))
  }

  lemma {:induction false} TakenAt(table: map<string, Registration>, rows: map<string, Row>, now: map<string, Row>, changes: seq<FeedChange>, id: string)
    requires forall i :: 0 <= i < |changes| ==> Tells(rows, now, changes[i])
    requires ShowsRow(table, rows, id)
    ensures if Told(changes, id) then ShowsRow(TakeIn(table, changes), now, id) else ShowsRow(TakeIn(table, changes), rows, id)
  {
    if changes != [] {
      var front, last := changes[..|changes| - 1], changes[|changes| - 1];
      TakenAt(table, rows, now, front, id);
      assert forall i :: 0 <= i < |front| ==> front[i] == changes[i];
      assert Tells(rows, now, last);
      assert Told(changes, id) <==> Told(front, id) || last.registrationId == id;
    }
  }

  /** A reader whose table shows the rows as they were shows them as they are once it has taken the told changes in. */
  lemma {:induction false} ReaderKeepsUp(table: map<string, Registration>, rows: map<string, Row>, now: map<string, Row>, changes: seq<FeedChange>)
    requires TellsAll(rows, now, changes) && forall id :: ShowsRow(table, rows, id)
    ensures forall id :: ShowsRow(TakeIn(table, changes), now, id)
  {
    forall id
      ensures ShowsRow(TakeIn(table, changes), now, id)
    {
      assert ShowsRow(table, rows, id);
      TakenAt(table, rows, now, changes, id);
      assert Told(changes, id) || Stands(rows, now, id);
    }
  }
}
