/**
 The Desk's own feed: a numbered log whose old end moves into an archive, written by
 publishers and relays, trimmed by retention and followed by readers holding a cursor.
 */
module FeedLog {
  import opened Wrappers
  import opened TextRules
  import opened Registrations
  import opened Transitions
  import opened Operations

  datatype Entry = Entry(
    actionId: string, sequence: int, kind: ActionKind, sourceCode: string, source: Option<string>,
    outcome: Outcome, code: Option<Code>, changes: seq<FeedChange>)

  /** The two tables in sequence order, and the row of bounds. */
  datatype Feed = Feed(live: seq<Entry>, archive: seq<Entry>, head: int, floor: int)

  datatype FeedFault =
    | RowExists | ActionIdentityConflict | InvalidServerChange | InvalidBounds | InvalidArchiveRange | ArchiveGap
    | InvalidRetentionRequest | InvalidQuery | CursorAhead | CursorExpired | SequenceGap

  const EmptyFeed: Feed := Feed([], [], 0, 1)

  predicate HasAction(rows: seq<Entry>, actionId: string) {
    exists i :: 0 <= i < |rows| && rows[i].actionId == actionId
  }

  predicate HasSource(rows: seq<Entry>, operationId: string) {
    exists i :: 0 <= i < |rows| && rows[i].source == Some(operationId)
  }

  predicate HasSequence(rows: seq<Entry>, sequence: int) {
    exists i :: 0 <= i < |rows| && rows[i].sequence == sequence
  }

  /** Insertion of a live row, refused where the table's keys would repeat. */
  function Append(f: Feed, e: Entry): Result<Feed, FeedFault> {
    var row := e.(sequence := f.head + 1);
    if HasAction(f.live, row.actionId) || HasSequence(f.live, row.sequence) ||
       (row.source.Some? && HasSource(f.live, row.source.value)) then Err(RowExists)
    else Ok(f.(live := f.live + [row], head := f.head + 1))
  }

  // Publishing.

  function Images(changes: seq<Change>): seq<FeedChange> {
    seq(|changes|, i requires 0 <= i < |changes| =>
      FeedChange(changes[i].registrationId, Some(Bare(changes[i].before)), Some(Bare(changes[i].after))))
  }

  /** Rows that an operation creates lose their virtual before image, rows a resolution removes their after image. */
  function PublishedChanges(op: Operation, changes: seq<Change>): seq<FeedChange> {
    if op.schemaVersion == 2 then
      seq(|changes|, i requires 0 <= i < |changes| =>
        FeedChange(changes[i].registrationId, Some(Bare(changes[i].before)),
                   if IsVirtual(changes[i].after) then None else Some(Bare(changes[i].after))))
    else if op.command.kind.CreateRegistration? || op.command.kind.ReturnToReserve? then
      seq(|changes|, i requires 0 <= i < |changes| =>
        FeedChange(changes[i].after.id, if IsVirtual(changes[i].before) then None else Some(Bare(changes[i].before)),
                   Some(Bare(changes[i].after))))
    else Images(changes)
  }

  predicate IsPublished(f: Feed, operationId: string) {
    HasSource(f.live, operationId) || HasSource(f.archive, operationId)
  }

  function PublishedEntry(op: Operation, outcome: Outcome, code: Option<Code>, changes: seq<Change>): Entry {
    Entry(op.operationId, 0, if op.command.kind.ChangeRace? then ServerChange else OperationAction,
          if op.schemaVersion == 2 then "admin.packet_issuance_resolution" else "pwa.packet_issuance",
          Some(op.operationId), outcome, code, PublishedChanges(op, changes))
  }

  /** Undecided and rejected operations stay out of the feed, decided ones enter it once. */
  function Publish(f: Feed, op: Operation, outcome: Outcome, code: Option<Code>, changes: seq<Change>): Result<Feed, FeedFault> {
    if outcome.Waiting? || outcome.Rejected? then Ok(f)
    else if op.command.kind.ChangeRace? && !outcome.Applied? then Ok(f)
    else if IsPublished(f, op.operationId) then Ok(f)
    else Append(f, PublishedEntry(op, outcome, code, changes))
  }

  function RelayedEntry(action: FeedAction): Entry {
    Entry(action.actionId, 0, action.kind, action.sourceCode,
          if action.operation.Some? then Some(action.actionId) else None, action.outcome, action.code,
          Stripped(action.changes))
  }

  function Stripped(changes: seq<FeedChange>): seq<FeedChange> {
    seq(|changes|, i requires 0 <= i < |changes| =>
      FeedChange(changes[i].registrationId, BareSide(changes[i].before), BareSide(changes[i].after)))
  }

  function BareSide(row: Option<Registration>): Option<Registration> {
    if row.Some? then Some(Bare(row.value)) else None
  }

  /** The live row of an action. */
  function LiveRow(rows: seq<Entry>, actionId: string): (e: Option<Entry>)
    ensures e.Some? ==> e.value in rows && e.value.actionId == actionId
    ensures e.None? <==> !HasAction(rows, actionId)
  {
    if rows == [] then None
    else if rows[0].actionId == actionId then Some(rows[0])
    else
      var rest := LiveRow(rows[1..], actionId);
      assert rest.None? ==> forall i :: 0 < i < |rows| ==> rows[i] == rows[1..][i - 1];
      rest
  }

  /** A site action enters the feed unless a live row already carries it; the archive is not consulted. */
  function Relay(f: Feed, action: FeedAction): Result<Feed, FeedFault> {
    var known := LiveRow(f.live, action.actionId);
    if known.Some? then
      if known.value.kind == action.kind && known.value.source == Some(action.actionId) then Ok(f)
      else Err(ActionIdentityConflict)
    else Append(f, RelayedEntry(action))
  }

  function Announce(f: Feed, actionId: string, sourceCode: string, changes: seq<Change>): Result<Feed, FeedFault> {
    if !Uuid(actionId) || !(1 <= |changes| <= 20000) || !(1 <= ByteLength(sourceCode) <= 64) then Err(InvalidServerChange)
    else Append(f, Entry(actionId, 0, ServerChange, sourceCode, None, Applied, None, Images(changes)))
  }

  // Archiving.

  function Between(rows: seq<Entry>, low: int, high: int): seq<Entry> {
    if rows == [] then []
    else (if low <= rows[0].sequence <= high then [rows[0]] else []) + Between(rows[1..], low, high)
  }

  function Outside(rows: seq<Entry>, low: int, high: int): seq<Entry> {
    if rows == [] then []
    else (if low <= rows[0].sequence <= high then [] else [rows[0]]) + Outside(rows[1..], low, high)
  }

  predicate BoundsHold(f: Feed) {
    1 <= f.floor <= f.head + 1
  }

  /** One row into the archive, whose keys are the action and the sequence. */
  function Store(archive: seq<Entry>, e: Entry): Result<seq<Entry>, FeedFault> {
    if HasAction(archive, e.actionId) || HasSequence(archive, e.sequence) then Err(RowExists) else Ok(archive + [e])
  }

  function StoreAll(archive: seq<Entry>, batch: seq<Entry>): Result<seq<Entry>, FeedFault> {
    if batch == [] then Ok(archive)
    else
      var rest := StoreAll(archive, batch[..|batch| - 1]);
      if rest.Err? then rest else Store(rest.value, batch[|batch| - 1])
  }

  predicate Consecutive(batch: seq<Entry>, first: int) {
    forall i :: 0 <= i < |batch| ==> batch[i].sequence == first + i
  }

  /** Moves the live rows floor..through, at most a hundred, to the archive. */
  function Archive(f: Feed, through: int, at: int): Result<Feed, FeedFault> {
    if !BoundsHold(f) then Err(InvalidBounds)
    else if through < f.floor || through > f.head || through - f.floor + 1 > 100 || at <= 0 then Err(InvalidArchiveRange)
    else
      var batch := Between(f.live, f.floor, through);
      if |batch| != through - f.floor + 1 || !Consecutive(batch, f.floor) then Err(ArchiveGap)
      else
        var archived := StoreAll(f.archive, batch);
        if archived.Err? then Err(archived.error)
        else Ok(Feed(Outside(f.live, f.floor, through), archived.value, f.head, through + 1))
  }

  datatype Retention = Retention(
    head: int, firstAvailable: int, candidate: int, processed: int, through: int, executed: bool)

  /** What a retention run will archive: nothing within `keep` of the head, and one batch at most. */
  function RetentionPlan(f: Feed, keep: int): Retention {
    var last := f.head - keep;
    if last < f.floor then Retention(f.head, f.floor, 0, 0, 0, false)
    else
      var candidate := last - f.floor + 1;
      var processed := if candidate > 100 then 100 else candidate;
      Retention(f.head, f.floor, candidate, processed, f.floor + processed - 1, false)
  }

  datatype Compaction = Compaction(feed: Feed, reply: Result<Retention, FeedFault>)

  function Compact(f: Feed, keep: int, execute: bool, now: int): Compaction {
    if !(1 <= keep <= 100000) || now <= 0 then Compaction(f, Err(InvalidRetentionRequest))
    else if !BoundsHold(f) then Compaction(f, Err(InvalidBounds))
    else
      var plan := RetentionPlan(f, keep);
      if plan.candidate == 0 || !execute then Compaction(f, Ok(plan))
      else
        var archived := Archive(f, plan.through, now);
        if archived.Err? then Compaction(f, Err(archived.error))
        else Compaction(archived.value, Ok(plan.(firstAvailable := archived.value.floor, executed := true)))
  }

  // Reading.

  datatype Page = Page(after: int, next: int, head: int, hasMore: bool, actions: seq<Entry>)

  function Later(rows: seq<Entry>, after: int, limit: nat): seq<Entry> {
    if rows == [] || limit == 0 then []
    else if rows[0].sequence > after then [rows[0]] + Later(rows[1..], after, limit - 1)
    else Later(rows[1..], after, limit)
  }

  function ReadPage(f: Feed, cursor: int, limit: int): Result<Page, FeedFault> {
    if cursor < 0 || limit < 1 || limit > 100 then Err(InvalidQuery)
    else if !BoundsHold(f) then Err(InvalidBounds)
    else if cursor > f.head then Err(CursorAhead)
    else if cursor < f.floor - 1 then Err(CursorExpired)
    else
      var rows := Later(f.live, cursor, limit);
      if !Consecutive(rows, cursor + 1) then Err(SequenceGap)
      else Ok(Page(cursor, cursor + |rows|, f.head, cursor + |rows| < f.head, rows))
  }

  // The log behind the two tables.

  function Log(f: Feed): seq<Entry> {
    f.archive + f.live
  }

  /** The archive holds exactly the entries below the floor, the live table exactly those from the floor to the head. */
  predicate WellNumbered(f: Feed) {
    Consecutive(Log(f), 1) && f.head == |Log(f)| && f.floor == |f.archive| + 1
  }

  datatype FeedStep =
    | PublishStep(op: Operation, outcome: Outcome, code: Option<Code>, published: seq<Change>)
    | RelayStep(action: FeedAction)
    | AnnounceStep(actionId: string, sourceCode: string, changes: seq<Change>)
    | ArchiveStep(through: int, at: int)
    | CompactStep(keep: int, execute: bool, now: int)

  function Kept(f: Feed, r: Result<Feed, FeedFault>): Feed {
    if r.Ok? then r.value else f
  }

  /** A refused step leaves the feed as it was. */
  function Next(f: Feed, step: FeedStep): Feed {
    match step
    case PublishStep(op, outcome, code, changes) => Kept(f, Publish(f, op, outcome, code, changes))
    case RelayStep(action) => Kept(f, Relay(f, action))
    case AnnounceStep(actionId, sourceCode, changes) => Kept(f, Announce(f, actionId, sourceCode, changes))
    case ArchiveStep(through, at) => Kept(f, Archive(f, through, at))
    case CompactStep(keep, execute, now) => Compact(f, keep, execute, now).feed
  }

  lemma {:induction false} AppendExtends(f: Feed, e: Entry)
    requires WellNumbered(f) && Append(f, e).Ok?
    ensures WellNumbered(Append(f, e).value)
    ensures Log(Append(f, e).value) == Log(f) + [e.(sequence := f.head + 1)]
  {
    assert Log(Append(f, e).value) == Log(f) + [e.(sequence := f.head + 1)];
  }

  lemma {:induction false} SplitRun(rows: seq<Entry>, first: int, n: nat)
    requires Consecutive(rows, first) && n <= |rows|
    ensures Between(rows, first, first + n - 1) == rows[..n]
    ensures Outside(rows, first, first + n - 1) == rows[n..]
  {
    SplitRunFrom(rows, first, first, n);
  }

  lemma {:induction false} TailIsConsecutive(rows: seq<Entry>, first: int)
    requires Consecutive(rows, first) && rows != []
    ensures Consecutive(rows[1..], first + 1) && forall e :: e in rows[1..] ==> e.sequence > first
  {
    assert forall i :: 0 <= i < |rows| - 1 ==> rows[1..][i] == rows[i + 1];
  }

  lemma {:induction false} SplitRunFrom(rows: seq<Entry>, low: int, first: int, n: nat)
    requires Consecutive(rows, first) && n <= |rows| && low <= first
    ensures Between(rows, low, first + n - 1) == rows[..n]
    ensures Outside(rows, low, first + n - 1) == rows[n..]
  {
    if rows != [] {
      TailIsConsecutive(rows, first);
      if n > 0 {
        SplitRunFrom(rows[1..], low, first + 1, n - 1);
        assert rows[..n] == [rows[0]] + rows[1..][..n - 1];
      } else {
        PastTheRange(rows[1..], low, first - 1);
      }
    }
  }

  lemma {:induction false} PastTheRange(rows: seq<Entry>, low: int, high: int)
    requires forall e :: e in rows ==> e.sequence > high
    ensures Between(rows, low, high) == [] && Outside(rows, low, high) == rows
  {
    if rows != [] {
      PastTheRange(rows[1..], low, high);
    }
  }

  lemma {:induction false} StoreAllAppends(archive: seq<Entry>, batch: seq<Entry>)
    requires StoreAll(archive, batch).Ok?
    ensures StoreAll(archive, batch).value == archive + batch
  {
    if batch != [] {
      StoreAllAppends(archive, batch[..|batch| - 1]);
      assert batch == batch[..|batch| - 1] + [batch[|batch| - 1]];
    }
  }

  /** Archiving moves the boundary inside the log and nothing else. */
  lemma {:induction false} ArchiveMovesTheFloor(f: Feed, through: int, at: int)
    requires WellNumbered(f) && Archive(f, through, at).Ok?
    ensures var g := Archive(f, through, at).value;
            WellNumbered(g) && Log(g) == Log(f) && g.floor == through + 1 && g.head == f.head &&
            g.archive == Log(f)[..through] && g.live == Log(f)[through..]
  {
    var n := through - f.floor + 1;
    LiveRowsAreNumbered(f);
    SplitRun(f.live, f.floor, n);
    StoreAllAppends(f.archive, f.live[..n]);
    var g := Archive(f, through, at).value;
    assert g.live == f.live[n..] && g.archive == f.archive + f.live[..n];
    assert f.live == f.live[..n] + f.live[n..];
    assert Log(g) == Log(f);
  }

  /** Every step keeps the numbering, and only ever adds to the end of the log. */
  lemma {:induction false} StepExtendsTheLog(f: Feed, step: FeedStep)
    requires WellNumbered(f)
    ensures WellNumbered(Next(f, step))
    ensures Log(f) <= Log(Next(f, step)) && |Log(Next(f, step))| <= |Log(f)| + 1
    ensures f.floor <= Next(f, step).floor
  {
    match step
    case PublishStep(op, outcome, code, changes) =>
      if Append(f, PublishedEntry(op, outcome, code, changes)).Ok? {
        AppendExtends(f, PublishedEntry(op, outcome, code, changes));
      }
    case RelayStep(action) =>
      if Append(f, RelayedEntry(action)).Ok? {
        AppendExtends(f, RelayedEntry(action));
      }
    case AnnounceStep(actionId, sourceCode, changes) =>
      var e := Entry(actionId, 0, ServerChange, sourceCode, None, Applied, None, Images(changes));
      if Append(f, e).Ok? {
        AppendExtends(f, e);
      }
    case ArchiveStep(through, at) =>
      if Archive(f, through, at).Ok? {
        ArchiveMovesTheFloor(f, through, at);
      }
    case CompactStep(keep, execute, now) =>
      var through := RetentionPlan(f, keep).through;
      if Archive(f, through, now).Ok? {
        ArchiveMovesTheFloor(f, through, now);
      }
  }

  function Run(f: Feed, steps: seq<FeedStep>): Feed {
    if steps == [] then f else Next(Run(f, steps[..|steps| - 1]), steps[|steps| - 1])
  }

  lemma {:induction false} RunExtendsTheLog(f: Feed, steps: seq<FeedStep>)
    requires WellNumbered(f)
    ensures WellNumbered(Run(f, steps)) && Log(f) <= Log(Run(f, steps)) && f.floor <= Run(f, steps).floor
  {
    if steps != [] {
      RunExtendsTheLog(f, steps[..|steps| - 1]);
      StepExtendsTheLog(Run(f, steps[..|steps| - 1]), steps[|steps| - 1]);
    }
  }

  // Readers.

  function Min(a: int, b: int): int {
    if a <= b then a else b
  }

  lemma {:induction false} SkipsTheRead(rows: seq<Entry>, first: int, after: int, limit: nat)
    requires Consecutive(rows, first) && first - 1 <= after <= first + |rows| - 1
    ensures Later(rows, after, limit) == Later(rows[after - first + 1..], after, limit)
  {
    if after >= first {
      assert forall i :: 0 <= i < |rows| - 1 ==> rows[1..][i] == rows[i + 1];
      SkipsTheRead(rows[1..], first + 1, after, limit);
      assert rows[1..][after - first..] == rows[after - first + 1..];
    } else {
      assert rows[0..] == rows;
    }
  }

  lemma {:induction false} TakesTheRest(rows: seq<Entry>, first: int, after: int, limit: nat)
    requires Consecutive(rows, first) && after < first
    ensures Later(rows, after, limit) == rows[..Min(limit, |rows|)]
  {
    if rows != [] && limit > 0 {
      var n := Min(limit, |rows|);
      assert forall i :: 0 <= i < |rows| - 1 ==> rows[1..][i] == rows[i + 1];
      TakesTheRest(rows[1..], first + 1, after, limit - 1);
      assert rows[..n] == [rows[0]] + rows[1..][..n - 1];
    }
  }

  lemma {:induction false} LiveRowsAreNumbered(f: Feed)
    requires WellNumbered(f)
    ensures Consecutive(f.live, f.floor) && Consecutive(f.archive, 1)
    ensures |f.live| == f.head - f.floor + 1
  {
    forall i | 0 <= i < |f.live| ensures f.live[i].sequence == f.floor + i {
      assert f.live[i] == Log(f)[|f.archive| + i];
    }
    forall i | 0 <= i < |f.archive| ensures f.archive[i].sequence == 1 + i {
      assert f.archive[i] == Log(f)[i];
    }
  }

  /** A reader is refused exactly when rows after its cursor are archived; otherwise it gets the next stretch of the log. */
  lemma {:induction false} PageIsASlice(f: Feed, cursor: int, limit: int)
    requires WellNumbered(f) && 0 <= cursor <= f.head && 1 <= limit <= 100
    ensures var next := Min(cursor + limit, f.head);
            ReadPage(f, cursor, limit) ==
            if cursor < f.floor - 1 then Err(CursorExpired)
            else Ok(Page(cursor, next, f.head, next < f.head, Log(f)[cursor..next]))
  {
    if cursor >= f.floor - 1 {
      RowsOfThePage(f, cursor, limit);
    }
  }

  lemma {:induction false} RowsOfThePage(f: Feed, cursor: int, limit: int)
    requires WellNumbered(f) && f.floor - 1 <= cursor <= f.head && 1 <= limit <= 100
    ensures Later(f.live, cursor, limit) == Log(f)[cursor..Min(cursor + limit, f.head)]
    ensures Consecutive(Log(f)[cursor..Min(cursor + limit, f.head)], cursor + 1)
  {
    var n := cursor - f.floor + 1;
    LiveRowsAreNumbered(f);
    SkipsTheRead(f.live, f.floor, cursor, limit);
    TakesTheRest(f.live[n..], cursor + 1, cursor, limit);
    SliceOfLive(f, cursor, Min(cursor + limit, f.head));
  }

  lemma {:induction false} SliceOfLive(f: Feed, low: int, high: int)
    requires WellNumbered(f) && f.floor - 1 <= low <= high <= f.head
    ensures f.live[low - f.floor + 1..][..high - low] == Log(f)[low..high]
  {
    assert Log(f)[low..high] == f.live[low - f.floor + 1..high - f.floor + 1];
  }

  /** A feed, and a reader that follows the cursors it is given. */
  datatype Session = Session(feed: Feed, cursor: int, received: seq<Entry>)

  datatype Turn = WriteTurn(step: FeedStep) | ReadTurn(limit: int)

  function Take(s: Session, turn: Turn): Session {
    match turn
    case WriteTurn(step) => s.(feed := Next(s.feed, step))
    case ReadTurn(limit) =>
      var page := ReadPage(s.feed, s.cursor, limit);
      if page.Err? then s else s.(cursor := page.value.next, received := s.received + page.value.actions)
  }

  function Play(s: Session, turns: seq<Turn>): Session {
    if turns == [] then s else Take(Play(s, turns[..|turns| - 1]), turns[|turns| - 1])
  }

  predicate Following(s: Session, start: int) {
    WellNumbered(s.feed) && 0 <= start <= s.cursor <= s.feed.head && s.received == Log(s.feed)[start..s.cursor]
  }

  lemma {:induction false} TurnKeepsFollowing(s: Session, turn: Turn, start: int)
    requires Following(s, start)
    ensures Following(Take(s, turn), start)
  {
    match turn
    case WriteTurn(step) =>
      StepExtendsTheLog(s.feed, step);
      var g := Next(s.feed, step);
      assert Log(g)[..s.feed.head] == Log(s.feed);
      assert Log(g)[start..s.cursor] == Log(s.feed)[start..s.cursor];
    case ReadTurn(limit) =>
      if 1 <= limit <= 100 {
        PageIsASlice(s.feed, s.cursor, limit);
      }
  }

  /**
   However writers, retention and reads interleave, a reader that started at `start` has received exactly the
   entries start+1..cursor, each once and in order; a page that reports nothing more leaves it at the head.
   */
  lemma {:induction false} ReaderMissesNothing(f: Feed, start: int, turns: seq<Turn>)
    requires WellNumbered(f) && 0 <= start <= f.head
    ensures Following(Play(Session(f, start, []), turns), start)
  {
    if turns == [] {
      assert Log(f)[start..start] == [];
    } else {
      ReaderMissesNothing(f, start, turns[..|turns| - 1]);
      TurnKeepsFollowing(Play(Session(f, start, []), turns[..|turns| - 1]), turns[|turns| - 1], start);
    }
  }

  // Retention.

  /** A live table has one row per action and per source operation. */
  predicate DistinctLive(f: Feed) {
    forall i, j :: 0 <= i < j < |f.live| ==>
      f.live[i].actionId != f.live[j].actionId && (f.live[i].source.Some? ==> f.live[i].source != f.live[j].source)
  }

  lemma {:induction false} AppendKeepsDistinct(f: Feed, e: Entry)
    requires DistinctLive(f) && Append(f, e).Ok?
    ensures DistinctLive(Append(f, e).value)
  {
  }

  lemma {:induction false} StepKeepsDistinct(f: Feed, step: FeedStep)
    requires WellNumbered(f) && DistinctLive(f)
    ensures DistinctLive(Next(f, step))
  {
    if step.ArchiveStep? && Archive(f, step.through, step.at).Ok? {
      LaterRowsStayDistinct(f, step.through, step.at);
    } else if step.CompactStep? && Archive(f, RetentionPlan(f, step.keep).through, step.now).Ok? {
      LaterRowsStayDistinct(f, RetentionPlan(f, step.keep).through, step.now);
    }
  }

  lemma {:induction false} LaterRowsStayDistinct(f: Feed, through: int, at: int)
    requires WellNumbered(f) && DistinctLive(f) && Archive(f, through, at).Ok?
    ensures DistinctLive(Archive(f, through, at).value)
  {
    ArchiveMovesTheFloor(f, through, at);
    var n := through - f.floor + 1;
    assert Log(f)[through..] == f.live[n..];
  }

  predicate ArchiveRange(f: Feed, through: int) {
    f.floor <= through <= f.head && through - f.floor + 1 <= 100
  }

  lemma {:induction false} StoreAllSucceeds(archive: seq<Entry>, batch: seq<Entry>, first: int)
    requires Consecutive(batch, first) && forall e :: e in archive ==> e.sequence < first
    requires forall i, j :: 0 <= i < j < |batch| ==> batch[i].actionId != batch[j].actionId
    ensures StoreAll(archive, batch).Ok? <==> forall e :: e in batch ==> !HasAction(archive, e.actionId)
  {
    if batch != [] {
      var front, last := batch[..|batch| - 1], batch[|batch| - 1];
      StoreAllSucceeds(archive, front, first);
      assert forall e :: e in batch <==> e in front || e == last;
      if StoreAll(archive, front).Ok? {
        StoreAllAppends(archive, front);
        assert HasAction(archive + front, last.actionId) <==> HasAction(archive, last.actionId) by {
          assert forall i :: 0 <= i < |front| ==> front[i] == batch[i];
          assert forall i :: |archive| <= i < |archive + front| ==> (archive + front)[i] == front[i - |archive|];
          if HasAction(archive, last.actionId) {
            var k :| 0 <= k < |archive| && archive[k].actionId == last.actionId;
            assert (archive + front)[k] == archive[k];
          }
        }
        assert !HasSequence(archive + front, last.sequence);
      }
    }
  }

  /** A proper batch can be archived exactly when none of its actions is in the archive already. */
  lemma {:induction false} ArchiveSucceedsExactly(f: Feed, through: int, at: int)
    requires WellNumbered(f) && DistinctLive(f) && ArchiveRange(f, through) && at > 0
    ensures Archive(f, through, at).Ok? <==>
            forall e :: e in f.live && e.sequence <= through ==> !HasAction(f.archive, e.actionId)
  {
    BatchFits(f, through);
    StoreAllSucceeds(f.archive, Between(f.live, f.floor, through), f.floor);
  }

  lemma {:induction false} BatchFits(f: Feed, through: int)
    requires WellNumbered(f) && DistinctLive(f) && ArchiveRange(f, through)
    ensures var batch := Between(f.live, f.floor, through);
            |batch| == through - f.floor + 1 && Consecutive(batch, f.floor) &&
            (forall e :: e in batch <==> e in f.live && e.sequence <= through) &&
            (forall i, j :: 0 <= i < j < |batch| ==> batch[i].actionId != batch[j].actionId)
    ensures forall e :: e in f.archive ==> e.sequence < f.floor
  {
    var n := through - f.floor + 1;
    LiveRowsAreNumbered(f);
    SplitRun(f.live, f.floor, n);
    FirstRows(f.live, f.floor, n);
  }

  lemma {:induction false} FirstRows(rows: seq<Entry>, first: int, n: nat)
    requires Consecutive(rows, first) && n <= |rows|
    ensures Consecutive(rows[..n], first)
    ensures forall e :: e in rows[..n] <==> e in rows && e.sequence < first + n
  {
    forall e ensures e in rows[..n] <==> e in rows && e.sequence < first + n {
      if e in rows && e.sequence < first + n {
        var i :| 0 <= i < |rows| && rows[i] == e;
        assert rows[..n][i] == e;
      }
    }
  }

  /** Retention that runs leaves at least `keep` live rows, and moves between one and a hundred. */
  lemma {:induction false} CompactionLeavesEnough(f: Feed, keep: int, execute: bool, now: int)
    requires WellNumbered(f)
    ensures var c := Compact(f, keep, execute, now);
            c.reply.Ok? && c.reply.value.executed ==>
              |c.feed.live| >= keep && Log(c.feed) == Log(f) && 1 <= c.reply.value.processed <= 100 &&
              c.feed.floor == f.floor + c.reply.value.processed && c.reply.value.firstAvailable == c.feed.floor
    ensures var c := Compact(f, keep, execute, now);
            !(c.reply.Ok? && c.reply.value.executed) ==> c.feed == f
    ensures execute && 1 <= keep <= 100000 && now > 0 && f.head - keep >= f.floor && DistinctLive(f) ==>
              (Compact(f, keep, execute, now).reply.Ok? <==>
               forall e :: e in f.live && e.sequence <= RetentionPlan(f, keep).through ==> !HasAction(f.archive, e.actionId))
  {
    var plan := RetentionPlan(f, keep);
    if Archive(f, plan.through, now).Ok? {
      ArchiveMovesTheFloor(f, plan.through, now);
    }
    if execute && 1 <= keep <= 100000 && now > 0 && f.head - keep >= f.floor && DistinctLive(f) {
      ArchiveSucceedsExactly(f, plan.through, now);
    }
  }

  // At most one entry per operation.

  /** No operation is the source of two entries, archived or live. */
  predicate Once(f: Feed) {
    forall i, j :: 0 <= i < j < |Log(f)| ==> Log(f)[i].source.Some? ==> Log(f)[i].source != Log(f)[j].source
  }

  lemma {:induction false} SourcesOfTheLog(f: Feed, id: string)
    ensures IsPublished(f, id) <==> exists i :: 0 <= i < |Log(f)| && Log(f)[i].source == Some(id)
  {
    if HasSource(f.archive, id) {
      var i :| 0 <= i < |f.archive| && f.archive[i].source == Some(id);
      assert Log(f)[i] == f.archive[i];
    }
    if HasSource(f.live, id) {
      var i :| 0 <= i < |f.live| && f.live[i].source == Some(id);
      assert Log(f)[|f.archive| + i] == f.live[i];
    }
  }

  lemma {:induction false} AppendKeepsOnceExactly(f: Feed, e: Entry)
    requires WellNumbered(f) && Once(f) && Append(f, e).Ok?
    ensures Once(Append(f, e).value) <==> (e.source.Some? ==> !HasSource(f.archive, e.source.value))
  {
    AppendExtends(f, e);
    var g := Append(f, e).value;
    assert Log(g)[|Log(g)| - 1].source == e.source;
    if e.source.Some? {
      SourcesOfTheLog(f, e.source.value);
      if IsPublished(f, e.source.value) {
        var i :| 0 <= i < |Log(f)| && Log(f)[i].source == e.source;
        assert Log(g)[i] == Log(f)[i];
      }
    }
    if e.source.Some? ==> !IsPublished(f, e.source.value) {
      forall i, j | 0 <= i < j < |Log(g)| && Log(g)[i].source.Some? ensures Log(g)[i].source != Log(g)[j].source {
        assert Log(g)[i] == Log(f)[i];
        if j < |Log(f)| { assert Log(g)[j] == Log(f)[j]; }
      }
    }
  }

  /** Publishing looks in the archive too, so it never repeats an operation; announcements and retention add none. */
  lemma {:induction false} OthersKeepOnce(f: Feed, step: FeedStep)
    requires WellNumbered(f) && Once(f) && !step.RelayStep?
    ensures Once(Next(f, step))
  {
    match step
    case PublishStep(op, outcome, code, changes) =>
      var e := PublishedEntry(op, outcome, code, changes);
      if Append(f, e).Ok? {
        AppendKeepsOnceExactly(f, e);
      }
    case AnnounceStep(actionId, sourceCode, changes) =>
      var e := Entry(actionId, 0, ServerChange, sourceCode, None, Applied, None, Images(changes));
      if Append(f, e).Ok? {
        AppendKeepsOnceExactly(f, e);
      }
    case ArchiveStep(through, at) =>
      if Archive(f, through, at).Ok? {
        ArchiveMovesTheFloor(f, through, at);
      }
    case CompactStep(keep, execute, now) =>
      if Archive(f, RetentionPlan(f, keep).through, now).Ok? {
        ArchiveMovesTheFloor(f, RetentionPlan(f, keep).through, now);
      }
  }

  /** A relay repeats an operation exactly when its entry has been archived and is no longer live. */
  lemma {:induction false} RelayKeepsOnceExactly(f: Feed, action: FeedAction)
    requires WellNumbered(f) && Once(f) && Relay(f, action).Ok?
    ensures Once(Relay(f, action).value) <==>
            !(action.operation.Some? && !HasAction(f.live, action.actionId) && HasSource(f.archive, action.actionId))
  {
    if !HasAction(f.live, action.actionId) {
      AppendKeepsOnceExactly(f, RelayedEntry(action));
    }
  }

  /** From a feed without repetitions, any run that relays no operation keeps it so. */
  lemma {:induction false} RunKeepsOnce(f: Feed, steps: seq<FeedStep>)
    requires WellNumbered(f) && Once(f)
    requires forall s :: s in steps ==> !s.RelayStep? || s.action.operation.None?
    ensures Once(Run(f, steps))
  {
    if steps != [] {
      var before, last := Run(f, steps[..|steps| - 1]), steps[|steps| - 1];
      RunKeepsOnce(f, steps[..|steps| - 1]);
      RunExtendsTheLog(f, steps[..|steps| - 1]);
      if last.RelayStep? {
        if Relay(before, last.action).Ok? { RelayKeepsOnceExactly(before, last.action); }
      } else {
        OthersKeepOnce(before, last);
      }
    }
  }

  /** The live row with this sequence repeats an archived action. */
  predicate Stuck(f: Feed, k: int) {
    WellNumbered(f) && f.floor <= k <= f.head && HasAction(f.archive, Log(f)[k - 1].actionId)
  }

  lemma {:induction false} RefusedBatch(archive: seq<Entry>, batch: seq<Entry>, e: Entry)
    requires e in batch && HasAction(archive, e.actionId)
    ensures StoreAll(archive, batch).Err?
  {
    var front, last := batch[..|batch| - 1], batch[|batch| - 1];
    if e == last && StoreAll(archive, front).Ok? {
      StoreAllAppends(archive, front);
      var k :| 0 <= k < |archive| && archive[k].actionId == e.actionId;
      assert (archive + front)[k] == archive[k];
    } else if e != last {
      assert e in front;
      RefusedBatch(archive, front, e);
    }
  }

  lemma {:induction false} ArchiveStopsAtRepeat(f: Feed, through: int, at: int, k: int)
    requires Stuck(f, k) && through >= k
    ensures Archive(f, through, at).Err?
  {
    if ArchiveRange(f, through) {
      var n := through - f.floor + 1;
      LiveRowsAreNumbered(f);
      SplitRun(f.live, f.floor, n);
      assert f.live[..n][k - f.floor] == Log(f)[k - 1];
      RefusedBatch(f.archive, f.live[..n], Log(f)[k - 1]);
    }
  }

  lemma {:induction false} StepStaysStuck(f: Feed, step: FeedStep, k: int)
    requires Stuck(f, k)
    ensures Stuck(Next(f, step), k)
  {
    StepExtendsTheLog(f, step);
    var g := Next(f, step);
    assert Log(g)[k - 1] == Log(f)[k - 1];
    if step.ArchiveStep? && step.through >= k {
      ArchiveStopsAtRepeat(f, step.through, step.at, k);
    } else if step.CompactStep? && RetentionPlan(f, step.keep).through >= k {
      ArchiveStopsAtRepeat(f, RetentionPlan(f, step.keep).through, step.now, k);
    }
    var i :| 0 <= i < |f.archive| && f.archive[i].actionId == Log(f)[k - 1].actionId;
    assert |f.archive| <= |g.archive| && g.archive[i] == Log(g)[i] == Log(f)[i] == f.archive[i];
    assert g.floor <= k by {
      if step.ArchiveStep? && Archive(f, step.through, step.at).Ok? {
        ArchiveMovesTheFloor(f, step.through, step.at);
      } else if step.CompactStep? && Archive(f, RetentionPlan(f, step.keep).through, step.now).Ok? {
        ArchiveMovesTheFloor(f, RetentionPlan(f, step.keep).through, step.now);
      }
    }
  }

  /** Once an archived action has been relayed again, no later run of any steps archives its second row. */
  lemma {:induction false} RepeatBlocksRetention(f: Feed, action: FeedAction, steps: seq<FeedStep>)
    requires WellNumbered(f) && !HasAction(f.live, action.actionId) && HasAction(f.archive, action.actionId)
    requires Relay(f, action).Ok?
    ensures Run(Relay(f, action).value, steps).floor <= f.head + 1
  {
    var g := Relay(f, action).value;
    AppendExtends(f, RelayedEntry(action));
    assert Stuck(g, g.head);
    StaysStuck(g, steps, g.head);
  }

  lemma {:induction false} StaysStuck(f: Feed, steps: seq<FeedStep>, k: int)
    requires Stuck(f, k)
    ensures Stuck(Run(f, steps), k)
  {
    if steps != [] {
      StaysStuck(f, steps[..|steps| - 1], k);
      StepStaysStuck(Run(f, steps[..|steps| - 1]), steps[|steps| - 1], k);
    }
  }

  // One such feed.

  function Taken(): FeedAction {
    FeedAction("taken", OperationAction, 1, "site", Applied, None, None, [])
  }

  /** An action of the site was relayed, archived, and comes with a page once more. */
  function Emptied(): Feed {
    Feed([], [RelayedEntry(Taken()).(sequence := 1)], 1, 2)
  }

  /** From there on the action stands in the log twice, and no retention passes its second row. */
  lemma {:induction false} RelayedTwice(steps: seq<FeedStep>)
    ensures WellNumbered(Emptied()) && Relay(Emptied(), Taken()).Ok?
    ensures var f := Relay(Emptied(), Taken()).value;
            |Log(f)| == 2 && Log(f)[0].actionId == Log(f)[1].actionId && Run(f, steps).floor <= 2
  {
    assert Emptied().archive[0].actionId == Taken().actionId;
    RepeatBlocksRetention(Emptied(), Taken(), steps);
  }
}
