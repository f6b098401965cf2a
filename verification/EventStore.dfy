/** The store of one event: tables updated in place, one method per query or write. */
module EventStore {
  import opened Wrappers
  import opened TextRules
  import opened Registrations
  import opened Transitions
  import opened Operations
  import opened FeedLog
  import opened Tables

  /** A write either does what its specification says and succeeds, or reports the specified failure. */
  predicate Follows(spec: Result<Desk, Failure>, done: Result<(), Failure>, now: Desk) {
    match spec
    case Ok(d) => done == Ok(()) && now == d
    case Err(f) => done == Err(f)
  }

  /** The same for writes to the feed, which leave every other table alone. */
  predicate FollowsFeed(spec: Result<Feed, FeedFault>, done: Result<(), Failure>, before: Desk, now: Desk) {
    match spec
    case Ok(f) => done == Ok(()) && now == before.(feed := f)
    case Err(f) => done == Err(FeedFailure(f))
  }

  class Store {
    const eventId: string
    var events: set<string>
    var races: set<string>
    var scope: Scope
    var rows: map<string, Row>
    var members: map<string, Member>
    var loggedNumbers: set<int>
    var loggedEpcs: set<string>
    var operations: map<string, OperationRecord>
    var live: seq<Entry>
    var archive: seq<Entry>
    var lastSequence: int
    var firstAvailable: int
    var siteActions: map<string, SiteAction>
    var siteRows: map<string, SiteRow>
    var resolutions: map<string, Resolution>
    var rebases: int

    function View(): Desk
      reads this
    {
      Desk(eventId, events, races, scope, rows, members, loggedNumbers, loggedEpcs, operations,
           Feed(live, archive, lastSequence, firstAvailable), siteActions, siteRows, resolutions, rebases)
    }

    constructor (d: Desk)
      ensures View() == d
    {
      eventId := d.eventId;
      events, races, scope := d.events, d.races, d.scope;
      rows, members, loggedNumbers, loggedEpcs := d.rows, d.members, d.loggedNumbers, d.loggedEpcs;
      operations := d.operations;
      live, archive, lastSequence, firstAvailable := d.feed.live, d.feed.archive, d.feed.head, d.feed.floor;
      siteActions, siteRows, resolutions, rebases := d.siteActions, d.siteRows, d.resolutions, d.rebases;
    }

    /** A transaction that fails puts back every table as it was when it began. */
    method Rollback(d: Desk)
      requires d.eventId == eventId
      modifies this
      ensures View() == d
    {
      RestoreFeed(d.feed);
      RestoreRoster(d);
      RestoreJournal(d);
    }

    method RestoreFeed(f: Feed)
      modifies this`live, this`archive, this`lastSequence, this`firstAvailable
      ensures View().feed == f
    {
      live, archive, lastSequence, firstAvailable := f.live, f.archive, f.head, f.floor;
    }

    method RestoreRoster(d: Desk)
      modifies this`events, this`races, this`scope, this`rows, this`members, this`loggedNumbers, this`loggedEpcs
      ensures events == d.events && races == d.races && scope == d.scope && rows == d.rows && members == d.members &&
              loggedNumbers == d.loggedNumbers && loggedEpcs == d.loggedEpcs
    {
      events, races, scope := d.events, d.races, d.scope;
      rows, members, loggedNumbers, loggedEpcs := d.rows, d.members, d.loggedNumbers, d.loggedEpcs;
    }

    method RestoreJournal(d: Desk)
      modifies this`operations, this`siteActions, this`siteRows, this`resolutions, this`rebases
      ensures operations == d.operations && siteActions == d.siteActions && siteRows == d.siteRows &&
              resolutions == d.resolutions && rebases == d.rebases
    {
      operations := d.operations;
      siteActions, siteRows, resolutions, rebases := d.siteActions, d.siteRows, d.resolutions, d.rebases;
    }

    // Registrations.

    method GetPacketRegistrations(ids: seq<string>) returns (found: Option<seq<Registration>>)
      ensures found.Some? <==> forall i :: 0 <= i < |ids| ==> ReadRow(View(), ids[i]).Some?
      ensures found.Some? ==> |found.value| == |ids|
      ensures found.Some? ==> forall i :: 0 <= i < |ids| ==> found.value[i] == ReadRow(View(), ids[i]).value
    {
      var out: seq<Registration> := [];
      for i := 0 to |ids|
        invariant |out| == i
        invariant forall j :: 0 <= j < i ==> ReadRow(View(), ids[j]) == Some(out[j])
      {
        var row := ReadRow(View(), ids[i]);
        if row.None? {
          return None;
        }
        out := out + [row.value];
      }
      return Some(out);
    }

    method PutPacketRegistration(row: Registration, heads: seq<string>) returns (done: Result<(), Failure>)
      modifies this`rows, this`members
      ensures Follows(PutRow(old(View()), row, heads), done, View())
      ensures done.Err? ==> members == old(members)
      ensures rows == if row.id in old(rows) then old(rows)[row.id := Row(row, heads, false)] else old(rows)
    {
      if row.id in rows {
        rows := rows[row.id := Row(row, heads, false)];
      }
      if row.id !in members || row.raceId !in races {
        return Err(StorageFailure);
      }
      members := members[row.id := Mirror(members[row.id], row)];
      return Ok(());
    }

    method InsertPacketRegistration(row: Registration, heads: seq<string>) returns (done: Result<(), Failure>)
      modifies this`rows, this`members
      ensures Follows(InsertRow(old(View()), row, heads), done, View())
    {
      if row.raceId !in races {
        return Err(StorageFailure);
      }
      var recorded := row.id in members && members[row.id].recorded;
      members := members[row.id := Member(BibNumber(row.bib), row.epc, false, recorded)];
      if row.id in rows {
        return Err(StorageFailure);
      }
      rows := rows[row.id := Row(row, heads, false)];
      return Ok(());
    }

    method DeletePacketRegistration(id: string, heads: seq<string>) returns (done: Result<(), Failure>)
      modifies this`rows
      ensures Follows(DropRow(old(View()), id, heads), done, View())
    {
      if id !in rows {
        return Err(StorageFailure);
      }
      rows := rows[id := rows[id].(heads := heads, deleted := true)];
      return Ok(());
    }

    // Operations.

    method PacketDependenciesApplied(ids: seq<string>) returns (all: bool)
      ensures all <==> forall id :: id in ids ==> Accepted(View(), id)
    {
      for i := 0 to |ids|
        invariant forall j :: 0 <= j < i ==> Accepted(View(), ids[j])
      {
        if !Accepted(View(), ids[i]) {
          return false;
        }
      }
      return true;
    }

    /** A known operation only gets its new outcome; a new one needs its event to exist. */
    method SavePacketOperation(op: Operation, outcome: Outcome, code: Option<Code>, known: bool) returns (done: Result<(), Failure>)
      requires op.changes != [] && known == (op.operationId in operations)
      modifies this`operations
      ensures done.Ok? <==> known || EventOf(op) in events
      ensures done.Err? ==> done == Err(StorageFailure)
      ensures done.Ok? ==> operations == old(operations)[op.operationId :=
        if known then old(operations)[op.operationId].(outcome := outcome, code := code)
        else OperationRecord(op, EventOf(op), outcome, code)]
    {
      if known {
        operations := operations[op.operationId := operations[op.operationId].(outcome := outcome, code := code)];
      } else if EventOf(op) in events {
        operations := operations[op.operationId := OperationRecord(op, EventOf(op), outcome, code)];
      } else {
        return Err(StorageFailure);
      }
      return Ok(());
    }

    // The feed.

    method AppendFeedRow(e: Entry) returns (done: Result<(), Failure>)
      modifies this`live, this`lastSequence
      ensures FollowsFeed(Append(old(View()).feed, e), done, old(View()), View())
    {
      var row := e.(sequence := lastSequence + 1);
      if HasAction(live, row.actionId) || HasSequence(live, row.sequence) ||
         (row.source.Some? && HasSource(live, row.source.value)) {
        return Err(FeedFailure(RowExists));
      }
      live := live + [row];
      lastSequence := lastSequence + 1;
      return Ok(());
    }

    method PublishPacketOperation(op: Operation, outcome: Outcome, code: Option<Code>, changes: seq<Change>) returns (done: Result<(), Failure>)
      modifies this`live, this`lastSequence
      ensures FollowsFeed(Publish(old(View()).feed, op, outcome, code, changes), done, old(View()), View())
      ensures done.Ok? && live != old(live) ==>
        |live| == |old(live)| + 1 && live[..|old(live)|] == old(live) &&
        var e := live[|old(live)|];
        e.actionId == op.operationId && e.source == Some(op.operationId) && e.sequence == lastSequence == old(lastSequence) + 1 &&
        e.outcome == outcome && e.code == code && |e.changes| == |changes| &&
        forall i :: 0 <= i < |changes| ==>
          (e.changes[i].before.Some? ==> e.changes[i].before.value == changes[i].before.(hasTimingEvidence := false)) &&
          (e.changes[i].after.Some? ==> e.changes[i].after.value == changes[i].after.(hasTimingEvidence := false)) &&
          (e.changes[i].before.None? <==>
            op.schemaVersion != 2 && (op.command.kind.CreateRegistration? || op.command.kind.ReturnToReserve?) &&
            IsVirtual(changes[i].before)) &&
          (e.changes[i].after.None? <==> op.schemaVersion == 2 && IsVirtual(changes[i].after))
    {
      if outcome.Waiting? || outcome.Rejected? {
        return Ok(());
      }
      if op.command.kind.ChangeRace? && !outcome.Applied? {
        return Ok(());
      }
      if HasSource(live, op.operationId) || HasSource(archive, op.operationId) {
        return Ok(());
      }
      done := AppendFeedRow(PublishedEntry(op, outcome, code, changes));
    }

    method RelayPacketSiteAction(action: FeedAction) returns (done: Result<(), Failure>)
      modifies this`live, this`lastSequence
      ensures FollowsFeed(Relay(old(View()).feed, action), done, old(View()), View())
      ensures done.Ok? && live != old(live) ==>
        |live| == |old(live)| + 1 && live[..|old(live)|] == old(live) &&
        var e := live[|old(live)|];
        e.actionId == action.actionId && e.kind == action.kind && e.outcome == action.outcome && e.code == action.code &&
        |e.changes| == |action.changes| &&
        forall i :: 0 <= i < |e.changes| ==>
          e.changes[i].registrationId == action.changes[i].registrationId &&
          e.changes[i].before == (if action.changes[i].before.None? then None
                                  else Some(action.changes[i].before.value.(hasTimingEvidence := false))) &&
          e.changes[i].after == (if action.changes[i].after.None? then None
                                 else Some(action.changes[i].after.value.(hasTimingEvidence := false)))
    {
      var known := LiveRow(live, action.actionId);
      if known.Some? {
        if known.value.kind == action.kind && known.value.source == Some(action.actionId) {
          return Ok(());
        }
        return Err(FeedFailure(ActionIdentityConflict));
      }
      done := AppendFeedRow(RelayedEntry(action));
    }

    method PublishPacketServerChange(actionId: string, sourceCode: string, changes: seq<Change>) returns (done: Result<(), Failure>)
      modifies this`live, this`lastSequence
      ensures FollowsFeed(Announce(old(View()).feed, actionId, sourceCode, changes), done, old(View()), View())
      ensures done.Ok? ==>
        |live| == |old(live)| + 1 && live[..|old(live)|] == old(live) &&
        var e := live[|old(live)|];
        e.actionId == actionId && e.kind.ServerChange? && e.sourceCode == sourceCode && e.source.None? &&
        e.sequence == lastSequence == old(lastSequence) + 1 && e.outcome.Applied? && e.code.None? && |e.changes| == |changes| &&
        forall i :: 0 <= i < |changes| ==>
          e.changes[i] == FeedChange(changes[i].registrationId, Some(changes[i].before.(hasTimingEvidence := false)),
                                     Some(changes[i].after.(hasTimingEvidence := false)))
    {
      if !Uuid(actionId) || |changes| < 1 || |changes| > 20000 || ByteLength(sourceCode) < 1 || ByteLength(sourceCode) > 64 {
        return Err(FeedFailure(InvalidServerChange));
      }
      done := AppendFeedRow(Entry(actionId, 0, ServerChange, sourceCode, None, Applied, None, Images(changes)));
    }

    method ArchiveRows(batch: seq<Entry>) returns (done: Result<(), Failure>)
      modifies this`archive
      ensures match StoreAll(old(archive), batch)
              case Ok(all) => done == Ok(()) && archive == all
              case Err(fault) => done == Err(FeedFailure(fault))
    {
      ghost var start := archive;
      for i := 0 to |batch|
        invariant StoreAll(start, batch[..i]) == Ok(archive)
      {
        var e := batch[i];
        StoreNext(start, batch, i);
        if HasAction(archive, e.actionId) || HasSequence(archive, e.sequence) {
          StoreAllStops(start, batch, i + 1);
          return Err(FeedFailure(RowExists));
        }
        archive := archive + [e];
      }
      assert batch[..|batch|] == batch;
      return Ok(());
    }

    /** One archive row at a time, then the batch leaves the live table and the floor moves. */
    method ArchivePacketFeedPrefix(through: int, at: int) returns (done: Result<(), Failure>)
      modifies this`live, this`archive, this`firstAvailable
      ensures FollowsFeed(Archive(old(View()).feed, through, at), done, old(View()), View())
    {
      if !BoundsHold(View().feed) {
        return Err(FeedFailure(InvalidBounds));
      }
      if through < firstAvailable || through > lastSequence || through - firstAvailable + 1 > 100 || at <= 0 {
        return Err(FeedFailure(InvalidArchiveRange));
      }
      var batch := Between(live, firstAvailable, through);
      if |batch| != through - firstAvailable + 1 || !Consecutive(batch, firstAvailable) {
        return Err(FeedFailure(ArchiveGap));
      }
      var stored := ArchiveRows(batch);
      if stored.Err? {
        return stored;
      }
      live := Outside(live, firstAvailable, through);
      firstAvailable := through + 1;
      return Ok(());
    }

    method ListPacketFeedRows(after: int, limit: nat) returns (found: seq<Entry>)
      ensures found == Later(live, after, limit)
    {
      found := [];
      var i := 0;
      while i < |live| && |found| < limit
        invariant i <= |live| && |found| <= limit
        invariant Later(live, after, limit) == found + Later(live[i..], after, limit - |found|)
      {
        assert live[i..][1..] == live[i + 1..];
        if live[i].sequence > after {
          found := found + [live[i]];
        }
        i := i + 1;
      }
    }
  }

  lemma {:induction false} StoreNext(archive: seq<Entry>, batch: seq<Entry>, i: nat)
    requires i < |batch| && StoreAll(archive, batch[..i]).Ok?
    ensures StoreAll(archive, batch[..i + 1]) == FeedLog.Store(StoreAll(archive, batch[..i]).value, batch[i])
  {
    assert batch[..i + 1][..i] == batch[..i];
  }

  /** A refused row refuses the batch. */
  lemma {:induction false} StoreAllStops(archive: seq<Entry>, batch: seq<Entry>, n: nat)
    requires n <= |batch| && StoreAll(archive, batch[..n]) == Err(RowExists)
    ensures StoreAll(archive, batch) == Err(RowExists)
  {
    if n < |batch| {
      assert batch[..|batch| - 1][..n] == batch[..n];
      StoreAllStops(archive, batch[..|batch| - 1], n);
    } else {
      assert batch[..n] == batch;
    }
  }
}
