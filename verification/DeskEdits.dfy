/** An edit of a participant made at the Desk itself, which rewrites the row and tells the tablets. */
module DeskEdits {
  import opened Wrappers
  import opened Registrations
  import opened Transitions
  import opened Operations
  import opened FeedLog
  import opened Tables
  import opened SiteFeed
  import opened PublishLaws

  /** What the editor can change of a row: race, number, chip, status and person. */
  predicate EditKeeps(before: Registration, after: Registration) {
    after == before.(raceId := after.raceId, bib := after.bib, epc := after.epc, status := after.status, person := after.person)
  }

  /** Writes the row under its heads and tells the tablets. */
  function WriteEdit(d: Desk, actionId: string, heads: seq<string>, before: Registration, after: Registration): Result<Desk, Failure> {
    var written := PutRow(d, after, heads);
    if written.Err? then written
    else
      var told := Announce(d.feed, actionId, "chrono_desk.local_edit", [Change(after.id, before, after)]);
      if told.Err? then Err(FeedFailure(told.error)) else Ok(written.value.(feed := told.value))
  }

  /** The row as the edited participant makes it, written under a new head and published; or nothing at all. */
  function EditRow(d: Desk, actionId: string, after: Registration): Result<Desk, Failure> {
    var found := FindRow(d, after.id);
    if found.value.None? || !EditKeeps(found.value.value, after) || !ValidRegistration(after) then Err(StorageFailure)
    else
      var heads := UniqueHeads(found.heads + [actionId]);
      if |heads| > 64 then Err(StorageFailure) else WriteEdit(d, actionId, heads, found.value.value, after)
  }

  /**
   An edit that goes through puts its row in place on top of everything its author had seen, tells the tablets that
   row as it stood and as it is stored, and touches no other row.
   */
  lemma {:induction false} EditIsPublished(d: Desk, actionId: string, after: Registration)
    requires Consistent(d) && EditRow(d, actionId, after).Ok?
    ensures var e := EditRow(d, actionId, after).value; var before := FindRow(d, after.id);
            after.id in e.rows && e.rows[after.id].value == after && !e.rows[after.id].deleted && actionId in e.rows[after.id].heads &&
            (forall h :: h in before.heads && h != "" ==> h in e.rows[after.id].heads) &&
            (forall id :: id != after.id ==> Stands(d.rows, e.rows, id))
    ensures var e := EditRow(d, actionId, after).value;
            OneMore(d.feed, e.feed) &&
            var told := e.feed.live[|d.feed.live|];
            told.actionId == actionId && told.kind.ServerChange? && told.source.None? && told.outcome.Applied? && told.code.None? &&
            told.sourceCode == "chrono_desk.local_edit" && |told.changes| == 1 && told.changes[0].registrationId == after.id &&
            TellsAll(d.rows, e.rows, told.changes)
    ensures actionId != ""
  {
    var heads, changes, written := EditByParts(d, actionId, after);
    EditWrites(d, actionId, after, heads, changes);
    AnnouncedAsIs(d.feed, actionId, "chrono_desk.local_edit", changes);
    var e := EditRow(d, actionId, after).value;
    EditTells(d.rows, e.rows, after.id, e.feed.live[|d.feed.live|].changes);
  }

  lemma {:induction false} EditTells(rows: map<string, Row>, now: map<string, Row>, id: string, told: seq<FeedChange>)
    requires |told| == 1 && told[0].registrationId == id && Tells(rows, now, told[0])
    requires forall other :: other != id ==> Stands(rows, now, other)
    ensures TellsAll(rows, now, told)
  {
    assert Told(told, id);
  }

  lemma {:induction false} EditWrites(d: Desk, actionId: string, after: Registration, heads: seq<string>, changes: seq<Change>)
    requires Consistent(d) && PutRow(d, after, heads).Ok? && after.id in d.rows && FindRow(d, after.id).value.Some?
    requires heads == UniqueHeads(FindRow(d, after.id).heads + [actionId])
    requires changes == [Change(after.id, FindRow(d, after.id).value.value, after)]
    ensures var e := PutRow(d, after, heads).value;
            after.id in e.rows && e.rows[after.id] == Row(after, heads, false) &&
            (forall other :: other != after.id ==> Stands(d.rows, e.rows, other))
    ensures !d.rows[after.id].deleted && SameFeed(changes[0].before, d.rows[after.id].value)
    ensures actionId != "" ==> actionId in heads
    ensures forall h :: h in FindRow(d, after.id).heads && h != "" ==> h in heads
  {
  }

  /** What the editor leaves alone: identity, event, reserve, packet, transfer and timing evidence. */
  predicate LeftAlone(before: Registration, after: Registration) {
    after.id == before.id && after.eventId == before.eventId && after.reserve == before.reserve && after.issued == before.issued &&
    after.transferredTo == before.transferredTo && after.hasTimingEvidence == before.hasTimingEvidence
  }

  /** The row's heads and the edit's own, each once. */
  function EditHeads(d: Desk, actionId: string, id: string): seq<string> {
    UniqueHeads((if id in d.rows then d.rows[id].heads else []) + [actionId])
  }

  /** An edit goes through exactly if it is of a live row, proper, within what the editor may change, and can be written and told. */
  lemma {:induction false} EditExactly(d: Desk, actionId: string, after: Registration)
    ensures EditRow(d, actionId, after).Ok? <==>
            after.id in d.rows && !d.rows[after.id].deleted && LeftAlone(WithEvidence(d, d.rows[after.id].value), after) &&
            ValidRegistration(after) && |EditHeads(d, actionId, after.id)| <= 64 &&
            after.id in d.members && after.raceId in d.races &&
            Announce(d.feed, actionId, "chrono_desk.local_edit", [Change(after.id, WithEvidence(d, d.rows[after.id].value), after)]).Ok?
  {
    if after.id in d.rows && !d.rows[after.id].deleted {
      var before := WithEvidence(d, d.rows[after.id].value);
      KeepsExactly(before, after);
      assert FindRow(d, after.id).value == Some(before);
      WriteEditExactly(d, actionId, EditHeads(d, actionId, after.id), before, after);
    }
  }

  lemma {:induction false} KeepsExactly(before: Registration, after: Registration)
    ensures EditKeeps(before, after) <==> LeftAlone(before, after)
  {
  }

  lemma {:induction false} WriteEditExactly(d: Desk, actionId: string, heads: seq<string>, before: Registration, after: Registration)
    ensures WriteEdit(d, actionId, heads, before, after).Ok? <==>
            after.id in d.members && after.raceId in d.races &&
            Announce(d.feed, actionId, "chrono_desk.local_edit", [Change(after.id, before, after)]).Ok?
  {
  }

  /** The parts of an edit that went through. */
  lemma {:induction false} EditByParts(d: Desk, actionId: string, after: Registration) returns (heads: seq<string>, changes: seq<Change>, written: Desk)
    requires EditRow(d, actionId, after).Ok?
    ensures PutRow(d, after, heads) == Ok(written) && after.id in d.rows && FindRow(d, after.id).value.Some?
    ensures after.eventId == FindRow(d, after.id).value.value.eventId
    ensures heads == UniqueHeads(FindRow(d, after.id).heads + [actionId])
    ensures changes == [Change(after.id, FindRow(d, after.id).value.value, after)]
    ensures Announce(d.feed, actionId, "chrono_desk.local_edit", changes).Ok?
    ensures EditRow(d, actionId, after).value == written.(feed := Announce(d.feed, actionId, "chrono_desk.local_edit", changes).value)
  {
    var found := FindRow(d, after.id);
    heads := UniqueHeads(found.heads + [actionId]);
    changes := [Change(after.id, found.value.value, after)];
    written := PutRow(d, after, heads).value;
  }

  lemma {:induction false} PutKeepsConsistent(d: Desk, row: Registration, heads: seq<string>, e: Desk)
    requires Consistent(d) && PutRow(d, row, heads) == Ok(e) && row.eventId == d.eventId
    ensures Consistent(e) && e == d.(rows := e.rows, members := e.members)
  {
  }
}
