/** What a read of the tables says and what a write keeps, in the tables' own columns. */
module TableLaws {
  import opened Wrappers
  import opened TextRules
  import opened Registrations
  import opened Transitions
  import opened Operations
  import opened FeedLog
  import opened Tables
  import opened SiteFeed

  /** Somebody or something timed this participant: a mark, a result, or reads logged under the number or chip. */
  predicate Timed(d: Desk, id: string) {
    id in d.members &&
    var m := d.members[id];
    m.marked || m.recorded || (m.number.Some? && m.number.value in d.loggedNumbers) || (m.epc != "" && m.epc in d.loggedEpcs)
  }

  /** The row as it is stored, with the mark it has or has earned since. */
  predicate ReadAs(d: Desk, id: string, row: Registration) {
    id in d.rows && !d.rows[id].deleted && SameFeed(row, d.rows[id].value) &&
    (row.hasTimingEvidence <==> d.rows[id].value.hasTimingEvidence || Timed(d, d.rows[id].value.id))
  }

  /** A row can be read exactly if it is live and has its member, and it reads as it is stored, evidence looked up afresh. */
  lemma {:induction false} RowsReadAsStored(d: Desk, id: string)
    ensures ReadRow(d, id).Some? <==> id in d.rows && !d.rows[id].deleted && id in d.members
    ensures ReadRow(d, id).Some? ==> ReadAs(d, id, ReadRow(d, id).value)
    ensures FindRow(d, id).value.Some? <==> id in d.rows && !d.rows[id].deleted
    ensures FindRow(d, id).value.Some? ==> ReadAs(d, id, FindRow(d, id).value.value)
    ensures FindRow(d, id).known == (id in d.rows) && FindRow(d, id).heads == if id in d.rows then d.rows[id].heads else []
  {
    if id in d.rows {
      EvidenceIsTimed(d, d.rows[id].value);
    }
  }

  lemma {:induction false} EvidenceIsTimed(d: Desk, row: Registration)
    ensures WithEvidence(d, row).hasTimingEvidence <==> row.hasTimingEvidence || Timed(d, row.id)
  {
  }

  /** A number is refused exactly if another member has it, or else if reads were logged under it. */
  lemma {:induction false} NumberIsChecked(d: Desk, id: string, bib: string)
    requires AssignedBib(bib)
    ensures var taken := exists m :: m in d.members && m != id && d.members[m].number == Some(Value(bib));
            CheckNumber(d, id, bib) ==
            if taken then Some(NumberOccupied) else if Value(bib) in d.loggedNumbers then Some(TimingReviewRequired) else None
  {
    AssignedBibHasNumber(bib);
  }

  /** Writing a row over another keeps what timing knows of the participant; a new row starts with results at most. */
  lemma {:induction false} MemberFollowsRow(d: Desk, row: Registration, heads: seq<string>, create: bool)
    requires SaveRow(d, row, heads, create).Ok?
    ensures var e := SaveRow(d, row, heads, create).value;
            row.id in e.members && e.members == d.members[row.id := e.members[row.id]] &&
            var m := e.members[row.id];
            m.number == BibNumber(row.bib) && m.epc == row.epc &&
            (m.recorded <==> row.id in d.members && d.members[row.id].recorded) &&
            (m.marked <==> !create && row.id in d.members && d.members[row.id].marked)
    ensures row.raceId in d.races && (create ==> row.id !in d.rows) && (!create ==> row.id in d.members)
    ensures var e := SaveRow(d, row, heads, create).value;
            e.rows == if create || row.id in d.rows then d.rows[row.id := Row(row, heads, false)] else d.rows
  {
  }

  /** A write fails exactly if the race is unknown, a row to be created is there, or one to be overwritten has no member. */
  lemma {:induction false} WriteFailsExactly(d: Desk, row: Registration, heads: seq<string>, create: bool)
    ensures SaveRow(d, row, heads, create).Err? <==>
            row.raceId !in d.races || (if create then row.id in d.rows else row.id !in d.members)
  {
  }

  /** A deleted row stays in the table with its value, under new heads. */
  lemma {:induction false} DroppedRowStays(d: Desk, id: string, heads: seq<string>)
    ensures DropRow(d, id, heads).Ok? <==> id in d.rows
    ensures id in d.rows ==> DropRow(d, id, heads) == Ok(d.(rows := d.rows[id := Row(d.rows[id].value, heads, true)]))
  {
  }
}
