/** The tables of one event's store, the queries on them and the writes that keep rows and members in step. */
module Tables {
  import opened Wrappers
  import opened TextRules
  import opened Registrations
  import opened Transitions
  import opened Operations
  import opened FeedLog

  /** A stored registration: its value, the actions it last came from, and whether it was deleted. */
  datatype Row = Row(value: Registration, heads: seq<string>, deleted: bool)

  /**
   What the timing side knows of a participant: number and chip, whether a start or finish was marked,
   and whether results were recorded.
   */
  datatype Member = Member(number: Option<int>, epc: string, marked: bool, recorded: bool)

  datatype OperationRecord = OperationRecord(operation: Operation, eventId: string, outcome: Outcome, code: Option<Code>)

  datatype Application = AppliedHere | Observed | Review

  datatype SiteAction = SiteAction(action: FeedAction, application: Application, code: Option<Code>)

  datatype SiteRow = SiteRow(value: Registration, deleted: bool)

  datatype Resolution = Resolution(operationId: string, keepInput: bool, reason: string)

  datatype Scope = Scope(scopeId: string, baselineId: string, cursor: int)

  datatype Desk = Desk(
    eventId: string, events: set<string>, races: set<string>, scope: Scope,
    rows: map<string, Row>, members: map<string, Member>, loggedNumbers: set<int>, loggedEpcs: set<string>,
    operations: map<string, OperationRecord>, feed: Feed, siteActions: map<string, SiteAction>,
    siteRows: map<string, SiteRow>, resolutions: map<string, Resolution>, rebases: int)

  datatype Failure =
    | OperationScopeConflict | OperationIdentityConflict | OperationSequenceConflict | InvalidOperationBatch
    | StorageFailure | FeedFailure(fault: FeedFault)
    | CursorChanged | ActionIdentity | SiteBaselineMismatch | ResolutionInputMissing | InvalidSiteRow
    | InvalidRebase | BaselineUnavailable | RebaseLimit | FeedScope
    | InvalidResolution | ResolutionDecided | ResolutionStale | ProposalNotApplicable | ResolutionNotBuilt | InvalidConflict

  // Queries.

  predicate TimingEvidence(d: Desk, m: Member) {
    m.marked || m.recorded || (m.number.Some? && m.number.value in d.loggedNumbers) || (m.epc != "" && m.epc in d.loggedEpcs)
  }

  /** A row as the program reads it: timing evidence is looked up afresh and only ever added. */
  function WithEvidence(d: Desk, row: Registration): Registration {
    row.(hasTimingEvidence := row.hasTimingEvidence || (row.id in d.members && TimingEvidence(d, d.members[row.id])))
  }

  /** A live registration; none if it is unknown, deleted or has no member. */
  function ReadRow(d: Desk, id: string): Option<Registration> {
    if id in d.rows && !d.rows[id].deleted && id in d.members then Some(WithEvidence(d, d.rows[id].value)) else None
  }

  /** Another member has the number, or reads of it were logged. */
  function CheckNumber(d: Desk, id: string, bib: string): Option<Code> {
    var n := BibNumber(bib);
    if n.None? then None
    else if exists m :: m in d.members && m != id && d.members[m].number == n then Some(NumberOccupied)
    else if n.value in d.loggedNumbers then Some(TimingReviewRequired)
    else None
  }

  /** Some action or operation of this name took effect here, or was seen to be in effect. */
  predicate Accepted(d: Desk, id: string) {
    (id in d.operations && d.operations[id].eventId == d.eventId &&
     (d.operations[id].outcome.Applied? || d.operations[id].outcome.Equivalent?)) ||
    InEffect(d.feed.live, id) || InEffect(d.feed.archive, id) ||
    (id in d.siteActions && (d.siteActions[id].application.AppliedHere? || d.siteActions[id].application.Observed?))
  }

  predicate InEffect(rows: seq<Entry>, id: string) {
    exists i :: 0 <= i < |rows| && rows[i].actionId == id && (rows[i].outcome.Applied? || rows[i].outcome.Equivalent?)
  }

  predicate SequenceTaken(d: Desk, op: Operation) {
    exists id :: id in d.operations && id != op.operationId &&
      d.operations[id].operation.originInstanceId == op.originInstanceId &&
      d.operations[id].operation.originSequence == op.originSequence
  }

  // Writes.

  /** The member that mirrors a row. */
  function Mirror(m: Member, row: Registration): Member {
    m.(number := BibNumber(row.bib), epc := row.epc)
  }

  /** Overwrites a row and its member; the member must exist, and the race must. */
  function PutRow(d: Desk, row: Registration, heads: seq<string>): Result<Desk, Failure> {
    if row.id !in d.members || row.raceId !in d.races then Err(StorageFailure)
    else
      Ok(d.(rows := if row.id in d.rows then d.rows[row.id := Row(row, heads, false)] else d.rows,
            members := d.members[row.id := Mirror(d.members[row.id], row)]))
  }

  /** Adds a row together with its member; a member that is there already loses its marks but keeps its results. */
  function InsertRow(d: Desk, row: Registration, heads: seq<string>): Result<Desk, Failure> {
    if row.id in d.rows || row.raceId !in d.races then Err(StorageFailure)
    else
      var recorded := row.id in d.members && d.members[row.id].recorded;
      Ok(d.(rows := d.rows[row.id := Row(row, heads, false)],
            members := d.members[row.id := Member(BibNumber(row.bib), row.epc, false, recorded)]))
  }

  function SaveRow(d: Desk, row: Registration, heads: seq<string>, create: bool): Result<Desk, Failure> {
    if create then InsertRow(d, row, heads) else PutRow(d, row, heads)
  }

  /** Marks a row deleted and keeps its value. */
  function DropRow(d: Desk, id: string, heads: seq<string>): Result<Desk, Failure> {
    if id !in d.rows then Err(StorageFailure)
    else Ok(d.(rows := d.rows[id := d.rows[id].(heads := heads, deleted := true)]))
  }

  /** Foreign keys and row identities: every row has its member and names itself and this event. */
  predicate Consistent(d: Desk) {
    forall id :: id in d.rows ==>
      id in d.members && d.rows[id].value.id == id && d.rows[id].value.eventId == d.eventId
  }
}
