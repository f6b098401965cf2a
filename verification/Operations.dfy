/** Operations of the tablets, actions of a feed, and what a parsed one is known to satisfy. */
module Operations {
  import opened Wrappers
  import opened TextRules
  import opened Registrations
  import opened Transitions

  datatype Outcome = Applied | Equivalent | Waiting | Conflict | Rejected

  /** The rows an operation was made on, and the actions its author had seen on each. */
  datatype Base = Base(registrationId: string, heads: seq<string>)

  datatype Operation = Operation(
    schemaVersion: int, operationId: string, scopeId: string, baselineId: string,
    originInstanceId: string, originSequence: int, createdAtMs: int, claimedActor: string, note: Option<string>,
    command: Command, bases: seq<Base>, changes: seq<Change>)

  /** A change in a feed: no before image for a new row, no after image for a deleted one. */
  datatype FeedChange = FeedChange(registrationId: string, before: Option<Registration>, after: Option<Registration>)

  datatype ActionKind = OperationAction | ServerChange

  datatype FeedAction = FeedAction(
    actionId: string, kind: ActionKind, sequence: int, sourceCode: string, outcome: Outcome, code: Option<Code>,
    operation: Option<Operation>, changes: seq<FeedChange>)

  function Befores(changes: seq<Change>): (rows: seq<Registration>)
    ensures |rows| == |changes| && forall i :: 0 <= i < |changes| ==> rows[i] == changes[i].before
  {
    seq(|changes|, i requires 0 <= i < |changes| => changes[i].before)
  }

  predicate ParsedChange(ch: Change) {
    Identifier(ch.registrationId) && ValidRegistration(ch.before) && ValidRegistration(ch.after)
  }

  predicate FrameEqual(op: Operation, ch: Change) {
    var kind, resolution := op.command.kind, op.schemaVersion == 2;
    InFrame(ch, kind.ChangeRace?, MovesBib(kind) || resolution, MovesEpc(kind) || resolution)
  }

  predicate ParsedBase(b: Base) {
    Identifier(b.registrationId) && |b.heads| <= 64 && forall h :: h in b.heads ==> Uuid(h)
  }

  /** The shape every parsed operation has, a resolution included. */
  predicate ParsedShape(op: Operation) {
    Uuid(op.operationId) && Identifier(op.scopeId) && Identifier(op.baselineId) && Uuid(op.originInstanceId) &&
    0 < op.originSequence <= MaxSafeInteger && 0 <= op.createdAtMs <= MaxSafeInteger &&
    ValidText(op.claimedActor, 160) && (op.note.Some? ==> ValidText(op.note.value, 500)) &&
    1 <= |op.changes| <= 2 && |op.bases| == |op.changes| &&
    (forall i :: 0 <= i < |op.changes| ==>
      ParsedBase(op.bases[i]) && ParsedChange(op.changes[i]) && FrameEqual(op, op.changes[i]) &&
      op.bases[i].registrationId == op.changes[i].registrationId &&
      op.changes[i].before.eventId == op.changes[0].before.eventId) &&
    (|op.changes| == 2 ==> op.changes[0].registrationId != op.changes[1].registrationId)
  }

  /** What the parser of tablet uploads lets through: the command, run on the before images, gives the changes. */
  predicate ParsedOperation(op: Operation) {
    ParsedShape(op) && op.schemaVersion == 1 &&
    if op.command.kind.CorrectMove? then
      |op.changes| == 2 && Uuid(op.command.operationId) && ValidReason(op.command.reason)
    else Apply(Befores(op.changes), op.command) == Ok(op.changes)
  }

  /** A decision between two branches, which only an authenticated feed may carry. */
  predicate ParsedResolution(op: Operation) {
    ParsedShape(op) && op.schemaVersion == 2 && op.command.kind.ResolveConflict? && |op.command.inputs| == 1 &&
    (op.command.keep == [] || op.command.keep == op.command.inputs) && Uuid(op.command.inputs[0]) && ValidReason(op.command.reason) && op.command.inputs[0] != op.operationId &&
    forall b :: b in op.bases ==> b.heads == [op.command.inputs[0]]
  }

  predicate ParsedTrusted(op: Operation) {
    ParsedOperation(op) || ParsedResolution(op)
  }

  function EventOf(op: Operation): string
    requires op.changes != []
  {
    op.changes[0].before.eventId
  }

  predicate ParsedSide(row: Option<Registration>, id: string, eventId: string) {
    row.Some? ==> ValidRegistration(row.value) && row.value.id == id && row.value.eventId == eventId &&
                  !row.value.hasTimingEvidence
  }

  predicate ParsedFeedChange(ch: FeedChange, eventId: string) {
    (ch.before.Some? || ch.after.Some?) && ParsedSide(ch.before, ch.registrationId, eventId) &&
    ParsedSide(ch.after, ch.registrationId, eventId)
  }

  /** A resolution's own images, as its feed action must repeat them. */
  predicate ResolutionMatches(op: Operation, changes: seq<FeedChange>) {
    |changes| == |op.changes| &&
    forall i :: 0 <= i < |changes| ==>
      changes[i] == FeedChange(op.changes[i].registrationId, Some(Bare(op.changes[i].before)),
                               if IsVirtual(op.changes[i].after) then None else Some(Bare(op.changes[i].after)))
  }

  predicate ParsedAction(action: FeedAction, scopeId: string, eventId: string) {
    Uuid(action.actionId) && (action.outcome.Conflict? <==> action.code.Some?) &&
    (action.outcome.Applied? || action.outcome.Equivalent? || action.outcome.Conflict?) &&
    (forall ch :: ch in action.changes ==> ParsedFeedChange(ch, eventId)) &&
    (forall i, j :: 0 <= i < j < |action.changes| ==> action.changes[i].registrationId != action.changes[j].registrationId) &&
    (match action.kind
     case OperationAction =>
       action.operation.Some? && ParsedTrusted(action.operation.value) &&
       action.operation.value.operationId == action.actionId && action.operation.value.scopeId == scopeId &&
       (action.outcome.Applied? <==> action.changes != []) &&
       (action.operation.value.schemaVersion == 2 ==>
         !action.outcome.Equivalent? &&
         (action.outcome.Applied? ==> ResolutionMatches(action.operation.value, action.changes)))
     case ServerChange => action.operation.None? && action.outcome.Applied? && action.changes != [])
  }
}
