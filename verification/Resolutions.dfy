/** Settling a conflict at the Desk: the proposal, the decision, and when a decision can be written at all. */
module Resolutions {
  import opened Wrappers
  import opened TextRules
  import opened JsonMerge
  import opened Registrations
  import opened RowMerge
  import opened Transitions
  import opened TransitionLaws
  import opened UndoLaws
  import opened Operations
  import opened FeedLog
  import opened Tables
  import opened Receiver
  import opened ReceiverLaws

  /** What the organiser is shown: the changes proposed, and whether the command itself can still be applied. */
  datatype Candidate = Candidate(operation: Operation, changes: seq<Change>, applicable: bool)

  /** A decision with everything the environment supplies: a new name, a sequence number and the time. */
  datatype Decision = Decision(
    inputId: string, apply: bool, reason: string, actor: string, seen: Candidate,
    resolutionId: string, installationId: string, sequence: int, now: int)

  function TrimLeft(s: string): string {
    if s != "" && Space(s[0]) then TrimLeft(s[1..]) else s
  }

  function TrimRight(s: string): string {
    if s != "" && Space(s[|s| - 1]) then TrimRight(s[..|s| - 1]) else s
  }

  function Trim(s: string): string {
    TrimRight(TrimLeft(s))
  }

  predicate DecisionWellFormed(x: Decision) {
    Trim(x.reason) != "" && |Trim(x.reason)| <= 500 && Trim(x.actor) != "" && |Trim(x.actor)| <= 160
  }

  // The proposal.

  /** The rows in conflict; rows an operation meant to create stand in as their empty images. */
  function ConflictRows(d: Desk, op: Operation): Option<seq<Registration>> {
    var found := ReadAll(d, op.changes);
    if found.Some? then found
    else if op.command.kind.CreateRegistration? && op.changes != [] then Some([op.changes[0].before])
    else if op.command.kind.ReturnToReserve? &&
            forall i :: 0 <= i < |op.changes| ==>
              ReadRow(d, op.changes[i].registrationId).Some? || IsVirtual(op.changes[i].before)
    then Some(CurrentRows(d, op))
    else None
  }

  /** The tablet's change forced over the current row, if that leaves a valid row. */
  function Forced(ch: Change, current: Registration): Option<Registration> {
    if ValidRegistration(TakeRow(ch.before, ch.after, current)) then Some(TakeRow(ch.before, ch.after, current)) else None
  }

  /** The same through the JSON overlay. */
  function OverlayEffect(before: Registration, after: Registration, current: Registration): (r: Option<Registration>)
    ensures r == Forced(Change(current.id, before, after), current)
  {
    OverlayRows(before, after, current);
    DecodeEncode(TakeRow(before, after, current));
    var row := Decode(Overlay(Encode(before), Encode(after), Encode(current)).fields);
    if row.Some? && Validate(row.value).None? then row else None
  }

  function ForcedAll(changes: seq<Change>, current: seq<Registration>): Option<seq<Change>>
    requires |current| == |changes|
  {
    if changes == [] then Some([])
    else
      var n := |changes| - 1;
      var front, last := ForcedAll(changes[..n], current[..n]), Forced(changes[n], current[n]);
      if front.None? || last.None? then None
      else Some(front.value + [Change(current[n].id, current[n], last.value)])
  }

  /** One change per row, in the rows' order; a row the command left alone stays as it is. */
  function Normalized(current: seq<Registration>, derived: seq<Change>): seq<Change> {
    seq(|current|, i requires 0 <= i < |current| =>
      Change(current[i].id, current[i],
             if LastFor(derived, current[i].id).Some? then LastFor(derived, current[i].id).value.after else current[i]))
  }

  predicate StillApplies(d: Desk, op: Operation, current: seq<Registration>) {
    !op.command.kind.CreateRegistration? && !op.command.kind.ReturnToReserve? &&
    (op.command.kind.AssignNumber? ==> CheckNumber(d, op.command.registrationId, op.command.bib).None?) &&
    Apply(current, op.command).Ok?
  }

  /** The stored operation is parsed again, as a tablet's, before anything is proposed. */
  function Propose(d: Desk, op: Operation): Result<Candidate, Failure> {
    if !ParsedOperation(op) then Err(InvalidConflict) else ProposeFor(d, op)
  }

  function ProposeFor(d: Desk, op: Operation): Result<Candidate, Failure> {
    var current := ConflictRows(d, op);
    if current.None? then Err(ResolutionInputMissing)
    else if StillApplies(d, op, current.value) then
      Ok(Candidate(op, Normalized(current.value, Apply(current.value, op.command).value), true))
    else if |current.value| != |op.changes| then Err(ResolutionInputMissing)
    else
      var forced := ForcedAll(op.changes, current.value);
      if forced.None? then Err(InvalidConflict) else Ok(Candidate(op, Normalized(current.value, forced.value), false))
  }

  // The decision.

  function Reversed(changes: seq<Change>): seq<Change> {
    seq(|changes|, i requires 0 <= i < |changes| => Change(changes[i].registrationId, changes[i].after, changes[i].before))
  }

  function DecidedChanges(x: Decision, candidate: Candidate): seq<Change> {
    if x.apply then candidate.changes else Reversed(candidate.changes)
  }

  /** The schema-2 operation that records a decision. */
  function ResolutionOf(x: Decision, candidate: Candidate): Operation {
    var changes := DecidedChanges(x, candidate);
    var command := BareCommand(ResolveConflict, "").(
      inputs := [x.inputId], keep := if x.apply then [x.inputId] else [], reason := Trim(x.reason));
    Operation(2, x.resolutionId, candidate.operation.scopeId, candidate.operation.baselineId, x.installationId, x.sequence,
              x.now, Trim(x.actor), None, command,
              seq(|changes|, i requires 0 <= i < |changes| => Base(changes[i].registrationId, [x.inputId])), changes)
  }

  function WriteDecision(d: Desk, x: Decision, candidate: Candidate): Result<Desk, Failure> {
    if x.apply then PutAll(d, candidate.changes, [x.resolutionId]) else Ok(d)
  }

  function RecordDecision(d: Desk, x: Decision, op: Operation): Result<Desk, Failure> {
    if op.changes == [] || EventOf(op) !in d.events || op.operationId in d.operations || SequenceTaken(d, op) then Err(StorageFailure)
    else
      var feed := Publish(d.feed, op, Applied, None, op.changes);
      if feed.Err? then Err(FeedFailure(feed.error))
      else
        Ok(d.(operations := d.operations[op.operationId := OperationRecord(op, EventOf(op), Applied, None)],
              resolutions := d.resolutions[x.inputId := Resolution(op.operationId, x.apply, op.command.reason)],
              feed := feed.value))
  }

  datatype Resolved = Resolved(desk: Desk, reply: Result<Operation, Failure>)

  function ResolveIn(d: Desk, x: Decision): Resolved {
    if x.inputId !in d.operations || d.operations[x.inputId].eventId != d.eventId || !d.operations[x.inputId].outcome.Conflict?
    then Resolved(d, Err(ResolutionInputMissing))
    else if x.inputId in d.resolutions then Resolved(d, Err(ResolutionDecided))
    else
      var candidate := Propose(d, d.operations[x.inputId].operation);
      if candidate.Err? then Resolved(d, Err(candidate.error))
      else if candidate.value != x.seen then Resolved(d, Err(ResolutionStale))
      else if x.apply && !candidate.value.applicable then Resolved(d, Err(ProposalNotApplicable))
      else
        var written := WriteDecision(d, x, candidate.value);
        if written.Err? then Resolved(d, Err(written.error))
        else
          var op := ResolutionOf(x, candidate.value);
          if !ParsedResolution(op) then Resolved(d, Err(ResolutionNotBuilt))
          else
            var recorded := RecordDecision(written.value, x, op);
            if recorded.Err? then Resolved(d, Err(recorded.error)) else Resolved(recorded.value, Ok(op))
  }

  function Resolve(d: Desk, x: Decision): Resolved {
    if !DecisionWellFormed(x) then Resolved(d, Err(InvalidResolution)) else ResolveIn(d, x)
  }
}
