/** Admission of tablet operations: what is decided, what is written, and what stays final. */
module Receiver {
  import opened Wrappers
  import opened TextRules
  import opened Registrations
  import opened RowMerge
  import opened Transitions
  import opened TransitionLaws
  import opened Operations
  import opened FeedLog
  import opened Tables

  datatype Connection = Connection(eventId: string, scopeId: string, originInstanceId: string)

  datatype Receipt = Receipt(operationId: string, outcome: Outcome, code: Option<Code>, known: bool)

  datatype Verdict = Verdict(outcome: Outcome, code: Option<Code>, changes: seq<Change>)

  /** The tables after a decision's row writes, and the decision. */
  datatype Assessed = Assessed(desk: Desk, verdict: Verdict)

  datatype Received = Received(desk: Desk, reply: Result<Receipt, Failure>)

  // The decision.

  /** The first row that cannot take the change, and why. */
  function FirstClash(changes: seq<Change>, current: seq<Registration>): (clash: Option<Code>)
    requires |current| == |changes|
    ensures clash.None? <==> forall i :: 0 <= i < |changes| ==>
      MergeRow(changes[i].before, changes[i].after, current[i]).Some?
  {
    if changes == [] then None
    else
      CompatibleRows(changes[0].before, changes[0].after, current[0]);
      if !PacketCompatible(changes[0].before, changes[0].after, current[0]) then
        Some(if current[0].hasTimingEvidence && !changes[0].before.hasTimingEvidence then TimingReviewRequired
             else CurrentStateChanged)
      else
        var rest := FirstClash(changes[1..], current[1..]);
        assert rest.None? ==> forall i :: 0 < i < |changes| ==>
          changes[i] == changes[1..][i - 1] && current[i] == current[1..][i - 1];
        assert forall i :: 0 <= i < |changes| - 1 ==> changes[1..][i] == changes[i + 1] && current[1..][i] == current[i + 1];
        rest
  }

  predicate AllEquivalent(changes: seq<Change>, current: seq<Registration>)
    requires |current| == |changes|
    ensures AllEquivalent(changes, current) <==> forall i :: 0 <= i < |changes| ==>
      MergeRow(changes[i].before, changes[i].after, current[i]) == Some(current[i])
  {
    forall i | 0 <= i < |changes|
      ensures PacketChangedEqual(changes[i].before, changes[i].after, current[i], changes[i].after) <==>
              MergeRow(changes[i].before, changes[i].after, current[i]) == Some(current[i])
    {
      EquivalentRows(changes[i].before, changes[i].after, current[i]);
    }
    forall i :: 0 <= i < |changes| ==>
      PacketChangedEqual(changes[i].before, changes[i].after, current[i], changes[i].after)
  }

  const NoRegistration: Registration := Registration("", "", "", "", "", None, false, false, "", None, false)

  /** The first row with this id. */
  function CurrentRow(rows: seq<Registration>, id: string): (row: Registration)
    ensures row.id == id ==> row in rows || row == NoRegistration
    ensures forall i :: 0 <= i < |rows| && rows[i].id == id && (forall j :: 0 <= j < i ==> rows[j].id != id) ==> row == rows[i]
  {
    if rows == [] then NoRegistration
    else if rows[0].id == id then rows[0]
    else
      assert forall i :: 0 <= i < |rows| - 1 ==> rows[1..][i] == rows[i + 1];
      CurrentRow(rows[1..], id)
  }

  /** The change made to this row; the last one when ids repeat. */
  function LastFor(changes: seq<Change>, id: string): (ch: Option<Change>)
    ensures ch.Some? ==> ch.value in changes && ch.value.registrationId == id
    ensures ch.None? ==> forall c :: c in changes ==> c.registrationId != id
  {
    if changes == [] then None
    else if changes[|changes| - 1].registrationId == id then Some(changes[|changes| - 1])
    else LastFor(changes[..|changes| - 1], id)
  }

  /** What the command did to a row on the current state. */
  function Actual(derived: seq<Change>, current: seq<Registration>, id: string): Change {
    var found := LastFor(derived, id);
    if found.Some? then found.value else Change(id, CurrentRow(current, id), CurrentRow(current, id))
  }

  predicate EffectsMatch(expected: seq<Change>, derived: seq<Change>, current: seq<Registration>) {
    forall ch :: ch in expected ==>
      var actual := Actual(derived, current, ch.registrationId);
      PacketEffectMatches(ch.before, ch.after, actual.before, actual.after)
  }

  /** The command, or the undo of the corrected operation, on the current rows. */
  function Rerun(d: Desk, current: seq<Registration>, op: Operation): (r: Result<seq<Change>, Code>)
    requires op.command.kind.CorrectMove? ==> op.command.operationId in d.operations
    ensures r.Ok? && op.command.kind.ReturnToReserve? ==> |r.value| == 2
  {
    if op.command.kind.CorrectMove? then
      ReverseMove(current, d.operations[op.command.operationId].operation.changes, op.command.reason)
    else Apply(current, op.command)
  }

  predicate Correctable(d: Desk, op: Operation) {
    var id := op.command.operationId;
    id in d.operations && (d.operations[id].outcome.Applied? || d.operations[id].outcome.Equivalent?)
  }

  function MergeDecision(d: Desk, current: seq<Registration>, op: Operation): (v: Verdict)
    requires |current| == |op.changes|
    ensures v.outcome.Applied? && op.command.kind.ReturnToReserve? ==> |v.changes| == 2
    ensures v.outcome.Applied? ==> v == RerunDecision(d, current, op)
  {
    var clash := FirstClash(op.changes, current);
    if clash.Some? then Verdict(Conflict, clash, [])
    else if AllEquivalent(op.changes, current) then Verdict(Equivalent, None, [])
    else RerunDecision(d, current, op)
  }

  function RerunDecision(d: Desk, current: seq<Registration>, op: Operation): (v: Verdict)
    ensures v.outcome.Applied? && op.command.kind.ReturnToReserve? ==> |v.changes| == 2
  {
    if op.command.kind.CorrectMove? && !Correctable(d, op) then Verdict(Waiting, Some(CorrectionDependencyMissing), [])
    else if op.command.kind.CorrectMove? && d.operations[op.command.operationId].operation.schemaVersion != 1 then
      Verdict(Conflict, Some(CorrectionReviewRequired), [])
    else
      var derived := Rerun(d, current, op);
      if derived.Err? then Verdict(Conflict, Some(derived.error), [])
      else if !EffectsMatch(op.changes, derived.value, current) then Verdict(Conflict, Some(OperationEffectChanged), [])
      else Verdict(Applied, None, derived.value)
  }

  // What is written.

  function PutAll(d: Desk, changes: seq<Change>, heads: seq<string>): Result<Desk, Failure> {
    if changes == [] then Ok(d)
    else
      var rest := PutAll(d, changes[..|changes| - 1], heads);
      if rest.Err? then rest else PutRow(rest.value, changes[|changes| - 1].after, heads)
  }

  function ReadAll(d: Desk, changes: seq<Change>): Option<seq<Registration>>
  {
    if forall i :: 0 <= i < |changes| ==> ReadRow(d, changes[i].registrationId).Some? then
      Some(seq(|changes|, i requires 0 <= i < |changes| => ReadRow(d, changes[i].registrationId).value))
    else None
  }

  function Refuse(d: Desk, outcome: Outcome, code: Code): Result<Assessed, Failure> {
    Ok(Assessed(d, Verdict(outcome, Some(code), [])))
  }

  function AssessRows(d: Desk, op: Operation): Result<Assessed, Failure> {
    if op.command.kind.ChangeRace? && op.command.raceId !in d.races then Refuse(d, Rejected, InvalidTarget)
    else
      var current := ReadAll(d, op.changes);
      if current.None? then Refuse(d, Rejected, RegistrationNotFound)
      else
        var v := MergeDecision(d, current.value, op);
        if !v.outcome.Applied? then Ok(Assessed(d, v))
        else
          var written := PutAll(d, v.changes, [op.operationId]);
          if written.Err? then Err(written.error) else Ok(Assessed(written.value, v))
  }

  /** Both number commands look at one row, or at the image of the row to be created. */
  function AssessNumber(d: Desk, op: Operation): Result<Assessed, Failure> {
    var command := op.command;
    var taken := if command.bib != "" then CheckNumber(d, command.registrationId, command.bib) else None;
    if taken.Some? then Refuse(d, Conflict, taken.value)
    else if command.kind.CreateRegistration? then
      if command.registrationId in d.members then Refuse(d, Conflict, RegistrationAlreadyExists)
      else if command.raceId !in d.races then Refuse(d, Rejected, InvalidTarget)
      else if command.person.Some? && (command.person.value.birthDate == "" || command.person.value.gender == "") then
        Refuse(d, Rejected, PersonDetailsRequired)
      else
        var empty := EmptyRegistration(command.registrationId, command.eventId, command.raceId);
        if empty.None? then Err(StorageFailure) else NumberOne(d, empty.value, op)
    else
      var row := ReadRow(d, command.registrationId);
      if row.None? then Refuse(d, Rejected, RegistrationNotFound)
      else if row.value.hasTimingEvidence then Refuse(d, Conflict, TimingReviewRequired)
      else NumberOne(d, row.value, op)
  }

  function NumberOne(d: Desk, row: Registration, op: Operation): Result<Assessed, Failure> {
    if |op.changes| != 1 then Err(StorageFailure)
    else
      var v := MergeDecision(d, [row], op);
      if !v.outcome.Applied? || v.changes == [] then Ok(Assessed(d, v))
      else
        var written := SaveRow(d, v.changes[0].after, [op.operationId], op.command.kind.CreateRegistration?);
        if written.Err? then Err(written.error) else Ok(Assessed(written.value, v))
  }

  /** Splits a row into the person and a new reserve that keeps the number. */
  function AssessReturn(d: Desk, op: Operation): Result<Assessed, Failure>
    requires op.command.kind.ReturnToReserve?
  {
    var command := op.command;
    var taken := CheckNumber(d, command.registrationId, command.bib);
    if taken.Some? then Refuse(d, Conflict, taken.value)
    else if command.raceId !in d.races then Refuse(d, Rejected, InvalidTarget)
    else
      var row := ReadRow(d, command.registrationId);
      if row.None? then Refuse(d, Rejected, RegistrationNotFound)
      else if command.targetId in d.members then Refuse(d, Conflict, RegistrationAlreadyExists)
      else
        var empty := EmptyRegistration(command.targetId, row.value.eventId, command.raceId);
        if empty.None? then Err(StorageFailure) else ReturnTwo(d, row.value, empty.value, op)
  }

  function ReturnTwo(d: Desk, row: Registration, empty: Registration, op: Operation): Result<Assessed, Failure>
    requires op.command.kind.ReturnToReserve?
  {
    if |op.changes| != 2 then Err(StorageFailure)
    else
      var v := MergeDecision(d, [row, empty], op);
      if !v.outcome.Applied? then Ok(Assessed(d, v))
      else
        var written := WriteReturn(d, v.changes, [op.operationId]);
        if written.Err? then Err(written.error) else Ok(Assessed(written.value, v))
  }

  function WriteReturn(d: Desk, changes: seq<Change>, heads: seq<string>): Result<Desk, Failure>
    requires |changes| == 2
  {
    var source := PutRow(d, changes[0].after, heads);
    if source.Err? then source else InsertRow(source.value, changes[1].after, heads)
  }

  predicate NamesHead(op: Operation, head: string) {
    exists i :: 0 <= i < |op.bases| && head in op.bases[i].heads
  }

  predicate HeadsAccepted(d: Desk, op: Operation) {
    forall i, h :: 0 <= i < |op.bases| && h in op.bases[i].heads ==> Accepted(d, h)
  }

  function Assess(d: Desk, c: Connection, op: Operation): Result<Assessed, Failure>
    requires op.changes != []
  {
    if EventOf(op) != c.eventId then Refuse(d, Rejected, EventMismatch)
    else if NamesHead(op, op.operationId) then Refuse(d, Rejected, DependencyCycle)
    else if !HeadsAccepted(d, op) then Refuse(d, Waiting, DependencyMissing)
    else if op.command.kind.ReturnToReserve? then AssessReturn(d, op)
    else if op.command.kind.AssignNumber? || op.command.kind.CreateRegistration? then AssessNumber(d, op)
    else AssessRows(d, op)
  }

  /** Records the decision and publishes it. */
  function Persist(d: Desk, op: Operation, v: Verdict): Result<Desk, Failure>
    requires op.changes != []
  {
    var known := op.operationId in d.operations;
    if !known && EventOf(op) !in d.events then Err(StorageFailure)
    else
      var row := if known then d.operations[op.operationId].(outcome := v.outcome, code := v.code)
                 else OperationRecord(op, EventOf(op), v.outcome, v.code);
      var feed := Publish(d.feed, op, v.outcome, v.code, v.changes);
      if feed.Err? then Err(FeedFailure(feed.error))
      else Ok(d.(operations := d.operations[op.operationId := row], feed := feed.value))
  }

  predicate SameIdentity(r: OperationRecord, c: Connection, op: Operation) {
    r.operation == op && r.eventId == c.eventId
  }

  predicate InScope(d: Desk, c: Connection, op: Operation) {
    op.scopeId == c.scopeId && op.originInstanceId == c.originInstanceId &&
    c.eventId == d.eventId && d.scope.scopeId != "" && d.scope.scopeId == c.scopeId
  }

  predicate Decided(d: Desk, id: string) {
    id in d.operations && !d.operations[id].outcome.Waiting?
  }

  /** One operation, in one transaction: a failure leaves every table as it was. */
  function ReceiveOne(d: Desk, c: Connection, op: Operation): Received
    requires op.changes != []
  {
    var id := op.operationId;
    if !InScope(d, c, op) then Received(d, Err(OperationScopeConflict))
    else if id in d.operations && !SameIdentity(d.operations[id], c, op) then Received(d, Err(OperationIdentityConflict))
    else if Decided(d, id) then
      Received(d, Ok(Receipt(id, d.operations[id].outcome, d.operations[id].code, true)))
    else if SequenceTaken(d, op) then Received(d, Err(OperationSequenceConflict))
    else Admit(d, c, op)
  }

  /** Decides, writes, records and publishes an operation that has no final outcome yet. */
  function Admit(d: Desk, c: Connection, op: Operation): Received
    requires op.changes != []
  {
    var assessed := Assess(d, c, op);
    if assessed.Err? then Received(d, Err(assessed.error))
    else
      var v := assessed.value.verdict;
      var saved := Persist(assessed.value.desk, op, v);
      if saved.Err? then Received(d, Err(saved.error))
      else Received(saved.value, Ok(Receipt(op.operationId, v.outcome, v.code, op.operationId in d.operations)))
  }

  datatype BatchReceived = BatchReceived(desk: Desk, reply: Result<seq<Receipt>, Failure>)

  /** The operations one after the other, each in its own transaction, up to the first failure. */
  function ReceiveAll(d: Desk, c: Connection, ops: seq<Operation>): BatchReceived
    requires forall op :: op in ops ==> op.changes != []
  {
    if ops == [] then BatchReceived(d, Ok([]))
    else
      var rest := ReceiveAll(d, c, ops[..|ops| - 1]);
      if rest.reply.Err? then rest
      else
        var one := ReceiveOne(rest.desk, c, ops[|ops| - 1]);
        BatchReceived(one.desk, if one.reply.Err? then Err(one.reply.error) else Ok(rest.reply.value + [one.reply.value]))
  }

  function ReceiveBatch(d: Desk, c: Connection, ops: seq<Operation>): BatchReceived
    requires forall op :: op in ops ==> op.changes != []
  {
    if |ops| < 1 || |ops| > 64 then BatchReceived(d, Err(InvalidOperationBatch)) else ReceiveAll(d, c, ops)
  }
}
