/** Why an operation is refused, waits or is decided: the receiver's gates, in their order, in the tables' own terms. */
module VerdictLaws {
  import opened Wrappers
  import opened TextRules
  import opened Registrations
  import opened Transitions
  import opened TransitionLaws
  import opened Operations
  import opened FeedLog
  import opened Tables
  import opened Receiver
  import opened ReceiverLaws

  predicate TakesNumber(kind: CommandType) {
    kind.AssignNumber? || kind.CreateRegistration? || kind.ReturnToReserve?
  }

  predicate NamesRace(kind: CommandType) {
    kind.ChangeRace? || kind.CreateRegistration? || kind.ReturnToReserve?
  }

  predicate NamesItself(op: Operation) {
    exists b :: b in op.bases && op.operationId in b.heads
  }

  predicate SeenAll(d: Desk, op: Operation) {
    forall b, h :: b in op.bases && h in b.heads ==> Accepted(d, h)
  }

  /** A row the operation was made on is not there to be read. */
  predicate RowMissing(d: Desk, op: Operation) {
    !op.command.kind.CreateRegistration? &&
    if op.command.kind.AssignNumber? || op.command.kind.ReturnToReserve? then ReadRow(d, op.command.registrationId).None?
    else exists i :: 0 <= i < |op.changes| && ReadRow(d, op.changes[i].registrationId).None?
  }

  /** A tablet may only create a participant whose birth date and gender are given. */
  predicate DetailsMissing(command: Command) {
    command.kind.CreateRegistration? && command.person.Some? &&
    (command.person.value.birthDate == "" || command.person.value.gender == "")
  }

  predicate NumberTaken(d: Desk, op: Operation) {
    TakesNumber(op.command.kind) && op.command.bib != "" &&
    CheckNumber(d, op.command.registrationId, op.command.bib).Some?
  }

  predicate Refused(v: Verdict, outcome: Outcome, code: Code) {
    v == Verdict(outcome, Some(code), [])
  }

  /** The verdict on an operation: the first gate that stops it, or the merge decision on the rows as they stand. */
  ghost predicate GatedVerdict(d: Desk, c: Connection, op: Operation, v: Verdict)
    requires op.changes != []
  {
    var command := op.command;
    if op.changes[0].before.eventId != c.eventId then Refused(v, Rejected, EventMismatch)
    else if NamesItself(op) then Refused(v, Rejected, DependencyCycle)
    else if !SeenAll(d, op) then Refused(v, Waiting, DependencyMissing)
    else if NumberTaken(d, op) then Refused(v, Conflict, CheckNumber(d, command.registrationId, command.bib).value)
    else if command.kind.CreateRegistration? && command.registrationId in d.members then Refused(v, Conflict, RegistrationAlreadyExists)
    else if NamesRace(command.kind) && command.raceId !in d.races then Refused(v, Rejected, InvalidTarget)
    else if DetailsMissing(command) then Refused(v, Rejected, PersonDetailsRequired)
    else if RowMissing(d, op) then Refused(v, Rejected, RegistrationNotFound)
    else if command.kind.ReturnToReserve? && command.targetId in d.members then Refused(v, Conflict, RegistrationAlreadyExists)
    else if command.kind.AssignNumber? && ReadRow(d, command.registrationId).value.hasTimingEvidence then
      Refused(v, Conflict, TimingReviewRequired)
    else v == MergeDecision(d, CurrentRows(d, op), op)
  }

  lemma {:induction false} HeadsAreNamed(d: Desk, op: Operation)
    ensures NamesHead(op, op.operationId) <==> NamesItself(op)
    ensures HeadsAccepted(d, op) <==> SeenAll(d, op)
  {
    if NamesHead(op, op.operationId) {
      var i :| 0 <= i < |op.bases| && op.operationId in op.bases[i].heads;
      assert op.bases[i] in op.bases;
    }
    if HeadsAccepted(d, op) {
      forall b, h | b in op.bases && h in b.heads
        ensures Accepted(d, h)
      {
        var i :| 0 <= i < |op.bases| && op.bases[i] == b;
        assert h in op.bases[i].heads;
      }
    }
    if SeenAll(d, op) {
      forall i, h | 0 <= i < |op.bases| && h in op.bases[i].heads
        ensures Accepted(d, h)
      {
        assert op.bases[i] in op.bases;
      }
    }
  }

  /** The gates behind the heads. */
  ghost predicate InnerVerdict(d: Desk, op: Operation, v: Verdict) {
    var command := op.command;
    if NumberTaken(d, op) then Refused(v, Conflict, CheckNumber(d, command.registrationId, command.bib).value)
    else if command.kind.CreateRegistration? && command.registrationId in d.members then Refused(v, Conflict, RegistrationAlreadyExists)
    else if NamesRace(command.kind) && command.raceId !in d.races then Refused(v, Rejected, InvalidTarget)
    else if DetailsMissing(command) then Refused(v, Rejected, PersonDetailsRequired)
    else if RowMissing(d, op) then Refused(v, Rejected, RegistrationNotFound)
    else if command.kind.ReturnToReserve? && command.targetId in d.members then Refused(v, Conflict, RegistrationAlreadyExists)
    else if command.kind.AssignNumber? && ReadRow(d, command.registrationId).value.hasTimingEvidence then
      Refused(v, Conflict, TimingReviewRequired)
    else |CurrentRows(d, op)| == |op.changes| && v == MergeDecision(d, CurrentRows(d, op), op)
  }

  lemma {:induction false} NumberVerdict(d: Desk, op: Operation)
    requires ParsedOperation(op) && Consistent(d) && (op.command.kind.AssignNumber? || op.command.kind.CreateRegistration?)
    requires AssessNumber(d, op).Ok?
    ensures InnerVerdict(d, op, AssessNumber(d, op).value.verdict)
  {
    var command := op.command;
    var passes := !NumberTaken(d, op) &&
      if command.kind.CreateRegistration? then command.registrationId !in d.members
      else ReadRow(d, command.registrationId).Some?;
    if passes {
      NumberRow(d, op);
    }
  }

  lemma {:induction false} ReturnVerdict(d: Desk, op: Operation)
    requires ParsedOperation(op) && Consistent(d) && op.command.kind.ReturnToReserve? && EventOf(op) == d.eventId
    requires AssessReturn(d, op).Ok?
    ensures InnerVerdict(d, op, AssessReturn(d, op).value.verdict)
  {
    var command := op.command;
    ParsedReturn(op);
    if ReadRow(d, command.registrationId).Some? && command.targetId !in d.members {
      ReturnRows(d, op);
    }
  }

  lemma {:induction false} RowsVerdict(d: Desk, op: Operation)
    requires ParsedOperation(op) && Consistent(d) && !TakesNumber(op.command.kind) && AssessRows(d, op).Ok?
    ensures InnerVerdict(d, op, AssessRows(d, op).value.verdict)
  {
    if ReadAll(d, op.changes).Some? {
      ReadAllIsCurrent(d, op);
    }
  }

  /** Every verdict of the receiver is the first gate's that stops the operation, or the merge decision if none does. */
  lemma {:induction false} GatesInOrder(d: Desk, c: Connection, op: Operation)
    requires ParsedOperation(op) && Consistent(d) && c.eventId == d.eventId && Assess(d, c, op).Ok?
    ensures GatedVerdict(d, c, op, Assess(d, c, op).value.verdict)
  {
    HeadsAreNamed(d, op);
    if EventOf(op) == c.eventId && !NamesItself(op) && SeenAll(d, op) {
      if op.command.kind.ReturnToReserve? {
        ReturnVerdict(d, op);
      } else if op.command.kind.AssignNumber? || op.command.kind.CreateRegistration? {
        NumberVerdict(d, op);
      } else {
        RowsVerdict(d, op);
      }
    }
  }

  // What may be built on.

  predicate TakesEffect(outcome: Outcome) {
    outcome.Applied? || outcome.Equivalent?
  }

  lemma {:induction false} EntryInEffect(f: Feed, e: Entry, id: string)
    requires Append(f, e).Ok?
    ensures InEffect(Append(f, e).value.live, id) <==> InEffect(f.live, id) || (e.actionId == id && TakesEffect(e.outcome))
    ensures Append(f, e).value.archive == f.archive
  {
    var g, n := Append(f, e).value, |f.live|;
    assert g.live == f.live + [e.(sequence := f.head + 1)];
    assert forall i :: 0 <= i < n ==> g.live[i] == f.live[i];
    assert g.live[n].actionId == e.actionId && g.live[n].outcome == e.outcome;
    if InEffect(f.live, id) {
      var i :| 0 <= i < n && f.live[i].actionId == id && (f.live[i].outcome.Applied? || f.live[i].outcome.Equivalent?);
      assert g.live[i].actionId == id;
    }
    if e.actionId == id && TakesEffect(e.outcome) {
      assert g.live[n].actionId == id;
    }
  }

  lemma {:induction false} PublishedInEffect(f: Feed, op: Operation, v: Verdict, id: string)
    requires Publish(f, op, v.outcome, v.code, v.changes).Ok?
    ensures var g := Publish(f, op, v.outcome, v.code, v.changes).value;
            g.archive == f.archive &&
            (InEffect(f.live, id) ==> InEffect(g.live, id)) &&
            (InEffect(g.live, id) ==> InEffect(f.live, id) || (op.operationId == id && TakesEffect(v.outcome)))
  {
    var e := PublishedEntry(op, v.outcome, v.code, v.changes);
    if Append(f, e).Ok? {
      EntryInEffect(f, e, id);
    }
  }

  lemma {:induction false} RecordAccepts(d: Desk, e: Desk, op: Operation, v: Verdict, id: string)
    requires op.changes != [] && Persist(d, op, v) == Ok(e) && !Decided(d, op.operationId)
    requires if op.operationId in d.operations then d.operations[op.operationId].eventId == d.eventId else EventOf(op) == d.eventId
    ensures Accepted(e, id) <==> Accepted(d, id) || (id == op.operationId && TakesEffect(v.outcome))
  {
    PersistKeepsRows(d, op, v);
    PublishedInEffect(d.feed, op, v, id);
  }

  /** A decided operation may be built on from then on exactly if it took effect; no other name is affected. */
  lemma {:induction false} ReceiptAccepts(d: Desk, c: Connection, op: Operation, id: string)
    requires ParsedOperation(op) && Consistent(d) && ReceiveOne(d, c, op).reply.Ok? && Ours(d, c, op)
    ensures Accepted(ReceiveOne(d, c, op).desk, id) <==>
            Accepted(d, id) ||
            (id == op.operationId && !Decided(d, id) && TakesEffect(ReceiveOne(d, c, op).reply.value.outcome))
  {
    ReceiveOrAdmit(d, c, op);
    if !Decided(d, op.operationId) {
      var a := AdmitWell(d, c, op);
      var r := ReceiveOne(d, c, op);
      AssessedAccepts(d, op, a, id);
      RecordAccepts(a.desk, r.desk, op, a.verdict, id);
    }
  }

  lemma {:induction false} AssessedAccepts(d: Desk, op: Operation, a: Assessed, id: string)
    requires AssessedWell(d, op, a)
    ensures a.desk == d.(rows := a.desk.rows, members := a.desk.members)
    ensures Accepted(a.desk, id) <==> Accepted(d, id)
  {
  }
}
