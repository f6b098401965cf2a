/** Numbers stay unique, and evidence stays put, under any sequence of received operations. */
module ReceiverBibs {
  import opened Wrappers
  import opened TextRules
  import opened Registrations
  import opened Transitions
  import opened TransitionLaws
  import opened UndoLaws
  import opened Operations
  import opened FeedLog
  import opened Tables
  import opened Receiver
  import opened ReceiverLaws

  // Timing evidence.

  /** A row read with timing evidence is left as it was, except for its packet mark. */
  predicate EvidenceHeld(d: Desk, d': Desk, id: string) {
    ReadRow(d, id).Some? && ReadRow(d, id).value.hasTimingEvidence ==>
      id in d'.rows && (d'.rows[id] == d.rows[id] ||
                        d'.rows[id].value == ReadRow(d, id).value.(issued := d'.rows[id].value.issued))
  }

  lemma {:induction false} WrittenRowsHoldEvidence(d: Desk, d': Desk, op: Operation, changes: seq<Change>, id: string)
    requires Aligned(CurrentRows(d, op), op) && GoodChanges(CurrentRows(d, op), op.command.kind, changes)
    requires Wrote(d, d', changes, [op.operationId])
    ensures EvidenceHeld(d, d', id)
  {
    var ch := LastFor(changes, id);
    if ch.Some? && ReadRow(d, id).Some? {
      var current := CurrentRows(d, op);
      GoodRowsAreNamed(current, op, changes);
      var i :| 0 <= i < |op.changes| && op.changes[i].registrationId == id;
      FindAligned(current, op, i);
      var j :| 0 <= j < |changes| && changes[j] == ch.value;
      assert GoodChange(current, op.command.kind, changes[j]);
    }
  }

  /** Whatever tablets send, corrections included, rows that took part in timing change at most in their packet mark. */
  lemma {:induction false} ReceiveHoldsEvidence(d: Desk, c: Connection, op: Operation, id: string)
    requires ParsedOperation(op) && Consistent(d)
    ensures EvidenceHeld(d, ReceiveOne(d, c, op).desk, id)
  {
    ReceiveOrAdmit(d, c, op);
    if ReceiveOne(d, c, op).desk != d && Admit(d, c, op).reply.Ok? {
      var a := AdmitWell(d, c, op);
      PersistKeepsRows(a.desk, op, a.verdict);
      if a.verdict.outcome.Applied? {
        WrittenRowsHoldEvidence(d, a.desk, op, a.verdict.changes, id);
      }
    }
  }

  // Numbers.

  predicate Live(d: Desk, id: string) {
    id in d.rows && !d.rows[id].deleted
  }

  /** Rows name themselves and this event and have members, and each live row's member carries the row's number. */
  ghost predicate Numbered(d: Desk) {
    Consistent(d) && forall id :: Live(d, id) ==> d.members[id].number == BibNumber(d.rows[id].value.bib)
  }

  /** No two live rows share a number. */
  ghost predicate UniqueBibs(d: Desk) {
    forall x, y :: Live(d, x) && Live(d, y) && x != y && d.rows[x].value.bib == d.rows[y].value.bib ==>
      d.rows[x].value.bib == ""
  }

  /** Where the number on a changed row comes from: kept, taken off, or the command's own. */
  predicate BibFrom(command: Command, ch: Change) {
    ch.after.bib == ch.before.bib || ch.after.bib == "" ||
    (ch.after.bib == command.bib && AssignedBib(command.bib) &&
     (command.kind.AssignNumber? || command.kind.CreateRegistration? || command.kind.ReturnToReserve?))
  }

  lemma {:induction false} OneRowBib(records: seq<Registration>, source: Registration, command: Command)
    requires ApplyOne(records, source, command).Ok?
    ensures BibFrom(command, Changed(source, ApplyOne(records, source, command).value))
    ensures command.kind.CreateRegistration? ==> source.bib == ""
  {
  }

  lemma {:induction false} MoveBib(records: seq<Registration>, source: Registration, command: Command)
    requires Move(records, source, command).Ok?
    ensures forall ch :: ch in Move(records, source, command).value ==> BibFrom(command, ch)
  {
  }

  lemma {:induction false} ApplyBib(records: seq<Registration>, command: Command)
    requires Apply(records, command).Ok?
    ensures forall ch :: ch in Apply(records, command).value ==> BibFrom(command, ch)
  {
    var source := Find(records, command.registrationId).value;
    if IsMove(command.kind) {
      MoveBib(records, source, command);
    } else if !command.kind.ReturnToReserve? {
      OneRowBib(records, source, command);
    }
  }

  lemma {:induction false} RerunBib(d: Desk, current: seq<Registration>, op: Operation)
    requires op.command.kind.CorrectMove? ==> op.command.operationId in d.operations
    requires Rerun(d, current, op).Ok?
    ensures forall ch :: ch in Rerun(d, current, op).value ==> BibFrom(op.command, ch)
  {
    if op.command.kind.CorrectMove? {
      ReverseIsGood(current, d.operations[op.command.operationId].operation.changes, op.command.reason);
    } else {
      ApplyBib(current, op.command);
    }
  }

  /** A number new to its row: the command's, free in the store, and the only number the operation leaves. */
  predicate FreshBib(d: Desk, op: Operation, changes: seq<Change>, ch: Change) {
    ch.after.bib == op.command.bib && AssignedBib(op.command.bib) &&
    CheckNumber(d, op.command.registrationId, op.command.bib).None? &&
    LastFor(changes, op.command.registrationId).Some? &&
    forall other :: other in changes && other != ch ==> other.after.bib == ""
  }

  predicate BibKept(d: Desk, op: Operation, changes: seq<Change>, ch: Change) {
    ch.after.bib == ch.before.bib || ch.after.bib == "" || FreshBib(d, op, changes, ch)
  }

  predicate NumbersPlanned(d: Desk, op: Operation, changes: seq<Change>) {
    (forall ch :: ch in changes ==> BibKept(d, op, changes, ch)) &&
    (forall i :: 0 <= i < |op.changes| ==> ReadRow(d, op.changes[i].registrationId).Some? || op.changes[i].before.bib == "")
  }

  lemma {:induction false} RowsPlanned(d: Desk, op: Operation)
    requires ParsedOperation(op) && Consistent(d) && AssessRows(d, op).Ok?
    requires AssessRows(d, op).value.verdict.outcome.Applied?
    requires !op.command.kind.ReturnToReserve? && !op.command.kind.AssignNumber? && !op.command.kind.CreateRegistration?
    ensures NumbersPlanned(d, op, AssessRows(d, op).value.verdict.changes)
  {
    var current := ReadAll(d, op.changes).value;
    AppliedIsRerun(d, current, op);
    RerunBib(d, current, op);
    assert AssessRows(d, op).value.verdict == MergeDecision(d, current, op);
  }

  lemma {:induction false} OnePlanned(d: Desk, row: Registration, op: Operation)
    requires op.command.kind.AssignNumber? || op.command.kind.CreateRegistration?
    requires |op.changes| == 1 && Aligned([row], op) && op.changes[0].registrationId == op.command.registrationId
    requires op.command.bib != "" ==> CheckNumber(d, op.command.registrationId, op.command.bib).None?
    requires MergeDecision(d, [row], op).outcome.Applied?
    ensures forall ch :: ch in MergeDecision(d, [row], op).changes ==>
              BibKept(d, op, MergeDecision(d, [row], op).changes, ch)
  {
    DecisionIsMerge(d, [row], op);
    AppliedChangesSomething(d, [row], op);
    var changes := MergeDecision(d, [row], op).changes;
    AppliedIsRerun(d, [row], op);
    RerunBib(d, [row], op);
    OneRowOneChange(row, op, changes);
    assert changes == [changes[0]];
    assert changes[..0] == [];
  }

  lemma {:induction false} NumberPlanned(d: Desk, op: Operation)
    requires ParsedOperation(op) && Consistent(d) && AssessNumber(d, op).Ok?
    requires AssessNumber(d, op).value.verdict.outcome.Applied?
    requires op.command.kind.AssignNumber? || op.command.kind.CreateRegistration?
    ensures NumbersPlanned(d, op, AssessNumber(d, op).value.verdict.changes)
  {
    ParsedNumber(op);
    NumberRow(d, op);
    var row := CurrentOf(d, op, 0);
    assert AssessNumber(d, op) == NumberOne(d, row, op);
    NumberOnePlanned(d, row, op);
  }

  lemma {:induction false} NumberOnePlanned(d: Desk, row: Registration, op: Operation)
    requires op.command.kind.AssignNumber? || op.command.kind.CreateRegistration?
    requires |op.changes| == 1 && Aligned([row], op) && op.changes[0].registrationId == op.command.registrationId
    requires op.command.bib != "" ==> CheckNumber(d, op.command.registrationId, op.command.bib).None?
    requires NumberOne(d, row, op).Ok? && NumberOne(d, row, op).value.verdict.outcome.Applied?
    ensures forall ch :: ch in NumberOne(d, row, op).value.verdict.changes ==>
              BibKept(d, op, NumberOne(d, row, op).value.verdict.changes, ch)
  {
    assert NumberOne(d, row, op).value.verdict == MergeDecision(d, [row], op);
    OnePlanned(d, row, op);
  }

  lemma {:induction false} ReturnBibs(records: seq<Registration>, command: Command)
    requires command.kind.ReturnToReserve? && Apply(records, command).Ok?
    ensures var c := Apply(records, command).value;
            |c| == 2 && c[0].after.bib == "" && c[1].after.bib == command.bib && AssignedBib(command.bib)
  {
  }

  lemma {:induction false} TwoPlanned(d: Desk, row: Registration, empty: Registration, op: Operation)
    requires op.command.kind.ReturnToReserve? && |op.changes| == 2
    requires CheckNumber(d, op.command.registrationId, op.command.bib).None?
    requires MergeDecision(d, [row, empty], op).outcome.Applied?
    ensures forall ch :: ch in MergeDecision(d, [row, empty], op).changes ==>
              BibKept(d, op, MergeDecision(d, [row, empty], op).changes, ch)
  {
    AppliedIsRerun(d, [row, empty], op);
    ReturnBibs([row, empty], op.command);
    ReturnChanges([row, empty], op.command);
    PairPlanned(d, op, MergeDecision(d, [row, empty], op).changes);
  }

  lemma {:induction false} PairPlanned(d: Desk, op: Operation, changes: seq<Change>)
    requires |changes| == 2 && changes[0].after.bib == "" && changes[1].after.bib == op.command.bib
    requires changes[0].registrationId == op.command.registrationId && AssignedBib(op.command.bib)
    requires CheckNumber(d, op.command.registrationId, op.command.bib).None?
    ensures forall ch :: ch in changes ==> BibKept(d, op, changes, ch)
  {
    assert changes[..1] == [changes[0]] && changes[..1][..0] == [];
    assert changes == [changes[0], changes[1]];
  }

  lemma {:induction false} ReturnPlanned(d: Desk, op: Operation)
    requires ParsedOperation(op) && op.command.kind.ReturnToReserve? && Consistent(d) && EventOf(op) == d.eventId
    requires AssessReturn(d, op).Ok? && AssessReturn(d, op).value.verdict.outcome.Applied?
    ensures NumbersPlanned(d, op, AssessReturn(d, op).value.verdict.changes)
  {
    ParsedReturn(op);
    ReturnRows(d, op);
    var row, empty := ReadRow(d, op.command.registrationId).value, op.changes[1].before;
    assert AssessReturn(d, op) == ReturnTwo(d, row, empty, op);
    assert ReturnTwo(d, row, empty, op).value.verdict == MergeDecision(d, [row, empty], op);
    TwoPlanned(d, row, empty, op);
  }

  lemma {:induction false} AssessPlanned(d: Desk, c: Connection, op: Operation)
    requires ParsedOperation(op) && Consistent(d) && c.eventId == d.eventId && Assess(d, c, op).Ok?
    requires Assess(d, c, op).value.verdict.outcome.Applied?
    ensures NumbersPlanned(d, op, Assess(d, c, op).value.verdict.changes)
  {
    if op.command.kind.ReturnToReserve? {
      ReturnPlanned(d, op);
    } else if op.command.kind.AssignNumber? || op.command.kind.CreateRegistration? {
      NumberPlanned(d, op);
    } else {
      RowsPlanned(d, op);
    }
  }

  /** What a written row's number is, in terms of the store before. */
  lemma {:induction false} WrittenBib(d: Desk, op: Operation, changes: seq<Change>, ch: Change)
    requires Aligned(CurrentRows(d, op), op) && GoodChanges(CurrentRows(d, op), op.command.kind, changes)
    requires Consistent(d) && NumbersPlanned(d, op, changes) && ch in changes && ch.after.bib != ""
    ensures (Live(d, ch.registrationId) && d.rows[ch.registrationId].value.bib == ch.after.bib) || FreshBib(d, op, changes, ch)
  {
    var current := CurrentRows(d, op);
    GoodRowsAreNamed(current, op, changes);
    var i :| 0 <= i < |op.changes| && op.changes[i].registrationId == ch.registrationId;
    FindAligned(current, op, i);
    var j :| 0 <= j < |changes| && changes[j] == ch;
    assert GoodChange(current, op.command.kind, changes[j]);
    assert BibKept(d, op, changes, ch);
    assert ch.before == CurrentOf(d, op, i);
  }

  ghost predicate Planned(d: Desk, d': Desk, op: Operation, changes: seq<Change>) {
    Aligned(CurrentRows(d, op), op) && GoodChanges(CurrentRows(d, op), op.command.kind, changes) &&
    NumbersPlanned(d, op, changes) && Wrote(d, d', changes, [op.operationId])
  }

  /** A live row either kept its number or holds the command's fresh one. */
  lemma {:induction false} LiveBib(d: Desk, d': Desk, op: Operation, changes: seq<Change>, x: string)
    requires Consistent(d) && Planned(d, d', op, changes) && Live(d', x) && d'.rows[x].value.bib != ""
    ensures (Live(d, x) && d.rows[x].value.bib == d'.rows[x].value.bib) ||
            (LastFor(changes, x).Some? && d'.rows[x].value == LastFor(changes, x).value.after &&
             FreshBib(d, op, changes, LastFor(changes, x).value))
  {
    if LastFor(changes, x).Some? {
      WrittenBib(d, op, changes, LastFor(changes, x).value);
    }
  }

  lemma {:induction false} FreshBibIsAlone(d: Desk, d': Desk, op: Operation, changes: seq<Change>, x: string, y: string)
    requires Numbered(d) && Planned(d, d', op, changes) && Live(d', y) && x != y
    requires LastFor(changes, x).Some? && FreshBib(d, op, changes, LastFor(changes, x).value)
    ensures d'.rows[y].value.bib != op.command.bib
  {
    AssignedBibHasNumber(op.command.bib);
    if LastFor(changes, y).Some? {
      assert LastFor(changes, y).value != LastFor(changes, x).value;
    } else {
      assert y != op.command.registrationId && Live(d, y);
      assert d.members[y].number == BibNumber(d.rows[y].value.bib);
    }
  }

  lemma {:induction false} WritesKeepBibs(d: Desk, d': Desk, op: Operation, changes: seq<Change>)
    requires Numbered(d) && UniqueBibs(d) && Planned(d, d', op, changes)
    ensures UniqueBibs(d')
  {
    forall x, y | Live(d', x) && Live(d', y) && x != y && d'.rows[x].value.bib == d'.rows[y].value.bib
      ensures d'.rows[x].value.bib == ""
    {
      if d'.rows[x].value.bib != "" {
        LiveBib(d, d', op, changes, x);
        LiveBib(d, d', op, changes, y);
        if LastFor(changes, x).Some? && FreshBib(d, op, changes, LastFor(changes, x).value) {
          FreshBibIsAlone(d, d', op, changes, x, y);
        } else if LastFor(changes, y).Some? && FreshBib(d, op, changes, LastFor(changes, y).value) {
          FreshBibIsAlone(d, d', op, changes, y, x);
        }
      }
    }
  }

  lemma {:induction false} WritesKeepNumbers(d: Desk, d': Desk, op: Operation, changes: seq<Change>)
    requires Numbered(d) && Aligned(CurrentRows(d, op), op) && op.changes[0].before.eventId == d.eventId
    requires GoodChanges(CurrentRows(d, op), op.command.kind, changes) && Wrote(d, d', changes, [op.operationId])
    ensures Numbered(d')
  {
    forall id | id in d'.rows
      ensures id in d'.members && d'.rows[id].value.id == id && d'.rows[id].value.eventId == d'.eventId
      ensures Live(d', id) ==> d'.members[id].number == BibNumber(d'.rows[id].value.bib)
    {
      RowStaysNumbered(d, d', op, changes, id);
    }
  }

  lemma {:induction false} RowStaysNumbered(d: Desk, d': Desk, op: Operation, changes: seq<Change>, id: string)
    requires Numbered(d) && Aligned(CurrentRows(d, op), op) && op.changes[0].before.eventId == d.eventId
    requires GoodChanges(CurrentRows(d, op), op.command.kind, changes) && Wrote(d, d', changes, [op.operationId])
    requires id in d'.rows
    ensures id in d'.members && d'.rows[id].value.id == id && d'.rows[id].value.eventId == d'.eventId
    ensures Live(d', id) ==> d'.members[id].number == BibNumber(d'.rows[id].value.bib)
  {
    if LastFor(changes, id).Some? {
      WrittenRowIsNamed(d, op, changes, LastFor(changes, id).value);
    }
  }

  lemma {:induction false} WrittenRowIsNamed(d: Desk, op: Operation, changes: seq<Change>, ch: Change)
    requires Aligned(CurrentRows(d, op), op) && GoodChanges(CurrentRows(d, op), op.command.kind, changes) && ch in changes
    requires Consistent(d) && op.changes[0].before.eventId == d.eventId
    ensures ch.after.id == ch.registrationId && ch.after.eventId == d.eventId
  {
    var current := CurrentRows(d, op);
    GoodRowsAreNamed(current, op, changes);
    var j :| 0 <= j < |changes| && changes[j] == ch;
    assert GoodChange(current, op.command.kind, changes[j]);
    var i :| 0 <= i < |op.changes| && op.changes[i].registrationId == ch.registrationId;
    FindAligned(current, op, i);
  }

  /**
   From a store whose live rows have distinct numbers, mirrored by their members, no received operation ever
   makes two live rows share a number or a member disagree with its row.
   */
  lemma {:induction false} ReceiveKeepsBibs(d: Desk, c: Connection, op: Operation)
    requires ParsedOperation(op) && Numbered(d) && UniqueBibs(d)
    ensures Numbered(ReceiveOne(d, c, op).desk) && UniqueBibs(ReceiveOne(d, c, op).desk)
  {
    ReceiveOrAdmit(d, c, op);
    if ReceiveOne(d, c, op).desk != d && Admit(d, c, op).reply.Ok? {
      var a := AdmitWell(d, c, op);
      PersistKeepsRows(a.desk, op, a.verdict);
      if a.verdict.outcome.Applied? {
        AssessPlanned(d, c, op);
        AppliedInThisEvent(d, c, op, a);
        WritesKeepBibs(d, a.desk, op, a.verdict.changes);
        WritesKeepNumbers(d, a.desk, op, a.verdict.changes);
      }
      SameRowsSameBibs(a.desk, Admit(d, c, op).desk);
    }
  }

  lemma {:induction false} AppliedInThisEvent(d: Desk, c: Connection, op: Operation, a: Assessed)
    requires op.changes != [] && Assess(d, c, op) == Ok(a) && a.verdict.outcome.Applied?
    ensures EventOf(op) == c.eventId
  {
  }

  lemma {:induction false} SameRowsSameBibs(d: Desk, d': Desk)
    requires d'.rows == d.rows && d'.members == d.members && d'.eventId == d.eventId
    ensures Numbered(d) ==> Numbered(d')
    ensures UniqueBibs(d) ==> UniqueBibs(d')
  {
    assert forall id :: Live(d', id) <==> Live(d, id);
  }

  /** An operation and the connection it came in on. */
  datatype Sent = Sent(connection: Connection, operation: Operation)

  /** Operations from any number of tablets, one after the other. */
  function TabletRun(d: Desk, sent: seq<Sent>): Desk
    requires forall s :: s in sent ==> s.operation.changes != []
  {
    if sent == [] then d
    else ReceiveOne(TabletRun(d, sent[..|sent| - 1]), sent[|sent| - 1].connection, sent[|sent| - 1].operation).desk
  }

  /** Numbers stay unique, and members stay in step with their rows, over every run of tablet operations. */
  lemma {:induction false} TabletRunKeepsBibs(d: Desk, sent: seq<Sent>)
    requires Numbered(d) && UniqueBibs(d)
    requires forall s :: s in sent ==> ParsedOperation(s.operation) && s.operation.changes != []
    ensures Numbered(TabletRun(d, sent)) && UniqueBibs(TabletRun(d, sent))
  {
    if sent != [] {
      var last := sent[|sent| - 1];
      assert last in sent;
      TabletRunKeepsBibs(d, sent[..|sent| - 1]);
      ReceiveKeepsBibs(TabletRun(d, sent[..|sent| - 1]), last.connection, last.operation);
    }
  }
}
