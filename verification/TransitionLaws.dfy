/** What every command keeps, and which fields each command may touch. */
module TransitionLaws {
  import opened Wrappers
  import opened TextRules
  import opened Registrations
  import opened Transitions

  lemma {:induction false} NoFaultMeansValid(records: seq<Registration>, seen: set<string>)
    requires Fault(records, seen).None?
    ensures forall r :: r in records ==> ValidRegistration(r) && r.id !in seen
    ensures forall i, j :: 0 <= i < j < |records| ==> records[i].id != records[j].id
  {
    if records != [] {
      NoFaultMeansValid(records[1..], seen + {records[0].id});
    }
  }

  /** The fields an accepted operation of this kind may change. */
  predicate FrameAllows(kind: CommandType, ch: Change) {
    InFrame(ch, kind.ChangeRace?, MovesBib(kind), MovesEpc(kind))
  }

  /** Rows that took part in timing can only have their packet mark changed. */
  predicate EvidenceProtected(ch: Change) {
    ch.before.hasTimingEvidence ==> ch.after == ch.before.(issued := ch.after.issued)
  }

  predicate GoodChange(records: seq<Registration>, kind: CommandType, ch: Change) {
    Find(records, ch.registrationId) == Some(ch.before) && ValidRegistration(ch.after) &&
    FrameAllows(kind, ch) && EvidenceProtected(ch)
  }

  lemma {:induction false} NumberedIsGood(records: seq<Registration>, source: Registration, after: Registration, command: Command)
    requires ValidRegistration(after) && Find(records, source.id) == Some(source) && !source.hasTimingEvidence
    requires after == source.(person := after.person)
    requires command.kind.AssignNumber? || command.kind.CreateRegistration?
    requires Numbered(records, source, after, command).Ok?
    ensures GoodChange(records, command.kind, Changed(source, Numbered(records, source, after, command).value))
  {
  }

  lemma {:induction false} CreateIsGood(records: seq<Registration>, source: Registration, command: Command)
    requires ValidRegistration(source) && Find(records, source.id) == Some(source) && command.kind.CreateRegistration?
    requires Create(records, source, command).Ok?
    ensures GoodChange(records, command.kind, Changed(source, Create(records, source, command).value))
  {
    var after := source.(person := command.person);
    assert ValidRegistration(after);
    if !(command.bib == "" && command.issuePacket == Some(false)) {
      NumberedIsGood(records, source, after, command);
    }
  }

  lemma {:induction false} EditIsGood(records: seq<Registration>, source: Registration, command: Command)
    requires ValidRegistration(source) && Find(records, source.id) == Some(source) && command.kind.EditPerson?
    requires Edit(source, command).Ok?
    ensures GoodChange(records, command.kind, Changed(source, Edit(source, command).value))
  {
  }

  lemma {:induction false} SwitchRaceIsGood(records: seq<Registration>, source: Registration, command: Command)
    requires ValidRegistration(source) && Find(records, source.id) == Some(source) && command.kind.ChangeRace?
    requires SwitchRace(source, command).Ok?
    ensures GoodChange(records, command.kind, Changed(source, SwitchRace(source, command).value))
  {
  }

  lemma {:induction false} PersonLeavesIsGood(records: seq<Registration>, source: Registration, command: Command)
    requires ValidRegistration(source) && Find(records, source.id) == Some(source)
    requires command.kind.ReleaseToReserve? || command.kind.ReplacePerson?
    requires ApplyOne(records, source, command).Ok?
    ensures GoodChange(records, command.kind, Changed(source, ApplyOne(records, source, command).value))
  {
  }

  lemma {:induction false} OneRowIsGood(records: seq<Registration>, source: Registration, command: Command)
    requires ValidRegistration(source) && Find(records, source.id) == Some(source)
    requires ApplyOne(records, source, command).Ok?
    ensures GoodChange(records, command.kind, Changed(source, ApplyOne(records, source, command).value))
  {
    match command.kind
    case AssignNumber => NumberedIsGood(records, source, source, command);
    case CreateRegistration => CreateIsGood(records, source, command);
    case EditPerson => EditIsGood(records, source, command);
    case ChangeRace => SwitchRaceIsGood(records, source, command);
    case ReleaseToReserve | ReplacePerson => PersonLeavesIsGood(records, source, command);
    case _ =>
  }

  predicate GoodChanges(records: seq<Registration>, kind: CommandType, c: seq<Change>) {
    |c| <= 2 && (|c| == 2 ==> c[0].registrationId != c[1].registrationId) &&
    forall i :: 0 <= i < |c| ==> GoodChange(records, kind, c[i])
  }

  lemma {:induction false} SingleIsGood(records: seq<Registration>, source: Registration, command: Command)
    requires ValidRegistration(source) && Find(records, source.id) == Some(source)
    requires Single(records, source, command).Ok?
    ensures GoodChanges(records, command.kind, Single(records, source, command).value)
  {
    OneRowIsGood(records, source, command);
  }

  lemma {:induction false} MoveIsGood(records: seq<Registration>, source: Registration, command: Command)
    requires ValidRegistration(source) && Find(records, source.id) == Some(source)
    requires forall r :: r in records ==> ValidRegistration(r)
    requires Move(records, source, command).Ok?
    ensures GoodChanges(records, command.kind, Move(records, source, command).value)
  {
  }

  lemma {:induction false} ReturnIsGood(records: seq<Registration>, source: Registration, command: Command)
    requires ValidRegistration(source) && Find(records, source.id) == Some(source)
    requires forall r :: r in records ==> ValidRegistration(r)
    requires command.kind.ReturnToReserve? && ReturnNumber(records, source, command).Ok?
    ensures GoodChanges(records, command.kind, ReturnNumber(records, source, command).value)
  {
  }

  /** Every accepted command changes at most two rows, each validly and within its frame. */
  lemma {:induction false} ApplyIsGood(records: seq<Registration>, command: Command)
    requires Apply(records, command).Ok?
    ensures GoodChanges(records, command.kind, Apply(records, command).value)
  {
    NoFaultMeansValid(records, {});
    var source := Find(records, command.registrationId).value;
    if IsMove(command.kind) {
      MoveIsGood(records, source, command);
    } else if command.kind.ReturnToReserve? {
      ReturnIsGood(records, source, command);
    } else {
      SingleIsGood(records, source, command);
    }
  }

  /** The same for the correction of a move: it restores earlier images, and only of rows without evidence. */
  lemma {:induction false} ReverseIsGood(records: seq<Registration>, original: seq<Change>, reason: string)
    requires ReverseMove(records, original, reason).Ok?
    ensures var c := ReverseMove(records, original, reason).value;
            |c| == 2 && c[0].registrationId != c[1].registrationId &&
            forall i :: 0 <= i < 2 ==>
              GoodChange(records, CorrectMove, c[i]) && c[i].after == original[i].before &&
              c[i].before.bib == c[i].after.bib && c[i].before.epc == c[i].after.epc &&
              c[i].before.raceId == c[i].after.raceId
  {
    var source, target := original[0], original[1];
    var move := InferredMove(source, target);
    NoFaultMeansValid([source.before, target.before], {});
    ApplyIsGood([source.before, target.before], move);
    assert original[0] == source && original[1] == target;
  }
}
