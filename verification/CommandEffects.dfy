/** What each command does to its rows, field by field, and exactly when it is accepted. */
module CommandEffects {
  import opened Wrappers
  import opened TextRules
  import opened Registrations
  import opened Transitions
  import opened TransitionLaws

  /** The rows a command is given: each valid, no two with one id. */
  predicate Roster(records: seq<Registration>) {
    (forall r :: r in records ==> ValidRegistration(r)) &&
    forall i, j :: 0 <= i < j < |records| ==> records[i].id != records[j].id
  }

  /** A person's details: named, printable, of a size that can be kept, and of a listed gender and a calendar birth date if any. */
  predicate ProperPerson(p: Person) {
    Identifier(p.id) && ValidReason(p.firstName + p.lastName) &&
    (forall t :: t in {p.firstName, p.lastName, p.birthDate, p.gender, p.team, p.city} ==> ValidText(t, 160)) &&
    p.gender in {"", "male", "female"} && (p.birthDate != "" ==> CalendarDate(p.birthDate))
  }

  /** A row is valid exactly if its names and status are proper, nobody is on a reserve, and its person, if any, is proper. */
  lemma {:induction false} RowIsProper(row: Registration)
    ensures var shaped := (forall t :: t in {row.id, row.eventId, row.raceId} ==> Identifier(t)) &&
                          (row.transferredTo.Some? ==> Identifier(row.transferredTo.value)) &&
                          row.status in {"registered", "dns", "dnf", "dsq"} && !(row.reserve && row.person.Some?);
            Validate(row) ==
            if !shaped then Some(InvalidRecords)
            else if row.person.Some? && !ProperPerson(row.person.value) then Some(InvalidPerson) else None
    ensures ValidRegistration(row) <==> Validate(row).None?
  {
    if row.person.Some? {
      PersonIsProper(row.person.value);
    }
  }

  lemma {:induction false} PersonIsProper(p: Person)
    ensures ValidPerson(p) <==> ProperPerson(p)
  {
  }

  // When a command is accepted.

  predicate Open(row: Registration) {
    !row.hasTimingEvidence && (row.status == "registered" || row.status == "dns") && row.transferredTo.None?
  }

  predicate Held(row: Registration) {
    !row.reserve && row.person.Some?
  }

  /** A row nobody has used: only its id, event and race are set. */
  predicate Blank(row: Registration) {
    CoinedId(row.id) && Identifier(row.eventId) && Identifier(row.raceId) && row.bib == "" && row.epc == "" &&
    row.person.None? && !row.reserve && !row.issued && row.status == "registered" && row.transferredTo.None? &&
    !row.hasTimingEvidence
  }

  predicate NumberFree(records: seq<Registration>, source: Registration, bib: string) {
    forall r :: r in records && r.eventId == source.eventId && r.id != source.id ==> r.bib != bib
  }

  predicate ProperNumber(records: seq<Registration>, source: Registration, command: Command) {
    AssignedBib(command.bib) && command.issuePacket.Some? && NumberFree(records, source, command.bib)
  }

  /** The person after the named details were given, every other detail as it was. */
  predicate Amended(was: Person, fields: map<Field, string>, now: Person) {
    now.id == was.id &&
    now.firstName == (if FirstName in fields then fields[FirstName] else was.firstName) &&
    now.lastName == (if LastName in fields then fields[LastName] else was.lastName) &&
    now.birthDate == (if BirthDate in fields then fields[BirthDate] else was.birthDate) &&
    now.gender == (if Gender in fields then fields[Gender] else was.gender) &&
    now.team == (if Team in fields then fields[Team] else was.team) &&
    now.city == (if City in fields then fields[City] else was.city)
  }

  predicate Details(fields: map<Field, string>) {
    fields.Keys <= {FirstName, LastName, BirthDate, Gender, Team, City}
  }

  /** A row a person can be moved to. */
  predicate Vacant(source: Registration, target: Registration, command: Command) {
    target.id != source.id && target.eventId == source.eventId &&
    target.reserve && !target.issued && !target.hasTimingEvidence && target.status == "registered" &&
    target.transferredTo.None? && command.issuePacket.Some? &&
    (command.kind.MoveRace? ==> target.raceId != source.raceId) &&
    (command.kind.AssignReserve? ==>
      target.bib != "" && command.returnSource.Some? && (command.returnSource.value ==> source.bib != ""))
  }

  /** A blank row of the source's event that can take its number back to the reserve. */
  predicate TakesNumber(source: Registration, target: Registration, command: Command) {
    target.id != source.id && Blank(target) && target.eventId == source.eventId && target.raceId == command.raceId
  }

  /** Some proper person comes out of the amendment. */
  ghost predicate CanAmend(person: Option<Person>, fields: map<Field, string>) {
    person.Some? && Details(fields) && exists p :: Amended(person.value, fields, p) && ValidPerson(p)
  }

  predicate CanVacate(records: seq<Registration>, source: Registration, command: Command) {
    exists t :: t in records && t.id == command.targetId && Vacant(source, t, command)
  }

  predicate CanReturn(records: seq<Registration>, source: Registration, command: Command) {
    AssignedBib(command.bib) && (source.bib == command.bib || (source.bib == "" && source.epc != "")) &&
    exists t :: t in records && t.id == command.targetId && TakesNumber(source, t, command)
  }

  predicate CanCreate(records: seq<Registration>, source: Registration, command: Command) {
    Blank(source) && source.eventId == command.eventId && source.raceId == command.raceId &&
    command.person.Some? && ValidPerson(command.person.value) &&
    ((command.bib == "" && command.issuePacket == Some(false)) || ProperNumber(records, source, command))
  }

  predicate CanReplace(source: Registration, command: Command) {
    Open(source) && command.person.Some? && command.issuePacket.Some? && ValidPerson(command.person.value) &&
    (source.person.Some? ==> source.person.value.id != command.person.value.id)
  }

  predicate CanChangeRace(source: Registration, command: Command) {
    source.bib == "" && source.epc == "" && !source.issued && Identifier(command.raceId) && command.raceId != source.raceId
  }

  ghost predicate Accepts(records: seq<Registration>, source: Registration, command: Command) {
    match command.kind
    case Issue => Held(source)
    case UndoIssue => ValidReason(command.reason)
    case CreateRegistration => CanCreate(records, source, command)
    case ReplacePerson => CanReplace(source, command)
    case ReleaseToReserve =>
      Held(source) && !source.hasTimingEvidence && (source.status == "registered" || source.status == "dns")
    case ClearNumber => Open(source) && Held(source)
    case UnassignNumber => Open(source) && Held(source)
    case AssignNumber =>
      Open(source) && Held(source) && source.bib == "" && !source.issued && ProperNumber(records, source, command)
    case SetDns => Open(source) && Held(source) && command.value.Some?
    case EditPerson => Open(source) && Held(source) && CanAmend(source.person, command.fields)
    case ChangeRace => Open(source) && Held(source) && CanChangeRace(source, command)
    case ReturnToReserve => Open(source) && Held(source) && CanReturn(records, source, command)
    case MoveRace => Open(source) && Held(source) && CanVacate(records, source, command)
    case MoveToReserve => Open(source) && Held(source) && CanVacate(records, source, command)
    case AssignReserve => Open(source) && Held(source) && CanVacate(records, source, command)
    case CorrectMove => false
    case ResolveConflict => false
  }

  // What an accepted command leaves, one field at a time.

  predicate GivesNumber(kind: CommandType) {
    kind.AssignNumber? || kind.CreateRegistration?
  }

  /** The person leaves the row and the row starts afresh. */
  predicate Vacates(kind: CommandType) {
    kind.ReleaseToReserve? || kind.MoveToReserve? || kind.AssignReserve?
  }

  predicate GivesUpNumber(command: Command) {
    command.kind.ClearNumber? || command.kind.UnassignNumber? || command.kind.ReturnToReserve? ||
    (command.kind.AssignReserve? && command.returnSource == Some(false))
  }

  predicate BibAfter(command: Command, was: string, now: string) {
    if GivesNumber(command.kind) then now == command.bib else if GivesUpNumber(command) then now == "" else now == was
  }

  predicate EpcAfter(command: Command, was: string, now: string) {
    if GivesUpNumber(command) && !command.kind.UnassignNumber? then now == "" else now == was
  }

  predicate PersonAfter(command: Command, was: Option<Person>, now: Option<Person>) {
    match command.kind
    case CreateRegistration | ReplacePerson => now == command.person
    case EditPerson => was.Some? && now.Some? && Amended(was.value, command.fields, now.value)
    case _ => if Vacates(command.kind) then now.None? else now == was
  }

  predicate ReserveAfter(command: Command, was: bool, now: bool) {
    match command.kind
    case ReleaseToReserve | MoveToReserve => now
    case AssignReserve => Some(now) == command.returnSource
    case ReplacePerson => !now
    case _ => now == was
  }

  predicate IssuedAfter(command: Command, was: bool, now: bool) {
    match command.kind
    case Issue => now
    case AssignNumber | CreateRegistration | ReplacePerson => Some(now) == command.issuePacket
    case SetDns | EditPerson | ChangeRace | MoveRace => now == was
    case _ => !now
  }

  predicate StatusAfter(command: Command, was: string, now: string) {
    match command.kind
    case SetDns => (now == "dns" || now == "registered") && (now == "dns" <==> command.value == Some(true))
    case MoveRace => now == "dns"
    case _ => if Vacates(command.kind) || command.kind.ReplacePerson? then now == "registered" else now == was
  }

  predicate TransferAfter(command: Command, was: Option<string>, now: Option<string>) {
    if command.kind.MoveRace? then now == Some(command.targetId)
    else if Vacates(command.kind) then now.None? else now == was
  }

  /** The command's own row before and after it. */
  predicate RowAfter(command: Command, was: Registration, now: Registration) {
    now.id == was.id && now.eventId == was.eventId && now.hasTimingEvidence == was.hasTimingEvidence &&
    now.raceId == (if command.kind.ChangeRace? then command.raceId else was.raceId) &&
    BibAfter(command, was.bib, now.bib) && EpcAfter(command, was.epc, now.epc) &&
    PersonAfter(command, was.person, now.person) && ReserveAfter(command, was.reserve, now.reserve) &&
    IssuedAfter(command, was.issued, now.issued) && StatusAfter(command, was.status, now.status) &&
    TransferAfter(command, was.transferredTo, now.transferredTo)
  }

  /** The other row of a two-row command: it takes over the person, or the number and chip. */
  predicate TargetAfter(command: Command, source: Registration, was: Registration, now: Registration) {
    now.id == was.id && now.eventId == was.eventId && now.raceId == was.raceId && now.status == was.status &&
    now.transferredTo == was.transferredTo && now.hasTimingEvidence == was.hasTimingEvidence &&
    if command.kind.ReturnToReserve? then
      now.bib == command.bib && now.epc == source.epc && now.person == was.person && now.reserve && now.issued == was.issued
    else
      now.bib == was.bib && now.epc == was.epc && now.person == source.person && !now.reserve &&
      Some(now.issued) == command.issuePacket
  }

  predicate TwoRows(kind: CommandType) {
    kind.MoveRace? || kind.MoveToReserve? || kind.AssignReserve? || kind.ReturnToReserve?
  }

  /** The changes of an accepted command: its own row if that changes, and the target row of a two-row command. */
  predicate Effect(records: seq<Registration>, source: Registration, command: Command, changes: seq<Change>) {
    if TwoRows(command.kind) then
      |changes| == 2 &&
      changes[0].registrationId == source.id && changes[0].before == source && RowAfter(command, source, changes[0].after) &&
      changes[1].registrationId == command.targetId && changes[1].before in records &&
      changes[1].before.id == command.targetId && TargetAfter(command, source, changes[1].before, changes[1].after)
    else if RowAfter(command, source, source) then changes == []
    else
      |changes| == 1 &&
      changes[0].registrationId == source.id && changes[0].before == source && RowAfter(command, source, changes[0].after)
  }

  // Proofs.

  lemma {:induction false} AmendedOnce(was: Person, fields: map<Field, string>, p: Person)
    ensures Amended(was, fields, p) <==> p == EditedPerson(was, fields)
  {
  }

  lemma {:induction false} RowAfterOnce(command: Command, was: Registration, x: Registration, y: Registration)
    requires RowAfter(command, was, x) && RowAfter(command, was, y)
    ensures x == y
  {
    if command.kind.EditPerson? {
      AmendedOnce(was.person.value, command.fields, x.person.value);
      AmendedOnce(was.person.value, command.fields, y.person.value);
    }
  }

  lemma {:induction false} FoundIsTheRow(records: seq<Registration>, row: Registration)
    requires Roster(records) && row in records
    ensures Find(records, row.id) == Some(row)
  {
    var found := Find(records, row.id).value;
    var i :| 0 <= i < |records| && records[i] == row;
    var j :| 0 <= j < |records| && records[j] == found;
    assert i == j;
  }

  lemma {:induction false} RosterHasNoFault(records: seq<Registration>, seen: set<string>)
    requires Roster(records) && forall r :: r in records ==> r.id !in seen
    ensures Fault(records, seen).None?
  {
    if records != [] {
      assert records[0] in records;
      assert Validate(records[0]).None?;
      forall r | r in records[1..]
        ensures r in records && r.id !in seen + {records[0].id}
      {
        var i :| 0 <= i < |records[1..]| && records[1..][i] == r;
        assert records[i + 1] == r;
      }
      RosterHasNoFault(records[1..], seen + {records[0].id});
    }
  }

  lemma {:induction false} NumberedExactly(records: seq<Registration>, source: Registration, after: Registration, command: Command)
    ensures Numbered(records, source, after, command).Ok? <==> ProperNumber(records, source, command)
  {
    if !Occupied(records, source, command.bib) {
      forall r | r in records && r.eventId == source.eventId && r.id != source.id
        ensures r.bib != command.bib
      {
        var i :| 0 <= i < |records| && records[i] == r;
      }
    } else {
      var i :| 0 <= i < |records| &&
        records[i].eventId == source.eventId && records[i].id != source.id && records[i].bib == command.bib;
      assert records[i] in records;
    }
  }

  lemma {:induction false} CreateExactly(records: seq<Registration>, source: Registration, command: Command)
    requires command.kind.CreateRegistration? && source.id == command.registrationId
    ensures Create(records, source, command).Ok? <==> Accepts(records, source, command)
    ensures Create(records, source, command).Ok? ==> RowAfter(command, source, Create(records, source, command).value)
  {
    NumberedExactly(records, source, source.(person := command.person), command);
  }

  lemma {:induction false} AmendExactly(person: Person, fields: map<Field, string>)
    ensures CanAmend(Some(person), fields) <==> PersonalFields(fields) && ValidPerson(EditedPerson(person, fields))
  {
    AmendedOnce(person, fields, EditedPerson(person, fields));
    forall q | Amended(person, fields, q)
      ensures q == EditedPerson(person, fields)
    {
      AmendedOnce(person, fields, q);
    }
  }

  lemma {:induction false} EditExactly(records: seq<Registration>, source: Registration, command: Command)
    requires command.kind.EditPerson?
    ensures Edit(source, command).Ok? <==> Accepts(records, source, command)
    ensures Edit(source, command).Ok? ==> RowAfter(command, source, Edit(source, command).value)
  {
    if source.person.Some? {
      AmendExactly(source.person.value, command.fields);
      AmendedOnce(source.person.value, command.fields, EditedPerson(source.person.value, command.fields));
    }
  }

  lemma {:induction false} OneRowExactly(records: seq<Registration>, source: Registration, command: Command)
    requires !TwoRows(command.kind) && source.id == command.registrationId
    ensures ApplyOne(records, source, command).Ok? <==> Accepts(records, source, command)
    ensures ApplyOne(records, source, command).Ok? ==> RowAfter(command, source, ApplyOne(records, source, command).value)
  {
    match command.kind
    case AssignNumber => NumberedExactly(records, source, source, command);
    case CreateRegistration => CreateExactly(records, source, command);
    case EditPerson => EditExactly(records, source, command);
    case _ =>
  }

  lemma {:induction false} SingleExactly(records: seq<Registration>, source: Registration, command: Command, c: seq<Change>)
    requires !TwoRows(command.kind) && source.id == command.registrationId
    ensures Single(records, source, command) == Ok(c) <==> Accepts(records, source, command) && Effect(records, source, command, c)
  {
    OneRowExactly(records, source, command);
    var after := ApplyOne(records, source, command);
    if after.Ok? {
      if RowAfter(command, source, source) {
        RowAfterOnce(command, source, source, after.value);
      }
      if |c| == 1 && RowAfter(command, source, c[0].after) {
        RowAfterOnce(command, source, c[0].after, after.value);
        assert c == [c[0]];
      }
    }
  }

  lemma {:induction false} TargetExactly(records: seq<Registration>, source: Registration, command: Command, t: Registration)
    requires Roster(records) && IsMove(command.kind) && t in records && t.id == command.targetId
    ensures Move(records, source, command).Ok? <==> Open(source) && Held(source) && Vacant(source, t, command)
    ensures Move(records, source, command).Ok? ==>
              var c := Move(records, source, command).value;
              c[1].before == t && Effect(records, source, command, c)
  {
    FoundIsTheRow(records, t);
  }

  lemma {:induction false} MoveExactly(records: seq<Registration>, source: Registration, command: Command)
    requires Roster(records) && IsMove(command.kind)
    ensures Move(records, source, command).Ok? <==> Accepts(records, source, command)
    ensures Move(records, source, command).Ok? ==> Effect(records, source, command, Move(records, source, command).value)
  {
    if t :| t in records && t.id == command.targetId {
      TargetExactly(records, source, command, t);
      forall u | u in records && u.id == command.targetId
        ensures u == t
      {
        FoundIsTheRow(records, u);
        FoundIsTheRow(records, t);
      }
    } else {
      assert Find(records, command.targetId).None?;
    }
  }

  lemma {:induction false} ReturnToExactly(records: seq<Registration>, source: Registration, command: Command, t: Registration)
    requires Roster(records) && command.kind.ReturnToReserve? && t in records && t.id == command.targetId
    ensures ReturnNumber(records, source, command).Ok? <==>
            Open(source) && Held(source) && AssignedBib(command.bib) &&
            (source.bib == command.bib || (source.bib == "" && source.epc != "")) && TakesNumber(source, t, command)
    ensures ReturnNumber(records, source, command).Ok? ==>
              Effect(records, source, command, ReturnNumber(records, source, command).value)
  {
    FoundIsTheRow(records, t);
  }

  lemma {:induction false} ReturnExactly(records: seq<Registration>, source: Registration, command: Command)
    requires Roster(records) && command.kind.ReturnToReserve?
    ensures ReturnNumber(records, source, command).Ok? <==> Accepts(records, source, command)
    ensures ReturnNumber(records, source, command).Ok? ==>
              Effect(records, source, command, ReturnNumber(records, source, command).value)
  {
    if t :| t in records && t.id == command.targetId {
      ReturnToExactly(records, source, command, t);
      forall u | u in records && u.id == command.targetId
        ensures u == t
      {
        FoundIsTheRow(records, u);
        FoundIsTheRow(records, t);
      }
    } else {
      assert Find(records, command.targetId).None?;
    }
  }

  lemma {:induction false} PairOnce(records: seq<Registration>, source: Registration, command: Command, c: seq<Change>, d: seq<Change>)
    requires Roster(records) && TwoRows(command.kind)
    requires Effect(records, source, command, c) && Effect(records, source, command, d)
    ensures c == d
  {
    FoundIsTheRow(records, c[1].before);
    FoundIsTheRow(records, d[1].before);
    RowAfterOnce(command, source, c[0].after, d[0].after);
    assert c[0] == d[0] && c[1] == d[1];
  }

  /** A command on a proper roster gives exactly the changes its fields say, exactly when it may. */
  lemma {:induction false} CommandExactly(records: seq<Registration>, command: Command, source: Registration, c: seq<Change>)
    requires Roster(records) && source in records && source.id == command.registrationId
    ensures Apply(records, command) == Ok(c) <==> Accepts(records, source, command) && Effect(records, source, command, c)
  {
    RosterHasNoFault(records, {});
    FoundIsTheRow(records, source);
    if !TwoRows(command.kind) {
      SingleExactly(records, source, command, c);
    } else {
      if IsMove(command.kind) {
        MoveExactly(records, source, command);
      } else {
        ReturnExactly(records, source, command);
      }
      if Accepts(records, source, command) && Effect(records, source, command, c) {
        PairOnce(records, source, command, c, Apply(records, command).value);
      }
    }
  }

  /** A command is only ever accepted on a proper roster that holds its row. */
  lemma {:induction false} RefusedOffRoster(records: seq<Registration>, command: Command)
    ensures Apply(records, command).Ok? ==> Roster(records) && exists s :: s in records && s.id == command.registrationId
  {
    if Apply(records, command).Ok? {
      NoFaultMeansValid(records, {});
      var source := Find(records, command.registrationId).value;
      assert source in records && source.id == command.registrationId;
    }
  }

  // Commands that take each other back.

  /** A second command on the same row that gives back what the first one changed. */
  predicate TakesBack(undo: Command, command: Command, source: Registration) {
    undo.registrationId == command.registrationId &&
    match command.kind
    case Issue => undo.kind.UndoIssue? && ValidReason(undo.reason)
    case UndoIssue => undo.kind.Issue? && Held(source)
    case AssignNumber => undo.kind.UnassignNumber?
    case SetDns => undo.kind.SetDns? && undo.value.Some? && command.value == Some(!undo.value.value)
    case ChangeRace => undo.kind.ChangeRace? && undo.raceId == source.raceId
    case _ => false
  }

  /** Issuing, numbering, not starting and changing race are each taken back by their opposite on any later roster. */
  lemma {:induction false} TakenBack(records: seq<Registration>, command: Command, ch: Change, later: seq<Registration>, undo: Command)
    requires Apply(records, command) == Ok([ch]) && TakesBack(undo, command, ch.before)
    requires Roster(later) && ch.after in later
    ensures Apply(later, undo) == Ok([Changed(ch.after, ch.before)])
  {
    RefusedOffRoster(records, command);
    var source :| source in records && source.id == command.registrationId;
    CommandExactly(records, command, source, [ch]);
    assert Effect(records, source, command, [ch]);
    assert ch == [ch][0];
    TakenBackRow(later, command, ch.before, ch.after, undo);
    CommandExactly(later, undo, ch.after, [Changed(ch.after, ch.before)]);
  }

  lemma {:induction false} TakenBackRow(later: seq<Registration>, command: Command, was: Registration, now: Registration, undo: Command)
    requires TakesBack(undo, command, was) && RowAfter(command, was, now) && !RowAfter(command, was, was)
    requires ValidRegistration(was) && Accepts([was], was, command)
    ensures Accepts(later, now, undo)
    ensures Effect(later, now, undo, [Changed(now, was)])
  {
    if command.kind.SetDns? {
      assert "dns" != "registered" by { assert |"dns"| == 3; }
      assert now.status == if undo.value.value then "registered" else "dns";
      assert was.status == if undo.value.value then "dns" else "registered";
    }
    assert RowAfter(undo, now, was);
    if RowAfter(undo, now, now) {
      RowAfterOnce(undo, now, now, was);
    }
  }

  // Refusals.

  predicate NoTarget(records: seq<Registration>, source: Registration, command: Command) {
    forall t :: t in records && t.id == command.targetId ==>
      command.issuePacket.None? || t.id == source.id || t.eventId != source.eventId ||
      (command.kind.MoveRace? && t.raceId == source.raceId)
  }

  predicate BadBib(source: Registration, command: Command) {
    match command.kind
    case AssignNumber | CreateRegistration => !AssignedBib(command.bib) || command.issuePacket.None?
    case ReturnToReserve => !AssignedBib(command.bib) || (source.bib != command.bib && (source.bib != "" || source.epc == ""))
    case AssignReserve => true
    case _ => false
  }

  /** What a refusal of this code says about the rows and the command. */
  ghost predicate Cause(code: Code, records: seq<Registration>, source: Registration, command: Command) {
    match code
    case TimingReviewRequired => source.hasTimingEvidence && !command.kind.Issue? && !command.kind.UndoIssue?
    case StatusReviewRequired => !source.hasTimingEvidence && source.status != "registered" && source.status != "dns"
    case TransferReviewRequired => source.transferredTo.Some? && !source.hasTimingEvidence && !command.kind.ReleaseToReserve?
    case ReserveSlot => source.reserve
    case MissingPerson => source.person.None? && !source.reserve
    case NumberAlreadyAssigned => command.kind.AssignNumber? && (source.bib != "" || source.issued)
    case NumberOccupied => GivesNumber(command.kind) && AssignedBib(command.bib) && !NumberFree(records, source, command.bib)
    case InvalidBib => BadBib(source, command)
    case RegistrationAlreadyExists =>
      command.kind.CreateRegistration? &&
      !(Blank(source) && source.eventId == command.eventId && source.raceId == command.raceId)
    case InvalidPerson =>
      ((command.kind.CreateRegistration? || command.kind.ReplacePerson?) &&
       (command.person.Some? ==> !ValidPerson(command.person.value))) ||
      (command.kind.EditPerson? && !CanAmend(source.person, command.fields))
    case PersonIdentityReused =>
      command.kind.ReplacePerson? && source.person.Some? && command.person.Some? && source.person.value.id == command.person.value.id
    case RaceChangeRequiresUnnumbered => command.kind.ChangeRace? && (source.bib != "" || source.epc != "" || source.issued)
    case ReasonRequired => command.kind.UndoIssue? && !ValidReason(command.reason)
    case InvalidTarget =>
      (command.kind.ChangeRace? && (!Identifier(command.raceId) || command.raceId == source.raceId)) ||
      (command.kind.ReturnToReserve? && !CanReturn(records, source, command)) ||
      (IsMove(command.kind) && NoTarget(records, source, command))
    case TargetNotAvailable => IsMove(command.kind) && !CanVacate(records, source, command)
    case InvalidCommand => !Accepts(records, source, command)
    case _ => false
  }

  lemma {:induction false} OneRowRefusal(records: seq<Registration>, source: Registration, command: Command)
    requires source.id == command.registrationId && !TwoRows(command.kind) && ApplyOne(records, source, command).Err?
    ensures Cause(ApplyOne(records, source, command).error, records, source, command)
  {
    match command.kind
    case AssignNumber => NumberRefusal(records, source, source, command);
    case CreateRegistration => CreateRefusal(records, source, command);
    case EditPerson =>
      if source.person.Some? {
        AmendExactly(source.person.value, command.fields);
      }
    case _ =>
  }

  lemma {:induction false} CreateRefusal(records: seq<Registration>, source: Registration, command: Command)
    requires source.id == command.registrationId && command.kind.CreateRegistration? && Create(records, source, command).Err?
    ensures Cause(Create(records, source, command).error, records, source, command)
  {
    CreateExactly(records, source, command);
    NumberRefusal(records, source, source.(person := command.person), command);
  }

  lemma {:induction false} NumberRefusal(records: seq<Registration>, source: Registration, after: Registration, command: Command)
    requires GivesNumber(command.kind)
    ensures Numbered(records, source, after, command).Err? ==>
              Cause(Numbered(records, source, after, command).error, records, source, command)
  {
    NumberedExactly(records, source, after, command);
  }

  lemma {:induction false} MoveRefusal(records: seq<Registration>, source: Registration, command: Command)
    requires Roster(records) && IsMove(command.kind) && Move(records, source, command).Err?
    ensures Cause(Move(records, source, command).error, records, source, command)
  {
    MoveExactly(records, source, command);
    forall t | t in records && t.id == command.targetId
      ensures Find(records, command.targetId) == Some(t)
    {
      FoundIsTheRow(records, t);
    }
  }

  lemma {:induction false} ReturnRefusal(records: seq<Registration>, source: Registration, command: Command)
    requires Roster(records) && command.kind.ReturnToReserve? && ReturnNumber(records, source, command).Err?
    ensures Cause(ReturnNumber(records, source, command).error, records, source, command)
  {
    ReturnExactly(records, source, command);
  }

  /** A refusal is always one of these, and what it says is so. */
  lemma {:induction false} RefusalNamesItsCause(records: seq<Registration>, command: Command, source: Registration)
    requires Roster(records) && source in records && source.id == command.registrationId
    requires Apply(records, command).Err?
    ensures Cause(Apply(records, command).error, records, source, command)
  {
    RosterHasNoFault(records, {});
    FoundIsTheRow(records, source);
    if IsMove(command.kind) {
      MoveRefusal(records, source, command);
    } else if command.kind.ReturnToReserve? {
      ReturnRefusal(records, source, command);
    } else {
      OneRowRefusal(records, source, command);
    }
  }
}
