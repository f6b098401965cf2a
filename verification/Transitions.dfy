/** The fifteen tablet commands on registration rows, and the undo of a move. */
module Transitions {
  import opened Wrappers
  import opened TextRules
  import opened Registrations

  datatype CommandType =
    | AssignNumber | CreateRegistration | ReturnToReserve | ClearNumber | UnassignNumber | Issue | UndoIssue | SetDns
    | ReleaseToReserve | EditPerson | ChangeRace | ReplacePerson | MoveRace | MoveToReserve | AssignReserve
    | CorrectMove | ResolveConflict

  datatype Command = Command(
    kind: CommandType, registrationId: string, bib: string, eventId: string, raceId: string, reason: string,
    value: Option<bool>, fields: map<Field, string>, person: Option<Person>,
    returnSource: Option<bool>, issuePacket: Option<bool>, targetId: string,
    operationId: string, inputs: seq<string>, keep: seq<string>)

  datatype Code =
    | InvalidRecords | InvalidPerson | InvalidCommand | InvalidBib | InvalidTarget
    | RegistrationNotFound | RegistrationAlreadyExists | NumberAlreadyAssigned | NumberOccupied
    | TimingReviewRequired | StatusReviewRequired | TransferReviewRequired | ReserveSlot | MissingPerson
    | ReasonRequired | RaceChangeRequiresUnnumbered | PersonIdentityReused | TargetNotAvailable
    | CorrectionReviewRequired
    // decisions of the receiver
    | EventMismatch | DependencyCycle | DependencyMissing | CorrectionDependencyMissing
    | CurrentStateChanged | OperationEffectChanged | PersonDetailsRequired
    // decisions of the site feed and the snapshot rebase
    | FeedLifecycleConflict | FeedStateConflict | FeedHeadLimit | ResolutionAlreadyDecided
    | SnapshotRegistrationMissing | SiteCode(text: string)

  function Validate(row: Registration): Option<Code> {
    if !Identifier(row.id) || !Identifier(row.eventId) || !Identifier(row.raceId) ||
       (row.transferredTo.Some? && !Identifier(row.transferredTo.value)) || !ValidStatus(row.status) ||
       (row.reserve && row.person.Some?) then Some(InvalidRecords)
    else if row.person.Some? && !ValidPerson(row.person.value) then Some(InvalidPerson)
    else None
  }

  /** A change stays on its row, in its event and with its evidence, and moves race, number and chip only where it may. */
  predicate InFrame(ch: Change, race: bool, bib: bool, epc: bool) {
    var b, a := ch.before, ch.after;
    b.id == a.id && b.eventId == a.eventId && b.hasTimingEvidence == a.hasTimingEvidence && b.id == ch.registrationId &&
    (b.raceId == a.raceId || race) && (b.bib == a.bib || bib) && (b.epc == a.epc || epc)
  }

  predicate MovesEpc(kind: CommandType) {
    kind.ReturnToReserve? || kind.ClearNumber? || kind.AssignReserve? || kind.CorrectMove?
  }

  predicate MovesBib(kind: CommandType) {
    MovesEpc(kind) || kind.AssignNumber? || kind.UnassignNumber? || kind.CreateRegistration?
  }

  /** The first invalid or repeated row, in order. */
  function Fault(records: seq<Registration>, seen: set<string>): Option<Code> {
    if records == [] then None
    else if Validate(records[0]).Some? then Validate(records[0])
    else if records[0].id in seen then Some(InvalidRecords)
    else Fault(records[1..], seen + {records[0].id})
  }

  /** The row with this id; the last one when ids repeat. */
  function Find(records: seq<Registration>, id: string): (row: Option<Registration>)
    ensures row.Some? ==> row.value.id == id && row.value in records
    ensures row.None? ==> forall r :: r in records ==> r.id != id
  {
    if records == [] then None
    else if records[|records| - 1].id == id then Some(records[|records| - 1])
    else Find(records[..|records| - 1], id)
  }

  function Editable(row: Registration): Option<Code> {
    if row.hasTimingEvidence then Some(TimingReviewRequired)
    else if row.status != "registered" && row.status != "dns" then Some(StatusReviewRequired)
    else if row.transferredTo.Some? then Some(TransferReviewRequired)
    else None
  }

  function Assigned(row: Registration): Option<Code> {
    if row.reserve then Some(ReserveSlot) else if row.person.None? then Some(MissingPerson) else None
  }

  function EditableAssigned(row: Registration): Option<Code> {
    if Editable(row).Some? then Editable(row) else Assigned(row)
  }

  /** The image of a row that does not exist yet. */
  function EmptyRegistration(id: string, eventId: string, raceId: string): Option<Registration> {
    if CoinedId(id) && Identifier(eventId) && Identifier(raceId) then
      Some(Registration(id, eventId, raceId, "", "", None, false, false, "registered", None, false))
    else None
  }

  predicate IsVirtual(row: Registration) {
    EmptyRegistration(row.id, row.eventId, row.raceId) == Some(row)
  }

  predicate Occupied(records: seq<Registration>, source: Registration, bib: string) {
    exists i :: 0 <= i < |records| &&
      records[i].eventId == source.eventId && records[i].id != source.id && records[i].bib == bib
  }

  /** Gives the row its number and packet mark, if the number is proper and free. */
  function Numbered(records: seq<Registration>, source: Registration, after: Registration, command: Command): Result<Registration, Code> {
    if !AssignedBib(command.bib) || command.issuePacket.None? then Err(InvalidBib)
    else if Occupied(records, source, command.bib) then Err(NumberOccupied)
    else Ok(after.(bib := command.bib, issued := command.issuePacket.value))
  }

  function AssignNumberTo(records: seq<Registration>, source: Registration, command: Command): Result<Registration, Code> {
    if EditableAssigned(source).Some? then Err(EditableAssigned(source).value)
    else if source.bib != "" || source.issued then Err(NumberAlreadyAssigned)
    else Numbered(records, source, source, command)
  }

  function Create(records: seq<Registration>, source: Registration, command: Command): Result<Registration, Code> {
    if Editable(source).Some? then Err(Editable(source).value)
    else
      var empty := EmptyRegistration(command.registrationId, command.eventId, command.raceId);
      if empty.None? then Err(InvalidCommand)
      else if source != empty.value then Err(RegistrationAlreadyExists)
      else if command.person.None? || !ValidPerson(command.person.value) then Err(InvalidPerson)
      else
        var after := source.(person := command.person);
        if command.bib == "" && command.issuePacket == Some(false) then Ok(after)
        else Numbered(records, source, after, command)
  }

  function EditedPerson(p: Person, fields: map<Field, string>): Person {
    Person(p.id,
           if FirstName in fields then fields[FirstName] else p.firstName,
           if LastName in fields then fields[LastName] else p.lastName,
           if BirthDate in fields then fields[BirthDate] else p.birthDate,
           if Gender in fields then fields[Gender] else p.gender,
           if Team in fields then fields[Team] else p.team,
           if City in fields then fields[City] else p.city)
  }

  predicate PersonalFields(fields: map<Field, string>) {
    forall k :: k in fields ==> k.FirstName? || k.LastName? || k.BirthDate? || k.Gender? || k.Team? || k.City?
  }

  function Edit(source: Registration, command: Command): Result<Registration, Code> {
    if EditableAssigned(source).Some? then Err(EditableAssigned(source).value)
    else
      var person := EditedPerson(source.person.value, command.fields);
      if !PersonalFields(command.fields) || !ValidPerson(person) then Err(InvalidPerson)
      else Ok(source.(person := Some(person)))
  }

  function Release(source: Registration): Result<Registration, Code> {
    if source.hasTimingEvidence then Err(TimingReviewRequired)
    else if source.status != "registered" && source.status != "dns" then Err(StatusReviewRequired)
    else if Assigned(source).Some? then Err(Assigned(source).value)
    else Ok(source.(person := None, reserve := true, issued := false, status := "registered", transferredTo := None))
  }

  function SwitchRace(source: Registration, command: Command): Result<Registration, Code> {
    if EditableAssigned(source).Some? then Err(EditableAssigned(source).value)
    else if source.bib != "" || source.epc != "" || source.issued then Err(RaceChangeRequiresUnnumbered)
    else if !Identifier(command.raceId) || command.raceId == source.raceId then Err(InvalidTarget)
    else Ok(source.(raceId := command.raceId))
  }

  function Replace(source: Registration, command: Command): Result<Registration, Code> {
    if Editable(source).Some? then Err(Editable(source).value)
    else if command.person.None? || command.issuePacket.None? then Err(InvalidCommand)
    else if !ValidPerson(command.person.value) then Err(InvalidPerson)
    else if source.person.Some? && source.person.value.id == command.person.value.id then Err(PersonIdentityReused)
    else Ok(source.(person := command.person, reserve := false, issued := command.issuePacket.value, status := "registered"))
  }

  /** Commands that change one row. */
  function ApplyOne(records: seq<Registration>, source: Registration, command: Command): Result<Registration, Code> {
    match command.kind
    case AssignNumber => AssignNumberTo(records, source, command)
    case CreateRegistration => Create(records, source, command)
    case ClearNumber =>
      if EditableAssigned(source).Some? then Err(EditableAssigned(source).value)
      else Ok(source.(bib := "", issued := false, epc := ""))
    case UnassignNumber =>
      if EditableAssigned(source).Some? then Err(EditableAssigned(source).value)
      else Ok(source.(bib := "", issued := false))
    case Issue =>
      if Assigned(source).Some? then Err(Assigned(source).value) else Ok(source.(issued := true))
    case UndoIssue =>
      if !ValidReason(command.reason) then Err(ReasonRequired) else Ok(source.(issued := false))
    case SetDns =>
      if command.value.None? then Err(InvalidCommand)
      else if EditableAssigned(source).Some? then Err(EditableAssigned(source).value)
      else Ok(source.(status := if command.value.value then "dns" else "registered"))
    case ReleaseToReserve => Release(source)
    case EditPerson => Edit(source, command)
    case ChangeRace => SwitchRace(source, command)
    case ReplacePerson => Replace(source, command)
    case _ => Err(InvalidCommand)
  }

  /** The row a two-row command moves the person or the number to, after its checks. */
  function TargetOf(records: seq<Registration>, source: Registration, command: Command): Result<Registration, Code> {
    if EditableAssigned(source).Some? then Err(EditableAssigned(source).value)
    else
      var target := Find(records, command.targetId);
      if target.None? || command.issuePacket.None? || command.targetId == source.id ||
         target.value.eventId != source.eventId ||
         (command.kind.MoveRace? && target.value.raceId == source.raceId) then Err(InvalidTarget)
      else if command.kind.AssignReserve? && target.value.bib == "" then Err(InvalidBib)
      else
        var t := target.value;
        if !t.reserve || t.issued || t.hasTimingEvidence || t.status != "registered" || t.transferredTo.Some?
        then Err(TargetNotAvailable)
        else Ok(t)
  }

  /** What a move leaves on the source row. */
  function SourceAfterMove(source: Registration, target: Registration, command: Command): Result<Registration, Code> {
    match command.kind
    case MoveRace => Ok(source.(status := "dns", transferredTo := Some(target.id)))
    case MoveToReserve =>
      Ok(source.(person := None, reserve := true, issued := false, status := "registered", transferredTo := None))
    case AssignReserve =>
      if command.returnSource.None? then Err(InvalidCommand)
      else if command.returnSource.value && source.bib == "" then Err(InvalidBib)
      else if command.returnSource.value then
        Ok(source.(person := None, reserve := true, issued := false, status := "registered", transferredTo := None))
      else
        Ok(source.(person := None, reserve := false, bib := "", epc := "", issued := false, status := "registered",
                   transferredTo := None))
    case _ => Err(InvalidCommand)
  }

  function Changed(before: Registration, after: Registration): Change {
    Change(before.id, before, after)
  }

  function Move(records: seq<Registration>, source: Registration, command: Command): Result<seq<Change>, Code> {
    var target := TargetOf(records, source, command);
    if target.Err? then Err(target.error)
    else
      var t := target.value;
      var after := SourceAfterMove(source, t, command);
      if after.Err? then Err(after.error)
      else Ok([Changed(source, after.value),
               Changed(t, t.(person := source.person, reserve := false, issued := command.issuePacket.value))])
  }

  function ReturnNumber(records: seq<Registration>, source: Registration, command: Command): (r: Result<seq<Change>, Code>)
    ensures r.Ok? ==> |r.value| == 2
  {
    if EditableAssigned(source).Some? then Err(EditableAssigned(source).value)
    else if !AssignedBib(command.bib) || (source.bib != command.bib && !(source.bib == "" && source.epc != "")) then Err(InvalidBib)
    else
      var target := Find(records, command.targetId);
      if target.None? || target.value.id == source.id ||
         EmptyRegistration(command.targetId, source.eventId, command.raceId) != target then Err(InvalidTarget)
      else
        Ok([Changed(source, source.(bib := "", epc := "", issued := false)),
            Changed(target.value, target.value.(bib := command.bib, epc := source.epc, reserve := true))])
  }

  /** A one-row command as a list of changes: none if the row stays as it is. */
  function Single(records: seq<Registration>, source: Registration, command: Command): Result<seq<Change>, Code> {
    var after := ApplyOne(records, source, command);
    if after.Err? then Err(after.error)
    else if after.value == source then Ok([])
    else Ok([Changed(source, after.value)])
  }

  predicate IsMove(kind: CommandType) {
    kind.MoveRace? || kind.MoveToReserve? || kind.AssignReserve?
  }

  function Apply(records: seq<Registration>, command: Command): (r: Result<seq<Change>, Code>)
    ensures r.Ok? && command.kind.ReturnToReserve? ==> |r.value| == 2
  {
    if Fault(records, {}).Some? then Err(Fault(records, {}).value)
    else
      var found := Find(records, command.registrationId);
      if found.None? then Err(RegistrationNotFound)
      else
        var source := found.value;
        if IsMove(command.kind) then Move(records, source, command)
        else if command.kind.ReturnToReserve? then ReturnNumber(records, source, command)
        else Single(records, source, command)
  }

  // Undoing a move.

  predicate ReleasedSource(row: Registration) {
    row.person.None? && row.reserve && !row.issued && row.status == "registered" && row.transferredTo.None?
  }

  predicate EmptiedSource(row: Registration) {
    row.person.None? && !row.reserve && row.bib == "" && row.epc == "" && !row.issued && row.status == "registered" &&
    row.transferredTo.None?
  }

  predicate TransferredSource(row: Registration, target: string) {
    row.transferredTo == Some(target) && row.status == "dns" && !row.reserve
  }

  function BareCommand(kind: CommandType, registrationId: string): Command {
    Command(kind, registrationId, "", "", "", "", None, map[], None, None, None, "", "", [], [])
  }

  /** The move that an immutable pair of changes must have come from. */
  function InferredMove(source: Change, target: Change): Command {
    var kind := if EmptiedSource(source.after) then AssignReserve
                else if ReleasedSource(source.after) then MoveToReserve else MoveRace;
    BareCommand(kind, source.registrationId).(
      targetId := target.registrationId, issuePacket := Some(target.after.issued), returnSource := Some(false))
  }

  predicate Restorable(records: seq<Registration>, previous: Change) {
    var row := Find(records, previous.registrationId);
    row.Some? && !row.value.hasTimingEvidence && row.value == previous.after &&
    row.value.id == previous.before.id && row.value.eventId == previous.before.eventId &&
    row.value.raceId == previous.before.raceId && row.value.bib == previous.before.bib && row.value.epc == previous.before.epc
  }

  function ReverseMove(records: seq<Registration>, original: seq<Change>, reason: string): Result<seq<Change>, Code> {
    if !ValidReason(reason) || |original| != 2 then Err(CorrectionReviewRequired)
    else
      var source, target := original[0], original[1];
      if !(ReleasedSource(source.after) || EmptiedSource(source.after) || TransferredSource(source.after, target.registrationId)) ||
         !target.before.reserve || source.registrationId == target.registrationId then Err(CorrectionReviewRequired)
      else if Apply([source.before, target.before], InferredMove(source, target)) != Ok(original) then Err(CorrectionReviewRequired)
      else if exists i :: 0 <= i < |records| && Validate(records[i]).Some? then Err(CorrectionReviewRequired)
      else if !Restorable(records, source) || !Restorable(records, target) then Err(CorrectionReviewRequired)
      else Ok([Changed(source.after, source.before), Changed(target.after, target.before)])
  }
}
