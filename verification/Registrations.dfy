/** Registration rows, their validity and their JSON form. */
module Registrations {
  import opened Wrappers
  import opened TextRules
  import opened JsonMerge

  datatype Person = Person(id: string, firstName: string, lastName: string, birthDate: string,
                           gender: string, team: string, city: string)

  datatype Registration = Registration(
    id: string, eventId: string, raceId: string, bib: string, epc: string,
    person: Option<Person>, reserve: bool, issued: bool, status: string,
    transferredTo: Option<string>, hasTimingEvidence: bool)

  datatype Change = Change(registrationId: string, before: Registration, after: Registration)

  predicate ValidPerson(p: Person) {
    Identifier(p.id) && ValidText(p.firstName, 160) && ValidText(p.lastName, 160) &&
    ValidText(p.birthDate, 160) && ValidText(p.gender, 160) && ValidText(p.team, 160) && ValidText(p.city, 160) &&
    ValidReason(p.firstName + p.lastName) && (p.gender == "" || p.gender == "male" || p.gender == "female") &&
    (p.birthDate == "" || CalendarDate(p.birthDate))
  }

  predicate ValidStatus(s: string) {
    s == "registered" || s == "dns" || s == "dnf" || s == "dsq"
  }

  predicate ValidRegistration(row: Registration) {
    Identifier(row.id) && Identifier(row.eventId) && Identifier(row.raceId) &&
    (row.transferredTo.Some? ==> Identifier(row.transferredTo.value)) &&
    ValidStatus(row.status) &&
    !(row.reserve && row.person.Some?) &&
    (row.person.Some? ==> ValidPerson(row.person.value))
  }

  /** The JSON member names of a row and of a person. */
  datatype Field =
    | Id | EventId | RaceId | Bib | Epc | PersonField | Reserve | Issued | Status | TransferredTo | HasTimingEvidence
    | FirstName | LastName | BirthDate | Gender | Team | City

  type Tree = Json<Field>

  predicate InPerson(k: Field) {
    k.Id? || k.FirstName? || k.LastName? || k.BirthDate? || k.Gender? || k.Team? || k.City?
  }

  /** The members of a row as the feed carries it. */
  predicate InFeed(k: Field) {
    k.Id? || k.EventId? || k.RaceId? || k.Bib? || k.Epc? || k.PersonField? || k.Reserve? || k.Issued? || k.Status? ||
    k.TransferredTo?
  }

  function PersonText(p: Person, k: Field): string {
    match k
    case FirstName => p.firstName
    case LastName => p.lastName
    case BirthDate => p.birthDate
    case Gender => p.gender
    case Team => p.team
    case City => p.city
    case _ => p.id
  }

  function EncodePerson(p: Option<Person>): Tree {
    match p
    case None => Null
    case Some(p) => Obj(map k: Field | InPerson(k) :: Str(PersonText(p, k)))
  }

  function EncodeText(t: Option<string>): Tree {
    match t
    case None => Null
    case Some(text) => Str(text)
  }

  function FieldTree(row: Registration, k: Field): Tree {
    match k
    case Id => Str(row.id)
    case EventId => Str(row.eventId)
    case RaceId => Str(row.raceId)
    case Bib => Str(row.bib)
    case Epc => Str(row.epc)
    case PersonField => EncodePerson(row.person)
    case Reserve => Bool(row.reserve)
    case Issued => Bool(row.issued)
    case Status => Str(row.status)
    case TransferredTo => EncodeText(row.transferredTo)
    case _ => Bool(row.hasTimingEvidence)
  }

  function Encode(row: Registration): Tree {
    Obj(map k: Field | InFeed(k) || k.HasTimingEvidence? :: FieldTree(row, k))
  }

  /** The feed's view of a row: everything but the timing evidence. */
  function Projection(row: Registration): Tree {
    Obj(map k: Field | InFeed(k) :: FieldTree(row, k))
  }

  /** A row with its evidence mark cleared, as the feed carries it. */
  function Bare(row: Registration): Registration {
    row.(hasTimingEvidence := false)
  }

  predicate IsText(f: map<Field, Tree>, k: Field) {
    k in f && f[k].Str?
  }

  /** Reads a person object; extra members are ignored, a missing or ill-typed one is an error. */
  function DecodePerson(tree: Tree): Result<Option<Person>, ()> {
    if tree.Null? then Ok(None)
    else if tree.Obj? && IsText(tree.fields, Id) && IsText(tree.fields, FirstName) && IsText(tree.fields, LastName) &&
            IsText(tree.fields, BirthDate) && IsText(tree.fields, Gender) && IsText(tree.fields, Team) &&
            IsText(tree.fields, City) then
      var f := tree.fields;
      Ok(Some(Person(f[Id].text, f[FirstName].text, f[LastName].text, f[BirthDate].text, f[Gender].text,
                     f[Team].text, f[City].text)))
    else Err(())
  }

  function DecodeText(tree: Tree): Result<Option<string>, ()> {
    if tree.Null? then Ok(None) else if tree.Str? then Ok(Some(tree.text)) else Err(())
  }

  /** Reads a row back; a missing evidence member reads as false. */
  function Decode(f: map<Field, Tree>): Option<Registration> {
    if IsText(f, Id) && IsText(f, EventId) && IsText(f, RaceId) && IsText(f, Bib) && IsText(f, Epc) && IsText(f, Status) &&
       Reserve in f && f[Reserve].Bool? && Issued in f && f[Issued].Bool? &&
       TransferredTo in f && DecodeText(f[TransferredTo]).Ok? && PersonField in f && DecodePerson(f[PersonField]).Ok? &&
       (HasTimingEvidence in f ==> f[HasTimingEvidence].Bool?)
    then
      Some(Registration(f[Id].text, f[EventId].text, f[RaceId].text, f[Bib].text, f[Epc].text,
                        DecodePerson(f[PersonField]).value, f[Reserve].flag, f[Issued].flag, f[Status].text,
                        DecodeText(f[TransferredTo]).value, HasTimingEvidence in f && f[HasTimingEvidence].flag))
    else None
  }

  lemma {:induction false} PersonMember(p: Person, k: Field)
    requires InPerson(k)
    ensures IsText(EncodePerson(Some(p)).fields, k)
    ensures EncodePerson(Some(p)).fields[k].text == PersonText(p, k)
  {
  }

  lemma {:induction false} DecodePersonFields(p: Person, f: map<Field, Tree>)
    requires forall k: Field :: InPerson(k) ==> k in f && f[k] == Str(PersonText(p, k))
    ensures DecodePerson(Obj(f)) == Ok(Some(p))
  {
    assert f[Id].text == p.id && f[FirstName].text == p.firstName && f[LastName].text == p.lastName;
    assert f[BirthDate].text == p.birthDate && f[Gender].text == p.gender && f[Team].text == p.team && f[City].text == p.city;
  }

  lemma {:induction false} DecodeEncodePerson(p: Person)
    ensures DecodePerson(EncodePerson(Some(p))) == Ok(Some(p))
  {
    DecodePersonFields(p, EncodePerson(Some(p)).fields);
  }

  lemma {:induction false} RowMember(row: Registration, k: Field)
    requires InFeed(k)
    ensures k in Encode(row).fields && Encode(row).fields[k] == FieldTree(row, k)
    ensures k in Projection(row).fields && Projection(row).fields[k] == FieldTree(row, k)
  {
  }

  /** Two rows with the same feed fields differ at most in their evidence mark. */
  predicate SameFeed(x: Registration, y: Registration) {
    x.id == y.id && x.eventId == y.eventId && x.raceId == y.raceId && x.bib == y.bib && x.epc == y.epc &&
    x.person == y.person && x.reserve == y.reserve && x.issued == y.issued && x.status == y.status &&
    x.transferredTo == y.transferredTo
  }

  lemma {:induction false} DecodeFields(row: Registration, f: map<Field, Tree>)
    requires forall k: Field :: InFeed(k) ==> k in f && f[k] == FieldTree(row, k)
    requires HasTimingEvidence in f ==> f[HasTimingEvidence].Bool?
    ensures Decode(f).Some? && SameFeed(Decode(f).value, row)
    ensures Decode(f).value.hasTimingEvidence == (HasTimingEvidence in f && f[HasTimingEvidence].flag)
  {
    if row.person.Some? {
      DecodeEncodePerson(row.person.value);
    }
  }

  lemma {:induction false} DecodeEncode(row: Registration)
    ensures Decode(Encode(row).fields) == Some(row)
    ensures Decode(Projection(row).fields) == Some(Bare(row))
  {
    DecodeFields(row, Encode(row).fields);
    DecodeFields(row, Projection(row).fields);
  }

  lemma {:induction false} EncodeInjective(x: Registration, y: Registration)
    ensures Encode(x) == Encode(y) <==> x == y
    ensures Projection(x) == Projection(y) <==> Bare(x) == Bare(y)
  {
    DecodeEncode(x);
    DecodeEncode(y);
    if Bare(x) == Bare(y) {
      assert Projection(x).fields == Projection(y).fields;
    }
  }
}
