/**
 The three-way merge of registration rows, field by field, and the proof that it is
 what every JSON form of the merge computes on encoded rows.
 */
module RowMerge {
  import opened Wrappers
  import opened TextRules
  import opened JsonMerge
  import opened Registrations

  // The merge, field by field.

  /** The field has not moved, or only one side moved it, or both moved it alike. */
  predicate Free<T(==)>(b: T, a: T, c: T) {
    b == a || c == b || c == a
  }

  /** A changed field takes the change, an unchanged one keeps the current value. */
  function Take<T(==)>(b: T, a: T, c: T): T {
    if b == a then c else a
  }

  predicate FreeText(b: Person, a: Person, c: Person, k: Field) {
    Free(PersonText(b, k), PersonText(a, k), PersonText(c, k))
  }

  predicate FreePerson(b: Option<Person>, a: Option<Person>, c: Option<Person>) {
    if b != a && b.Some? && a.Some? && c.Some? then
      FreeText(b.value, a.value, c.value, Id) && FreeText(b.value, a.value, c.value, FirstName) &&
      FreeText(b.value, a.value, c.value, LastName) && FreeText(b.value, a.value, c.value, BirthDate) &&
      FreeText(b.value, a.value, c.value, Gender) && FreeText(b.value, a.value, c.value, Team) &&
      FreeText(b.value, a.value, c.value, City)
    else Free(b, a, c)
  }

  function TakePerson(b: Option<Person>, a: Option<Person>, c: Option<Person>): Option<Person> {
    if b != a && b.Some? && a.Some? && c.Some? then
      var x, y, z := b.value, a.value, c.value;
      Some(Person(Take(x.id, y.id, z.id), Take(x.firstName, y.firstName, z.firstName),
                  Take(x.lastName, y.lastName, z.lastName), Take(x.birthDate, y.birthDate, z.birthDate),
                  Take(x.gender, y.gender, z.gender), Take(x.team, y.team, z.team), Take(x.city, y.city, z.city)))
    else Take(b, a, c)
  }

  /** The fields other than the timing evidence can be merged. */
  predicate FreeFeed(b: Registration, a: Registration, c: Registration) {
    Free(b.id, a.id, c.id) && Free(b.eventId, a.eventId, c.eventId) && Free(b.raceId, a.raceId, c.raceId) &&
    Free(b.bib, a.bib, c.bib) && Free(b.epc, a.epc, c.epc) && FreePerson(b.person, a.person, c.person) &&
    Free(b.reserve, a.reserve, c.reserve) && Free(b.issued, a.issued, c.issued) && Free(b.status, a.status, c.status) &&
    Free(b.transferredTo, a.transferredTo, c.transferredTo)
  }

  predicate FreeRow(b: Registration, a: Registration, c: Registration) {
    FreeFeed(b, a, c) && Free(b.hasTimingEvidence, a.hasTimingEvidence, c.hasTimingEvidence)
  }

  function TakeRow(b: Registration, a: Registration, c: Registration): Registration {
    Registration(
      Take(b.id, a.id, c.id), Take(b.eventId, a.eventId, c.eventId), Take(b.raceId, a.raceId, c.raceId),
      Take(b.bib, a.bib, c.bib), Take(b.epc, a.epc, c.epc), TakePerson(b.person, a.person, c.person),
      Take(b.reserve, a.reserve, c.reserve), Take(b.issued, a.issued, c.issued), Take(b.status, a.status, c.status),
      Take(b.transferredTo, a.transferredTo, c.transferredTo),
      Take(b.hasTimingEvidence, a.hasTimingEvidence, c.hasTimingEvidence))
  }

  /** The three-way merge of whole rows. */
  function MergeRow(b: Registration, a: Registration, c: Registration): Option<Registration> {
    if FreeRow(b, a, c) then Some(TakeRow(b, a, c)) else None
  }

  /** The feed's merge: the evidence mark is never carried, the current one stays. */
  function MergeFeedRow(b: Registration, a: Registration, c: Registration): Option<Registration> {
    if FreeFeed(b, a, c) then Some(TakeRow(b, a, c).(hasTimingEvidence := c.hasTimingEvidence)) else None
  }

  // The merge of encodings is the encoding of the merge.

  lemma {:induction false} EncodePersonInjective(x: Option<Person>, y: Option<Person>)
    ensures EncodePerson(x) == EncodePerson(y) <==> x == y
  {
    if x.Some? && y.Some? {
      DecodeEncodePerson(x.value);
      DecodeEncodePerson(y.value);
    }
  }

  lemma {:induction false} FreePersonText(b: Person, a: Person, c: Person, k: Field)
    requires b != a && InPerson(k) && FreePerson(Some(b), Some(a), Some(c))
    ensures FreeText(b, a, c, k)
    ensures PersonText(TakePerson(Some(b), Some(a), Some(c)).value, k) ==
            Take(PersonText(b, k), PersonText(a, k), PersonText(c, k))
  {
  }

  /** Every text of a person merges on its own. */
  lemma {:induction false} PersonTextMerges(b: Person, a: Person, c: Person, k: Field)
    requires InPerson(k)
    ensures Merge(EncodePerson(Some(b)).fields[k], EncodePerson(Some(a)).fields[k], EncodePerson(Some(c)).fields[k])
         == if FreeText(b, a, c, k) then Some(Str(Take(PersonText(b, k), PersonText(a, k), PersonText(c, k)))) else None
  {
  }

  lemma {:induction false} PersonShape(b: Person, a: Person, c: Person)
    ensures Descends(EncodePerson(Some(b)), EncodePerson(Some(a)), EncodePerson(Some(c)))
    ensures forall k: Field :: k in EncodePerson(Some(b)).fields <==> InPerson(k)
  {
  }

  lemma {:induction false} PeopleMerge(b: Person, a: Person, c: Person)
    requires b != a && FreePerson(Some(b), Some(a), Some(c))
    ensures Merge(EncodePerson(Some(b)), EncodePerson(Some(a)), EncodePerson(Some(c))) ==
            Some(EncodePerson(TakePerson(Some(b), Some(a), Some(c))))
  {
    var t := TakePerson(Some(b), Some(a), Some(c)).value;
    PersonShape(b, a, c);
    PersonShape(b, a, t);
    var x, y, z, m := EncodePerson(Some(b)), EncodePerson(Some(a)), EncodePerson(Some(c)), EncodePerson(Some(t));
    forall k | k in x.fields
      ensures Merge(x.fields[k], y.fields[k], z.fields[k]) == Some(m.fields[k])
    {
      PersonTextMerges(b, a, c, k);
      FreePersonText(b, a, c, k);
      PersonMember(t, k);
    }
    MembersMerge(x, y, z, m);
  }

  lemma {:induction false} PersonTextRefuses(b: Person, a: Person, c: Person, k: Field)
    requires InPerson(k) && !FreeText(b, a, c, k)
    ensures Merge(EncodePerson(Some(b)), EncodePerson(Some(a)), EncodePerson(Some(c))).None?
  {
    PersonShape(b, a, c);
    PersonTextMerges(b, a, c, k);
    MemberRefuses(EncodePerson(Some(b)), EncodePerson(Some(a)), EncodePerson(Some(c)), k);
  }

  lemma {:induction false} PersonMergeAgrees(b: Option<Person>, a: Option<Person>, c: Option<Person>)
    ensures Merge(EncodePerson(b), EncodePerson(a), EncodePerson(c)) ==
            if FreePerson(b, a, c) then Some(EncodePerson(TakePerson(b, a, c))) else None
  {
    EncodePersonInjective(b, a);
    EncodePersonInjective(c, b);
    EncodePersonInjective(c, a);
    if b != a && b.Some? && a.Some? && c.Some? {
      if FreePerson(b, a, c) {
        PeopleMerge(b.value, a.value, c.value);
      } else {
        var k :| InPerson(k) && !FreeText(b.value, a.value, c.value, k);
        PersonTextRefuses(b.value, a.value, c.value, k);
      }
    }
  }

  /** Whether one member of a row can be merged, and to what. */
  predicate FreeField(b: Registration, a: Registration, c: Registration, k: Field) {
    match k
    case Id => Free(b.id, a.id, c.id)
    case EventId => Free(b.eventId, a.eventId, c.eventId)
    case RaceId => Free(b.raceId, a.raceId, c.raceId)
    case Bib => Free(b.bib, a.bib, c.bib)
    case Epc => Free(b.epc, a.epc, c.epc)
    case PersonField => FreePerson(b.person, a.person, c.person)
    case Reserve => Free(b.reserve, a.reserve, c.reserve)
    case Issued => Free(b.issued, a.issued, c.issued)
    case Status => Free(b.status, a.status, c.status)
    case TransferredTo => Free(b.transferredTo, a.transferredTo, c.transferredTo)
    case _ => Free(b.hasTimingEvidence, a.hasTimingEvidence, c.hasTimingEvidence)
  }

  lemma {:induction false} FieldMerges(b: Registration, a: Registration, c: Registration, k: Field)
    ensures Merge(FieldTree(b, k), FieldTree(a, k), FieldTree(c, k)) ==
            if FreeField(b, a, c, k) then Some(FieldTree(TakeRow(b, a, c), k)) else None
  {
    if k.PersonField? {
      PersonMergeAgrees(b.person, a.person, c.person);
    }
  }

  lemma {:induction false} RowShape(b: Registration, a: Registration, c: Registration)
    ensures Descends(Encode(b), Encode(a), Encode(c)) && Descends(Projection(b), Projection(a), Projection(c))
    ensures forall k: Field :: k in Encode(b).fields <==> InFeed(k) || k.HasTimingEvidence?
    ensures forall k: Field :: k in Projection(b).fields <==> InFeed(k)
  {
  }

  lemma {:induction false} RowsMerge(b: Registration, a: Registration, c: Registration)
    requires FreeFeed(b, a, c)
    ensures Merge(Projection(b), Projection(a), Projection(c)) == Some(Projection(TakeRow(b, a, c)))
    ensures FreeRow(b, a, c) ==> Merge(Encode(b), Encode(a), Encode(c)) == Some(Encode(TakeRow(b, a, c)))
  {
    var t := TakeRow(b, a, c);
    RowShape(b, a, c);
    RowShape(b, a, t);
    forall k: Field | InFeed(k) || k.HasTimingEvidence?
      ensures FreeField(b, a, c, k) ==> Merge(FieldTree(b, k), FieldTree(a, k), FieldTree(c, k)) == Some(FieldTree(t, k))
    {
      FieldMerges(b, a, c, k);
    }
    MembersMerge(Projection(b), Projection(a), Projection(c), Projection(t));
    if FreeRow(b, a, c) {
      MembersMerge(Encode(b), Encode(a), Encode(c), Encode(t));
    }
  }

  lemma {:induction false} FieldRefuses(b: Registration, a: Registration, c: Registration, k: Field)
    requires (InFeed(k) || k.HasTimingEvidence?) && !FreeField(b, a, c, k)
    ensures InFeed(k) ==> Merge(Projection(b), Projection(a), Projection(c)).None?
    ensures Merge(Encode(b), Encode(a), Encode(c)).None?
  {
    RowShape(b, a, c);
    FieldMerges(b, a, c, k);
    MemberRefuses(Encode(b), Encode(a), Encode(c), k);
    if InFeed(k) {
      MemberRefuses(Projection(b), Projection(a), Projection(c), k);
    }
  }

  lemma {:induction false} ProjectionDropsEvidence(row: Registration, evidence: bool)
    ensures Projection(row.(hasTimingEvidence := evidence)) == Projection(row)
  {
    assert forall k: Field :: InFeed(k) ==> FieldTree(row.(hasTimingEvidence := evidence), k) == FieldTree(row, k);
    assert Projection(row.(hasTimingEvidence := evidence)).fields == Projection(row).fields;
  }

  lemma {:induction false} NotFreeField(b: Registration, a: Registration, c: Registration) returns (k: Field)
    requires !FreeRow(b, a, c)
    ensures InFeed(k) || k.HasTimingEvidence?
    ensures !FreeField(b, a, c, k)
    ensures InFeed(k) <==> !FreeFeed(b, a, c)
  {
    if !FreeFeed(b, a, c) {
      k :| InFeed(k) && !FreeField(b, a, c, k);
    } else {
      k := HasTimingEvidence;
    }
  }

  /** Merging encoded rows is merging rows, whatever the three rows are. */
  lemma {:induction false} RowMergeAgrees(b: Registration, a: Registration, c: Registration)
    ensures Merge(Encode(b), Encode(a), Encode(c)) ==
            (match MergeRow(b, a, c) case None => None case Some(m) => Some(Encode(m)))
  {
    if FreeRow(b, a, c) {
      RowsMerge(b, a, c);
    } else {
      var k := NotFreeField(b, a, c);
      FieldRefuses(b, a, c, k);
    }
  }

  /** The same for the feed's projections, which carry no evidence. */
  lemma {:induction false} FeedMergeAgrees(b: Registration, a: Registration, c: Registration)
    ensures Merge(Projection(b), Projection(a), Projection(c)) ==
            (match MergeFeedRow(b, a, c) case None => None case Some(m) => Some(Projection(m)))
  {
    if FreeFeed(b, a, c) {
      RowsMerge(b, a, c);
      ProjectionDropsEvidence(TakeRow(b, a, c), c.hasTimingEvidence);
    } else {
      var k := NotFreeField(b, a, c);
      FieldRefuses(b, a, c, k);
    }
  }

  // The forms the program uses on rows.

  predicate PacketCompatible(before: Registration, after: Registration, current: Registration) {
    Compatible(Encode(before), Encode(after), Encode(current))
  }

  predicate PacketChangedEqual(before: Registration, after: Registration, left: Registration, right: Registration) {
    ChangedEqual(Encode(before), Encode(after), Encode(left), Encode(right))
  }

  predicate PacketEffectMatches(before: Registration, after: Registration, actualBefore: Registration, actualAfter: Registration) {
    Effect(Encode(before), Encode(after), Encode(actualBefore), Encode(actualAfter))
  }

  lemma {:induction false} CompatibleRows(b: Registration, a: Registration, c: Registration)
    ensures PacketCompatible(b, a, c) <==> MergeRow(b, a, c).Some?
  {
    CompatibleIsMergeable(Encode(b), Encode(a), Encode(c));
    RowMergeAgrees(b, a, c);
  }

  lemma {:induction false} EquivalentRows(b: Registration, a: Registration, c: Registration)
    ensures PacketChangedEqual(b, a, c, a) <==> MergeRow(b, a, c) == Some(c)
  {
    ChangedEqualIsNoOp(Encode(b), Encode(a), Encode(c));
    RowMergeAgrees(b, a, c);
    if MergeRow(b, a, c).Some? {
      EncodeInjective(MergeRow(b, a, c).value, c);
    }
  }

  lemma {:induction false} EffectRows(b: Registration, a: Registration, x: Registration, y: Registration)
    ensures PacketEffectMatches(b, a, x, y) <==> MergeRow(b, a, x) == Some(y)
  {
    EffectIsMerge(Encode(b), Encode(a), Encode(x), Encode(y));
    RowMergeAgrees(b, a, x);
    if MergeRow(b, a, x).Some? {
      EncodeInjective(MergeRow(b, a, x).value, y);
    }
  }

  // The forced overlay used to propose a resolution.

  lemma {:induction false} PeopleOverlay(b: Person, a: Person, c: Person)
    requires b != a
    ensures Overlay(EncodePerson(Some(b)), EncodePerson(Some(a)), EncodePerson(Some(c))) ==
            EncodePerson(TakePerson(Some(b), Some(a), Some(c)))
  {
    var t := TakePerson(Some(b), Some(a), Some(c)).value;
    PersonShape(b, a, c);
    PersonShape(b, a, t);
    var x, y, z, m := EncodePerson(Some(b)), EncodePerson(Some(a)), EncodePerson(Some(c)), EncodePerson(Some(t));
    forall k | k in x.fields
      ensures Overlay(x.fields[k], y.fields[k], z.fields[k]) == m.fields[k]
    {
      PersonMember(t, k);
      assert PersonText(t, k) == Take(PersonText(b, k), PersonText(a, k), PersonText(c, k));
    }
    MembersOverlay(x, y, z, m);
  }

  lemma {:induction false} FieldOverlays(b: Registration, a: Registration, c: Registration, k: Field)
    ensures Overlay(FieldTree(b, k), FieldTree(a, k), FieldTree(c, k)) == FieldTree(TakeRow(b, a, c), k)
  {
    if k.PersonField? {
      EncodePersonInjective(b.person, a.person);
      if b.person != a.person && b.person.Some? && a.person.Some? && c.person.Some? {
        PeopleOverlay(b.person.value, a.person.value, c.person.value);
      }
    }
  }

  /** On rows overlay takes every changed field, whether or not the merge would have refused. */
  lemma {:induction false} OverlayRows(b: Registration, a: Registration, c: Registration)
    ensures Overlay(Encode(b), Encode(a), Encode(c)) == Encode(TakeRow(b, a, c))
  {
    RowShape(b, a, c);
    RowShape(b, a, TakeRow(b, a, c));
    forall k | k in Encode(b).fields
      ensures Overlay(Encode(b).fields[k], Encode(a).fields[k], Encode(c).fields[k]) == Encode(TakeRow(b, a, c)).fields[k]
    {
      FieldOverlays(b, a, c, k);
    }
    MembersOverlay(Encode(b), Encode(a), Encode(c), Encode(TakeRow(b, a, c)));
  }

  // Validity of merged rows.

  lemma {:induction false} TakeIsOneOf<T>(b: T, a: T, c: T)
    ensures Take(b, a, c) == a || Take(b, a, c) == c
  {
  }

  lemma {:induction false} TakenPersonFields(b: Person, a: Person, c: Person)
    requires ValidPerson(b) && ValidPerson(a) && ValidPerson(c)
    ensures var m := TakePerson(Some(b), Some(a), Some(c));
            m.Some? && (ValidPerson(m.value) <==> ValidReason(m.value.firstName + m.value.lastName))
  {
  }

  /**
   Field by field, a merge of valid rows is valid unless it makes a reserve of a row with a person, or takes the
   first name from one side and the last name from the other and ends with neither.
   */
  lemma {:induction false} MergedRowIsValid(b: Registration, a: Registration, c: Registration)
    requires ValidRegistration(b) && ValidRegistration(a) && ValidRegistration(c)
    ensures var m := TakeRow(b, a, c);
            ValidRegistration(m) <==>
            !(m.reserve && m.person.Some?) && (m.person.Some? ==> ValidReason(m.person.value.firstName + m.person.value.lastName))
  {
    var m := TakeRow(b, a, c);
    if b.person.Some? && a.person.Some? && c.person.Some? {
      TakenPersonFields(b.person.value, a.person.value, c.person.value);
    }
  }

  /** Two sides that each keep a row valid can merge into a reserve that has a person. */
  lemma {:induction false} MergeCanBreakReserve(b: Registration, p: Person)
    requires ValidRegistration(b) && b.person.None? && !b.reserve && ValidPerson(p)
    ensures var a, c := b.(person := Some(p)), b.(reserve := true);
            ValidRegistration(a) && ValidRegistration(c) &&
            MergeFeedRow(b, a, c) == Some(b.(person := Some(p), reserve := true)) &&
            !ValidRegistration(MergeFeedRow(b, a, c).value)
  {
  }
}
