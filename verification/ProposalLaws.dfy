/** What the organiser is offered for a conflict, and what either decision writes and tells. */
module ProposalLaws {
  import opened Wrappers
  import opened TextRules
  import opened Registrations
  import opened RowMerge
  import opened Transitions
  import opened TransitionLaws
  import opened CommandEffects
  import opened Operations
  import opened FeedLog
  import opened Tables
  import opened Receiver
  import opened ReceiverLaws
  import opened Resolutions
  import opened ResolutionLaws
  import opened PublishLaws

  // The offer.

  /** Every row of the conflict is there, or is one the operation itself would have created. */
  predicate RowsThere(d: Desk, op: Operation) {
    (forall i :: 0 <= i < |op.changes| ==> ReadRow(d, op.changes[i].registrationId).Some?) ||
    op.command.kind.CreateRegistration? ||
    (op.command.kind.ReturnToReserve? &&
     forall i :: 0 <= i < |op.changes| ==> ReadRow(d, op.changes[i].registrationId).Some? || Blank(op.changes[i].before))
  }

  /** A field the operation changed has the operation's value, any other the current one. */
  predicate Over<T(==)>(before: T, after: T, current: T, offered: T) {
    if before != after then offered == after else offered == current
  }

  predicate PersonOver(before: Option<Person>, after: Option<Person>, current: Option<Person>, offered: Option<Person>) {
    if before.Some? && after.Some? && current.Some? then
      offered.Some? &&
      var b, a, c, o := before.value, after.value, current.value, offered.value;
      Over(b.id, a.id, c.id, o.id) && Over(b.firstName, a.firstName, c.firstName, o.firstName) &&
      Over(b.lastName, a.lastName, c.lastName, o.lastName) && Over(b.birthDate, a.birthDate, c.birthDate, o.birthDate) &&
      Over(b.gender, a.gender, c.gender, o.gender) && Over(b.team, a.team, c.team, o.team) && Over(b.city, a.city, c.city, o.city)
    else Over(before, after, current, offered)
  }

  /** The operation's change laid over the current row. */
  predicate LaidOver(b: Registration, a: Registration, c: Registration, o: Registration) {
    Over(b.id, a.id, c.id, o.id) && Over(b.eventId, a.eventId, c.eventId, o.eventId) && Over(b.raceId, a.raceId, c.raceId, o.raceId) &&
    Over(b.bib, a.bib, c.bib, o.bib) && Over(b.epc, a.epc, c.epc, o.epc) && PersonOver(b.person, a.person, c.person, o.person) &&
    Over(b.reserve, a.reserve, c.reserve, o.reserve) && Over(b.issued, a.issued, c.issued, o.issued) &&
    Over(b.status, a.status, c.status, o.status) && Over(b.transferredTo, a.transferredTo, c.transferredTo, o.transferredTo) &&
    Over(b.hasTimingEvidence, a.hasTimingEvidence, c.hasTimingEvidence, o.hasTimingEvidence)
  }

  /** The command can still be run on the rows as they are. */
  predicate Runs(d: Desk, op: Operation) {
    !op.command.kind.CreateRegistration? && !op.command.kind.ReturnToReserve? &&
    (op.command.kind.AssignNumber? ==> CheckNumber(d, op.command.registrationId, op.command.bib).None?) &&
    Apply(CurrentRows(d, op), op.command).Ok?
  }

  /** The row as the rerun command leaves it: its after image, or the row itself if the command leaves it alone. */
  predicate AsRun(derived: seq<Change>, ch: Change) {
    if exists j :: 0 <= j < |derived| && derived[j].registrationId == ch.registrationId then
      exists j :: 0 <= j < |derived| && derived[j].registrationId == ch.registrationId && derived[j].after == ch.after
    else ch.after == ch.before
  }

  predicate OfferedRow(d: Desk, op: Operation, i: nat, ch: Change)
    requires i < |op.changes|
  {
    ch.registrationId == op.changes[i].registrationId && ch.before == CurrentOf(d, op, i)
  }

  /** The offer: each row as it is, and as the rerun command leaves it, or with the tablet's change laid over it. */
  predicate Offered(d: Desk, op: Operation, candidate: Candidate) {
    candidate.operation == op && |candidate.changes| == |op.changes| && (candidate.applicable <==> Runs(d, op)) &&
    forall i :: 0 <= i < |op.changes| ==>
      OfferedRow(d, op, i, candidate.changes[i]) &&
      if candidate.applicable then AsRun(Apply(CurrentRows(d, op), op.command).value, candidate.changes[i])
      else LaidOver(op.changes[i].before, op.changes[i].after, CurrentOf(d, op, i), candidate.changes[i].after) &&
           ValidRegistration(candidate.changes[i].after)
  }

  lemma {:induction false} LaidOverOnce(b: Registration, a: Registration, c: Registration, o: Registration)
    ensures LaidOver(b, a, c, o) <==> o == TakeRow(b, a, c)
  {
  }

  lemma {:induction false} ReadAllRows(d: Desk, changes: seq<Change>)
    ensures ReadAll(d, changes).Some? <==> forall i :: 0 <= i < |changes| ==> ReadRow(d, changes[i].registrationId).Some?
    ensures ReadAll(d, changes).Some? ==>
              |ReadAll(d, changes).value| == |changes| &&
              forall i :: 0 <= i < |changes| ==> ReadAll(d, changes).value[i] == ReadRow(d, changes[i].registrationId).value
  {
  }

  lemma {:induction false} CreatedRowIsThere(d: Desk, op: Operation)
    requires op.command.kind.CreateRegistration? && |op.changes| == 1
    ensures ConflictRows(d, op) == Some(CurrentRows(d, op))
  {
    ReadAllRows(d, op.changes);
    if ReadAll(d, op.changes).Some? {
      assert ReadAll(d, op.changes).value == CurrentRows(d, op);
    } else {
      assert CurrentRows(d, op) == [op.changes[0].before];
    }
  }

  lemma {:induction false} RowsAreThere(d: Desk, op: Operation)
    requires ParsedOperation(op)
    ensures ConflictRows(d, op) == if RowsThere(d, op) then Some(CurrentRows(d, op)) else None
  {
    if op.command.kind.CreateRegistration? {
      ParsedNumber(op);
      CreatedRowIsThere(d, op);
    } else {
      OtherRowsAreThere(d, op);
    }
  }

  lemma {:induction false} OtherRowsAreThere(d: Desk, op: Operation)
    requires !op.command.kind.CreateRegistration?
    ensures ConflictRows(d, op) == if RowsThere(d, op) then Some(CurrentRows(d, op)) else None
  {
    ReadAllRows(d, op.changes);
    forall i | 0 <= i < |op.changes|
      ensures IsVirtual(op.changes[i].before) <==> Blank(op.changes[i].before)
    {
      VirtualIsBlank(op.changes[i].before);
    }
    if ReadAll(d, op.changes).Some? {
      assert ReadAll(d, op.changes).value == CurrentRows(d, op);
    }
  }

  lemma {:induction false} RowsAreNamed(d: Desk, op: Operation)
    requires ParsedShape(op) && Consistent(d)
    ensures Aligned(CurrentRows(d, op), op)
  {
    forall i | 0 <= i < |op.changes|
      ensures CurrentOf(d, op, i).id == op.changes[i].registrationId
    {
      assert FrameEqual(op, op.changes[i]);
    }
  }

  lemma {:induction false} LastIsOnly(derived: seq<Change>, id: string, j: nat)
    requires j < |derived| <= 2 && (|derived| == 2 ==> derived[0].registrationId != derived[1].registrationId)
    requires derived[j].registrationId == id
    ensures LastFor(derived, id) == Some(derived[j])
  {
    LastOfFew(derived, j);
  }

  lemma {:induction false} RunRow(derived: seq<Change>, current: Registration, ch: Change)
    requires |derived| <= 2 && (|derived| == 2 ==> derived[0].registrationId != derived[1].registrationId)
    requires ch.registrationId == current.id && ch.before == current
    ensures AsRun(derived, ch) <==>
            ch.after == if LastFor(derived, current.id).Some? then LastFor(derived, current.id).value.after else current
  {
    forall j | 0 <= j < |derived| && derived[j].registrationId == current.id
      ensures LastFor(derived, current.id) == Some(derived[j])
    {
      LastIsOnly(derived, current.id, j);
    }
    if LastFor(derived, current.id).Some? {
      var j :| 0 <= j < |derived| && derived[j] == LastFor(derived, current.id).value;
      assert derived[j].registrationId == ch.registrationId;
    }
  }

  /** The last change of a row is one the command made of it; without one the row stands. */
  lemma {:induction false} LastIsRun(derived: seq<Change>, row: Registration)
    ensures var last := LastFor(derived, row.id);
            AsRun(derived, Change(row.id, row, if last.Some? then last.value.after else row))
  {
    var last := LastFor(derived, row.id);
    if last.Some? {
      var j :| 0 <= j < |derived| && derived[j] == last.value;
      assert derived[j].registrationId == row.id;
    } else {
      forall j | 0 <= j < |derived|
        ensures derived[j].registrationId != row.id
      {
        assert derived[j] in derived;
      }
    }
  }

  lemma {:induction false} ForcedRow(ch: Change, current: Registration, o: Registration)
    ensures Forced(ch, current) == Some(o) <==> LaidOver(ch.before, ch.after, current, o) && ValidRegistration(o)
  {
    LaidOverOnce(ch.before, ch.after, current, o);
  }

  lemma {:induction false} ForcedAllWhen(changes: seq<Change>, current: seq<Registration>)
    requires |current| == |changes| && forall i :: 0 <= i < |changes| ==> Forced(changes[i], current[i]).Some?
    ensures ForcedAll(changes, current).Some?
  {
    if changes != [] {
      ForcedAllWhen(changes[..|changes| - 1], current[..|changes| - 1]);
    }
  }

  lemma {:induction false} NormalizedForced(current: seq<Registration>, forced: seq<Change>, i: nat)
    requires i < |current| == |forced| && forall j :: 0 <= j < |current| ==> forced[j].registrationId == current[j].id
    requires forall j, k :: 0 <= j < k < |current| ==> current[j].id != current[k].id
    ensures |Normalized(current, forced)| == |current|
    ensures Normalized(current, forced)[i] == Change(current[i].id, current[i], forced[i].after)
  {
    LastForAt(forced, i);
  }

  lemma {:induction false} ForcedOffer(op: Operation, current: seq<Registration>, i: nat)
    requires Aligned(current, op) && i < |current| && ForcedAll(op.changes, current).Some?
    ensures Forced(op.changes[i], current[i]).Some?
    ensures var p := Normalized(current, ForcedAll(op.changes, current).value);
            |p| == |current| &&
            p[i] == Change(op.changes[i].registrationId, current[i], Forced(op.changes[i], current[i]).value)
  {
    NamesDiffer(current, op);
    ForcedInPlace(op.changes, current, i);
  }

  lemma {:induction false} NamesDiffer(current: seq<Registration>, op: Operation)
    requires Aligned(current, op)
    ensures forall j, k :: 0 <= j < k < |current| ==> current[j].id != current[k].id
  {
  }

  lemma {:induction false} ForcedInPlace(changes: seq<Change>, current: seq<Registration>, i: nat)
    requires i < |current| == |changes| && ForcedAll(changes, current).Some?
    requires forall j, k :: 0 <= j < k < |current| ==> current[j].id != current[k].id
    ensures Forced(changes[i], current[i]).Some?
    ensures var p := Normalized(current, ForcedAll(changes, current).value);
            |p| == |current| && p[i] == Change(current[i].id, current[i], Forced(changes[i], current[i]).value)
  {
    ForcedEach(changes, current);
    NormalizedForced(current, ForcedAll(changes, current).value, i);
  }

  lemma {:induction false} RunOffer(op: Operation, current: seq<Registration>, i: nat, ch: Change)
    requires Aligned(current, op) && i < |current| && Apply(current, op.command).Ok?
    requires ch.registrationId == op.changes[i].registrationId && ch.before == current[i]
    ensures var derived := Apply(current, op.command).value;
            |Normalized(current, derived)| == |current| && (Normalized(current, derived)[i] == ch <==> AsRun(derived, ch))
  {
    ApplyIsGood(current, op.command);
    RunRow(Apply(current, op.command).value, current[i], ch);
  }

  /** What is proposed, by its parts. */
  lemma {:induction false} ProposeByParts(d: Desk, op: Operation)
    requires ParsedOperation(op) && RowsThere(d, op)
    ensures var current := CurrentRows(d, op);
            Propose(d, op) ==
            if Runs(d, op) then Ok(Candidate(op, Normalized(current, Apply(current, op.command).value), true))
            else if ForcedAll(op.changes, current).None? then Err(InvalidConflict)
            else Ok(Candidate(op, Normalized(current, ForcedAll(op.changes, current).value), false))
  {
    RowsAreThere(d, op);
  }

  lemma {:induction false} RunIsOffered(d: Desk, op: Operation, candidate: Candidate)
    requires Aligned(CurrentRows(d, op), op) && Runs(d, op)
    ensures Offered(d, op, candidate) <==>
            candidate == Candidate(op, Normalized(CurrentRows(d, op), Apply(CurrentRows(d, op), op.command).value), true)
  {
    var current := CurrentRows(d, op);
    var p := Normalized(current, Apply(current, op.command).value);
    if |candidate.changes| == |op.changes| {
      forall i | 0 <= i < |op.changes| && OfferedRow(d, op, i, candidate.changes[i])
        ensures p[i] == candidate.changes[i] <==> AsRun(Apply(current, op.command).value, candidate.changes[i])
      {
        RunOffer(op, current, i, candidate.changes[i]);
      }
      SameList(candidate.changes, p);
    }
  }

  lemma {:induction false} SameList(x: seq<Change>, y: seq<Change>)
    requires |x| == |y|
    ensures x == y <==> forall i :: 0 <= i < |x| ==> x[i] == y[i]
  {
  }

  lemma {:induction false} ForcedIsOffered(d: Desk, op: Operation, candidate: Candidate)
    requires Aligned(CurrentRows(d, op), op) && !Runs(d, op) && ForcedAll(op.changes, CurrentRows(d, op)).Some?
    ensures Offered(d, op, candidate) <==>
            candidate == Candidate(op, Normalized(CurrentRows(d, op), ForcedAll(op.changes, CurrentRows(d, op)).value), false)
  {
    var current := CurrentRows(d, op);
    var p := Normalized(current, ForcedAll(op.changes, current).value);
    if |candidate.changes| == |op.changes| {
      forall i | 0 <= i < |op.changes|
        ensures p[i] == candidate.changes[i] <==>
                OfferedRow(d, op, i, candidate.changes[i]) &&
                LaidOver(op.changes[i].before, op.changes[i].after, current[i], candidate.changes[i].after) &&
                ValidRegistration(candidate.changes[i].after)
      {
        ForcedOffer(op, current, i);
        ForcedRow(op.changes[i], current[i], candidate.changes[i].after);
      }
      SameList(candidate.changes, p);
    }
  }

  lemma {:induction false} NothingOffered(d: Desk, op: Operation, candidate: Candidate)
    requires Aligned(CurrentRows(d, op), op) && !Runs(d, op) && ForcedAll(op.changes, CurrentRows(d, op)).None?
    ensures !Offered(d, op, candidate)
  {
    var current := CurrentRows(d, op);
    if Offered(d, op, candidate) {
      forall i | 0 <= i < |op.changes|
        ensures Forced(op.changes[i], current[i]).Some?
      {
        ForcedRow(op.changes[i], current[i], candidate.changes[i].after);
      }
      ForcedAllWhen(op.changes, current);
    }
  }

  /** The organiser is offered exactly this, exactly when the operation can be read and its rows are there. */
  lemma {:induction false} OfferExactly(d: Desk, op: Operation, candidate: Candidate)
    requires Consistent(d)
    ensures Propose(d, op) == Ok(candidate) <==> ParsedOperation(op) && RowsThere(d, op) && Offered(d, op, candidate)
  {
    if ParsedOperation(op) {
      RowsAreThere(d, op);
      if RowsThere(d, op) {
        ProposeByParts(d, op);
        RowsAreNamed(d, op);
        if Runs(d, op) {
          RunIsOffered(d, op, candidate);
        } else if ForcedAll(op.changes, CurrentRows(d, op)).Some? {
          ForcedIsOffered(d, op, candidate);
        } else {
          NothingOffered(d, op, candidate);
        }
      }
    }
  }

  // The decision.

  /** The operation that records a decision: which conflict, which way, by whom, why, and the pairs it settles. */
  predicate RecordsDecision(op: Operation, x: Decision) {
    op.schemaVersion == 2 && op.operationId == x.resolutionId && op.originInstanceId == x.installationId &&
    op.originSequence == x.sequence && op.createdAtMs == x.now && op.claimedActor == Trim(x.actor) && op.note.None? &&
    op.scopeId == x.seen.operation.scopeId && op.baselineId == x.seen.operation.baselineId &&
    op.command.kind.ResolveConflict? && op.command.inputs == [x.inputId] && op.command.reason == Trim(x.reason) &&
    op.command.keep == (if x.apply then [x.inputId] else []) &&
    |op.changes| == |op.bases| == |x.seen.changes| &&
    forall i :: 0 <= i < |op.changes| ==>
      op.bases[i] == Base(x.seen.changes[i].registrationId, [x.inputId]) &&
      op.changes[i].registrationId == x.seen.changes[i].registrationId &&
      (op.changes[i].before, op.changes[i].after) ==
        if x.apply then (x.seen.changes[i].before, x.seen.changes[i].after)
        else (x.seen.changes[i].after, x.seen.changes[i].before)
  }

  /** Applying writes every offered row under the decision's name and nothing else; rejecting writes no row. */
  ghost predicate WritesDecision(d: Desk, x: Decision, e: Desk) {
    if x.apply then
      (forall i :: 0 <= i < |x.seen.changes| ==>
        var id := x.seen.changes[i].registrationId;
        id in e.rows && e.rows[id] == Row(x.seen.changes[i].after, [x.resolutionId], false)) &&
      forall id :: (exists i :: 0 <= i < |x.seen.changes| && x.seen.changes[i].registrationId == id) || Stands(d.rows, e.rows, id)
    else e.rows == d.rows && e.members == d.members
  }

  /** One entry tells the settled pairs; a row that ends up blank is told as gone. */
  predicate TellsDecision(f: Feed, g: Feed, op: Operation) {
    OneMore(f, g) &&
    var e := g.live[|f.live|];
    NamesOperation(e, op, Applied, None) && e.sourceCode == "admin.packet_issuance_resolution" &&
    |e.changes| == |op.changes| &&
    forall i :: 0 <= i < |e.changes| ==>
      e.changes[i].registrationId == op.changes[i].registrationId &&
      Side(e.changes[i].before, op.changes[i].before, true) &&
      Side(e.changes[i].after, op.changes[i].after, !Blank(op.changes[i].after))
  }

  lemma {:induction false} DecisionIsRecorded(x: Decision)
    ensures RecordsDecision(ResolutionOf(x, x.seen), x)
  {
  }

  lemma {:induction false} DecisionParts(d: Desk, x: Decision) returns (written: Desk)
    requires Resolve(d, x).reply.Ok?
    ensures x.inputId in d.operations && Propose(d, d.operations[x.inputId].operation) == Ok(x.seen)
    ensures x.apply ==> x.seen.applicable
    ensures WriteDecision(d, x, x.seen) == Ok(written) && Resolve(d, x).reply.value == ResolutionOf(x, x.seen)
    ensures RecordDecision(written, x, ResolutionOf(x, x.seen)) == Ok(Resolve(d, x).desk)
  {
    InnerParts(d, x);
    written := WriteDecision(d, x, x.seen).value;
  }

  lemma {:induction false} InnerParts(d: Desk, x: Decision)
    requires ResolveIn(d, x).reply.Ok?
    ensures x.inputId in d.operations && Propose(d, d.operations[x.inputId].operation) == Ok(x.seen)
    ensures x.apply ==> x.seen.applicable
    ensures WriteDecision(d, x, x.seen).Ok? && ResolveIn(d, x).reply.value == ResolutionOf(x, x.seen)
    ensures RecordDecision(WriteDecision(d, x, x.seen).value, x, ResolutionOf(x, x.seen)) == Ok(ResolveIn(d, x).desk)
  {
  }

  lemma {:induction false} RecordedIsTold(written: Desk, x: Decision, op: Operation, e: Desk)
    requires RecordDecision(written, x, op) == Ok(e) && op.schemaVersion == 2 && !op.command.kind.ChangeRace?
    requires forall i :: 0 <= i < |op.changes| ==> op.changes[i].after.id == op.changes[i].registrationId
    ensures e.rows == written.rows && e.members == written.members
    ensures e.operations == written.operations[op.operationId := OperationRecord(op, EventOf(op), Applied, None)]
    ensures e.resolutions == written.resolutions[x.inputId := Resolution(op.operationId, x.apply, op.command.reason)]
    ensures if InLog(written.feed, op.operationId) then e.feed == written.feed else TellsDecision(written.feed, e.feed, op)
  {
    PublishByParts(written.feed, op, Applied, None, op.changes);
    forall i | 0 <= i < |op.changes|
      ensures var p := PublishedChanges(op, op.changes);
              |p| == |op.changes| && p[i].registrationId == op.changes[i].registrationId &&
              Side(p[i].before, op.changes[i].before, true) && Side(p[i].after, op.changes[i].after, !Blank(op.changes[i].after))
    {
      PublishedAt(op, op.changes, i);
    }
  }

  /** Every offered pair is of one row, both before and after. */
  lemma {:induction false} OfferedIsNamed(d: Desk, op: Operation, candidate: Candidate)
    requires Consistent(d) && Propose(d, op) == Ok(candidate)
    ensures 1 <= |candidate.changes| <= 2
    ensures |candidate.changes| == 2 ==> candidate.changes[0].registrationId != candidate.changes[1].registrationId
    ensures forall i :: 0 <= i < |candidate.changes| ==> NamedPair(candidate.changes[i])
  {
    OfferExactly(d, op, candidate);
    RowsAreNamed(d, op);
    if candidate.applicable {
      ApplicableRewrites(d, op);
    }
    forall i | 0 <= i < |candidate.changes|
      ensures NamedPair(candidate.changes[i])
    {
      assert FrameEqual(op, op.changes[i]);
      assert candidate.applicable ==> ProperChange(candidate.changes[i]);
    }
  }

  predicate NamedPair(ch: Change) {
    ch.before.id == ch.registrationId && ch.after.id == ch.registrationId
  }

  lemma {:induction false} WroteOffer(d: Desk, x: Decision, e: Desk)
    requires x.apply && WroteRows(d.rows, e.rows, x.seen.changes, [x.resolutionId]) && 1 <= |x.seen.changes| <= 2
    requires |x.seen.changes| == 2 ==> x.seen.changes[0].registrationId != x.seen.changes[1].registrationId
    ensures WritesDecision(d, x, e)
  {
    var changes := x.seen.changes;
    forall i | 0 <= i < |changes|
      ensures changes[i].registrationId in e.rows && e.rows[changes[i].registrationId] == Row(changes[i].after, [x.resolutionId], false)
    {
      LastOfFew(changes, i);
    }
    forall id
      ensures (exists i :: 0 <= i < |changes| && changes[i].registrationId == id) || Stands(d.rows, e.rows, id)
    {
      var last := LastFor(changes, id);
      if last.Some? {
        var i :| 0 <= i < |changes| && changes[i] == last.value;
      }
    }
  }

  lemma {:induction false} DecisionWrites(d: Desk, x: Decision)
    requires Consistent(d) && Resolve(d, x).reply.Ok?
    ensures WritesDecision(d, x, Resolve(d, x).desk)
  {
    var written := DecisionParts(d, x);
    OfferedIsNamed(d, d.operations[x.inputId].operation, x.seen);
    ResolveIsFinal(d, x);
    if x.apply {
      ResolveAppliesProposal(d, x);
      assert Resolve(d, x).reply.value.changes == x.seen.changes;
      WroteOffer(d, x, Resolve(d, x).desk);
    }
  }

  /**
   A decision that goes through was made on the offer as it stands, is recorded with its pairs, writes the offered
   rows if it applies them and none if it does not, and is told to the tablets once.
   */
  lemma {:induction false} DecisionDoes(d: Desk, x: Decision)
    requires Consistent(d) && Resolve(d, x).reply.Ok?
    ensures x.inputId in d.operations && Offered(d, d.operations[x.inputId].operation, x.seen) && (x.apply ==> x.seen.applicable)
    ensures RecordsDecision(Resolve(d, x).reply.value, x) && WritesDecision(d, x, Resolve(d, x).desk)
    ensures var e := Resolve(d, x).desk; var op := Resolve(d, x).reply.value;
            op.changes != [] && e.operations == d.operations[x.resolutionId := OperationRecord(op, EventOf(op), Applied, None)] &&
            e.resolutions == d.resolutions[x.inputId := Resolution(x.resolutionId, x.apply, Trim(x.reason))]
    ensures var e := Resolve(d, x).desk; var op := Resolve(d, x).reply.value;
            if InLog(d.feed, x.resolutionId) then e.feed == d.feed else TellsDecision(d.feed, e.feed, op)
  {
    var written := DecisionParts(d, x);
    OfferExactly(d, d.operations[x.inputId].operation, x.seen);
    OfferedIsNamed(d, d.operations[x.inputId].operation, x.seen);
    DecisionIsRecorded(x);
    DecisionWrites(d, x);
    if x.apply {
      PutAllIsLocal(d, x.seen.changes, [x.resolutionId]);
    }
    var op := ResolutionOf(x, x.seen);
    forall i | 0 <= i < |op.changes|
      ensures op.changes[i].after.id == op.changes[i].registrationId
    {
      assert NamedPair(x.seen.changes[i]);
    }
    RecordedIsTold(written, x, op, Resolve(d, x).desk);
  }

  // Rows told as gone.

  /** A person moved to a reserve row without giving the number back leaves a blank row behind, if a tablet coined the row's id. */
  lemma {:induction false} EmptiedRowIsBlank(records: seq<Registration>, command: Command, c: seq<Change>)
    requires command.kind.AssignReserve? && command.returnSource == Some(false) && Apply(records, command) == Ok(c)
    ensures |c| == 2 && (Blank(c[0].after) <==> CoinedId(c[0].registrationId))
  {
    RefusedOffRoster(records, command);
    var source :| source in records && source.id == command.registrationId;
    CommandExactly(records, command, source, c);
    assert Effect(records, source, command, c);
    assert ValidRegistration(source) && RowAfter(command, source, c[0].after);
  }

  /** A decision keeps every row it writes, and yet tells the tablets that the row is gone exactly where it is blank. */
  lemma {:induction false} BlankIsToldGone(d: Desk, x: Decision, i: nat)
    requires Consistent(d) && Resolve(d, x).reply.Ok? && x.apply && !InLog(d.feed, x.resolutionId) && i < |x.seen.changes|
    ensures var e := Resolve(d, x).desk; var id := x.seen.changes[i].registrationId;
            id in e.rows && !e.rows[id].deleted && e.rows[id].value == x.seen.changes[i].after &&
            OneMore(d.feed, e.feed) && |e.feed.live[|d.feed.live|].changes| == |x.seen.changes| &&
            e.feed.live[|d.feed.live|].changes[i].registrationId == id &&
            (e.feed.live[|d.feed.live|].changes[i].after.None? <==> Blank(e.rows[id].value))
  {
    DecisionDoes(d, x);
    ToldAt(d.feed, Resolve(d, x).desk.feed, Resolve(d, x).reply.value, i);
  }

  lemma {:induction false} ToldAt(f: Feed, g: Feed, op: Operation, i: nat)
    requires TellsDecision(f, g, op) && i < |op.changes|
    ensures OneMore(f, g) && |g.live[|f.live|].changes| == |op.changes|
    ensures g.live[|f.live|].changes[i].registrationId == op.changes[i].registrationId
    ensures g.live[|f.live|].changes[i].after.None? <==> Blank(op.changes[i].after)
  {
  }

  /** What the Desk tells of a decision is what a reader of the feed demands of one: the decision's own images, blank rows left out. */
  lemma {:induction false} DecisionReadsBack(d: Desk, x: Decision)
    requires Consistent(d) && Resolve(d, x).reply.Ok? && !InLog(d.feed, x.resolutionId)
    ensures OneMore(d.feed, Resolve(d, x).desk.feed)
    ensures ResolutionMatches(Resolve(d, x).reply.value, Resolve(d, x).desk.feed.live[|d.feed.live|].changes)
  {
    DecisionDoes(d, x);
    var f, g, op := d.feed, Resolve(d, x).desk.feed, Resolve(d, x).reply.value;
    var told := g.live[|f.live|].changes;
    forall i | 0 <= i < |told|
      ensures |told| == |op.changes|
      ensures told[i] == FeedChange(op.changes[i].registrationId, Some(Bare(op.changes[i].before)),
                                    if IsVirtual(op.changes[i].after) then None else Some(Bare(op.changes[i].after)))
    {
      VirtualIsBlank(op.changes[i].after);
    }
  }
}
