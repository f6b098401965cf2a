/** When a conflict can be settled, and what settling it does. */
module ResolutionLaws {
  import opened Wrappers
  import opened TextRules
  import opened Registrations
  import opened RowMerge
  import opened Transitions
  import opened TransitionLaws
  import opened Operations
  import opened FeedLog
  import opened Tables
  import opened Receiver
  import opened ReceiverLaws
  import opened Resolutions

  /** A proposed change stays on its row, its event and its evidence, and its after image is valid if its before image is. */
  predicate ProperChange(ch: Change) {
    Identifier(ch.registrationId) && ch.before.id == ch.registrationId && ch.after.id == ch.registrationId &&
    ch.after.eventId == ch.before.eventId && ch.after.hasTimingEvidence == ch.before.hasTimingEvidence &&
    (ValidRegistration(ch.before) ==> ValidRegistration(ch.after))
  }

  predicate ProperChanges(changes: seq<Change>, eventId: string) {
    1 <= |changes| <= 2 && (|changes| == 2 ==> changes[0].registrationId != changes[1].registrationId) &&
    forall i :: 0 <= i < |changes| ==> ProperChange(changes[i]) && changes[i].before.eventId == eventId
  }

  lemma {:induction false} NormalizedIsProper(current: seq<Registration>, op: Operation, derived: seq<Change>, eventId: string)
    requires Aligned(current, op) && forall i :: 0 <= i < |current| ==> current[i].eventId == eventId
    requires forall i :: 0 <= i < |current| ==> var last := LastFor(derived, current[i].id);
      last.Some? ==> ProperChange(Change(current[i].id, current[i], last.value.after))
    ensures ProperChanges(Normalized(current, derived), eventId)
  {
    forall i | 0 <= i < |current| ensures Identifier(current[i].id) {
      assert ParsedChange(op.changes[i]);
    }
  }

  lemma {:induction false} AppliedIsProper(current: seq<Registration>, op: Operation, id: string, i: nat)
    requires Aligned(current, op) && i < |current| && Apply(current, op.command).Ok? && id == current[i].id
    ensures var last := LastFor(Apply(current, op.command).value, id);
            last.Some? ==> ProperChange(Change(id, current[i], last.value.after))
  {
    ApplyIsGood(current, op.command);
    FindAligned(current, op, i);
    var derived := Apply(current, op.command).value;
    var last := LastFor(derived, id);
    if last.Some? {
      var j :| 0 <= j < |derived| && derived[j] == last.value;
      assert GoodChange(current, op.command.kind, derived[j]);
      assert ParsedChange(op.changes[i]);
    }
  }

  lemma {:induction false} ForcedIsProper(ch: Change, current: Registration)
    requires ch.before.id == ch.after.id && ch.before.eventId == ch.after.eventId && Identifier(current.id)
    requires ch.before.hasTimingEvidence == ch.after.hasTimingEvidence && Forced(ch, current).Some?
    ensures ProperChange(Change(current.id, current, Forced(ch, current).value))
  {
  }

  lemma {:induction false} ForcedLast(changes: seq<Change>, current: seq<Registration>)
    requires |current| == |changes| && changes != [] && ForcedAll(changes, current).Some?
    ensures var n := |changes| - 1; var front := ForcedAll(changes[..n], current[..n]);
            front.Some? && Forced(changes[n], current[n]).Some? &&
            ForcedAll(changes, current).value == front.value + [Change(current[n].id, current[n], Forced(changes[n], current[n]).value)]
  {
  }

  lemma {:induction false} ForcedEach(changes: seq<Change>, current: seq<Registration>)
    requires |current| == |changes| && ForcedAll(changes, current).Some?
    ensures var f := ForcedAll(changes, current).value;
            |f| == |current| && forall i :: 0 <= i < |f| ==>
              Forced(changes[i], current[i]).Some? &&
              f[i] == Change(current[i].id, current[i], Forced(changes[i], current[i]).value)
  {
    if changes != [] {
      var n := |changes| - 1;
      ForcedLast(changes, current);
      ForcedEach(changes[..n], current[..n]);
      assert forall i :: 0 <= i < n ==> changes[..n][i] == changes[i] && current[..n][i] == current[i];
    }
  }

  lemma {:induction false} LastForAt(changes: seq<Change>, i: nat)
    requires i < |changes|
    requires forall j, k :: 0 <= j < k < |changes| ==> changes[j].registrationId != changes[k].registrationId
    ensures LastFor(changes, changes[i].registrationId) == Some(changes[i])
  {
    if i < |changes| - 1 {
      LastForAt(changes[..|changes| - 1], i);
    }
  }

  lemma {:induction false} LastForced(changes: seq<Change>, current: seq<Registration>, i: nat)
    requires i < |current| == |changes| && ForcedAll(changes, current).Some?
    requires forall j, k :: 0 <= j < k < |current| ==> current[j].id != current[k].id
    ensures Forced(changes[i], current[i]).Some?
    ensures LastFor(ForcedAll(changes, current).value, current[i].id) ==
            Some(Change(current[i].id, current[i], Forced(changes[i], current[i]).value))
  {
    ForcedEach(changes, current);
    LastForAt(ForcedAll(changes, current).value, i);
  }

  lemma {:induction false} ForcedAllIsProper(current: seq<Registration>, op: Operation, i: nat)
    requires Aligned(current, op) && i < |current| && ForcedAll(op.changes, current).Some?
    ensures var last := LastFor(ForcedAll(op.changes, current).value, current[i].id);
            last.Some? ==> ProperChange(Change(current[i].id, current[i], last.value.after))
  {
    LastForced(op.changes, current, i);
    assert ParsedChange(op.changes[i]) && FrameEqual(op, op.changes[i]);
    ForcedIsProper(op.changes[i], current[i]);
  }

  lemma {:induction false} NamedRowsAlign(d: Desk, op: Operation, current: seq<Registration>)
    requires ParsedShape(op) && Consistent(d) && EventOf(op) == d.eventId && |current| == |op.changes|
    requires forall i :: 0 <= i < |current| ==> current[i] == op.changes[i].before || Some(current[i]) == ReadRow(d, op.changes[i].registrationId)
    ensures Aligned(current, op) && forall r :: r in current ==> r.eventId == d.eventId
  {
    forall i | 0 <= i < |current|
      ensures current[i].id == op.changes[i].registrationId && current[i].eventId == d.eventId
    {
      assert FrameEqual(op, op.changes[i]);
    }
  }

  lemma {:induction false} ConflictRowsAligned(d: Desk, op: Operation)
    requires ParsedShape(op) && Consistent(d) && EventOf(op) == d.eventId && ConflictRows(d, op).Some?
    requires op.command.kind.CreateRegistration? ==> |op.changes| == 1
    ensures Aligned(ConflictRows(d, op).value, op)
    ensures forall r :: r in ConflictRows(d, op).value ==> r.eventId == d.eventId
  {
    NamedRowsAlign(d, op, ConflictRows(d, op).value);
  }

  lemma {:induction false} RerunProposal(current: seq<Registration>, op: Operation, eventId: string)
    requires Aligned(current, op) && Apply(current, op.command).Ok? && forall i :: 0 <= i < |current| ==> current[i].eventId == eventId
    ensures ProperChanges(Normalized(current, Apply(current, op.command).value), eventId)
  {
    var derived := Apply(current, op.command).value;
    forall i | 0 <= i < |current|
      ensures var last := LastFor(derived, current[i].id);
              last.Some? ==> ProperChange(Change(current[i].id, current[i], last.value.after))
    {
      AppliedIsProper(current, op, current[i].id, i);
    }
    NormalizedIsProper(current, op, derived, eventId);
  }

  lemma {:induction false} ForcedProposal(current: seq<Registration>, op: Operation, eventId: string)
    requires Aligned(current, op) && ForcedAll(op.changes, current).Some? && forall i :: 0 <= i < |current| ==> current[i].eventId == eventId
    ensures ProperChanges(Normalized(current, ForcedAll(op.changes, current).value), eventId)
  {
    var derived := ForcedAll(op.changes, current).value;
    forall i | 0 <= i < |current|
      ensures var last := LastFor(derived, current[i].id);
              last.Some? ==> ProperChange(Change(current[i].id, current[i], last.value.after))
    {
      ForcedAllIsProper(current, op, i);
    }
    NormalizedIsProper(current, op, derived, eventId);
  }

  /** What the organiser is offered always stays on the conflict's rows, within their event and evidence. */
  lemma {:induction false} ProposalIsProper(d: Desk, op: Operation)
    requires Consistent(d) && Propose(d, op).Ok? && EventOf(op) == d.eventId
    ensures ProperChanges(Propose(d, op).value.changes, d.eventId)
  {
    if op.command.kind.CreateRegistration? {
      ParsedNumber(op);
    }
    ShapedProposal(d, op);
  }

  lemma {:induction false} ShapedProposal(d: Desk, op: Operation)
    requires ParsedShape(op) && Consistent(d) && EventOf(op) == d.eventId && ProposeFor(d, op).Ok?
    requires op.command.kind.CreateRegistration? ==> |op.changes| == 1
    ensures ProperChanges(ProposeFor(d, op).value.changes, d.eventId)
  {
    ConflictRowsAligned(d, op);
    var current := ConflictRows(d, op).value;
    assert forall i :: 0 <= i < |current| ==> current[i] in current;
    if StillApplies(d, op, current) {
      RerunProposal(current, op, d.eventId);
      assert ProposeFor(d, op).value.changes == Normalized(current, Apply(current, op.command).value);
    } else {
      ForcedProposal(current, op, d.eventId);
      assert ProposeFor(d, op).value.changes == Normalized(current, ForcedAll(op.changes, current).value);
    }
  }

  // When a decision can be written.

  /** The names, numbers and times the environment hands to a decision. */
  predicate EnvironmentFits(x: Decision, candidate: Candidate) {
    Uuid(x.inputId) && Uuid(x.resolutionId) && x.resolutionId != x.inputId && Uuid(x.installationId) &&
    0 < x.sequence <= MaxSafeInteger && 0 <= x.now <= MaxSafeInteger &&
    Identifier(candidate.operation.scopeId) && Identifier(candidate.operation.baselineId)
  }

  /** No proposed change moves its row to another race, and the rows were valid to begin with. */
  predicate Recordable(changes: seq<Change>) {
    forall ch :: ch in changes ==> ch.after.raceId == ch.before.raceId && ValidRegistration(ch.before)
  }

  lemma {:induction false} ChangeParses(x: Decision, candidate: Candidate, i: nat, eventId: string)
    requires ProperChanges(candidate.changes, eventId) && i < |candidate.changes|
    ensures var op := ResolutionOf(x, candidate); var ch := candidate.changes[i];
            |op.changes| == |candidate.changes| &&
            (ParsedChange(op.changes[i]) && FrameEqual(op, op.changes[i]) <==>
             ch.after.raceId == ch.before.raceId && ValidRegistration(ch.before) && ValidRegistration(ch.after)) &&
            op.changes[i].before.eventId == eventId && op.changes[i].registrationId == ch.registrationId
  {
  }

  lemma {:induction false} BasesParse(x: Decision, candidate: Candidate)
    requires Uuid(x.inputId)
    ensures var op := ResolutionOf(x, candidate);
            |op.bases| == |op.changes| && (forall b :: b in op.bases ==> b.heads == [x.inputId]) &&
            forall i :: 0 <= i < |op.changes| ==>
              op.bases[i].registrationId == op.changes[i].registrationId &&
              (ParsedBase(op.bases[i]) <==> Identifier(op.changes[i].registrationId))
  {
  }

  /**
   A decision on a fresh proposal can be written down exactly when no row would change race, the rows shown were
   valid, the reason is a valid reason and the actor fits its 160 bytes.
   */
  lemma {:induction false} DecisionIsRecordable(x: Decision, candidate: Candidate, eventId: string)
    requires ProperChanges(candidate.changes, eventId) && EnvironmentFits(x, candidate)
    ensures ParsedResolution(ResolutionOf(x, candidate)) <==>
            Recordable(candidate.changes) && ValidReason(Trim(x.reason)) && ValidText(Trim(x.actor), 160)
  {
    var op := ResolutionOf(x, candidate);
    forall i | 0 <= i < |candidate.changes|
      ensures |op.changes| == |candidate.changes| && op.changes[i].before.eventId == eventId
      ensures op.changes[i].registrationId == candidate.changes[i].registrationId
      ensures ParsedChange(op.changes[i]) && FrameEqual(op, op.changes[i]) <==>
              candidate.changes[i].after.raceId == candidate.changes[i].before.raceId && ValidRegistration(candidate.changes[i].before)
    {
      ChangeParses(x, candidate, i, eventId);
      assert ProperChange(candidate.changes[i]);
    }
    BasesParse(x, candidate);
  }

  // What a decision does.

  /** The parts of a decision that went through: the proposal, the rows written for it, and the record. */
  lemma {:induction false} ResolvedShape(d: Desk, x: Decision) returns (candidate: Candidate, written: Desk)
    requires Resolve(d, x).reply.Ok?
    ensures x.inputId in d.operations && x.inputId !in d.resolutions
    ensures Propose(d, d.operations[x.inputId].operation) == Ok(candidate) && (x.apply ==> candidate.applicable)
    ensures WriteDecision(d, x, candidate) == Ok(written) && ParsedResolution(ResolutionOf(x, candidate))
    ensures RecordDecision(written, x, ResolutionOf(x, candidate)) == Ok(Resolve(d, x).desk)
    ensures Resolve(d, x).reply.value == ResolutionOf(x, candidate)
  {
    candidate := Propose(d, d.operations[x.inputId].operation).value;
    written := WriteDecision(d, x, candidate).value;
  }

  lemma {:induction false} PutAllIsLocal(d: Desk, changes: seq<Change>, heads: seq<string>)
    requires PutAll(d, changes, heads).Ok?
    ensures SameElsewhere(d, PutAll(d, changes, heads).value)
  {
    if changes != [] {
      PutAllIsLocal(d, changes[..|changes| - 1], heads);
    }
  }

  predicate Settled(d: Desk, x: Decision, e: Desk) {
    x.inputId in e.resolutions && (!x.apply ==> e.rows == d.rows && e.members == d.members)
  }

  lemma {:induction false} RecordedIsFinal(d: Desk, x: Decision, candidate: Candidate, written: Desk, e: Desk)
    requires WriteDecision(d, x, candidate) == Ok(written) && RecordDecision(written, x, ResolutionOf(x, candidate)) == Ok(e)
    ensures Settled(d, x, e) && LaterState(d, e)
  {
    if x.apply {
      PutAllIsLocal(d, candidate.changes, [x.resolutionId]);
    }
  }

  /** A decision is recorded for its input, keeps every earlier outcome, and changes rows only when the proposal is applied. */
  lemma {:induction false} ResolveIsFinal(d: Desk, x: Decision)
    requires Resolve(d, x).reply.Ok?
    ensures Settled(d, x, Resolve(d, x).desk) && LaterState(d, Resolve(d, x).desk)
  {
    var candidate, written := ResolvedShape(d, x);
    RecordedIsFinal(d, x, candidate, written, Resolve(d, x).desk);
  }

  /** A conflict that was decided cannot be decided again. */
  lemma {:induction false} DecidedOnce(d: Desk, again: Decision)
    requires again.inputId in d.resolutions
    ensures Resolve(d, again).desk == d && Resolve(d, again).reply.Err?
  {
  }

  /** Applying the proposal puts the rerun command's rows in place, under the decision's own name. */
  lemma {:induction false} ResolveAppliesProposal(d: Desk, x: Decision)
    requires Resolve(d, x).reply.Ok? && x.apply && Consistent(d)
    ensures var op := Resolve(d, x).reply.value; var e := Resolve(d, x).desk;
            WroteRows(d.rows, e.rows, op.changes, [x.resolutionId]) && WroteMembers(d.members, e.members, op.changes)
  {
    var candidate, written := ResolvedShape(d, x);
    ApplicableRewrites(d, d.operations[x.inputId].operation);
    ProperIsNamed(candidate.changes, d.eventId);
    PutAllWrites(d, candidate.changes, [x.resolutionId]);
  }

  lemma {:induction false} ProperIsNamed(changes: seq<Change>, eventId: string)
    requires ProperChanges(changes, eventId)
    ensures SelfNamed(changes) && forall ch :: ch in changes ==> ch.after.eventId == eventId
  {
    forall ch | ch in changes ensures ch.after.id == ch.registrationId && ch.after.eventId == eventId {
      var i :| 0 <= i < |changes| && changes[i] == ch;
      assert ProperChange(changes[i]);
    }
  }

  /** A proposal that can be applied only ever rewrites rows that are there, in place. */
  lemma {:induction false} ApplicableRewrites(d: Desk, op: Operation)
    requires Consistent(d) && Propose(d, op).Ok? && Propose(d, op).value.applicable
    ensures ProperChanges(Propose(d, op).value.changes, d.eventId)
    ensures forall ch :: ch in Propose(d, op).value.changes ==> ch.registrationId in d.rows
  {
    ShapedRewrites(d, op);
  }

  lemma {:induction false} RerunIsProposed(d: Desk, op: Operation)
    requires ProposeFor(d, op).Ok? && ProposeFor(d, op).value.applicable
    ensures ReadAll(d, op.changes).Some? && Apply(ReadAll(d, op.changes).value, op.command).Ok?
    ensures var current := ReadAll(d, op.changes).value;
            ProposeFor(d, op).value.changes == Normalized(current, Apply(current, op.command).value)
  {
  }

  lemma {:induction false} NormalizedNames(current: seq<Registration>, derived: seq<Change>, rows: map<string, Row>)
    requires forall i :: 0 <= i < |current| ==> current[i].id in rows
    ensures forall ch :: ch in Normalized(current, derived) ==> ch.registrationId in rows
  {
  }

  lemma {:induction false} ShapedRewrites(d: Desk, op: Operation)
    requires ParsedShape(op) && Consistent(d) && ProposeFor(d, op).Ok? && ProposeFor(d, op).value.applicable
    ensures ProperChanges(ProposeFor(d, op).value.changes, d.eventId)
    ensures forall ch :: ch in ProposeFor(d, op).value.changes ==> ch.registrationId in d.rows
  {
    RerunIsProposed(d, op);
    ReadAllIsCurrent(d, op);
    var current := CurrentRows(d, op);
    RerunProposal(current, op, d.eventId);
    NormalizedNames(current, Apply(current, op.command).value, d.rows);
  }

  /** A conflict whose proposal moves a row to another race stays open: neither way of deciding it is ever recorded. */
  lemma {:induction false} RaceMoveStaysOpen(d: Desk, x: Decision, i: nat)
    requires x.inputId in d.operations && Propose(d, d.operations[x.inputId].operation).Ok?
    requires var changes := Propose(d, d.operations[x.inputId].operation).value.changes;
             i < |changes| && changes[i].after.raceId != changes[i].before.raceId
    ensures Resolve(d, x).reply.Err? && Resolve(d, x).desk == d
  {
    if Resolve(d, x).reply.Ok? {
      var candidate, _ := ResolvedShape(d, x);
      RaceMoveIsUnparsed(x, candidate, i);
    }
  }

  lemma {:induction false} RaceMoveIsUnparsed(x: Decision, candidate: Candidate, i: nat)
    requires i < |candidate.changes| && candidate.changes[i].after.raceId != candidate.changes[i].before.raceId
    ensures !ParsedResolution(ResolutionOf(x, candidate))
  {
    var op := ResolutionOf(x, candidate);
    assert op.changes == DecidedChanges(x, candidate);
    assert |op.changes| == |candidate.changes| && op.changes[i].before.raceId != op.changes[i].after.raceId;
    assert !FrameEqual(op, op.changes[i]);
  }
}
