/** The receiver as the program runs it: loops and table writes inside one transaction per operation. */
module ReceiverService {
  import opened Wrappers
  import opened TextRules
  import opened Registrations
  import opened RowMerge
  import opened Transitions
  import opened Operations
  import opened FeedLog
  import opened Tables
  import opened EventStore
  import opened Receiver

  /** A write whose specification also decides something. */
  predicate FollowsAssessed(spec: Result<Assessed, Failure>, done: Result<Verdict, Failure>, now: Desk) {
    match spec
    case Ok(a) => done == Ok(a.verdict) && now == a.desk
    case Err(f) => done == Err(f)
  }

  method Clash(changes: seq<Change>, current: seq<Registration>) returns (clash: Option<Code>)
    requires |current| == |changes|
    ensures clash == FirstClash(changes, current)
  {
    for i := 0 to |changes|
      invariant FirstClash(changes, current) == FirstClash(changes[i..], current[i..])
    {
      assert changes[i..][0] == changes[i] && current[i..][0] == current[i];
      assert changes[i..][1..] == changes[i + 1..] && current[i..][1..] == current[i + 1..];
      if !PacketCompatible(changes[i].before, changes[i].after, current[i]) {
        if current[i].hasTimingEvidence && !changes[i].before.hasTimingEvidence {
          return Some(TimingReviewRequired);
        }
        return Some(CurrentStateChanged);
      }
    }
    return None;
  }

  method Equivalence(changes: seq<Change>, current: seq<Registration>) returns (equivalent: bool)
    requires |current| == |changes|
    ensures equivalent == AllEquivalent(changes, current)
  {
    equivalent := true;
    for i := 0 to |changes|
      invariant equivalent <==> forall j :: 0 <= j < i ==>
        PacketChangedEqual(changes[j].before, changes[j].after, current[j], changes[j].after)
    {
      equivalent := equivalent && PacketChangedEqual(changes[i].before, changes[i].after, current[i], changes[i].after);
    }
  }

  method Matching(expected: seq<Change>, derived: seq<Change>, current: seq<Registration>) returns (all: bool)
    ensures all == EffectsMatch(expected, derived, current)
  {
    for i := 0 to |expected|
      invariant forall ch :: ch in expected[..i] ==>
        PacketEffectMatches(ch.before, ch.after, Actual(derived, current, ch.registrationId).before,
                            Actual(derived, current, ch.registrationId).after)
    {
      var actual := Actual(derived, current, expected[i].registrationId);
      assert expected[i] in expected;
      if !PacketEffectMatches(expected[i].before, expected[i].after, actual.before, actual.after) {
        return false;
      }
      assert expected[..i + 1] == expected[..i] + [expected[i]];
    }
    assert expected[..|expected|] == expected;
    return true;
  }

  method PacketMergeDecision(store: Store, current: seq<Registration>, op: Operation) returns (v: Verdict)
    requires |current| == |op.changes|
    ensures v == MergeDecision(store.View(), current, op)
  {
    var clash := Clash(op.changes, current);
    if clash.Some? {
      return Verdict(Conflict, clash, []);
    }
    var equivalent := Equivalence(op.changes, current);
    if equivalent {
      return Verdict(Equivalent, None, []);
    }
    v := DecideByRerun(store, current, op);
  }

  method DecideByRerun(store: Store, current: seq<Registration>, op: Operation) returns (v: Verdict)
    ensures v == RerunDecision(store.View(), current, op)
  {
    var derived: Result<seq<Change>, Code>;
    if op.command.kind.CorrectMove? {
      var id := op.command.operationId;
      if id !in store.operations || !(store.operations[id].outcome.Applied? || store.operations[id].outcome.Equivalent?) {
        return Verdict(Waiting, Some(CorrectionDependencyMissing), []);
      }
      var original := store.operations[id].operation;
      if original.schemaVersion != 1 {
        return Verdict(Conflict, Some(CorrectionReviewRequired), []);
      }
      derived := ReverseMove(current, original.changes, op.command.reason);
    } else {
      derived := Apply(current, op.command);
    }
    if derived.Err? {
      return Verdict(Conflict, Some(derived.error), []);
    }
    var match_ := Matching(op.changes, derived.value, current);
    if !match_ {
      return Verdict(Conflict, Some(OperationEffectChanged), []);
    }
    return Verdict(Applied, None, derived.value);
  }

  /** Writes the changed rows one after the other. */
  method PutChanges(store: Store, changes: seq<Change>, heads: seq<string>) returns (done: Result<(), Failure>)
    modifies store`rows, store`members
    ensures Follows(PutAll(old(store.View()), changes, heads), done, store.View())
  {
    ghost var d := store.View();
    for i := 0 to |changes|
      invariant PutAll(d, changes[..i], heads) == Ok(store.View())
    {
      assert changes[..i + 1][..i] == changes[..i];
      done := store.PutPacketRegistration(changes[i].after, heads);
      if done.Err? {
        PutAllStops(d, changes, heads, i + 1);
        return;
      }
    }
    assert changes[..|changes|] == changes;
    return Ok(());
  }

  lemma {:induction false} PutAllStops(d: Desk, changes: seq<Change>, heads: seq<string>, n: nat)
    requires n <= |changes| && PutAll(d, changes[..n], heads).Err?
    ensures PutAll(d, changes, heads) == PutAll(d, changes[..n], heads)
  {
    if n < |changes| {
      assert changes[..|changes| - 1][..n] == changes[..n];
      PutAllStops(d, changes[..|changes| - 1], heads, n);
    } else {
      assert changes[..n] == changes;
    }
  }

  method ReceiveRows(store: Store, op: Operation) returns (done: Result<Verdict, Failure>)
    modifies store`rows, store`members
    ensures FollowsAssessed(AssessRows(old(store.View()), op), done, store.View())
  {
    if op.command.kind.ChangeRace? && op.command.raceId !in store.races {
      return Ok(Verdict(Rejected, Some(InvalidTarget), []));
    }
    var ids := seq(|op.changes|, i requires 0 <= i < |op.changes| => op.changes[i].registrationId);
    var current := store.GetPacketRegistrations(ids);
    assert forall i :: 0 <= i < |ids| ==> ids[i] == op.changes[i].registrationId;
    assert current.None? <==> ReadAll(store.View(), op.changes).None?;
    assert current.Some? ==> current.value == ReadAll(store.View(), op.changes).value;
    if current.None? {
      return Ok(Verdict(Rejected, Some(RegistrationNotFound), []));
    }
    var v := PacketMergeDecision(store, current.value, op);
    if v.outcome.Applied? {
      var written := PutChanges(store, v.changes, [op.operationId]);
      if written.Err? {
        return Err(written.error);
      }
    }
    return Ok(v);
  }

  method ReceiveNumber(store: Store, op: Operation) returns (done: Result<Verdict, Failure>)
    modifies store`rows, store`members
    ensures FollowsAssessed(AssessNumber(old(store.View()), op), done, store.View())
  {
    var command := op.command;
    if command.bib != "" {
      var code := CheckNumber(store.View(), command.registrationId, command.bib);
      if code.Some? {
        return Ok(Verdict(Conflict, code, []));
      }
    }
    if command.kind.CreateRegistration? {
      if command.registrationId in store.members {
        return Ok(Verdict(Conflict, Some(RegistrationAlreadyExists), []));
      }
      if command.raceId !in store.races {
        return Ok(Verdict(Rejected, Some(InvalidTarget), []));
      }
      if command.person.Some? && (command.person.value.birthDate == "" || command.person.value.gender == "") {
        return Ok(Verdict(Rejected, Some(PersonDetailsRequired), []));
      }
      var empty := EmptyRegistration(command.registrationId, command.eventId, command.raceId);
      if empty.None? {
        return Err(StorageFailure);
      }
      done := WriteNumber(store, empty.value, op);
    } else {
      var found := store.GetPacketRegistrations([command.registrationId]);
      if found.None? {
        return Ok(Verdict(Rejected, Some(RegistrationNotFound), []));
      }
      if found.value[0].hasTimingEvidence {
        return Ok(Verdict(Conflict, Some(TimingReviewRequired), []));
      }
      done := WriteNumber(store, found.value[0], op);
    }
  }

  method WriteNumber(store: Store, row: Registration, op: Operation) returns (done: Result<Verdict, Failure>)
    modifies store`rows, store`members
    ensures FollowsAssessed(NumberOne(old(store.View()), row, op), done, store.View())
  {
    if |op.changes| != 1 {
      return Err(StorageFailure);
    }
    var v := PacketMergeDecision(store, [row], op);
    if v.outcome.Applied? && v.changes != [] {
      var written: Result<(), Failure>;
      if op.command.kind.CreateRegistration? {
        written := store.InsertPacketRegistration(v.changes[0].after, [op.operationId]);
      } else {
        written := store.PutPacketRegistration(v.changes[0].after, [op.operationId]);
      }
      if written.Err? {
        return Err(written.error);
      }
    }
    return Ok(v);
  }

  method ReceiveReserveReturn(store: Store, op: Operation) returns (done: Result<Verdict, Failure>)
    requires op.command.kind.ReturnToReserve?
    modifies store`rows, store`members
    ensures FollowsAssessed(AssessReturn(old(store.View()), op), done, store.View())
  {
    var command := op.command;
    var code := CheckNumber(store.View(), command.registrationId, command.bib);
    if code.Some? {
      return Ok(Verdict(Conflict, code, []));
    }
    if command.raceId !in store.races {
      return Ok(Verdict(Rejected, Some(InvalidTarget), []));
    }
    var found := store.GetPacketRegistrations([command.registrationId]);
    if found.None? {
      return Ok(Verdict(Rejected, Some(RegistrationNotFound), []));
    }
    assert ReadRow(store.View(), command.registrationId) == Some(found.value[0]);
    if command.targetId in store.members {
      return Ok(Verdict(Conflict, Some(RegistrationAlreadyExists), []));
    }
    var row := found.value[0];
    var empty := EmptyRegistration(command.targetId, row.eventId, command.raceId);
    if empty.None? {
      return Err(StorageFailure);
    }
    done := WriteReserveReturn(store, row, empty.value, op);
  }

  method WriteReserveReturn(store: Store, row: Registration, empty: Registration, op: Operation) returns (done: Result<Verdict, Failure>)
    requires op.command.kind.ReturnToReserve?
    modifies store`rows, store`members
    ensures FollowsAssessed(ReturnTwo(old(store.View()), row, empty, op), done, store.View())
  {
    if |op.changes| != 2 {
      return Err(StorageFailure);
    }
    var v := PacketMergeDecision(store, [row, empty], op);
    if v.outcome.Applied? {
      var written := store.PutPacketRegistration(v.changes[0].after, [op.operationId]);
      if written.Err? {
        return Err(written.error);
      }
      written := store.InsertPacketRegistration(v.changes[1].after, [op.operationId]);
      if written.Err? {
        return Err(written.error);
      }
    }
    return Ok(v);
  }

  /** The distinct heads of all bases, or the sign that the operation names itself. */
  method CollectDependencies(op: Operation) returns (dependencies: seq<string>, cycle: bool)
    ensures cycle <==> NamesHead(op, op.operationId)
    ensures !cycle ==> forall h :: h in dependencies <==> NamesHead(op, h)
  {
    dependencies := [];
    for i := 0 to |op.bases|
      invariant forall h :: h in dependencies <==> exists k :: 0 <= k < i && h in op.bases[k].heads
      invariant forall k :: 0 <= k < i ==> op.operationId !in op.bases[k].heads
    {
      var heads := op.bases[i].heads;
      ghost var before := dependencies;
      for j := 0 to |heads|
        invariant forall h :: h in dependencies <==> h in before || h in heads[..j]
        invariant op.operationId !in heads[..j]
      {
        if heads[j] == op.operationId {
          assert op.operationId in op.bases[i].heads;
          return [], true;
        }
        if heads[j] !in dependencies {
          dependencies := dependencies + [heads[j]];
        }
      }
      assert heads[..|heads|] == heads;
    }
    return dependencies, false;
  }

  method Decide(store: Store, c: Connection, op: Operation) returns (done: Result<Verdict, Failure>)
    requires op.changes != []
    modifies store`rows, store`members
    ensures FollowsAssessed(Assess(old(store.View()), c, op), done, store.View())
  {
    if EventOf(op) != c.eventId {
      return Ok(Verdict(Rejected, Some(EventMismatch), []));
    }
    var dependencies, cycle := CollectDependencies(op);
    if cycle {
      return Ok(Verdict(Rejected, Some(DependencyCycle), []));
    }
    var applied := store.PacketDependenciesApplied(dependencies);
    assert applied <==> HeadsAccepted(store.View(), op);
    if !applied {
      return Ok(Verdict(Waiting, Some(DependencyMissing), []));
    }
    if op.command.kind.ReturnToReserve? {
      done := ReceiveReserveReturn(store, op);
    } else if op.command.kind.AssignNumber? || op.command.kind.CreateRegistration? {
      done := ReceiveNumber(store, op);
    } else {
      done := ReceiveRows(store, op);
    }
  }

  method Save(store: Store, op: Operation, v: Verdict, known: bool) returns (done: Result<(), Failure>)
    requires op.changes != [] && known == (op.operationId in store.operations)
    modifies store`operations, store`live, store`lastSequence
    ensures Follows(Persist(old(store.View()), op, v), done, store.View())
  {
    done := store.SavePacketOperation(op, v.outcome, v.code, known);
    if done.Err? {
      return;
    }
    done := store.PublishPacketOperation(op, v.outcome, v.code, v.changes);
  }

  method ReceiveOneInTx(store: Store, c: Connection, op: Operation) returns (reply: Result<Receipt, Failure>)
    requires op.changes != []
    modifies store
    ensures reply == ReceiveOne(old(store.View()), c, op).reply
    ensures reply.Ok? ==> store.View() == ReceiveOne(old(store.View()), c, op).desk
  {
    var id := op.operationId;
    if op.scopeId != c.scopeId || op.originInstanceId != c.originInstanceId {
      return Err(OperationScopeConflict);
    }
    if c.eventId != store.eventId || store.scope.scopeId == "" || store.scope.scopeId != c.scopeId {
      return Err(OperationScopeConflict);
    }
    var known := id in store.operations;
    if known {
      var existing := store.operations[id];
      if existing.operation != op || existing.eventId != c.eventId {
        return Err(OperationIdentityConflict);
      }
      if !existing.outcome.Waiting? {
        return Ok(Receipt(id, existing.outcome, existing.code, true));
      }
    }
    if SequenceTaken(store.View(), op) {
      return Err(OperationSequenceConflict);
    }
    reply := AdmitOne(store, c, op, known);
  }

  method AdmitOne(store: Store, c: Connection, op: Operation, known: bool) returns (reply: Result<Receipt, Failure>)
    requires op.changes != [] && known == (op.operationId in store.operations)
    modifies store
    ensures reply == Admit(old(store.View()), c, op).reply
    ensures reply.Ok? ==> store.View() == Admit(old(store.View()), c, op).desk
  {
    var decided := Decide(store, c, op);
    if decided.Err? {
      return Err(decided.error);
    }
    var v := decided.value;
    var saved := Save(store, op, v, known);
    if saved.Err? {
      return Err(saved.error);
    }
    return Ok(Receipt(op.operationId, v.outcome, v.code, known));
  }

  /** One operation, all or nothing. */
  method ReceiveOperation(store: Store, c: Connection, op: Operation) returns (reply: Result<Receipt, Failure>)
    requires op.changes != []
    modifies store
    ensures Received(store.View(), reply) == ReceiveOne(old(store.View()), c, op)
  {
    var saved := store.View();
    reply := ReceiveOneInTx(store, c, op);
    if reply.Err? {
      store.Rollback(saved);
    }
  }

  /** Receipts of a batch; operations before a failing one stay received. */
  method Receive(store: Store, c: Connection, operations: seq<Operation>) returns (reply: Result<seq<Receipt>, Failure>)
    requires forall op :: op in operations ==> op.changes != []
    modifies store
    ensures BatchReceived(store.View(), reply) == ReceiveBatch(old(store.View()), c, operations)
  {
    if |operations| < 1 || |operations| > 64 {
      return Err(InvalidOperationBatch);
    }
    ghost var d := store.View();
    var receipts: seq<Receipt> := [];
    for i := 0 to |operations|
      invariant ReceiveAll(d, c, operations[..i]) == BatchReceived(store.View(), Ok(receipts))
    {
      assert operations[..i + 1][..i] == operations[..i];
      var receipt := ReceiveOperation(store, c, operations[i]);
      if receipt.Err? {
        ReceiveAllStops(d, c, operations, i + 1);
        return Err(receipt.error);
      }
      receipts := receipts + [receipt.value];
    }
    assert operations[..|operations|] == operations;
    return Ok(receipts);
  }

  lemma {:induction false} ReceiveAllStops(d: Desk, c: Connection, ops: seq<Operation>, n: nat)
    requires forall op :: op in ops ==> op.changes != []
    requires n <= |ops| && ReceiveAll(d, c, ops[..n]).reply.Err?
    ensures ReceiveAll(d, c, ops) == ReceiveAll(d, c, ops[..n])
  {
    if n < |ops| {
      assert ops[..|ops| - 1][..n] == ops[..n];
      ReceiveAllStops(d, c, ops[..|ops| - 1], n);
    } else {
      assert ops[..n] == ops;
    }
  }
}
