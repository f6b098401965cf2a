/** Settling a conflict as the program runs it: the proposal built in loops, the decision in one transaction. */
module ResolutionService {
  import opened Wrappers
  import opened TextRules
  import opened Registrations
  import opened Transitions
  import opened Operations
  import opened FeedLog
  import opened Tables
  import opened EventStore
  import opened Receiver
  import opened ReceiverLaws
  import opened ReceiverService
  import opened Resolutions
  import opened ProposalLaws

  method ConvergencePacketChanges(current: seq<Registration>, expected: seq<Change>) returns (r: Option<seq<Change>>)
    requires |current| == |expected|
    ensures r == ForcedAll(expected, current)
  {
    var out: seq<Change> := [];
    for i := 0 to |expected|
      invariant ForcedAll(expected[..i], current[..i]) == Some(out)
    {
      assert expected[..i + 1][..i] == expected[..i] && current[..i + 1][..i] == current[..i];
      assert Forced(Change(current[i].id, expected[i].before, expected[i].after), current[i]) == Forced(expected[i], current[i]);
      var after := OverlayEffect(expected[i].before, expected[i].after, current[i]);
      if after.None? {
        ForcedAllStops(expected, current, i + 1);
        return None;
      }
      out := out + [Change(current[i].id, current[i], after.value)];
    }
    assert expected[..|expected|] == expected && current[..|expected|] == current;
    return Some(out);
  }

  lemma {:induction false} ForcedAllStops(changes: seq<Change>, current: seq<Registration>, n: nat)
    requires |current| == |changes| && n <= |changes| && ForcedAll(changes[..n], current[..n]).None?
    ensures ForcedAll(changes, current).None?
  {
    if n < |changes| {
      var m := |changes| - 1;
      assert changes[..m][..n] == changes[..n] && current[..m][..n] == current[..n];
      ForcedAllStops(changes[..m], current[..m], n);
    } else {
      assert changes[..n] == changes && current[..n] == current;
    }
  }

  method NormalizePacketCandidate(current: seq<Registration>, derived: seq<Change>) returns (result: seq<Change>)
    ensures result == Normalized(current, derived)
    ensures |result| == |current| && forall i :: 0 <= i < |current| ==>
              result[i].registrationId == current[i].id && result[i].before == current[i] && AsRun(derived, result[i])
  {
    result := [];
    for i := 0 to |current|
      invariant |result| == i && forall j :: 0 <= j < i ==> result[j] == Normalized(current, derived)[j]
      invariant forall j :: 0 <= j < i ==>
        result[j].registrationId == current[j].id && result[j].before == current[j] && AsRun(derived, result[j])
    {
      LastIsRun(derived, current[i]);
      var found := LastFor(derived, current[i].id);
      var after := current[i];
      if found.Some? {
        after := found.value.after;
      }
      result := result + [Change(current[i].id, current[i], after)];
    }
  }

  method ReversePacketChanges(changes: seq<Change>) returns (result: seq<Change>)
    ensures result == Reversed(changes)
  {
    result := [];
    for i := 0 to |changes|
      invariant |result| == i && forall j :: 0 <= j < i ==> result[j] == Reversed(changes)[j]
    {
      result := result + [Change(changes[i].registrationId, changes[i].after, changes[i].before)];
    }
  }

  method PacketConflictCandidate(store: Store, op: Operation) returns (reply: Result<Candidate, Failure>)
    ensures reply == Propose(store.View(), op)
    ensures reply.Ok? && Consistent(store.View()) ==> Offered(store.View(), op, reply.value) && RowsThere(store.View(), op)
  {
    if !ParsedOperation(op) {
      return Err(InvalidConflict);
    }
    reply := CandidateFor(store, op);
    if reply.Ok? && Consistent(store.View()) {
      OfferExactly(store.View(), op, reply.value);
    }
  }

  method CandidateFor(store: Store, op: Operation) returns (reply: Result<Candidate, Failure>)
    ensures reply == ProposeFor(store.View(), op)
  {
    var current := ConflictRows(store.View(), op);
    if current.None? {
      return Err(ResolutionInputMissing);
    }
    if StillApplies(store.View(), op, current.value) {
      var changes := NormalizePacketCandidate(current.value, Apply(current.value, op.command).value);
      return Ok(Candidate(op, changes, true));
    }
    if |current.value| != |op.changes| {
      return Err(ResolutionInputMissing);
    }
    var forced := ConvergencePacketChanges(current.value, op.changes);
    if forced.None? {
      return Err(InvalidConflict);
    }
    var changes := NormalizePacketCandidate(current.value, forced.value);
    return Ok(Candidate(op, changes, false));
  }

  method SaveResolution(store: Store, x: Decision, op: Operation) returns (done: Result<(), Failure>)
    modifies store`operations, store`resolutions, store`live, store`lastSequence
    ensures Follows(RecordDecision(old(store.View()), x, op), done, store.View())
  {
    if op.changes == [] || op.operationId in store.operations || SequenceTaken(store.View(), op) {
      return Err(StorageFailure);
    }
    done := store.SavePacketOperation(op, Applied, None, false);
    if done.Err? {
      return;
    }
    store.resolutions := store.resolutions[x.inputId := Resolution(op.operationId, x.apply, op.command.reason)];
    done := store.PublishPacketOperation(op, Applied, None, op.changes);
  }

  method ResolveInTx(store: Store, x: Decision) returns (reply: Result<Operation, Failure>)
    modifies store
    ensures reply == ResolveIn(old(store.View()), x).reply
    ensures reply.Ok? ==> store.View() == ResolveIn(old(store.View()), x).desk
  {
    if x.inputId !in store.operations || store.operations[x.inputId].eventId != store.eventId ||
       !store.operations[x.inputId].outcome.Conflict? {
      return Err(ResolutionInputMissing);
    }
    if x.inputId in store.resolutions {
      return Err(ResolutionDecided);
    }
    var candidate := PacketConflictCandidate(store, store.operations[x.inputId].operation);
    if candidate.Err? {
      return Err(candidate.error);
    }
    if candidate.value != x.seen {
      return Err(ResolutionStale);
    }
    if x.apply && !candidate.value.applicable {
      return Err(ProposalNotApplicable);
    }
    reply := WriteAndRecord(store, x, candidate.value);
  }

  method WriteAndRecord(store: Store, x: Decision, candidate: Candidate) returns (reply: Result<Operation, Failure>)
    modifies store
    ensures var written := WriteDecision(old(store.View()), x, candidate); var op := ResolutionOf(x, candidate);
            if written.Err? then reply == Err(written.error)
            else if !ParsedResolution(op) then reply == Err(ResolutionNotBuilt)
            else match RecordDecision(written.value, x, op)
                 case Err(f) => reply == Err(f)
                 case Ok(d) => reply == Ok(op) && store.View() == d
  {
    var changes := candidate.changes;
    if x.apply {
      var written := PutChanges(store, changes, [x.resolutionId]);
      if written.Err? {
        return Err(written.error);
      }
    } else {
      changes := ReversePacketChanges(changes);
    }
    var op := ResolutionOf(x, candidate);
    assert op.changes == changes;
    if !ParsedResolution(op) {
      return Err(ResolutionNotBuilt);
    }
    var recorded := SaveResolution(store, x, op);
    if recorded.Err? {
      return Err(recorded.error);
    }
    return Ok(op);
  }

  method ResolvePacketConflict(store: Store, x: Decision) returns (reply: Result<Operation, Failure>)
    modifies store
    ensures Resolved(store.View(), reply) == Resolve(old(store.View()), x)
  {
    if !DecisionWellFormed(x) {
      return Err(InvalidResolution);
    }
    var saved := store.View();
    reply := ResolveInTx(store, x);
    if reply.Err? {
      RefusedIn(saved, x);
      store.Rollback(saved);
    }
  }

  lemma {:induction false} RefusedIn(d: Desk, x: Decision)
    requires ResolveIn(d, x).reply.Err?
    ensures ResolveIn(d, x).desk == d
  {
  }
}
