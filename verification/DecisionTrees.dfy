/** The receiver's decision in terms of the rows' JSON trees, which is how the program compares them. */
module DecisionTrees {
  import opened Wrappers
  import opened JsonMerge
  import opened Registrations
  import opened RowMerge
  import opened Transitions
  import opened Operations
  import opened Tables
  import opened Receiver
  import opened ReceiverLaws

  function TreeMerge(op: Operation, current: seq<Registration>, i: nat): Option<Tree>
    requires i < |current| == |op.changes|
  {
    Merge(Encode(op.changes[i].before), Encode(op.changes[i].after), Encode(current[i]))
  }

  /** The first row, in the operation's order, whose trees do not merge. */
  predicate RefusesFirst(op: Operation, current: seq<Registration>, i: nat)
    requires |current| == |op.changes|
  {
    i < |current| && TreeMerge(op, current, i).None? && forall j :: 0 <= j < i ==> TreeMerge(op, current, j).Some?
  }

  predicate NewEvidence(op: Operation, current: seq<Registration>, i: nat)
    requires i < |current| == |op.changes|
  {
    current[i].hasTimingEvidence && !op.changes[i].before.hasTimingEvidence
  }

  lemma {:induction false} TreesAreRows(op: Operation, current: seq<Registration>, i: nat, row: Registration)
    requires i < |current| == |op.changes|
    ensures TreeMerge(op, current, i).Some? <==> MergeRow(op.changes[i].before, op.changes[i].after, current[i]).Some?
    ensures TreeMerge(op, current, i) == Some(Encode(row)) <==> MergeRow(op.changes[i].before, op.changes[i].after, current[i]) == Some(row)
  {
    RowMergeAgrees(op.changes[i].before, op.changes[i].after, current[i]);
    var m := MergeRow(op.changes[i].before, op.changes[i].after, current[i]);
    if m.Some? {
      EncodeInjective(m.value, row);
    }
  }

  /** An applied operation leaves, on each of its rows, the tree merge of its change into the row that stood there. */
  lemma {:induction false} AppliedIsTreeMerge(d: Desk, current: seq<Registration>, op: Operation, i: nat)
    requires Aligned(current, op) && i < |current| && MergeDecision(d, current, op).outcome.Applied?
    ensures TreeMerge(op, current, i) ==
            Some(Encode(Actual(MergeDecision(d, current, op).changes, current, op.changes[i].registrationId).after))
  {
    DecisionIsMerge(d, current, op);
    TreesAreRows(op, current, i, Actual(MergeDecision(d, current, op).changes, current, op.changes[i].registrationId).after);
  }

  /** A correction needs the move it corrects: accepted before, and an ordinary operation. */
  predicate Rerunnable(d: Desk, op: Operation) {
    op.command.kind.CorrectMove? ==> Correctable(d, op) && d.operations[op.command.operationId].operation.schemaVersion == 1
  }

  /**
   When an operation is applied: every row can be merged, some row changes, the command can be rerun, or the move it
   corrects undone, on the current rows, and what comes out is the merge on every row.
   */
  lemma {:induction false} AppliedExactly(d: Desk, current: seq<Registration>, op: Operation)
    requires Aligned(current, op)
    ensures MergeDecision(d, current, op).outcome.Applied? <==>
            !Clashes(current, op) && !ChangesNothing(current, op) && Rerunnable(d, op) &&
            Rerun(d, current, op).Ok? && Merged(Rerun(d, current, op).value, current, op)
    ensures MergeDecision(d, current, op).outcome.Applied? ==> MergeDecision(d, current, op).changes == Rerun(d, current, op).value
  {
    assert FirstClash(op.changes, current).Some? <==> Clashes(current, op);
    assert AllEquivalent(op.changes, current) <==> ChangesNothing(current, op);
    DecisionByParts(d, current, op);
    RerunByParts(d, current, op);
    if Rerunnable(d, op) && Rerun(d, current, op).Ok? {
      RerunIsGood(d, current, op);
      EffectsAreMerges(Rerun(d, current, op).value, current, op);
    }
  }

  lemma {:induction false} DecisionByParts(d: Desk, current: seq<Registration>, op: Operation)
    requires |current| == |op.changes|
    ensures var v, rerun := MergeDecision(d, current, op), RerunDecision(d, current, op);
            (v.outcome.Applied? <==> FirstClash(op.changes, current).None? && !AllEquivalent(op.changes, current) && rerun.outcome.Applied?) &&
            (v.outcome.Applied? ==> v == rerun)
  {
  }

  lemma {:induction false} RerunByParts(d: Desk, current: seq<Registration>, op: Operation)
    ensures RerunDecision(d, current, op).outcome.Applied? <==>
            Rerunnable(d, op) && Rerun(d, current, op).Ok? && EffectsMatch(op.changes, Rerun(d, current, op).value, current)
    ensures RerunDecision(d, current, op).outcome.Applied? ==> RerunDecision(d, current, op).changes == Rerun(d, current, op).value
  {
  }

  /** An operation is equivalent exactly where every row's tree merges to itself. */
  lemma {:induction false} EquivalentIsTreeMerge(d: Desk, current: seq<Registration>, op: Operation)
    requires Aligned(current, op)
    ensures MergeDecision(d, current, op).outcome.Equivalent? <==>
            forall i :: 0 <= i < |current| ==> TreeMerge(op, current, i) == Some(Encode(current[i]))
  {
    DecisionIsMerge(d, current, op);
    forall i | 0 <= i < |current|
      ensures TreeMerge(op, current, i) == Some(Encode(current[i])) <==>
              MergeRow(op.changes[i].before, op.changes[i].after, current[i]) == Some(current[i])
    {
      TreesAreRows(op, current, i, current[i]);
    }
  }

  /**
   An operation conflicts over changed state exactly where some row's trees do not merge and the first such row has not
   taken part in timing since; commands and corrections never give that code themselves.
   */
  lemma {:induction false} StateConflictIsTreeMerge(d: Desk, current: seq<Registration>, op: Operation)
    requires Aligned(current, op)
    ensures MergeDecision(d, current, op).code == Some(CurrentStateChanged) <==>
            exists i :: RefusesFirst(op, current, i) && !NewEvidence(op, current, i)
    ensures (exists i :: RefusesFirst(op, current, i) && NewEvidence(op, current, i)) ==>
            MergeDecision(d, current, op) == Verdict(Conflict, Some(TimingReviewRequired), [])
  {
    if FirstClash(op.changes, current).None? {
      RerunHasOtherCodes(d, current, op);
      forall i | 0 <= i < |current| ensures TreeMerge(op, current, i).Some? {
        TreesAreRows(op, current, i, current[i]);
      }
    } else {
      var i := ClashIsFirst(op.changes, current);
      forall k | 0 <= k < |current| ensures Fits(op.changes, current)[k] <==> TreeMerge(op, current, k).Some? {
        FitsAt(op.changes, current, k);
        CompatibleIsMergeable(Encode(op.changes[k].before), Encode(op.changes[k].after), Encode(current[k]));
      }
      assert RefusesFirst(op, current, i);
      assert forall k :: RefusesFirst(op, current, k) ==> k == i;
    }
  }

  predicate Mergeable(ch: Change, row: Registration) {
    PacketCompatible(ch.before, ch.after, row)
  }

  /** For each row, whether it can take its change. */
  function Fits(changes: seq<Change>, current: seq<Registration>): (fits: seq<bool>)
    requires |current| == |changes|
    ensures |fits| == |changes|
  {
    if changes == [] then [] else [Mergeable(changes[0], current[0])] + Fits(changes[1..], current[1..])
  }

  lemma {:induction false} FitsAt(changes: seq<Change>, current: seq<Registration>, k: nat)
    requires k < |changes| == |current|
    ensures Fits(changes, current)[k] <==> Mergeable(changes[k], current[k])
  {
    if k > 0 {
      FitsAt(changes[1..], current[1..], k - 1);
    }
  }

  function ClashCode(ch: Change, row: Registration): Code {
    if row.hasTimingEvidence && !ch.before.hasTimingEvidence then TimingReviewRequired else CurrentStateChanged
  }

  /** The clash that is found is that of the first row that cannot be merged. */
  lemma {:induction false} ClashIsFirst(changes: seq<Change>, current: seq<Registration>) returns (i: nat)
    requires |current| == |changes| && FirstClash(changes, current).Some?
    ensures i < |changes| && FirstClash(changes, current) == Some(ClashCode(changes[i], current[i]))
    ensures !Fits(changes, current)[i] && forall j :: 0 <= j < i ==> Fits(changes, current)[j]
  {
    ClashOfFirst(changes, current);
    if !Mergeable(changes[0], current[0]) {
      i := 0;
    } else {
      var rest := ClashIsFirst(changes[1..], current[1..]);
      i := rest + 1;
    }
  }

  lemma {:induction false} ClashOfFirst(changes: seq<Change>, current: seq<Registration>)
    requires |current| == |changes| && FirstClash(changes, current).Some?
    ensures changes != []
    ensures FirstClash(changes, current) ==
            if Mergeable(changes[0], current[0]) then FirstClash(changes[1..], current[1..]) else Some(ClashCode(changes[0], current[0]))
  {
  }

  lemma {:induction false} FaultHasOtherCodes(records: seq<Registration>, seen: set<string>)
    ensures Fault(records, seen) != Some(CurrentStateChanged)
  {
    if records != [] {
      FaultHasOtherCodes(records[1..], seen + {records[0].id});
    }
  }

  lemma {:induction false} ApplyHasOtherCodes(records: seq<Registration>, command: Command)
    ensures Apply(records, command) != Err(CurrentStateChanged)
  {
    FaultHasOtherCodes(records, {});
    var source := Find(records, command.registrationId);
    if source.Some? {
      OneRowHasOtherCodes(records, source.value, command);
      MoveHasOtherCodes(records, source.value, command);
    }
  }

  lemma {:induction false} OneRowHasOtherCodes(records: seq<Registration>, source: Registration, command: Command)
    ensures Single(records, source, command) != Err(CurrentStateChanged)
  {
  }

  lemma {:induction false} MoveHasOtherCodes(records: seq<Registration>, source: Registration, command: Command)
    ensures Move(records, source, command) != Err(CurrentStateChanged)
  {
  }

  lemma {:induction false} RerunHasOtherCodes(d: Desk, current: seq<Registration>, op: Operation)
    ensures RerunDecision(d, current, op).code != Some(CurrentStateChanged)
  {
    ApplyHasOtherCodes(current, op.command);
  }
}
