/** What a received operation does to the roster: exactly the three-way merge of the tablet's change into it. */
module ReceiverLaws {
  import opened Wrappers
  import opened TextRules
  import opened Registrations
  import opened RowMerge
  import opened Transitions
  import opened TransitionLaws
  import opened Operations
  import opened FeedLog
  import opened Tables
  import opened Receiver

  // The decision.

  /** The current rows are those the operation names, in its order. */
  predicate Aligned(current: seq<Registration>, op: Operation) {
    ParsedShape(op) && |current| == |op.changes| &&
    forall i :: 0 <= i < |current| ==> current[i].id == op.changes[i].registrationId
  }

  /** Rerunning the command gives, row by row, the merge of the tablet's change into the current row. */
  predicate Merged(derived: seq<Change>, current: seq<Registration>, op: Operation)
    requires |current| == |op.changes|
  {
    forall i :: 0 <= i < |current| ==>
      MergeRow(op.changes[i].before, op.changes[i].after, current[i]) ==
      Some(Actual(derived, current, op.changes[i].registrationId).after)
  }

  lemma {:induction false} RerunIsGood(d: Desk, current: seq<Registration>, op: Operation)
    requires op.command.kind.CorrectMove? ==> op.command.operationId in d.operations
    requires Rerun(d, current, op).Ok?
    ensures GoodChanges(current, op.command.kind, Rerun(d, current, op).value)
  {
    if op.command.kind.CorrectMove? {
      ReverseIsGood(current, d.operations[op.command.operationId].operation.changes, op.command.reason);
    } else {
      ApplyIsGood(current, op.command);
    }
  }

  lemma {:induction false} FindAligned(current: seq<Registration>, op: Operation, i: nat)
    requires Aligned(current, op) && i < |current|
    ensures Find(current, op.changes[i].registrationId) == Some(current[i])
    ensures CurrentRow(current, op.changes[i].registrationId) == current[i]
  {
    assert current[..|current| - 1][..0] == [];
    if |current| == 2 {
      assert current[..1][0] == current[0];
    }
  }

  lemma {:induction false} ActualStartsAtCurrent(derived: seq<Change>, current: seq<Registration>, op: Operation, i: nat)
    requires Aligned(current, op) && i < |current| && GoodChanges(current, op.command.kind, derived)
    ensures Actual(derived, current, op.changes[i].registrationId).before == current[i]
  {
    FindAligned(current, op, i);
  }

  lemma {:induction false} EffectsAreMerges(derived: seq<Change>, current: seq<Registration>, op: Operation)
    requires Aligned(current, op) && GoodChanges(current, op.command.kind, derived)
    ensures EffectsMatch(op.changes, derived, current) <==> Merged(derived, current, op)
  {
    forall i | 0 <= i < |current|
      ensures var actual := Actual(derived, current, op.changes[i].registrationId);
              PacketEffectMatches(op.changes[i].before, op.changes[i].after, actual.before, actual.after) <==>
              MergeRow(op.changes[i].before, op.changes[i].after, current[i]) == Some(actual.after)
    {
      EffectIsMerge(derived, current, op, i);
    }
  }

  lemma {:induction false} EffectIsMerge(derived: seq<Change>, current: seq<Registration>, op: Operation, i: nat)
    requires Aligned(current, op) && GoodChanges(current, op.command.kind, derived) && i < |current|
    ensures var actual := Actual(derived, current, op.changes[i].registrationId);
            PacketEffectMatches(op.changes[i].before, op.changes[i].after, actual.before, actual.after) <==>
            MergeRow(op.changes[i].before, op.changes[i].after, current[i]) == Some(actual.after)
  {
    var actual := Actual(derived, current, op.changes[i].registrationId);
    ActualStartsAtCurrent(derived, current, op, i);
    EffectRows(op.changes[i].before, op.changes[i].after, actual.before, actual.after);
  }

  predicate Clashes(current: seq<Registration>, op: Operation)
    requires |current| == |op.changes|
  {
    exists i :: 0 <= i < |current| && MergeRow(op.changes[i].before, op.changes[i].after, current[i]).None?
  }

  predicate ChangesNothing(current: seq<Registration>, op: Operation)
    requires |current| == |op.changes|
  {
    forall i :: 0 <= i < |current| ==> MergeRow(op.changes[i].before, op.changes[i].after, current[i]) == Some(current[i])
  }

  /**
   The decision in terms of the merge: conflict where some row cannot be merged, equivalent exactly where merging changes
   no row, and applied only where the rerun command is the merge, row by row.
   */
  lemma {:induction false} DecisionIsMerge(d: Desk, current: seq<Registration>, op: Operation)
    requires Aligned(current, op)
    ensures var v := MergeDecision(d, current, op);
            (Clashes(current, op) ==> v.outcome.Conflict?) && (v.outcome.Equivalent? <==> ChangesNothing(current, op))
    ensures var v := MergeDecision(d, current, op);
            v.outcome.Applied? ==> GoodChanges(current, op.command.kind, v.changes) && Merged(v.changes, current, op)
    ensures var v := MergeDecision(d, current, op);
            (v.outcome.Waiting? ==> op.command.kind.CorrectMove? && !Correctable(d, op)) &&
            !v.outcome.Rejected? && (v.changes != [] ==> v.outcome.Applied?)
  {
    RerunIsMerge(d, current, op);
    assert FirstClash(op.changes, current).Some? <==> Clashes(current, op);
    assert AllEquivalent(op.changes, current) <==> ChangesNothing(current, op);
  }

  lemma {:induction false} RerunIsMerge(d: Desk, current: seq<Registration>, op: Operation)
    requires Aligned(current, op)
    ensures var v := RerunDecision(d, current, op);
            v.outcome.Applied? ==> GoodChanges(current, op.command.kind, v.changes) && Merged(v.changes, current, op)
    ensures var v := RerunDecision(d, current, op);
            (v.outcome.Waiting? ==> op.command.kind.CorrectMove? && !Correctable(d, op)) &&
            !v.outcome.Rejected? && !v.outcome.Equivalent? && (v.changes != [] ==> v.outcome.Applied?)
  {
    if RerunDecision(d, current, op).outcome.Applied? {
      RerunIsGood(d, current, op);
      EffectsAreMerges(Rerun(d, current, op).value, current, op);
    }
  }

  lemma {:induction false} AppliedChangesSomething(d: Desk, current: seq<Registration>, op: Operation)
    requires Aligned(current, op) && MergeDecision(d, current, op).outcome.Applied?
    ensures MergeDecision(d, current, op).changes != []
  {
    DecisionIsMerge(d, current, op);
    var derived := MergeDecision(d, current, op).changes;
    if derived == [] {
      forall i | 0 <= i < |current| ensures Actual(derived, current, op.changes[i].registrationId).after == current[i] {
        FindAligned(current, op, i);
      }
      assert ChangesNothing(current, op);
    }
  }

  // What a parsed number command says about its own rows.

  lemma {:induction false} FindInOne(row: Registration, id: string)
    ensures Find([row], id) == if row.id == id then Some(row) else None
  {
    assert [row][..0] == [];
  }

  lemma {:induction false} FindInTwo(x: Registration, y: Registration, id: string)
    ensures Find([x, y], id) == if y.id == id then Some(y) else if x.id == id then Some(x) else None
  {
    assert [x, y][..1] == [x];
    FindInOne(x, id);
  }

  lemma {:induction false} NumberApplied(before: Registration, command: Command)
    requires command.kind.AssignNumber? || command.kind.CreateRegistration?
    requires Apply([before], command).Ok? && Apply([before], command).value != []
    ensures |Apply([before], command).value| == 1 && Apply([before], command).value[0].registrationId == command.registrationId
    ensures command.kind.CreateRegistration? ==>
      EmptyRegistration(command.registrationId, command.eventId, command.raceId) == Some(before)
    ensures command.bib != "" ==> AssignedBib(command.bib)
  {
    FindInOne(before, command.registrationId);
    assert Apply([before], command) == Single([before], before, command);
  }

  lemma {:induction false} ParsedNumber(op: Operation)
    requires ParsedOperation(op) && (op.command.kind.AssignNumber? || op.command.kind.CreateRegistration?)
    ensures |op.changes| == 1 && op.changes[0].registrationId == op.command.registrationId
    ensures op.command.kind.CreateRegistration? ==>
      EmptyRegistration(op.command.registrationId, op.command.eventId, op.command.raceId) == Some(op.changes[0].before)
    ensures op.command.bib != "" ==> AssignedBib(op.command.bib)
  {
    NumberHasOneChange(Befores(op.changes), op.command);
    assert Befores(op.changes) == [op.changes[0].before];
    NumberApplied(op.changes[0].before, op.command);
  }

  lemma {:induction false} NumberHasOneChange(records: seq<Registration>, command: Command)
    requires command.kind.AssignNumber? || command.kind.CreateRegistration?
    requires Apply(records, command).Ok?
    ensures |Apply(records, command).value| <= 1
  {
  }

  lemma {:induction false} ParsedReturn(op: Operation)
    requires ParsedOperation(op) && op.command.kind.ReturnToReserve?
    ensures |op.changes| == 2 && op.changes[0].registrationId == op.command.registrationId
    ensures op.changes[1].registrationId == op.command.targetId
    ensures EmptyRegistration(op.command.targetId, EventOf(op), op.command.raceId) == Some(op.changes[1].before)
    ensures AssignedBib(op.command.bib)
  {
    var b := Befores(op.changes);
    assert |op.changes| == 2;
    assert b == [op.changes[0].before, op.changes[1].before];
    FindInTwo(op.changes[0].before, op.changes[1].before, op.command.registrationId);
    FindInTwo(op.changes[0].before, op.changes[1].before, op.command.targetId);
  }

  // What an applied operation writes.

  /** Each row of the operation as it stands: read from the store, or the image of a row to be created. */
  function CurrentOf(d: Desk, op: Operation, i: nat): Registration
    requires i < |op.changes|
  {
    var row := ReadRow(d, op.changes[i].registrationId);
    if row.Some? then row.value else op.changes[i].before
  }

  function CurrentRows(d: Desk, op: Operation): (rows: seq<Registration>)
    ensures |rows| == |op.changes| && forall i :: 0 <= i < |rows| ==> rows[i] == CurrentOf(d, op, i)
  {
    seq(|op.changes|, i requires 0 <= i < |op.changes| => CurrentOf(d, op, i))
  }

  /** Exactly these rows were written. */
  ghost predicate WroteRows(rows: map<string, Row>, rows': map<string, Row>, changes: seq<Change>, heads: seq<string>) {
    (forall id :: id in rows' <==> id in rows || LastFor(changes, id).Some?) &&
    (forall id :: id in rows' ==>
      rows'[id] == if LastFor(changes, id).Some? then Row(LastFor(changes, id).value.after, heads, false) else rows[id])
  }

  predicate MemberFits(m: Member, row: Registration) {
    m.number == BibNumber(row.bib) && m.epc == row.epc
  }

  /** Exactly the members of these rows were brought in step. */
  ghost predicate WroteMembers(members: map<string, Member>, members': map<string, Member>, changes: seq<Change>) {
    (forall id :: id in members' <==> id in members || LastFor(changes, id).Some?) &&
    (forall id :: id in members' ==>
      if LastFor(changes, id).Some? then MemberFits(members'[id], LastFor(changes, id).value.after)
      else members'[id] == members[id])
  }

  predicate SameElsewhere(d: Desk, d': Desk) {
    d' == d.(rows := d'.rows, members := d'.members)
  }

  ghost predicate Wrote(d: Desk, d': Desk, changes: seq<Change>, heads: seq<string>) {
    SameElsewhere(d, d') && WroteRows(d.rows, d'.rows, changes, heads) && WroteMembers(d.members, d'.members, changes)
  }

  predicate SelfNamed(changes: seq<Change>) {
    forall ch :: ch in changes ==> ch.after.id == ch.registrationId
  }

  lemma {:induction false} LastForSnoc(front: seq<Change>, ch: Change, id: string)
    ensures LastFor(front + [ch], id) == if ch.registrationId == id then Some(ch) else LastFor(front, id)
  {
    assert (front + [ch])[..|front|] == front;
  }

  lemma {:induction false} RowsOneMore(rows: map<string, Row>, rows1: map<string, Row>, front: seq<Change>, ch: Change, heads: seq<string>)
    requires WroteRows(rows, rows1, front, heads)
    ensures WroteRows(rows, rows1[ch.registrationId := Row(ch.after, heads, false)], front + [ch], heads)
  {
    forall id
      ensures LastFor(front + [ch], id) == if ch.registrationId == id then Some(ch) else LastFor(front, id)
    {
      LastForSnoc(front, ch, id);
    }
  }

  lemma {:induction false} MembersOneMore(members: map<string, Member>, members1: map<string, Member>, front: seq<Change>, ch: Change, m: Member)
    requires WroteMembers(members, members1, front) && MemberFits(m, ch.after)
    ensures WroteMembers(members, members1[ch.registrationId := m], front + [ch])
  {
    forall id
      ensures LastFor(front + [ch], id) == if ch.registrationId == id then Some(ch) else LastFor(front, id)
    {
      LastForSnoc(front, ch, id);
    }
  }

  /** Writing one more row on top of others. */
  lemma {:induction false} WroteOneMore(d: Desk, d1: Desk, front: seq<Change>, ch: Change, heads: seq<string>, create: bool)
    requires Wrote(d, d1, front, heads) && ch.after.id == ch.registrationId
    requires create || ch.registrationId in d1.rows
    requires SaveRow(d1, ch.after, heads, create).Ok?
    ensures Wrote(d, SaveRow(d1, ch.after, heads, create).value, front + [ch], heads)
  {
    var d2 := SaveRow(d1, ch.after, heads, create).value;
    RowsOneMore(d.rows, d1.rows, front, ch, heads);
    MembersOneMore(d.members, d1.members, front, ch, d2.members[ch.registrationId]);
    assert d2.rows == d1.rows[ch.registrationId := Row(ch.after, heads, false)];
    assert d2.members == d1.members[ch.registrationId := d2.members[ch.registrationId]];
  }

  lemma {:induction false} PutAllWrites(d: Desk, changes: seq<Change>, heads: seq<string>)
    requires PutAll(d, changes, heads).Ok? && SelfNamed(changes)
    requires forall ch :: ch in changes ==> ch.registrationId in d.rows
    ensures Wrote(d, PutAll(d, changes, heads).value, changes, heads)
  {
    if changes != [] {
      var front, last := changes[..|changes| - 1], changes[|changes| - 1];
      var d1 := PutAll(d, front, heads);
      assert PutAll(d, changes, heads) == SaveRow(d1.value, last.after, heads, false);
      PutAllWrites(d, front, heads);
      assert last in changes && last.registrationId in d1.value.rows;
      WroteOneMore(d, d1.value, front, last, heads, false);
      assert changes == front + [last];
    }
  }

  lemma {:induction false} SaveRowWrites(d: Desk, ch: Change, heads: seq<string>, create: bool)
    requires ch.after.id == ch.registrationId && (!create ==> ch.registrationId in d.rows)
    requires SaveRow(d, ch.after, heads, create).Ok?
    ensures Wrote(d, SaveRow(d, ch.after, heads, create).value, [ch], heads)
  {
    WroteOneMore(d, d, [], ch, heads, create);
    assert [] + [ch] == [ch];
  }

  lemma {:induction false} WriteReturnWrites(d: Desk, c: seq<Change>, heads: seq<string>)
    requires |c| == 2 && SelfNamed(c) && c[0].registrationId in d.rows
    requires WriteReturn(d, c, heads).Ok?
    ensures Wrote(d, WriteReturn(d, c, heads).value, c, heads)
  {
    assert c[0] in c && c[1] in c;
    SaveRowWrites(d, c[0], heads, false);
    WroteOneMore(d, PutRow(d, c[0].after, heads).value, [c[0]], c[1], heads, true);
    assert [c[0]] + [c[1]] == c;
  }

  /** An assessment that applies has rerun the command on the current rows and written what it gave. */
  ghost predicate AppliedWell(d: Desk, op: Operation, a: Assessed) {
    var current := CurrentRows(d, op);
    Aligned(current, op) && GoodChanges(current, op.command.kind, a.verdict.changes) &&
    Merged(a.verdict.changes, current, op) && Wrote(d, a.desk, a.verdict.changes, [op.operationId])
  }

  ghost predicate AssessedWell(d: Desk, op: Operation, a: Assessed) {
    if a.verdict.outcome.Applied? then AppliedWell(d, op, a) else a.desk == d && a.verdict.changes == []
  }

  lemma {:induction false} GoodRowsAreNamed(current: seq<Registration>, op: Operation, changes: seq<Change>)
    requires Aligned(current, op) && GoodChanges(current, op.command.kind, changes)
    ensures SelfNamed(changes)
    ensures forall ch :: ch in changes ==> exists i :: 0 <= i < |op.changes| && op.changes[i].registrationId == ch.registrationId
  {
    forall ch | ch in changes
      ensures ch.after.id == ch.registrationId
      ensures exists i :: 0 <= i < |op.changes| && op.changes[i].registrationId == ch.registrationId
    {
      var j :| 0 <= j < |changes| && changes[j] == ch;
      assert GoodChange(current, op.command.kind, changes[j]);
      var k :| 0 <= k < |current| && current[k] == Find(current, ch.registrationId).value;
      assert op.changes[k].registrationId == ch.registrationId;
    }
  }

  lemma {:induction false} PutAllWell(d: Desk, op: Operation, changes: seq<Change>)
    requires Aligned(CurrentRows(d, op), op) && GoodChanges(CurrentRows(d, op), op.command.kind, changes)
    requires forall i :: 0 <= i < |op.changes| ==> op.changes[i].registrationId in d.rows
    requires PutAll(d, changes, [op.operationId]).Ok?
    ensures Wrote(d, PutAll(d, changes, [op.operationId]).value, changes, [op.operationId])
  {
    GoodRowsAreNamed(CurrentRows(d, op), op, changes);
    PutAllWrites(d, changes, [op.operationId]);
  }

  lemma {:induction false} ReadAllIsCurrent(d: Desk, op: Operation)
    requires ParsedShape(op) && Consistent(d) && ReadAll(d, op.changes).Some?
    ensures ReadAll(d, op.changes).value == CurrentRows(d, op) && Aligned(CurrentRows(d, op), op)
    ensures forall i :: 0 <= i < |op.changes| ==> op.changes[i].registrationId in d.rows
  {
    forall i | 0 <= i < |op.changes| ensures op.changes[i].registrationId in d.rows {
      assert ReadRow(d, op.changes[i].registrationId).Some?;
    }
  }

  lemma {:induction false} AssessRowsWell(d: Desk, op: Operation)
    requires ParsedOperation(op) && Consistent(d) && AssessRows(d, op).Ok?
    ensures AssessedWell(d, op, AssessRows(d, op).value)
  {
    if !(op.command.kind.ChangeRace? && op.command.raceId !in d.races) && ReadAll(d, op.changes).Some? {
      var current := CurrentRows(d, op);
      ReadAllIsCurrent(d, op);
      DecisionIsMerge(d, current, op);
      var v := MergeDecision(d, current, op);
      if v.outcome.Applied? {
        var written := PutAll(d, v.changes, [op.operationId]);
        assert AssessRows(d, op) == Ok(Assessed(written.value, v));
        PutAllWell(d, op, v.changes);
      } else {
        assert AssessRows(d, op) == Ok(Assessed(d, v));
      }
    }
  }

  lemma {:induction false} NumberOneWell(d: Desk, row: Registration, op: Operation)
    requires ParsedOperation(op) && |op.changes| == 1 && [row] == CurrentRows(d, op) && Aligned([row], op)
    requires op.command.kind.CreateRegistration? || row.id in d.rows
    requires NumberOne(d, row, op).Ok?
    ensures AssessedWell(d, op, NumberOne(d, row, op).value)
  {
    DecisionIsMerge(d, [row], op);
    var v := MergeDecision(d, [row], op);
    if v.outcome.Applied? {
      AppliedChangesSomething(d, [row], op);
      NumberWrites(d, row, op, v.changes);
      assert NumberOne(d, row, op).value.verdict == v;
    } else {
      assert NumberOne(d, row, op) == Ok(Assessed(d, v));
    }
  }

  lemma {:induction false} NumberWrites(d: Desk, row: Registration, op: Operation, changes: seq<Change>)
    requires Aligned([row], op) && GoodChanges([row], op.command.kind, changes) && changes != []
    requires op.command.kind.CreateRegistration? || row.id in d.rows
    requires SaveRow(d, changes[0].after, [op.operationId], op.command.kind.CreateRegistration?).Ok?
    ensures Wrote(d, SaveRow(d, changes[0].after, [op.operationId], op.command.kind.CreateRegistration?).value, changes, [op.operationId])
  {
    GoodRowsAreNamed([row], op, changes);
    OneRowOneChange(row, op, changes);
    assert changes[0] in changes && changes == [changes[0]];
    SaveRowWrites(d, changes[0], [op.operationId], op.command.kind.CreateRegistration?);
  }

  lemma {:induction false} OneRowOneChange(row: Registration, op: Operation, changes: seq<Change>)
    requires Aligned([row], op) && GoodChanges([row], op.command.kind, changes) && changes != []
    ensures |changes| == 1 && changes[0].registrationId == row.id
  {
    forall i | 0 <= i < |changes| ensures changes[i].registrationId == row.id {
      assert GoodChange([row], op.command.kind, changes[i]);
      FindInOne(row, changes[i].registrationId);
    }
  }

  lemma {:induction false} NumberRow(d: Desk, op: Operation)
    requires ParsedOperation(op) && Consistent(d)
    requires op.command.kind.AssignNumber? || op.command.kind.CreateRegistration?
    requires if op.command.kind.CreateRegistration? then op.command.registrationId !in d.members
             else ReadRow(d, op.command.registrationId).Some?
    ensures |op.changes| == 1 && Aligned(CurrentRows(d, op), op)
    ensures CurrentRows(d, op) == [CurrentOf(d, op, 0)]
    ensures op.command.kind.AssignNumber? ==> CurrentOf(d, op, 0).id in d.rows
    ensures op.command.kind.CreateRegistration? ==>
      Some(CurrentOf(d, op, 0)) == EmptyRegistration(op.command.registrationId, op.command.eventId, op.command.raceId)
  {
    ParsedNumber(op);
    assert CurrentOf(d, op, 0).id == op.changes[0].registrationId;
  }

  lemma {:induction false} AssessNumberWell(d: Desk, op: Operation)
    requires ParsedOperation(op) && Consistent(d) && AssessNumber(d, op).Ok?
    requires op.command.kind.AssignNumber? || op.command.kind.CreateRegistration?
    ensures AssessedWell(d, op, AssessNumber(d, op).value)
  {
    ParsedNumber(op);
    var id := op.command.registrationId;
    var read := if op.command.kind.CreateRegistration? then id !in d.members else ReadRow(d, id).Some?;
    if read {
      NumberRow(d, op);
      var row := CurrentOf(d, op, 0);
      if AssessNumber(d, op) == NumberOne(d, row, op) {
        NumberOneWell(d, row, op);
      }
    }
  }

  lemma {:induction false} ReturnRows(d: Desk, op: Operation)
    requires ParsedOperation(op) && op.command.kind.ReturnToReserve? && Consistent(d) && EventOf(op) == d.eventId
    requires ReadRow(d, op.command.registrationId).Some? && op.command.targetId !in d.members
    ensures |op.changes| == 2 && Aligned(CurrentRows(d, op), op)
    ensures CurrentRows(d, op) == [ReadRow(d, op.command.registrationId).value, op.changes[1].before]
  {
    ParsedReturn(op);
    assert CurrentOf(d, op, 0).id == op.changes[0].registrationId;
    assert CurrentOf(d, op, 1) == op.changes[1].before;
  }

  lemma {:induction false} AssessReturnWell(d: Desk, op: Operation)
    requires ParsedOperation(op) && op.command.kind.ReturnToReserve? && Consistent(d) && EventOf(op) == d.eventId
    requires AssessReturn(d, op).Ok?
    ensures AssessedWell(d, op, AssessReturn(d, op).value)
  {
    ParsedReturn(op);
    var id := op.command.registrationId;
    if CheckNumber(d, id, op.command.bib).None? && op.command.raceId in d.races && ReadRow(d, id).Some? &&
       op.command.targetId !in d.members {
      var row, empty := ReadRow(d, id).value, op.changes[1].before;
      ReturnRows(d, op);
      assert AssessReturn(d, op) == ReturnTwo(d, row, empty, op);
      ReturnTwoWell(d, row, empty, op);
    }
  }

  lemma {:induction false} ReturnTwoWell(d: Desk, row: Registration, empty: Registration, op: Operation)
    requires op.command.kind.ReturnToReserve? && [row, empty] == CurrentRows(d, op) && Aligned([row, empty], op)
    requires op.command.registrationId in d.rows
    requires ReturnTwo(d, row, empty, op).Ok?
    ensures AssessedWell(d, op, ReturnTwo(d, row, empty, op).value)
  {
    DecisionIsMerge(d, [row, empty], op);
    var v := MergeDecision(d, [row, empty], op);
    if v.outcome.Applied? {
      AppliedIsRerun(d, [row, empty], op);
      ReturnChanges([row, empty], op.command);
      GoodRowsAreNamed([row, empty], op, v.changes);
      WriteReturnWrites(d, v.changes, [op.operationId]);
      assert ReturnTwo(d, row, empty, op).value.verdict == v;
    } else {
      assert ReturnTwo(d, row, empty, op) == Ok(Assessed(d, v));
    }
  }

  lemma {:induction false} AppliedIsRerun(d: Desk, current: seq<Registration>, op: Operation)
    requires RerunDecision(d, current, op).outcome.Applied?
    ensures op.command.kind.CorrectMove? ==> Correctable(d, op)
    ensures Rerun(d, current, op).Ok? && Rerun(d, current, op).value == RerunDecision(d, current, op).changes
  {
  }

  lemma {:induction false} ReturnChanges(records: seq<Registration>, command: Command)
    requires command.kind.ReturnToReserve? && Apply(records, command).Ok?
    ensures var c := Apply(records, command).value;
            |c| == 2 && c[0].registrationId == command.registrationId && c[1].registrationId == command.targetId
  {
  }

  /** Whatever way an operation is assessed, nothing is written unless it applies, and then the merges are. */
  lemma {:induction false} AssessWell(d: Desk, c: Connection, op: Operation)
    requires ParsedOperation(op) && Consistent(d) && c.eventId == d.eventId && Assess(d, c, op).Ok?
    ensures AssessedWell(d, op, Assess(d, c, op).value)
  {
    if EventOf(op) == c.eventId && !NamesHead(op, op.operationId) && HeadsAccepted(d, op) {
      if op.command.kind.ReturnToReserve? {
        AssessReturnWell(d, op);
      } else if op.command.kind.AssignNumber? || op.command.kind.CreateRegistration? {
        AssessNumberWell(d, op);
      } else {
        AssessRowsWell(d, op);
      }
    }
  }

  // One received operation.

  /** The row now holds the merge of the tablet's change into what it held before, written or already there. */
  predicate MergedInto(d: Desk, d': Desk, op: Operation, i: nat)
    requires i < |op.changes|
  {
    var id, current := op.changes[i].registrationId, CurrentOf(d, op, i);
    var merged := MergeRow(op.changes[i].before, op.changes[i].after, current);
    merged.Some? &&
    ((id in d'.rows && d'.rows[id] == Row(merged.value, [op.operationId], false)) ||
     (merged.value == current && SameRow(d, d', id)))
  }

  predicate SameRow(d: Desk, d': Desk, id: string) {
    (id in d'.rows <==> id in d.rows) && (id in d.rows ==> d'.rows[id] == d.rows[id])
  }

  predicate Names(op: Operation, id: string) {
    exists i :: 0 <= i < |op.changes| && op.changes[i].registrationId == id
  }

  lemma {:induction false} WrittenRowsAreMerges(d: Desk, d': Desk, op: Operation, changes: seq<Change>)
    requires Aligned(CurrentRows(d, op), op) && GoodChanges(CurrentRows(d, op), op.command.kind, changes)
    requires Merged(changes, CurrentRows(d, op), op) && Wrote(d, d', changes, [op.operationId])
    ensures forall i :: 0 <= i < |op.changes| ==> MergedInto(d, d', op, i)
    ensures forall id :: !Names(op, id) ==> SameRow(d, d', id)
  {
    var current := CurrentRows(d, op);
    GoodRowsAreNamed(current, op, changes);
    forall i | 0 <= i < |op.changes| ensures MergedInto(d, d', op, i) {
      WrittenRowIsMerge(d, d', op, changes, i);
    }
    forall id | !Names(op, id) ensures SameRow(d, d', id) {
      assert LastFor(changes, id).None?;
    }
  }

  lemma {:induction false} WrittenRowIsMerge(d: Desk, d': Desk, op: Operation, changes: seq<Change>, i: nat)
    requires Aligned(CurrentRows(d, op), op) && i < |op.changes|
    requires Merged(changes, CurrentRows(d, op), op) && WroteRows(d.rows, d'.rows, changes, [op.operationId])
    ensures MergedInto(d, d', op, i)
  {
    var current, id := CurrentRows(d, op), op.changes[i].registrationId;
    FindAligned(current, op, i);
    if LastFor(changes, id).None? {
      assert Actual(changes, current, id).after == current[i];
    }
  }

  predicate TookEffect(d: Desk, op: Operation, r: Received) {
    !Decided(d, op.operationId) && r.reply.Ok? && r.reply.value.outcome.Applied?
  }

  lemma {:induction false} PersistKeepsRows(d: Desk, op: Operation, v: Verdict)
    requires op.changes != [] && Persist(d, op, v).Ok?
    ensures var e := Persist(d, op, v).value;
            e == d.(operations := e.operations, feed := e.feed) &&
            op.operationId in e.operations && e.operations[op.operationId].outcome == v.outcome &&
            e.operations[op.operationId].code == v.code &&
            e.operations == d.operations[op.operationId := e.operations[op.operationId]]
  {
  }

  /** What an admitted operation leaves behind: the assessed tables, its record and its feed entry. */
  ghost predicate Admitted(d: Desk, op: Operation, r: Received, a: Assessed)
    requires op.changes != []
  {
    AssessedWell(d, op, a) && r.reply.Ok? && Persist(a.desk, op, a.verdict) == Ok(r.desk) &&
    r.reply.value == Receipt(op.operationId, a.verdict.outcome, a.verdict.code, op.operationId in d.operations)
  }

  lemma {:induction false} AdmitWell(d: Desk, c: Connection, op: Operation) returns (a: Assessed)
    requires ParsedOperation(op) && Consistent(d) && c.eventId == d.eventId && Admit(d, c, op).reply.Ok?
    ensures Admitted(d, op, Admit(d, c, op), a) && Assess(d, c, op) == Ok(a)
  {
    AssessWell(d, c, op);
    a := Assess(d, c, op).value;
  }

  /** Either nothing changes, or the operation had no outcome yet and is admitted. */
  lemma {:induction false} ReceiveOrAdmit(d: Desk, c: Connection, op: Operation)
    requires op.changes != []
    ensures var r := ReceiveOne(d, c, op);
            (r.desk == d && (r.reply.Ok? ==> Answers(d, c, op, r.reply.value))) ||
            (r == Admit(d, c, op) && !Decided(d, op.operationId) && InScope(d, c, op) &&
             (op.operationId in d.operations ==> SameIdentity(d.operations[op.operationId], c, op)))
    ensures Decided(d, op.operationId) || ReceiveOne(d, c, op).reply.Err? || ReceiveOne(d, c, op) == Admit(d, c, op)
  {
  }

  lemma {:induction false} AdmittedRows(d: Desk, op: Operation, r: Received, a: Assessed)
    requires op.changes != [] && Admitted(d, op, r, a)
    ensures if r.reply.value.outcome.Applied? then
              (forall i :: 0 <= i < |op.changes| ==> MergedInto(d, r.desk, op, i)) &&
              (forall id :: !Names(op, id) ==> SameRow(d, r.desk, id))
            else r.desk.rows == d.rows && r.desk.members == d.members
  {
    PersistKeepsRows(a.desk, op, a.verdict);
    if a.verdict.outcome.Applied? {
      WrittenRowsAreMerges(d, a.desk, op, a.verdict.changes);
      MergedIntoSame(d, a.desk, r.desk, op);
    }
  }

  /**
   The receiver's effect on the roster: an operation that takes effect leaves, on each of its rows, exactly the
   three-way merge of the tablet's change into the current row, and touches no other row; anything else, a failure,
   a conflict or a repetition, changes no row and no member.
   */
  lemma {:induction false} ReceiveMerges(d: Desk, c: Connection, op: Operation)
    requires ParsedOperation(op) && Consistent(d)
    ensures var r := ReceiveOne(d, c, op);
            if TookEffect(d, op, r) then
              (forall i :: 0 <= i < |op.changes| ==> MergedInto(d, r.desk, op, i)) &&
              (forall id :: !Names(op, id) ==> SameRow(d, r.desk, id))
            else r.desk.rows == d.rows && r.desk.members == d.members
  {
    ReceiveOrAdmit(d, c, op);
    var r := ReceiveOne(d, c, op);
    if r.reply.Ok? && !Decided(d, op.operationId) {
      var a := AdmitWell(d, c, op);
      AdmittedRows(d, op, r, a);
    }
  }

  lemma {:induction false} MergedIntoSame(d: Desk, d1: Desk, d2: Desk, op: Operation)
    requires d1.rows == d2.rows
    requires forall i :: 0 <= i < |op.changes| ==> MergedInto(d, d1, op, i)
    requires forall id :: !Names(op, id) ==> SameRow(d, d1, id)
    ensures forall i :: 0 <= i < |op.changes| ==> MergedInto(d, d2, op, i)
    ensures forall id :: !Names(op, id) ==> SameRow(d, d2, id)
  {
    forall i | 0 <= i < |op.changes| ensures MergedInto(d, d2, op, i) {
      assert MergedInto(d, d1, op, i);
    }
    forall id | !Names(op, id) ensures SameRow(d, d2, id) {
      assert SameRow(d, d1, id);
    }
  }

  // Finality.

  /** Later states of one event's store: same event and scope, and every decision stands. */
  ghost predicate LaterState(d: Desk, d': Desk) {
    d'.eventId == d.eventId && d'.scope.scopeId == d.scope.scopeId &&
    forall id :: Decided(d, id) ==> id in d'.operations && d'.operations[id] == d.operations[id]
  }

  lemma {:induction false} AdmittedIsRecorded(d: Desk, c: Connection, op: Operation, r: Received, a: Assessed)
    requires op.changes != [] && Admitted(d, op, r, a) && InScope(d, c, op)
    requires op.operationId in d.operations ==> SameIdentity(d.operations[op.operationId], c, op)
    ensures InScope(r.desk, c, op) && r.desk.eventId == d.eventId && r.desk.scope == d.scope
    ensures op.operationId in r.desk.operations
    ensures var rec := r.desk.operations[op.operationId];
            r.desk.operations == d.operations[op.operationId := rec] && rec.operation == op &&
            rec.outcome == r.reply.value.outcome && rec.code == r.reply.value.code &&
            rec.eventId == if op.operationId in d.operations then c.eventId else EventOf(op)
  {
  }

  lemma {:induction false} ReceiveIsLater(d: Desk, c: Connection, op: Operation)
    requires ParsedOperation(op) && Consistent(d)
    ensures LaterState(d, ReceiveOne(d, c, op).desk)
  {
    ReceiveOrAdmit(d, c, op);
    if ReceiveOne(d, c, op).desk != d && Admit(d, c, op).reply.Ok? {
      var a := AdmitWell(d, c, op);
      AdmittedIsRecorded(d, c, op, Admit(d, c, op), a);
    }
  }

  /** The store holds this answer for the operation. */
  predicate Answers(d: Desk, c: Connection, op: Operation, receipt: Receipt) {
    InScope(d, c, op) && Decided(d, op.operationId) && SameIdentity(d.operations[op.operationId], c, op) &&
    receipt == Receipt(op.operationId, d.operations[op.operationId].outcome, d.operations[op.operationId].code, receipt.known)
  }

  lemma {:induction false} AnswerIsRepeated(d: Desk, c: Connection, op: Operation, receipt: Receipt)
    requires op.changes != [] && Answers(d, c, op, receipt)
    ensures ReceiveOne(d, c, op) == Received(d, Ok(receipt.(known := true)))
  {
  }

  /** An operation of the connection's event, or one that the store knows already as the connection's. */
  predicate Ours(d: Desk, c: Connection, op: Operation)
    requires op.changes != []
  {
    EventOf(op) == c.eventId || op.operationId in d.operations
  }

  lemma {:induction false} ReceiptAnswers(d: Desk, c: Connection, op: Operation)
    requires ParsedOperation(op) && Consistent(d) && ReceiveOne(d, c, op).reply.Ok? && Ours(d, c, op)
    requires !ReceiveOne(d, c, op).reply.value.outcome.Waiting?
    ensures Answers(ReceiveOne(d, c, op).desk, c, op, ReceiveOne(d, c, op).reply.value)
  {
    ReceiveOrAdmit(d, c, op);
    if !Decided(d, op.operationId) {
      var a := AdmitWell(d, c, op);
      AdmittedIsRecorded(d, c, op, Admit(d, c, op), a);
    }
  }

  /** An outcome other than waiting is the answer to every later resend, which changes nothing. */
  lemma {:induction false} ResendRepeats(d: Desk, c: Connection, op: Operation, later: Desk)
    requires ParsedOperation(op) && Consistent(d)
    requires var r := ReceiveOne(d, c, op);
             r.reply.Ok? && !r.reply.value.outcome.Waiting? && LaterState(r.desk, later) && Ours(d, c, op)
    ensures ReceiveOne(later, c, op) == Received(later, Ok(ReceiveOne(d, c, op).reply.value.(known := true)))
  {
    ReceiptAnswers(d, c, op);
    var receipt := ReceiveOne(d, c, op).reply.value;
    assert Answers(later, c, op, receipt);
    AnswerIsRepeated(later, c, op, receipt);
  }

  /**
   An answered operation gets the same answer ever after exactly when it is of the connection's event or was known
   before; any other is answered once, and from then on refused as an identity conflict.
   */
  lemma {:induction false} ResendRepeatsExactly(d: Desk, c: Connection, op: Operation, later: Desk)
    requires ParsedOperation(op) && Consistent(d)
    requires var r := ReceiveOne(d, c, op); r.reply.Ok? && !r.reply.value.outcome.Waiting? && LaterState(r.desk, later)
    ensures ReceiveOne(later, c, op) == Received(later, Ok(ReceiveOne(d, c, op).reply.value.(known := true))) <==>
            Ours(d, c, op)
    ensures !Ours(d, c, op) ==> ReceiveOne(later, c, op) == Received(later, Err(OperationIdentityConflict))
  {
    if Ours(d, c, op) {
      ResendRepeats(d, c, op, later);
    } else {
      ForeignIsRecorded(d, c, op);
      assert Decided(ReceiveOne(d, c, op).desk, op.operationId);
    }
  }

  lemma {:induction false} ForeignIsRecorded(d: Desk, c: Connection, op: Operation)
    requires ParsedOperation(op) && Consistent(d) && ReceiveOne(d, c, op).reply.Ok? && !Ours(d, c, op)
    requires !ReceiveOne(d, c, op).reply.value.outcome.Waiting?
    ensures var e := ReceiveOne(d, c, op).desk;
            Decided(e, op.operationId) && !SameIdentity(e.operations[op.operationId], c, op) && InScope(e, c, op)
  {
    ReceiveOrAdmit(d, c, op);
    var a := AdmitWell(d, c, op);
    AdmittedIsRecorded(d, c, op, Admit(d, c, op), a);
  }

  /** An operation of another event is answered once; its resend is refused as an identity conflict. */
  lemma {:induction false} ForeignResendFails(d: Desk, c: Connection, op: Operation)
    requires ParsedOperation(op) && Consistent(d) && op.operationId !in d.operations
    requires ReceiveOne(d, c, op).reply.Ok? && EventOf(op) != c.eventId
    ensures var r := ReceiveOne(d, c, op);
            r.reply == Ok(Receipt(op.operationId, Rejected, Some(EventMismatch), false)) &&
            ReceiveOne(r.desk, c, op) == Received(r.desk, Err(OperationIdentityConflict))
  {
    ReceiveOrAdmit(d, c, op);
    var a := AdmitWell(d, c, op);
    AdmittedIsRecorded(d, c, op, Admit(d, c, op), a);
  }

  /** Once an operation has changed a row, nothing received under its name ever changes the store again. */
  lemma {:induction false} EffectAtMostOnce(d: Desk, c: Connection, op: Operation, later: Desk, c': Connection, op': Operation)
    requires ParsedOperation(op) && Consistent(d) && ReceiveOne(d, c, op).desk.rows != d.rows
    requires LaterState(ReceiveOne(d, c, op).desk, later) && op'.changes != [] && op'.operationId == op.operationId
    ensures ReceiveOne(later, c', op').desk == later
  {
    ReceiveOrAdmit(d, c, op);
    var a := AdmitWell(d, c, op);
    AdmittedIsRecorded(d, c, op, Admit(d, c, op), a);
    AdmittedRows(d, op, Admit(d, c, op), a);
    assert Decided(ReceiveOne(d, c, op).desk, op.operationId);
    ReceiveOrAdmit(later, c', op');
  }

  // Causality.

  /** An operation is applied, found equivalent or in conflict only once all the actions its author had seen are accepted. */
  lemma {:induction false} DecidedAfterItsHeads(d: Desk, c: Connection, op: Operation)
    requires ParsedOperation(op) && Consistent(d) && !Decided(d, op.operationId) && ReceiveOne(d, c, op).reply.Ok?
    requires var o := ReceiveOne(d, c, op).reply.value.outcome; o.Applied? || o.Equivalent? || o.Conflict?
    ensures HeadsAccepted(d, op) && !NamesHead(op, op.operationId) && EventOf(op) == c.eventId
  {
    ReceiveOrAdmit(d, c, op);
    var a := AdmitWell(d, c, op);
    assert Assess(d, c, op).value == a;
  }

  lemma {:induction false} AppendKeepsEffects(f: Feed, e: Entry, id: string)
    requires Append(f, e).Ok? && (InEffect(f.live, id) || InEffect(f.archive, id))
    ensures InEffect(Append(f, e).value.live, id) || InEffect(Append(f, e).value.archive, id)
  {
    if InEffect(f.live, id) {
      var i :| 0 <= i < |f.live| && f.live[i].actionId == id && (f.live[i].outcome.Applied? || f.live[i].outcome.Equivalent?);
      assert Append(f, e).value.live[i] == f.live[i];
    }
  }

  /** What was accepted once stays accepted. */
  lemma {:induction false} ReceiveKeepsAccepted(d: Desk, c: Connection, op: Operation, id: string)
    requires ParsedOperation(op) && Consistent(d) && Accepted(d, id)
    ensures Accepted(ReceiveOne(d, c, op).desk, id)
  {
    ReceiveOrAdmit(d, c, op);
    if ReceiveOne(d, c, op).desk != d && Admit(d, c, op).reply.Ok? {
      var a := AdmitWell(d, c, op);
      AdmittedIsRecorded(d, c, op, Admit(d, c, op), a);
      AdmittedKeepsAccepted(d, op, Admit(d, c, op), a, id);
    }
  }

  lemma {:induction false} AdmittedKeepsAccepted(d: Desk, op: Operation, r: Received, a: Assessed, id: string)
    requires op.changes != [] && Admitted(d, op, r, a) && Accepted(d, id) && !Decided(d, op.operationId)
    ensures Accepted(r.desk, id)
  {
    PersistKeepsRows(a.desk, op, a.verdict);
    PublishKeepsEffects(d.feed, op, a.verdict, id);
  }

  lemma {:induction false} PublishKeepsEffects(f: Feed, op: Operation, v: Verdict, id: string)
    requires Publish(f, op, v.outcome, v.code, v.changes).Ok?
    ensures var g := Publish(f, op, v.outcome, v.code, v.changes).value;
            InEffect(f.live, id) || InEffect(f.archive, id) ==> InEffect(g.live, id) || InEffect(g.archive, id)
  {
    if (InEffect(f.live, id) || InEffect(f.archive, id)) && Publish(f, op, v.outcome, v.code, v.changes).value != f {
      AppendKeepsEffects(f, PublishedEntry(op, v.outcome, v.code, v.changes), id);
    }
  }
}
