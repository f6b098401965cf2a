/** Runs of commands and corrections over a whole roster. */
module RosterRuns {
  import opened Wrappers
  import opened TextRules
  import opened Registrations
  import opened Transitions
  import opened TransitionLaws
  import opened UndoLaws

  type Roster = map<string, Registration>

  /** Rows are stored under their own identifiers. */
  predicate Keyed(r: Roster) {
    forall id :: id in r ==> r[id].id == id
  }

  function Write(r: Roster, changes: seq<Change>): Roster {
    if changes == [] then r
    else Write(r, changes[..|changes| - 1])[changes[|changes| - 1].registrationId := changes[|changes| - 1].after]
  }

  datatype Step =
    | Do(records: seq<Registration>, command: Command)
    | Undo(records: seq<Registration>, original: seq<Change>, reason: string)

  /** Only these two commands are handed images of rows the roster does not have. */
  predicate MayCreate(step: Step) {
    step.Do? && (step.command.kind.CreateRegistration? || step.command.kind.ReturnToReserve?)
  }

  /** What a step hands to its command: rows of the roster, or images of rows still to be created. */
  predicate Drawn(r: Roster, step: Step) {
    forall x :: x in step.records ==>
      if x.id in r then r[x.id] == x else MayCreate(step) && IsVirtual(x)
  }

  function Outcome(step: Step): Result<seq<Change>, Code> {
    match step
    case Do(records, command) => Apply(records, command)
    case Undo(records, original, reason) => ReverseMove(records, original, reason)
  }

  /** A refused step, or one fed rows the roster does not hold, changes nothing. */
  function Next(r: Roster, step: Step): Roster {
    if Drawn(r, step) && Outcome(step).Ok? then Write(r, Outcome(step).value) else r
  }

  function Run(r: Roster, steps: seq<Step>): Roster {
    if steps == [] then r else Next(Run(r, steps[..|steps| - 1]), steps[|steps| - 1])
  }

  /** The one or two changes of an accepted step, as the roster sees them. */
  predicate Stepped(r: Roster, c: seq<Change>) {
    |c| <= 2 && (|c| == 2 ==> c[0].registrationId != c[1].registrationId) &&
    forall i :: 0 <= i < |c| ==>
      c[i].after.id == c[i].registrationId && c[i].before.id == c[i].registrationId &&
      (if c[i].registrationId in r then r[c[i].registrationId] == c[i].before else IsVirtual(c[i].before))
  }

  lemma {:induction false} OutcomeIsStepped(r: Roster, step: Step)
    requires Drawn(r, step) && Outcome(step).Ok?
    ensures Stepped(r, Outcome(step).value)
  {
    match step
    case Do(records, command) => ApplyIsGood(records, command);
    case Undo(records, original, reason) =>
      ReverseIsGood(records, original, reason);
  }

  lemma {:induction false} WriteUpToTwo(r: Roster, c: seq<Change>)
    requires |c| <= 2
    ensures |c| == 0 ==> Write(r, c) == r
    ensures |c| == 1 ==> Write(r, c) == r[c[0].registrationId := c[0].after]
    ensures |c| == 2 ==> Write(r, c) == r[c[0].registrationId := c[0].after][c[1].registrationId := c[1].after]
  {
    if |c| == 1 {
      assert c[..0] == [];
    } else if |c| == 2 {
      assert c[..1][..0] == [] && c[..1][0] == c[0];
      assert Write(r, c[..1]) == r[c[0].registrationId := c[0].after];
    }
  }

  lemma {:induction false} StepKeepsKeys(r: Roster, step: Step)
    requires Keyed(r)
    ensures Keyed(Next(r, step))
  {
    if Drawn(r, step) && Outcome(step).Ok? {
      OutcomeIsStepped(r, step);
      WriteUpToTwo(r, Outcome(step).value);
    }
  }

  // Transfers never form a cycle.

  predicate Link(r: Roster, x: string, y: string) {
    x in r && r[x].transferredTo == Some(y)
  }

  /** A closed walk along transfers. */
  predicate Cycle(r: Roster, p: seq<string>) {
    |p| >= 2 && p[0] == p[|p| - 1] && forall i :: 0 <= i < |p| - 1 ==> Link(r, p[i], p[i + 1])
  }

  ghost predicate Acyclic(r: Roster) {
    forall p :: !Cycle(r, p)
  }

  /** At most one transfer is new, and it ends at a row that is not itself transferred. */
  ghost predicate LinksGrow(r: Roster, r': Roster, u: string, v: string) {
    (forall x, y :: Link(r', x, y) && x != u ==> Link(r, x, y)) &&
    (forall y :: Link(r', u, y) ==> Link(r, u, y) || y == v) &&
    (Link(r', u, v) && !Link(r, u, v) ==> u != v && (v !in r' || r'[v].transferredTo.None?))
  }

  lemma {:induction false} CycleWasThere(r: Roster, r': Roster, u: string, v: string, p: seq<string>)
    requires LinksGrow(r, r', u, v) && Cycle(r', p)
    ensures Cycle(r, p)
  {
    forall i | 0 <= i < |p| - 1
      ensures Link(r, p[i], p[i + 1])
    {
      assert Link(r', p[i], p[i + 1]);
      // a walk over the new link could not leave its end again
      var next := if i + 1 == |p| - 1 then 0 else i + 1;
      assert Link(r', p[next], p[next + 1]) && p[next] == p[i + 1];
    }
  }

  lemma {:induction false} GrowthStaysAcyclic(r: Roster, r': Roster, u: string, v: string)
    requires Acyclic(r) && LinksGrow(r, r', u, v)
    ensures Acyclic(r')
  {
    forall p | Cycle(r', p)
      ensures Cycle(r, p)
    {
      CycleWasThere(r, r', u, v, p);
    }
  }

  /** A change keeps or drops its row's transfer, except a race move, which points at its target. */
  predicate TransferRule(c: seq<Change>, i: nat)
    requires i < |c|
  {
    c[i].after.transferredTo.None? || c[i].after.transferredTo == c[i].before.transferredTo ||
    (i == 0 && |c| == 2 && c[0].after.transferredTo == Some(c[1].registrationId) && c[1].after.transferredTo.None?)
  }

  lemma {:induction false} OneRowKeepsTransfer(records: seq<Registration>, source: Registration, command: Command)
    requires ApplyOne(records, source, command).Ok?
    ensures var a := ApplyOne(records, source, command).value;
            a.transferredTo.None? || a.transferredTo == source.transferredTo
  {
  }

  lemma {:induction false} OutcomeTransfers(step: Step)
    requires Outcome(step).Ok?
    ensures var c := Outcome(step).value;
            TransferRules(c)
  {
    match step
    case Do(records, command) =>
      ApplyIsGood(records, command);
      var source := Find(records, command.registrationId).value;
      if IsMove(command.kind) {
        MoveFacts(records, command);
      } else if !command.kind.ReturnToReserve? {
        OneRowKeepsTransfer(records, source, command);
      }
    case Undo(records, original, reason) =>
      UndoneWasAMove(records, original, reason);
      MoveFacts([original[0].before, original[1].before], InferredMove(original[0], original[1]));
  }

  predicate TransferRules(c: seq<Change>) {
    |c| <= 2 && forall i :: 0 <= i < |c| ==> TransferRule(c, i)
  }

  lemma {:induction false} OneChangeGrows(r: Roster, ch: Change)
    requires Stepped(r, [ch]) && TransferRules([ch])
    ensures LinksGrow(r, r[ch.registrationId := ch.after], ch.registrationId, ch.registrationId)
  {
    assert [ch][0] == ch;
    assert TransferRule([ch], 0);
  }

  lemma {:induction false} TwoChangesGrow(r: Roster, s: Change, t: Change)
    requires Stepped(r, [s, t]) && TransferRules([s, t])
    ensures LinksGrow(r, r[s.registrationId := s.after][t.registrationId := t.after], s.registrationId, t.registrationId)
  {
    assert [s, t][0] == s && [s, t][1] == t;
    assert TransferRule([s, t], 0) && TransferRule([s, t], 1);
  }

  lemma {:induction false} StepStaysAcyclic(r: Roster, step: Step)
    requires Acyclic(r)
    ensures Acyclic(Next(r, step))
  {
    if Drawn(r, step) && Outcome(step).Ok? {
      var c := Outcome(step).value;
      OutcomeIsStepped(r, step);
      OutcomeTransfers(step);
      WriteUpToTwo(r, c);
      if |c| == 1 {
        assert c == [c[0]];
        OneChangeGrows(r, c[0]);
        GrowthStaysAcyclic(r, Next(r, step), c[0].registrationId, c[0].registrationId);
      } else if |c| == 2 {
        assert c == [c[0], c[1]];
        TwoChangesGrow(r, c[0], c[1]);
        GrowthStaysAcyclic(r, Next(r, step), c[0].registrationId, c[1].registrationId);
      }
    }
  }

  /** From an acyclic roster no run of commands and corrections ever closes a chain of transfers. */
  lemma {:induction false} RunStaysAcyclic(r: Roster, steps: seq<Step>)
    requires Acyclic(r)
    ensures Acyclic(Run(r, steps))
  {
    if steps != [] {
      RunStaysAcyclic(r, steps[..|steps| - 1]);
      StepStaysAcyclic(Run(r, steps[..|steps| - 1]), steps[|steps| - 1]);
    }
  }

  // Moves and corrections never lose or duplicate a person.

  /** The rows on which a person takes part: transferred rows only remember who left. */
  predicate Holds(row: Registration, p: Person) {
    row.transferredTo.None? && row.person == Some(p)
  }

  function Holders(r: Roster, p: Person): set<string> {
    set id | id in r && Holds(r[id], p)
  }

  predicate IsMoveOrUndo(step: Step) {
    step.Undo? || IsMove(step.command.kind)
  }

  /** One person leaves row u for row v. */
  predicate Handover(u: Registration, v: Registration, u': Registration, v': Registration, p: Person) {
    Holds(u, p) && v.person.None? && (u'.person.None? || u'.transferredTo.Some?) && Holds(v', p)
  }

  lemma {:induction false} MoveHandsOver(records: seq<Registration>, command: Command)
    requires IsMove(command.kind) && Apply(records, command).Ok?
    ensures var c := Apply(records, command).value;
            |c| == 2 && c[0].before.person.Some? &&
            Handover(c[0].before, c[1].before, c[0].after, c[1].after, c[0].before.person.value)
  {
    MoveFacts(records, command);
  }

  /** Exchanging one holder for another keeps their number. */
  lemma {:induction false} SwapKeepsSize(a: set<string>, b: set<string>, x: string, y: string)
    requires x in a && y !in a && b == a - {x} + {y}
    ensures |b| == |a|
  {
  }

  lemma {:induction false} HandoverKeepsHolders(r: Roster, r': Roster, x: string, y: string, p: Person, q: Person)
    requires x in r && y in r && x != y && r'.Keys == r.Keys
    requires forall id :: id in r && id != x && id != y ==> r'[id] == r[id]
    requires Handover(r[x], r[y], r'[x], r'[y], p) || Handover(r'[x], r'[y], r[x], r[y], p)
    ensures |Holders(r', q)| == |Holders(r, q)|
  {
    if q != p {
      assert Holders(r', q) == Holders(r, q);
    } else if Holds(r[x], p) {
      assert Holders(r', q) == Holders(r, q) - {x} + {y};
      SwapKeepsSize(Holders(r, q), Holders(r', q), x, y);
    } else {
      assert Holders(r', q) == Holders(r, q) - {y} + {x};
      SwapKeepsSize(Holders(r, q), Holders(r', q), y, x);
    }
  }

  /** Both rows of a move or a correction are in the roster, and one person passes between them. */
  lemma {:induction false} WrittenPairKeepsHolders(r: Roster, c: Change, e: Change, p: Person, q: Person)
    requires c.registrationId in r && e.registrationId in r && c.registrationId != e.registrationId
    requires r[c.registrationId] == c.before && r[e.registrationId] == e.before
    requires Handover(c.before, e.before, c.after, e.after, p) || Handover(c.after, e.after, c.before, e.before, p)
    ensures |Holders(r[c.registrationId := c.after][e.registrationId := e.after], q)| == |Holders(r, q)|
  {
    var r' := r[c.registrationId := c.after][e.registrationId := e.after];
    assert r'.Keys == r.Keys;
    HandoverKeepsHolders(r, r', c.registrationId, e.registrationId, p, q);
  }

  lemma {:induction false} MovedRowsExist(r: Roster, step: Step)
    requires Drawn(r, step) && Outcome(step).Ok? && IsMoveOrUndo(step)
    ensures var c := Outcome(step).value;
            |c| == 2 && c[0].registrationId != c[1].registrationId &&
            c[0].registrationId in r && c[1].registrationId in r &&
            r[c[0].registrationId] == c[0].before && r[c[1].registrationId] == c[1].before
    ensures var c := Outcome(step).value; exists p ::
            Handover(c[0].before, c[1].before, c[0].after, c[1].after, p) ||
            Handover(c[0].after, c[1].after, c[0].before, c[1].before, p)
  {
    OutcomeIsStepped(r, step);
    var c := Outcome(step).value;
    match step
    case Do(records, command) =>
      MoveHandsOver(records, command);
      MoveFacts(records, command);
    case Undo(records, original, reason) =>
      UndoneWasAMove(records, original, reason);
      var pair, move := [original[0].before, original[1].before], InferredMove(original[0], original[1]);
      MoveHandsOver(pair, move);
      MoveFacts(pair, move);
      assert c[0].before == original[0].after && c[1].before == original[1].after;
  }

  lemma {:induction false} StepKeepsPeople(r: Roster, step: Step, q: Person)
    requires IsMoveOrUndo(step)
    ensures |Holders(Next(r, step), q)| == |Holders(r, q)|
  {
    if Drawn(r, step) && Outcome(step).Ok? {
      var c := Outcome(step).value;
      MovedRowsExist(r, step);
      WriteUpToTwo(r, c);
      var p :| Handover(c[0].before, c[1].before, c[0].after, c[1].after, p) ||
               Handover(c[0].after, c[1].after, c[0].before, c[1].before, p);
      WrittenPairKeepsHolders(r, c[0], c[1], p, q);
    }
  }

  /** Any run of moves and corrections keeps, for every person, the number of rows that person takes part on. */
  lemma {:induction false} RunKeepsPeople(r: Roster, steps: seq<Step>, q: Person)
    requires forall s :: s in steps ==> IsMoveOrUndo(s)
    ensures |Holders(Run(r, steps), q)| == |Holders(r, q)|
  {
    if steps != [] {
      RunKeepsPeople(r, steps[..|steps| - 1], q);
      StepKeepsPeople(Run(r, steps[..|steps| - 1]), steps[|steps| - 1], q);
    }
  }

  /** A correction that is accepted right after its move gives back the roster the move started from. */
  lemma {:induction false} UndoRestoresRoster(r: Roster, records: seq<Registration>, command: Command,
      later: seq<Registration>, reason: string)
    requires IsMove(command.kind) && Drawn(r, Do(records, command)) && Apply(records, command).Ok?
    requires ReverseMove(later, Apply(records, command).value, reason).Ok?
    requires Drawn(Next(r, Do(records, command)), Undo(later, Apply(records, command).value, reason))
    ensures Run(r, [Do(records, command), Undo(later, Apply(records, command).value, reason)]) == r
  {
    var c := Apply(records, command).value;
    var move, undo := Do(records, command), Undo(later, c, reason);
    RunOfTwo(r, move, undo);
    MoveTakesPair(r, records, command);
    TakenStep(r, move);
    ReverseTurns(later, c, reason);
    TakenStep(Write(r, c), undo);
    WriteAndBack(r, c);
  }

  /** Two changes of two different rows of the roster, as they stand there. */
  predicate TakesPair(r: Roster, c: seq<Change>) {
    |c| == 2 && c[0].registrationId != c[1].registrationId && forall i :: 0 <= i < 2 ==>
      c[i].registrationId in r && r[c[i].registrationId] == c[i].before && c[i].after.id == c[i].registrationId
  }

  lemma {:induction false} MoveTakesPair(r: Roster, records: seq<Registration>, command: Command)
    requires IsMove(command.kind) && Drawn(r, Do(records, command)) && Apply(records, command).Ok?
    ensures TakesPair(r, Apply(records, command).value)
  {
    MovedRowsExist(r, Do(records, command));
    OutcomeIsStepped(r, Do(records, command));
  }

  lemma {:induction false} ReverseTurns(later: seq<Registration>, c: seq<Change>, reason: string)
    requires |c| == 2 && ReverseMove(later, c, reason).Ok?
    ensures ReverseMove(later, c, reason).value == Turned(c)
  {
  }

  lemma {:induction false} TakenStep(r: Roster, step: Step)
    requires Drawn(r, step) && Outcome(step).Ok?
    ensures Next(r, step) == Write(r, Outcome(step).value)
  {
  }

  lemma {:induction false} RunOfTwo(r: Roster, x: Step, y: Step)
    ensures Run(r, [x, y]) == Next(Next(r, x), y)
  {
    var both := [x, y];
    assert both[..|both| - 1] == [x] && both[|both| - 1] == y;
    assert Run(r, [x]) == Next(Run(r, [x][..0]), x);
    assert Run(r, both) == Next(Run(r, [x]), y);
  }

  /** The two changes of a move, turned round. */
  function Turned(c: seq<Change>): seq<Change>
    requires |c| == 2
  {
    [Changed(c[0].after, c[0].before), Changed(c[1].after, c[1].before)]
  }

  lemma {:induction false} WriteAndBack(r: Roster, c: seq<Change>)
    requires TakesPair(r, c)
    ensures Write(Write(r, c), Turned(c)) == r
  {
    var x, y := c[0].registrationId, c[1].registrationId;
    WriteUpToTwo(r, c);
    WriteUpToTwo(Write(r, c), Turned(c));
    assert c[0] in c && c[1] in c;
    assert Turned(c)[0].registrationId == x && Turned(c)[1].registrationId == y;
    assert r[x := c[0].after][y := c[1].after][x := c[0].before][y := c[1].before] == r;
  }
}
