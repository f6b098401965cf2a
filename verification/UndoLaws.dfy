/** Undoing a two-row move: exactly when it is possible, and what it gives back. */
module UndoLaws {
  import opened Wrappers
  import opened TextRules
  import opened Registrations
  import opened Transitions
  import opened TransitionLaws

  /** A reserve assignment that takes the number off a numbered source row. */
  predicate StripsNumber(command: Command, source: Registration) {
    command.kind.AssignReserve? && command.returnSource == Some(false) && (source.bib != "" || source.epc != "")
  }

  /** Both rows still hold what the move left there. */
  predicate Untouched(records: seq<Registration>, move: seq<Change>)
    requires |move| == 2
  {
    Find(records, move[0].registrationId) == Some(move[0].after) &&
    Find(records, move[1].registrationId) == Some(move[1].after)
  }

  lemma {:induction false} PairIsFaultless(x: Registration, y: Registration)
    requires ValidRegistration(x) && ValidRegistration(y) && x.id != y.id
    ensures Fault([x, y], {}).None?
    ensures Find([x, y], x.id) == Some(x) && Find([x, y], y.id) == Some(y)
  {
    assert [x, y][1..] == [y] && [y][1..] == [];
    assert [x, y][..1] == [x] && [x][..0] == [];
    assert Fault([y], {x.id}) == Fault([], {x.id, y.id}) by { assert {x.id} + {y.id} == {x.id, y.id}; }
    assert Fault([x, y], {}) == Fault([y], {} + {x.id});
    assert {} + {x.id} == {x.id};
  }

  lemma {:induction false} MoveFacts(records: seq<Registration>, command: Command)
    requires IsMove(command.kind) && Apply(records, command).Ok?
    ensures var c := Apply(records, command).value;
            |c| == 2 && c[0].before.id == c[0].registrationId && c[1].before.id == c[1].registrationId &&
            c[0].registrationId != c[1].registrationId &&
            ValidRegistration(c[0].before) && ValidRegistration(c[1].before)
    ensures var c := Apply(records, command).value;
            TargetOf(records, c[0].before, command) == Ok(c[1].before) &&
            SourceAfterMove(c[0].before, c[1].before, command) == Ok(c[0].after) &&
            c[1].after == c[1].before.(person := c[0].before.person, reserve := false, issued := command.issuePacket.value)
  {
    NoFaultMeansValid(records, {});
    ApplyIsGood(records, command);
  }

  /** The move read off the two changes does to the source what the original did. */
  lemma {:induction false} InferredSource(records: seq<Registration>, command: Command)
    requires IsMove(command.kind) && Apply(records, command).Ok?
    ensures var c := Apply(records, command).value;
            |c| == 2 &&
            SourceAfterMove(c[0].before, c[1].before, InferredMove(c[0], c[1])) == Ok(c[0].after)
    ensures var c := Apply(records, command).value;
            InferredMove(c[0], c[1]).kind.MoveRace? ==> command.kind.MoveRace?
    ensures var c := Apply(records, command).value;
            InferredMove(c[0], c[1]).kind.AssignReserve? ==> command.kind.AssignReserve?
  {
    MoveFacts(records, command);
  }

  lemma {:induction false} InferredTarget(records: seq<Registration>, command: Command)
    requires IsMove(command.kind) && Apply(records, command).Ok?
    ensures var c := Apply(records, command).value;
            |c| == 2 && TargetOf([c[0].before, c[1].before], c[0].before, InferredMove(c[0], c[1])) == Ok(c[1].before)
  {
    MoveFacts(records, command);
    InferredSource(records, command);
    var c := Apply(records, command).value;
    PairIsFaultless(c[0].before, c[1].before);
  }

  /** Replaying the inferred move on the before-images reproduces the original changes. */
  lemma {:induction false} InferredMoveReplays(records: seq<Registration>, command: Command)
    requires IsMove(command.kind) && Apply(records, command).Ok?
    ensures var c := Apply(records, command).value;
            |c| == 2 && Apply([c[0].before, c[1].before], InferredMove(c[0], c[1])) == Ok(c)
  {
    MoveFacts(records, command);
    InferredSource(records, command);
    InferredTarget(records, command);
    var c := Apply(records, command).value;
    var m := InferredMove(c[0], c[1]);
    PairIsFaultless(c[0].before, c[1].before);
    assert Move([c[0].before, c[1].before], c[0].before, m).value == [c[0], c[1]];
    assert c == [c[0], c[1]];
  }

  lemma {:induction false} MovedSourceIsRecognised(records: seq<Registration>, command: Command)
    requires IsMove(command.kind) && Apply(records, command).Ok?
    ensures var c := Apply(records, command).value;
            |c| == 2 && c[1].before.reserve &&
            (ReleasedSource(c[0].after) || EmptiedSource(c[0].after) || TransferredSource(c[0].after, c[1].registrationId))
  {
    MoveFacts(records, command);
  }

  /** Both rows are free of evidence, and only a stripped number stands between the images. */
  predicate SameButNumber(ch: Change) {
    !ch.after.hasTimingEvidence && ch.after.id == ch.before.id && ch.after.eventId == ch.before.eventId &&
    ch.after.raceId == ch.before.raceId
  }

  lemma {:induction false} MovedRowsCompare(records: seq<Registration>, command: Command)
    requires IsMove(command.kind) && Apply(records, command).Ok?
    ensures var c := Apply(records, command).value;
            |c| == 2 && SameButNumber(c[0]) && SameButNumber(c[1]) &&
            c[1].after.bib == c[1].before.bib && c[1].after.epc == c[1].before.epc &&
            (c[0].after.bib == c[0].before.bib && c[0].after.epc == c[0].before.epc <==> !StripsNumber(command, c[0].before))
  {
    MoveFacts(records, command);
  }

  /** A move can be undone exactly when it did not strip a number, and then both rows come back. */
  lemma {:induction false} MoveIsUndoneExactly(records: seq<Registration>, command: Command, later: seq<Registration>, reason: string)
    requires IsMove(command.kind) && Apply(records, command).Ok? && ValidReason(reason)
    requires |Apply(records, command).value| == 2 && Untouched(later, Apply(records, command).value)
    requires forall r :: r in later ==> ValidRegistration(r)
    ensures var c := Apply(records, command).value;
            ReverseMove(later, c, reason).Ok? <==> !StripsNumber(command, c[0].before)
    ensures var c := Apply(records, command).value;
            ReverseMove(later, c, reason).Ok? ==>
              ReverseMove(later, c, reason).value == [Changed(c[0].after, c[0].before), Changed(c[1].after, c[1].before)]
  {
    MoveFacts(records, command);
    InferredMoveReplays(records, command);
    MovedSourceIsRecognised(records, command);
    var c := Apply(records, command).value;
    MovedRowsCompare(records, command);
    forall i | 0 <= i < |later|
      ensures Validate(later[i]).None?
    {
      assert later[i] in later;
    }
    assert Restorable(later, c[1]);
    assert Restorable(later, c[0]) <==> !StripsNumber(command, c[0].before);
  }

  /** Whatever ReverseMove accepts was a move, and the inferred one reproduces it exactly. */
  lemma {:induction false} UndoneWasAMove(records: seq<Registration>, original: seq<Change>, reason: string)
    requires ReverseMove(records, original, reason).Ok?
    ensures |original| == 2 && Untouched(records, original)
    ensures IsMove(InferredMove(original[0], original[1]).kind)
    ensures Apply([original[0].before, original[1].before], InferredMove(original[0], original[1])) == Ok(original)
    ensures !StripsNumber(InferredMove(original[0], original[1]), original[0].before)
  {
    var m := InferredMove(original[0], original[1]);
    MoveFacts([original[0].before, original[1].before], m);
  }

  /** Giving a number back to the reserve creates a row, so it is never undone this way. */
  lemma {:induction false} ReturnIsNeverUndone(records: seq<Registration>, command: Command, later: seq<Registration>, reason: string)
    requires command.kind.ReturnToReserve? && Apply(records, command).Ok?
    ensures ReverseMove(later, Apply(records, command).value, reason).Err?
  {
  }
}
