/** When a correction of a move is accepted at all. */
module CorrectionLaws {
  import opened Wrappers
  import opened TextRules
  import opened Registrations
  import opened Transitions
  import opened TransitionLaws
  import opened UndoLaws

  /** The changes are what some move did to their own before images. */
  ghost predicate WasMove(original: seq<Change>)
    requires |original| == 2
  {
    exists command: Command :: IsMove(command.kind) && Apply([original[0].before, original[1].before], command) == Ok(original)
  }

  /** The row still holds what the move left there, has not been timed, and lost neither number, chip nor race to the move. */
  predicate CanComeBack(records: seq<Registration>, ch: Change) {
    Find(records, ch.registrationId) == Some(ch.after) && !ch.after.hasTimingEvidence &&
    ch.after.id == ch.before.id && ch.after.eventId == ch.before.eventId && ch.after.raceId == ch.before.raceId &&
    ch.after.bib == ch.before.bib && ch.after.epc == ch.before.epc
  }

  lemma {:induction false} MoveIsReadBack(original: seq<Change>)
    requires |original| == 2 && WasMove(original)
    ensures Apply([original[0].before, original[1].before], InferredMove(original[0], original[1])) == Ok(original)
    ensures original[1].before.reserve && original[0].registrationId != original[1].registrationId &&
            (ReleasedSource(original[0].after) || EmptiedSource(original[0].after) ||
             TransferredSource(original[0].after, original[1].registrationId))
  {
    var rows := [original[0].before, original[1].before];
    var command: Command :| IsMove(command.kind) && Apply(rows, command) == Ok(original);
    MoveFacts(rows, command);
    InferredMoveReplays(rows, command);
    MovedSourceIsRecognised(rows, command);
  }

  /** A correction is accepted exactly with a reason, on valid rows, for a two-row move both of whose rows can come back. */
  lemma {:induction false} CorrectedExactly(records: seq<Registration>, original: seq<Change>, reason: string)
    ensures ReverseMove(records, original, reason).Ok? <==>
            ValidReason(reason) && |original| == 2 && WasMove(original) && (forall r :: r in records ==> ValidRegistration(r)) &&
            CanComeBack(records, original[0]) && CanComeBack(records, original[1])
    ensures ReverseMove(records, original, reason).Err? ==> ReverseMove(records, original, reason) == Err(CorrectionReviewRequired)
  {
    if ReverseMove(records, original, reason).Ok? {
      UndoneWasAMove(records, original, reason);
      forall r | r in records
        ensures ValidRegistration(r)
      {
        var i :| 0 <= i < |records| && records[i] == r;
        assert Validate(records[i]).None?;
      }
    } else if |original| == 2 && WasMove(original) && forall r :: r in records ==> ValidRegistration(r) {
      MoveIsReadBack(original);
      forall i | 0 <= i < |records|
        ensures Validate(records[i]).None?
      {
        assert records[i] in records;
      }
    }
  }
}
