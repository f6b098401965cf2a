/** Recounts as the program runs them: results wiped, reads replayed and judge entries put back, in place. */
module ReplayService {
  import opened Wrappers
  import opened Replay
  import opened TimingLaws

  datatype Resolved = Nobody | Ambiguous | Found(id: string)

  class TimingStore {
    var runners: map<string, Runner>
    var passes: seq<Pass>

    function View(): Results
      reads this
    {
      Results(runners, passes)
    }

    constructor (s: Results)
      ensures View() == s
    {
      runners, passes := s.runners, s.passes;
    }

    method Rollback(s: Results)
      modifies this
      ensures View() == s
    {
      runners, passes := s.runners, s.passes;
    }

    method LoadMember(read: RawRead) returns (r: Resolved)
      ensures r.Nobody? <==> Owners(runners, read) == {}
      ensures r.Ambiguous? <==> !Unambiguous(runners, read)
      ensures r.Found? ==> r.id in Owners(runners, read)
    {
      var owners := Owners(runners, read);
      assert forall x :: x in runners && Matches(runners[x], read) ==> x in owners;
      if owners == {} {
        return Nobody;
      }
      var id :| id in owners;
      if owners - {id} != {} {
        var other :| other in owners - {id};
        assert id in owners && other in owners;
        return Ambiguous;
      }
      assert owners == {id} + (owners - {id});
      return Found(id);
    }

    /** The guarded updates: a start only where none or a machine's stands, a finish only where none stands. */
    method UpdateMemberTimes(rules: Rules, course: Course, id: string, checkpoint: Checkpoint, read: RawRead)
      requires id in runners
      modifies this`runners
      ensures runners == old(runners)[id := Timed(rules, course, old(runners)[id], checkpoint, read)]
      ensures var was, now := old(runners)[id], runners[id];
              var plan := rules.plan(was, course.raceStart(was.raceId), checkpoint, read.timeMs, read.id);
              SameRunner(was, now) && StartFollows(was, plan.start, now) && FinishFollows(was, plan.finish, now)
    {
      var plan := rules.plan(runners[id], course.raceStart(runners[id].raceId), checkpoint, read.timeMs, read.id);
      var row := runners[id];
      match plan.start {
        case Keep =>
        case IfNull(start) =>
          if row.start.None? {
            row := row.(start := Some(start), source := RaceDefault, startRead := None);
          }
        case Replace(start, readId) =>
          if row.start.None? || row.source.RaceDefault? || row.source.Observation? {
            row := row.(start := Some(start), source := Observation, startRead := Some(readId));
          }
      }
      if plan.finish.Some? && row.finish.None? {
        row := row.(finish := Some(plan.finish.value.timeMs), clean := plan.finish.value.clean);
      }
      runners := runners[id := row];
    }

    method ProcessRead(rules: Rules, course: Course, read: RawRead, race: Option<string>) returns (done: Result<(), Fault>)
      modifies this
      ensures var spec := Process(rules, course, old(View()), read, race);
              if spec.Ok? then done.Ok? && View() == spec.value else done == Err(spec.error) && View() == old(View())
    {
      if read.timeMs <= 0 || !HasKey(read) {
        return Ok(());
      }
      if Known(passes, read.id) || read.disabled {
        return Ok(());
      }
      var resolved := LoadMember(read);
      if resolved.Nobody? {
        return Ok(());
      }
      if resolved.Ambiguous? {
        return Err(AmbiguousIdentity);
      }
      var id := resolved.id;
      assert forall x :: x in Owners(runners, read) ==> x == id;
      var runner := runners[id];
      if race.Some? && runner.raceId != race.value {
        return Ok(());
      }
      var checkpoint := Chosen(rules, course, runner, PassesOf(passes, id), read);
      if checkpoint.None? {
        return Ok(());
      }
      passes := passes + [Pass(read.id, id, runner.raceId, checkpoint.value, read.timeMs, runner.number)];
      UpdateMemberTimes(rules, course, id, checkpoint.value, read);
      return Ok(());
    }

    method ReplayLogs(rules: Rules, course: Course, log: seq<RawRead>, race: Option<string>) returns (done: Result<(), Fault>)
      modifies this
      ensures var spec := ReplayAll(rules, course, old(View()), log, race);
              if spec.Ok? then done.Ok? && View() == spec.value else done == Err(spec.error)
    {
      ghost var s := View();
      for i := 0 to |log|
        invariant ReplayAll(rules, course, s, log[..i], race) == Ok(View())
      {
        assert log[..i + 1][..i] == log[..i];
        done := ProcessRead(rules, course, log[i], race);
        if done.Err? {
          ReplayStops(rules, course, s, log, race, i + 1);
          return;
        }
      }
      assert log[..|log|] == log;
      return Ok(());
    }

    method ReapplyManual(rules: Rules, course: Course, manual: seq<Manual>) returns (done: Result<(), Fault>)
      modifies this`runners
      ensures var spec := Reapply(rules, course, old(runners), manual);
              if spec.Ok? then done.Ok? && runners == spec.value else done == Err(spec.error)
    {
      ghost var before := runners;
      var applied: set<string> := {};
      for i := 0 to |manual|
        invariant Reapply(rules, course, before, manual[..i]) == Ok(runners)
        invariant forall id :: id in applied <==> Entered(manual[..i], id)
      {
        var entry := manual[i];
        assert manual[..i + 1][..i] == manual[..i];
        EnteredMore(manual, i);
        if entry.runnerId in applied {
          continue;
        }
        applied := applied + {entry.runnerId};
        if entry.runnerId !in runners {
          ReapplyStops(rules, course, before, manual, i + 1);
          return Err(UnknownRunner);
        }
        runners := runners[entry.runnerId := Judged(rules, course, runners[entry.runnerId], entry.timeMs)];
      }
      assert manual[..|manual|] == manual;
      return Ok(());
    }

    method WipeDerivedResults(scope: Scope)
      modifies this
      ensures View() == Wipe(old(View()), scope)
      ensures runners.Keys == old(runners).Keys
      ensures forall id :: id in runners ==>
        var was, now := old(runners)[id], runners[id];
        if !Inside(scope, id, was.raceId) then now == was
        else
          now.number == was.number && now.epc == was.epc && now.raceId == was.raceId && now.finish.None? && now.clean.None? &&
          if was.source.Observation? || was.source.RaceDefault?
          then now.start.None? && now.source.Unknown? && now.startRead.None?
          else now.start == was.start && now.source == was.source && now.startRead == was.startRead
      ensures forall p :: multiset(passes)[p] == if Inside(scope, p.runnerId, p.raceId) then 0 else multiset(old(passes))[p]
    {
      WipeSparesGiven(View(), scope);
      passes := KeptPasses(passes, scope);
      runners := map id | id in runners :: if InScope(scope, id, runners[id]) then Reset(runners[id]) else runners[id];
    }

    /** Wipe, replay, judge entries: one transaction. */
    method RecountScope(rules: Rules, course: Course, scope: Scope) returns (done: Result<(), Fault>)
      modifies this
      ensures var spec := Recount(rules, course, old(View()), scope);
              if spec.Ok? then done.Ok? && View() == spec.value else done == Err(spec.error) && View() == old(View())
    {
      var saved := View();
      WipeDerivedResults(scope);
      var log := ReadsFor(runners, scope, course.log);
      done := ReplayLogs(rules, course, log, RaceOf(scope));
      if done.Ok? {
        done := ReapplyManual(rules, course, ManualFor(scope, course.manual));
      }
      if done.Err? {
        Rollback(saved);
      }
    }
  }

  lemma {:induction false} ReplayStops(rules: Rules, course: Course, s: Results, log: seq<RawRead>, race: Option<string>, n: nat)
    requires n <= |log| && ReplayAll(rules, course, s, log[..n], race).Err?
    ensures ReplayAll(rules, course, s, log, race) == ReplayAll(rules, course, s, log[..n], race)
  {
    if n < |log| {
      assert log[..|log| - 1][..n] == log[..n];
      ReplayStops(rules, course, s, log[..|log| - 1], race, n);
    } else {
      assert log[..n] == log;
    }
  }

  lemma {:induction false} ReapplyStops(rules: Rules, course: Course, runners: map<string, Runner>, manual: seq<Manual>, n: nat)
    requires n <= |manual| && Reapply(rules, course, runners, manual[..n]).Err?
    ensures Reapply(rules, course, runners, manual) == Reapply(rules, course, runners, manual[..n])
  {
    if n < |manual| {
      assert manual[..|manual| - 1][..n] == manual[..n];
      ReapplyStops(rules, course, runners, manual[..|manual| - 1], n);
    } else {
      assert manual[..n] == manual;
    }
  }

  lemma {:induction false} EnteredMore(manual: seq<Manual>, i: nat)
    requires i < |manual|
    ensures forall id :: Entered(manual[..i + 1], id) <==> Entered(manual[..i], id) || manual[i].runnerId == id
  {
    assert forall j :: 0 <= j < i ==> manual[..i + 1][j] == manual[..i][j];
    assert manual[..i + 1][i] == manual[i];
    forall id | Entered(manual[..i], id) ensures Entered(manual[..i + 1], id) {
      var j :| 0 <= j < |manual[..i]| && manual[..i][j].runnerId == id;
      assert manual[..i + 1][j].runnerId == id;
    }
  }
}
