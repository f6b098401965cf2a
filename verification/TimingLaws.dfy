/** What reads, judge entries and recounts may do to a runner's times, field by field. */
module TimingLaws {
  import opened Wrappers
  import opened Replay
  import opened ReplayLaws

  /** A start the program worked out itself, from a read or from the race. */
  predicate Machine(source: Source) {
    source.Observation? || source.RaceDefault?
  }

  /** A start that somebody gave. */
  predicate GivenStart(r: Runner) {
    r.start.Some? && !Machine(r.source)
  }

  predicate StartStands(was: Runner, now: Runner) {
    now.start == was.start && now.source == was.source && now.startRead == was.startRead
  }

  predicate FinishStands(was: Runner, now: Runner) {
    now.finish == was.finish && now.clean == was.clean
  }

  predicate SameRunner(was: Runner, now: Runner) {
    now.number == was.number && now.epc == was.epc && now.raceId == was.raceId
  }

  // Wiping.

  /** Finish and clean time go, and the start goes unless somebody gave it. */
  predicate Wiped(was: Runner, now: Runner) {
    SameRunner(was, now) && now.finish.None? && now.clean.None? &&
    if Machine(was.source) then now.start.None? && now.source.Unknown? && now.startRead.None? else StartStands(was, now)
  }

  predicate Inside(scope: Scope, id: string, raceId: string) {
    (scope.Race? ==> raceId == scope.id) && (scope.Runners? ==> id in scope.ids)
  }

  lemma {:induction false} KeptCount(passes: seq<Pass>, scope: Scope, p: Pass)
    ensures multiset(KeptPasses(passes, scope))[p] == if Inside(scope, p.runnerId, p.raceId) then 0 else multiset(passes)[p]
  {
    if passes != [] {
      var front, last := passes[..|passes| - 1], passes[|passes| - 1];
      KeptCount(front, scope, p);
      assert passes == front + [last];
    }
  }

  /** A wipe clears exactly the runners of its scope, spares given starts, and removes exactly the scope's results. */
  lemma {:induction false} WipeSparesGiven(s: Results, scope: Scope)
    ensures Wipe(s, scope).runners.Keys == s.runners.Keys
    ensures forall id :: id in s.runners ==>
              if Inside(scope, id, s.runners[id].raceId) then Wiped(s.runners[id], Wipe(s, scope).runners[id])
              else Wipe(s, scope).runners[id] == s.runners[id]
    ensures forall p :: multiset(Wipe(s, scope).passes)[p] ==
              if Inside(scope, p.runnerId, p.raceId) then 0 else multiset(s.passes)[p]
  {
    forall p
      ensures multiset(Wipe(s, scope).passes)[p] == if Inside(scope, p.runnerId, p.raceId) then 0 else multiset(s.passes)[p]
    {
      KeptCount(s.passes, scope, p);
    }
  }

  // One read.

  /** The start after a read: a given one stands, a missing or worked-out one follows the plan. */
  predicate StartFollows(was: Runner, write: StartWrite, now: Runner) {
    match write
    case Keep => StartStands(was, now)
    case IfNull(start) =>
      if was.start.Some? then StartStands(was, now)
      else now.start == Some(start) && now.source == RaceDefault && now.startRead == None
    case Replace(start, readId) =>
      if GivenStart(was) then StartStands(was, now)
      else now.start == Some(start) && now.source == Observation && now.startRead == Some(readId)
  }

  /** The finish after a read: the first one stands. */
  predicate FinishFollows(was: Runner, finish: Option<Finish>, now: Runner) {
    if was.finish.Some? || finish.None? then FinishStands(was, now)
    else now.finish == Some(finish.value.timeMs) && now.clean == finish.value.clean
  }

  lemma {:induction false} TimesFollowThePlan(rules: Rules, course: Course, runner: Runner, checkpoint: Checkpoint, read: RawRead)
    ensures var plan := rules.plan(runner, course.raceStart(runner.raceId), checkpoint, read.timeMs, read.id);
            var now := Timed(rules, course, runner, checkpoint, read);
            SameRunner(runner, now) && StartFollows(runner, plan.start, now) && FinishFollows(runner, plan.finish, now)
  {
  }

  /** The one result of a read: its time, its runner, and the runner's race and number. */
  predicate FromRead(p: Pass, read: RawRead, id: string, runner: Runner) {
    p.readId == read.id && p.timeMs == read.timeMs && p.runnerId == id && p.raceId == runner.raceId && p.number == runner.number
  }

  /** A read is looked at: it counts, is not switched off, has no result yet and belongs to somebody. */
  predicate LookedAt(s: Results, read: RawRead, id: string) {
    read.timeMs > 0 && !read.disabled && (forall i :: 0 <= i < |s.passes| ==> s.passes[i].readId != read.id) &&
    id in s.runners &&
    if read.number > 0 then s.runners[id].number == Some(read.number)
    else read.epc != "" && s.runners[id].epc == read.epc
  }

  /**
   A read that changes anything belongs to one runner, adds one result in that runner's name, moves that runner's times
   as the rules plan, and touches nobody else.
   */
  lemma {:induction false} ReadMakesOneResult(rules: Rules, course: Course, s: Results, read: RawRead, race: Option<string>, id: string)
    requires Process(rules, course, s, read, race).Ok? && Process(rules, course, s, read, race).value != s
    requires LookedAt(s, read, id)
    ensures var t := Process(rules, course, s, read, race).value;
            |t.passes| == |s.passes| + 1 && t.passes[..|s.passes|] == s.passes &&
            FromRead(t.passes[|s.passes|], read, id, s.runners[id]) && (race.Some? ==> s.runners[id].raceId == race.value) &&
            t.runners.Keys == s.runners.Keys && (forall x :: x in s.runners && x != id ==> t.runners[x] == s.runners[x]) &&
            var p := t.passes[|s.passes|];
            Chosen(rules, course, s.runners[id], PassesOf(s.passes, id), read) == Some(p.checkpoint) &&
            var plan := rules.plan(s.runners[id], course.raceStart(s.runners[id].raceId), p.checkpoint, read.timeMs, read.id);
            SameRunner(s.runners[id], t.runners[id]) && StartFollows(s.runners[id], plan.start, t.runners[id]) &&
            FinishFollows(s.runners[id], plan.finish, t.runners[id])
  {
    assert id in Owners(s.runners, read);
    var p := OnePassMore(rules, course, s, read, race, id);
    TimesFollowThePlan(rules, course, s.runners[id], p.checkpoint, read);
  }

  /** A read that changes something was looked at for somebody. */
  lemma {:induction false} ReadHasAnOwner(rules: Rules, course: Course, s: Results, read: RawRead, race: Option<string>)
    requires Process(rules, course, s, read, race).Ok? && Process(rules, course, s, read, race).value != s
    ensures exists id :: LookedAt(s, read, id)
  {
    var id :| id in Owners(s.runners, read);
    assert LookedAt(s, read, id);
  }

  /** Results in another race than the runner's do not count for the choice of a checkpoint. */
  lemma {:induction false} OtherRacesDoNotCount(rules: Rules, course: Course, runner: Runner, own: seq<Pass>, p: Pass, read: RawRead)
    requires p.raceId != runner.raceId
    ensures Chosen(rules, course, runner, own + [p], read) == Chosen(rules, course, runner, own, read)
  {
    assert (own + [p])[..|own|] == own;
  }

  /** Results in the runner's race all do: the rules see each checkpoint passed there. */
  lemma {:induction false} PassedThere(own: seq<Pass>, raceId: string, checkpointId: string)
    ensures checkpointId in PassedAt(InRace(own, raceId)) <==>
            exists i :: 0 <= i < |own| && own[i].raceId == raceId && own[i].checkpoint.id == checkpointId
  {
    if own != [] {
      var front, last := own[..|own| - 1], own[|own| - 1];
      PassedThere(front, raceId, checkpointId);
      var before, after := InRace(front, raceId), InRace(own, raceId);
      assert forall i :: 0 <= i < |front| ==> front[i] == own[i];
      if last.raceId == raceId {
        assert after == before + [last];
        assert PassedAt(after) == PassedAt(before) + {last.checkpoint.id} by {
          assert forall i :: 0 <= i < |before| ==> after[i] == before[i];
          assert after[|before|] == last;
        }
      }
    }
  }

  /** The runner's results of one race, from the first on. */
  function OfRace(own: seq<Pass>, raceId: string): seq<Pass> {
    if own == [] then [] else (if own[0].raceId == raceId then [own[0]] else []) + OfRace(own[1..], raceId)
  }

  lemma {:induction false} OfRaceSnoc(own: seq<Pass>, p: Pass, raceId: string)
    ensures OfRace(own + [p], raceId) == OfRace(own, raceId) + if p.raceId == raceId then [p] else []
  {
    var tail := if p.raceId == raceId then [p] else [];
    if own == [] {
      assert own + [p] == [p] && [p][1..] == [];
    } else {
      var head := if own[0].raceId == raceId then [own[0]] else [];
      assert (own + [p])[0] == own[0] && (own + [p])[1..] == own[1..] + [p];
      OfRaceSnoc(own[1..], p, raceId);
      assert OfRace(own + [p], raceId) == head + (OfRace(own[1..], raceId) + tail);
    }
  }

  lemma {:induction false} InRaceIsOfRace(own: seq<Pass>, raceId: string)
    ensures InRace(own, raceId) == OfRace(own, raceId)
  {
    if own != [] {
      InRaceIsOfRace(own[..|own| - 1], raceId);
      OfRaceSnoc(own[..|own| - 1], own[|own| - 1], raceId);
      assert own == own[..|own| - 1] + [own[|own| - 1]];
    }
  }

  /** The rules choose among the checkpoints of the runner's race at the read's board, knowing the race's start and the runner's results there. */
  lemma {:induction false} RulesChoose(rules: Rules, course: Course, runner: Runner, own: seq<Pass>, read: RawRead)
    ensures var there, results := course.checkpoints(runner.raceId, read.board), OfRace(own, runner.raceId);
            Chosen(rules, course, runner, own, read) ==
            if there == [] then None
            else rules.select(read, runner, course.raceStart(runner.raceId), rules.last(results),
                              set p | p in results :: p.checkpoint.id, there)
  {
    InRaceIsOfRace(own, runner.raceId);
    var results := OfRace(own, runner.raceId);
    assert PassedAt(results) == set p | p in results :: p.checkpoint.id;
  }

  // A whole recount.

  /** Same runners, and for each the start they were given. */
  ghost predicate KeepsGiven(a: map<string, Runner>, b: map<string, Runner>) {
    b.Keys == a.Keys && forall id :: id in a ==> SameRunner(a[id], b[id]) && (GivenStart(a[id]) ==> StartStands(a[id], b[id]))
  }

  lemma {:induction false} GivenThrough(a: map<string, Runner>, b: map<string, Runner>, c: map<string, Runner>)
    requires KeepsGiven(a, b) && KeepsGiven(b, c)
    ensures KeepsGiven(a, c)
  {
    forall id | id in a
      ensures SameRunner(a[id], c[id]) && (GivenStart(a[id]) ==> StartStands(a[id], c[id]))
    {
      assert GivenStart(a[id]) ==> GivenStart(b[id]);
    }
  }

  lemma {:induction false} ReadKeepsGiven(rules: Rules, course: Course, s: Results, read: RawRead, race: Option<string>)
    requires Process(rules, course, s, read, race).Ok?
    ensures KeepsGiven(s.runners, Process(rules, course, s, read, race).value.runners)
  {
    var t := Process(rules, course, s, read, race).value;
    if t != s {
      ReadHasAnOwner(rules, course, s, read, race);
      var id :| LookedAt(s, read, id);
      ReadMakesOneResult(rules, course, s, read, race, id);
    }
  }

  lemma {:induction false} ReplayKeepsGiven(rules: Rules, course: Course, s: Results, log: seq<RawRead>, race: Option<string>)
    requires ReplayAll(rules, course, s, log, race).Ok?
    ensures KeepsGiven(s.runners, ReplayAll(rules, course, s, log, race).value.runners)
  {
    if log != [] {
      var front := ReplayAll(rules, course, s, log[..|log| - 1], race).value;
      ReplayKeepsGiven(rules, course, s, log[..|log| - 1], race);
      ReadKeepsGiven(rules, course, front, log[|log| - 1], race);
      GivenThrough(s.runners, front.runners, Process(rules, course, front, log[|log| - 1], race).value.runners);
    }
  }

  /** The finish a judge entered, timed from the runner's start if there is one. */
  predicate FinishEntered(rules: Rules, now: Runner, timeMs: int) {
    now.finish == Some(timeMs) && now.clean == if now.start.Some? then Some(rules.clean(now.start.value, timeMs)) else None
  }

  /** A judge's entry sets the finish; the start stands, or is the race's where there was none. */
  lemma {:induction false} EntrySetsFinish(rules: Rules, course: Course, runner: Runner, timeMs: int)
    ensures var now := Judged(rules, course, runner, timeMs); var gun := course.raceStart(runner.raceId);
            SameRunner(runner, now) && FinishEntered(rules, now, timeMs) &&
            if runner.start.Some? || gun.None? then StartStands(runner, now)
            else now.start == gun && now.source == RaceDefault && now.startRead == None
  {
  }

  /** No entry for this runner comes before this one. */
  predicate FirstFor(manual: seq<Manual>, i: nat) {
    i < |manual| && forall j :: 0 <= j < i ==> manual[j].runnerId != manual[i].runnerId
  }

  lemma {:induction false} EntriesKeepGiven(rules: Rules, course: Course, runners: map<string, Runner>, manual: seq<Manual>)
    requires Reapply(rules, course, runners, manual).Ok?
    ensures KeepsGiven(runners, Reapply(rules, course, runners, manual).value)
  {
    if manual != [] {
      var front, last := manual[..|manual| - 1], manual[|manual| - 1];
      EntriesKeepGiven(rules, course, runners, front);
      LastEntryKeeps(rules, course, runners, Reapply(rules, course, runners, front).value,
                     Reapply(rules, course, runners, manual).value, last);
    }
  }

  lemma {:induction false} FirstEntryStands(rules: Rules, course: Course, runners: map<string, Runner>, manual: seq<Manual>, i: nat)
    requires Reapply(rules, course, runners, manual).Ok? && FirstFor(manual, i)
    ensures var after := Reapply(rules, course, runners, manual).value; var entry := manual[i];
            entry.runnerId in after && FinishEntered(rules, after[entry.runnerId], entry.timeMs)
  {
    var front, last := manual[..|manual| - 1], manual[|manual| - 1];
    var before := Reapply(rules, course, runners, front).value;
    if i < |front| {
      assert FirstFor(front, i) && front[i] == manual[i];
      FirstEntryStands(rules, course, runners, front, i);
      assert Entered(front, manual[i].runnerId);
    } else {
      assert !Entered(front, last.runnerId);
      EntrySetsFinish(rules, course, before[last.runnerId], last.timeMs);
    }
  }

  lemma {:induction false} LastEntryKeeps(rules: Rules, course: Course, runners: map<string, Runner>, before: map<string, Runner>,
                                          after: map<string, Runner>, last: Manual)
    requires KeepsGiven(runners, before)
    requires after == before || (last.runnerId in before && after == before[last.runnerId := Judged(rules, course, before[last.runnerId], last.timeMs)])
    ensures KeepsGiven(runners, after)
  {
    if after != before {
      EntrySetsFinish(rules, course, before[last.runnerId], last.timeMs);
    }
    GivenThrough(runners, before, after);
  }

  lemma {:induction false} WipeKeepsGiven(s: Results, scope: Scope)
    ensures KeepsGiven(s.runners, Wipe(s, scope).runners)
  {
    WipeSparesGiven(s, scope);
  }

  /** A recount never touches a start that somebody gave, nor any number, chip or race. */
  lemma {:induction false} GivenStartSurvives(rules: Rules, course: Course, s: Results, scope: Scope)
    requires Recount(rules, course, s, scope).Ok?
    ensures KeepsGiven(s.runners, Recount(rules, course, s, scope).value.runners)
  {
    var wiped := Wipe(s, scope);
    var replayed := ReplayAll(rules, course, wiped, ReadsFor(wiped.runners, scope, course.log), RaceOf(scope));
    var t := Recount(rules, course, s, scope).value;
    WipeKeepsGiven(s, scope);
    ReplayKeepsGiven(rules, course, wiped, ReadsFor(wiped.runners, scope, course.log), RaceOf(scope));
    EntriesKeepGiven(rules, course, replayed.value.runners, ManualFor(scope, course.manual));
    GivenThrough(s.runners, wiped.runners, replayed.value.runners);
    GivenThrough(s.runners, replayed.value.runners, t.runners);
  }

  /** An entry of the scope with no earlier one for the same runner. */
  predicate FirstInScope(scope: Scope, manual: seq<Manual>, i: nat) {
    i < |manual| && Inside(scope, manual[i].runnerId, manual[i].raceId) &&
    forall j :: 0 <= j < i && Inside(scope, manual[j].runnerId, manual[j].raceId) ==> manual[j].runnerId != manual[i].runnerId
  }

  lemma {:induction false} FirstStaysFirst(scope: Scope, manual: seq<Manual>, i: nat) returns (k: nat)
    requires FirstInScope(scope, manual, i)
    ensures var f := ManualFor(scope, manual); FirstFor(f, k) && f[k] == manual[i]
  {
    var front := manual[..|manual| - 1];
    if i < |front| {
      assert FirstInScope(scope, front, i);
      k := FirstStaysFirst(scope, front, i);
      assert forall j :: 0 <= j <= k ==> ManualFor(scope, manual)[j] == ManualFor(scope, front)[j];
    } else {
      NoEarlier(scope, front, manual[i].runnerId);
      k := |ManualFor(scope, front)|;
    }
  }

  lemma {:induction false} NoEarlier(scope: Scope, manual: seq<Manual>, id: string)
    requires forall j :: 0 <= j < |manual| && Inside(scope, manual[j].runnerId, manual[j].raceId) ==> manual[j].runnerId != id
    ensures forall j :: 0 <= j < |ManualFor(scope, manual)| ==> ManualFor(scope, manual)[j].runnerId != id
  {
    if manual != [] {
      NoEarlier(scope, manual[..|manual| - 1], id);
    }
  }

  /** After a recount the first entry of a judge in its scope is the runner's finish, timed from the runner's start. */
  lemma {:induction false} JudgeHasTheLastWord(rules: Rules, course: Course, s: Results, scope: Scope, i: nat)
    requires Recount(rules, course, s, scope).Ok? && FirstInScope(scope, course.manual, i)
    ensures var t := Recount(rules, course, s, scope).value; var entry := course.manual[i];
            entry.runnerId in t.runners && FinishEntered(rules, t.runners[entry.runnerId], entry.timeMs)
  {
    var k := FirstStaysFirst(scope, course.manual, i);
    var wiped := Wipe(s, scope);
    var replayed := ReplayAll(rules, course, wiped, ReadsFor(wiped.runners, scope, course.log), RaceOf(scope));
    FirstEntryStands(rules, course, replayed.value.runners, ManualFor(scope, course.manual), k);
  }
}
