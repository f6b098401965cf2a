/** Wipe and replay of raw reads: one read's progression step, and recounts of an event, a race or some members. */
module Replay {
  import opened Wrappers

  datatype Source = Unknown | RaceDefault | Observation | Given(text: string)

  /** What timing keeps of a participant. */
  datatype Runner = Runner(
    number: Option<int>, epc: string, raceId: string, start: Option<int>, source: Source, startRead: Option<string>,
    finish: Option<int>, clean: Option<string>)

  datatype RawRead = RawRead(id: string, number: int, timeMs: int, epc: string, board: string, disabled: bool)

  datatype Checkpoint = Checkpoint(id: string, sort: int, kind: int)

  /** A result derived from a read. */
  datatype Pass = Pass(readId: string, runnerId: string, raceId: string, checkpoint: Checkpoint, timeMs: int, number: Option<int>)

  /** A crossing entered by a judge. */
  datatype Manual = Manual(runnerId: string, raceId: string, timeMs: int)

  datatype Last = Last(sort: Option<int>, timeMs: Option<int>)

  datatype StartWrite = Keep | IfNull(start: int) | Replace(newStart: int, readId: string)

  datatype Finish = Finish(timeMs: int, clean: Option<string>)

  datatype TimePlan = TimePlan(start: StartWrite, finish: Option<Finish>)

  /** The timing rules, whatever they are: each looks at one runner's data only. */
  datatype Rules = Rules(
    last: seq<Pass> -> Last,
    select: (RawRead, Runner, Option<int>, Last, set<string>, seq<Checkpoint>) -> Option<Checkpoint>,
    plan: (Runner, Option<int>, Checkpoint, int, string) -> TimePlan,
    clean: (int, int) -> string)

  /** What a replay reads and never writes: reads in replay order, checkpoints by race and board, race starts, judge entries. */
  datatype Course = Course(
    log: seq<RawRead>, checkpoints: (string, string) -> seq<Checkpoint>, raceStart: string -> Option<int>, manual: seq<Manual>)

  datatype Results = Results(runners: map<string, Runner>, passes: seq<Pass>)

  // Whose read it is.

  predicate HasKey(read: RawRead) {
    read.number > 0 || read.epc != ""
  }

  /** By number when the read has one, by chip otherwise. */
  predicate Matches(runner: Runner, read: RawRead) {
    if read.number > 0 then runner.number == Some(read.number) else read.epc != "" && runner.epc == read.epc
  }

  function Owners(runners: map<string, Runner>, read: RawRead): set<string> {
    set id | id in runners && Matches(runners[id], read)
  }

  predicate Unambiguous(runners: map<string, Runner>, read: RawRead) {
    forall x, y :: x in runners && y in runners && Matches(runners[x], read) && Matches(runners[y], read) ==> x == y
  }

  // One read.

  function PassesOf(passes: seq<Pass>, id: string): seq<Pass> {
    if passes == [] then []
    else
      var front, last := PassesOf(passes[..|passes| - 1], id), passes[|passes| - 1];
      if last.runnerId == id then front + [last] else front
  }

  function InRace(passes: seq<Pass>, raceId: string): seq<Pass> {
    if passes == [] then []
    else
      var front, last := InRace(passes[..|passes| - 1], raceId), passes[|passes| - 1];
      if last.raceId == raceId then front + [last] else front
  }

  function PassedAt(passes: seq<Pass>): set<string> {
    set i | 0 <= i < |passes| :: passes[i].checkpoint.id
  }

  predicate Known(passes: seq<Pass>, readId: string) {
    exists i :: 0 <= i < |passes| && passes[i].readId == readId
  }

  /** The checkpoint a read counts for, given the runner's passes in the race so far. */
  function Chosen(rules: Rules, course: Course, runner: Runner, own: seq<Pass>, read: RawRead): Option<Checkpoint> {
    var there := course.checkpoints(runner.raceId, read.board);
    var so_far := InRace(own, runner.raceId);
    if there == [] then None
    else rules.select(read, runner, course.raceStart(runner.raceId), rules.last(so_far), PassedAt(so_far), there)
  }

  /** The guarded updates of start and finish. */
  function Timed(rules: Rules, course: Course, runner: Runner, checkpoint: Checkpoint, read: RawRead): Runner {
    var plan := rules.plan(runner, course.raceStart(runner.raceId), checkpoint, read.timeMs, read.id);
    var started :=
      match plan.start
      case Keep => runner
      case IfNull(start) => if runner.start.None? then runner.(start := Some(start), source := RaceDefault, startRead := None) else runner
      case Replace(start, readId) =>
        if runner.start.None? || runner.source.RaceDefault? || runner.source.Observation?
        then runner.(start := Some(start), source := Observation, startRead := Some(readId)) else runner;
    if plan.finish.Some? && started.finish.None?
    then started.(finish := Some(plan.finish.value.timeMs), clean := plan.finish.value.clean) else started
  }

  datatype One = One(runner: Runner, passes: seq<Pass>)

  predicate Counts(read: RawRead) {
    read.timeMs > 0 && HasKey(read)
  }

  /** What a read of theirs does to one runner. */
  function Advance(rules: Rules, course: Course, id: string, o: One, read: RawRead): One {
    if !Counts(read) || Known(o.passes, read.id) || read.disabled then o
    else
      var checkpoint := Chosen(rules, course, o.runner, o.passes, read);
      if checkpoint.None? then o
      else
        One(Timed(rules, course, o.runner, checkpoint.value, read),
            o.passes + [Pass(read.id, id, o.runner.raceId, checkpoint.value, read.timeMs, o.runner.number)])
  }

  datatype Fault = AmbiguousIdentity | UnknownRunner

  /** At most one result from one read; a race filter skips runners of other races. */
  ghost function Process(rules: Rules, course: Course, s: Results, read: RawRead, race: Option<string>): Result<Results, Fault> {
    if !Counts(read) || Known(s.passes, read.id) || read.disabled then Ok(s)
    else if Owners(s.runners, read) == {} then Ok(s)
    else if !Unambiguous(s.runners, read) then Err(AmbiguousIdentity)
    else
      var id :| id in Owners(s.runners, read);
      var runner := s.runners[id];
      if race.Some? && runner.raceId != race.value then Ok(s)
      else
        var checkpoint := Chosen(rules, course, runner, PassesOf(s.passes, id), read);
        if checkpoint.None? then Ok(s)
        else
          Ok(Results(s.runners[id := Timed(rules, course, runner, checkpoint.value, read)],
                     s.passes + [Pass(read.id, id, runner.raceId, checkpoint.value, read.timeMs, runner.number)]))
  }

  ghost function ReplayAll(rules: Rules, course: Course, s: Results, log: seq<RawRead>, race: Option<string>): Result<Results, Fault> {
    if log == [] then Ok(s)
    else
      var front := ReplayAll(rules, course, s, log[..|log| - 1], race);
      if front.Err? then front else Process(rules, course, front.value, log[|log| - 1], race)
  }

  // Judge entries.

  /** A judge's time overrides the finish; a missing start is taken from the race. */
  function Judged(rules: Rules, course: Course, runner: Runner, timeMs: int): Runner {
    var start := if runner.start.Some? then runner.start else course.raceStart(runner.raceId);
    var clean := if start.Some? then Some(rules.clean(start.value, timeMs)) else None;
    if start.Some? && runner.start.None?
    then runner.(start := start, source := RaceDefault, startRead := None, finish := Some(timeMs), clean := clean)
    else runner.(finish := Some(timeMs), clean := clean)
  }

  predicate Entered(manual: seq<Manual>, id: string) {
    exists i :: 0 <= i < |manual| && manual[i].runnerId == id
  }

  /** Entries in order, only the first for each runner. */
  function Reapply(rules: Rules, course: Course, runners: map<string, Runner>, manual: seq<Manual>): Result<map<string, Runner>, Fault> {
    if manual == [] then Ok(runners)
    else
      var before, last := manual[..|manual| - 1], manual[|manual| - 1];
      var front := Reapply(rules, course, runners, before);
      if front.Err? || Entered(before, last.runnerId) then front
      else if last.runnerId !in front.value then Err(UnknownRunner)
      else Ok(front.value[last.runnerId := Judged(rules, course, front.value[last.runnerId], last.timeMs)])
  }

  // Recounts.

  datatype Scope = Event | Race(id: string) | Runners(ids: set<string>)

  /** Machine-made times go, times that were given stay. */
  function Reset(runner: Runner): Runner {
    var r := if runner.source.Observation? || runner.source.RaceDefault?
             then runner.(start := None, source := Unknown, startRead := None) else runner;
    r.(finish := None, clean := None)
  }

  predicate InScope(scope: Scope, id: string, runner: Runner) {
    match scope
    case Event => true
    case Race(raceId) => runner.raceId == raceId
    case Runners(ids) => id in ids
  }

  predicate PassInScope(scope: Scope, p: Pass) {
    match scope
    case Event => true
    case Race(raceId) => p.raceId == raceId
    case Runners(ids) => p.runnerId in ids
  }

  function KeptPasses(passes: seq<Pass>, scope: Scope): seq<Pass> {
    if passes == [] then []
    else
      var front, last := KeptPasses(passes[..|passes| - 1], scope), passes[|passes| - 1];
      if PassInScope(scope, last) then front else front + [last]
  }

  function Wipe(s: Results, scope: Scope): Results {
    Results(map id | id in s.runners :: if InScope(scope, id, s.runners[id]) then Reset(s.runners[id]) else s.runners[id],
            KeptPasses(s.passes, scope))
  }

  /** Some runner of the scope owns the read; for an event or a race every read is replayed. */
  predicate ReadInScope(runners: map<string, Runner>, scope: Scope, read: RawRead) {
    scope.Runners? ==> exists id :: id in scope.ids && id in runners && Matches(runners[id], read)
  }

  function ReadsFor(runners: map<string, Runner>, scope: Scope, log: seq<RawRead>): seq<RawRead> {
    if log == [] then []
    else
      var front, last := ReadsFor(runners, scope, log[..|log| - 1]), log[|log| - 1];
      if ReadInScope(runners, scope, last) then front + [last] else front
  }

  predicate ManualInScope(scope: Scope, m: Manual) {
    match scope
    case Event => true
    case Race(raceId) => m.raceId == raceId
    case Runners(ids) => m.runnerId in ids
  }

  function ManualFor(scope: Scope, manual: seq<Manual>): seq<Manual> {
    if manual == [] then []
    else
      var front, last := ManualFor(scope, manual[..|manual| - 1]), manual[|manual| - 1];
      if ManualInScope(scope, last) then front + [last] else front
  }

  function RaceOf(scope: Scope): Option<string> {
    if scope.Race? then Some(scope.id) else None
  }

  /** Wipe what was derived in the scope, replay its reads in order, put the judges' entries on top. */
  ghost function Recount(rules: Rules, course: Course, s: Results, scope: Scope): Result<Results, Fault> {
    var wiped := Wipe(s, scope);
    var replayed := ReplayAll(rules, course, wiped, ReadsFor(wiped.runners, scope, course.log), RaceOf(scope));
    if replayed.Err? then replayed
    else
      var judged := Reapply(rules, course, replayed.value.runners, ManualFor(scope, course.manual));
      if judged.Err? then Err(judged.error) else Ok(replayed.value.(runners := judged.value))
  }
}
