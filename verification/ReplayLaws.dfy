/** A recount of part of an event gives the same state as a recount of all of it. */
module ReplayLaws {
  import opened Wrappers
  import opened Replay

  // One runner at a time.

  function OneOf(s: Results, id: string): One
    requires id in s.runners
  {
    One(s.runners[id], PassesOf(s.passes, id))
  }

  /** Reads and runners identify each other: no read matches two runners. */
  ghost predicate Identified(runners: map<string, Runner>, log: seq<RawRead>) {
    forall r :: r in log ==> Unambiguous(runners, r)
  }

  /** A result belongs to the runner its read resolves to. */
  predicate Resolved(s: Results, read: RawRead) {
    forall i :: 0 <= i < |s.passes| && s.passes[i].readId == read.id && HasKey(read) ==>
      s.passes[i].runnerId in Owners(s.runners, read)
  }

  ghost predicate AllResolved(s: Results, log: seq<RawRead>) {
    forall r :: r in log ==> Resolved(s, r)
  }

  predicate DistinctReads(log: seq<RawRead>) {
    forall x, y :: x in log && y in log && x.id == y.id ==> x == y
  }

  /** Numbers, chips and races are fixed: replay never touches them. */
  predicate SameIdentities(a: map<string, Runner>, b: map<string, Runner>) {
    a.Keys == b.Keys && forall id :: id in a ==> a[id].number == b[id].number && a[id].epc == b[id].epc && a[id].raceId == b[id].raceId
  }

  lemma {:induction false} OwnersByIdentity(a: map<string, Runner>, b: map<string, Runner>, read: RawRead)
    requires SameIdentities(a, b)
    ensures Owners(a, read) == Owners(b, read) && (Unambiguous(a, read) <==> Unambiguous(b, read))
  {
    assert forall id :: id in a ==> (Matches(a[id], read) <==> Matches(b[id], read));
  }

  lemma {:induction false} PassesOfMore(passes: seq<Pass>, p: Pass, id: string)
    ensures PassesOf(passes + [p], id) == if p.runnerId == id then PassesOf(passes, id) + [p] else PassesOf(passes, id)
  {
    assert (passes + [p])[..|passes|] == passes;
  }

  lemma {:induction false} KnownToOwner(passes: seq<Pass>, id: string, readId: string)
    ensures Known(PassesOf(passes, id), readId) <==> exists i :: 0 <= i < |passes| && passes[i].readId == readId && passes[i].runnerId == id
  {
    if passes != [] {
      var front, last := passes[..|passes| - 1], passes[|passes| - 1];
      KnownToOwner(front, id, readId);
      assert passes == front + [last];
      PassesOfMore(front, last, id);
      var own := PassesOf(front, id);
      if last.runnerId == id {
        assert (own + [last])[|own|] == last;
        assert forall i :: 0 <= i < |own| ==> (own + [last])[i] == own[i];
      }
      assert forall i :: 0 <= i < |front| ==> front[i] == passes[i];
    }
  }

  /** A resolved read is known exactly when its owner's passes know it. */
  lemma {:induction false} KnownIsOwn(s: Results, read: RawRead, id: string)
    requires HasKey(read) && Resolved(s, read) && Unambiguous(s.runners, read) && id in Owners(s.runners, read)
    ensures Known(s.passes, read.id) <==> Known(PassesOf(s.passes, id), read.id)
  {
    KnownToOwner(s.passes, id, read.id);
    forall i | 0 <= i < |s.passes| && s.passes[i].readId == read.id ensures s.passes[i].runnerId == id {
      assert s.passes[i].runnerId in Owners(s.runners, read);
    }
  }

  lemma {:induction false} UnownedIsUnknown(s: Results, read: RawRead)
    requires HasKey(read) && Resolved(s, read) && Owners(s.runners, read) == {}
    ensures !Known(s.passes, read.id)
  {
  }

  lemma {:induction false} TimedKeepsIdentity(rules: Rules, course: Course, runner: Runner, checkpoint: Checkpoint, read: RawRead)
    ensures var r := Timed(rules, course, runner, checkpoint, read);
            r.number == runner.number && r.epc == runner.epc && r.raceId == runner.raceId
  {
  }

  /** Whether a replay filtered by race lets this runner's reads through. */
  predicate Admits(race: Option<string>, runner: Runner) {
    race.Some? ==> runner.raceId == race.value
  }

  /** One read advances its owner and leaves everyone else alone. */
  lemma {:induction false} ProcessIsLocal(rules: Rules, course: Course, s: Results, read: RawRead, race: Option<string>, id: string)
    requires Unambiguous(s.runners, read) && Resolved(s, read) && id in s.runners
    ensures Process(rules, course, s, read, race).Ok?
    ensures var t := Process(rules, course, s, read, race).value;
            SameIdentities(s.runners, t.runners) &&
            OneOf(t, id) == if id in Owners(s.runners, read) && Admits(race, s.runners[id])
                            then Advance(rules, course, id, OneOf(s, id), read) else OneOf(s, id)
  {
    var t := Process(rules, course, s, read, race).value;
    if HasKey(read) && Owners(s.runners, read) != {} {
      var owner :| owner in Owners(s.runners, read);
      assert forall x :: x in Owners(s.runners, read) ==> x == owner;
      KnownIsOwn(s, read, owner);
      if t != s {
        var p := OnePassMore(rules, course, s, read, race, owner);
        PassesOfMore(s.passes, p, id);
        TimedKeepsIdentity(rules, course, s.runners[owner], p.checkpoint, read);
      }
    }
  }

  lemma {:induction false} OnePassMore(rules: Rules, course: Course, s: Results, read: RawRead, race: Option<string>, owner: string) returns (p: Pass)
    requires Process(rules, course, s, read, race).Ok? && Process(rules, course, s, read, race).value != s
    requires owner in Owners(s.runners, read) && Unambiguous(s.runners, read)
    ensures Process(rules, course, s, read, race).value ==
            Results(s.runners[owner := Timed(rules, course, s.runners[owner], p.checkpoint, read)], s.passes + [p])
    ensures p.readId == read.id && p.runnerId == owner
  {
    var t := Process(rules, course, s, read, race).value;
    p := t.passes[|s.passes|];
    assert t.passes == s.passes + [p];
  }

  lemma {:induction false} ProcessKeepsResolved(rules: Rules, course: Course, s: Results, read: RawRead, race: Option<string>, log: seq<RawRead>)
    requires AllResolved(s, log) && read in log && DistinctReads(log) && Unambiguous(s.runners, read)
    requires Process(rules, course, s, read, race).Ok? && SameIdentities(s.runners, Process(rules, course, s, read, race).value.runners)
    ensures AllResolved(Process(rules, course, s, read, race).value, log)
  {
    var t := Process(rules, course, s, read, race).value;
    forall r | r in log ensures Resolved(t, r) {
      OwnersByIdentity(s.runners, t.runners, r);
      assert Resolved(s, r);
      if t != s {
        var p := t.passes[|s.passes|];
        assert t.passes == s.passes + [p];
        assert p.readId == read.id && p.runnerId in Owners(s.runners, read);
      }
    }
  }

  /** A runner's own reads, one after the other. */
  function AdvanceAll(rules: Rules, course: Course, runners: map<string, Runner>, id: string, o: One, log: seq<RawRead>): One {
    if log == [] then o
    else
      var front := AdvanceAll(rules, course, runners, id, o, log[..|log| - 1]);
      if id in Owners(runners, log[|log| - 1]) then Advance(rules, course, id, front, log[|log| - 1]) else front
  }

  /** The log a state was built from, as far as identities go. */
  ghost predicate Sound(s: Results, log: seq<RawRead>) {
    Identified(s.runners, log) && AllResolved(s, log) && DistinctReads(log)
  }

  lemma {:induction false} IdentitiesChain(a: map<string, Runner>, b: map<string, Runner>, c: map<string, Runner>)
    requires SameIdentities(a, b) && SameIdentities(b, c)
    ensures SameIdentities(a, c)
  {
  }

  lemma {:induction false} OneMoreRead(rules: Rules, course: Course, s: Results, t: Results, log: seq<RawRead>, read: RawRead,
      race: Option<string>, id: string)
    requires Sound(s, log) && read in log && id in s.runners && SameIdentities(s.runners, t.runners) && AllResolved(t, log)
    ensures Process(rules, course, t, read, race).Ok?
    ensures var p := Process(rules, course, t, read, race).value;
            SameIdentities(s.runners, p.runners) && AllResolved(p, log) &&
            OneOf(p, id) == if Admits(race, s.runners[id]) && id in Owners(s.runners, read)
                            then Advance(rules, course, id, OneOf(t, id), read) else OneOf(t, id)
  {
    OwnersByIdentity(s.runners, t.runners, read);
    assert Resolved(t, read) && Unambiguous(t.runners, read);
    ProcessIsLocal(rules, course, t, read, race, id);
    ProcessKeepsResolved(rules, course, t, read, race, log);
    IdentitiesChain(s.runners, t.runners, Process(rules, course, t, read, race).value.runners);
  }

  /** A replay of reads of the log is, for each runner, that runner's own reads in order. */
  lemma {:induction false} ReplayIsLocal(rules: Rules, course: Course, s: Results, log: seq<RawRead>, part: seq<RawRead>, race: Option<string>, id: string)
    requires Sound(s, log) && id in s.runners && forall r :: r in part ==> r in log
    ensures ReplayAll(rules, course, s, part, race).Ok?
    ensures var t := ReplayAll(rules, course, s, part, race).value;
            SameIdentities(s.runners, t.runners) && AllResolved(t, log) &&
            OneOf(t, id) == if Admits(race, s.runners[id]) then AdvanceAll(rules, course, s.runners, id, OneOf(s, id), part)
                            else OneOf(s, id)
  {
    if part != [] {
      var front, read := part[..|part| - 1], part[|part| - 1];
      ReplayIsLocal(rules, course, s, log, front, race, id);
      OneMoreRead(rules, course, s, ReplayAll(rules, course, s, front, race).value, log, read, race, id);
    }
  }

  // Reads of a scope.

  lemma {:induction false} ScopeReadsSuffice(rules: Rules, course: Course, runners: map<string, Runner>, scope: Scope, id: string, o: One, log: seq<RawRead>)
    requires id in runners && InScope(scope, id, runners[id])
    ensures AdvanceAll(rules, course, runners, id, o, ReadsFor(runners, scope, log)) == AdvanceAll(rules, course, runners, id, o, log)
  {
    if log != [] {
      var front, last := log[..|log| - 1], log[|log| - 1];
      ScopeReadsSuffice(rules, course, runners, scope, id, o, front);
      var mine := ReadsFor(runners, scope, front);
      assert (mine + [last])[..|mine|] == mine;
      assert id in Owners(runners, last) ==> ReadInScope(runners, scope, last);
    }
  }

  lemma {:induction false} ScopeReadsSpare(rules: Rules, course: Course, runners: map<string, Runner>, scope: Scope, id: string, o: One, log: seq<RawRead>)
    requires scope.Runners? && id in runners && id !in scope.ids && Identified(runners, log)
    ensures AdvanceAll(rules, course, runners, id, o, ReadsFor(runners, scope, log)) == o
  {
    if log != [] {
      var front, last := log[..|log| - 1], log[|log| - 1];
      assert forall r :: r in front ==> r in log;
      ScopeReadsSpare(rules, course, runners, scope, id, o, front);
      var mine := ReadsFor(runners, scope, front);
      assert (mine + [last])[..|mine|] == mine;
      assert last in log && Unambiguous(runners, last);
    }
  }

  lemma {:induction false} ReadsForIsPart(runners: map<string, Runner>, scope: Scope, log: seq<RawRead>)
    ensures forall r :: r in ReadsFor(runners, scope, log) ==> r in log
  {
    if log != [] {
      ReadsForIsPart(runners, scope, log[..|log| - 1]);
    }
  }

  // Judge entries, one runner at a time.

  /** The first entry for a runner. */
  function FirstEntry(manual: seq<Manual>, id: string): Option<int> {
    if manual == [] then None
    else
      var front := FirstEntry(manual[..|manual| - 1], id);
      if front.Some? then front
      else if manual[|manual| - 1].runnerId == id then Some(manual[|manual| - 1].timeMs) else None
  }

  lemma {:induction false} EnteredFirst(manual: seq<Manual>, id: string)
    ensures Entered(manual, id) <==> FirstEntry(manual, id).Some?
  {
    if manual != [] {
      var front := manual[..|manual| - 1];
      EnteredFirst(front, id);
      assert forall i :: 0 <= i < |front| ==> front[i] == manual[i];
      if Entered(front, id) {
        var i :| 0 <= i < |front| && front[i].runnerId == id;
        assert manual[i].runnerId == id;
      }
    }
  }

  predicate AllEnrolled(manual: seq<Manual>, runners: map<string, Runner>) {
    forall i :: 0 <= i < |manual| ==> manual[i].runnerId in runners
  }

  lemma {:induction false} JudgedKeepsIdentity(rules: Rules, course: Course, runner: Runner, timeMs: int)
    ensures var r := Judged(rules, course, runner, timeMs);
            r.number == runner.number && r.epc == runner.epc && r.raceId == runner.raceId
  {
  }

  lemma {:induction false} ReapplyIsLocal(rules: Rules, course: Course, runners: map<string, Runner>, manual: seq<Manual>)
    requires AllEnrolled(manual, runners)
    ensures Reapply(rules, course, runners, manual).Ok?
    ensures var after := Reapply(rules, course, runners, manual).value;
            SameIdentities(runners, after) && forall id :: id in runners ==>
              after[id] == if FirstEntry(manual, id).Some? then Judged(rules, course, runners[id], FirstEntry(manual, id).value) else runners[id]
  {
    if manual != [] {
      var front, last := manual[..|manual| - 1], manual[|manual| - 1];
      assert forall i :: 0 <= i < |front| ==> front[i] == manual[i];
      ReapplyIsLocal(rules, course, runners, front);
      EnteredFirst(front, last.runnerId);
      assert last.runnerId in runners;
      JudgedKeepsIdentity(rules, course, runners[last.runnerId], last.timeMs);
    }
  }

  // What a recount makes of one runner.

  function Settle(rules: Rules, course: Course, o: One, entry: Option<int>): One {
    if entry.Some? then o.(runner := Judged(rules, course, o.runner, entry.value)) else o
  }

  /** From a reset runner without passes through all their reads. */
  function FromReads(rules: Rules, course: Course, runners: map<string, Runner>, id: string): One
    requires id in runners
  {
    AdvanceAll(rules, course, runners, id, One(Reset(runners[id]), []), course.log)
  }

  /** And on to the judge's word. */
  function Recounted(rules: Rules, course: Course, runners: map<string, Runner>, id: string): One
    requires id in runners
  {
    Settle(rules, course, FromReads(rules, course, runners, id), FirstEntry(course.manual, id))
  }

  lemma {:induction false} ResetKeepsIdentity(runner: Runner)
    ensures var r := Reset(runner); r.number == runner.number && r.epc == runner.epc && r.raceId == runner.raceId
    ensures Reset(Reset(runner)) == Reset(runner)
  {
  }

  lemma {:induction false} AdvanceAllByIdentity(rules: Rules, course: Course, a: map<string, Runner>, b: map<string, Runner>, id: string, o: One, log: seq<RawRead>)
    requires SameIdentities(a, b)
    ensures AdvanceAll(rules, course, a, id, o, log) == AdvanceAll(rules, course, b, id, o, log)
  {
    if log != [] {
      AdvanceAllByIdentity(rules, course, a, b, id, o, log[..|log| - 1]);
      OwnersByIdentity(a, b, log[|log| - 1]);
    }
  }

  lemma {:induction false} NothingKept(passes: seq<Pass>, scope: Scope, id: string)
    requires forall i :: 0 <= i < |passes| && passes[i].runnerId == id ==> PassInScope(scope, passes[i])
    ensures PassesOf(KeptPasses(passes, scope), id) == []
  {
    if passes != [] {
      var front, last := passes[..|passes| - 1], passes[|passes| - 1];
      assert forall i :: 0 <= i < |front| ==> front[i] == passes[i];
      NothingKept(front, scope, id);
      if !PassInScope(scope, last) {
        PassesOfMore(KeptPasses(front, scope), last, id);
      }
    }
  }

  lemma {:induction false} AllKept(passes: seq<Pass>, scope: Scope, id: string)
    requires forall i :: 0 <= i < |passes| && passes[i].runnerId == id ==> !PassInScope(scope, passes[i])
    ensures PassesOf(KeptPasses(passes, scope), id) == PassesOf(passes, id)
  {
    if passes != [] {
      var front, last := passes[..|passes| - 1], passes[|passes| - 1];
      assert forall i :: 0 <= i < |front| ==> front[i] == passes[i];
      AllKept(front, scope, id);
      if !PassInScope(scope, last) {
        PassesOfMore(KeptPasses(front, scope), last, id);
      }
    }
  }

  /** Stored results and judge entries name known runners, as the database demands. */
  ghost predicate Current(course: Course, s: Results) {
    (forall i :: 0 <= i < |s.passes| ==> s.passes[i].runnerId in s.runners) && AllEnrolled(course.manual, s.runners)
  }

  /**
   The results a wipe removes are those of the runners it resets.  For an event and for a list of runners they always
   are; a wipe of a race goes by the race stored with each result, which an edit of the runner's race leaves behind.
   */
  ghost predicate WipesItsOwn(s: Results, scope: Scope) {
    scope.Race? ==> forall i :: 0 <= i < |s.passes| && s.passes[i].runnerId in s.runners ==>
      (s.passes[i].raceId == scope.id <==> s.runners[s.passes[i].runnerId].raceId == scope.id)
  }

  /** A wipe resets the runners of the scope, results included, and touches nobody else. */
  lemma {:induction false} WipeIsLocal(s: Results, scope: Scope, id: string)
    requires WipesItsOwn(s, scope) && id in s.runners
    ensures SameIdentities(s.runners, Wipe(s, scope).runners)
    ensures OneOf(Wipe(s, scope), id) ==
            if InScope(scope, id, s.runners[id]) then One(Reset(s.runners[id]), []) else OneOf(s, id)
  {
    WipeKeepsIdentities(s, scope);
    if InScope(scope, id, s.runners[id]) {
      NothingKept(s.passes, scope, id);
    } else {
      AllKept(s.passes, scope, id);
    }
  }

  lemma {:induction false} WipeKeepsIdentities(s: Results, scope: Scope)
    ensures SameIdentities(s.runners, Wipe(s, scope).runners)
  {
    forall x | x in s.runners
      ensures var r := Wipe(s, scope).runners[x];
              r.number == s.runners[x].number && r.epc == s.runners[x].epc && r.raceId == s.runners[x].raceId
    {
      ResetKeepsIdentity(s.runners[x]);
    }
  }

  lemma {:induction false} FirstOfMore(manual: seq<Manual>, last: Manual, id: string)
    ensures FirstEntry(manual + [last], id) ==
            if FirstEntry(manual, id).Some? then FirstEntry(manual, id) else if last.runnerId == id then Some(last.timeMs) else None
  {
    assert (manual + [last])[..|manual|] == manual;
  }

  /** Which of a runner's entries a recount sees: all or none, except by race, where it is those stored with that race. */
  lemma {:induction false} ScopeEntries(scope: Scope, manual: seq<Manual>, runners: map<string, Runner>, id: string)
    requires id in runners && !scope.Race?
    ensures FirstEntry(ManualFor(scope, manual), id) == if InScope(scope, id, runners[id]) then FirstEntry(manual, id) else None
  {
    if manual != [] {
      var front, last := manual[..|manual| - 1], manual[|manual| - 1];
      ScopeEntries(scope, front, runners, id);
      FirstOfMore(ManualFor(scope, front), last, id);
    }
  }

  lemma {:induction false} ScopeHasEntry(scope: Scope, manual: seq<Manual>, id: string)
    ensures FirstEntry(ManualFor(scope, manual), id).Some? ==> FirstEntry(manual, id).Some?
  {
    if manual != [] {
      var front, last := manual[..|manual| - 1], manual[|manual| - 1];
      ScopeHasEntry(scope, front, id);
      FirstOfMore(ManualFor(scope, front), last, id);
    }
  }

  lemma {:induction false} ByIdentity(a: map<string, Runner>, b: map<string, Runner>, passes: seq<Pass>, log: seq<RawRead>)
    requires SameIdentities(a, b)
    ensures Identified(a, log) ==> Identified(b, log)
    ensures AllResolved(Results(a, passes), log) ==> AllResolved(Results(b, passes), log)
  {
    forall r | r in log
      ensures Unambiguous(a, r) ==> Unambiguous(b, r)
      ensures Resolved(Results(a, passes), r) ==> Resolved(Results(b, passes), r)
    {
      OwnersByIdentity(a, b, r);
    }
  }

  /** A log a recount can run on: no read matches two runners and no two reads share a name. */
  ghost predicate Replayable(course: Course, s: Results) {
    Current(course, s) && Identified(s.runners, course.log) && DistinctReads(course.log)
  }

  lemma {:induction false} ScopeReplay(rules: Rules, course: Course, s: Results, scope: Scope, id: string)
    requires Replayable(course, s) && WipesItsOwn(s, scope) && AllResolved(Wipe(s, scope), course.log) && id in s.runners
    ensures var w := Wipe(s, scope); var replayed := ReplayAll(rules, course, w, ReadsFor(w.runners, scope, course.log), RaceOf(scope));
            replayed.Ok? && SameIdentities(s.runners, replayed.value.runners) &&
            AllResolved(replayed.value, ReadsFor(w.runners, scope, course.log)) &&
            OneOf(replayed.value, id) ==
            if InScope(scope, id, s.runners[id]) then AdvanceAll(rules, course, s.runners, id, One(Reset(s.runners[id]), []), course.log)
            else OneOf(s, id)
  {
    var w := Wipe(s, scope);
    var mine := ReadsFor(w.runners, scope, course.log);
    WipeIsLocal(s, scope, id);
    ByIdentity(s.runners, w.runners, w.passes, course.log);
    ReadsForIsPart(w.runners, scope, course.log);
    assert Sound(w, mine);
    ReplayIsLocal(rules, course, w, mine, mine, RaceOf(scope), id);
    var replayed := ReplayAll(rules, course, w, mine, RaceOf(scope)).value;
    IdentitiesChain(s.runners, w.runners, replayed.runners);
    if InScope(scope, id, s.runners[id]) {
      ScopeReadsSuffice(rules, course, w.runners, scope, id, OneOf(w, id), course.log);
      AdvanceAllByIdentity(rules, course, w.runners, s.runners, id, OneOf(w, id), course.log);
    } else if scope.Runners? {
      ScopeReadsSpare(rules, course, w.runners, scope, id, OneOf(w, id), course.log);
    }
  }

  /**
   A recount of a scope is, for each runner of it, a replay of that runner alone; the others keep what they had.  On
   top of either comes the first judge entry the scope sees.
   */
  lemma {:induction false} RecountIsLocal(rules: Rules, course: Course, s: Results, scope: Scope, id: string)
    requires Replayable(course, s) && WipesItsOwn(s, scope) && AllResolved(Wipe(s, scope), course.log) && id in s.runners
    ensures Recount(rules, course, s, scope).Ok?
    ensures var t := Recount(rules, course, s, scope).value;
            SameIdentities(s.runners, t.runners) &&
            OneOf(t, id) ==
            Settle(rules, course, if InScope(scope, id, s.runners[id]) then FromReads(rules, course, s.runners, id) else OneOf(s, id),
                   FirstEntry(ManualFor(scope, course.manual), id))
  {
    var w := Wipe(s, scope);
    var mine := ReadsFor(w.runners, scope, course.log);
    ScopeReplay(rules, course, s, scope, id);
    var replayed := ReplayAll(rules, course, w, mine, RaceOf(scope)).value;
    StillEnrolled(scope, course.manual, s.runners);
    ReapplyIsLocal(rules, course, replayed.runners, ManualFor(scope, course.manual));
    var after := Reapply(rules, course, replayed.runners, ManualFor(scope, course.manual)).value;
    IdentitiesChain(s.runners, replayed.runners, after);
    assert Recount(rules, course, s, scope) == Ok(replayed.(runners := after));
  }

  /** For an event or a list of runners: the whole recount of each of them, and nothing for anybody else. */
  lemma {:induction false} RunnersRecountAlone(rules: Rules, course: Course, s: Results, scope: Scope, id: string)
    requires Replayable(course, s) && !scope.Race? && AllResolved(Wipe(s, scope), course.log) && id in s.runners
    ensures Recount(rules, course, s, scope).Ok?
    ensures var t := Recount(rules, course, s, scope).value;
            SameIdentities(s.runners, t.runners) &&
            OneOf(t, id) == if InScope(scope, id, s.runners[id]) then Recounted(rules, course, s.runners, id) else OneOf(s, id)
  {
    RecountIsLocal(rules, course, s, scope, id);
    ScopeEntries(scope, course.manual, s.runners, id);
  }

  /** A whole recount, runner by runner. */
  lemma {:induction false} EventRecounts(rules: Rules, course: Course, s: Results, id: string)
    requires Replayable(course, s) && id in s.runners
    ensures Recount(rules, course, s, Event).Ok?
    ensures var t := Recount(rules, course, s, Event).value;
            SameIdentities(s.runners, t.runners) && OneOf(t, id) == Recounted(rules, course, s.runners, id)
  {
    EventWipesAll(s.passes);
    RunnersRecountAlone(rules, course, s, Event, id);
  }

  /** After a whole recount every result belongs to the runner its read resolves to. */
  lemma {:induction false} EventResolves(rules: Rules, course: Course, s: Results)
    requires Replayable(course, s)
    ensures Recount(rules, course, s, Event).Ok? && AllResolved(Recount(rules, course, s, Event).value, course.log)
  {
    EventWipesAll(s.passes);
    assert AllResolved(Wipe(s, Event), course.log);
    if s.runners == map[] {
      NobodyRecounts(rules, course, s, Event);
    } else {
      var id :| id in s.runners;
      EventResolvesWith(rules, course, s, id);
    }
  }

  lemma {:induction false} EventResolvesWith(rules: Rules, course: Course, s: Results, id: string)
    requires Replayable(course, s) && id in s.runners && AllResolved(Wipe(s, Event), course.log)
    ensures Recount(rules, course, s, Event).Ok? && AllResolved(Recount(rules, course, s, Event).value, course.log)
  {
    var w := Wipe(s, Event);
    ScopeReplay(rules, course, s, Event, id);
    EventRecounts(rules, course, s, id);
    AllReads(w.runners, course.log);
    var replayed := ReplayAll(rules, course, w, course.log, None).value;
    var t := Recount(rules, course, s, Event).value;
    OwnersSame(s.runners, replayed.runners, t.runners);
    ByIdentity(replayed.runners, t.runners, replayed.passes, course.log);
  }

  lemma {:induction false} OwnersSame(a: map<string, Runner>, b: map<string, Runner>, c: map<string, Runner>)
    requires SameIdentities(a, b) && SameIdentities(a, c)
    ensures SameIdentities(b, c)
  {
  }

  lemma {:induction false} EventWipesAll(passes: seq<Pass>)
    ensures KeptPasses(passes, Event) == []
  {
    if passes != [] {
      EventWipesAll(passes[..|passes| - 1]);
    }
  }

  lemma {:induction false} AllReads(runners: map<string, Runner>, log: seq<RawRead>)
    ensures ReadsFor(runners, Event, log) == log
  {
    if log != [] {
      AllReads(runners, log[..|log| - 1]);
    }
  }

  lemma {:induction false} NobodyRecounts(rules: Rules, course: Course, s: Results, scope: Scope)
    requires s.runners == map[] && AllEnrolled(course.manual, s.runners)
    ensures Recount(rules, course, s, scope) == Ok(Results(map[], KeptPasses(s.passes, scope)))
  {
    var w := Wipe(s, scope);
    NobodyReplays(rules, course, w, ReadsFor(w.runners, scope, course.log), RaceOf(scope));
    StillEnrolled(scope, course.manual, w.runners);
    ReapplyIsLocal(rules, course, w.runners, ManualFor(scope, course.manual));
    assert Reapply(rules, course, w.runners, ManualFor(scope, course.manual)).value == map[];
  }

  lemma {:induction false} StillEnrolled(scope: Scope, manual: seq<Manual>, runners: map<string, Runner>)
    requires AllEnrolled(manual, runners)
    ensures AllEnrolled(ManualFor(scope, manual), runners)
  {
    if manual != [] {
      var front := manual[..|manual| - 1];
      assert forall i :: 0 <= i < |front| ==> front[i] == manual[i];
      StillEnrolled(scope, front, runners);
    }
  }

  lemma {:induction false} NobodyReplays(rules: Rules, course: Course, s: Results, log: seq<RawRead>, race: Option<string>)
    requires s.runners == map[]
    ensures ReplayAll(rules, course, s, log, race) == Ok(s)
  {
    if log != [] {
      NobodyReplays(rules, course, s, log[..|log| - 1], race);
      assert Owners(s.runners, log[|log| - 1]) == {};
    }
  }

  // The main result.

  /** Everyone outside the scope is already as a whole recount leaves them. */
  ghost predicate SettledOutside(rules: Rules, course: Course, s: Results, scope: Scope) {
    Recount(rules, course, s, Event).Ok? &&
    forall id :: id in s.runners && !InScope(scope, id, s.runners[id]) ==>
      id in Recount(rules, course, s, Event).value.runners && OneOf(s, id) == OneOf(Recount(rules, course, s, Event).value, id)
  }

  /** The same runners with the same data, and the same results for each in the same order. */
  ghost predicate SameState(a: Results, b: Results) {
    a.runners == b.runners && forall id :: id in a.runners ==> PassesOf(a.passes, id) == PassesOf(b.passes, id)
  }

  lemma {:induction false} KeptIsOutside(passes: seq<Pass>, scope: Scope, p: Pass)
    requires p in KeptPasses(passes, scope)
    ensures p in passes && !PassInScope(scope, p)
  {
    if passes[|passes| - 1] != p {
      KeptIsOutside(passes[..|passes| - 1], scope, p);
    } else if PassInScope(scope, p) {
      KeptIsOutside(passes[..|passes| - 1], scope, p);
    }
  }

  lemma {:induction false} OwnPasses(passes: seq<Pass>, p: Pass)
    ensures p in PassesOf(passes, p.runnerId) <==> p in passes
  {
    if passes != [] {
      var front, last := passes[..|passes| - 1], passes[|passes| - 1];
      OwnPasses(front, p);
      assert p in passes <==> p in front || p == last;
    }
  }

  /** What a whole recount keeps of a runner's results was made in the race the runner is in. */
  lemma {:induction false} AdvanceStaysInRace(rules: Rules, course: Course, runners: map<string, Runner>, id: string, o: One, log: seq<RawRead>)
    requires forall p :: p in o.passes ==> p.raceId == o.runner.raceId
    ensures var a := AdvanceAll(rules, course, runners, id, o, log);
            a.runner.raceId == o.runner.raceId && forall p :: p in a.passes ==> p.raceId == o.runner.raceId
  {
    if log != [] {
      AdvanceStaysInRace(rules, course, runners, id, o, log[..|log| - 1]);
    }
  }

  lemma {:induction false} EventPassesInRace(rules: Rules, course: Course, s: Results, id: string)
    requires Replayable(course, s) && id in s.runners
    ensures Recount(rules, course, s, Event).Ok? && id in Recount(rules, course, s, Event).value.runners
    ensures forall p :: p in PassesOf(Recount(rules, course, s, Event).value.passes, id) ==> p.raceId == s.runners[id].raceId
  {
    EventRecounts(rules, course, s, id);
    ResetKeepsIdentity(s.runners[id]);
    AdvanceStaysInRace(rules, course, s.runners, id, One(Reset(s.runners[id]), []), course.log);
  }

  lemma {:induction false} SettledPassResolves(rules: Rules, course: Course, s: Results, p: Pass, r: RawRead)
    requires Replayable(course, s) && Recount(rules, course, s, Event).Ok? && p in s.passes && r in course.log
    requires var full := Recount(rules, course, s, Event).value;
             p.runnerId in s.runners && p.runnerId in full.runners && OneOf(s, p.runnerId) == OneOf(full, p.runnerId)
    requires p.readId == r.id && HasKey(r)
    ensures p.runnerId in Owners(s.runners, r)
  {
    EventResolves(rules, course, s);
    var full := Recount(rules, course, s, Event).value;
    OwnPasses(s.passes, p);
    OwnPasses(full.passes, p);
    var j :| 0 <= j < |full.passes| && full.passes[j] == p;
    assert Resolved(full, r);
    EventRecounts(rules, course, s, p.runnerId);
    OwnersByIdentity(s.runners, full.runners, r);
  }

  lemma {:induction false} SettledIsResolved(rules: Rules, course: Course, s: Results, scope: Scope)
    requires Replayable(course, s) && WipesItsOwn(s, scope) && SettledOutside(rules, course, s, scope)
    ensures AllResolved(Wipe(s, scope), course.log)
  {
    var w := Wipe(s, scope);
    WipeKeepsIdentities(s, scope);
    forall r | r in course.log ensures Resolved(w, r) {
      OwnersByIdentity(s.runners, w.runners, r);
      forall i | 0 <= i < |w.passes| && w.passes[i].readId == r.id && HasKey(r)
        ensures w.passes[i].runnerId in Owners(w.runners, r)
      {
        KeptIsSettled(s, scope, w.passes[i]);
        SettledPassResolves(rules, course, s, w.passes[i], r);
      }
    }
  }

  lemma {:induction false} KeptIsSettled(s: Results, scope: Scope, p: Pass)
    requires p in KeptPasses(s.passes, scope) && WipesItsOwn(s, scope)
    requires forall i :: 0 <= i < |s.passes| ==> s.passes[i].runnerId in s.runners
    ensures p in s.passes && p.runnerId in s.runners && !InScope(scope, p.runnerId, s.runners[p.runnerId])
  {
    KeptIsOutside(s.passes, scope, p);
    var k :| 0 <= k < |s.passes| && s.passes[k] == p;
  }

  /**
   If everyone outside a list of runners is already as a whole-event recount would leave them, recounting the list
   alone gives exactly the state of a recount of the whole event.  This is what a recount of some members relies on.
   */
  lemma {:induction false} ScopeRecountIsWhole(rules: Rules, course: Course, s: Results, scope: Scope)
    requires Replayable(course, s) && !scope.Race? && SettledOutside(rules, course, s, scope)
    ensures WholeAfter(rules, course, s, scope)
  {
    SettledIsResolved(rules, course, s, scope);
    forall id | id in s.runners ensures SameAfter(rules, course, s, scope, id) {
      RunnersRecountAlone(rules, course, s, scope, id);
      EventRecounts(rules, course, s, id);
    }
    AllSameIsWhole(rules, course, s, scope);
  }

  /** Recounting the scope goes through and leaves the state a whole recount leaves. */
  ghost predicate WholeAfter(rules: Rules, course: Course, s: Results, scope: Scope) {
    Recount(rules, course, s, scope).Ok? && Recount(rules, course, s, Event).Ok? &&
    SameState(Recount(rules, course, s, scope).value, Recount(rules, course, s, Event).value)
  }

  /** The same for one runner. */
  ghost predicate SameAfter(rules: Rules, course: Course, s: Results, scope: Scope, id: string) {
    Recount(rules, course, s, scope).Ok? && Recount(rules, course, s, Event).Ok? &&
    var part, full := Recount(rules, course, s, scope).value, Recount(rules, course, s, Event).value;
    SameIdentities(s.runners, part.runners) && SameIdentities(s.runners, full.runners) &&
    id in part.runners && id in full.runners && OneOf(part, id) == OneOf(full, id)
  }

  lemma {:induction false} AllSameIsWhole(rules: Rules, course: Course, s: Results, scope: Scope)
    requires Replayable(course, s) && forall id :: id in s.runners ==> SameAfter(rules, course, s, scope, id)
    ensures WholeAfter(rules, course, s, scope)
  {
    if s.runners == map[] {
      NobodyRecounts(rules, course, s, scope);
      NobodyRecounts(rules, course, s, Event);
    } else {
      var someone :| someone in s.runners;
      assert SameAfter(rules, course, s, scope, someone);
      SameRunners(Recount(rules, course, s, scope).value, Recount(rules, course, s, Event).value);
    }
  }

  // A recount of one race.

  /** Every stored result of a runner of the race was made in that race. */
  ghost predicate RaceResultsStay(s: Results, raceId: string) {
    forall i :: 0 <= i < |s.passes| && s.passes[i].runnerId in s.runners && s.runners[s.passes[i].runnerId].raceId == raceId ==>
      s.passes[i].raceId == raceId
  }

  /**
   A recount by race sees the judge entries stored with that race.  Either that shows it the runner's first entry, or it
   shows none and none is missed: the runner is of another race, or the reads say what the judge says.
   */
  ghost predicate EntryFits(rules: Rules, course: Course, s: Results, raceId: string, id: string)
    requires id in s.runners
  {
    var mine, all := FirstEntry(ManualFor(Race(raceId), course.manual), id), FirstEntry(course.manual, id);
    mine == all ||
    (mine.None? && (s.runners[id].raceId != raceId ||
                    Settle(rules, course, FromReads(rules, course, s.runners, id), all) == FromReads(rules, course, s.runners, id)))
  }

  lemma {:induction false} JudgedTwice(rules: Rules, course: Course, runner: Runner, timeMs: int)
    ensures Judged(rules, course, Judged(rules, course, runner, timeMs), timeMs) == Judged(rules, course, runner, timeMs)
  {
  }

  lemma {:induction false} SettledOne(rules: Rules, course: Course, s: Results, raceId: string, id: string)
    requires Replayable(course, s) && SettledOutside(rules, course, s, Race(raceId)) && id in s.runners
    requires s.runners[id].raceId != raceId
    ensures OneOf(s, id) == Recounted(rules, course, s.runners, id)
    ensures forall p :: p in s.passes && p.runnerId == id ==> p.raceId != raceId
  {
    EventRecounts(rules, course, s, id);
    EventPassesInRace(rules, course, s, id);
    forall p | p in s.passes && p.runnerId == id ensures p.raceId != raceId {
      OwnPasses(s.passes, p);
    }
  }

  lemma {:induction false} RaceWipesItsOwn(rules: Rules, course: Course, s: Results, raceId: string)
    requires Replayable(course, s) && SettledOutside(rules, course, s, Race(raceId)) && RaceResultsStay(s, raceId)
    ensures WipesItsOwn(s, Race(raceId))
  {
    forall i | 0 <= i < |s.passes| && s.passes[i].runnerId in s.runners
      ensures s.passes[i].raceId == raceId <==> s.runners[s.passes[i].runnerId].raceId == raceId
    {
      if s.runners[s.passes[i].runnerId].raceId != raceId {
        SettledOne(rules, course, s, raceId, s.passes[i].runnerId);
        assert s.passes[i] in s.passes;
      }
    }
  }

  /** One runner's share of the theorem, once the wipe removes the right results. */
  lemma {:induction false} RaceRunnerExactly(rules: Rules, course: Course, s: Results, raceId: string, id: string)
    requires Replayable(course, s) && SettledOutside(rules, course, s, Race(raceId)) && RaceResultsStay(s, raceId) && id in s.runners
    ensures SameAfter(rules, course, s, Race(raceId), id) <==> EntryFits(rules, course, s, raceId, id)
  {
    var scope := Race(raceId);
    RaceWipesItsOwn(rules, course, s, raceId);
    SettledIsResolved(rules, course, s, scope);
    RecountIsLocal(rules, course, s, scope, id);
    EventRecounts(rules, course, s, id);
    ScopeHasEntry(scope, course.manual, id);
    var mine, all := FirstEntry(ManualFor(scope, course.manual), id), FirstEntry(course.manual, id);
    if s.runners[id].raceId != raceId {
      SettledOne(rules, course, s, raceId, id);
      if mine.Some? && mine == all {
        JudgedTwice(rules, course, FromReads(rules, course, s.runners, id).runner, mine.value);
      }
    }
  }

  lemma {:induction false} KeptHas(passes: seq<Pass>, scope: Scope, p: Pass)
    requires p in passes && !PassInScope(scope, p)
    ensures p in KeptPasses(passes, scope)
  {
    if passes[|passes| - 1] != p {
      KeptHas(passes[..|passes| - 1], scope, p);
    }
  }

  lemma {:induction false} ReplayKeepsPass(rules: Rules, course: Course, s: Results, log: seq<RawRead>, race: Option<string>, p: Pass)
    requires p in s.passes && ReplayAll(rules, course, s, log, race).Ok?
    ensures p in ReplayAll(rules, course, s, log, race).value.passes
  {
    if log != [] {
      ReplayKeepsPass(rules, course, s, log[..|log| - 1], race, p);
    }
  }

  /** A result of a runner of the race that was made in another race outlives the recount, and a whole recount drops it. */
  lemma {:induction false} StaleResultDiffers(rules: Rules, course: Course, s: Results, raceId: string, p: Pass)
    requires Replayable(course, s) && p in s.passes && p.runnerId in s.runners && s.runners[p.runnerId].raceId == raceId != p.raceId
    ensures !WholeAfter(rules, course, s, Race(raceId))
  {
    var scope := Race(raceId);
    if WholeAfter(rules, course, s, scope) {
      var w := Wipe(s, scope);
      var part, full := Recount(rules, course, s, scope).value, Recount(rules, course, s, Event).value;
      KeptHas(s.passes, scope, p);
      ReplayKeepsPass(rules, course, w, ReadsFor(w.runners, scope, course.log), Some(raceId), p);
      OwnPasses(part.passes, p);
      EventPassesInRace(rules, course, s, p.runnerId);
      assert false;
    }
  }

  /**
   When a recount of one race gives the state of a whole recount, everyone outside the race being settled: exactly when
   the runners of the race have no result of another race, and the judge entries stored with the race are the right ones.
   */
  lemma {:induction false} RaceRecountIsWholeExactly(rules: Rules, course: Course, s: Results, raceId: string)
    requires Replayable(course, s) && SettledOutside(rules, course, s, Race(raceId))
    ensures WholeAfter(rules, course, s, Race(raceId)) <==>
            RaceResultsStay(s, raceId) && forall id :: id in s.runners ==> EntryFits(rules, course, s, raceId, id)
  {
    if RaceResultsStay(s, raceId) {
      forall id | id in s.runners
        ensures SameAfter(rules, course, s, Race(raceId), id) <==> EntryFits(rules, course, s, raceId, id)
      {
        RaceRunnerExactly(rules, course, s, raceId, id);
      }
      if WholeAfter(rules, course, s, Race(raceId)) {
        WholeIsSame(rules, course, s, Race(raceId));
      } else if forall id :: id in s.runners ==> SameAfter(rules, course, s, Race(raceId), id) {
        AllSameIsWhole(rules, course, s, Race(raceId));
      }
    } else {
      var i :| 0 <= i < |s.passes| && s.passes[i].runnerId in s.runners && s.runners[s.passes[i].runnerId].raceId == raceId &&
               s.passes[i].raceId != raceId;
      StaleResultDiffers(rules, course, s, raceId, s.passes[i]);
    }
  }

  lemma {:induction false} WholeIsSame(rules: Rules, course: Course, s: Results, scope: Scope)
    requires Replayable(course, s) && WholeAfter(rules, course, s, scope)
    ensures forall id :: id in s.runners ==> SameAfter(rules, course, s, scope, id)
  {
    forall id | id in s.runners ensures SameAfter(rules, course, s, scope, id) {
      EventRecounts(rules, course, s, id);
    }
  }

  /** The judge entries of a race are those of its runners, as long as no entry was left behind by an edit of the race. */
  ghost predicate EntriesStay(course: Course, s: Results, raceId: string) {
    forall m :: m in course.manual && m.runnerId in s.runners ==> (m.raceId == raceId <==> s.runners[m.runnerId].raceId == raceId)
  }

  lemma {:induction false} StayingEntries(manual: seq<Manual>, runners: map<string, Runner>, raceId: string, id: string)
    requires id in runners && forall m :: m in manual && m.runnerId == id ==> (m.raceId == raceId <==> runners[id].raceId == raceId)
    ensures FirstEntry(ManualFor(Race(raceId), manual), id) == if runners[id].raceId == raceId then FirstEntry(manual, id) else None
  {
    if manual != [] {
      var front, last := manual[..|manual| - 1], manual[|manual| - 1];
      assert forall m :: m in front ==> m in manual;
      StayingEntries(front, runners, raceId, id);
      FirstOfMore(ManualFor(Race(raceId), front), last, id);
    }
  }

  /** So where no result and no judge entry was left behind, recounting the race is recounting the event. */
  lemma {:induction false} RaceRecountIsWhole(rules: Rules, course: Course, s: Results, raceId: string)
    requires Replayable(course, s) && SettledOutside(rules, course, s, Race(raceId))
    requires RaceResultsStay(s, raceId) && EntriesStay(course, s, raceId)
    ensures WholeAfter(rules, course, s, Race(raceId))
  {
    forall id | id in s.runners ensures EntryFits(rules, course, s, raceId, id) {
      StayingEntries(course.manual, s.runners, raceId, id);
    }
    RaceRecountIsWholeExactly(rules, course, s, raceId);
  }

  lemma {:induction false} SameRunners(a: Results, b: Results)
    requires a.runners.Keys == b.runners.Keys && forall id :: id in a.runners ==> OneOf(a, id) == OneOf(b, id)
    ensures SameState(a, b)
  {
    forall id | id in a.runners ensures a.runners[id] == b.runners[id] && PassesOf(a.passes, id) == PassesOf(b.passes, id) {
      assert OneOf(a, id) == OneOf(b, id);
    }
    assert a.runners == b.runners;
  }

  // Recounting twice.

  /** A start nobody gave has no origin. */
  predicate NullStartsUnknown(s: Results) {
    forall id :: id in s.runners ==> NullStartUnknown(s.runners[id])
  }

  predicate NullStartUnknown(r: Runner) {
    r.start.None? ==> r.source.Unknown? && r.startRead.None?
  }

  lemma {:induction false} AdvanceResets(rules: Rules, course: Course, runners: map<string, Runner>, id: string, o: One, log: seq<RawRead>)
    requires NullStartUnknown(Reset(o.runner))
    ensures Reset(AdvanceAll(rules, course, runners, id, o, log).runner) == Reset(o.runner)
  {
    if log != [] {
      AdvanceResets(rules, course, runners, id, o, log[..|log| - 1]);
    }
  }

  lemma {:induction false} RecountedResets(rules: Rules, course: Course, runners: map<string, Runner>, id: string)
    requires id in runners && NullStartUnknown(runners[id])
    ensures Reset(Recounted(rules, course, runners, id).runner) == Reset(runners[id])
  {
    ResetKeepsIdentity(runners[id]);
    AdvanceResets(rules, course, runners, id, One(Reset(runners[id]), []), course.log);
  }

  /** Recounting an event twice is recounting it once, as long as missing starts carry no origin. */
  lemma {:induction false} RecountTwiceIsOnce(rules: Rules, course: Course, s: Results)
    requires Replayable(course, s) && NullStartsUnknown(s)
    ensures var once := Recount(rules, course, s, Event);
            once.Ok? && Recount(rules, course, once.value, Event) == once
  {
    EventResolves(rules, course, s);
    EventWipesAll(s.passes);
    var t := Recount(rules, course, s, Event).value;
    EventWipesAll(t.passes);
    if s.runners == map[] {
      NobodyRecounts(rules, course, s, Event);
      assert t.runners == map[];
      assert Wipe(t, Event) == Wipe(s, Event);
    } else {
      forall id | id in s.runners
        ensures t.runners.Keys == s.runners.Keys && Reset(t.runners[id]) == Reset(s.runners[id])
      {
        EventRecounts(rules, course, s, id);
        RecountedResets(rules, course, s.runners, id);
      }
      var someone :| someone in s.runners;
      assert t.runners.Keys == s.runners.Keys;
      assert Wipe(t, Event).runners == Wipe(s, Event).runners;
    }
  }

  /** A whole recount looks at no earlier result. */
  lemma {:induction false} EventForgets(rules: Rules, course: Course, s: Results)
    ensures Recount(rules, course, s, Event) == Recount(rules, course, Results(s.runners, []), Event)
  {
    EventWipesAll(s.passes);
    assert Wipe(s, Event) == Wipe(Results(s.runners, []), Event);
  }

  /** One runner, one read of theirs, one checkpoint that takes it. */
  lemma {:induction false} RecountsOne(rules: Rules, course: Course, runner: Runner, read: RawRead, gate: Checkpoint)
    requires course.log == [read] && course.manual == [] && runner.number == Some(7) && read.number == 7 && read.timeMs > 0
    requires !read.disabled && course.checkpoints(runner.raceId, read.board) != []
    requires Chosen(rules, course, Reset(runner), [], read) == Some(gate)
    ensures var t := Recount(rules, course, Results(map["a" := runner], []), Event);
            Replayable(course, Results(map["a" := runner], [])) && t.Ok? && t.value.runners.Keys == {"a"} &&
            t.value.runners["a"] == Timed(rules, course, Reset(runner), gate, read)
  {
    var s := Results(map["a" := runner], []);
    EventResolves(rules, course, s);
    EventWipesAll(s.passes);
    EventRecounts(rules, course, s, "a");
    var o := One(Reset(runner), []);
    assert course.log[..0] == [];
    assert AdvanceAll(rules, course, s.runners, "a", o, []) == o;
    assert "a" in Owners(s.runners, read);
    assert AdvanceAll(rules, course, s.runners, "a", o, course.log) == Advance(rules, course, "a", o, read);
    assert OneOf(Recount(rules, course, s, Event).value, "a") == Recounted(rules, course, s.runners, "a");
  }

  /** Takes the race clock for a start of unknown standing, and only then. */
  function StartOnce(m: Runner, t: int): TimePlan {
    TimePlan(if m.source.Given? then IfNull(t) else Keep, None)
  }

  function OneGate(): (Rules, Course) {
    var gate := Checkpoint("c", 1, 1);
    (Rules(_ => Last(None, None), (_, _, _, _, _, _) => Some(gate), (m, _, _, t, _) => StartOnce(m, t), (_, _) => ""),
     Course([RawRead("r", 7, 10, "", "b", false)], (_, _) => [gate], _ => None, []))
  }

  function NullStart(source: Source): Runner {
    Runner(Some(7), "", "race", None, source, None, None, None)
  }

  /** Timed by the machine where the desk had given an origin but no time. */
  function TimedStart(): Runner {
    NullStart(Given("desk")).(start := Some(10), source := RaceDefault)
  }

  /** The first recount times the runner, and the machine becomes the origin of the start. */
  lemma {:induction false} TimedOnce()
    ensures var rules, course := OneGate().0, OneGate().1; var s := Results(map["a" := NullStart(Given("desk"))], []);
            var once := Recount(rules, course, s, Event);
            Replayable(course, s) && once.Ok? && once.value.runners == map["a" := TimedStart()]
  {
    var rules, course := OneGate().0, OneGate().1;
    RecountsOne(rules, course, NullStart(Given("desk")), course.log[0], Checkpoint("c", 1, 1));
    var once := Recount(rules, course, Results(map["a" := NullStart(Given("desk"))], []), Event).value;
    assert once.runners["a"] == TimedStart();
  }

  /** The second one finds a start of the machine's own, drops it and takes no new one. */
  lemma {:induction false} TimedAgain(t: Results)
    requires t.runners == map["a" := TimedStart()]
    ensures var again := Recount(OneGate().0, OneGate().1, t, Event);
            again.Ok? && again.value.runners.Keys == {"a"} && again.value.runners["a"].start.None?
  {
    var rules, course := OneGate().0, OneGate().1;
    assert Reset(TimedStart()) == NullStart(Unknown);
    RecountsOne(rules, course, TimedStart(), course.log[0], Checkpoint("c", 1, 1));
    EventForgets(rules, course, t);
  }

  /** With an origin on a missing start, and rules that look at it, the second recount differs from the first. */
  lemma {:induction false} NullStartMatters()
    ensures var rules, course := OneGate().0, OneGate().1; var s := Results(map["a" := NullStart(Given("desk"))], []);
            var once := Recount(rules, course, s, Event);
            Replayable(course, s) && once.Ok? && Recount(rules, course, once.value, Event) != once
  {
    TimedOnce();
    TimedAgain(Recount(OneGate().0, OneGate().1, Results(map["a" := NullStart(Given("desk"))], []), Event).value);
  }

  /** One checkpoint that finishes whoever is read there. */
  function OneFinish(): (Rules, Course) {
    var gate := Checkpoint("c", 1, 1);
    (Rules(_ => Last(None, None), (_, _, _, _, _, _) => Some(gate), (_, _, _, t, _) => TimePlan(Keep, Some(Finish(t, None))), (_, _) => ""),
     Course([RawRead("r", 7, 10, "", "b", false)], (_, _) => [gate], _ => None, []))
  }

  /** A runner who was moved to race B after the read was counted in race A. */
  function MovedRunner(): Results {
    Results(map["a" := Runner(Some(7), "", "B", None, Unknown, None, None, None)],
            [Pass("r", "a", "A", Checkpoint("c", 1, 1), 10, Some(7))])
  }

  predicate Finishes(r: Result<Results, Fault>, id: string, finish: Option<int>) {
    r.Ok? && id in r.value.runners && r.value.runners[id].finish == finish
  }

  /**
   An edit of a runner's race leaves the result behind in the old race; a recount of the new race then loses the finish
   that a whole recount finds, because the read still counts as known.
   */
  lemma {:induction false} RaceEditHidesRead()
    ensures var rules, course := OneFinish().0, OneFinish().1; var s := MovedRunner();
            Replayable(course, s) && SettledOutside(rules, course, s, Race("B")) && !RaceResultsStay(s, "B") &&
            Finishes(Recount(rules, course, s, Event), "a", Some(10)) && Finishes(Recount(rules, course, s, Race("B")), "a", None)
  {
    WholeFindsFinish();
    RaceLosesFinish();
    assert MovedRunner().passes[0].raceId == "A" && MovedRunner().runners[MovedRunner().passes[0].runnerId].raceId == "B";
  }

  lemma {:induction false} WholeFindsFinish()
    ensures Replayable(OneFinish().1, MovedRunner())
    ensures Finishes(Recount(OneFinish().0, OneFinish().1, MovedRunner(), Event), "a", Some(10))
  {
    var rules, course := OneFinish().0, OneFinish().1;
    RecountsOne(rules, course, MovedRunner().runners["a"], course.log[0], Checkpoint("c", 1, 1));
    EventForgets(rules, course, MovedRunner());
  }

  lemma {:induction false} RaceLosesFinish()
    ensures Finishes(Recount(OneFinish().0, OneFinish().1, MovedRunner(), Race("B")), "a", None)
  {
    KnownReadIsSkipped(OneFinish().0, OneFinish().1, MovedRunner());
  }

  lemma {:induction false} KnownReadIsSkipped(rules: Rules, course: Course, s: Results)
    requires course.log == OneFinish().1.log && course.manual == [] && s == MovedRunner()
    ensures Recount(rules, course, s, Race("B")) == Ok(Wipe(s, Race("B")))
  {
    var w := Wipe(s, Race("B"));
    var log := course.log;
    assert log[..0] == [] && ReadsFor(w.runners, Race("B"), log[..0]) == [];
    assert ReadsFor(w.runners, Race("B"), log) == [log[0]];
    assert s.passes[..0] == [] && KeptPasses(s.passes, Race("B")) == s.passes;
    assert w.passes[0].readId == log[0].id && Known(w.passes, log[0].id);
    assert [log[0]][..0] == [];
    assert ReplayAll(rules, course, w, [log[0]], Some("B")) == Ok(w);
  }
}
