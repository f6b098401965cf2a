/** Thirty seconds for one worker: what a claim takes, how long it lasts, and what ends it. */
module EdgeLeases {
  import opened Wrappers
  import opened EdgeRelay
  import opened EdgeRelayLaws

  /** A row that has not been acknowledged, whose next attempt is due and whose lease has run out. */
  predicate Free(row: Row, now: int) {
    (row.state.Pending? || row.state.Sent? || row.state.Rejected?) && row.nextAttempt <= now && row.leaseUntil <= now
  }

  /** A worker has this row for half a minute from `at`. */
  predicate Leased(row: Row, c: Claim, at: int) {
    row.state.Sent? && row.token == Some(c.token) && row.leaseUntil == at + 30000 && row.nextAttempt <= at &&
    row.endpoint == c.endpoint && row.attempts == c.attempts && row.observation == c.observation && row.payload == c.payload
  }

  predicate OthersStand(before: seq<Row>, after: seq<Row>, i: nat) {
    |after| == |before| && forall j :: 0 <= j < |before| && j != i ==> after[j] == before[j]
  }

  /** A claim is given exactly when the worker's configuration holds and some row is free, and is the first such row's. */
  lemma {:induction false} ClaimTakesTheFirst(o: Outbox, config: Config, now: int, token: string)
    ensures var r := TakeClaim(o, config, now, token);
            r.claim.Some? <==> o.config == config && config.enabled && exists i :: 0 <= i < |o.rows| && Free(o.rows[i], now)
    ensures var r := TakeClaim(o, config, now, token);
            if r.claim.None? then r.outbox == o
            else
              var c := r.claim.value;
              c.token == token && c.endpoint == config.endpoint && c.revision == config.revision && r.outbox.config == config &&
              c.sequence < |o.rows| && Free(o.rows[c.sequence], now) && (forall j :: 0 <= j < c.sequence ==> !Free(o.rows[j], now)) &&
              c.attempts == o.rows[c.sequence].attempts + 1 && c.observation == o.rows[c.sequence].observation &&
              c.payload == o.rows[c.sequence].payload &&
              OthersStand(o.rows, r.outbox.rows, c.sequence) && Leased(r.outbox.rows[c.sequence], c, now) &&
              r.outbox.rows[c.sequence].rejection == o.rows[c.sequence].rejection
  {
    forall i | 0 <= i < |o.rows|
      ensures Free(o.rows[i], now) <==> Claimable(o.rows[i], now)
    {
    }
  }

  /** A finish counts exactly for the claim the row is held under, in the configuration it was given in. */
  lemma {:induction false} FinishEndsTheClaim(o: Outbox, c: Claim, failure: Option<string>, retryAt: int)
    ensures var r := Finish(o, c, failure, retryAt);
            r.Ok? <==>
              o.config.enabled && o.config.revision == c.revision && o.config.endpoint == c.endpoint &&
              c.sequence < |o.rows| && o.rows[c.sequence].state.Sent? && o.rows[c.sequence].token == Some(c.token) &&
              o.rows[c.sequence].observation == c.observation && o.rows[c.sequence].payload == c.payload
    ensures var r := Finish(o, c, failure, retryAt);
            r.Ok? ==>
              r.value.config == o.config && OthersStand(o.rows, r.value.rows, c.sequence) &&
              var was, now := o.rows[c.sequence], r.value.rows[c.sequence];
              now.observation == was.observation && now.payload == was.payload && now.attempts == was.attempts &&
              now.endpoint == was.endpoint && now.token.None? && now.leaseUntil == 0 && now.rejection == failure &&
              if failure.None? then now.state.Acked? && now.nextAttempt == 0 else now.state.Pending? && now.nextAttempt == retryAt
  {
  }

  predicate Empty(rows: seq<Row>) {
    forall i :: 0 <= i < |rows| ==> rows[i].state.Acked?
  }

  lemma {:induction false} NoneOutstanding(rows: seq<Row>)
    ensures CountState(rows, false) == 0 <==> Empty(rows)
  {
    if rows != [] {
      var front := rows[..|rows| - 1];
      NoneOutstanding(front);
      assert forall i :: 0 <= i < |front| ==> front[i] == rows[i];
      if Empty(front) && rows[|rows| - 1].state.Acked? {
        assert Empty(rows);
      }
    }
  }

  /**
   A configuration takes effect exactly when it was made on the one in force, names a destination if it is switched on,
   and does not move a queue with outstanding rows elsewhere unasked; what differs is put in force under the next revision.
   */
  lemma {:induction false} ConfigureExactly(o: Outbox, requested: Config, confirm: bool)
    ensures var r := Configure(o, requested, confirm);
            r.Ok? <==>
              0 <= requested.revision == o.config.revision && (requested.enabled ==> requested.endpoint != "") &&
              ((requested.endpoint == o.config.endpoint && requested.tlsBundle == o.config.tlsBundle) || Empty(o.rows) || confirm)
    ensures var r := Configure(o, requested, confirm);
            r.Ok? ==>
              r.value.rows == o.rows && r.value.config.endpoint == requested.endpoint &&
              r.value.config.enabled == requested.enabled && r.value.config.tlsBundle == requested.tlsBundle &&
              r.value.config.revision == o.config.revision + if requested == o.config then 0 else 1
  {
    NoneOutstanding(o.rows);
  }

  // Runs.

  /** The step that gives this claim. */
  predicate Gives(w: World, step: Step, c: Claim) {
    step.Take? && TakeClaim(w.outbox, step.config, step.now, step.token).claim == Some(c)
  }

  /** The step that gives some claim on this row. */
  predicate GivesRow(w: World, step: Step, i: nat) {
    step.Take? && TakeClaim(w.outbox, step.config, step.now, step.token).claim.Some? &&
    TakeClaim(w.outbox, step.config, step.now, step.token).claim.value.sequence == i
  }

  /** The step that ends this claim. */
  predicate Ends(w: World, step: Step, c: Claim) {
    step.End? && step.claim == c && Finish(w.outbox, c, step.failure, step.retryAt).Ok?
  }

  predicate HoldsLease(w: World, c: Claim, at: int) {
    c in w.issued && c.sequence < |w.outbox.rows| && Leased(w.outbox.rows[c.sequence], c, at)
  }

  lemma {:induction false} GivenIsLeased(w: World, step: Step, c: Claim)
    requires Gives(w, step, c)
    ensures HoldsLease(Next(w, step), c, step.now)
  {
    ClaimTakesTheFirst(w.outbox, step.config, step.now, step.token);
  }

  /** Nothing but its own end and a later claim of the row touches a lease. */
  lemma {:induction false} LeaseStands(w: World, step: Step, c: Claim, at: int)
    requires Sound(w) && Possible(w, step) && HoldsLease(w, c, at)
    requires Leaves(w, step, c)
    ensures HoldsLease(Next(w, step), c, at)
  {
    if step.Take? {
      ClaimTakesTheFirst(w.outbox, step.config, step.now, step.token);
    } else if step.End? {
      FinishEndsTheClaim(w.outbox, step.claim, step.failure, step.retryAt);
    }
  }

  predicate Leaves(w: World, step: Step, c: Claim) {
    !Ends(w, step, c) && !GivesRow(w, step, c.sequence)
  }

  /** From step i on, up to state j, the claim is not ended and its row not given again. */
  ghost predicate Undisturbed(states: seq<World>, steps: seq<Step>, i: nat, j: nat, c: Claim) {
    |states| == |steps| + 1 && i < j < |states| && Gives(states[i], steps[i], c) &&
    forall k :: i < k < j ==> Leaves(states[k], steps[k], c)
  }

  lemma {:induction false} LeaseMoves(w: World, step: Step, v: World, c: Claim, at: int)
    requires Sound(w) && Moved(w, step, v)
    requires (Gives(w, step, c) && at == step.now) || (HoldsLease(w, c, at) && Leaves(w, step, c))
    ensures HoldsLease(v, c, at)
  {
    if Gives(w, step, c) && at == step.now {
      GivenIsLeased(w, step, c);
    } else {
      LeaseStands(w, step, c, at);
    }
  }

  lemma {:induction false} LeaseLasts(states: seq<World>, steps: seq<Step>, i: nat, j: nat, c: Claim)
    requires IsRun(states, steps) && Sound(states[0]) && Undisturbed(states, steps, i, j, c)
    ensures HoldsLease(states[j], c, steps[i].now)
    decreases j
  {
    var n := j - 1;
    RunIsSafe(states, steps, 0, n);
    MovesAt(states, steps, n);
    if i < n {
      LeavesAt(states, steps, i, j, n, c);
      LeaseLasts(states, steps, i, n, c);
    }
    LeaseMoves(states[n], steps[n], states[j], c, steps[i].now);
  }

  lemma {:induction false} MovesAt(states: seq<World>, steps: seq<Step>, n: nat)
    requires IsRun(states, steps) && n < |steps|
    ensures Moved(states[n], steps[n], states[n + 1])
  {
  }

  lemma {:induction false} LeavesAt(states: seq<World>, steps: seq<Step>, i: nat, j: nat, n: nat, c: Claim)
    requires Undisturbed(states, steps, i, j, c) && i < n < j
    ensures Leaves(states[n], steps[n], c) && Undisturbed(states, steps, i, n, c)
  {
  }

  /** Until its claim ends or the row is given again, a claimed row is free again exactly half a minute after the claim. */
  lemma {:induction false} LeaseEndsExactly(states: seq<World>, steps: seq<Step>, i: nat, j: nat, c: Claim, at: int)
    requires IsRun(states, steps) && Sound(states[0]) && Undisturbed(states, steps, i, j, c)
    ensures c.sequence < |states[j].outbox.rows|
    ensures Free(states[j].outbox.rows[c.sequence], at) <==> steps[i].now + 30000 <= at
  {
    LeaseLasts(states, steps, i, j, c);
  }

  /** The next worker to get the row comes no sooner than half a minute after the claim, unless the claim was ended. */
  lemma {:induction false} NextClaimIsLater(states: seq<World>, steps: seq<Step>, i: nat, j: nat, c: Claim)
    requires IsRun(states, steps) && Sound(states[0]) && j < |steps| && Undisturbed(states, steps, i, j, c)
    requires GivesRow(states[j], steps[j], c.sequence)
    ensures steps[i].now + 30000 <= steps[j].now
  {
    ClaimTakesTheFirst(states[j].outbox, steps[j].config, steps[j].now, steps[j].token);
    LeaseEndsExactly(states, steps, i, j, c, steps[j].now);
  }

  /** The workers' clock does not run backwards. */
  predicate ClockRuns(steps: seq<Step>) {
    forall j, k :: 0 <= j < k < |steps| && steps[j].Take? && steps[k].Take? ==> steps[j].now <= steps[k].now
  }

  /** With a clock that does not run backwards, nobody gets a claimed row within half a minute while its claim stands. */
  lemma {:induction false} LeaseExcludesForItsTime(states: seq<World>, steps: seq<Step>, i: nat, j: nat, c: Claim)
    requires IsRun(states, steps) && Sound(states[0]) && i < j < |steps| && ClockRuns(steps)
    requires Gives(states[i], steps[i], c) && GivesRow(states[j], steps[j], c.sequence)
    requires forall k :: i < k < j ==> !Ends(states[k], steps[k], c)
    ensures steps[i].now + 30000 <= steps[j].now
  {
    var k := FirstGiven(states, steps, i, j, c);
    NextClaimIsLater(states, steps, i, k, c);
  }

  lemma {:induction false} FirstGiven(states: seq<World>, steps: seq<Step>, i: nat, j: nat, c: Claim) returns (k: nat)
    requires |states| == |steps| + 1 && i < j < |steps| && Gives(states[i], steps[i], c) && GivesRow(states[j], steps[j], c.sequence)
    requires forall k :: i < k < j ==> !Ends(states[k], steps[k], c)
    ensures i < k <= j && GivesRow(states[k], steps[k], c.sequence) && Undisturbed(states, steps, i, k, c)
  {
    k := i + 1;
    while k < j && !GivesRow(states[k], steps[k], c.sequence)
      invariant i < k <= j && forall m :: i < m < k ==> !GivesRow(states[m], steps[m], c.sequence)
    {
      k := k + 1;
    }
  }
}
