/** Safety of the relay's leases over every interleaving of workers, expiries and reconfigurations. */
module EdgeRelayLaws {
  import opened Wrappers
  import opened EdgeRelay

  lemma {:induction false} ArriveIsSound(w: World, observation: string, payload: string)
    requires Sound(w)
    ensures Sound(Next(w, Arrive(observation, payload)))
  {
    var v := Next(w, Arrive(observation, payload));
    forall c | c in v.issued ensures ClaimFits(v, c) {
      assert ClaimFits(w, c);
    }
    forall i | 0 <= i < |v.outbox.rows| ensures TokenFits(v, i) && AckFits(v, i) {
      if i < |w.outbox.rows| {
        assert TokenFits(w, i) && AckFits(w, i);
      }
    }
  }

  lemma {:induction false} ReconfigureIsSound(w: World, requested: Config, confirm: bool)
    requires Sound(w)
    ensures Sound(Next(w, Reconfigure(requested, confirm)))
  {
    var v := Next(w, Reconfigure(requested, confirm));
    forall c | c in v.issued ensures ClaimFits(v, c) {
      assert ClaimFits(w, c);
    }
    forall i | 0 <= i < |v.outbox.rows| ensures TokenFits(v, i) && AckFits(v, i) {
      assert TokenFits(w, i) && AckFits(w, i);
    }
  }

  lemma {:induction false} TakeIsSound(w: World, config: Config, now: int, token: string)
    requires Sound(w) && FreshToken(w, token)
    ensures Sound(Next(w, Take(config, now, token)))
  {
    var r := TakeClaim(w.outbox, config, now, token);
    var v := Next(w, Take(config, now, token));
    if r.claim.Some? {
      var c0 := r.claim.value;
      forall c | c in v.issued ensures ClaimFits(v, c) {
        if c != c0 { assert ClaimFits(w, c); }
      }
      forall i | 0 <= i < |v.outbox.rows| ensures TokenFits(v, i) && AckFits(v, i) {
        assert TokenFits(w, i) && AckFits(w, i);
        if i == c0.sequence {
          assert c0 in v.issued && c0.endpoint == v.outbox.rows[i].endpoint;
        } else {
          assert v.outbox.rows[i] == w.outbox.rows[i];
        }
      }
    } else {
      assert v.issued == w.issued;
      assert v == w;
    }
  }

  lemma {:induction false} DeliverIsSound(w: World, c: Claim)
    requires Sound(w) && c in w.issued
    ensures Sound(Next(w, Deliver(c)))
  {
    var v := Next(w, Deliver(c));
    forall d | d in v.issued ensures ClaimFits(v, d) {
      assert ClaimFits(w, d);
    }
    forall i | 0 <= i < |v.outbox.rows| ensures TokenFits(v, i) && AckFits(v, i) {
      assert TokenFits(w, i) && AckFits(w, i);
      if v.outbox.rows[i].state.Acked? {
        var d :| d in w.delivered && d.sequence == i && d.payload == w.outbox.rows[i].payload && d.endpoint == w.outbox.rows[i].endpoint;
        assert d in v.delivered;
      }
    }
  }

  /** The claim a finish succeeds with is the one whose token the row holds, sent to the endpoint configured now. */
  lemma {:induction false} FinishIsByHolder(w: World, c: Claim, failure: Option<string>, retryAt: int)
    requires Sound(w) && c in w.issued && Finish(w.outbox, c, failure, retryAt).Ok?
    ensures c.sequence < |w.outbox.rows| && w.outbox.rows[c.sequence].token == Some(c.token)
    ensures c.endpoint == w.outbox.rows[c.sequence].endpoint && c.endpoint == w.outbox.config.endpoint
    ensures c.revision == w.outbox.config.revision
  {
    assert TokenFits(w, c.sequence);
    var d :| d in w.issued && Some(d.token) == w.outbox.rows[c.sequence].token && d.sequence == c.sequence &&
             d.endpoint == w.outbox.rows[c.sequence].endpoint;
    assert d == c;
  }

  lemma {:induction false} EndIsSound(w: World, c: Claim, failure: Option<string>, retryAt: int)
    requires Sound(w) && Possible(w, End(c, failure, retryAt))
    ensures Sound(Next(w, End(c, failure, retryAt)))
  {
    var v := Next(w, End(c, failure, retryAt));
    if Finish(w.outbox, c, failure, retryAt).Ok? {
      FinishIsByHolder(w, c, failure, retryAt);
      forall d | d in v.issued ensures ClaimFits(v, d) {
        assert ClaimFits(w, d);
      }
      forall i | 0 <= i < |v.outbox.rows| ensures TokenFits(v, i) && AckFits(v, i) {
        assert TokenFits(w, i) && AckFits(w, i);
        if i == c.sequence {
          assert v.outbox.rows[i].state.Acked? ==> c in v.delivered;
        } else {
          assert v.outbox.rows[i] == w.outbox.rows[i];
          if v.outbox.rows[i].state.Acked? {
            var d :| d in w.delivered && d.sequence == i && d.payload == w.outbox.rows[i].payload && d.endpoint == w.outbox.rows[i].endpoint;
            assert d in v.delivered;
          }
        }
      }
    }
  }

  lemma {:induction false} StepIsSound(w: World, step: Step)
    requires Sound(w) && Possible(w, step)
    ensures Sound(Next(w, step))
  {
    match step
    case Arrive(observation, payload) => ArriveIsSound(w, observation, payload);
    case Reconfigure(requested, confirm) => ReconfigureIsSound(w, requested, confirm);
    case Take(config, now, token) => TakeIsSound(w, config, now, token);
    case Deliver(c) => DeliverIsSound(w, c);
    case End(c, failure, retryAt) => EndIsSound(w, c, failure, retryAt);
  }

  // What no step undoes.

  /** Rows keep their packet, an acknowledged row stays exactly as it is, claims and revisions only grow. */
  predicate Onward(w: World, v: World) {
    |w.outbox.rows| <= |v.outbox.rows| && w.outbox.config.revision <= v.outbox.config.revision && w.issued <= v.issued &&
    w.delivered <= v.delivered &&
    forall i :: 0 <= i < |w.outbox.rows| ==>
      v.outbox.rows[i].observation == w.outbox.rows[i].observation && v.outbox.rows[i].payload == w.outbox.rows[i].payload &&
      (w.outbox.rows[i].state.Acked? ==> v.outbox.rows[i] == w.outbox.rows[i])
  }

  /** This claim can no longer end: its row holds another token or none, and its token was drawn already. */
  predicate Spent(w: World, c: Claim) {
    c in w.issued && c.sequence < |w.outbox.rows| && w.outbox.rows[c.sequence].token != Some(c.token)
  }

  lemma {:induction false} StepIsOnward(w: World, step: Step)
    requires Sound(w) && Possible(w, step)
    ensures Onward(w, Next(w, step))
  {
  }

  lemma {:induction false} SpentStaysSpent(w: World, step: Step, c: Claim)
    requires Sound(w) && Possible(w, step) && Spent(w, c)
    ensures Spent(Next(w, step), c)
  {
    StepIsOnward(w, step);
  }

  ghost predicate IsRun(states: seq<World>, steps: seq<Step>) {
    |states| == |steps| + 1 &&
    forall i :: 0 <= i < |steps| ==> Moved(states[i], steps[i], states[i + 1])
  }

  predicate Moved(w: World, step: Step, v: World) {
    Possible(w, step) && v == Next(w, step)
  }

  /** Over any run: packets are immutable, acknowledged rows never change again, and every acknowledgement was a delivery. */
  lemma {:induction false} RunIsSafe(states: seq<World>, steps: seq<Step>, i: nat, j: nat)
    requires IsRun(states, steps) && Sound(states[0]) && i <= j < |states|
    ensures Onward(states[i], states[j]) && Sound(states[j])
    decreases j
  {
    if j > 0 {
      assert Moved(states[j - 1], steps[j - 1], states[j]);
      RunIsSafe(states, steps, if i < j then i else j - 1, j - 1);
      StepIsSound(states[j - 1], steps[j - 1]);
      StepIsOnward(states[j - 1], steps[j - 1]);
    }
  }

  lemma {:induction false} RunKeepsSpent(states: seq<World>, steps: seq<Step>, i: nat, j: nat, c: Claim)
    requires IsRun(states, steps) && Sound(states[0]) && i <= j < |states| && Spent(states[i], c)
    ensures Spent(states[j], c)
    decreases j
  {
    if i < j {
      assert Moved(states[j - 1], steps[j - 1], states[j]);
      RunKeepsSpent(states, steps, i, j - 1, c);
      assert Sound(states[j - 1]) by { RunIsSafe(states, steps, 0, j - 1); }
      SpentStaysSpent(states[j - 1], steps[j - 1], c);
    }
  }

  lemma {:induction false} SpentCannotEnd(w: World, c: Claim, failure: Option<string>, retryAt: int)
    requires Spent(w, c)
    ensures Finish(w.outbox, c, failure, retryAt).Err?
  {
  }

  /** A claim ends at most once: after it has ended, it is refused for good. */
  lemma {:induction false} EndsOnce(states: seq<World>, steps: seq<Step>, i: nat, j: nat, c: Claim, failure: Option<string>, retryAt: int,
      again: Option<string>, later: int)
    requires IsRun(states, steps) && Sound(states[0]) && i < j < |states| && steps[i] == End(c, failure, retryAt)
    requires Finish(states[i].outbox, c, failure, retryAt).Ok?
    ensures Finish(states[j].outbox, c, again, later).Err?
  {
    assert Moved(states[i], steps[i], states[i + 1]);
    assert Spent(states[i + 1], c);
    RunKeepsSpent(states, steps, i + 1, j, c);
    SpentCannotEnd(states[j], c, again, later);
  }

  /** Once another worker has claimed the row, the earlier claim on it is refused for good. */
  lemma {:induction false} OnlyTheLatestEnds(states: seq<World>, steps: seq<Step>, i: nat, j: nat, c: Claim, config: Config, now: int,
      token: string, failure: Option<string>, retryAt: int)
    requires IsRun(states, steps) && Sound(states[0]) && i < j < |states| && steps[i] == Take(config, now, token)
    requires c in states[i].issued
    requires var taken := TakeClaim(states[i].outbox, config, now, token).claim; taken.Some? && taken.value.sequence == c.sequence
    ensures Finish(states[j].outbox, c, failure, retryAt).Err?
  {
    assert Moved(states[i], steps[i], states[i + 1]);
    RunIsSafe(states, steps, 0, i);
    assert ClaimFits(states[i], c);
    assert Spent(states[i + 1], c);
    RunKeepsSpent(states, steps, i + 1, j, c);
    SpentCannotEnd(states[j], c, failure, retryAt);
  }

  /** A claim taken under an earlier configuration changes nothing, then or later. */
  lemma {:induction false} OldRevisionCannotEnd(states: seq<World>, steps: seq<Step>, i: nat, j: nat, c: Claim, failure: Option<string>, retryAt: int)
    requires IsRun(states, steps) && Sound(states[0]) && i <= j < |states| && c.revision < states[i].outbox.config.revision
    ensures Finish(states[j].outbox, c, failure, retryAt) == Err(ConfigChanged)
  {
    RunIsSafe(states, steps, i, j);
  }

  /** A row becomes acknowledged only by ending a delivered claim on it, sent to the endpoint configured at that moment. */
  lemma {:induction false} AckedByDelivery(states: seq<World>, steps: seq<Step>, i: nat, k: nat)
    requires IsRun(states, steps) && Sound(states[0]) && i < |steps| && k < |states[i + 1].outbox.rows|
    requires states[i + 1].outbox.rows[k].state.Acked?
    requires k < |states[i].outbox.rows| ==> !states[i].outbox.rows[k].state.Acked?
    ensures steps[i].End? && steps[i].failure.None? && steps[i].claim in states[i].delivered && steps[i].claim.sequence == k
    ensures k < |states[i].outbox.rows| && steps[i].claim.payload == states[i].outbox.rows[k].payload
    ensures steps[i].claim.endpoint == states[i].outbox.config.endpoint && states[i].outbox.config.enabled
    ensures steps[i].claim.revision == states[i].outbox.config.revision
  {
    assert Moved(states[i], steps[i], states[i + 1]);
    RunIsSafe(states, steps, 0, i);
  }

  /** While a lease runs, nobody else gets the row. */
  lemma {:induction false} LeaseExcludes(o: Outbox, config: Config, now: int, token: string, i: nat)
    requires i < |o.rows| && now < o.rows[i].leaseUntil
    ensures var r := TakeClaim(o, config, now, token); |r.outbox.rows| == |o.rows| && r.outbox.rows[i] == o.rows[i]
  {
  }

  // Counting.

  lemma {:induction false} CountsSplit(rows: seq<Row>)
    ensures CountState(rows, true) + CountState(rows, false) == |rows|
  {
    if rows != [] {
      CountsSplit(rows[..|rows| - 1]);
    }
  }

  lemma {:induction false} CountGrows(a: seq<Row>, b: seq<Row>)
    requires |a| <= |b| && forall i :: 0 <= i < |a| && a[i].state.Acked? ==> b[i].state.Acked?
    ensures CountState(a, true) <= CountState(b, true)
  {
    if |a| < |b| {
      CountGrows(a, b[..|b| - 1]);
    } else if a != [] {
      CountGrows(a[..|a| - 1], b[..|b| - 1]);
    }
  }

  /** How many packets were accepted from step i up to step j. */
  function Accepted(steps: seq<Step>, i: nat, j: nat): nat
    requires i <= j <= |steps|
  {
    if i == j then 0 else Accepted(steps, i, j - 1) + if steps[j - 1].Arrive? then 1 else 0
  }

  lemma {:induction false} OnlyArrivalsAdd(w: World, step: Step)
    ensures |Next(w, step).outbox.rows| == |w.outbox.rows| + if step.Arrive? then 1 else 0
  {
  }

  lemma {:induction false} RowsAreAccepted(states: seq<World>, steps: seq<Step>, i: nat, j: nat)
    requires IsRun(states, steps) && i <= j < |states|
    ensures |states[j].outbox.rows| == |states[i].outbox.rows| + Accepted(steps, i, j)
    decreases j
  {
    if i < j {
      RowsAreAccepted(states, steps, i, j - 1);
      assert Moved(states[j - 1], steps[j - 1], states[j]);
      OnlyArrivalsAdd(states[j - 1], steps[j - 1]);
    }
  }

  /**
   Nothing is lost: over any run, acknowledged and outstanding rows add up to the rows there were and the packets
   accepted since, and acknowledged rows only grow.
   */
  lemma {:induction false} RunConserves(states: seq<World>, steps: seq<Step>, i: nat, j: nat)
    requires IsRun(states, steps) && Sound(states[0]) && i <= j < |states|
    ensures CountState(states[j].outbox.rows, true) + CountState(states[j].outbox.rows, false) ==
            |states[i].outbox.rows| + Accepted(steps, i, j)
    ensures |states[i].outbox.rows| <= |states[j].outbox.rows|
    ensures CountState(states[i].outbox.rows, true) <= CountState(states[j].outbox.rows, true)
  {
    RunIsSafe(states, steps, i, j);
    CountsSplit(states[j].outbox.rows);
    RowsAreAccepted(states, steps, i, j);
    CountGrows(states[i].outbox.rows, states[j].outbox.rows);
  }
}
