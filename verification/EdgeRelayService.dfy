/** The outbox as the program keeps it, and one round of a worker. */
module EdgeRelayService {
  import opened Wrappers
  import opened EdgeRelay

  /** Row i was the first one due; it was sent, and its new state is what the sending came to. */
  predicate RelayedRow(before: seq<Row>, after: seq<Row>, i: int, now: int, endpoint: string,
      send: (string, string) -> Option<string>, retryAt: int)
  {
    0 <= i < |before| && |after| == |before| && Claimable(before[i], now) &&
    (forall j :: 0 <= j < i ==> !Claimable(before[j], now)) &&
    (forall j :: 0 <= j < |after| && j != i ==> after[j] == before[j]) &&
    var failure := send(endpoint, before[i].payload);
    after[i] == before[i].(
      state := if failure.None? then Acked else Pending, attempts := before[i].attempts + 1, endpoint := endpoint,
      token := None, leaseUntil := 0, nextAttempt := if failure.None? then 0 else retryAt, rejection := failure)
  }

  class EdgeOutbox {
    var config: Config
    var rows: seq<Row>

    function View(): Outbox
      reads this
    {
      Outbox(config, rows)
    }

    constructor ()
      ensures View() == Outbox(Config("", false, 0, ""), [])
    {
      config, rows := Config("", false, 0, ""), [];
    }

    method EdgePendingCount() returns (pending: nat)
      ensures pending == CountState(rows, false)
    {
      pending := 0;
      for i := 0 to |rows|
        invariant pending == CountState(rows[..i], false)
      {
        assert rows[..i + 1][..i] == rows[..i];
        if !rows[i].state.Acked? {
          pending := pending + 1;
        }
      }
      assert rows[..|rows|] == rows;
    }

    method ConfigureEdgeRelay(requested: Config, confirm: bool) returns (done: Result<(), Fault>)
      modifies this`config
      ensures match Configure(old(View()), requested, confirm)
              case Ok(o) => done == Ok(()) && View() == o
              case Err(f) => done == Err(f) && View() == old(View())
    {
      if requested.revision < 0 || (requested.enabled && requested.endpoint == "") {
        return Err(InvalidConfig);
      }
      if config.revision != requested.revision {
        return Err(ConfigChanged);
      }
      if config.endpoint == requested.endpoint && config.enabled == requested.enabled && config.tlsBundle == requested.tlsBundle {
        return Ok(());
      }
      var pending := EdgePendingCount();
      if (config.endpoint != requested.endpoint || config.tlsBundle != requested.tlsBundle) && pending > 0 && !confirm {
        return Err(ConfirmationNeeded);
      }
      config := requested.(revision := requested.revision + 1);
      return Ok(());
    }

    method ClaimEdgeRelay(known: Config, now: int, token: string) returns (claim: Option<Claim>)
      modifies this`rows
      ensures Claimed(View(), claim) == TakeClaim(old(View()), known, now, token)
      ensures claim.Some? ==>
        var c := claim.value;
        c.sequence < |old(rows)| && |rows| == |old(rows)| && c.token == token && c.endpoint == config.endpoint &&
        rows[c.sequence].leaseUntil == now + 30000 && rows[c.sequence].token == Some(token) && rows[c.sequence].state.Sent? &&
        old(rows)[c.sequence].leaseUntil <= now && old(rows)[c.sequence].nextAttempt <= now && !old(rows)[c.sequence].state.Acked?
    {
      if !config.enabled || config != known {
        return None;
      }
      var i := 0;
      while i < |rows| && !Claimable(rows[i], now)
        invariant i <= |rows| && forall j :: 0 <= j < i ==> !Claimable(rows[j], now)
      {
        i := i + 1;
      }
      assert FirstClaimable(rows, now) == if i < |rows| then Some(i) else None;
      if i == |rows| {
        return None;
      }
      var row := rows[i];
      rows := rows[i := row.(state := Sent, endpoint := config.endpoint, attempts := row.attempts + 1,
                             token := Some(token), leaseUntil := now + LeaseMs)];
      return Some(Claim(i, row.observation, row.payload, token, config.endpoint, config.revision, row.attempts + 1));
    }

    method FinishEdgeRelay(c: Claim, failure: Option<string>, retryAt: int) returns (done: Result<(), Fault>)
      modifies this`rows
      ensures match Finish(old(View()), c, failure, retryAt)
              case Ok(o) => done == Ok(()) && View() == o
              case Err(f) => done == Err(f) && View() == old(View())
    {
      if config.revision != c.revision || config.endpoint != c.endpoint || !config.enabled {
        return Err(ConfigChanged);
      }
      if c.sequence >= |rows| || !IsCurrent(rows[c.sequence], c) {
        return Err(ClaimNotCurrent);
      }
      var row := rows[c.sequence];
      if failure.None? {
        row := row.(state := Acked, rejection := None, nextAttempt := 0, token := None, leaseUntil := 0);
      } else {
        row := row.(state := Pending, rejection := failure, nextAttempt := retryAt, token := None, leaseUntil := 0);
      }
      rows := rows[c.sequence := row];
      return Ok(());
    }

    /**
     One undisturbed round of a worker: the first due row is sent to the configured endpoint and ends acknowledged,
     or pending until its next attempt; no other row is touched.
     */
    method RelayOne(known: Config, now: int, token: string, send: (string, string) -> Option<string>, retryAt: int) returns (worked: bool)
      modifies this`rows
      ensures worked <==> config.enabled && config == known && exists i :: 0 <= i < |old(rows)| && Claimable(old(rows)[i], now)
      ensures !worked ==> rows == old(rows)
      ensures worked ==> exists i :: RelayedRow(old(rows), rows, i, now, config.endpoint, send, retryAt)
    {
      var claim := ClaimEdgeRelay(known, now, token);
      if claim.None? {
        return false;
      }
      var c := claim.value;
      assert Claimable(old(rows)[c.sequence], now);
      var failure := send(c.endpoint, c.payload);
      var done := FinishEdgeRelay(c, failure, retryAt);
      assert RelayedRow(old(rows), rows, c.sequence, now, config.endpoint, send, retryAt);
      return true;
    }
  }
}
