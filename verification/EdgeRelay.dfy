/**
 The outbox of raw observations and its lease protocol: workers claim a row, send it and finish the claim, while
 leases expire, other workers claim again and the destination is reconfigured.
 */
module EdgeRelay {
  import opened Wrappers

  datatype Config = Config(endpoint: string, enabled: bool, revision: int, tlsBundle: string)

  datatype State = Pending | Sent | Rejected | Acked

  datatype Row = Row(
    observation: string, payload: string, state: State, attempts: int, nextAttempt: int, token: Option<string>,
    leaseUntil: int, endpoint: string, rejection: Option<string>)

  datatype Claim = Claim(sequence: nat, observation: string, payload: string, token: string, endpoint: string, revision: int,
                         attempts: int)

  datatype Outbox = Outbox(config: Config, rows: seq<Row>)

  datatype Fault = InvalidConfig | ConfigChanged | ConfirmationNeeded | ClaimNotCurrent

  const LeaseMs := 30000

  // The operations.

  function CountState(rows: seq<Row>, acked: bool): nat {
    if rows == [] then 0
    else CountState(rows[..|rows| - 1], acked) + if rows[|rows| - 1].state.Acked? == acked then 1 else 0
  }

  /** Changing the destination of a queue that is not empty needs the organiser's word. */
  function Configure(o: Outbox, requested: Config, confirm: bool): Result<Outbox, Fault> {
    if requested.revision < 0 || (requested.enabled && requested.endpoint == "") then Err(InvalidConfig)
    else if o.config.revision != requested.revision then Err(ConfigChanged)
    else if requested == o.config then Ok(o)
    else if (o.config.endpoint != requested.endpoint || o.config.tlsBundle != requested.tlsBundle) &&
            CountState(o.rows, false) > 0 && !confirm then Err(ConfirmationNeeded)
    else Ok(o.(config := requested.(revision := requested.revision + 1)))
  }

  predicate Claimable(row: Row, now: int) {
    !row.state.Acked? && row.nextAttempt <= now && row.leaseUntil <= now
  }

  /** The first row, in order of arrival, that is due and not leased. */
  function FirstClaimable(rows: seq<Row>, now: int): (i: Option<nat>)
    ensures i.Some? ==> i.value < |rows| && Claimable(rows[i.value], now) && forall j :: 0 <= j < i.value ==> !Claimable(rows[j], now)
    ensures i.None? ==> forall j :: 0 <= j < |rows| ==> !Claimable(rows[j], now)
  {
    if rows == [] then None
    else if Claimable(rows[0], now) then Some(0)
    else
      var rest := FirstClaimable(rows[1..], now);
      assert forall j :: 0 <= j < |rows| - 1 ==> rows[1..][j] == rows[j + 1];
      if rest.None? then
        assert forall j :: 0 < j < |rows| ==> rows[j] == rows[1..][j - 1];
        None
      else
        assert forall j :: 0 < j < rest.value + 1 ==> rows[j] == rows[1..][j - 1];
        Some(rest.value + 1)
  }

  datatype Claimed = Claimed(outbox: Outbox, claim: Option<Claim>)

  /** Takes a lease under a fresh token, for a worker that still sees the configuration it was started with. */
  function TakeClaim(o: Outbox, config: Config, now: int, token: string): Claimed {
    if !o.config.enabled || o.config != config then Claimed(o, None)
    else
      var i := FirstClaimable(o.rows, now);
      if i.None? then Claimed(o, None)
      else
        var row := o.rows[i.value];
        var leased := row.(state := Sent, endpoint := o.config.endpoint, attempts := row.attempts + 1,
                           token := Some(token), leaseUntil := now + LeaseMs);
        Claimed(o.(rows := o.rows[i.value := leased]),
                Some(Claim(i.value, row.observation, row.payload, token, o.config.endpoint, o.config.revision, row.attempts + 1)))
  }

  predicate IsCurrent(row: Row, c: Claim) {
    row.observation == c.observation && row.payload == c.payload && row.token == Some(c.token) && row.state.Sent?
  }

  /** Ends a claim: acknowledged, or pending again from `retryAt`. */
  function Finish(o: Outbox, c: Claim, failure: Option<string>, retryAt: int): Result<Outbox, Fault> {
    if o.config.revision != c.revision || o.config.endpoint != c.endpoint || !o.config.enabled then Err(ConfigChanged)
    else if c.sequence >= |o.rows| || !IsCurrent(o.rows[c.sequence], c) then Err(ClaimNotCurrent)
    else
      var row := o.rows[c.sequence];
      var done := if failure.None? then row.(state := Acked, rejection := None, nextAttempt := 0, token := None, leaseUntil := 0)
                  else row.(state := Pending, rejection := failure, nextAttempt := retryAt, token := None, leaseUntil := 0);
      Ok(o.(rows := o.rows[c.sequence := done]))
  }

  function Accept(o: Outbox, observation: string, payload: string): Outbox {
    o.(rows := o.rows + [Row(observation, payload, Pending, 0, 0, None, 0, "", None)])
  }

  // Workers, the network and the organiser, in any order.

  /** The outbox, every claim ever handed out, and the claims whose packet the other side acknowledged. */
  datatype World = World(outbox: Outbox, issued: set<Claim>, delivered: set<Claim>)

  datatype Step =
    | Arrive(observation: string, payload: string)
    | Reconfigure(requested: Config, confirm: bool)
    | Take(config: Config, now: int, token: string)
    | Deliver(claim: Claim)
    | End(claim: Claim, failure: Option<string>, retryAt: int)

  predicate FreshToken(w: World, token: string) {
    forall c :: c in w.issued ==> c.token != token
  }

  /** Tokens are never drawn twice; workers send and finish only claims they were given, and report success only on an acknowledgement. */
  predicate Possible(w: World, step: Step) {
    match step
    case Take(config, now, token) => FreshToken(w, token)
    case Deliver(c) => c in w.issued
    case End(c, failure, retryAt) => c in w.issued && (failure.None? ==> c in w.delivered)
    case _ => true
  }

  function Next(w: World, step: Step): World {
    match step
    case Arrive(observation, payload) => w.(outbox := Accept(w.outbox, observation, payload))
    case Reconfigure(requested, confirm) =>
      var r := Configure(w.outbox, requested, confirm);
      if r.Ok? then w.(outbox := r.value) else w
    case Take(config, now, token) =>
      var r := TakeClaim(w.outbox, config, now, token);
      w.(outbox := r.outbox, issued := w.issued + (if r.claim.Some? then {r.claim.value} else {}))
    case Deliver(c) => w.(delivered := w.delivered + {c})
    case End(c, failure, retryAt) =>
      var r := Finish(w.outbox, c, failure, retryAt);
      if r.Ok? then w.(outbox := r.value) else w
  }

  // Invariants.

  predicate UniqueTokens(w: World) {
    forall c, d :: c in w.issued && d in w.issued && c.token == d.token ==> c == d
  }

  predicate ClaimFits(w: World, c: Claim) {
    c.sequence < |w.outbox.rows| && c.observation == w.outbox.rows[c.sequence].observation &&
    c.payload == w.outbox.rows[c.sequence].payload && c.revision <= w.outbox.config.revision
  }

  /** A claim that matches the row's token sits on that row and was sent where the row says. */
  predicate TokenFits(w: World, i: nat)
    requires i < |w.outbox.rows|
  {
    w.outbox.rows[i].token.Some? ==>
      w.outbox.rows[i].state.Sent? &&
      exists c :: c in w.issued && Some(c.token) == w.outbox.rows[i].token && c.sequence == i && c.endpoint == w.outbox.rows[i].endpoint
  }

  /** An acknowledged row was delivered, under a claim on that very row and packet, to the endpoint it records. */
  predicate AckFits(w: World, i: nat)
    requires i < |w.outbox.rows|
  {
    w.outbox.rows[i].state.Acked? ==>
      exists c :: c in w.delivered && c.sequence == i && c.payload == w.outbox.rows[i].payload && c.endpoint == w.outbox.rows[i].endpoint
  }

  predicate Sound(w: World) {
    UniqueTokens(w) && w.delivered <= w.issued && (forall c :: c in w.issued ==> ClaimFits(w, c)) &&
    forall i :: 0 <= i < |w.outbox.rows| ==> TokenFits(w, i) && AckFits(w, i)
  }
}
