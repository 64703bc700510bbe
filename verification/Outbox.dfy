/** The outbox row life cycle and the dispatcher protocol: any number of workers claim rows,
    publish outside the transaction, and complete a claim only while they still hold it. */
module Outbox {
  import opened Scopes

  type EventId = nat
  type Token = nat
  type WorkerId = nat

  datatype Status = Pending | Processing | Published | Failed | DeadLetter

  datatype Row = Row(
    ns: Namespace,
    createdAt: int,
    status: Status,
    attempts: nat,
    recoveries: nat,
    lastError: string,
    availableAt: int,
    claimId: Option<Token>,
    claimedAt: Option<int>,
    claimExpiresAt: Option<int>,
    publishedAt: Option<int>)

  /** Settings of one dispatcher run, after clamping. */
  datatype Config = Config(
    maxAttempts: nat, retryBase: nat, retryMax: nat, claimTimeout: nat,
    retryFailed: bool, namespaceWrites: bool)
  {
    predicate Valid() {
      1 <= maxAttempts && 1 <= retryBase <= retryMax && 1 <= claimTimeout
    }
  }

  /** The clamping at the top of a dispatcher run: a setting in range comes through as it is, any
      other as the nearest one in range. */
  function Clamp(maxAttempts: int, retryBase: int, retryMax: int, claimTimeout: int,
                 retryFailed: bool, namespaceWrites: bool): (cfg: Config)
    ensures cfg.Valid()
    ensures if maxAttempts >= 1 then cfg.maxAttempts == maxAttempts else cfg.maxAttempts == 1
    ensures if retryBase >= 1 then cfg.retryBase == retryBase else cfg.retryBase == 1
    ensures if retryMax >= cfg.retryBase then cfg.retryMax == retryMax else cfg.retryMax == cfg.retryBase
    ensures if claimTimeout >= 1 then cfg.claimTimeout == claimTimeout else cfg.claimTimeout == 1
    ensures cfg.retryFailed == retryFailed && cfg.namespaceWrites == namespaceWrites
  {
    var base := Max(1, retryBase);
    Config(Max(1, maxAttempts), base, Max(base, retryMax), Max(1, claimTimeout),
           retryFailed, namespaceWrites)
  }

  // ----- Backoff

  function Pow2(n: nat): (p: nat)
    ensures p >= 1
  {
    if n == 0 then 1 else 2 * Pow2(n - 1)
  }

  function Delay(attempt: nat, cfg: Config): int {
    Min(cfg.retryMax, cfg.retryBase * Pow2(Max(attempt - 1, 0)))
  }

  lemma {:induction false} Pow2Monotone(m: nat, n: nat)
    requires m <= n
    ensures Pow2(m) <= Pow2(n)
    decreases n
  {
    if m < n {
      Pow2Monotone(m, n - 1);
    }
  }

  /** The delay lies between the base and the cap and never shrinks as attempts grow. */
  lemma DelayMonotone(m: nat, n: nat, cfg: Config)
    requires cfg.Valid() && m <= n
    ensures cfg.retryBase <= Delay(m, cfg) <= Delay(n, cfg) <= cfg.retryMax
  {
    var i, j := Max(m - 1, 0), Max(n - 1, 0);
    Pow2Monotone(i, j);
    assert cfg.retryBase * 1 <= cfg.retryBase * Pow2(i) <= cfg.retryBase * Pow2(j);
  }

  /** The first delay is the base; each further one doubles it until the cap. */
  lemma DelayDoubles(n: nat, cfg: Config)
    requires cfg.Valid() && n >= 1
    ensures Delay(0, cfg) == Delay(1, cfg) == cfg.retryBase
    ensures Delay(n + 1, cfg) == Min(cfg.retryMax, 2 * Delay(n, cfg))
  {
    assert Pow2(n) == 2 * Pow2(n - 1);
    assert cfg.retryBase * Pow2(n) == 2 * (cfg.retryBase * Pow2(n - 1));
  }

  // ----- Row transitions

  predicate GateOpen(row: Row, cfg: Config) {
    cfg.namespaceWrites || row.ns.IsGlobal()
  }

  predicate Due(row: Row, now: int, cfg: Config) {
    && (row.status == Pending || (cfg.retryFailed && row.status == Failed))
    && row.availableAt <= now
    && GateOpen(row, cfg)
  }

  predicate Expired(row: Row, now: int, cfg: Config) {
    && row.status == Processing
    && row.claimExpiresAt.Some? && row.claimExpiresAt.value <= now
    && GateOpen(row, cfg)
  }

  /** The schedule is stamped when the event is built, its creation when it is saved. */
  function NewRow(ns: Namespace, now: int, sinceBuilt: nat): Row {
    Row(ns, now, Pending, 0, 0, "", now - sinceBuilt, None, None, None, None)
  }

  function ClaimRow(row: Row, token: Token, now: int, cfg: Config): Row {
    row.(status := Processing, claimId := Some(token), claimedAt := Some(now),
         claimExpiresAt := Some(now + cfg.claimTimeout))
  }

  function Unclaimed(row: Row): Row {
    row.(claimId := None, claimedAt := None, claimExpiresAt := None)
  }

  function MarkPublished(row: Row, now: int): Row {
    Unclaimed(row.(status := Published, attempts := row.attempts + 1, lastError := "",
                   publishedAt := Some(now)))
  }

  function MarkFailed(row: Row, error: string, now: int, cfg: Config): Row {
    var failed := Unclaimed(row.(attempts := row.attempts + 1, lastError := error));
    if failed.attempts >= cfg.maxAttempts then
      failed.(status := DeadLetter)
    else
      failed.(status := Failed, availableAt := now + Delay(failed.attempts, cfg))
  }

  const EXPIRED_NOTE := "outbox claim expired before publish completed"

  function MarkRecovered(row: Row, now: int, cfg: Config): Row {
    var recoveries := row.recoveries + 1;
    Unclaimed(row.(status := Pending, recoveries := recoveries, lastError := EXPIRED_NOTE,
                   availableAt := now + Max(Delay(recoveries, cfg), Delay(row.attempts, cfg))))
  }

  /** A recovery that is a row's i-th release (failures and recoveries together) backs off as
      if at least half of the releases had been failures. */
  lemma RecoveryBackoffFloor(row: Row, now: int, cfg: Config)
    requires cfg.Valid()
    ensures var next := MarkRecovered(row, now, cfg);
            && next.availableAt == now + Delay(Max(next.attempts, next.recoveries), cfg)
            && next.availableAt
               >= now + Min(cfg.retryMax,
                            cfg.retryBase * Pow2((next.attempts + next.recoveries + 1) / 2 - 1))
  {
    var next := MarkRecovered(row, now, cfg);
    var half := (next.attempts + next.recoveries + 1) / 2;
    DelayMonotone(Min(next.attempts, next.recoveries), Max(next.attempts, next.recoveries), cfg);
    DelayMonotone(half, Max(next.attempts, next.recoveries), cfg);
  }

  // ----- The protocol

  datatype Phase = Sending | Returned | Raised

  /** A worker between its claim and the end of its completion transaction. */
  datatype Worker = Worker(event: EventId, token: Token, phase: Phase)

  /** The table, the busy workers, every token ever drawn, and two history counters per event:
      claims taken and publish calls that returned normally. */
  datatype State = State(
    rows: map<EventId, Row>,
    workers: map<WorkerId, Worker>,
    tokens: set<Token>,
    now: int,
    claims: map<EventId, nat>,
    deliveries: map<EventId, nat>)

  function Count(counter: map<EventId, nat>, e: EventId): nat {
    if e in counter then counter[e] else 0
  }

  function Bump(counter: map<EventId, nat>, e: EventId): map<EventId, nat> {
    counter[e := Count(counter, e) + 1]
  }

  /** One atomic step. A transaction reads the clock once for its filter and again for its
      timestamps; `elapsed` is the time between the two readings. A completion may be told
      its row is locked elsewhere (`skipped`) although its token still matches. */
  datatype Step =
    | Insert(e: EventId, ns: Namespace, sinceBuilt: nat)
    | ClaimNext(w: WorkerId, e: EventId, token: Token, elapsed: nat, cfg: Config)
    | PublishReturns(w: WorkerId)
    | PublishRaises(w: WorkerId)
    | Complete(w: WorkerId, skipped: bool, error: string, cfg: Config)
    | Recover(e: EventId, elapsed: nat, cfg: Config)
    | Crash(w: WorkerId)
    | Tick(elapsed: nat)

  predicate HoldsClaim(s: State, worker: Worker) {
    && worker.event in s.rows
    && s.rows[worker.event].claimId == Some(worker.token)
    && s.rows[worker.event].status == Processing
  }

  predicate Enabled(s: State, step: Step) {
    match step
    case Insert(e, ns, sinceBuilt) => e !in s.rows
    case ClaimNext(w, e, token, elapsed, cfg) =>
      && cfg.Valid() && w !in s.workers && token !in s.tokens
      && e in s.rows && Due(s.rows[e], s.now, cfg)
    case PublishReturns(w) => w in s.workers && s.workers[w].phase == Sending
    case PublishRaises(w) => w in s.workers && s.workers[w].phase == Sending
    case Complete(w, skipped, error, cfg) =>
      cfg.Valid() && w in s.workers && s.workers[w].phase != Sending
    case Recover(e, elapsed, cfg) =>
      cfg.Valid() && e in s.rows && Expired(s.rows[e], s.now, cfg)
    case Crash(w) => w in s.workers
    case Tick(elapsed) => true
  }

  function CompletedRow(row: Row, phase: Phase, error: string, now: int, cfg: Config): Row {
    if phase == Returned then MarkPublished(row, now) else MarkFailed(row, error, now, cfg)
  }

  function Apply(s: State, step: Step): State
    requires Enabled(s, step)
  {
    match step
    case Insert(e, ns, sinceBuilt) =>
      s.(rows := s.rows[e := NewRow(ns, s.now, sinceBuilt)])
    case ClaimNext(w, e, token, elapsed, cfg) =>
      s.(rows := s.rows[e := ClaimRow(s.rows[e], token, s.now + elapsed, cfg)],
         workers := s.workers[w := Worker(e, token, Sending)],
         tokens := s.tokens + {token},
         now := s.now + elapsed,
         claims := Bump(s.claims, e))
    case PublishReturns(w) =>
      s.(workers := s.workers[w := s.workers[w].(phase := Returned)],
         deliveries := Bump(s.deliveries, s.workers[w].event))
    case PublishRaises(w) =>
      s.(workers := s.workers[w := s.workers[w].(phase := Raised)])
    case Complete(w, skipped, error, cfg) =>
      var worker := s.workers[w];
      var e := worker.event;
      s.(workers := s.workers - {w},
         rows := if skipped || !HoldsClaim(s, worker) then s.rows
                 else s.rows[e := CompletedRow(s.rows[e], worker.phase, error, s.now, cfg)])
    case Recover(e, elapsed, cfg) =>
      s.(rows := s.rows[e := MarkRecovered(s.rows[e], s.now + elapsed, cfg)],
         now := s.now + elapsed)
    case Crash(w) =>
      s.(workers := s.workers - {w})
    case Tick(elapsed) =>
      s.(now := s.now + elapsed)
  }

  function Initial(now: int): State {
    State(map[], map[], {}, now, map[], map[])
  }

  /** Every step of a run is enabled when its turn comes. */
  predicate Feasible(s: State, run: seq<Step>)
    decreases |run|
  {
    run == [] || (Enabled(s, run[0]) && Feasible(Apply(s, run[0]), run[1..]))
  }

  function Exec(s: State, run: seq<Step>): State
    requires Feasible(s, run)
    decreases |run|
  {
    if run == [] then s else Exec(Apply(s, run[0]), run[1..])
  }

  ghost predicate Reachable(s: State) {
    exists t0, run {:trigger Feasible(Initial(t0), run)} ::
      Feasible(Initial(t0), run) && Exec(Initial(t0), run) == s
  }

  lemma {:induction false} RunAppend(s: State, first: seq<Step>, rest: seq<Step>)
    requires Feasible(s, first) && Feasible(Exec(s, first), rest)
    ensures Feasible(s, first + rest)
    ensures Exec(s, first + rest) == Exec(Exec(s, first), rest)
    decreases |first|
  {
    if first == [] {
      assert first + rest == rest;
    } else {
      RunAppend(Apply(s, first[0]), first[1..], rest);
      assert (first + rest)[1..] == first[1..] + rest;
    }
  }
}
