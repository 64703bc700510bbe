/** The delivery guarantees of the dispatcher, over all runs. */
module OutboxTheorems {
  import opened Scopes
  import opened Outbox
  import opened OutboxSafety

  // ----- Deliveries and claims

  /** At least one delivery for a published event, and never more than one per recovery plus one. */
  lemma DeliveryBound(s: State, e: EventId)
    requires Reachable(s) && e in s.rows
    ensures Count(s.deliveries, e) <= s.rows[e].recoveries + Bit(Live(s.rows[e]))
    ensures s.rows[e].status == Published ==> 1 <= Count(s.deliveries, e)
    ensures s.rows[e].status == Published && s.rows[e].recoveries == 0 ==>
              Count(s.deliveries, e) == 1
  {
    ReachableInv(s);
    assert Ledger(s, e);
  }

  lemma ClaimConservation(s: State, e: EventId)
    requires Reachable(s) && e in s.rows
    ensures var row := s.rows[e];
            && Count(s.claims, e)
               == row.attempts + row.recoveries + Bit(row.status == Processing)
            && (row.claimId.Some? <==> row.status == Processing)
            && (row.claimedAt.Some? <==> row.status == Processing)
            && (row.claimExpiresAt.Some? <==> row.status == Processing)
  {
    ReachableInv(s);
    assert RowShape(s.rows[e], s.now) && Ledger(s, e);
  }

  /** A claim is exclusive: two busy workers never both hold the claim on one row. */
  lemma ClaimIsExclusive(s: State, v: WorkerId, w: WorkerId)
    requires Reachable(s) && v in s.workers && w in s.workers && v != w
    requires HoldsClaim(s, s.workers[v]) && HoldsClaim(s, s.workers[w])
    ensures s.workers[v].event != s.workers[w].event
  {
    ReachableInv(s);
  }

  /** A claimed row changes only when its holder completes it or its lease has run out; a
      completion with a stale token, or one told to skip, leaves the whole table alone. */
  lemma ClaimIsFenced(s: State, step: Step, e: EventId)
    requires Inv(s) && Enabled(s, step) && e in s.rows && s.rows[e].status == Processing
    ensures Apply(s, step).rows[e] != s.rows[e] ==>
              || (step.Complete? && !step.skipped && s.workers[step.w].event == e
                  && HoldsClaim(s, s.workers[step.w]))
              || (step.Recover? && step.e == e && s.rows[e].claimExpiresAt.value <= s.now)
    ensures step.Complete? && (step.skipped || !HoldsClaim(s, s.workers[step.w])) ==>
              Apply(s, step).rows == s.rows
  {}

  lemma {:induction false} ClockRuns(s: State, run: seq<Step>)
    requires Feasible(s, run)
    ensures s.now <= Exec(s, run).now
    decreases |run|
  {
    if run != [] {
      ClockRuns(Apply(s, run[0]), run[1..]);
    }
  }

  /** The worker itself ends its claim. */
  predicate LetsGo(step: Step, w: WorkerId) {
    (step.Complete? || step.Crash?) && step.w == w
  }

  lemma ClaimStays(s: State, step: Step, w: WorkerId)
    requires Inv(s) && Enabled(s, step) && !LetsGo(step, w)
    requires w in s.workers && HoldsClaim(s, s.workers[w])
    requires s.now < s.rows[s.workers[w].event].claimExpiresAt.value
    ensures var t, e := Apply(s, step), s.workers[w].event;
            && w in t.workers && t.workers[w].event == e && t.workers[w].token == s.workers[w].token
            && e in t.rows && t.rows[e] == s.rows[e]
  {
    ClaimIsFenced(s, step, s.workers[w].event);
  }

  lemma {:induction false} ClaimKept(s: State, run: seq<Step>, w: WorkerId)
    requires Inv(s) && Feasible(s, run) && forall step :: step in run ==> !LetsGo(step, w)
    requires w in s.workers && HoldsClaim(s, s.workers[w])
    requires Exec(s, run).now < s.rows[s.workers[w].event].claimExpiresAt.value
    ensures var t := Exec(s, run);
            && w in t.workers && t.workers[w].event == s.workers[w].event
            && t.workers[w].token == s.workers[w].token && HoldsClaim(t, t.workers[w])
    decreases |run|
  {
    if run != [] {
      ClockRuns(s, run);
      assert !LetsGo(run[0], w);
      ClaimStays(s, run[0], w);
      StepKeepsInv(s, run[0]);
      ClaimKept(Apply(s, run[0]), run[1..], w);
    }
  }

  /** A lease lasts: after a claim, whatever else happens, in every run that ends before the lease
      does the worker still holds its claim, unless it has completed or crashed itself. */
  lemma LeaseHolds(s: State, claim: Step, run: seq<Step>)
    requires Reachable(s) && Enabled(s, claim) && claim.ClaimNext? && Feasible(Apply(s, claim), run)
    requires forall step :: step in run ==> !LetsGo(step, claim.w)
    requires Exec(Apply(s, claim), run).now < Apply(s, claim).now + claim.cfg.claimTimeout
    ensures var t := Exec(Apply(s, claim), run);
            && claim.w in t.workers && HoldsClaim(t, t.workers[claim.w])
            && t.workers[claim.w].event == claim.e && t.workers[claim.w].token == claim.token
  {
    ReachableInv(s);
    StepKeepsInv(s, claim);
    ClaimKept(Apply(s, claim), run, claim.w);
  }

  /** A fresh claim can be recovered from the end of its timeout on, and no sooner. */
  lemma LeaseLasts(s: State, claim: Step, now: int, cfg: Config)
    requires Enabled(s, claim) && claim.ClaimNext?
    ensures var row := Apply(s, claim).rows[claim.e];
            Expired(row, now, cfg)
            <==> GateOpen(row, cfg) && now >= Apply(s, claim).now + claim.cfg.claimTimeout
  {}

  /** Published and dead-lettered rows never change again. */
  lemma {:induction false} TerminalIsFinal(s: State, run: seq<Step>, e: EventId)
    requires Feasible(s, run) && e in s.rows && Terminal(s.rows[e])
    ensures e in Exec(s, run).rows && Exec(s, run).rows[e] == s.rows[e]
    decreases |run|
  {
    if run != [] {
      TerminalIsFinal(Apply(s, run[0]), run[1..], e);
    }
  }

  // ----- Attempt limits

  /** The configuration a step runs under, when its outcome depends on one. */
  function ConfigOf(step: Step): Option<Config> {
    match step
    case ClaimNext(_, _, _, _, cfg) => Some(cfg)
    case Complete(_, _, _, cfg) => Some(cfg)
    case Recover(_, _, cfg) => Some(cfg)
    case _ => None
  }

  predicate LimitedTo(step: Step, m: nat) {
    ConfigOf(step).Some? ==> ConfigOf(step).value.maxAttempts == m
  }

  predicate WithinLimit(row: Row, m: nat) {
    match row.status
    case DeadLetter => row.attempts == m
    case Published => 1 <= row.attempts <= m
    case _ => row.attempts < m
  }

  lemma {:induction false} LimitKept(s: State, run: seq<Step>, m: nat)
    requires 1 <= m && Feasible(s, run) && forall step :: step in run ==> LimitedTo(step, m)
    requires forall e :: e in s.rows ==> WithinLimit(s.rows[e], m)
    ensures forall e :: e in Exec(s, run).rows ==> WithinLimit(Exec(s, run).rows[e], m)
    decreases |run|
  {
    if run != [] {
      assert LimitedTo(run[0], m);
      LimitKept(Apply(s, run[0]), run[1..], m);
    }
  }

  /** With one attempt limit throughout: the limit is respected, only the last permitted attempt
      dead-letters, claims are bounded, and an event never recovered has ended once it has been
      claimed that many times and let go. */
  lemma AttemptLimit(t0: int, run: seq<Step>, m: nat, e: EventId)
    requires 1 <= m && Feasible(Initial(t0), run) && forall step :: step in run ==> LimitedTo(step, m)
    requires e in Exec(Initial(t0), run).rows
    ensures WithinLimit(Exec(Initial(t0), run).rows[e], m)
    ensures var s := Exec(Initial(t0), run);
            Count(s.claims, e) <= m + s.rows[e].recoveries
    ensures var s := Exec(Initial(t0), run);
            (s.rows[e].recoveries == 0 && Count(s.claims, e) == m && s.rows[e].status != Processing)
            ==> Terminal(s.rows[e])
  {
    var s := Exec(Initial(t0), run);
    LimitKept(Initial(t0), run, m);
    RunKeepsInv(Initial(t0), run);
    assert WithinLimit(s.rows[e], m) && Ledger(s, e);
  }

  // ----- Pacing

  /** What a step does to one row. */
  datatype Move =
    | Stay
    | Claims(token: Token, at: int, cfg: Config)
    | Publishes(at: int)
    | Fails(error: string, at: int, cfg: Config)
    | Recovers(at: int, cfg: Config)

  function MoveOf(s: State, step: Step, e: EventId): Move
    requires Enabled(s, step)
  {
    match step
    case ClaimNext(_, f, token, elapsed, cfg) =>
      if f == e then Claims(token, s.now + elapsed, cfg) else Stay
    case Complete(w, skipped, error, cfg) =>
      if skipped || s.workers[w].event != e || !HoldsClaim(s, s.workers[w]) then Stay
      else if s.workers[w].phase == Returned then Publishes(s.now)
      else Fails(error, s.now, cfg)
    case Recover(f, elapsed, cfg) =>
      if f == e then Recovers(s.now + elapsed, cfg) else Stay
    case _ => Stay
  }

  function Moved(row: Row, move: Move): Row {
    match move
    case Stay => row
    case Claims(token, at, cfg) => ClaimRow(row, token, at, cfg)
    case Publishes(at) => MarkPublished(row, at)
    case Fails(error, at, cfg) => MarkFailed(row, error, at, cfg)
    case Recovers(at, cfg) => MarkRecovered(row, at, cfg)
  }

  predicate Allowed(row: Row, move: Move, now: int) {
    match move
    case Stay => true
    case Claims(token, at, cfg) => now <= at && cfg.Valid() && Due(row, now, cfg)
    case Publishes(at) => now <= at && row.status == Processing
    case Fails(error, at, cfg) => now <= at && cfg.Valid() && row.status == Processing
    case Recovers(at, cfg) => now <= at && cfg.Valid() && Expired(row, now, cfg)
  }

  lemma StepIsMove(s: State, step: Step, e: EventId)
    requires Enabled(s, step) && e in s.rows
    ensures Allowed(s.rows[e], MoveOf(s, step, e), s.now)
    ensures Apply(s, step).rows[e] == Moved(s.rows[e], MoveOf(s, step, e))
  {}

  /** How often a row has been put back in the queue. */
  function Releases(row: Row): int {
    row.attempts + row.recoveries - Bit(Terminal(row))
  }

  /** A row's schedule moves exactly when it is put back in the queue, and then to later than
      both its old slot and the present by at least a base delay. */
  lemma RequeueIsLater(row: Row, move: Move, now: int)
    requires RowShape(row, now) && Allowed(row, move, now)
    ensures var next := Moved(row, move);
            && (next.availableAt != row.availableAt <==> Releases(next) != Releases(row))
            && (next.availableAt != row.availableAt ==>
                  && (move.Fails? || move.Recovers?)
                  && (next.status == Pending || next.status == Failed)
                  && Releases(next) == Releases(row) + 1
                  && row.availableAt + move.cfg.retryBase <= move.at + move.cfg.retryBase
                     <= next.availableAt)
  {
    if move.Fails? || move.Recovers? {
      DelayMonotone(row.attempts, row.attempts + 1, move.cfg);
    }
  }

  predicate Paced(step: Step, base: nat) {
    ConfigOf(step).Some? ==> ConfigOf(step).value.retryBase >= base
  }

  /** From one row to a later one, the schedule moved by a base delay for each release between. */
  predicate Waited(row: Row, later: Row, base: nat) {
    && Releases(row) <= Releases(later)
    && row.availableAt + base * (Releases(later) - Releases(row)) <= later.availableAt
  }

  lemma OneMore(row: Row, later: Row, base: nat)
    requires Releases(later) == Releases(row) + 1 && row.availableAt + base <= later.availableAt
    ensures Waited(row, later, base)
  {
    assert base * 1 == base;
  }

  lemma NoMore(row: Row, later: Row, base: nat)
    requires Releases(later) == Releases(row) && row.availableAt == later.availableAt
    ensures Waited(row, later, base)
  {}

  lemma MoveWaits(row: Row, move: Move, now: int, base: nat)
    requires RowShape(row, now) && Allowed(row, move, now)
    requires move.Fails? || move.Recovers? ==> move.cfg.retryBase >= base
    ensures Waited(row, Moved(row, move), base)
  {
    var next := Moved(row, move);
    RequeueIsLater(row, move, now);
    if Releases(next) == Releases(row) { NoMore(row, next, base); } else { OneMore(row, next, base); }
  }

  lemma WaitsOn(a: Row, b: Row, c: Row, base: nat)
    requires Waited(a, b, base) && Waited(b, c, base)
    ensures Waited(a, c, base)
  {
    var first, second := Releases(b) - Releases(a), Releases(c) - Releases(b);
    assert base * (first + second) == base * first + base * second;
  }

  lemma StepWaits(s: State, step: Step, base: nat, e: EventId)
    requires Inv(s) && Enabled(s, step) && Paced(step, base) && e in s.rows
    ensures e in Apply(s, step).rows && Waited(s.rows[e], Apply(s, step).rows[e], base)
  {
    StepIsMove(s, step, e);
    assert RowShape(s.rows[e], s.now);
    MoveWaits(s.rows[e], MoveOf(s, step, e), s.now, base);
  }

  /** Over any run, an event released n times is put off by at least n base delays in total. From
      its insertion on, that is counted from the schedule it was built with. */
  lemma {:induction false} EveryReleaseWaits(s: State, run: seq<Step>, base: nat, e: EventId)
    requires Inv(s) && Feasible(s, run) && forall step :: step in run ==> Paced(step, base)
    requires e in s.rows
    ensures e in Exec(s, run).rows && Waited(s.rows[e], Exec(s, run).rows[e], base)
    decreases |run|
  {
    if run != [] {
      var t := Apply(s, run[0]);
      assert Paced(run[0], base);
      StepWaits(s, run[0], base, e);
      StepKeepsInv(s, run[0]);
      EveryReleaseWaits(t, run[1..], base, e);
      WaitsOn(s.rows[e], t.rows[e], Exec(t, run[1..]).rows[e], base);
    } else {
      NoMore(s.rows[e], s.rows[e], base);
    }
  }

  // ----- Where a schedule comes from

  /** The step releases the event, by a failure or a recovery, and leaves it with the counters and
      the schedule of `row`: the time of the release plus the delay those counters earn. */
  ghost predicate Earns(s: State, step: Step, e: EventId, row: Row)
    requires Enabled(s, step)
  {
    && e in s.rows
    && var move, next := MoveOf(s, step, e), Apply(s, step).rows[e];
    && next.attempts == row.attempts && next.recoveries == row.recoveries
    && next.availableAt == row.availableAt
    && (|| (move.Fails? && row.attempts == s.rows[e].attempts + 1
            && row.availableAt == move.at + Delay(row.attempts, move.cfg))
        || (move.Recovers? && row.recoveries == s.rows[e].recoveries + 1 && row.status != Failed
            && row.availableAt == move.at + Delay(Max(row.attempts, row.recoveries), move.cfg)))
  }

  ghost predicate EarnedIn(s: State, run: seq<Step>, e: EventId, row: Row)
    requires Feasible(s, run)
    decreases |run|
  {
    run != [] && (Earns(s, run[0], e, row) || EarnedIn(Apply(s, run[0]), run[1..], e, row))
  }

  predicate SameSchedule(row: Row, later: Row) {
    && later.attempts == row.attempts && later.recoveries == row.recoveries
    && later.availableAt == row.availableAt && (later.status == Failed ==> row.status == Failed)
  }

  lemma MoveEarns(s: State, step: Step, e: EventId, row: Row)
    requires Enabled(s, step) && e in s.rows && !Terminal(Apply(s, step).rows[e])
    requires SameSchedule(Apply(s, step).rows[e], row)
    ensures SameSchedule(s.rows[e], row) || Earns(s, step, e, row)
  {
    StepIsMove(s, step, e);
    var move := MoveOf(s, step, e);
    if move.Recovers? {
      RecoveryBackoffFloor(s.rows[e], move.at, move.cfg);
    }
  }

  lemma {:induction false} EarnedOrOld(s: State, run: seq<Step>, e: EventId)
    requires Feasible(s, run) && e in s.rows && e in Exec(s, run).rows && !Terminal(Exec(s, run).rows[e])
    ensures var row := Exec(s, run).rows[e];
            SameSchedule(s.rows[e], row) || EarnedIn(s, run, e, row)
    decreases |run|
  {
    if run != [] {
      var t, row := Apply(s, run[0]), Exec(s, run).rows[e];
      StepIsMove(s, run[0], e);
      EarnedOrOld(t, run[1..], e);
      if Terminal(t.rows[e]) {
        TerminalIsFinal(t, run[1..], e);
      } else if SameSchedule(t.rows[e], row) {
        MoveEarns(s, run[0], e, row);
      }
    }
  }

  /** Every live event that was ever released was given its schedule by its last release: a failed
      one by the failure that left it its attempts, at that time plus their delay; otherwise by a
      failure or by a recovery at its time plus the delay of the larger counter. */
  lemma {:induction false} ScheduleIsEarned(s: State, run: seq<Step>, e: EventId)
    requires Feasible(s, run) && e !in s.rows && e in Exec(s, run).rows
    requires !Terminal(Exec(s, run).rows[e]) && Releases(Exec(s, run).rows[e]) > 0
    ensures EarnedIn(s, run, e, Exec(s, run).rows[e])
    decreases |run|
  {
    var t := Apply(s, run[0]);
    if e in t.rows {
      EarnedOrOld(t, run[1..], e);
    } else {
      ScheduleIsEarned(t, run[1..], e);
    }
  }

  // ----- What may be claimed and recovered

  predicate NoRetry(step: Step) {
    ConfigOf(step).Some? ==> !ConfigOf(step).value.retryFailed
  }

  /** While failed events are not to be retried, no run touches one. */
  lemma {:induction false} RetryOffLeavesFailed(s: State, run: seq<Step>, e: EventId)
    requires Feasible(s, run) && forall step :: step in run ==> NoRetry(step)
    requires e in s.rows && s.rows[e].status == Failed
    ensures e in Exec(s, run).rows && Exec(s, run).rows[e] == s.rows[e]
    decreases |run|
  {
    if run != [] {
      assert NoRetry(run[0]);
      RetryOffLeavesFailed(Apply(s, run[0]), run[1..], e);
    }
  }

  /** A new event is unclaimed and pending, with nothing counted against it, and its time has come. */
  lemma NewEventIsDue(s: State, e: EventId, ns: Namespace, sinceBuilt: nat, cfg: Config)
    requires Enabled(s, Insert(e, ns, sinceBuilt))
    ensures var row := Apply(s, Insert(e, ns, sinceBuilt)).rows[e];
            && row.ns == ns && row.status == Pending && row.attempts == row.recoveries == 0
            && row.lastError == "" && row.createdAt == s.now && row.availableAt == s.now - sinceBuilt
            && row.claimId.None? && row.claimedAt.None? && row.claimExpiresAt.None? && row.publishedAt.None?
            && (Due(row, s.now, cfg) <==> ns.kind.None? || cfg.namespaceWrites)
  {}

  /** Whatever else happens, a worker publishes right after it claims, and completes only once its publish
      call has returned or raised. */
  lemma CompletableIs(s: State, w: WorkerId, skipped: bool, error: string, cfg: Config)
    requires cfg.Valid()
    ensures Enabled(s, Complete(w, skipped, error, cfg))
            <==> w in s.workers && (s.workers[w].phase == Returned || s.workers[w].phase == Raised)
    ensures Enabled(s, PublishReturns(w)) <==> Enabled(s, PublishRaises(w))
    ensures Enabled(s, PublishReturns(w))
            <==> w in s.workers && !Enabled(s, Complete(w, skipped, error, cfg))
  {}

  /** An event can be claimed exactly if it is pending, or failed and retries are on; its time has come;
      and it is global, or namespaced writes are on. */
  lemma ClaimableIs(s: State, w: WorkerId, e: EventId, token: Token, elapsed: nat, cfg: Config)
    requires cfg.Valid() && w !in s.workers && token !in s.tokens && e in s.rows
    ensures var row := s.rows[e];
            Enabled(s, ClaimNext(w, e, token, elapsed, cfg))
            <==> && (if row.status == Failed then cfg.retryFailed else row.status == Pending)
                 && s.now >= row.availableAt && (row.ns.kind.Some? ==> cfg.namespaceWrites)
  {}

  /** A claim can be taken back exactly if it has run out, and it is of a global event or namespaced
      writes are on. */
  lemma RecoverableIs(s: State, e: EventId, elapsed: nat, cfg: Config)
    requires Inv(s) && cfg.Valid() && e in s.rows
    ensures var row := s.rows[e];
            Enabled(s, Recover(e, elapsed, cfg))
            <==> row.claimId.Some? && s.now >= row.claimExpiresAt.value && (row.ns.kind.Some? ==> cfg.namespaceWrites)
  {
    assert RowShape(s.rows[e], s.now);
  }

  // ----- The write kill-switch

  predicate Gated(step: Step) {
    ConfigOf(step).Some? ==> !ConfigOf(step).value.namespaceWrites
  }

  /** While the switch is off a namespaced event is neither claimed nor recovered, and it stays
      exactly as it is unless an earlier claim on it is still being completed. */
  lemma {:induction false} SwitchOffFreezes(s: State, run: seq<Step>, e: EventId)
    requires Feasible(s, run) && forall step :: step in run ==> Gated(step)
    requires e in s.rows && !s.rows[e].ns.IsGlobal()
    ensures var t := Exec(s, run);
            && e in t.rows
            && Count(t.claims, e) == Count(s.claims, e)
            && t.rows[e].recoveries == s.rows[e].recoveries
            && (s.rows[e].status != Processing ==> t.rows[e] == s.rows[e])
    decreases |run|
  {
    if run != [] {
      assert Gated(run[0]);
      SwitchOffFreezes(Apply(s, run[0]), run[1..], e);
    }
  }
}
