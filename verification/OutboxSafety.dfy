/** What every interleaving of dispatcher steps keeps: conservation of claims, the bound on
    deliveries, attempt limits, and the shape of every row. */
module OutboxSafety {
  import opened Scopes
  import opened Outbox

  /** Workers on an event whose publish call has not returned normally. */
  function Flying(s: State, e: EventId): set<WorkerId> {
    set w | w in s.workers && s.workers[w].event == e && s.workers[w].phase != Returned
  }

  predicate Live(row: Row) {
    row.status == Processing || row.status == Published
  }

  predicate Terminal(row: Row) {
    row.status == Published || row.status == DeadLetter
  }

  /** The claim columns are set exactly while the row is claimed. */
  predicate RowShape(row: Row, now: int) {
    && (row.claimId.Some? <==> row.status == Processing)
    && (row.claimedAt.Some? <==> row.status == Processing)
    && (row.claimExpiresAt.Some? <==> row.status == Processing)
    && (row.publishedAt.Some? <==> row.status == Published)
    && (row.status == Published ==> row.lastError == "" && row.attempts >= 1)
    && (row.status == Processing ==>
          row.availableAt <= row.claimedAt.value <= now
          && row.claimedAt.value < row.claimExpiresAt.value)
  }

  /** Claims taken are conserved: each is accounted for by an attempt, a recovery, or the
      claim in progress; and each returned publish is paid for by a recovery or a live claim. */
  predicate Ledger(s: State, e: EventId)
    requires e in s.rows
  {
    var row := s.rows[e];
    && Count(s.claims, e) == row.attempts + row.recoveries + Bit(row.status == Processing)
    && Count(s.deliveries, e) + |Flying(s, e)| <= row.recoveries + Bit(Live(row))
    && (row.status == Published ==> Count(s.deliveries, e) >= 1)
  }

  ghost predicate WorkersOk(s: State) {
    && (forall w :: w in s.workers ==>
          && s.workers[w].event in s.rows
          && s.workers[w].token in s.tokens
          && (s.workers[w].phase == Returned ==> Count(s.deliveries, s.workers[w].event) >= 1))
    && (forall v, w :: v in s.workers && w in s.workers && v != w ==>
          s.workers[v].token != s.workers[w].token)
  }

  ghost predicate RowsOk(s: State) {
    forall e :: e in s.rows ==> RowShape(s.rows[e], s.now) && Ledger(s, e)
  }

  ghost predicate CountersOk(s: State) {
    && (forall e :: e in s.claims ==> e in s.rows)
    && (forall e :: e in s.deliveries ==> e in s.rows)
  }

  ghost predicate Inv(s: State) {
    RowsOk(s) && CountersOk(s) && WorkersOk(s)
  }

  lemma WithOrWithout(workers: set<WorkerId>, w: WorkerId)
    ensures |workers| == |workers - {w}| + Bit(w in workers)
  {}

  ghost predicate SameBut(s: State, t: State, w: WorkerId) {
    forall v | v != w ::
      (v in s.workers <==> v in t.workers) && (v in s.workers ==> s.workers[v] == t.workers[v])
  }

  /** Only what happened to worker `w` can change the size of a flying set. */
  lemma FlyingChange(s: State, t: State, w: WorkerId, e: EventId)
    requires SameBut(s, t, w)
    ensures |Flying(t, e)| - Bit(w in Flying(t, e)) == |Flying(s, e)| - Bit(w in Flying(s, e))
  {
    WithOrWithout(Flying(s, e), w);
    WithOrWithout(Flying(t, e), w);
    SameOthers(s, t, w, e);
  }

  lemma SameOthers(s: State, t: State, w: WorkerId, e: EventId)
    requires SameBut(s, t, w)
    ensures Flying(t, e) - {w} == Flying(s, e) - {w}
  {}

  /** The worker a step is about. */
  function Actor(step: Step): WorkerId {
    match step
    case ClaimNext(w, _, _, _, _) => w
    case PublishReturns(w) => w
    case PublishRaises(w) => w
    case Complete(w, _, _, _) => w
    case Crash(w) => w
    case _ => 0
  }

  predicate Flies(s: State, w: WorkerId, e: EventId) {
    w in s.workers && s.workers[w].event == e && s.workers[w].phase != Returned
  }

  lemma StepChangesActor(s: State, step: Step, e: EventId)
    requires Enabled(s, step)
    ensures var t, w := Apply(s, step), Actor(step);
            |Flying(t, e)| - Bit(Flies(t, w, e)) == |Flying(s, e)| - Bit(Flies(s, w, e))
  {
    var t, w := Apply(s, step), Actor(step);
    FlyingChange(s, t, w, e);
    assert w in Flying(s, e) <==> Flies(s, w, e);
    assert w in Flying(t, e) <==> Flies(t, w, e);
  }

  ghost predicate RowBefore(s: State, e: EventId) {
    if e in s.rows then RowShape(s.rows[e], s.now) && Ledger(s, e)
    else Count(s.claims, e) == Count(s.deliveries, e) == 0 && Flying(s, e) == {}
  }

  lemma CompleteKeepsRow(s: State, step: Step, e: EventId)
    requires Enabled(s, step) && step.Complete? && e in Apply(s, step).rows && RowBefore(s, e)
    requires s.workers[step.w].phase == Returned ==> Count(s.deliveries, s.workers[step.w].event) >= 1
    ensures RowShape(Apply(s, step).rows[e], Apply(s, step).now) && Ledger(Apply(s, step), e)
  {
    StepChangesActor(s, step, e);
  }

  lemma ClaimKeepsRow(s: State, step: Step, e: EventId)
    requires Enabled(s, step) && step.ClaimNext? && e in Apply(s, step).rows && RowBefore(s, e)
    ensures RowShape(Apply(s, step).rows[e], Apply(s, step).now) && Ledger(Apply(s, step), e)
  {
    StepChangesActor(s, step, e);
  }

  lemma SendKeepsRow(s: State, step: Step, e: EventId)
    requires Enabled(s, step) && (step.PublishReturns? || step.PublishRaises? || step.Crash?)
    requires e in Apply(s, step).rows && RowBefore(s, e)
    ensures RowShape(Apply(s, step).rows[e], Apply(s, step).now) && Ledger(Apply(s, step), e)
  {
    StepChangesActor(s, step, e);
  }

  lemma TableStepKeepsRow(s: State, step: Step, e: EventId)
    requires Enabled(s, step) && (step.Insert? || step.Recover? || step.Tick?)
    requires e in Apply(s, step).rows && RowBefore(s, e)
    ensures RowShape(Apply(s, step).rows[e], Apply(s, step).now) && Ledger(Apply(s, step), e)
  {}

  /** One step seen from one row. */
  lemma StepKeepsRow(s: State, step: Step, e: EventId)
    requires Enabled(s, step) && e in Apply(s, step).rows && RowBefore(s, e)
    requires step.Complete? && s.workers[step.w].phase == Returned ==>
               Count(s.deliveries, s.workers[step.w].event) >= 1
    ensures RowShape(Apply(s, step).rows[e], Apply(s, step).now) && Ledger(Apply(s, step), e)
  {
    if step.Complete? {
      CompleteKeepsRow(s, step, e);
    } else if step.ClaimNext? {
      ClaimKeepsRow(s, step, e);
    } else if step.Insert? || step.Recover? || step.Tick? {
      TableStepKeepsRow(s, step, e);
    } else {
      SendKeepsRow(s, step, e);
    }
  }

  lemma StepKeepsRows(s: State, step: Step)
    requires Inv(s) && Enabled(s, step)
    ensures RowsOk(Apply(s, step))
  {
    var t := Apply(s, step);
    forall e | e in t.rows ensures RowShape(t.rows[e], t.now) && Ledger(t, e) {
      if e !in s.rows {
        assert Flying(s, e) == {};
      }
      StepKeepsRow(s, step, e);
    }
  }

  lemma StepKeepsWorkers(s: State, step: Step)
    requires WorkersOk(s) && Enabled(s, step)
    ensures WorkersOk(Apply(s, step))
  {}

  lemma StepKeepsCounters(s: State, step: Step)
    requires CountersOk(s) && WorkersOk(s) && Enabled(s, step)
    ensures CountersOk(Apply(s, step))
  {}

  /** Every step of every worker keeps the invariant. */
  lemma StepKeepsInv(s: State, step: Step)
    requires Inv(s) && Enabled(s, step)
    ensures Inv(Apply(s, step))
  {
    StepKeepsRows(s, step);
    StepKeepsCounters(s, step);
    StepKeepsWorkers(s, step);
  }

  lemma {:induction false} RunKeepsInv(s: State, run: seq<Step>)
    requires Inv(s) && Feasible(s, run)
    ensures Inv(Exec(s, run))
    decreases |run|
  {
    if run != [] {
      StepKeepsInv(s, run[0]);
      RunKeepsInv(Apply(s, run[0]), run[1..]);
    }
  }

  lemma ReachableInv(s: State)
    requires Reachable(s)
    ensures Inv(s)
  {
    var t0, run :| Feasible(Initial(t0), run) && Exec(Initial(t0), run) == s;
    RunKeepsInv(Initial(t0), run);
  }
}
