/** The sequential dispatcher loop over the outbox table, proved to be a run of the protocol and,
    under a frozen clock, to take the due events in order. */
module Dispatcher {
  import opened Scopes
  import opened Outbox
  import opened OutboxSafety
  import opened OutboxProgress
  import opened OutboxScores

  type Table = map<EventId, Row>

  /** The two queries the dispatcher polls. */
  datatype Queue = DueQueue | ExpiredQueue

  predicate InQueue(q: Queue, row: Row, now: int, cfg: Config) {
    match q
    case DueQueue => Due(row, now, cfg)
    case ExpiredQueue => Expired(row, now, cfg)
  }

  function Pool(q: Queue, rows: Table, now: int, cfg: Config): set<EventId> {
    set e | e in rows && InQueue(q, rows[e], now, cfg)
  }

  function SortKey(q: Queue, row: Row): int {
    match q
    case DueQueue => row.availableAt
    case ExpiredQueue => if row.claimExpiresAt.Some? then row.claimExpiresAt.value else 0
  }

  /** The order of a queue: its own timestamp, then creation time, then id. */
  predicate Before(q: Queue, rows: Table, d: EventId, e: EventId)
    requires d in rows && e in rows
  {
    var (kd, ke) := (SortKey(q, rows[d]), SortKey(q, rows[e]));
    || kd < ke
    || (kd == ke && rows[d].createdAt < rows[e].createdAt)
    || (kd == ke && rows[d].createdAt == rows[e].createdAt && d < e)
  }

  predicate Lexicographic(a: (int, int, int), b: (int, int, int)) {
    a.0 < b.0 || (a.0 == b.0 && (a.1 < b.1 || (a.1 == b.1 && a.2 < b.2)))
  }

  /** The two queues in terms of a run's own settings and the table's columns: which rows are in them,
      and by which columns they are ordered. */
  lemma QueuesAre(rows: Table, d: EventId, e: EventId, now: int, maxAttempts: int, retryBase: int,
                  retryMax: int, claimTimeout: int, retryFailed: bool, namespaceWrites: bool)
    requires d in rows && e in rows
    ensures var cfg := Clamp(maxAttempts, retryBase, retryMax, claimTimeout, retryFailed, namespaceWrites);
            && (e in Pool(DueQueue, rows, now, cfg)
                <==> && (rows[e].status == Pending || (rows[e].status == Failed && retryFailed))
                     && rows[e].availableAt <= now && (rows[e].ns.kind.None? || namespaceWrites))
            && (e in Pool(ExpiredQueue, rows, now, cfg)
                <==> && rows[e].status == Processing && rows[e].claimExpiresAt.Some?
                     && rows[e].claimExpiresAt.value <= now && (rows[e].ns.kind.None? || namespaceWrites))
    ensures Before(DueQueue, rows, d, e)
            <==> Lexicographic((rows[d].availableAt, rows[d].createdAt, d), (rows[e].availableAt, rows[e].createdAt, e))
    ensures rows[d].claimExpiresAt.Some? && rows[e].claimExpiresAt.Some? ==>
              (Before(ExpiredQueue, rows, d, e)
               <==> Lexicographic((rows[d].claimExpiresAt.value, rows[d].createdAt, d),
                                  (rows[e].claimExpiresAt.value, rows[e].createdAt, e)))
  {}

  predicate IsFirst(q: Queue, rows: Table, pool: set<EventId>, e: EventId)
    requires pool <= rows.Keys
  {
    e in pool && forall f :: f in pool && f != e ==> Before(q, rows, e, f)
  }

  lemma FirstOfMore(q: Queue, rows: Table, seen: set<EventId>, best: EventId, e: EventId)
    requires seen <= rows.Keys && e in rows && e !in seen && IsFirst(q, rows, seen, best)
    ensures IsFirst(q, rows, seen + {e}, if Before(q, rows, e, best) then e else best)
  {}

  /** `done` was taken off the queue in order, leaving every other row alone. */
  ghost predicate Swept(q: Queue, before: Table, after: Table, now: int, cfg: Config,
                        done: seq<EventId>) {
    && after.Keys == before.Keys
    && (forall i :: 0 <= i < |done| ==> done[i] in Pool(q, before, now, cfg))
    && (forall i, j :: 0 <= i < j < |done| ==> Before(q, before, done[i], done[j]))
    && (forall e :: e in before && e !in done ==> after[e] == before[e])
    && (forall e :: e in Pool(q, after, now, cfg) ==> e !in done)
    && (forall i, e :: 0 <= i < |done| && e in Pool(q, after, now, cfg) ==>
          Before(q, before, done[i], e))
  }

  lemma SweptNext(q: Queue, before: Table, mid: Table, now: int, cfg: Config,
                  done: seq<EventId>, e: EventId, row: Row)
    requires Swept(q, before, mid, now, cfg, done)
    requires IsFirst(q, mid, Pool(q, mid, now, cfg), e) && !InQueue(q, row, now, cfg)
    ensures Swept(q, before, mid[e := row], now, cfg, done + [e])
    ensures e !in done && e in before && mid[e] == before[e]
  {
    var after := mid[e := row];
    forall f | f in Pool(q, after, now, cfg)
      ensures f in Pool(q, mid, now, cfg) && f != e && f !in done && Before(q, before, e, f)
    {
      assert f in Pool(q, mid, now, cfg);
      assert Before(q, mid, e, f) && mid[f] == before[f];
    }
    SweptOrder(q, before, mid, after, now, cfg, done, e);
  }

  lemma SweptOrder(q: Queue, before: Table, mid: Table, after: Table, now: int, cfg: Config,
                   done: seq<EventId>, e: EventId)
    requires Swept(q, before, mid, now, cfg, done)
    requires e in Pool(q, mid, now, cfg)
    requires forall f :: f in Pool(q, after, now, cfg) ==>
               f in Pool(q, mid, now, cfg) && f != e && f !in done && Before(q, before, e, f)
    requires after.Keys == mid.Keys && forall f :: f in mid && f != e ==> after[f] == mid[f]
    ensures Swept(q, before, after, now, cfg, done + [e])
  {
    var more := done + [e];
    forall i, f | 0 <= i < |more| && f in Pool(q, after, now, cfg)
      ensures Before(q, before, more[i], f)
    {
      assert i < |done| ==> Before(q, before, done[i], f);
    }
  }

  lemma {:induction false} DistinctCount(done: seq<EventId>, pool: set<EventId>)
    requires forall i, j :: 0 <= i < j < |done| ==> done[i] != done[j]
    requires pool == set e | e in done
    ensures |pool| == |done|
    decreases |done|
  {
    if done != [] {
      var last := |done| - 1;
      var rest := set e | e in done[..last];
      DistinctCount(done[..last], rest);
      assert pool == rest + {done[last]} by {
        assert done == done[..last] + [done[last]];
      }
    } else {
      assert pool == {};
    }
  }

  /** `done` is exactly the first `limit` events of the queue, in order. */
  ghost predicate TookFirst(q: Queue, before: Table, limit: nat, now: int, cfg: Config,
                            done: seq<EventId>) {
    && |done| == Min(limit, |Pool(q, before, now, cfg)|)
    && (forall i :: 0 <= i < |done| ==> done[i] in Pool(q, before, now, cfg))
    && (forall i, j :: 0 <= i < j < |done| ==> Before(q, before, done[i], done[j]))
    && (forall e, i :: e in Pool(q, before, now, cfg) && e !in done && 0 <= i < |done| ==>
          Before(q, before, done[i], e))
  }

  /** A sweep that stopped at the limit or at an empty queue took exactly the first
      min(limit, queue length) events. */
  lemma SweptAll(q: Queue, before: Table, after: Table, now: int, cfg: Config,
                 done: seq<EventId>, limit: nat)
    requires Swept(q, before, after, now, cfg, done)
    requires |done| <= limit && (|done| == limit || Pool(q, after, now, cfg) == {})
    ensures TookFirst(q, before, limit, now, cfg, done)
  {
    var pool, left := Pool(q, before, now, cfg), Pool(q, after, now, cfg);
    var taken := set e | e in done;
    DistinctCount(done, taken);
    forall e | e in pool && e !in done ensures e in left {}
    assert pool == taken + (pool - taken);
    if left == {} {
      assert pool == taken;
    }
  }

  // ----- The dispatcher as protocol runs

  ghost predicate Leads(s: State, t: State) {
    exists run :: Feasible(s, run) && Exec(s, run) == t
  }

  lemma LeadsSelf(s: State)
    ensures Leads(s, s)
  {
    assert Feasible(s, []);
  }

  lemma LeadsStep(s: State, t: State, step: Step)
    requires Leads(s, t) && Enabled(t, step)
    ensures Leads(s, Apply(t, step))
  {
    var run :| Feasible(s, run) && Exec(s, run) == t;
    AndThen(s, run, step);
  }

  lemma LeadsOn(s: State, t: State, u: State)
    requires Leads(s, t) && Leads(t, u)
    ensures Leads(s, u)
  {
    var first :| Feasible(s, first) && Exec(s, first) == t;
    var rest :| Feasible(t, rest) && Exec(t, rest) == u;
    RunAppend(s, first, rest);
  }

  lemma ReachableLeads(s: State, t: State)
    requires Reachable(s) && Leads(s, t)
    ensures Reachable(t)
  {
    var t0, run :| Feasible(Initial(t0), run) && Exec(Initial(t0), run) == s;
    assert Leads(Initial(t0), s);
    LeadsOn(Initial(t0), s, t);
    var whole :| Feasible(Initial(t0), whole) && Exec(Initial(t0), whole) == t;
  }

  /** The protocol steps of one completion: the publish call ends, then the claim is settled. */
  lemma CompletionLeads(s: State, w: WorkerId, outcome: Outcome, at: int, cfg: Config)
    requires w in s.workers && s.workers[w].phase == Sending && s.now <= at && cfg.Valid()
    ensures Leads(s, Completed(s, w, outcome, at, cfg))
  {
    LeadsSelf(s);
    var publish := if outcome.None? then PublishReturns(w) else PublishRaises(w);
    LeadsStep(s, s, publish);
    var t := Apply(s, publish);
    LeadsStep(s, t, Tick(at - s.now));
    var u := Apply(t, Tick(at - s.now));
    var done := Complete(w, false, if outcome.None? then "" else outcome.value, cfg);
    LeadsStep(s, u, done);
    assert u.workers - {w} == s.workers - {w};
    assert Apply(u, done) == Completed(s, w, outcome, at, cfg);
  }

  function Completed(s: State, w: WorkerId, outcome: Outcome, at: int, cfg: Config): State
    requires w in s.workers
  {
    var worker := s.workers[w];
    s.(workers := s.workers - {w},
       now := at,
       deliveries := if outcome.None? then Bump(s.deliveries, worker.event) else s.deliveries,
       rows := if HoldsClaim(s, worker)
               then s.rows[worker.event := Settled(s.rows[worker.event], outcome, at, cfg)]
               else s.rows)
  }

  lemma TurnEnds(s: State, w: WorkerId, e: EventId, token: Token, elapsed: nat, outcome: Outcome, at: int,
                 cfg: Config)
    requires Enabled(s, ClaimNext(w, e, token, elapsed, cfg)) && s.now + elapsed <= at
    ensures var t := Completed(Apply(s, ClaimNext(w, e, token, elapsed, cfg)), w, outcome, at, cfg);
            && t.rows == s.rows[e := Settled(s.rows[e], outcome, at, cfg)]
            && t.workers == s.workers && t.tokens == s.tokens + {token}
  {
    var mid := Apply(s, ClaimNext(w, e, token, elapsed, cfg));
    assert mid.workers - {w} == s.workers;
  }

  /** A claim followed by its completion is one protocol run; the claim itself leaves no trace
      on the settled row. */
  lemma TurnLeads(s: State, w: WorkerId, e: EventId, token: Token, elapsed: nat, outcome: Outcome, at: int,
                  cfg: Config)
    requires Reachable(s) && Enabled(s, ClaimNext(w, e, token, elapsed, cfg)) && s.now + elapsed <= at
    ensures var t := Completed(Apply(s, ClaimNext(w, e, token, elapsed, cfg)), w, outcome, at, cfg);
            && Leads(s, t) && Reachable(t)
            && t.rows == s.rows[e := Settled(s.rows[e], outcome, at, cfg)]
            && t.workers == s.workers && t.tokens == s.tokens + {token}
  {
    var claim := ClaimNext(w, e, token, elapsed, cfg);
    LeadsSelf(s);
    LeadsStep(s, s, claim);
    var mid := Apply(s, claim);
    CompletionLeads(mid, w, outcome, at, cfg);
    var t := Completed(mid, w, outcome, at, cfg);
    LeadsOn(s, mid, t);
    ReachableLeads(s, t);
    TurnEnds(s, w, e, token, elapsed, outcome, at, cfg);
  }

  datatype Summary = Summary(published: nat, failed: nat, deadLettered: nat, recovered: nat)

  /** The outcome of one publish call: None when it returned, the error when it raised. */
  type Outcome = Option<string>

  function Settled(row: Row, outcome: Outcome, now: int, cfg: Config): Row {
    match outcome
    case None => MarkPublished(row, now)
    case Some(error) => MarkFailed(row, error, now, cfg)
  }

  function Tally(outcomes: seq<Status>, recovered: nat): Summary {
    var m := multiset(outcomes);
    Summary(m[Published], m[Failed], m[DeadLetter], recovered)
  }

  ghost predicate Ascending(clock: nat -> int) {
    forall i: nat, j: nat :: i <= j ==> clock(i) <= clock(j)
  }

  ghost predicate Frozen(clock: nat -> int) {
    forall i: nat :: clock(i) == clock(0)
  }

  /** Each handled row holds the settlement of its publish outcome; no other row changed. */
  ghost predicate Settles(before: Table, after: Table, now: int, cfg: Config, done: seq<EventId>,
                          transport: nat -> Outcome)
  {
    && after.Keys == before.Keys
    && (forall e :: e in before && e !in done ==> after[e] == before[e])
    && (forall i :: 0 <= i < |done| ==>
          done[i] in before && after[done[i]] == Settled(before[done[i]], transport(i), now, cfg))
  }

  /** What a frozen clock gives: the turns so far took the queue in order, each settled its row,
      and each reported the status it left. */
  ghost predicate Turns(before: Table, after: Table, now: int, cfg: Config, done: seq<EventId>,
                        outcomes: seq<Status>, transport: nat -> Outcome)
  {
    && Swept(DueQueue, before, after, now, cfg, done)
    && Settles(before, after, now, cfg, done, transport)
    && |outcomes| == |done|
    && (forall i :: 0 <= i < |done| ==> outcomes[i] == after[done[i]].status)
  }

  lemma SettlesNext(before: Table, mid: Table, now: int, cfg: Config, done: seq<EventId>,
                    transport: nat -> Outcome, e: EventId)
    requires Settles(before, mid, now, cfg, done, transport)
    requires e !in done && e in before && mid[e] == before[e]
    ensures Settles(before, mid[e := Settled(mid[e], transport(|done|), now, cfg)], now, cfg,
                    done + [e], transport)
  {
  }

  lemma NextTurn(before: Table, mid: Table, now: int, cfg: Config, done: seq<EventId>,
                 outcomes: seq<Status>, transport: nat -> Outcome, e: EventId)
    requires cfg.Valid() && Turns(before, mid, now, cfg, done, outcomes, transport)
    requires IsFirst(DueQueue, mid, Pool(DueQueue, mid, now, cfg), e)
    ensures var row := Settled(mid[e], transport(|done|), now, cfg);
            Turns(before, mid[e := row], now, cfg, done + [e], outcomes + [row.status], transport)
  {
    var row := Settled(mid[e], transport(|done|), now, cfg);
    SettledNotDue(mid[e], transport(|done|), now, cfg);
    SweptNext(DueQueue, before, mid, now, cfg, done, e, row);
    SettlesNext(before, mid, now, cfg, done, transport, e);
    var after, more := mid[e := row], outcomes + [row.status];
    forall i | 0 <= i < |done + [e]| ensures more[i] == after[(done + [e])[i]].status {
      if i < |done| {
        assert done[i] in done;
      }
    }
  }

  function Counted(summary: Summary, status: Status): Summary {
    match status
    case Published => summary.(published := summary.published + 1)
    case Failed => summary.(failed := summary.failed + 1)
    case DeadLetter => summary.(deadLettered := summary.deadLettered + 1)
    case _ => summary
  }

  /** A row settled now is not due again before the clock moves. */
  lemma SettledNotDue(row: Row, outcome: Outcome, now: int, cfg: Config)
    requires cfg.Valid()
    ensures !Due(Settled(row, outcome, now, cfg), now, cfg)
    ensures Settled(row, outcome, now, cfg).status in {Published, Failed, DeadLetter}
  {}

  lemma TallyNext(outcomes: seq<Status>, status: Status)
    ensures Tally(outcomes + [status], 0) == Counted(Tally(outcomes, 0), status)
  {}

  /** The summary is what happened: so many rows were published, so many dead-lettered, one attempt
      was counted for each outcome and one recovery for each claim put back. */
  ghost predicate Accounts(before: Table, after: Table, s: Summary) {
    var (first, last) := (Total(before), Total(after));
    && last.published == first.published + s.published
    && last.deadLettered == first.deadLettered + s.deadLettered
    && last.attempts == first.attempts + s.published + s.failed + s.deadLettered
    && last.recoveries == first.recoveries + s.recovered
  }

  lemma SettledAccounts(before: Table, mid: Table, s: Summary, e: EventId, outcome: Outcome, now: int,
                        at: int, cfg: Config)
    requires Accounts(before, mid, s) && cfg.Valid() && e in Pool(DueQueue, mid, now, cfg)
    ensures var row := Settled(mid[e], outcome, at, cfg);
            Accounts(before, mid[e := row], Counted(s, row.status))
  {
    var row := Settled(mid[e], outcome, at, cfg);
    TotalUpdate(mid, e, row, Score(Bit(row.status == Published), Bit(row.status == DeadLetter), 1, 0));
  }

  lemma RecoveredAccounts(before: Table, mid: Table, n: nat, e: EventId, now: int, at: int, cfg: Config)
    requires Accounts(before, mid, Summary(0, 0, 0, n)) && e in Pool(ExpiredQueue, mid, now, cfg)
    ensures Accounts(before, mid[e := MarkRecovered(mid[e], at, cfg)], Summary(0, 0, 0, n + 1))
  {
    TotalUpdate(mid, e, MarkRecovered(mid[e], at, cfg), Score(0, 0, 0, 1));
  }

  lemma AccountsOn(before: Table, mid: Table, after: Table, s: Summary, n: nat)
    requires Accounts(before, mid, s) && Accounts(mid, after, Summary(0, 0, 0, n))
    ensures Accounts(before, after, s.(recovered := s.recovered + n))
  {}

  /** With the write switch off, namespaced rows stay as they are. */
  ghost predicate GateKept(before: Table, after: Table, cfg: Config) {
    && after.Keys == before.Keys
    && (forall e :: e in before ==>
          && after[e].ns == before[e].ns
          && (!GateOpen(before[e], cfg) ==> after[e] == before[e]))
  }

  lemma SettledGateKept(before: Table, mid: Table, e: EventId, outcome: Outcome, now: int, at: int, cfg: Config)
    requires GateKept(before, mid, cfg) && e in Pool(DueQueue, mid, now, cfg)
    ensures GateKept(before, mid[e := Settled(mid[e], outcome, at, cfg)], cfg)
  {}

  lemma RecoveredGateKept(before: Table, mid: Table, e: EventId, now: int, at: int, cfg: Config)
    requires GateKept(before, mid, cfg) && e in Pool(ExpiredQueue, mid, now, cfg)
    ensures GateKept(before, mid[e := MarkRecovered(mid[e], at, cfg)], cfg)
  {}

  /** Each recovered row is back in the queue; no other row changed. */
  ghost predicate Requeues(before: Table, after: Table, now: int, cfg: Config, done: seq<EventId>)
  {
    && after.Keys == before.Keys
    && (forall e :: e in before && e !in done ==> after[e] == before[e])
    && (forall i :: 0 <= i < |done| ==>
          done[i] in before && after[done[i]] == MarkRecovered(before[done[i]], now, cfg))
  }

  ghost predicate Passes(before: Table, after: Table, now: int, cfg: Config, done: seq<EventId>) {
    && Swept(ExpiredQueue, before, after, now, cfg, done)
    && Requeues(before, after, now, cfg, done)
  }

  lemma NextPass(before: Table, mid: Table, now: int, cfg: Config, done: seq<EventId>, e: EventId)
    requires Passes(before, mid, now, cfg, done)
    requires IsFirst(ExpiredQueue, mid, Pool(ExpiredQueue, mid, now, cfg), e)
    ensures Passes(before, mid[e := MarkRecovered(mid[e], now, cfg)], now, cfg, done + [e])
  {
    SweptNext(ExpiredQueue, before, mid, now, cfg, done, e, MarkRecovered(mid[e], now, cfg));
  }

  /** Deliveries do not touch the queue of expired claims. */
  lemma ExpiredUntouched(before: Table, mid: Table, limit: nat, now: int, cfg: Config,
                         done: seq<EventId>, back: seq<EventId>, transport: nat -> Outcome)
    requires cfg.Valid() && Settles(before, mid, now, cfg, done, transport)
    requires forall i :: 0 <= i < |done| ==> done[i] in Pool(DueQueue, before, now, cfg)
    requires TookFirst(ExpiredQueue, mid, limit, now, cfg, back)
    ensures TookFirst(ExpiredQueue, before, limit, now, cfg, back)
    ensures forall i :: 0 <= i < |back| ==> back[i] !in done
  {
    forall e | e in done
      ensures e !in Pool(ExpiredQueue, before, now, cfg) && e !in Pool(ExpiredQueue, mid, now, cfg)
    {
      var i :| 0 <= i < |done| && done[i] == e;
      SettledNotDue(before[e], transport(i), now, cfg);
      assert Due(before[e], now, cfg);
    }
    assert Pool(ExpiredQueue, mid, now, cfg) == Pool(ExpiredQueue, before, now, cfg);
  }

  // ----- The two loops so far

  /** The summary is what happened, and closed gates stayed closed. */
  ghost predicate Counts(before: Table, after: Table, cfg: Config, outcomes: seq<Status>, summary: Summary) {
    summary == Tally(outcomes, 0) && GateKept(before, after, cfg) && Accounts(before, after, summary)
  }

  lemma CountsNext(before: Table, mid: Table, cfg: Config, outcomes: seq<Status>, summary: Summary,
                   e: EventId, outcome: Outcome, now: int, at: int)
    requires cfg.Valid() && Counts(before, mid, cfg, outcomes, summary) && e in Pool(DueQueue, mid, now, cfg)
    ensures var row := Settled(mid[e], outcome, at, cfg);
            Counts(before, mid[e := row], cfg, outcomes + [row.status], Counted(summary, row.status))
  {
    SettledGateKept(before, mid, e, outcome, now, at, cfg);
    TallyNext(outcomes, Settled(mid[e], outcome, at, cfg).status);
    SettledAccounts(before, mid, summary, e, outcome, now, at, cfg);
  }

  /** The recovery loop counted right, and closed gates stayed closed. */
  ghost predicate Recovered(before: Table, after: Table, cfg: Config, n: nat) {
    GateKept(before, after, cfg) && Accounts(before, after, Summary(0, 0, 0, n))
  }

  lemma RecoveredNext(before: Table, mid: Table, cfg: Config, n: nat, e: EventId, now: int, at: int)
    requires Recovered(before, mid, cfg, n) && e in Pool(ExpiredQueue, mid, now, cfg)
    ensures Recovered(before, mid[e := MarkRecovered(mid[e], at, cfg)], cfg, n + 1)
  {
    RecoveredAccounts(before, mid, n, e, now, at, cfg);
    RecoveredGateKept(before, mid, e, now, at, cfg);
  }

  // ----- A run on its own arguments

  /** The delay after so many earlier attempts, under the settings a run is given. */
  function Backoff(earlier: nat, retryBase: int, retryMax: int): int {
    var base := if retryBase < 1 then 1 else retryBase;
    Min(if retryMax < base then base else retryMax, base * Pow2(earlier))
  }

  /** What a delivery makes of a row: published if the publish call returned; otherwise the error is
      noted, and the row is a dead letter exactly if this was the last attempt permitted, or failed
      and scheduled after the delay. */
  ghost predicate DeliveredAs(before: Row, after: Row, outcome: Outcome, now: int, maxAttempts: int,
                              retryBase: int, retryMax: int) {
    && after.ns == before.ns && after.createdAt == before.createdAt
    && after.attempts == before.attempts + 1 && after.recoveries == before.recoveries
    && after.claimId.None? && after.claimedAt.None? && after.claimExpiresAt.None?
    && (outcome.None? ==>
          && after.status == Published && after.publishedAt == Some(now) && after.lastError == ""
          && after.availableAt == before.availableAt)
    && (outcome.Some? ==>
          && after.lastError == outcome.value && after.publishedAt == before.publishedAt
          && if before.attempts + 1 >= maxAttempts then
               after.status == DeadLetter && after.availableAt == before.availableAt
             else
               after.status == Failed
               && after.availableAt == now + Backoff(before.attempts, retryBase, retryMax))
  }

  lemma SettledIsDelivered(row: Row, outcome: Outcome, now: int, maxAttempts: int, retryBase: int, retryMax: int,
                           claimTimeout: int, retryFailed: bool, namespaceWrites: bool)
    ensures var cfg := Clamp(maxAttempts, retryBase, retryMax, claimTimeout, retryFailed, namespaceWrites);
            DeliveredAs(row, Settled(row, outcome, now, cfg), outcome, now, maxAttempts, retryBase, retryMax)
  {}

  /** What a recovery makes of a row: pending again, after the longer of the delays that its recoveries
      and its attempts have earned. */
  ghost predicate RequeuedAs(before: Row, after: Row, now: int, retryBase: int, retryMax: int) {
    && after.ns == before.ns && after.createdAt == before.createdAt && after.publishedAt == before.publishedAt
    && after.attempts == before.attempts && after.recoveries == before.recoveries + 1
    && after.claimId.None? && after.claimedAt.None? && after.claimExpiresAt.None?
    && after.status == Pending && after.lastError == "outbox claim expired before publish completed"
    && after.availableAt == now + Max(Backoff(before.recoveries, retryBase, retryMax),
                                      Backoff(Max(before.attempts - 1, 0), retryBase, retryMax))
  }

  lemma RecoveredIsRequeued(row: Row, now: int, maxAttempts: int, retryBase: int, retryMax: int,
                            claimTimeout: int, retryFailed: bool, namespaceWrites: bool)
    ensures var cfg := Clamp(maxAttempts, retryBase, retryMax, claimTimeout, retryFailed, namespaceWrites);
            RequeuedAs(row, MarkRecovered(row, now, cfg), now, retryBase, retryMax)
  {}

  /** What a run under a frozen clock leaves, row by row. */
  ghost predicate RunLeaves(before: Table, after: Table, now: int, done: seq<EventId>, back: seq<EventId>,
                            outcomes: seq<Status>, transport: nat -> Outcome, maxAttempts: int,
                            retryBase: int, retryMax: int)
  {
    && after.Keys == before.Keys && |outcomes| == |done|
    && (forall e :: e in before && e !in done && e !in back ==> after[e] == before[e])
    && (forall i :: 0 <= i < |done| ==>
          && done[i] in before && outcomes[i] == after[done[i]].status
          && DeliveredAs(before[done[i]], after[done[i]], transport(i), now, maxAttempts, retryBase, retryMax))
    && (forall i :: 0 <= i < |back| ==>
          back[i] in before && RequeuedAs(before[back[i]], after[back[i]], now, retryBase, retryMax))
  }

  lemma OutcomeLeaves(before: Table, after: Table, now: int, done: seq<EventId>, back: seq<EventId>,
                      outcomes: seq<Status>, transport: nat -> Outcome, maxAttempts: int, retryBase: int,
                      retryMax: int, claimTimeout: int, retryFailed: bool, namespaceWrites: bool)
    requires var cfg := Clamp(maxAttempts, retryBase, retryMax, claimTimeout, retryFailed, namespaceWrites);
             RunOutcome(before, after, now, cfg, done, back, outcomes, transport)
    ensures RunLeaves(before, after, now, done, back, outcomes, transport, maxAttempts, retryBase, retryMax)
  {
    forall i | 0 <= i < |done|
      ensures DeliveredAs(before[done[i]], after[done[i]], transport(i), now, maxAttempts, retryBase, retryMax)
    {
      SettledIsDelivered(before[done[i]], transport(i), now, maxAttempts, retryBase, retryMax, claimTimeout,
                         retryFailed, namespaceWrites);
    }
    forall i | 0 <= i < |back|
      ensures RequeuedAs(before[back[i]], after[back[i]], now, retryBase, retryMax)
    {
      RecoveredIsRequeued(before[back[i]], now, maxAttempts, retryBase, retryMax, claimTimeout, retryFailed,
                          namespaceWrites);
    }
  }

  /** The table after a whole run under a frozen clock. */
  ghost predicate RunOutcome(before: Table, after: Table, now: int, cfg: Config,
                             done: seq<EventId>, back: seq<EventId>, outcomes: seq<Status>,
                             transport: nat -> Outcome)
  {
    && after.Keys == before.Keys && |outcomes| == |done|
    && (forall e :: e in before && e !in done && e !in back ==> after[e] == before[e])
    && (forall i :: 0 <= i < |done| ==>
          && done[i] in before
          && after[done[i]] == Settled(before[done[i]], transport(i), now, cfg)
          && outcomes[i] == after[done[i]].status)
    && (forall i :: 0 <= i < |back| ==>
          back[i] in before && after[back[i]] == MarkRecovered(before[back[i]], now, cfg))
  }

  lemma RunSettles(before: Table, mid: Table, after: Table, now: int, cfg: Config,
                   done: seq<EventId>, back: seq<EventId>, outcomes: seq<Status>,
                   transport: nat -> Outcome)
    requires Turns(before, mid, now, cfg, done, outcomes, transport)
    requires Requeues(mid, after, now, cfg, back)
    requires forall i :: 0 <= i < |back| ==> back[i] !in done
    ensures RunOutcome(before, after, now, cfg, done, back, outcomes, transport)
  {}

  class OutboxTable {
    var rows: Table
    var nextToken: Token
    const me: WorkerId
    /** The whole system this table belongs to, other workers included. */
    ghost var system: State

    ghost predicate Valid()
      reads this
    {
      && Reachable(system)
      && system.rows == rows
      && me !in system.workers
      && (forall token :: token in system.tokens ==> token < nextToken)
    }

    /** Joins a running system as a new worker. */
    constructor (me: WorkerId, rows: Table, nextToken: Token, ghost system: State)
      requires Reachable(system) && system.rows == rows && me !in system.workers
      requires forall token :: token in system.tokens ==> token < nextToken
      ensures Valid() && this.rows == rows && this.system == system
    {
      this.me := me;
      this.rows := rows;
      this.nextToken := nextToken;
      this.system := system;
    }

    /** The first row of a queue; None when the queue is empty. */
    method Poll(q: Queue, now: int, cfg: Config) returns (next: Option<EventId>)
      ensures next.None? ==> Pool(q, rows, now, cfg) == {}
      ensures next.Some? ==> IsFirst(q, rows, Pool(q, rows, now, cfg), next.value)
    {
      var pool := Pool(q, rows, now, cfg);
      var rest := pool;
      next := None;
      while rest != {}
        invariant rest <= pool
        invariant next.None? ==> rest == pool
        invariant next.Some? ==> IsFirst(q, rows, pool - rest, next.value)
        decreases rest
      {
        var e :| e in rest;
        ghost var seen := pool - rest;
        if next.Some? {
          FirstOfMore(q, rows, seen, next.value, e);
        }
        rest := rest - {e};
        assert pool - rest == seen + {e};
        if next.None? || Before(q, rows, e, next.value) {
          next := Some(e);
        }
      }
      assert pool - {} == pool;
    }

    /** Lets the clock reach its next reading. */
    ghost method Advance(now: int)
      requires Valid() && system.now <= now
      modifies this`system
      ensures Valid() && system == old(system).(now := now) && Leads(old(system), system)
    {
      LeadsSelf(system);
      var tick := Tick(now - system.now);
      LeadsStep(system, system, tick);
      ReachableLeads(system, Apply(system, tick));
      system := Apply(system, tick);
    }

    /** Claims the first due row under a fresh token. The filter reads the clock at `now`, the claim is
        stamped at `stamp`. */
    method ClaimNextEvent(now: int, stamp: int, cfg: Config) returns (claimed: Option<EventId>)
      requires Valid() && cfg.Valid() && system.now == now <= stamp
      modifies this
      ensures claimed.None? ==>
                && Pool(DueQueue, rows, now, cfg) == {}
                && rows == old(rows) && system == old(system) && nextToken == old(nextToken)
      ensures claimed.Some? ==>
                && IsFirst(DueQueue, old(rows), Pool(DueQueue, old(rows), now, cfg), claimed.value)
                && rows == old(rows)[claimed.value :=
                             ClaimRow(old(rows)[claimed.value], old(nextToken), stamp, cfg)]
                && nextToken == old(nextToken) + 1
                && Enabled(old(system), ClaimNext(me, claimed.value, old(nextToken), stamp - now, cfg))
                && system == Apply(old(system), ClaimNext(me, claimed.value, old(nextToken), stamp - now, cfg))
    {
      claimed := Poll(DueQueue, now, cfg);
      if claimed.Some? {
        var e := claimed.value;
        rows := rows[e := ClaimRow(rows[e], nextToken, stamp, cfg)];
        system := Apply(system, ClaimNext(me, e, nextToken, stamp - now, cfg));
        nextToken := nextToken + 1;
      }
    }

    /** Completes a claim after its publish call, if the claim is still held; None reports a
        claim lost. */
    method PublishClaimedEvent(e: EventId, token: Token, outcome: Outcome, at: int, cfg: Config)
      returns (result: Option<Status>)
      requires cfg.Valid() && system.rows == rows && system.now <= at
      requires me in system.workers && system.workers[me] == Worker(e, token, Sending)
      modifies this`rows, this`system
      ensures system.rows == rows && system == Completed(old(system), me, outcome, at, cfg)
      ensures result.Some? <==> HoldsClaim(old(system), Worker(e, token, Sending))
      ensures result.Some? ==> rows == old(rows)[e := Settled(old(rows)[e], outcome, at, cfg)]
                               && result.value == rows[e].status
      ensures result.None? ==> rows == old(rows)
    {
      result := None;
      if e in rows && rows[e].claimId == Some(token) && rows[e].status == Processing {
        rows := rows[e := Settled(rows[e], outcome, at, cfg)];
        result := Some(rows[e].status);
      }
      system := Completed(system, me, outcome, at, cfg);
    }

    /** Claim, publish, complete, once the clock reads `now`. */
    method TakeTurn(now: int, stamp: int, at: int, outcome: Outcome, cfg: Config)
      returns (handled: Option<(EventId, Status)>)
      requires Valid() && cfg.Valid() && system.now == now <= stamp <= at
      modifies this
      ensures Valid() && Leads(old(system), system) && now <= system.now <= at
      ensures handled.None? ==> Pool(DueQueue, rows, now, cfg) == {} && rows == old(rows)
      ensures handled.Some? ==>
                && var (e, status) := handled.value;
                && IsFirst(DueQueue, old(rows), Pool(DueQueue, old(rows), now, cfg), e)
                && rows == old(rows)[e := Settled(old(rows)[e], outcome, at, cfg)]
                && status == rows[e].status
    {
      var token := nextToken;
      var claimed := ClaimNextEvent(now, stamp, cfg);
      if claimed.None? {
        LeadsSelf(system);
        return None;
      }
      var e := claimed.value;
      TurnLeads(old(system), me, e, token, stamp - now, outcome, at, cfg);
      var result := PublishClaimedEvent(e, token, outcome, at, cfg);
      handled := Some((e, result.value));
    }

    /** One turn of the dispatch loop. */
    method DispatchNext(now: int, stamp: int, at: int, outcome: Outcome, cfg: Config)
      returns (handled: Option<(EventId, Status)>)
      requires Valid() && cfg.Valid() && system.now <= now <= stamp <= at
      modifies this
      ensures Valid() && Leads(old(system), system) && now <= system.now <= at
      ensures handled.None? ==> Pool(DueQueue, rows, now, cfg) == {} && rows == old(rows)
      ensures handled.Some? ==>
                && var (e, status) := handled.value;
                && IsFirst(DueQueue, old(rows), Pool(DueQueue, old(rows), now, cfg), e)
                && rows == old(rows)[e := Settled(old(rows)[e], outcome, at, cfg)]
                && status == rows[e].status
    {
      Advance(now);
      ghost var start := system;
      handled := TakeTurn(now, stamp, at, outcome, cfg);
      LeadsOn(old(system), start, system);
    }

    /** The dispatch loop: at most `limit` turns, stopping at an empty queue. Turn i reads the clock
        for its filter, for its claim and for its completion, and has publish outcome
        `transport(i)`. */
    method DispatchDue(limit: nat, cfg: Config, clock: nat -> int, transport: nat -> Outcome)
      returns (summary: Summary, ghost done: seq<EventId>, ghost outcomes: seq<Status>)
      requires Valid() && cfg.Valid() && Ascending(clock) && system.now <= clock(0)
      modifies this
      ensures Valid() && Leads(old(system), system) && system.now <= clock(3 * limit)
      ensures GateKept(old(rows), rows, cfg)
      ensures |outcomes| == |done| <= limit && summary == Tally(outcomes, 0)
      ensures Accounts(old(rows), rows, summary)
      ensures Frozen(clock) ==>
                && TookFirst(DueQueue, old(rows), limit, clock(0), cfg, done)
                && Turns(old(rows), rows, clock(0), cfg, done, outcomes, transport)
    {
      summary := Summary(0, 0, 0, 0);
      done, outcomes := [], [];
      LeadsSelf(system);
      var i := 0;
      while i < limit
        invariant 0 <= i <= limit && |outcomes| == |done| == i
        invariant Valid() && Leads(old(system), system) && system.now <= clock(3 * i)
        invariant Counts(old(rows), rows, cfg, outcomes, summary)
        invariant Frozen(clock) ==> Turns(old(rows), rows, clock(0), cfg, done, outcomes, transport)
      {
        ghost var mid, before := system, rows;
        var handled := DispatchNext(clock(3 * i), clock(3 * i + 1), clock(3 * i + 2), transport(i), cfg);
        LeadsOn(old(system), mid, system);
        if handled.None? {
          break;
        }
        var (e, status) := handled.value;
        CountsNext(old(rows), before, cfg, outcomes, summary, e, transport(i), clock(3 * i), clock(3 * i + 2));
        if Frozen(clock) {
          NextTurn(old(rows), before, clock(0), cfg, done, outcomes, transport, e);
        }
        summary := Counted(summary, status);
        done, outcomes := done + [e], outcomes + [status];
        i := i + 1;
      }
      if Frozen(clock) {
        SweptAll(DueQueue, old(rows), rows, clock(0), cfg, done, limit);
      }
    }

    /** One recovery transaction. The filter reads the clock at `now`, the row is rescheduled at `at`. */
    method RecoverNext(now: int, at: int, cfg: Config) returns (recovered: Option<EventId>)
      requires Valid() && cfg.Valid() && system.now <= now <= at
      modifies this
      ensures Valid() && Leads(old(system), system) && now <= system.now <= at
      ensures recovered.None? ==> Pool(ExpiredQueue, rows, now, cfg) == {} && rows == old(rows)
      ensures recovered.Some? ==>
                && var e := recovered.value;
                && IsFirst(ExpiredQueue, old(rows), Pool(ExpiredQueue, old(rows), now, cfg), e)
                && rows == old(rows)[e := MarkRecovered(old(rows)[e], at, cfg)]
    {
      Advance(now);
      recovered := Poll(ExpiredQueue, now, cfg);
      if recovered.Some? {
        var e := recovered.value;
        rows := rows[e := MarkRecovered(rows[e], at, cfg)];
        LeadsStep(old(system), system, Recover(e, at - now, cfg));
        system := Apply(system, Recover(e, at - now, cfg));
        ReachableLeads(old(system), system);
      }
    }

    /** The recovery pass: at most `limit` expired claims go back to the queue. Each transaction reads
        the clock twice, from the reading `first` on. */
    method RecoverExpiredClaims(limit: nat, cfg: Config, clock: nat -> int, first: nat)
      returns (recovered: nat, ghost done: seq<EventId>)
      requires Valid() && cfg.Valid() && Ascending(clock) && system.now <= clock(first)
      modifies this
      ensures Valid() && Leads(old(system), system) && GateKept(old(rows), rows, cfg)
      ensures recovered == |done| <= limit
      ensures Accounts(old(rows), rows, Summary(0, 0, 0, recovered))
      ensures Frozen(clock) ==>
                && TookFirst(ExpiredQueue, old(rows), limit, clock(0), cfg, done)
                && Requeues(old(rows), rows, clock(0), cfg, done)
    {
      recovered, done := 0, [];
      LeadsSelf(system);
      while recovered < limit
        invariant recovered == |done| <= limit
        invariant Valid() && Leads(old(system), system) && system.now <= clock(first + 2 * recovered)
        invariant Recovered(old(rows), rows, cfg, recovered)
        invariant Frozen(clock) ==> Passes(old(rows), rows, clock(0), cfg, done)
      {
        ghost var mid, before := system, rows;
        var now, at := clock(first + 2 * recovered), clock(first + 2 * recovered + 1);
        var next := RecoverNext(now, at, cfg);
        LeadsOn(old(system), mid, system);
        if next.None? {
          break;
        }
        RecoveredNext(old(rows), before, cfg, recovered, next.value, now, at);
        if Frozen(clock) {
          NextPass(old(rows), before, clock(0), cfg, done, next.value);
        }
        recovered, done := recovered + 1, done + [next.value];
      }
      if Frozen(clock) {
        SweptAll(ExpiredQueue, old(rows), rows, clock(0), cfg, done, limit);
      }
    }

    /** A whole dispatcher run: deliver what is due, then recover what has expired. */
    method DispatchOutboxEvents(limit: int, maxAttempts: int, retryBase: int, retryMax: int,
                                claimTimeout: int, retryFailed: bool, namespaceWrites: bool,
                                clock: nat -> int, transport: nat -> Outcome)
      returns (summary: Summary, ghost done: seq<EventId>, ghost back: seq<EventId>,
               ghost outcomes: seq<Status>)
      requires Valid() && Ascending(clock) && system.now <= clock(0)
      modifies this
      ensures Valid() && Leads(old(system), system)
      ensures summary == Tally(outcomes, |back|) && |outcomes| == |done|
      ensures Accounts(old(rows), rows, summary)
      ensures !namespaceWrites ==>
                forall e :: e in old(rows) && !old(rows)[e].ns.IsGlobal() ==>
                  e in rows && rows[e] == old(rows)[e]
      ensures Frozen(clock) ==>
                var cfg := Clamp(maxAttempts, retryBase, retryMax, claimTimeout, retryFailed,
                                 namespaceWrites);
                && TookFirst(DueQueue, old(rows), Max(0, limit), clock(0), cfg, done)
                && TookFirst(ExpiredQueue, old(rows), Max(0, limit), clock(0), cfg, back)
                && RunLeaves(old(rows), rows, clock(0), done, back, outcomes, transport, maxAttempts,
                             retryBase, retryMax)
    {
      var n: nat := Max(0, limit);
      var cfg := Clamp(maxAttempts, retryBase, retryMax, claimTimeout, retryFailed,
                       namespaceWrites);
      summary, done, outcomes := DispatchDue(n, cfg, clock, transport);
      ghost var mid, between := system, rows;
      var recovered;
      recovered, back := RecoverExpiredClaims(n, cfg, clock, 3 * n);
      AccountsOn(old(rows), between, rows, summary, recovered);
      summary := summary.(recovered := summary.recovered + recovered);
      LeadsOn(old(system), mid, system);
      if Frozen(clock) {
        ExpiredUntouched(old(rows), between, n, clock(0), cfg, done, back, transport);
        RunSettles(old(rows), between, rows, clock(0), cfg, done, back, outcomes, transport);
        OutcomeLeaves(old(rows), rows, clock(0), done, back, outcomes, transport, maxAttempts, retryBase,
                      retryMax, claimTimeout, retryFailed, namespaceWrites);
      }
    }
  }
}
