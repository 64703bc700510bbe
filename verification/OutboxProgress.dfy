/** Runs that exist: no live event is ever beyond delivery, and the delivery bound is reached. */
module OutboxProgress {
  import opened Scopes
  import opened Outbox
  import opened OutboxSafety

  lemma FreshNumber(used: set<nat>) returns (n: nat)
    ensures n !in used
  {
    n := 0;
    var rest := used;
    while rest != {}
      invariant rest <= used
      invariant forall m :: m in used && m !in rest ==> m < n
      decreases rest
    {
      var m :| m in rest;
      rest := rest - {m};
      n := Max(n, m + 1);
    }
  }

  lemma OneStep(s: State, step: Step)
    requires Enabled(s, step)
    ensures Feasible(s, [step]) && Exec(s, [step]) == Apply(s, step)
  {}

  lemma AndThen(s: State, run: seq<Step>, step: Step)
    requires Feasible(s, run) && Enabled(Exec(s, run), step)
    ensures Feasible(s, run + [step]) && Exec(s, run + [step]) == Apply(Exec(s, run), step)
  {
    OneStep(Exec(s, run), step);
    RunAppend(s, run, [step]);
  }

  /** A waiting event can be claimed and sent. */
  lemma Send(s: State, e: EventId, cfg: Config) returns (run: seq<Step>, w: WorkerId)
    requires cfg.Valid() && cfg.retryFailed && cfg.namespaceWrites
    requires e in s.rows && (s.rows[e].status == Pending || s.rows[e].status == Failed)
    ensures Feasible(s, run) && w !in s.workers
    ensures var t := Exec(s, run);
            && w in t.workers && t.workers[w].phase == Returned && t.workers[w].event == e
            && HoldsClaim(t, t.workers[w])
            && t.workers - {w} == s.workers
            && t.rows[e].attempts == s.rows[e].attempts
            && t.rows[e].recoveries == s.rows[e].recoveries
            && t.rows[e].claimExpiresAt.Some?
            && Count(t.deliveries, e) == Count(s.deliveries, e) + 1
  {
    w := FreshNumber(s.workers.Keys);
    var token := FreshNumber(s.tokens);
    var s0 := s;
    var wait := Tick(Max(0, s.rows[e].availableAt - s.now));
    var s1 := Apply(s0, wait);
    var claim := ClaimNext(w, e, token, 0, cfg);
    var s2 := Apply(s1, claim);
    var s3 := Apply(s2, PublishReturns(w));
    run := [wait] + [claim] + [PublishReturns(w)];
    OneStep(s, wait);
    AndThen(s, [wait], claim);
    AndThen(s, [wait] + [claim], PublishReturns(w));
    assert s3.workers - {w} == s.workers;
  }

  /** A claimed event can be put back in the queue once its lease has run out. */
  lemma Release(s: State, e: EventId, cfg: Config) returns (run: seq<Step>)
    requires cfg.Valid() && cfg.namespaceWrites
    requires e in s.rows && s.rows[e].status == Processing && s.rows[e].claimExpiresAt.Some?
    ensures Feasible(s, run)
    ensures var t := Exec(s, run);
            && e in t.rows && t.rows[e].status == Pending
            && t.rows[e].attempts == s.rows[e].attempts
            && t.rows[e].recoveries == s.rows[e].recoveries + 1
            && t.workers == s.workers && t.deliveries == s.deliveries
  {
    var wait := Tick(Max(0, s.rows[e].claimExpiresAt.value - s.now));
    var s1 := Apply(s, wait);
    var s2 := Apply(s1, Recover(e, 0, cfg));
    run := [wait] + [Recover(e, 0, cfg)];
    OneStep(s, wait);
    AndThen(s, [wait], Recover(e, 0, cfg));
  }

  lemma Deliver(s: State, e: EventId, cfg: Config) returns (run: seq<Step>)
    requires cfg.Valid() && cfg.retryFailed && cfg.namespaceWrites
    requires e in s.rows && (s.rows[e].status == Pending || s.rows[e].status == Failed)
    ensures Feasible(s, run)
    ensures var t := Exec(s, run);
            && e in t.rows && t.rows[e].status == Published
            && t.rows[e].recoveries == s.rows[e].recoveries
            && Count(t.deliveries, e) == Count(s.deliveries, e) + 1
  {
    var send, w := Send(s, e, cfg);
    var t := Exec(s, send);
    var done := Complete(w, false, "", cfg);
    AndThen(s, send, done);
    run := send + [done];
  }

  /** Whatever has happened, an event that is neither published nor dead-lettered can still be
      delivered and published. */
  lemma NeverStuck(s: State, e: EventId, cfg: Config)
    requires Reachable(s) && e in s.rows && !Terminal(s.rows[e])
    requires cfg.Valid() && cfg.retryFailed && cfg.namespaceWrites
    ensures exists run :: Feasible(s, run) && e in Exec(s, run).rows
                          && Exec(s, run).rows[e].status == Published
  {
    if s.rows[e].status == Processing {
      ReachableInv(s);
      assert RowShape(s.rows[e], s.now);
      var back := Release(s, e, cfg);
      var run := Deliver(Exec(s, back), e, cfg);
      RunAppend(s, back, run);
    } else {
      var run := Deliver(s, e, cfg);
    }
  }

  /** Delivered, but the worker vanished before its completion: the event goes out again. */
  lemma Redeliver(s: State, e: EventId, cfg: Config) returns (run: seq<Step>)
    requires cfg.Valid() && cfg.retryFailed && cfg.namespaceWrites
    requires e in s.rows && s.rows[e].status == Pending
    ensures Feasible(s, run)
    ensures var t := Exec(s, run);
            && e in t.rows && t.rows[e].status == Pending
            && t.rows[e].recoveries == s.rows[e].recoveries + 1
            && Count(t.deliveries, e) == Count(s.deliveries, e) + 1
  {
    var send, w := Send(s, e, cfg);
    var t := Exec(s, send);
    AndThen(s, send, Crash(w));
    var u := Apply(t, Crash(w));
    var back := Release(u, e, cfg);
    RunAppend(s, send + [Crash(w)], back);
    run := send + [Crash(w)] + back;
  }

  lemma {:induction false} RedeliverTimes(s: State, e: EventId, n: nat, cfg: Config)
    returns (run: seq<Step>)
    requires cfg.Valid() && cfg.retryFailed && cfg.namespaceWrites
    requires e in s.rows && s.rows[e].status == Pending
    ensures Feasible(s, run)
    ensures var t := Exec(s, run);
            && e in t.rows && t.rows[e].status == Pending
            && t.rows[e].recoveries == s.rows[e].recoveries + n
            && Count(t.deliveries, e) == Count(s.deliveries, e) + n
    decreases n
  {
    if n == 0 {
      run := [];
    } else {
      var once := Redeliver(s, e, cfg);
      var rest := RedeliverTimes(Exec(s, once), e, n - 1, cfg);
      RunAppend(s, once, rest);
      run := once + rest;
    }
  }

  /** For every n there is a run in which an event recovered n times is delivered n + 1 times:
      the delivery bound cannot be lowered. */
  lemma DeliveryBoundIsTight(n: nat, cfg: Config)
    requires cfg.Valid() && cfg.retryFailed && cfg.namespaceWrites
    ensures exists s :: Reachable(s) && 0 in s.rows && s.rows[0].status == Published
                        && s.rows[0].recoveries == n && Count(s.deliveries, 0) == n + 1
  {
    var s := Initial(0);
    var insert := Insert(0, GLOBAL, 0);
    OneStep(s, insert);
    var s1 := Apply(s, insert);
    var repeat := RedeliverTimes(s1, 0, n, cfg);
    RunAppend(s, [insert], repeat);
    var last := Deliver(Exec(s1, repeat), 0, cfg);
    RunAppend(s, [insert] + repeat, last);
    assert Reachable(Exec(s, [insert] + repeat + last));
  }
}
