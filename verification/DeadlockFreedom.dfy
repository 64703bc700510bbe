/** No interleaving of taxonomy transactions deadlocks, on a database that drops the locks of rows it
    rejects, nor on any database if not both an alias is renamed and re-pointed and another one
    re-pointed. */
module DeadlockFreedom {
  import opened Scopes
  import opened Locking
  import opened LockingSafety

  function Order(phase: Phase): seq<AliasId>
    requires phase.Sweep?
  {
    phase.held + phase.todo
  }

  predicate Distinct(order: seq<AliasId>) {
    forall p, q :: 0 <= p < q < |order| ==> order[p] != order[q]
  }

  /** Some aliases aside, in query order. */
  predicate SortedBy(db: Db, order: seq<AliasId>, aside: set<AliasId>) {
    forall p, q :: 0 <= p < q < |order| && order[p] !in aside && order[q] !in aside ==>
      Before(db, order[p], order[q])
  }

  /** A sweep meets each alias once, and a database that drops rejected locks leaves it holding
      only aliases it will deactivate. */
  ghost predicate SweepOk(tx: Tx, keepsRejected: bool) {
    tx.phase.Sweep? ==>
      && Distinct(Order(tx.phase))
      && (!keepsRejected ==> forall a :: a in tx.phase.held ==> a in tx.phase.cascade)
  }

  ghost predicate SweepsOk(s: State) {
    forall i :: i in s.txs ==> SweepOk(s.txs[i], s.keepsRejected)
  }

  /** Sweep `i` still has to lock an alias that belongs to the tag of sweep `j`. */
  predicate Crosses(s: State, i: TxId, j: TxId, a: AliasId) {
    && i in s.txs && j in s.txs && i != j && s.txs[i].phase.Sweep? && s.txs[j].phase.Sweep?
    && a in s.txs[i].phase.todo && a in s.db.aliases && s.db.aliases[a].tag == s.txs[j].phase.t
  }

  /** An alias one sweep still has to lock, and that now belongs to the tag of another sweep, was
      re-pointed between the two snapshots. */
  ghost predicate SnapshotsOk(s: State) {
    forall i, j, a :: Crosses(s, i, j, a) ==> s.txs[i].phase.since < s.txs[j].phase.since
  }

  /** The aliases that updates may move to another tag, and those whose place in query order they
      may edit. An update from a stale copy edits whatever it puts back. */
  datatype Edits = Edits(repointed: set<AliasId>, renamed: set<AliasId>)
  {
    /** No alias may be both renamed and re-pointed, unless it is the only one re-pointed. */
    ghost predicate Safe() {
      forall a, b :: a in repointed && a in renamed && b in repointed ==> a == b
    }

    predicate Allow(a: AliasId, stored: Alias, saved: Alias) {
      && (saved.tag != stored.tag ==> a in repointed)
      && (saved.sortName != stored.sortName ==> a in renamed)
    }
  }

  ghost predicate WithinStep(s: State, step: Step, e: Edits) {
    step.Commit? && step.i in s.txs && s.txs[step.i].op.UpdateAlias?
    && s.txs[step.i].op.a in s.db.aliases ==>
      var op := s.txs[step.i].op;
      e.Allow(op.a, s.db.aliases[op.a], op.saved)
  }

  /** Every `update_tag_alias` commit of the run keeps to these edits. */
  ghost predicate Within(s: State, run: seq<Step>, e: Edits)
    requires Feasible(s, run)
    decreases |run|
  {
    run == [] || (WithinStep(s, run[0], e) && Within(Apply(s, run[0]), run[1..], e))
  }

  /** The aliases of a sweep that are never renamed are still in query order. */
  ghost predicate SortsOk(s: State, e: Edits) {
    forall i :: i in s.txs && s.txs[i].phase.Sweep? ==> SortedBy(s.db, Order(s.txs[i].phase), e.renamed)
  }

  predicate Settled(db: Db, phase: Phase, e: Edits)
    requires phase.Sweep?
  {
    forall a :: a in Order(phase) && a !in e.repointed ==> a in db.aliases && db.aliases[a].tag == phase.t
  }

  /** The aliases of a sweep that are never re-pointed still have its tag. */
  ghost predicate SettledOk(s: State, e: Edits) {
    forall i :: i in s.txs && s.txs[i].phase.Sweep? ==> Settled(s.db, s.txs[i].phase, e)
  }

  ghost predicate SweepInv(s: State) {
    Inv(s) && SweepsOk(s) && SnapshotsOk(s)
  }

  /** Granting a lock to a sweep moves the head of its list to the held end, or drops it. */
  lemma GrantedOrder(s: State, phase: Phase)
    requires phase.Sweep? && phase.todo != []
    ensures Granted(s, phase).Sweep?
    ensures Distinct(Order(phase)) ==> Distinct(Order(Granted(s, phase)))
    ensures forall aside :: SortedBy(s.db, Order(phase), aside) ==>
              SortedBy(s.db, Order(Granted(s, phase)), aside)
    ensures forall a :: a in Order(Granted(s, phase)) ==> a in Order(phase)
  {
    var after := Granted(s, phase);
    if |after.held| == |phase.held| {
      var n := |phase.held|;
      forall p | 0 <= p < |Order(after)|
        ensures Order(after)[p] == Order(phase)[if p < n then p else p + 1] {}
    } else {
      assert Order(after) == Order(phase);
    }
  }

  lemma GrantKeepsSweep(s: State, tx: Tx)
    requires tx.phase.Sweep? && tx.phase.todo != [] && SweepOk(tx, s.keepsRejected)
    ensures SweepOk(tx.(phase := Granted(s, tx.phase)), s.keepsRejected)
  {
    GrantedOrder(s, tx.phase);
  }

  lemma ListingDistinct(db: Db, t: TagId, todo: seq<AliasId>)
    requires IsListing(db, t, todo)
    ensures Distinct(todo) && SortedBy(db, todo, {})
  {}

  lemma StepKeepsSweeps(s: State, step: Step)
    requires SweepsOk(s) && Enabled(s, step)
    ensures SweepsOk(Apply(s, step))
  {
    var t := Apply(s, step);
    forall i | i in t.txs ensures SweepOk(t.txs[i], t.keepsRejected) {
      assert i in s.txs ==> SweepOk(s.txs[i], s.keepsRejected);
      if step.Grant? && i == step.i && s.txs[i].phase.Sweep? {
        GrantKeepsSweep(s, s.txs[i]);
      } else if step.Snapshot? && i == step.i {
        ListingDistinct(s.db, s.txs[i].phase.t, step.todo);
        assert Order(t.txs[i].phase) == step.todo;
      }
    }
  }

  lemma StepKeepsSorts(s: State, step: Step, e: Edits)
    requires Inv(s) && SortsOk(s, e) && Enabled(s, step) && WithinStep(s, step, e)
    ensures SortsOk(Apply(s, step), e)
  {
    var t := Apply(s, step);
    if step.Grant? && s.txs[step.i].phase.Sweep? {
      GrantedOrder(s, s.txs[step.i].phase);
    } else if step.Snapshot? {
      ListingDistinct(s.db, s.txs[step.i].phase.t, step.todo);
      assert Order(t.txs[step.i].phase) == step.todo;
    } else if step.Commit? {
      assert OnTrack(s.txs[step.i]);
      CommitKeepsNames(s, step.i, e);
      forall i | i in t.txs && t.txs[i].phase.Sweep?
        ensures SortedBy(t.db, Order(t.txs[i].phase), e.renamed)
      {
        SameNames(s.db, t.db, Order(s.txs[i].phase), e.renamed);
      }
    }
  }

  ghost predicate NamesKept(before: Db, after: Db, renamed: set<AliasId>) {
    forall b :: b in before.aliases && b !in renamed ==>
      b in after.aliases && after.aliases[b].sortName == before.aliases[b].sortName
  }

  lemma CommitKeepsNames(s: State, i: TxId, e: Edits)
    requires Enabled(s, Commit(i)) && OnTrack(s.txs[i]) && WithinStep(s, Commit(i), e)
    ensures NamesKept(s.db, Written(s.db, s.txs[i]), e.renamed)
  {}

  lemma SameNames(before: Db, after: Db, order: seq<AliasId>, renamed: set<AliasId>)
    requires NamesKept(before, after, renamed) && SortedBy(before, order, renamed)
    ensures SortedBy(after, order, renamed)
  {}

  ghost predicate TagsKept(before: Db, after: Db, repointed: set<AliasId>) {
    forall b :: b in before.aliases && b !in repointed ==>
      b in after.aliases && after.aliases[b].tag == before.aliases[b].tag
  }

  lemma CommitKeepsTags(s: State, i: TxId, e: Edits)
    requires Enabled(s, Commit(i)) && OnTrack(s.txs[i]) && WithinStep(s, Commit(i), e)
    ensures TagsKept(s.db, Written(s.db, s.txs[i]), e.repointed)
  {}

  lemma SameTags(before: Db, after: Db, phase: Phase, e: Edits)
    requires phase.Sweep? && TagsKept(before, after, e.repointed) && Settled(before, phase, e)
    ensures Settled(after, phase, e)
  {}

  lemma StepKeepsSettled(s: State, step: Step, e: Edits)
    requires Inv(s) && SettledOk(s, e) && Enabled(s, step) && WithinStep(s, step, e)
    ensures SettledOk(Apply(s, step), e)
  {
    var t := Apply(s, step);
    if step.Grant? && s.txs[step.i].phase.Sweep? {
      GrantedOrder(s, s.txs[step.i].phase);
    } else if step.Snapshot? {
      assert Order(t.txs[step.i].phase) == step.todo;
    } else if step.Commit? {
      assert OnTrack(s.txs[step.i]);
      CommitKeepsTags(s, step.i, e);
      forall i | i in t.txs && t.txs[i].phase.Sweep? ensures Settled(t.db, t.txs[i].phase, e) {
        SameTags(s.db, t.db, s.txs[i].phase, e);
      }
    }
  }

  lemma SnapshotLater(s: State, step: Step, i: TxId, j: TxId)
    requires LocksOk(s) && Enabled(s, step) && step.Snapshot? && i in s.txs && j in s.txs && i != j
    requires Knows(s.db, s.txs[i], s.clock) && Knows(s.db, s.txs[j], s.clock)
    requires var t := Apply(s, step);
             && t.txs[i].phase.Sweep? && t.txs[j].phase.Sweep?
             && (step.i == i ==> t.txs[i].phase.t == t.txs[j].phase.t)
    ensures step.i != i
    ensures step.i == j ==> Apply(s, step).txs[i].phase.since < Apply(s, step).txs[j].phase.since
  {
    Exclusive(s, i, j);
    var t := Apply(s, step);
    assert TagRow(t.txs[j].phase.t) in Holds(s.txs[j].phase);
    assert TagRow(t.txs[i].phase.t) in Holds(s.txs[i].phase);
  }

  lemma CommitRetags(s: State, k: TxId, j: TxId, a: AliasId)
    requires Inv(s) && Enabled(s, Commit(k)) && j in s.txs && j != k && s.txs[j].phase.Sweep?
    requires var db := Written(s.db, s.txs[k]);
             a in db.aliases && db.aliases[a].tag == s.txs[j].phase.t
    ensures a in s.db.aliases && s.db.aliases[a].tag == s.txs[j].phase.t
  {
    Exclusive(s, k, j);
    CommitFrames(s, k, Holds(s.txs[j].phase));
    assert TagRow(s.txs[j].phase.t) in Holds(s.txs[j].phase);
  }

  lemma SnapshotKeepsOrder(s: State, step: Step, i: TxId, j: TxId, a: AliasId)
    requires Inv(s) && SnapshotsOk(s) && Enabled(s, step) && step.Snapshot?
    requires Crosses(Apply(s, step), i, j, a)
    ensures Apply(s, step).txs[i].phase.since < Apply(s, step).txs[j].phase.since
  {
    assert Knows(s.db, s.txs[i], s.clock) && Knows(s.db, s.txs[j], s.clock);
    SnapshotLater(s, step, i, j);
    if step.i != j {
      assert Crosses(s, i, j, a);
    }
  }

  lemma CommitKeepsOrder(s: State, step: Step, i: TxId, j: TxId, a: AliasId)
    requires Inv(s) && SnapshotsOk(s) && Enabled(s, step) && step.Commit?
    requires Crosses(Apply(s, step), i, j, a)
    ensures Apply(s, step).txs[i].phase.since < Apply(s, step).txs[j].phase.since
  {
    CommitRetags(s, step.i, j, a);
    assert Crosses(s, i, j, a);
  }

  lemma OtherKeepsOrder(s: State, step: Step, i: TxId, j: TxId, a: AliasId)
    requires SnapshotsOk(s) && Enabled(s, step) && !step.Snapshot? && !step.Commit?
    requires Crosses(Apply(s, step), i, j, a)
    ensures Apply(s, step).txs[i].phase.since < Apply(s, step).txs[j].phase.since
  {
    assert Crosses(s, i, j, a);
  }

  lemma StepKeepsSnapshots(s: State, step: Step)
    requires Inv(s) && SnapshotsOk(s) && Enabled(s, step)
    ensures SnapshotsOk(Apply(s, step))
  {
    var t := Apply(s, step);
    forall i, j, a | Crosses(t, i, j, a) ensures t.txs[i].phase.since < t.txs[j].phase.since {
      if step.Snapshot? {
        SnapshotKeepsOrder(s, step, i, j, a);
      } else if step.Commit? {
        CommitKeepsOrder(s, step, i, j, a);
      } else {
        OtherKeepsOrder(s, step, i, j, a);
      }
    }
  }

  // ----- Circles of waiting transactions

  function Next(cycle: seq<TxId>, k: nat): nat {
    if k + 1 < |cycle| then k + 1 else 0
  }

  function Previous(cycle: seq<TxId>, k: nat): int {
    if k == 0 then |cycle| - 1 else k - 1
  }

  /** In a circle every transaction holds the row its predecessor waits for. */
  lemma WaitedFor(s: State, cycle: seq<TxId>, k: nat)
    requires LocksOk(s) && Deadlock(s, cycle) && k < |cycle|
    ensures var h, i := cycle[Previous(cycle, k)], cycle[k];
            && h in s.txs && i in s.txs
            && Wants(s.txs[h].phase).Some? && Wants(s.txs[i].phase).Some?
            && Wants(s.txs[h].phase).value in Holds(s.txs[i].phase)
  {
    var p := Previous(cycle, k);
    assert Next(cycle, p) == k;
    assert WaitsFor(s, cycle[p], cycle[k]);
    assert WaitsFor(s, cycle[k], cycle[Next(cycle, k)]);
  }

  /** Only sweeps hold an alias or a vocabulary while they wait; and who holds anything does not
      wait for a tag. So a circle consists of sweeps. */
  lemma CircleOfSweeps(s: State, cycle: seq<TxId>, k: nat)
    requires LocksOk(s) && Deadlock(s, cycle) && k < |cycle|
    ensures cycle[k] in s.txs && s.txs[cycle[k]].phase.Sweep?
    ensures s.txs[cycle[k]].phase.todo != []
  {
    WaitedFor(s, cycle, k);
    WaitedFor(s, cycle, Previous(cycle, k));
    var h := cycle[Previous(cycle, k)];
    assert Holds(s.txs[h].phase) != {};
    assert !Wants(s.txs[h].phase).value.TagRow?;
  }

  lemma SweepEdge(s: State, cycle: seq<TxId>, k: nat)
    requires Inv(s) && Deadlock(s, cycle) && k < |cycle|
    ensures var i, j := cycle[k], cycle[Next(cycle, k)];
            && i in s.txs && j in s.txs && s.txs[i].phase.Sweep? && s.txs[j].phase.Sweep?
            && s.txs[i].phase.todo != [] && s.txs[j].phase.todo != []
            && s.txs[i].phase.todo[0] in s.txs[j].phase.held
  {
    CircleOfSweeps(s, cycle, k);
    CircleOfSweeps(s, cycle, Next(cycle, k));
    var i, j := cycle[k], cycle[Next(cycle, k)];
    assert WaitsFor(s, i, j);
    assert AliasRow(s.txs[i].phase.todo[0]) in Holds(s.txs[j].phase);
  }

  /** Dropped locks: along an edge of a circle, snapshots get strictly later. */
  lemma EdgeIsLater(s: State, cycle: seq<TxId>, k: nat)
    requires SweepInv(s) && !s.keepsRejected && Deadlock(s, cycle) && k < |cycle|
    ensures cycle[k] in s.txs && cycle[Next(cycle, k)] in s.txs
    ensures var f, g := s.txs[cycle[k]].phase, s.txs[cycle[Next(cycle, k)]].phase;
            f.Sweep? && g.Sweep? && f.since < g.since
  {
    SweepEdge(s, cycle, k);
    var i, j := cycle[k], cycle[Next(cycle, k)];
    var a := s.txs[i].phase.todo[0];
    assert Knows(s.db, s.txs[j], s.clock);
    assert SweepOk(s.txs[i], s.keepsRejected) && SweepOk(s.txs[j], s.keepsRejected);
    NotOwn(s.txs[i].phase);
    assert a in s.txs[j].phase.cascade;
    assert Crosses(s, i, j, a);
  }

  lemma NotOwn(phase: Phase)
    requires phase.Sweep? && Distinct(Order(phase)) && phase.todo != []
    ensures phase.todo[0] !in phase.held
  {
    forall p | 0 <= p < |phase.held| ensures phase.held[p] != phase.todo[0] {
      assert Order(phase)[p] != Order(phase)[|phase.held|];
    }
  }

  /** An alias that a circle waits for was in the listings of two sweeps with different tags, so it
      was re-pointed; and the next one it waits for is another. */
  lemma AwaitedWasRepointed(s: State, cycle: seq<TxId>, k: nat, e: Edits)
    requires SweepInv(s) && SettledOk(s, e) && Deadlock(s, cycle) && k < |cycle|
    ensures cycle[k] in s.txs && cycle[Next(cycle, k)] in s.txs
    ensures var f, g := s.txs[cycle[k]].phase, s.txs[cycle[Next(cycle, k)]].phase;
            && f.Sweep? && g.Sweep? && f.todo != [] && g.todo != []
            && f.todo[0] in e.repointed && f.todo[0] != g.todo[0]
  {
    SweepEdge(s, cycle, k);
    var i, j := cycle[k], cycle[Next(cycle, k)];
    var f, g := s.txs[i].phase, s.txs[j].phase;
    assert SweepOk(s.txs[i], s.keepsRejected) && SweepOk(s.txs[j], s.keepsRejected);
    NotOwn(f);
    NotOwn(g);
    Exclusive(s, i, j);
    assert TagRow(f.t) in Holds(f) && TagRow(g.t) in Holds(g);
    assert f.todo[0] in Order(f) && f.todo[0] in Order(g);
  }

  /** Along an edge of a circle, awaited aliases that are never renamed come strictly later in query
      order. */
  lemma EdgeSortsLater(s: State, cycle: seq<TxId>, k: nat, e: Edits)
    requires SweepInv(s) && SortsOk(s, e) && SettledOk(s, e) && e.repointed !! e.renamed
    requires Deadlock(s, cycle) && k < |cycle|
    ensures cycle[k] in s.txs && cycle[Next(cycle, k)] in s.txs
    ensures var f, g := s.txs[cycle[k]].phase, s.txs[cycle[Next(cycle, k)]].phase;
            && f.Sweep? && g.Sweep? && f.todo != [] && g.todo != []
            && Before(s.db, f.todo[0], g.todo[0])
  {
    SweepEdge(s, cycle, k);
    AwaitedWasRepointed(s, cycle, k, e);
    AwaitedWasRepointed(s, cycle, Next(cycle, k), e);
    var f, g := s.txs[cycle[k]].phase, s.txs[cycle[Next(cycle, k)]].phase;
    var p :| 0 <= p < |g.held| && g.held[p] == f.todo[0];
    assert Order(g)[p] == f.todo[0] && Order(g)[|g.held|] == g.todo[0];
  }

  lemma {:induction false} LaterAround(s: State, cycle: seq<TxId>, k: nat)
    requires SweepInv(s) && !s.keepsRejected && Deadlock(s, cycle) && 0 < k < |cycle|
    ensures cycle[0] in s.txs && cycle[k] in s.txs
    ensures var f, g := s.txs[cycle[0]].phase, s.txs[cycle[k]].phase;
            f.Sweep? && g.Sweep? && f.since < g.since
    decreases k
  {
    EdgeIsLater(s, cycle, k - 1);
    if k > 1 {
      LaterAround(s, cycle, k - 1);
    }
  }

  lemma {:induction false} SortsLaterAround(s: State, cycle: seq<TxId>, k: nat, e: Edits)
    requires SweepInv(s) && SortsOk(s, e) && SettledOk(s, e) && e.repointed !! e.renamed
    requires Deadlock(s, cycle) && 0 < k < |cycle|
    ensures cycle[0] in s.txs && cycle[k] in s.txs
    ensures var f, g := s.txs[cycle[0]].phase, s.txs[cycle[k]].phase;
            && f.Sweep? && g.Sweep? && f.todo != [] && g.todo != []
            && Before(s.db, f.todo[0], g.todo[0])
    decreases k
  {
    EdgeSortsLater(s, cycle, k - 1, e);
    if k > 1 {
      SortsLaterAround(s, cycle, k - 1, e);
    }
  }

  lemma NoCircleDropped(s: State, cycle: seq<TxId>)
    requires SweepInv(s) && !s.keepsRejected
    ensures !Deadlock(s, cycle)
  {
    if Deadlock(s, cycle) {
      var last := |cycle| - 1;
      EdgeIsLater(s, cycle, last);
      if last > 0 {
        LaterAround(s, cycle, last);
      }
      assert false;
    }
  }

  /** A circle waits for two re-pointed aliases at least, so safe edits rename none of them. */
  lemma CircleSettlesRenames(s: State, cycle: seq<TxId>, e: Edits)
    requires SweepInv(s) && SettledOk(s, e) && e.Safe() && Deadlock(s, cycle)
    ensures e.repointed !! e.renamed
  {
    AwaitedWasRepointed(s, cycle, 0, e);
    AwaitedWasRepointed(s, cycle, Next(cycle, 0), e);
  }

  lemma NoCircleKept(s: State, cycle: seq<TxId>, e: Edits)
    requires SweepInv(s) && SortsOk(s, e) && SettledOk(s, e) && e.Safe()
    ensures !Deadlock(s, cycle)
  {
    if Deadlock(s, cycle) {
      CircleSettlesRenames(s, cycle, e);
      var last := |cycle| - 1;
      EdgeSortsLater(s, cycle, last, e);
      if last > 0 {
        SortsLaterAround(s, cycle, last, e);
      }
      assert false;
    }
  }

  // ----- Over runs

  lemma {:induction false} RunKeeps(s: State, run: seq<Step>)
    requires SweepInv(s) && Feasible(s, run)
    ensures SweepInv(Exec(s, run)) && Exec(s, run).keepsRejected == s.keepsRejected
    decreases |run|
  {
    if run != [] {
      StepKeepsInv(s, run[0]);
      StepKeepsSweeps(s, run[0]);
      StepKeepsSnapshots(s, run[0]);
      RunKeeps(Apply(s, run[0]), run[1..]);
    }
  }

  lemma {:induction false} RunKeepsOrders(s: State, run: seq<Step>, e: Edits)
    requires Inv(s) && SortsOk(s, e) && SettledOk(s, e) && Feasible(s, run) && Within(s, run, e)
    ensures SortsOk(Exec(s, run), e) && SettledOk(Exec(s, run), e)
    decreases |run|
  {
    if run != [] {
      StepKeepsInv(s, run[0]);
      StepKeepsSorts(s, run[0], e);
      StepKeepsSettled(s, run[0], e);
      RunKeepsOrders(Apply(s, run[0]), run[1..], e);
    }
  }

  /** No run deadlocks on a database that lets go of a row it locked but no longer selects; nor, on
      any database, does a run within safe edits. */
  lemma NoDeadlock(db: Db, keepsRejected: bool, run: seq<Step>, cycle: seq<TxId>, e: Edits)
    requires Feasible(Quiet(db, keepsRejected), run)
    requires !keepsRejected || (e.Safe() && Within(Quiet(db, keepsRejected), run, e))
    ensures !Deadlock(Exec(Quiet(db, keepsRejected), run), cycle)
  {
    RunKeeps(Quiet(db, keepsRejected), run);
    if keepsRejected {
      RunKeepsOrders(Quiet(db, keepsRejected), run, e);
      NoCircleKept(Exec(Quiet(db, keepsRejected), run), cycle, e);
    } else {
      NoCircleDropped(Exec(Quiet(db, keepsRejected), run), cycle);
    }
  }
}
