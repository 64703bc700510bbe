/** What every interleaving of taxonomy transactions keeps. */
module LockingSafety {
  import opened Scopes
  import opened Locking

  predicate TagActive(db: Db, t: TagId) {
    t in db.tags && db.tags[t].active
  }

  /** The phases each service call goes through. */
  predicate OnTrack(tx: Tx) {
    match tx.op
    case CreateAlias(a, row) =>
      || tx.phase == AskTag(row.tag) || (tx.phase.HasTag? && tx.phase.t == row.tag)
    case UpdateAlias(a, saved) =>
      || tx.phase == AskTag(saved.tag) || (tx.phase.HasTag? && tx.phase.t == saved.tag)
      || tx.phase == AskAlias(Some(saved.tag), a, true)
      || tx.phase == HasAlias(Some(saved.tag), a, true)
    case ReactivateAlias(a, _) =>
      || tx.phase.Start? || tx.phase.AskTag? || tx.phase.HasTag?
      || (tx.phase.AskAlias? && tx.phase.tag.Some? && tx.phase.a == a && !tx.phase.checked)
      || (tx.phase.HasAlias? && tx.phase.tag.Some? && tx.phase.a == a)
    case DeactivateAlias(a) =>
      tx.phase == AskAlias(None, a, false) || tx.phase == HasAlias(None, a, false)
    case DeactivateTag(t) =>
      || tx.phase == AskTag(t) || tx.phase == HasTag(t, false)
      || (tx.phase.Sweep? && tx.phase.t == t)
    case ReactivateTag(t) =>
      || tx.phase == AskTag(t) || tx.phase == HasTag(t, false)
      || (tx.phase.AskVocab? && tx.phase.tag == Some(t))
      || (tx.phase.HasVocab? && tx.phase.tag == Some(t))
    case UpdateTag(t, _) => tx.phase == AskTag(t) || tx.phase == HasTag(t, false)
    case SaveVocab(v, _) => tx.phase == AskVocab(None, v) || tx.phase == HasVocab(None, v, false)
    case CreateTag(_, _) => tx.phase.Start?
    case CreateVocab(_, _) => tx.phase.Start?
  }

  ghost predicate AllOnTrack(s: State) {
    forall i :: i in s.txs ==> OnTrack(s.txs[i])
  }

  /** The lock table holds exactly what the phases say, so locks exclude one another. */
  ghost predicate LocksOk(s: State) {
    && (forall row :: row in s.locks ==>
          s.locks[row] in s.txs && row in Holds(s.txs[s.locks[row]].phase))
    && (forall i, row :: i in s.txs && row in Holds(s.txs[i].phase) ==>
          row in s.locks && s.locks[row] == i)
  }

  /** The alias to be written is in the tenant of its tag. */
  predicate TenantAgrees(db: Db, t: TagId, op: Op) {
    op.CreateAlias? || op.UpdateAlias? ==> t in db.tags && db.tags[t].tenant == SavedAlias(op).tenant
  }

  /** What a transaction knows about the committed rows it has locked and validated. */
  ghost predicate Knows(db: Db, tx: Tx, clock: nat) {
    match tx.phase
    case HasTag(t, true) => TagActive(db, t) && TenantAgrees(db, t, tx.op)
    case AskAlias(Some(t), a, true) => TagActive(db, t) && TenantAgrees(db, t, tx.op)
    case HasAlias(Some(t), a, true) =>
      && TagActive(db, t) && TenantAgrees(db, t, tx.op) && a in db.aliases
      && (tx.op.ReactivateAlias? ==> db.aliases[a].tag == t)
    case AskVocab(Some(t), v) => t in db.tags && db.tags[t].vocab == Some(v)
    case HasVocab(Some(t), v, checked) =>
      && t in db.tags && db.tags[t].vocab == Some(v)
      && (checked ==> v in db.vocabs && db.vocabs[v])
    case Sweep(t, todo, held, cascade, since) =>
      && t in db.tags && since < clock
      && (forall a :: a in todo || a in held ==> a in db.aliases)
      && (forall a :: a in cascade ==>
            a in held && db.aliases[a].tag == t && db.aliases[a].tenant == db.tags[t].tenant)
      && (forall a :: Cascades(db, t, a) ==> a in todo || a in cascade)
    case _ => true
  }

  ghost predicate AllKnow(s: State) {
    forall i :: i in s.txs ==> Knows(s.db, s.txs[i], s.clock)
  }

  ghost predicate Inv(s: State) {
    AllOnTrack(s) && LocksOk(s) && AllKnow(s)
  }

  // ----- Each part is kept by each step

  lemma MoverOnTrack(s: State, step: Step)
    requires AllOnTrack(s) && Enabled(s, step) && step.i in Apply(s, step).txs
    ensures OnTrack(Apply(s, step).txs[step.i])
  {
    assert step.i in s.txs ==> OnTrack(s.txs[step.i]);
  }

  lemma StepOnTrack(s: State, step: Step)
    requires AllOnTrack(s) && Enabled(s, step)
    ensures AllOnTrack(Apply(s, step))
  {
    var t := Apply(s, step);
    forall i | i in t.txs ensures OnTrack(t.txs[i]) {
      if i == step.i {
        MoverOnTrack(s, step);
      } else {
        assert t.txs[i] == s.txs[i];
      }
    }
  }

  /** Only transaction `i` differs. */
  ghost predicate OthersSame(s: State, t: State, i: TxId) {
    forall j | j != i ::
      (j in s.txs <==> j in t.txs) && (j in s.txs ==> s.txs[j] == t.txs[j])
  }

  function Held(s: State, i: TxId): set<Row> {
    if i in s.txs then Holds(s.txs[i].phase) else {}
  }

  lemma KeepingLocks(s: State, t: State, i: TxId)
    requires LocksOk(s) && OthersSame(s, t, i) && t.locks == s.locks
    requires Held(t, i) == Held(s, i) && (i in s.txs ==> i in t.txs)
    ensures LocksOk(t)
  {}

  lemma TakingLock(s: State, t: State, i: TxId, row: Row)
    requires LocksOk(s) && OthersSame(s, t, i) && row !in s.locks && t.locks == s.locks[row := i]
    requires i in s.txs && i in t.txs && Held(t, i) == Held(s, i) + {row}
    ensures LocksOk(t)
  {}

  lemma DroppingLocks(s: State, t: State, i: TxId)
    requires LocksOk(s) && OthersSame(s, t, i) && t.locks == Released(s.locks, i)
    requires Held(t, i) == {}
    ensures LocksOk(t)
  {}

  lemma GrantedHolds(s: State, phase: Phase)
    requires Wants(phase).Some?
    ensures var row := Wants(phase).value;
            if row in Holds(Granted(s, phase))
            then Holds(Granted(s, phase)) == Holds(phase) + {row}
            else Holds(Granted(s, phase)) == Holds(phase)
  {}

  lemma StepKeepsLocks(s: State, step: Step)
    requires LocksOk(s) && Enabled(s, step)
    ensures LocksOk(Apply(s, step))
  {
    var t, i := Apply(s, step), step.i;
    assert OthersSame(s, t, i);
    if step.Retry? || step.Commit? || step.Abort? {
      DroppingLocks(s, t, i);
    } else if step.Grant? {
      GrantedHolds(s, s.txs[i].phase);
      var row := Wants(s.txs[i].phase).value;
      if row in Held(t, i) {
        TakingLock(s, t, i, row);
      } else {
        KeepingLocks(s, t, i);
      }
    } else {
      KeepingLocks(s, t, i);
    }
  }

  /** A change of the committed rows that leaves the rows in `held` alone, and moves no alias to
      (or back to life under) a tag in `held`. */
  ghost predicate Frame(before: Db, after: Db, held: set<Row>) {
    && (forall t :: TagRow(t) in held ==>
          (t in before.tags ==> t in after.tags && after.tags[t] == before.tags[t]))
    && (forall a :: AliasRow(a) in held && a in before.aliases ==>
          a in after.aliases && after.aliases[a] == before.aliases[a])
    && (forall v :: VocabRow(v) in held && v in before.vocabs ==>
          v in after.vocabs && after.vocabs[v] == before.vocabs[v])
    && (forall a :: a in before.aliases ==> a in after.aliases)
    && (forall a :: a in after.aliases && TagRow(after.aliases[a].tag) in held ==>
          && a in before.aliases && before.aliases[a].tag == after.aliases[a].tag
          && before.aliases[a].tenant == after.aliases[a].tenant
          && (after.aliases[a].active ==> before.aliases[a].active))
  }

  /** A finished transaction has only written rows it holds, and moved aliases only to a tag it
      holds. */
  lemma CommitFrames(s: State, i: TxId, held: set<Row>)
    requires AllOnTrack(s) && AllKnow(s) && Enabled(s, Commit(i))
    requires held !! Holds(s.txs[i].phase)
    ensures Frame(s.db, Written(s.db, s.txs[i]), held)
  {
    var tx := s.txs[i];
    assert OnTrack(tx) && Knows(s.db, tx, s.clock);
    var after := Written(s.db, tx);
    match tx.op
    case CreateAlias(a, row) =>
      assert TagRow(row.tag) in Holds(tx.phase);
    case UpdateAlias(a, saved) =>
      assert TagRow(saved.tag) in Holds(tx.phase) && AliasRow(a) in Holds(tx.phase);
    case ReactivateAlias(a, _) =>
      assert TagRow(tx.phase.tag.value) in Holds(tx.phase) && AliasRow(a) in Holds(tx.phase);
    case DeactivateAlias(a) =>
      assert AliasRow(a) in Holds(tx.phase);
    case DeactivateTag(t) =>
      assert TagRow(t) in Holds(tx.phase);
      if tx.phase.Sweep? {
        assert forall a :: a in tx.phase.cascade ==> AliasRow(a) in Holds(tx.phase);
      }
    case ReactivateTag(t) =>
      assert TagRow(t) in Holds(tx.phase);
    case UpdateTag(t, _) =>
      assert TagRow(t) in Holds(tx.phase);
    case SaveVocab(v, _) =>
      assert VocabRow(v) in Holds(tx.phase);
    case CreateTag(_, _) =>
    case CreateVocab(_, _) =>
  }

  lemma KnowsFramed(before: Db, after: Db, tx: Tx, clock: nat)
    requires Knows(before, tx, clock) && Frame(before, after, Holds(tx.phase))
    ensures Knows(after, tx, clock)
  {}

  lemma GrantedKnows(s: State, i: TxId)
    requires Inv(s) && Enabled(s, Grant(i))
    ensures Knows(s.db, Apply(s, Grant(i)).txs[i], s.clock)
  {}

  lemma LocalKnows(s: State, step: Step)
    requires Inv(s) && Enabled(s, step)
    requires step.Check? || step.GoOn? || step.Snapshot? || step.ReadTagId?
    ensures Knows(s.db, Apply(s, step).txs[step.i], Apply(s, step).clock)
  {}

  lemma LaterKnows(db: Db, tx: Tx, clock: nat, later: nat)
    requires Knows(db, tx, clock) && clock <= later
    ensures Knows(db, tx, later)
  {}

  /** No row is held by two transactions. */
  lemma Exclusive(s: State, i: TxId, j: TxId)
    requires LocksOk(s) && i in s.txs && j in s.txs && i != j
    ensures Holds(s.txs[i].phase) !! Holds(s.txs[j].phase)
  {
    forall row | row in Holds(s.txs[i].phase) ensures row !in Holds(s.txs[j].phase) {
      assert s.locks[row] == i;
    }
  }

  lemma CommitKnows(s: State, i: TxId)
    requires Inv(s) && Enabled(s, Commit(i))
    ensures AllKnow(Apply(s, Commit(i)))
  {
    var t := Apply(s, Commit(i));
    forall j | j in t.txs ensures Knows(t.db, t.txs[j], t.clock) {
      Exclusive(s, i, j);
      CommitFrames(s, i, Holds(s.txs[j].phase));
      KnowsFramed(s.db, t.db, s.txs[j], s.clock);
    }
  }

  lemma StepKnows(s: State, step: Step)
    requires Inv(s) && Enabled(s, step)
    ensures AllKnow(Apply(s, step))
  {
    var t := Apply(s, step);
    if step.Commit? {
      CommitKnows(s, step.i);
    } else {
      if step.Grant? {
        GrantedKnows(s, step.i);
      } else if step.Check? || step.GoOn? || step.Snapshot? || step.ReadTagId? {
        LocalKnows(s, step);
      }
      forall j | j in t.txs && j != step.i ensures Knows(t.db, t.txs[j], t.clock) {
        LaterKnows(s.db, s.txs[j], s.clock, t.clock);
      }
    }
  }

  lemma StepKeepsInv(s: State, step: Step)
    requires Inv(s) && Enabled(s, step)
    ensures Inv(Apply(s, step))
  {
    StepOnTrack(s, step);
    StepKeepsLocks(s, step);
    StepKnows(s, step);
  }

  lemma {:induction false} RunKeepsInv(s: State, run: seq<Step>)
    requires Inv(s) && Feasible(s, run)
    ensures Inv(Exec(s, run))
    decreases |run|
  {
    if run != [] {
      StepKeepsInv(s, run[0]);
      RunKeepsInv(Apply(s, run[0]), run[1..]);
    }
  }
}
