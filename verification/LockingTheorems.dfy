/** Lock order, deadlock freedom, and the alias/tag activity invariant. */
module LockingTheorems {
  import opened Scopes
  import opened Locking
  import opened LockingSafety

  // ----- Lock order

  /** In every state any interleaving reaches, no transaction waits for a tag row while it holds any
      row at all; in particular never while it holds an alias. */
  lemma TagBeforeAlias(db: Db, keepsRejected: bool, run: seq<Step>, i: TxId, t: TagId)
    requires Feasible(Quiet(db, keepsRejected), run)
    requires var s := Exec(Quiet(db, keepsRejected), run);
             i in s.txs && Wants(s.txs[i].phase) == Some(TagRow(t))
    ensures var s := Exec(Quiet(db, keepsRejected), run);
            forall row :: row in s.locks ==> s.locks[row] != i
  {
    RunKeepsInv(Quiet(db, keepsRejected), run);
  }

  // ----- Active aliases have active tags

  /** Every alias has its tag, and every active alias an active one. */
  ghost predicate ActiveAliasesOk(db: Db) {
    forall a :: a in db.aliases ==>
      db.aliases[a].tag in db.tags && (db.aliases[a].active ==> db.tags[db.aliases[a].tag].active)
  }

  /** An active alias of the tag, whatever its tenant. */
  predicate Points(db: Db, t: TagId, a: AliasId) {
    a in db.aliases && db.aliases[a].tag == t && db.aliases[a].active
  }

  /** What a caller can check. Of `update_tag`: the row it saves is active, or the tag has no active
      alias. Of `deactivate_tag`: every active alias of the tag is in the tag's tenant. */
  ghost predicate HarmlessCall(db: Db, op: Op) {
    && (op.UpdateTag? && !op.savedTag.active ==> forall a :: !Points(db, op.t, a))
    && (op.DeactivateTag? ==> forall a :: Points(db, op.t, a) ==> Cascades(db, op.t, a))
  }

  ghost predicate HarmlessStep(s: State, step: Step) {
    step.Commit? && step.i in s.txs ==> HarmlessCall(s.db, s.txs[step.i].op)
  }

  lemma ActivityKept(s: State, i: TxId)
    requires Inv(s) && ActiveAliasesOk(s.db) && Enabled(s, Commit(i))
    requires HarmlessCall(s.db, s.txs[i].op)
    ensures ActiveAliasesOk(Written(s.db, s.txs[i]))
  {
    var tx := s.txs[i];
    assert OnTrack(tx) && Knows(s.db, tx, s.clock);
    var after := Written(s.db, tx);
    forall a | a in after.aliases
      ensures after.aliases[a].tag in after.tags
      ensures after.aliases[a].active ==> after.tags[after.aliases[a].tag].active
    {
      if tx.op.DeactivateTag? && tx.phase.Sweep? {
        assert Points(s.db, tx.op.t, a) ==> Cascades(s.db, tx.op.t, a);
        assert Cascades(s.db, tx.op.t, a) ==> a in tx.phase.cascade;
      } else if tx.op.UpdateTag? && !tx.op.savedTag.active {
        assert !Points(s.db, tx.op.t, a);
      }
    }
  }

  lemma ActivityLost(s: State, i: TxId)
    requires Inv(s) && ActiveAliasesOk(s.db) && Enabled(s, Commit(i))
    requires !HarmlessCall(s.db, s.txs[i].op)
    ensures !ActiveAliasesOk(Written(s.db, s.txs[i]))
  {
    var tx := s.txs[i];
    assert OnTrack(tx) && Knows(s.db, tx, s.clock);
    var after := Written(s.db, tx);
    var a :| Points(s.db, tx.op.t, a) && (tx.op.DeactivateTag? ==> !Cascades(s.db, tx.op.t, a));
    assert after.aliases[a].active && after.aliases[a].tag == tx.op.t;
    assert !after.tags[tx.op.t].active;
  }

  /** A step keeps the activity invariant exactly when it is neither an `update_tag` commit that
      saves an inactive row over a tag with active aliases nor a `deactivate_tag` commit of a tag
      with an active alias in another tenant. */
  lemma ActivityStep(s: State, step: Step)
    requires Inv(s) && ActiveAliasesOk(s.db) && Enabled(s, step)
    ensures ActiveAliasesOk(Apply(s, step).db) <==> HarmlessStep(s, step)
  {
    if step.Commit? {
      if HarmlessStep(s, step) { ActivityKept(s, step.i); } else { ActivityLost(s, step.i); }
    }
  }

  /** In every interleaving `reactivate_tag` revives a tag only under a vocabulary that is active as
      it commits. */
  lemma RevivedUnderActiveVocabulary(db: Db, keepsRejected: bool, run: seq<Step>, i: TxId)
    requires Feasible(Quiet(db, keepsRejected), run)
    requires var s := Exec(Quiet(db, keepsRejected), run);
             Enabled(s, Commit(i)) && s.txs[i].op.ReactivateTag?
    ensures var s := Exec(Quiet(db, keepsRejected), run);
            var t := s.txs[i].op.t;
            && t in s.db.tags && Written(s.db, s.txs[i]).tags[t].active
            && (!s.db.tags[t].active ==>
                  var vocab := s.db.tags[t].vocab;
                  vocab.Some? ==> vocab.value in s.db.vocabs && s.db.vocabs[vocab.value])
  {
    RunKeepsInv(Quiet(db, keepsRejected), run);
  }

  ghost predicate HarmlessRun(s: State, run: seq<Step>)
    requires Feasible(s, run)
    decreases |run|
  {
    run == [] || (HarmlessStep(s, run[0]) && HarmlessRun(Apply(s, run[0]), run[1..]))
  }

  /** The activity invariant holds in every state a run passes through. */
  ghost predicate AlwaysOk(s: State, run: seq<Step>)
    requires Feasible(s, run)
    decreases |run|
  {
    ActiveAliasesOk(s.db) && (run == [] || AlwaysOk(Apply(s, run[0]), run[1..]))
  }

  lemma {:induction false} ActivityRun(s: State, run: seq<Step>)
    requires Inv(s) && ActiveAliasesOk(s.db) && Feasible(s, run)
    ensures AlwaysOk(s, run) <==> HarmlessRun(s, run)
    decreases |run|
  {
    if run != [] {
      ActivityStep(s, run[0]);
      StepKeepsInv(s, run[0]);
      if HarmlessStep(s, run[0]) {
        ActivityRun(Apply(s, run[0]), run[1..]);
      } else {
        assert !ActiveAliasesOk(Apply(s, run[0]).db);
      }
    }
  }

  /** From any quiet database that meets the invariant, an interleaving keeps it throughout exactly
      when it contains no such commit. */
  lemma NoActiveAliasOfInactiveTag(db: Db, keepsRejected: bool, run: seq<Step>)
    requires ActiveAliasesOk(db) && Feasible(Quiet(db, keepsRejected), run)
    ensures AlwaysOk(Quiet(db, keepsRejected), run)
            <==> HarmlessRun(Quiet(db, keepsRejected), run)
  {
    ActivityRun(Quiet(db, keepsRejected), run);
  }

  // ----- Aliases in the tenant of their tag

  ghost predicate TenantsOk(db: Db) {
    forall a :: a in db.aliases ==>
      db.aliases[a].tag in db.tags && db.aliases[a].tenant == db.tags[db.aliases[a].tag].tenant
  }

  /** An alias and its tag agree on the tenant, and an active alias has an active tag. */
  ghost predicate Homed(db: Db) {
    ActiveAliasesOk(db) && TenantsOk(db)
  }

  /** The row `update_tag` saves suits every alias of the tag. */
  ghost predicate SuitsAliases(db: Db, op: Op) {
    op.UpdateTag? ==>
      forall a :: a in db.aliases && db.aliases[a].tag == op.t ==>
        && db.aliases[a].tenant == op.savedTag.tenant
        && (db.aliases[a].active ==> op.savedTag.active)
  }

  ghost predicate SuitableStep(s: State, step: Step) {
    step.Commit? && step.i in s.txs ==> SuitsAliases(s.db, s.txs[step.i].op)
  }

  lemma TenantsKept(s: State, i: TxId)
    requires Inv(s) && Homed(s.db) && Enabled(s, Commit(i)) && SuitsAliases(s.db, s.txs[i].op)
    ensures TenantsOk(Written(s.db, s.txs[i]))
  {
    var tx := s.txs[i];
    assert OnTrack(tx) && Knows(s.db, tx, s.clock);
  }

  /** Where aliases are in the tenant of their tag, a cascade misses none of them. */
  lemma SuitableIsHarmless(db: Db, op: Op)
    requires Homed(db) && SuitsAliases(db, op)
    ensures HarmlessCall(db, op)
  {}

  lemma HomeLost(s: State, i: TxId)
    requires Inv(s) && Homed(s.db) && Enabled(s, Commit(i)) && !SuitsAliases(s.db, s.txs[i].op)
    ensures !Homed(Written(s.db, s.txs[i]))
  {
    var op := s.txs[i].op;
    var a :| a in s.db.aliases && s.db.aliases[a].tag == op.t
             && (s.db.aliases[a].tenant != op.savedTag.tenant
                 || (s.db.aliases[a].active && !op.savedTag.active));
    assert a in Written(s.db, s.txs[i]).aliases;
  }

  /** A step keeps aliases homed exactly when it is not an `update_tag` commit that saves a row in a
      tenant, or in a state, that does not suit every alias of the tag. */
  lemma HomedStep(s: State, step: Step)
    requires Inv(s) && Homed(s.db) && Enabled(s, step)
    ensures Homed(Apply(s, step).db) <==> SuitableStep(s, step)
  {
    if step.Commit? {
      if SuitableStep(s, step) {
        SuitableIsHarmless(s.db, s.txs[step.i].op);
        ActivityKept(s, step.i);
        TenantsKept(s, step.i);
      } else {
        HomeLost(s, step.i);
      }
    }
  }

  ghost predicate SuitableRun(s: State, run: seq<Step>)
    requires Feasible(s, run)
    decreases |run|
  {
    run == [] || (SuitableStep(s, run[0]) && SuitableRun(Apply(s, run[0]), run[1..]))
  }

  ghost predicate AlwaysHomed(s: State, run: seq<Step>)
    requires Feasible(s, run)
    decreases |run|
  {
    Homed(s.db) && (run == [] || AlwaysHomed(Apply(s, run[0]), run[1..]))
  }

  lemma {:induction false} HomedRun(s: State, run: seq<Step>)
    requires Inv(s) && Homed(s.db) && Feasible(s, run)
    ensures AlwaysHomed(s, run) <==> SuitableRun(s, run)
    decreases |run|
  {
    if run != [] {
      HomedStep(s, run[0]);
      StepKeepsInv(s, run[0]);
      if SuitableStep(s, run[0]) {
        HomedRun(Apply(s, run[0]), run[1..]);
      } else {
        assert !Homed(Apply(s, run[0]).db);
      }
    }
  }

  /** From any quiet database in which aliases are homed, an interleaving keeps them so throughout
      exactly when every `update_tag` commit saves a row that suits every alias of the tag. */
  lemma AliasesStayHomed(db: Db, keepsRejected: bool, run: seq<Step>)
    requires Homed(db) && Feasible(Quiet(db, keepsRejected), run)
    ensures AlwaysHomed(Quiet(db, keepsRejected), run)
            <==> SuitableRun(Quiet(db, keepsRejected), run)
  {
    HomedRun(Quiet(db, keepsRejected), run);
  }
}
