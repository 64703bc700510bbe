/** What is active over what: active aliases over active tags in every run of service calls, and tags
    under active vocabularies. */
module TaxonomyActivity {
  import opened Scopes
  import opened Taxonomy
  import opened TaxonomyInvariants
  import opened TaxonomyScopes

  // ----- Active aliases over active tags

  ghost predicate AliasesOk(rows: map<Key, Row>) {
    forall k :: k in rows && k.kind == AliasKind && IsActive(rows[k]) ==> ActiveTarget(rows, rows[k], Canonical)
  }

  /** An active alias of the tag, whatever its tenant. */
  predicate Points(rows: map<Key, Row>, id: nat, k: Key) {
    k in rows && k.kind == AliasKind && IsActive(rows[k]) && Get(rows[k], Canonical) == Ref(id)
  }

  /** An update saves a tag inactive only if it has no active alias. */
  ghost predicate HarmlessUpdate(rows: map<Key, Row>, c: Call) {
    c.Update? && c.kind == TagKind && After(c.instance, c.data) != map[] && !IsActive(c.instance + c.data) ==>
      forall k :: !Points(rows, c.id, k)
  }

  /** A deactivated tag has its active aliases in its own tenant. */
  ghost predicate HarmlessDeactivation(rows: map<Key, Row>, c: Call) {
    c.DeactivateTag? && Key(TagKind, c.id) in rows ==>
      forall k :: Points(rows, c.id, k) ==> CascadesTo(rows, c.id, Get(rows[Key(TagKind, c.id)], Tenant), k)
  }

  ghost predicate Harmless(db: Db, s: Step) {
    Do(db, s.writes, s.audit, s.call).Ok? ==>
      HarmlessUpdate(db.rows, s.call) && HarmlessDeactivation(db.rows, s.call)
  }

  /** Writing a row keeps the invariant if an active alias has an active tag and an inactive tag no
      active alias. */
  lemma WriteKeepsAliases(rows: map<Key, Row>, key: Key, row: Row)
    requires AliasesOk(rows)
    requires key.kind == AliasKind && IsActive(row) ==> ActiveTarget(rows, row, Canonical)
    requires key.kind == TagKind && !IsActive(row) ==> forall k :: !Points(rows, key.id, k)
    ensures AliasesOk(rows[key := row])
  {
    var after := rows[key := row];
    forall k | k in after && k.kind == AliasKind && IsActive(after[k])
      ensures ActiveTarget(after, after[k], Canonical)
    {
      if k != key {
        assert ActiveTarget(rows, rows[k], Canonical);
        assert key.kind == TagKind && !IsActive(row) ==> !Points(rows, key.id, k);
      }
    }
  }

  lemma InactiveTagLosesAliases(rows: map<Key, Row>, id: nat, row: Row, k: Key)
    requires Points(rows, id, k) && !IsActive(row)
    ensures !AliasesOk(rows[Key(TagKind, id) := row])
  {
    var after := rows[Key(TagKind, id) := row];
    assert k in after && after[k] == rows[k] && !ActiveTarget(after, after[k], Canonical);
  }

  lemma AliasesPointToStored(rows: map<Key, Row>, id: nat)
    requires Inv(rows)
    ensures forall k :: Points(rows, id, k) ==> Key(TagKind, id) in rows
  {
    forall k | Points(rows, id, k) ensures Key(TagKind, id) in rows {
      assert RefersOnlyTo(rows, rows[k]) && Canonical in REFERENCES;
    }
  }

  lemma CreateKeepsAliases(db: Db, s: Step)
    requires Inv(db.rows) && AliasesOk(db.rows) && s.call.Create?
    ensures AliasesOk(Commit(db, s.writes, s.audit, s.call).rows)
  {
    var kind, id, row := s.call.kind, s.call.id, NewRow(s.call.kind, s.call.data);
    if Do(db, s.writes, s.audit, s.call).Ok? {
      if kind == AliasKind {
        AliasCreatedOverActiveTag(db, s.writes, s.audit, id, s.call.data, s.call.seen);
      } else if kind == TagKind {
        AliasesPointToStored(db.rows, id);
      }
      WriteKeepsAliases(db.rows, Key(kind, id), row);
    }
  }

  lemma UpdateAndAliases(db: Db, s: Step)
    requires AliasesOk(db.rows) && s.call.Update?
    ensures AliasesOk(Commit(db, s.writes, s.audit, s.call).rows) <==> Harmless(db, s)
  {
    var c := s.call;
    if Do(db, s.writes, s.audit, c).Ok? && After(c.instance, c.data) != map[] {
      UpdateSaves(db, s.writes, s.audit, c.kind, c.id, c.instance, c.data, c.seen);
      if c.kind == AliasKind {
        AliasUpdatedOverActiveTag(db, s.writes, s.audit, c.id, c.instance, c.data, c.seen);
      }
      if HarmlessUpdate(db.rows, c) {
        WriteKeepsAliases(db.rows, Key(c.kind, c.id), c.instance + c.data);
      } else {
        var k :| Points(db.rows, c.id, k);
        InactiveTagLosesAliases(db.rows, c.id, c.instance + c.data, k);
      }
    }
  }

  lemma ReactivateKeepsAliases(db: Db, s: Step)
    requires AliasesOk(db.rows) && s.call.Reactivate?
    ensures AliasesOk(Commit(db, s.writes, s.audit, s.call).rows)
  {
    var c, key := s.call, Key(s.call.kind, s.call.id);
    if Do(db, s.writes, s.audit, c).Ok? && !IsActive(db.rows[key]) {
      if c.kind == AliasKind {
        RevivalNeedsActiveTarget(db, s.writes, s.audit, c.kind, c.id, c.instance, c.seen);
        FlipKeepsTarget(db.rows, db.rows[key], true);
      }
      WriteKeepsAliases(db.rows, key, Flip(db.rows[key], true));
    }
  }

  lemma FlipKeepsTarget(rows: map<Key, Row>, row: Row, on: bool)
    requires ActiveTarget(rows, row, Canonical)
    ensures ActiveTarget(rows, Flip(row, on), Canonical)
  {}

  lemma DeactivateKeepsAliases(db: Db, s: Step)
    requires AliasesOk(db.rows) && s.call.Deactivate? && s.call.kind != TagKind
    ensures AliasesOk(Commit(db, s.writes, s.audit, s.call).rows)
  {
    var key := Key(s.call.kind, s.call.id);
    if key in db.rows {
      WriteKeepsAliases(db.rows, key, Flip(db.rows[key], false));
    }
  }

  /** A cascade that reaches every active alias of the tag leaves none active. */
  lemma WholeCascade(rows: map<Key, Row>, id: nat, cascade: seq<nat>)
    requires AliasesOk(rows) && Key(TagKind, id) in rows
    requires forall k :: Points(rows, id, k) ==> k.id in cascade
    ensures AliasesOk(FlipAliases(rows[Key(TagKind, id) := Flip(rows[Key(TagKind, id)], false)], cascade))
  {
    var tagged := rows[Key(TagKind, id) := Flip(rows[Key(TagKind, id)], false)];
    var after := FlipAliases(tagged, cascade);
    forall k | k in after && k.kind == AliasKind && IsActive(after[k])
      ensures ActiveTarget(after, after[k], Canonical)
    {
      assert k.id !in cascade && after[k] == rows[k];
      assert ActiveTarget(rows, rows[k], Canonical) && !Points(rows, id, k);
    }
  }

  lemma MissedAlias(rows: map<Key, Row>, id: nat, cascade: seq<nat>, k: Key)
    requires Key(TagKind, id) in rows && Points(rows, id, k) && k.id !in cascade
    ensures !AliasesOk(FlipAliases(rows[Key(TagKind, id) := Flip(rows[Key(TagKind, id)], false)], cascade))
  {
    var after := FlipAliases(rows[Key(TagKind, id) := Flip(rows[Key(TagKind, id)], false)], cascade);
    assert k in after && after[k] == rows[k] && !ActiveTarget(after, after[k], Canonical);
  }

  lemma DeactivateTagAndAliases(db: Db, s: Step)
    requires AliasesOk(db.rows) && s.call.DeactivateTag? && Callable(db.rows, s.call)
    ensures AliasesOk(Commit(db, s.writes, s.audit, s.call).rows) <==> Harmless(db, s)
  {
    var id, cascade := s.call.id, s.call.cascade;
    var tenant := Get(db.rows[Key(TagKind, id)], Tenant);
    if Do(db, s.writes, s.audit, s.call).Ok? {
      if !IsActive(db.rows[Key(TagKind, id)]) {
        forall k ensures !Points(db.rows, id, k) {}
      } else if HarmlessDeactivation(db.rows, s.call) {
        forall k | Points(db.rows, id, k) ensures k.id in cascade {
          assert CascadesTo(db.rows, id, tenant, Key(AliasKind, k.id));
        }
        WholeCascade(db.rows, id, cascade);
      } else {
        var k :| Points(db.rows, id, k) && !CascadesTo(db.rows, id, tenant, k);
        assert Key(AliasKind, k.id) == k;
        MissedAlias(db.rows, id, cascade, k);
      }
    }
  }

  /** A call keeps every active alias over an active tag exactly when it is neither a successful
      update that saves a tag inactive over an active alias nor a successful deactivation of a tag
      with an active alias in another tenant. */
  lemma StepAndAliases(db: Db, s: Step)
    requires Inv(db.rows) && AliasesOk(db.rows) && Callable(db.rows, s.call)
    ensures AliasesOk(Commit(db, s.writes, s.audit, s.call).rows) <==> Harmless(db, s)
  {
    match s.call
    case Create(_, _, _, _) => CreateKeepsAliases(db, s);
    case Update(_, _, _, _, _) => UpdateAndAliases(db, s);
    case Reactivate(_, _, _, _) => ReactivateKeepsAliases(db, s);
    case Deactivate(_, _, _) => DeactivateKeepsAliases(db, s);
    case DeactivateTag(_, _, _) => DeactivateTagAndAliases(db, s);
  }

  ghost predicate HarmlessRun(steps: seq<Step>)
    decreases |steps|
  {
    steps == []
    || (HarmlessRun(steps[..|steps| - 1])
        && Harmless(Run(EMPTY, steps[..|steps| - 1]), steps[|steps| - 1]))
  }

  ghost predicate AlwaysOk(steps: seq<Step>)
    decreases |steps|
  {
    AliasesOk(Run(EMPTY, steps).rows) && (steps == [] || AlwaysOk(steps[..|steps| - 1]))
  }

  /** From an empty store, active aliases have active tags throughout a run exactly when every call
      of it is harmless. */
  lemma {:induction false} RunAndAliases(steps: seq<Step>)
    requires CallableRun(EMPTY, steps)
    ensures AlwaysOk(steps) <==> HarmlessRun(steps)
    decreases |steps|
  {
    if steps != [] {
      var init, last := steps[..|steps| - 1], steps[|steps| - 1];
      CallablePrefix(EMPTY, steps);
      RunAndAliases(init);
      RunKeepsInv(init);
      if AlwaysOk(init) {
        StepAndAliases(Run(EMPTY, init), last);
      }
    }
  }

  /** Where references stay in scope, a cascade misses no active alias. */
  lemma ClosedCascadesAreWhole(rows: map<Key, Row>, c: Call)
    requires Closed(rows)
    ensures HarmlessDeactivation(rows, c)
  {
    if c.DeactivateTag? && Key(TagKind, c.id) in rows {
      forall k | Points(rows, c.id, k)
        ensures CascadesTo(rows, c.id, Get(rows[Key(TagKind, c.id)], Tenant), k)
      {
        assert RowCloses(rows, rows[k]) && Canonical in REFERENCES;
      }
    }
  }

  ghost predicate HarmlessUpdates(steps: seq<Step>)
    decreases |steps|
  {
    steps == []
    || (var init, last := steps[..|steps| - 1], steps[|steps| - 1];
        var db := Run(EMPTY, init);
        && HarmlessUpdates(init)
        && (Do(db, last.writes, last.audit, last.call).Ok? ==> HarmlessUpdate(db.rows, last.call)))
  }

  /** Where no call edits a tenant, updates of tags are all that can break it. */
  lemma {:induction false} UpdatesAndAliases(steps: seq<Step>)
    requires EditsNoTenant(steps)
    ensures AlwaysOk(steps) <==> HarmlessUpdates(steps)
    decreases |steps|
  {
    if steps != [] {
      var init, last := steps[..|steps| - 1], steps[|steps| - 1];
      UpdatesAndAliases(init);
      RunStaysClosed(init);
      ClosedCascadesAreWhole(Run(EMPTY, init).rows, last.call);
      if AlwaysOk(init) {
        StepAndAliases(Run(EMPTY, init), last);
      }
    }
  }

  // ----- Tags under active vocabularies

  /** The call deactivates the row: a vocabulary's deactivation, or an update that saves it inactive. */
  predicate Retires(before: map<Key, Row>, c: Call, after: map<Key, Row>, k: Key) {
    && (c.Deactivate? || c.Update?) && Key(c.kind, c.id) == k
    && k in before && IsActive(before[k]) && k in after && !IsActive(after[k])
  }

  lemma CreateLeavesRow(db: Db, s: Step, k: Key)
    requires s.call.Create? && k in db.rows
    ensures var after := Commit(db, s.writes, s.audit, s.call).rows;
            k in after && after[k] == db.rows[k]
  {}

  lemma UpdateLeavesRow(db: Db, s: Step, k: Key)
    requires s.call.Update? && k in db.rows && k != Key(s.call.kind, s.call.id)
    ensures var after := Commit(db, s.writes, s.audit, s.call).rows;
            k in after && after[k] == db.rows[k]
  {}

  lemma ReactivateLeavesRow(db: Db, s: Step, k: Key)
    requires s.call.Reactivate? && k in db.rows
    ensures var after := Commit(db, s.writes, s.audit, s.call).rows;
            k in after && (after[k] == db.rows[k] || IsActive(after[k]))
  {}

  lemma DeactivateLeavesRow(db: Db, s: Step, k: Key)
    requires s.call.Deactivate? && k in db.rows && k != Key(s.call.kind, s.call.id)
    ensures var after := Commit(db, s.writes, s.audit, s.call).rows;
            k in after && after[k] == db.rows[k]
  {}

  lemma DeactivateTagLeavesRow(db: Db, s: Step, k: Key)
    requires s.call.DeactivateTag? && k in db.rows && k.kind == VocabularyKind
    ensures var after := Commit(db, s.writes, s.audit, s.call).rows;
            k in after && after[k] == db.rows[k]
  {}

  lemma OnlyRetirementRetires(db: Db, s: Step, k: Key)
    requires k.kind == VocabularyKind && k in db.rows && IsActive(db.rows[k])
    requires var after := Commit(db, s.writes, s.audit, s.call).rows;
             k in after && !IsActive(after[k])
    ensures Retires(db.rows, s.call, Commit(db, s.writes, s.audit, s.call).rows, k)
  {
    var own := (s.call.Deactivate? || s.call.Update?) && Key(s.call.kind, s.call.id) == k;
    match s.call
    case Create(_, _, _, _) => CreateLeavesRow(db, s, k);
    case Update(_, _, _, _, _) => if !own { UpdateLeavesRow(db, s, k); }
    case Reactivate(_, _, _, _) => ReactivateLeavesRow(db, s, k);
    case Deactivate(_, _, _) => if !own { DeactivateLeavesRow(db, s, k); }
    case DeactivateTag(_, _, _) => DeactivateTagLeavesRow(db, s, k);
  }

  /** Some call of the run, from the m-th on, deactivated the row. */
  ghost predicate RetiredSince(steps: seq<Step>, m: nat, k: Key)
    requires m <= |steps|
    decreases |steps|
  {
    m < |steps|
    && (var init, last := steps[..|steps| - 1], steps[|steps| - 1];
        RetiredSince(init, m, k) || Retires(Run(EMPTY, init).rows, last.call, Run(EMPTY, steps).rows, k))
  }

  ghost predicate StoredActive(rows: map<Key, Row>, k: Key) {
    k in rows && IsActive(rows[k])
  }

  lemma LastRetires(steps: seq<Step>, k: Key)
    requires steps != [] && k.kind == VocabularyKind && StoredActive(Run(EMPTY, steps[..|steps| - 1]).rows, k)
    requires k in Run(EMPTY, steps).rows && !StoredActive(Run(EMPTY, steps).rows, k)
    ensures Retires(Run(EMPTY, steps[..|steps| - 1]).rows, steps[|steps| - 1].call, Run(EMPTY, steps).rows, k)
  {
    OnlyRetirementRetires(Run(EMPTY, steps[..|steps| - 1]), steps[|steps| - 1], k);
  }

  lemma {:induction false} SomeCallRetired(steps: seq<Step>, m: nat, k: Key)
    requires CallableRun(EMPTY, steps) && m <= |steps| && k.kind == VocabularyKind
    requires StoredActive(Run(EMPTY, steps[..m]).rows, k) && !StoredActive(Run(EMPTY, steps).rows, k)
    ensures RetiredSince(steps, m, k)
    decreases |steps|
  {
    assert steps[..|steps|] == steps;
    assert m < |steps|;
    var init := steps[..|steps| - 1];
    CallablePrefix(EMPTY, steps);
    assert init[..m] == steps[..m];
    StaysStored(steps, m, k);
    if StoredActive(Run(EMPTY, init).rows, k) {
      LastRetires(steps, k);
    } else {
      SomeCallRetired(init, m, k);
    }
  }

  lemma {:induction false} StaysStored(steps: seq<Step>, m: nat, k: Key)
    requires CallableRun(EMPTY, steps) && m <= |steps| && k in Run(EMPTY, steps[..m]).rows
    ensures k in Run(EMPTY, steps).rows
    decreases |steps|
  {
    if m == |steps| {
      assert steps[..m] == steps;
    } else {
      var init := steps[..|steps| - 1];
      CallablePrefix(EMPTY, steps);
      assert init[..m] == steps[..m];
      StaysStored(init, m, k);
      LastKeeps(steps, k);
    }
  }

  lemma LastKeeps(steps: seq<Step>, k: Key)
    requires steps != [] && k in Run(EMPTY, steps[..|steps| - 1]).rows
    requires Callable(Run(EMPTY, steps[..|steps| - 1]).rows, steps[|steps| - 1].call)
    ensures k in Run(EMPTY, steps).rows
  {
    CommitKeepsScopes(Run(EMPTY, steps[..|steps| - 1]), steps[|steps| - 1]);
  }

  function SavedRow(c: Call): Row
    requires c.Create? || c.Update?
  {
    if c.Create? then NewRow(c.kind, c.data) else c.instance + c.data
  }

  /** The call puts a tag under a vocabulary: it creates the tag there, or the row an update saves
      has a vocabulary that the stored row has not. */
  predicate Puts(rows: map<Key, Row>, c: Call, v: nat) {
    && (c.Create? || c.Update?) && c.kind == TagKind && Get(SavedRow(c), Vocabulary) == Ref(v)
    && (c.Update? ==>
          && After(c.instance, c.data) != map[] && Key(TagKind, c.id) in rows
          && Get(rows[Key(TagKind, c.id)], Vocabulary) != Ref(v))
  }

  /** The caller's own data names the vocabulary; otherwise a stale instance brings it back. */
  predicate SetsVocabulary(c: Call)
    requires c.Create? || c.Update?
  {
    c.Create? || Get(SavedRow(c), Vocabulary) != Get(c.instance, Vocabulary)
  }

  /** Where the call's data names the vocabulary, the tag lands under an active one exactly if the
      caller's copy tells its present activity; where a stale instance brings it back, nothing is
      checked, and it does exactly if the vocabulary happens to be active. */
  lemma PutUnderActive(db: Db, s: Step, v: nat)
    requires Callable(db.rows, s.call) && Puts(db.rows, s.call, v) && Do(db, s.writes, s.audit, s.call).Ok?
    ensures ActiveTarget(db.rows, SavedRow(s.call), Vocabulary)
            <==> if SetsVocabulary(s.call) then VocabularyCurrent(db.rows, s.call.seen, SavedRow(s.call))
                 else StoredActive(db.rows, Key(VocabularyKind, v))
  {
    if SetsVocabulary(s.call) {
      match s.call
      case Create(_, id, data, seen) => CreatedUnderActiveVocabulary(db, s.writes, s.audit, id, data, seen);
      case Update(_, id, instance, data, seen) =>
        MovedUnderActiveVocabulary(db, s.writes, s.audit, id, instance, data, seen);
    }
  }

  /** The caller's copy says active where the store says otherwise. */
  lemma OrphanHasStaleCopy(db: Db, s: Step, v: nat)
    requires Callable(db.rows, s.call) && Puts(db.rows, s.call, v) && Do(db, s.writes, s.audit, s.call).Ok?
    requires SetsVocabulary(s.call) && !ActiveTarget(db.rows, SavedRow(s.call), Vocabulary)
    requires Key(VocabularyKind, v) in s.call.seen && Key(VocabularyKind, v) in db.rows
    ensures IsActive(s.call.seen[Key(VocabularyKind, v)]) && !StoredActive(db.rows, Key(VocabularyKind, v))
  {
    PutUnderActive(db, s, v);
  }

  // ----- Tags that were moved away

  ghost predicate Under(rows: map<Key, Row>, t: Key, v: nat) {
    t in rows && Get(rows[t], Vocabulary) == Ref(v)
  }

  /** Some update of the run, from the p-th call on, took the tag from under the vocabulary. */
  ghost predicate MovedSince(steps: seq<Step>, p: nat, t: Key, v: nat)
    requires p <= |steps|
    decreases |steps|
  {
    p < |steps|
    && (var init, last := steps[..|steps| - 1], steps[|steps| - 1];
        || MovedSince(init, p, t, v)
        || (last.call.Update? && Key(last.call.kind, last.call.id) == t
            && Under(Run(EMPTY, init).rows, t, v) && !Under(Run(EMPTY, steps).rows, t, v)))
  }

  lemma ReactivateKeepsVocabulary(db: Db, s: Step, t: Key)
    requires s.call.Reactivate? && t in db.rows
    ensures var after := Commit(db, s.writes, s.audit, s.call).rows;
            t in after && Get(after[t], Vocabulary) == Get(db.rows[t], Vocabulary)
  {}

  lemma DeactivateKeepsVocabulary(db: Db, s: Step, t: Key)
    requires s.call.Deactivate? && t in db.rows
    ensures var after := Commit(db, s.writes, s.audit, s.call).rows;
            t in after && Get(after[t], Vocabulary) == Get(db.rows[t], Vocabulary)
  {}

  lemma DeactivateTagKeepsVocabulary(db: Db, s: Step, t: Key)
    requires s.call.DeactivateTag? && t in db.rows
    ensures var after := Commit(db, s.writes, s.audit, s.call).rows;
            t in after && Get(after[t], Vocabulary) == Get(db.rows[t], Vocabulary)
  {}

  lemma OnlyUpdatesMove(db: Db, s: Step, t: Key, v: nat)
    requires Under(db.rows, t, v) && !Under(Commit(db, s.writes, s.audit, s.call).rows, t, v)
    ensures s.call.Update? && Key(s.call.kind, s.call.id) == t
  {
    match s.call
    case Create(_, _, _, _) => CreateLeavesRow(db, s, t);
    case Update(kind, id, _, _, _) => if Key(kind, id) != t { UpdateLeavesRow(db, s, t); }
    case Reactivate(_, _, _, _) => ReactivateKeepsVocabulary(db, s, t);
    case Deactivate(_, _, _) => DeactivateKeepsVocabulary(db, s, t);
    case DeactivateTag(_, _, _) => DeactivateTagKeepsVocabulary(db, s, t);
  }

  lemma LastMoves(steps: seq<Step>, t: Key, v: nat)
    requires steps != [] && Under(Run(EMPTY, steps[..|steps| - 1]).rows, t, v) && !Under(Run(EMPTY, steps).rows, t, v)
    ensures steps[|steps| - 1].call.Update?
            && Key(steps[|steps| - 1].call.kind, steps[|steps| - 1].call.id) == t
  {
    OnlyUpdatesMove(Run(EMPTY, steps[..|steps| - 1]), steps[|steps| - 1], t, v);
  }

  lemma {:induction false} SomeCallMoved(steps: seq<Step>, p: nat, t: Key, v: nat)
    requires p <= |steps| && Under(Run(EMPTY, steps[..p]).rows, t, v) && !Under(Run(EMPTY, steps).rows, t, v)
    ensures MovedSince(steps, p, t, v)
    decreases |steps|
  {
    assert steps[..|steps|] == steps;
    assert p < |steps|;
    var init := steps[..|steps| - 1];
    assert init[..p] == steps[..p];
    if Under(Run(EMPTY, init).rows, t, v) {
      LastMoves(steps, t, v);
    } else {
      SomeCallMoved(init, p, t, v);
    }
  }

  /** The row as the store held it after n calls. */
  ghost predicate StoredAt(steps: seq<Step>, n: nat, k: Key, row: Row)
    requires n <= |steps|
  {
    k in Run(EMPTY, steps[..n]).rows && Run(EMPTY, steps[..n]).rows[k] == row
  }

  /** A call puts a tag under an inactive vocabulary only where some call deactivated that vocabulary
      after the caller loaded its copy of it; or where the caller's instance was loaded under it and
      some update has taken the tag from there since. */
  lemma OrphanNeedsStaleness(steps: seq<Step>, m: nat, p: nat, s: Step, v: nat)
    requires CallableRun(EMPTY, steps) && m <= |steps| && p <= |steps|
    requires Callable(Run(EMPTY, steps).rows, s.call) && Puts(Run(EMPTY, steps).rows, s.call, v)
    requires Do(Run(EMPTY, steps), s.writes, s.audit, s.call).Ok?
    requires SetsVocabulary(s.call) ==>
               var k := Key(VocabularyKind, v);
               k in s.call.seen && StoredAt(steps, m, k, s.call.seen[k])
    requires s.call.Update? ==> StoredAt(steps, p, Key(TagKind, s.call.id), s.call.instance)
    ensures || ActiveTarget(Run(EMPTY, steps).rows, SavedRow(s.call), Vocabulary)
            || (SetsVocabulary(s.call) && RetiredSince(steps, m, Key(VocabularyKind, v)))
            || (!SetsVocabulary(s.call) && MovedSince(steps, p, Key(TagKind, s.call.id), v))
  {
    if !SetsVocabulary(s.call) {
      SomeCallMoved(steps, p, Key(TagKind, s.call.id), v);
    } else if !ActiveTarget(Run(EMPTY, steps).rows, SavedRow(s.call), Vocabulary) {
      StaysStored(steps, m, Key(VocabularyKind, v));
      OrphanHasStaleCopy(Run(EMPTY, steps), s, v);
      SomeCallRetired(steps, m, Key(VocabularyKind, v));
    }
  }
}
