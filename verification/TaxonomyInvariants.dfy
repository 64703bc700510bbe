/** What every service call keeps of the store's constraints, what a write needs of the rows it
    refers to, and what a deactivation leaves. */
module TaxonomyInvariants {
  import opened Scopes
  import opened Taxonomy

  const REFERENCES := {Parent, Vocabulary, Canonical}

  ghost predicate RefersOnlyTo(rows: map<Key, Row>, row: Row) {
    forall f :: f in REFERENCES && Get(row, f).Ref? ==> Key(Target(f), Get(row, f).id) in rows
  }

  ghost predicate SoundRow(k: Key, row: Row) {
    IsRow(k.kind, row) && Checked(k, row) && IsScopeContext(Ns(row))
  }

  ghost predicate AllSound(rows: map<Key, Row>) {
    forall k :: k in rows ==> SoundRow(k, rows[k])
  }

  ghost predicate AllRefer(rows: map<Key, Row>) {
    forall k :: k in rows ==> RefersOnlyTo(rows, rows[k])
  }

  ghost predicate AllUnclaimed(rows: map<Key, Row>) {
    forall k :: k in rows ==> Unclaimed(rows, k, rows[k])
  }

  /** Types and check constraints, foreign keys, and active-only uniqueness. */
  ghost predicate Inv(rows: map<Key, Row>) {
    AllSound(rows) && AllRefer(rows) && AllUnclaimed(rows)
  }

  // ----- Constraints

  lemma WriteKeepsInv(rows: map<Key, Row>, key: Key, row: Row)
    requires Inv(rows) && SoundRow(key, row)
    requires RefersOnlyTo(rows, row) && Unclaimed(rows, key, row)
    ensures Inv(rows[key := row])
  {}

  lemma FlipIsSound(k: Key, row: Row, on: bool)
    requires SoundRow(k, row)
    ensures SoundRow(k, Flip(row, on))
    ensures App(Flip(row, on)) == App(row) && Ns(Flip(row, on)) == Ns(row)
    ensures forall f :: f != Active ==> Get(Flip(row, on), f) == Get(row, f)
  {}

  lemma CheckedReferencesExist(rows: map<Key, Row>, seen: map<Key, Row>, kind: Kind, row: Row, checked: Row,
                               newVocabulary: bool)
    requires IsRow(kind, row) && CheckReferences(seen, kind, checked, newVocabulary).None?
    requires forall k :: k in seen ==> k in rows
    requires forall f :: f in REFERENCES ==> Get(checked, f) == Get(row, f)
    ensures RefersOnlyTo(rows, row)
  {}

  lemma NewRowIsRow(kind: Kind, data: Row)
    requires Typed(kind, data) && (kind == AliasKind ==> Canonical in data)
    ensures IsRow(kind, NewRow(kind, data))
  {}

  lemma CreateKeepsInv(db: Db, writes: bool, audit: bool, kind: Kind, id: nat, data: Row,
                 seen: map<Key, Row>)
    requires Inv(db.rows) && Callable(db.rows, Create(kind, id, data, seen))
    requires DoCreate(db, writes, audit, kind, id, data, seen).Ok?
    ensures Inv(DoCreate(db, writes, audit, kind, id, data, seen).value.rows)
  {
    var row := NewRow(kind, data);
    NewRowIsRow(kind, data);
    CopiesAreStored(db.rows, seen);
    CheckedReferencesExist(db.rows, if kind == AliasKind then db.rows else seen, kind, row, row, true);
    WriteKeepsInv(db.rows, Key(kind, id), row);
  }

  /** A row saved by an update keeps the stored row's scope. */
  lemma SavedScope(rows: map<Key, Row>, kind: Kind, id: nat, instance: Row, data: Row)
    requires Loaded(rows, kind, id, instance) && Typed(kind, data) && !ChangesScope(instance, data)
    ensures IsRow(kind, instance + data)
    ensures forall f :: f in SCOPE_FIELDS ==> Get(instance + data, f) == Get(rows[Key(kind, id)], f)
    ensures App(instance + data) == App(rows[Key(kind, id)]) && Ns(instance + data) == Ns(rows[Key(kind, id)])
    ensures Ns(instance) == Ns(rows[Key(kind, id)])
  {}

  /** What an update that changes something commits when it succeeds. */
  function Saved(db: Db, audit: bool, kind: Kind, id: nat, instance: Row, data: Row): Db {
    Write(db, audit, Key(kind, id), instance + data,
          Updated(Before(instance, data), After(instance, data)))
  }

  lemma UpdateSaves(db: Db, writes: bool, audit: bool, kind: Kind, id: nat, instance: Row, data: Row,
                 seen: map<Key, Row>)
    requires DoUpdate(db, writes, audit, kind, id, instance, data, seen).Ok?
    ensures DoUpdate(db, writes, audit, kind, id, instance, data, seen).value
            == if After(instance, data) == map[] then db else Saved(db, audit, kind, id, instance, data)
  {}

  lemma CopiesAreStored(rows: map<Key, Row>, seen: map<Key, Row>)
    requires Copies(rows, seen)
    ensures forall k :: k in seen ==> k in rows
  {
    forall k | k in seen ensures k in rows {
      assert Loaded(rows, k.kind, k.id, seen[k]) && Key(k.kind, k.id) == k;
    }
  }

  lemma SavedKeepsInv(rows: map<Key, Row>, kind: Kind, id: nat, instance: Row, data: Row)
    requires Inv(rows) && Loaded(rows, kind, id, instance)
    requires Typed(kind, data) && !ChangesScope(instance, data)
    requires RefersOnlyTo(rows, instance + data) && Savable(rows, Key(kind, id), instance + data)
    ensures Inv(rows[Key(kind, id) := instance + data])
  {
    SavedScope(rows, kind, id, instance, data);
    assert SoundRow(Key(kind, id), rows[Key(kind, id)]);
    WriteKeepsInv(rows, Key(kind, id), instance + data);
  }

  lemma UpdateIsChecked(db: Db, writes: bool, audit: bool, kind: Kind, id: nat, instance: Row, data: Row,
                        seen: map<Key, Row>)
    requires Callable(db.rows, Update(kind, id, instance, data, seen)) && After(instance, data) != map[]
    requires DoUpdate(db, writes, audit, kind, id, instance, data, seen).Ok?
    ensures !ChangesScope(instance, data) && RefersOnlyTo(db.rows, instance + data)
    ensures Savable(db.rows, Key(kind, id), instance + data)
  {
    var row := instance + data;
    CopiesAreStored(db.rows, seen);
    CheckedReferencesExist(db.rows, seen, kind, row, row[Tenant := Get(instance, Tenant)],
                           Get(row, Vocabulary) != Get(instance, Vocabulary));
  }

  lemma UpdateKeepsInv(db: Db, writes: bool, audit: bool, kind: Kind, id: nat, instance: Row, data: Row,
                 seen: map<Key, Row>)
    requires Inv(db.rows) && Callable(db.rows, Update(kind, id, instance, data, seen))
    requires DoUpdate(db, writes, audit, kind, id, instance, data, seen).Ok?
    ensures Inv(DoUpdate(db, writes, audit, kind, id, instance, data, seen).value.rows)
  {
    UpdateSaves(db, writes, audit, kind, id, instance, data, seen);
    if After(instance, data) != map[] {
      UpdateIsChecked(db, writes, audit, kind, id, instance, data, seen);
      SavedKeepsInv(db.rows, kind, id, instance, data);
    }
  }

  lemma FlipKeepsInv(rows: map<Key, Row>, key: Key, on: bool)
    requires Inv(rows) && key in rows && Unclaimed(rows, key, Flip(rows[key], on))
    ensures Inv(rows[key := Flip(rows[key], on)])
  {
    FlipIsSound(key, rows[key], on);
    WriteKeepsInv(rows, key, Flip(rows[key], on));
  }

  lemma ReactivateKeepsInv(db: Db, writes: bool, audit: bool, kind: Kind, id: nat, instance: Row,
                 seen: map<Key, Row>)
    requires Inv(db.rows) && DoReactivate(db, writes, audit, kind, id, instance, seen).Ok?
    ensures Inv(DoReactivate(db, writes, audit, kind, id, instance, seen).value.rows)
  {
    var key := Key(kind, id);
    if !IsActive(db.rows[key]) {
      FlipKeepsInv(db.rows, key, true);
    }
  }

  lemma DeactivateKeepsInv(db: Db, writes: bool, audit: bool, kind: Kind, id: nat, instance: Row)
    requires Inv(db.rows) && DoDeactivate(db, writes, audit, kind, id, instance).Ok?
    ensures Inv(DoDeactivate(db, writes, audit, kind, id, instance).value.rows)
  {
    var key := Key(kind, id);
    if key in db.rows {
      FlipKeepsInv(db.rows, key, false);
    }
  }

  lemma FlipAliasesKeepsInv(rows: map<Key, Row>, cascade: seq<nat>)
    requires Inv(rows)
    ensures Inv(FlipAliases(rows, cascade))
  {
    FlippedAreSound(rows, cascade);
    FlippedRefer(rows, cascade);
    FlippedAreUnclaimed(rows, cascade);
  }

  lemma FlippedAreSound(rows: map<Key, Row>, cascade: seq<nat>)
    requires AllSound(rows)
    ensures AllSound(FlipAliases(rows, cascade))
  {
    forall k | k in rows ensures SoundRow(k, FlipAliases(rows, cascade)[k]) {
      FlipIsSound(k, rows[k], false);
    }
  }

  lemma FlippedRefer(rows: map<Key, Row>, cascade: seq<nat>)
    requires AllRefer(rows)
    ensures AllRefer(FlipAliases(rows, cascade))
  {}

  lemma FlippedAreUnclaimed(rows: map<Key, Row>, cascade: seq<nat>)
    requires AllUnclaimed(rows)
    ensures AllUnclaimed(FlipAliases(rows, cascade))
  {}

  lemma DeactivateTagKeepsInv(db: Db, writes: bool, audit: bool, id: nat, instance: Row, cascade: seq<nat>)
    requires Inv(db.rows) && DoDeactivateTag(db, writes, audit, id, instance, cascade).Ok?
    ensures Inv(DoDeactivateTag(db, writes, audit, id, instance, cascade).value.rows)
  {
    var key := Key(TagKind, id);
    FlipKeepsInv(db.rows, key, false);
    FlipAliasesKeepsInv(db.rows[key := Flip(db.rows[key], false)], cascade);
  }

  /** Every service call keeps the store's constraints. */
  lemma CommitKeepsInv(db: Db, s: Step)
    requires Inv(db.rows) && Callable(db.rows, s.call)
    ensures Inv(Commit(db, s.writes, s.audit, s.call).rows)
  {
    if Do(db, s.writes, s.audit, s.call).Ok? {
      match s.call
      case Create(kind, id, data, seen) => CreateKeepsInv(db, s.writes, s.audit, kind, id, data, seen);
      case Update(kind, id, instance, data, seen) =>
        UpdateKeepsInv(db, s.writes, s.audit, kind, id, instance, data, seen);
      case Reactivate(kind, id, instance, seen) =>
        ReactivateKeepsInv(db, s.writes, s.audit, kind, id, instance, seen);
      case Deactivate(kind, id, instance) => DeactivateKeepsInv(db, s.writes, s.audit, kind, id, instance);
      case DeactivateTag(id, instance, cascade) =>
        DeactivateTagKeepsInv(db, s.writes, s.audit, id, instance, cascade);
    }
  }

  // ----- Runs

  ghost predicate CallableRun(db: Db, steps: seq<Step>) {
    forall n :: 0 <= n < |steps| ==> Callable(Run(db, steps[..n]).rows, steps[n].call)
  }

  lemma CallablePrefix(db: Db, steps: seq<Step>)
    requires steps != [] && CallableRun(db, steps)
    ensures CallableRun(db, steps[..|steps| - 1])
    ensures Callable(Run(db, steps[..|steps| - 1]).rows, steps[|steps| - 1].call)
  {
    var init := steps[..|steps| - 1];
    forall n | 0 <= n < |init| ensures Callable(Run(db, init[..n]).rows, init[n].call) {
      assert init[..n] == steps[..n];
    }
  }

  lemma {:induction false} RunKeepsInv(steps: seq<Step>)
    requires CallableRun(EMPTY, steps)
    ensures Inv(Run(EMPTY, steps).rows)
    decreases |steps|
  {
    if steps != [] {
      CallablePrefix(EMPTY, steps);
      RunKeepsInv(steps[..|steps| - 1]);
      CommitKeepsInv(Run(EMPTY, steps[..|steps| - 1]), steps[|steps| - 1]);
    }
  }

  // ----- What a write needs, and what a deactivation leaves

  ghost predicate ActiveTarget(rows: map<Key, Row>, row: Row, f: Field) {
    Get(row, f).Ref? ==> Key(Target(f), Get(row, f).id) in rows
                         && IsActive(rows[Key(Target(f), Get(row, f).id)])
  }

  /** The reference whose target must be active. */
  function Guarded(kind: Kind): Field {
    if kind == TagKind then Vocabulary else Canonical
  }

  /** The creation and the update of an alias lock its tag and so are sure that it is active; an
      update that changes nothing writes nothing. */
  lemma AliasCreatedOverActiveTag(db: Db, writes: bool, audit: bool, id: nat, data: Row, seen: map<Key, Row>)
    requires DoCreate(db, writes, audit, AliasKind, id, data, seen).Ok?
    ensures ActiveTarget(db.rows, NewRow(AliasKind, data), Canonical)
  {
    assert CheckReference(db.rows, NewRow(AliasKind, data), Canonical, true).None?;
  }

  lemma AliasUpdatedOverActiveTag(db: Db, writes: bool, audit: bool, id: nat, instance: Row, data: Row,
                                  seen: map<Key, Row>)
    requires DoUpdate(db, writes, audit, AliasKind, id, instance, data, seen).Ok?
    requires After(instance, data) != map[]
    ensures ActiveTarget(db.rows, instance + data, Canonical)
  {
    assert CheckReference(db.rows, instance + data, Canonical, true).None?;
  }

  /** And so are both revivals of the row they lock. */
  lemma RevivalNeedsActiveTarget(db: Db, writes: bool, audit: bool, kind: Kind, id: nat, instance: Row,
                                 seen: map<Key, Row>)
    requires kind != VocabularyKind && DoReactivate(db, writes, audit, kind, id, instance, seen).Ok?
    requires !IsActive(db.rows[Key(kind, id)])
    ensures ActiveTarget(db.rows, db.rows[Key(kind, id)], Guarded(kind))
  {}

  /** The caller's copy of a row's vocabulary, if it has one, tells the truth about its activity. */
  ghost predicate VocabularyCurrent(rows: map<Key, Row>, seen: map<Key, Row>, row: Row) {
    Get(row, Vocabulary).Ref? ==>
      var k := Key(VocabularyKind, Get(row, Vocabulary).id);
      k in seen && k in rows && IsActive(seen[k]) == IsActive(rows[k])
  }

  /** A tag is created on the caller's copy of its vocabulary, which nothing locks: it lands under an
      active vocabulary exactly when that copy is current. */
  lemma CreatedUnderActiveVocabulary(db: Db, writes: bool, audit: bool, id: nat, data: Row, seen: map<Key, Row>)
    requires Callable(db.rows, Create(TagKind, id, data, seen))
    requires DoCreate(db, writes, audit, TagKind, id, data, seen).Ok?
    ensures var row := NewRow(TagKind, data);
            ActiveTarget(db.rows, row, Vocabulary) <==> VocabularyCurrent(db.rows, seen, row)
  {
    assert CheckReference(seen, NewRow(TagKind, data), Vocabulary, true).None?;
  }

  /** So is a tag that an update moves to another vocabulary. */
  lemma MovedUnderActiveVocabulary(db: Db, writes: bool, audit: bool, id: nat, instance: Row, data: Row,
                                   seen: map<Key, Row>)
    requires Callable(db.rows, Update(TagKind, id, instance, data, seen))
    requires DoUpdate(db, writes, audit, TagKind, id, instance, data, seen).Ok?
    requires Get(instance + data, Vocabulary) != Get(instance, Vocabulary)
    ensures var row := instance + data;
            ActiveTarget(db.rows, row, Vocabulary) <==> VocabularyCurrent(db.rows, seen, row)
  {
    var checked := (instance + data)[Tenant := Get(instance, Tenant)];
    assert CheckReference(seen, checked, Vocabulary, true).None?;
    assert Get(checked, Vocabulary) == Get(instance + data, Vocabulary);
  }

  lemma CopyPasses(seen: map<Key, Row>, row: Row)
    requires Get(row, Parent).Null? && Get(row, Vocabulary).Ref?
    requires Key(VocabularyKind, Get(row, Vocabulary).id) in seen
    requires var copy := seen[Key(VocabularyKind, Get(row, Vocabulary).id)];
             IsActive(copy) && Compatible(row, copy)
    ensures CheckReferences(seen, TagKind, row, true).None?
  {}

  /** A stale copy does get through: where the vocabulary has been deactivated since it was loaded,
      the tag is created under it all the same. */
  lemma StaleVocabularyIsAccepted(db: Db, audit: bool, id: nat, data: Row, seen: map<Key, Row>)
    requires var row := NewRow(TagKind, data);
             && Get(row, Parent).Null? && Get(row, Vocabulary).Ref? && Ns(row) == GLOBAL
             && Key(TagKind, id) !in db.rows && Savable(db.rows, Key(TagKind, id), row)
             && var k := Key(VocabularyKind, Get(row, Vocabulary).id);
             && k in seen && IsActive(seen[k]) && Compatible(row, seen[k])
             && k in db.rows && db.rows[k] == Flip(seen[k], false)
    ensures DoCreate(db, true, audit, TagKind, id, data, seen).Ok?
    ensures !ActiveTarget(db.rows, NewRow(TagKind, data), Vocabulary)
  {
    CopyPasses(seen, NewRow(TagKind, data));
  }

  /** Deactivating a tag leaves it and every alias of it in its tenant inactive, and every other row
      as it was. */
  lemma CascadeIsComplete(db: Db, writes: bool, audit: bool, id: nat, instance: Row, cascade: seq<nat>, k: Key)
    requires Callable(db.rows, DeactivateTag(id, instance, cascade)) && k in db.rows
    requires IsActive(db.rows[Key(TagKind, id)])
    requires DoDeactivateTag(db, writes, audit, id, instance, cascade).Ok?
    ensures var rows := DoDeactivateTag(db, writes, audit, id, instance, cascade).value.rows;
            && k in rows && !IsActive(rows[Key(TagKind, id)])
            && (if k == Key(TagKind, id) || CascadesTo(db.rows, id, Get(db.rows[Key(TagKind, id)], Tenant), k)
                then rows[k] == Flip(db.rows[k], false) else rows[k] == db.rows[k])
  {}
}
