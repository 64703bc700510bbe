/** Concrete runs of service calls: what goes wrong outside the conditions of the theorems. */
module TaxonomyWitnesses {
  import opened Scopes
  import opened Taxonomy
  import opened TaxonomyActivity
  import opened TaxonomyInvariants
  import opened TaxonomyReplay
  import opened TaxonomyScopes

  /** Some run of logged calls from an empty store ends in this store. */
  ghost predicate Reached(db: Db) {
    exists steps :: Audited(steps) && Run(EMPTY, steps) == db
  }

  lemma EmptyIsReached()
    ensures Reached(EMPTY)
  {
    assert Audited([]) && Run(EMPTY, []) == EMPTY;
  }

  lemma AuditedNext(steps: seq<Step>, s: Step)
    requires Audited(steps) && s.audit && Callable(Run(EMPTY, steps).rows, s.call)
    ensures Audited(steps + [s])
    ensures Run(EMPTY, steps + [s]) == Commit(Run(EMPTY, steps), s.writes, s.audit, s.call)
  {
    var more := steps + [s];
    assert more[..|more| - 1] == steps;
    forall n | 0 <= n < |more| ensures Callable(Run(EMPTY, more[..n]).rows, more[n].call) {
      assert more[..n] == steps[..n];
      assert steps[..|steps|] == steps;
    }
  }

  lemma Then(db: Db, writes: bool, c: Call, after: Db)
    requires Reached(db) && Callable(db.rows, c) && Do(db, writes, true, c) == Ok(after)
    ensures Reached(after)
  {
    var steps :| Audited(steps) && Run(EMPTY, steps) == db;
    AuditedNext(steps, Step(writes, true, c));
  }

  lemma ReachedKeepsInv(db: Db)
    requires Reached(db)
    ensures Inv(db.rows)
  {
    var steps :| Audited(steps) && Run(EMPTY, steps) == db;
    RunKeepsInv(steps);
  }

  // ----- One shared tag

  const RED_KEY := Key(TagKind, 1)

  /** A plain active tag of no application, namespace, parent or vocabulary. */
  ghost predicate Shared(red: Row) {
    && IsRow(TagKind, red) && Ns(red) == GLOBAL && App(red) == None && IsActive(red)
    && Get(red, Parent) == Null && Get(red, Vocabulary) == Null
  }

  const RED: Row := Defaults(TagKind)[Tenant := Text("t")][Slug := Text("red")][Name := Text("Red")]

  lemma DefaultIsShared()
    ensures Shared(Defaults(TagKind)) && Get(Defaults(TagKind), Description) == Null
  {
    var common, own := CommonDefaults(), OwnDefaults(TagKind);
    assert Defaults(TagKind) == common + own;
  }

  lemma StillShared(row: Row, f: Field, v: Value)
    requires Shared(row) && f in {Tenant, Slug, Name} && v.Text?
    ensures Shared(row[f := v])
  {}

  lemma RedIsShared()
    ensures Shared(RED) && Get(RED, Description) == Null && Get(RED, Name) == Text("Red")
    ensures Get(RED, Tenant) == Text("t")
  {
    DefaultIsShared();
    var row := Defaults(TagKind);
    StillShared(row, Tenant, Text("t"));
    StillShared(row[Tenant := Text("t")], Slug, Text("red"));
    StillShared(row[Tenant := Text("t")][Slug := Text("red")], Name, Text("Red"));
  }

  lemma WholeRowIsNew(kind: Kind, row: Row)
    requires IsRow(kind, row)
    ensures NewRow(kind, row) == row
  {}

  function Stored(db: Db, key: Key, row: Row): Db {
    Write(db, true, key, row, Created(Snapshot(row)))
  }

  lemma CreateIsAccepted(db: Db, key: Key, row: Row, seen: map<Key, Row>)
    requires IsRow(key.kind, row) && Ns(row) == GLOBAL && key.kind != AliasKind
    requires key !in db.rows && Savable(db.rows, key, row) && CheckReferences(seen, key.kind, row, true).None?
    ensures Do(db, true, true, Create(key.kind, key.id, row, seen)) == Ok(Stored(db, key, row))
  {
    WholeRowIsNew(key.kind, row);
    assert Key(key.kind, key.id) == key;
  }

  /** A global tag or vocabulary created with all its columns, references checked on these copies. */
  lemma IsCreated(db: Db, key: Key, row: Row, seen: map<Key, Row>)
    requires Reached(db) && IsRow(key.kind, row) && Ns(row) == GLOBAL && key.kind != AliasKind
    requires key !in db.rows && Savable(db.rows, key, row) && CheckReferences(seen, key.kind, row, true).None?
    requires Copies(db.rows, seen)
    ensures Reached(Stored(db, key, row))
  {
    CreateIsAccepted(db, key, row, seen);
    Then(db, true, Create(key.kind, key.id, row, seen), Stored(db, key, row));
  }

  lemma SharedIsCreated(red: Row)
    requires Shared(red)
    ensures Reached(Stored(EMPTY, RED_KEY, red))
  {
    EmptyIsReached();
    IsCreated(EMPTY, RED_KEY, red, map[]);
  }

  // ----- A stale update and the replay

  lemma SharedIsUpdated(db: Db, red: Row, f: Field, v: Value)
    requires Reached(db) && db.rows.Keys == {RED_KEY} && Shared(red) && Loaded(db.rows, TagKind, 1, red)
    requires f in {Name, Description} && v.Text? && v != Get(red, f)
    ensures Reached(Saved(db, true, TagKind, 1, red, map[f := v]))
  {
    var c := Update(TagKind, 1, red, map[f := v], map[]);
    SoloUpdate(db, red, f, v);
    assert f in After(red, map[f := v]);
    UpdateSaves(db, true, true, TagKind, 1, red, map[f := v], map[]);
    Then(db, true, c, Saved(db, true, TagKind, 1, red, map[f := v]));
  }

  function Twice(db: Db, red: Row, name: Value, text: Value): Db {
    Saved(Saved(db, true, TagKind, 1, red, map[Name := name]), true, TagKind, 1, red, map[Description := text])
  }

  lemma BothUpdatesPass(db: Db, red: Row, name: Value, text: Value)
    requires Reached(db) && db.rows == map[RED_KEY := red] && Shared(red)
    requires name.Text? && name != Get(red, Name) && text.Text? && text != Get(red, Description)
    ensures Reached(Saved(db, true, TagKind, 1, red, map[Name := name])) && Reached(Twice(db, red, name, text))
  {
    SharedIsUpdated(db, red, Name, name);
    SavedScope(db.rows, TagKind, 1, red, map[Name := name]);
    SharedIsUpdated(Saved(db, true, TagKind, 1, red, map[Name := name]), red, Description, text);
  }

  lemma RenameIsLost(db: Db, red: Row, name: Value, text: Value)
    requires Rebuilt(db) && Inv(db.rows) && Inv(Saved(db, true, TagKind, 1, red, map[Name := name]).rows)
    requires db.rows == map[RED_KEY := red] && Shared(red)
    requires name.Text? && name != Get(red, Name) && text.Text?
    ensures !Rebuilt(Twice(db, red, name, text))
  {
    assert Name in After(red, map[Name := name]);
    LostUpdate(db, TagKind, 1, red, map[Name := name], map[Description := text], Name);
  }

  lemma StaleUpdates(db: Db, red: Row, name: Value, text: Value)
    requires Reached(db) && Rebuilt(db) && db.rows == map[RED_KEY := red] && Shared(red)
    requires name.Text? && name != Get(red, Name) && text.Text? && text != Get(red, Description)
    ensures exists after :: Reached(after) && !Rebuilt(after)
  {
    BothUpdatesPass(db, red, name, text);
    ReachedKeepsInv(db);
    ReachedKeepsInv(Saved(db, true, TagKind, 1, red, map[Name := name]));
    RenameIsLost(db, red, name, text);
  }

  /** Create a tag, rename it, and describe it from the instance loaded before the rename: all three
      calls are logged and succeed, and the outbox no longer rebuilds the tag. */
  lemma StaleUpdateBreaksReplay()
    ensures exists steps :: Audited(steps) && !AlwaysRebuilt(steps)
  {
    RedIsShared();
    SharedIsCreated(RED);
    CreatedReplays(EMPTY, TagKind, 1, RED);
    StaleUpdates(Stored(EMPTY, RED_KEY, RED), RED, Text("Crimson"), Text("a colour"));
    var after :| Reached(after) && !Rebuilt(after);
    var steps :| Audited(steps) && Run(EMPTY, steps) == after;
    assert !AlwaysRebuilt(steps);
  }

  // ----- A tenant edit and the references

  const CHILD_KEY := Key(TagKind, 2)

  /** A tag like another but for its slug, and with that one as its parent. */
  function Child(red: Row, slug: Value): Row {
    red[Slug := slug][Parent := Ref(1)]
  }

  lemma ChildIsPlain(red: Row, slug: Value)
    requires Shared(red) && slug.Text?
    ensures var child := Child(red, slug);
            && IsRow(TagKind, child) && Ns(child) == GLOBAL && App(child) == None && IsActive(child)
            && Get(child, Vocabulary) == Null && Get(child, Parent) == Ref(1)
            && Get(child, Tenant) == Get(red, Tenant) && Get(child, Slug) == slug
  {}

  lemma ParentIsAccepted(red: Row, child: Row)
    requires Shared(red) && Get(child, Parent) == Ref(1) && Get(child, Vocabulary) == Null
    requires Ns(child) == GLOBAL && App(child) == None && Get(child, Tenant) == Get(red, Tenant)
    ensures CheckReferences(map[RED_KEY := red], TagKind, child, true).None?
  {}

  lemma ChildIsSavable(red: Row, child: Row)
    requires Get(child, Parent) == Ref(1) && Ns(child) == GLOBAL && Get(child, Slug) != Get(red, Slug)
    ensures Savable(map[RED_KEY := red], CHILD_KEY, child)
  {}

  lemma OwnCopy(rows: map<Key, Row>, key: Key)
    requires key in rows && IsRow(key.kind, rows[key])
    ensures Copies(rows, map[key := rows[key]])
  {
    assert Key(key.kind, key.id) == key;
  }

  lemma ChildIsCreated(red: Row, slug: Value)
    requires Shared(red) && slug.Text? && slug != Get(red, Slug)
    ensures exists db :: Reached(db) && db.rows == map[RED_KEY := red, CHILD_KEY := Child(red, slug)]
  {
    var db, child := Stored(EMPTY, RED_KEY, red), Child(red, slug);
    SharedIsCreated(red);
    assert db.rows == map[RED_KEY := red];
    ChildIsPlain(red, slug);
    ParentIsAccepted(red, child);
    ChildIsSavable(red, child);
    OwnCopy(db.rows, RED_KEY);
    IsCreated(db, CHILD_KEY, child, map[RED_KEY := red]);
    assert Stored(db, CHILD_KEY, child).rows == map[RED_KEY := red, CHILD_KEY := child];
  }

  /** An update of one plain column of a tag with nothing to check but the constraints. */
  lemma UpdateIsAccepted(db: Db, writes: bool, instance: Row, f: Field, v: Value)
    requires Ns(instance) == GLOBAL && Get(instance, Parent) == Null && Get(instance, Vocabulary) == Null
    requires f in {Tenant, Name} && v != Get(instance, f) && Savable(db.rows, RED_KEY, instance + map[f := v])
    ensures DoUpdate(db, writes, true, TagKind, 1, instance, map[f := v], map[])
            == Ok(Saved(db, true, TagKind, 1, instance, map[f := v]))
  {
    assert f in After(instance, map[f := v]);
  }

  lemma MoveIsAccepted(db: Db, red: Row, child: Row, tenant: Value)
    requires Shared(red) && db.rows == map[RED_KEY := red, CHILD_KEY := child]
    requires tenant.Text? && tenant != Get(red, Tenant) && tenant != Get(child, Tenant)
    ensures DoUpdate(db, true, true, TagKind, 1, red, map[Tenant := tenant], map[])
            == Ok(Saved(db, true, TagKind, 1, red, map[Tenant := tenant]))
  {
    UpdateIsAccepted(db, true, red, Tenant, tenant);
  }

  lemma ForeignParent(rows: map<Key, Row>)
    requires CHILD_KEY in rows && RED_KEY in rows && Get(rows[CHILD_KEY], Parent) == Ref(1)
    requires Get(rows[CHILD_KEY], Tenant) != Get(rows[RED_KEY], Tenant)
    ensures !Closed(rows)
  {
    assert Parent in REFERENCES && Target(Parent) == TagKind;
    assert !RowCloses(rows, rows[CHILD_KEY]);
  }

  lemma ParentMoves(db: Db, red: Row, slug: Value, tenant: Value)
    requires Reached(db) && Shared(red) && slug.Text?
    requires db.rows == map[RED_KEY := red, CHILD_KEY := Child(red, slug)]
    requires tenant.Text? && tenant != Get(red, Tenant)
    ensures exists after :: Reached(after) && !Closed(after.rows)
  {
    var after := Saved(db, true, TagKind, 1, red, map[Tenant := tenant]);
    ChildIsPlain(red, slug);
    MoveIsAccepted(db, red, Child(red, slug), tenant);
    Then(db, true, Update(TagKind, 1, red, map[Tenant := tenant], map[]), after);
    ForeignParent(after.rows);
  }

  /** Create a tag and a child of it, and edit the parent's tenant: the child refers to another
      tenant's tag. */
  lemma TenantEditBreaksScopes()
    ensures exists steps :: Audited(steps) && !Closed(Run(EMPTY, steps).rows)
  {
    RedIsShared();
    ChildIsCreated(RED, Text("dark-red"));
    var db :| Reached(db) && db.rows == map[RED_KEY := RED, CHILD_KEY := Child(RED, Text("dark-red"))];
    ParentMoves(db, RED, Text("dark-red"), Text("u"));
    var after :| Reached(after) && !Closed(after.rows);
    var steps :| Audited(steps) && Run(EMPTY, steps) == after;
  }

  // ----- A stale copy of a vocabulary

  const VOCABULARY_KEY := Key(VocabularyKind, 1)

  ghost predicate PlainVocabulary(row: Row) {
    IsRow(VocabularyKind, row) && Ns(row) == GLOBAL && App(row) == None && IsActive(row)
  }

  lemma VocabularyRetires(row: Row)
    requires PlainVocabulary(row)
    ensures exists db :: Reached(db) && db.rows == map[VOCABULARY_KEY := Flip(row, false)]
  {
    EmptyIsReached();
    IsCreated(EMPTY, VOCABULARY_KEY, row, map[]);
    var db, c := Stored(EMPTY, VOCABULARY_KEY, row), Deactivate(VocabularyKind, 1, row);
    Then(db, true, c, Do(db, true, true, c).value);
    assert Reached(Do(db, true, true, c).value);
  }

  lemma StaleCopyIsAccepted(row: Row, tag: Row)
    requires PlainVocabulary(row) && App(tag) == None && Ns(tag) == GLOBAL
    requires Get(tag, Parent) == Null && Get(tag, Vocabulary) == Ref(1) && Get(tag, Tenant) == Get(row, Tenant)
    ensures CheckReferences(map[VOCABULARY_KEY := row], TagKind, tag, true).None?
  {
    CopyPasses(map[VOCABULARY_KEY := row], tag);
  }

  lemma OrphanIsPlain(red: Row)
    requires Shared(red)
    ensures var tag := red[Vocabulary := Ref(1)];
            && IsRow(TagKind, tag) && Ns(tag) == GLOBAL && App(tag) == None && IsActive(tag)
            && Get(tag, Tenant) == Get(red, Tenant) && Get(tag, Parent) == Null
  {}

  lemma StaleCopyIsACopy(row: Row)
    requires PlainVocabulary(row)
    ensures Copies(map[VOCABULARY_KEY := Flip(row, false)], map[VOCABULARY_KEY := row])
  {}

  lemma OrphanIsCreated(db: Db, row: Row, red: Row)
    requires Reached(db) && PlainVocabulary(row) && db.rows == map[VOCABULARY_KEY := Flip(row, false)]
    requires Shared(red) && Get(red, Tenant) == Get(row, Tenant)
    ensures exists after ::
      Reached(after) && after.rows == map[VOCABULARY_KEY := Flip(row, false), RED_KEY := red[Vocabulary := Ref(1)]]
  {
    var tag := red[Vocabulary := Ref(1)];
    OrphanIsPlain(red);
    StaleCopyIsAccepted(row, tag);
    StaleCopyIsACopy(row);
    IsCreated(db, RED_KEY, tag, map[VOCABULARY_KEY := row]);
    assert Stored(db, RED_KEY, tag).rows == map[VOCABULARY_KEY := Flip(row, false), RED_KEY := tag];
  }

  /** A reached store of a tag under an inactive vocabulary. */
  lemma OrphanIsReached(row: Row, red: Row)
    requires PlainVocabulary(row) && Shared(red) && Get(red, Tenant) == Get(row, Tenant)
    ensures exists db ::
      Reached(db) && db.rows == map[VOCABULARY_KEY := Flip(row, false), RED_KEY := red[Vocabulary := Ref(1)]]
  {
    VocabularyRetires(row);
    var db :| Reached(db) && db.rows == map[VOCABULARY_KEY := Flip(row, false)];
    OrphanIsCreated(db, row, red);
  }

  lemma SomeVocabulary()
    ensures exists row :: PlainVocabulary(row) && Get(row, Tenant) == Text("t")
  {
    var row := Defaults(VocabularyKind)[Tenant := Text("t")];
    assert PlainVocabulary(row) && Get(row, Tenant) == Text("t");
  }

  /** A reached store of an active tag under an inactive vocabulary. */
  ghost predicate Orphaned(db: Db, row: Row, tag: Row) {
    && Reached(db) && PlainVocabulary(row) && Filed(tag, row, 1) && IsActive(tag)
    && db.rows == map[VOCABULARY_KEY := Flip(row, false), RED_KEY := tag]
  }

  lemma OrphanOf(row: Row, red: Row, tag: Row)
    requires PlainVocabulary(row) && Shared(red) && Get(red, Tenant) == Get(row, Tenant)
    requires tag == red[Vocabulary := Ref(1)]
    ensures exists db :: Orphaned(db, row, tag)
  {
    OrphanIsReached(row, red);
    OrphanIsPlain(red);
    var db :|
      Reached(db) && db.rows == map[VOCABULARY_KEY := Flip(row, false), RED_KEY := red[Vocabulary := Ref(1)]];
    assert Orphaned(db, row, tag);
  }

  lemma SomeRed()
    ensures exists red :: Shared(red) && Get(red, Tenant) == Text("t") && Get(red, Name) == Text("Red")
  {
    RedIsShared();
  }

  lemma SomeOrphan()
    ensures exists db, row, tag :: Orphaned(db, row, tag) && Get(tag, Name) == Text("Red")
  {
    SomeVocabulary();
    var row :| PlainVocabulary(row) && Get(row, Tenant) == Text("t");
    SomeRed();
    var red :| Shared(red) && Get(red, Tenant) == Text("t") && Get(red, Name) == Text("Red");
    OrphanOf(row, red, red[Vocabulary := Ref(1)]);
    var db :| Orphaned(db, row, red[Vocabulary := Ref(1)]);
  }

  lemma OrphanIsUnderInactive(db: Db, row: Row, tag: Row)
    requires Orphaned(db, row, tag)
    ensures RED_KEY in db.rows && IsActive(db.rows[RED_KEY]) && !ActiveTarget(db.rows, db.rows[RED_KEY], Vocabulary)
  {}

  /** Create a vocabulary, deactivate it, and create a tag under it with the copy loaded before: the
      tag is active under an inactive vocabulary. */
  lemma StaleVocabularyBreaksActivity()
    ensures exists steps :: Audited(steps) && RED_KEY in Run(EMPTY, steps).rows
                            && IsActive(Run(EMPTY, steps).rows[RED_KEY])
                            && !ActiveTarget(Run(EMPTY, steps).rows, Run(EMPTY, steps).rows[RED_KEY], Vocabulary)
  {
    SomeOrphan();
    var db, row, tag :| Orphaned(db, row, tag) && Get(tag, Name) == Text("Red");
    OrphanIsUnderInactive(db, row, tag);
    var steps :| Audited(steps) && Run(EMPTY, steps) == db;
  }

  // ----- A stale instance of a moved tag

  const OTHER_KEY := Key(VocabularyKind, 2)

  /** A plain tag under a vocabulary of its tenant. */
  ghost predicate Filed(tag: Row, row: Row, v: nat) {
    && IsRow(TagKind, tag) && Ns(tag) == GLOBAL && App(tag) == None
    && Get(tag, Parent) == Null && Get(tag, Vocabulary) == Ref(v) && Get(tag, Tenant) == Get(row, Tenant)
  }

  /** Two vocabularies, the first inactive, and a tag under one of them. */
  ghost predicate TwoVocabularies(rows: map<Key, Row>, row: Row, tag: Row, v: nat) {
    && PlainVocabulary(row) && Filed(tag, row, v) && rows.Keys == {VOCABULARY_KEY, OTHER_KEY, RED_KEY}
    && rows[VOCABULARY_KEY] == Flip(row, false) && rows[OTHER_KEY] == row && rows[RED_KEY] == tag
  }

  lemma OtherIsSavable(rows: map<Key, Row>, row: Row)
    requires PlainVocabulary(row) && rows.Keys == {VOCABULARY_KEY, RED_KEY}
    requires rows[VOCABULARY_KEY] == Flip(row, false)
    ensures Savable(rows, OTHER_KEY, row)
  {}

  lemma OtherIsCreated(db: Db, row: Row, tag: Row)
    requires Reached(db) && PlainVocabulary(row) && Filed(tag, row, 1)
    requires db.rows == map[VOCABULARY_KEY := Flip(row, false), RED_KEY := tag]
    ensures exists after :: Reached(after) && TwoVocabularies(after.rows, row, tag, 1)
  {
    OtherIsSavable(db.rows, row);
    IsCreated(db, OTHER_KEY, row, map[]);
    assert TwoVocabularies(Stored(db, OTHER_KEY, row).rows, row, tag, 1);
  }

  lemma VocabularyReaches(row: Row, tag: Row, k: Key, copy: Row, requireActive: bool)
    requires k.kind == VocabularyKind && PlainVocabulary(row) && Filed(tag, row, k.id)
    requires copy == row || (copy == Flip(row, false) && !requireActive)
    ensures CheckReferences(map[k := copy], TagKind, tag, requireActive).None?
  {
    assert Key(VocabularyKind, k.id) == k;
  }

  lemma OnlyTagIsSavable(rows: map<Key, Row>, tag: Row)
    requires rows.Keys == {VOCABULARY_KEY, OTHER_KEY, RED_KEY} && Ns(tag) == GLOBAL && Get(tag, Parent) == Null
    ensures Savable(rows, RED_KEY, tag)
  {}

  lemma UpdatePasses(db: Db, instance: Row, data: Row, seen: map<Key, Row>)
    requires Ns(instance) == GLOBAL && !ChangesScope(instance, data) && After(instance, data) != map[]
    requires Tenant !in data && Tenant in instance && Savable(db.rows, RED_KEY, instance + data)
    requires CheckReferences(seen, TagKind, instance + data,
                             Get(instance + data, Vocabulary) != Get(instance, Vocabulary)).None?
    ensures Do(db, true, true, Update(TagKind, 1, instance, data, seen))
            == Ok(Saved(db, true, TagKind, 1, instance, data))
  {
    assert (instance + data)[Tenant := Get(instance, Tenant)] == instance + data;
  }

  /** Plain tags all have the same scope. */
  lemma FiledIsLoaded(rows: map<Key, Row>, row: Row, stored: Row, tag: Row, v: nat, u: nat)
    requires TwoVocabularies(rows, row, stored, v) && Filed(tag, row, u)
    ensures Loaded(rows, TagKind, 1, tag)
  {}

  lemma FlippedIsRow(row: Row)
    requires PlainVocabulary(row)
    ensures IsRow(VocabularyKind, Flip(row, false))
  {}

  lemma UpdateIsCallable(rows: map<Key, Row>, tag: Row, data: Row, k: Key)
    requires Loaded(rows, TagKind, 1, tag) && Typed(TagKind, data) && k in rows && IsRow(k.kind, rows[k])
    ensures Callable(rows, Update(TagKind, 1, tag, data, map[k := rows[k]]))
  {
    OwnCopy(rows, k);
  }

  lemma MovedIsFiled(tag: Row, row: Row)
    requires Filed(tag, row, 1)
    ensures Filed(tag + map[Vocabulary := Ref(2)], row, 2) && Vocabulary in After(tag, map[Vocabulary := Ref(2)])
  {}

  lemma MovePasses(db: Db, row: Row, tag: Row, data: Row)
    requires TwoVocabularies(db.rows, row, tag, 1) && data == map[Vocabulary := Ref(2)]
    ensures Do(db, true, true, Update(TagKind, 1, tag, data, map[OTHER_KEY := row]))
            == Ok(Saved(db, true, TagKind, 1, tag, data))
  {
    MovedIsFiled(tag, row);
    VocabularyReaches(row, tag + data, OTHER_KEY, row, true);
    OnlyTagIsSavable(db.rows, tag + data);
    UpdatePasses(db, tag, data, map[OTHER_KEY := row]);
  }

  lemma MoveFiles(db: Db, row: Row, tag: Row, data: Row)
    requires TwoVocabularies(db.rows, row, tag, 1) && data == map[Vocabulary := Ref(2)]
    ensures TwoVocabularies(Saved(db, true, TagKind, 1, tag, data).rows, row, tag + data, 2)
    ensures Get(tag + data, Name) == Get(tag, Name)
  {
    MovedIsFiled(tag, row);
  }

  lemma MoveIsCallable(rows: map<Key, Row>, row: Row, tag: Row, data: Row)
    requires TwoVocabularies(rows, row, tag, 1) && data == map[Vocabulary := Ref(2)]
    ensures Callable(rows, Update(TagKind, 1, tag, data, map[OTHER_KEY := row]))
  {
    FiledIsLoaded(rows, row, tag, tag, 1, 1);
    UpdateIsCallable(rows, tag, data, OTHER_KEY);
  }

  lemma TagIsMoved(db: Db, row: Row, tag: Row)
    requires Reached(db) && TwoVocabularies(db.rows, row, tag, 1)
    ensures exists after, moved :: Reached(after) && TwoVocabularies(after.rows, row, moved, 2)
                                   && Get(moved, Name) == Get(tag, Name)
  {
    var data := map[Vocabulary := Ref(2)];
    var after := Saved(db, true, TagKind, 1, tag, data);
    MovePasses(db, row, tag, data);
    MoveIsCallable(db.rows, row, tag, data);
    Then(db, true, Update(TagKind, 1, tag, data, map[OTHER_KEY := row]), after);
    MoveFiles(db, row, tag, data);
  }

  /** With copies that are all current, an update of the tag's name takes the stored tag from under an
      active vocabulary to under an inactive one. */
  ghost predicate SlidesBack(db: Db, c: Call) {
    && c.Update? && Key(c.kind, c.id) == RED_KEY && c.data.Keys == {Name}
    && Callable(db.rows, c) && (forall k :: k in c.seen ==> k in db.rows && c.seen[k] == db.rows[k])
    && RED_KEY in db.rows && ActiveTarget(db.rows, db.rows[RED_KEY], Vocabulary)
    && Do(db, true, true, c).Ok?
    && FiledInactive(Do(db, true, true, c).value.rows)
  }

  ghost predicate FiledInactive(rows: map<Key, Row>) {
    RED_KEY in rows && Get(rows[RED_KEY], Vocabulary).Ref? && !ActiveTarget(rows, rows[RED_KEY], Vocabulary)
  }

  /** A change of the tag's name and nothing else. */
  ghost predicate Renames(data: Row, tag: Row) {
    data.Keys == {Name} && data[Name].Text? && data[Name] != Get(tag, Name)
  }

  lemma RenamedIsFiled(tag: Row, row: Row, data: Row)
    requires Filed(tag, row, 1) && Renames(data, tag)
    ensures Filed(tag + data, row, 1) && Name in After(tag, data) && Typed(TagKind, data)
  {}

  lemma SavedIsFiledInactive(db: Db, row: Row, moved: Row, tag: Row, data: Row)
    requires TwoVocabularies(db.rows, row, moved, 2) && Filed(tag + data, row, 1)
    ensures ActiveTarget(db.rows, db.rows[RED_KEY], Vocabulary)
    ensures FiledInactive(Saved(db, true, TagKind, 1, tag, data).rows)
  {}

  function StaleRename(tag: Row, data: Row, row: Row): Call {
    Update(TagKind, 1, tag, data, map[VOCABULARY_KEY := Flip(row, false)])
  }

  lemma StaleRenamePasses(db: Db, row: Row, tag: Row, data: Row)
    requires PlainVocabulary(row) && Filed(tag, row, 1) && db.rows.Keys == {VOCABULARY_KEY, OTHER_KEY, RED_KEY}
    requires Renames(data, tag)
    ensures Do(db, true, true, StaleRename(tag, data, row)) == Ok(Saved(db, true, TagKind, 1, tag, data))
  {
    RenamedIsFiled(tag, row, data);
    VocabularyReaches(row, tag + data, VOCABULARY_KEY, Flip(row, false), false);
    OnlyTagIsSavable(db.rows, tag + data);
    UpdatePasses(db, tag, data, map[VOCABULARY_KEY := Flip(row, false)]);
  }

  lemma StaleRenameIsCallable(rows: map<Key, Row>, row: Row, moved: Row, tag: Row, data: Row)
    requires TwoVocabularies(rows, row, moved, 2) && Filed(tag, row, 1) && Typed(TagKind, data)
    ensures Callable(rows, StaleRename(tag, data, row))
  {
    FiledIsLoaded(rows, row, moved, tag, 2, 1);
    FlippedIsRow(row);
    UpdateIsCallable(rows, tag, data, VOCABULARY_KEY);
  }

  lemma Slides(db: Db, tag: Row, data: Row, row: Row, after: Db)
    requires data.Keys == {Name} && Callable(db.rows, StaleRename(tag, data, row))
    requires VOCABULARY_KEY in db.rows && db.rows[VOCABULARY_KEY] == Flip(row, false)
    requires RED_KEY in db.rows && ActiveTarget(db.rows, db.rows[RED_KEY], Vocabulary)
    requires Do(db, true, true, StaleRename(tag, data, row)) == Ok(after) && FiledInactive(after.rows)
    ensures SlidesBack(db, StaleRename(tag, data, row))
  {}

  lemma RenameSlidesBack(db: Db, row: Row, moved: Row, tag: Row, data: Row)
    requires TwoVocabularies(db.rows, row, moved, 2) && Filed(tag, row, 1) && Renames(data, tag)
    ensures SlidesBack(db, StaleRename(tag, data, row))
  {
    RenamedIsFiled(tag, row, data);
    StaleRenamePasses(db, row, tag, data);
    StaleRenameIsCallable(db.rows, row, moved, tag, data);
    SavedIsFiledInactive(db, row, moved, tag, data);
    Slides(db, tag, data, row, Saved(db, true, TagKind, 1, tag, data));
  }

  lemma SomeTagSlidesBack(first: Db, row: Row, tag: Row, name: Value)
    requires Reached(first) && PlainVocabulary(row) && Filed(tag, row, 1) && name.Text? && name != Get(tag, Name)
    requires first.rows == map[VOCABULARY_KEY := Flip(row, false), RED_KEY := tag]
    ensures exists db, c :: Reached(db) && SlidesBack(db, c)
  {
    OtherIsCreated(first, row, tag);
    var second :| Reached(second) && TwoVocabularies(second.rows, row, tag, 1);
    TagIsMoved(second, row, tag);
    var third, moved :|
      Reached(third) && TwoVocabularies(third.rows, row, moved, 2) && Get(moved, Name) == Get(tag, Name);
    RenameSlidesBack(third, row, moved, tag, map[Name := name]);
  }

  /** A tag under a deactivated vocabulary is moved to an active one; a caller that loaded it before
      renames it, and it is under the deactivated one again, although nothing deactivated that since. */
  lemma StaleInstanceBreaksActivity()
    ensures exists db, c :: Reached(db) && SlidesBack(db, c)
  {
    SomeOrphan();
    var first, row, tag :| Orphaned(first, row, tag) && Get(tag, Name) == Text("Red");
    SomeTagSlidesBack(first, row, tag, Text("Crimson"));
  }

  // ----- A refused deactivation

  const ALIAS_KEY := Key(AliasKind, 2)

  /** An active alias of the tag in a namespace of some application. */
  ghost predicate NamespacedAlias(row: Row, red: Row) {
    && IsRow(AliasKind, row) && IsActive(row) && Get(row, Canonical) == Ref(1) && Get(row, Tenant) == Get(red, Tenant)
    && IsScopeContext(Ns(row)) && !Ns(row).IsGlobal() && NamespaceScopeCheck(App(row), Ns(row))
  }

  lemma AliasFitsTag(red: Row, row: Row)
    requires Shared(red) && NamespacedAlias(row, red)
    ensures CheckReferences(map[RED_KEY := red], AliasKind, row, true).None?
    ensures Savable(map[RED_KEY := red], ALIAS_KEY, row)
  {}

  lemma AliasIsAccepted(db: Db, red: Row, row: Row)
    requires Shared(red) && NamespacedAlias(row, red) && db.rows == map[RED_KEY := red]
    ensures Do(db, true, true, Create(AliasKind, 2, row, map[])) == Ok(Stored(db, ALIAS_KEY, row))
  {
    WholeRowIsNew(AliasKind, row);
    AliasFitsTag(red, row);
  }

  lemma AliasIsCreated(red: Row, row: Row)
    requires Shared(red) && NamespacedAlias(row, red)
    ensures exists db :: Reached(db) && db.rows == map[RED_KEY := red, ALIAS_KEY := row]
  {
    var db := Stored(EMPTY, RED_KEY, red);
    SharedIsCreated(red);
    AliasIsAccepted(db, red, row);
    Then(db, true, Create(AliasKind, 2, row, map[]), Stored(db, ALIAS_KEY, row));
    assert Stored(db, ALIAS_KEY, row).rows == map[RED_KEY := red, ALIAS_KEY := row];
  }

  lemma DeactivationIsRefused(db: Db, red: Row, row: Row)
    requires Shared(red) && NamespacedAlias(row, red) && db.rows == map[RED_KEY := red, ALIAS_KEY := row]
    ensures Callable(db.rows, DeactivateTag(1, red, [2]))
    ensures Do(db, false, true, DeactivateTag(1, red, [2])) == Err(WritesDisabled)
  {
    assert CascadesTo(db.rows, 1, Get(red, Tenant), ALIAS_KEY);
    forall a | CascadesTo(db.rows, 1, Get(red, Tenant), Key(AliasKind, a)) ensures a in [2] {
      assert Key(AliasKind, a) in db.rows;
    }
    assert [2][0] == 2;
  }

  function Rename(red: Row, name: Value): Call {
    Update(TagKind, 1, Flip(red, false), map[Name := name], map[])
  }

  lemma RenameIsCallable(db: Db, red: Row, name: Value)
    requires Shared(red) && RED_KEY in db.rows && db.rows[RED_KEY] == red && name.Text?
    ensures Callable(db.rows, Rename(red, name))
  {}

  lemma InactiveIsSavable(db: Db, red: Row, name: Value)
    requires Shared(red)
    ensures Savable(db.rows, RED_KEY, Flip(red, false) + map[Name := name])
    ensures Ns(Flip(red, false)) == GLOBAL && Get(Flip(red, false), Name) == Get(red, Name)
  {}

  lemma RenameIsAccepted(db: Db, red: Row, name: Value)
    requires Shared(red) && name.Text? && name != Get(red, Name)
    ensures Do(db, false, true, Rename(red, name))
            == Ok(Saved(db, true, TagKind, 1, Flip(red, false), map[Name := name]))
  {
    InactiveIsSavable(db, red, name);
    UpdateIsAccepted(db, false, Flip(red, false), Name, name);
  }

  lemma RenameLosesAlias(db: Db, red: Row, row: Row, name: Value)
    requires Shared(red) && NamespacedAlias(row, red) && db.rows == map[RED_KEY := red, ALIAS_KEY := row]
    ensures !AliasesOk(Saved(db, true, TagKind, 1, Flip(red, false), map[Name := name]).rows)
  {
    assert Points(db.rows, 1, ALIAS_KEY);
    InactiveTagLosesAliases(db.rows, 1, Flip(red, false) + map[Name := name], ALIAS_KEY);
  }

  lemma AliasIsOk(db: Db, red: Row, row: Row)
    requires Shared(red) && NamespacedAlias(row, red) && db.rows == map[RED_KEY := red, ALIAS_KEY := row]
    ensures AliasesOk(db.rows)
  {}

  /** With namespaced writes off, deactivating the tag is refused; renaming it then from the instance
      that the refusal left inactive succeeds, and leaves an active alias over an inactive tag. */
  ghost predicate RefusalLeaks(db: Db, red: Row, name: Value) {
    && AliasesOk(db.rows) && Callable(db.rows, DeactivateTag(1, red, [2]))
    && Do(db, false, true, DeactivateTag(1, red, [2])) == Err(WritesDisabled)
    && Callable(db.rows, Rename(red, name)) && Do(db, false, true, Rename(red, name)).Ok?
    && !AliasesOk(Do(db, false, true, Rename(red, name)).value.rows)
  }

  lemma NamespacedAliasLeaks(db: Db, red: Row, row: Row, name: Value)
    requires Shared(red) && NamespacedAlias(row, red) && db.rows == map[RED_KEY := red, ALIAS_KEY := row]
    requires name.Text? && name != Get(red, Name)
    ensures RefusalLeaks(db, red, name)
  {
    AliasIsOk(db, red, row);
    DeactivationIsRefused(db, red, row);
    RenameIsCallable(db, red, name);
    RenameIsAccepted(db, red, name);
    RenameLosesAlias(db, red, row, name);
  }

  function AliasIn(tenant: Value, application: string, kind: string, id: string): Row {
    NewRow(AliasKind, map[Tenant := tenant, Application := Text(application), Canonical := Ref(1),
                          NamespaceType := Text(kind), NamespaceId := Text(id)])
  }

  lemma AliasColumns(tenant: Value, application: string, kind: string, id: string)
    requires tenant.Text?
    ensures var row := AliasIn(tenant, application, kind, id);
            && IsRow(AliasKind, row) && IsActive(row) && Get(row, Canonical) == Ref(1) && Get(row, Tenant) == tenant
            && App(row) == Some(application) && Ns(row) == Namespace(Some(kind), Some(id))
  {
    NewRowIsRow(AliasKind, map[Tenant := tenant, Application := Text(application), Canonical := Ref(1),
                               NamespaceType := Text(kind), NamespaceId := Text(id)]);
  }

  lemma SomeNamespace()
    ensures exists kind, id :: kind != "" && id != "" && IsScopeContext(Namespace(Some(kind), Some(id)))
  {
    var text := "m";
    assert text[0] == 'm' && IsScopeContext(Namespace(Some(text), Some(text)));
  }

  lemma SomeAliasIsNamespaced(red: Row)
    requires Shared(red)
    ensures exists row :: NamespacedAlias(row, red)
  {
    SomeNamespace();
    var kind, id :| kind != "" && id != "" && IsScopeContext(Namespace(Some(kind), Some(id)));
    AliasColumns(Get(red, Tenant), "shop", kind, id);
    assert NamespacedAlias(AliasIn(Get(red, Tenant), "shop", kind, id), red);
  }

  lemma SomeStoreLeaks(red: Row, name: Value)
    requires Shared(red) && name.Text? && name != Get(red, Name)
    ensures exists db :: Reached(db) && RefusalLeaks(db, red, name)
  {
    SomeAliasIsNamespaced(red);
    var row :| NamespacedAlias(row, red);
    AliasIsCreated(red, row);
    var db :| Reached(db) && db.rows == map[RED_KEY := red, ALIAS_KEY := row];
    NamespacedAliasLeaks(db, red, row, name);
  }

  /** There is such a store: a global tag with a namespaced alias. */
  lemma RefusedDeactivationBreaksActivity()
    ensures exists db, red, name :: Reached(db) && RefusalLeaks(db, red, name)
  {
    RedIsShared();
    SomeStoreLeaks(RED, Text("Crimson"));
    var db :| Reached(db) && RefusalLeaks(db, RED, Text("Crimson"));
  }
}
