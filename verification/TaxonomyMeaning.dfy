/** When each service call succeeds and what it then does, in the columns of the rows alone. */
module TaxonomyMeaning {
  import opened Scopes
  import opened Taxonomy
  import opened TaxonomyInvariants

  // ----- Conditions on columns

  predicate Agree(a: Row, b: Row, columns: set<Field>) {
    forall f | f in columns :: Get(a, f) == Get(b, f)
  }

  /** The columns no two active rows of a kind may agree on; a missing application or namespace counts
      as a value of its own. */
  function SlotColumns(kind: Kind): set<Field> {
    {Tenant, Application, NamespaceType, NamespaceId, Slug} + if kind == TagKind then {Type} else {}
  }

  predicate NoNamespace(row: Row) {
    Get(row, NamespaceType) == Null && Get(row, NamespaceId) == Null
  }

  /** A row may refer to rows of its tenant that have its application or none, and its namespace or
      none. */
  predicate Reachable(row: Row, target: Row) {
    && Agree(row, target, {Tenant})
    && (Get(target, Application) == Null || Agree(row, target, {Application}))
    && (NoNamespace(target) || Agree(row, target, {NamespaceType, NamespaceId}))
  }

  /** A reference is empty, or names a row within reach that is active where that is asked for. */
  predicate Fits(rows: map<Key, Row>, row: Row, f: Field, kind: Kind, active: bool) {
    Get(row, f) != Null ==>
      && Get(row, f).Ref? && Key(kind, Get(row, f).id) in rows
      && Reachable(row, rows[Key(kind, Get(row, f).id)])
      && (active ==> Get(rows[Key(kind, Get(row, f).id)], Active) == Flag(true))
  }

  predicate SlotFree(rows: map<Key, Row>, key: Key, row: Row) {
    forall k | k in rows ::
      k != key && k.kind == key.kind && Get(rows[k], Active) == Flag(true) ==>
        !Agree(row, rows[k], SlotColumns(key.kind))
  }

  /** The kill-switch, on the columns of the row a call is given. */
  predicate Enabled(writes: bool, row: Row) {
    writes || Get(row, NamespaceType) == Null
  }

  /** A namespace is complete, not blank and not the reserved word. */
  predicate NamespaceAllowed(row: Row) {
    || NoNamespace(row)
    || (Get(row, NamespaceType).Text? && Get(row, NamespaceId).Text? && !IsBlank(Get(row, NamespaceType).text)
        && !IsBlank(Get(row, NamespaceId).text) && Get(row, NamespaceType).text != "global")
  }

  function ScopeColumns(row: Row): Row {
    map[Tenant := Get(row, Tenant), Application := Get(row, Application),
        NamespaceType := Get(row, NamespaceType), NamespaceId := Get(row, NamespaceId)]
  }

  /** One row is put under a key, and one event appended if the call is logged. */
  predicate Puts(before: Db, after: Db, audit: bool, key: Key, row: Row, e: Event) {
    after.rows == before.rows[key := row] && after.outbox == before.outbox + if audit then [e] else []
  }

  // ----- The checks say no more and no less

  ghost predicate WellScoped(row: Row) {
    && IsScopeContext(Ns(row))
    && exists kind :: IsRow(kind, row)
  }

  lemma SlotsAreColumns(kind: Kind, a: Row, b: Row)
    requires IsRow(kind, a) && NamespaceScopeCheck(App(a), Ns(a))
    requires IsRow(kind, b) && NamespaceScopeCheck(App(b), Ns(b))
    ensures SameSlot(kind, a, b) <==> Agree(a, b, SlotColumns(kind))
  {
    assert forall f :: f in {Tenant, Application, NamespaceType, NamespaceId, Slug, Type} && f in a && f in b
                       ==> HasType(f, a[f]) && HasType(f, b[f]);
  }

  lemma UnclaimedIsFree(rows: map<Key, Row>, key: Key, row: Row)
    requires Inv(rows) && IsRow(key.kind, row) && NamespaceScopeCheck(App(row), Ns(row))
    ensures Unclaimed(rows, key, row) <==> (Get(row, Active) == Flag(true) ==> SlotFree(rows, key, row))
  {
    forall k | k in rows && k.kind == key.kind
      ensures SameSlot(key.kind, row, rows[k]) <==> Agree(row, rows[k], SlotColumns(key.kind))
    {
      assert SoundRow(k, rows[k]);
      SlotsAreColumns(key.kind, row, rows[k]);
    }
  }

  lemma ReachIsChecked(row: Row, target: Row)
    requires WellScoped(row) && exists kind :: IsRow(kind, target)
    ensures ApplicationReaches(App(row), App(target))
            <==> Get(target, Application) == Null || Agree(row, target, {Application})
    ensures MatchesScope(Ns(target), Ns(row), true)
            <==> NoNamespace(target) || Agree(row, target, {NamespaceType, NamespaceId})
  {}

  /** What is wrong with the row a reference names; one with several faults answers with the first. */
  predicate Unfit(e: Error, row: Row, target: Row, active: bool) {
    var idle := active && Get(target, Active) != Flag(true);
    var elsewhere := Get(target, Application) != Null && !Agree(row, target, {Application});
    match e
    case WrongTenant => !Agree(row, target, {Tenant})
    case Inactive => Agree(row, target, {Tenant}) && idle
    case WrongApplication => Agree(row, target, {Tenant}) && !idle && elsewhere
    case WrongNamespace => Agree(row, target, {Tenant}) && !idle && !elsewhere && !Reachable(row, target)
    case _ => false
  }

  lemma TargetIsChecked(row: Row, target: Row, active: bool)
    requires WellScoped(row) && exists kind :: IsRow(kind, target)
    ensures CheckTarget(row, target, active).None?
            <==> Reachable(row, target) && (active ==> Get(target, Active) == Flag(true))
    ensures forall e :: CheckTarget(row, target, active) == Some(e) <==> Unfit(e, row, target, active)
  {
    ReachIsChecked(row, target);
  }

  ghost predicate AllRows(rows: map<Key, Row>) {
    forall k :: k in rows ==> IsRow(k.kind, rows[k])
  }

  predicate Faulty(e: Error, rows: map<Key, Row>, row: Row, f: Field, kind: Kind, active: bool) {
    Get(row, f) != Null
    && if Get(row, f).Ref? && Key(kind, Get(row, f).id) in rows
       then Unfit(e, row, rows[Key(kind, Get(row, f).id)], active) else e == NotFound
  }

  lemma ReferenceIsChecked(rows: map<Key, Row>, row: Row, f: Field, kind: Kind, active: bool)
    requires WellScoped(row) && AllRows(rows)
    requires f in REFERENCES && kind == if f == Vocabulary then VocabularyKind else TagKind
    ensures CheckReference(rows, row, f, active).None? <==> Fits(rows, row, f, kind, active)
    ensures forall e :: CheckReference(rows, row, f, active) == Some(e) <==> Faulty(e, rows, row, f, kind, active)
  {
    if Get(row, f).Ref? && Key(kind, Get(row, f).id) in rows {
      TargetIsChecked(row, rows[Key(kind, Get(row, f).id)], active);
    }
  }

  /** A tag's parent and vocabulary fit; only the vocabulary may have to be active. */
  predicate TagRefers(parents: map<Key, Row>, vocabularies: map<Key, Row>, row: Row, active: bool) {
    && Fits(parents, row, Parent, TagKind, false)
    && Fits(vocabularies, row, Vocabulary, VocabularyKind, active)
  }

  predicate TagFaulty(e: Error, parents: map<Key, Row>, vocabularies: map<Key, Row>, row: Row, active: bool) {
    || Faulty(e, parents, row, Parent, TagKind, false)
    || (Fits(parents, row, Parent, TagKind, false)
        && Faulty(e, vocabularies, row, Vocabulary, VocabularyKind, active))
  }

  /** What a write that checks a row's references on one set of rows finds. */
  predicate Refers(rows: map<Key, Row>, kind: Kind, row: Row, active: bool) {
    match kind
    case VocabularyKind => true
    case AliasKind => Fits(rows, row, Canonical, TagKind, true)
    case TagKind => TagRefers(rows, rows, row, active)
  }

  predicate Misrefers(e: Error, rows: map<Key, Row>, kind: Kind, row: Row, active: bool) {
    match kind
    case VocabularyKind => false
    case AliasKind => Faulty(e, rows, row, Canonical, TagKind, true)
    case TagKind => TagFaulty(e, rows, rows, row, active)
  }

  lemma ReferencesAreChecked(rows: map<Key, Row>, kind: Kind, row: Row, active: bool)
    requires WellScoped(row) && AllRows(rows)
    ensures CheckReferences(rows, kind, row, active).None? <==> Refers(rows, kind, row, active)
    ensures forall e :: CheckReferences(rows, kind, row, active) == Some(e)
                        <==> Misrefers(e, rows, kind, row, active)
  {
    match kind
    case VocabularyKind =>
    case AliasKind => ReferenceIsChecked(rows, row, Canonical, TagKind, true);
    case TagKind =>
      ReferenceIsChecked(rows, row, Parent, TagKind, false);
      ReferenceIsChecked(rows, row, Vocabulary, VocabularyKind, active);
  }

  // ----- Creation

  function Default(f: Field): Value {
    match f
    case Active => Flag(true)
    case Metadata => Text("{}")
    case Tenant | Name | Slug | Type => Text("")
    case _ => Null
  }

  lemma DefaultsAre(kind: Kind, f: Field)
    ensures f in CommonDefaults() ==> CommonDefaults()[f] == Default(f)
    ensures f in OwnDefaults(kind) ==> OwnDefaults(kind)[f] == Default(f)
  {}

  /** A column left out of a creation holds its default. */
  lemma NewRowIs(kind: Kind, data: Row, f: Field)
    requires Typed(kind, data) && (kind == AliasKind ==> Canonical in data) && f in Columns(kind)
    ensures f in NewRow(kind, data)
    ensures NewRow(kind, data)[f] == if f in data then data[f] else Default(f)
  {
    DefaultsAre(kind, f);
  }

  /** A new row can be stored: under a new key, not as its own parent, with an application if it has a
      namespace and, if it is active, in a free slot. */
  predicate NewRowFree(rows: map<Key, Row>, kind: Kind, id: nat, row: Row) {
    && Key(kind, id) !in rows && (kind == TagKind ==> Get(row, Parent) != Ref(id))
    && (NoNamespace(row) || Get(row, Application).Text?)
    && (Get(row, Active) == Flag(true) ==> SlotFree(rows, Key(kind, id), row))
  }

  lemma CreationIsChecked(rows: map<Key, Row>, seen: map<Key, Row>, kind: Kind, id: nat, row: Row)
    requires Inv(rows) && Copies(rows, seen) && IsRow(kind, row) && NamespaceAllowed(row)
    ensures var copies := if kind == AliasKind then rows else seen;
            && (CheckReferences(copies, kind, row, true).None? <==> Refers(copies, kind, row, true))
            && (forall e :: CheckReferences(copies, kind, row, true) == Some(e)
                            <==> Misrefers(e, copies, kind, row, true))
    ensures Key(kind, id) !in rows && Savable(rows, Key(kind, id), row) <==> NewRowFree(rows, kind, id, row)
  {
    ReferencesAreChecked(if kind == AliasKind then rows else seen, kind, row, true);
    if NamespaceScopeCheck(App(row), Ns(row)) { UnclaimedIsFree(rows, Key(kind, id), row); }
  }

  lemma NamespaceIsChecked(kind: Kind, row: Row)
    requires IsRow(kind, row)
    ensures IsScopeContext(Ns(row)) <==> NamespaceAllowed(row)
    ensures NamespaceAllowed(row) ==> forall writes :: MayWrite(writes, Ns(row)) <==> Enabled(writes, row)
  {}

  /** A creation succeeds exactly when its row has a proper scope, the write is enabled, its references
      fit, and its key and slot are free. */
  lemma CreateSucceeds(db: Db, writes: bool, audit: bool, kind: Kind, id: nat, data: Row, seen: map<Key, Row>)
    requires Inv(db.rows) && Callable(db.rows, Create(kind, id, data, seen))
    ensures var row := NewRow(kind, data);
            DoCreate(db, writes, audit, kind, id, data, seen).Ok?
            <==> && NamespaceAllowed(row) && Enabled(writes, row)
                 && Refers(if kind == AliasKind then db.rows else seen, kind, row, true)
                 && NewRowFree(db.rows, kind, id, row)
  {
    var row := NewRow(kind, data);
    NewRowIsRow(kind, data);
    NamespaceIsChecked(kind, row);
    if NamespaceAllowed(row) { CreationIsChecked(db.rows, seen, kind, id, row); }
  }

  predicate CreateFault(e: Error, db: Db, writes: bool, kind: Kind, id: nat, row: Row, seen: map<Key, Row>) {
    var copies := if kind == AliasKind then db.rows else seen;
    match e
    case BadScope => !NamespaceAllowed(row)
    case WritesDisabled => NamespaceAllowed(row) && !Enabled(writes, row)
    case Conflict =>
      && NamespaceAllowed(row) && Enabled(writes, row) && Refers(copies, kind, row, true)
      && !NewRowFree(db.rows, kind, id, row)
    case _ => NamespaceAllowed(row) && Enabled(writes, row) && Misrefers(e, copies, kind, row, true)
  }

  /** One that does not answers with the first of these that fails. */
  lemma CreateRefuses(e: Error, db: Db, writes: bool, audit: bool, kind: Kind, id: nat, data: Row,
                      seen: map<Key, Row>)
    requires Inv(db.rows) && Callable(db.rows, Create(kind, id, data, seen))
    requires CreateFault(e, db, writes, kind, id, NewRow(kind, data), seen)
    ensures DoCreate(db, writes, audit, kind, id, data, seen) == Err(e)
  {
    var row := NewRow(kind, data);
    NewRowIsRow(kind, data);
    NamespaceIsChecked(kind, row);
    if e == Conflict {
      CreationIsChecked(db.rows, seen, kind, id, row);
    } else if NamespaceAllowed(row) {
      ReferencesAreChecked(if kind == AliasKind then db.rows else seen, kind, row, true);
    }
  }

  lemma WritePuts(db: Db, audit: bool, key: Key, row: Row, payload: Payload)
    ensures Puts(db, Write(db, audit, key, row, payload), audit, key, row,
                 Event(key, ScopeColumns(row), payload))
  {
    assert EventScope(row) == ScopeColumns(row);
  }

  /** It stores the row and logs its columns, the namespace among the event's own. */
  lemma CreatePuts(db: Db, writes: bool, audit: bool, kind: Kind, id: nat, data: Row, seen: map<Key, Row>)
    requires DoCreate(db, writes, audit, kind, id, data, seen).Ok?
    ensures var row := NewRow(kind, data);
            Puts(db, DoCreate(db, writes, audit, kind, id, data, seen).value, audit, Key(kind, id), row,
                 Event(Key(kind, id), ScopeColumns(row), Created(row - {NamespaceType, NamespaceId})))
  {
    var row := NewRow(kind, data);
    WritePuts(db, audit, Key(kind, id), row, Created(Snapshot(row)));
  }

  // ----- Update

  /** What an update's references are checked on: the row it would save, in the tenant it had. */
  function AsChecked(instance: Row, data: Row): Row {
    (instance + data)[Tenant := Get(instance, Tenant)]
  }

  /** The scope columns of an update, if it sends any, are those the instance has. */
  predicate ScopeKept(instance: Row, data: Row) {
    forall f | f in {Application, NamespaceType, NamespaceId} && f in data :: data[f] == Get(instance, f)
  }

  predicate Changes(instance: Row, data: Row) {
    exists f :: f in data && data[f] != Get(instance, f)
  }

  /** A changed row can be saved: it is not its own parent and, if it is active, its slot is free. */
  predicate RowFree(rows: map<Key, Row>, kind: Kind, id: nat, row: Row) {
    && (kind == TagKind ==> Get(row, Parent) != Ref(id))
    && (Get(row, Active) == Flag(true) ==> SlotFree(rows, Key(kind, id), row))
  }

  lemma LoadedIsScoped(rows: map<Key, Row>, kind: Kind, id: nat, instance: Row)
    requires Inv(rows) && Loaded(rows, kind, id, instance)
    ensures WellScoped(instance) && forall writes :: MayWrite(writes, Ns(instance)) <==> Enabled(writes, instance)
  {
    assert SoundRow(Key(kind, id), rows[Key(kind, id)]);
    NamespaceIsChecked(kind, instance);
  }

  lemma ChangesAreColumns(instance: Row, data: Row)
    ensures ChangesScope(instance, data) <==> !ScopeKept(instance, data)
    ensures After(instance, data) == map[] <==> !Changes(instance, data)
  {
    if Changes(instance, data) {
      var f :| f in data && data[f] != Get(instance, f);
      assert f in After(instance, data);
    }
  }

  lemma OtherTenant(kind: Kind, row: Row, tenant: Value)
    requires IsRow(kind, row) && tenant.Text?
    ensures IsRow(kind, row[Tenant := tenant])
    ensures Ns(row[Tenant := tenant]) == Ns(row) && App(row[Tenant := tenant]) == App(row)
  {}

  lemma UpdateIsScoped(rows: map<Key, Row>, kind: Kind, id: nat, instance: Row, data: Row)
    requires Inv(rows) && Loaded(rows, kind, id, instance) && Typed(kind, data)
    requires !ChangesScope(instance, data)
    ensures IsRow(kind, instance + data) && NamespaceScopeCheck(App(instance + data), Ns(instance + data))
    ensures IsRow(kind, AsChecked(instance, data))
    ensures IsScopeContext(Ns(instance + data)) && IsScopeContext(Ns(AsChecked(instance, data)))
  {
    assert SoundRow(Key(kind, id), rows[Key(kind, id)]);
    SavedScope(rows, kind, id, instance, data);
    assert HasType(Tenant, instance[Tenant]);
    OtherTenant(kind, instance + data, instance[Tenant]);
  }

  lemma SaveIsChecked(rows: map<Key, Row>, kind: Kind, id: nat, instance: Row, data: Row, seen: map<Key, Row>)
    requires Inv(rows) && Callable(rows, Update(kind, id, instance, data, seen)) && !ChangesScope(instance, data)
    ensures forall active ::
              && (CheckReferences(seen, kind, AsChecked(instance, data), active).None?
                  <==> Refers(seen, kind, AsChecked(instance, data), active))
              && (forall e :: CheckReferences(seen, kind, AsChecked(instance, data), active) == Some(e)
                              <==> Misrefers(e, seen, kind, AsChecked(instance, data), active))
    ensures CheckReferences(rows, kind, instance + data, true).None? <==> Refers(rows, kind, instance + data, true)
    ensures forall e :: CheckReferences(rows, kind, instance + data, true) == Some(e)
                        <==> Misrefers(e, rows, kind, instance + data, true)
    ensures Savable(rows, Key(kind, id), instance + data) <==> RowFree(rows, kind, id, instance + data)
  {
    UpdateIsScoped(rows, kind, id, instance, data);
    forall active {
      ReferencesAreChecked(seen, kind, AsChecked(instance, data), active);
    }
    ReferencesAreChecked(rows, kind, instance + data, true);
    UnclaimedIsFree(rows, Key(kind, id), instance + data);
  }

  predicate UpdateRefers(kind: Kind, instance: Row, data: Row, seen: map<Key, Row>) {
    Refers(seen, kind, AsChecked(instance, data), Get(instance + data, Vocabulary) != Get(instance, Vocabulary))
  }

  /** An update succeeds exactly when the write is enabled, it leaves the scope columns alone, the
      caller's copies of its references fit and, if it changes anything, the tag of an alias fits as it is
      stored and the changed row is free of conflicts. Only a vocabulary it moves to has to be active. */
  lemma UpdateSucceeds(db: Db, writes: bool, audit: bool, kind: Kind, id: nat, instance: Row, data: Row,
                       seen: map<Key, Row>)
    requires Inv(db.rows) && Callable(db.rows, Update(kind, id, instance, data, seen))
    ensures DoUpdate(db, writes, audit, kind, id, instance, data, seen).Ok?
            <==> && Enabled(writes, instance) && ScopeKept(instance, data)
                 && UpdateRefers(kind, instance, data, seen)
                 && (Changes(instance, data) ==>
                       && (kind == AliasKind ==> Refers(db.rows, AliasKind, instance + data, true))
                       && RowFree(db.rows, kind, id, instance + data))
  {
    LoadedIsScoped(db.rows, kind, id, instance);
    ChangesAreColumns(instance, data);
    if !ChangesScope(instance, data) {
      SaveIsChecked(db.rows, kind, id, instance, data, seen);
    }
  }

  predicate UpdateFault(e: Error, db: Db, writes: bool, kind: Kind, id: nat, instance: Row, data: Row,
                        seen: map<Key, Row>)
  {
    var row := instance + data;
    var moved := Get(row, Vocabulary) != Get(instance, Vocabulary);
    var saves := UpdateRefers(kind, instance, data, seen) && Changes(instance, data);
    match e
    case WritesDisabled => !Enabled(writes, instance)
    case ScopeImmutable => Enabled(writes, instance) && !ScopeKept(instance, data)
    case Conflict =>
      && Enabled(writes, instance) && ScopeKept(instance, data) && saves
      && (kind == AliasKind ==> Refers(db.rows, AliasKind, row, true)) && !RowFree(db.rows, kind, id, row)
    case _ =>
      && Enabled(writes, instance) && ScopeKept(instance, data)
      && (|| Misrefers(e, seen, kind, AsChecked(instance, data), moved)
          || (saves && kind == AliasKind && Misrefers(e, db.rows, AliasKind, row, true)))
  }

  lemma UpdateRefuses(e: Error, db: Db, writes: bool, audit: bool, kind: Kind, id: nat, instance: Row, data: Row,
                      seen: map<Key, Row>)
    requires Inv(db.rows) && Callable(db.rows, Update(kind, id, instance, data, seen))
    requires UpdateFault(e, db, writes, kind, id, instance, data, seen)
    ensures DoUpdate(db, writes, audit, kind, id, instance, data, seen) == Err(e)
  {
    LoadedIsScoped(db.rows, kind, id, instance);
    ChangesAreColumns(instance, data);
    if !ChangesScope(instance, data) {
      SaveIsChecked(db.rows, kind, id, instance, data, seen);
    }
  }

  /** It saves the instance's whole row with the new values in it and logs the columns that changed, with
      their values before and after; a change to nothing writes nothing. */
  lemma UpdatePuts(db: Db, writes: bool, audit: bool, kind: Kind, id: nat, instance: Row, data: Row,
                   seen: map<Key, Row>)
    requires DoUpdate(db, writes, audit, kind, id, instance, data, seen).Ok?
    ensures var after := DoUpdate(db, writes, audit, kind, id, instance, data, seen).value;
            if !Changes(instance, data) then after == db
            else Puts(db, after, audit, Key(kind, id), instance + data,
                      Event(Key(kind, id), ScopeColumns(instance + data),
                            Updated(map f | f in data && data[f] != Get(instance, f) :: Get(instance, f),
                                    map f | f in data && data[f] != Get(instance, f) :: data[f])))
  {
    UpdateSaves(db, writes, audit, kind, id, instance, data, seen);
    ChangesAreColumns(instance, data);
    assert Before(instance, data) == map f | f in data && data[f] != Get(instance, f) :: Get(instance, f);
    assert After(instance, data) == map f | f in data && data[f] != Get(instance, f) :: data[f];
    WritePuts(db, audit, Key(kind, id), instance + data,
              Updated(Before(instance, data), After(instance, data)));
  }

  // ----- Reactivation

  /** The row a reactivation locks for a reference exists in the row's own tenant. */
  predicate Locks(rows: map<Key, Row>, row: Row, f: Field, kind: Kind) {
    Get(row, f).Ref? ==>
      Key(kind, Get(row, f).id) in rows && Agree(row, rows[Key(kind, Get(row, f).id)], {Tenant})
  }

  /** An alias locks its tag whether it is active or not, a tag its vocabulary only to become active. */
  predicate RevivalLocks(rows: map<Key, Row>, kind: Kind, row: Row) {
    && (kind == AliasKind ==> Locks(rows, row, Canonical, TagKind))
    && (kind == TagKind && Get(row, Active) != Flag(true) ==> Locks(rows, row, Vocabulary, VocabularyKind))
  }

  /** Its references fit: the tag of an alias and the vocabulary of a tag as stored, the parent of a tag as
      the caller last saw it and whether it is active or not. */
  predicate RevivalRefers(rows: map<Key, Row>, seen: map<Key, Row>, kind: Kind, row: Row) {
    match kind
    case VocabularyKind => true
    case AliasKind => Fits(rows, row, Canonical, TagKind, true)
    case TagKind => TagRefers(seen, rows, row, true)
  }

  predicate RevivalFaulty(e: Error, rows: map<Key, Row>, seen: map<Key, Row>, kind: Kind, row: Row) {
    match kind
    case VocabularyKind => false
    case AliasKind => Faulty(e, rows, row, Canonical, TagKind, true)
    case TagKind => TagFaulty(e, seen, rows, row, true)
  }

  lemma RevivalIsChecked(rows: map<Key, Row>, seen: map<Key, Row>, kind: Kind, id: nat)
    requires Inv(rows) && Copies(rows, seen) && Key(kind, id) in rows
    ensures var row := rows[Key(kind, id)];
            && (CheckRevival(rows, seen, kind, row).None? <==> RevivalRefers(rows, seen, kind, row))
            && (forall e :: CheckRevival(rows, seen, kind, row) == Some(e)
                            <==> RevivalFaulty(e, rows, seen, kind, row))
  {
    var row := rows[Key(kind, id)];
    assert SoundRow(Key(kind, id), row);
    match kind
    case VocabularyKind =>
    case AliasKind => ReferenceIsChecked(rows, row, Canonical, TagKind, true);
    case TagKind =>
      ReferenceIsChecked(seen, row, Parent, TagKind, false);
      ReferenceIsChecked(rows, row, Vocabulary, VocabularyKind, true);
  }

  lemma FlipKeepsSlot(kind: Kind, row: Row, other: Row, on: bool)
    ensures Agree(Flip(row, on), other, SlotColumns(kind)) <==> Agree(row, other, SlotColumns(kind))
  {
    assert forall f :: f in SlotColumns(kind) ==> Get(Flip(row, on), f) == Get(row, f);
  }

  lemma RevivedIsSavable(rows: map<Key, Row>, key: Key)
    requires Inv(rows) && key in rows
    ensures Savable(rows, key, Flip(rows[key], true)) <==> SlotFree(rows, key, rows[key])
  {
    var row := rows[key];
    assert SoundRow(key, row);
    FlipIsSound(key, row, true);
    UnclaimedIsFree(rows, key, Flip(row, true));
    forall k | k in rows {
      FlipKeepsSlot(key.kind, row, rows[k], true);
    }
  }

  lemma LocksAreChecked(rows: map<Key, Row>, kind: Kind, row: Row)
    ensures kind == AliasKind ==> (Lockable(rows, row, Canonical) <==> Locks(rows, row, Canonical, TagKind))
    ensures kind == TagKind ==> (Lockable(rows, row, Vocabulary) <==> Locks(rows, row, Vocabulary, VocabularyKind))
  {}

  /** The write is enabled, the row is still in the instance's tenant,
      what it locks is there and, if the row is inactive, its references fit and its slot is free. */
  predicate Revivable(db: Db, writes: bool, kind: Kind, id: nat, instance: Row, seen: map<Key, Row>)
    requires Key(kind, id) in db.rows
  {
    var row := db.rows[Key(kind, id)];
    && Enabled(writes, instance) && Agree(row, instance, {Tenant}) && RevivalLocks(db.rows, kind, row)
    && (Get(row, Active) != Flag(true) ==>
          RevivalRefers(db.rows, seen, kind, row) && SlotFree(db.rows, Key(kind, id), row))
  }

  predicate ReactivateFault(e: Error, db: Db, writes: bool, kind: Kind, id: nat, instance: Row,
                            seen: map<Key, Row>)
    requires Key(kind, id) in db.rows
  {
    var row := db.rows[Key(kind, id)];
    var held := Agree(row, instance, {Tenant}) && RevivalLocks(db.rows, kind, row);
    var revives := held && Get(row, Active) != Flag(true);
    match e
    case WritesDisabled => !Enabled(writes, instance)
    case NotFound => Enabled(writes, instance) && (!held || (revives && RevivalFaulty(e, db.rows, seen, kind, row)))
    case Conflict =>
      && Enabled(writes, instance) && revives && RevivalRefers(db.rows, seen, kind, row)
      && !SlotFree(db.rows, Key(kind, id), row)
    case _ => Enabled(writes, instance) && revives && RevivalFaulty(e, db.rows, seen, kind, row)
  }

  lemma RevivalFlow(db: Db, writes: bool, audit: bool, kind: Kind, id: nat, instance: Row, seen: map<Key, Row>)
    requires Key(kind, id) in db.rows && (MayWrite(writes, Ns(instance)) <==> Enabled(writes, instance))
    requires var row := db.rows[Key(kind, id)];
             && (kind == AliasKind ==> (Lockable(db.rows, row, Canonical) <==> Locks(db.rows, row, Canonical, TagKind)))
             && (kind == TagKind ==>
                   (Lockable(db.rows, row, Vocabulary) <==> Locks(db.rows, row, Vocabulary, VocabularyKind)))
             && (CheckRevival(db.rows, seen, kind, row).None? <==> RevivalRefers(db.rows, seen, kind, row))
             && (forall e :: CheckRevival(db.rows, seen, kind, row) == Some(e)
                             <==> RevivalFaulty(e, db.rows, seen, kind, row))
             && (Savable(db.rows, Key(kind, id), Flip(row, true)) <==> SlotFree(db.rows, Key(kind, id), row))
    ensures DoReactivate(db, writes, audit, kind, id, instance, seen).Ok?
            <==> Revivable(db, writes, kind, id, instance, seen)
    ensures forall e :: ReactivateFault(e, db, writes, kind, id, instance, seen)
                        ==> DoReactivate(db, writes, audit, kind, id, instance, seen) == Err(e)
  {}

  /** A reactivation succeeds exactly then. */
  lemma ReactivateSucceeds(db: Db, writes: bool, audit: bool, kind: Kind, id: nat, instance: Row,
                           seen: map<Key, Row>)
    requires Inv(db.rows) && Callable(db.rows, Reactivate(kind, id, instance, seen))
    ensures DoReactivate(db, writes, audit, kind, id, instance, seen).Ok?
            <==> Revivable(db, writes, kind, id, instance, seen)
  {
    LoadedIsScoped(db.rows, kind, id, instance);
    LocksAreChecked(db.rows, kind, db.rows[Key(kind, id)]);
    RevivalIsChecked(db.rows, seen, kind, id);
    RevivedIsSavable(db.rows, Key(kind, id));
    RevivalFlow(db, writes, audit, kind, id, instance, seen);
  }

  lemma ReactivateRefuses(e: Error, db: Db, writes: bool, audit: bool, kind: Kind, id: nat, instance: Row,
                          seen: map<Key, Row>)
    requires Inv(db.rows) && Callable(db.rows, Reactivate(kind, id, instance, seen))
    requires ReactivateFault(e, db, writes, kind, id, instance, seen)
    ensures DoReactivate(db, writes, audit, kind, id, instance, seen) == Err(e)
  {
    LoadedIsScoped(db.rows, kind, id, instance);
    LocksAreChecked(db.rows, kind, db.rows[Key(kind, id)]);
    RevivalIsChecked(db.rows, seen, kind, id);
    RevivedIsSavable(db.rows, Key(kind, id));
    RevivalFlow(db, writes, audit, kind, id, instance, seen);
  }

  /** It makes the row active, leaves every other row as it was and logs the one change; on a row that is
      active already it writes nothing. */
  lemma ReactivatePuts(db: Db, writes: bool, audit: bool, kind: Kind, id: nat, instance: Row, seen: map<Key, Row>)
    requires DoReactivate(db, writes, audit, kind, id, instance, seen).Ok?
    ensures var key, after := Key(kind, id), DoReactivate(db, writes, audit, kind, id, instance, seen).value;
            && key in db.rows
            && if Get(db.rows[key], Active) == Flag(true) then after == db
               else Puts(db, after, audit, key, db.rows[key][Active := Flag(true)],
                         Event(key, ScopeColumns(db.rows[key]),
                               Updated(map[Active := Flag(false)], map[Active := Flag(true)])))
  {
    WritePuts(db, audit, Key(kind, id), Flip(db.rows[Key(kind, id)], true), REACTIVATED);
  }

  // ----- Deactivation

  /** An alias or vocabulary is deactivated whenever the write is enabled. */
  lemma DeactivateSucceeds(db: Db, writes: bool, audit: bool, kind: Kind, id: nat, instance: Row)
    requires Inv(db.rows) && Callable(db.rows, Deactivate(kind, id, instance))
    ensures var r := DoDeactivate(db, writes, audit, kind, id, instance);
            if Enabled(writes, instance) then r.Ok? else r == Err(WritesDisabled)
  {
    LoadedIsScoped(db.rows, kind, id, instance);
  }

  /** It goes by the word of the instance: the stored row becomes inactive unless the instance already is,
      and the event carries the instance's columns. */
  lemma DeactivatePuts(db: Db, writes: bool, audit: bool, kind: Kind, id: nat, instance: Row)
    requires Key(kind, id) in db.rows && DoDeactivate(db, writes, audit, kind, id, instance).Ok?
    ensures var key, after := Key(kind, id), DoDeactivate(db, writes, audit, kind, id, instance).value;
            if Get(instance, Active) != Flag(true) then after == db
            else Puts(db, after, audit, key, db.rows[key][Active := Flag(false)],
                      Event(key, ScopeColumns(instance),
                            Deactivated(map[Active := Flag(true)], map[Active := Flag(false)], [], None)))
  {
    assert EventScope(instance) == ScopeColumns(instance);
  }

  predicate AliasesEnabled(writes: bool, rows: map<Key, Row>, cascade: seq<nat>) {
    forall a | a in cascade :: Key(AliasKind, a) in rows && Enabled(writes, rows[Key(AliasKind, a)])
  }

  lemma AliasesAreGuarded(writes: bool, rows: map<Key, Row>, id: nat, instance: Row, cascade: seq<nat>)
    requires Inv(rows) && Callable(rows, DeactivateTag(id, instance, cascade))
    ensures AliasesEnabled(writes, rows, cascade)
            <==> !exists a :: a in cascade && Key(AliasKind, a) in rows
                              && !MayWrite(writes, Ns(rows[Key(AliasKind, a)]))
  {
    forall a | a in cascade
      ensures Key(AliasKind, a) in rows
      ensures MayWrite(writes, Ns(rows[Key(AliasKind, a)])) <==> Enabled(writes, rows[Key(AliasKind, a)])
    {
      assert SoundRow(Key(AliasKind, a), rows[Key(AliasKind, a)]);
      NamespaceIsChecked(AliasKind, rows[Key(AliasKind, a)]);
    }
  }

  /** A tag's deactivation is refused only by the kill-switch, which covers every alias it reaches. */
  lemma DeactivateTagSucceeds(db: Db, writes: bool, audit: bool, id: nat, instance: Row, cascade: seq<nat>)
    requires Inv(db.rows) && Callable(db.rows, DeactivateTag(id, instance, cascade))
    ensures var r := DoDeactivateTag(db, writes, audit, id, instance, cascade);
            if && Enabled(writes, instance)
               && (Get(db.rows[Key(TagKind, id)], Active) == Flag(true) ==>
                     AliasesEnabled(writes, db.rows, cascade))
            then r.Ok? else r == Err(WritesDisabled)
  {
    LoadedIsScoped(db.rows, TagKind, id, instance);
    AliasesAreGuarded(writes, db.rows, id, instance, cascade);
  }

  /** The aliases it reaches are the active ones of that tag in the tag's tenant, each once. */
  lemma CascadeIs(rows: map<Key, Row>, id: nat, instance: Row, cascade: seq<nat>, a: nat)
    requires Callable(rows, DeactivateTag(id, instance, cascade))
    ensures a in cascade
            <==> var key := Key(AliasKind, a);
                 && key in rows && Get(rows[key], Active) == Flag(true) && Get(rows[key], Canonical) == Ref(id)
                 && Agree(rows[key], rows[Key(TagKind, id)], {Tenant})
    ensures forall i, j :: 0 <= i < j < |cascade| ==> cascade[i] != cascade[j]
  {}

  /** One event for the tag, which lists the aliases, is followed by one for each of them in that order,
      which names the tag as its source; each carries the columns of the stored row it describes. */
  lemma DeactivateTagLogs(db: Db, writes: bool, audit: bool, id: nat, instance: Row, cascade: seq<nat>)
    requires Callable(db.rows, DeactivateTag(id, instance, cascade))
    requires DoDeactivateTag(db, writes, audit, id, instance, cascade).Ok?
    ensures var tag, after := Key(TagKind, id), DoDeactivateTag(db, writes, audit, id, instance, cascade).value;
            if Get(db.rows[tag], Active) != Flag(true) then after == db
            else if !audit then after.outbox == db.outbox
            else
              && |after.outbox| == |db.outbox| + 1 + |cascade| && db.outbox <= after.outbox
              && after.outbox[|db.outbox|]
                 == Event(tag, ScopeColumns(db.rows[tag]),
                          Deactivated(map[Active := Flag(true)], map[Active := Flag(false)], cascade, None))
              && forall i :: 0 <= i < |cascade| ==>
                   var key := Key(AliasKind, cascade[i]);
                   && key in db.rows
                   && after.outbox[|db.outbox| + 1 + i]
                      == Event(key, ScopeColumns(db.rows[key]),
                               Deactivated(map[Active := Flag(true)], map[Active := Flag(false)], [], Some(id)))
  {
    assert forall row :: EventScope(row) == ScopeColumns(row);
  }
}
