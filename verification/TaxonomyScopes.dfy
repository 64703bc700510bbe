/** Isolation in the taxonomy: a row's scope never changes, namespaced rows are frozen while writes
    are off, and references never leave their tenant, application and namespace. */
module TaxonomyScopes {
  import opened Scopes
  import opened Taxonomy
  import opened TaxonomyInvariants

  // ----- Scope immutability

  ghost predicate SameScope(a: Row, b: Row) {
    forall f :: f in SCOPE_FIELDS ==> Get(a, f) == Get(b, f)
  }

  /** Every row is still there, in the scope it was created in. */
  ghost predicate ScopesKept(before: map<Key, Row>, after: map<Key, Row>) {
    forall k :: k in before ==> k in after && SameScope(before[k], after[k])
  }

  lemma FlipsKeepScopes(rows: map<Key, Row>, key: Key, on: bool, cascade: seq<nat>)
    requires key in rows
    ensures ScopesKept(rows, rows[key := Flip(rows[key], on)])
    ensures ScopesKept(rows, FlipAliases(rows[key := Flip(rows[key], on)], cascade))
  {}

  lemma FlipCallsKeepScopes(db: Db, s: Step)
    requires (s.call.Reactivate? || s.call.Deactivate?) && Key(s.call.kind, s.call.id) in db.rows
    ensures ScopesKept(db.rows, Commit(db, s.writes, s.audit, s.call).rows)
  {
    FlipsKeepScopes(db.rows, Key(s.call.kind, s.call.id), s.call.Reactivate?, []);
  }

  lemma CreateKeepsScopes(db: Db, s: Step)
    requires s.call.Create?
    ensures ScopesKept(db.rows, Commit(db, s.writes, s.audit, s.call).rows)
  {}

  lemma UpdateKeepsScopes(db: Db, s: Step)
    requires Callable(db.rows, s.call) && s.call.Update?
    ensures ScopesKept(db.rows, Commit(db, s.writes, s.audit, s.call).rows)
  {
    if Do(db, s.writes, s.audit, s.call).Ok? {
      UpdateSaves(db, s.writes, s.audit, s.call.kind, s.call.id, s.call.instance, s.call.data, s.call.seen);
      SavedScope(db.rows, s.call.kind, s.call.id, s.call.instance, s.call.data);
    }
  }

  lemma DeactivateTagKeepsScopes(db: Db, s: Step)
    requires Callable(db.rows, s.call) && s.call.DeactivateTag?
    ensures ScopesKept(db.rows, Commit(db, s.writes, s.audit, s.call).rows)
  {
    FlipsKeepScopes(db.rows, Key(TagKind, s.call.id), false, s.call.cascade);
  }

  lemma CommitKeepsScopes(db: Db, s: Step)
    requires Callable(db.rows, s.call)
    ensures ScopesKept(db.rows, Commit(db, s.writes, s.audit, s.call).rows)
  {
    match s.call
    case Create(_, _, _, _) => CreateKeepsScopes(db, s);
    case Update(_, _, _, _, _) => UpdateKeepsScopes(db, s);
    case Reactivate(_, _, _, _) => FlipCallsKeepScopes(db, s);
    case Deactivate(_, _, _) => FlipCallsKeepScopes(db, s);
    case DeactivateTag(_, _, _) => DeactivateTagKeepsScopes(db, s);
  }

  /** No run of calls moves a row to another application or namespace. */
  lemma {:induction false} ScopeIsImmutable(db: Db, steps: seq<Step>)
    requires CallableRun(db, steps)
    ensures ScopesKept(db.rows, Run(db, steps).rows)
    decreases |steps|
  {
    if steps != [] {
      CallablePrefix(db, steps);
      ScopeIsImmutable(db, steps[..|steps| - 1]);
      CommitKeepsScopes(Run(db, steps[..|steps| - 1]), steps[|steps| - 1]);
    }
  }

  /** So an instance stays usable for as long as its caller keeps it. */
  lemma LoadedForever(db: Db, steps: seq<Step>, kind: Kind, id: nat, instance: Row)
    requires CallableRun(db, steps) && Loaded(db.rows, kind, id, instance)
    ensures Loaded(Run(db, steps).rows, kind, id, instance)
  {
    ScopeIsImmutable(db, steps);
  }

  // ----- Events carry the scope of what they describe

  ghost predicate InScope(rows: map<Key, Row>, e: Event) {
    e.key in rows && SameScope(e.scope, rows[e.key])
  }

  ghost predicate EventsInScope(db: Db) {
    forall i :: 0 <= i < |db.outbox| ==> InScope(db.rows, db.outbox[i])
  }

  lemma ScopeOfEvent(row: Row)
    ensures SameScope(EventScope(row), row)
  {}

  /** Rows keep their scopes and the new events are in scope, so all events are. */
  lemma AppendedInScope(db: Db, rows: map<Key, Row>, events: seq<Event>)
    requires EventsInScope(db) && ScopesKept(db.rows, rows)
    requires forall i :: 0 <= i < |events| ==> InScope(rows, events[i])
    ensures EventsInScope(Db(rows, db.outbox + events))
  {
    forall i | 0 <= i < |db.outbox| ensures InScope(rows, db.outbox[i]) {
      assert InScope(db.rows, db.outbox[i]);
    }
  }

  lemma WriteInScope(db: Db, audit: bool, key: Key, row: Row, payload: Payload)
    requires EventsInScope(db) && (key in db.rows ==> SameScope(db.rows[key], row))
    ensures EventsInScope(Write(db, audit, key, row, payload))
  {
    ScopeOfEvent(row);
    AppendedInScope(db, db.rows[key := row], Logged(audit, [Event(key, EventScope(row), payload)]));
  }

  lemma FlipInScope(db: Db, audit: bool, key: Key, on: bool, payload: Payload)
    requires EventsInScope(db) && key in db.rows
    ensures EventsInScope(Write(db, audit, key, Flip(db.rows[key], on), payload))
  {
    FlipsKeepScopes(db.rows, key, on, []);
    WriteInScope(db, audit, key, Flip(db.rows[key], on), payload);
  }

  lemma CascadeInScope(tagged: Db, rows: map<Key, Row>, audit: bool, cascade: seq<nat>, source: nat)
    requires EventsInScope(tagged) && ScopesKept(rows, tagged.rows)
    requires forall a :: a in cascade ==> Key(AliasKind, a) in rows
    ensures EventsInScope(Db(FlipAliases(tagged.rows, cascade),
                             tagged.outbox + Logged(audit, AliasEvents(rows, cascade, source))))
  {
    var next, events := FlipAliases(tagged.rows, cascade), AliasEvents(rows, cascade, source);
    assert ScopesKept(tagged.rows, next);
    forall i | 0 <= i < |events| ensures InScope(next, events[i]) {
      ScopeOfEvent(rows[events[i].key]);
    }
    AppendedInScope(tagged, next, Logged(audit, events));
  }

  lemma DeactivateTagInScope(db: Db, s: Step)
    requires EventsInScope(db) && Callable(db.rows, s.call) && s.call.DeactivateTag?
    ensures EventsInScope(Commit(db, s.writes, s.audit, s.call))
  {
    var key, cascade := Key(TagKind, s.call.id), s.call.cascade;
    var payload := Deactivation(cascade, None);
    FlipInScope(db, s.audit, key, false, payload);
    FlipsKeepScopes(db.rows, key, false, []);
    CascadeInScope(Write(db, s.audit, key, Flip(db.rows[key], false), payload), db.rows, s.audit, cascade, s.call.id);
  }

  lemma UpdateInScope(db: Db, s: Step)
    requires EventsInScope(db) && Callable(db.rows, s.call) && s.call.Update?
    ensures EventsInScope(Commit(db, s.writes, s.audit, s.call))
  {
    if Do(db, s.writes, s.audit, s.call).Ok? {
      UpdateSaves(db, s.writes, s.audit, s.call.kind, s.call.id, s.call.instance, s.call.data, s.call.seen);
      SavedScope(db.rows, s.call.kind, s.call.id, s.call.instance, s.call.data);
      WriteInScope(db, s.audit, Key(s.call.kind, s.call.id), s.call.instance + s.call.data,
                   Updated(Before(s.call.instance, s.call.data), After(s.call.instance, s.call.data)));
    }
  }

  lemma CreateInScope(db: Db, s: Step)
    requires EventsInScope(db) && s.call.Create?
    ensures EventsInScope(Commit(db, s.writes, s.audit, s.call))
  {
    var row := NewRow(s.call.kind, s.call.data);
    if Key(s.call.kind, s.call.id) !in db.rows {
      WriteInScope(db, s.audit, Key(s.call.kind, s.call.id), row, Created(Snapshot(row)));
    }
  }

  lemma FlipCallsInScope(db: Db, s: Step)
    requires EventsInScope(db) && Callable(db.rows, s.call)
    requires s.call.Reactivate? || s.call.Deactivate?
    ensures EventsInScope(Commit(db, s.writes, s.audit, s.call))
  {
    var key := Key(s.call.kind, s.call.id);
    if s.call.Reactivate? {
      FlipInScope(db, s.audit, key, true, REACTIVATED);
    } else {
      FlipInScope(db, s.audit, key, false, Deactivation([], None));
    }
  }

  lemma CommitInScope(db: Db, s: Step)
    requires EventsInScope(db) && Callable(db.rows, s.call)
    ensures EventsInScope(Commit(db, s.writes, s.audit, s.call))
  {
    if s.call.Update? {
      UpdateInScope(db, s);
    } else if s.call.DeactivateTag? {
      DeactivateTagInScope(db, s);
    } else if s.call.Create? {
      CreateInScope(db, s);
    } else {
      FlipCallsInScope(db, s);
    }
  }

  /** After any run every event, cascaded ones included, carries the application and namespace of
      the row it describes, which are still that row's. */
  lemma {:induction false} EventsCarryScope(steps: seq<Step>)
    requires CallableRun(EMPTY, steps)
    ensures EventsInScope(Run(EMPTY, steps))
    decreases |steps|
  {
    if steps != [] {
      CallablePrefix(EMPTY, steps);
      EventsCarryScope(steps[..|steps| - 1]);
      CommitInScope(Run(EMPTY, steps[..|steps| - 1]), steps[|steps| - 1]);
    }
  }

  // ----- The write kill-switch

  function Namespaced(rows: map<Key, Row>): map<Key, Row> {
    map k | k in rows && !Ns(rows[k]).IsGlobal() :: rows[k]
  }

  lemma GlobalWrite(rows: map<Key, Row>, key: Key, row: Row)
    requires Ns(row).IsGlobal() && (key in rows ==> Ns(rows[key]).IsGlobal())
    ensures Namespaced(rows[key := row]) == Namespaced(rows)
  {}

  lemma OffUpdate(db: Db, audit: bool, kind: Kind, id: nat, instance: Row, data: Row, seen: map<Key, Row>)
    requires Callable(db.rows, Update(kind, id, instance, data, seen))
    requires DoUpdate(db, false, audit, kind, id, instance, data, seen).Ok?
    ensures Namespaced(DoUpdate(db, false, audit, kind, id, instance, data, seen).value.rows)
            == Namespaced(db.rows)
  {
    SavedScope(db.rows, kind, id, instance, data);
    GlobalWrite(db.rows, Key(kind, id), instance + data);
  }

  lemma OffFlip(db: Db, key: Key, on: bool, instance: Row)
    requires Loaded(db.rows, key.kind, key.id, instance) && Ns(instance).IsGlobal()
    ensures Namespaced(db.rows[key := Flip(db.rows[key], on)]) == Namespaced(db.rows)
  {}

  lemma OffCascade(rows: map<Key, Row>, cascade: seq<nat>)
    requires forall a :: a in cascade && Key(AliasKind, a) in rows ==> Ns(rows[Key(AliasKind, a)]).IsGlobal()
    ensures Namespaced(FlipAliases(rows, cascade)) == Namespaced(rows)
  {}

  lemma OffDeactivateTag(db: Db, audit: bool, id: nat, instance: Row, cascade: seq<nat>)
    requires Callable(db.rows, DeactivateTag(id, instance, cascade))
    requires DoDeactivateTag(db, false, audit, id, instance, cascade).Ok?
    ensures Namespaced(DoDeactivateTag(db, false, audit, id, instance, cascade).value.rows) == Namespaced(db.rows)
  {
    var key := Key(TagKind, id);
    OffFlip(db, key, false, instance);
    if IsActive(db.rows[key]) {
      OffCascade(db.rows[key := Flip(db.rows[key], false)], cascade);
    }
  }

  lemma OffFlipCalls(db: Db, audit: bool, c: Call)
    requires Callable(db.rows, c) && (c.Reactivate? || c.Deactivate?)
    ensures Namespaced(Commit(db, false, audit, c).rows) == Namespaced(db.rows)
  {
    if Do(db, false, audit, c).Ok? {
      OffFlip(db, Key(c.kind, c.id), c.Reactivate?, c.instance);
    }
  }

  lemma OffCreate(db: Db, audit: bool, c: Call)
    requires c.Create?
    ensures Namespaced(Commit(db, false, audit, c).rows) == Namespaced(db.rows)
  {
    if Do(db, false, audit, c).Ok? {
      GlobalWrite(db.rows, Key(c.kind, c.id), NewRow(c.kind, c.data));
    }
  }

  /** With writes off no call changes a namespaced row, not even through the cascade of a global
      tag. */
  lemma SwitchOffCommit(db: Db, audit: bool, c: Call)
    requires Callable(db.rows, c)
    ensures Namespaced(Commit(db, false, audit, c).rows) == Namespaced(db.rows)
  {
    if c.Create? {
      OffCreate(db, audit, c);
    } else if c.Reactivate? || c.Deactivate? {
      OffFlipCalls(db, audit, c);
    } else if Do(db, false, audit, c).Ok? {
      match c
      case Update(kind, id, instance, data, seen) => OffUpdate(db, audit, kind, id, instance, data, seen);
      case DeactivateTag(id, instance, cascade) => OffDeactivateTag(db, audit, id, instance, cascade);
    }
  }

  lemma {:induction false} SwitchOffFreezesRows(db: Db, steps: seq<Step>)
    requires CallableRun(db, steps) && forall n :: 0 <= n < |steps| ==> !steps[n].writes
    ensures Namespaced(Run(db, steps).rows) == Namespaced(db.rows)
    decreases |steps|
  {
    if steps != [] {
      CallablePrefix(db, steps);
      SwitchOffFreezesRows(db, steps[..|steps| - 1]);
      var last := steps[|steps| - 1];
      SwitchOffCommit(Run(db, steps[..|steps| - 1]), last.audit, last.call);
    }
  }

  // ----- References stay in scope

  ghost predicate RowCloses(rows: map<Key, Row>, row: Row) {
    forall f :: f in REFERENCES && Get(row, f).Ref? ==>
      Key(Target(f), Get(row, f).id) in rows && Compatible(row, rows[Key(Target(f), Get(row, f).id)])
  }

  /** Every parent, vocabulary and canonical tag is within reach of the row that refers to it. */
  ghost predicate Closed(rows: map<Key, Row>) {
    forall k :: k in rows ==> RowCloses(rows, rows[k])
  }

  ghost predicate Home(rows: map<Key, Row>, k: Key, row: Row) {
    k in rows && Get(row, Tenant) == Get(rows[k], Tenant)
  }

  /** The call saves no row under another tenant, and the rows it was given are in theirs. */
  ghost predicate KeepsTenant(rows: map<Key, Row>, c: Call) {
    && !EditsTenant(c)
    && (c.Update? ==> Home(rows, Key(c.kind, c.id), c.instance))
    && (c.Create? || c.Update? ==> forall k :: k in c.seen ==> Home(rows, k, c.seen[k]))
  }

  predicate EditsTenant(c: Call) {
    c.Update? && Get(c.instance + c.data, Tenant) != Get(c.instance, Tenant)
  }

  /** Compatibility reads nothing but the tenant and the scope columns. */
  ghost predicate SameReach(a: Row, b: Row) {
    SameScope(a, b) && Get(a, Tenant) == Get(b, Tenant)
  }

  lemma WriteKeepsClosed(rows: map<Key, Row>, key: Key, row: Row)
    requires Closed(rows) && RowCloses(rows, row) && (key in rows ==> SameReach(rows[key], row))
    ensures Closed(rows[key := row])
  {}

  lemma CheckedReferencesClose(rows: map<Key, Row>, seen: map<Key, Row>, kind: Kind, row: Row,
                               newVocabulary: bool)
    requires IsRow(kind, row) && CheckReferences(seen, kind, row, newVocabulary).None?
    requires forall k :: k in seen ==> k in rows && SameReach(seen[k], rows[k])
    ensures RowCloses(rows, row)
  {
    forall f | f in REFERENCES && Get(row, f).Ref?
      ensures Key(Target(f), Get(row, f).id) in rows
      ensures Compatible(row, rows[Key(Target(f), Get(row, f).id)])
    {
      assert f in Columns(kind);
      CheckedReferenceCloses(rows, seen, row, f, if f == Vocabulary then newVocabulary else f == Canonical);
    }
  }

  lemma CheckedReferenceCloses(rows: map<Key, Row>, seen: map<Key, Row>, row: Row, f: Field, requireActive: bool)
    requires Get(row, f).Ref? && CheckReference(seen, row, f, requireActive).None?
    requires forall k :: k in seen ==> k in rows && SameReach(seen[k], rows[k])
    ensures Key(Target(f), Get(row, f).id) in rows
    ensures Compatible(row, rows[Key(Target(f), Get(row, f).id)])
  {}

  /** Rows loaded from the store, in their tenants, reach what the stored rows reach. */
  lemma CopiesReach(rows: map<Key, Row>, seen: map<Key, Row>)
    requires Copies(rows, seen) && forall k :: k in seen ==> Home(rows, k, seen[k])
    ensures forall k :: k in seen ==> k in rows && SameReach(seen[k], rows[k])
  {
    forall k | k in seen ensures k in rows && SameReach(seen[k], rows[k]) {
      assert Loaded(rows, k.kind, k.id, seen[k]) && Home(rows, k, seen[k]) && Key(k.kind, k.id) == k;
    }
  }

  lemma CreateCloses(db: Db, s: Step)
    requires s.call.Create? && Inv(db.rows) && Closed(db.rows)
    requires Callable(db.rows, s.call) && KeepsTenant(db.rows, s.call)
    ensures Closed(Commit(db, s.writes, s.audit, s.call).rows)
  {
    var kind, row := s.call.kind, NewRow(s.call.kind, s.call.data);
    if Do(db, s.writes, s.audit, s.call).Ok? {
      NewRowIsRow(kind, s.call.data);
      CopiesReach(db.rows, s.call.seen);
      CheckedReferencesClose(db.rows, if kind == AliasKind then db.rows else s.call.seen, kind, row, true);
      WriteKeepsClosed(db.rows, Key(kind, s.call.id), row);
    }
  }

  lemma UpdateCloses(db: Db, writes: bool, audit: bool, kind: Kind, id: nat, instance: Row, data: Row,
                     seen: map<Key, Row>)
    requires Closed(db.rows) && Callable(db.rows, Update(kind, id, instance, data, seen))
    requires KeepsTenant(db.rows, Update(kind, id, instance, data, seen))
    requires DoUpdate(db, writes, audit, kind, id, instance, data, seen).Ok?
    ensures Closed(DoUpdate(db, writes, audit, kind, id, instance, data, seen).value.rows)
  {
    var row := instance + data;
    SavedScope(db.rows, kind, id, instance, data);
    assert row[Tenant := Get(instance, Tenant)] == row;
    CopiesReach(db.rows, seen);
    CheckedReferencesClose(db.rows, seen, kind, row, Get(row, Vocabulary) != Get(instance, Vocabulary));
    WriteKeepsClosed(db.rows, Key(kind, id), row);
  }

  lemma FlipCloses(rows: map<Key, Row>, key: Key, on: bool)
    requires Closed(rows) && key in rows
    ensures Closed(rows[key := Flip(rows[key], on)])
  {}

  /** The same references with the same reach. */
  ghost predicate Alike(a: Row, b: Row) {
    SameReach(a, b) && forall f :: f in REFERENCES ==> Get(a, f) == Get(b, f)
  }

  lemma FlipIsAlike(row: Row, on: bool)
    ensures Alike(row, row) && Alike(row, Flip(row, on))
  {}

  lemma AlikeCloses(rows: map<Key, Row>, after: map<Key, Row>, k: Key)
    requires after.Keys == rows.Keys && k in rows && RowCloses(rows, rows[k])
    requires forall j :: j in rows ==> Alike(rows[j], after[j])
    ensures RowCloses(after, after[k])
  {}

  lemma CascadeCloses(rows: map<Key, Row>, cascade: seq<nat>)
    requires Closed(rows)
    ensures Closed(FlipAliases(rows, cascade))
  {
    var after := FlipAliases(rows, cascade);
    forall j | j in rows ensures Alike(rows[j], after[j]) {
      FlipIsAlike(rows[j], false);
    }
    forall k | k in after ensures RowCloses(after, after[k]) {
      AlikeCloses(rows, after, k);
    }
  }

  lemma FlipCallsClose(db: Db, s: Step)
    requires Closed(db.rows)
    requires (s.call.Reactivate? || s.call.Deactivate?) && Key(s.call.kind, s.call.id) in db.rows
    ensures Closed(Commit(db, s.writes, s.audit, s.call).rows)
  {
    FlipCloses(db.rows, Key(s.call.kind, s.call.id), s.call.Reactivate?);
  }

  lemma DeactivateTagCloses(db: Db, s: Step)
    requires Closed(db.rows) && Callable(db.rows, s.call) && s.call.DeactivateTag?
    ensures Closed(Commit(db, s.writes, s.audit, s.call).rows)
  {
    var key := Key(TagKind, s.call.id);
    FlipCloses(db.rows, key, false);
    CascadeCloses(db.rows[key := Flip(db.rows[key], false)], s.call.cascade);
  }

  /** Every call that edits no tenant keeps references inside their scope. */
  lemma CommitKeepsClosed(db: Db, s: Step)
    requires Inv(db.rows) && Closed(db.rows)
    requires Callable(db.rows, s.call) && KeepsTenant(db.rows, s.call)
    ensures Closed(Commit(db, s.writes, s.audit, s.call).rows)
  {
    if s.call.Create? {
      CreateCloses(db, s);
    } else if s.call.DeactivateTag? {
      DeactivateTagCloses(db, s);
    } else if s.call.Update? {
      if Do(db, s.writes, s.audit, s.call).Ok? {
        UpdateCloses(db, s.writes, s.audit, s.call.kind, s.call.id, s.call.instance, s.call.data, s.call.seen);
      }
    } else {
      FlipCallsClose(db, s);
    }
  }

  lemma UpdateKeepsTenants(db: Db, s: Step, k: Key)
    requires Callable(db.rows, s.call) && KeepsTenant(db.rows, s.call) && k in db.rows && s.call.Update?
    ensures Home(Commit(db, s.writes, s.audit, s.call).rows, k, db.rows[k])
  {
    if Do(db, s.writes, s.audit, s.call).Ok? {
      UpdateSaves(db, s.writes, s.audit, s.call.kind, s.call.id, s.call.instance, s.call.data, s.call.seen);
    }
  }

  lemma FlipsKeepTenants(rows: map<Key, Row>, key: Key, on: bool, cascade: seq<nat>, k: Key)
    requires key in rows && k in rows
    ensures Home(rows[key := Flip(rows[key], on)], k, rows[k])
    ensures Home(FlipAliases(rows[key := Flip(rows[key], on)], cascade), k, rows[k])
  {}

  lemma FlipCallsKeepTenants(db: Db, s: Step, k: Key)
    requires Callable(db.rows, s.call) && k in db.rows && (s.call.Reactivate? || s.call.Deactivate?)
    ensures Home(Commit(db, s.writes, s.audit, s.call).rows, k, db.rows[k])
  {
    FlipsKeepTenants(db.rows, Key(s.call.kind, s.call.id), s.call.Reactivate?, [], k);
  }

  lemma DeactivateTagKeepsTenants(db: Db, s: Step, k: Key)
    requires Callable(db.rows, s.call) && k in db.rows && s.call.DeactivateTag?
    ensures Home(Commit(db, s.writes, s.audit, s.call).rows, k, db.rows[k])
  {
    FlipsKeepTenants(db.rows, Key(TagKind, s.call.id), false, s.call.cascade, k);
  }

  lemma CreateKeepsTenants(db: Db, s: Step, k: Key)
    requires k in db.rows && s.call.Create?
    ensures Home(Commit(db, s.writes, s.audit, s.call).rows, k, db.rows[k])
  {}

  lemma CommitKeepsTenants(db: Db, s: Step, k: Key)
    requires Callable(db.rows, s.call) && KeepsTenant(db.rows, s.call) && k in db.rows
    ensures Home(Commit(db, s.writes, s.audit, s.call).rows, k, db.rows[k])
  {
    if s.call.Update? {
      UpdateKeepsTenants(db, s, k);
    } else if s.call.DeactivateTag? {
      DeactivateTagKeepsTenants(db, s, k);
    } else if s.call.Create? {
      CreateKeepsTenants(db, s, k);
    } else {
      FlipCallsKeepTenants(db, s, k);
    }
  }

  /** A row as it stood, tenant and all, at some point of the run. */
  ghost predicate WasHome(steps: seq<Step>, k: Key, row: Row) {
    exists m :: 0 <= m <= |steps| && Home(Run(EMPTY, steps[..m]).rows, k, row)
  }

  /** The instance and the copies a call was given were loaded in the course of the run. */
  ghost predicate LoadedDuring(steps: seq<Step>, c: Call) {
    && (c.Update? ==> WasHome(steps, Key(c.kind, c.id), c.instance))
    && (c.Create? || c.Update? ==> forall k :: k in c.seen ==> WasHome(steps, k, c.seen[k]))
  }

  /** A run from an empty store in which no call edits a tenant. */
  ghost predicate EditsNoTenant(steps: seq<Step>)
    decreases |steps|
  {
    steps == []
    || (var init, last := steps[..|steps| - 1], steps[|steps| - 1];
        && EditsNoTenant(init)
        && Callable(Run(EMPTY, init).rows, last.call) && LoadedDuring(init, last.call)
        && !EditsTenant(last.call))
  }

  /** In such a run every row keeps its tenant. */
  ghost predicate TenantsConstant(steps: seq<Step>) {
    forall m, k :: 0 <= m <= |steps| && k in Run(EMPTY, steps[..m]).rows ==>
      Home(Run(EMPTY, steps).rows, k, Run(EMPTY, steps[..m]).rows[k])
  }

  lemma StillHome(steps: seq<Step>, k: Key, row: Row)
    requires TenantsConstant(steps) && WasHome(steps, k, row)
    ensures Home(Run(EMPTY, steps).rows, k, row)
  {
    var m :| 0 <= m <= |steps| && Home(Run(EMPTY, steps[..m]).rows, k, row);
    assert k in Run(EMPTY, steps[..m]).rows;
  }

  lemma LoadedKeepsTenant(steps: seq<Step>, c: Call)
    requires TenantsConstant(steps) && LoadedDuring(steps, c) && !EditsTenant(c)
    ensures KeepsTenant(Run(EMPTY, steps).rows, c)
  {
    if c.Update? { StillHome(steps, Key(c.kind, c.id), c.instance); }
    if c.Create? || c.Update? {
      forall k | k in c.seen ensures Home(Run(EMPTY, steps).rows, k, c.seen[k]) {
        StillHome(steps, k, c.seen[k]);
      }
    }
  }

  lemma NextConstant(steps: seq<Step>)
    requires steps != [] && TenantsConstant(steps[..|steps| - 1])
    requires var init, last := steps[..|steps| - 1], steps[|steps| - 1];
             Callable(Run(EMPTY, init).rows, last.call) && KeepsTenant(Run(EMPTY, init).rows, last.call)
    ensures TenantsConstant(steps)
  {
    var init, last := steps[..|steps| - 1], steps[|steps| - 1];
    var before, after := Run(EMPTY, init), Run(EMPTY, steps);
    forall m, k | 0 <= m <= |steps| && k in Run(EMPTY, steps[..m]).rows
      ensures Home(after.rows, k, Run(EMPTY, steps[..m]).rows[k])
    {
      if m < |steps| {
        assert steps[..m] == init[..m];
        assert Home(before.rows, k, Run(EMPTY, init[..m]).rows[k]);
        CommitKeepsTenants(before, last, k);
      } else {
        assert steps[..m] == steps;
      }
    }
  }

  /** In every state reachable without editing a tenant, every reference is within reach. */
  lemma {:induction false} RunStaysClosed(steps: seq<Step>)
    requires EditsNoTenant(steps)
    ensures Inv(Run(EMPTY, steps).rows) && Closed(Run(EMPTY, steps).rows) && TenantsConstant(steps)
    decreases |steps|
  {
    if steps != [] {
      var init, last := steps[..|steps| - 1], steps[|steps| - 1];
      RunStaysClosed(init);
      LoadedKeepsTenant(init, last.call);
      CommitKeepsInv(Run(EMPTY, init), last);
      CommitKeepsClosed(Run(EMPTY, init), last);
      NextConstant(steps);
    }
  }

  // ----- Parent chains

  /** The tag some number of parent links up, if the chain is that long. */
  function Ancestor(rows: map<Key, Row>, id: nat, links: nat): Option<nat> {
    if links == 0 then Some(id)
    else
      var below := Ancestor(rows, id, links - 1);
      if below.None? || Key(TagKind, below.value) !in rows then None
      else
        var v := Get(rows[Key(TagKind, below.value)], Parent);
        if v.Ref? then Some(v.id) else None
  }

  /** Both tags exist, and the second is within reach of the first. */
  ghost predicate Above(rows: map<Key, Row>, id: nat, up: nat) {
    Key(TagKind, id) in rows && Key(TagKind, up) in rows
    && Compatible(rows[Key(TagKind, id)], rows[Key(TagKind, up)])
  }

  lemma TagIsAboveItself(rows: map<Key, Row>, id: nat)
    requires AllSound(rows) && Key(TagKind, id) in rows
    ensures Above(rows, id, id)
  {}

  lemma ParentIsAbove(rows: map<Key, Row>, id: nat, below: nat)
    requires Closed(rows) && Above(rows, id, below) && Get(rows[Key(TagKind, below)], Parent).Ref?
    ensures Above(rows, id, Get(rows[Key(TagKind, below)], Parent).id)
  {}

  lemma {:induction false} AncestorIsAbove(rows: map<Key, Row>, id: nat, links: nat)
    requires AllSound(rows) && Closed(rows) && Key(TagKind, id) in rows
    ensures Ancestor(rows, id, links).Some? ==> Above(rows, id, Ancestor(rows, id, links).value)
    decreases links
  {
    if links == 0 {
      TagIsAboveItself(rows, id);
    } else {
      AncestorIsAbove(rows, id, links - 1);
      if Ancestor(rows, id, links).Some? {
        ParentIsAbove(rows, id, Ancestor(rows, id, links - 1).value);
      }
    }
  }

  /** In every state reachable without editing a tenant, following parents any number of links from a
      tag stays in its tenant, in its application or shared, and in its namespace or global. Cycles
      make no difference. */
  lemma AncestorsStayInScope(steps: seq<Step>, id: nat, links: nat)
    requires EditsNoTenant(steps) && Key(TagKind, id) in Run(EMPTY, steps).rows
    ensures var rows := Run(EMPTY, steps).rows;
            Ancestor(rows, id, links).Some? ==> Above(rows, id, Ancestor(rows, id, links).value)
  {
    RunStaysClosed(steps);
    AncestorIsAbove(Run(EMPTY, steps).rows, id, links);
  }

  // ----- Tenant edits

  ghost predicate Refers(row: Row) {
    exists f :: f in REFERENCES && Get(row, f).Ref?
  }

  ghost predicate PointsAt(rows: map<Key, Row>, child: Key, f: Field, key: Key) {
    child in rows && f in REFERENCES && Target(f) == key.kind && Get(rows[child], f) == Ref(key.id)
  }

  ghost predicate ReferredTo(rows: map<Key, Row>, key: Key) {
    exists child, f :: child != key && PointsAt(rows, child, f, key)
  }

  lemma MovedRowBreaks(rows: map<Key, Row>, key: Key, child: Key, f: Field, row: Row)
    requires Closed(rows) && key in rows && child != key && PointsAt(rows, child, f, key)
    requires Get(row, Tenant) != Get(rows[key], Tenant)
    ensures !Closed(rows[key := row])
  {
    var next := rows[key := row];
    assert Key(Target(f), Get(rows[child], f).id) == key;
    assert RowCloses(rows, rows[child]);
    assert !Compatible(next[child], row);
    assert !RowCloses(next, next[child]);
  }

  /** A row that refers to nothing, and to which nothing refers, may move freely. */
  lemma LoneRowMoves(rows: map<Key, Row>, key: Key, row: Row)
    requires Closed(rows) && !Refers(row) && !ReferredTo(rows, key)
    ensures Closed(rows[key := row])
  {
    var next := rows[key := row];
    forall k | k in next ensures RowCloses(next, next[k]) {
      if k != key {
        assert RowCloses(rows, rows[k]);
        forall f | f in REFERENCES && Get(rows[k], f).Ref? ensures Key(Target(f), Get(rows[k], f).id) != key {
          assert !PointsAt(rows, k, f, key);
        }
      }
    }
  }

  /** A reference checked under the old tenant is out of the new one's reach. */
  lemma CheckedUnderOldTenant(rows: map<Key, Row>, seen: map<Key, Row>, kind: Kind, row: Row, former: Value,
                              newVocabulary: bool, f: Field)
    requires IsRow(kind, row) && f in REFERENCES && Get(row, f).Ref? && former != Get(row, Tenant)
    requires CheckReferences(seen, kind, row[Tenant := former], newVocabulary).None?
    requires forall k :: k in seen ==> Home(rows, k, seen[k])
    ensures var k := Key(Target(f), Get(row, f).id);
            k in rows && Get(rows[k], Tenant) == former && !Compatible(row, rows[k])
  {
    var checked := row[Tenant := former];
    assert f in Columns(kind) && Get(checked, f) == Get(row, f);
    assert Referenced(seen, checked, f).Some?;
  }

  lemma MovedReferrerBreaks(rows: map<Key, Row>, key: Key, row: Row, f: Field)
    requires f in REFERENCES && Get(row, f).Ref?
    requires var k := Key(Target(f), Get(row, f).id);
             k != key && k in rows && !Compatible(row, rows[k])
    ensures !Closed(rows[key := row])
  {
    var next := rows[key := row];
    assert next[key] == row && !RowCloses(next, row);
  }

  /** An update checks a row's own references under its old tenant, and nothing that refers to the
      row. A successful update of a freshly loaded row keeps references in scope exactly when it
      leaves the tenant alone, or the row refers to nothing and nothing refers to it. */
  lemma TenantEditBreaksReferences(db: Db, writes: bool, audit: bool, key: Key, data: Row, seen: map<Key, Row>)
    requires Inv(db.rows) && Closed(db.rows) && key in db.rows
    requires Callable(db.rows, Update(key.kind, key.id, db.rows[key], data, seen))
    requires forall k :: k in seen ==> Home(db.rows, k, seen[k])
    requires DoUpdate(db, writes, audit, key.kind, key.id, db.rows[key], data, seen).Ok?
    ensures Closed(DoUpdate(db, writes, audit, key.kind, key.id, db.rows[key], data, seen).value.rows)
            <==> || (Tenant in data ==> data[Tenant] == Get(db.rows[key], Tenant))
                 || (!Refers(db.rows[key] + data) && !ReferredTo(db.rows, key))
  {
    var instance := db.rows[key];
    assert Key(key.kind, key.id) == key;
    UpdateSaves(db, writes, audit, key.kind, key.id, instance, data, seen);
    if Tenant in data && data[Tenant] != Get(instance, Tenant) {
      assert Tenant in After(instance, data);
      UpdatePassedChecks(db, writes, audit, key.kind, key.id, instance, data, seen);
      SavedScope(db.rows, key.kind, key.id, instance, data);
      MovedRow(db.rows, seen, key, instance + data, Get(instance + data, Vocabulary) != Get(instance, Vocabulary));
    } else {
      assert Get(instance + data, Tenant) == Get(instance, Tenant);
      UpdateCloses(db, writes, audit, key.kind, key.id, instance, data, seen);
    }
  }

  lemma UpdatePassedChecks(db: Db, writes: bool, audit: bool, kind: Kind, id: nat, instance: Row, data: Row,
                           seen: map<Key, Row>)
    requires DoUpdate(db, writes, audit, kind, id, instance, data, seen).Ok? && After(instance, data) != map[]
    ensures !ChangesScope(instance, data) && Checked(Key(kind, id), instance + data)
    ensures CheckReferences(seen, kind, (instance + data)[Tenant := Get(instance, Tenant)],
                            Get(instance + data, Vocabulary) != Get(instance, Vocabulary)).None?
  {}

  lemma MovedRow(rows: map<Key, Row>, seen: map<Key, Row>, key: Key, row: Row, newVocabulary: bool)
    requires Closed(rows) && key in rows && IsRow(key.kind, row) && Checked(key, row)
    requires forall k :: k in seen ==> Home(rows, k, seen[k])
    requires Get(row, Tenant) != Get(rows[key], Tenant)
    requires CheckReferences(seen, key.kind, row[Tenant := Get(rows[key], Tenant)], newVocabulary).None?
    ensures Closed(rows[key := row]) <==> !Refers(row) && !ReferredTo(rows, key)
  {
    if f :| f in REFERENCES && Get(row, f).Ref? {
      CheckedUnderOldTenant(rows, seen, key.kind, row, Get(rows[key], Tenant), newVocabulary, f);
      NotItself(key, row, f);
      MovedReferrerBreaks(rows, key, row, f);
    } else if child, f :| child != key && PointsAt(rows, child, f, key) {
      MovedRowBreaks(rows, key, child, f, row);
    } else {
      LoneRowMoves(rows, key, row);
    }
  }

  /** No row refers to itself. */
  lemma NotItself(key: Key, row: Row, f: Field)
    requires IsRow(key.kind, row) && Checked(key, row) && f in REFERENCES && Get(row, f).Ref?
    ensures Key(Target(f), Get(row, f).id) != key
  {
    assert f in Columns(key.kind);
  }

  /** The canonical tag passes the check under one tenant exactly when it is in that tenant, if it is
      active and within reach. */
  ghost predicate Reachable(rows: map<Key, Row>, row: Row) {
    var tag := Referenced(rows, row, Canonical);
    && tag.Some? && IsActive(tag.value)
    && ApplicationReaches(App(row), App(tag.value)) && MatchesScope(Ns(tag.value), Ns(row), true)
  }

  ghost function TagTenant(rows: map<Key, Row>, row: Row): Value
    requires Referenced(rows, row, Canonical).Some?
  {
    Get(Referenced(rows, row, Canonical).value, Tenant)
  }

  lemma TenantDecides(rows: map<Key, Row>, row: Row, checked: Row)
    requires Get(row, Canonical).Ref? && Reachable(rows, row)
    requires SameScope(row, checked) && Get(checked, Canonical) == Get(row, Canonical)
    ensures CheckReference(rows, checked, Canonical, true).None?
            <==> TagTenant(rows, row) == Get(checked, Tenant)
  {}

  /** An alias's tag is checked once on the caller's copy under the old tenant and once on the locked
      row under the new one. So, all else in order, the alias's tenant can be edited exactly when the
      copy still shows the tag in the old tenant and the tag has moved to the new one; in
      particular never on a copy whose tenant is current. */
  lemma AliasFollowsMovedTag(db: Db, audit: bool, id: nat, instance: Row, data: Row, seen: map<Key, Row>)
    requires Callable(db.rows, Update(AliasKind, id, instance, data, seen))
    requires Tenant in data && data[Tenant] != Get(instance, Tenant)
    requires var row := instance + data;
             && Reachable(db.rows, row) && Reachable(seen, row)
             && !ChangesScope(instance, data) && Savable(db.rows, Key(AliasKind, id), row)
    ensures var row := instance + data;
            DoUpdate(db, true, audit, AliasKind, id, instance, data, seen).Ok?
            <==> TagTenant(seen, row) == Get(instance, Tenant)
                 && TagTenant(db.rows, row) == data[Tenant]
  {
    var row := instance + data;
    assert Tenant in After(instance, data);
    assert Canonical in Columns(AliasKind) && Get(row, Canonical).Ref?;
    TenantDecides(seen, row, row[Tenant := Get(instance, Tenant)]);
    TenantDecides(db.rows, row, row);
  }
}
