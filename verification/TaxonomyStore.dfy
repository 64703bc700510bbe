/** The service methods over a store they update in place. Each commits exactly what its call means
    in the taxonomy and keeps the store's invariants, scopes, kill-switch and replay; an update
    leaves its instance changed even when the save fails. */
module TaxonomyStore {
  import opened Scopes
  import opened Taxonomy
  import opened TaxonomyInvariants
  import opened TaxonomyMeaning
  import opened TaxonomyReplay
  import opened TaxonomyScopes

  /** An in-memory row: loaded or created earlier, saved later. */
  class Instance {
    const kind: Kind
    const id: nat
    var row: Row

    constructor (kind: Kind, id: nat, row: Row)
      ensures this.kind == kind && this.id == id && this.row == row
    {
      this.kind, this.id, this.row := kind, id, row;
    }
  }

  /** The part of an update's data already gone through. */
  function Taken(data: Row, todo: set<Field>): Row {
    data - todo
  }

  lemma TakeOne(row: Row, data: Row, todo: set<Field>, f: Field)
    requires f in todo && todo <= data.Keys <= row.Keys
    ensures f !in Taken(data, todo) && Taken(data, todo - {f}) == Taken(data, todo)[f := data[f]]
    ensures Get(row + Taken(data, todo), f) == row[f]
  {}

  lemma TakeSame(row: Row, done: Row, f: Field)
    requires f in row && f !in done
    ensures row + done[f := row[f]] == row + done
    ensures After(row, done[f := row[f]]) == After(row, done)
    ensures Before(row, done[f := row[f]]) == Before(row, done)
  {}

  lemma TakeChange(row: Row, done: Row, f: Field, v: Value)
    requires f in row && f !in done && v != row[f]
    ensures row + done[f := v] == (row + done)[f := v]
    ensures After(row, done[f := v]) == After(row, done)[f := v]
    ensures Before(row, done[f := v]) == Before(row, done)[f := row[f]]
  {}

  /** What a call does to a store, and what it keeps: the constraints; every row and its scope;
      namespaced rows while writes are off; events in the scope of their rows; and, if it is logged,
      the replay, exactly when it is faithful. */
  ghost predicate Served(before: Db, after: Db, s: Step)
    requires Callable(before.rows, s.call)
  {
    && after == Commit(before, s.writes, s.audit, s.call)
    && Inv(after.rows)
    && ScopesKept(before.rows, after.rows)
    && (!s.writes ==> Namespaced(after.rows) == Namespaced(before.rows))
    && (EventsInScope(before) ==> EventsInScope(after))
    && (s.audit && Rebuilt(before) ==> (Rebuilt(after) <==> Faithful(before, s)))
  }

  /** The caller is told exactly what the call means. */
  predicate Tells<T>(r: Result<T, Error>, done: Result<Db, Error>) {
    if done.Ok? then r.Ok? else r == Err(done.error)
  }

  /** An update assigns to its instance as soon as its first checks pass, whatever becomes of the save. */
  predicate Assigns(writes: bool, kind: Kind, instance: Row, data: Row, seen: map<Key, Row>) {
    && MayWrite(writes, Ns(instance)) && !ChangesScope(instance, data)
    && CheckReferences(seen, kind, AsChecked(instance, data),
                       Get(instance + data, Vocabulary) != Get(instance, Vocabulary)).None?
  }

  lemma CommitServes(db: Db, s: Step)
    requires Inv(db.rows) && Callable(db.rows, s.call)
    ensures Served(db, Commit(db, s.writes, s.audit, s.call), s)
  {
    CommitKeepsInv(db, s);
    CommitKeepsScopes(db, s);
    if !s.writes { SwitchOffCommit(db, s.audit, s.call); }
    if EventsInScope(db) { CommitInScope(db, s); }
    if s.audit && Rebuilt(db) { StepReplays(db, s); }
  }

  lemma FlipKeepsColumns(row: Row, on: bool)
    ensures EventScope(Flip(row, on)) == EventScope(row)
  {}

  class Store {
    const writes: bool
    var rows: map<Key, Row>
    var outbox: seq<Event>

    constructor (writes: bool)
      ensures this.writes == writes && Contents() == EMPTY
      ensures Valid() && Rebuilt(Contents()) && EventsInScope(Contents())
    {
      this.writes := writes;
      rows, outbox := map[], [];
    }

    function Contents(): Db
      reads this
    {
      Db(rows, outbox)
    }

    ghost predicate Valid()
      reads this
    {
      Inv(rows)
    }

    method Save(audit: bool, key: Key, row: Row, payload: Payload)
      modifies this
      ensures Contents() == Write(old(Contents()), audit, key, row, payload)
    {
      rows := rows[key := row];
      if audit { outbox := outbox + [Event(key, EventScope(row), payload)]; }
    }

    // ----- The bodies of the service calls

    method CreateRow(kind: Kind, id: nat, data: Row, seen: map<Key, Row>, audit: bool)
      returns (r: Result<Instance, Error>)
      modifies this
      ensures Contents() == Commit(old(Contents()), writes, audit, Call.Create(kind, id, data, seen))
      ensures Tells(r, Do(old(Contents()), writes, audit, Call.Create(kind, id, data, seen)))
      ensures r.Ok? ==> fresh(r.value) && Key(kind, id) in rows && r.value.row == rows[Key(kind, id)]
    {
      var key, row := Key(kind, id), NewRow(kind, data);
      if !IsScopeContext(Ns(row)) { return Err(BadScope); }
      if !MayWrite(writes, Ns(row)) { return Err(WritesDisabled); }
      var invalid := CheckReferences(if kind == AliasKind then rows else seen, kind, row, true);
      if invalid.Some? { return Err(invalid.value); }
      if key in rows || !Savable(rows, key, row) { return Err(Conflict); }
      Save(audit, key, row, Created(Snapshot(row)));
      var instance := new Instance(kind, id, row);
      r := Ok(instance);
    }

    /** Sets every field whose value differs, noting both values. */
    method SetChanged(instance: Instance, data: Row) returns (before: Row, after: Row)
      requires data.Keys <= instance.row.Keys
      modifies instance
      ensures before == Before(old(instance.row), data) && after == After(old(instance.row), data)
      ensures instance.row == old(instance.row) + data
    {
      before, after := map[], map[];
      ghost var row := instance.row;
      var todo := data.Keys;
      while todo != {}
        invariant todo <= data.Keys
        invariant before == Before(row, Taken(data, todo)) && after == After(row, Taken(data, todo))
        invariant instance.row == row + Taken(data, todo)
        decreases |todo|
      {
        var f :| f in todo;
        TakeOne(row, data, todo, f);
        assert todo == todo - {f} + {f};
        todo := todo - {f};
        var current := Get(instance.row, f);
        if current != data[f] {
          before, after := before[f := current], after[f := data[f]];
          instance.row := instance.row[f := data[f]];
          TakeChange(row, Taken(data, todo + {f}), f, data[f]);
        } else {
          TakeSame(row, Taken(data, todo + {f}), f);
        }
      }
      assert Taken(data, {}) == data;
    }

    method SaveChanges(instance: Instance, data: Row, seen: map<Key, Row>, audit: bool)
      returns (r: Result<(), Error>)
      requires data.Keys <= instance.row.Keys
      modifies this, instance
      ensures var c := Call.Update(instance.kind, instance.id, old(instance.row), data, seen);
              && Contents() == Commit(old(Contents()), writes, audit, c)
              && Tells(r, Do(old(Contents()), writes, audit, c))
      ensures instance.row == if Assigns(writes, instance.kind, old(instance.row), data, seen)
                              then old(instance.row) + data else old(instance.row)
    {
      if !MayWrite(writes, Ns(instance.row)) { return Err(WritesDisabled); }
      if ChangesScope(instance.row, data) { return Err(ScopeImmutable); }
      var newVocabulary := Get(instance.row + data, Vocabulary) != Get(instance.row, Vocabulary);
      var invalid := CheckReferences(seen, instance.kind, AsChecked(instance.row, data), newVocabulary);
      if invalid.Some? { return Err(invalid.value); }
      r := SaveAssigned(instance, data, audit);
    }

    /** The second half of an update, once its first checks have passed. */
    method SaveAssigned(instance: Instance, data: Row, audit: bool) returns (r: Result<(), Error>)
      requires data.Keys <= instance.row.Keys
      modifies this, instance
      ensures var done := DoSave(old(Contents()), audit, instance.kind, instance.id, old(instance.row), data);
              Contents() == (if done.Ok? then done.value else old(Contents())) && Tells(r, done)
      ensures instance.row == old(instance.row) + data
    {
      var before, after := SetChanged(instance, data);
      if after == map[] { return Ok(()); }
      if instance.kind == AliasKind {
        var invalid := CheckReferences(rows, AliasKind, instance.row, true);
        if invalid.Some? { return Err(invalid.value); }
      }
      if !Savable(rows, Key(instance.kind, instance.id), instance.row) { return Err(Conflict); }
      Save(audit, Key(instance.kind, instance.id), instance.row, Updated(before, after));
      r := Ok(());
    }

    method Revive(instance: Instance, seen: map<Key, Row>, audit: bool) returns (r: Result<(), Error>)
      modifies this, instance
      ensures var c := Call.Reactivate(instance.kind, instance.id, old(instance.row), seen);
              && Contents() == Commit(old(Contents()), writes, audit, c)
              && Tells(r, Do(old(Contents()), writes, audit, c))
      ensures instance.row == if r.Ok? then Flip(old(instance.row), true) else old(instance.row)
    {
      var kind, key := instance.kind, Key(instance.kind, instance.id);
      if !MayWrite(writes, Ns(instance.row)) { return Err(WritesDisabled); }
      if key !in rows || Get(rows[key], Tenant) != Get(instance.row, Tenant) { return Err(NotFound); }
      var row := rows[key];
      if kind == AliasKind && !Lockable(rows, row, Canonical) { return Err(NotFound); }
      if !IsActive(row) {
        if kind == TagKind && !Lockable(rows, row, Vocabulary) { return Err(NotFound); }
        var invalid := CheckRevival(rows, seen, kind, row);
        if invalid.Some? { return Err(invalid.value); }
        if !Savable(rows, key, Flip(row, true)) { return Err(Conflict); }
        Save(audit, key, Flip(row, true), REACTIVATED);
      }
      instance.row := Flip(instance.row, true);
      r := Ok(());
    }

    method Retire(instance: Instance, audit: bool) returns (r: Result<bool, Error>)
      requires Key(instance.kind, instance.id) in rows
      modifies this, instance
      ensures var c := Call.Deactivate(instance.kind, instance.id, old(instance.row));
              var done := Do(old(Contents()), writes, audit, c);
              && Contents() == Commit(old(Contents()), writes, audit, c)
              && Tells(r, done) && (r.Ok? ==> r.value == old(IsActive(instance.row)))
      ensures instance.row == if r == Ok(true) then Flip(old(instance.row), false) else old(instance.row)
    {
      if !MayWrite(writes, Ns(instance.row)) { return Err(WritesDisabled); }
      if !IsActive(instance.row) { return Ok(false); }
      FlipKeepsColumns(instance.row, false);
      instance.row := Flip(instance.row, false);
      var key := Key(instance.kind, instance.id);
      rows := rows[key := Flip(rows[key], false)];
      if audit { outbox := outbox + [Event(key, EventScope(instance.row), Deactivation([], None))]; }
      r := Ok(true);
    }

    /** The listing holds the active aliases the query returns; their rows are read before the bulk
        update and the events built from what was read. The caller's instance is marked inactive
        before the cascade is guarded, so a refused cascade leaves it inactive over an active tag. */
    method RetireTag(instance: Instance, cascade: seq<nat>, audit: bool) returns (r: Result<bool, Error>)
      requires instance.kind == TagKind && Key(TagKind, instance.id) in rows
      requires Lists(rows, instance.id, Get(rows[Key(TagKind, instance.id)], Tenant), cascade)
      modifies this, instance
      ensures var c := Call.DeactivateTag(instance.id, old(instance.row), cascade);
              var done := Do(old(Contents()), writes, audit, c);
              && Contents() == Commit(old(Contents()), writes, audit, c)
              && Tells(r, done) && (r.Ok? ==> r.value == old(IsActive(rows[Key(TagKind, instance.id)])))
      ensures instance.row == if MayWrite(writes, Ns(old(instance.row))) then Flip(old(instance.row), false)
                              else old(instance.row)
    {
      var key := Key(TagKind, instance.id);
      if !MayWrite(writes, Ns(instance.row)) { return Err(WritesDisabled); }
      instance.row := Flip(instance.row, false);
      if !IsActive(rows[key]) { return Ok(false); }
      var allowed := GuardCascade(cascade);
      if !allowed { return Err(WritesDisabled); }
      var events := BuildEvents(cascade, instance.id);
      Save(audit, key, Flip(rows[key], false), Deactivation(cascade, None));
      rows := FlipAliases(rows, cascade);
      if audit { outbox := outbox + events; }
      r := Ok(true);
    }

    method GuardCascade(cascade: seq<nat>) returns (allowed: bool)
      requires forall a :: a in cascade ==> Key(AliasKind, a) in rows
      ensures allowed <==> forall a :: a in cascade ==> MayWrite(writes, Ns(rows[Key(AliasKind, a)]))
    {
      for n := 0 to |cascade|
        invariant forall i :: 0 <= i < n ==> MayWrite(writes, Ns(rows[Key(AliasKind, cascade[i])]))
      {
        if !MayWrite(writes, Ns(rows[Key(AliasKind, cascade[n])])) { return false; }
      }
      allowed := true;
    }

    method BuildEvents(cascade: seq<nat>, source: nat) returns (events: seq<Event>)
      requires forall a :: a in cascade ==> Key(AliasKind, a) in rows
      ensures events == AliasEvents(rows, cascade, source)
    {
      events := [];
      for n := 0 to |cascade|
        invariant events == AliasEvents(rows, cascade, source)[..n]
      {
        var key := Key(AliasKind, cascade[n]);
        events := events + [Event(key, EventScope(rows[key]), Deactivation([], Some(source)))];
      }
    }

    // ----- The service calls, over a store whose constraints hold

    method Create(kind: Kind, id: nat, data: Row, seen: map<Key, Row>, audit: bool)
      returns (r: Result<Instance, Error>)
      requires Valid() && Callable(rows, Call.Create(kind, id, data, seen))
      modifies this
      ensures Valid()
      ensures var c := Call.Create(kind, id, data, seen);
              && Served(old(Contents()), Contents(), Step(writes, audit, c))
              && Tells(r, Do(old(Contents()), writes, audit, c))
      ensures r.Ok? ==> fresh(r.value) && Key(kind, id) in rows && r.value.row == rows[Key(kind, id)]
    {
      CommitServes(Contents(), Step(writes, audit, Call.Create(kind, id, data, seen)));
      r := CreateRow(kind, id, data, seen, audit);
    }

    method Update(instance: Instance, data: Row, seen: map<Key, Row>, audit: bool)
      returns (r: Result<(), Error>)
      requires Valid() && Callable(rows, Call.Update(instance.kind, instance.id, instance.row, data, seen))
      modifies this, instance
      ensures Valid()
      ensures var c := Call.Update(instance.kind, instance.id, old(instance.row), data, seen);
              && Served(old(Contents()), Contents(), Step(writes, audit, c))
              && Tells(r, Do(old(Contents()), writes, audit, c))
      ensures instance.row == if Assigns(writes, instance.kind, old(instance.row), data, seen)
                              then old(instance.row) + data else old(instance.row)
    {
      CommitServes(Contents(), Step(writes, audit,
                   Call.Update(instance.kind, instance.id, instance.row, data, seen)));
      r := SaveChanges(instance, data, seen, audit);
    }

    method Reactivate(instance: Instance, seen: map<Key, Row>, audit: bool) returns (r: Result<(), Error>)
      requires Valid() && Callable(rows, Call.Reactivate(instance.kind, instance.id, instance.row, seen))
      modifies this, instance
      ensures Valid()
      ensures var c := Call.Reactivate(instance.kind, instance.id, old(instance.row), seen);
              && Served(old(Contents()), Contents(), Step(writes, audit, c))
              && Tells(r, Do(old(Contents()), writes, audit, c))
      ensures r.Ok? <==> Revivable(old(Contents()), writes, instance.kind, instance.id, old(instance.row), seen)
      ensures var key := Key(instance.kind, instance.id);
              && key in old(rows)
              && if r.Err? || Get(old(rows)[key], Active) == Flag(true) then Contents() == old(Contents())
                 else Puts(old(Contents()), Contents(), audit, key, old(rows)[key][Active := Flag(true)],
                           Event(key, ScopeColumns(old(rows)[key]),
                                 Updated(map[Active := Flag(false)], map[Active := Flag(true)])))
      ensures instance.row == if r.Ok? then Flip(old(instance.row), true) else old(instance.row)
    {
      CommitServes(Contents(), Step(writes, audit,
                   Call.Reactivate(instance.kind, instance.id, instance.row, seen)));
      ReactivateSucceeds(Contents(), writes, audit, instance.kind, instance.id, instance.row, seen);
      if Do(Contents(), writes, audit, Call.Reactivate(instance.kind, instance.id, instance.row, seen)).Ok? {
        ReactivatePuts(Contents(), writes, audit, instance.kind, instance.id, instance.row, seen);
      }
      r := Revive(instance, seen, audit);
    }

    method Deactivate(instance: Instance, audit: bool) returns (r: Result<bool, Error>)
      requires Valid() && Callable(rows, Call.Deactivate(instance.kind, instance.id, instance.row))
      modifies this, instance
      ensures Valid()
      ensures var c := Call.Deactivate(instance.kind, instance.id, old(instance.row));
              && Served(old(Contents()), Contents(), Step(writes, audit, c))
              && Tells(r, Do(old(Contents()), writes, audit, c))
      ensures r.Ok? ==> r.value == old(IsActive(instance.row))
      ensures instance.row == if r == Ok(true) then Flip(old(instance.row), false) else old(instance.row)
    {
      CommitServes(Contents(), Step(writes, audit,
                   Call.Deactivate(instance.kind, instance.id, instance.row)));
      r := Retire(instance, audit);
    }

    method DeactivateTag(instance: Instance, cascade: seq<nat>, audit: bool) returns (r: Result<bool, Error>)
      requires Valid() && instance.kind == TagKind
      requires Callable(rows, Call.DeactivateTag(instance.id, instance.row, cascade))
      modifies this, instance
      ensures Valid()
      ensures var c := Call.DeactivateTag(instance.id, old(instance.row), cascade);
              && Served(old(Contents()), Contents(), Step(writes, audit, c))
              && Tells(r, Do(old(Contents()), writes, audit, c))
      ensures r.Ok? ==> r.value == old(IsActive(rows[Key(TagKind, instance.id)]))
      ensures instance.row == if MayWrite(writes, Ns(old(instance.row))) then Flip(old(instance.row), false)
                              else old(instance.row)
    {
      CommitServes(Contents(), Step(writes, audit, Call.DeactivateTag(instance.id, instance.row, cascade)));
      r := RetireTag(instance, cascade, audit);
    }
  }
}
