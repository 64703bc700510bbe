/** Replaying the outbox: the events of a run, applied in commit order to an empty store, rebuild
    every row, and exactly when they do not. */
module TaxonomyReplay {
  import opened Scopes
  import opened Taxonomy
  import opened TaxonomyInvariants

  // ----- What a consumer does with an event

  function NamespaceColumns(scope: Row): Row {
    map f | f in {NamespaceType, NamespaceId} :: Get(scope, f)
  }

  function ReplayOne(rows: map<Key, Row>, e: Event): map<Key, Row> {
    match e.payload
    case Created(after) => rows[e.key := after + NamespaceColumns(e.scope)]
    case Updated(_, after) => if e.key in rows then rows[e.key := rows[e.key] + after] else rows
    case Deactivated(_, after, _, _) =>
      if e.key in rows then rows[e.key := rows[e.key] + after] else rows
  }

  function ReplayFrom(rows: map<Key, Row>, events: seq<Event>): map<Key, Row> {
    if events == [] then rows
    else ReplayOne(ReplayFrom(rows, events[..|events| - 1]), events[|events| - 1])
  }

  ghost predicate Rebuilt(db: Db) {
    ReplayFrom(map[], db.outbox) == db.rows
  }

  lemma ReplayNext(rows: map<Key, Row>, events: seq<Event>, e: Event)
    ensures ReplayFrom(rows, events + [e]) == ReplayOne(ReplayFrom(rows, events), e)
  {}

  lemma {:induction false} ReplayConcat(rows: map<Key, Row>, first: seq<Event>, second: seq<Event>)
    ensures ReplayFrom(rows, first + second) == ReplayFrom(ReplayFrom(rows, first), second)
    decreases |second|
  {
    if second == [] {
      assert first + second == first;
    } else {
      var init, last := second[..|second| - 1], second[|second| - 1];
      ReplayConcat(rows, first, init);
      ReplayNext(rows, first + init, last);
      assert first + second == first + init + [last];
    }
  }

  // ----- One write

  lemma CreatedRebuilds(kind: Kind, row: Row)
    requires IsRow(kind, row)
    ensures Snapshot(row) + NamespaceColumns(EventScope(row)) == row
  {}

  /** A logged write keeps the replay right exactly when its event makes the row that was written. */
  lemma WriteReplays(db: Db, key: Key, row: Row, payload: Payload)
    requires Rebuilt(db)
    ensures Rebuilt(Write(db, true, key, row, payload))
            <==> ReplayOne(db.rows, Event(key, EventScope(row), payload)) == db.rows[key := row]
  {}

  lemma CreateWrites(db: Db, writes: bool, audit: bool, kind: Kind, id: nat, data: Row, seen: map<Key, Row>)
    requires DoCreate(db, writes, audit, kind, id, data, seen).Ok?
    ensures var row := NewRow(kind, data);
            DoCreate(db, writes, audit, kind, id, data, seen).value
            == Write(db, audit, Key(kind, id), row, Created(Snapshot(row)))
  {}

  lemma CreatedReplays(db: Db, kind: Kind, id: nat, row: Row)
    requires Rebuilt(db) && IsRow(kind, row)
    ensures Rebuilt(Write(db, true, Key(kind, id), row, Created(Snapshot(row))))
  {
    CreatedRebuilds(kind, row);
    WriteReplays(db, Key(kind, id), row, Created(Snapshot(row)));
  }

  lemma CreateReplays(db: Db, writes: bool, kind: Kind, id: nat, data: Row, seen: map<Key, Row>)
    requires Rebuilt(db) && Callable(db.rows, Create(kind, id, data, seen))
    requires DoCreate(db, writes, true, kind, id, data, seen).Ok?
    ensures Rebuilt(DoCreate(db, writes, true, kind, id, data, seen).value)
  {
    CreateWrites(db, writes, true, kind, id, data, seen);
    NewRowIsRow(kind, data);
    CreatedReplays(db, kind, id, NewRow(kind, data));
  }

  lemma FlipReplays(db: Db, key: Key, on: bool, payload: Payload)
    requires Rebuilt(db) && key in db.rows
    requires (payload.Updated? || payload.Deactivated?) && payload.after == map[Active := Flag(on)]
    ensures Rebuilt(Write(db, true, key, Flip(db.rows[key], on), payload))
  {
    assert db.rows[key] + payload.after == Flip(db.rows[key], on);
    WriteReplays(db, key, Flip(db.rows[key], on), payload);
  }

  // ----- Updates

  /** The in-memory row agrees with the stored one on every field the update leaves alone. */
  ghost predicate Current(stored: Row, instance: Row, data: Row) {
    forall f :: f in stored && f !in After(instance, data) ==> Get(instance, f) == stored[f]
  }

  lemma PatchReplays(db: Db, key: Key, row: Row, before: Row, after: Row)
    requires Rebuilt(db) && key in db.rows
    ensures Rebuilt(Write(db, true, key, row, Updated(before, after)))
            <==> db.rows[key] + after == row
  {
    WriteReplays(db, key, row, Updated(before, after));
    assert db.rows[key := db.rows[key] + after][key] == db.rows[key] + after;
    assert db.rows[key := row][key] == row;
  }

  /** An update's event rebuilds the stored row exactly when the instance it saved was current on
      the fields it did not change. */
  lemma UpdateReplays(db: Db, kind: Kind, id: nat, instance: Row, data: Row)
    requires Rebuilt(db) && Inv(db.rows) && Loaded(db.rows, kind, id, instance) && Typed(kind, data)
    ensures Rebuilt(Saved(db, true, kind, id, instance, data))
            <==> Current(db.rows[Key(kind, id)], instance, data)
  {
    var key, after := Key(kind, id), After(instance, data);
    PatchReplays(db, key, instance + data, Before(instance, data), after);
    PatchesAreInverse(kind, instance, data);
    SavedIsReplayed(kind, db.rows[key], instance, after);
  }

  /** What undoing an update's event makes of the rows. */
  function UndoOne(rows: map<Key, Row>, e: Event): map<Key, Row>
    requires e.payload.Updated?
  {
    if e.key in rows then rows[e.key := rows[e.key] + e.payload.before] else rows
  }

  /** The old values in an update's event take the rows back to what they were exactly when the
      instance was wholly current. */
  lemma UpdateUndoes(db: Db, kind: Kind, id: nat, instance: Row, data: Row)
    requires Loaded(db.rows, kind, id, instance) && Typed(kind, data)
    ensures var saved := Saved(db, true, kind, id, instance, data);
            saved.outbox[..|db.outbox|] == db.outbox && |saved.outbox| == |db.outbox| + 1
            && saved.outbox[|db.outbox|].payload.Updated?
            && (UndoOne(saved.rows, saved.outbox[|db.outbox|]) == db.rows
                <==> instance == db.rows[Key(kind, id)])
  {
    var key := Key(kind, id);
    PatchesAreInverse(kind, instance, data);
    assert (instance + data) + Before(instance, data) == instance;
    assert db.rows[key := instance] == db.rows <==> instance == db.rows[key] by {
      assert db.rows[key := instance][key] == instance;
    }
    assert db.rows[key := instance + data][key := instance] == db.rows[key := instance];
  }

  lemma SavedIsReplayed(kind: Kind, stored: Row, instance: Row, after: Row)
    requires IsRow(kind, stored) && IsRow(kind, instance)
    requires forall f :: f in after ==> f in instance
    ensures stored + after == instance + after
            <==> forall f :: f in stored && f !in after ==> Get(instance, f) == stored[f]
  {
    if stored + after == instance + after {
      forall f | f in stored && f !in after ensures Get(instance, f) == stored[f] {
        assert (stored + after)[f] == (instance + after)[f];
      }
    }
  }

  // ----- The cascade

  lemma CascadeStep(rows: map<Key, Row>, cascade: seq<nat>, n: nat)
    requires n < |cascade| && Key(AliasKind, cascade[n]) in rows
    ensures var key := Key(AliasKind, cascade[n]);
            FlipAliases(rows, cascade[..n + 1])
            == FlipAliases(rows, cascade[..n])[key := FlipAliases(rows, cascade[..n])[key] + map[Active := Flag(false)]]
  {
    var key := Key(AliasKind, cascade[n]);
    assert cascade[..n + 1] == cascade[..n] + [cascade[n]];
    assert Flip(rows[key], false) == rows[key] + map[Active := Flag(false)];
    assert Flip(rows[key], false) + map[Active := Flag(false)] == Flip(rows[key], false);
  }

  lemma {:induction false} CascadeReplays(rows: map<Key, Row>, scopes: map<Key, Row>, cascade: seq<nat>,
                                          source: nat, n: nat)
    requires n <= |cascade| && forall a :: a in cascade ==> Key(AliasKind, a) in rows
    ensures ReplayFrom(rows, AliasEvents(scopes, cascade, source)[..n]) == FlipAliases(rows, cascade[..n])
    decreases n
  {
    var events := AliasEvents(scopes, cascade, source);
    if n == 0 {
      assert FlipAliases(rows, cascade[..0]) == rows;
    } else {
      CascadeReplays(rows, scopes, cascade, source, n - 1);
      CascadeStep(rows, cascade, n - 1);
      ReplayNext(rows, events[..n - 1], events[n - 1]);
      assert events[..n] == events[..n - 1] + [events[n - 1]];
    }
  }

  lemma DeactivateTagReplays(db: Db, writes: bool, id: nat, instance: Row, cascade: seq<nat>)
    requires Rebuilt(db) && Callable(db.rows, DeactivateTag(id, instance, cascade))
    requires DoDeactivateTag(db, writes, true, id, instance, cascade).Ok?
    ensures Rebuilt(DoDeactivateTag(db, writes, true, id, instance, cascade).value)
  {
    var key := Key(TagKind, id);
    if IsActive(db.rows[key]) {
      var payload := Deactivation(cascade, None);
      var tagged := Write(db, true, key, Flip(db.rows[key], false), payload);
      FlipReplays(db, key, false, payload);
      var events := AliasEvents(db.rows, cascade, id);
      forall a | a in cascade ensures Key(AliasKind, a) in tagged.rows {}
      CascadeReplays(tagged.rows, db.rows, cascade, id, |cascade|);
      assert events[..|cascade|] == events && cascade[..|cascade|] == cascade;
      ReplayConcat(map[], tagged.outbox, events);
    }
  }

  // ----- Runs

  /** An update that goes through and changes something saves an instance that is current wherever
      it does not change it. Every other call is faithful. */
  ghost predicate Faithful(db: Db, s: Step)
    requires Callable(db.rows, s.call)
  {
    s.call.Update? && Do(db, s.writes, s.audit, s.call).Ok? && After(s.call.instance, s.call.data) != map[]
    ==> Current(db.rows[Key(s.call.kind, s.call.id)], s.call.instance, s.call.data)
  }

  lemma PatchStepReplays(db: Db, s: Step)
    requires Rebuilt(db) && Inv(db.rows) && s.audit && Callable(db.rows, s.call)
    requires s.call.Create? || s.call.Update?
    ensures Rebuilt(Commit(db, s.writes, s.audit, s.call)) <==> Faithful(db, s)
  {
    if Do(db, s.writes, s.audit, s.call).Ok? {
      match s.call
      case Create(kind, id, data, seen) => CreateReplays(db, s.writes, kind, id, data, seen);
      case Update(kind, id, instance, data, seen) =>
        UpdateSaves(db, s.writes, true, kind, id, instance, data, seen);
        UpdateReplays(db, kind, id, instance, data);
    }
  }

  lemma ReactivateReplays(db: Db, s: Step)
    requires Rebuilt(db) && s.audit && s.call.Reactivate? && Key(s.call.kind, s.call.id) in db.rows
    ensures Rebuilt(Commit(db, s.writes, s.audit, s.call))
  {
    FlipReplays(db, Key(s.call.kind, s.call.id), true, REACTIVATED);
  }

  lemma DeactivateReplays(db: Db, s: Step)
    requires Rebuilt(db) && s.audit && s.call.Deactivate? && Key(s.call.kind, s.call.id) in db.rows
    ensures Rebuilt(Commit(db, s.writes, s.audit, s.call))
  {
    FlipReplays(db, Key(s.call.kind, s.call.id), false, Deactivation([], None));
  }

  /** One logged call keeps the replay right exactly when it is faithful. */
  lemma StepReplays(db: Db, s: Step)
    requires Rebuilt(db) && Inv(db.rows) && s.audit && Callable(db.rows, s.call)
    ensures Rebuilt(Commit(db, s.writes, s.audit, s.call)) <==> Faithful(db, s)
  {
    if s.call.Create? || s.call.Update? {
      PatchStepReplays(db, s);
    } else if s.call.DeactivateTag? {
      if Do(db, s.writes, s.audit, s.call).Ok? {
        DeactivateTagReplays(db, s.writes, s.call.id, s.call.instance, s.call.cascade);
      }
    } else if s.call.Reactivate? {
      ReactivateReplays(db, s);
    } else {
      DeactivateReplays(db, s);
    }
  }

  /** Every call of the run has an audit context, and uses rows loaded from the store. */
  ghost predicate Audited(steps: seq<Step>) {
    CallableRun(EMPTY, steps) && forall n :: 0 <= n < |steps| ==> steps[n].audit
  }

  ghost predicate FaithfulRun(steps: seq<Step>)
    requires Audited(steps)
    decreases |steps|
  {
    steps == []
    || (CallablePrefix(EMPTY, steps);
        FaithfulRun(steps[..|steps| - 1])
        && Faithful(Run(EMPTY, steps[..|steps| - 1]), steps[|steps| - 1]))
  }

  /** Replay rebuilds the store at the end of every prefix of the run. */
  ghost predicate AlwaysRebuilt(steps: seq<Step>)
    decreases |steps|
  {
    Rebuilt(Run(EMPTY, steps)) && (steps == [] || AlwaysRebuilt(steps[..|steps| - 1]))
  }

  /** Replay rebuilds the store throughout a run from an empty store exactly when every call of the
      run is faithful. */
  lemma {:induction false} RunReplays(steps: seq<Step>)
    requires Audited(steps)
    ensures AlwaysRebuilt(steps) <==> FaithfulRun(steps)
    decreases |steps|
  {
    if steps != [] {
      var init, last := steps[..|steps| - 1], steps[|steps| - 1];
      CallablePrefix(EMPTY, steps);
      RunReplays(init);
      RunKeepsInv(init);
      if AlwaysRebuilt(init) {
        StepReplays(Run(EMPTY, init), last);
      }
    }
  }

  // ----- A stale instance

  /** Two callers load the same row and update different fields. When both updates succeed, the
      second puts the first one's field back without an event, and replay no longer rebuilds the
      row. */
  lemma LostUpdate(db: Db, kind: Kind, id: nat, instance: Row, first: Row, second: Row, f: Field)
    requires Rebuilt(db) && Inv(db.rows) && Inv(Saved(db, true, kind, id, instance, first).rows)
    requires Loaded(db.rows, kind, id, instance) && instance == db.rows[Key(kind, id)]
    requires Typed(kind, first) && Typed(kind, second) && !ChangesScope(instance, first)
    requires f in After(instance, first) && f !in second
    ensures var one := Saved(db, true, kind, id, instance, first);
            var two := Saved(one, true, kind, id, instance, second);
            && Rebuilt(one) && !Rebuilt(two)
            && Get(two.rows[Key(kind, id)], f) == Get(db.rows[Key(kind, id)], f)
  {
    var one := Saved(db, true, kind, id, instance, first);
    UpdateReplays(db, kind, id, instance, first);
    SavedScope(db.rows, kind, id, instance, first);
    UpdateReplays(one, kind, id, instance, second);
    var stored := one.rows[Key(kind, id)];
    assert f in stored && f !in After(instance, second) && Get(instance, f) != stored[f];
  }

  /** It does happen: with one shared tag in the store, any update of its name or description goes
      through, however stale the instance. */
  lemma SoloUpdate(db: Db, red: Row, f: Field, v: Value)
    requires db.rows.Keys == {Key(TagKind, 1)} && IsRow(TagKind, red)
    requires Ns(red) == GLOBAL && Get(red, Parent) == Get(red, Vocabulary) == Null
    requires f in {Name, Description} && v != Get(red, f)
    ensures DoUpdate(db, true, true, TagKind, 1, red, map[f := v], map[]).Ok?
  {}
}
