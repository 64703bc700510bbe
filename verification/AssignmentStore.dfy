/** The assignment services over a table they update in place. */
module AssignmentStore {
  import opened Scopes
  import opened Resolution
  import opened Assignments

  class Store {
    const writes: bool
    const maxBulk: nat
    var table: Table
    var nextId: nat
    ghost var owners: map<nat, Slot>
    var audits: seq<Change>
    var outbox: seq<Change>

    constructor (writes: bool, maxBulk: nat)
      ensures this.writes == writes && this.maxBulk == maxBulk
      ensures table == map[] && audits == outbox == [] && Valid() && Rebuilt()
    {
      this.writes, this.maxBulk := writes, maxBulk;
      table, nextId, owners, audits, outbox := map[], 0, map[], [], [];
    }

    /** Every id was given to one slot, once. */
    ghost predicate Valid()
      reads this
    {
      && (forall s :: s in table ==> table[s].id in owners && owners[table[s].id] == s)
      && (forall id :: id in owners ==> id < nextId)
    }

    /** The outbox rebuilds the table from nothing, one real change at a time, and each change has its
        audit row. Every call made with an audit context keeps this. */
    ghost predicate Rebuilt()
      reads this
    {
      Logs(map[], table, outbox, |outbox|) && audits == outbox
    }

    /** What was logged before, followed by what this call logged. */
    lemma Follow(before: Table, log: seq<Change>, changes: seq<Change>, moved: nat, audit: bool)
      requires Logs(before, table, changes, moved)
      requires outbox == log + Noted(audit, changes)
      ensures audit && Logs(map[], before, log, |log|) ==> Logs(map[], table, outbox, |outbox|)
    {
      if audit && Logs(map[], before, log, |log|) {
        LogsConcat(map[], before, table, log, |log|, changes, moved);
      }
    }

    method Record(audit: bool, changes: seq<Change>)
      modifies this`audits, this`outbox
      ensures audits == old(audits) + Noted(audit, changes)
      ensures outbox == old(outbox) + Noted(audit, changes)
    {
      if audit {
        audits := audits + changes;
        outbox := outbox + changes;
      }
    }

    /** The row in a slot, inserted if the slot is free. */
    method GetOrInsert(slot: Slot, assignedBy: Option<string>) returns (row: Row, created: bool)
      requires Valid()
      modifies this`table, this`nextId, this`owners
      ensures Valid() && nextId == old(nextId) + Bit(created)
      ensures created <==> slot !in old(table)
      ensures table == old(table)[slot := row]
      ensures !created ==> row == old(table)[slot]
      ensures created ==> row == Row(old(nextId), assignedBy)
    {
      if slot in table {
        assert table == table[slot := table[slot]];
        return table[slot], false;
      }
      row := Row(nextId, assignedBy);
      nextId, owners := nextId + 1, owners[nextId := slot];
      table := table[slot := row];
      created := true;
    }

    /** The helper is importable, so it guards and validates like the public entry points, with the
        permissive global policy. */
    method GetOrCreateAssignment(tag: Tag, place: Place, assignedBy: Option<string>)
      returns (r: Result<(Row, bool), Error>)
      requires Valid()
      modifies this`table, this`nextId, this`owners
      ensures Valid()
      ensures r.Ok? <==> MayWrite(writes, place.ns) && Validate(tag, place, true).None?
      ensures r.Err? && IsScopeContext(place.ns) ==> RefusedFor(r.error, writes, tag, place, true)
      ensures r.Err? ==> table == old(table)
      ensures r.Ok? ==> var slot := Slot(place, tag.id);
                && r.value.1 == (slot !in old(table)) && table == old(table)[slot := r.value.0]
                && (!r.value.1 ==> r.value.0 == old(table)[slot] && table == old(table))
                && (r.value.1 ==> r.value.0 == Row(old(nextId), assignedBy))
                && nextId == old(nextId) + Bit(r.value.1)
      ensures !writes ==> NamespacedKept(old(table), table)
    {
      if !MayWrite(writes, place.ns) { return Err(WritesDisabled); }
      var fault := Validate(tag, place, true);
      if fault.Some? { return Err(fault.value); }
      var row, created := GetOrInsert(Slot(place, tag.id), assignedBy);
      if !writes { GlobalSlotKeeps(old(table), Slot(place, tag.id), row); }
      r := Ok((row, created));
    }

    /** Assigns one tag, once: a repeat returns the row that is there and logs nothing. */
    method AssignTag(tag: Tag, place: Place, assignedBy: Option<string>, includeGlobal: bool, audit: bool)
      returns (r: Result<(Row, bool), Error>)
      requires Valid()
      modifies this
      ensures Valid()
      ensures r.Ok? <==> MayWrite(writes, place.ns) && Validate(tag, place, includeGlobal).None?
      ensures r.Err? && IsScopeContext(place.ns) ==> RefusedFor(r.error, writes, tag, place, includeGlobal)
      ensures r.Err? ==> table == old(table) && audits == old(audits) && outbox == old(outbox)
      ensures r.Ok? ==> var slot := Slot(place, tag.id);
                && r.value.1 == (slot !in old(table)) && table == old(table)[slot := r.value.0]
                && (!r.value.1 ==> r.value.0 == old(table)[slot] && table == old(table))
                && (r.value.1 ==> r.value.0 == Row(old(nextId), assignedBy))
                && nextId == old(nextId) + Bit(r.value.1)
      ensures r.Ok? ==>
                var changes := if r.value.1 then [Change(true, Slot(place, tag.id), r.value.0)] else [];
                audits == old(audits) + Noted(audit, changes) && outbox == old(outbox) + Noted(audit, changes)
      ensures !writes ==> NamespacedKept(old(table), table)
      ensures audit && old(Rebuilt()) ==> Rebuilt()
    {
      if !MayWrite(writes, place.ns) { return Err(WritesDisabled); }
      var fault := Validate(tag, place, includeGlobal);
      if fault.Some? { return Err(fault.value); }
      var row, created := GetOrInsert(Slot(place, tag.id), assignedBy);
      if !writes { GlobalSlotKeeps(old(table), Slot(place, tag.id), row); }
      LogsOne(old(table), Slot(place, tag.id), row);
      if created {
        Record(audit, [Change(true, Slot(place, tag.id), row)]);
        Follow(old(table), old(outbox), [Change(true, Slot(place, tag.id), row)], 1, audit);
      }
      r := Ok((row, created));
    }

    /** The removals to log for some held tags, before any row is deleted. */
    method BuildRemovals(place: Place, ids: set<nat>) returns (log: seq<Change>)
      requires ids <= Held(table, place)
      ensures Replay(table, log) == table - SlotsOf(place, ids)
      ensures RealChanges(table, log) && |log| == |ids|
    {
      log := [];
      var done: set<nat> := {};
      DropNothing(table, place);
      while done != ids
        invariant done <= ids && |log| == |done|
        invariant Replay(table, log) == table - SlotsOf(place, done) && RealChanges(table, log)
        decreases |ids - done|
      {
        var t :| t in ids - done;
        HeldAt(table, place, t);
        DropNext(table, place, done, log, t);
        log := log + [Change(false, Slot(place, t), table[Slot(place, t)])];
        Fewer(ids, done, t);
        done := done + {t};
      }
    }

    /** Deletes the rows of some held tags, logging each one first. */
    method RemoveHeld(place: Place, ids: set<nat>, audit: bool) returns (removed: nat, ghost changes: seq<Change>)
      requires Valid() && ids <= Held(table, place)
      modifies this`table, this`audits, this`outbox
      ensures Valid()
      ensures Dropped(old(table), table, place, ids, removed, changes) && removed == |ids|
      ensures audits == old(audits) + Noted(audit, changes)
      ensures outbox == old(outbox) + Noted(audit, changes)
    {
      var log := BuildRemovals(place, ids);
      DropDone(table, place, ids, log);
      Record(audit, log);
      table := table - SlotsOf(place, ids);
      removed, changes := |ids|, log;
    }

    method RemoveTagAssignment(place: Place, tag: nat, audit: bool)
      returns (r: Result<nat, Error>, ghost changes: seq<Change>)
      requires Valid()
      modifies this
      ensures Valid()
      ensures r.Ok? <==> MayWrite(writes, place.ns)
      ensures r.Err? ==> r.error == WritesDisabled
      ensures r.Err? ==> table == old(table) && audits == old(audits) && outbox == old(outbox)
      ensures r.Ok? ==> Dropped(old(table), table, place, {tag}, r.value, changes)
      ensures r.Ok? ==> audits == old(audits) + Noted(audit, changes)
      ensures r.Ok? ==> outbox == old(outbox) + Noted(audit, changes)
      ensures !writes ==> NamespacedKept(old(table), table)
      ensures audit && old(Rebuilt()) ==> Rebuilt()
    {
      changes := [];
      if !MayWrite(writes, place.ns) { return Err(WritesDisabled), []; }
      var ids := Held(table, place) * {tag};
      var removed;
      removed, changes := RemoveHeld(place, ids, audit);
      DropSame(old(table), table, place, ids, {tag}, removed, changes);
      if !writes { GlobalDropKeeps(old(table), table, place, {tag}, removed, changes); }
      Follow(old(table), old(outbox), changes, removed, audit);
      r := Ok(removed);
    }

    method BulkRemoveTags(place: Place, tagIds: seq<nat>, audit: bool)
      returns (r: Result<nat, Error>, ghost changes: seq<Change>)
      requires Valid()
      modifies this
      ensures Valid()
      ensures r.Ok? <==> MayWrite(writes, place.ns) && |tagIds| <= maxBulk
      ensures r.Err? ==> r.error == if MayWrite(writes, place.ns) then TooMany else WritesDisabled
      ensures r.Err? ==> table == old(table) && audits == old(audits) && outbox == old(outbox)
      ensures r.Ok? ==> Dropped(old(table), table, place, Requested(tagIds), r.value, changes)
      ensures r.Ok? ==> audits == old(audits) + Noted(audit, changes)
      ensures r.Ok? ==> outbox == old(outbox) + Noted(audit, changes)
      ensures !writes ==> NamespacedKept(old(table), table)
      ensures audit && old(Rebuilt()) ==> Rebuilt()
    {
      changes := [];
      if !MayWrite(writes, place.ns) { return Err(WritesDisabled), []; }
      if |tagIds| > maxBulk { return Err(TooMany), []; }
      var ids := Held(table, place) * Requested(tagIds);
      var removed;
      removed, changes := RemoveHeld(place, ids, audit);
      DropSame(old(table), table, place, ids, Requested(tagIds), removed, changes);
      if !writes { GlobalDropKeeps(old(table), table, place, Requested(tagIds), removed, changes); }
      Follow(old(table), old(outbox), changes, removed, audit);
      r := Ok(removed);
    }

    /** The loop of a bulk assignment: tags already present count as existing. */
    method AssignListed(place: Place, rows: seq<Tag>, assignedBy: Option<string>)
      returns (created: nat, existing: nat, assignments: seq<Row>, log: seq<Change>)
      requires Valid() && MayWrite(writes, place.ns) && NoRepeatedIds(rows)
      requires AllValid(rows, place, true)
      modifies this`table, this`nextId, this`owners
      ensures Valid()
      ensures Progress(table, nextId, created, existing, log, assignments)
              == Fill(old(table), old(nextId), place, rows, assignedBy)
    {
      created, existing, log, assignments := 0, 0, [], [];
      for n := 0 to |rows|
        invariant Valid()
        invariant Progress(table, nextId, created, existing, log, assignments)
                  == Fill(old(table), old(nextId), place, rows[..n], assignedBy)
      {
        FillNext(old(table), old(nextId), place, rows, assignedBy, n);
        var result := GetOrCreateAssignment(rows[n], place, assignedBy);
        var row, made := result.value.0, result.value.1;
        created := created + Bit(made);
        existing := existing + Bit(!made);
        assignments := assignments + [row];
        if made { log := log + [Change(true, Slot(place, rows[n].id), row)]; }
      }
      assert rows[..|rows|] == rows;
    }

    /** Adds the requested tags and logs those that were not there. The listing is the tags' rows in
        query order. */
    method BulkAssignTags(ghost tags: map<nat, Tag>, place: Place, tagIds: seq<nat>, rows: seq<Tag>,
                          assignedBy: Option<string>, includeGlobal: bool, audit: bool)
      returns (r: Result<(nat, nat, seq<Row>), Error>, ghost changes: seq<Change>)
      requires Valid() && Fetches(tags, place.tenant, tagIds, rows)
      modifies this
      ensures Valid()
      ensures r.Ok? <==> MayWrite(writes, place.ns) && |tagIds| <= maxBulk
                         && forall id :: id in tagIds ==> Assignable(tags, place, includeGlobal, id)
      ensures r == Err(WritesDisabled) <==> !MayWrite(writes, place.ns)
      ensures r.Err? ==>
                r.error == WritesDisabled || BulkFault(r.error, tags, place, includeGlobal, tagIds, maxBulk)
      ensures r.Err? ==> table == old(table) && audits == old(audits) && outbox == old(outbox)
      ensures r.Ok? ==>
                && Merged(old(table), table, place, Requested(tagIds), r.value.0, r.value.1, changes)
                && RowsAre(table, place, rows, r.value.2)
      ensures r.Ok? ==> Stamped(old(table), table, old(nextId), assignedBy)
      ensures r.Ok? ==> CreationsLogged(old(table), table, changes)
      ensures r.Ok? ==> audits == old(audits) + Noted(audit, changes)
      ensures r.Ok? ==> outbox == old(outbox) + Noted(audit, changes)
      ensures !writes ==> NamespacedKept(old(table), table)
      ensures audit && old(Rebuilt()) ==> Rebuilt()
    {
      changes := [];
      if !MayWrite(writes, place.ns) { return Err(WritesDisabled), []; }
      var assignable := GetAssignableTags(tags, rows, place, includeGlobal, tagIds, maxBulk);
      if assignable.Err? { return Err(assignable.error), []; }
      r, changes := AssignAll(place, rows, assignedBy, includeGlobal, audit);
      if !writes {
        GlobalMergeKeeps(old(table), table, place, IdsOf(rows), r.value.0, r.value.1, changes);
      }
    }

    method AssignAll(place: Place, rows: seq<Tag>, assignedBy: Option<string>, ghost includeGlobal: bool,
                     audit: bool)
      returns (r: Result<(nat, nat, seq<Row>), Error>, ghost changes: seq<Change>)
      requires Valid() && MayWrite(writes, place.ns) && NoRepeatedIds(rows)
      requires AllValid(rows, place, includeGlobal)
      modifies this
      ensures Valid() && r.Ok?
      ensures Merged(old(table), table, place, IdsOf(rows), r.value.0, r.value.1, changes)
      ensures Stamped(old(table), table, old(nextId), assignedBy)
      ensures CreationsLogged(old(table), table, changes)
      ensures RowsAre(table, place, rows, r.value.2)
      ensures audits == old(audits) + Noted(audit, changes)
      ensures outbox == old(outbox) + Noted(audit, changes)
      ensures audit && old(Rebuilt()) ==> Rebuilt()
    {
      PermissiveAccepts(rows, place, includeGlobal);
      ghost var p := Fill(table, nextId, place, rows, assignedBy);
      FillAnswers(table, nextId, place, rows, assignedBy);
      FillStamps(table, nextId, place, rows, assignedBy);
      ReplayedCreations(table, p.log);
      var created, existing, assignments, log := AssignListed(place, rows, assignedBy);
      Record(audit, log);
      changes := p.log;
      Follow(old(table), old(outbox), p.log, p.created, audit);
      r := Ok((created, existing, assignments));
    }

    /** Makes the resource's tags in this exact scope the requested ones, and lists their rows. */
    method ReplaceResourceTags(ghost tags: map<nat, Tag>, place: Place, tagIds: seq<nat>, rows: seq<Tag>,
                               assignedBy: Option<string>, includeGlobal: bool, audit: bool)
      returns (r: Result<(nat, nat, map<nat, Row>), Error>, ghost changes: seq<Change>)
      requires Valid() && Fetches(tags, place.tenant, tagIds, rows)
      modifies this
      ensures Valid()
      ensures r.Ok? <==> MayWrite(writes, place.ns) && |tagIds| <= maxBulk
                         && forall id :: id in tagIds ==> Assignable(tags, place, includeGlobal, id)
      ensures r == Err(WritesDisabled) <==> !MayWrite(writes, place.ns)
      ensures r.Err? ==>
                r.error == WritesDisabled || BulkFault(r.error, tags, place, includeGlobal, tagIds, maxBulk)
      ensures r.Err? ==> table == old(table) && audits == old(audits) && outbox == old(outbox)
      ensures r.Ok? ==>
                Replaced(old(table), table, place, Requested(tagIds), r.value.0, r.value.1, changes)
      ensures r.Ok? ==>
                && r.value.2 == Listing(table, place) && r.value.2.Keys == Requested(tagIds)
                && forall t :: t in tagIds && Slot(place, t) in old(table) ==>
                     r.value.2[t] == old(table)[Slot(place, t)]
      ensures r.Ok? ==> Stamped(old(table), table, old(nextId), assignedBy)
      ensures r.Ok? ==> CreationsLogged(old(table), table, changes)
      ensures r.Ok? ==> audits == old(audits) + Noted(audit, changes)
      ensures r.Ok? ==> outbox == old(outbox) + Noted(audit, changes)
      ensures !writes ==> NamespacedKept(old(table), table)
      ensures audit && old(Rebuilt()) ==> Rebuilt()
    {
      changes := [];
      if !MayWrite(writes, place.ns) { return Err(WritesDisabled), []; }
      var assignable := GetAssignableTags(tags, rows, place, includeGlobal, tagIds, maxBulk);
      if assignable.Err? { return Err(assignable.error), []; }
      var counts;
      counts, changes := ReplaceWith(place, rows, assignedBy, includeGlobal, audit);
      if !writes {
        GlobalReplaceKeeps(old(table), table, place, IdsOf(rows), counts.0, counts.1, changes);
      }
      ReplacedListing(old(table), table, place, IdsOf(rows), counts.0, counts.1, changes);
      r := Ok((counts.0, counts.1, Listing(table, place)));
    }

    method ReplaceWith(place: Place, rows: seq<Tag>, assignedBy: Option<string>,
                       includeGlobal: bool, audit: bool)
      returns (counts: (nat, nat), ghost changes: seq<Change>)
      requires Valid() && MayWrite(writes, place.ns) && NoRepeatedIds(rows)
      requires AllValid(rows, place, includeGlobal)
      modifies this
      ensures Valid()
      ensures Replaced(old(table), table, place, IdsOf(rows), counts.0, counts.1, changes)
      ensures Stamped(old(table), table, old(nextId), assignedBy)
      ensures CreationsLogged(old(table), table, changes)
      ensures audits == old(audits) + Noted(audit, changes)
      ensures outbox == old(outbox) + Noted(audit, changes)
      ensures audit && old(Rebuilt()) ==> Rebuilt()
    {
      var removed;
      ghost var dropped, p;
      removed, dropped := RemoveHeld(place, Held(table, place) - IdsOf(rows), audit);
      ghost var middle, next := table, nextId;
      var created;
      created, p := AssignMissing(place, rows, Held(table, place), assignedBy, includeGlobal, audit);
      DropThenFill(old(table), middle, next, place, rows, assignedBy, removed, dropped);
      FillStamps(middle, next, place, rows, assignedBy);
      StampedFrom(old(table), middle, table, next, assignedBy);
      ReplayedCreations(old(table), dropped + p.log);
      NotedTwice(old(audits), audit, dropped, p.log);
      NotedTwice(old(outbox), audit, dropped, p.log);
      counts, changes := (created, removed), dropped + p.log;
      Follow(old(table), old(outbox), changes, created + removed, audit);
    }

    /** Assigns a listed tag unless the resource holds it already. */
    method AssignUnlessHeld(place: Place, tag: Tag, remaining: set<nat>, assignedBy: Option<string>,
                            includeGlobal: bool, audit: bool, ghost p: Progress)
      returns (created: nat)
      requires Valid() && MayWrite(writes, place.ns) && Validate(tag, place, includeGlobal).None?
      requires tag.id in remaining <==> Slot(place, tag.id) in table
      requires table == p.table && nextId == p.next
      modifies this
      ensures Valid()
      ensures var q, news := p.Step(Slot(place, tag.id), assignedBy), p.News(Slot(place, tag.id), assignedBy);
              && table == q.table && nextId == q.next && p.created + created == q.created
              && audits == old(audits) + Noted(audit, news) && outbox == old(outbox) + Noted(audit, news)
    {
      if tag.id in remaining { return 0; }
      var made := AssignTag(tag, place, assignedBy, includeGlobal, audit);
      created := Bit(made.value.1);
    }

    /** The second half of a replacement: assigns each listed tag that does not remain. */
    method AssignMissing(place: Place, rows: seq<Tag>, remaining: set<nat>,
                         assignedBy: Option<string>, includeGlobal: bool, audit: bool)
      returns (created: nat, ghost p: Progress)
      requires Valid() && MayWrite(writes, place.ns) && NoRepeatedIds(rows)
      requires AllValid(rows, place, includeGlobal)
      requires remaining == Held(table, place)
      modifies this
      ensures Valid()
      ensures p == Fill(old(table), old(nextId), place, rows, assignedBy)
      ensures table == p.table && created == p.created
      ensures audits == old(audits) + Noted(audit, p.log)
      ensures outbox == old(outbox) + Noted(audit, p.log)
    {
      created, p := 0, Fill(table, nextId, place, [], assignedBy);
      ghost var start, next := table, nextId;
      for n := 0 to |rows|
        invariant Valid() && created == p.created
        invariant p == Fill(start, next, place, rows[..n], assignedBy)
        invariant table == p.table && nextId == p.next
        invariant audits == old(audits) + Noted(audit, p.log)
        invariant outbox == old(outbox) + Noted(audit, p.log)
      {
        FillNext(start, next, place, rows, assignedBy, n);
        FillLeaves(start, next, place, rows[..n], assignedBy, rows[n].id);
        HeldAt(start, place, rows[n].id);
        var made := AssignUnlessHeld(place, rows[n], remaining, assignedBy, includeGlobal, audit, p);
        created := created + made;
        ghost var news := p.News(Slot(place, rows[n].id), assignedBy);
        NotedTwice(old(audits), audit, p.log, news);
        NotedTwice(old(outbox), audit, p.log, news);
        p := p.Step(Slot(place, rows[n].id), assignedBy);
      }
      assert rows[..|rows|] == rows;
    }

    // ----- Any sequence of calls

    method ServeOne(c: Call)
      requires Valid() && Answerable(c)
      modifies this
      ensures Valid()
      ensures !writes ==> NamespacedKept(old(table), table)
      ensures Audited(c) && old(Rebuilt()) ==> Rebuilt()
      ensures Moves(writes, maxBulk, c, old(table), table)
    {
      match c
      case GetOrCreate(tag, place, assignedBy) =>
        var r := GetOrCreateAssignment(tag, place, assignedBy);
        if r.Ok? { PutMoves(c, old(table), tag.id, r.value.0); }
      case Assign(tag, place, assignedBy, includeGlobal, audit) =>
        var r := AssignTag(tag, place, assignedBy, includeGlobal, audit);
        if r.Ok? { PutMoves(c, old(table), tag.id, r.value.0); }
      case Remove(place, tag, audit) =>
        var r, _ := RemoveTagAssignment(place, tag, audit);
        if r.Ok? { DropMoves(c, old(table), table, {tag}); }
      case BulkAssign(tags, place, tagIds, rows, assignedBy, includeGlobal, audit) =>
        var r, _ := BulkAssignTags(tags, place, tagIds, rows, assignedBy, includeGlobal, audit);
        if r.Ok? { MergeMoves(c, old(table), table, Requested(tagIds)); }
      case BulkRemove(place, tagIds, audit) =>
        var r, _ := BulkRemoveTags(place, tagIds, audit);
        if r.Ok? { DropMoves(c, old(table), table, Requested(tagIds)); }
      case Replace(tags, place, tagIds, rows, assignedBy, includeGlobal, audit) =>
        var _, _ := ReplaceResourceTags(tags, place, tagIds, rows, assignedBy, includeGlobal, audit);
    }

    /** Whatever calls are served, in whatever order, each does its own work; with writes off no namespaced
        assignment moves, and if each call is logged the outbox still rebuilds the table. */
    method Serve(calls: seq<Call>) returns (ghost tables: seq<Table>)
      requires Valid() && forall c :: c in calls ==> Answerable(c)
      modifies this
      ensures Valid()
      ensures !writes ==> NamespacedKept(old(table), table)
      ensures old(Rebuilt()) && (forall c :: c in calls ==> Audited(c)) ==> Rebuilt()
      ensures |tables| == |calls| + 1 && tables[0] == old(table) && tables[|calls|] == table
      ensures forall n :: 0 <= n < |calls| ==> Moves(writes, maxBulk, calls[n], tables[n], tables[n + 1])
    {
      tables := [table];
      for n := 0 to |calls|
        invariant Valid()
        invariant |tables| == n + 1 && tables[0] == old(table) && tables[n] == table
        invariant forall k :: 0 <= k < n ==> Moves(writes, maxBulk, calls[k], tables[k], tables[k + 1])
        invariant !writes ==> NamespacedKept(old(table), table)
        invariant old(Rebuilt()) && (forall c :: c in calls ==> Audited(c)) ==> Rebuilt()
      {
        ServeOne(calls[n]);
        tables := tables + [table];
      }
    }
  }

  /** A call with the tags that exist when it is made and the rows its query lists. */
  datatype Call =
    | GetOrCreate(tag: Tag, place: Place, assignedBy: Option<string>)
    | Assign(tag: Tag, place: Place, assignedBy: Option<string>, includeGlobal: bool, audit: bool)
    | Remove(place: Place, tagId: nat, audit: bool)
    | BulkAssign(tags: map<nat, Tag>, place: Place, tagIds: seq<nat>, rows: seq<Tag>,
                 assignedBy: Option<string>, includeGlobal: bool, audit: bool)
    | BulkRemove(place: Place, tagIds: seq<nat>, audit: bool)
    | Replace(tags: map<nat, Tag>, place: Place, tagIds: seq<nat>, rows: seq<Tag>,
              assignedBy: Option<string>, includeGlobal: bool, audit: bool)

  /** The listing of a bulk call is what its query returns. */
  ghost predicate Answerable(c: Call) {
    c.BulkAssign? || c.Replace? ==> Fetches(c.tags, c.place.tenant, c.tagIds, c.rows)
  }

  /** The lookup helper logs nothing itself. */
  predicate Audited(c: Call) {
    !c.GetOrCreate? && c.audit
  }

  /** Whether a call is accepted. */
  ghost predicate Accepted(writes: bool, maxBulk: nat, c: Call) {
    && MayWrite(writes, c.place.ns)
    && match c
       case GetOrCreate(tag, place, _) => Validate(tag, place, true).None?
       case Assign(tag, place, _, includeGlobal, _) => Validate(tag, place, includeGlobal).None?
       case Remove(_, _, _) => true
       case BulkRemove(_, tagIds, _) => |tagIds| <= maxBulk
       case BulkAssign(tags, place, tagIds, _, _, includeGlobal, _) =>
         |tagIds| <= maxBulk && forall id :: id in tagIds ==> Assignable(tags, place, includeGlobal, id)
       case Replace(tags, place, tagIds, _, _, includeGlobal, _) =>
         |tagIds| <= maxBulk && forall id :: id in tagIds ==> Assignable(tags, place, includeGlobal, id)
  }

  /** The tags a resource holds after an accepted call. */
  function HeldAfter(c: Call, held: set<nat>): set<nat> {
    match c
    case GetOrCreate(tag, _, _) => held + {tag.id}
    case Assign(tag, _, _, _, _) => held + {tag.id}
    case Remove(_, tagId, _) => held - {tagId}
    case BulkAssign(_, _, tagIds, _, _, _, _) => held + Requested(tagIds)
    case BulkRemove(_, tagIds, _) => held - Requested(tagIds)
    case Replace(_, _, tagIds, _, _, _, _) => Requested(tagIds)
  }

  /** The resource of a call holds what it should, and no other slot has changed. */
  ghost predicate Arrives(c: Call, before: Table, after: Table) {
    var held, wanted := Held(before, c.place), HeldAfter(c, Held(before, c.place));
    Held(after, c.place) == wanted && OnlyAt(before, after, c.place, (held - wanted) + (wanted - held))
  }

  /** An accepted call moves the tags of its resource as it should and nothing else; a refused one nothing
      at all. */
  ghost predicate Moves(writes: bool, maxBulk: nat, c: Call, before: Table, after: Table) {
    if Accepted(writes, maxBulk, c) then Arrives(c, before, after) else after == before
  }

  lemma PutMoves(c: Call, before: Table, tag: nat, row: Row)
    requires c.GetOrCreate? || c.Assign?
    requires c.tag.id == tag && (Slot(c.place, tag) in before ==> before[Slot(c.place, tag)] == row)
    ensures Arrives(c, before, before[Slot(c.place, tag) := row])
  {
    assert Slot(c.place, tag) in before <==> tag in Held(before, c.place);
  }

  lemma MovedBy(held: set<nat>, ids: set<nat>)
    ensures (held - (held - ids)) + ((held - ids) - held) == held * ids
    ensures (held - (held + ids)) + ((held + ids) - held) == ids - held
  {}

  lemma DropMoves(c: Call, before: Table, after: Table, ids: set<nat>)
    requires Held(after, c.place) == Held(before, c.place) - ids
    requires OnlyAt(before, after, c.place, Held(before, c.place) * ids)
    requires (c.Remove? && ids == {c.tagId}) || (c.BulkRemove? && ids == Requested(c.tagIds))
    ensures Arrives(c, before, after)
  {
    MovedBy(Held(before, c.place), ids);
  }

  lemma MergeMoves(c: Call, before: Table, after: Table, ids: set<nat>)
    requires Held(after, c.place) == Held(before, c.place) + ids
    requires OnlyAt(before, after, c.place, ids - Held(before, c.place))
    requires c.BulkAssign? && ids == Requested(c.tagIds)
    ensures Arrives(c, before, after)
  {
    MovedBy(Held(before, c.place), ids);
  }

  lemma Fewer(ids: set<nat>, done: set<nat>, t: nat)
    requires t in ids - done
    ensures |ids - (done + {t})| < |ids - done|
  {
    assert ids - (done + {t}) == (ids - done) - {t};
  }

  lemma DropNothing(table: Table, place: Place)
    ensures table - SlotsOf(place, {}) == table
  {}

  /** Naming tags the resource does not hold makes no difference to a removal. */
  lemma DropSame(before: Table, after: Table, place: Place, ids: set<nat>, named: set<nat>, removed: nat,
                 changes: seq<Change>)
    requires ids == Held(before, place) * named
    requires Dropped(before, after, place, ids, removed, changes)
    ensures Dropped(before, after, place, named, removed, changes)
  {}
}
