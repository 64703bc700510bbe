/** Assignments of tags to external resources: which tags may be assigned, the log of changes, and
    what a whole-set replacement means. */
module Assignments {
  import opened Scopes
  import opened Resolution

  /** A resource within one exact scope. */
  datatype Place = Place(tenant: string, application: string, ns: Namespace,
                         resourceType: string, resourceId: string)

  /** The key both unique constraints, global and namespaced, are about. */
  datatype Slot = Slot(place: Place, tag: nat)

  datatype Row = Row(id: nat, assignedBy: Option<string>)

  type Table = map<Slot, Row>

  datatype Error =
    WritesDisabled | TooMany | Unknown(ids: seq<nat>) | TagNotFound | InactiveTag | OtherApplication

  // ----- Which tags may be assigned

  function Validate(tag: Tag, place: Place, includeGlobal: bool): Option<Error> {
    if tag.tenant != place.tenant then Some(TagNotFound)
    else if !tag.active then Some(InactiveTag)
    else if tag.application.Some? && tag.application != Some(place.application) then Some(OtherApplication)
    else if !MatchesScope(tag.ns, place.ns, includeGlobal) then Some(TagNotFound)
    else None
  }

  /** What each refusal to assign one tag means. A namespaced write may be switched off; a tag of another
      tenant, or out of the place's namespace, is not found; the two other refusals come between. */
  ghost predicate RefusedFor(e: Error, writes: bool, tag: Tag, place: Place, includeGlobal: bool) {
    var open := writes || place.ns.kind.None?;
    var own := tag.application.None? || tag.application.value == place.application;
    var inScope := tag.ns == place.ns || (tag.ns == GLOBAL && includeGlobal && place.ns.kind.Some?);
    match e
    case WritesDisabled => !open
    case InactiveTag => open && tag.tenant == place.tenant && !tag.active
    case OtherApplication => open && tag.tenant == place.tenant && tag.active && !own
    case TagNotFound => open && (tag.tenant != place.tenant || (tag.active && own && !inScope))
    case _ => false
  }

  /** The tag exists as far as the caller can tell. */
  predicate Visible(tags: map<nat, Tag>, place: Place, includeGlobal: bool, id: nat) {
    id in tags && tags[id].tenant == place.tenant && MatchesScope(tags[id].ns, place.ns, includeGlobal)
  }

  predicate Assignable(tags: map<nat, Tag>, place: Place, includeGlobal: bool, id: nat) {
    id in tags && Validate(tags[id], place, includeGlobal).None?
  }

  predicate AllValid(tags: seq<Tag>, place: Place, includeGlobal: bool) {
    forall i | 0 <= i < |tags| :: Validate(tags[i], place, includeGlobal).None?
  }

  /** What one policy accepts, the permissive one accepts. */
  lemma PermissiveAccepts(tags: seq<Tag>, place: Place, includeGlobal: bool)
    requires AllValid(tags, place, includeGlobal)
    ensures AllValid(tags, place, true)
  {}

  /** Assignable means visible, active, and shared or the application's own. */
  lemma AssignableIs(tags: map<nat, Tag>, place: Place, includeGlobal: bool, id: nat)
    ensures Assignable(tags, place, includeGlobal, id)
            <==> Visible(tags, place, includeGlobal, id) && tags[id].active
                 && ApplicationReaches(Some(place.application), tags[id].application)
  {}

  /** The tenant's tags among some ids, each once, in whatever order the query lists them. */
  ghost predicate Fetches(tags: map<nat, Tag>, tenant: string, ids: seq<nat>, rows: seq<Tag>) {
    && (forall id :: id in tags ==> tags[id].id == id)
    && NoRepeatedIds(rows)
    && (forall t :: t in rows <==> t.id in ids && t.id in tags && tags[t.id] == t && t.tenant == tenant)
  }

  function IdsOf(rows: seq<Tag>): set<nat> {
    if rows == [] then {} else IdsOf(rows[..|rows| - 1]) + {rows[|rows| - 1].id}
  }

  lemma {:induction false} IdsOfIs(rows: seq<Tag>)
    ensures forall id :: id in IdsOf(rows) <==> exists t :: t in rows && t.id == id
    decreases |rows|
  {
    if rows != [] {
      var init, last := rows[..|rows| - 1], rows[|rows| - 1];
      IdsOfIs(init);
      assert rows == init + [last];
      assert last in rows;
    }
  }

  function Requested(ids: seq<nat>): set<nat> {
    set id | id in ids
  }

  /** Without repeats, in order of first occurrence. */
  method Distinct(ids: seq<nat>) returns (unique: seq<nat>)
    ensures forall id :: id in unique <==> id in ids
    ensures forall i, j :: 0 <= i < j < |unique| ==> unique[i] != unique[j]
  {
    unique := [];
    for n := 0 to |ids|
      invariant forall id :: id in unique <==> id in ids[..n]
      invariant forall i, j :: 0 <= i < j < |unique| ==> unique[i] != unique[j]
    {
      if ids[n] !in unique { unique := unique + [ids[n]]; }
      assert ids[..n + 1] == ids[..n] + [ids[n]];
    }
    assert ids[..|ids|] == ids;
  }

  /** The requested tags the caller cannot see: absent, another tenant's and out of scope alike. */
  method Missing(unique: seq<nat>, rows: seq<Tag>, place: Place, includeGlobal: bool,
                 ghost tags: map<nat, Tag>)
    returns (missing: seq<nat>)
    requires Fetches(tags, place.tenant, unique, rows)
    ensures forall id :: id in missing <==> id in unique && !Visible(tags, place, includeGlobal, id)
  {
    missing := [];
    for n := 0 to |unique|
      invariant forall id :: id in missing <==>
                  id in unique[..n] && !Visible(tags, place, includeGlobal, id)
    {
      var id := unique[n];
      var seen := exists t :: t in rows && t.id == id && MatchesScope(t.ns, place.ns, includeGlobal);
      SeenIsVisible(tags, unique, rows, place, includeGlobal, id);
      if !seen { missing := missing + [id]; }
      assert unique[..n + 1] == unique[..n] + [id];
    }
    assert unique[..|unique|] == unique;
  }

  lemma SeenIsVisible(tags: map<nat, Tag>, unique: seq<nat>, rows: seq<Tag>, place: Place,
                      includeGlobal: bool, id: nat)
    requires Fetches(tags, place.tenant, unique, rows) && id in unique
    ensures (exists t :: t in rows && t.id == id && MatchesScope(t.ns, place.ns, includeGlobal))
            <==> Visible(tags, place, includeGlobal, id)
  {}

  lemma AllVisible(tags: map<nat, Tag>, unique: seq<nat>, rows: seq<Tag>, place: Place, includeGlobal: bool)
    requires Fetches(tags, place.tenant, unique, rows)
    requires forall id :: id in unique ==> Visible(tags, place, includeGlobal, id)
    ensures IdsOf(rows) == Requested(unique)
    ensures (forall id :: id in unique ==> Assignable(tags, place, includeGlobal, id))
            <==> forall t :: t in rows ==> Validate(t, place, includeGlobal).None?
  {
    IdsOfIs(rows);
    forall id | id in unique ensures tags[id] in rows {
      assert Visible(tags, place, includeGlobal, id);
    }
  }

  /** A bulk request resolves exactly when it is within the size limit and every tag it names is
      assignable; a tag the caller cannot see is reported as unknown before any other fault. */
  /** What each refusal of a bulk request means. Too many tags come first, then every tag the caller cannot
      see, then the first tag in query order that is inactive or another application's. */
  ghost predicate BulkFault(e: Error, tags: map<nat, Tag>, place: Place, includeGlobal: bool,
                            tagIds: seq<nat>, maxBulk: nat)
  {
    var seen := forall id :: id in tagIds ==> Visible(tags, place, includeGlobal, id);
    match e
    case TooMany => |tagIds| > maxBulk
    case Unknown(ids) =>
      && |tagIds| <= maxBulk && !seen
      && forall id :: id in ids <==> id in tagIds && !Visible(tags, place, includeGlobal, id)
    case InactiveTag =>
      |tagIds| <= maxBulk && seen && exists id :: id in tagIds && id in tags && !tags[id].active
    case OtherApplication =>
      && |tagIds| <= maxBulk && seen
      && exists id :: id in tagIds && id in tags && tags[id].active
                      && tags[id].application !in {None, Some(place.application)}
    case _ => false
  }

  method GetAssignableTags(ghost tags: map<nat, Tag>, rows: seq<Tag>, place: Place,
                           includeGlobal: bool, tagIds: seq<nat>, maxBulk: nat)
    returns (r: Result<seq<Tag>, Error>)
    requires Fetches(tags, place.tenant, tagIds, rows)
    ensures r.Ok? <==> |tagIds| <= maxBulk
                       && forall id :: id in tagIds ==> Assignable(tags, place, includeGlobal, id)
    ensures r.Ok? ==> r.value == rows && IdsOf(rows) == Requested(tagIds)
    ensures r.Ok? ==> AllValid(rows, place, includeGlobal)
    ensures r.Err? ==> BulkFault(r.error, tags, place, includeGlobal, tagIds, maxBulk)
  {
    if |tagIds| > maxBulk { return Err(TooMany); }
    var unique := Distinct(tagIds);
    var missing := Missing(unique, rows, place, includeGlobal, tags);
    if missing != [] {
      assert missing[0] in missing;
      assert !Assignable(tags, place, includeGlobal, missing[0]);
      return Err(Unknown(missing));
    }
    AllVisible(tags, unique, rows, place, includeGlobal);
    for n := 0 to |rows|
      invariant forall i :: 0 <= i < n ==> Validate(rows[i], place, includeGlobal).None?
    {
      var fault := Validate(rows[n], place, includeGlobal);
      if fault.Some? {
        assert rows[n] in rows && tags[rows[n].id] == rows[n];
        assert Visible(tags, place, includeGlobal, rows[n].id);
        return Err(fault.value);
      }
    }
    assert Requested(unique) == Requested(tagIds);
    r := Ok(rows);
  }

  // ----- The log of changes

  datatype Change = Change(added: bool, slot: Slot, row: Row)

  /** Without an audit context nothing is logged. */
  function Noted(audit: bool, changes: seq<Change>): seq<Change> {
    if audit then changes else []
  }

  lemma NotedTwice(log: seq<Change>, audit: bool, first: seq<Change>, second: seq<Change>)
    ensures log + Noted(audit, first) + Noted(audit, second) == log + Noted(audit, first + second)
    ensures log + Noted(audit, first) + [] == log + Noted(audit, first)
  {}

  function ReplayOne(table: Table, c: Change): Table {
    if c.added then table[c.slot := c.row] else table - {c.slot}
  }

  function Replay(table: Table, changes: seq<Change>): Table {
    if changes == [] then table
    else ReplayOne(Replay(table, changes[..|changes| - 1]), changes[|changes| - 1])
  }

  lemma ReplayNext(table: Table, changes: seq<Change>, c: Change)
    ensures Replay(table, changes + [c]) == ReplayOne(Replay(table, changes), c)
  {}

  lemma {:induction false} ReplayConcat(table: Table, first: seq<Change>, second: seq<Change>)
    ensures Replay(table, first + second) == Replay(Replay(table, first), second)
    decreases |second|
  {
    if second == [] {
      assert first + second == first;
    } else {
      var init, last := second[..|second| - 1], second[|second| - 1];
      ReplayConcat(table, first, init);
      ReplayNext(table, first + init, last);
      assert first + second == first + init + [last];
    }
  }

  /** Each change was real where it happened: it added a slot that was free or removed one with the
      row it held. */
  predicate RealChanges(table: Table, changes: seq<Change>) {
    changes == []
    || (var init, last := changes[..|changes| - 1], changes[|changes| - 1];
        && RealChanges(table, init)
        && (if last.added then last.slot !in Replay(table, init)
            else last.slot in Replay(table, init) && Replay(table, init)[last.slot] == last.row))
  }

  lemma RealNext(table: Table, changes: seq<Change>, c: Change)
    requires RealChanges(table, changes)
    requires if c.added then c.slot !in Replay(table, changes)
             else c.slot in Replay(table, changes) && Replay(table, changes)[c.slot] == c.row
    ensures RealChanges(table, changes + [c])
  {}

  // ----- What the operations mean

  /** The tags a resource holds in its exact scope. */
  function Held(table: Table, place: Place): set<nat> {
    set s | s in table && s.place == place :: s.tag
  }

  lemma HeldIs(table: Table, place: Place)
    ensures forall t :: t in Held(table, place) <==> Slot(place, t) in table
  {}

  lemma HeldAt(table: Table, place: Place, t: nat)
    ensures t in Held(table, place) <==> Slot(place, t) in table
  {}

  /** The resource's rows in its exact scope, by tag. */
  function Listing(table: Table, place: Place): (rows: map<nat, Row>)
    ensures rows.Keys == Held(table, place)
  {
    map t | t in Held(table, place) :: table[Slot(place, t)]
  }

  /** Only slots of the place with these tags may differ. */
  ghost predicate OnlyAt(before: Table, after: Table, place: Place, ids: set<nat>) {
    forall s: Slot :: !(s.place == place && s.tag in ids) ==>
      (s in before <==> s in after) && (s in before ==> after[s] == before[s])
  }

  /** The log rebuilds the change, one real change for each slot that moved. */
  ghost predicate Logs(before: Table, after: Table, changes: seq<Change>, moved: nat) {
    after == Replay(before, changes) && RealChanges(before, changes) && |changes| == moved
  }

  /** A bulk assignment: the resource holds the requested tags besides what it held. */
  ghost predicate Merged(before: Table, after: Table, place: Place, requested: set<nat>,
                         created: nat, existing: nat, changes: seq<Change>) {
    && Held(after, place) == Held(before, place) + requested
    && created == |requested - Held(before, place)| && existing == |requested * Held(before, place)|
    && OnlyAt(before, after, place, requested - Held(before, place))
    && Logs(before, after, changes, created)
  }

  /** A removal: the resource holds what it held but for the named tags. */
  ghost predicate Dropped(before: Table, after: Table, place: Place, ids: set<nat>,
                          removed: nat, changes: seq<Change>) {
    && Held(after, place) == Held(before, place) - ids
    && removed == |Held(before, place) * ids|
    && OnlyAt(before, after, place, Held(before, place) * ids)
    && Logs(before, after, changes, removed)
  }

  /** A replacement: the resource holds exactly the requested tags; the counts are the two
      differences; rows of tags in both are the same rows; nothing else moved. */
  ghost predicate Replaced(before: Table, after: Table, place: Place, requested: set<nat>,
                           created: nat, removed: nat, changes: seq<Change>) {
    && Held(after, place) == requested
    && created == |requested - Held(before, place)|
    && removed == |Held(before, place) - requested|
    && OnlyAt(before, after, place, (Held(before, place) - requested) + (requested - Held(before, place)))
    && Logs(before, after, changes, created + removed)
  }

  /** After a replacement the resource lists exactly the requested tags, and under a tag that it held
      before the same row. */
  lemma ReplacedListing(before: Table, after: Table, place: Place, requested: set<nat>, created: nat,
                        removed: nat, changes: seq<Change>)
    requires Replaced(before, after, place, requested, created, removed, changes)
    ensures Listing(after, place).Keys == requested
    ensures forall t :: t in requested && Slot(place, t) in before ==>
              Listing(after, place)[t] == before[Slot(place, t)]
  {
    forall t | t in requested && Slot(place, t) in before
      ensures Listing(after, place)[t] == before[Slot(place, t)]
    {
      HeldAt(before, place, t);
    }
  }

  lemma {:induction false} RealConcat(table: Table, first: seq<Change>, second: seq<Change>)
    requires RealChanges(table, first) && RealChanges(Replay(table, first), second)
    ensures RealChanges(table, first + second)
    decreases |second|
  {
    if second == [] {
      assert first + second == first;
    } else {
      var init, last := second[..|second| - 1], second[|second| - 1];
      RealConcat(table, first, init);
      ReplayConcat(table, first, init);
      RealNext(table, first + init, last);
      assert first + second == first + init + [last];
    }
  }

  lemma LogsConcat(before: Table, middle: Table, after: Table, first: seq<Change>, n: nat,
                   second: seq<Change>, m: nat)
    requires Logs(before, middle, first, n) && Logs(middle, after, second, m)
    ensures Logs(before, after, first + second, n + m)
  {
    ReplayConcat(before, first, second);
    RealConcat(before, first, second);
  }

  lemma NotHeld(table: Table, place: Place, t: nat)
    requires Slot(place, t) !in table
    ensures t !in Held(table, place)
  {}

  lemma Partition(held: set<nat>, requested: set<nat>)
    ensures held * (held - requested) == held - requested
    ensures held - (held - requested) == held * requested
    ensures requested - held * requested == requested - held
    ensures held * requested + requested == requested
  {}

  lemma AddNew(held: set<nat>, requested: set<nat>, t: nat)
    requires t !in held + requested
    ensures (requested + {t}) - held == (requested - held) + {t}
    ensures |(requested + {t}) - held| == |requested - held| + 1
    ensures (requested + {t}) * held == requested * held
    ensures held + (requested + {t}) == held + requested + {t}
  {}

  lemma OnlyAtNext(before: Table, middle: Table, place: Place, ids: set<nat>, t: nat, row: Row)
    requires OnlyAt(before, middle, place, ids)
    ensures OnlyAt(before, middle[Slot(place, t) := row], place, ids + {t})
  {}

  /** One insertion, or none. */
  lemma LogsOne(table: Table, slot: Slot, row: Row)
    ensures Logs(table, table, [], 0)
    ensures slot !in table ==> Logs(table, table[slot := row], [Change(true, slot, row)], 1)
  {}

  lemma OnlyAtBoth(before: Table, middle: Table, after: Table, place: Place, first: set<nat>, second: set<nat>)
    requires OnlyAt(before, middle, place, first) && OnlyAt(middle, after, place, second)
    ensures OnlyAt(before, after, place, first + second)
  {}

  /** Dropping what is not requested and then merging what is, is a replacement. */
  lemma DropThenMerge(before: Table, middle: Table, after: Table, place: Place, requested: set<nat>,
                      removed: nat, created: nat, existing: nat, dropped: seq<Change>, added: seq<Change>)
    requires Dropped(before, middle, place, Held(before, place) - requested, removed, dropped)
    requires Merged(middle, after, place, requested, created, existing, added)
    ensures Replaced(before, after, place, requested, created, removed, dropped + added)
  {
    var held := Held(before, place);
    Partition(held, requested);
    LogsConcat(before, middle, after, dropped, removed, added, created);
    OnlyAtBoth(before, middle, after, place, held - requested, requested - held);
  }

  lemma MergeStart(table: Table, place: Place)
    ensures Merged(table, table, place, {}, 0, 0, [])
  {}

  lemma LogsNext(before: Table, middle: Table, changes: seq<Change>, n: nat, slot: Slot, row: Row)
    requires Logs(before, middle, changes, n) && slot !in middle
    ensures Logs(before, middle[slot := row], changes + [Change(true, slot, row)], n + 1)
  {}

  lemma HeldNext(table: Table, place: Place, t: nat, row: Row)
    ensures Held(table[Slot(place, t) := row], place) == Held(table, place) + {t}
  {}

  /** One more requested tag whose slot is taken. */
  lemma MergeExisting(before: Table, middle: Table, place: Place, requested: set<nat>, created: nat,
                      existing: nat, changes: seq<Change>, t: nat)
    requires Merged(before, middle, place, requested, created, existing, changes)
    requires t !in requested && Slot(place, t) in middle
    ensures Merged(before, middle, place, requested + {t}, created, existing + 1, changes)
  {
    var held := Held(before, place);
    HeldIs(middle, place);
    assert (requested + {t}) - held == requested - held;
    assert (requested + {t}) * held == requested * held + {t};
    assert held + (requested + {t}) == held + requested;
  }

  /** One more requested tag whose slot is free: it is filled and logged. */
  lemma MergeCreated(before: Table, middle: Table, place: Place, requested: set<nat>, created: nat,
                     existing: nat, changes: seq<Change>, t: nat, row: Row)
    requires Merged(before, middle, place, requested, created, existing, changes)
    requires t !in requested && Slot(place, t) !in middle
    ensures Merged(before, middle[Slot(place, t) := row], place, requested + {t}, created + 1, existing,
                   changes + [Change(true, Slot(place, t), row)])
  {
    var held, slot := Held(before, place), Slot(place, t);
    NotHeld(middle, place, t);
    AddNew(held, requested, t);
    HeldNext(middle, place, t, row);
    LogsNext(before, middle, changes, created, slot, row);
    OnlyAtNext(before, middle, place, requested - held, t, row);
  }

  /** A bulk assignment in progress: the table, the next row id, the counts, the log, and the row of
      each tag so far. */
  datatype Progress = Progress(table: Table, next: nat, created: nat, existing: nat, log: seq<Change>,
                               rows: seq<Row>)
  {
    /** What filling one slot logs. */
    function News(slot: Slot, assignedBy: Option<string>): seq<Change> {
      if slot in table then [] else [Change(true, slot, Row(next, assignedBy))]
    }

    function Step(slot: Slot, assignedBy: Option<string>): Progress {
      if slot in table then
        this.(existing := existing + 1, rows := rows + [table[slot]])
      else
        var row := Row(next, assignedBy);
        Progress(table[slot := row], next + 1, created + 1, existing, log + News(slot, assignedBy),
                 rows + [row])
    }
  }

  /** Fills the free slots of some tags in turn. */
  function Fill(table: Table, next: nat, place: Place, tags: seq<Tag>, assignedBy: Option<string>): Progress {
    if tags == [] then Progress(table, next, 0, 0, [], [])
    else
      Fill(table, next, place, tags[..|tags| - 1], assignedBy)
      .Step(Slot(place, tags[|tags| - 1].id), assignedBy)
  }

  lemma FillNext(table: Table, next: nat, place: Place, tags: seq<Tag>, assignedBy: Option<string>, n: nat)
    requires n < |tags|
    ensures Fill(table, next, place, tags[..n + 1], assignedBy)
            == Fill(table, next, place, tags[..n], assignedBy).Step(Slot(place, tags[n].id), assignedBy)
  {
    assert tags[..n + 1][..n] == tags[..n];
  }

  ghost predicate RowsAre(table: Table, place: Place, tags: seq<Tag>, rows: seq<Row>) {
    |rows| == |tags| && forall i :: 0 <= i < |tags| ==>
      Slot(place, tags[i].id) in table && rows[i] == table[Slot(place, tags[i].id)]
  }

  /** Filling answers each tag with the row in its slot. */
  lemma {:induction false} FillRows(table: Table, next: nat, place: Place, tags: seq<Tag>,
                                    assignedBy: Option<string>)
    ensures var p := Fill(table, next, place, tags, assignedBy);
            RowsAre(p.table, place, tags, p.rows)
    decreases |tags|
  {
    if tags != [] {
      FillRows(table, next, place, tags[..|tags| - 1], assignedBy);
    }
  }

  /** The rows that came carry the given author, and ids that are new and all different. */
  ghost predicate Stamped(before: Table, after: Table, next: nat, assignedBy: Option<string>) {
    && (forall s :: s in after && s !in before ==> after[s].assignedBy == assignedBy && after[s].id >= next)
    && (forall s, t :: s in after && t in after && s !in before && t !in before && s != t ==>
          after[s].id != after[t].id)
  }

  ghost predicate IdsBelow(before: Table, after: Table, next: nat) {
    forall s :: s in after && s !in before ==> after[s].id < next
  }

  lemma StampedNext(before: Table, middle: Table, next: nat, assignedBy: Option<string>, slot: Slot, id: nat)
    requires Stamped(before, middle, next, assignedBy) && IdsBelow(before, middle, id) && next <= id
    requires slot !in middle
    ensures Stamped(before, middle[slot := Row(id, assignedBy)], next, assignedBy)
    ensures IdsBelow(before, middle[slot := Row(id, assignedBy)], id + 1)
  {}

  lemma {:induction false} FillStamps(table: Table, next: nat, place: Place, tags: seq<Tag>,
                                      assignedBy: Option<string>)
    ensures var p := Fill(table, next, place, tags, assignedBy);
            Stamped(table, p.table, next, assignedBy) && IdsBelow(table, p.table, p.next) && next <= p.next
    decreases |tags|
  {
    if tags != [] {
      FillStamps(table, next, place, tags[..|tags| - 1], assignedBy);
      var p := Fill(table, next, place, tags[..|tags| - 1], assignedBy);
      var slot := Slot(place, tags[|tags| - 1].id);
      if slot !in p.table {
        StampedNext(table, p.table, next, assignedBy, slot, p.next);
      }
    }
  }

  /** What was dropped first makes no row look new. */
  lemma StampedFrom(before: Table, middle: Table, after: Table, next: nat, assignedBy: Option<string>)
    requires Stamped(middle, after, next, assignedBy) && middle.Keys <= before.Keys
    ensures Stamped(before, after, next, assignedBy)
  {}

  /** Each row that came was logged as it is. */
  ghost predicate CreationsLogged(before: Table, after: Table, changes: seq<Change>) {
    forall s :: s in after && s !in before ==> Change(true, s, after[s]) in changes
  }

  lemma {:induction false} ReplayedCreations(before: Table, changes: seq<Change>)
    ensures CreationsLogged(before, Replay(before, changes), changes)
    decreases |changes|
  {
    if changes != [] {
      var init, last := changes[..|changes| - 1], changes[|changes| - 1];
      ReplayedCreations(before, init);
      assert changes == init + [last];
      forall s | s in Replay(before, changes) && s !in before
        ensures Change(true, s, Replay(before, changes)[s]) in changes
      {
        if last.added && last.slot == s {
          assert last in changes;
        } else {
          assert Change(true, s, Replay(before, init)[s]) in init;
        }
      }
    }
  }

  predicate NoRepeatedIds(tags: seq<Tag>) {
    forall i, j :: 0 <= i < j < |tags| ==> tags[i].id != tags[j].id
  }

  lemma LastIsNew(tags: seq<Tag>)
    requires tags != [] && NoRepeatedIds(tags)
    ensures tags[|tags| - 1].id !in IdsOf(tags[..|tags| - 1])
  {
    IdsOfIs(tags[..|tags| - 1]);
  }

  /** Filling is a bulk assignment of those tags. */
  lemma {:induction false} FillMerges(table: Table, next: nat, place: Place, tags: seq<Tag>,
                                      assignedBy: Option<string>)
    requires NoRepeatedIds(tags)
    ensures var p := Fill(table, next, place, tags, assignedBy);
            Merged(table, p.table, place, IdsOf(tags), p.created, p.existing, p.log)
    decreases |tags|
  {
    if tags == [] {
      MergeStart(table, place);
    } else {
      var init, t := tags[..|tags| - 1], tags[|tags| - 1].id;
      FillMerges(table, next, place, init, assignedBy);
      LastIsNew(tags);
      var p := Fill(table, next, place, init, assignedBy);
      if Slot(place, t) in p.table {
        MergeExisting(table, p.table, place, IdsOf(init), p.created, p.existing, p.log, t);
      } else {
        MergeCreated(table, p.table, place, IdsOf(init), p.created, p.existing, p.log, t, Row(p.next, assignedBy));
      }
    }
  }

  /** A slot still to come is as it was at the start. */
  lemma {:induction false} FillLeaves(table: Table, next: nat, place: Place, tags: seq<Tag>,
                                      assignedBy: Option<string>, t: nat)
    requires forall i :: 0 <= i < |tags| ==> tags[i].id != t
    ensures Slot(place, t) in Fill(table, next, place, tags, assignedBy).table <==> Slot(place, t) in table
    decreases |tags|
  {
    if tags != [] {
      FillLeaves(table, next, place, tags[..|tags| - 1], assignedBy, t);
    }
  }

  function SlotsOf(place: Place, ids: set<nat>): set<Slot> {
    set t | t in ids :: Slot(place, t)
  }

  lemma DropNext(before: Table, place: Place, done: set<nat>, changes: seq<Change>, t: nat)
    requires Replay(before, changes) == before - SlotsOf(place, done) && RealChanges(before, changes)
    requires t !in done && Slot(place, t) in before
    ensures var c := Change(false, Slot(place, t), before[Slot(place, t)]);
            && Replay(before, changes + [c]) == before - SlotsOf(place, done + {t})
            && RealChanges(before, changes + [c])
  {}

  lemma DropDone(before: Table, place: Place, ids: set<nat>, changes: seq<Change>)
    requires ids <= Held(before, place) && |changes| == |ids|
    requires Replay(before, changes) == before - SlotsOf(place, ids) && RealChanges(before, changes)
    ensures Dropped(before, before - SlotsOf(place, ids), place, ids, |ids|, changes)
  {
    var after := before - SlotsOf(place, ids);
    HeldIs(before, place);
    HeldIs(after, place);
    assert Held(before, place) * ids == ids;
    forall t ensures t in Held(after, place) <==> t in Held(before, place) - ids {
      assert Slot(place, t) in SlotsOf(place, ids) <==> t in ids;
    }
  }

  /** Replacing with the same set again does nothing and says so. */
  lemma ReplaceIsIdempotent(first: Table, second: Table, third: Table, place: Place, requested: set<nat>,
                            created: nat, removed: nat, changes: seq<Change>,
                            created2: nat, removed2: nat, changes2: seq<Change>)
    requires Replaced(first, second, place, requested, created, removed, changes)
    requires Replaced(second, third, place, requested, created2, removed2, changes2)
    ensures created2 == removed2 == 0 && changes2 == [] && third == second
  {}

  lemma FillAnswers(table: Table, next: nat, place: Place, tags: seq<Tag>, assignedBy: Option<string>)
    requires NoRepeatedIds(tags)
    ensures var p := Fill(table, next, place, tags, assignedBy);
            && Merged(table, p.table, place, IdsOf(tags), p.created, p.existing, p.log)
            && Logs(table, p.table, p.log, p.created)
            && RowsAre(p.table, place, tags, p.rows)
  {
    FillMerges(table, next, place, tags, assignedBy);
    FillRows(table, next, place, tags, assignedBy);
  }

  /** Dropping what is not requested and then filling what is, is a replacement. */
  lemma DropThenFill(before: Table, middle: Table, next: nat, place: Place, tags: seq<Tag>,
                     assignedBy: Option<string>, removed: nat, dropped: seq<Change>)
    requires NoRepeatedIds(tags)
    requires Dropped(before, middle, place, Held(before, place) - IdsOf(tags), removed, dropped)
    ensures var p := Fill(middle, next, place, tags, assignedBy);
            Replaced(before, p.table, place, IdsOf(tags), p.created, removed, dropped + p.log)
  {
    var p := Fill(middle, next, place, tags, assignedBy);
    FillMerges(middle, next, place, tags, assignedBy);
    DropThenMerge(before, middle, p.table, place, IdsOf(tags), removed, p.created, p.existing, dropped, p.log);
  }

  // ----- The kill-switch

  function Namespaced(table: Table): Table {
    map s | s in table && !s.place.ns.IsGlobal() :: table[s]
  }

  /** No namespaced assignment came, went or moved. */
  predicate NamespacedKept(before: Table, after: Table) {
    Namespaced(after) == Namespaced(before)
  }

  lemma GlobalChangeKeeps(before: Table, after: Table, place: Place, ids: set<nat>)
    requires OnlyAt(before, after, place, ids) && place.ns.IsGlobal()
    ensures NamespacedKept(before, after)
  {
    forall s | s in Namespaced(before) ensures s in after && after[s] == before[s] {
      assert !(s.place == place && s.tag in ids);
    }
    forall s | s in Namespaced(after) ensures s in before {
      assert !(s.place == place && s.tag in ids);
    }
  }

  lemma GlobalSlotKeeps(table: Table, slot: Slot, row: Row)
    requires slot.place.ns.IsGlobal()
    ensures NamespacedKept(table, table[slot := row])
  {}

  lemma GlobalMergeKeeps(before: Table, after: Table, place: Place, requested: set<nat>, created: nat,
                         existing: nat, changes: seq<Change>)
    requires Merged(before, after, place, requested, created, existing, changes) && place.ns.IsGlobal()
    ensures NamespacedKept(before, after)
  {
    GlobalChangeKeeps(before, after, place, requested - Held(before, place));
  }

  lemma GlobalDropKeeps(before: Table, after: Table, place: Place, ids: set<nat>, removed: nat,
                        changes: seq<Change>)
    requires Dropped(before, after, place, ids, removed, changes) && place.ns.IsGlobal()
    ensures NamespacedKept(before, after)
  {
    GlobalChangeKeeps(before, after, place, Held(before, place) * ids);
  }

  lemma GlobalReplaceKeeps(before: Table, after: Table, place: Place, requested: set<nat>, created: nat,
                           removed: nat, changes: seq<Change>)
    requires Replaced(before, after, place, requested, created, removed, changes) && place.ns.IsGlobal()
    ensures NamespacedKept(before, after)
  {
    var held := Held(before, place);
    GlobalChangeKeeps(before, after, place, (held - requested) + (requested - held));
  }
}
