/** Tags, aliases and vocabularies: the rows, the service calls that write them, and the outbox
    event every write leaves. */
module Taxonomy {
  import opened Scopes

  datatype Kind = TagKind | AliasKind | VocabularyKind

  datatype Field =
    | Tenant | Application | NamespaceType | NamespaceId | Name | Slug | Type | Description
    | Parent | Vocabulary | Canonical | Metadata | Active

  datatype Value = Null | Text(text: string) | Flag(flag: bool) | Ref(id: nat)

  /** A row by column; also a partial row, such as an update's changes. */
  type Row = map<Field, Value>

  datatype Key = Key(kind: Kind, id: nat)

  const SCOPE_FIELDS := {Application, NamespaceType, NamespaceId}

  function Columns(kind: Kind): set<Field> {
    SCOPE_FIELDS + {Tenant, Name, Slug, Metadata, Active}
    + match kind
      case TagKind => {Type, Description, Parent, Vocabulary}
      case AliasKind => {Canonical}
      case VocabularyKind => {Description}
  }

  predicate HasType(f: Field, v: Value) {
    match f
    case Tenant | Name | Slug | Type | Metadata => v.Text?
    case Application | NamespaceType | NamespaceId | Description => v.Null? || v.Text?
    case Parent | Vocabulary => v.Null? || v.Ref?
    case Canonical => v.Ref?
    case Active => v.Flag?
  }

  ghost predicate Typed(kind: Kind, row: Row) {
    forall f :: f in row ==> f in Columns(kind) && HasType(f, row[f])
  }

  ghost predicate IsRow(kind: Kind, row: Row) {
    row.Keys == Columns(kind) && Typed(kind, row)
  }

  function Get(row: Row, f: Field): Value {
    if f in row then row[f] else Null
  }

  function TextOf(v: Value): Option<string> {
    if v.Text? then Some(v.text) else None
  }

  function App(row: Row): Option<string> {
    TextOf(Get(row, Application))
  }

  function Ns(row: Row): Namespace {
    Namespace(TextOf(Get(row, NamespaceType)), TextOf(Get(row, NamespaceId)))
  }

  predicate IsActive(row: Row) {
    Get(row, Active) == Flag(true)
  }

  function Flip(row: Row, on: bool): Row {
    row[Active := Flag(on)]
  }

  function CommonDefaults(): (row: Row)
    ensures row.Keys == SCOPE_FIELDS + {Tenant, Name, Slug, Metadata, Active}
    ensures forall f :: f in row ==> HasType(f, row[f])
  {
    map[Tenant := Text(""), Application := Null, NamespaceType := Null, NamespaceId := Null,
        Name := Text(""), Slug := Text(""), Metadata := Text("{}"), Active := Flag(true)]
  }

  function OwnDefaults(kind: Kind): (row: Row)
    ensures row.Keys == Columns(kind) - (SCOPE_FIELDS + {Tenant, Name, Slug, Metadata, Active, Canonical})
    ensures forall f :: f in row ==> HasType(f, row[f])
  {
    match kind
    case TagKind => map[Type := Text(""), Description := Null, Parent := Null, Vocabulary := Null]
    case AliasKind => map[]
    case VocabularyKind => map[Description := Null]
  }

  /** What the columns hold when a create leaves them out; an alias has no default tag. */
  function Defaults(kind: Kind): (row: Row)
    ensures row.Keys == Columns(kind) - {Canonical} && Typed(kind, row)
  {
    CommonDefaults() + OwnDefaults(kind)
  }

  // ----- Constraints

  predicate SameSlot(kind: Kind, a: Row, b: Row) {
    && Get(a, Tenant) == Get(b, Tenant) && Get(a, Slug) == Get(b, Slug)
    && (kind == TagKind ==> Get(a, Type) == Get(b, Type))
    && SameScopeColumns(App(a), Ns(a), App(b), Ns(b))
  }

  /** The partial unique constraints: no other active row in the same slot. */
  predicate Unclaimed(rows: map<Key, Row>, key: Key, row: Row) {
    IsActive(row) ==>
      forall k | k in rows ::
        k != key && k.kind == key.kind && IsActive(rows[k]) ==> !SameSlot(key.kind, row, rows[k])
  }

  /** The check constraints of one row. */
  predicate Checked(key: Key, row: Row) {
    NamespaceScopeCheck(App(row), Ns(row)) && (key.kind == TagKind ==> Get(row, Parent) != Ref(key.id))
  }

  predicate Savable(rows: map<Key, Row>, key: Key, row: Row) {
    Checked(key, row) && Unclaimed(rows, key, row)
  }

  // ----- References between rows

  function Target(f: Field): Kind {
    if f == Vocabulary then VocabularyKind else TagKind
  }

  function Referenced(rows: map<Key, Row>, row: Row, f: Field): Option<Row> {
    var v := Get(row, f);
    if v.Ref? && Key(Target(f), v.id) in rows then Some(rows[Key(Target(f), v.id)]) else None
  }

  /** What a row may refer to: the same tenant, shared or its own application, global or its own
      namespace. Parents, vocabularies and canonical tags share this condition. */
  predicate Compatible(row: Row, target: Row) {
    && Get(target, Tenant) == Get(row, Tenant)
    && ApplicationReaches(App(row), App(target))
    && MatchesScope(Ns(target), Ns(row), true)
  }

  datatype Error =
    | BadScope | WritesDisabled | ScopeImmutable | NotFound | WrongTenant | Inactive
    | WrongApplication | WrongNamespace | Conflict

  /** The checks one reference goes through, in the order they are made. */
  function CheckTarget(row: Row, target: Row, requireActive: bool): Option<Error> {
    if Get(target, Tenant) != Get(row, Tenant) then Some(WrongTenant)
    else if requireActive && !IsActive(target) then Some(Inactive)
    else if !ApplicationReaches(App(row), App(target)) then Some(WrongApplication)
    else if !MatchesScope(Ns(target), Ns(row), true) then Some(WrongNamespace)
    else None
  }

  function CheckReference(rows: map<Key, Row>, row: Row, f: Field, requireActive: bool): Option<Error> {
    if Get(row, f).Null? then None
    else
      match Referenced(rows, row, f)
      case None => Some(NotFound)
      case Some(target) => CheckTarget(row, target, requireActive)
  }

  /** The reference checks of a write: a tag's vocabulary must be active only when the write sets
      it, a canonical tag always, a parent never. */
  function CheckReferences(rows: map<Key, Row>, kind: Kind, row: Row, newVocabulary: bool)
    : Option<Error>
  {
    match kind
    case VocabularyKind => None
    case AliasKind => CheckReference(rows, row, Canonical, true)
    case TagKind =>
      match CheckReference(rows, row, Parent, false)
      case Some(e) => Some(e)
      case None => CheckReference(rows, row, Vocabulary, newVocabulary)
  }

  function CheckRevival(rows: map<Key, Row>, seen: map<Key, Row>, kind: Kind, row: Row): Option<Error> {
    match kind
    case VocabularyKind => None
    case AliasKind => CheckReference(rows, row, Canonical, true)
    case TagKind =>
      match CheckReference(seen, row, Parent, false)
      case Some(e) => Some(e)
      case None => CheckReference(rows, row, Vocabulary, true)
  }

  // ----- Outbox events

  datatype Payload =
    | Created(after: Row)
    | Updated(before: Row, after: Row)
    | Deactivated(before: Row, after: Row, cascaded: seq<nat>, source: Option<nat>)

  /** An event carries the tenant and scope columns of the row it describes. */
  datatype Event = Event(key: Key, scope: Row, payload: Payload)

  function EventScope(row: Row): Row {
    map f | f in {Tenant, Application, NamespaceType, NamespaceId} :: Get(row, f)
  }

  /** Snapshots leave the namespace columns to the event. */
  function Snapshot(row: Row): Row {
    row - {NamespaceType, NamespaceId}
  }

  function Logged(audit: bool, events: seq<Event>): seq<Event> {
    if audit then events else []
  }

  const REACTIVATED := Updated(map[Active := Flag(false)], map[Active := Flag(true)])

  function Deactivation(cascaded: seq<nat>, source: Option<nat>): Payload {
    Deactivated(map[Active := Flag(true)], map[Active := Flag(false)], cascaded, source)
  }

  // ----- The difference an update makes

  function After(row: Row, data: Row): Row {
    map f | f in data && Get(row, f) != data[f] :: data[f]
  }

  function Before(row: Row, data: Row): Row {
    map f | f in data && Get(row, f) != data[f] :: Get(row, f)
  }

  /** An update's two patches are inverse: the new values take the old row to the new one, the old
      values take it back, and there is nothing to log exactly when nothing changed. */
  lemma PatchesAreInverse(kind: Kind, row: Row, data: Row)
    requires IsRow(kind, row) && Typed(kind, data)
    ensures row + After(row, data) == row + data
    ensures (row + data) + Before(row, data) == row
    ensures Before(row, data).Keys == After(row, data).Keys
    ensures After(row, data) == map[] <==> row + data == row
    ensures forall f :: f in After(row, data) <==> f in data && data[f] != row[f]
  {}

  // ----- The service calls

  datatype Db = Db(rows: map<Key, Row>, outbox: seq<Event>)

  /** Writes one row and the event that describes the write. */
  function Write(db: Db, audit: bool, key: Key, row: Row, payload: Payload): Db {
    Db(db.rows[key := row], db.outbox + Logged(audit, [Event(key, EventScope(row), payload)]))
  }

  function NewRow(kind: Kind, data: Row): Row {
    Defaults(kind) + data
  }

  /** A tag's parent and vocabulary are checked on the caller's copies of them, `seen`, which are
      never locked; an alias's canonical tag is locked and read again. */
  function DoCreate(db: Db, writes: bool, audit: bool, kind: Kind, id: nat, data: Row, seen: map<Key, Row>)
    : Result<Db, Error>
  {
    var key, row := Key(kind, id), NewRow(kind, data);
    if !IsScopeContext(Ns(row)) then Err(BadScope)
    else if !MayWrite(writes, Ns(row)) then Err(WritesDisabled)
    else
      match CheckReferences(if kind == AliasKind then db.rows else seen, kind, row, true)
      case Some(e) => Err(e)
      case None =>
        if key in db.rows || !Savable(db.rows, key, row) then Err(Conflict)
        else Ok(Write(db, audit, key, row, Created(Snapshot(row))))
  }

  predicate ChangesScope(instance: Row, data: Row) {
    exists f :: f in SCOPE_FIELDS && f in data && data[f] != Get(instance, f)
  }

  /** What an update does once its first checks have passed. */
  function DoSave(db: Db, audit: bool, kind: Kind, id: nat, instance: Row, data: Row): Result<Db, Error> {
    var key, row := Key(kind, id), instance + data;
    if After(instance, data) == map[] then Ok(db)
    else
      match (if kind == AliasKind then CheckReferences(db.rows, kind, row, true) else None)
      case Some(e) => Err(e)
      case None =>
        if !Savable(db.rows, key, row) then Err(Conflict)
        else Ok(Write(db, audit, key, row, Updated(Before(instance, data), After(instance, data))))
  }

  /** An update saves the whole in-memory row. References are checked on the caller's copies, under
      the row's tenant before the update; an alias's canonical tag is checked again, once locked,
      under its tenant after it. */
  function DoUpdate(db: Db, writes: bool, audit: bool, kind: Kind, id: nat, instance: Row, data: Row,
                    seen: map<Key, Row>)
    : Result<Db, Error>
  {
    var row := instance + data;
    if !MayWrite(writes, Ns(instance)) then Err(WritesDisabled)
    else if ChangesScope(instance, data) then Err(ScopeImmutable)
    else
      match CheckReferences(seen, kind, row[Tenant := Get(instance, Tenant)],
                            Get(row, Vocabulary) != Get(instance, Vocabulary))
      case Some(e) => Err(e)
      case None =>
        DoSave(db, audit, kind, id, instance, data)
  }

  /** The reference a reactivation locks must be found in the row's own tenant. */
  predicate Lockable(rows: map<Key, Row>, row: Row, f: Field) {
    Get(row, f).Ref? ==>
      var target := Referenced(rows, row, f);
      target.Some? && Get(target.value, Tenant) == Get(row, Tenant)
  }

  /** A revived tag's parent is read without a lock; everything else is locked. */
  function DoReactivate(db: Db, writes: bool, audit: bool, kind: Kind, id: nat, instance: Row,
                        seen: map<Key, Row>)
    : Result<Db, Error>
  {
    var key := Key(kind, id);
    if !MayWrite(writes, Ns(instance)) then Err(WritesDisabled)
    else if key !in db.rows || Get(db.rows[key], Tenant) != Get(instance, Tenant) then Err(NotFound)
    else
      var row := db.rows[key];
      if kind == AliasKind && !Lockable(db.rows, row, Canonical) then Err(NotFound)
      else if IsActive(row) then Ok(db)
      else if kind == TagKind && !Lockable(db.rows, row, Vocabulary) then Err(NotFound)
      else
        match CheckRevival(db.rows, seen, kind, row)
        case Some(e) => Err(e)
        case None =>
          if !Savable(db.rows, key, Flip(row, true)) then Err(Conflict)
          else Ok(Write(db, audit, key, Flip(row, true), REACTIVATED))
  }

  /** Aliases and vocabularies are deactivated on the word of the in-memory row, whose columns the
      event carries. */
  function DoDeactivate(db: Db, writes: bool, audit: bool, kind: Kind, id: nat, instance: Row)
    : Result<Db, Error>
  {
    var key := Key(kind, id);
    if !MayWrite(writes, Ns(instance)) then Err(WritesDisabled)
    else if !IsActive(instance) then Ok(db)
    else if key !in db.rows then Err(NotFound)
    else
      Ok(Db(db.rows[key := Flip(db.rows[key], false)],
            db.outbox + Logged(audit, [Event(key, EventScope(instance), Deactivation([], None))])))
  }

  // ----- A tag's deactivation

  predicate CascadesTo(rows: map<Key, Row>, id: nat, tenant: Value, k: Key) {
    && k in rows && k.kind == AliasKind && IsActive(rows[k])
    && Get(rows[k], Canonical) == Ref(id) && Get(rows[k], Tenant) == tenant
  }

  /** A listing of exactly the active aliases of the tag in its tenant. */
  ghost predicate Lists(rows: map<Key, Row>, id: nat, tenant: Value, cascade: seq<nat>) {
    && (forall i, j :: 0 <= i < j < |cascade| ==> cascade[i] != cascade[j])
    && (forall a :: a in cascade <==> CascadesTo(rows, id, tenant, Key(AliasKind, a)))
  }

  function FlipAliases(rows: map<Key, Row>, cascade: seq<nat>): map<Key, Row> {
    map k | k in rows ::
      if k.kind == AliasKind && k.id in cascade then Flip(rows[k], false) else rows[k]
  }

  function AliasEvents(rows: map<Key, Row>, cascade: seq<nat>, source: nat): (events: seq<Event>)
    ensures |events| == |cascade|
  {
    seq(|cascade|, i requires 0 <= i < |cascade| =>
      var key := Key(AliasKind, cascade[i]);
      Event(key, if key in rows then EventScope(rows[key]) else map[], Deactivation([], Some(source))))
  }

  function DoDeactivateTag(db: Db, writes: bool, audit: bool, id: nat, instance: Row, cascade: seq<nat>)
    : Result<Db, Error>
  {
    var key := Key(TagKind, id);
    if !MayWrite(writes, Ns(instance)) then Err(WritesDisabled)
    else if key !in db.rows then Err(NotFound)
    else if !IsActive(db.rows[key]) then Ok(db)
    else if exists a :: a in cascade && Key(AliasKind, a) in db.rows
                        && !MayWrite(writes, Ns(db.rows[Key(AliasKind, a)])) then Err(WritesDisabled)
    else
      var tagged := Write(db, audit, key, Flip(db.rows[key], false), Deactivation(cascade, None));
      Ok(Db(FlipAliases(tagged.rows, cascade),
            tagged.outbox + Logged(audit, AliasEvents(db.rows, cascade, id))))
  }

  // ----- Runs

  /** A call with the in-memory row it was given and the caller's copies of related rows. A tag's
      deactivation comes with the listing its query returns. */
  datatype Call =
    | Create(kind: Kind, id: nat, data: Row, seen: map<Key, Row>)
    | Update(kind: Kind, id: nat, instance: Row, data: Row, seen: map<Key, Row>)
    | Reactivate(kind: Kind, id: nat, instance: Row, seen: map<Key, Row>)
    | Deactivate(kind: Kind, id: nat, instance: Row)
    | DeactivateTag(id: nat, instance: Row, cascade: seq<nat>)

  function Do(db: Db, writes: bool, audit: bool, c: Call): Result<Db, Error> {
    match c
    case Create(kind, id, data, seen) => DoCreate(db, writes, audit, kind, id, data, seen)
    case Update(kind, id, instance, data, seen) =>
      DoUpdate(db, writes, audit, kind, id, instance, data, seen)
    case Reactivate(kind, id, instance, seen) => DoReactivate(db, writes, audit, kind, id, instance, seen)
    case Deactivate(kind, id, instance) => DoDeactivate(db, writes, audit, kind, id, instance)
    case DeactivateTag(id, instance, cascade) => DoDeactivateTag(db, writes, audit, id, instance, cascade)
  }

  /** A failed call rolls back. */
  function Commit(db: Db, writes: bool, audit: bool, c: Call): Db {
    var r := Do(db, writes, audit, c);
    if r.Ok? then r.value else db
  }

  /** An instance loaded from the store, however long ago, has the row's scope. */
  ghost predicate Loaded(rows: map<Key, Row>, kind: Kind, id: nat, instance: Row) {
    && Key(kind, id) in rows && IsRow(kind, instance)
    && forall f :: f in SCOPE_FIELDS ==> Get(instance, f) == Get(rows[Key(kind, id)], f)
  }

  /** A caller's copies of related rows were loaded from the store too. */
  ghost predicate Copies(rows: map<Key, Row>, seen: map<Key, Row>) {
    forall k :: k in seen ==> Loaded(rows, k.kind, k.id, seen[k])
  }

  ghost predicate Callable(rows: map<Key, Row>, c: Call) {
    match c
    case Create(kind, _, data, seen) =>
      Typed(kind, data) && (kind == AliasKind ==> Canonical in data) && Copies(rows, seen)
    case Update(kind, id, instance, data, seen) =>
      Loaded(rows, kind, id, instance) && Typed(kind, data) && Copies(rows, seen)
    case Reactivate(kind, id, instance, seen) => Loaded(rows, kind, id, instance) && Copies(rows, seen)
    case Deactivate(kind, id, instance) => Loaded(rows, kind, id, instance) && kind != TagKind
    case DeactivateTag(id, instance, cascade) =>
      && Loaded(rows, TagKind, id, instance)
      && Lists(rows, id, Get(rows[Key(TagKind, id)], Tenant), cascade)
  }

  datatype Step = Step(writes: bool, audit: bool, call: Call)

  function Run(db: Db, steps: seq<Step>): Db {
    if steps == [] then db
    else
      var before := Run(db, steps[..|steps| - 1]);
      var last := steps[|steps| - 1];
      Commit(before, last.writes, last.audit, last.call)
  }

  const EMPTY := Db(map[], [])
}
