/** The taxonomy write operations as interleaved transactions over row locks. Unlocked reads see
    committed rows; a transaction's writes become visible when it commits. */
module Locking {
  import opened Scopes

  type TagId = nat
  type AliasId = nat
  type VocabId = nat
  type TxId = nat
  type TenantId = nat

  datatype Tag = Tag(tenant: TenantId, active: bool, vocab: Option<VocabId>)

  /** `sortName` stands for the (name, slug) an alias query is ordered by, before its id. */
  datatype Alias = Alias(tenant: TenantId, tag: TagId, active: bool, sortName: int)

  datatype Db = Db(tags: map<TagId, Tag>, aliases: map<AliasId, Alias>, vocabs: map<VocabId, bool>)

  datatype Row = TagRow(t: TagId) | VocabRow(v: VocabId) | AliasRow(a: AliasId)

  /** One service call. `saved` is the whole row an update writes back: the caller's possibly stale
      copy with its edits applied. Creating a tag or a vocabulary locks nothing. */
  datatype Op =
    | CreateAlias(a: AliasId, row: Alias)
    | UpdateAlias(a: AliasId, saved: Alias)
    | ReactivateAlias(a: AliasId, attempt: nat)
    | DeactivateAlias(a: AliasId)
    | DeactivateTag(t: TagId)
    | ReactivateTag(t: TagId)
    | UpdateTag(t: TagId, savedTag: Tag)
    | SaveVocab(v: VocabId, active: bool)
    | CreateTag(t: TagId, savedTag: Tag)
    | CreateVocab(v: VocabId, active: bool)

  const MAX_ATTEMPTS := 3

  /** Where a transaction stands. Ask phases wait for a row, Has phases hold it; `checked` says
      that the locked rows have been validated. A sweep locks a listing of aliases one by one. */
  datatype Phase =
    | Start
    | AskTag(t: TagId)
    | HasTag(t: TagId, checked: bool)
    | AskAlias(tag: Option<TagId>, a: AliasId, checked: bool)
    | HasAlias(tag: Option<TagId>, a: AliasId, checked: bool)
    | AskVocab(tag: Option<TagId>, v: VocabId)
    | HasVocab(tag: Option<TagId>, v: VocabId, checked: bool)
    | Sweep(t: TagId, todo: seq<AliasId>, held: seq<AliasId>, cascade: set<AliasId>, since: nat)

  datatype Tx = Tx(op: Op, phase: Phase)

  /** `keepsRejected`: whether the database keeps the lock of a row that no longer matches the
      query once the lock is granted. `clock` counts snapshots. */
  datatype State = State(
    db: Db, txs: map<TxId, Tx>, locks: map<Row, TxId>, clock: nat, keepsRejected: bool)

  function TagOf(tag: Option<TagId>): set<Row> {
    if tag.Some? then {TagRow(tag.value)} else {}
  }

  /** The rows a transaction should be holding in a phase. */
  function Holds(phase: Phase): set<Row> {
    match phase
    case Start => {}
    case AskTag(t) => {}
    case HasTag(t, _) => {TagRow(t)}
    case AskAlias(tag, a, _) => TagOf(tag)
    case HasAlias(tag, a, _) => TagOf(tag) + {AliasRow(a)}
    case AskVocab(tag, v) => TagOf(tag)
    case HasVocab(tag, v, _) => TagOf(tag) + {VocabRow(v)}
    case Sweep(t, todo, held, _, _) => {TagRow(t)} + set a | a in held :: AliasRow(a)
  }

  /** The row a transaction is waiting for. */
  function Wants(phase: Phase): Option<Row> {
    match phase
    case AskTag(t) => Some(TagRow(t))
    case AskAlias(_, a, _) => Some(AliasRow(a))
    case AskVocab(_, v) => Some(VocabRow(v))
    case Sweep(_, todo, _, _, _) => if todo == [] then None else Some(AliasRow(todo[0]))
    case _ => None
  }

  predicate Exists(db: Db, row: Row) {
    match row
    case TagRow(t) => t in db.tags
    case VocabRow(v) => v in db.vocabs
    case AliasRow(a) => a in db.aliases
  }

  function FirstPhase(op: Op): Phase {
    match op
    case CreateAlias(_, row) => AskTag(row.tag)
    case UpdateAlias(_, saved) => AskTag(saved.tag)
    case ReactivateAlias(_, _) => Start
    case DeactivateAlias(a) => AskAlias(None, a, false)
    case DeactivateTag(t) => AskTag(t)
    case ReactivateTag(t) => AskTag(t)
    case UpdateTag(t, _) => AskTag(t)
    case SaveVocab(v, _) => AskVocab(None, v)
    case CreateTag(_, _) => Start
    case CreateVocab(_, _) => Start
  }

  /** Whether an alias row is one the cascade of tag `t` selects: the query filters by the tag's
      tenant. */
  predicate Cascades(db: Db, t: TagId, a: AliasId) {
    && a in db.aliases && db.aliases[a].tag == t && db.aliases[a].active
    && t in db.tags && db.aliases[a].tenant == db.tags[t].tenant
  }

  predicate Before(db: Db, a: AliasId, b: AliasId) {
    && a in db.aliases && b in db.aliases
    && (|| db.aliases[a].sortName < db.aliases[b].sortName
        || (db.aliases[a].sortName == db.aliases[b].sortName && a < b))
  }

  /** The active aliases of a tag in its tenant, in query order. */
  ghost predicate IsListing(db: Db, t: TagId, todo: seq<AliasId>) {
    && (forall a :: a in todo <==> Cascades(db, t, a))
    && (forall i, j :: 0 <= i < j < |todo| ==> Before(db, todo[i], todo[j]))
  }

  datatype Step =
    | Begin(i: TxId, op: Op)
    | Grant(i: TxId)
    | ReadTagId(i: TxId)
    | Check(i: TxId)
    | GoOn(i: TxId)
    | Snapshot(i: TxId, todo: seq<AliasId>)
    | Retry(i: TxId)
    | Commit(i: TxId)
    | Abort(i: TxId)

  /** The phase after the wanted row is granted. A sweep looks at the row again under its lock. */
  function Granted(s: State, phase: Phase): Phase
    requires Wants(phase).Some?
  {
    match phase
    case AskTag(t) => HasTag(t, false)
    case AskAlias(tag, a, checked) => HasAlias(tag, a, checked)
    case AskVocab(tag, v) => HasVocab(tag, v, false)
    case Sweep(t, todo, held, cascade, since) =>
      if Cascades(s.db, t, todo[0]) then
        Sweep(t, todo[1..], held + [todo[0]], cascade + {todo[0]}, since)
      else
        Sweep(t, todo[1..], if s.keepsRejected then held + [todo[0]] else held, cascade, since)
  }

  /** The alias row a create or an update is about to write. */
  function SavedAlias(op: Op): Alias
    requires op.CreateAlias? || op.UpdateAlias?
  {
    if op.CreateAlias? then op.row else op.saved
  }

  /** Validation of locked rows. */
  predicate Checkable(s: State, tx: Tx) {
    match tx.phase
    case HasTag(t, false) =>
      && (tx.op.CreateAlias? || tx.op.UpdateAlias?) && t in s.db.tags && s.db.tags[t].active
      && s.db.tags[t].tenant == SavedAlias(tx.op).tenant
    case HasAlias(Some(t), a, false) =>
      && tx.op.ReactivateAlias? && a in s.db.aliases && s.db.aliases[a].tag == t
      && !s.db.aliases[a].active && t in s.db.tags && s.db.tags[t].active
      && s.db.tags[t].tenant == s.db.aliases[a].tenant
    case HasVocab(Some(t), v, false) =>
      tx.op.ReactivateTag? && v in s.db.vocabs && s.db.vocabs[v]
    case _ => false
  }

  function Checked(phase: Phase): Phase {
    match phase
    case HasTag(t, _) => HasTag(t, true)
    case HasAlias(tag, a, _) => HasAlias(tag, a, true)
    case HasVocab(tag, v, _) => HasVocab(tag, v, true)
    case _ => phase
  }

  /** The next row to ask for after the tag row is held. */
  function NextAsk(s: State, tx: Tx): Option<Phase> {
    match tx.phase
    case HasTag(t, checked) =>
      (match tx.op
       case UpdateAlias(a, _) => if checked then Some(AskAlias(Some(t), a, true)) else None
       case ReactivateAlias(a, _) => Some(AskAlias(Some(t), a, false))
       case ReactivateTag(_) =>
         if t in s.db.tags && !s.db.tags[t].active && s.db.tags[t].vocab.Some?
         then Some(AskVocab(Some(t), s.db.tags[t].vocab.value))
         else None
       case _ => None)
    case _ => None
  }

  /** Whether a transaction has done everything its service call does before the commit. */
  predicate Finished(s: State, tx: Tx) {
    match tx.op
    case CreateAlias(a, _) => tx.phase.HasTag? && tx.phase.checked && a !in s.db.aliases
    case UpdateAlias(_, _) => tx.phase.HasAlias? && tx.phase.checked
    case ReactivateAlias(a, _) =>
      tx.phase.HasAlias? && (tx.phase.checked || NothingToReactivate(s, tx.phase))
    case DeactivateAlias(_) => tx.phase.HasAlias?
    case DeactivateTag(t) =>
      || (tx.phase.HasTag? && t in s.db.tags && !s.db.tags[t].active)
      || (tx.phase.Sweep? && tx.phase.todo == [])
    case ReactivateTag(t) =>
      || (tx.phase.HasTag? && t in s.db.tags && (s.db.tags[t].active || s.db.tags[t].vocab.None?))
      || (tx.phase.HasVocab? && tx.phase.checked)
    case UpdateTag(_, _) => tx.phase.HasTag?
    case SaveVocab(_, _) => tx.phase.HasVocab?
    case CreateTag(t, _) => tx.phase.Start? && t !in s.db.tags
    case CreateVocab(v, _) => tx.phase.Start? && v !in s.db.vocabs
  }

  predicate NothingToReactivate(s: State, phase: Phase)
    requires phase.HasAlias?
  {
    && phase.a in s.db.aliases && s.db.aliases[phase.a].active
    && Some(s.db.aliases[phase.a].tag) == phase.tag
  }

  /** The committed rows after a finished transaction's writes. */
  function Written(db: Db, tx: Tx): Db {
    match tx.op
    case CreateAlias(a, row) => db.(aliases := db.aliases[a := row])
    case UpdateAlias(a, saved) => db.(aliases := db.aliases[a := saved])
    case ReactivateAlias(a, _) => db.(aliases := WithActive(db.aliases, {a}, true))
    case DeactivateAlias(a) => db.(aliases := WithActive(db.aliases, {a}, false))
    case DeactivateTag(t) =>
      if tx.phase.Sweep? && t in db.tags then
        db.(tags := db.tags[t := db.tags[t].(active := false)],
            aliases := WithActive(db.aliases, tx.phase.cascade, false))
      else db
    case ReactivateTag(t) =>
      if t in db.tags then db.(tags := db.tags[t := db.tags[t].(active := true)]) else db
    case UpdateTag(t, savedTag) => db.(tags := db.tags[t := savedTag])
    case SaveVocab(v, active) => db.(vocabs := db.vocabs[v := active])
    case CreateTag(t, savedTag) => db.(tags := db.tags[t := savedTag])
    case CreateVocab(v, active) => db.(vocabs := db.vocabs[v := active])
  }

  function WithActive(aliases: map<AliasId, Alias>, which: set<AliasId>, active: bool)
    : map<AliasId, Alias>
  {
    map a | a in aliases :: if a in which then aliases[a].(active := active) else aliases[a]
  }

  function Released(locks: map<Row, TxId>, i: TxId): map<Row, TxId> {
    map row | row in locks && locks[row] != i :: locks[row]
  }

  ghost predicate Enabled(s: State, step: Step) {
    match step
    case Begin(i, op) => i !in s.txs && (op.ReactivateAlias? ==> op.attempt == 0)
    case Grant(i) =>
      && i in s.txs && Wants(s.txs[i].phase).Some?
      && Exists(s.db, Wants(s.txs[i].phase).value) && Wants(s.txs[i].phase).value !in s.locks
    case ReadTagId(i) =>
      && i in s.txs && s.txs[i].phase.Start? && s.txs[i].op.ReactivateAlias?
      && s.txs[i].op.a in s.db.aliases
    case Check(i) => i in s.txs && Checkable(s, s.txs[i])
    case GoOn(i) => i in s.txs && NextAsk(s, s.txs[i]).Some?
    case Snapshot(i, todo) =>
      && i in s.txs && s.txs[i].op.DeactivateTag? && s.txs[i].phase.HasTag?
      && s.txs[i].phase.t in s.db.tags && s.db.tags[s.txs[i].phase.t].active
      && IsListing(s.db, s.txs[i].phase.t, todo)
    case Retry(i) =>
      && i in s.txs && s.txs[i].op.ReactivateAlias? && s.txs[i].op.attempt + 1 < MAX_ATTEMPTS
      && s.txs[i].phase.HasAlias? && !s.txs[i].phase.checked && s.txs[i].phase.a in s.db.aliases
      && Some(s.db.aliases[s.txs[i].phase.a].tag) != s.txs[i].phase.tag
    case Commit(i) => i in s.txs && Finished(s, s.txs[i])
    case Abort(i) => i in s.txs
  }

  function To(s: State, i: TxId, phase: Phase): State
    requires i in s.txs
  {
    s.(txs := s.txs[i := s.txs[i].(phase := phase)])
  }

  function Apply(s: State, step: Step): State
    requires Enabled(s, step)
  {
    match step
    case Begin(i, op) => s.(txs := s.txs[i := Tx(op, FirstPhase(op))])
    case Grant(i) =>
      var phase := s.txs[i].phase;
      var row := Wants(phase).value;
      var next := Granted(s, phase);
      To(s, i, next).(locks := if row in Holds(next) then s.locks[row := i] else s.locks)
    case ReadTagId(i) => To(s, i, AskTag(s.db.aliases[s.txs[i].op.a].tag))
    case Check(i) => To(s, i, Checked(s.txs[i].phase))
    case GoOn(i) => To(s, i, NextAsk(s, s.txs[i]).value)
    case Snapshot(i, todo) =>
      To(s, i, Sweep(s.txs[i].phase.t, todo, [], {}, s.clock)).(clock := s.clock + 1)
    case Retry(i) =>
      var op := s.txs[i].op;
      s.(txs := s.txs[i := Tx(op.(attempt := op.attempt + 1), Start)],
         locks := Released(s.locks, i))
    case Commit(i) =>
      s.(db := Written(s.db, s.txs[i]), txs := s.txs - {i}, locks := Released(s.locks, i))
    case Abort(i) =>
      s.(txs := s.txs - {i}, locks := Released(s.locks, i))
  }

  function Quiet(db: Db, keepsRejected: bool): State {
    State(db, map[], map[], 0, keepsRejected)
  }

  ghost predicate Feasible(s: State, run: seq<Step>)
    decreases |run|
  {
    run == [] || (Enabled(s, run[0]) && Feasible(Apply(s, run[0]), run[1..]))
  }

  ghost function Exec(s: State, run: seq<Step>): State
    requires Feasible(s, run)
    decreases |run|
  {
    if run == [] then s else Exec(Apply(s, run[0]), run[1..])
  }

  /** One transaction waits for a row that another holds. */
  predicate WaitsFor(s: State, i: TxId, j: TxId) {
    && i in s.txs && Wants(s.txs[i].phase).Some?
    && Wants(s.txs[i].phase).value in s.locks
    && s.locks[Wants(s.txs[i].phase).value] == j
  }

  /** A deadlock: transactions each waiting for the next, around a circle. */
  ghost predicate Deadlock(s: State, cycle: seq<TxId>) {
    && cycle != []
    && (forall k :: 0 <= k < |cycle| ==>
          WaitsFor(s, cycle[k], cycle[if k + 1 < |cycle| then k + 1 else 0]))
  }
}
