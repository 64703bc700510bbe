/** What the transactions can do: left alone, every service call that has what it needs runs to its
    commit and leaves what it should; and how often a reactivation tries again. */
module LockingProgress {
  import opened Scopes
  import opened Locking
  import opened DeadlockFreedom
  import opened LockingWitnesses

  predicate ActiveTagOf(db: Db, row: Alias) {
    row.tag in db.tags && db.tags[row.tag].active && db.tags[row.tag].tenant == row.tenant
  }

  /** What a call needs of the committed rows. */
  predicate Possible(db: Db, op: Op) {
    match op
    case CreateAlias(a, row) => a !in db.aliases && ActiveTagOf(db, row)
    case UpdateAlias(a, saved) => a in db.aliases && ActiveTagOf(db, saved)
    case ReactivateAlias(a, attempt) =>
      && attempt == 0 && a in db.aliases && db.aliases[a].tag in db.tags
      && (db.aliases[a].active || ActiveTagOf(db, db.aliases[a]))
    case DeactivateAlias(a) => a in db.aliases
    case DeactivateTag(t) => t in db.tags
    case ReactivateTag(t) =>
      && t in db.tags
      && (!db.tags[t].active && db.tags[t].vocab.Some? ==>
            db.tags[t].vocab.value in db.vocabs && db.vocabs[db.tags[t].vocab.value])
    case UpdateTag(t, _) => t in db.tags
    case SaveVocab(v, _) => v in db.vocabs
    case CreateTag(t, _) => t !in db.tags
    case CreateVocab(v, _) => v !in db.vocabs
  }

  /** An alias after a deactivation of tag `t`, in a database where the tag was active or not. */
  function Swept(db: Db, t: TagId, a: AliasId): Alias
    requires t in db.tags && a in db.aliases
  {
    var row := db.aliases[a];
    if db.tags[t].active && row.tag == t && row.tenant == db.tags[t].tenant then row.(active := false) else row
  }

  /** What a call leaves: the one row it is about, and for a tag's deactivation its aliases too. */
  ghost predicate Leaves(db: Db, op: Op, after: Db) {
    match op
    case CreateAlias(a, row) => after == db.(aliases := db.aliases[a := row])
    case UpdateAlias(a, saved) => after == db.(aliases := db.aliases[a := saved])
    case ReactivateAlias(a, _) =>
      a in db.aliases && after == db.(aliases := db.aliases[a := db.aliases[a].(active := true)])
    case DeactivateAlias(a) =>
      a in db.aliases && after == db.(aliases := db.aliases[a := db.aliases[a].(active := false)])
    case DeactivateTag(t) =>
      && t in db.tags && after.vocabs == db.vocabs
      && after.tags == db.tags[t := db.tags[t].(active := false)]
      && after.aliases.Keys == db.aliases.Keys
      && forall a :: a in db.aliases ==> after.aliases[a] == Swept(db, t, a)
    case ReactivateTag(t) =>
      t in db.tags && after == db.(tags := db.tags[t := db.tags[t].(active := true)])
    case UpdateTag(t, row) => after == db.(tags := db.tags[t := row])
    case SaveVocab(v, active) => after == db.(vocabs := db.vocabs[v := active])
    case CreateTag(t, row) => after == db.(tags := db.tags[t := row])
    case CreateVocab(v, active) => after == db.(vocabs := db.vocabs[v := active])
  }

  /** A quiet database in which the call has done its work. */
  ghost predicate Done(db: Db, keepsRejected: bool, op: Op, s: State) {
    s == Quiet(s.db, keepsRejected).(clock := s.clock) && Leaves(db, op, s.db)
  }

  /** Every edit of the one alias is allowed. */
  function Only(a: AliasId): Edits {
    Edits({a}, {a})
  }

  /** One transaction by itself. */
  function Alone(db: Db, keepsRejected: bool, i: TxId, tx: Tx, locks: map<Row, TxId>): State {
    State(db, map[i := tx], locks, 0, keepsRejected)
  }

  /** One step of that transaction. */
  lemma Moves(s: State, from: State, step: Step, to: State, a: AliasId)
    requires Leads(s, from, Only(a)) && Enabled(from, step) && Apply(from, step) == to
    requires step.Commit? && step.i in from.txs && from.txs[step.i].op.UpdateAlias? ==> from.txs[step.i].op.a == a
    ensures Leads(s, to, Only(a))
  {
    Then(s, from, step, Only(a));
  }

  lemma AloneBegins(db: Db, keepsRejected: bool, i: TxId, op: Op, a: AliasId)
    requires op.ReactivateAlias? ==> op.attempt == 0
    ensures Leads(Quiet(db, keepsRejected), Alone(db, keepsRejected, i, Tx(op, FirstPhase(op)), map[]), Only(a))
  {
    var s := Quiet(db, keepsRejected);
    LeadsSelf(s, Only(a));
    Moves(s, s, Begin(i, op), Alone(db, keepsRejected, i, Tx(op, FirstPhase(op)), map[]), a);
  }

  /** Whatever it asks for, if the row is there and it does not hold it yet, it is granted. */
  lemma AloneIsGranted(s: State, db: Db, keepsRejected: bool, i: TxId, op: Op, phase: Phase, next: Phase,
                       locks: map<Row, TxId>, row: Row, a: AliasId)
    requires Leads(s, Alone(db, keepsRejected, i, Tx(op, phase), locks), Only(a))
    requires Wants(phase) == Some(row) && Exists(db, row) && row !in locks && !phase.Sweep?
    requires next == Granted(Alone(db, keepsRejected, i, Tx(op, phase), locks), phase) && row in Holds(next)
    ensures Leads(s, Alone(db, keepsRejected, i, Tx(op, next), locks[row := i]), Only(a))
  {
    Moves(s, Alone(db, keepsRejected, i, Tx(op, phase), locks), Grant(i),
          Alone(db, keepsRejected, i, Tx(op, next), locks[row := i]), a);
  }

  lemma AloneChecks(s: State, db: Db, keepsRejected: bool, i: TxId, op: Op, phase: Phase, locks: map<Row, TxId>,
                    a: AliasId)
    requires Leads(s, Alone(db, keepsRejected, i, Tx(op, phase), locks), Only(a))
    requires Checkable(Alone(db, keepsRejected, i, Tx(op, phase), locks), Tx(op, phase))
    ensures Leads(s, Alone(db, keepsRejected, i, Tx(op, Checked(phase)), locks), Only(a))
  {
    Moves(s, Alone(db, keepsRejected, i, Tx(op, phase), locks), Check(i),
          Alone(db, keepsRejected, i, Tx(op, Checked(phase)), locks), a);
  }

  lemma AloneGoesOn(s: State, db: Db, keepsRejected: bool, i: TxId, op: Op, phase: Phase, next: Phase,
                    locks: map<Row, TxId>, a: AliasId)
    requires Leads(s, Alone(db, keepsRejected, i, Tx(op, phase), locks), Only(a))
    requires NextAsk(Alone(db, keepsRejected, i, Tx(op, phase), locks), Tx(op, phase)) == Some(next)
    ensures Leads(s, Alone(db, keepsRejected, i, Tx(op, next), locks), Only(a))
  {
    Moves(s, Alone(db, keepsRejected, i, Tx(op, phase), locks), GoOn(i),
          Alone(db, keepsRejected, i, Tx(op, next), locks), a);
  }

  /** A finished transaction commits and lets go of its locks. */
  lemma AloneCommits(s: State, db: Db, keepsRejected: bool, i: TxId, op: Op, phase: Phase, locks: map<Row, TxId>,
                     a: AliasId)
    requires Leads(s, Alone(db, keepsRejected, i, Tx(op, phase), locks), Only(a)) && (op.UpdateAlias? ==> op.a == a)
    requires Finished(Alone(db, keepsRejected, i, Tx(op, phase), locks), Tx(op, phase))
    requires forall row :: row in locks ==> locks[row] == i
    ensures Leads(s, Quiet(Written(db, Tx(op, phase)), keepsRejected), Only(a))
  {
    var from := Alone(db, keepsRejected, i, Tx(op, phase), locks);
    assert Released(locks, i) == map[] && from.txs - {i} == map[];
    Moves(s, from, Commit(i), Quiet(Written(db, Tx(op, phase)), keepsRejected), a);
  }

  /** Some run of it alone gets it done. */
  ghost predicate Completes(db: Db, keepsRejected: bool, op: Op) {
    exists t, a :: Leads(Quiet(db, keepsRejected), t, Only(a)) && Done(db, keepsRejected, op, t)
  }

  lemma OneAliasFlipped(aliases: map<AliasId, Alias>, a: AliasId, on: bool)
    requires a in aliases
    ensures WithActive(aliases, {a}, on) == aliases[a := aliases[a].(active := on)]
  {}

  /** A call that starts with a tag row holds it. */
  lemma AloneHoldsTag(db: Db, keepsRejected: bool, i: TxId, op: Op, t: TagId, a: AliasId)
    requires FirstPhase(op) == AskTag(t) && t in db.tags
    ensures Leads(Quiet(db, keepsRejected),
                  Alone(db, keepsRejected, i, Tx(op, HasTag(t, false)), map[TagRow(t) := i]), Only(a))
  {
    AloneBegins(db, keepsRejected, i, op, a);
    assert map[][TagRow(t) := i] == map[TagRow(t) := i];
    AloneIsGranted(Quiet(db, keepsRejected), db, keepsRejected, i, op, AskTag(t), HasTag(t, false), map[],
                   TagRow(t), a);
  }

  lemma CreateAliasCompletes(db: Db, keepsRejected: bool, i: TxId, a: AliasId, row: Alias)
    requires Possible(db, CreateAlias(a, row))
    ensures Completes(db, keepsRejected, CreateAlias(a, row))
  {
    var s, op, t, locks := Quiet(db, keepsRejected), CreateAlias(a, row), row.tag, map[TagRow(row.tag) := i];
    AloneHoldsTag(db, keepsRejected, i, op, t, a);
    AloneChecks(s, db, keepsRejected, i, op, HasTag(t, false), locks, a);
    AloneCommits(s, db, keepsRejected, i, op, HasTag(t, true), locks, a);
    assert Done(db, keepsRejected, op, Quiet(Written(db, Tx(op, HasTag(t, true))), keepsRejected));
  }

  lemma UpdateAliasCompletes(db: Db, keepsRejected: bool, i: TxId, a: AliasId, saved: Alias)
    requires Possible(db, UpdateAlias(a, saved))
    ensures Completes(db, keepsRejected, UpdateAlias(a, saved))
  {
    var s, op, t, locks := Quiet(db, keepsRejected), UpdateAlias(a, saved), saved.tag, map[TagRow(saved.tag) := i];
    var last := HasAlias(Some(t), a, true);
    AloneHoldsTag(db, keepsRejected, i, op, t, a);
    AloneChecks(s, db, keepsRejected, i, op, HasTag(t, false), locks, a);
    AloneGoesOn(s, db, keepsRejected, i, op, HasTag(t, true), AskAlias(Some(t), a, true), locks, a);
    AloneIsGranted(s, db, keepsRejected, i, op, AskAlias(Some(t), a, true), last, locks, AliasRow(a), a);
    AloneCommits(s, db, keepsRejected, i, op, last, locks[AliasRow(a) := i], a);
    assert Done(db, keepsRejected, op, Quiet(Written(db, Tx(op, last)), keepsRejected));
  }

  lemma DeactivateAliasCompletes(db: Db, keepsRejected: bool, i: TxId, a: AliasId)
    requires Possible(db, DeactivateAlias(a))
    ensures Completes(db, keepsRejected, DeactivateAlias(a))
  {
    var s, op, last := Quiet(db, keepsRejected), DeactivateAlias(a), HasAlias(None, a, false);
    AloneBegins(db, keepsRejected, i, op, a);
    AloneIsGranted(s, db, keepsRejected, i, op, AskAlias(None, a, false), last, map[], AliasRow(a), a);
    AloneCommits(s, db, keepsRejected, i, op, last, map[][AliasRow(a) := i], a);
    OneAliasFlipped(db.aliases, a, false);
    assert Done(db, keepsRejected, op, Quiet(Written(db, Tx(op, last)), keepsRejected));
  }

  /** A reactivation of an alias reads its tag, locks the tag and then the alias; an active alias needs no
      check. */
  lemma ReactivateAliasCompletes(db: Db, keepsRejected: bool, i: TxId, a: AliasId)
    requires Possible(db, ReactivateAlias(a, 0))
    ensures Completes(db, keepsRejected, ReactivateAlias(a, 0))
  {
    var s, op, t := Quiet(db, keepsRejected), ReactivateAlias(a, 0), db.aliases[a].tag;
    var held, locks := HasAlias(Some(t), a, false), map[TagRow(t) := i][AliasRow(a) := i];
    AloneBegins(db, keepsRejected, i, op, a);
    Moves(s, Alone(db, keepsRejected, i, Tx(op, Start), map[]), ReadTagId(i),
          Alone(db, keepsRejected, i, Tx(op, AskTag(t)), map[]), a);
    assert map[][TagRow(t) := i] == map[TagRow(t) := i];
    AloneIsGranted(s, db, keepsRejected, i, op, AskTag(t), HasTag(t, false), map[], TagRow(t), a);
    AloneGoesOn(s, db, keepsRejected, i, op, HasTag(t, false), AskAlias(Some(t), a, false), map[TagRow(t) := i], a);
    AloneIsGranted(s, db, keepsRejected, i, op, AskAlias(Some(t), a, false), held, map[TagRow(t) := i],
                   AliasRow(a), a);
    var last := if db.aliases[a].active then held else Checked(held);
    if !db.aliases[a].active { AloneChecks(s, db, keepsRejected, i, op, held, locks, a); }
    AloneCommits(s, db, keepsRejected, i, op, last, locks, a);
    OneAliasFlipped(db.aliases, a, true);
    assert Done(db, keepsRejected, op, Quiet(Written(db, Tx(op, last)), keepsRejected));
  }

  /** A reactivation of a tag locks its vocabulary too, if it is inactive and has one. */
  lemma ReactivateTagCompletes(db: Db, keepsRejected: bool, i: TxId, t: TagId)
    requires Possible(db, ReactivateTag(t))
    ensures Completes(db, keepsRejected, ReactivateTag(t))
  {
    var s, op, locks := Quiet(db, keepsRejected), ReactivateTag(t), map[TagRow(t) := i];
    AloneHoldsTag(db, keepsRejected, i, op, t, 0);
    if db.tags[t].active || db.tags[t].vocab.None? {
      AloneCommits(s, db, keepsRejected, i, op, HasTag(t, false), locks, 0);
      assert Done(db, keepsRejected, op, Quiet(Written(db, Tx(op, HasTag(t, false))), keepsRejected));
    } else {
      var v := db.tags[t].vocab.value;
      var held := HasVocab(Some(t), v, false);
      AloneGoesOn(s, db, keepsRejected, i, op, HasTag(t, false), AskVocab(Some(t), v), locks, 0);
      AloneIsGranted(s, db, keepsRejected, i, op, AskVocab(Some(t), v), held, locks, VocabRow(v), 0);
      AloneChecks(s, db, keepsRejected, i, op, held, locks[VocabRow(v) := i], 0);
      AloneCommits(s, db, keepsRejected, i, op, Checked(held), locks[VocabRow(v) := i], 0);
      assert Done(db, keepsRejected, op, Quiet(Written(db, Tx(op, Checked(held))), keepsRejected));
    }
  }

  /** The calls that lock one row or none. */
  lemma PlainCallCompletes(db: Db, keepsRejected: bool, i: TxId, op: Op)
    requires Possible(db, op)
    requires op.UpdateTag? || op.SaveVocab? || op.CreateTag? || op.CreateVocab?
    ensures Completes(db, keepsRejected, op)
  {
    var s := Quiet(db, keepsRejected);
    if op.UpdateTag? {
      AloneHoldsTag(db, keepsRejected, i, op, op.t, 0);
      AloneCommits(s, db, keepsRejected, i, op, HasTag(op.t, false), map[TagRow(op.t) := i], 0);
      assert Done(db, keepsRejected, op, Quiet(Written(db, Tx(op, HasTag(op.t, false))), keepsRejected));
    } else if op.SaveVocab? {
      var held := HasVocab(None, op.v, false);
      AloneBegins(db, keepsRejected, i, op, 0);
      AloneIsGranted(s, db, keepsRejected, i, op, AskVocab(None, op.v), held, map[], VocabRow(op.v), 0);
      AloneCommits(s, db, keepsRejected, i, op, held, map[][VocabRow(op.v) := i], 0);
      assert Done(db, keepsRejected, op, Quiet(Written(db, Tx(op, held)), keepsRejected));
    } else {
      AloneBegins(db, keepsRejected, i, op, 0);
      AloneCommits(s, db, keepsRejected, i, op, Start, map[], 0);
      assert Done(db, keepsRejected, op, Quiet(Written(db, Tx(op, Start)), keepsRejected));
    }
  }

  // ----- The deactivation of a tag

  /** The first of some aliases in query order. */
  lemma {:induction false} FirstAlias(db: Db, which: set<AliasId>) returns (first: AliasId)
    requires which != {} && which <= db.aliases.Keys
    ensures first in which && forall a :: a in which && a != first ==> Before(db, first, a)
    decreases |which|
  {
    first :| first in which;
    if which != {first} {
      assert which == which - {first} + {first};
      var next := FirstAlias(db, which - {first});
      if Before(db, next, first) { first := next; }
    }
  }

  lemma {:induction false} SortedListing(db: Db, which: set<AliasId>) returns (todo: seq<AliasId>)
    requires which <= db.aliases.Keys
    ensures forall a :: a in todo <==> a in which
    ensures forall i, j :: 0 <= i < j < |todo| ==> Before(db, todo[i], todo[j])
    decreases |which|
  {
    todo := [];
    if which != {} {
      var first := FirstAlias(db, which);
      assert which == which - {first} + {first};
      var rest := SortedListing(db, which - {first});
      todo := [first] + rest;
    }
  }

  /** There is a listing for every tag, and it holds exactly the active aliases of the tag in its tenant. */
  lemma ListingIs(db: Db, t: TagId) returns (todo: seq<AliasId>)
    requires t in db.tags
    ensures IsListing(db, t, todo)
    ensures forall a :: a in todo <==>
              && a in db.aliases && db.aliases[a].active && db.aliases[a].tag == t
              && db.aliases[a].tenant == db.tags[t].tenant
  {
    var which := set a | a in db.aliases && Cascades(db, t, a);
    todo := SortedListing(db, which);
  }

  function Held(i: TxId, phase: Phase): map<Row, TxId> {
    map row | row in Holds(phase) :: i
  }

  function Sweeping(db: Db, keepsRejected: bool, i: TxId, t: TagId, todo: seq<AliasId>, held: seq<AliasId>,
                    cascade: set<AliasId>): State
  {
    State(db, map[i := Tx(DeactivateTag(t), Sweep(t, todo, held, cascade, 0))],
          Held(i, Sweep(t, todo, held, cascade, 0)), 1, keepsRejected)
  }

  lemma HoldsOneMore(i: TxId, t: TagId, todo: seq<AliasId>, held: seq<AliasId>, cascade: set<AliasId>)
    requires todo != []
    ensures Held(i, Sweep(t, todo[1..], held + [todo[0]], cascade + {todo[0]}, 0))
            == Held(i, Sweep(t, todo, held, cascade, 0))[AliasRow(todo[0]) := i]
    ensures todo[0] !in held ==> AliasRow(todo[0]) !in Held(i, Sweep(t, todo, held, cascade, 0))
  {}

  lemma SweepIsGranted(db: Db, keepsRejected: bool, i: TxId, t: TagId, todo: seq<AliasId>, held: seq<AliasId>,
                       cascade: set<AliasId>)
    requires todo != [] && Cascades(db, t, todo[0]) && todo[0] !in held
    ensures Enabled(Sweeping(db, keepsRejected, i, t, todo, held, cascade), Grant(i))
    ensures Apply(Sweeping(db, keepsRejected, i, t, todo, held, cascade), Grant(i))
            == Sweeping(db, keepsRejected, i, t, todo[1..], held + [todo[0]], cascade + {todo[0]})
  {
    HoldsOneMore(i, t, todo, held, cascade);
  }

  lemma SweepTakes(s: State, db: Db, keepsRejected: bool, i: TxId, t: TagId, todo: seq<AliasId>,
                   held: seq<AliasId>, cascade: set<AliasId>)
    requires Leads(s, Sweeping(db, keepsRejected, i, t, todo, held, cascade), Only(0))
    requires todo != [] && Cascades(db, t, todo[0]) && todo[0] !in held
    ensures Leads(s, Sweeping(db, keepsRejected, i, t, todo[1..], held + [todo[0]], cascade + {todo[0]}), Only(0))
  {
    SweepIsGranted(db, keepsRejected, i, t, todo, held, cascade);
    Moves(s, Sweeping(db, keepsRejected, i, t, todo, held, cascade), Grant(i),
          Sweeping(db, keepsRejected, i, t, todo[1..], held + [todo[0]], cascade + {todo[0]}), 0);
  }

  lemma {:induction false} SweepsAll(s: State, db: Db, keepsRejected: bool, i: TxId, t: TagId, todo: seq<AliasId>,
                                     held: seq<AliasId>, cascade: set<AliasId>)
    returns (all: seq<AliasId>, flipped: set<AliasId>)
    requires Leads(s, Sweeping(db, keepsRejected, i, t, todo, held, cascade), Only(0))
    requires forall a :: a in todo ==> Cascades(db, t, a) && a !in held
    requires forall p, q :: 0 <= p < q < |todo| ==> todo[p] != todo[q]
    ensures flipped == cascade + set a | a in todo
    ensures Leads(s, Sweeping(db, keepsRejected, i, t, [], all, flipped), Only(0))
    decreases |todo|
  {
    if todo == [] {
      all, flipped := held, cascade;
    } else {
      var a := todo[0];
      SweepTakes(s, db, keepsRejected, i, t, todo, held, cascade);
      all, flipped := SweepsAll(s, db, keepsRejected, i, t, todo[1..], held + [a], cascade + {a});
      assert todo == [a] + todo[1..];
    }
  }

  lemma DeactivateTagCompletes(db: Db, keepsRejected: bool, i: TxId, t: TagId)
    requires Possible(db, DeactivateTag(t))
    ensures Completes(db, keepsRejected, DeactivateTag(t))
  {
    var s, op := Quiet(db, keepsRejected), DeactivateTag(t);
    AloneHoldsTag(db, keepsRejected, i, op, t, 0);
    if !db.tags[t].active {
      AloneCommits(s, db, keepsRejected, i, op, HasTag(t, false), map[TagRow(t) := i], 0);
      assert Done(db, keepsRejected, op, Quiet(Written(db, Tx(op, HasTag(t, false))), keepsRejected));
    } else {
      var todo := ListingIs(db, t);
      SweepStarts(s, db, keepsRejected, i, t, todo);
      var all, flipped := SweepsAll(s, db, keepsRejected, i, t, todo, [], {});
      SweepCommits(s, db, keepsRejected, i, t, all, flipped);
      SweptIsDone(db, keepsRejected, t, all, flipped);
    }
  }

  lemma SweepStarts(s: State, db: Db, keepsRejected: bool, i: TxId, t: TagId, todo: seq<AliasId>)
    requires t in db.tags && db.tags[t].active && IsListing(db, t, todo)
    requires Leads(s, Alone(db, keepsRejected, i, Tx(DeactivateTag(t), HasTag(t, false)), map[TagRow(t) := i]), Only(0))
    ensures Leads(s, Sweeping(db, keepsRejected, i, t, todo, [], {}), Only(0))
  {
    var swept := Sweeping(db, keepsRejected, i, t, todo, [], {});
    assert swept.locks == map[TagRow(t) := i];
    Moves(s, Alone(db, keepsRejected, i, Tx(DeactivateTag(t), HasTag(t, false)), map[TagRow(t) := i]),
          Snapshot(i, todo), swept, 0);
  }

  lemma SweptIsDone(db: Db, keepsRejected: bool, t: TagId, all: seq<AliasId>, flipped: set<AliasId>)
    requires t in db.tags && db.tags[t].active
    requires forall a :: a in flipped <==>
               && a in db.aliases && db.aliases[a].active && db.aliases[a].tag == t
               && db.aliases[a].tenant == db.tags[t].tenant
    ensures var after := Written(db, Tx(DeactivateTag(t), Sweep(t, [], all, flipped, 0)));
            Done(db, keepsRejected, DeactivateTag(t), Quiet(after, keepsRejected).(clock := 1))
  {}

  lemma SweepCommits(s: State, db: Db, keepsRejected: bool, i: TxId, t: TagId, all: seq<AliasId>,
                     flipped: set<AliasId>)
    requires Leads(s, Sweeping(db, keepsRejected, i, t, [], all, flipped), Only(0))
    ensures Leads(s, Quiet(Written(db, Tx(DeactivateTag(t), Sweep(t, [], all, flipped, 0))), keepsRejected)
                     .(clock := 1), Only(0))
  {
    var from := Sweeping(db, keepsRejected, i, t, [], all, flipped);
    assert Released(from.locks, i) == map[] && from.txs - {i} == map[];
    Moves(s, from, Commit(i),
          Quiet(Written(db, from.txs[i]), keepsRejected).(clock := 1), 0);
  }

  /** Every call that has what it needs can be run to its commit, and then leaves what it should and holds
      nothing, on either kind of database. */
  lemma CallsComplete(db: Db, keepsRejected: bool, i: TxId, op: Op)
    requires Possible(db, op)
    ensures exists run :: Feasible(Quiet(db, keepsRejected), run)
                          && Done(db, keepsRejected, op, Exec(Quiet(db, keepsRejected), run))
  {
    match op
    case CreateAlias(a, row) => CreateAliasCompletes(db, keepsRejected, i, a, row);
    case UpdateAlias(a, saved) => UpdateAliasCompletes(db, keepsRejected, i, a, saved);
    case ReactivateAlias(a, _) => ReactivateAliasCompletes(db, keepsRejected, i, a);
    case DeactivateAlias(a) => DeactivateAliasCompletes(db, keepsRejected, i, a);
    case DeactivateTag(t) => DeactivateTagCompletes(db, keepsRejected, i, t);
    case ReactivateTag(t) => ReactivateTagCompletes(db, keepsRejected, i, t);
    case UpdateTag(_, _) => PlainCallCompletes(db, keepsRejected, i, op);
    case SaveVocab(_, _) => PlainCallCompletes(db, keepsRejected, i, op);
    case CreateTag(_, _) => PlainCallCompletes(db, keepsRejected, i, op);
    case CreateVocab(_, _) => PlainCallCompletes(db, keepsRejected, i, op);
    assert Completes(db, keepsRejected, op);
    var t, a :| Leads(Quiet(db, keepsRejected), t, Only(a)) && Done(db, keepsRejected, op, t);
    var run :| Feasible(Quiet(db, keepsRejected), run) && Exec(Quiet(db, keepsRejected), run) == t;
  }

  // ----- Reactivations that find their row changed

  /** How often a transaction starts over in a run. */
  function Retries(run: seq<Step>, i: TxId): nat {
    if run == [] then 0 else Bit(run[0] == Retry(i)) + Retries(run[1..], i)
  }

  function Attempt(s: State, i: TxId): nat {
    if i in s.txs && s.txs[i].op.ReactivateAlias? then s.txs[i].op.attempt else 0
  }

  /** Between one beginning of a reactivation and the next it starts over at most twice. */
  lemma {:induction false} RetriesAreBounded(s: State, run: seq<Step>, i: TxId)
    requires Feasible(s, run) && (forall op :: Begin(i, op) !in run)
    requires i in s.txs ==> Attempt(s, i) <= 2
    ensures Retries(run, i) <= if i in s.txs then 2 - Attempt(s, i) else 0
    decreases |run|
  {
    if run != [] {
      RetriesAreBounded(Apply(s, run[0]), run[1..], i);
    }
  }

  /** It starts over only if the alias no longer points to the tag it locked, which also keeps it from
      going on; a row that is active already needs no check and asks for no vocabulary. */
  lemma ReactivationGoesOn(s: State, i: TxId)
    requires i in s.txs && s.txs[i].phase.HasAlias? && !s.txs[i].phase.checked && s.txs[i].phase.a in s.db.aliases
    requires s.txs[i].op.ReactivateAlias?
    ensures var row := s.db.aliases[s.txs[i].phase.a];
            var same := s.txs[i].phase.tag == Some(row.tag);
            && (Enabled(s, Retry(i)) <==> !same && s.txs[i].op.attempt < 2)
            && (Enabled(s, Commit(i)) <==> same && row.active)
            && (Enabled(s, Check(i)) <==> same && !row.active && ActiveTagOf(s.db, row))
  {}

  lemma VocabularyIsAskedFor(s: State, i: TxId)
    requires i in s.txs && s.txs[i].op.ReactivateTag? && s.txs[i].phase.HasTag? && s.txs[i].phase.t in s.db.tags
    requires s.txs[i].op.t == s.txs[i].phase.t
    ensures var row := s.db.tags[s.txs[i].phase.t];
            && (Enabled(s, GoOn(i)) <==> !row.active && row.vocab.Some?)
            && (Enabled(s, Commit(i)) <==> row.active || row.vocab.None?)
  {}
}
