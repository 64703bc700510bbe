/** Concrete interleavings: what goes wrong outside the conditions of the theorems. */
module LockingWitnesses {
  import opened Scopes
  import opened Locking
  import opened LockingTheorems
  import opened DeadlockFreedom

  const HOME: TenantId := 0

  /** Some run within these edits goes from one state to the other. */
  ghost predicate Leads(s: State, t: State, e: Edits) {
    exists run :: Feasible(s, run) && Within(s, run, e) && Exec(s, run) == t
  }

  const NO_EDITS := Edits({}, {})

  lemma LeadsSelf(s: State, e: Edits)
    ensures Leads(s, s, e)
  {
    assert Feasible(s, []) && Within(s, [], e);
  }

  lemma {:induction false} RunAppend(s: State, first: seq<Step>, rest: seq<Step>, e: Edits)
    requires Feasible(s, first) && Feasible(Exec(s, first), rest)
    requires Within(s, first, e) && Within(Exec(s, first), rest, e)
    ensures Feasible(s, first + rest) && Within(s, first + rest, e)
    ensures Exec(s, first + rest) == Exec(Exec(s, first), rest)
    decreases |first|
  {
    if first == [] {
      assert first + rest == rest;
    } else {
      RunAppend(Apply(s, first[0]), first[1..], rest, e);
      assert (first + rest)[1..] == first[1..] + rest;
    }
  }

  lemma Chain(s: State, t: State, u: State, e: Edits)
    requires Leads(s, t, e) && Leads(t, u, e)
    ensures Leads(s, u, e)
  {
    var first :| Feasible(s, first) && Within(s, first, e) && Exec(s, first) == t;
    var rest :| Feasible(t, rest) && Within(t, rest, e) && Exec(t, rest) == u;
    RunAppend(s, first, rest, e);
  }

  lemma Then(s: State, t: State, step: Step, e: Edits)
    requires Leads(s, t, e) && Enabled(t, step) && WithinStep(t, step, e)
    ensures Leads(s, Apply(t, step), e)
  {
    assert Feasible(Apply(t, step), []) && [step][1..] == [];
    assert Feasible(t, [step]) && Within(t, [step], e) && Exec(t, [step]) == Apply(t, step);
    Chain(s, t, Apply(t, step), e);
  }

  function With(s: State, i: TxId, tx: Tx, locks: map<Row, TxId>): State {
    s.(txs := s.txs[i := tx], locks := locks)
  }

  lemma One(s: State, step: Step, t: State, e: Edits)
    requires Enabled(s, step) && Apply(s, step) == t && WithinStep(s, step, e)
    ensures Leads(s, t, e)
  {
    LeadsSelf(s, e);
    Then(s, s, step, e);
  }

  lemma Begins(s: State, i: TxId, op: Op, e: Edits)
    requires i !in s.txs && !op.ReactivateAlias?
    ensures Leads(s, With(s, i, Tx(op, FirstPhase(op)), s.locks), e)
  {
    One(s, Begin(i, op), With(s, i, Tx(op, FirstPhase(op)), s.locks), e);
  }

  lemma GrantsTag(s: State, i: TxId, op: Op, t: TagId, e: Edits)
    requires t in s.db.tags && TagRow(t) !in s.locks
    ensures Leads(With(s, i, Tx(op, AskTag(t)), s.locks),
                  With(s, i, Tx(op, HasTag(t, false)), s.locks[TagRow(t) := i]), e)
  {
    var u := With(s, i, Tx(op, HasTag(t, false)), s.locks[TagRow(t) := i]);
    var v := With(s, i, Tx(op, AskTag(t)), s.locks);
    assert Apply(v, Grant(i)).txs == u.txs;
    One(v, Grant(i), u, e);
  }

  lemma ReactivateTagAlone(db: Db, i: TxId, t: TagId)
    requires t in db.tags && db.tags[t] == Tag(HOME, false, None)
    ensures Leads(Quiet(db, false), Quiet(db.(tags := db.tags[t := Tag(HOME, true, None)]), false), NO_EDITS)
  {
    var s := Quiet(db, false);
    LeadsSelf(s, NO_EDITS);
    Then(s, s, Begin(i, ReactivateTag(t)), NO_EDITS);
    var s1 := Apply(s, Begin(i, ReactivateTag(t)));
    Then(s, s1, Grant(i), NO_EDITS);
    var s2 := Apply(s1, Grant(i));
    Then(s, s2, Commit(i), NO_EDITS);
    assert Apply(s2, Commit(i)) == Quiet(db.(tags := db.tags[t := Tag(HOME, true, None)]), false);
  }

  lemma CreateAliasAlone(db: Db, i: TxId, a: AliasId, row: Alias)
    requires row.tag in db.tags && db.tags[row.tag].active && a !in db.aliases
    requires db.tags[row.tag].tenant == row.tenant
    ensures Leads(Quiet(db, false), Quiet(db.(aliases := db.aliases[a := row]), false), NO_EDITS)
  {
    var s := Quiet(db, false);
    LeadsSelf(s, NO_EDITS);
    Then(s, s, Begin(i, CreateAlias(a, row)), NO_EDITS);
    var s1 := Apply(s, Begin(i, CreateAlias(a, row)));
    Then(s, s1, Grant(i), NO_EDITS);
    var s2 := Apply(s1, Grant(i));
    Then(s, s2, Check(i), NO_EDITS);
    var s3 := Apply(s2, Check(i));
    Then(s, s3, Commit(i), NO_EDITS);
    assert Apply(s3, Commit(i)) == Quiet(db.(aliases := db.aliases[a := row]), false);
  }

  lemma UpdateTagAlone(db: Db, i: TxId, t: TagId, saved: Tag)
    requires t in db.tags
    ensures Leads(Quiet(db, false), Quiet(db.(tags := db.tags[t := saved]), false), NO_EDITS)
  {
    var s := Quiet(db, false);
    LeadsSelf(s, NO_EDITS);
    Then(s, s, Begin(i, UpdateTag(t, saved)), NO_EDITS);
    var s1 := Apply(s, Begin(i, UpdateTag(t, saved)));
    Then(s, s1, Grant(i), NO_EDITS);
    var s2 := Apply(s1, Grant(i));
    Then(s, s2, Commit(i), NO_EDITS);
    assert Apply(s2, Commit(i)) == Quiet(db.(tags := db.tags[t := saved]), false);
  }

  /** A caller that loaded a tag while it was inactive and edits only, say, its name saves the
      inactive flag back over a tag that has been reactivated and given an alias since. */
  lemma StaleTagUpdateBreaksActivity()
    ensures exists db, run ::
      && ActiveAliasesOk(db) && Feasible(Quiet(db, false), run)
      && !ActiveAliasesOk(Exec(Quiet(db, false), run).db)
  {
    var stale := Tag(HOME, false, None);
    var db0 := Db(map[1 := stale], map[], map[]);
    ReactivateTagAlone(db0, 1, 1);
    var db1 := db0.(tags := db0.tags[1 := Tag(HOME, true, None)]);
    CreateAliasAlone(db1, 2, 5, Alias(HOME, 1, true, 0));
    var db2 := db1.(aliases := db1.aliases[5 := Alias(HOME, 1, true, 0)]);
    UpdateTagAlone(db2, 3, 1, stale);
    var db3 := db2.(tags := db2.tags[1 := stale]);
    Chain(Quiet(db0, false), Quiet(db1, false), Quiet(db2, false), NO_EDITS);
    Chain(Quiet(db0, false), Quiet(db2, false), Quiet(db3, false), NO_EDITS);
    assert !ActiveAliasesOk(db3) by {
      assert 5 in db3.aliases;
    }
    assert ActiveAliasesOk(db0);
    var run :| Feasible(Quiet(db0, false), run) && Exec(Quiet(db0, false), run) == Quiet(db3, false);
  }

  lemma ChecksUpdate(s: State, i: TxId, a: AliasId, saved: Alias, locks: map<Row, TxId>, e: Edits)
    requires saved.tag in s.db.tags && s.db.tags[saved.tag].active
    requires s.db.tags[saved.tag].tenant == saved.tenant
    ensures var op := UpdateAlias(a, saved);
            Leads(With(s, i, Tx(op, HasTag(saved.tag, false)), locks),
                  With(s, i, Tx(op, AskAlias(Some(saved.tag), a, true)), locks), e)
  {
    var op := UpdateAlias(a, saved);
    var s1 := With(s, i, Tx(op, HasTag(saved.tag, false)), locks);
    var s2 := With(s, i, Tx(op, HasTag(saved.tag, true)), locks);
    var s3 := With(s, i, Tx(op, AskAlias(Some(saved.tag), a, true)), locks);
    assert Apply(s1, Check(i)).txs == s2.txs;
    One(s1, Check(i), s2, e);
    assert Apply(s2, GoOn(i)).txs == s3.txs;
    One(s2, GoOn(i), s3, e);
    Chain(s1, s2, s3, e);
  }

  lemma GrantsAlias(s: State, i: TxId, op: Op, t: TagId, a: AliasId, locks: map<Row, TxId>, e: Edits)
    requires a in s.db.aliases && AliasRow(a) !in locks
    ensures Leads(With(s, i, Tx(op, AskAlias(Some(t), a, true)), locks),
                  With(s, i, Tx(op, HasAlias(Some(t), a, true)), locks[AliasRow(a) := i]), e)
  {
    var u := With(s, i, Tx(op, AskAlias(Some(t), a, true)), locks);
    var v := With(s, i, Tx(op, HasAlias(Some(t), a, true)), locks[AliasRow(a) := i]);
    assert Apply(u, Grant(i)).txs == v.txs;
    One(u, Grant(i), v, e);
  }

  lemma CommitsUpdate(s: State, i: TxId, a: AliasId, saved: Alias, e: Edits)
    requires i !in s.txs && (forall row :: row in s.locks ==> s.locks[row] != i)
    requires TagRow(saved.tag) !in s.locks && AliasRow(a) !in s.locks && a in s.db.aliases
    requires e.Allow(a, s.db.aliases[a], saved)
    ensures Leads(With(s, i, Tx(UpdateAlias(a, saved), HasAlias(Some(saved.tag), a, true)),
                       s.locks[TagRow(saved.tag) := i][AliasRow(a) := i]),
                  s.(db := s.db.(aliases := s.db.aliases[a := saved])), e)
  {
    var u := With(s, i, Tx(UpdateAlias(a, saved), HasAlias(Some(saved.tag), a, true)),
                  s.locks[TagRow(saved.tag) := i][AliasRow(a) := i]);
    assert Released(u.locks, i) == s.locks;
    assert u.txs - {i} == s.txs;
    One(u, Commit(i), s.(db := s.db.(aliases := s.db.aliases[a := saved])), e);
  }

  /** An alias re-pointed to an active tag, beside whatever else is going on. */
  lemma UpdateAliasBeside(s: State, i: TxId, a: AliasId, saved: Alias, e: Edits)
    requires i !in s.txs && (forall row :: row in s.locks ==> s.locks[row] != i)
    requires saved.tag in s.db.tags && s.db.tags[saved.tag].active && a in s.db.aliases
    requires s.db.tags[saved.tag].tenant == saved.tenant && e.Allow(a, s.db.aliases[a], saved)
    requires TagRow(saved.tag) !in s.locks && AliasRow(a) !in s.locks
    ensures Leads(s, s.(db := s.db.(aliases := s.db.aliases[a := saved])), e)
  {
    var op, t := UpdateAlias(a, saved), saved.tag;
    var locks := s.locks[TagRow(t) := i];
    Begins(s, i, op, e);
    GrantsTag(s, i, op, t, e);
    ChecksUpdate(s, i, a, saved, locks, e);
    GrantsAlias(s, i, op, t, a, locks, e);
    CommitsUpdate(s, i, a, saved, e);
    var s1 := With(s, i, Tx(op, AskTag(t)), s.locks);
    var s2 := With(s, i, Tx(op, HasTag(t, false)), locks);
    var s3 := With(s, i, Tx(op, AskAlias(Some(t), a, true)), locks);
    var s4 := With(s, i, Tx(op, HasAlias(Some(t), a, true)), locks[AliasRow(a) := i]);
    Chain(s, s1, s2, e);
    Chain(s, s2, s3, e);
    Chain(s, s3, s4, e);
    Chain(s, s4, s.(db := s.db.(aliases := s.db.aliases[a := saved])), e);
  }

  /** A deactivation up to the point where it has listed the aliases to lock. */
  lemma SweepBegins(s: State, i: TxId, t: TagId, todo: seq<AliasId>, e: Edits)
    requires i !in s.txs && t in s.db.tags && s.db.tags[t].active && TagRow(t) !in s.locks
    requires IsListing(s.db, t, todo)
    ensures Leads(s, s.(txs := s.txs[i := Tx(DeactivateTag(t), Sweep(t, todo, [], {}, s.clock))],
                        locks := s.locks[TagRow(t) := i],
                        clock := s.clock + 1), e)
  {
    var op, locks := DeactivateTag(t), s.locks[TagRow(t) := i];
    Begins(s, i, op, e);
    GrantsTag(s, i, op, t, e);
    var s1 := With(s, i, Tx(op, AskTag(t)), s.locks);
    var s2 := With(s, i, Tx(op, HasTag(t, false)), locks);
    var s3 := With(s, i, Tx(op, Sweep(t, todo, [], {}, s.clock)), locks).(clock := s.clock + 1);
    assert Apply(s2, Snapshot(i, todo)).txs == s3.txs;
    One(s2, Snapshot(i, todo), s3, e);
    Chain(s, s1, s2, e);
    Chain(s, s2, s3, e);
  }

  lemma CommitsEmptySweep(s: State, i: TxId, t: TagId, since: nat)
    requires i !in s.txs && t in s.db.tags && (forall row :: row in s.locks ==> s.locks[row] != i)
    requires TagRow(t) !in s.locks
    ensures Leads(s.(txs := s.txs[i := Tx(DeactivateTag(t), Sweep(t, [], [], {}, since))],
                     locks := s.locks[TagRow(t) := i]),
                  s.(db := s.db.(tags := s.db.tags[t := s.db.tags[t].(active := false)])), NO_EDITS)
  {
    var u := s.(txs := s.txs[i := Tx(DeactivateTag(t), Sweep(t, [], [], {}, since))],
                locks := s.locks[TagRow(t) := i]);
    var v := s.(db := s.db.(tags := s.db.tags[t := s.db.tags[t].(active := false)]));
    assert Released(u.locks, i) == s.locks && u.txs - {i} == s.txs;
    assert WithActive(s.db.aliases, {}, false) == s.db.aliases;
    One(u, Commit(i), v, NO_EDITS);
  }

  const MOVED_TAG := Tag(1, true, None)
  const LEFT_BEHIND := Db(map[1 := MOVED_TAG], map[5 := Alias(HOME, 1, true, 0)], map[])

  lemma DeactivatesPastAlias()
    ensures Leads(Quiet(LEFT_BEHIND, false),
                  Quiet(LEFT_BEHIND.(tags := map[1 := MOVED_TAG.(active := false)]), false).(clock := 1), NO_EDITS)
  {
    var s := Quiet(LEFT_BEHIND, false);
    assert IsListing(LEFT_BEHIND, 1, []);
    SweepBegins(s, 2, 1, [], NO_EDITS);
    var done := s.(clock := 1);
    CommitsEmptySweep(done, 2, 1, 0);
    var t := done.(db := LEFT_BEHIND.(tags := LEFT_BEHIND.tags[1 := MOVED_TAG.(active := false)]));
    assert LEFT_BEHIND.tags[1 := MOVED_TAG.(active := false)] == map[1 := MOVED_TAG.(active := false)];
    Chain(s, done.(txs := done.txs[2 := Tx(DeactivateTag(1), Sweep(1, [], [], {}, 0))],
                   locks := done.locks[TagRow(1) := 2]), t, NO_EDITS);
  }

  /** A tag moved to another tenant leaves its alias behind; deactivating the tag then lists the
      aliases of its new tenant only, and the old one stays active over an inactive tag. */
  lemma TenantEditBreaksActivity()
    ensures exists db, run ::
      && Homed(db) && Feasible(Quiet(db, false), run)
      && !ActiveAliasesOk(Exec(Quiet(db, false), run).db)
  {
    var db0 := LEFT_BEHIND.(tags := map[1 := Tag(HOME, true, None)]);
    UpdateTagAlone(db0, 1, 1, MOVED_TAG);
    assert db0.(tags := db0.tags[1 := MOVED_TAG]) == LEFT_BEHIND;
    DeactivatesPastAlias();
    var last := Quiet(LEFT_BEHIND.(tags := map[1 := MOVED_TAG.(active := false)]), false).(clock := 1);
    Chain(Quiet(db0, false), Quiet(LEFT_BEHIND, false), last, NO_EDITS);
    assert 5 in last.db.aliases && !ActiveAliasesOk(last.db);
    assert Homed(db0);
    var run :| Feasible(Quiet(db0, false), run) && Exec(Quiet(db0, false), run) == last;
  }

  // ----- A deadlock, for any alias that is renamed and re-pointed and any other re-pointed one

  const ON := Tag(HOME, true, None)

  function Listed(a: AliasId, b: AliasId): Db {
    Db(map[1 := ON, 2 := ON], map[a := Alias(HOME, 1, true, 1), b := Alias(HOME, 1, true, 2)], map[])
  }

  function Halfway(a: AliasId, b: AliasId): Db {
    Listed(a, b).(aliases := Listed(a, b).aliases[a := Alias(HOME, 2, true, 5)])
  }

  function Moved(a: AliasId, b: AliasId): Db {
    Halfway(a, b).(aliases := Halfway(a, b).aliases[b := Alias(HOME, 2, true, 2)])
  }

  function First(a: AliasId, b: AliasId): Tx {
    Tx(DeactivateTag(1), Sweep(1, [a, b], [], {}, 0))
  }

  function Second(a: AliasId, b: AliasId): Tx {
    Tx(DeactivateTag(2), Sweep(2, [b, a], [], {}, 1))
  }

  function Both(a: AliasId, b: AliasId): State {
    State(Moved(a, b), map[1 := First(a, b), 2 := Second(a, b)], map[TagRow(1) := 1, TagRow(2) := 2], 2, true)
  }

  lemma FirstListing(a: AliasId, b: AliasId)
    requires a != b
    ensures IsListing(Listed(a, b), 1, [a, b]) && ActiveAliasesOk(Listed(a, b))
  {}

  lemma SecondListing(a: AliasId, b: AliasId)
    requires a != b
    ensures IsListing(Moved(a, b), 2, [b, a])
  {}

  lemma LeadsToBoth(a: AliasId, b: AliasId, e: Edits)
    requires a != b && a in e.repointed && a in e.renamed && b in e.repointed
    ensures Leads(Quiet(Listed(a, b), true), Both(a, b), e)
  {
    var s0 := Quiet(Listed(a, b), true);
    FirstListing(a, b);
    SweepBegins(s0, 1, 1, [a, b], e);
    var s1 := State(Listed(a, b), map[1 := First(a, b)], map[TagRow(1) := 1], 1, true);
    UpdateAliasBeside(s1, 3, a, Alias(HOME, 2, true, 5), e);
    var s2 := s1.(db := Halfway(a, b));
    UpdateAliasBeside(s2, 4, b, Alias(HOME, 2, true, 2), e);
    var s3 := s2.(db := Moved(a, b));
    SecondListing(a, b);
    SweepBegins(s3, 2, 2, [b, a], e);
    Chain(s0, s1, s2, e);
    Chain(s0, s2, s3, e);
    assert s3.txs[2 := Second(a, b)] == Both(a, b).txs && s3.locks[TagRow(2) := 2] == Both(a, b).locks;
    Chain(s0, s3, Both(a, b), e);
  }

  function SecondPhase(a: AliasId, b: AliasId): Phase {
    Sweep(2, [a], [b], {b}, 1)
  }

  function OneTaken(a: AliasId, b: AliasId): State {
    With(Both(a, b), 2, Tx(DeactivateTag(2), SecondPhase(a, b)), Both(a, b).locks[AliasRow(b) := 2])
  }

  function FirstPhaseOf(a: AliasId, b: AliasId): Phase {
    Sweep(1, [b], [a], {}, 0)
  }

  function TwoTaken(a: AliasId, b: AliasId): State {
    With(OneTaken(a, b), 1, Tx(DeactivateTag(1), FirstPhaseOf(a, b)), OneTaken(a, b).locks[AliasRow(a) := 1])
  }

  lemma SecondTakesOne(a: AliasId, b: AliasId, e: Edits)
    requires a != b
    ensures Leads(Both(a, b), OneTaken(a, b), e)
  {
    var phase := SecondPhase(a, b);
    assert Granted(Both(a, b), Second(a, b).phase) == phase;
    assert phase.held[0] == b && AliasRow(b) in Holds(phase);
    One(Both(a, b), Grant(2), OneTaken(a, b), e);
  }

  /** The first deactivation takes, and keeps, an alias it no longer selects. */
  lemma FirstTakesOne(a: AliasId, b: AliasId, e: Edits)
    requires a != b
    ensures Leads(OneTaken(a, b), TwoTaken(a, b), e)
  {
    var phase := FirstPhaseOf(a, b);
    assert Granted(OneTaken(a, b), First(a, b).phase) == phase;
    assert phase.held[0] == a && AliasRow(a) in Holds(phase);
    One(OneTaken(a, b), Grant(1), TwoTaken(a, b), e);
  }

  lemma BothWait(a: AliasId, b: AliasId)
    requires a != b
    ensures Deadlock(TwoTaken(a, b), [1, 2])
  {
    assert WaitsFor(TwoTaken(a, b), 1, 2) && WaitsFor(TwoTaken(a, b), 2, 1);
  }

  /** From a database of active aliases over active tags, some run within these edits ends in a
      deadlock. */
  ghost predicate CanDeadlock(e: Edits) {
    exists db, run, cycle ::
      && ActiveAliasesOk(db) && Feasible(Quiet(db, true), run) && Within(Quiet(db, true), run, e)
      && Deadlock(Exec(Quiet(db, true), run), cycle)
  }

  /** Where the database keeps the locks of rejected rows, two deactivations can deadlock: both
      aliases are re-pointed from tag 1 to tag 2 after the first deactivation has listed them, and
      one is renamed past the other on the way. */
  lemma RenameCanDeadlock(a: AliasId, b: AliasId, e: Edits)
    requires a != b && a in e.repointed && a in e.renamed && b in e.repointed
    ensures CanDeadlock(e)
  {
    FirstListing(a, b);
    LeadsToBoth(a, b, e);
    SecondTakesOne(a, b, e);
    FirstTakesOne(a, b, e);
    var s0, t := Quiet(Listed(a, b), true), TwoTaken(a, b);
    Chain(s0, Both(a, b), OneTaken(a, b), e);
    Chain(s0, OneTaken(a, b), t, e);
    BothWait(a, b);
    var run :| Feasible(s0, run) && Within(s0, run, e) && Exec(s0, run) == t;
  }

  /** Where the database keeps the locks of rejected rows, deadlocks are possible within some edits
      exactly when those let one alias be both renamed and re-pointed and another be re-pointed. */
  lemma DeadlockNeedsBothEdits(e: Edits)
    ensures CanDeadlock(e) <==> !e.Safe()
  {
    if !e.Safe() {
      var a, b :| a in e.repointed && a in e.renamed && b in e.repointed && a != b;
      RenameCanDeadlock(a, b, e);
    } else if CanDeadlock(e) {
      var db, run, cycle :|
        && ActiveAliasesOk(db) && Feasible(Quiet(db, true), run) && Within(Quiet(db, true), run, e)
        && Deadlock(Exec(Quiet(db, true), run), cycle);
      NoDeadlock(db, true, run, cycle, e);
    }
  }
}
