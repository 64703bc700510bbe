/** Concurrent assignment of one tag to one resource: the check of the caller's copy of the tag, the
    lookup, the insert that may lose a race, and the fallback lookups, interleaved over any number of
    callers, removals, and deactivations and reactivations of tags. */
module ConcurrentAssign {
  import opened Scopes
  import opened Assignments

  /** A committed row knows the slot it was inserted for. */
  datatype Assigned = Assigned(id: nat, slot: Slot)

  /** Where a call is. Loaded has a copy of the tag, active or not, that no lock keeps current; Refused
      is a call that found it inactive. Inserted is an insert whose transaction is still open; Conflicted is an insert
      that met the unique constraint; Raised is the lookup after it that found nothing either. */
  datatype Phase =
    | Loaded(active: bool) | Refused
    | Start | Missed | Inserted(row: Assigned) | Conflicted | Raised
    | Done(row: Assigned, created: bool) | Failed | Crashed

  /** `since` is how often the tag's activity had changed when the caller loaded it. */
  datatype Caller = Caller(slot: Slot, phase: Phase, since: nat)

  /** Each committed change leaves one entry: an audit row and an outbox event together. */
  datatype Entry = Added(row: Assigned) | Removed(row: Assigned)

  /** `active` holds the active tags, `changes` counts the changes of each tag's activity. */
  datatype State = State(callers: map<nat, Caller>, table: map<Slot, Assigned>, next: nat, log: seq<Entry>,
                         active: set<nat>, changes: map<nat, nat>)

  datatype Step =
    | Load(c: nat, slot: Slot)
    | Validate(c: nat)
    | Lookup(c: nat)
    | Insert(c: nat)
    | Commit(c: nat)
    | Requery(c: nat)
    | Refetch(c: nat)
    | Crash(c: nat)
    | Remove(slot: Slot)
    | Switch(tag: nat)

  /** The step is some call's own. */
  predicate ByCaller(step: Step) {
    !step.Remove? && !step.Switch?
  }

  function Changes(s: State, tag: nat): nat {
    if tag in s.changes then s.changes[tag] else 0
  }

  predicate At(s: State, c: nat, phase: Phase) {
    c in s.callers && s.callers[c].phase == phase
  }

  predicate Pending(s: State, c: nat, slot: Slot) {
    c in s.callers && s.callers[c].slot == slot && s.callers[c].phase.Inserted?
  }

  predicate Final(phase: Phase) {
    phase.Done? || phase.Failed? || phase.Crashed? || phase.Refused?
  }

  /** An insert waits while another open transaction holds the same key. */
  ghost predicate Enabled(s: State, step: Step) {
    match step
    case Load(c, _) => c !in s.callers
    case Validate(c) => c in s.callers && s.callers[c].phase.Loaded?
    case Lookup(c) => At(s, c, Start)
    case Insert(c) => At(s, c, Missed) && forall d :: !Pending(s, d, s.callers[c].slot)
    case Commit(c) => c in s.callers && s.callers[c].phase.Inserted?
    case Requery(c) => At(s, c, Conflicted)
    case Refetch(c) => At(s, c, Raised)
    case Crash(c) => c in s.callers && !Final(s.callers[c].phase)
    case Remove(slot) => slot in s.table
    case Switch(_) => true
  }

  function Moved(s: State, c: nat, phase: Phase): State
    requires c in s.callers
  {
    s.(callers := s.callers[c := s.callers[c].(phase := phase)])
  }

  /** A lookup under the exact scope, and what the call does when it finds nothing. */
  function Found(s: State, c: nat, otherwise: Phase): State
    requires c in s.callers
  {
    var slot := s.callers[c].slot;
    Moved(s, c, if slot in s.table then Done(s.table[slot], false) else otherwise)
  }

  function Apply(s: State, step: Step): State
    requires Enabled(s, step)
  {
    match step
    case Load(c, slot) =>
      s.(callers := s.callers[c := Caller(slot, Loaded(slot.tag in s.active), Changes(s, slot.tag))])
    case Validate(c) => Moved(s, c, if s.callers[c].phase.active then Start else Refused)
    case Lookup(c) => Found(s, c, Missed)
    case Insert(c) =>
      var slot := s.callers[c].slot;
      if slot in s.table then Moved(s, c, Conflicted)
      else Moved(s, c, Inserted(Assigned(s.next, slot))).(next := s.next + 1)
    case Commit(c) =>
      var row := s.callers[c].phase.row;
      Moved(s, c, Done(row, true)).(table := s.table[s.callers[c].slot := row], log := s.log + [Added(row)])
    case Requery(c) => Found(s, c, Raised)
    case Refetch(c) => Found(s, c, Failed)
    case Crash(c) => Moved(s, c, Crashed)
    case Remove(slot) => s.(table := s.table - {slot}, log := s.log + [Removed(s.table[slot])])
    case Switch(tag) =>
      s.(active := if tag in s.active then s.active - {tag} else s.active + {tag},
         changes := s.changes[tag := Changes(s, tag) + 1])
  }

  const INITIAL := State(map[], map[], 0, [], {}, map[])

  ghost predicate Feasible(s: State, steps: seq<Step>)
    decreases |steps|
  {
    steps == [] || (Enabled(s, steps[0]) && Feasible(Apply(s, steps[0]), steps[1..]))
  }

  ghost function Exec(s: State, steps: seq<Step>): State
    requires Feasible(s, steps)
    decreases |steps|
  {
    if steps == [] then s else Exec(Apply(s, steps[0]), steps[1..])
  }

  // ----- Counting

  function CountAdded(log: seq<Entry>, slot: Slot): nat {
    if log == [] then 0
    else
      var last := log[|log| - 1];
      CountAdded(log[..|log| - 1], slot) + Bit(last.Added? && last.row.slot == slot)
  }

  function CountRemoved(log: seq<Entry>, slot: Slot): nat {
    if log == [] then 0
    else
      var last := log[|log| - 1];
      CountRemoved(log[..|log| - 1], slot) + Bit(last.Removed? && last.row.slot == slot)
  }

  lemma CountNext(log: seq<Entry>, e: Entry, slot: Slot)
    ensures CountAdded(log + [e], slot) == CountAdded(log, slot) + Bit(e.Added? && e.row.slot == slot)
    ensures CountRemoved(log + [e], slot) == CountRemoved(log, slot) + Bit(e.Removed? && e.row.slot == slot)
  {}

  /** The calls that returned created. */
  function Creators(s: State, slot: Slot): set<nat> {
    set c | c in s.callers && s.callers[c].slot == slot
            && s.callers[c].phase.Done? && s.callers[c].phase.created
  }

  // ----- What every step keeps

  ghost predicate TableOk(s: State) {
    && (forall k :: k in s.table ==> s.table[k].slot == k)
    && (forall k :: CountAdded(s.log, k) == CountRemoved(s.log, k) + Bit(k in s.table))
  }

  /** What a call may rely on in each phase. */
  ghost predicate CallerOk(s: State, c: Caller) {
    match c.phase
    case Inserted(row) => row.slot == c.slot && c.slot !in s.table
    case Conflicted => CountAdded(s.log, c.slot) > 0
    case Raised => CountRemoved(s.log, c.slot) > 0
    case Failed => CountRemoved(s.log, c.slot) > 0
    case Done(row, _) =>
      row.slot == c.slot
      && (CountRemoved(s.log, c.slot) == 0 ==> c.slot in s.table && s.table[c.slot] == row)
    case _ => true
  }

  ghost predicate CallersOk(s: State) {
    forall c :: c in s.callers ==> CallerOk(s, s.callers[c])
  }

  ghost predicate OnePending(s: State) {
    forall c, d, slot :: Pending(s, c, slot) && Pending(s, d, slot) ==> c == d
  }

  ghost predicate Counted(s: State) {
    forall slot :: |Creators(s, slot)| == CountAdded(s.log, slot)
  }

  /** Every insert takes an id no insert has taken before. */
  ghost predicate FreshIds(s: State) {
    && (forall e :: e in s.log && e.Added? ==> e.row.id < s.next)
    && (forall k :: k in s.table ==> Added(s.table[k]) in s.log)
    && (forall i, j :: 0 <= i < j < |s.log| && s.log[i].Added? && s.log[j].Added? ==>
          s.log[i].row.id != s.log[j].row.id)
    && (forall c :: c in s.callers && s.callers[c].phase.Inserted? ==> FreshFor(s, s.callers[c].phase.row.id))
    && (forall c, d :: c in s.callers && d in s.callers && c != d && s.callers[c].phase.Inserted?
                       && s.callers[d].phase.Inserted? ==>
          s.callers[c].phase.row.id != s.callers[d].phase.row.id)
  }

  predicate FreshFor(s: State, id: nat) {
    id < s.next && forall e | e in s.log :: e.Added? ==> e.row.id != id
  }

  lemma CommitKeepsFresh(s: State, c: nat)
    requires FreshIds(s) && Enabled(s, Commit(c))
    ensures FreshIds(Apply(s, Commit(c)))
  {
    assert FreshFor(s, s.callers[c].phase.row.id);
  }

  lemma RemoveKeepsFresh(s: State, slot: Slot)
    requires FreshIds(s) && Enabled(s, Remove(slot))
    ensures FreshIds(Apply(s, Remove(slot)))
  {}

  lemma StepKeepsFresh(s: State, step: Step)
    requires FreshIds(s) && Enabled(s, step)
    ensures FreshIds(Apply(s, step))
  {
    if step.Commit? {
      CommitKeepsFresh(s, step.c);
    } else if step.Remove? {
      RemoveKeepsFresh(s, step.slot);
    }
  }

  lemma {:induction false} RunKeepsFresh(s: State, steps: seq<Step>)
    requires FreshIds(s) && Feasible(s, steps)
    ensures FreshIds(Exec(s, steps))
    decreases |steps|
  {
    if steps != [] {
      StepKeepsFresh(s, steps[0]);
      RunKeepsFresh(Apply(s, steps[0]), steps[1..]);
    }
  }

  ghost predicate Inv(s: State) {
    TableOk(s) && CallersOk(s) && OnePending(s) && Counted(s)
  }

  lemma CommitKeepsTable(s: State, c: nat)
    requires TableOk(s) && CallersOk(s) && Enabled(s, Commit(c))
    ensures TableOk(Apply(s, Commit(c)))
  {
    var t := Apply(s, Commit(c));
    assert CallerOk(s, s.callers[c]);
    forall k ensures CountAdded(t.log, k) == CountRemoved(t.log, k) + Bit(k in t.table) {
      CountNext(s.log, Added(s.callers[c].phase.row), k);
    }
  }

  lemma RemoveKeepsTable(s: State, slot: Slot)
    requires TableOk(s) && Enabled(s, Remove(slot))
    ensures TableOk(Apply(s, Remove(slot)))
  {
    var t := Apply(s, Remove(slot));
    forall k ensures CountAdded(t.log, k) == CountRemoved(t.log, k) + Bit(k in t.table) {
      CountNext(s.log, Removed(s.table[slot]), k);
    }
  }

  lemma StepKeepsTable(s: State, step: Step)
    requires TableOk(s) && CallersOk(s) && Enabled(s, step)
    ensures TableOk(Apply(s, step))
  {
    if step.Commit? {
      CommitKeepsTable(s, step.c);
    } else if step.Remove? {
      RemoveKeepsTable(s, step.slot);
    }
  }

  lemma CommitOthersOk(s: State, c: nat, d: nat)
    requires Inv(s) && Enabled(s, Commit(c)) && d in s.callers && d != c
    ensures CallerOk(Apply(s, Commit(c)), s.callers[d])
  {
    var caller := s.callers[d];
    assert CallerOk(s, caller) && CallerOk(s, s.callers[c]);
    CountNext(s.log, Added(s.callers[c].phase.row), caller.slot);
    if caller.phase.Inserted? && caller.slot == s.callers[c].slot {
      assert Pending(s, d, caller.slot) && Pending(s, c, caller.slot);
    }
  }

  lemma RemoveOthersOk(s: State, slot: Slot, d: nat)
    requires Inv(s) && Enabled(s, Remove(slot)) && d in s.callers
    ensures CallerOk(Apply(s, Remove(slot)), s.callers[d])
  {}

  /** A caller that does not move keeps what it relies on. */
  lemma OthersOk(s: State, step: Step, d: nat)
    requires Inv(s) && Enabled(s, step) && d in s.callers && !(ByCaller(step) && step.c == d)
    ensures CallerOk(Apply(s, step), s.callers[d])
  {
    if step.Commit? {
      CommitOthersOk(s, step.c, d);
    } else if step.Remove? {
      RemoveOthersOk(s, step.slot, d);
    } else {
      assert CallerOk(s, s.callers[d]);
    }
  }

  /** A caller that moves arrives with what its new phase relies on. */
  lemma MoverOk(s: State, step: Step)
    requires Inv(s) && Enabled(s, step) && ByCaller(step)
    ensures CallerOk(Apply(s, step), Apply(s, step).callers[step.c])
  {}

  lemma CallerAfter(s: State, step: Step, d: nat)
    requires Inv(s) && Enabled(s, step) && d in Apply(s, step).callers
    ensures CallerOk(Apply(s, step), Apply(s, step).callers[d])
  {
    if ByCaller(step) && step.c == d { MoverOk(s, step); } else { OthersOk(s, step, d); }
  }

  lemma StepKeepsCallers(s: State, step: Step)
    requires Inv(s) && Enabled(s, step)
    ensures CallersOk(Apply(s, step))
  {
    forall d | d in Apply(s, step).callers ensures CallerOk(Apply(s, step), Apply(s, step).callers[d]) {
      CallerAfter(s, step, d);
    }
  }

  lemma StepKeepsPending(s: State, step: Step)
    requires Inv(s) && Enabled(s, step)
    ensures OnePending(Apply(s, step))
  {
    var t := Apply(s, step);
    forall c, slot | Pending(t, c, slot) ensures Pending(s, c, slot) || (step.Insert? && step.c == c) {}
    if step.Insert? {
      forall d ensures !Pending(s, d, s.callers[step.c].slot) {}
    }
  }

  lemma NewCreator(s: State, c: nat, row: Assigned, slot: Slot)
    requires c in s.callers && !s.callers[c].phase.Done?
    ensures c !in Creators(s, slot)
    ensures Creators(Moved(s, c, Done(row, true)), slot)
            == Creators(s, slot) + (if s.callers[c].slot == slot then {c} else {})
  {}

  lemma CommitCounts(s: State, c: nat, slot: Slot)
    requires Inv(s) && Enabled(s, Commit(c))
    ensures |Creators(Apply(s, Commit(c)), slot)| == CountAdded(Apply(s, Commit(c)).log, slot)
  {
    var row := s.callers[c].phase.row;
    assert CallerOk(s, s.callers[c]);
    NewCreator(s, c, row, slot);
    CountNext(s.log, Added(row), slot);
    assert Creators(Apply(s, Commit(c)), slot) == Creators(Moved(s, c, Done(row, true)), slot);
  }

  lemma SameCreators(s: State, c: nat, caller: Caller, slot: Slot)
    requires c in s.callers ==> !s.callers[c].phase.Done?
    requires caller.phase.Done? ==> !caller.phase.created
    ensures Creators(s.(callers := s.callers[c := caller]), slot) == Creators(s, slot)
  {}

  lemma OtherStepsCount(s: State, step: Step, slot: Slot)
    requires Inv(s) && Enabled(s, step) && !step.Commit?
    ensures |Creators(Apply(s, step), slot)| == CountAdded(Apply(s, step).log, slot)
  {
    var t := Apply(s, step);
    if step.Remove? {
      CountNext(s.log, Removed(s.table[step.slot]), slot);
      assert Creators(t, slot) == Creators(s, slot);
    } else if step.Switch? {
      assert Creators(t, slot) == Creators(s, slot);
    } else {
      SameCreators(s, step.c, t.callers[step.c], slot);
      assert Creators(t, slot) == Creators(s.(callers := s.callers[step.c := t.callers[step.c]]), slot);
    }
  }

  lemma StepKeepsCount(s: State, step: Step)
    requires Inv(s) && Enabled(s, step)
    ensures Counted(Apply(s, step))
  {
    forall slot ensures |Creators(Apply(s, step), slot)| == CountAdded(Apply(s, step).log, slot) {
      if step.Commit? { CommitCounts(s, step.c, slot); } else { OtherStepsCount(s, step, slot); }
    }
  }

  lemma {:induction false} RunKeepsInv(s: State, steps: seq<Step>)
    requires Inv(s) && Feasible(s, steps)
    ensures Inv(Exec(s, steps))
    decreases |steps|
  {
    if steps != [] {
      StepKeepsTable(s, steps[0]);
      StepKeepsCallers(s, steps[0]);
      StepKeepsPending(s, steps[0]);
      StepKeepsCount(s, steps[0]);
      RunKeepsInv(Apply(s, steps[0]), steps[1..]);
    }
  }

  lemma InitialInv()
    ensures Inv(INITIAL)
  {}

  // ----- The theorems

  ghost predicate Reachable(s: State) {
    exists steps :: Feasible(INITIAL, steps) && Exec(INITIAL, steps) == s
  }

  lemma ReachableInv(s: State)
    requires Reachable(s)
    ensures Inv(s)
  {
    var steps :| Feasible(INITIAL, steps) && Exec(INITIAL, steps) == s;
    InitialInv();
    RunKeepsInv(INITIAL, steps);
  }

  /** In every reachable state and for every slot: calls that returned created, audit and event pairs
      for creations, and removals plus the row still there all agree. */
  lemma AssignmentConservation(s: State, slot: Slot)
    requires Reachable(s)
    ensures |Creators(s, slot)| == CountAdded(s.log, slot)
    ensures CountAdded(s.log, slot) == CountRemoved(s.log, slot) + Bit(slot in s.table)
  {
    ReachableInv(s);
  }

  /** Whatever happens around it, a call returns a row of its own exact scope. */
  lemma OwnScopeOnly(s: State, c: nat)
    requires Reachable(s) && c in s.callers && s.callers[c].phase.Done?
    ensures s.callers[c].phase.row.slot == s.callers[c].slot
  {
    ReachableInv(s);
    assert CallerOk(s, s.callers[c]);
  }

  /** No two creations in the log carry one id, and rows in different slots have different ids. */
  lemma RowsHaveOwnIds(s: State, a: Slot, b: Slot)
    requires Reachable(s)
    ensures forall i, j :: 0 <= i < j < |s.log| && s.log[i].Added? && s.log[j].Added? ==>
              s.log[i].row.id != s.log[j].row.id
    ensures a in s.table && b in s.table && a != b ==> s.table[a].id != s.table[b].id
  {
    var steps :| Feasible(INITIAL, steps) && Exec(INITIAL, steps) == s;
    RunKeepsFresh(INITIAL, steps);
    if a in s.table && b in s.table && a != b {
      ReachableInv(s);
      LoggedApart(s, s.table[a], s.table[b]);
    }
  }

  lemma LoggedApart(s: State, row: Assigned, other: Assigned)
    requires FreshIds(s) && Added(row) in s.log && Added(other) in s.log && row != other
    ensures row.id != other.id
  {
    var i :| 0 <= i < |s.log| && s.log[i] == Added(row);
    var j :| 0 <= j < |s.log| && s.log[j] == Added(other);
    assert i < j || j < i;
  }

  /** Without a removal in the slot, calls that returned agree on the one row that is there, exactly
      one of them created it, there is exactly one audit and event pair, and none has failed or even
      needed the last lookup. */
  lemma OneWinner(s: State, slot: Slot, c: nat)
    requires Reachable(s) && CountRemoved(s.log, slot) == 0
    requires c in s.callers && s.callers[c].slot == slot && s.callers[c].phase.Done?
    ensures slot in s.table && |Creators(s, slot)| == CountAdded(s.log, slot) == 1
    ensures forall d :: d in s.callers && s.callers[d].slot == slot ==>
              && !s.callers[d].phase.Failed? && !s.callers[d].phase.Raised?
              && (s.callers[d].phase.Done? ==> s.callers[d].phase.row == s.table[slot])
  {
    ReachableInv(s);
    assert CallerOk(s, s.callers[c]);
    forall d | d in s.callers && s.callers[d].slot == slot
      ensures !s.callers[d].phase.Failed? && !s.callers[d].phase.Raised?
      ensures s.callers[d].phase.Done? ==> s.callers[d].phase.row == s.table[slot]
    {
      assert CallerOk(s, s.callers[d]);
    }
  }

  /** The lookups after a conflict can only come back empty because of a removal. */
  lemma FailureNeedsRemoval(s: State, c: nat)
    requires Reachable(s) && c in s.callers
    requires s.callers[c].phase.Failed? || s.callers[c].phase.Raised?
    ensures CountRemoved(s.log, s.callers[c].slot) > 0
  {
    ReachableInv(s);
    assert CallerOk(s, s.callers[c]);
  }

  /** No caller waits for ever on another: while any call is unfinished, some call can take a step
      other than to load a tag or to crash. */
  lemma NeverStuck(s: State, c: nat) returns (step: Step)
    requires c in s.callers && !Final(s.callers[c].phase)
    ensures Enabled(s, step) && ByCaller(step) && !step.Load? && !step.Crash?
  {
    match s.callers[c].phase
    case Loaded(_) => step := Validate(c);
    case Start => step := Lookup(c);
    case Missed =>
      if d :| Pending(s, d, s.callers[c].slot) { step := Commit(d); } else { step := Insert(c); }
    case Inserted(_) => step := Commit(c);
    case Conflicted => step := Requery(c);
    case Raised => step := Refetch(c);
    case _ =>
  }

  function Distance(phase: Phase): nat {
    match phase
    case Loaded(_) => 5
    case Start => 4
    case Missed => 3
    case Inserted(_) => 2
    case Conflicted => 2
    case Raised => 1
    case _ => 0
  }

  /** Every such step brings one call nearer its end and leaves the others where they are. */
  lemma StepsAdvance(s: State, step: Step)
    requires Enabled(s, step) && ByCaller(step) && !step.Load?
    ensures var t := Apply(s, step);
            && t.callers.Keys == s.callers.Keys
            && Distance(t.callers[step.c].phase) < Distance(s.callers[step.c].phase)
            && forall d :: d in s.callers && d != step.c ==> t.callers[d] == s.callers[d]
  {}

  /** Once no call on the slot is under way, and unless a removal intervened, every call that was not
      refused and did not crash has returned the same committed row. */
  lemma EveryoneReturns(s: State, slot: Slot, c: nat)
    requires Reachable(s) && CountRemoved(s.log, slot) == 0
    requires forall d :: d in s.callers && s.callers[d].slot == slot ==> Final(s.callers[d].phase)
    requires c in s.callers && s.callers[c].slot == slot
    requires !s.callers[c].phase.Crashed? && !s.callers[c].phase.Refused?
    ensures s.callers[c].phase.Done? && slot in s.table && s.callers[c].phase.row == s.table[slot]
    ensures |Creators(s, slot)| == 1
  {
    if s.callers[c].phase.Failed? {
      FailureNeedsRemoval(s, c);
    } else {
      OneWinner(s, slot, c);
    }
  }

  // ----- Inactive tags

  /** A call that has not been refused, and will not be, loaded its tag active; a refused one did not.
      Activity alternates, so it is what was loaded exactly after an even number of changes. */
  predicate CopyOk(s: State, c: Caller) {
    && c.since <= Changes(s, c.slot.tag)
    && (!c.phase.Crashed? ==>
          (c.slot.tag in s.active <==>
             LoadedActive(c.phase) == ((Changes(s, c.slot.tag) - c.since) % 2 == 0)))
  }

  predicate LoadedActive(phase: Phase)
    requires !phase.Crashed?
  {
    !phase.Refused? && (phase.Loaded? ==> phase.active)
  }

  ghost predicate CopiesOk(s: State) {
    forall c :: c in s.callers ==> CopyOk(s, s.callers[c])
  }

  lemma StepKeepsCopies(s: State, step: Step)
    requires CopiesOk(s) && Enabled(s, step)
    ensures CopiesOk(Apply(s, step))
  {
    var t := Apply(s, step);
    forall c | c in t.callers ensures CopyOk(t, t.callers[c]) {
      assert c in s.callers ==> CopyOk(s, s.callers[c]);
    }
  }

  lemma {:induction false} RunKeepsCopies(s: State, steps: seq<Step>)
    requires CopiesOk(s) && Feasible(s, steps)
    ensures CopiesOk(Exec(s, steps))
    decreases |steps|
  {
    if steps != [] {
      StepKeepsCopies(s, steps[0]);
      RunKeepsCopies(Apply(s, steps[0]), steps[1..]);
    }
  }

  /** A call creates its row over an inactive tag exactly if the tag's activity has changed an odd
      number of times since the caller loaded it; in particular only if it was deactivated since. */
  lemma CreatedOverInactive(s: State, c: nat)
    requires Reachable(s) && Enabled(s, Commit(c))
    ensures var caller := s.callers[c];
            && caller.since <= Changes(s, caller.slot.tag)
            && (caller.slot.tag !in s.active <==> (Changes(s, caller.slot.tag) - caller.since) % 2 == 1)
  {
    var steps :| Feasible(INITIAL, steps) && Exec(INITIAL, steps) == s;
    RunKeepsCopies(INITIAL, steps);
    assert CopyOk(s, s.callers[c]);
  }

  lemma {:induction false} RunAppend(s: State, first: seq<Step>, rest: seq<Step>)
    requires Feasible(s, first) && Feasible(Exec(s, first), rest)
    ensures Feasible(s, first + rest)
    ensures Exec(s, first + rest) == Exec(Exec(s, first), rest)
    decreases |first|
  {
    if first == [] {
      assert first + rest == rest;
    } else {
      RunAppend(Apply(s, first[0]), first[1..], rest);
      assert (first + rest)[1..] == first[1..] + rest;
    }
  }

  lemma Then(s: State, step: Step)
    requires Reachable(s) && Enabled(s, step)
    ensures Reachable(Apply(s, step))
  {
    var steps :| Feasible(INITIAL, steps) && Exec(INITIAL, steps) == s;
    assert Feasible(Apply(s, step), []) && [step][1..] == [];
    assert Feasible(s, [step]) && Exec(s, [step]) == Apply(s, step);
    RunAppend(INITIAL, steps, [step]);
  }

  lemma LoadThenDeactivate(slot: Slot)
    ensures exists s :: Reachable(s) && At(s, 0, Loaded(true)) && s.callers[0].slot == slot
                        && slot.tag !in s.active && slot !in s.table && s.callers.Keys == {0}
  {
    assert Feasible(INITIAL, []) && Exec(INITIAL, []) == INITIAL;
    Then(INITIAL, Switch(slot.tag));
    var on := Apply(INITIAL, Switch(slot.tag));
    Then(on, Load(0, slot));
    var loaded := Apply(on, Load(0, slot));
    Then(loaded, Switch(slot.tag));
    var off := Apply(loaded, Switch(slot.tag));
    assert Reachable(off) && At(off, 0, Loaded(true));
  }

  /** It does happen: a tag is loaded, deactivated, and assigned. */
  lemma InactiveTagIsAssigned(slot: Slot)
    ensures exists s, c :: Reachable(s) && Enabled(s, Commit(c))
                           && s.callers[c].slot == slot && slot.tag !in s.active
  {
    LoadThenDeactivate(slot);
    var s :| Reachable(s) && At(s, 0, Loaded(true)) && s.callers[0].slot == slot
             && slot.tag !in s.active && slot !in s.table && s.callers.Keys == {0};
    Then(s, Validate(0));
    var started := Apply(s, Validate(0));
    Then(started, Lookup(0));
    var missed := Apply(started, Lookup(0));
    Then(missed, Insert(0));
    assert Enabled(Apply(missed, Insert(0)), Commit(0));
  }
}
