/** What every interleaving of creators, clock and retention job keeps. */
module CreationSafety {
  import opened Wrappers
  import opened Creation

  // ------------------------------------------------------- rows and locks

  ghost predicate RowsOk(rows: OrgRows) {
    && |rows.incidents| == rows.incidentSeq == |rows.timeline|
    && (forall i :: 0 <= i < |rows.incidents| ==> rows.incidents[i].number == i + 1)
    && (forall i :: 0 <= i < |rows.incidents| ==>
          rows.timeline[i] == Created(rows.incidents[i].id, rows.incidents[i].number))
  }

  /** The pending writes a transaction has in each phase, against the rows it locked. */
  ghost predicate WorkOk(t: TxnId, x: Txn, rows: OrgRows) {
    var draft := Incident(t, rows.incidentSeq + 1, x.content);
    match x.phase
    case Locked => x.seen == rows.incidentSeq && x.pending == NOTHING
    case Numbered => x.seen == rows.incidentSeq && x.pending == Pending(Some(x.seen + 1), None, None)
    case Inserted =>
      x.draft == Some(draft) && x.pending == Pending(Some(rows.incidentSeq + 1), Some(draft), None)
    case KeyStored =>
      && x.draft == Some(draft) && x.key.Some? && x.key.value !in rows.keys
      && x.pending == Pending(Some(rows.incidentSeq + 1), Some(draft), Some(KeyRow(Response(201, draft), x.begunAt)))
    case _ => true
  }

  ghost predicate TxnOk(s: State, t: TxnId)
    requires t in s.txns
  {
    var x := s.txns[t];
    && x.begunAt <= s.now
    && (Holds(x.phase) ==> x.org in s.locks && s.locks[x.org] == t && x.org in s.db && WorkOk(t, x, s.db[x.org]))
    && (!Holds(x.phase) ==> x.pending == NOTHING)
    && (x.phase == Conflicted ==> x.key.Some? && HasDraft(s, t))
  }

  ghost predicate LockOk(s: State, o: OrgId)
    requires o in s.locks
  {
    s.locks[o] in s.txns && s.txns[s.locks[o]].org == o && Holds(s.txns[s.locks[o]].phase)
  }

  /** Every committed incident belongs to the one transaction that answered with it. */
  ghost predicate OwnedRows(s: State) {
    forall o, i :: o in s.db && 0 <= i < |s.db[o].incidents| ==>
      var id := s.db[o].incidents[i].id;
      id in s.txns && s.txns[id].phase == Answered(Fresh) && s.txns[id].org == o
  }

  ghost predicate Inv(s: State) {
    && (forall o :: o in s.db ==> RowsOk(s.db[o]))
    && (forall t :: t in s.txns ==> TxnOk(s, t))
    && (forall o :: o in s.locks ==> LockOk(s, o))
    && OwnedRows(s)
  }

  lemma NumberIsFree(s: State, t: TxnId)
    requires Inv(s) && In(s, t, Numbered)
    ensures !NumberTaken(s, s.txns[t].org, s.txns[t].seen + 1)
  {
    assert TxnOk(s, t);
    assert RowsOk(s.db[s.txns[t].org]);
  }

  /** The transaction a step belongs to. */
  function Owner(step: Step): Option<TxnId> {
    match step
    case CreateOrg(_) => None
    case Tick(_) => None
    case Prune => None
    case _ => Some(step.t)
  }

  /** Same rows, apart from keys the retention job may have removed. */
  ghost predicate OnlyFewerKeys(a: OrgRows, b: OrgRows) {
    && b.incidentSeq == a.incidentSeq && b.incidents == a.incidents && b.timeline == a.timeline
    && (forall k :: k in b.keys ==> k in a.keys && b.keys[k] == a.keys[k])
  }

  /** A step touches its own transaction only; rows change by a commit, keys also by pruning. */
  lemma Frame(r: nat, s: State, step: Step)
    requires Enabled(s, step)
    ensures var s' := Next(r, s, step);
      && s.now <= s'.now
      && (forall u :: Some(u) != Owner(step) ==> (u in s.txns <==> u in s'.txns))
      && (forall u :: u in s.txns && Some(u) != Owner(step) ==> s'.txns[u] == s.txns[u])
      && (Owner(step).Some? ==> Owner(step).value in s'.txns)
  {}

  lemma RowsFrame(r: nat, s: State, step: Step, o: OrgId)
    requires Enabled(s, step) && o in s.db
    requires step.Commit? ==> s.txns[step.t].org != o
    ensures o in Next(r, s, step).db && OnlyFewerKeys(s.db[o], Next(r, s, step).db[o])
  {}

  /** Where a transaction stands on its organisation's lock before and after its own step. */
  lemma LocksFrame(r: nat, s: State, step: Step, o: OrgId)
    requires Enabled(s, step)
    requires Owner(step).Some? && Owner(step).value in s.txns ==> s.txns[Owner(step).value].org != o
    ensures o in Next(r, s, step).locks <==> o in s.locks
    ensures o in s.locks ==> Next(r, s, step).locks[o] == s.locks[o]
  {}

  lemma InvNext(r: nat, s: State, step: Step)
    requires Inv(s) && Enabled(s, step)
    ensures Inv(Next(r, s, step))
  {
    var s' := Next(r, s, step);
    forall o | o in s'.db ensures RowsOk(s'.db[o]) { RowsNext(r, s, step, o); }
    forall t | t in s'.txns ensures TxnOk(s', t) {
      if Owner(step) == Some(t) { OwnStep(r, s, step, t); } else { OtherStep(r, s, step, t); }
    }
    forall o | o in s'.locks ensures LockOk(s', o) { LockNext(r, s, step, o); }
    OwnedNext(r, s, step);
  }

  lemma RowsNext(r: nat, s: State, step: Step, o: OrgId)
    requires Inv(s) && Enabled(s, step) && o in Next(r, s, step).db
    ensures RowsOk(Next(r, s, step).db[o])
  {
    if o in s.db { assert RowsOk(s.db[o]); }
    if step.Commit? && s.txns[step.t].org == o {
      assert TxnOk(s, step.t);
      RowsCommit(r, s, step.t);
    } else if o in s.db {
      RowsFrame(r, s, step, o);
    } else {
      NewRows(r, s, step, o);
    }
  }

  lemma NewRows(r: nat, s: State, step: Step, o: OrgId)
    requires Enabled(s, step) && o !in s.db && o in Next(r, s, step).db
    ensures Next(r, s, step).db[o] == OrgRows(0, [], [], map[])
  {}

  lemma RowsCommit(r: nat, s: State, t: TxnId)
    requires Enabled(s, Commit(t)) && TxnOk(s, t) && RowsOk(s.db[s.txns[t].org])
    ensures var o := s.txns[t].org;
      var s' := Next(r, s, Commit(t));
      && o in s'.db && RowsOk(s'.db[o])
      && s'.db[o].incidents == s.db[o].incidents + [s.txns[t].draft.value] && s.txns[t].draft.value.id == t
      && s'.txns[t].phase == Answered(Fresh) && s'.txns[t].org == o
  {}

  /** A transaction that holds its lock sees nothing move under it. */
  lemma OtherStep(r: nat, s: State, step: Step, t: TxnId)
    requires Inv(s) && Enabled(s, step) && t in Next(r, s, step).txns && Owner(step) != Some(t)
    ensures TxnOk(Next(r, s, step), t)
  {
    Frame(r, s, step);
    assert TxnOk(s, t);
    var x := s.txns[t];
    if Owner(step).Some? && Owner(step).value in s.txns { assert TxnOk(s, Owner(step).value); }
    if Holds(x.phase) {
      assert step.Commit? ==> s.txns[step.t].org != x.org;
      RowsFrame(r, s, step, x.org);
      KeepsLock(r, s, step, t);
      WorkStays(t, x, s.db[x.org], Next(r, s, step).db[x.org]);
    } else if x.org in s.db {
      OrgStays(r, s, step, x.org);
    }
  }

  lemma WorkStays(t: TxnId, x: Txn, rows: OrgRows, rows': OrgRows)
    requires WorkOk(t, x, rows) && OnlyFewerKeys(rows, rows')
    ensures WorkOk(t, x, rows')
  {}

  lemma OrgStays(r: nat, s: State, step: Step, o: OrgId)
    requires Enabled(s, step) && o in s.db
    ensures o in Next(r, s, step).db
  {}

  lemma KeepsLock(r: nat, s: State, step: Step, t: TxnId)
    requires Enabled(s, step) && t in s.txns && Owner(step) != Some(t)
    requires Owner(step).Some? && Owner(step).value in s.txns ==> TxnOk(s, Owner(step).value)
    requires s.txns[t].org in s.locks && s.locks[s.txns[t].org] == t
    ensures var s' := Next(r, s, step); s.txns[t].org in s'.locks && s'.locks[s.txns[t].org] == t
  {}

  lemma OwnStep(r: nat, s: State, step: Step, t: TxnId)
    requires Inv(s) && Enabled(s, step) && Owner(step) == Some(t)
    ensures TxnOk(Next(r, s, step), t)
  {
    if t in s.txns { assert TxnOk(s, t); }
    if step.Insert? { NumberIsFree(s, t); }
    if step.Commit? || step.Lock? || step.StoreKey? { OwnLockStep(r, s, step, t); } else { OwnPlainStep(r, s, step, t); }
  }

  lemma OwnLockStep(r: nat, s: State, step: Step, t: TxnId)
    requires Enabled(s, step) && Owner(step) == Some(t) && t in s.txns && TxnOk(s, t)
    requires step.Commit? || step.Lock? || step.StoreKey?
    ensures TxnOk(Next(r, s, step), t)
  {}

  lemma OwnPlainStep(r: nat, s: State, step: Step, t: TxnId)
    requires Enabled(s, step) && Owner(step) == Some(t) && (t in s.txns ==> TxnOk(s, t))
    requires !(step.Commit? || step.Lock? || step.StoreKey?)
    requires step.Insert? ==> !NumberTaken(s, s.txns[t].org, s.txns[t].seen + 1)
    ensures t in Next(r, s, step).txns && TxnOk(Next(r, s, step), t)
  {}

  lemma LockNext(r: nat, s: State, step: Step, o: OrgId)
    requires Inv(s) && Enabled(s, step) && o in Next(r, s, step).locks
    ensures LockOk(Next(r, s, step), o)
  {
    if o in s.locks { assert LockOk(s, o); }
    if Owner(step).Some? && Owner(step).value in s.txns && s.txns[Owner(step).value].org == o {
      assert TxnOk(s, Owner(step).value);
      if step.Insert? { NumberIsFree(s, step.t); }
      OwnLock(r, s, step, o);
    } else {
      OtherLock(r, s, step, o);
    }
  }

  lemma OtherLock(r: nat, s: State, step: Step, o: OrgId)
    requires Enabled(s, step) && o in Next(r, s, step).locks && (o in s.locks ==> LockOk(s, o))
    requires Owner(step).Some? && Owner(step).value in s.txns ==> s.txns[Owner(step).value].org != o
    ensures LockOk(Next(r, s, step), o)
  {
    Frame(r, s, step);
    LocksFrame(r, s, step, o);
  }

  lemma OwnLock(r: nat, s: State, step: Step, o: OrgId)
    requires Enabled(s, step) && Owner(step).Some? && Owner(step).value in s.txns
    requires s.txns[Owner(step).value].org == o && TxnOk(s, Owner(step).value)
    requires o in s.locks ==> LockOk(s, o)
    requires step.Insert? ==> !NumberTaken(s, o, s.txns[step.t].seen + 1)
    requires o in Next(r, s, step).locks
    ensures LockOk(Next(r, s, step), o)
  {}

  lemma OwnedNext(r: nat, s: State, step: Step)
    requires Inv(s) && Enabled(s, step)
    ensures OwnedRows(Next(r, s, step))
  {
    var s' := Next(r, s, step);
    Frame(r, s, step);
    forall o, i | o in s'.db && 0 <= i < |s'.db[o].incidents|
      ensures s'.db[o].incidents[i].id in s'.txns
      ensures var x := s'.txns[s'.db[o].incidents[i].id]; x.phase == Answered(Fresh) && x.org == o
    {
      if step.Commit? && s.txns[step.t].org == o {
        assert TxnOk(s, step.t) && RowsOk(s.db[o]);
        RowsCommit(r, s, step.t);
      } else if o in s.db {
        RowsFrame(r, s, step, o);
        AnsweredStays(r, s, step, s.db[o].incidents[i].id);
      } else {
        NewRows(r, s, step, o);
      }
    }
  }

  /** An answered request takes no further step. */
  lemma AnsweredStays(r: nat, s: State, step: Step, t: TxnId)
    requires Enabled(s, step) && t in s.txns && s.txns[t].phase.Answered?
    ensures Owner(step) != Some(t)
  {}

  lemma AloneAtKeyInsert(s: State, t: TxnId)
    requires Inv(s) && t in s.txns && Holds(s.txns[t].phase)
    ensures !KeyInsertWaits(s, t)
  {
    assert TxnOk(s, t);
    forall u | u in s.txns && u != t && s.txns[u].org == s.txns[t].org
      ensures s.txns[u].pending.keyRow.None?
    {
      assert TxnOk(s, u);
    }
  }

  lemma {:induction false} InvRun(r: nat, s: State, steps: seq<Step>)
    requires Inv(s) && Valid(r, s, steps)
    ensures Inv(Exec(r, s, steps))
    decreases |steps|
  {
    if steps != [] {
      InvNext(r, s, steps[0]);
      InvRun(r, Next(r, s, steps[0]), steps[1..]);
    }
  }
}
