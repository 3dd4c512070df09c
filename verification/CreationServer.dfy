/** The handler's own code, updating the tables in place; every method is one step of the
    interleaved machine, and `CreateIncident` is the whole handler run without interference. */
module CreationServer {
  import opened Wrappers
  import opened Creation
  import opened CreationSafety

  /** The response a request's key already has. */
  function Retained(s: State, t: TxnId): Option<Response>
    requires t in s.txns
  {
    var x := s.txns[t];
    if x.key.Some? && x.org in s.db && x.key.value in s.db[x.org].keys
    then Some(s.db[x.org].keys[x.key.value].response) else None
  }

  /** An organisation's rows after one more incident. */
  function WithIncident(rows: OrgRows, t: TxnId, key: Option<Key>, content: Content, begunAt: Time): OrgRows {
    var incident := Incident(t, rows.incidentSeq + 1, content);
    OrgRows(rows.incidentSeq + 1, rows.incidents + [incident], rows.timeline + [Created(t, rows.incidentSeq + 1)],
            if key.Some? then rows.keys[key.value := KeyRow(Response(201, incident), begunAt)] else rows.keys)
  }

  /** From the lock to the incident insert. */
  lemma InsertEffect(r: nat, s: State, t: TxnId)
    requires Inv(s) && In(s, t, Locked)
    ensures var x := s.txns[t];
      var s1 := Next(r, s, Increment(t));
      Inv(s1) && Enabled(s1, Insert(t)) && x.org in s.db
    ensures var x := s.txns[t];
      var n := s.db[x.org].incidentSeq + 1;
      var draft := Incident(t, n, x.content);
      var s2 := Next(r, Next(r, s, Increment(t)), Insert(t));
      Inv(s2) && s2 == Put(s, t, x.(phase := Inserted, pending := Pending(Some(n), Some(draft), None), draft := Some(draft)))
  {
    assert TxnOk(s, t);
    InvNext(r, s, Increment(t));
    var s1 := Next(r, s, Increment(t));
    assert In(s1, t, Numbered);
    NumberIsFree(s1, t);
    InvNext(r, s1, Insert(t));
    Inserts(r, s, t);
  }

  lemma Inserts(r: nat, s: State, t: TxnId)
    requires In(s, t, Locked) && TxnOk(s, t) && In(Next(r, s, Increment(t)), t, Numbered)
    requires !NumberTaken(Next(r, s, Increment(t)), s.txns[t].org, s.txns[t].seen + 1)
    ensures var x := s.txns[t];
      var n := s.db[x.org].incidentSeq + 1;
      var draft := Incident(t, n, x.content);
      Next(r, Next(r, s, Increment(t)), Insert(t))
      == Put(s, t, x.(phase := Inserted, pending := Pending(Some(n), Some(draft), None), draft := Some(draft)))
  {}

  lemma StoreEffect(r: nat, s: State, t: TxnId)
    requires Inv(s) && In(s, t, Inserted) && s.txns[t].key.Some? && Retained(s, t).None?
    ensures Enabled(s, StoreKey(t))
    ensures Inv(Next(r, s, StoreKey(t))) && In(Next(r, s, StoreKey(t)), t, KeyStored)
    ensures Next(r, s, StoreKey(t)) == Put(s, t, Next(r, s, StoreKey(t)).txns[t])
    ensures Next(r, s, StoreKey(t)).txns[t] == s.txns[t].(
      phase := KeyStored, pending := Next(r, s, StoreKey(t)).txns[t].pending)
  {
    assert TxnOk(s, t);
    AloneAtKeyInsert(s, t);
    InvNext(r, s, StoreKey(t));
  }

  lemma CommitEffect(r: nat, s: State, t: TxnId)
    requires Inv(s) && (In(s, t, KeyStored) || (In(s, t, Inserted) && s.txns[t].key.None?))
    ensures Enabled(s, Commit(t)) && Inv(Next(r, s, Commit(t)))
    ensures var x := s.txns[t];
      var s' := Next(r, s, Commit(t));
      && s'.locks == Without(s.locks, x.org)
      && x.draft == Some(Incident(t, s.db[x.org].incidentSeq + 1, x.content))
      && s'.db == s.db[x.org := WithIncident(s.db[x.org], t, x.key, x.content, x.begunAt)]
  {
    assert TxnOk(s, t);
    Commits(r, s, t);
    InvNext(r, s, Commit(t));
  }

  lemma Commits(r: nat, s: State, t: TxnId)
    requires (In(s, t, KeyStored) || (In(s, t, Inserted) && s.txns[t].key.None?)) && TxnOk(s, t)
    ensures Enabled(s, Commit(t))
    ensures var x := s.txns[t];
      var s' := Next(r, s, Commit(t));
      && s'.locks == Without(s.locks, x.org)
      && x.draft == Some(Incident(t, s.db[x.org].incidentSeq + 1, x.content))
      && s'.db == s.db[x.org := WithIncident(s.db[x.org], t, x.key, x.content, x.begunAt)]
  {}

  class Server {
    var db: map<OrgId, OrgRows>
    var locks: map<OrgId, TxnId>
    var txns: map<TxnId, Txn>
    var now: Time
    ghost var log: seq<LogEntry>
    const retention: nat

    ghost function View(): State
      reads this
    {
      State(db, locks, txns, now, log)
    }

    constructor (retention: nat)
      ensures View() == INITIAL && this.retention == retention
    {
      db, locks, txns, now, log := map[], map[], map[], 0, [];
      this.retention := retention;
    }

    method BeginRequest(t: TxnId, org: OrgId, key: Option<Key>, content: Content)
      requires Enabled(View(), Begin(t, org, key, content))
      modifies this
      ensures View() == Next(retention, old(View()), Begin(t, org, key, content))
    {
      txns := txns[t := Txn(org, key, content, now, Begun, 0, NOTHING, None)];
    }

    method Rollback(t: TxnId, phase: Phase)
      requires t in txns
      modifies this
      ensures View() == RolledBack(old(View()), t, phase)
    {
      var x := txns[t];
      if Holds(x.phase) {
        locks := map o | o in locks && o != x.org :: locks[o];
      }
      txns := txns[t := x.(phase := phase, pending := NOTHING)];
    }

    method Respond(t: TxnId, response: Response, kind: Kind)
      requires t in txns
      modifies this
      ensures View() == Say(old(View()), t, response, kind)
    {
      var x := txns[t];
      log := log + [Answer(t, x.org, x.key, response, kind)];
      txns := txns[t := x.(phase := Answered(kind))];
    }

    method StoredResponse(org: OrgId, key: Key) returns (row: Option<KeyRow>)
      ensures row == if org in db && key in db[org].keys then Some(db[org].keys[key]) else None
    {
      row := None;
      if org in db && key in db[org].keys {
        row := Some(db[org].keys[key]);
      }
    }

    method Check(t: TxnId) returns (answer: Option<Response>)
      requires Enabled(View(), CheckKey(t))
      modifies this
      ensures View() == Next(retention, old(View()), CheckKey(t))
      ensures answer.Some? <==> !In(View(), t, Checked)
      ensures answer == Retained(old(View()), t)
      ensures db == old(db) && locks == old(locks)
      ensures answer.Some? <==>
        txns[t].key.Some? && txns[t].org in db && txns[t].key.value in db[txns[t].org].keys
      ensures answer.Some? ==> answer.value == db[txns[t].org].keys[txns[t].key.value].response
    {
      var x := txns[t];
      answer := None;
      if x.key.Some? {
        var row := StoredResponse(x.org, x.key.value);
        if row.Some? {
          answer := Some(row.value.response);
          Respond(t, row.value.response, Replay);
          return;
        }
      }
      txns := txns[t := x.(phase := Checked)];
    }

    /** The service exists in the organisation and the assignee, if any, is a member. */
    method ValidateRequest(t: TxnId, ok: bool)
      requires Enabled(View(), Validate(t, ok))
      modifies this
      ensures View() == Next(retention, old(View()), Validate(t, ok))
    {
      if ok {
        txns := txns[t := txns[t].(phase := Validated)];
      } else {
        Rollback(t, Failed);
      }
    }

    method LockCounter(t: TxnId)
      requires Enabled(View(), Lock(t))
      modifies this
      ensures View() == Next(retention, old(View()), Lock(t))
      ensures db == old(db) && t in txns && txns[t].org == old(txns[t].org)
      ensures if txns[t].org in db
              then locks == old(locks)[txns[t].org := t] && txns[t].seen == db[txns[t].org].incidentSeq
                   && txns[t].phase == Locked
              else locks == old(locks) && txns[t].phase == Failed
    {
      var x := txns[t];
      if x.org !in db {
        Rollback(t, Failed);
      } else {
        locks := locks[x.org := t];
        txns := txns[t := x.(phase := Locked, seen := db[x.org].incidentSeq)];
      }
    }

    method IncrementCounter(t: TxnId)
      requires Enabled(View(), Increment(t))
      modifies this
      ensures View() == Next(retention, old(View()), Increment(t))
      ensures db == old(db) && locks == old(locks)
      ensures t in txns && txns[t].pending.incidentSeq == Some(old(txns[t].seen) + 1) && txns[t].phase == Numbered
    {
      var x := txns[t];
      txns := txns[t := x.(phase := Numbered, pending := x.pending.(incidentSeq := Some(x.seen + 1)))];
    }

    /** The insert, and the check of the unique number, row by row. */
    method InsertIncident(t: TxnId)
      requires Enabled(View(), Insert(t))
      modifies this
      ensures View() == Next(retention, old(View()), Insert(t))
      ensures db == old(db) && t in txns
      ensures var x := old(txns[t]);
        var taken := x.org in db && exists i :: 0 <= i < |db[x.org].incidents| && db[x.org].incidents[i].number == x.seen + 1;
        if taken then txns[t].phase == Failed && txns[t].pending == Pending(None, None, None) && x.org !in locks
        else txns[t].phase == Inserted && locks == old(locks)
             && txns[t].pending.incident == txns[t].draft == Some(Incident(t, x.seen + 1, x.content))
    {
      var x := txns[t];
      var incident := Incident(t, x.seen + 1, x.content);
      var taken := false;
      if x.org in db {
        var rows := db[x.org].incidents;
        for i := 0 to |rows|
          invariant taken <==> exists j :: 0 <= j < i && rows[j].number == incident.number
        {
          if rows[i].number == incident.number { taken := true; }
        }
      }
      assert taken <==> NumberTaken(View(), x.org, incident.number);
      if taken {
        Rollback(t, Failed);
      } else {
        txns := txns[t := x.(phase := Inserted, pending := x.pending.(incident := Some(incident)),
                             draft := Some(incident))];
      }
    }

    method Store(t: TxnId) returns (won: bool)
      requires Enabled(View(), StoreKey(t))
      modifies this
      ensures View() == Next(retention, old(View()), StoreKey(t))
      ensures won <==> In(View(), t, KeyStored)
      ensures db == old(db) && t in txns
      ensures var x := old(txns[t]);
        && (won <==> x.key.value !in db[x.org].keys)
        && (won ==> locks == old(locks)
                    && txns[t].pending.keyRow == Some(KeyRow(Response(201, x.draft.value), x.begunAt)))
        && (!won ==> txns[t].phase == Conflicted && txns[t].pending == Pending(None, None, None) && x.org !in locks)
    {
      var x := txns[t];
      var row := StoredResponse(x.org, x.key.value);
      won := row.None?;
      if won {
        var keyRow := KeyRow(Response(201, x.draft.value), x.begunAt);
        txns := txns[t := x.(phase := KeyStored, pending := x.pending.(keyRow := Some(keyRow)))];
      } else {
        Rollback(t, Conflicted);
      }
    }

    /** Where what was loaded before the rollback cannot be read, the request ends in `Abort`
        instead (see `CreationTiming`). */
    method ReplayWinner(t: TxnId) returns (response: Response)
      requires Enabled(View(), Reread(t))
      modifies this
      ensures View() == Next(retention, old(View()), Reread(t))
      ensures response == log[|log| - 1].response
      ensures db == old(db) && locks == old(locks)
      ensures var x := old(txns[t]);
        response == if x.key.value in db[x.org].keys then db[x.org].keys[x.key.value].response
                    else Response(201, x.draft.value)
    {
      var x := txns[t];
      var row := StoredResponse(x.org, x.key.value);
      if row.Some? {
        response := row.value.response;
        Respond(t, response, Replay);
      } else {
        response := Response(201, x.draft.value);
        Respond(t, response, Phantom);
      }
    }

    method CommitRequest(t: TxnId) returns (response: Response)
      requires Enabled(View(), Commit(t))
      modifies this
      ensures View() == Next(retention, old(View()), Commit(t))
      ensures response == Response(201, old(txns[t].draft.value))
    {
      var x := txns[t];
      response := Response(201, x.draft.value);
      db := db[x.org := Applied(db[x.org], x.key, x.pending)];
      Rollback(t, x.phase);
      Respond(t, response, Fresh);
    }

    method PruneKeys()
      modifies this
      ensures View() == Next(retention, old(View()), Prune)
      ensures db.Keys == old(db).Keys && forall o :: o in db ==>
        && db[o].incidentSeq == old(db)[o].incidentSeq
        && db[o].incidents == old(db)[o].incidents && db[o].timeline == old(db)[o].timeline
        && (forall k :: k in db[o].keys <==> k in old(db)[o].keys && now - retention <= old(db)[o].keys[k].createdAt)
        && (forall k :: k in db[o].keys ==> db[o].keys[k] == old(db)[o].keys[k])
    {
      log := log + [Pruned(Stale(retention, View()))];
      db := map o | o in db :: Retain(retention, now, db[o]);
    }

    /** The whole handler with nobody else stepping: a retained key is replayed and nothing
        is written; otherwise a valid request gets the next number and its key is stored. */
    method CreateIncident(t: TxnId, org: OrgId, key: Option<Key>, content: Content, ok: bool)
      returns (response: Option<Response>)
      requires Inv(View()) && t !in txns && org !in locks
      modifies this
      ensures Inv(View()) && locks == old(locks)
      ensures key.Some? && org in old(db) && key.value in old(db)[org].keys ==>
        response == Some(old(db)[org].keys[key.value].response) && db == old(db)
      ensures !(key.Some? && org in old(db) && key.value in old(db)[org].keys) && (!ok || org !in old(db)) ==>
        response == None && db == old(db)
      ensures !(key.Some? && org in old(db) && key.value in old(db)[org].keys) && ok && org in old(db) ==>
        && response == Some(Response(201, Incident(t, old(db)[org].incidentSeq + 1, content)))
        && db == old(db)[org := OrgRows(
             old(db)[org].incidentSeq + 1,
             old(db)[org].incidents + [Incident(t, old(db)[org].incidentSeq + 1, content)],
             old(db)[org].timeline + [Created(t, old(db)[org].incidentSeq + 1)],
             if key.None? then old(db)[org].keys
             else old(db)[org].keys[key.value :=
                    KeyRow(Response(201, Incident(t, old(db)[org].incidentSeq + 1, content)), old(now))])]
    {
      response := Start(t, org, key, content);
      if response.None? { response := Proceed(t, ok); }
    }

    /** Up to the answer for a retained key, or the point where the request may proceed. */
    method Start(t: TxnId, org: OrgId, key: Option<Key>, content: Content) returns (answer: Option<Response>)
      requires Inv(View()) && t !in txns
      modifies this
      ensures Inv(View()) && db == old(db) && locks == old(locks)
      ensures t in txns && txns[t].org == org && txns[t].key == key && txns[t].content == content
      ensures txns[t].begunAt == old(now)
      ensures answer == Retained(View(), t) && (answer.None? ==> txns[t].phase == Checked)
    {
      InvNext(retention, View(), Begin(t, org, key, content));
      BeginRequest(t, org, key, content);
      InvNext(retention, View(), CheckKey(t));
      answer := Check(t);
    }

    /** What a request whose key is not retained comes to. */
    method Proceed(t: TxnId, ok: bool) returns (response: Option<Response>)
      requires Inv(View()) && In(View(), t, Checked) && Retained(View(), t).None? && txns[t].org !in locks
      modifies this
      ensures Inv(View()) && locks == old(locks)
      ensures !ok || old(txns[t].org) !in old(db) ==> response == None && db == old(db)
      ensures ok && old(txns[t].org) in old(db) ==>
        && response == Some(Response(201,
             Incident(t, old(db[txns[t].org].incidentSeq) + 1, old(txns[t].content))))
        && db == old(db)[old(txns[t].org) := old(
             WithIncident(db[txns[t].org], t, txns[t].key, txns[t].content, txns[t].begunAt))]
    {
      response := None;
      var locked := Acquire(t, ok);
      if locked {
        response := Finish(t);
      }
    }

    method Acquire(t: TxnId, ok: bool) returns (locked: bool)
      requires Inv(View()) && In(View(), t, Checked) && txns[t].org !in locks
      modifies this
      ensures Inv(View()) && db == old(db) && t in txns
      ensures txns[t] == old(txns[t]).(phase := txns[t].phase, seen := txns[t].seen, pending := NOTHING)
      ensures locked <==> ok && old(txns[t].org) in db
      ensures locked ==> txns[t].phase == Locked && locks == old(locks)[old(txns[t].org) := t]
      ensures !locked ==> locks == old(locks)
    {
      assert TxnOk(View(), t);
      InvNext(retention, View(), Validate(t, ok));
      ValidateRequest(t, ok);
      locked := false;
      if ok {
        InvNext(retention, View(), Lock(t));
        LockCounter(t);
        locked := txns[t].org in db;
      }
    }

    /** From the lock to the point where everything is written and only the commit is left. */
    method ReachCommit(t: TxnId)
      requires Inv(View()) && In(View(), t, Locked) && Retained(View(), t).None?
      modifies this
      ensures Inv(View()) && db == old(db) && locks == old(locks) && t in txns && txns[t].org in db
      ensures txns[t].org == old(txns[t].org) && txns[t].key == old(txns[t].key)
      ensures txns[t].content == old(txns[t].content) && txns[t].begunAt == old(txns[t].begunAt)
      ensures txns[t].phase == if txns[t].key.Some? then KeyStored else Inserted
    {
      InsertEffect(retention, View(), t);
      IncrementCounter(t);
      InsertIncident(t);
      if txns[t].key.Some? {
        StoreEffect(retention, View(), t);
        var won := Store(t);
      }
    }

    method Finish(t: TxnId) returns (response: Option<Response>)
      requires Inv(View()) && In(View(), t, Locked) && Retained(View(), t).None?
      modifies this
      ensures Inv(View()) && old(txns[t].org) in old(db)
      ensures locks == Without(old(locks), old(txns[t].org))
      ensures response == Some(Response(201,
        Incident(t, old(db[txns[t].org].incidentSeq) + 1, old(txns[t].content))))
      ensures db == old(db)[old(txns[t].org) := old(
        WithIncident(db[txns[t].org], t, txns[t].key, txns[t].content, txns[t].begunAt))]
    {
      ReachCommit(t);
      CommitEffect(retention, View(), t);
      var r := CommitRequest(t);
      response := Some(r);
    }
  }
}
