/** The promises of incident creation, over every interleaving. */
module CreationResults {
  import opened Wrappers
  import opened Creation
  import opened CreationSafety

  // ------------------------------------------------------ what the log says

  /** The response a key replays, read off the log alone. */
  ghost function Retained(log: seq<LogEntry>, o: OrgId, k: Key): Option<Response> {
    if log == [] then None
    else
      var rest := log[..|log| - 1];
      match log[|log| - 1]
      case Answer(_, org, key, response, kind) =>
        if kind == Fresh && org == o && key == Some(k) then Some(response) else Retained(rest, o, k)
      case Pruned(gone) => if (o, k) in gone then None else Retained(rest, o, k)
  }

  /** The incidents the log says were committed to an organisation, in order. */
  ghost function Committed(log: seq<LogEntry>, o: OrgId): seq<Incident> {
    if log == [] then []
    else
      var rest := Committed(log[..|log| - 1], o);
      var e := log[|log| - 1];
      if e.Answer? && e.kind == Fresh && e.org == o then rest + [e.response.body] else rest
  }

  /** A fresh answer finds no retained response, a replay repeats the retained one. */
  ghost predicate EntryOk(before: seq<LogEntry>, e: LogEntry) {
    match e
    case Pruned(_) => true
    case Answer(_, o, key, response, kind) =>
      && (kind != Fresh ==> key.Some?)
      && (key.Some? ==> Retained(before, o, key.value) == if kind == Replay then Some(response) else None)
  }

  ghost predicate LogOk(log: seq<LogEntry>) {
    forall i :: 0 <= i < |log| ==> EntryOk(log[..i], log[i])
  }

  ghost function StoredFor(s: State, o: OrgId, k: Key): Option<Response> {
    if o in s.db && k in s.db[o].keys then Some(s.db[o].keys[k].response) else None
  }

  ghost predicate LogInv(s: State) {
    && LogOk(s.log)
    && (forall o, k :: Retained(s.log, o, k) == StoredFor(s, o, k))
    && (forall o :: Committed(s.log, o) == if o in s.db then s.db[o].incidents else [])
    && (forall i :: 0 <= i < |s.log| && s.log[i].Answer? ==>
          s.log[i].txn in s.txns && s.txns[s.log[i].txn].phase == Answered(s.log[i].kind))
  }

  lemma LogSnoc(log: seq<LogEntry>, e: LogEntry)
    requires LogOk(log) && EntryOk(log, e)
    ensures LogOk(log + [e])
  {
    var log' := log + [e];
    forall i | 0 <= i < |log'| ensures EntryOk(log'[..i], log'[i]) {
      assert log'[..i] == log[..i];
      assert log[..|log|] == log;
    }
  }

  lemma EntryNext(r: nat, s: State, step: Step)
    requires Enabled(s, step) && LogOk(s.log)
    requires forall o, k :: Retained(s.log, o, k) == StoredFor(s, o, k)
    requires step.Commit? ==> TxnOk(s, step.t)
    ensures LogOk(Next(r, s, step).log)
  {
    var s' := Next(r, s, step);
    if s'.log != s.log {
      var e := s'.log[|s.log|];
      assert s'.log == s.log + [e];
      if e.Answer? && e.key.Some? {
        assert Retained(s.log, e.org, e.key.value) == StoredFor(s, e.org, e.key.value);
      }
      LogSnoc(s.log, e);
    }
  }

  lemma LogNext(r: nat, s: State, step: Step)
    requires Inv(s) && LogInv(s) && Enabled(s, step)
    ensures LogInv(Next(r, s, step))
  {
    var s' := Next(r, s, step);
    if step.Commit? { assert TxnOk(s, step.t); }
    if step.Insert? { NumberIsFree(s, step.t); }
    EntryNext(r, s, step);
    forall o, k ensures Retained(s'.log, o, k) == StoredFor(s', o, k) {
      RetainedNext(r, s, step, o, k);
    }
    forall o ensures Committed(s'.log, o) == if o in s'.db then s'.db[o].incidents else [] {
      CommittedNext(r, s, step, o);
    }
    AnswersStay(r, s, step);
  }

  lemma AnswersStay(r: nat, s: State, step: Step)
    requires Enabled(s, step)
    requires forall i :: 0 <= i < |s.log| && s.log[i].Answer? ==>
      s.log[i].txn in s.txns && s.txns[s.log[i].txn].phase == Answered(s.log[i].kind)
    ensures var s' := Next(r, s, step); forall i :: 0 <= i < |s'.log| && s'.log[i].Answer? ==>
      s'.log[i].txn in s'.txns && s'.txns[s'.log[i].txn].phase == Answered(s'.log[i].kind)
  {
    Frame(r, s, step);
  }

  /** A step other than a commit or a pruning: what it adds to the log is no fresh answer. */
  lemma QuietStep(r: nat, s: State, step: Step)
    requires Enabled(s, step) && !step.Commit? && !step.Prune?
    ensures var log' := Next(r, s, step).log;
      log' == s.log || (log' != [] && log'[..|log'| - 1] == s.log
                        && log'[|s.log|].Answer? && log'[|s.log|].kind != Fresh)
    ensures !step.CreateOrg? ==> Next(r, s, step).db == s.db
  {}

  lemma CommitEntry(r: nat, s: State, t: TxnId)
    requires Enabled(s, Commit(t)) && TxnOk(s, t)
    ensures var x := s.txns[t];
      var s' := Next(r, s, Commit(t));
      && s'.log == s.log + [Answer(t, x.org, x.key, Response(201, x.draft.value), Fresh)]
      && s'.db == s.db[x.org := Applied(s.db[x.org], x.key, x.pending)]
      && x.pending.incident == x.draft
      && (x.key.Some? ==> x.pending.keyRow == Some(KeyRow(Response(201, x.draft.value), x.begunAt)))
  {}

  lemma RetainedNext(r: nat, s: State, step: Step, o: OrgId, k: Key)
    requires Enabled(s, step) && Retained(s.log, o, k) == StoredFor(s, o, k)
    requires step.Commit? ==> TxnOk(s, step.t)
    ensures Retained(Next(r, s, step).log, o, k) == StoredFor(Next(r, s, step), o, k)
  {
    if step.Commit? { CommitEntry(r, s, step.t); }
    if step.Commit? || step.Prune? {
      assert Next(r, s, step).log[..|s.log|] == s.log;
    } else {
      QuietStep(r, s, step);
    }
  }

  lemma CommittedNext(r: nat, s: State, step: Step, o: OrgId)
    requires Enabled(s, step)
    requires Committed(s.log, o) == if o in s.db then s.db[o].incidents else []
    requires step.Commit? ==> TxnOk(s, step.t)
    ensures Committed(Next(r, s, step).log, o)
         == if o in Next(r, s, step).db then Next(r, s, step).db[o].incidents else []
  {
    if step.Commit? { CommitEntry(r, s, step.t); }
    if step.Commit? || step.Prune? {
      assert Next(r, s, step).log[..|s.log|] == s.log;
    } else {
      QuietStep(r, s, step);
    }
  }

  lemma {:induction false} LogRun(r: nat, s: State, steps: seq<Step>)
    requires Inv(s) && LogInv(s) && Valid(r, s, steps)
    ensures Inv(Exec(r, s, steps)) && LogInv(Exec(r, s, steps))
    decreases |steps|
  {
    if steps != [] {
      InvNext(r, s, steps[0]);
      LogNext(r, s, steps[0]);
      LogRun(r, Next(r, s, steps[0]), steps[1..]);
    }
  }

  ghost predicate Reachable(r: nat, s: State) {
    exists steps :: Valid(r, INITIAL, steps) && Exec(r, INITIAL, steps) == s
  }

  lemma ReachableInv(r: nat, s: State)
    requires Reachable(r, s)
    ensures Inv(s) && LogInv(s)
  {
    var steps :| Valid(r, INITIAL, steps) && Exec(r, INITIAL, steps) == s;
    LogRun(r, INITIAL, steps);
  }

  // ------------------------------------------------------------- results

  /** Committed incidents carry exactly 1..incident_seq, each once; the timeline agrees, and
      the rows are exactly the fresh answers clients received. */
  lemma GaplessNumbers(r: nat, s: State, o: OrgId)
    requires Reachable(r, s) && o in s.db
    ensures |s.db[o].incidents| == s.db[o].incidentSeq
    ensures forall i :: 0 <= i < |s.db[o].incidents| ==> s.db[o].incidents[i].number == i + 1
    ensures forall n: nat :: 1 <= n <= s.db[o].incidentSeq <==> NumberTaken(s, o, n)
    ensures |s.db[o].timeline| == |s.db[o].incidents|
    ensures forall i :: 0 <= i < |s.db[o].incidents| ==>
      s.db[o].timeline[i] == Created(s.db[o].incidents[i].id, i + 1)
    ensures s.db[o].incidents == Committed(s.log, o)
  {
    ReachableInv(r, s);
    assert RowsOk(s.db[o]);
    forall n: nat | 1 <= n <= s.db[o].incidentSeq ensures NumberTaken(s, o, n) {
      assert s.db[o].incidents[n - 1].number == n;
    }
  }

  /** The retention job does not delete the key between two log positions. */
  ghost predicate KeptBetween(log: seq<LogEntry>, i: nat, j: nat, o: OrgId, k: Key) {
    forall m :: i <= m < j && m < |log| && log[m].Pruned? ==> (o, k) !in log[m].gone
  }

  lemma {:induction false} RetainedStays(log: seq<LogEntry>, i: nat, j: nat, o: OrgId, k: Key, v: Response)
    requires LogOk(log) && i <= j <= |log| && KeptBetween(log, i, j, o, k)
    requires Retained(log[..i], o, k) == Some(v)
    ensures Retained(log[..j], o, k) == Some(v)
  {
    if i < j {
      RetainedStays(log, i, j - 1, o, k, v);
      assert log[..j][..j - 1] == log[..j - 1];
      assert EntryOk(log[..j - 1], log[j - 1]);
    }
  }

  /** While a key is retained, at most one incident commits for it and every later answer
      for it repeats the first one's status and body. */
  lemma OneIncidentPerKey(r: nat, s: State, i: nat, j: nat, k: Key)
    requires Reachable(r, s) && i < j < |s.log|
    requires s.log[i].Answer? && s.log[j].Answer? && s.log[i].org == s.log[j].org
    requires s.log[i].key == s.log[j].key == Some(k)
    requires s.log[i].kind != Phantom && KeptBetween(s.log, i + 1, j, s.log[i].org, k)
    ensures s.log[j].kind == Replay && s.log[j].response == s.log[i].response
  {
    ReachableInv(r, s);
    var o := s.log[i].org;
    assert EntryOk(s.log[..i], s.log[i]) && EntryOk(s.log[..j], s.log[j]);
    assert s.log[..i + 1][..i] == s.log[..i];
    RetainedStays(s.log, i + 1, j, o, k, s.log[i].response);
  }

  /** Losing, failing or replaying leaves no incident and no timeline event behind. */
  lemma LosersLeaveNothing(r: nat, s: State, t: TxnId, o: OrgId, i: nat)
    requires Reachable(r, s) && t in s.txns && s.txns[t].phase != Answered(Fresh)
    requires o in s.db && i < |s.db[o].incidents|
    ensures s.db[o].incidents[i].id != t
    ensures i < |s.db[o].timeline| && s.db[o].timeline[i].incident != t
  {
    ReachableInv(r, s);
    assert RowsOk(s.db[o]);
  }

  /** Until it commits, no step of a request changes any committed row. */
  lemma OnlyCommitWrites(r: nat, s: State, step: Step)
    requires Enabled(s, step) && Owner(step).Some? && !step.Commit?
    ensures Next(r, s, step).db == s.db
  {}

  // ------------------------------------------------------------ progress

  /** The next step of a live request, other than giving up. */
  function Advance(x: Txn, t: TxnId): Step
    requires Live(x.phase)
  {
    match x.phase
    case Begun => CheckKey(t)
    case Checked => Validate(t, true)
    case Validated => Lock(t)
    case Locked => Increment(t)
    case Numbered => Insert(t)
    case Inserted => if x.key.Some? then StoreKey(t) else Commit(t)
    case KeyStored => Commit(t)
    case Conflicted => Reread(t)
  }

  /** A request past the key check that is not at the lock can take its next step. */
  lemma CanAdvance(s: State, t: TxnId)
    requires t in s.txns && TxnOk(s, t) && Live(s.txns[t].phase)
    requires s.txns[t].phase == Validated ==> s.txns[t].org !in s.locks
    requires s.txns[t].phase == Inserted ==> !KeyInsertWaits(s, t)
    ensures Enabled(s, Advance(s.txns[t], t))
  {}

  /** No request is ever stuck: it can step, or it waits for a lock whose holder can step.
      In particular the key insert never waits for another transaction. */
  lemma NeverWedged(r: nat, s: State, t: TxnId)
    requires Reachable(r, s) && t in s.txns && Live(s.txns[t].phase)
    ensures Enabled(s, Advance(s.txns[t], t))
      || (In(s, t, Validated) && s.txns[t].org in s.locks
          && var u := s.locks[s.txns[t].org];
             u != t && u in s.txns && Live(s.txns[u].phase) && Enabled(s, Advance(s.txns[u], u)))
    ensures Holds(s.txns[t].phase) ==> !KeyInsertWaits(s, t)
  {
    ReachableInv(r, s);
    if Holds(s.txns[t].phase) { AloneAtKeyInsert(s, t); }
    if s.txns[t].phase == Validated && s.txns[t].org in s.locks {
      var u := s.locks[s.txns[t].org];
      assert LockOk(s, s.txns[t].org);
      AloneAtKeyInsert(s, u);
      CanAdvance(s, u);
    } else {
      CanAdvance(s, t);
    }
  }

  function Rank(s: State, t: TxnId): nat {
    if t !in s.txns then 10
    else match s.txns[t].phase
      case Begun => 9
      case Checked => 8
      case Validated => 7
      case Locked => 6
      case Numbered => 5
      case Inserted => 4
      case KeyStored => 3
      case Conflicted => 2
      case _ => 0
  }

  function StepsOf(steps: seq<Step>, t: TxnId): nat {
    if steps == [] then 0
    else (if Owner(steps[0]) == Some(t) then 1 else 0) + StepsOf(steps[1..], t)
  }

  /** A request is over after at most ten steps of its own, however it is scheduled. */
  lemma {:induction false} RequestsTerminate(r: nat, s: State, steps: seq<Step>, t: TxnId)
    requires Valid(r, s, steps)
    ensures StepsOf(steps, t) + Rank(Exec(r, s, steps), t) <= Rank(s, t) <= 10
    decreases |steps|
  {
    if steps != [] {
      Frame(r, s, steps[0]);
      if Owner(steps[0]) == Some(t) { RankDrops(r, s, steps[0], t); }
      RequestsTerminate(r, Next(r, s, steps[0]), steps[1..], t);
    }
  }

  lemma RankDrops(r: nat, s: State, step: Step, t: TxnId)
    requires Enabled(s, step) && Owner(step) == Some(t)
    ensures Rank(Next(r, s, step), t) < Rank(s, t)
  {}
}
