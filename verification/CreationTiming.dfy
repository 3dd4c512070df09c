/** When a replayed creation can answer 201 for an incident that does not exist.

    `store` returns None both when the key row was written and when the winner's row has
    vanished before the loser re-reads it; the handler then answers with the body of the
    incident it has just rolled back.

    On its way to an answer a request that lost its key reads objects its session loaded
    before a rollback: the organisation's slug, or the winner's row.  A rollback expires what
    a session has loaded, and whether an asynchronous session may read it again is the
    database library's affair, so it is the parameter `readable` here.  Where it may not, the
    read raises and the request fails: it leaves `Conflicted` by `Abort`, never by `Reread`.

    This module shows exactly for which request durations, retention window and library the
    false answer cannot happen. */
module CreationTiming {
  import opened Wrappers
  import opened Creation
  import opened CreationSafety
  import opened CreationResults

  ghost predicate NoPhantom(log: seq<LogEntry>) {
    forall i :: 0 <= i < |log| && log[i].Answer? ==> log[i].kind != Phantom
  }

  /** `d` bounds how long after its beginning a request still acts; `readable` says whether
      objects loaded before a rollback can be read after it. */
  datatype Host = Host(d: nat, readable: bool)

  predicate Allows(h: Host, s: State, step: Step) {
    && (Owner(step).Some? && Owner(step).value in s.txns ==> s.now <= s.txns[Owner(step).value].begunAt + h.d)
    && (step.Reread? ==> h.readable)
  }

  ghost predicate Prompt(h: Host, r: nat, s: State, steps: seq<Step>)
    requires Valid(r, s, steps)
    decreases |steps|
  {
    steps == [] || (Allows(h, s, steps[0]) && Prompt(h, r, Next(r, s, steps[0]), steps[1..]))
  }

  ghost predicate PromptlyReachable(h: Host, r: nat, s: State) {
    exists steps :: Valid(r, INITIAL, steps) && Prompt(h, r, INITIAL, steps) && Exec(r, INITIAL, steps) == s
  }

  /** A phantom answer names an incident that is in no organisation. */
  lemma PhantomIsHollow(r: nat, s: State, i: nat, o: OrgId, j: nat)
    requires Reachable(r, s) && i < |s.log| && s.log[i].Answer? && s.log[i].kind == Phantom
    requires o in s.db && j < |s.db[o].incidents|
    ensures s.db[o].incidents[j].id != s.log[i].txn
  {
    ReachableInv(r, s);
    LosersLeaveNothing(r, s, s.log[i].txn, o, j);
  }

  // -------------------------------------------- short requests are honest

  /** A key row seen by a request that checked before it was committed is young. */
  ghost predicate Young(h: Host, s: State, t: TxnId)
    requires t in s.txns
  {
    var x := s.txns[t];
    x.key.Some? && x.org in s.db ==>
      var keys := s.db[x.org].keys;
      var k := x.key.value;
      && (Live(x.phase) && x.phase != Begun && k in keys ==> x.begunAt <= keys[k].createdAt + h.d)
      && (x.phase == Conflicted && s.now <= x.begunAt + h.d ==> k in keys)
  }

  ghost predicate AllYoung(h: Host, s: State) {
    forall t :: t in s.txns ==> Young(h, s, t)
  }

  lemma YoungNext(h: Host, r: nat, s: State, step: Step)
    requires Inv(s) && AllYoung(h, s) && Enabled(s, step) && Allows(h, s, step) && 2 * h.d <= r
    ensures AllYoung(h, Next(r, s, step))
  {
    var s' := Next(r, s, step);
    Frame(r, s, step);
    forall t | t in s'.txns ensures Young(h, s', t) {
      if t in s.txns { assert Young(h, s, t) && TxnOk(s, t); }
      if Owner(step) == Some(t) {
        OwnYoung(h, r, s, step, t);
      } else if step.Commit? {
        assert TxnOk(s, step.t);
        YoungCommit(h, r, s, step.t, t);
      } else {
        OtherYoung(h, r, s, step, t);
      }
    }
  }

  lemma OwnYoung(h: Host, r: nat, s: State, step: Step, t: TxnId)
    requires Enabled(s, step) && Owner(step) == Some(t)
    requires t in s.txns ==> Young(h, s, t) && TxnOk(s, t)
    ensures t in Next(r, s, step).txns && Young(h, Next(r, s, step), t)
  {}

  lemma YoungCommit(h: Host, r: nat, s: State, t: TxnId, u: TxnId)
    requires Enabled(s, Commit(t)) && Allows(h, s, Commit(t)) && t != u && u in s.txns
    requires TxnOk(s, t) && TxnOk(s, u) && Young(h, s, u)
    ensures Young(h, Next(r, s, Commit(t)), u)
  {}

  lemma OtherYoung(h: Host, r: nat, s: State, step: Step, t: TxnId)
    requires Enabled(s, step) && Owner(step) != Some(t) && !step.Commit? && 2 * h.d <= r
    requires t in s.txns && TxnOk(s, t) && Young(h, s, t)
    ensures t in Next(r, s, step).txns && Young(h, Next(r, s, step), t)
  {
    Frame(r, s, step);
    if s.txns[t].org in s.db { RowsFrame(r, s, step, s.txns[t].org); }
  }

  lemma HonestNext(h: Host, r: nat, s: State, step: Step)
    requires Inv(s) && AllYoung(h, s) && NoPhantom(s.log)
    requires Enabled(s, step) && Allows(h, s, step)
    ensures NoPhantom(Next(r, s, step).log)
  {
    if step.Reread? { assert Young(h, s, step.t); }
  }

  lemma {:induction false} HonestRun(h: Host, r: nat, s: State, steps: seq<Step>)
    requires Inv(s) && AllYoung(h, s) && NoPhantom(s.log) && 2 * h.d <= r
    requires Valid(r, s, steps) && Prompt(h, r, s, steps)
    ensures NoPhantom(Exec(r, s, steps).log)
    decreases |steps|
  {
    if steps != [] {
      InvNext(r, s, steps[0]);
      YoungNext(h, r, s, steps[0]);
      HonestNext(h, r, s, steps[0]);
      HonestRun(h, r, Next(r, s, steps[0]), steps[1..]);
    }
  }

  // ----------------------------------------- nor are failed ones dishonest

  /** Where the read after the rollback raises, a request that lost its key just fails. */
  lemma LosersFail(h: Host, r: nat, s: State, step: Step)
    requires !h.readable && Enabled(s, step) && Allows(h, s, step)
    requires Owner(step).Some? && In(s, Owner(step).value, Conflicted)
    ensures In(Next(r, s, step), Owner(step).value, Failed) && Next(r, s, step).log == s.log
  {}

  lemma {:induction false} UnreadableRun(h: Host, r: nat, s: State, steps: seq<Step>)
    requires NoPhantom(s.log) && !h.readable && Valid(r, s, steps) && Prompt(h, r, s, steps)
    ensures NoPhantom(Exec(r, s, steps).log)
    decreases |steps|
  {
    if steps != [] {
      assert Allows(h, s, steps[0]);
      OnlyRereadsLie(r, s, steps[0]);
      UnreadableRun(h, r, Next(r, s, steps[0]), steps[1..]);
    }
  }

  lemma OnlyRereadsLie(r: nat, s: State, step: Step)
    requires NoPhantom(s.log) && Enabled(s, step) && !step.Reread?
    ensures NoPhantom(Next(r, s, step).log)
  {}

  // -------------------------------------------------- and long ones are not

  lemma {:induction false} Snoc(h: Host, r: nat, s: State, steps: seq<Step>, last: Step)
    requires Valid(r, s, steps) && Prompt(h, r, s, steps)
    requires Enabled(Exec(r, s, steps), last) && Allows(h, Exec(r, s, steps), last)
    ensures Valid(r, s, steps + [last]) && Prompt(h, r, s, steps + [last])
    ensures Exec(r, s, steps + [last]) == Next(r, Exec(r, s, steps), last)
    decreases |steps|
  {
    var all := steps + [last];
    if steps == [] {
      assert all[1..] == [];
    } else {
      Snoc(h, r, Next(r, s, steps[0]), steps[1..], last);
      assert all[1..] == steps[1..] + [last];
    }
  }

  /** One more step of a prompt run. */
  lemma Go(h: Host, r: nat, s: State, step: Step) returns (s': State)
    requires PromptlyReachable(h, r, s) && Enabled(s, step) && Allows(h, s, step)
    ensures s' == Next(r, s, step) && PromptlyReachable(h, r, s')
  {
    var steps :| Valid(r, INITIAL, steps) && Prompt(h, r, INITIAL, steps) && Exec(r, INITIAL, steps) == s;
    Snoc(h, r, INITIAL, steps, step);
    s' := Next(r, s, step);
  }

  const K: Option<Key> := Some("k")

  /** A request that has locked an empty organisation and reaches the key insert. */
  lemma ToKeyInsert(h: Host, r: nat, s: State, t: TxnId) returns (s': State)
    requires PromptlyReachable(h, r, s) && In(s, t, Checked) && s.txns[t].key == K && s.txns[t].pending == NOTHING
    requires s.txns[t].org in s.db && s.txns[t].org !in s.locks
    requires s.now <= s.txns[t].begunAt + h.d && RowsOk(s.db[s.txns[t].org])
    requires forall u :: u in s.txns && u != t ==> s.txns[u].pending == NOTHING
    ensures PromptlyReachable(h, r, s')
    ensures var x := s.txns[t];
      var n := s.db[x.org].incidentSeq;
      var draft := Incident(t, n + 1, x.content);
      s' == s.(txns := s.txns[t := x.(phase := Inserted, seen := n, draft := Some(draft),
                                      pending := Pending(Some(n + 1), Some(draft), None))],
               locks := s.locks[x.org := t])
  {
    var s1 := Go(h, r, s, Validate(t, true));
    var s2 := Go(h, r, s1, Lock(t));
    var s3 := Go(h, r, s2, Increment(t));
    s' := Go(h, r, s3, Insert(t));
  }

  /** The winner holds its key uncommitted until its time is nearly up; the loser checks just
      before the winner's commit, conflicts, and re-reads after the row has expired. */
  lemma LongRequestsCanLie(h: Host, r: nat) returns (s: State)
    requires 2 * h.d > r && h.readable
    ensures PromptlyReachable(h, r, s) && !NoPhantom(s.log)
  {
    s := WinnerCommits(h, r);
    s := ToKeyInsert(h, r, s, 2);
    s := Go(h, r, s, StoreKey(2));
    s := Go(h, r, s, Tick(h.d));
    s := Go(h, r, s, Prune);
    s := Go(h, r, s, Reread(2));
    assert s.log[|s.log| - 1].kind == Phantom;
  }

  lemma WinnerCommits(h: Host, r: nat) returns (s: State)
    ensures PromptlyReachable(h, r, s) && In(s, 2, Checked) && s.now == h.d
    ensures s.txns[2] == Txn(0, K, "b", h.d, Checked, 0, NOTHING, None)
    ensures 0 in s.db && RowsOk(s.db[0]) && s.db[0].keys == map["k" := KeyRow(Response(201, Incident(1, 1, "a")), 0)]
    ensures s.locks == map[] && forall u :: u in s.txns ==> s.txns[u].pending == NOTHING
  {
    s := LoserChecks(h, r);
    s := Go(h, r, s, Commit(1));
    assert s.db[0] == OrgRows(1, [Incident(1, 1, "a")], [Created(1, 1)],
                              map["k" := KeyRow(Response(201, Incident(1, 1, "a")), 0)]);
  }

  /** The winner has inserted incident 1 and the key row, and committed neither. */
  function Winning(): Txn {
    var draft := Incident(1, 1, "a");
    Txn(0, K, "a", 0, KeyStored, 0, Pending(Some(1), Some(draft), Some(KeyRow(Response(201, draft), 0))), Some(draft))
  }

  lemma LoserChecks(h: Host, r: nat) returns (s: State)
    ensures PromptlyReachable(h, r, s)
    ensures s == State(map[0 := OrgRows(0, [], [], map[])], map[0 := 1],
                       map[1 := Winning(), 2 := Txn(0, K, "b", h.d, Checked, 0, NOTHING, None)], h.d, [])
  {
    s := WinnerStores(h, r);
    s := Go(h, r, s, Tick(h.d));
    s := Go(h, r, s, Begin(2, 0, K, "b"));
    s := Go(h, r, s, CheckKey(2));
  }

  lemma WinnerChecks(h: Host, r: nat) returns (s: State)
    ensures PromptlyReachable(h, r, s)
    ensures s == State(map[0 := OrgRows(0, [], [], map[])], map[],
                       map[1 := Txn(0, K, "a", 0, Checked, 0, NOTHING, None)], 0, [])
  {
    assert Valid(r, INITIAL, []) && Prompt(h, r, INITIAL, []) && Exec(r, INITIAL, []) == INITIAL;
    s := Go(h, r, INITIAL, CreateOrg(0));
    s := Go(h, r, s, Begin(1, 0, K, "a"));
    s := Go(h, r, s, CheckKey(1));
  }

  lemma WinnerStores(h: Host, r: nat) returns (s: State)
    ensures PromptlyReachable(h, r, s)
    ensures s == State(map[0 := OrgRows(0, [], [], map[])], map[0 := 1], map[1 := Winning()], 0, [])
  {
    s := WinnerChecks(h, r);
    s := ToKeyInsert(h, r, s, 1);
    s := Go(h, r, s, StoreKey(1));
  }

  /** Answers are honest in every run of requests that last at most `d` exactly when two
      request durations fit in the retention window, or what was loaded before a rollback
      cannot be read after it. */
  lemma HonestExactlyWhen(h: Host, r: nat)
    ensures (forall s :: PromptlyReachable(h, r, s) ==> NoPhantom(s.log)) <==> 2 * h.d <= r || !h.readable
  {
    if 2 * h.d <= r || !h.readable {
      forall s | PromptlyReachable(h, r, s) ensures NoPhantom(s.log) {
        var steps :| Valid(r, INITIAL, steps) && Prompt(h, r, INITIAL, steps) && Exec(r, INITIAL, steps) == s;
        if h.readable { HonestRun(h, r, INITIAL, steps); } else { UnreadableRun(h, r, INITIAL, steps); }
      }
    } else {
      var s := LongRequestsCanLie(h, r);
    }
  }
}
