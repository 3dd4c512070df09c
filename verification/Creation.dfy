/** Incident creation as interleaved database transactions.

    Every request is one transaction that moves through the phases below; between two
    phases any other request, the clock or the retention job may step.  Reads see
    committed rows only (READ COMMITTED), writes stay in `pending` until the commit, and
    the one explicit lock is the organisation's counter row. */
module Creation {
  import opened Wrappers

  type OrgId = nat
  type TxnId = nat
  type Key = string
  type Time = int
  type Content = string

  datatype Incident = Incident(id: TxnId, number: nat, content: Content)

  /** Status code and body; the body is the serialised incident. */
  datatype Response = Response(status: nat, body: Incident)

  /** `createdAt` is the database's now(), which is constant within a transaction: the
      moment the inserting transaction began. */
  datatype KeyRow = KeyRow(response: Response, createdAt: Time)

  datatype Created = Created(incident: TxnId, number: nat)

  /** The committed rows of one organisation. */
  datatype OrgRows = OrgRows(
    incidentSeq: nat, incidents: seq<Incident>, timeline: seq<Created>, keys: map<Key, KeyRow>)

  /** A transaction's flushed but uncommitted writes. */
  datatype Pending = Pending(incidentSeq: Option<nat>, incident: Option<Incident>, keyRow: Option<KeyRow>)

  const NOTHING: Pending := Pending(None, None, None)

  datatype Kind = Fresh | Replay | Phantom

  datatype Phase =
    | Begun | Checked | Validated | Locked | Numbered | Inserted | KeyStored | Conflicted
    | Answered(kind: Kind) | Failed

  /** `seen` is the counter value read under the lock; `draft` is the handler's local
      incident, from which it has already serialised the body. */
  datatype Txn = Txn(
    org: OrgId, key: Option<Key>, content: Content, begunAt: Time, phase: Phase,
    seen: nat, pending: Pending, draft: Option<Incident>)

  /** What the outside world saw, in order. */
  datatype LogEntry =
    | Answer(txn: TxnId, org: OrgId, key: Option<Key>, response: Response, kind: Kind)
    | Pruned(gone: set<(OrgId, Key)>)

  datatype State = State(
    db: map<OrgId, OrgRows>, locks: map<OrgId, TxnId>, txns: map<TxnId, Txn>, now: Time, log: seq<LogEntry>)

  const INITIAL: State := State(map[], map[], map[], 0, [])

  datatype Step =
    | CreateOrg(org: OrgId)
    | Begin(t: TxnId, bOrg: OrgId, key: Option<Key>, content: Content)
    | CheckKey(t: TxnId)
    | Validate(t: TxnId, ok: bool)
    | Lock(t: TxnId)
    | Increment(t: TxnId)
    | Insert(t: TxnId)
    | StoreKey(t: TxnId)
    | Commit(t: TxnId)
    | Reread(t: TxnId)
    | Abort(t: TxnId)
    | Tick(d: nat)
    | Prune

  predicate Holds(p: Phase) {
    p == Locked || p == Numbered || p == Inserted || p == KeyStored
  }

  predicate Live(p: Phase) {
    !p.Answered? && p != Failed
  }

  predicate In(s: State, t: TxnId, p: Phase) {
    t in s.txns && s.txns[t].phase == p
  }

  /** The handler has built its incident in an organisation that exists. */
  predicate HasDraft(s: State, t: TxnId) {
    t in s.txns && s.txns[t].draft.Some? && s.txns[t].org in s.db
  }

  /** Another open transaction has already inserted this key: the insert must wait for it. */
  predicate KeyInsertWaits(s: State, t: TxnId)
    requires t in s.txns
  {
    exists u :: u in s.txns && u != t && s.txns[u].org == s.txns[t].org && s.txns[u].key == s.txns[t].key
                && s.txns[u].pending.keyRow.Some?
  }

  predicate Enabled(s: State, step: Step) {
    match step
    case CreateOrg(org) => org !in s.db
    case Begin(t, _, _, _) => t !in s.txns
    case CheckKey(t) => In(s, t, Begun)
    case Validate(t, _) => In(s, t, Checked)
    case Lock(t) => In(s, t, Validated) && s.txns[t].org !in s.locks
    case Increment(t) => In(s, t, Locked)
    case Insert(t) => In(s, t, Numbered)
    case StoreKey(t) => In(s, t, Inserted) && HasDraft(s, t) && s.txns[t].key.Some? && !KeyInsertWaits(s, t)
    case Commit(t) => HasDraft(s, t) && (In(s, t, KeyStored) || (In(s, t, Inserted) && s.txns[t].key.None?))
    case Reread(t) => In(s, t, Conflicted) && HasDraft(s, t) && s.txns[t].key.Some?
    case Abort(t) => t in s.txns && Live(s.txns[t].phase)
    case Tick(_) => true
    case Prune => true
  }

  function Without(locks: map<OrgId, TxnId>, org: OrgId): map<OrgId, TxnId> {
    map o | o in locks && o != org :: locks[o]
  }

  function Put(s: State, t: TxnId, x: Txn): State {
    s.(txns := s.txns[t := x])
  }

  /** Roll back: drop the pending writes and release the lock, if held. */
  function RolledBack(s: State, t: TxnId, phase: Phase): State
    requires t in s.txns
  {
    var x := s.txns[t];
    var s1 := Put(s, t, x.(phase := phase, pending := NOTHING));
    if Holds(x.phase) then s1.(locks := Without(s.locks, x.org)) else s1
  }

  function Say(s: State, t: TxnId, response: Response, kind: Kind): State
    requires t in s.txns
  {
    var x := s.txns[t];
    Put(s, t, x.(phase := Answered(kind))).(log := s.log + [Answer(t, x.org, x.key, response, kind)])
  }

  /** The rows after a commit: the counter is written as an absolute value. */
  function Applied(rows: OrgRows, key: Option<Key>, p: Pending): OrgRows {
    OrgRows(
      if p.incidentSeq.Some? then p.incidentSeq.value else rows.incidentSeq,
      if p.incident.Some? then rows.incidents + [p.incident.value] else rows.incidents,
      if p.incident.Some? then rows.timeline + [Created(p.incident.value.id, p.incident.value.number)] else rows.timeline,
      if key.Some? && p.keyRow.Some? then rows.keys[key.value := p.keyRow.value] else rows.keys)
  }

  predicate Expired(r: nat, now: Time, row: KeyRow) {
    row.createdAt < now - r
  }

  function Retain(r: nat, now: Time, rows: OrgRows): OrgRows {
    rows.(keys := map k | k in rows.keys && !Expired(r, now, rows.keys[k]) :: rows.keys[k])
  }

  /** The keys the retention job deletes. */
  ghost function Stale(r: nat, s: State): set<(OrgId, Key)> {
    set o, k | o in s.db && k in s.db[o].keys && Expired(r, s.now, s.db[o].keys[k]) :: (o, k)
  }

  ghost function Next(r: nat, s: State, step: Step): State
    requires Enabled(s, step)
  {
    match step
    case CreateOrg(org) => s.(db := s.db[org := OrgRows(0, [], [], map[])])
    case Begin(t, org, key, content) =>
      Put(s, t, Txn(org, key, content, s.now, Begun, 0, NOTHING, None))
    case CheckKey(t) =>
      var x := s.txns[t];
      if x.key.Some? && x.org in s.db && x.key.value in s.db[x.org].keys
      then Say(s, t, s.db[x.org].keys[x.key.value].response, Replay)
      else Put(s, t, x.(phase := Checked))
    case Validate(t, ok) =>
      if ok then Put(s, t, s.txns[t].(phase := Validated)) else RolledBack(s, t, Failed)
    case Lock(t) =>
      var x := s.txns[t];
      if x.org in s.db
      then Put(s, t, x.(phase := Locked, seen := s.db[x.org].incidentSeq)).(locks := s.locks[x.org := t])
      else RolledBack(s, t, Failed)
    case Increment(t) =>
      var x := s.txns[t];
      Put(s, t, x.(phase := Numbered, pending := x.pending.(incidentSeq := Some(x.seen + 1))))
    case Insert(t) =>
      var x := s.txns[t];
      var incident := Incident(t, x.seen + 1, x.content);
      if NumberTaken(s, x.org, incident.number)
      then RolledBack(s, t, Failed)
      else Put(s, t, x.(phase := Inserted, pending := x.pending.(incident := Some(incident)), draft := Some(incident)))
    case StoreKey(t) =>
      var x := s.txns[t];
      if x.key.value in s.db[x.org].keys
      then RolledBack(s, t, Conflicted)
      else Put(s, t, x.(phase := KeyStored,
                        pending := x.pending.(keyRow := Some(KeyRow(Response(201, x.draft.value), x.begunAt)))))
    case Commit(t) =>
      var x := s.txns[t];
      var s1 := s.(db := s.db[x.org := Applied(s.db[x.org], x.key, x.pending)]);
      Say(RolledBack(s1, t, x.phase), t, Response(201, x.draft.value), Fresh)
    case Reread(t) =>
      var x := s.txns[t];
      if x.key.value in s.db[x.org].keys
      then Say(s, t, s.db[x.org].keys[x.key.value].response, Replay)
      else Say(s, t, Response(201, x.draft.value), Phantom)
    case Abort(t) => RolledBack(s, t, Failed)
    case Tick(d) => s.(now := s.now + d)
    case Prune =>
      s.(db := map o | o in s.db :: Retain(r, s.now, s.db[o]), log := s.log + [Pruned(Stale(r, s))])
  }

  /** A committed incident of the organisation already has the number: the insert would fail. */
  predicate NumberTaken(s: State, org: OrgId, number: nat) {
    org in s.db && exists i :: 0 <= i < |s.db[org].incidents| && s.db[org].incidents[i].number == number
  }

  // ------------------------------------------------------------------ runs

  ghost predicate Valid(r: nat, s: State, steps: seq<Step>)
    decreases |steps|
  {
    steps == [] || (Enabled(s, steps[0]) && Valid(r, Next(r, s, steps[0]), steps[1..]))
  }

  ghost function Exec(r: nat, s: State, steps: seq<Step>): State
    requires Valid(r, s, steps)
    decreases |steps|
  {
    if steps == [] then s else Exec(r, Next(r, s, steps[0]), steps[1..])
  }
}
