/** Escalation of an unacknowledged sev1 incident: a pure plan and a self-rescheduling job. */
module Escalation {
  import opened Wrappers
  import opened Lifecycle
  import opened Sequences

  const DEFAULT_ACK_TIMEOUT_MINUTES: int := 15
  const MINUTE: int := 60

  datatype Config = Config(ackTimeout: nat, chain: seq<UserId>)

  // -------------------------------------------------------------- settings

  /** The organisation's settings: the timeout may be missing or unreadable, and a chain
      entry that is not a UUID reads as None. */
  datatype Minutes = Missing | Number(n: int) | Unreadable

  function ValidEntries(entries: seq<Option<UserId>>): seq<UserId> {
    if entries == [] then []
    else (if entries[0].Some? then [entries[0].value] else []) + ValidEntries(entries[1..])
  }

  lemma {:induction false} ValidEntriesSnoc(entries: seq<Option<UserId>>, e: Option<UserId>)
    ensures ValidEntries(entries + [e]) == ValidEntries(entries) + if e.Some? then [e.value] else []
    decreases |entries|
  {
    var all := entries + [e];
    if entries == [] {
      assert all[1..] == [];
    } else {
      ValidEntriesSnoc(entries[1..], e);
      assert all[1..] == entries[1..] + [e];
      Regroup(if entries[0].Some? then [entries[0].value] else [], ValidEntries(entries[1..]),
              if e.Some? then [e.value] else []);
    }
  }

  /** The readable entries, each once and in order: what a chain of one entry is, and that
      chains join as their settings do, leaves no other choice. */
  lemma {:induction false} EntriesInOrder(a: seq<Option<UserId>>, b: seq<Option<UserId>>, u: UserId)
    ensures ValidEntries(a + b) == ValidEntries(a) + ValidEntries(b)
    ensures ValidEntries([Some(u)]) == [u] && ValidEntries([None]) == []
    decreases |b|
  {
    var one: seq<Option<UserId>>, unreadable: seq<Option<UserId>> := [Some(u)], [None];
    assert one[1..] == [] && unreadable[1..] == [];
    if b == [] {
      assert a + b == a;
    } else {
      var n := |b| - 1;
      EntriesInOrder(a, b[..n], u);
      ValidEntriesSnoc(a + b[..n], b[n]);
      ValidEntriesSnoc(b[..n], b[n]);
      assert (a + b[..n]) + [b[n]] == a + b && b[..n] + [b[n]] == b;
      Regroup(ValidEntries(a), ValidEntries(b[..n]), if b[n].Some? then [b[n].value] else []);
    }
  }

  method ParseConfig(minutes: Minutes, entries: seq<Option<UserId>>) returns (config: Config)
    ensures config.chain == ValidEntries(entries)
    ensures minutes.Number? && minutes.n >= 0 ==> config.ackTimeout == minutes.n * 60
    ensures minutes.Number? && minutes.n < 0 ==> config.ackTimeout == 0
    ensures !minutes.Number? ==> config.ackTimeout == 15 * 60
  {
    var timeout := DEFAULT_ACK_TIMEOUT_MINUTES * MINUTE;
    if minutes.Number? { timeout := (if minutes.n > 0 then minutes.n else 0) * MINUTE; }
    var chain: seq<UserId> := [];
    for i := 0 to |entries|
      invariant chain == ValidEntries(entries[..i])
    {
      ValidEntriesSnoc(entries[..i], entries[i]);
      assert entries[..i + 1] == entries[..i] + [entries[i]];
      if entries[i].Some? { chain := chain + [entries[i].value]; }
    }
    assert entries[..|entries|] == entries;
    config := Config(timeout, chain);
  }

  // ------------------------------------------------------------------ plan

  datatype Reason = NotSev1 | Silenced | NotDue | NoTarget | Notify

  datatype Decision = Decision(targets: seq<UserId>, nextLevel: Option<nat>, nextCheckIn: Option<int>, reason: Reason)

  function Due(c: Config, start: Time, level: nat): Time {
    start + c.ackTimeout * (level + 1)
  }

  /** Whom level 0 tells: the person on call, or the head of the chain. */
  function Primary(c: Config, onCall: Option<UserId>): seq<UserId> {
    if onCall.Some? then [onCall.value] else if c.chain == [] then [] else c.chain[..1]
  }

  function Targets(c: Config, onCall: Option<UserId>, level: nat): seq<UserId> {
    if level == 0 then Primary(c, onCall)
    else if level <= |c.chain| then c.chain[level - 1..level]
    else []
  }

  /** Somebody is told, or another check asked for, only for an open sev1 nobody has
      acknowledged, and nobody is told before the level is due. */
  function Plan(severity: Severity, status: Status, acknowledgedAt: Option<Time>, start: Time,
                c: Config, onCall: Option<UserId>, level: nat, now: Time): (plan: Decision)
    ensures plan.targets != [] || plan.nextLevel.Some? ==>
      severity == Sev1 && status == Open && acknowledgedAt.None?
    ensures plan.targets != [] ==> Due(c, start, level) <= now && plan.reason == Notify && |plan.targets| == 1
    ensures plan.nextLevel.Some? <==> plan.nextCheckIn.Some?
  {
    if severity != Sev1 then Decision([], None, None, NotSev1)
    else if acknowledgedAt.Some? || status != Open then Decision([], None, None, Silenced)
    else if now < Due(c, start, level) then Decision([], Some(level), Some(Due(c, start, level) - now), NotDue)
    else
      var targets := Targets(c, onCall, level);
      var next := if level < |c.chain| then Some(level + 1) else None;
      var checkIn := if next.Some? then Some(c.ackTimeout) else None;
      Decision(targets, next, checkIn, if targets == [] then NoTarget else Notify)
  }

  /** Acknowledged, or past open: no target and no further check, now or ever. */
  lemma SilencedForGood(d: Doc, requests: seq<Request>, m: nat, n: nat, start: Time, c: Config,
                        onCall: Option<UserId>, level: nat, now: Time)
    requires m <= n <= |requests| && After(d, requests, m).row.status != Open
    ensures var row := After(d, requests, n).row;
      var plan := Plan(row.severity, row.status, row.acknowledgedAt, start, c, onCall, level, now);
      plan.targets == [] && plan.nextLevel == None && plan.nextCheckIn == None
  {
    NeverReopens(d, requests, m, n);
  }

  lemma {:induction false} NeverReopens(d: Doc, requests: seq<Request>, m: nat, n: nat)
    requires m <= n <= |requests| && After(d, requests, m).row.status != Open
    ensures After(d, requests, n).row.status != Open
    decreases n
  {
    if m < n {
      NeverReopens(d, requests, m, n - 1);
      NoWayBack(After(d, requests, n - 1), requests[n - 1]);
    }
  }

  lemma NoWayBack(d: Doc, q: Request)
    requires d.row.status != Open
    ensures Handle(d, q).row.status != Open
  {}

  // ------------------------------------------------------------ one check

  datatype Notice = Notice(level: nat, at: Time, user: UserId)

  /** A queued check: never run before `earliest`. */
  datatype Job = Job(level: nat, earliest: Time)

  /** What checks leave behind: queued e-mails, timeline events and follow-up jobs. */
  datatype Outbox = Outbox(emails: seq<Notice>, timeline: seq<Notice>, queue: seq<Job>)

  /** Everything one execution of the job reads: the incident, the organisation's settings, the
      users that still exist, who is on call, and the time. */
  datatype Reading = Reading(
    row: Row, start: Time, config: Config, users: set<UserId>, onCall: Option<UserId>, level: nat, now: Time)

  /** The on-call query joins the users table, so whoever is on call exists. */
  predicate Consistent(x: Reading) {
    x.onCall.Some? ==> x.onCall.value in x.users
  }

  function PlanOf(x: Reading): Decision {
    Plan(x.row.severity, x.row.status, x.row.acknowledgedAt, x.start, x.config, x.onCall, x.level, x.now)
  }

  function Known(users: set<UserId>, targets: seq<UserId>): seq<UserId> {
    if targets == [] then []
    else (if targets[0] in users then [targets[0]] else []) + Known(users, targets[1..])
  }

  function Notices(level: nat, at: Time, targets: seq<UserId>): (ns: seq<Notice>)
    ensures |ns| == |targets|
  {
    seq(|targets|, i requires 0 <= i < |targets| => Notice(level, at, targets[i]))
  }

  function Told(x: Reading): seq<Notice> {
    Notices(x.level, x.now, Known(x.users, PlanOf(x).targets))
  }

  function FollowUp(x: Reading): seq<Job> {
    var plan := PlanOf(x);
    if plan.nextLevel.Some? && plan.nextCheckIn.Some?
    then [Job(plan.nextLevel.value, x.now + plan.nextCheckIn.value)] else []
  }

  function Checked(o: Outbox, x: Reading): Outbox {
    Outbox(o.emails + Told(x), o.timeline + Told(x), o.queue + FollowUp(x))
  }

  lemma {:induction false} KnownSnoc(users: set<UserId>, targets: seq<UserId>, u: UserId)
    ensures Known(users, targets + [u]) == Known(users, targets) + if u in users then [u] else []
    decreases |targets|
  {
    var all := targets + [u];
    if targets == [] {
      assert all[1..] == [];
    } else {
      KnownSnoc(users, targets[1..], u);
      assert all[1..] == targets[1..] + [u];
      Regroup(if targets[0] in users then [targets[0]] else [], Known(users, targets[1..]),
              if u in users then [u] else []);
    }
  }

  lemma {:induction false} KnownAppend(users: set<UserId>, a: seq<UserId>, b: seq<UserId>)
    ensures Known(users, a + b) == Known(users, a) + Known(users, b)
    decreases |a|
  {
    if a == [] {
      assert a + b == b;
    } else {
      KnownAppend(users, a[1..], b);
      assert (a + b)[1..] == a[1..] + b;
      Regroup(if a[0] in users then [a[0]] else [], Known(users, a[1..]), Known(users, b));
    }
  }

  /** The one person a level tells: at level 0 whoever is on call, or the head of the chain if
      nobody is; at level n the n-th of the chain. */
  predicate IsTarget(x: Reading, u: UserId) {
    if x.level == 0 then (if x.onCall.Some? then x.onCall == Some(u) else x.config.chain != [] && x.config.chain[0] == u)
    else x.level <= |x.config.chain| && x.config.chain[x.level - 1] == u
  }

  /** What one check must leave, spelled out: nothing unless the incident is escalating; one
      check at the due time if it is early; otherwise one e-mail and one event for the target
      if it exists, and the next level's check one timeout later if there is a next level. */
  ghost predicate Acts(o: Outbox, x: Reading, o': Outbox) {
    var due := x.start + x.config.ackTimeout * (x.level + 1);
    if !(x.row.severity == Sev1 && x.row.status == Open && x.row.acknowledgedAt.None?) then o' == o
    else if x.now < due then o' == o.(queue := o.queue + [Job(x.level, due)])
    else
      && o'.queue == o.queue + (if x.level < |x.config.chain| then [Job(x.level + 1, x.now + x.config.ackTimeout)] else [])
      && (forall u :: IsTarget(x, u) && u in x.users ==>
            && o'.timeline == o.timeline + [Notice(x.level, x.now, u)]
            && o'.emails == o.emails + [Notice(x.level, x.now, u)])
      && ((forall u :: IsTarget(x, u) ==> u !in x.users) ==> o'.timeline == o.timeline && o'.emails == o.emails)
  }

  lemma PlansTheTarget(x: Reading)
    requires Escalating(x) && IsDue(x)
    ensures forall u :: IsTarget(x, u) <==> u in PlanOf(x).targets
    ensures |PlanOf(x).targets| <= 1
  {}

  lemma ToldOne(x: Reading, u: UserId)
    requires PlanOf(x).targets == [u]
    ensures Told(x) == if u in x.users then [Notice(x.level, x.now, u)] else []
  {
    KnownInOrder(x.users, [], [], u);
  }

  lemma FollowsUp(x: Reading)
    requires Escalating(x) && IsDue(x)
    ensures FollowUp(x) == if x.level < |x.config.chain| then [Job(x.level + 1, x.now + x.config.ackTimeout)] else []
  {}

  lemma CheckActs(o: Outbox, x: Reading)
    ensures Acts(o, x, Checked(o, x))
  {
    if !Escalating(x) || !IsDue(x) {
      assert PlanOf(x).targets == [] && Told(x) == [];
      assert o.emails + [] == o.emails && o.timeline + [] == o.timeline && o.queue + [] == o.queue;
    } else {
      FollowsUp(x);
      PlansTheTarget(x);
      var targets := PlanOf(x).targets;
      if targets == [] { assert Told(x) == []; } else { ToldOne(x, targets[0]); }
      assert o.emails + [] == o.emails && o.timeline + [] == o.timeline;
    }
  }

  // --------------------------------------------------------------- retries

  /** An open sev1 that nobody has acknowledged. */
  predicate Escalating(x: Reading) {
    x.row.severity == Sev1 && x.row.status == Open && x.row.acknowledgedAt.None?
  }

  predicate IsDue(x: Reading) {
    Due(x.config, x.start, x.level) <= x.now
  }

  predicate Tells(x: Reading) {
    Escalating(x) && IsDue(x) && exists u :: u in Targets(x.config, x.onCall, x.level) && u in x.users
  }

  /** An early check asks to be run again, a due one for the next level. */
  predicate AsksAgain(x: Reading) {
    Escalating(x) && (!IsDue(x) || x.level < |x.config.chain|)
  }

  lemma {:induction false} KnownIsEmpty(users: set<UserId>, targets: seq<UserId>)
    ensures Known(users, targets) == [] <==> forall u :: u in targets ==> u !in users
    decreases |targets|
  {
    if targets != [] {
      KnownIsEmpty(users, targets[1..]);
      assert forall u :: u in targets <==> u == targets[0] || u in targets[1..];
    }
  }

  /** The guards say exactly what a check leaves behind. */
  lemma LeavesExactly(x: Reading)
    ensures Told(x) != [] <==> Tells(x)
    ensures FollowUp(x) != [] <==> AsksAgain(x)
  {
    KnownIsEmpty(x.users, PlanOf(x).targets);
  }

  /** How far an execution got before it failed: `k` e-mails queued and the transaction lost,
      the transaction committed but no follow-up queued, or everything. */
  datatype Progress = Mailed(k: nat) | Committed | Finished

  function Partly(o: Outbox, x: Reading, p: Progress): Outbox {
    match p
    case Mailed(k) => o.(emails := o.emails + if k <= |Told(x)| then Told(x)[..k] else Told(x))
    case Committed => Outbox(o.emails + Told(x), o.timeline + Told(x), o.queue)
    case Finished => Checked(o, x)
  }

  lemma Cancel<T>(a: seq<T>, b: seq<T>, c: seq<T>)
    ensures (a + b) + c == a + c <==> b == []
  {
    if b == [] { assert (a + b) + c == a + c; } else { assert |(a + b) + c| > |a + c|; }
  }

  /** A job that failed part-way and is run again leaves what one run leaves, if and only if
      the part that ran told nobody, queued no e-mail and asked for no follow-up.  The second
      run reads everything afresh. */
  lemma PartialRunIsHarmlessExactlyWhen(o: Outbox, x: Reading, p: Progress, again: Reading)
    ensures Checked(Partly(o, x, p), again) == Checked(o, again)
       <==> match p
            case Mailed(k) => k == 0 || !Tells(x)
            case Committed => !Tells(x)
            case Finished => !Tells(x) && !AsksAgain(x)
  {
    LeavesExactly(x);
    var q := Partly(o, x, p);
    var emails := match p case Mailed(k) => (if k <= |Told(x)| then Told(x)[..k] else Told(x)) case _ => Told(x);
    Cancel(o.emails, emails, Told(again));
    Cancel(o.timeline, Told(x), Told(again));
    Cancel(o.queue, FollowUp(x), FollowUp(again));
  }

  /** The incident, settings and users as they were, read later and with anyone on call. */
  predicate Rereads(x: Reading, again: Reading) {
    again == x.(now := again.now, onCall := again.onCall) && x.now <= again.now && Consistent(again)
  }

  /** Nobody the level could tell exists, whoever is on call. */
  predicate NobodyLeft(x: Reading) {
    if x.level == 0 then x.users == {}
    else x.level > |x.config.chain| || x.config.chain[x.level - 1] !in x.users
  }

  /** Running a finished check again, at any later time and with anyone on call, leaves e-mails,
      timeline and queue as the first run left them, if and only if the incident is not
      escalating, or the check was due on the last level and nobody is left to tell. */
  lemma RetryIsHarmlessExactlyWhen(o: Outbox, x: Reading)
    requires Consistent(x)
    ensures (forall again :: Rereads(x, again) ==> Checked(Checked(o, x), again) == Checked(o, x))
       <==> !Escalating(x) || (IsDue(x) && x.level >= |x.config.chain| && NobodyLeft(x))
  {
    if !Escalating(x) || (IsDue(x) && x.level >= |x.config.chain| && NobodyLeft(x)) {
      forall again | Rereads(x, again) ensures Checked(Checked(o, x), again) == Checked(o, x) {
        StaysIdle(x, again);
        IdleLeavesNothing(Checked(o, x), again);
      }
    } else {
      var again := Loudest(x);
      LeavesExactly(again);
      var once := Checked(o, x);
      if Tells(again) { assert |Checked(once, again).timeline| > |once.timeline|; }
      if AsksAgain(again) { assert |Checked(once, again).queue| > |once.queue|; }
    }
  }

  lemma StaysIdle(x: Reading, again: Reading)
    requires Rereads(x, again)
    requires !Escalating(x) || (IsDue(x) && x.level >= |x.config.chain| && NobodyLeft(x))
    ensures !Tells(again) && !AsksAgain(again)
  {}

  lemma IdleLeavesNothing(o: Outbox, x: Reading)
    requires !Tells(x) && !AsksAgain(x)
    ensures Checked(o, x) == o
  {
    LeavesExactly(x);
  }

  /** A second run that leaves something, where there is one. */
  lemma Loudest(x: Reading) returns (again: Reading)
    requires Consistent(x) && Escalating(x) && !(IsDue(x) && x.level >= |x.config.chain| && NobodyLeft(x))
    ensures Rereads(x, again) && (Tells(again) || AsksAgain(again))
  {
    again := x;
    if IsDue(x) && x.level >= |x.config.chain| {
      if x.level == 0 {
        var u :| u in x.users;
        again := x.(onCall := Some(u));
        assert u in Targets(again.config, again.onCall, again.level);
      } else {
        assert x.config.chain[x.level - 1] in Targets(x.config, x.onCall, x.level);
      }
    }
  }

  /** An early check tells nobody, and yet running it twice tells the person on call twice. */
  lemma EarlyRetryTellsTwice(row: Row, o: Outbox)
    requires row.severity == Sev1 && row.status == Open && row.acknowledgedAt.None?
    ensures var early := Reading(row, 0, Config(60, []), {7}, Some(7), 0, 0);
      var due := early.(now := 60);
      && Checked(Checked(o, early), early).queue == o.queue + [Job(0, 60), Job(0, 60)]
      && Checked(Checked(o, due), due).timeline == o.timeline + [Notice(0, 60, 7), Notice(0, 60, 7)]
  {
    var early := Reading(row, 0, Config(60, []), {7}, Some(7), 0, 0);
    var due := early.(now := 60);
    assert FollowUp(early) == [Job(0, 60)];
    Regroup(o.queue, [Job(0, 60)], [Job(0, 60)]);
    assert Known({7}, [7]) == [7] by { assert [7][1..] == []; }
    assert Told(due) == [Notice(0, 60, 7)];
    Regroup(o.timeline, [Notice(0, 60, 7)], [Notice(0, 60, 7)]);
  }

  // ------------------------------------------------------------- whole runs

  datatype Visit = Visit(now: Time, onCall: Option<UserId>)

  /** `acted` is the visit that acted on level 0; `waits` counts the checks that came early. */
  datatype Run = Run(job: Option<Job>, log: seq<Notice>, steps: nat, waits: nat, acted: Option<Visit>)

  function Users(log: seq<Notice>): (us: seq<UserId>)
    ensures |us| == |log|
  {
    seq(|log|, i requires 0 <= i < |log| => log[i].user)
  }

  /** What stays fixed while an incident escalates: it is an open sev1, and the settings and the
      users do not change. */
  datatype Case = Case(row: Row, start: Time, config: Config, users: set<UserId>)

  predicate StillOpen(k: Case) {
    k.row.severity == Sev1 && k.row.status == Open && k.row.acknowledgedAt.None?
  }

  function ReadAt(k: Case, level: nat, v: Visit): Reading {
    Reading(k.row, k.start, k.config, k.users, v.onCall, level, v.now)
  }

  /** One execution of the queued job by the worker. */
  function Visited(k: Case, r: Run, v: Visit): Run
    requires r.job.Some?
  {
    var x := ReadAt(k, r.job.value.level, v);
    var o := Checked(Outbox([], r.log, []), x);
    var early := Escalating(x) && !IsDue(x);
    Run(if o.queue == [] then None else Some(o.queue[0]), o.timeline, r.steps + 1,
        r.waits + if early then 1 else 0, if x.level == 0 && !early then Some(v) else r.acted)
  }

  ghost predicate OnTime(k: Case, r: Run, visits: seq<Visit>)
    decreases |visits|
  {
    visits == [] || (r.job.Some? && r.job.value.earliest <= visits[0].now
                     && OnTime(k, Visited(k, r, visits[0]), visits[1..]))
  }

  ghost function Play(k: Case, r: Run, visits: seq<Visit>): Run
    requires OnTime(k, r, visits)
    decreases |visits|
  {
    if visits == [] then r else Play(k, Visited(k, r, visits[0]), visits[1..])
  }

  /** The check enqueued when the incident is created. */
  function Enqueued(c: Config, created: Time): Run {
    Run(Some(Job(0, created + c.ackTimeout)), [], 0, 0, None)
  }

  /** Whom the escalation has meant to tell once levels 0..level have acted. */
  function Meant(c: Config, acted: Visit, level: nat): seq<UserId>
    requires level <= |c.chain|
  {
    Primary(c, acted.onCall) + c.chain[..level]
  }

  ghost predicate RunOk(k: Case, r: Run) {
    var c := k.config;
    && r.waits <= 1
    && (forall i :: 0 <= i < |r.log| ==> Due(c, k.start, r.log[i].level) <= r.log[i].at)
    && match r.job
       case Some(job) =>
         && job.level <= |c.chain| && r.steps == job.level + r.waits
         && (if job.level == 0 then r.acted.None? && r.log == [] && (r.waits == 1 ==> Due(c, k.start, 0) <= job.earliest)
             else r.acted.Some? && Users(r.log) == Known(k.users, Meant(c, r.acted.value, job.level - 1))
                  && Due(c, k.start, job.level) <= job.earliest)
       case None =>
         && r.acted.Some? && r.steps == |c.chain| + 1 + r.waits
         && Users(r.log) == Known(k.users, Meant(c, r.acted.value, |c.chain|))
  }

  lemma DueStep(c: Config, start: Time, level: nat)
    ensures Due(c, start, level + 1) == Due(c, start, level) + c.ackTimeout
  {
    assert c.ackTimeout * (level + 2) == c.ackTimeout * (level + 1) + c.ackTimeout;
  }

  lemma UsersAppend(log: seq<Notice>, level: nat, at: Time, targets: seq<UserId>)
    ensures Users(log + Notices(level, at, targets)) == Users(log) + targets
  {}

  /** A due level adds its target to those meant. */
  lemma MeantStep(c: Config, users: set<UserId>, acted: Visit, level: nat)
    requires 1 <= level <= |c.chain|
    ensures Known(users, Meant(c, acted, level))
         == Known(users, Meant(c, acted, level - 1)) + Known(users, Targets(c, acted.onCall, level))
  {
    assert Meant(c, acted, level) == Meant(c, acted, level - 1) + c.chain[level - 1..level];
    KnownAppend(users, Meant(c, acted, level - 1), c.chain[level - 1..level]);
  }

  lemma EarlyKeeps(k: Case, r: Run, v: Visit)
    requires StillOpen(k) && RunOk(k, r) && r.job.Some? && r.job.value.earliest <= v.now
    requires !IsDue(ReadAt(k, r.job.value.level, v))
    ensures RunOk(k, Visited(k, r, v))
  {
    assert Told(ReadAt(k, r.job.value.level, v)) == [];
    assert r.log + [] == r.log;
  }

  lemma DueKeeps(k: Case, r: Run, v: Visit)
    requires StillOpen(k) && RunOk(k, r) && r.job.Some? && r.job.value.earliest <= v.now
    requires IsDue(ReadAt(k, r.job.value.level, v))
    ensures RunOk(k, Visited(k, r, v))
  {
    var level := r.job.value.level;
    var told := Known(k.users, Targets(k.config, v.onCall, level));
    DueStep(k.config, k.start, level);
    assert PlanOf(ReadAt(k, level, v)).targets == Targets(k.config, v.onCall, level);
    assert Visited(k, r, v).log == r.log + Notices(level, v.now, told);
    UsersAppend(r.log, level, v.now, told);
    if level == 0 {
      assert Meant(k.config, v, 0) == Primary(k.config, v.onCall);
      assert [] + told == told;
    } else {
      MeantStep(k.config, k.users, r.acted.value, level);
    }
  }

  lemma VisitKeeps(k: Case, r: Run, v: Visit)
    requires StillOpen(k) && RunOk(k, r) && r.job.Some? && r.job.value.earliest <= v.now
    ensures RunOk(k, Visited(k, r, v))
  {
    if IsDue(ReadAt(k, r.job.value.level, v)) { DueKeeps(k, r, v); } else { EarlyKeeps(k, r, v); }
  }

  lemma {:induction false} PlayKeeps(k: Case, r: Run, visits: seq<Visit>)
    requires StillOpen(k) && RunOk(k, r) && OnTime(k, r, visits)
    ensures RunOk(k, Play(k, r, visits))
    ensures Play(k, r, visits).steps == r.steps + |visits|
    decreases |visits|
  {
    if visits != [] {
      VisitKeeps(k, r, visits[0]);
      PlayKeeps(k, Visited(k, r, visits[0]), visits[1..]);
    }
  }

  /** An unacknowledged sev1, a fixed configuration and a scheduler that is never early: at
      most |chain| + 2 checks, at most one of them early; no level acts before its due time;
      and the people the worker has told are those that exist among the primary target
      followed by the whole chain, in order. */
  lemma EscalationRun(k: Case, created: Time, visits: seq<Visit>)
    requires StillOpen(k) && OnTime(k, Enqueued(k.config, created), visits)
    ensures |visits| <= |k.config.chain| + 2
    ensures var r := Play(k, Enqueued(k.config, created), visits);
      && r.waits <= 1
      && (forall i :: 0 <= i < |r.log| ==> k.start + k.config.ackTimeout * (r.log[i].level + 1) <= r.log[i].at)
      && (r.job.None? ==> (
            r.acted.Some?
            && var primary := if r.acted.value.onCall.Some? then [r.acted.value.onCall.value]
                              else if k.config.chain == [] then [] else [k.config.chain[0]];
               Users(r.log) == Known(k.users, primary + k.config.chain)))
  {
    PlayKeeps(k, Enqueued(k.config, created), visits);
    assert k.config.chain[..|k.config.chain|] == k.config.chain;
  }

  /** Known users keep their order and number, and others drop out: what the list of one target
      is, and that lists join, leaves no other choice. */
  lemma KnownInOrder(users: set<UserId>, a: seq<UserId>, b: seq<UserId>, u: UserId)
    ensures Known(users, a + b) == Known(users, a) + Known(users, b)
    ensures Known(users, [u]) == if u in users then [u] else []
  {
    KnownAppend(users, a, b);
    assert [u][1..] == [];
  }

  // ----------------------------------------------------------- prompt runs

  /** No check runs more than `slack` after it may. */
  ghost predicate InTime(k: Case, r: Run, visits: seq<Visit>, slack: nat)
    requires OnTime(k, r, visits)
    decreases |visits|
  {
    visits == [] || (visits[0].now <= r.job.value.earliest + slack
                     && InTime(k, Visited(k, r, visits[0]), visits[1..], slack))
  }

  /** The latest a level may act when the incident starts, and is created, by `base`. */
  function Latest(c: Config, base: Time, slack: nat, level: nat): Time {
    base + (c.ackTimeout + slack) * (level + 1)
  }

  lemma LatestStep(c: Config, base: Time, slack: nat, level: nat)
    ensures Latest(c, base, slack, level + 1) == Latest(c, base, slack, level) + c.ackTimeout + slack
  {
    var t := c.ackTimeout + slack;
    assert t * (level + 2) == t * (level + 1) + t;
  }

  ghost predicate Prompt(k: Case, base: Time, slack: nat, r: Run) {
    && (forall i :: 0 <= i < |r.log| ==> r.log[i].at <= Latest(k.config, base, slack, r.log[i].level))
    && (r.job.Some? ==> r.job.value.earliest + slack <= Latest(k.config, base, slack, r.job.value.level))
  }

  lemma PromptKeeps(k: Case, base: Time, slack: nat, r: Run, v: Visit)
    requires StillOpen(k) && RunOk(k, r) && Prompt(k, base, slack, r) && k.start <= base
    requires r.job.Some? && r.job.value.earliest <= v.now <= r.job.value.earliest + slack
    ensures Prompt(k, base, slack, Visited(k, r, v))
  {
    var x := ReadAt(k, r.job.value.level, v);
    var o := Outbox([], r.log, []);
    CheckActs(o, x);
    LatestStep(k.config, base, slack, x.level);
    if x.now < Due(k.config, k.start, x.level) {
      assert x.level == 0;
      assert Latest(k.config, base, slack, 0) == base + k.config.ackTimeout + slack;
    } else if u :| IsTarget(x, u) && u in x.users {
      assert Visited(k, r, v).log == r.log + [Notice(x.level, x.now, u)];
    }
  }

  lemma {:induction false} PromptPlay(k: Case, base: Time, slack: nat, r: Run, visits: seq<Visit>)
    requires StillOpen(k) && RunOk(k, r) && Prompt(k, base, slack, r) && k.start <= base
    requires OnTime(k, r, visits) && InTime(k, r, visits, slack)
    ensures Prompt(k, base, slack, Play(k, r, visits))
    decreases |visits|
  {
    if visits != [] {
      VisitKeeps(k, r, visits[0]);
      PromptKeeps(k, base, slack, r, visits[0]);
      PromptPlay(k, base, slack, Visited(k, r, visits[0]), visits[1..]);
    }
  }

  /** When no check runs more than `slack` late, level n is told between n + 1 timeouts after
      the start and n + 1 timeouts and slacks after the later of start and creation: at exactly
      its due time if the scheduler is exact and the incident starts when it is created. */
  lemma LevelsActInTime(k: Case, created: Time, visits: seq<Visit>, slack: nat)
    requires StillOpen(k) && OnTime(k, Enqueued(k.config, created), visits)
    requires InTime(k, Enqueued(k.config, created), visits, slack)
    ensures var base := if k.start < created then created else k.start;
      var r := Play(k, Enqueued(k.config, created), visits);
      forall i :: 0 <= i < |r.log| ==>
        && k.start + k.config.ackTimeout * (r.log[i].level + 1) <= r.log[i].at
        && r.log[i].at <= base + (k.config.ackTimeout + slack) * (r.log[i].level + 1)
  {
    var base := if k.start < created then created else k.start;
    assert Latest(k.config, base, slack, 0) == base + k.config.ackTimeout + slack;
    PlayKeeps(k, Enqueued(k.config, created), visits);
    PromptPlay(k, base, slack, Enqueued(k.config, created), visits);
  }

  /** Only the first level ever comes early. */
  lemma OnlyLevelZeroWaits(k: Case, created: Time, visits: seq<Visit>, v: Visit)
    requires StillOpen(k) && OnTime(k, Enqueued(k.config, created), visits)
    requires var r := Play(k, Enqueued(k.config, created), visits);
      r.job.Some? && r.job.value.earliest <= v.now && r.job.value.level > 0
    ensures var r := Play(k, Enqueued(k.config, created), visits);
      PlanOf(ReadAt(k, r.job.value.level, v)).reason != NotDue
  {
    PlayKeeps(k, Enqueued(k.config, created), visits);
  }

  // ------------------------------------------------------------- the worker

  /** The first schedule with somebody on shift. */
  method FirstOnCall(entries: seq<Option<UserId>>) returns (user: Option<UserId>)
    ensures user.None? ==> forall i :: 0 <= i < |entries| ==> entries[i].None?
    ensures user.Some? ==>
      exists i :: 0 <= i < |entries| && entries[i] == user && forall j :: 0 <= j < i ==> entries[j].None?
  {
    for i := 0 to |entries|
      invariant forall j :: 0 <= j < i ==> entries[j].None?
    {
      if entries[i].Some? { return entries[i]; }
    }
    user := None;
  }

  class Worker {
    var emails: seq<Notice>
    var timeline: seq<Notice>
    var queue: seq<Job>

    ghost function View(): Outbox
      reads this
    {
      Outbox(emails, timeline, queue)
    }

    constructor ()
      ensures View() == Outbox([], [], [])
    {
      emails, timeline, queue := [], [], [];
    }

    /** One step: tell every target that still exists, then reschedule as planned. */
    method CheckEscalation(x: Reading)
      modifies this
      ensures View() == Checked(old(View()), x) && Acts(old(View()), x, View())
      ensures !Tells(x) ==> timeline == old(timeline) && emails == old(emails)
      ensures !AsksAgain(x) ==> queue == old(queue)
    {
      var plan := PlanOf(x);
      var targets := plan.targets;
      for i := 0 to |targets|
        invariant timeline == old(timeline) + Notices(x.level, x.now, Known(x.users, targets[..i]))
        invariant emails == old(emails) + Notices(x.level, x.now, Known(x.users, targets[..i]))
        invariant queue == old(queue)
      {
        KnownSnoc(x.users, targets[..i], targets[i]);
        assert targets[..i + 1] == targets[..i] + [targets[i]];
        if targets[i] in x.users {
          emails := emails + [Notice(x.level, x.now, targets[i])];
          timeline := timeline + [Notice(x.level, x.now, targets[i])];
        }
      }
      assert targets[..|targets|] == targets;
      if plan.nextLevel.Some? && plan.nextCheckIn.Some? {
        queue := queue + [Job(plan.nextLevel.value, x.now + plan.nextCheckIn.value)];
      }
      LeavesExactly(x);
      CheckActs(old(View()), x);
    }
  }
}
