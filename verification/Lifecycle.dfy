/** One incident: a mutable row and the append-only timeline beside it.

    Each request is one serial transaction; an error discards everything it wrote. */
module Lifecycle {
  import opened Wrappers
  import opened Text
  import Etag

  type UserId = nat
  type Time = int

  datatype Status = Open | Acknowledged | Mitigated | Resolved | Postmortem

  datatype Severity = Sev1 | Sev2 | Sev3 | Sev4

  datatype Field = Title | Description | Tags

  datatype Row = Row(
    status: Status, severity: Severity, assignee: Option<UserId>, title: Str, description: Str, tags: seq<Str>,
    acknowledgedAt: Option<Time>, resolvedAt: Option<Time>, summary: Option<Str>, version: nat)

  datatype Event =
    | Created(severity: Severity)
    | StatusChanged(statusFrom: Status, statusTo: Status)
    | SeverityChanged(severityFrom: Severity, severityTo: Severity)
    | AssignmentChanged(userFrom: Option<UserId>, userTo: Option<UserId>)
    | Edited(fields: seq<Field>)
    | Other(kind: nat)

  datatype Doc = Doc(row: Row, timeline: seq<Event>)

  datatype Error =
    | IllegalTransition(allowed: set<Status>) | SummaryRequired | VersionConflict(current: Row)
    | AssigneeNotAMember | PreconditionRequired | BadHeader(header: Etag.HeaderError)

  // ---------------------------------------------------------- state machine

  function AllowedTargets(s: Status): set<Status> {
    match s
    case Open => {Acknowledged}
    case Acknowledged => {Mitigated, Resolved}
    case Mitigated => {Resolved}
    case Resolved => {Postmortem}
    case Postmortem => {}
  }

  predicate IsLegal(current: Status, target: Status) {
    target in AllowedTargets(current)
  }

  /** The edges the program's documentation draws. */
  predicate Edge(a: Status, b: Status) {
    || (a == Open && b == Acknowledged)
    || (a == Acknowledged && b == Mitigated)
    || (a == Mitigated && b == Resolved)
    || (a == Acknowledged && b == Resolved)
    || (a == Resolved && b == Postmortem)
  }

  /** The table holds exactly those edges. */
  lemma TableIsTheDiagram(a: Status, b: Status)
    ensures IsLegal(a, b) <==> Edge(a, b)
    ensures AllowedTargets(a) == set x | x in {Open, Acknowledged, Mitigated, Resolved, Postmortem} && Edge(a, x)
  {}

  // ---------------------------------------------------------------- requests

  datatype Patch = Patch(
    title: Option<Str>, description: Option<Str>, severity: Option<Severity>, tags: Option<seq<Str>>,
    assigneeProvided: bool, assignee: Option<UserId>)

  /** `members` is the organisation's membership when the request runs. */
  datatype Request =
    | ChangeStatus(to: Status, summary: Option<Str>, now: Time)
    | Edit(ifMatch: Option<Etag.Header>, patch: Patch, members: set<UserId>)
    | Record(kind: nat)

  function NewIncident(severity: Severity, assignee: Option<UserId>, title: Str, description: Str, tags: seq<Str>): Doc {
    Doc(Row(Open, severity, assignee, title, description, tags, None, None, None, 1), [Created(severity)])
  }

  function Given(summary: Option<Str>): Str {
    Strip(if summary.Some? then summary.value else [], IsSpace)
  }

  function Transition(d: Doc, to: Status, summary: Option<Str>, now: Time): Result<Doc, Error> {
    var row := d.row;
    if !IsLegal(row.status, to) then Err(IllegalTransition(AllowedTargets(row.status)))
    else if to == Resolved && Given(summary) == [] then Err(SummaryRequired)
    else Ok(Doc(
      row.(status := to, version := row.version + 1,
           acknowledgedAt := if to == Acknowledged && row.acknowledgedAt.None? then Some(now) else row.acknowledgedAt,
           resolvedAt := if to == Resolved then Some(now) else row.resolvedAt,
           summary := if to == Resolved then Some(Given(summary)) else row.summary),
      d.timeline + [StatusChanged(row.status, to)]))
  }

  function WithSeverity(d: Doc, severity: Option<Severity>): Doc {
    if severity.Some? && severity.value != d.row.severity
    then Doc(d.row.(severity := severity.value), d.timeline + [SeverityChanged(d.row.severity, severity.value)])
    else d
  }

  predicate Reassigns(d: Doc, p: Patch) {
    p.assigneeProvided && p.assignee != d.row.assignee
  }

  function WithAssignee(d: Doc, p: Patch): Doc {
    if Reassigns(d, p)
    then Doc(d.row.(assignee := p.assignee), d.timeline + [AssignmentChanged(d.row.assignee, p.assignee)])
    else d
  }

  function EditedFields(row: Row, p: Patch): seq<Field> {
    (if p.title.Some? && p.title.value != row.title then [Title] else [])
    + (if p.description.Some? && p.description.value != row.description then [Description] else [])
    + (if p.tags.Some? && p.tags.value != row.tags then [Tags] else [])
  }

  function Or<T>(given: Option<T>, current: T): T {
    if given.Some? then given.value else current
  }

  function WithFields(d: Doc, p: Patch): Doc {
    var fields := EditedFields(d.row, p);
    Doc(d.row.(title := Or(p.title, d.row.title), description := Or(p.description, d.row.description),
               tags := Or(p.tags, d.row.tags)),
        if fields != [] then d.timeline + [Edited(fields)] else d.timeline)
  }

  function Updated(d: Doc, p: Patch, members: set<UserId>, expected: nat): Result<Doc, Error> {
    if d.row.version != expected then Err(VersionConflict(d.row))
    else
      var d1 := WithSeverity(d, p.severity);
      if Reassigns(d1, p) && p.assignee.Some? && p.assignee.value !in members then Err(AssigneeNotAMember)
      else
        var d2 := WithFields(WithAssignee(d1, p), p);
        Ok(d2.(row := d2.row.(version := d2.row.version + 1)))
  }

  function Outcome(d: Doc, q: Request): Result<Doc, Error> {
    match q
    case ChangeStatus(to, summary, now) => Transition(d, to, summary, now)
    case Edit(ifMatch, patch, members) =>
      if ifMatch.None? then Err(PreconditionRequired)
      else
        (match Etag.Parse(ifMatch.value)
         case Err(e) => Err(BadHeader(e))
         case Ok(expected) => Updated(d, patch, members, expected))
    case Record(kind) => Ok(d.(timeline := d.timeline + [Other(kind)]))
  }

  /** A failed request changes nothing. */
  function Handle(d: Doc, q: Request): Doc {
    match Outcome(d, q)
    case Ok(d') => d'
    case Err(_) => d
  }

  /** The incident after the first `n` requests of a serial run. */
  function After(d: Doc, requests: seq<Request>, n: nat): Doc
    requires n <= |requests|
  {
    if n == 0 then d else Handle(After(d, requests, n - 1), requests[n - 1])
  }

  // ------------------------------------------------------------------ replay

  /** What the log alone says: the values after folding a timeline. */
  datatype Seen = Seen(status: Status, severity: Severity, assignee: Option<UserId>)

  function Apply(s: Seen, e: Event): Seen {
    match e
    case Created(severity) => s.(status := Open, severity := severity)
    case StatusChanged(_, to) => s.(status := to)
    case SeverityChanged(_, to) => s.(severity := to)
    case AssignmentChanged(_, to) => s.(assignee := to)
    case _ => s
  }

  /** `first` is the assignee named at creation, which the created event does not carry. */
  function Replay(timeline: seq<Event>, first: Option<UserId>): Seen {
    if timeline == [] then Seen(Open, Sev4, first)
    else Apply(Replay(timeline[..|timeline| - 1], first), timeline[|timeline| - 1])
  }

  /** An event fits the values just before it. */
  predicate Fits(before: Seen, e: Event) {
    match e
    case Created(_) => false
    case StatusChanged(from, to) => from == before.status && Edge(from, to)
    case SeverityChanged(from, to) => from == before.severity && to != from
    case AssignmentChanged(from, to) => from == before.assignee && to != from
    case Edited(fields) => fields != []
    case Other(_) => true
  }

  ghost predicate Chained(timeline: seq<Event>, first: Option<UserId>) {
    && timeline != [] && timeline[0].Created?
    && forall i :: 1 <= i < |timeline| ==> Fits(Replay(timeline[..i], first), timeline[i])
  }

  ghost predicate Stamped(row: Row) {
    && (row.acknowledgedAt.Some? <==> row.status != Open)
    && (row.resolvedAt.Some? <==> row.status == Resolved || row.status == Postmortem)
    && (row.summary.Some? <==> row.resolvedAt.Some?)
    && (row.summary.Some? ==> !Blank(row.summary.value))
  }

  ghost predicate DocOk(d: Doc, first: Option<UserId>) {
    && Chained(d.timeline, first)
    && Replay(d.timeline, first) == Seen(d.row.status, d.row.severity, d.row.assignee)
    && Stamped(d.row)
  }

  /** Appending an event that fits keeps the log chained and moves its replay. */
  lemma Append(timeline: seq<Event>, e: Event, first: Option<UserId>)
    requires Chained(timeline, first) && Fits(Replay(timeline, first), e)
    ensures Chained(timeline + [e], first)
    ensures Replay(timeline + [e], first) == Apply(Replay(timeline, first), e)
  {
    var t := timeline + [e];
    assert t[..|t| - 1] == timeline;
    forall i | 1 <= i < |t| ensures Fits(Replay(t[..i], first), t[i]) {
      assert t[..i] == timeline[..i];
      assert timeline[..|timeline|] == timeline;
    }
  }

  lemma TransitionKeeps(d: Doc, to: Status, summary: Option<Str>, now: Time, first: Option<UserId>)
    requires DocOk(d, first) && Transition(d, to, summary, now).Ok?
    ensures DocOk(Transition(d, to, summary, now).value, first)
  {
    Append(d.timeline, StatusChanged(d.row.status, to), first);
    TransitionStamps(d, to, summary, now);
  }

  lemma TransitionStamps(d: Doc, to: Status, summary: Option<Str>, now: Time)
    requires Stamped(d.row) && Transition(d, to, summary, now).Ok?
    ensures Stamped(Transition(d, to, summary, now).value.row)
  {
    StripBlank(if summary.Some? then summary.value else []);
  }

  lemma SeverityKeeps(d: Doc, severity: Option<Severity>, first: Option<UserId>)
    requires DocOk(d, first)
    ensures DocOk(WithSeverity(d, severity), first)
  {
    if severity.Some? && severity.value != d.row.severity {
      Append(d.timeline, SeverityChanged(d.row.severity, severity.value), first);
    }
  }

  lemma AssigneeKeeps(d: Doc, p: Patch, first: Option<UserId>)
    requires DocOk(d, first)
    ensures DocOk(WithAssignee(d, p), first)
  {
    if Reassigns(d, p) { Append(d.timeline, AssignmentChanged(d.row.assignee, p.assignee), first); }
  }

  lemma FieldsKeep(d: Doc, p: Patch, first: Option<UserId>)
    requires DocOk(d, first)
    ensures DocOk(WithFields(d, p), first)
  {
    if EditedFields(d.row, p) != [] { Append(d.timeline, Edited(EditedFields(d.row, p)), first); }
  }

  lemma UpdateKeeps(d: Doc, p: Patch, members: set<UserId>, expected: nat, first: Option<UserId>)
    requires DocOk(d, first)
    ensures Updated(d, p, members, expected).Ok? ==> DocOk(Updated(d, p, members, expected).value, first)
  {
    var d1 := WithSeverity(d, p.severity);
    SeverityKeeps(d, p.severity, first);
    AssigneeKeeps(d1, p, first);
    FieldsKeep(WithAssignee(d1, p), p, first);
  }

  lemma HandleKeeps(d: Doc, q: Request, first: Option<UserId>)
    requires DocOk(d, first)
    ensures DocOk(Handle(d, q), first)
  {
    match q
    case ChangeStatus(to, summary, now) =>
      if Transition(d, to, summary, now).Ok? { TransitionKeeps(d, to, summary, now, first); }
    case Edit(ifMatch, p, members) =>
      if ifMatch.Some? && Etag.Parse(ifMatch.value).Ok? {
        UpdateKeeps(d, p, members, Etag.Parse(ifMatch.value).value, first);
      }
    case Record(kind) => Append(d.timeline, Other(kind), first);
  }

  /** After any run of requests on a new incident the log replays to the row, every event's
      `from` is the value just before it, statuses follow legal edges only, and the
      milestones and the summary are set exactly in the statuses past them. */
  lemma {:induction false} LogReplaysToRow(severity: Severity, assignee: Option<UserId>, title: Str, description: Str,
                                           tags: seq<Str>, requests: seq<Request>, n: nat)
    requires n <= |requests|
    ensures DocOk(After(NewIncident(severity, assignee, title, description, tags), requests, n), assignee)
    decreases n
  {
    var d := NewIncident(severity, assignee, title, description, tags);
    if n == 0 {
      assert d.timeline[..0] == [];
    } else {
      LogReplaysToRow(severity, assignee, title, description, tags, requests, n - 1);
      HandleKeeps(After(d, requests, n - 1), requests[n - 1], assignee);
    }
  }

  predicate Reassigned(timeline: seq<Event>) {
    exists i :: 0 <= i < |timeline| && timeline[i].AssignmentChanged?
  }

  /** Replaying depends on the first assignee only until the first assignment event. */
  lemma {:induction false} ReplayForgetsFirst(timeline: seq<Event>, a: Option<UserId>, b: Option<UserId>)
    ensures var x, y := Replay(timeline, a), Replay(timeline, b);
      && x.status == y.status && x.severity == y.severity
      && (if Reassigned(timeline) then x.assignee == y.assignee else x.assignee == a && y.assignee == b)
    decreases |timeline|
  {
    if timeline != [] {
      var n := |timeline| - 1;
      ReplayForgetsFirst(timeline[..n], a, b);
      assert Reassigned(timeline) <==> timeline[n].AssignmentChanged? || Reassigned(timeline[..n]) by {
        if Reassigned(timeline[..n]) {
          var i :| 0 <= i < n && timeline[..n][i].AssignmentChanged?;
          assert timeline[i].AssignmentChanged?;
        }
        if Reassigned(timeline) && !timeline[n].AssignmentChanged? {
          var i :| 0 <= i < |timeline| && timeline[i].AssignmentChanged?;
          assert timeline[..n][i].AssignmentChanged?;
        }
      }
    }
  }

  /** The created event does not carry the assignee, so the timeline alone replays to the row
      exactly when the incident was created unassigned or has been reassigned since. */
  lemma LogAloneReplaysExactlyWhen(severity: Severity, assignee: Option<UserId>, title: Str, description: Str,
                                   tags: seq<Str>, requests: seq<Request>, n: nat)
    requires n <= |requests|
    ensures var d := After(NewIncident(severity, assignee, title, description, tags), requests, n);
      Replay(d.timeline, None) == Seen(d.row.status, d.row.severity, d.row.assignee)
      <==> assignee.None? || Reassigned(d.timeline)
  {
    var d := After(NewIncident(severity, assignee, title, description, tags), requests, n);
    LogReplaysToRow(severity, assignee, title, description, tags, requests, n);
    ReplayForgetsFirst(d.timeline, assignee, None);
  }

  /** The timeline is append-only. */
  lemma {:induction false} TimelineOnlyGrows(d: Doc, requests: seq<Request>, m: nat, n: nat)
    requires m <= n <= |requests|
    ensures After(d, requests, m).timeline <= After(d, requests, n).timeline
    decreases n
  {
    if m < n {
      TimelineOnlyGrows(d, requests, m, n - 1);
      HandleGrows(After(d, requests, n - 1), requests[n - 1]);
    }
  }

  lemma HandleGrows(d: Doc, q: Request)
    ensures d.timeline <= Handle(d, q).timeline
  {}

  // ------------------------------------------------- optimistic concurrency

  /** Request i of the run commits a change of the row. */
  predicate Mutates(d: Doc, requests: seq<Request>, i: nat)
    requires i < |requests|
  {
    !requests[i].Record? && Outcome(After(d, requests, i), requests[i]).Ok?
  }

  function Mutations(d: Doc, requests: seq<Request>, n: nat): nat
    requires n <= |requests|
  {
    if n == 0 then 0 else Mutations(d, requests, n - 1) + if Mutates(d, requests, n - 1) then 1 else 0
  }

  /** The version counts the committed mutations. */
  lemma {:induction false} VersionCounts(d: Doc, requests: seq<Request>, n: nat)
    requires n <= |requests|
    ensures After(d, requests, n).row.version == d.row.version + Mutations(d, requests, n)
    decreases n
  {
    if n > 0 { VersionCounts(d, requests, n - 1); }
  }

  lemma {:induction false} MutationsGrow(d: Doc, requests: seq<Request>, m: nat, n: nat)
    requires m <= n <= |requests|
    ensures Mutations(d, requests, m) <= Mutations(d, requests, n)
    decreases n
  {
    if m < n { MutationsGrow(d, requests, m, n - 1); }
  }

  /** A PATCH is refused unless its version is the row's. */
  lemma StaleConflicts(d: Doc, q: Request, version: nat)
    requires q.Edit? && q.ifMatch.Some? && Etag.Parse(q.ifMatch.value) == Ok(version)
    ensures d.row.version != version ==> Outcome(d, q) == Err(VersionConflict(d.row))
  {}

  /** At most one PATCH carrying a given version commits, and it applies to exactly the state
      that had that version. */
  lemma NoLostUpdate(d: Doc, requests: seq<Request>, i: nat, j: nat, version: nat)
    requires i < j < |requests| && requests[i].Edit? && requests[j].Edit?
    requires requests[i].ifMatch.Some? && Etag.Parse(requests[i].ifMatch.value) == Ok(version)
    requires requests[j].ifMatch.Some? && Etag.Parse(requests[j].ifMatch.value) == Ok(version)
    ensures !(Mutates(d, requests, i) && Mutates(d, requests, j))
    ensures Mutates(d, requests, i) ==> After(d, requests, i).row.version == version
    ensures Mutates(d, requests, i) ==> Outcome(After(d, requests, j), requests[j]) == Err(VersionConflict(After(d, requests, j).row))
  {
    StaleConflicts(After(d, requests, i), requests[i], version);
    StaleConflicts(After(d, requests, j), requests[j], version);
    VersionCounts(d, requests, i);
    VersionCounts(d, requests, j);
    MutationsGrow(d, requests, i + 1, j);
  }

  /** A client that sends back the ETag it was just given never conflicts. */
  lemma FreshEtagNeverConflicts(d: Doc, p: Patch, members: set<UserId>)
    requires d.row.version <= Etag.MAX_VERSION
    ensures var q := Edit(Some(Etag.Print(d.row.version)), p, members);
      && (Outcome(d, q).Err? ==> Outcome(d, q).error == AssigneeNotAMember)
      && (p.assignee.Some? && p.assigneeProvided && p.assignee.value !in members && p.assignee != d.row.assignee
          <==> Outcome(d, q).Err?)
  {
    Etag.EtagRoundTrip(d.row.version);
    assert Outcome(d, Edit(Some(Etag.Print(d.row.version)), p, members)) == Updated(d, p, members, d.row.version);
  }

  function Place(f: Field): nat {
    match f
    case Title => 0
    case Description => 1
    case Tags => 2
  }

  /** What a timeline must say about the edited fields of a row: nothing if none differs, else
      one event that names exactly those that differ, once each and in order. */
  ghost predicate RecordsEdits(before: Row, now: Row, was: seq<Event>, timeline: seq<Event>) {
    if before.title == now.title && before.description == now.description && before.tags == now.tags
    then timeline == was
    else
      && |timeline| == |was| + 1 && timeline[..|was|] == was && timeline[|was|].Edited?
      && var fields := timeline[|was|].fields;
         && (Title in fields <==> before.title != now.title)
         && (Description in fields <==> before.description != now.description)
         && (Tags in fields <==> before.tags != now.tags)
         && forall i, j :: 0 <= i < j < |fields| ==> Place(fields[i]) < Place(fields[j])
  }

  lemma EditsAreRecorded(d: Doc, p: Patch)
    ensures var d' := WithFields(d, p);
      && RecordsEdits(d.row, d'.row, d.timeline, d'.timeline)
      && d'.row.title == (if p.title.Some? then p.title.value else d.row.title)
      && d'.row.description == (if p.description.Some? then p.description.value else d.row.description)
      && d'.row.tags == (if p.tags.Some? then p.tags.value else d.row.tags)
  {}

  /** What a committed PATCH makes of a row and its timeline: exactly the requested values, no
      other change but the version, and on the timeline the changes of severity, assignee and
      other fields, in that order. */
  ghost predicate Patched(before: Doc, now: Doc, p: Patch) {
    && now.row == before.row.(
         title := if p.title.Some? then p.title.value else before.row.title,
         description := if p.description.Some? then p.description.value else before.row.description,
         tags := if p.tags.Some? then p.tags.value else before.row.tags,
         severity := if p.severity.Some? then p.severity.value else before.row.severity,
         assignee := if p.assigneeProvided then p.assignee else before.row.assignee,
         version := before.row.version + 1)
    && var severity := if now.row.severity == before.row.severity then []
                       else [SeverityChanged(before.row.severity, now.row.severity)];
       var assignee := if now.row.assignee == before.row.assignee then []
                       else [AssignmentChanged(before.row.assignee, now.row.assignee)];
       RecordsEdits(before.row, now.row, before.timeline + severity + assignee, now.timeline)
  }

  lemma PatchSetsWhatWasAsked(d: Doc, p: Patch, members: set<UserId>, expected: nat)
    requires Updated(d, p, members, expected).Ok?
    ensures d.row.version == expected && Patched(d, Updated(d, p, members, expected).value, p)
  {
    var d1 := WithSeverity(d, p.severity);
    var d2 := WithAssignee(d1, p);
    EditsAreRecorded(d2, p);
    assert d1.timeline == d.timeline + if d1.row.severity == d.row.severity then []
                                       else [SeverityChanged(d.row.severity, d1.row.severity)];
    assert d2.timeline == d1.timeline + if d2.row.assignee == d.row.assignee then []
                                        else [AssignmentChanged(d.row.assignee, d2.row.assignee)];
  }

  // ------------------------------------------------------- the service's code

  class IncidentService {
    var row: Row
    var timeline: seq<Event>

    ghost function View(): Doc
      reads this
    {
      Doc(row, timeline)
    }

    constructor (severity: Severity, assignee: Option<UserId>, title: Str, description: Str, tags: seq<Str>)
      ensures View() == NewIncident(severity, assignee, title, description, tags)
      ensures row == Row(Open, severity, assignee, title, description, tags, None, None, None, 1)
      ensures timeline == [Created(severity)]
    {
      row := Row(Open, severity, assignee, title, description, tags, None, None, None, 1);
      timeline := [Created(severity)];
    }

    method RecordEvent(e: Event)
      modifies this`timeline
      ensures timeline == old(timeline) + [e]
    {
      timeline := timeline + [e];
    }

    method TransitionStatus(to: Status, summary: Option<Str>, now: Time) returns (error: Option<Error>)
      modifies this
      ensures match Transition(old(View()), to, summary, now)
              case Ok(d) => error == None && View() == d
              case Err(e) => error == Some(e) && View() == old(View())
      ensures error.None? <==>
        Edge(old(row.status), to) && (to == Resolved ==> summary.Some? && !Blank(summary.value))
      ensures error.Some? && !Edge(old(row.status), to) ==> (
        error.value.IllegalTransition? && forall x :: x in error.value.allowed <==> Edge(old(row.status), x))
      ensures error.Some? && Edge(old(row.status), to) ==> error.value == SummaryRequired
      ensures error.None? ==> (
        && timeline == old(timeline) + [StatusChanged(old(row.status), to)]
        && row == old(row).(status := to, version := old(row.version) + 1, acknowledgedAt := row.acknowledgedAt,
                            resolvedAt := if to == Resolved then Some(now) else old(row.resolvedAt),
                            summary := row.summary)
        && row.acknowledgedAt == (if to == Acknowledged && old(row.acknowledgedAt).None? then Some(now)
                                  else old(row.acknowledgedAt))
        && (to == Resolved ==> row.summary.Some? && Trimmed(summary.value, row.summary.value))
        && (to != Resolved ==> row.summary == old(row.summary)))
    {
      StripTrims(if summary.Some? then summary.value else []);
      StripBlank(if summary.Some? then summary.value else []);
      TableIsTheDiagram(row.status, to);
      if !IsLegal(row.status, to) { return Some(IllegalTransition(AllowedTargets(row.status))); }
      var text := Strip(if summary.Some? then summary.value else [], IsSpace);
      if to == Resolved && text == [] { return Some(SummaryRequired); }
      var previous := row.status;
      row := row.(status := to, version := row.version + 1);
      if to == Acknowledged && row.acknowledgedAt.None? { row := row.(acknowledgedAt := Some(now)); }
      if to == Resolved { row := row.(resolvedAt := Some(now), summary := Some(text)); }
      RecordEvent(StatusChanged(previous, to));
      error := None;
    }

    /** Records and sets field by field, so a bad assignee is found after the severity event
        has been written: the handler's rollback undoes it. */
    method UpdateIncident(p: Patch, members: set<UserId>, expected: nat) returns (error: Option<Error>)
      modifies this
      ensures match Updated(old(View()), p, members, expected)
              case Ok(d) => error == None && View() == d
              case Err(e) => error == Some(e)
      ensures old(row.version) != expected <==> error == Some(VersionConflict(old(row)))
      ensures error == Some(AssigneeNotAMember) <==>
        old(row.version) == expected && p.assigneeProvided && p.assignee != old(row.assignee)
        && p.assignee.Some? && p.assignee.value !in members
      ensures error.None? <==> old(row.version) == expected && error != Some(AssigneeNotAMember)
      ensures error.None? ==> Patched(old(View()), View(), p)
    {
      ghost var d := View();
      if Updated(d, p, members, expected).Ok? { PatchSetsWhatWasAsked(d, p, members, expected); }
      if row.version != expected { return Some(VersionConflict(row)); }
      if p.severity.Some? && p.severity.value != row.severity {
        RecordEvent(SeverityChanged(row.severity, p.severity.value));
        row := row.(severity := p.severity.value);
      }
      if p.assigneeProvided && p.assignee != row.assignee {
        if p.assignee.Some? && p.assignee.value !in members { return Some(AssigneeNotAMember); }
        RecordEvent(AssignmentChanged(row.assignee, p.assignee));
        row := row.(assignee := p.assignee);
      }
      EditFields(p);
      row := row.(version := row.version + 1);
      error := None;
    }

    method EditFields(p: Patch)
      modifies this
      ensures View() == WithFields(old(View()), p)
      ensures RecordsEdits(old(row), row, old(timeline), timeline)
    {
      EditsAreRecorded(View(), p);
      var edited: seq<Field> := [];
      if p.title.Some? && p.title.value != row.title {
        row := row.(title := p.title.value);
        edited := edited + [Title];
      }
      if p.description.Some? && p.description.value != row.description {
        row := row.(description := p.description.value);
        edited := edited + [Description];
      }
      if p.tags.Some? && p.tags.value != row.tags {
        row := row.(tags := p.tags.value);
        edited := edited + [Tags];
      }
      assert edited == EditedFields(old(row), p);
      if edited != [] { RecordEvent(Edited(edited)); }
    }

    /** The endpoint: no error leaves a trace. */
    method Serve(q: Request) returns (error: Option<Error>)
      modifies this
      ensures View() == Handle(old(View()), q)
      ensures error.None? <==> Outcome(old(View()), q).Ok?
      ensures error.Some? ==> View() == old(View()) && Outcome(old(View()), q) == Err(error.value)
      ensures q.Edit? && q.ifMatch.None? ==> error == Some(PreconditionRequired)
      ensures q.Edit? && q.ifMatch.Some? && Etag.Parse(q.ifMatch.value).Err? ==>
        error == Some(BadHeader(Etag.Parse(q.ifMatch.value).error))
      ensures q.Edit? && error.None? ==>
        q.ifMatch.Some? && Etag.Parse(q.ifMatch.value) == Ok(old(row.version)) && Patched(old(View()), View(), q.patch)
      ensures q.ChangeStatus? && error.None? ==>
        Edge(old(row.status), q.to) && row.status == q.to && row.version == old(row.version) + 1
    {
      var savedRow, savedTimeline := row, timeline;
      match q {
        case ChangeStatus(to, summary, now) => error := TransitionStatus(to, summary, now);
        case Edit(ifMatch, patch, members) =>
          if ifMatch.None? { return Some(PreconditionRequired); }
          match Etag.Parse(ifMatch.value) {
            case Err(e) => return Some(BadHeader(e));
            case Ok(expected) => error := UpdateIncident(patch, members, expected);
          }
        case Record(kind) =>
          RecordEvent(Other(kind));
          error := None;
      }
      if error.Some? { row, timeline := savedRow, savedTimeline; }
    }
  }
}
