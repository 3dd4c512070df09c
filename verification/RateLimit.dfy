/** The sliding-window limiter for one key, with its Redis round trips as separate steps.

    A check is one atomic pipeline (trim, add, count, refresh the TTL) and, for a refused
    attempt, a later removal and a later read of the oldest member.  Between those steps
    other requests see the refused member.  `now` is the caller's time stamp and `at` the
    moment Redis runs the command, `at - now` later; stamps are assumed nondecreasing in
    pipeline order. */
module RateLimit {
  import opened Wrappers

  type Id = nat
  type Time = real

  datatype Decision = Decision(allowed: bool, remaining: int, resetSeconds: int, retryAfterSeconds: int)

  datatype Phase = Refused | Removed | Decided(decision: Decision)

  datatype Attempt = Attempt(stamp: Time, phase: Phase)

  /** `last` and `lag` are the stamp of the last pipeline and how long it was on its way;
      `admitted` is the log of attempts admitted by count (attempts let through by an
      unreachable Redis are not in it). */
  datatype State = State(
    zset: map<Id, Time>, deadline: Time, clock: Time, last: Time, lag: Time,
    attempts: map<Id, Attempt>, admitted: map<Id, Time>)

  datatype Config = Config(limit: int, window: nat)

  /** No key yet: as if its last pipeline had been stamped a window before the clock started. */
  function Initial(c: Config): State {
    State(map[], 0.0, 0.0, -(c.window as real), 0.0, map[], map[])
  }

  datatype Step =
    | Pipeline(id: Id, now: Time, at: Time)
    | Unreachable(id: Id, now: Time, at: Time, executed: bool)
    | Remove(id: Id, at: Time, failed: bool)
    | ReadOldest(id: Id, at: Time, failed: bool)

  // ------------------------------------------------------------ arithmetic

  function Max(a: int, b: int): int { if a < b then b else a }

  /** Python's int() of a float: truncation toward zero. */
  function PyInt(x: real): int {
    if x >= 0.0 then x.Floor else -((-x).Floor)
  }

  function RetryAfter(window: nat, now: Time, oldest: Option<Time>): int {
    var score := if oldest.Some? then oldest.value else now;
    Max(1, PyInt(window as real - (now - score)) + 1)
  }

  // ------------------------------------------------------- Redis commands

  /** The key as Redis sees it at `at`: gone from the moment after its deadline. */
  function Alive(s: State, at: Time): map<Id, Time> {
    if s.deadline < at then map[] else s.zset
  }

  /** ZREMRANGEBYSCORE key 0 cutoff. */
  function Trim(zset: map<Id, Time>, cutoff: Time): map<Id, Time> {
    map id | id in zset && !(0.0 <= zset[id] <= cutoff) :: zset[id]
  }

  function Delete(zset: map<Id, Time>, id: Id): map<Id, Time> {
    map i | i in zset && i != id :: zset[i]
  }

  ghost predicate IsOldest(zset: map<Id, Time>, oldest: Option<Time>) {
    match oldest
    case None => zset == map[]
    case Some(score) => (exists id :: id in zset && zset[id] == score) && forall id :: id in zset ==> score <= zset[id]
  }

  lemma {:induction false} OldestExists(zset: map<Id, Time>)
    ensures exists oldest :: IsOldest(zset, oldest)
    decreases |zset|
  {
    if zset == map[] {
      assert IsOldest(zset, None);
    } else {
      var id :| id in zset;
      var rest := Delete(zset, id);
      assert rest.Keys == zset.Keys - {id};
      OldestExists(rest);
      assert forall i :: i in zset ==> i == id || (i in rest && rest[i] == zset[i]);
      var first :| IsOldest(rest, first);
      if first.Some? && first.value <= zset[id] {
        var j :| j in rest && rest[j] == first.value;
        assert zset[j] == first.value;
        assert IsOldest(zset, first);
      } else {
        assert IsOldest(zset, Some(zset[id]));
      }
    }
  }

  ghost function Oldest(zset: map<Id, Time>): (oldest: Option<Time>)
    ensures IsOldest(zset, oldest)
  {
    OldestExists(zset);
    var oldest :| IsOldest(zset, oldest);
    oldest
  }

  // ----------------------------------------------------------------- steps

  function Window(admitted: map<Id, Time>, window: nat, t: Time): set<Id> {
    set id | id in admitted && t - window as real < admitted[id] <= t
  }

  predicate Enabled(s: State, step: Step) {
    match step
    case Pipeline(id, now, at) => id !in s.attempts && 0.0 <= now && s.last <= now <= at && s.clock <= at
    case Unreachable(id, now, at, _) => id !in s.attempts && 0.0 <= now && s.last <= now <= at && s.clock <= at
    case Remove(id, at, _) => id in s.attempts && s.attempts[id].phase == Refused && s.clock <= at
    case ReadOldest(id, at, _) => id in s.attempts && s.attempts[id].phase == Removed && s.clock <= at
  }

  function FailOpen(c: Config): Decision {
    Decision(true, c.limit, c.window, 0)
  }

  /** The pipeline's effect on the key. */
  function Ran(c: Config, s: State, id: Id, now: Time, at: Time): State {
    s.(zset := Trim(Alive(s, at), now - c.window as real)[id := now],
       deadline := at + c.window as real, clock := at, last := now, lag := at - now)
  }

  function Mark(s: State, id: Id, a: Attempt): State {
    s.(attempts := s.attempts[id := a])
  }

  ghost function Next(c: Config, s: State, step: Step): State
    requires Enabled(s, step)
  {
    match step
    case Pipeline(id, now, at) =>
      var s1 := Ran(c, s, id, now, at);
      var count := |s1.zset|;
      if count > c.limit then Mark(s1, id, Attempt(now, Refused))
      else
        Mark(s1, id, Attempt(now, Decided(Decision(true, Max(0, c.limit - count), c.window, 0))))
          .(admitted := s.admitted[id := now])
    case Unreachable(id, now, at, executed) =>
      var s1 := if executed then Ran(c, s, id, now, at) else s.(clock := at);
      Mark(s1, id, Attempt(now, Decided(FailOpen(c))))
    case Remove(id, at, failed) =>
      var a := s.attempts[id];
      if failed then Mark(s.(clock := at), id, a.(phase := Decided(FailOpen(c))))
      else Mark(s.(zset := Delete(Alive(s, at), id), clock := at), id, a.(phase := Removed))
    case ReadOldest(id, at, failed) =>
      var a := s.attempts[id];
      var retry := RetryAfter(c.window, a.stamp, Oldest(Alive(s, at)));
      Mark(s.(zset := Alive(s, at), clock := at), id,
           a.(phase := Decided(if failed then FailOpen(c) else Decision(false, 0, retry, retry))))
  }

  /** A pipeline that finds the key expired is stamped a whole window after the last one. */
  predicate Punctual(c: Config, s: State, step: Step) {
    match step
    case Pipeline(_, now, at) => s.deadline < at ==> s.last + c.window as real <= now
    case Unreachable(_, now, at, executed) => executed && s.deadline < at ==> s.last + c.window as real <= now
    case _ => true
  }

  ghost predicate Valid(c: Config, s: State, steps: seq<Step>)
    decreases |steps|
  {
    steps == [] || (Enabled(s, steps[0]) && Valid(c, Next(c, s, steps[0]), steps[1..]))
  }

  ghost predicate PunctualRun(c: Config, s: State, steps: seq<Step>)
    requires Valid(c, s, steps)
    decreases |steps|
  {
    steps == [] || (Punctual(c, s, steps[0]) && PunctualRun(c, Next(c, s, steps[0]), steps[1..]))
  }

  ghost function Exec(c: Config, s: State, steps: seq<Step>): State
    requires Valid(c, s, steps)
    decreases |steps|
  {
    if steps == [] then s else Exec(c, Next(c, s, steps[0]), steps[1..])
  }

  // ------------------------------------------------------- window safety

  ghost predicate Safe(c: Config, admitted: map<Id, Time>) {
    forall t :: |Window(admitted, c.window, t)| <= Max(0, c.limit)
  }

  ghost predicate LogOk(s: State) {
    forall id :: id in s.admitted ==>
      id in s.attempts && 0.0 <= s.admitted[id] <= s.last && s.attempts[id].phase.Decided?
  }

  ghost predicate MembersOk(s: State) {
    && (forall id :: id in s.zset ==> id in s.attempts && 0.0 <= s.zset[id] <= s.last)
    && (forall id :: id in s.zset && id in s.admitted ==> s.zset[id] == s.admitted[id])
  }

  /** Unless the TTL has run out, the key holds every admission of the current window. */
  ghost predicate Covers(c: Config, s: State) {
    s.clock <= s.deadline ==>
      forall id :: id in s.admitted && s.admitted[id] > s.last - c.window as real ==> id in s.zset
  }

  /** No member is more than a window older than an attempt that is still being refused. */
  ghost predicate RefusalsOk(c: Config, s: State) {
    && (forall id :: id in s.attempts && !s.attempts[id].phase.Decided? ==> s.attempts[id].stamp <= s.last)
    && (forall id, i :: id in s.attempts && !s.attempts[id].phase.Decided? && i in s.zset ==>
          s.attempts[id].stamp - c.window as real <= s.zset[i])
  }

  predicate TimesOk(c: Config, s: State) {
    && -(c.window as real) <= s.last <= s.clock && 0.0 <= s.lag && 0.0 <= s.clock
    && s.deadline == s.last + s.lag + c.window as real
  }

  /** What every run keeps, punctual or not. */
  ghost predicate Sound(c: Config, s: State) {
    LogOk(s) && MembersOk(s) && RefusalsOk(c, s) && TimesOk(c, s)
  }

  /** What every punctual run keeps. */
  ghost predicate Inv(c: Config, s: State) {
    Sound(c, s) && Covers(c, s) && Safe(c, s.admitted)
  }

  lemma CardinalitySubset<T>(a: set<T>, b: set<T>)
    requires a <= b
    ensures |a| <= |b|
  {
    assert b == a + (b - a);
    assert a !! (b - a);
    assert |b| == |a| + |b - a|;
  }

  /** At an unexpired or expired key alike, what the pipeline leaves covers its window. */
  lemma PipelineCovers(c: Config, s: State, id: Id, now: Time, at: Time)
    requires Inv(c, s) && Enabled(s, Pipeline(id, now, at)) && Punctual(c, s, Pipeline(id, now, at))
    ensures forall i :: i in s.admitted && s.admitted[i] > now - c.window as real ==>
      i in Ran(c, s, id, now, at).zset && Ran(c, s, id, now, at).zset[i] == s.admitted[i]
  {}

  /** When the TTL is unobservable: trimming the key Redis still holds and trimming the key it
      would hold without a TTL leave the same members, if and only if the key is alive or all
      its members have left the caller's window. */
  lemma ExpiryIsUnobservable(c: Config, s: State, id: Id, now: Time, at: Time)
    requires Sound(c, s) && Enabled(s, Pipeline(id, now, at))
    ensures Trim(Alive(s, at), now - c.window as real) == Trim(s.zset, now - c.window as real)
       <==> at <= s.deadline || forall i :: i in s.zset ==> s.zset[i] <= now - c.window as real
    ensures Punctual(c, s, Pipeline(id, now, at)) ==>
      Trim(Alive(s, at), now - c.window as real) == Trim(s.zset, now - c.window as real)
  {
    var cutoff := now - c.window as real;
    if s.deadline < at && exists i :: i in s.zset && s.zset[i] > cutoff {
      var i :| i in s.zset && s.zset[i] > cutoff;
      assert i in Trim(s.zset, cutoff) && i !in Trim(Alive(s, at), cutoff);
    }
  }

  lemma AdmitKeepsSafe(c: Config, s: State, id: Id, now: Time, at: Time)
    requires Inv(c, s) && Enabled(s, Pipeline(id, now, at)) && Punctual(c, s, Pipeline(id, now, at))
    requires |Ran(c, s, id, now, at).zset| <= c.limit
    ensures Safe(c, s.admitted[id := now])
  {
    var admitted := s.admitted[id := now];
    var zset := Ran(c, s, id, now, at).zset;
    PipelineCovers(c, s, id, now, at);
    forall t ensures |Window(admitted, c.window, t)| <= Max(0, c.limit) {
      if t < now {
        assert Window(admitted, c.window, t) == Window(s.admitted, c.window, t);
      } else {
        assert Window(admitted, c.window, t) <= zset.Keys;
        CardinalitySubset(Window(admitted, c.window, t), zset.Keys);
        assert |zset.Keys| == |zset|;
      }
    }
  }

  lemma RanMembers(c: Config, s: State, id: Id, now: Time, at: Time, a: Attempt)
    requires MembersOk(s) && TimesOk(c, s) && id !in s.admitted && Enabled(s, Pipeline(id, now, at))
    ensures MembersOk(Mark(Ran(c, s, id, now, at), id, a))
  {}

  lemma RanRefusals(c: Config, s: State, id: Id, now: Time, at: Time, a: Attempt)
    requires MembersOk(s) && RefusalsOk(c, s) && Enabled(s, Pipeline(id, now, at)) && a.stamp == now
    ensures RefusalsOk(c, Mark(Ran(c, s, id, now, at), id, a))
  {
    var s' := Mark(Ran(c, s, id, now, at), id, a);
    forall j, i | j in s'.attempts && !s'.attempts[j].phase.Decided? && i in s'.zset
      ensures s'.attempts[j].stamp - c.window as real <= s'.zset[i]
    {
      assert s'.attempts[j].stamp <= now;
      assert s'.zset[i] >= now - c.window as real;
    }
  }

  lemma RanKeepsSound(c: Config, s: State, id: Id, now: Time, at: Time, a: Attempt)
    requires Sound(c, s) && Enabled(s, Pipeline(id, now, at)) && a.stamp == now
    ensures Sound(c, Mark(Ran(c, s, id, now, at), id, a))
  {
    RanMembers(c, s, id, now, at, a);
    RanRefusals(c, s, id, now, at, a);
  }

  /** A pipeline that counts at most `limit` members is admitted. */
  lemma Admits(c: Config, s: State, id: Id, now: Time, at: Time)
    requires Enabled(s, Pipeline(id, now, at)) && |Ran(c, s, id, now, at).zset| <= c.limit
    ensures Next(c, s, Pipeline(id, now, at))
         == Mark(Ran(c, s, id, now, at), id, Room(c, s, id, now, at)).(admitted := s.admitted[id := now])
  {}

  /** An attempt that is let in. */
  ghost function Room(c: Config, s: State, id: Id, now: Time, at: Time): Attempt {
    Attempt(now, Decided(Decision(true, Max(0, c.limit - |Ran(c, s, id, now, at).zset|), c.window, 0)))
  }

  /** The log may take a member the key has just gained. */
  lemma LogAdmitted(s: State, id: Id, now: Time)
    requires LogOk(s) && MembersOk(s) && id in s.zset && s.zset[id] == now == s.last
    requires id in s.attempts && s.attempts[id].phase.Decided?
    ensures LogOk(s.(admitted := s.admitted[id := now])) && MembersOk(s.(admitted := s.admitted[id := now]))
  {}

  /** An undecided attempt moves on; the key loses at most its member, or expires. */
  lemma ShrinkKeepsSound(c: Config, s: State, zset: map<Id, Time>, id: Id, at: Time, a: Attempt)
    requires Sound(c, s) && s.clock <= at
    requires id in s.attempts && !s.attempts[id].phase.Decided? && a.stamp == s.attempts[id].stamp
    requires forall i :: i in zset ==> i in s.zset && zset[i] == s.zset[i]
    ensures Sound(c, Mark(s.(zset := zset, clock := at), id, a))
  {}

  lemma SoundNext(c: Config, s: State, step: Step)
    requires Sound(c, s) && Enabled(s, step)
    ensures Sound(c, Next(c, s, step))
  {
    match step
    case Pipeline(id, now, at) =>
      if |Ran(c, s, id, now, at).zset| <= c.limit {
        Admits(c, s, id, now, at);
        RanKeepsSound(c, s, id, now, at, Room(c, s, id, now, at));
        LogAdmitted(Mark(Ran(c, s, id, now, at), id, Room(c, s, id, now, at)), id, now);
      } else {
        RanKeepsSound(c, s, id, now, at, Attempt(now, Refused));
      }
    case Unreachable(id, now, at, executed) =>
      if executed { RanKeepsSound(c, s, id, now, at, Attempt(now, Decided(FailOpen(c)))); }
    case _ =>
      var s' := Next(c, s, step);
      ShrinkKeepsSound(c, s, s'.zset, step.id, step.at, s'.attempts[step.id]);
  }

  /** Removing a refused member, or finding the key expired, loses no admission. */
  lemma CoversNext(c: Config, s: State, step: Step)
    requires Inv(c, s) && Enabled(s, step) && Punctual(c, s, step)
    ensures Covers(c, Next(c, s, step))
  {
    match step
    case Pipeline(id, now, at) => PipelineCovers(c, s, id, now, at);
    case Unreachable(id, now, at, _) => if step.executed { PipelineCovers(c, s, id, now, at); }
    case _ =>
  }

  lemma InvNext(c: Config, s: State, step: Step)
    requires Inv(c, s) && Enabled(s, step) && Punctual(c, s, step)
    ensures Inv(c, Next(c, s, step))
  {
    SoundNext(c, s, step);
    CoversNext(c, s, step);
    if step.Pipeline? && |Ran(c, s, step.id, step.now, step.at).zset| <= c.limit {
      AdmitKeepsSafe(c, s, step.id, step.now, step.at);
    }
  }

  lemma {:induction false} InvRun(c: Config, s: State, steps: seq<Step>)
    requires Inv(c, s) && Valid(c, s, steps) && PunctualRun(c, s, steps)
    ensures Inv(c, Exec(c, s, steps))
    decreases |steps|
  {
    if steps != [] {
      InvNext(c, s, steps[0]);
      InvRun(c, Next(c, s, steps[0]), steps[1..]);
    }
  }

  /** However checks of one key interleave, every window (t - W, t] holds at most `limit`
      attempts admitted by count. */
  lemma WindowSafety(c: Config, steps: seq<Step>, t: Time)
    requires Valid(c, Initial(c), steps) && PunctualRun(c, Initial(c), steps)
    ensures |Window(Exec(c, Initial(c), steps).admitted, c.window, t)| <= Max(0, c.limit)
  {
    InvRun(c, Initial(c), steps);
  }

  // ------------------------------------------------- what a refusal counts

  /** Members that were never admitted and are still in the key: refused attempts that have not
      removed themselves yet, and attempts let through when their pipeline's reply was lost. */
  ghost function Lingering(c: Config, s: State, now: Time): set<Id> {
    set id | id in s.zset && id !in s.admitted && s.zset[id] > now - c.window as real
  }

  lemma PipelineMembers(c: Config, s: State, id: Id, now: Time, at: Time)
    requires Inv(c, s) && Enabled(s, Pipeline(id, now, at)) && Punctual(c, s, Pipeline(id, now, at))
    ensures Ran(c, s, id, now, at).zset.Keys == Window(s.admitted, c.window, now) + Lingering(c, s, now) + {id}
  {
    PipelineCovers(c, s, id, now, at);
  }

  lemma PipelineCount(c: Config, s: State, id: Id, now: Time, at: Time)
    requires Inv(c, s) && Enabled(s, Pipeline(id, now, at)) && Punctual(c, s, Pipeline(id, now, at))
    ensures |Ran(c, s, id, now, at).zset| == |Window(s.admitted, c.window, now)| + |Lingering(c, s, now)| + 1
  {
    PipelineMembers(c, s, id, now, at);
    var zset := Ran(c, s, id, now, at).zset;
    var spent, others := Window(s.admitted, c.window, now), Lingering(c, s, now);
    assert spent !! others && id !in spent + others;
    assert |zset| == |zset.Keys| == |spent + others| + 1;
    assert |spent + others| == |spent| + |others|;
  }

  /** An attempt is refused exactly when the admissions of its window and the lingering members
      together reach the limit: the answer is the log's unless someone lingers.  Otherwise it
      is admitted, and told the room that is left and the window. */
  lemma RefusedExactlyWhen(c: Config, s: State, id: Id, now: Time, at: Time)
    requires Inv(c, s) && Enabled(s, Pipeline(id, now, at)) && Punctual(c, s, Pipeline(id, now, at))
    ensures Next(c, s, Pipeline(id, now, at)).attempts[id].phase == Refused
       <==> |Window(s.admitted, c.window, now)| + |Lingering(c, s, now)| >= c.limit
    ensures var s' := Next(c, s, Pipeline(id, now, at));
      var room := c.limit - |Window(s.admitted, c.window, now)| - |Lingering(c, s, now)| - 1;
      if room < 0 then s'.admitted == s.admitted
      else s'.admitted == s.admitted[id := now]
           && s'.attempts[id].phase == Decided(Decision(true, room, c.window, 0))
  {
    PipelineCount(c, s, id, now, at);
    if |Ran(c, s, id, now, at).zset| <= c.limit { Admits(c, s, id, now, at); }
  }

  /** When Redis cannot be reached at any of its round trips the attempt is let in with the
      whole limit reported as left. */
  lemma UnreachableFailsOpen(c: Config, s: State, step: Step)
    requires Enabled(s, step)
    requires step.Unreachable? || (step.Remove? && step.failed) || (step.ReadOldest? && step.failed)
    ensures Next(c, s, step).attempts[step.id].phase == Decided(Decision(true, c.limit, c.window, 0))
    ensures Next(c, s, step).admitted == s.admitted
  {}

  /** Retry-after is at least one second, and at most W + 1 exactly when the oldest member
      is less than a second newer than the refused stamp. */
  lemma RetryAfterBound(window: nat, now: Time, oldest: Option<Time>)
    ensures 1 <= RetryAfter(window, now, oldest)
    ensures RetryAfter(window, now, oldest) <= window + 1 <==> oldest.None? || oldest.value < now + 1.0
    ensures oldest.None? ==> RetryAfter(window, now, oldest) == window + 1
    ensures oldest.Some? && now - window as real <= oldest.value ==>
      var retry := RetryAfter(window, now, oldest);
      (retry - 1) as real <= window as real - (now - oldest.value) < retry as real
  {}

  lemma {:induction false} SoundRun(c: Config, s: State, steps: seq<Step>)
    requires Sound(c, s) && Valid(c, s, steps)
    ensures Sound(c, Exec(c, s, steps))
    decreases |steps|
  {
    if steps != [] {
      SoundNext(c, s, steps[0]);
      SoundRun(c, Next(c, s, steps[0]), steps[1..]);
    }
  }

  /** `retry` is the first whole second by which the oldest member of the key will have left a
      window that ends `retry` after `now`, or W + 1 if there is none. */
  ghost predicate WaitsFor(window: nat, now: Time, zset: map<Id, Time>, retry: int) {
    && (zset == map[] ==> retry == window + 1)
    && (forall i :: i in zset && (forall j :: j in zset ==> zset[i] <= zset[j]) && now - window as real <= zset[i] ==>
          (retry - 1) as real <= window as real - (now - zset[i]) < retry as real)
  }

  /** The retry-after a refused attempt is given after any run and under any interleaving: the
      first whole second by which the oldest member it reads has left a window that starts at
      the attempt, or W + 1 if it reads none.  So it is at least one second, and at most W + 1
      exactly when the key is empty or holds a member less than a second newer than the
      attempt; no member is more than a window older. */
  lemma OldestWait(window: nat, now: Time, zset: map<Id, Time>)
    ensures WaitsFor(window, now, zset, RetryAfter(window, now, Oldest(zset)))
  {
    RetryAfterBound(window, now, Oldest(zset));
    forall i | i in zset && forall j :: j in zset ==> zset[i] <= zset[j] ensures Oldest(zset) == Some(zset[i]) {
      assert IsOldest(zset, Oldest(zset));
    }
  }

  lemma RetryAfterExactly(c: Config, steps: seq<Step>, id: Id, at: Time)
    requires Valid(c, Initial(c), steps) && Enabled(Exec(c, Initial(c), steps), ReadOldest(id, at, false))
    ensures var s := Exec(c, Initial(c), steps);
      var a, zset := Next(c, s, ReadOldest(id, at, false)).attempts[id], Alive(s, at);
      a.phase.Decided? &&
      var retry := a.phase.decision.retryAfterSeconds;
      && a.phase.decision == Decision(false, 0, retry, retry)
      && WaitsFor(c.window, a.stamp, zset, retry)
      && (forall i :: i in zset ==> a.stamp - c.window as real <= zset[i])
      && 1 <= retry && (retry <= c.window + 1 <==> zset == map[] || exists i :: i in zset && zset[i] < a.stamp + 1.0)
  {
    SoundRun(c, Initial(c), steps);
    var s := Exec(c, Initial(c), steps);
    RetryAfterBound(c.window, s.attempts[id].stamp, Oldest(Alive(s, at)));
    OldestWait(c.window, s.attempts[id].stamp, Alive(s, at));
  }

  // ------------------------------------------------- which delays are safe

  /** Every pipeline is between `lo` and `hi` on its way. */
  predicate Delayed(lo: real, hi: real, step: Step) {
    match step
    case Pipeline(_, now, at) => lo <= at - now <= hi
    case Unreachable(_, now, at, executed) => executed ==> lo <= at - now <= hi
    case _ => true
  }

  ghost predicate DelayedRun(lo: real, hi: real, steps: seq<Step>) {
    forall i :: 0 <= i < |steps| ==> Delayed(lo, hi, steps[i])
  }

  /** With equal delays the key is never found expired inside a window. */
  lemma {:induction false} EqualDelaysArePunctual(c: Config, s: State, steps: seq<Step>, lo: real, hi: real)
    requires Inv(c, s) && Valid(c, s, steps) && DelayedRun(lo, hi, steps) && lo >= hi
    requires s.last == -(c.window as real) || s.lag == lo
    ensures PunctualRun(c, s, steps)
    decreases |steps|
  {
    if steps != [] {
      var step := steps[0];
      assert Delayed(lo, hi, step);
      assert Punctual(c, s, step);
      InvNext(c, s, step);
      forall i | 0 <= i < |steps[1..]| ensures Delayed(lo, hi, steps[1..][i]) { assert Delayed(lo, hi, steps[i + 1]); }
      EqualDelaysArePunctual(c, Next(c, s, step), steps[1..], lo, hi);
    }
  }

  ghost predicate DelayReachable(c: Config, lo: real, hi: real, s: State) {
    exists steps :: Valid(c, Initial(c), steps) && DelayedRun(lo, hi, steps) && Exec(c, Initial(c), steps) == s
  }

  lemma GoDelayed(c: Config, lo: real, hi: real, s: State, step: Step) returns (s': State)
    requires DelayReachable(c, lo, hi, s) && Enabled(s, step) && Delayed(lo, hi, step)
    ensures s' == Next(c, s, step) && DelayReachable(c, lo, hi, s')
  {
    var steps :| Valid(c, Initial(c), steps) && DelayedRun(lo, hi, steps) && Exec(c, Initial(c), steps) == s;
    Snoc(c, Initial(c), steps, step);
    s' := Next(c, s, step);
    assert DelayedRun(lo, hi, steps + [step]);
  }

  /** k members, all stamped 0. */
  function Zeros(k: nat): (m: map<Id, Time>)
    ensures |m| == k && (forall i: Id :: i in m <==> i < k) && forall i :: i in m ==> m[i] == 0.0
  {
    if k == 0 then map[]
    else
      assert k - 1 !in Zeros(k - 1);
      Zeros(k - 1)[k - 1 := 0.0]
  }

  /** `k` attempts stamped 0 arrive together and are all admitted. */
  lemma {:induction false} Burst(c: Config, lo: real, hi: real, k: nat) returns (s: State)
    requires c.window >= 1 && 0.0 <= lo <= hi && k <= c.limit
    ensures DelayReachable(c, lo, hi, s) && s.zset == s.admitted == Zeros(k) && s.attempts.Keys == Zeros(k).Keys
    ensures if k == 0 then s == Initial(c) else s.last == 0.0 && s.clock == lo && s.deadline == lo + c.window as real
    decreases k
  {
    if k == 0 {
      s := Initial(c);
      assert Valid(c, s, []) && DelayedRun(lo, hi, []) && Exec(c, s, []) == s;
    } else {
      var s1 := Burst(c, lo, hi, k - 1);
      BurstStep(c, s1, k, lo);
      s := GoDelayed(c, lo, hi, s1, Pipeline(k - 1, 0.0, lo));
    }
  }

  lemma BurstStep(c: Config, s: State, k: nat, lo: real)
    requires c.window >= 1 && 0.0 <= lo && 1 <= k <= c.limit
    requires s.zset == s.admitted == Zeros(k - 1) && s.attempts.Keys == Zeros(k - 1).Keys
    requires if k == 1 then s == Initial(c) else s.last == 0.0 && s.clock == lo && s.deadline == lo + c.window as real
    ensures Enabled(s, Pipeline(k - 1, 0.0, lo))
    ensures var s' := Next(c, s, Pipeline(k - 1, 0.0, lo));
      && s'.zset == s'.admitted == Zeros(k) && s'.attempts.Keys == Zeros(k).Keys
      && s'.last == 0.0 && s'.clock == lo && s'.deadline == lo + c.window as real
  {
    assert Alive(s, lo) == s.zset;
    assert Trim(s.zset, 0.0 - c.window as real) == s.zset;
    Admits(c, s, k - 1, 0.0, lo);
  }

  /** One attempt more, met when the key has just expired but stamped inside the window. */
  lemma UnequalDelaysOverrun(c: Config, lo: real, hi: real) returns (s: State)
    requires c.limit >= 1 && c.window >= 1 && 0.0 <= lo < hi
    ensures DelayReachable(c, lo, hi, s) && !Safe(c, s.admitted)
  {
    var w := c.window as real;
    var extra := if hi - lo < w then hi - lo else w;
    var s1 := Burst(c, lo, hi, c.limit);
    var now, at := w - extra / 2.0, lo + w + extra / 2.0;
    assert Trim(Alive(s1, at), now - w) == map[];
    assert |map[c.limit := now]| == 1;
    Admits(c, s1, c.limit, now, at);
    s := GoDelayed(c, lo, hi, s1, Pipeline(c.limit, now, at));
    OverfullWindow(c, c.limit, now);
  }

  lemma OverfullWindow(c: Config, n: nat, now: Time)
    requires 0.0 <= now < c.window as real && n == c.limit
    ensures !Safe(c, Zeros(n)[n := now])
  {
    assert Window(Zeros(n)[n := now], c.window, now) == Zeros(n + 1).Keys;
    assert |Zeros(n + 1).Keys| == |Zeros(n + 1)|;
  }

  /** The limit holds in every window of every run whose delays lie in [lo, hi], exactly when
      the delays cannot differ. */
  lemma SafeExactlyWhen(c: Config, lo: real, hi: real)
    requires c.limit >= 1 && c.window >= 1 && 0.0 <= lo
    ensures (forall s :: DelayReachable(c, lo, hi, s) ==> Safe(c, s.admitted)) <==> lo >= hi
  {
    if lo >= hi {
      forall s | DelayReachable(c, lo, hi, s) ensures Safe(c, s.admitted) {
        var steps :| Valid(c, Initial(c), steps) && DelayedRun(lo, hi, steps) && Exec(c, Initial(c), steps) == s;
        EqualDelaysArePunctual(c, Initial(c), steps, lo, hi);
        InvRun(c, Initial(c), steps);
      }
    } else {
      var s := UnequalDelaysOverrun(c, lo, hi);
    }
  }

  // -------------------------------------------------- where promises stop

  /** A stamp delayed past the TTL: the key has expired with a member still inside the
      caller's window, and a second attempt is admitted where the limit is one. */
  lemma LateStampOverruns()
    ensures exists c, s1, s2, s3 ::
      && c == Config(1, 60) && s1 == Initial(c)
      && Enabled(s1, Pipeline(1, 100.0, 100.0)) && s2 == Next(c, s1, Pipeline(1, 100.0, 100.0))
      && Enabled(s2, Pipeline(2, 101.0, 161.0)) && s3 == Next(c, s2, Pipeline(2, 101.0, 161.0))
      && |Window(s3.admitted, 60, 101.0)| == 2
  {
    var c := Config(1, 60);
    var s1 := Initial(c);
    assert Ran(c, s1, 1, 100.0, 100.0).zset == map[1 := 100.0];
    var s2 := Next(c, s1, Pipeline(1, 100.0, 100.0));
    assert Ran(c, s2, 2, 101.0, 161.0).zset == map[2 := 101.0];
    var s3 := Next(c, s2, Pipeline(2, 101.0, 161.0));
    assert Window(s3.admitted, 60, 101.0) == {1, 2};
  }

  /** Reached by a punctual run. */
  ghost predicate Reachable(c: Config, s: State) {
    exists steps :: Valid(c, Initial(c), steps) && PunctualRun(c, Initial(c), steps) && Exec(c, Initial(c), steps) == s
  }

  lemma ReachableInv(c: Config, s: State)
    requires Reachable(c, s)
    ensures Inv(c, s)
  {
    var steps :| Valid(c, Initial(c), steps) && PunctualRun(c, Initial(c), steps) && Exec(c, Initial(c), steps) == s;
    InvRun(c, Initial(c), steps);
  }

  lemma {:induction false} Snoc(c: Config, s: State, steps: seq<Step>, last: Step)
    requires Valid(c, s, steps) && Enabled(Exec(c, s, steps), last)
    ensures Valid(c, s, steps + [last]) && Exec(c, s, steps + [last]) == Next(c, Exec(c, s, steps), last)
    ensures PunctualRun(c, s, steps) && Punctual(c, Exec(c, s, steps), last) ==> PunctualRun(c, s, steps + [last])
    decreases |steps|
  {
    var all := steps + [last];
    if steps == [] {
      assert all[1..] == [];
    } else {
      Snoc(c, Next(c, s, steps[0]), steps[1..], last);
      assert all[1..] == steps[1..] + [last];
    }
  }

  lemma Go(c: Config, s: State, step: Step) returns (s': State)
    requires Reachable(c, s) && Enabled(s, step) && Punctual(c, s, step)
    ensures s' == Next(c, s, step) && Reachable(c, s')
  {
    var steps :| Valid(c, Initial(c), steps) && PunctualRun(c, Initial(c), steps) && Exec(c, Initial(c), steps) == s;
    Snoc(c, Initial(c), steps, step);
    s' := Next(c, s, step);
  }

  const ONE: Config := Config(1, 60)
  const FIRST: Attempt := Attempt(1.0, Decided(Decision(true, 0, 60, 0)))

  lemma OneAdmitted() returns (s: State)
    ensures Reachable(ONE, s)
    ensures s == State(map[1 := 1.0], 61.0, 1.0, 1.0, 0.0, map[1 := FIRST], map[1 := 1.0])
  {
    assert Valid(ONE, Initial(ONE), []) && PunctualRun(ONE, Initial(ONE), []) && Exec(ONE, Initial(ONE), []) == Initial(ONE);
    assert Ran(ONE, Initial(ONE), 1, 1.0, 1.0).zset == map[1 := 1.0];
    s := Go(ONE, Initial(ONE), Pipeline(1, 1.0, 1.0));
  }

  /** A pipeline that finds more than `limit` members leaves its own among them. */
  lemma Refuses(c: Config, s: State, id: Id, now: Time, at: Time, zset: map<Id, Time>)
    requires Enabled(s, Pipeline(id, now, at)) && Ran(c, s, id, now, at).zset == zset && |zset| > c.limit
    ensures Next(c, s, Pipeline(id, now, at))
         == State(zset, at + c.window as real, at, now, at - now, s.attempts[id := Attempt(now, Refused)], s.admitted)
  {}

  lemma TwoMembers(i: Id, j: Id, x: Time, y: Time)
    requires i != j
    ensures |map[i := x, j := y]| == 2
  {
    assert map[i := x, j := y].Keys == {i, j};
  }

  lemma OneRefused() returns (s: State)
    ensures Reachable(ONE, s)
    ensures s == State(map[1 := 1.0, 2 := 60.0], 120.0, 60.0, 60.0, 0.0,
                       map[1 := FIRST, 2 := Attempt(60.0, Refused)], map[1 := 1.0])
  {
    s := OneAdmitted();
    TwoMembers(1, 2, 1.0, 60.0);
    Refuses(ONE, s, 2, 60.0, 60.0, map[1 := 1.0, 2 := 60.0]);
    s := Go(ONE, s, Pipeline(2, 60.0, 60.0));
  }

  /** Attempt 3 is refused although its window holds no admission at all: it counted the
      refused attempt 2, which had not removed itself yet. */
  lemma TwoRefused() returns (s: State)
    ensures Reachable(ONE, s) && Window(s.admitted, 60, 62.0) == {}
    ensures s == State(map[2 := 60.0, 3 := 62.0], 122.0, 62.0, 62.0, 0.0,
                       map[1 := FIRST, 2 := Attempt(60.0, Refused), 3 := Attempt(62.0, Refused)], map[1 := 1.0])
  {
    s := OneRefused();
    TwoMembers(2, 3, 60.0, 62.0);
    Refuses(ONE, s, 3, 62.0, 62.0, map[2 := 60.0, 3 := 62.0]);
    s := Go(ONE, s, Pipeline(3, 62.0, 62.0));
  }

  /** Interleaving can break the upper bound: attempt 2 reads, as oldest, the member of the
      later attempt 3, and is told to wait longer than the window. */
  lemma InterleavingOverstates() returns (s: State)
    ensures Reachable(ONE, s)
    ensures 2 in s.attempts && s.attempts[2].phase == Decided(Decision(false, 0, 63, 63))
  {
    s := OneRemoved();
    assert 3 in s.zset && Oldest(s.zset) == Some(62.0);
    assert Alive(s, 62.0) == s.zset;
    s := Go(ONE, s, ReadOldest(2, 62.0, false));
  }

  lemma Removes(c: Config, s: State, id: Id, at: Time, zset: map<Id, Time>)
    requires Enabled(s, Remove(id, at, false)) && Delete(Alive(s, at), id) == zset
    ensures Next(c, s, Remove(id, at, false))
         == State(zset, s.deadline, at, s.last, s.lag, s.attempts[id := Attempt(s.attempts[id].stamp, Removed)], s.admitted)
  {}

  lemma OneRemoved() returns (s: State)
    ensures Reachable(ONE, s)
    ensures s == State(map[3 := 62.0], 122.0, 62.0, 62.0, 0.0,
                       map[1 := FIRST, 2 := Attempt(60.0, Removed), 3 := Attempt(62.0, Refused)], map[1 := 1.0])
  {
    var s1 := TwoRefused();
    assert Alive(s1, 62.0) == s1.zset;
    assert Delete(s1.zset, 2) == map[3 := 62.0];
    Removes(ONE, s1, 2, 62.0, map[3 := 62.0]);
    assert s1.attempts[2 := Attempt(60.0, Removed)]
        == map[1 := FIRST, 2 := Attempt(60.0, Removed), 3 := Attempt(62.0, Refused)];
    s := Go(ONE, s1, Remove(2, 62.0, false));
  }
}
