/** One check at a time: the limiter is exactly a log of admissions. */
module RateLimitSequential {
  import opened Wrappers
  import opened RateLimit

  /** The moments Redis runs the pipeline, the removal and the read of one check. */
  datatype Times = Times(now: Time, pipeline: Time, remove: Time, read: Time)

  predicate Ordered(s: State, id: Id, x: Times) {
    Enabled(s, Pipeline(id, x.now, x.pipeline)) && x.pipeline <= x.remove <= x.read
  }

  /** A whole check with nobody else stepping. */
  ghost function Check(c: Config, s: State, id: Id, x: Times): State
    requires Ordered(s, id, x)
  {
    var s1 := Next(c, s, Pipeline(id, x.now, x.pipeline));
    if s1.attempts[id].phase.Decided? then s1
    else Next(c, Next(c, s1, Remove(id, x.remove, false)), ReadOldest(id, x.read, false))
  }

  ghost function DecisionOf(s: State, id: Id): Decision
    requires id in s.attempts && s.attempts[id].phase.Decided?
  {
    s.attempts[id].phase.decision
  }

  /** Between checks the key holds admissions only. */
  ghost predicate Quiet(c: Config, s: State) {
    && Inv(c, s)
    && (forall id :: id in s.zset ==> id in s.admitted && s.zset[id] == s.admitted[id])
  }

  /** The admissions a check counts: those of its window, or none if the key has expired. */
  ghost function Counted(c: Config, s: State, now: Time, at: Time): set<Id> {
    if s.deadline < at then {} else Window(s.admitted, c.window, now)
  }

  lemma OneMore(m: map<Id, Time>, id: Id, t: Time)
    requires id !in m
    ensures |m[id := t]| == |m| + 1 && |m| == |m.Keys| && m[id := t].Keys == m.Keys + {id}
  {}

  lemma KeptMembers(c: Config, s: State, now: Time, at: Time)
    requires Quiet(c, s) && s.last <= now && s.clock <= at
    ensures Trim(Alive(s, at), now - c.window as real).Keys == Counted(c, s, now, at)
  {}

  lemma PipelineCounts(c: Config, s: State, id: Id, now: Time, at: Time)
    requires Quiet(c, s) && Enabled(s, Pipeline(id, now, at))
    ensures var zset := Ran(c, s, id, now, at).zset;
      && zset.Keys == Counted(c, s, now, at) + {id}
      && |zset| == |Counted(c, s, now, at)| + 1
      && forall i :: i in zset && i != id ==> i in s.admitted && zset[i] == s.admitted[i]
  {
    var zset := Ran(c, s, id, now, at).zset;
    KeptMembers(c, s, now, at);
    var kept := Trim(Alive(s, at), now - c.window as real);
    assert id !in kept;
    OneMore(kept, id, now);
  }

  /** A punctual check counts its whole window. */
  lemma PunctualCounts(c: Config, s: State, id: Id, now: Time, at: Time)
    requires Inv(c, s) && Enabled(s, Pipeline(id, now, at)) && Punctual(c, s, Pipeline(id, now, at))
    ensures Counted(c, s, now, at) == Window(s.admitted, c.window, now)
  {}

  /** A check alone is allowed exactly when what it counts leaves room.  Its answer is the
      log's exactly unless the key has expired while the window was full. */
  lemma AllowedExactlyWhen(c: Config, s: State, id: Id, x: Times)
    requires Quiet(c, s) && Ordered(s, id, x)
    ensures var s' := Check(c, s, id, x);
      var spent := |Window(s.admitted, c.window, x.now)|;
      && id in s'.attempts && s'.attempts[id].phase.Decided?
      && (DecisionOf(s', id).allowed <==> |Counted(c, s, x.now, x.pipeline)| < c.limit)
      && ((DecisionOf(s', id).allowed <==> spent < c.limit)
          <==> !(s.deadline < x.pipeline && 1 <= c.limit <= spent))
  {
    PipelineCounts(c, s, id, x.now, x.pipeline);
    if |Ran(c, s, id, x.now, x.pipeline).zset| > c.limit {
      RefusedCheck(c, s, id, x);
    } else {
      Admits(c, s, id, x.now, x.pipeline);
    }
  }

  /** What is left in the key when a refused attempt reads the oldest member. */
  ghost function Left(c: Config, s: State, id: Id, x: Times): map<Id, Time> {
    var s1 := Ran(c, s, id, x.now, x.pipeline);
    var removed := Delete(Alive(s1, x.remove), id);
    if s1.deadline < x.read then map[] else removed
  }

  lemma RefusedCheck(c: Config, s: State, id: Id, x: Times)
    requires Ordered(s, id, x) && |Ran(c, s, id, x.now, x.pipeline).zset| > c.limit
    ensures var retry := RetryAfter(c.window, x.now, Oldest(Left(c, s, id, x)));
      Check(c, s, id, x) == Ran(c, s, id, x.now, x.pipeline).(
        zset := Left(c, s, id, x), clock := x.read,
        attempts := s.attempts[id := Attempt(x.now, Decided(Decision(false, 0, retry, retry)))])
  {
    var s1 := Next(c, s, Pipeline(id, x.now, x.pipeline));
    var s2 := Next(c, s1, Remove(id, x.remove, false));
    assert Alive(s2, x.read) == Left(c, s, id, x);
    var s3 := Next(c, s2, ReadOldest(id, x.read, false));
    assert s3.attempts == s.attempts[id := s3.attempts[id]];
  }

  lemma LeftIsAdmitted(c: Config, s: State, id: Id, x: Times)
    requires Quiet(c, s) && Ordered(s, id, x) && Punctual(c, s, Pipeline(id, x.now, x.pipeline))
    ensures forall i :: i in Left(c, s, id, x) ==>
      && i in s.admitted && Left(c, s, id, x)[i] == s.admitted[i]
      && i in Window(s.admitted, c.window, x.now)
    ensures x.read <= x.pipeline + c.window as real ==> Left(c, s, id, x).Keys == Window(s.admitted, c.window, x.now)
  {
    PipelineCounts(c, s, id, x.now, x.pipeline);
    PunctualCounts(c, s, id, x.now, x.pipeline);
  }

  /** A check is allowed iff fewer than `limit` admissions lie in (now - W, now]; `remaining`
      is exact; a refused attempt leaves no trace; and retry-after is within [1, W + 1]. */
  lemma CheckRefinesLog(c: Config, s: State, id: Id, x: Times)
    requires Quiet(c, s) && Ordered(s, id, x) && Punctual(c, s, Pipeline(id, x.now, x.pipeline))
    ensures var s' := Check(c, s, id, x);
      && Quiet(c, s') && id in s'.attempts && s'.attempts[id].phase.Decided?
    ensures var s' := Check(c, s, id, x);
      var spent := |Window(s.admitted, c.window, x.now)|;
      var d := DecisionOf(s', id);
      && (d.allowed <==> spent < c.limit)
      && d.remaining == (if d.allowed then c.limit - spent - 1 else 0)
      && s'.admitted == (if d.allowed then s.admitted[id := x.now] else s.admitted)
      && (!d.allowed ==> 1 <= d.retryAfterSeconds <= c.window + 1)
  {
    PipelineCounts(c, s, id, x.now, x.pipeline);
    PunctualCounts(c, s, id, x.now, x.pipeline);
    if |Ran(c, s, id, x.now, x.pipeline).zset| > c.limit {
      RefusedCheck(c, s, id, x);
      LeftIsAdmitted(c, s, id, x);
      OldestInWindow(c, s, id, x, Left(c, s, id, x));
      RefusedQuiet(c, s, id, x);
    } else {
      Admits(c, s, id, x.now, x.pipeline);
      InvNext(c, s, Pipeline(id, x.now, x.pipeline));
    }
  }

  lemma RefusedQuiet(c: Config, s: State, id: Id, x: Times)
    requires Quiet(c, s) && Ordered(s, id, x) && Punctual(c, s, Pipeline(id, x.now, x.pipeline))
    requires |Ran(c, s, id, x.now, x.pipeline).zset| > c.limit
    ensures Quiet(c, Check(c, s, id, x))
  {
    var p := Pipeline(id, x.now, x.pipeline);
    InvNext(c, s, p);
    var s1 := Next(c, s, p);
    InvNext(c, s1, Remove(id, x.remove, false));
    InvNext(c, Next(c, s1, Remove(id, x.remove, false)), ReadOldest(id, x.read, false));
    RefusedCheck(c, s, id, x);
    LeftIsAdmitted(c, s, id, x);
  }

  lemma OldestInWindow(c: Config, s: State, id: Id, x: Times, zset: map<Id, Time>)
    requires forall i :: i in zset ==>
      i in s.admitted && zset[i] == s.admitted[i] && i in Window(s.admitted, c.window, x.now)
    ensures var oldest := Oldest(zset);
      oldest.Some? ==> x.now - c.window as real < oldest.value <= x.now
    ensures 1 <= RetryAfter(c.window, x.now, Oldest(zset)) <= c.window + 1
  {
    var oldest := Oldest(zset);
    if oldest.Some? {
      var i :| i in zset && zset[i] == oldest.value;
      assert i in Window(s.admitted, c.window, x.now);
    }
    RetryAfterBound(c.window, x.now, oldest);
  }

  /** A refused caller that waits out retry-after, with no other admission, is allowed, however
      long its checks are on their way. */
  lemma WaitingWorks(c: Config, s: State, id: Id, x: Times, id': Id, x': Times)
    requires Quiet(c, s) && Ordered(s, id, x) && c.limit >= 1
    requires var s1 := Check(c, s, id, x);
      && id in s1.attempts && s1.attempts[id].phase.Decided? && !DecisionOf(s1, id).allowed
      && Ordered(s1, id', x')
      && x.now + DecisionOf(s1, id).retryAfterSeconds as real <= x'.now
    ensures var s2 := Check(c, Check(c, s, id, x), id', x');
      id' in s2.attempts && s2.attempts[id'].phase.Decided? && DecisionOf(s2, id').allowed
  {
    AllowedExactlyWhen(c, s, id, x);
    assert Punctual(c, s, Pipeline(id, x.now, x.pipeline));
    CheckRefinesLog(c, s, id, x);
    var s1 := Check(c, s, id, x);
    AllowedExactlyWhen(c, s1, id', x');
    PunctualCounts(c, s, id, x.now, x.pipeline);
    RefusedCheck(c, s, id, x);
    OldestLeaves(c, s, id, x, x'.now);
  }

  /** Nobody is told to wait longer than it must: with no other admission, a punctual caller
      that comes back a second or more early is refused again. */
  lemma NoShorterWait(c: Config, s: State, id: Id, x: Times, id': Id, x': Times)
    requires Quiet(c, s) && Ordered(s, id, x)
    requires var s1 := Check(c, s, id, x);
      && id in s1.attempts && s1.attempts[id].phase.Decided? && !DecisionOf(s1, id).allowed
      && Ordered(s1, id', x') && Punctual(c, s1, Pipeline(id', x'.now, x'.pipeline))
      && x'.now < x.now + (DecisionOf(s1, id).retryAfterSeconds - 1) as real
    ensures var s2 := Check(c, Check(c, s, id, x), id', x');
      id' in s2.attempts && s2.attempts[id'].phase.Decided? && !DecisionOf(s2, id').allowed
  {
    var s1 := Check(c, s, id, x);
    AllowedExactlyWhen(c, s, id, x);
    RefusedAgain(c, s, id, x);
    if c.limit <= 0 {
      assert |Ran(c, s1, id', x'.now, x'.pipeline).zset| > c.limit by {
        assert id' in Ran(c, s1, id', x'.now, x'.pipeline).zset;
      }
      RefusedCheck(c, s1, id', x');
    } else {
      CheckRefinesLog(c, s, id, x);
      CheckRefinesLog(c, s1, id', x');
      EarlyIsFull(c, s, id, x, x'.now);
    }
  }

  lemma RefusedAgain(c: Config, s: State, id: Id, x: Times)
    requires Quiet(c, s) && Ordered(s, id, x) && |Counted(c, s, x.now, x.pipeline)| >= c.limit
    ensures var s1 := Check(c, s, id, x);
      && s1.admitted == s.admitted && s1.last == x.now && s1.deadline == x.pipeline + c.window as real
      && DecisionOf(s1, id).retryAfterSeconds == RetryAfter(c.window, x.now, Oldest(Left(c, s, id, x)))
  {
    PipelineCounts(c, s, id, x.now, x.pipeline);
    RefusedCheck(c, s, id, x);
  }

  /** Until its oldest admission leaves, the window stays as full as it was. */
  lemma EarlyIsFull(c: Config, s: State, id: Id, x: Times, later: Time)
    requires Quiet(c, s) && Ordered(s, id, x) && Punctual(c, s, Pipeline(id, x.now, x.pipeline)) && c.limit >= 1
    requires |Window(s.admitted, c.window, x.now)| >= c.limit && x.now <= later
    requires later < x.now + (RetryAfter(c.window, x.now, Oldest(Left(c, s, id, x))) - 1) as real
    requires x.pipeline + c.window as real < x.read ==> x.now + c.window as real <= later
    ensures |Window(s.admitted, c.window, later)| >= c.limit
  {
    var before, after := Window(s.admitted, c.window, x.now), Window(s.admitted, c.window, later);
    var oldest := Oldest(Left(c, s, id, x));
    LeftIsAdmitted(c, s, id, x);
    OldestInWindow(c, s, id, x, Left(c, s, id, x));
    RetryAfterBound(c.window, x.now, oldest);
    assert before != {};
    forall i | i in before ensures i in after {
      assert i in Left(c, s, id, x);
      assert oldest.Some? && oldest.value <= s.admitted[i];
    }
    CardinalitySubset(before, after);
  }

  lemma OldestLeaves(c: Config, s: State, id: Id, x: Times, later: Time)
    requires Quiet(c, s) && Ordered(s, id, x) && Punctual(c, s, Pipeline(id, x.now, x.pipeline)) && c.limit >= 1
    requires |Window(s.admitted, c.window, x.now)| >= c.limit
    requires x.now + RetryAfter(c.window, x.now, Oldest(Left(c, s, id, x))) as real <= later
    ensures |Window(s.admitted, c.window, later)| < c.limit
  {
    var zset := Left(c, s, id, x);
    var oldest := Oldest(zset);
    var before := Window(s.admitted, c.window, x.now);
    var after := Window(s.admitted, c.window, later);
    LeftIsAdmitted(c, s, id, x);
    OldestInWindow(c, s, id, x, zset);
    assert |before| <= Max(0, c.limit);
    WaitPast(c.window, x.now, oldest, later);
    assert after <= before;
    if oldest.Some? {
      var i :| i in zset && zset[i] == oldest.value;
      assert i in before && i !in after;
      CardinalitySubset(after, before - {i});
    } else {
      assert after == {};
    }
  }

  lemma WaitPast(window: nat, now: Time, oldest: Option<Time>, later: Time)
    requires now + RetryAfter(window, now, oldest) as real <= later
    requires oldest.Some? ==> now - window as real < oldest.value <= now
    ensures oldest.Some? ==> oldest.value <= later - window as real
    ensures oldest.None? ==> now <= later - window as real
    ensures now <= later
  {}

  lemma OldestIsUnique(zset: map<Id, Time>, a: Option<Time>, b: Option<Time>)
    requires IsOldest(zset, a) && IsOldest(zset, b)
    ensures a == b
  {}

  /** The limiter's own code over the sorted set of one key. */
  class SlidingWindowLimiter {
    const limit: int
    const window: nat
    var zset: map<Id, Time>
    var deadline: Time
    ghost var clock: Time
    ghost var last: Time
    ghost var lag: Time
    ghost var attempts: map<Id, Attempt>
    ghost var admitted: map<Id, Time>

    ghost function Settings(): Config {
      Config(limit, window)
    }

    ghost function View(): State
      reads this
    {
      State(zset, deadline, clock, last, lag, attempts, admitted)
    }

    constructor (limit: int, window: nat)
      ensures Settings() == Config(limit, window) && View() == Initial(Settings())
    {
      this.limit, this.window := limit, window;
      zset, deadline, attempts, admitted := map[], 0.0, map[], map[];
      clock, last, lag := 0.0, -(window as real), 0.0;
    }

    /** Redis drops the key when its TTL has run out. */
    method Touch(at: Time)
      modifies this`zset
      ensures zset == Alive(old(View()), at)
    {
      if deadline < at { zset := map[]; }
    }

    method First() returns (oldest: Option<Time>)
      ensures oldest == Oldest(zset)
    {
      oldest := None;
      var todo := zset.Keys;
      while todo != {}
        invariant todo <= zset.Keys
        invariant oldest.None? ==> todo == zset.Keys
        invariant oldest.Some? ==> exists id :: id in zset && zset[id] == oldest.value
        invariant oldest.Some? ==> forall id :: id in zset && id !in todo ==> oldest.value <= zset[id]
        decreases |todo|
      {
        var id :| id in todo;
        if oldest.None? || zset[id] < oldest.value { oldest := Some(zset[id]); }
        todo := todo - {id};
      }
      assert oldest.None? ==> zset.Keys == {};
      OldestIsUnique(zset, oldest, Oldest(zset));
    }

    /** Pipeline, then for a refused attempt the removal and the read.  With one check at a
        time the answer is the log's: allowed while the window has room, no trace if not. */
    method CheckOne(id: Id, x: Times) returns (d: Decision)
      requires Ordered(View(), id, x)
      modifies this
      ensures View() == Check(Settings(), old(View()), id, x)
      ensures id in attempts && attempts[id].phase == Decided(d)
      ensures old(Quiet(Settings(), View())) ==>
        (d.allowed <==> |old(Counted(Settings(), View(), x.now, x.pipeline))| < limit)
      ensures old(Quiet(Settings(), View()) && Punctual(Settings(), View(), Pipeline(id, x.now, x.pipeline))) ==> (
        && Quiet(Settings(), View())
        && (d.allowed <==> |Window(old(admitted), window, x.now)| < limit)
        && admitted == (if d.allowed then old(admitted)[id := x.now] else old(admitted))
        && (d.allowed ==> d.remaining == limit - |Window(old(admitted), window, x.now)| - 1))
      ensures d == if d.allowed then Decision(true, d.remaining, window, 0)
                   else Decision(false, 0, d.retryAfterSeconds, d.retryAfterSeconds)
      ensures !d.allowed ==> 1 <= d.retryAfterSeconds && WaitsFor(window, x.now, zset, d.retryAfterSeconds)
    {
      ghost var s := View();
      if Quiet(Settings(), s) { AllowedExactlyWhen(Settings(), s, id, x); }
      if Quiet(Settings(), s) && Punctual(Settings(), s, Pipeline(id, x.now, x.pipeline)) { CheckRefinesLog(Settings(), s, id, x); }
      var count := RunPipeline(id, x.now, x.pipeline);
      if count > limit {
        attempts := attempts[id := Attempt(x.now, Refused)];
        RemoveMember(id, x.remove);
        d := Refuse(id, x.now, x.read);
      } else {
        d := Decision(true, Max(0, limit - count), window, 0);
        attempts, admitted := attempts[id := Attempt(x.now, Decided(d))], admitted[id := x.now];
      }
    }

    method RunPipeline(id: Id, now: Time, at: Time) returns (count: nat)
      requires Enabled(View(), Pipeline(id, now, at))
      modifies this
      ensures View() == Ran(Settings(), old(View()), id, now, at) && count == |zset|
      ensures forall i :: i in zset <==>
        i == id || (at <= old(deadline) && i in old(zset) && !(0.0 <= old(zset)[i] <= now - window as real))
      ensures zset[id] == now && forall i :: i in zset && i != id ==> zset[i] == old(zset)[i]
      ensures deadline == at + window as real
    {
      ghost var s := View();
      Touch(at);
      zset := Trim(zset, now - window as real);
      zset := zset[id := now];
      count := |zset|;
      deadline := at + window as real;
      clock, last, lag := at, now, at - now;
      assert zset == Ran(Settings(), s, id, now, at).zset;
    }

    method RemoveMember(id: Id, at: Time)
      requires Enabled(View(), Remove(id, at, false))
      modifies this
      ensures View() == Next(Settings(), old(View()), Remove(id, at, false))
      ensures forall i :: i in zset <==> at <= deadline && i in old(zset) && i != id
      ensures forall i :: i in zset ==> zset[i] == old(zset)[i]
    {
      Touch(at);
      zset := Delete(zset, id);
      clock, attempts := at, attempts[id := attempts[id].(phase := Removed)];
    }

    method WholeWait(now: Time) returns (retryAfter: int)
      ensures retryAfter == RetryAfter(window, now, Oldest(zset))
      ensures 1 <= retryAfter && WaitsFor(window, now, zset, retryAfter)
    {
      var oldest := First();
      OldestWait(window, now, zset);
      var score := if oldest.Some? then oldest.value else now;
      retryAfter := Max(1, PyInt(window as real - (now - score)) + 1);
    }

    method Refuse(id: Id, now: Time, at: Time) returns (d: Decision)
      requires Enabled(View(), ReadOldest(id, at, false)) && attempts[id].stamp == now
      modifies this
      ensures View() == Next(Settings(), old(View()), ReadOldest(id, at, false))
      ensures id in attempts && attempts[id].phase == Decided(d)
      ensures zset == if deadline < at then map[] else old(zset)
      ensures d == Decision(false, 0, d.retryAfterSeconds, d.retryAfterSeconds) && 1 <= d.retryAfterSeconds
      ensures WaitsFor(window, now, zset, d.retryAfterSeconds)
    {
      Touch(at);
      var retryAfter := WholeWait(now);
      ghost var read, told := zset, retryAfter;
      assert WaitsFor(window, now, read, told);
      d := Decision(false, 0, retryAfter, retryAfter);
      clock, attempts := at, attempts[id := attempts[id].(phase := Decided(d))];
      assert zset == read && d.retryAfterSeconds == told;
    }
  }
}
