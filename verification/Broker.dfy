/** The realtime broker's index from channels to queues, with sockets stepping concurrently.

    The broker's lock is held across the Redis subscribe and unsubscribe calls; the relay
    loop does not take it.  Cancellation inside those calls is not modelled. */
module Broker {
  import opened Wrappers

  type Channel = string
  type Queue = nat
  type Payload = nat

  const PREFIX: string := "rt:"
  const CONTROL_CHANNEL: Channel := "__control__"

  function Name(ch: Channel): string { PREFIX + ch }

  lemma NameIsInjective(a: Channel, b: Channel)
    requires Name(a) == Name(b)
    ensures a == b
  {
    assert a == Name(a)[|PREFIX|..] && b == Name(b)[|PREFIX|..];
  }

  predicate StartsWith(s: string, prefix: string) { prefix <= s }

  predicate EndsWith(s: string, suffix: string) {
    |suffix| <= |s| && s[|s| - |suffix|..] == suffix
  }

  /** The two shapes of channel a socket may ask for; whether the user is a member is an
      input of the subscribe step. */
  predicate Askable(ch: Channel) {
    (StartsWith(ch, "org:") && EndsWith(ch, ":incidents")) || StartsWith(ch, "incident:")
  }

  lemma ControlIsNotAskable()
    ensures !Askable(CONTROL_CHANNEL)
  {
    assert CONTROL_CHANNEL[0] == '_' && "org:"[0] == 'o' && "incident:"[0] == 'i';
  }

  /** Every organisation's incident channel and every incident's channel may be asked for, and
      nothing else; the two ends of the first shape may share their colon. */
  lemma AskableExactly(ch: Channel)
    ensures Askable(ch) <==>
      || (exists slug: string :: ch == "org:" + slug + ":incidents")
      || ch == "org:incidents"
      || (exists id: string :: ch == "incident:" + id)
  {
    var tail := ":incidents";
    if StartsWith(ch, "org:") && EndsWith(ch, tail) {
      assert ch[..4] == "org:" && ch[|ch| - 10..] == tail;
      if |ch| >= 14 {
        assert ch == "org:" + ch[4..|ch| - 10] + tail;
      } else {
        OverlapIsOne(ch);
      }
    }
    if StartsWith(ch, "incident:") { assert ch == "incident:" + ch[9..]; }
    if slug: string :| ch == "org:" + slug + tail { assert ch[|ch| - 10..] == tail; }
    if ch == "org:incidents" { assert ch[|ch| - 10..] == tail; }
  }

  lemma OverlapIsOne(ch: Channel)
    requires 10 <= |ch| < 14 && ch[..4] == "org:" && ch[|ch| - 10..] == ":incidents"
    ensures ch == "org:incidents"
  {
    var n := |ch| - 10;
    assert ch[n] == ':' by { assert ch[|ch| - 10..][0] == ':'; }
    assert "org:"[0] == 'o' && "org:"[1] == 'r' && "org:"[2] == 'g';
    assert forall i :: 0 <= i < 4 ==> ch[i] == ch[..4][i];
    assert n == 3;
    assert ch == ch[..3] + ch[3..];
    assert ch[..3] == "org" by { assert ch[..3] == ch[..4][..3]; }
  }

  // --------------------------------------------------------------- sockets

  /** Where a removal continues: back to the message loop, or with the rest of a cleanup. */
  datatype Then = Loop | Clean(todo: set<Channel>)

  datatype Phase =
    | Ready
    | Adding(ch: Channel)
    | Subscribing(ch: Channel)
    | Removing(ch: Channel, then_: Then)
    | Unsubscribing(ch: Channel, then_: Then)
    | Cleaning(todo: set<Channel>)
    | Closed

  datatype Socket = Socket(subscribed: set<Channel>, phase: Phase, inbox: seq<Payload>)

  datatype Relayed = Relayed(channel: Channel, payload: Payload, to: set<Queue>)

  datatype State = State(
    local: map<Channel, set<Queue>>, subs: set<string>, lock: Option<Queue>, sockets: map<Queue, Socket>,
    log: seq<Relayed>)

  const STARTED: State := State(map[], {Name(CONTROL_CHANNEL)}, None, map[], [])

  datatype Step =
    | Connect(q: Queue)
    | AskSubscribe(q: Queue, ch: Channel, member: bool)
    | EnterAdd(q: Queue)
    | FinishAdd(q: Queue)
    | AskUnsubscribe(q: Queue, ch: Channel)
    | EnterRemove(q: Queue)
    | FinishRemove(q: Queue)
    | Disconnect(q: Queue)
    | CleanNext(q: Queue, ch: Channel)
    | CleanDone(q: Queue)
    | Relay(ch: Channel, payload: Payload)

  function Listeners(local: map<Channel, set<Queue>>, ch: Channel): set<Queue> {
    if ch in local then local[ch] else {}
  }

  predicate Enabled(s: State, step: Step) {
    match step
    case Connect(q) => q !in s.sockets
    case AskSubscribe(q, _, _) => q in s.sockets && s.sockets[q].phase == Ready
    case EnterAdd(q) => q in s.sockets && s.sockets[q].phase.Adding? && s.lock.None?
    case FinishAdd(q) => q in s.sockets && s.sockets[q].phase.Subscribing?
    case AskUnsubscribe(q, _) => q in s.sockets && s.sockets[q].phase == Ready
    case EnterRemove(q) => q in s.sockets && s.sockets[q].phase.Removing? && s.lock.None?
    case FinishRemove(q) => q in s.sockets && s.sockets[q].phase.Unsubscribing?
    case Disconnect(q) => q in s.sockets && s.sockets[q].phase == Ready
    case CleanNext(q, ch) => q in s.sockets && s.sockets[q].phase.Cleaning? && ch in s.sockets[q].phase.todo
    case CleanDone(q) => q in s.sockets && s.sockets[q].phase == Cleaning({})
    case Relay(ch, _) => Name(ch) in s.subs
  }

  function Put(s: State, q: Queue, x: Socket): State {
    s.(sockets := s.sockets[q := x])
  }

  function After(t: Then): Phase {
    match t
    case Loop => Ready
    case Clean(todo) => Cleaning(todo)
  }

  function Delivered(sockets: map<Queue, Socket>, to: set<Queue>, payload: Payload): map<Queue, Socket> {
    map q | q in sockets ::
      if q in to then sockets[q].(inbox := sockets[q].inbox + [payload]) else sockets[q]
  }

  function Next(s: State, step: Step): State
    requires Enabled(s, step)
  {
    match step
    case Connect(q) => Put(s, q, Socket({}, Ready, []))
    case AskSubscribe(q, ch, member) =>
      var x := s.sockets[q];
      if ch in x.subscribed || !Askable(ch) || !member then s else Put(s, q, x.(phase := Adding(ch)))
    case EnterAdd(q) =>
      var x := s.sockets[q];
      var ch := x.phase.ch;
      var listeners := Listeners(s.local, ch);
      if listeners == {} then
        Put(s, q, x.(phase := Subscribing(ch))).(local := s.local[ch := {}], lock := Some(q))
      else
        Put(s, q, x.(phase := Ready, subscribed := x.subscribed + {ch})).(local := s.local[ch := listeners + {q}])
    case FinishAdd(q) =>
      var x := s.sockets[q];
      var ch := x.phase.ch;
      Put(s, q, x.(phase := Ready, subscribed := x.subscribed + {ch}))
        .(local := s.local[ch := Listeners(s.local, ch) + {q}], subs := s.subs + {Name(ch)}, lock := None)
    case AskUnsubscribe(q, ch) =>
      var x := s.sockets[q];
      if ch in x.subscribed
      then Put(s, q, x.(phase := Removing(ch, Loop), subscribed := x.subscribed - {ch}))
      else s
    case EnterRemove(q) =>
      var x := s.sockets[q];
      var ch := x.phase.ch;
      if ch !in s.local then Put(s, q, x.(phase := After(x.phase.then_)))
      else
        var left := s.local[ch] - {q};
        if left == {}
        then Put(s, q, x.(phase := Unsubscribing(ch, x.phase.then_))).(local := s.local - {ch}, lock := Some(q))
        else Put(s, q, x.(phase := After(x.phase.then_))).(local := s.local[ch := left])
    case FinishRemove(q) =>
      var x := s.sockets[q];
      Put(s, q, x.(phase := After(x.phase.then_))).(subs := s.subs - {Name(x.phase.ch)}, lock := None)
    case Disconnect(q) =>
      var x := s.sockets[q];
      Put(s, q, x.(phase := Cleaning(x.subscribed)))
    case CleanNext(q, ch) =>
      var x := s.sockets[q];
      Put(s, q, x.(phase := Removing(ch, Clean(x.phase.todo - {ch}))))
    case CleanDone(q) => Put(s, q, s.sockets[q].(phase := Closed))
    case Relay(ch, payload) =>
      var to := Listeners(s.local, ch);
      s.(sockets := Delivered(s.sockets, to, payload), log := s.log + [Relayed(ch, payload, to)])
  }

  // -------------------------------------------------------------- agreement

  /** The channels a socket must be listed under, from its own point of view. */
  function Owed(x: Socket): set<Channel> {
    match x.phase
    case Removing(ch, Loop) => x.subscribed + {ch}
    case Removing(ch, Clean(todo)) => todo + {ch}
    case Unsubscribing(_, Clean(todo)) => todo
    case Cleaning(todo) => todo
    case Closed => {}
    case _ => x.subscribed
  }

  predicate Listed(s: State, ch: Channel, q: Queue) {
    q in Listeners(s.local, ch)
  }

  ghost predicate IndexOk(s: State) {
    forall ch, q :: Listed(s, ch, q) <==> q in s.sockets && ch in Owed(s.sockets[q])
  }

  predicate Locks(p: Phase) { p.Subscribing? || p.Unsubscribing? }

  ghost predicate LockOk(s: State) {
    && (s.lock.Some? ==> s.lock.value in s.sockets && Locks(s.sockets[s.lock.value].phase))
    && (forall q :: q in s.sockets && Locks(s.sockets[q].phase) ==> s.lock == Some(q))
  }

  predicate UnsubscribingNow(s: State, ch: Channel) {
    && s.lock.Some? && s.lock.value in s.sockets
    && s.sockets[s.lock.value].phase.Unsubscribing? && s.sockets[s.lock.value].phase.ch == ch
  }

  predicate SubscribingNow(s: State, ch: Channel) {
    && s.lock.Some? && s.lock.value in s.sockets
    && s.sockets[s.lock.value].phase.Subscribing? && s.sockets[s.lock.value].phase.ch == ch
  }

  ghost predicate SubsOk(s: State) {
    && Name(CONTROL_CHANNEL) in s.subs
    && (forall n :: n in s.subs ==> exists ch :: n == Name(ch))
    && (forall ch :: ch != CONTROL_CHANNEL ==>
          (Name(ch) in s.subs <==> Listeners(s.local, ch) != {} || UnsubscribingNow(s, ch)))
    && (forall ch :: ch in s.local && s.local[ch] == {} ==> SubscribingNow(s, ch))
    && (forall ch :: UnsubscribingNow(s, ch) ==> ch !in s.local)
  }

  predicate Fair(chs: set<Channel>) { forall ch :: ch in chs ==> Askable(ch) }

  ghost predicate SocketOk(x: Socket) {
    && Fair(x.subscribed) && Fair(Owed(x))
    && (x.phase.Adding? || x.phase.Subscribing? || x.phase.Removing? || x.phase.Unsubscribing? ==> Askable(x.phase.ch))
    && (x.phase.Adding? || x.phase.Subscribing? || x.phase.Unsubscribing? ==> x.phase.ch !in Owed(x))
    && (x.phase.Removing? && x.phase.then_.Loop? ==> x.phase.ch !in x.subscribed)
    && (x.phase.Removing? && x.phase.then_.Clean? ==> x.phase.ch !in x.phase.then_.todo)
  }

  ghost function Received(log: seq<Relayed>, q: Queue): seq<Payload> {
    if log == [] then []
    else
      var e := log[|log| - 1];
      Received(log[..|log| - 1], q) + if q in e.to then [e.payload] else []
  }

  ghost predicate InboxOk(s: State) {
    && (forall q :: q in s.sockets ==> s.sockets[q].inbox == Received(s.log, q))
    && (forall i :: 0 <= i < |s.log| ==> s.log[i].to <= s.sockets.Keys)
  }

  ghost predicate Inv(s: State) {
    && IndexOk(s) && LockOk(s) && SubsOk(s) && InboxOk(s)
    && (forall q :: q in s.sockets ==> SocketOk(s.sockets[q]))
  }

  lemma IndexNext(s: State, step: Step)
    requires IndexOk(s) && Enabled(s, step)
    requires forall q :: q in s.sockets ==> SocketOk(s.sockets[q])
    ensures IndexOk(Next(s, step))
  {
    var s' := Next(s, step);
    forall ch, q ensures Listed(s', ch, q) <==> q in s'.sockets && ch in Owed(s'.sockets[q]) {
      assert Listed(s, ch, q) <==> q in s.sockets && ch in Owed(s.sockets[q]);
      if q in s.sockets { assert SocketOk(s.sockets[q]); }
      IndexAt(s, step, ch, q);
    }
  }

  lemma IndexAt(s: State, step: Step, ch: Channel, q: Queue)
    requires Enabled(s, step)
    requires Listed(s, ch, q) <==> q in s.sockets && ch in Owed(s.sockets[q])
    requires q in s.sockets ==> SocketOk(s.sockets[q])
    ensures var s' := Next(s, step); Listed(s', ch, q) <==> q in s'.sockets && ch in Owed(s'.sockets[q])
  {}

  lemma LockNext(s: State, step: Step)
    requires LockOk(s) && Enabled(s, step)
    ensures LockOk(Next(s, step))
  {}

  lemma SubsNext(s: State, step: Step)
    requires LockOk(s) && SubsOk(s) && Enabled(s, step)
    requires step.FinishRemove? ==> SocketOk(s.sockets[step.q])
    ensures SubsOk(Next(s, step))
  {
    var s' := Next(s, step);
    NamesNext(s, step);
    forall ch | ch != CONTROL_CHANNEL
      ensures Name(ch) in s'.subs <==> Listeners(s'.local, ch) != {} || UnsubscribingNow(s', ch)
    {
      SubsAt(s, step, ch);
    }
    EmptyOnlyWhileSubscribing(s, step);
  }

  lemma NamesNext(s: State, step: Step)
    requires Enabled(s, step) && Name(CONTROL_CHANNEL) in s.subs
    requires forall n :: n in s.subs ==> exists ch :: n == Name(ch)
    requires step.FinishRemove? ==> SocketOk(s.sockets[step.q])
    ensures Name(CONTROL_CHANNEL) in Next(s, step).subs
    ensures forall n :: n in Next(s, step).subs ==> exists ch :: n == Name(ch)
  {
    if step.FinishRemove? {
      ControlIsNotAskable();
      if Name(s.sockets[step.q].phase.ch) == Name(CONTROL_CHANNEL) {
        NameIsInjective(s.sockets[step.q].phase.ch, CONTROL_CHANNEL);
      }
    }
  }

  lemma SubsAt(s: State, step: Step, ch: Channel)
    requires LockOk(s) && Enabled(s, step)
    requires Name(ch) in s.subs <==> Listeners(s.local, ch) != {} || UnsubscribingNow(s, ch)
    requires UnsubscribingNow(s, ch) ==> ch !in s.local
    requires ch in s.local && s.local[ch] == {} ==> SubscribingNow(s, ch)
    ensures var s' := Next(s, step);
      Name(ch) in s'.subs <==> Listeners(s'.local, ch) != {} || UnsubscribingNow(s', ch)
  {
    if (step.FinishAdd? || step.FinishRemove?) && Name(s.sockets[step.q].phase.ch) == Name(ch) {
      NameIsInjective(s.sockets[step.q].phase.ch, ch);
    }
  }

  lemma EmptyOnlyWhileSubscribing(s: State, step: Step)
    requires LockOk(s) && Enabled(s, step)
    requires forall ch :: ch in s.local && s.local[ch] == {} ==> SubscribingNow(s, ch)
    requires forall ch :: UnsubscribingNow(s, ch) ==> ch !in s.local
    ensures var s' := Next(s, step);
      && (forall ch :: ch in s'.local && s'.local[ch] == {} ==> SubscribingNow(s', ch))
      && (forall ch :: UnsubscribingNow(s', ch) ==> ch !in s'.local)
  {}

  lemma SocketsNext(s: State, step: Step, q: Queue)
    requires Enabled(s, step) && q in Next(s, step).sockets
    requires q in s.sockets ==> SocketOk(s.sockets[q])
    ensures SocketOk(Next(s, step).sockets[q])
  {}

  lemma InboxNext(s: State, step: Step)
    requires InboxOk(s) && IndexOk(s) && Enabled(s, step)
    ensures InboxOk(Next(s, step))
  {
    if step.Relay? {
      assert Next(s, step).log[..|s.log|] == s.log;
      forall q | q in Listeners(s.local, step.ch) ensures q in s.sockets { assert Listed(s, step.ch, q); }
    } else {
      NotRelayed(s, step);
      if step.Connect? { NothingReceived(s.log, step.q); }
    }
  }

  /** Only a relayed message reaches a queue. */
  lemma NotRelayed(s: State, step: Step)
    requires Enabled(s, step) && !step.Relay?
    ensures var s' := Next(s, step);
      && s'.log == s.log && s'.sockets.Keys == s.sockets.Keys + (if step.Connect? then {step.q} else {})
      && (forall q :: q in s.sockets ==> s'.sockets[q].inbox == s.sockets[q].inbox)
      && (step.Connect? ==> s'.sockets[step.q].inbox == [])
  {}

  lemma {:induction false} NothingReceived(log: seq<Relayed>, q: Queue)
    requires forall i :: 0 <= i < |log| ==> q !in log[i].to
    ensures Received(log, q) == []
    decreases |log|
  {
    if log != [] { NothingReceived(log[..|log| - 1], q); }
  }

  lemma InvNext(s: State, step: Step)
    requires Inv(s) && Enabled(s, step)
    ensures Inv(Next(s, step))
  {
    IndexNext(s, step);
    LockNext(s, step);
    if step.FinishRemove? { assert SocketOk(s.sockets[step.q]); }
    SubsNext(s, step);
    InboxNext(s, step);
    forall q | q in Next(s, step).sockets ensures SocketOk(Next(s, step).sockets[q]) { SocketsNext(s, step, q); }
  }

  ghost predicate Valid(s: State, steps: seq<Step>)
    decreases |steps|
  {
    steps == [] || (Enabled(s, steps[0]) && Valid(Next(s, steps[0]), steps[1..]))
  }

  ghost function Exec(s: State, steps: seq<Step>): State
    requires Valid(s, steps)
    decreases |steps|
  {
    if steps == [] then s else Exec(Next(s, steps[0]), steps[1..])
  }

  lemma {:induction false} InvRun(s: State, steps: seq<Step>)
    requires Inv(s) && Valid(s, steps)
    ensures Inv(Exec(s, steps))
    decreases |steps|
  {
    if steps != [] {
      InvNext(s, steps[0]);
      InvRun(Next(s, steps[0]), steps[1..]);
    }
  }

  // ---------------------------------------------------------------- results

  /** In every run: while the lock is free, Redis is subscribed to the control channel and to
      exactly the channels with a listener. */
  lemma SubscriptionsAgree(steps: seq<Step>)
    requires Valid(STARTED, steps) && Exec(STARTED, steps).lock.None?
    ensures var s := Exec(STARTED, steps);
      s.subs == {Name(CONTROL_CHANNEL)} + (set ch | ch in s.local :: Name(ch))
      && forall ch :: ch in s.local ==> s.local[ch] != {}
  {
    StartedOk();
    InvRun(STARTED, steps);
    var s := Exec(STARTED, steps);
    forall n | n in s.subs ensures n in {Name(CONTROL_CHANNEL)} + (set ch | ch in s.local :: Name(ch)) {
      var ch :| n == Name(ch);
    }
    forall ch | ch in s.local ensures Name(ch) in s.subs {
      assert Listeners(s.local, ch) != {};
    }
  }

  lemma StartedOk()
    ensures Inv(STARTED)
  {
    forall ch | ch != CONTROL_CHANNEL ensures Name(ch) !in STARTED.subs {
      if Name(ch) == Name(CONTROL_CHANNEL) { NameIsInjective(ch, CONTROL_CHANNEL); }
    }
  }

  /** A socket between messages is listed under exactly the channels it holds, a closed one
      under none, and every socket's queue holds, in order and once each, exactly the
      messages relayed while it was listed. */
  lemma IndexAgrees(steps: seq<Step>, q: Queue, ch: Channel)
    requires Valid(STARTED, steps) && q in Exec(STARTED, steps).sockets
    ensures var s := Exec(STARTED, steps);
      && (s.sockets[q].phase == Ready ==> (Listed(s, ch, q) <==> ch in s.sockets[q].subscribed))
      && (s.sockets[q].phase == Closed ==> !Listed(s, ch, q))
      && s.sockets[q].inbox == Received(s.log, q)
  {
    StartedOk();
    InvRun(STARTED, steps);
  }

  /** A message relayed in any reachable state reaches the sockets that hold its channel, once
      and last, and no other socket that is between messages or closed. */
  lemma RelayReachesHolders(steps: seq<Step>, ch: Channel, payload: Payload, q: Queue)
    requires Valid(STARTED, steps) && Enabled(Exec(STARTED, steps), Relay(ch, payload))
    requires q in Exec(STARTED, steps).sockets
    ensures var x := Exec(STARTED, steps).sockets[q];
      var x' := Next(Exec(STARTED, steps), Relay(ch, payload)).sockets[q];
      && x'.subscribed == x.subscribed && x'.phase == x.phase
      && (x.phase == Ready ==> x'.inbox == x.inbox + if ch in x.subscribed then [payload] else [])
      && (x.phase == Closed ==> x'.inbox == x.inbox)
  {
    IndexAgrees(steps, q, ch);
  }

  /** And it is relayed whenever somebody holds the channel. */
  lemma HeldChannelsAreHeard(steps: seq<Step>, ch: Channel, payload: Payload, q: Queue)
    requires Valid(STARTED, steps) && q in Exec(STARTED, steps).sockets
    requires Exec(STARTED, steps).sockets[q].phase == Ready && ch in Exec(STARTED, steps).sockets[q].subscribed
    ensures Enabled(Exec(STARTED, steps), Relay(ch, payload))
  {
    StartedOk();
    InvRun(STARTED, steps);
    var s := Exec(STARTED, steps);
    IndexAgrees(steps, q, ch);
    assert q in Listeners(s.local, ch);
    assert SocketOk(s.sockets[q]);
    ControlIsNotAskable();
  }

  // ---------------------------------------------------- what clients get

  /** Every channel a socket holds, is taking up or is giving up. */
  function Touched(x: Socket): set<Channel> {
    x.subscribed + Owed(x) + (if x.phase.Adding? || x.phase.Subscribing? then {x.phase.ch} else {})
  }

  lemma TouchedNext(s: State, step: Step, q: Queue, ch: Channel)
    requires Enabled(s, step) && q in Next(s, step).sockets && ch in Touched(Next(s, step).sockets[q])
    ensures (q in s.sockets && ch in Touched(s.sockets[q])) || (step == AskSubscribe(q, ch, true) && Askable(ch))
  {}

  /** A socket is only ever listed under a channel it has asked for as a member. */
  lemma {:induction false} ListenersAsked(s: State, steps: seq<Step>, q: Queue, ch: Channel)
    requires Valid(s, steps) && q in Exec(s, steps).sockets && ch in Touched(Exec(s, steps).sockets[q])
    requires q in s.sockets ==> ch !in Touched(s.sockets[q])
    ensures Askable(ch) && AskSubscribe(q, ch, true) in steps
    decreases |steps|
  {
    if steps != [] {
      var s1 := Next(s, steps[0]);
      if q in s1.sockets && ch in Touched(s1.sockets[q]) {
        TouchedNext(s, steps[0], q, ch);
      } else {
        ListenersAsked(s1, steps[1..], q, ch);
      }
    }
  }

  lemma NobodyListensUnasked(steps: seq<Step>, q: Queue, ch: Channel)
    requires Valid(STARTED, steps) && Listed(Exec(STARTED, steps), ch, q)
    ensures Askable(ch) && AskSubscribe(q, ch, true) in steps
  {
    StartedOk();
    InvRun(STARTED, steps);
    var s := Exec(STARTED, steps);
    assert Listed(s, ch, q);
    ListenersAsked(STARTED, steps, q, ch);
  }

  /** A member that asks for an allowed channel gets it, and is listed, as soon as the lock is
      free: at once if it holds it, after one locked step if others listen, after two if it is
      the first. */
  lemma SubscribeWorks(s: State, q: Queue, ch: Channel)
    requires Inv(s) && q in s.sockets && s.sockets[q].phase == Ready && s.lock.None? && Askable(ch)
    ensures var s1 := Next(s, AskSubscribe(q, ch, true));
      if ch in s.sockets[q].subscribed then s1 == s
      else
        Enabled(s1, EnterAdd(q)) &&
        var s2 := Next(s1, EnterAdd(q));
        if Listeners(s.local, ch) != {} then Gained(s, s2, q, ch)
        else Enabled(s2, FinishAdd(q)) && Gained(s, Next(s2, FinishAdd(q)), q, ch)
  {}

  /** `q` holds one channel more, is listed under it and is back between messages. */
  predicate Gained(s: State, s': State, q: Queue, ch: Channel)
    requires q in s.sockets
  {
    && q in s'.sockets && s'.sockets[q].phase == Ready && s'.lock.None?
    && s'.sockets[q].subscribed == s.sockets[q].subscribed + {ch} && Listed(s', ch, q) && Name(ch) in s'.subs
  }

  /** Dropping a held channel ends the listing, and the Redis subscription with the last one. */
  lemma UnsubscribeWorks(s: State, q: Queue, ch: Channel)
    requires Inv(s) && q in s.sockets && s.sockets[q].phase == Ready && s.lock.None? && ch in s.sockets[q].subscribed
    ensures var s1 := Next(s, AskUnsubscribe(q, ch));
      Enabled(s1, EnterRemove(q)) &&
      var s2 := Next(s1, EnterRemove(q));
      if Listeners(s.local, ch) != {q} then Dropped(s, s2, q, ch) && Name(ch) in s2.subs
      else Enabled(s2, FinishRemove(q)) && Dropped(s, Next(s2, FinishRemove(q)), q, ch)
           && Name(ch) !in Next(s2, FinishRemove(q)).subs
  {
    assert Listed(s, ch, q) by { assert ch in Owed(s.sockets[q]); }
    assert SocketOk(s.sockets[q]);
    ControlIsNotAskable();
  }

  predicate Dropped(s: State, s': State, q: Queue, ch: Channel)
    requires q in s.sockets
  {
    && q in s'.sockets && s'.sockets[q].phase == Ready && s'.lock.None?
    && s'.sockets[q].subscribed == s.sockets[q].subscribed - {ch} && !Listed(s', ch, q)
  }

  /** The lock is never held by a socket that cannot release it. */
  lemma LockIsReleasable(steps: seq<Step>)
    requires Valid(STARTED, steps) && Exec(STARTED, steps).lock.Some?
    ensures var s := Exec(STARTED, steps);
      (Enabled(s, FinishAdd(s.lock.value)) && Next(s, FinishAdd(s.lock.value)).lock.None?)
      || (Enabled(s, FinishRemove(s.lock.value)) && Next(s, FinishRemove(s.lock.value)).lock.None?)
  {
    StartedOk();
    InvRun(STARTED, steps);
  }
}
