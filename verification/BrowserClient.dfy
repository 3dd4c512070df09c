/** The browser client's single-flight refresh composed with the session server.

    One tab, any number of concurrent requests.  A refresh is in flight from the 401 that
    starts it until its reply is delivered or lost; everything else may step in between. */
module BrowserClient {
  import opened Wrappers
  import Sessions

  type Raw = Sessions.Raw
  type RequestId = nat
  type Reply = Result<Sessions.Pair, Sessions.Error>

  datatype Flight = Idle | Sent(raw: Raw) | Replied(sent: Raw, reply: Reply)

  /** `Done(ok)`: ok is false when the caller sees a 401. */
  datatype Request = First | Waiting | Second | Done(ok: bool)

  datatype Client = Client(
    access: Option<Sessions.Signed>, stored: Option<Raw>, flight: Flight, requests: map<RequestId, Request>,
    refreshes: nat)

  // --------------------------------------------------------- client code

  /** A first attempt answered 401: join or start the one refresh, if there is a token. */
  function On401(c: Client, q: RequestId): Client
    requires q in c.requests
  {
    if c.requests[q] == First && c.stored.Some? then
      var c1 := c.(requests := c.requests[q := Waiting]);
      if c.flight.Idle? then c1.(flight := Sent(c.stored.value), refreshes := c.refreshes + 1) else c1
    else c.(requests := c.requests[q := Done(false)])
  }

  /** Everyone who waited on the flight that ends now. */
  function Resume(requests: map<RequestId, Request>, ok: bool): map<RequestId, Request> {
    map q | q in requests ::
      if requests[q] == Waiting then (if ok then Second else Done(false)) else requests[q]
  }

  function OnReply(c: Client): Client
    requires c.flight.Replied?
  {
    match c.flight.reply
    case Ok(pair) => c.(access := Some(pair.access), stored := Some(pair.refresh), flight := Idle,
                        requests := Resume(c.requests, true))
    case Err(_) => c.(flight := Idle, requests := Resume(c.requests, false))
  }

  /** The fetch fails although the server has answered. */
  function OnLoss(c: Client): Client {
    c.(flight := Idle, requests := Resume(c.requests, false))
  }

  // ---------------------------------------------------------- the system

  /** `mine`: raw refresh tokens ever handed to this tab; `mail`: login replies on their way;
      `results`: the server's answer to every refresh of this tab; `lost`: tokens exchanged
      for a pair that never arrived. */
  datatype System = System(
    server: Sessions.Store, client: Client, mine: set<Raw>, mail: set<Sessions.Pair>,
    results: seq<Option<Sessions.Error>>, lost: set<Raw>)

  datatype Step =
    | Call(q: RequestId)
    | Fulfil(q: RequestId)
    | Unauthorized(q: RequestId)
    | ServeRefresh(minted: Raw, now: Sessions.Time)
    | RefuseRefresh
    | DeliverReply
    | LoseReply
    | SignIn(step: Sessions.Step)
    | ApplyTokens(pair: Sessions.Pair)
    | LogoutAtServer(now: Sessions.Time)
    | ClearTokens
    | Others(step: Sessions.Step)

  predicate OpensSession(s: Sessions.Store, step: Sessions.Step) {
    step.Login? || (step.Challenge? && Sessions.ChallengeWorks(s, step.token, step.codeOk))
  }

  function Opened(s: Sessions.Store, step: Sessions.Step): Sessions.Pair
    requires Sessions.Enabled(s, step) && OpensSession(s, step)
  {
    if step.Login? then Sessions.PairFor(s, step.user, step.minted)
    else Sessions.PairFor(s, step.token.user, step.minted)
  }

  predicate Enabled(w: System, step: Step) {
    match step
    case Call(q) => q !in w.client.requests
    case Fulfil(q) => q in w.client.requests && (w.client.requests[q] == First || w.client.requests[q] == Second)
    case Unauthorized(q) => q in w.client.requests && (w.client.requests[q] == First || w.client.requests[q] == Second)
    case ServeRefresh(minted, _) => w.client.flight.Sent? && minted !in w.server.issued
    case RefuseRefresh => w.client.flight.Sent?
    case DeliverReply => w.client.flight.Replied?
    case LoseReply => w.client.flight.Replied?
    case SignIn(e) => Sessions.Enabled(w.server, e) && OpensSession(w.server, e)
    case ApplyTokens(pair) => pair in w.mail
    case LogoutAtServer(_) => w.client.stored.Some?
    case ClearTokens => true
    // Nobody else holds this tab's tokens.
    case Others(e) => Sessions.Enabled(w.server, e) && (e.Rotate? ==> e.raw !in w.mine)
  }

  function Next(w: System, step: Step): System
    requires Enabled(w, step)
  {
    var c := w.client;
    match step
    case Call(q) => w.(client := c.(requests := c.requests[q := First]))
    case Fulfil(q) => w.(client := c.(requests := c.requests[q := Done(true)]))
    case Unauthorized(q) => w.(client := On401(c, q))
    case ServeRefresh(minted, now) =>
      var raw := c.flight.raw;
      var error := Sessions.RotateError(w.server, raw, now);
      var reply := match error
        case Some(e) => Err(e)
        case None => Ok(Sessions.PairFor(w.server, w.server.tokens[raw].user, minted));
      w.(server := Sessions.Rotated(w.server, raw, minted, now), client := c.(flight := Replied(raw, reply)),
         mine := if error.None? then w.mine + {minted} else w.mine, results := w.results + [error])
    // The request never reached the rotation: network failure, rate limit, server error.
    case RefuseRefresh => w.(client := c.(flight := Replied(c.flight.raw, Err(Sessions.Unauthorized))))
    case DeliverReply => w.(client := OnReply(c))
    case LoseReply =>
      w.(client := OnLoss(c), lost := if c.flight.reply.Ok? then w.lost + {c.flight.sent} else w.lost)
    case SignIn(e) =>
      var pair := Opened(w.server, e);
      w.(server := Sessions.Next(w.server, e), mine := w.mine + {pair.refresh}, mail := w.mail + {pair})
    case ApplyTokens(pair) =>
      w.(client := c.(access := Some(pair.access), stored := Some(pair.refresh)), mail := w.mail - {pair})
    case LogoutAtServer(now) => w.(server := Sessions.LoggedOut(w.server, c.stored.value, now))
    case ClearTokens => w.(client := c.(access := None, stored := None))
    case Others(e) => w.(server := Sessions.Next(w.server, e))
  }

  const START: System := System(Sessions.EMPTY, Client(None, None, Idle, map[], 0), {}, {}, [], {})

  ghost predicate Valid(w: System, steps: seq<Step>)
    decreases |steps|
  {
    steps == [] || (Enabled(w, steps[0]) && Valid(Next(w, steps[0]), steps[1..]))
  }

  ghost function Exec(w: System, steps: seq<Step>): System
    requires Valid(w, steps)
    decreases |steps|
  {
    if steps == [] then w else Exec(Next(w, steps[0]), steps[1..])
  }

  // ------------------------------------------------------------- safety

  /** A token of this tab that has been exchanged only if the reply was lost. */
  ghost predicate Good(w: System, raw: Raw) {
    raw in w.mine && (raw in w.server.tokens && w.server.tokens[raw].consumedAt.Some? ==> raw in w.lost)
  }

  /** The token whose successful reply is on its way: consumed, and not lost yet. */
  predicate Arriving(c: Client) {
    c.flight.Replied? && c.flight.reply.Ok?
  }

  ghost predicate StoredOk(w: System) {
    var c := w.client;
    && (c.stored.Some? ==> c.stored.value in w.mine)
    && (c.stored.Some? && !(Arriving(c) && c.stored.value == c.flight.sent) ==> Good(w, c.stored.value))
    && (c.flight.Sent? ==> Good(w, c.flight.raw))
    && (Arriving(c) ==> Good(w, c.flight.reply.value.refresh) && Spent(w, c.flight.sent))
  }

  /** Exchanged, as far as the server still remembers. */
  ghost predicate Spent(w: System, raw: Raw) {
    raw in w.mine && (raw in w.server.tokens ==> w.server.tokens[raw].consumedAt.Some?)
  }

  /** Login replies carry unexchanged tokens that nobody is using yet. */
  ghost predicate MailOk(w: System) {
    var c := w.client;
    && (forall p :: p in w.mail ==>
          && Good(w, p.refresh) && c.stored != Some(p.refresh) && c.flight != Sent(p.refresh)
          && (Arriving(c) ==> c.flight.reply.value.refresh != p.refresh && c.flight.sent != p.refresh))
    && (forall p, q :: p in w.mail && q in w.mail && p.refresh == q.refresh ==> p == q)
  }

  ghost predicate LostOk(w: System) {
    && (forall raw :: raw in w.lost ==> Spent(w, raw))
    && (w.lost == {} ==> forall i :: 0 <= i < |w.results| ==> w.results[i] != Some(Sessions.RefreshReused))
  }

  ghost predicate Safe(w: System) {
    && Sessions.Inv(w.server) && w.mine <= w.server.issued.Keys
    && StoredOk(w) && MailOk(w) && LostOk(w)
  }

  /** Only presenting a token consumes it, nothing else does or undoes it, and tokens issued
      before are never issued again. */
  lemma ServerKeepsGood(s: Sessions.Store, step: Sessions.Step, raw: Raw)
    requires Sessions.Inv(s) && Sessions.Enabled(s, step) && raw in s.issued
    requires step.Rotate? ==> step.raw != raw
    ensures var s' := Sessions.Next(s, step);
      && raw in s'.issued
      && (raw in s'.tokens ==> raw in s.tokens && (s'.tokens[raw].consumedAt.Some? <==> s.tokens[raw].consumedAt.Some?))
  {
    IssuedOnlyGrows(s, step);
    if raw in Sessions.Next(s, step).tokens { OthersUnconsumed(s, step, raw); }
  }

  lemma OthersUnconsumed(s: Sessions.Store, step: Sessions.Step, raw: Raw)
    requires Sessions.Enabled(s, step) && raw in s.issued && (step.Rotate? ==> step.raw != raw)
    requires raw in Sessions.Next(s, step).tokens
    ensures raw in s.tokens
    ensures Sessions.Next(s, step).tokens[raw].consumedAt.Some? <==> s.tokens[raw].consumedAt.Some?
  {}

  lemma IssuedOnlyGrows(s: Sessions.Store, step: Sessions.Step)
    requires Sessions.Enabled(s, step)
    ensures s.issued.Keys <= Sessions.Next(s, step).issued.Keys
  {}

  lemma OpenedIsNew(s: Sessions.Store, step: Sessions.Step)
    requires Sessions.Inv(s) && Sessions.Enabled(s, step) && OpensSession(s, step)
    ensures var s' := Sessions.Next(s, step);
      var raw := Opened(s, step).refresh;
      raw !in s.issued && raw in s'.issued && raw in s'.tokens && s'.tokens[raw].consumedAt.None?
  {}

  lemma SafeNext(w: System, step: Step)
    requires Safe(w) && Enabled(w, step)
    ensures Safe(Next(w, step))
  {
    match step
    case ServeRefresh(minted, now) => ServeKeepsSafe(w, minted, now);
    case SignIn(e) => SignInKeepsSafe(w, e);
    case LogoutAtServer(now) =>
      ServerStepKeepsSafe(w, Sessions.Logout(w.client.stored.value, now));
    case Others(e) => ServerStepKeepsSafe(w, e);
    case LoseReply => LossKeepsSafe(w);
    case _ =>
  }

  lemma LossKeepsSafe(w: System)
    requires Safe(w) && Enabled(w, LoseReply)
    ensures Safe(Next(w, LoseReply))
  {
    var w' := Next(w, LoseReply);
    forall raw | Good(w, raw) ensures Good(w', raw) {}
    forall raw | Spent(w, raw) ensures Spent(w', raw) {}
  }

  lemma ServerStepKeepsSafe(w: System, e: Sessions.Step)
    requires Safe(w) && Sessions.Enabled(w.server, e) && (e.Rotate? ==> e.raw !in w.mine)
    ensures Safe(w.(server := Sessions.Next(w.server, e)))
  {
    Sessions.InvNext(w.server, e);
    IssuedOnlyGrows(w.server, e);
    var w' := w.(server := Sessions.Next(w.server, e));
    forall raw | Good(w, raw) ensures Good(w', raw) { ServerKeepsGood(w.server, e, raw); }
    forall raw | Spent(w, raw) ensures Spent(w', raw) { ServerKeepsGood(w.server, e, raw); }
  }

  lemma SignInKeepsSafe(w: System, e: Sessions.Step)
    requires Safe(w) && Enabled(w, SignIn(e))
    ensures Safe(Next(w, SignIn(e)))
  {
    ServerStepKeepsSafe(w, e);
    OpenedIsNew(w.server, e);
    var w1 := w.(server := Sessions.Next(w.server, e));
    var w' := Next(w, SignIn(e));
    forall raw | Good(w1, raw) ensures Good(w', raw) {}
    forall raw | Spent(w1, raw) ensures Spent(w', raw) {}
  }

  /** What a served refresh does to the tokens of the tab other than the presented one. */
  lemma ServeKeepsOthers(w: System, minted: Raw, now: Sessions.Time, r: Raw)
    requires Safe(w) && Enabled(w, ServeRefresh(minted, now)) && r != w.client.flight.raw
    ensures Good(w, r) ==> Good(Next(w, ServeRefresh(minted, now)), r)
    ensures Spent(w, r) ==> Spent(Next(w, ServeRefresh(minted, now)), r)
  {
    if r in w.mine { ServerKeepsGood(w.server, Sessions.Rotate(w.client.flight.raw, minted, now), r); }
  }

  /** What it does to the presented token and, if it rotates, to its successor. */
  lemma ServeUsesToken(w: System, minted: Raw, now: Sessions.Time)
    requires Safe(w) && Enabled(w, ServeRefresh(minted, now))
    ensures var w' := Next(w, ServeRefresh(minted, now));
      var raw := w.client.flight.raw;
      && (Sessions.RotateError(w.server, raw, now).None? ==> Spent(w', raw) && Good(w', minted) && minted != raw)
      && (Sessions.RotateError(w.server, raw, now).Some? ==> Good(w', raw) && (Spent(w, raw) ==> Spent(w', raw)))
  {}

  lemma ServeKeepsSafe(w: System, minted: Raw, now: Sessions.Time)
    requires Safe(w) && Enabled(w, ServeRefresh(minted, now))
    ensures Safe(Next(w, ServeRefresh(minted, now)))
  {
    var raw := w.client.flight.raw;
    Sessions.InvNext(w.server, Sessions.Rotate(raw, minted, now));
    IssuedOnlyGrows(w.server, Sessions.Rotate(raw, minted, now));
    var w' := Next(w, ServeRefresh(minted, now));
    forall r | r != raw
      ensures (Good(w, r) ==> Good(w', r)) && (Spent(w, r) ==> Spent(w', r))
    {
      ServeKeepsOthers(w, minted, now, r);
    }
    ServeKeepsStored(w, minted, now);
    ServeKeepsMail(w, minted, now);
    ServeKeepsLost(w, minted, now);
  }

  lemma ServeKeepsStored(w: System, minted: Raw, now: Sessions.Time)
    requires Safe(w) && Enabled(w, ServeRefresh(minted, now))
    requires forall r :: r != w.client.flight.raw && Good(w, r) ==> Good(Next(w, ServeRefresh(minted, now)), r)
    ensures StoredOk(Next(w, ServeRefresh(minted, now)))
  {
    ServeUsesToken(w, minted, now);
    var w' := Next(w, ServeRefresh(minted, now));
    assert w'.client.stored == w.client.stored && w'.client.flight.sent == w.client.flight.raw;
  }

  lemma ServeKeepsLost(w: System, minted: Raw, now: Sessions.Time)
    requires Safe(w) && Enabled(w, ServeRefresh(minted, now))
    requires forall r :: r != w.client.flight.raw && Spent(w, r) ==> Spent(Next(w, ServeRefresh(minted, now)), r)
    ensures LostOk(Next(w, ServeRefresh(minted, now)))
  {
    ServeUsesToken(w, minted, now);
    ReuseMeansLost(w, minted, now);
    assert Next(w, ServeRefresh(minted, now)).lost == w.lost;
  }

  lemma ServeKeepsMail(w: System, minted: Raw, now: Sessions.Time)
    requires Safe(w) && Enabled(w, ServeRefresh(minted, now))
    requires forall r :: r != w.client.flight.raw && Good(w, r) ==> Good(Next(w, ServeRefresh(minted, now)), r)
    ensures MailOk(Next(w, ServeRefresh(minted, now)))
  {
    var w' := Next(w, ServeRefresh(minted, now));
    assert w'.mail == w.mail && w'.client.stored == w.client.stored;
    forall pair | pair in w.mail ensures pair.refresh != minted { assert Good(w, pair.refresh); }
  }

  /** The server takes a refresh of this tab for theft exactly when the token was exchanged
      before for a pair that never arrived, and the server still keeps it unrevoked. */
  lemma ReuseMeansLost(w: System, minted: Raw, now: Sessions.Time)
    requires Safe(w) && Enabled(w, ServeRefresh(minted, now))
    ensures var raw := w.client.flight.raw;
      Sessions.RotateError(w.server, raw, now) == Some(Sessions.RefreshReused)
      <==> raw in w.lost && raw in w.server.tokens && w.server.tokens[raw].revokedAt.None?
  {
    assert Good(w, w.client.flight.raw);
    if w.client.flight.raw in w.lost { assert Spent(w, w.client.flight.raw); }
  }

  lemma {:induction false} SafeRun(w: System, steps: seq<Step>)
    requires Safe(w) && Valid(w, steps)
    ensures Safe(Exec(w, steps))
    decreases |steps|
  {
    if steps != [] {
      SafeNext(w, steps[0]);
      SafeRun(Next(w, steps[0]), steps[1..]);
    }
  }

  lemma StartIsSafe()
    ensures Safe(START)
  {}

  ghost predicate NoneLost(steps: seq<Step>) {
    forall i :: 0 <= i < |steps| ==> !steps[i].LoseReply?
  }

  lemma {:induction false} LostOnlyByLosing(w: System, steps: seq<Step>)
    requires Valid(w, steps) && NoneLost(steps)
    ensures Exec(w, steps).lost == w.lost
    decreases |steps|
  {
    if steps != [] {
      assert !steps[0].LoseReply?;
      forall i | 0 <= i < |steps[1..]| ensures !steps[1..][i].LoseReply? { assert !steps[i + 1].LoseReply?; }
      LostOnlyByLosing(Next(w, steps[0]), steps[1..]);
    }
  }

  /** With one tab and no lost reply, reuse detection never fires, and whenever no refresh is
      in flight the stored token has not been exchanged. */
  lemma NeverAccusedOfReuse(steps: seq<Step>, i: nat)
    requires Valid(START, steps) && NoneLost(steps)
    ensures i < |Exec(START, steps).results| ==>
      Exec(START, steps).results[i] != Some(Sessions.RefreshReused)
    ensures var w := Exec(START, steps);
      w.client.flight.Idle? && w.client.stored.Some? && w.client.stored.value in w.server.tokens ==>
        w.server.tokens[w.client.stored.value].consumedAt.None?
  {
    StartIsSafe();
    SafeRun(START, steps);
    LostOnlyByLosing(START, steps);
    var w := Exec(START, steps);
    if w.client.flight.Idle? && w.client.stored.Some? { assert Good(w, w.client.stored.value); }
  }

  /** In any run at all, lost replies included, reuse detection fires on a refresh exactly when
      that token's earlier reply was lost and the server still keeps it unrevoked. */
  lemma ReuseFiresExactlyWhen(steps: seq<Step>, minted: Raw, now: Sessions.Time)
    requires Valid(START, steps) && Enabled(Exec(START, steps), ServeRefresh(minted, now))
    ensures var w := Exec(START, steps);
      var raw := w.client.flight.raw;
      Sessions.RotateError(w.server, raw, now) == Some(Sessions.RefreshReused)
      <==> raw in w.lost && raw in w.server.tokens && w.server.tokens[raw].revokedAt.None?
  {
    StartIsSafe();
    SafeRun(START, steps);
    ReuseMeansLost(Exec(START, steps), minted, now);
  }

  /** And losing a reply leads there: if the client keeps the token, its next 401 presents it
      and the family dies, unless it was revoked or pruned in between. */
  lemma LostReplyIsTakenForTheft(steps: seq<Step>, q: RequestId, minted: Raw, now: Sessions.Time)
    requires Valid(START, steps)
    requires var w := Exec(START, steps);
      && Arriving(w.client) && w.client.stored == Some(w.client.flight.sent) && q !in w.client.requests
      && w.client.flight.sent in w.server.tokens && w.server.tokens[w.client.flight.sent].revokedAt.None?
      && minted !in w.server.issued
    ensures var w := Exec(START, steps);
      var next := [LoseReply, Call(q), Unauthorized(q), ServeRefresh(minted, now)];
      && Valid(w, next)
      && Exec(w, next).results == w.results + [Some(Sessions.RefreshReused)]
      && forall r :: r in Exec(w, next).server.tokens
                     && Exec(w, next).server.tokens[r].family == w.server.tokens[w.client.flight.sent].family ==>
           Exec(w, next).server.tokens[r].revokedAt.Some?
  {
    StartIsSafe();
    SafeRun(START, steps);
    var w := Exec(START, steps);
    LossThenRefresh(w, q);
    var w1 := Next(w, LoseReply);
    var w2 := Next(w1, Call(q));
    var w3 := Next(w2, Unauthorized(q));
    PresentsLost(w3, minted, now);
    var served := [ServeRefresh(minted, now)];
    OneStep(w3, ServeRefresh(minted, now));
    Cons(w2, Unauthorized(q), served);
    Cons(w1, Call(q), [Unauthorized(q)] + served);
    Cons(w, LoseReply, [Call(q)] + ([Unauthorized(q)] + served));
    assert [LoseReply, Call(q), Unauthorized(q), ServeRefresh(minted, now)]
        == [LoseReply] + ([Call(q)] + ([Unauthorized(q)] + served));
  }

  lemma LossThenRefresh(w: System, q: RequestId)
    requires Safe(w) && Arriving(w.client) && w.client.stored == Some(w.client.flight.sent) && q !in w.client.requests
    ensures var w1 := Next(w, LoseReply);
      var w2 := Next(w1, Call(q));
      Enabled(w2, Unauthorized(q))
      && var w3 := Next(w2, Unauthorized(q));
         Safe(w3) && w3.server == w.server && w3.results == w.results
         && w3.client.flight == Sent(w.client.flight.sent) && w.client.flight.sent in w3.lost
  {
    LossKeepsSafe(w);
    var w1 := Next(w, LoseReply);
    SafeNext(w1, Call(q));
    SafeNext(Next(w1, Call(q)), Unauthorized(q));
  }

  lemma PresentsLost(w: System, minted: Raw, now: Sessions.Time)
    requires Safe(w) && Enabled(w, ServeRefresh(minted, now)) && w.client.flight.raw in w.lost
    requires w.client.flight.raw in w.server.tokens && w.server.tokens[w.client.flight.raw].revokedAt.None?
    ensures var w' := Next(w, ServeRefresh(minted, now));
      && w'.results == w.results + [Some(Sessions.RefreshReused)]
      && forall r :: r in w'.server.tokens
                     && w'.server.tokens[r].family == w.server.tokens[w.client.flight.raw].family ==>
           w'.server.tokens[r].revokedAt.Some?
  {
    ReuseMeansLost(w, minted, now);
  }

  lemma OneStep(w: System, step: Step)
    requires Enabled(w, step)
    ensures Valid(w, [step]) && Exec(w, [step]) == Next(w, step)
  {
    assert [step][1..] == [];
  }

  lemma Cons(w: System, step: Step, rest: seq<Step>)
    requires Enabled(w, step) && Valid(Next(w, step), rest)
    ensures Valid(w, [step] + rest) && Exec(w, [step] + rest) == Exec(Next(w, step), rest)
  {
    assert ([step] + rest)[1..] == rest;
  }

  /** A second tab is no better off: whoever presents a token that has been exchanged, lost
      reply or not, is taken for a thief and kills the family. */
  lemma PresentingTwiceIsReuse(s: Sessions.Store, raw: Raw, minted: Raw, now: Sessions.Time, later: Sessions.Time)
    requires Sessions.Inv(s) && minted !in s.issued && Sessions.RotateError(s, raw, now).None?
    ensures var s' := Sessions.Rotated(s, raw, minted, now);
      && Sessions.RotateError(s', raw, later) == Some(Sessions.RefreshReused)
      && forall other: Raw, r: Raw ::
           other !in s'.issued && r in s'.tokens && s'.tokens[r].family == s.tokens[raw].family ==>
             Sessions.Rotated(s', raw, other, later).tokens[r].revokedAt.Some?
  {}

  // ------------------------------------------------- requests and retries

  /** How many more answers a call can get from the server. */
  function AnswersLeft(c: Client, q: RequestId): nat {
    if q !in c.requests then 2
    else
      match c.requests[q]
      case First => 2
      case Waiting => 1
      case Second => 1
      case Done(_) => 0
  }

  function AnswersTo(steps: seq<Step>, q: RequestId): nat {
    if steps == [] then 0
    else (if steps[0] == Fulfil(q) || steps[0] == Unauthorized(q) then 1 else 0) + AnswersTo(steps[1..], q)
  }

  /** Over any run a call reaches the server at most twice: it is retried at most once. */
  lemma {:induction false} RetriedAtMostOnce(w: System, steps: seq<Step>, q: RequestId)
    requires Valid(w, steps)
    ensures AnswersTo(steps, q) + AnswersLeft(Exec(w, steps).client, q) <= AnswersLeft(w.client, q) <= 2
    decreases |steps|
  {
    if steps != [] {
      AnswersDrop(w, steps[0], q);
      RetriedAtMostOnce(Next(w, steps[0]), steps[1..], q);
    }
  }

  lemma AnswersDrop(w: System, step: Step, q: RequestId)
    requires Enabled(w, step)
    ensures AnswersLeft(Next(w, step).client, q) + (if step == Fulfil(q) || step == Unauthorized(q) then 1 else 0)
         <= AnswersLeft(w.client, q)
  {}

  /** A successful reply stores its pair and sends every waiting call out again; a failed or
      lost one ends every waiting call in its 401.  No other call moves, nor do the tokens. */
  lemma ReplyMovesTheWaiting(w: System, step: Step)
    requires Enabled(w, step) && (step.DeliverReply? || step.LoseReply?)
    ensures var c, c' := w.client, Next(w, step).client;
      var ok := step.DeliverReply? && c.flight.reply.Ok?;
      && c'.flight.Idle? && c'.requests.Keys == c.requests.Keys
      && (forall q :: q in c.requests && c.requests[q] == Waiting ==>
            c'.requests[q] == if ok then Second else Done(false))
      && (forall q :: q in c.requests && c.requests[q] != Waiting ==> c'.requests[q] == c.requests[q])
      && (ok ==> c'.access == Some(c.flight.reply.value.access) && c'.stored == Some(c.flight.reply.value.refresh))
      && (!ok ==> c'.access == c.access && c'.stored == c.stored)
  {}

  /** A 401 with a good stored token heals itself: the call goes out again with an access token
      the server accepts, the client holds the new refresh token, and that one rotates. */
  lemma RefreshHeals(w: System, q: RequestId, minted: Raw, now: Sessions.Time, later: Sessions.Time)
    requires Safe(w) && SingleFlight(w.client) && q in w.client.requests && w.client.requests[q] == First
    requires w.client.flight.Idle? && w.client.stored.Some? && minted !in w.server.issued
    requires Sessions.RotateError(w.server, w.client.stored.value, now).None?
    requires now <= later < now + Sessions.REFRESH_TTL
    ensures Valid(w, [Unauthorized(q), ServeRefresh(minted, now), DeliverReply])
    ensures var w' := Exec(w, [Unauthorized(q), ServeRefresh(minted, now), DeliverReply]);
      && w'.client.requests == w.client.requests[q := Second]
      && w'.client.flight.Idle? && w'.client.stored == Some(minted) && w'.results == w.results + [None]
      && w'.client.access.Some? && Sessions.Accepted(w'.server, Sessions.Access, w'.client.access.value)
      && Sessions.RotateError(w'.server, minted, later).None?
      && Sessions.RotateError(w'.server, w.client.stored.value, later).Some?
  {
    var w1 := Next(w, Unauthorized(q));
    var w2 := Next(w1, ServeRefresh(minted, now));
    HealsAtServer(w1, minted, now, later);
    OneStep(w2, DeliverReply);
    Cons(w1, ServeRefresh(minted, now), [DeliverReply]);
    Cons(w, Unauthorized(q), [ServeRefresh(minted, now)] + [DeliverReply]);
    assert [Unauthorized(q), ServeRefresh(minted, now), DeliverReply]
        == [Unauthorized(q)] + ([ServeRefresh(minted, now)] + [DeliverReply]);
  }

  lemma HealsAtServer(w: System, minted: Raw, now: Sessions.Time, later: Sessions.Time)
    requires Sessions.Inv(w.server) && w.client.flight.Sent? && minted !in w.server.issued
    requires Sessions.RotateError(w.server, w.client.flight.raw, now).None? && now <= later < now + Sessions.REFRESH_TTL
    ensures var w' := Next(w, ServeRefresh(minted, now));
      && Arriving(w'.client) && w'.client.flight.reply.value.refresh == minted && w'.results == w.results + [None]
      && Sessions.Accepted(w'.server, Sessions.Access, w'.client.flight.reply.value.access)
      && Sessions.RotateError(w'.server, minted, later).None?
      && Sessions.RotateError(w'.server, w.client.flight.raw, later).Some?
  {}

  /** The ways a call can end in a 401: its first attempt finds no token to refresh with, the
      refresh it waits for fails or is lost, or its second attempt is refused as well. */
  predicate GivesUp(w: System, step: Step, q: RequestId) {
    q in w.client.requests &&
    match step
    case Unauthorized(p) =>
      p == q && (w.client.requests[q] == Second || (w.client.requests[q] == First && w.client.stored.None?))
    case DeliverReply => w.client.requests[q] == Waiting && w.client.flight.Replied? && w.client.flight.reply.Err?
    case LoseReply => w.client.requests[q] == Waiting
    case _ => false
  }

  /** In any run a call ends in a 401 only through one of those ways, and through each of them
      it does. */
  lemma {:induction false} EndsIn401ExactlyWhen(w: System, steps: seq<Step>, q: RequestId)
    requires Valid(w, steps) && !(q in w.client.requests && w.client.requests[q] == Done(false))
    ensures var c := Exec(w, steps).client;
      (q in c.requests && c.requests[q] == Done(false))
      <==> exists i :: 0 <= i < |steps| && Valid(w, steps[..i]) && GivesUp(Exec(w, steps[..i]), steps[i], q)
    decreases |steps|
  {
    if steps != [] {
      var w1 := Next(w, steps[0]);
      GivesUpAtOnce(w, steps[0], q);
      if GivesUp(w, steps[0], q) {
        assert steps[..0] == [];
        assert Valid(w, steps[..0]) && Exec(w, steps[..0]) == w;
        DoneIsDone(w1, steps[1..], q);
      } else {
        EndsIn401ExactlyWhen(w1, steps[1..], q);
        forall i | 0 <= i < |steps[1..]|
          ensures (Valid(w1, steps[1..][..i]) <==> Valid(w, steps[..i + 1]))
          ensures Valid(w1, steps[1..][..i]) ==> Exec(w1, steps[1..][..i]) == Exec(w, steps[..i + 1])
        {
          assert steps[..i + 1][0] == steps[0] && steps[..i + 1][1..] == steps[1..][..i];
        }
        Shift(w, steps, q);
      }
    }
  }

  lemma Shift(w: System, steps: seq<Step>, q: RequestId)
    requires steps != [] && Enabled(w, steps[0]) && !GivesUp(w, steps[0], q)
    requires var w1 := Next(w, steps[0]);
      forall i :: 0 <= i < |steps[1..]| ==>
        && (Valid(w1, steps[1..][..i]) <==> Valid(w, steps[..i + 1]))
        && (Valid(w1, steps[1..][..i]) ==> Exec(w1, steps[1..][..i]) == Exec(w, steps[..i + 1]))
    ensures var w1 := Next(w, steps[0]);
      (exists i :: 0 <= i < |steps[1..]| && Valid(w1, steps[1..][..i]) && GivesUp(Exec(w1, steps[1..][..i]), steps[1..][i], q))
      <==> exists i :: 0 <= i < |steps| && Valid(w, steps[..i]) && GivesUp(Exec(w, steps[..i]), steps[i], q)
  {
    var w1 := Next(w, steps[0]);
    if i :| 0 <= i < |steps[1..]| && Valid(w1, steps[1..][..i]) && GivesUp(Exec(w1, steps[1..][..i]), steps[1..][i], q) {
      assert Valid(w, steps[..i + 1]) && GivesUp(Exec(w, steps[..i + 1]), steps[i + 1], q);
    }
    if j :| 0 <= j < |steps| && Valid(w, steps[..j]) && GivesUp(Exec(w, steps[..j]), steps[j], q) {
      assert steps[..0] == [];
      if j == 0 { assert false; }
      var i := j - 1;
      assert steps[1..][i] == steps[j] && steps[..i + 1] == steps[..j];
      assert Valid(w1, steps[1..][..i]) && GivesUp(Exec(w1, steps[1..][..i]), steps[1..][i], q);
    }
  }

  lemma GivesUpAtOnce(w: System, step: Step, q: RequestId)
    requires Enabled(w, step) && !(q in w.client.requests && w.client.requests[q] == Done(false))
    ensures var c := Next(w, step).client;
      (q in c.requests && c.requests[q] == Done(false)) <==> GivesUp(w, step, q)
  {}

  lemma {:induction false} DoneIsDone(w: System, steps: seq<Step>, q: RequestId)
    requires Valid(w, steps) && q in w.client.requests && w.client.requests[q] == Done(false)
    ensures var c := Exec(w, steps).client; q in c.requests && c.requests[q] == Done(false)
    decreases |steps|
  {
    if steps != [] { DoneIsDone(Next(w, steps[0]), steps[1..], q); }
  }

  /** Nobody waits without a flight. */
  ghost predicate SingleFlight(c: Client) {
    c.flight.Idle? ==> forall q :: q in c.requests ==> c.requests[q] != Waiting
  }

  /** Refresh requests the server answered, or that never reached it. */
  function Landed(steps: seq<Step>): nat {
    if steps == [] then 0
    else (if steps[0].ServeRefresh? || steps[0].RefuseRefresh? then 1 else 0) + Landed(steps[1..])
  }

  function Aloft(c: Client): nat {
    if c.flight.Sent? then 1 else 0
  }

  /** Over any run, all refreshes but at most one have landed, and nobody is left waiting. */
  lemma {:induction false} OneFlightAtATime(w: System, steps: seq<Step>)
    requires SingleFlight(w.client) && Valid(w, steps)
    ensures SingleFlight(Exec(w, steps).client)
    ensures var c := Exec(w, steps).client;
      c.refreshes + Aloft(w.client) == w.client.refreshes + Landed(steps) + Aloft(c)
    decreases |steps|
  {
    if steps != [] {
      FlightNext(w, steps[0]);
      OneFlightAtATime(Next(w, steps[0]), steps[1..]);
    }
  }

  lemma FlightNext(w: System, step: Step)
    requires SingleFlight(w.client) && Enabled(w, step)
    ensures SingleFlight(Next(w, step).client)
    ensures var c := Next(w, step).client;
      c.refreshes + Aloft(w.client)
      == w.client.refreshes + Aloft(c) + if step.ServeRefresh? || step.RefuseRefresh? then 1 else 0
  {}

  /** The client's own variables. */
  class ApiClient {
    var accessToken: Option<Sessions.Signed>
    var refreshToken: Option<Raw>
    var refreshInFlight: Flight
    var requests: map<RequestId, Request>
    var refreshes: nat

    ghost function View(): Client
      reads this
    {
      Client(accessToken, refreshToken, refreshInFlight, requests, refreshes)
    }

    constructor ()
      ensures View() == START.client
    {
      accessToken, refreshToken, refreshInFlight, requests, refreshes := None, None, Idle, map[], 0;
    }

    /** Returns false at once without a token; otherwise the caller waits on the flight. */
    method RefreshAccessToken() returns (wait: bool)
      modifies this`refreshInFlight, this`refreshes
      ensures wait <==> refreshToken.Some?
      ensures if refreshToken.Some? && old(refreshInFlight).Idle?
              then refreshInFlight == Sent(refreshToken.value) && refreshes == old(refreshes) + 1
              else refreshInFlight == old(refreshInFlight) && refreshes == old(refreshes)
    {
      if refreshToken.None? { return false; }
      if refreshInFlight.Idle? {
        refreshInFlight := Sent(refreshToken.value);
        refreshes := refreshes + 1;
      }
      wait := true;
    }

    method Raw401(q: RequestId)
      requires q in requests
      modifies this
      ensures View() == On401(old(View()), q)
      ensures accessToken == old(accessToken) && refreshToken == old(refreshToken)
      ensures requests == old(requests)[q :=
        if old(requests)[q] == First && refreshToken.Some? then Waiting else Done(false)]
      ensures old(requests)[q] == First && refreshToken.Some? ==> !refreshInFlight.Idle?
    {
      if requests[q] == First {
        var wait := RefreshAccessToken();
        if wait {
          requests := requests[q := Waiting];
          return;
        }
      }
      requests := requests[q := Done(false)];
    }

    method FlightEnds()
      requires refreshInFlight.Replied?
      modifies this
      ensures View() == OnReply(old(View()))
      ensures refreshInFlight.Idle? && requests.Keys == old(requests).Keys
      ensures var ok := old(refreshInFlight).reply.Ok?;
        && (forall q :: q in requests ==>
              requests[q] == if old(requests)[q] != Waiting then old(requests)[q] else if ok then Second else Done(false))
        && accessToken == (if ok then Some(old(refreshInFlight).reply.value.access) else old(accessToken))
        && refreshToken == (if ok then Some(old(refreshInFlight).reply.value.refresh) else old(refreshToken))
    {
      var reply := refreshInFlight.reply;
      if reply.Ok? {
        accessToken := Some(reply.value.access);
        refreshToken := Some(reply.value.refresh);
      }
      refreshInFlight := Idle;
      requests := Resume(requests, reply.Ok?);
    }

    /** The fetch throws: everybody who waited fails and the stored token stays. */
    method FlightFails()
      modifies this
      ensures View() == OnLoss(old(View()))
      ensures refreshInFlight.Idle? && requests.Keys == old(requests).Keys
      ensures accessToken == old(accessToken) && refreshToken == old(refreshToken)
      ensures forall q :: q in requests ==>
        requests[q] == if old(requests)[q] == Waiting then Done(false) else old(requests)[q]
    {
      refreshInFlight := Idle;
      requests := Resume(requests, false);
    }
  }
}
