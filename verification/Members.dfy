/** Membership, invitations and the last-owner rule.

    Each request is one serial transaction: the guards and the owner count see the state the
    writes apply to.  Tokens are fresh; an address belongs to one account. */
module Members {
  import opened Wrappers

  type OrgId = nat
  type UserId = nat
  type Email = string
  type Token = nat
  type Time = int

  datatype Role = Owner | Admin | Responder | Viewer

  datatype Invitation = Invitation(
    org: OrgId, email: Email, role: Role, invitedBy: UserId, expiresAt: Time, acceptedAt: Option<Time>)

  datatype Error =
    | NotFound | NotAllowed | LastOwner | AlreadyMember | InvitationPending | InvalidInvitation | WrongAccount

  const INVITATION_TTL: int := 7 * 24 * 3600

  /** `ownerIssued` and `accepted` are histories: the tokens issued by someone who was an
      owner then, and the tokens accepted, in order. */
  datatype State = State(
    orgs: map<OrgId, map<UserId, Role>>, invitations: map<Token, Invitation>, emails: map<UserId, Email>,
    ownerIssued: set<Token>, issued: set<Token>, accepted: seq<Token>)

  const EMPTY: State := State(map[], map[], map[], {}, {}, [])

  // ----------------------------------------------------------------- guards

  /** Granting the owner role, or changing somebody who has it, takes an owner. */
  predicate GuardFails(actor: Role, target: Role, newRole: Option<Role>) {
    (target == Owner || newRole == Some(Owner)) && actor != Owner
  }

  function Owners(members: map<UserId, Role>): set<UserId> {
    set u | u in members && members[u] == Owner
  }

  /** Who acts: a member with its role, or an API key, which stands as an admin. */
  datatype Actor = Member(user: UserId) | ApiKey

  predicate IsActor(s: State, org: OrgId, a: Actor) {
    org in s.orgs && (a.Member? ==> a.user in s.orgs[org])
  }

  function RoleOf(s: State, org: OrgId, a: Actor): Role
    requires IsActor(s, org, a)
  {
    if a.Member? then s.orgs[org][a.user] else Admin
  }

  predicate ActsAsOwner(s: State, org: OrgId, a: Actor) {
    IsActor(s, org, a) && RoleOf(s, org, a) == Owner
  }

  // --------------------------------------------------------------- requests

  function ChangeError(s: State, org: OrgId, a: Actor, u: UserId, newRole: Role): Option<Error>
    requires IsActor(s, org, a)
  {
    var members := s.orgs[org];
    if u !in members then Some(NotFound)
    else if GuardFails(RoleOf(s, org, a), members[u], Some(newRole)) then Some(NotAllowed)
    else if members[u] == Owner && newRole != Owner && |Owners(members)| == 1 then Some(LastOwner)
    else None
  }

  function RemoveError(s: State, org: OrgId, a: Actor, u: UserId): Option<Error>
    requires IsActor(s, org, a)
  {
    var members := s.orgs[org];
    if u !in members then Some(NotFound)
    else if GuardFails(RoleOf(s, org, a), members[u], None) then Some(NotAllowed)
    else if members[u] == Owner && |Owners(members)| == 1 then Some(LastOwner)
    else None
  }

  predicate IsPending(i: Invitation, org: OrgId, email: Email) {
    i.org == org && i.email == email && i.acceptedAt.None?
  }

  predicate HasPending(s: State, org: OrgId, email: Email) {
    exists t :: t in s.invitations && IsPending(s.invitations[t], org, email)
  }

  predicate MemberHasEmail(s: State, org: OrgId, email: Email)
    requires org in s.orgs
  {
    exists u :: u in s.emails && s.emails[u] == email && u in s.orgs[org]
  }

  function InviteError(s: State, org: OrgId, inviter: UserId, email: Email, role: Role): Option<Error>
    requires IsActor(s, org, Member(inviter))
  {
    if GuardFails(RoleOf(s, org, Member(inviter)), Viewer, Some(role)) then Some(NotAllowed)
    else if MemberHasEmail(s, org, email) then Some(AlreadyMember)
    else if HasPending(s, org, email) then Some(InvitationPending)
    else None
  }

  function AcceptError(s: State, u: UserId, t: Token, now: Time): Option<Error>
    requires u in s.emails
  {
    if t !in s.invitations then Some(InvalidInvitation)
    else
      var i := s.invitations[t];
      if i.acceptedAt.Some? || i.expiresAt <= now then Some(InvalidInvitation)
      else if i.email != s.emails[u] then Some(WrongAccount)
      else if i.org !in s.orgs then Some(InvalidInvitation)
      else None
  }

  datatype Step =
    | AddUser(u: UserId, email: Email)
    | CreateOrg(org: OrgId, owner: UserId)
    | ChangeRole(org: OrgId, actor: Actor, u: UserId, role: Role)
    | Remove(org: OrgId, actor: Actor, u: UserId)
    | Invite(org: OrgId, inviter: UserId, email: Email, role: Role, token: Token, now: Time)
    | Revoke(org: OrgId, actor: Actor, token: Token)
    | Accept(u: UserId, token: Token, now: Time)

  predicate Enabled(s: State, step: Step) {
    match step
    case AddUser(u, email) => u !in s.emails && forall v :: v in s.emails ==> s.emails[v] != email
    case CreateOrg(org, owner) => org !in s.orgs && owner in s.emails
    case ChangeRole(org, a, _, _) => IsActor(s, org, a)
    case Remove(org, a, _) => IsActor(s, org, a)
    case Invite(org, inviter, _, _, t, _) => IsActor(s, org, Member(inviter)) && t !in s.issued
    case Revoke(org, a, _) => IsActor(s, org, a)
    case Accept(u, _, _) => u in s.emails
  }

  function Without<K(==), V>(m: map<K, V>, k: K): map<K, V> {
    map x | x in m && x != k :: m[x]
  }

  function WithRole(members: map<UserId, Role>, u: UserId, role: Role): map<UserId, Role> {
    members[u := role]
  }

  function Accepted(s: State, u: UserId, t: Token, now: Time): State
    requires t in s.invitations && s.invitations[t].org in s.orgs
  {
    var i := s.invitations[t];
    var s1 := s.(invitations := s.invitations[t := i.(acceptedAt := Some(now))], accepted := s.accepted + [t]);
    if u in s.orgs[i.org] then s1 else s1.(orgs := s.orgs[i.org := WithRole(s.orgs[i.org], u, i.role)])
  }

  /** A request that fails changes nothing. */
  function Next(s: State, step: Step): State
    requires Enabled(s, step)
  {
    match step
    case AddUser(u, email) => s.(emails := s.emails[u := email])
    case CreateOrg(org, owner) => s.(orgs := s.orgs[org := map[owner := Owner]])
    case ChangeRole(org, a, u, role) =>
      if ChangeError(s, org, a, u, role).Some? then s
      else s.(orgs := s.orgs[org := WithRole(s.orgs[org], u, role)])
    case Remove(org, a, u) =>
      if RemoveError(s, org, a, u).Some? then s
      else s.(orgs := s.orgs[org := Without(s.orgs[org], u)])
    case Invite(org, inviter, email, role, t, now) =>
      if InviteError(s, org, inviter, email, role).Some? then s
      else s.(invitations := s.invitations[t := Invitation(org, email, role, inviter, now + INVITATION_TTL, None)],
              issued := s.issued + {t},
              ownerIssued := if ActsAsOwner(s, org, Member(inviter)) then s.ownerIssued + {t} else s.ownerIssued)
    case Revoke(org, _, t) =>
      if t in s.invitations && s.invitations[t].org == org && s.invitations[t].acceptedAt.None?
      then s.(invitations := Without(s.invitations, t)) else s
    case Accept(u, t, now) =>
      if AcceptError(s, u, t, now).Some? then s else Accepted(s, u, t, now)
  }

  ghost predicate Valid(s: State, steps: seq<Step>)
    decreases |steps|
  {
    steps == [] || (Enabled(s, steps[0]) && Valid(Next(s, steps[0]), steps[1..]))
  }

  ghost function Exec(s: State, steps: seq<Step>): State
    requires Valid(s, steps)
    decreases |steps|
  {
    if steps == [] then s else Exec(Next(s, steps[0]), steps[1..])
  }

  // -------------------------------------------------------------- invariant

  ghost predicate HasOwner(members: map<UserId, Role>) {
    exists u :: u in members && members[u] == Owner
  }

  ghost predicate AcceptedOnce(s: State) {
    && (forall i :: 0 <= i < |s.accepted| ==>
          s.accepted[i] in s.issued
          && (s.accepted[i] in s.invitations ==> s.invitations[s.accepted[i]].acceptedAt.Some?))
    && (forall i, j :: 0 <= i < j < |s.accepted| ==> s.accepted[i] != s.accepted[j])
  }

  ghost predicate OnePending(s: State) {
    forall a, b :: a in s.invitations && b in s.invitations && a != b ==>
      !(s.invitations[a].org == s.invitations[b].org && s.invitations[a].email == s.invitations[b].email
        && s.invitations[a].acceptedAt.None? && s.invitations[b].acceptedAt.None?)
  }

  ghost predicate Inv(s: State) {
    && (forall org :: org in s.orgs ==> HasOwner(s.orgs[org]))
    && s.invitations.Keys <= s.issued
    && (forall t :: t in s.invitations && s.invitations[t].role == Owner ==> t in s.ownerIssued)
    && AcceptedOnce(s) && OnePending(s)
  }

  /** Taking one owner away leaves another, unless it was the only one. */
  lemma AnotherOwner(members: map<UserId, Role>, u: UserId)
    requires u in members && members[u] == Owner && |Owners(members)| != 1
    ensures exists v :: v in members && v != u && members[v] == Owner
  {
    assert u in Owners(members);
    var rest := Owners(members) - {u};
    assert |Owners(members)| == |rest| + 1;
    var v :| v in rest;
    assert v in members && v != u && members[v] == Owner;
  }

  lemma OwnerRemains(s: State, step: Step, org: OrgId)
    requires Inv(s) && Enabled(s, step) && org in Next(s, step).orgs
    ensures HasOwner(Next(s, step).orgs[org])
  {
    var s' := Next(s, step);
    match step
    case ChangeRole(o, a, u, role) =>
      if o == org && ChangeError(s, o, a, u, role).None? && s.orgs[o][u] == Owner && role != Owner {
        AnotherOwner(s.orgs[o], u);
        var v :| v in s.orgs[o] && v != u && s.orgs[o][v] == Owner;
        assert v in s'.orgs[o] && s'.orgs[o][v] == Owner;
      } else {
        OwnerStays(s, step, org);
      }
    case Remove(o, a, u) =>
      if o == org && RemoveError(s, o, a, u).None? && s.orgs[o][u] == Owner {
        AnotherOwner(s.orgs[o], u);
        var v :| v in s.orgs[o] && v != u && s.orgs[o][v] == Owner;
        assert v in s'.orgs[o] && s'.orgs[o][v] == Owner;
      } else {
        OwnerStays(s, step, org);
      }
    case CreateOrg(o, owner) =>
      if o == org { assert owner in s'.orgs[o] && s'.orgs[o][owner] == Owner; }
    case _ => OwnerStays(s, step, org);
  }

  /** A step that demotes or removes no owner of the organisation keeps its owners. */
  lemma OwnerStays(s: State, step: Step, org: OrgId)
    requires Inv(s) && Enabled(s, step) && org in Next(s, step).orgs
    requires step.CreateOrg? ==> step.org != org
    requires step.ChangeRole? && step.org == org ==>
      ChangeError(s, org, step.actor, step.u, step.role).Some? || s.orgs[org][step.u] != Owner || step.role == Owner
    requires step.Remove? && step.org == org ==>
      RemoveError(s, org, step.actor, step.u).Some? || s.orgs[org][step.u] != Owner
    ensures HasOwner(Next(s, step).orgs[org])
  {
    var v :| v in s.orgs[org] && s.orgs[org][v] == Owner;
    assert v in Next(s, step).orgs[org] && Next(s, step).orgs[org][v] == Owner;
  }

  lemma InvitationsNext(s: State, step: Step)
    requires Inv(s) && Enabled(s, step)
    ensures var s' := Next(s, step);
      && s'.invitations.Keys <= s'.issued && AcceptedOnce(s')
      && (forall t :: t in s'.invitations && s'.invitations[t].role == Owner ==> t in s'.ownerIssued)
  {}

  lemma PendingNext(s: State, step: Step)
    requires OnePending(s) && s.invitations.Keys <= s.issued && Enabled(s, step)
    ensures OnePending(Next(s, step))
  {}

  lemma InvNext(s: State, step: Step)
    requires Inv(s) && Enabled(s, step)
    ensures Inv(Next(s, step))
  {
    forall org | org in Next(s, step).orgs ensures HasOwner(Next(s, step).orgs[org]) { OwnerRemains(s, step, org); }
    InvitationsNext(s, step);
    PendingNext(s, step);
  }

  lemma {:induction false} InvRun(s: State, steps: seq<Step>)
    requires Inv(s) && Valid(s, steps)
    ensures Inv(Exec(s, steps))
    decreases |steps|
  {
    if steps != [] {
      InvNext(s, steps[0]);
      InvRun(Next(s, steps[0]), steps[1..]);
    }
  }

  // ---------------------------------------------------------------- results

  /** Every organisation has an owner in every reachable state. */
  lemma AlwaysAnOwner(steps: seq<Step>, org: OrgId)
    requires Valid(EMPTY, steps) && org in Exec(EMPTY, steps).orgs
    ensures HasOwner(Exec(EMPTY, steps).orgs[org])
  {
    InvRun(EMPTY, steps);
  }

  /** An organisation's owners change only when a current owner changes a role or removes a
      member, or when somebody accepts an invitation that an owner issued. */
  lemma OwnersChangeOnlyByOwners(s: State, step: Step, org: OrgId)
    requires Inv(s) && Enabled(s, step) && org in s.orgs
    requires Owners(Next(s, step).orgs[org]) != Owners(s.orgs[org])
    ensures match step
            case ChangeRole(o, a, _, _) => o == org && ActsAsOwner(s, org, a)
            case Remove(o, a, _) => o == org && ActsAsOwner(s, org, a)
            case Accept(_, t, _) => t in s.invitations && s.invitations[t].org == org && t in s.ownerIssued
            case _ => false
  {}

  /** Each invitation is accepted at most once over any run, and an organisation never has
      two pending invitations for one address. */
  lemma InvitationsAreSingleUse(steps: seq<Step>, i: nat, j: nat)
    requires Valid(EMPTY, steps)
    ensures i < j < |Exec(EMPTY, steps).accepted| ==> Exec(EMPTY, steps).accepted[i] != Exec(EMPTY, steps).accepted[j]
    ensures OnePending(Exec(EMPTY, steps))
  {
    InvRun(EMPTY, steps);
  }

  /** There is exactly one owner, and it is `u`, iff every owner is `u`. */
  lemma LastOwnerIs(members: map<UserId, Role>, u: UserId)
    ensures u in members && members[u] == Owner ==>
      (|Owners(members)| == 1 <==> forall v :: v in members && members[v] == Owner ==> v == u)
  {
    if u in members && members[u] == Owner {
      var rest := Owners(members) - {u};
      assert Owners(members) == rest + {u} && |Owners(members)| == |rest| + 1;
      if rest != {} {
        var v :| v in rest;
        assert v in members && members[v] == Owner && v != u;
      } else {
        assert forall v :: v in members && members[v] == Owner ==> v in Owners(members);
      }
    }
  }

  // ------------------------------------------------------- the service's code

  class MemberService {
    var orgs: map<OrgId, map<UserId, Role>>
    var invitations: map<Token, Invitation>
    var emails: map<UserId, Email>
    ghost var ownerIssued: set<Token>
    ghost var issued: set<Token>
    ghost var accepted: seq<Token>

    ghost function View(): State
      reads this
    {
      State(orgs, invitations, emails, ownerIssued, issued, accepted)
    }

    constructor ()
      ensures View() == EMPTY
    {
      orgs, invitations, emails, ownerIssued, issued, accepted := map[], map[], map[], {}, {}, [];
    }

    method CreateOrganization(org: OrgId, owner: UserId)
      requires Enabled(View(), CreateOrg(org, owner))
      modifies this
      ensures View() == Next(old(View()), CreateOrg(org, owner))
      ensures org in orgs && orgs[org] == map[owner := Owner]
      ensures forall o :: o != org ==> (o in orgs <==> o in old(orgs)) && (o in orgs ==> orgs[o] == old(orgs)[o])
    {
      orgs := orgs[org := map[]];
      orgs := orgs[org := WithRole(orgs[org], owner, Owner)];
    }

    method OwnerCount(org: OrgId) returns (count: nat)
      requires org in orgs
      ensures count == |Owners(orgs[org])|
    {
      var members := orgs[org];
      var todo := members.Keys;
      var found: set<UserId> := {};
      while todo != {}
        invariant todo <= members.Keys
        invariant found == set u | u in members && u !in todo && members[u] == Owner
        decreases |todo|
      {
        var u :| u in todo;
        todo := todo - {u};
        if members[u] == Owner { found := found + {u}; }
      }
      assert found == Owners(members);
      count := |found|;
    }

    method ChangeRoleOf(org: OrgId, actor: Actor, u: UserId, role: Role) returns (error: Option<Error>)
      requires Enabled(View(), ChangeRole(org, actor, u, role))
      modifies this
      ensures View() == Next(old(View()), ChangeRole(org, actor, u, role))
      ensures error == ChangeError(old(View()), org, actor, u, role)
      ensures var members := old(orgs)[org];
        var owner := actor.Member? && members[actor.user] == Owner;
        && (error == Some(NotFound) <==> u !in members)
        && (error == Some(NotAllowed) <==> u in members && (members[u] == Owner || role == Owner) && !owner)
        && (error == Some(LastOwner) <==>
              u in members && owner && members[u] == Owner && role != Owner
              && forall v :: v in members && members[v] == Owner ==> v == u)
        && (error.Some? ==> error.value in {NotFound, NotAllowed, LastOwner} && orgs == old(orgs))
        && (error.None? ==> org in orgs && orgs[org] == members[u := role] && orgs == old(orgs)[org := orgs[org]])
    {
      LastOwnerIs(orgs[org], u);
      if u !in orgs[org] { return Some(NotFound); }
      var actorRole := if actor.Member? then orgs[org][actor.user] else Admin;
      var current := orgs[org][u];
      if GuardFails(actorRole, current, Some(role)) { return Some(NotAllowed); }
      if current == Owner && role != Owner {
        var count := OwnerCount(org);
        if count == 1 { return Some(LastOwner); }
      }
      orgs := orgs[org := WithRole(orgs[org], u, role)];
      error := None;
    }

    method RemoveMember(org: OrgId, actor: Actor, u: UserId) returns (error: Option<Error>)
      requires Enabled(View(), Remove(org, actor, u))
      modifies this
      ensures View() == Next(old(View()), Remove(org, actor, u))
      ensures error == RemoveError(old(View()), org, actor, u)
      ensures var members := old(orgs)[org];
        var owner := actor.Member? && members[actor.user] == Owner;
        && (error == Some(NotFound) <==> u !in members)
        && (error == Some(NotAllowed) <==> u in members && members[u] == Owner && !owner)
        && (error == Some(LastOwner) <==>
              u in members && owner && members[u] == Owner
              && forall v :: v in members && members[v] == Owner ==> v == u)
        && (error.Some? ==> error.value in {NotFound, NotAllowed, LastOwner} && orgs == old(orgs))
        && (error.None? ==>
              org in orgs && orgs[org] == members - {u} && orgs == old(orgs)[org := orgs[org]])
    {
      LastOwnerIs(orgs[org], u);
      if u !in orgs[org] { return Some(NotFound); }
      var actorRole := if actor.Member? then orgs[org][actor.user] else Admin;
      if GuardFails(actorRole, orgs[org][u], None) { return Some(NotAllowed); }
      if orgs[org][u] == Owner {
        var count := OwnerCount(org);
        if count == 1 { return Some(LastOwner); }
      }
      orgs := orgs[org := Without(orgs[org], u)];
      error := None;
    }

    method CreateInvitation(org: OrgId, inviter: UserId, email: Email, role: Role, t: Token, now: Time)
      returns (error: Option<Error>)
      requires Enabled(View(), Invite(org, inviter, email, role, t, now))
      modifies this
      ensures View() == Next(old(View()), Invite(org, inviter, email, role, t, now))
      ensures error == InviteError(old(View()), org, inviter, email, role)
      ensures orgs == old(orgs) && emails == old(emails)
      ensures error == Some(NotAllowed) <==> role == Owner && orgs[org][inviter] != Owner
      ensures error.None? <==>
        && (role == Owner ==> orgs[org][inviter] == Owner)
        && (forall u :: u in orgs[org] && u in emails ==> emails[u] != email)
        && forall p :: p in old(invitations) && old(invitations)[p].org == org && old(invitations)[p].email == email ==>
             old(invitations)[p].acceptedAt.Some?
      ensures invitations == if error.Some? then old(invitations)
        else old(invitations)[t := Invitation(org, email, role, inviter, now + 7 * 24 * 3600, None)]
    {
      if GuardFails(orgs[org][inviter], Viewer, Some(role)) { return Some(NotAllowed); }
      if exists u :: u in emails && emails[u] == email && u in orgs[org] { return Some(AlreadyMember); }
      if exists p :: p in invitations && IsPending(invitations[p], org, email) { return Some(InvitationPending); }
      invitations := invitations[t := Invitation(org, email, role, inviter, now + INVITATION_TTL, None)];
      issued := issued + {t};
      if orgs[org][inviter] == Owner { ownerIssued := ownerIssued + {t}; }
      error := None;
    }

    method RevokeInvitation(org: OrgId, actor: Actor, t: Token) returns (error: Option<Error>)
      requires Enabled(View(), Revoke(org, actor, t))
      modifies this
      ensures View() == Next(old(View()), Revoke(org, actor, t))
      ensures error.None? <==>
        t in old(invitations) && old(invitations)[t].org == org && old(invitations)[t].acceptedAt.None?
      ensures orgs == old(orgs) && invitations == if error.None? then old(invitations) - {t} else old(invitations)
    {
      if t !in invitations || invitations[t].org != org || invitations[t].acceptedAt.Some? { return Some(NotFound); }
      invitations := Without(invitations, t);
      error := None;
    }

    method AcceptInvitation(u: UserId, t: Token, now: Time) returns (error: Option<Error>)
      requires Enabled(View(), Accept(u, t, now))
      modifies this
      ensures View() == Next(old(View()), Accept(u, t, now))
      ensures error == AcceptError(old(View()), u, t, now)
      ensures error.None? <==>
        && t in old(invitations) && old(invitations)[t].acceptedAt.None? && now < old(invitations)[t].expiresAt
        && old(invitations)[t].email == emails[u] && old(invitations)[t].org in old(orgs)
      ensures error == Some(WrongAccount) <==>
        && t in old(invitations) && old(invitations)[t].acceptedAt.None? && now < old(invitations)[t].expiresAt
        && old(invitations)[t].email != emails[u]
      ensures error.Some? ==> orgs == old(orgs) && invitations == old(invitations)
      ensures error.None? ==>
        var i := old(invitations)[t];
        && invitations == old(invitations)[t := i.(acceptedAt := Some(now))]
        && i.org in orgs && orgs == old(orgs)[i.org := orgs[i.org]]
        && orgs[i.org] == if u in old(orgs)[i.org] then old(orgs)[i.org] else old(orgs)[i.org][u := i.role]
    {
      if t !in invitations || invitations[t].acceptedAt.Some? || invitations[t].expiresAt <= now {
        return Some(InvalidInvitation);
      }
      var invitation := invitations[t];
      if invitation.email != emails[u] { return Some(WrongAccount); }
      if invitation.org !in orgs { return Some(InvalidInvitation); }
      accepted := accepted + [t];
      if u !in orgs[invitation.org] {
        orgs := orgs[invitation.org := WithRole(orgs[invitation.org], u, invitation.role)];
      }
      invitations := invitations[t := invitation.(acceptedAt := Some(now))];
      error := None;
    }
  }
}
