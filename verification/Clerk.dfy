/** Users, e-mail addresses, sessions, organisations, memberships and invitations by value. */
module Clerk {
  import opened Tables

  datatype User = User(primary: Option<string>)
  datatype Email = Email(id: string, user: string, primary: bool)
  datatype Org = Org(members: int, pending: int)
  datatype Membership = Membership(id: string, org: string, user: string)
  datatype Invitation = Invitation(id: string, org: string, pending: bool)
  datatype Session = Session(id: string, user: string)
  datatype State = State(users: map<string, User>, emails: seq<Email>, orgs: map<string, Org>,
                         memberships: seq<Membership>, invitations: seq<Invitation>, sessions: seq<Session>)

  const EMPTY := State(map[], [], map[], [], [], [])

  function EmailKey(e: Email): string { e.id }
  function MembershipKey(m: Membership): string { m.id }
  function InvitationKey(i: Invitation): string { i.id }
  function Place(m: Membership): (string, string) { (m.org, m.user) }

  function Max(a: int, b: int): int {
    if a < b then b else a
  }

  function Keep<T>(rows: seq<T>, p: T -> bool): seq<T> {
    if rows == [] then [] else Keep(rows[..|rows| - 1], p) + if p(rows[|rows| - 1]) then [rows[|rows| - 1]] else []
  }

  // ---------------------------------------------------------------- e-mail addresses

  /** Every other primary address of the user stops being primary. */
  function Demoted(emails: seq<Email>, user: string, keep: string): (r: seq<Email>)
    ensures |r| == |emails|
    ensures forall i :: 0 <= i < |r| ==>
      r[i] == if emails[i].user == user && emails[i].id != keep then emails[i].(primary := false) else emails[i]
  {
    seq(|emails|, i requires 0 <= i < |emails| =>
      if emails[i].user == user && emails[i].id != keep then emails[i].(primary := false) else emails[i])
  }

  function MadePrimary(c: State, user: string, email: string): State {
    c.(emails := Demoted(c.emails, user, email),
       users := if user in c.users then c.users[user := c.users[user].(primary := Some(email))] else c.users)
  }

  function EmailCreated(c: State, id: string, user: string, primary: bool): State {
    if user !in c.users then c
    else
      var added := c.(emails := c.emails + [Email(id, user, primary)]);
      if primary then MadePrimary(added, user, id) else added
  }

  function EmailPatched(c: State, id: string, primary: bool): State {
    match Find(c.emails, EmailKey, id)
    case None => c
    case Some(i) =>
      if !primary then c
      else
        var made := if c.emails[i].user in c.users then MadePrimary(c, c.emails[i].user, id) else c;
        made.(emails := made.emails[i := made.emails[i].(primary := true)])
  }

  /** The first address left takes over from a deleted primary one. */
  function EmailDeleted(c: State, id: string): State {
    match Find(c.emails, EmailKey, id)
    case None => c
    case Some(i) =>
      var e, left := c.emails[i], DeleteAt(c.emails, i);
      if !e.primary || e.user !in c.users then c.(emails := left)
      else match Find(left, (x: Email) => x.user, e.user)
        case Some(j) => c.(emails := left[j := left[j].(primary := true)],
                           users := c.users[e.user := c.users[e.user].(primary := Some(left[j].id))])
        case None => c.(emails := left, users := c.users[e.user := c.users[e.user].(primary := None)])
  }

  // ---------------------------------------------------------------- users

  /** The new user's addresses; the first is primary. */
  function NewEmails(user: string, ids: seq<string>): (r: seq<Email>)
    ensures |r| == |ids| && forall i :: 0 <= i < |r| ==> r[i] == Email(ids[i], user, i == 0)
  {
    seq(|ids|, i requires 0 <= i < |ids| => Email(ids[i], user, i == 0))
  }

  function UserCreated(c: State, id: string, emailIds: seq<string>): State {
    c.(users := c.users[id := User(if emailIds == [] then None else Some(emailIds[0]))],
       emails := c.emails + NewEmails(id, emailIds))
  }

  function UserPatched(c: State, id: string, primary: Option<Option<string>>): State {
    if id !in c.users || primary.None? then c else c.(users := c.users[id := User(primary.value)])
  }

  /** A membership ends, and its organisation counts one member less. */
  function Left(c: State, id: string): State {
    match Find(c.memberships, MembershipKey, id)
    case None => c
    case Some(i) =>
      var org := c.memberships[i].org;
      c.(memberships := DeleteAt(c.memberships, i),
         orgs := if org in c.orgs then c.orgs[org := c.orgs[org].(members := Max(0, c.orgs[org].members - 1))]
                 else c.orgs)
  }

  function LeftAll(c: State, ids: seq<string>): State
    decreases |ids|
  {
    if ids == [] then c else LeftAll(Left(c, ids[0]), ids[1..])
  }

  function MembershipIds(memberships: seq<Membership>, user: string): seq<string> {
    if memberships == [] then []
    else
      var n := |memberships| - 1;
      MembershipIds(memberships[..n], user) + if memberships[n].user == user then [memberships[n].id] else []
  }

  function UserDeleted(c: State, id: string): State {
    if id !in c.users then c
    else
      var without := LeftAll(c.(emails := Keep(c.emails, (e: Email) => e.user != id)),
                             MembershipIds(c.memberships, id));
      without.(sessions := Keep(c.sessions, (s: Session) => s.user != id), users := without.users - {id})
  }

  function SessionCreated(c: State, id: string, user: string): State {
    if user !in c.users then c else c.(sessions := c.sessions + [Session(id, user)])
  }

  // ---------------------------------------------------------------- organisations

  function OrgCreated(c: State, id: string, createdBy: string, membership: string): State {
    if createdBy in c.users then
      c.(orgs := c.orgs[id := Org(1, 0)], memberships := c.memberships + [Membership(membership, id, createdBy)])
    else c.(orgs := c.orgs[id := Org(0, 0)])
  }

  function OrgDeleted(c: State, id: string): State {
    if id !in c.orgs then c
    else c.(memberships := Keep(c.memberships, (m: Membership) => m.org != id),
            invitations := Keep(c.invitations, (v: Invitation) => v.org != id), orgs := c.orgs - {id})
  }

  function Joined(c: State, org: string, user: string, id: string): State {
    if org !in c.orgs || user !in c.users || Find(c.memberships, Place, (org, user)).Some? then c
    else c.(memberships := c.memberships + [Membership(id, org, user)],
            orgs := c.orgs[org := c.orgs[org].(members := c.orgs[org].members + 1)])
  }

  function MemberRemoved(c: State, org: string, user: string): State {
    if org !in c.orgs then c
    else match Find(c.memberships, Place, (org, user))
      case None => c
      case Some(i) => Left(c, c.memberships[i].id)
  }

  function Invited(c: State, org: string, id: string): State {
    if org !in c.orgs then c
    else c.(invitations := c.invitations + [Invitation(id, org, true)],
            orgs := c.orgs[org := c.orgs[org].(pending := c.orgs[org].pending + 1)])
  }

  function InvitedAll(c: State, org: string, ids: seq<string>): State
    decreases |ids|
  {
    if ids == [] then c else InvitedAll(Invited(c, org, ids[0]), org, ids[1..])
  }

  function Revoked(c: State, org: string, id: string): State {
    if org !in c.orgs then c
    else match Find(c.invitations, InvitationKey, id)
      case None => c
      case Some(i) =>
        var v := c.invitations[i];
        if v.org != org || !v.pending then c
        else c.(invitations := c.invitations[i := v.(pending := false)],
                orgs := c.orgs[org := c.orgs[org].(pending := Max(0, c.orgs[org].pending - 1))])
  }

  // ---------------------------------------------------------------- runs

  datatype Event =
    | CreateUser(user: string, emailIds: seq<string>)
    | PatchUser(user: string, primaryId: Option<Option<string>>)
    | DeleteUser(user: string)
    | CreateSession(session: string, user: string)
    | CreateEmail(email: string, user: string, primary: bool)
    | PatchEmail(email: string, primary: bool)
    | DeleteEmail(email: string)
    | CreateOrg(org: string, createdBy: string, membership: string)
    | DeleteOrg(org: string)
    | Join(org: string, user: string, membership: string)
    | RemoveMember(org: string, user: string)
    | Invite(org: string, invitations: seq<string>)
    | Revoke(org: string, invitation: string)

  function Apply(c: State, ev: Event): State {
    match ev
    case CreateUser(user, emailIds) => UserCreated(c, user, emailIds)
    case PatchUser(user, primaryId) => UserPatched(c, user, primaryId)
    case DeleteUser(user) => UserDeleted(c, user)
    case CreateSession(session, user) => SessionCreated(c, session, user)
    case CreateEmail(email, user, primary) => EmailCreated(c, email, user, primary)
    case PatchEmail(email, primary) => EmailPatched(c, email, primary)
    case DeleteEmail(email) => EmailDeleted(c, email)
    case CreateOrg(org, createdBy, membership) => OrgCreated(c, org, createdBy, membership)
    case DeleteOrg(org) => OrgDeleted(c, org)
    case Join(org, user, membership) => Joined(c, org, user, membership)
    case RemoveMember(org, user) => MemberRemoved(c, org, user)
    case Invite(org, invitations) => InvitedAll(c, org, invitations)
    case Revoke(org, invitation) => Revoked(c, org, invitation)
  }

  ghost predicate Distinct(ids: seq<string>) {
    forall i, j :: 0 <= i < j < |ids| ==> ids[i] != ids[j]
  }

  /** New rows get names no row of their table carries. */
  ghost predicate Admissible(c: State, ev: Event) {
    match ev
    case CreateUser(user, emailIds) =>
      user !in c.users && Distinct(emailIds) && forall k :: k in emailIds ==> !HasKey(c.emails, EmailKey, k)
    case CreateEmail(email, _, _) => !HasKey(c.emails, EmailKey, email)
    case CreateOrg(org, _, membership) => org !in c.orgs && !HasKey(c.memberships, MembershipKey, membership)
    case Join(_, _, membership) => !HasKey(c.memberships, MembershipKey, membership)
    case Invite(_, invitations) =>
      Distinct(invitations) && forall k :: k in invitations ==> !HasKey(c.invitations, InvitationKey, k)
    case _ => true
  }

  ghost predicate AllAdmissible(c: State, evs: seq<Event>)
    decreases |evs|
  {
    evs == [] || (Admissible(c, evs[0]) && AllAdmissible(Apply(c, evs[0]), evs[1..]))
  }

  function Run(c: State, evs: seq<Event>): State
    decreases |evs|
  {
    if evs == [] then c else Run(Apply(c, evs[0]), evs[1..])
  }
}
