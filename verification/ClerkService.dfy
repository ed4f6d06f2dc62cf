/** The handlers as they run: collections changed in place, row by row. */
module ClerkService {
  import opened Tables
  import opened Clerk
  import opened ClerkLaws

  class Service {
    var users: map<string, User>
    var emails: seq<Email>
    var orgs: map<string, Org>
    var memberships: seq<Membership>
    var invitations: seq<Invitation>
    var sessions: seq<Session>

    ghost function Value(): State
      reads this
    {
      State(users, emails, orgs, memberships, invitations, sessions)
    }

    constructor ()
      ensures Value() == EMPTY
    {
      users, emails, orgs, memberships, invitations, sessions := map[], [], map[], [], [], [];
    }

    /** Takes the primary mark from the user's other addresses and writes this one into the user's record. */
    method MakePrimaryEmail(user: string, email: string)
      requires user in users
      modifies this`users, this`emails
      ensures Value() == MadePrimary(old(Value()), user, email)
    {
      for i := 0 to |emails|
        invariant |emails| == |old(emails)| && users == old(users)
        invariant forall j :: 0 <= j < i ==> emails[j] == Demoted(old(emails), user, email)[j]
        invariant forall j :: i <= j < |emails| ==> emails[j] == old(emails)[j]
      {
        var existing := emails[i];
        if existing.user == user && existing.id != email && existing.primary {
          emails := emails[i := existing.(primary := false)];
        }
      }
      assert emails == Demoted(old(emails), user, email);
      users := users[user := users[user].(primary := Some(email))];
    }

    method HandleCreateEmail(id: string, user: string, primary: bool) returns (found: bool)
      modifies this`users, this`emails
      ensures Value() == Apply(old(Value()), CreateEmail(id, user, primary)) && found == (user in old(users))
    {
      hide Demoted;
      if user !in users {
        return false;
      }
      emails := emails + [Email(id, user, primary)];
      if primary {
        MakePrimaryEmail(user, id);
      }
      return true;
    }

    method HandlePatchEmail(id: string, primary: bool) returns (found: bool)
      modifies this`users, this`emails
      ensures Value() == Apply(old(Value()), PatchEmail(id, primary))
    {
      hide Demoted;
      var i := Find(emails, EmailKey, id);
      if i.None? {
        return false;
      }
      if primary {
        if emails[i.value].user in users {
          MakePrimaryEmail(emails[i.value].user, id);
        }
        emails := emails[i.value := emails[i.value].(primary := true)];
      }
      return true;
    }

    method HandleDeleteEmail(id: string) returns (found: bool)
      modifies this`users, this`emails
      ensures Value() == Apply(old(Value()), DeleteEmail(id))
    {
      var i := Find(emails, EmailKey, id);
      if i.None? {
        return false;
      }
      var email := emails[i.value];
      emails := DeleteAt(emails, i.value);
      if email.primary && email.user in users {
        var next := Find(emails, (x: Email) => x.user, email.user);
        if next.Some? {
          emails := emails[next.value := emails[next.value].(primary := true)];
          users := users[email.user := users[email.user].(primary := Some(emails[next.value].id))];
        } else {
          users := users[email.user := users[email.user].(primary := None)];
        }
      }
      return true;
    }

    method HandleCreateUser(id: string, emailIds: seq<string>)
      modifies this`users, this`emails
      ensures Value() == Apply(old(Value()), CreateUser(id, emailIds))
    {
      users := users[id := User(None)];
      var primary: Option<string> := None;
      for i := 0 to |emailIds|
        invariant emails == old(emails) + NewEmails(id, emailIds)[..i]
        invariant primary == if i == 0 then None else Some(emailIds[0])
        invariant users == old(users)[id := User(None)]
      {
        emails := emails + [Email(emailIds[i], id, i == 0)];
        if i == 0 {
          primary := Some(emailIds[0]);
        }
      }
      if primary.Some? {
        users := users[id := users[id].(primary := primary)];
        assert users == old(users)[id := User(primary)];
      }
      assert NewEmails(id, emailIds)[..|emailIds|] == NewEmails(id, emailIds);
    }

    method HandlePatchUser(id: string, primary: Option<Option<string>>) returns (found: bool)
      modifies this`users
      ensures Value() == Apply(old(Value()), PatchUser(id, primary))
    {
      if id !in users {
        return false;
      }
      if primary.Some? {
        users := users[id := users[id].(primary := primary.value)];
      }
      return true;
    }

    method HandleCreateSession(id: string, user: string) returns (found: bool)
      modifies this`sessions
      ensures Value() == Apply(old(Value()), CreateSession(id, user)) && found == (user in users)
    {
      if user !in users {
        return false;
      }
      sessions := sessions + [Session(id, user)];
      return true;
    }

    /** The cascade: addresses, then memberships with the counts of their organisations, sessions, then the user. */
    method HandleDeleteUser(id: string) returns (found: bool)
      modifies this
      ensures Value() == Apply(old(Value()), DeleteUser(id))
    {
      hide Left, Keep, MembershipIds;
      if id !in users {
        return false;
      }
      emails := KeepRows(emails, (e: Email) => e.user != id);
      var ids := MembershipIds(memberships, id);
      assert ids[0..] == ids;
      ghost var base := Value();
      for i := 0 to |ids|
        invariant LeftAll(Value(), ids[i..]) == LeftAll(base, ids)
        invariant users == old(users) && sessions == old(sessions)
      {
        assert ids[i..][0] == ids[i] && ids[i..][1..] == ids[i + 1..];
        Leave(ids[i]);
      }
      assert ids[|ids|..] == [];
      sessions := KeepRows(sessions, (s: Session) => s.user != id);
      users := users - {id};
      return true;
    }

    method Leave(id: string)
      modifies this`memberships, this`orgs
      ensures Value() == Left(old(Value()), id)
    {
      var i := Find(memberships, MembershipKey, id);
      if i.None? {
        return;
      }
      var org := memberships[i.value].org;
      memberships := DeleteAt(memberships, i.value);
      if org in orgs {
        orgs := orgs[org := orgs[org].(members := Max(0, orgs[org].members - 1))];
      }
    }

    method HandleCreateOrganization(id: string, createdBy: string, membership: string)
      modifies this`orgs, this`memberships
      ensures Value() == Apply(old(Value()), CreateOrg(id, createdBy, membership))
    {
      orgs := orgs[id := Org(0, 0)];
      if createdBy in users {
        memberships := memberships + [Membership(membership, id, createdBy)];
        orgs := orgs[id := orgs[id].(members := 1)];
        assert orgs == old(orgs)[id := Org(1, 0)];
      }
    }

    method HandleDeleteOrganization(id: string) returns (found: bool)
      modifies this`orgs, this`memberships, this`invitations
      ensures Value() == Apply(old(Value()), DeleteOrg(id)) && found == (id in old(orgs))
    {
      hide Keep;
      if id !in orgs {
        return false;
      }
      memberships := KeepRows(memberships, (m: Membership) => m.org != id);
      invitations := KeepRows(invitations, (v: Invitation) => v.org != id);
      orgs := orgs - {id};
      return true;
    }

    method HandleCreateMembership(org: string, user: string, id: string) returns (joined: bool)
      modifies this`orgs, this`memberships
      ensures Value() == Apply(old(Value()), Join(org, user, id))
      ensures joined <==> org in orgs && user in users && !IsMember(old(Value()), org, user)
    {
      if org !in orgs || user !in users {
        return false;
      }
      var i := Find(memberships, Place, (org, user));
      if i.Some? {
        assert memberships[i.value] in memberships;
        return false;
      }
      assert forall m :: m in memberships ==> Place(m) != (org, user);
      memberships := memberships + [Membership(id, org, user)];
      orgs := orgs[org := orgs[org].(members := orgs[org].members + 1)];
      return true;
    }

    method HandleDeleteMembership(org: string, user: string) returns (found: bool)
      modifies this`orgs, this`memberships
      ensures Value() == Apply(old(Value()), RemoveMember(org, user))
    {
      if org !in orgs {
        return false;
      }
      var i := Find(memberships, Place, (org, user));
      if i.None? {
        return false;
      }
      Leave(memberships[i.value].id);
      return true;
    }

    method CreateInvitation(org: string, id: string)
      requires org in orgs
      modifies this`orgs, this`invitations
      ensures Value() == Invited(old(Value()), org, id) && org in orgs
    {
      invitations := invitations + [Invitation(id, org, true)];
      orgs := orgs[org := orgs[org].(pending := orgs[org].pending + 1)];
    }

    /** One invitation or many: the count is read again for each. */
    method HandleCreateInvitations(org: string, ids: seq<string>) returns (found: bool)
      modifies this`orgs, this`invitations
      ensures Value() == Apply(old(Value()), Invite(org, ids))
    {
      hide Invited;
      if org !in orgs {
        NobodyInvited(Value(), org, ids);
        return false;
      }
      assert ids[0..] == ids;
      for i := 0 to |ids|
        invariant org in orgs && InvitedAll(Value(), org, ids[i..]) == InvitedAll(old(Value()), org, ids)
        invariant users == old(users) && emails == old(emails) && memberships == old(memberships)
                  && sessions == old(sessions)
      {
        assert ids[i..][0] == ids[i] && ids[i..][1..] == ids[i + 1..];
        CreateInvitation(org, ids[i]);
      }
      assert ids[|ids|..] == [];
      return true;
    }

    method HandleRevokeInvitation(org: string, id: string) returns (revoked: bool)
      modifies this`orgs, this`invitations
      ensures Value() == Apply(old(Value()), Revoke(org, id))
    {
      if org !in orgs {
        return false;
      }
      var i := Find(invitations, InvitationKey, id);
      if i.None? || invitations[i.value].org != org || !invitations[i.value].pending {
        return false;
      }
      invitations := invitations[i.value := invitations[i.value].(pending := false)];
      orgs := orgs[org := orgs[org].(pending := Max(0, orgs[org].pending - 1))];
      return true;
    }
  }

  lemma {:induction false} NobodyInvited(c: State, org: string, ids: seq<string>)
    requires org !in c.orgs
    ensures InvitedAll(c, org, ids) == c
    decreases |ids|
  {
    if ids != [] {
      NobodyInvited(c, org, ids[1..]);
    }
  }

  /** Deletes, one by one, the rows that do not satisfy `p`. */
  method KeepRows<T>(rows: seq<T>, p: T -> bool) returns (r: seq<T>)
    ensures r == Keep(rows, p)
  {
    r := [];
    for i := 0 to |rows|
      invariant r == Keep(rows[..i], p)
    {
      assert rows[..i + 1][..i] == rows[..i];
      if p(rows[i]) {
        r := r + [rows[i]];
      }
    }
    assert rows[..|rows|] == rows;
  }
}
