/** What every run of the organisations and e-mail addresses keeps. */
module ClerkLaws {
  import opened Tables
  import opened Clerk

  function InOrg(org: string): Membership -> bool {
    (m: Membership) => m.org == org
  }

  function PendingIn(org: string): Invitation -> bool {
    (v: Invitation) => v.org == org && v.pending
  }

  // ---------------------------------------------------------------- rows that stay

  lemma {:induction false} KeepHas<T(!new)>(rows: seq<T>, p: T -> bool)
    ensures forall r :: r in Keep(rows, p) <==> r in rows && p(r)
  {
    if rows != [] {
      var front := rows[..|rows| - 1];
      KeepHas(front, p);
      assert rows == front + [rows[|rows| - 1]];
    }
  }

  lemma {:induction false} KeepUnique<T(!new), K(!new)>(rows: seq<T>, p: T -> bool, key: T -> K)
    requires Unique(rows, key)
    ensures Unique(Keep(rows, p), key)
  {
    if rows != [] {
      var n := |rows| - 1;
      var front := rows[..n];
      assert forall i :: 0 <= i < n ==> front[i] == rows[i];
      KeepUnique(front, p, key);
      KeepHas(front, p);
      if p(rows[n]) {
        var kept := Keep(front, p);
        forall i | 0 <= i < |kept|
          ensures key(kept[i]) != key(rows[n])
        {
          assert kept[i] in front;
          var j :| 0 <= j < n && front[j] == kept[i];
          assert key(rows[j]) != key(rows[n]);
        }
      }
    }
  }

  lemma {:induction false} KeepCount<T>(rows: seq<T>, p: T -> bool, q: T -> bool)
    requires forall i :: 0 <= i < |rows| && q(rows[i]) ==> p(rows[i])
    ensures Count(Keep(rows, p), q) == Count(rows, q)
  {
    if rows != [] {
      var n := |rows| - 1;
      var front := rows[..n];
      assert forall i :: 0 <= i < n ==> front[i] == rows[i];
      KeepCount(front, p, q);
      CountAppend(Keep(front, p), q, rows[n]);
      if !p(rows[n]) {
        assert Keep(front, p) + [] == Keep(front, p);
      }
    }
  }

  // ---------------------------------------------------------------- memberships and invitations

  /** Counts are exact, a user is in an organisation at most once, and rows belong to live users and organisations. */
  ghost predicate CountsOk(c: State) {
    && (forall o :: o in c.orgs ==> c.orgs[o].members == Count(c.memberships, InOrg(o)))
    && (forall o :: o in c.orgs ==> c.orgs[o].pending == Count(c.invitations, PendingIn(o)))
  }

  ghost predicate RowsOk(c: State) {
    && (forall m :: m in c.memberships ==> m.org in c.orgs && m.user in c.users)
    && (forall v :: v in c.invitations ==> v.org in c.orgs)
    && (forall s :: s in c.sessions ==> s.user in c.users)
    && Unique(c.memberships, Place) && Unique(c.memberships, MembershipKey) && Unique(c.invitations, InvitationKey)
  }

  ghost predicate OrgsOk(c: State) {
    CountsOk(c) && RowsOk(c)
  }

  /** Ending a membership: the row is gone, all others stay, and the counts stay exact without help of the clamp. */
  lemma LeftLaw(c: State, id: string)
    requires OrgsOk(c)
    ensures OrgsOk(Left(c, id))
    ensures Left(c, id).users == c.users && Left(c, id).emails == c.emails && Left(c, id).orgs.Keys == c.orgs.Keys
    ensures Left(c, id).sessions == c.sessions
    ensures forall m :: m in Left(c, id).memberships <==> m in c.memberships && m.id != id
  {
    hide Count, Find;
    match Find(c.memberships, MembershipKey, id)
    case None =>
      assert forall m :: m in c.memberships ==> m.id != id;
    case Some(i) =>
      var m, after := c.memberships[i], Left(c, id);
      UniqueDelete(c.memberships, MembershipKey, i);
      UniqueDelete(c.memberships, Place, i);
      DeletedRows(c.memberships, i);
      CountPositive(c.memberships, InOrg(m.org), i);
      forall o | o in after.orgs
        ensures after.orgs[o].members == Count(after.memberships, InOrg(o))
      {
        CountDelete(c.memberships, InOrg(o), i);
      }
  }

  lemma DeletedRows(rows: seq<Membership>, i: nat)
    requires Unique(rows, MembershipKey) && i < |rows|
    ensures forall m :: m in DeleteAt(rows, i) <==> m in rows && m.id != rows[i].id
  {
    var left := DeleteAt(rows, i);
    forall m
      ensures m in left <==> m in rows && m.id != rows[i].id
    {
      if m in left {
        var j :| 0 <= j < |left| && left[j] == m;
        var j' := if j < i then j else j + 1;
        assert rows[j'] == m && MembershipKey(rows[j']) != MembershipKey(rows[i]);
      }
      if m in rows && m.id != rows[i].id {
        var j :| 0 <= j < |rows| && rows[j] == m;
        assert left[if j < i then j else j - 1] == m;
      }
    }
  }

  lemma {:induction false} LeftAllLaw(c: State, ids: seq<string>)
    requires OrgsOk(c)
    ensures OrgsOk(LeftAll(c, ids))
    ensures LeftAll(c, ids).users == c.users && LeftAll(c, ids).emails == c.emails
            && LeftAll(c, ids).orgs.Keys == c.orgs.Keys
    ensures LeftAll(c, ids).sessions == c.sessions
    ensures forall m :: m in LeftAll(c, ids).memberships <==> m in c.memberships && m.id !in ids
    decreases |ids|
  {
    hide OrgsOk, Left;
    if ids != [] {
      LeftLaw(c, ids[0]);
      LeftAllLaw(Left(c, ids[0]), ids[1..]);
      assert ids == [ids[0]] + ids[1..];
    }
  }

  lemma {:induction false} MembershipIdsLaw(rows: seq<Membership>, user: string)
    ensures forall m :: m in rows && m.user == user ==> m.id in MembershipIds(rows, user)
    ensures forall k :: k in MembershipIds(rows, user) ==> exists m :: m in rows && m.user == user && m.id == k
  {
    if rows != [] {
      var n := |rows| - 1;
      var front := rows[..n];
      MembershipIdsLaw(front, user);
      assert rows == front + [rows[n]];
    }
  }

  lemma IdOfOne(rows: seq<Membership>, a: Membership, b: Membership)
    requires Unique(rows, MembershipKey) && a in rows && b in rows && a.id == b.id
    ensures a == b
  {
    var i :| 0 <= i < |rows| && rows[i] == a;
    var j :| 0 <= j < |rows| && rows[j] == b;
    IndexAt(rows, MembershipKey, i);
    IndexAt(rows, MembershipKey, j);
  }

  /** Deleting a user ends all memberships and sessions of the user and no other. */
  lemma UserDeletedLaw(c: State, id: string)
    requires OrgsOk(c) && id in c.users
    ensures OrgsOk(UserDeleted(c, id))
    ensures forall m :: m in UserDeleted(c, id).memberships <==> m in c.memberships && m.user != id
    ensures forall s :: s in UserDeleted(c, id).sessions <==> s in c.sessions && s.user != id
    ensures UserDeleted(c, id).emails == Keep(c.emails, (e: Email) => e.user != id)
            && UserDeleted(c, id).users == c.users - {id}
  {
    hide Count, LeftAll, MembershipIds, Unique;
    var base := c.(emails := Keep(c.emails, (e: Email) => e.user != id));
    var ids := MembershipIds(c.memberships, id);
    var left := LeftAll(base, ids);
    LeftAllLaw(base, ids);
    KeepHas(c.sessions, (s: Session) => s.user != id);
    MembershipIdsLaw(c.memberships, id);
    forall m
      ensures m in left.memberships <==> m in c.memberships && m.user != id
    {
      if m in c.memberships && m.user != id && m.id in ids {
        var other :| other in c.memberships && other.user == id && other.id == m.id;
        IdOfOne(c.memberships, m, other);
      }
    }
  }

  lemma AppendedMembership(c: State, m: Membership)
    requires RowsOk(c) && !HasKey(c.memberships, MembershipKey, m.id) && !HasKey(c.memberships, Place, (m.org, m.user))
    ensures Unique(c.memberships + [m], Place) && Unique(c.memberships + [m], MembershipKey)
  {
    hide Index;
    UniqueAppend(c.memberships, Place, m);
    UniqueAppend(c.memberships, MembershipKey, m);
  }

  ghost predicate IsMember(c: State, org: string, user: string) {
    exists m :: m in c.memberships && m.org == org && m.user == user
  }

  /** Joining: exactly the new membership is added, unless there is one already. */
  lemma JoinedLaw(c: State, org: string, user: string, id: string)
    requires OrgsOk(c) && !HasKey(c.memberships, MembershipKey, id)
    ensures var after := Joined(c, org, user, id);
            OrgsOk(after) && after.users == c.users && after.emails == c.emails && after.orgs.Keys == c.orgs.Keys
            && after.memberships == if org in c.orgs && user in c.users && !IsMember(c, org, user)
                                    then c.memberships + [Membership(id, org, user)] else c.memberships
  {
    hide Count;
    var f := Find(c.memberships, Place, (org, user));
    if f.Some? {
      assert c.memberships[f.value] in c.memberships;
    } else if org in c.orgs && user in c.users {
      var m, after := Membership(id, org, user), Joined(c, org, user, id);
      AppendedMembership(c, m);
      forall o | o in after.orgs
        ensures after.orgs[o].members == Count(after.memberships, InOrg(o))
      {
        CountAppend(c.memberships, InOrg(o), m);
      }
    }
  }

  lemma NoneIn(c: State, org: string)
    requires RowsOk(c) && org !in c.orgs
    ensures Count(c.memberships, InOrg(org)) == 0 && Count(c.invitations, PendingIn(org)) == 0
    ensures forall user :: !HasKey(c.memberships, Place, (org, user))
  {
    CountZero(c.memberships, InOrg(org));
    CountZero(c.invitations, PendingIn(org));
  }

  lemma OrgCreatedLaw(c: State, id: string, createdBy: string, membership: string)
    requires OrgsOk(c) && id !in c.orgs && !HasKey(c.memberships, MembershipKey, membership)
    ensures OrgsOk(OrgCreated(c, id, createdBy, membership))
  {
    hide Count, HasKey;
    var after := OrgCreated(c, id, createdBy, membership);
    NoneIn(c, id);
    if createdBy in c.users {
      var m := Membership(membership, id, createdBy);
      AppendedMembership(c, m);
      forall o | o in after.orgs
        ensures after.orgs[o].members == Count(after.memberships, InOrg(o))
      {
        CountAppend(c.memberships, InOrg(o), m);
      }
    }
  }

  lemma OrgDeletedLaw(c: State, id: string)
    requires OrgsOk(c)
    ensures OrgsOk(OrgDeleted(c, id))
    ensures id in c.orgs ==> forall m :: m in OrgDeleted(c, id).memberships <==> m in c.memberships && m.org != id
  {
    hide Count, Keep, Unique;
    if id in c.orgs {
      var p, q := (m: Membership) => m.org != id, (v: Invitation) => v.org != id;
      KeepHas(c.memberships, p);
      KeepHas(c.invitations, q);
      KeepUnique(c.memberships, p, Place);
      KeepUnique(c.memberships, p, MembershipKey);
      KeepUnique(c.invitations, q, InvitationKey);
      forall o | o in c.orgs && o != id
        ensures Count(Keep(c.memberships, p), InOrg(o)) == Count(c.memberships, InOrg(o))
        ensures Count(Keep(c.invitations, q), PendingIn(o)) == Count(c.invitations, PendingIn(o))
      {
        KeepCount(c.memberships, p, InOrg(o));
        KeepCount(c.invitations, q, PendingIn(o));
      }
    }
  }

  lemma InvitedLaw(c: State, org: string, id: string)
    requires OrgsOk(c) && !HasKey(c.invitations, InvitationKey, id)
    ensures OrgsOk(Invited(c, org, id)) && Invited(c, org, id).orgs.Keys == c.orgs.Keys
    ensures Invited(c, org, id).invitations == if org in c.orgs then c.invitations + [Invitation(id, org, true)]
            else c.invitations
  {
    hide Count, HasKey;
    if org in c.orgs {
      var v, after := Invitation(id, org, true), Invited(c, org, id);
      UniqueInvitation(c.invitations, v);
      forall o | o in after.orgs
        ensures after.orgs[o].pending == Count(after.invitations, PendingIn(o))
      {
        CountAppend(c.invitations, PendingIn(o), v);
      }
    }
  }

  lemma UniqueInvitation(rows: seq<Invitation>, v: Invitation)
    requires Unique(rows, InvitationKey) && !HasKey(rows, InvitationKey, v.id)
    ensures Unique(rows + [v], InvitationKey)
  {
    hide Index, HasKey;
    UniqueAppend(rows, InvitationKey, v);
  }

  lemma AppendedKeys(rows: seq<Invitation>, v: Invitation, k: string)
    requires HasKey(rows + [v], InvitationKey, k)
    ensures HasKey(rows, InvitationKey, k) || k == v.id
  {
    var i :| 0 <= i < |rows + [v]| && InvitationKey((rows + [v])[i]) == k;
    if i < |rows| {
      assert InvitationKey(rows[i]) == k;
    }
  }

  lemma {:induction false} InvitedAllLaw(c: State, org: string, ids: seq<string>)
    requires OrgsOk(c) && Distinct(ids) && forall k :: k in ids ==> !HasKey(c.invitations, InvitationKey, k)
    ensures OrgsOk(InvitedAll(c, org, ids))
    ensures org in c.orgs ==>
            org in InvitedAll(c, org, ids).orgs
              && InvitedAll(c, org, ids).orgs[org].pending == c.orgs[org].pending + |ids|
    decreases |ids|
  {
    hide OrgsOk, HasKey;
    if ids != [] {
      assert ids == [ids[0]] + ids[1..] && ids[0] !in ids[1..];
      InvitedLaw(c, org, ids[0]);
      forall k | k in ids[1..]
        ensures !HasKey(Invited(c, org, ids[0]).invitations, InvitationKey, k)
      {
        if HasKey(Invited(c, org, ids[0]).invitations, InvitationKey, k) && org in c.orgs {
          AppendedKeys(c.invitations, Invitation(ids[0], org, true), k);
        }
      }
      InvitedAllLaw(Invited(c, org, ids[0]), org, ids[1..]);
    }
  }

  lemma RevokedLaw(c: State, org: string, id: string)
    requires OrgsOk(c)
    ensures OrgsOk(Revoked(c, org, id))
  {
    hide Count;
    var f := Find(c.invitations, InvitationKey, id);
    if org in c.orgs && f.Some? && c.invitations[f.value].org == org && c.invitations[f.value].pending {
      var i := f.value;
      var v, after := c.invitations[i].(pending := false), Revoked(c, org, id);
      CountPositive(c.invitations, PendingIn(org), i);
      assert forall j :: 0 <= j < |c.invitations| ==>
        InvitationKey(after.invitations[j]) == InvitationKey(c.invitations[j]);
      forall o | o in after.orgs
        ensures after.orgs[o].pending == Count(after.invitations, PendingIn(o))
      {
        CountUpdate(c.invitations, PendingIn(o), i, v);
      }
    }
  }

  /** Removing a member who just joined undoes the join. */
  lemma RemoveUndoesJoin(c: State, org: string, user: string, id: string)
    requires OrgsOk(c) && org in c.orgs && user in c.users
    requires !HasKey(c.memberships, MembershipKey, id) && !HasKey(c.memberships, Place, (org, user))
    ensures MemberRemoved(Joined(c, org, user, id), org, user) == c
  {
    var m, n := Membership(id, org, user), |c.memberships|;
    var after := Joined(c, org, user, id);
    var f, g := Find(after.memberships, Place, (org, user)), Find(after.memberships, MembershipKey, id);
    assert after.memberships[n] == m;
    assert f.Some? && g.Some?;
    assert f.value == n && g.value == n;
    assert DeleteAt(after.memberships, n) == c.memberships;
    assert MemberRemoved(after, org, user).orgs == c.orgs;
  }

  /** Every handler keeps the organisations' books. */
  lemma EventKeepsOrgs(c: State, ev: Event)
    requires OrgsOk(c) && Admissible(c, ev)
    ensures OrgsOk(Apply(c, ev))
  {
    hide Count, LeftAll, InvitedAll, Keep, Unique, Demoted, HasKey;
    match ev
    case DeleteUser(user) =>
      if user in c.users {
        UserDeletedLaw(c, user);
      }
    case CreateOrg(org, createdBy, membership) => OrgCreatedLaw(c, org, createdBy, membership);
    case DeleteOrg(org) => OrgDeletedLaw(c, org);
    case Join(org, user, membership) => JoinedLaw(c, org, user, membership);
    case RemoveMember(org, user) =>
      var f := Find(c.memberships, Place, (org, user));
      if org in c.orgs && f.Some? {
        LeftLaw(c, c.memberships[f.value].id);
      }
    case Invite(org, invitations) => InvitedAllLaw(c, org, invitations);
    case Revoke(org, invitation) => RevokedLaw(c, org, invitation);
    case PatchUser(user, primaryId) =>
    case CreateUser(user, emailIds) =>
    case CreateSession(session, user) =>
    case CreateEmail(email, user, primary) =>
    case PatchEmail(email, primary) => EmailsAside(c, ev);
    case DeleteEmail(email) => EmailsAside(c, ev);
  }

  lemma EmailsAside(c: State, ev: Event)
    requires ev.PatchEmail? || ev.DeleteEmail?
    ensures var after := Apply(c, ev);
            after.users.Keys == c.users.Keys && after.orgs == c.orgs && after.memberships == c.memberships
              && after.invitations == c.invitations
            && after.sessions == c.sessions
  {
  }

  lemma {:induction false} RunKeepsOrgs(c: State, evs: seq<Event>)
    requires OrgsOk(c) && AllAdmissible(c, evs)
    ensures OrgsOk(Run(c, evs))
    decreases |evs|
  {
    hide OrgsOk, Apply, Admissible;
    if evs != [] {
      EventKeepsOrgs(c, evs[0]);
      RunKeepsOrgs(Apply(c, evs[0]), evs[1..]);
    }
  }

  lemma EmptyOrgs()
    ensures OrgsOk(EMPTY)
  {
  }
}
