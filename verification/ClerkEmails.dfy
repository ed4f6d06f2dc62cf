/** At most one primary e-mail address a user, and when the user record names it. */
module ClerkEmails {
  import opened Tables
  import opened Clerk
  import opened ClerkLaws

  /** Addresses belong to live users, and no user has two primary ones. */
  ghost predicate EmailsOk(c: State) {
    && Unique(c.emails, EmailKey)
    && (forall i :: 0 <= i < |c.emails| ==> c.emails[i].user in c.users)
    && OnePrimary(c.emails)
  }

  ghost predicate OnePrimary(emails: seq<Email>) {
    forall i, j :: 0 <= i < j < |emails| && emails[i].primary && emails[j].primary ==> emails[i].user != emails[j].user
  }

  ghost predicate IsPrimary(emails: seq<Email>, user: string, id: string) {
    exists i :: 0 <= i < |emails| && emails[i] == Email(id, user, true)
  }

  ghost predicate HasPrimary(emails: seq<Email>, user: string) {
    exists i :: 0 <= i < |emails| && emails[i].user == user && emails[i].primary
  }

  /** The user record names the user's primary address, and nothing if there is none. */
  ghost predicate Named(c: State, user: string) {
    user in c.users ==>
      match c.users[user].primary
      case Some(id) => IsPrimary(c.emails, user, id)
      case None => !HasPrimary(c.emails, user)
  }

  ghost predicate AllNamed(c: State) {
    forall u :: Named(c, u)
  }

  /** A step that leaves a user's record and primary address alone leaves the naming alone. */
  lemma NamedUntouched(c: State, after: State, user: string)
    requires user in c.users ==> user in after.users && after.users[user] == c.users[user]
    requires user !in c.users ==> user !in after.users
    requires forall id :: IsPrimary(after.emails, user, id) <==> IsPrimary(c.emails, user, id)
    requires HasPrimary(after.emails, user) <==> HasPrimary(c.emails, user)
    ensures Named(after, user) == Named(c, user)
  {
  }

  // ---------------------------------------------------------------- making one address primary

  /** The rows when the one at `i` became the user's only primary address. */
  ghost predicate OnlyPrimary(before: seq<Email>, after: seq<Email>, i: nat) {
    && |after| == |before| && i < |before|
    && forall j :: 0 <= j < |before| ==>
         after[j] == if j == i then before[j].(primary := true)
                     else if before[j].user == before[i].user then before[j].(primary := false) else before[j]
  }

  lemma OnlyPrimaryLaw(c: State, after: State, i: nat)
    requires EmailsOk(c) && i < |c.emails| && OnlyPrimary(c.emails, after.emails, i)
    requires after.users == c.users[c.emails[i].user := c.users[c.emails[i].user].(primary := Some(c.emails[i].id))]
    ensures EmailsOk(after) && Named(after, c.emails[i].user)
    ensures forall u :: u != c.emails[i].user ==> Named(after, u) == Named(c, u)
  {
    var e := c.emails[i];
    assert forall j :: 0 <= j < |c.emails| ==> EmailKey(after.emails[j]) == EmailKey(c.emails[j]);
    assert after.emails[i] == Email(e.id, e.user, true);
    forall u | u != e.user
      ensures Named(after, u) == Named(c, u)
    {
      assert forall j :: 0 <= j < |c.emails| && c.emails[j].user == u ==> after.emails[j] == c.emails[j];
      SamePrimaries(c.emails, after.emails, u);
      NamedUntouched(c, after, u);
    }
  }

  lemma SamePrimaries(a: seq<Email>, b: seq<Email>, user: string)
    requires |a| == |b| && forall j :: 0 <= j < |a| ==> (a[j].user == b[j].user) && (a[j].user == user ==> a[j] == b[j])
    ensures forall id :: IsPrimary(a, user, id) <==> IsPrimary(b, user, id)
    ensures HasPrimary(a, user) <==> HasPrimary(b, user)
  {
  }

  lemma CreatedUnique(c: State, id: string, user: string, primary: bool)
    requires EmailsOk(c) && user in c.users && !HasKey(c.emails, EmailKey, id)
    ensures var added := c.(emails := c.emails + [Email(id, user, false)]);
            EmailsOk(added) && forall u :: Named(added, u) == Named(c, u)
  {
    hide Index;
    var e := Email(id, user, false);
    var added := c.(emails := c.emails + [e]);
    UniqueAppend(c.emails, EmailKey, e);
    forall u
      ensures Named(added, u) == Named(c, u)
    {
      AppendedPrimaries(c.emails, e, u);
      NamedUntouched(c, added, u);
    }
  }

  lemma AppendedPrimaries(emails: seq<Email>, e: Email, user: string)
    requires !e.primary
    ensures forall id :: IsPrimary(emails + [e], user, id) <==> IsPrimary(emails, user, id)
    ensures HasPrimary(emails + [e], user) <==> HasPrimary(emails, user)
  {
    var all := emails + [e];
    assert forall i :: 0 <= i < |emails| ==> all[i] == emails[i];
  }

  lemma EmailCreatedLaw(c: State, id: string, user: string, primary: bool)
    requires EmailsOk(c) && !HasKey(c.emails, EmailKey, id)
    ensures var after := EmailCreated(c, id, user, primary);
            EmailsOk(after) && forall u :: Named(c, u) ==> Named(after, u)
  {
    hide HasKey, Unique, Named;
    if user in c.users {
      var n := |c.emails|;
      var added := c.(emails := c.emails + [Email(id, user, false)]);
      CreatedUnique(c, id, user, primary);
      if primary {
        var after := EmailCreated(c, id, user, true);
        KeysDiffer(c.emails, id);
        assert OnlyPrimary(added.emails, after.emails, n);
        OnlyPrimaryLaw(added, after, n);
        assert forall u :: Named(added, u) == Named(c, u);
      }
    }
  }

  lemma KeysDiffer(emails: seq<Email>, id: string)
    requires !HasKey(emails, EmailKey, id)
    ensures forall i :: 0 <= i < |emails| ==> emails[i].id != id
  {
    assert forall i :: 0 <= i < |emails| ==> EmailKey(emails[i]) == emails[i].id;
  }

  lemma EmailPatchedLaw(c: State, id: string, primary: bool)
    requires EmailsOk(c)
    ensures var after := EmailPatched(c, id, primary);
            EmailsOk(after) && forall u :: Named(c, u) ==> Named(after, u)
  {
    hide Named, Find;
    var f := Find(c.emails, EmailKey, id);
    if f.Some? && primary {
      var i, after := f.value, EmailPatched(c, id, primary);
      OthersDiffer(c.emails, i);
      assert OnlyPrimary(c.emails, after.emails, i);
      OnlyPrimaryLaw(c, after, i);
    }
  }

  lemma OthersDiffer(emails: seq<Email>, i: nat)
    requires Unique(emails, EmailKey) && i < |emails|
    ensures forall j :: 0 <= j < |emails| && j != i ==> emails[j].id != emails[i].id
  {
    forall j | 0 <= j < |emails| && j != i
      ensures emails[j].id != emails[i].id
    {
      assert j < i ==> EmailKey(emails[j]) != EmailKey(emails[i]);
      assert i < j ==> EmailKey(emails[i]) != EmailKey(emails[j]);
    }
  }

  // ---------------------------------------------------------------- deleting an address

  /** Row `j` of the rows left when row `i` was deleted, among the rows there were. */
  function Was(i: nat, j: nat): nat {
    if j < i then j else j + 1
  }

  lemma DroppedRow(emails: seq<Email>, i: nat)
    requires Unique(emails, EmailKey) && OnePrimary(emails) && i < |emails|
    ensures Unique(DeleteAt(emails, i), EmailKey) && OnePrimary(DeleteAt(emails, i))
    ensures forall u, id :: u != emails[i].user || !emails[i].primary ==>
      (IsPrimary(DeleteAt(emails, i), u, id) <==> IsPrimary(emails, u, id))
    ensures forall u :: u != emails[i].user || !emails[i].primary ==>
      (HasPrimary(DeleteAt(emails, i), u) <==> HasPrimary(emails, u))
    ensures emails[i].primary ==> !HasPrimary(DeleteAt(emails, i), emails[i].user)
  {
    hide Unique, IsPrimary, HasPrimary;
    var left := DeleteAt(emails, i);
    UniqueDelete(emails, EmailKey, i);
    DroppedOne(emails, i);
    forall u, id | u != emails[i].user || !emails[i].primary
      ensures IsPrimary(left, u, id) <==> IsPrimary(emails, u, id)
    {
      DroppedElsewhere(emails, i, u, id);
    }
    forall u | u != emails[i].user || !emails[i].primary
      ensures HasPrimary(left, u) <==> HasPrimary(emails, u)
    {
      DroppedElsewhere(emails, i, u, "");
    }
    if emails[i].primary {
      DroppedPrimary(emails, i);
    }
  }

  lemma DroppedOne(emails: seq<Email>, i: nat)
    requires OnePrimary(emails) && i < |emails|
    ensures OnePrimary(DeleteAt(emails, i))
  {
    var left := DeleteAt(emails, i);
    forall a, b | 0 <= a < b < |left| && left[a].primary && left[b].primary
      ensures left[a].user != left[b].user
    {
      assert left[a] == emails[Was(i, a)] && left[b] == emails[Was(i, b)];
    }
  }

  lemma DroppedElsewhere(emails: seq<Email>, i: nat, user: string, id: string)
    requires i < |emails| && (user != emails[i].user || !emails[i].primary)
    ensures IsPrimary(DeleteAt(emails, i), user, id) <==> IsPrimary(emails, user, id)
    ensures HasPrimary(DeleteAt(emails, i), user) <==> HasPrimary(emails, user)
  {
    var left := DeleteAt(emails, i);
    forall e: Email | e.user == user && e.primary
      ensures e in left <==> e in emails
    {
      if e in emails {
        var j :| 0 <= j < |emails| && emails[j] == e;
        assert left[if j < i then j else j - 1] == e;
      }
    }
    assert Email(id, user, true) in left <==> Email(id, user, true) in emails;
    if HasPrimary(emails, user) {
      var j :| 0 <= j < |emails| && emails[j].user == user && emails[j].primary;
      assert emails[j] in emails;
    }
    if HasPrimary(left, user) {
      var j :| 0 <= j < |left| && left[j].user == user && left[j].primary;
      assert left[j] in left;
    }
  }

  lemma DroppedPrimary(emails: seq<Email>, i: nat)
    requires OnePrimary(emails) && i < |emails| && emails[i].primary
    ensures !HasPrimary(DeleteAt(emails, i), emails[i].user)
  {
    var left := DeleteAt(emails, i);
    forall j | 0 <= j < |left|
      ensures !(left[j].user == emails[i].user && left[j].primary)
    {
      assert left[j] == emails[Was(i, j)];
    }
  }

  lemma EmailDeletedLaw(c: State, id: string)
    requires EmailsOk(c)
    ensures var after := EmailDeleted(c, id);
            EmailsOk(after) && forall u :: Named(c, u) ==> Named(after, u)
  {
    hide Unique, IsPrimary, HasPrimary, OnePrimary, Find;
    var f := Find(c.emails, EmailKey, id);
    if f.Some? {
      var i := f.value;
      var e, left := c.emails[i], DeleteAt(c.emails, i);
      var dropped, after := c.(emails := left), EmailDeleted(c, id);
      DroppedRow(c.emails, i);
      assert EmailsOk(dropped);
      if e.primary {
        Promoted(dropped, after, e.user);
      }
      forall u | Named(c, u) && (u != e.user || !e.primary)
        ensures Named(after, u)
      {
        NamedUntouched(c, dropped, u);
      }
    }
  }

  /** The first address left takes over where none is primary. */
  lemma Promoted(c: State, after: State, user: string)
    requires EmailsOk(c) && user in c.users && !HasPrimary(c.emails, user)
    requires var f := Find(c.emails, (x: Email) => x.user, user);
             after == if f.Some? then c.(emails := c.emails[f.value := c.emails[f.value].(primary := true)],
                                         users := c.users[user := c.users[user].(
                                           primary := Some(c.emails[f.value].id))])
                      else c.(users := c.users[user := c.users[user].(primary := None)])
    ensures EmailsOk(after) && Named(after, user)
    ensures forall u :: u != user ==> Named(after, u) == Named(c, u)
  {
    var f := Find(c.emails, (x: Email) => x.user, user);
    if f.Some? {
      assert OnlyPrimary(c.emails, after.emails, f.value);
      OnlyPrimaryLaw(c, after, f.value);
    }
  }

  // ---------------------------------------------------------------- users

  lemma NewEmailsLaw(c: State, id: string, emailIds: seq<string>)
    requires EmailsOk(c) && id !in c.users && Distinct(emailIds)
    requires forall k :: k in emailIds ==> !HasKey(c.emails, EmailKey, k)
    ensures var after := UserCreated(c, id, emailIds);
            EmailsOk(after) && Named(after, id) && forall u :: u != id ==> Named(after, u) == Named(c, u)
  {
    hide HasKey;
    var after, n := UserCreated(c, id, emailIds), |c.emails|;
    assert forall i :: 0 <= i < n ==> after.emails[i] == c.emails[i] && c.emails[i].user != id;
    assert forall i :: n <= i < |after.emails| ==> after.emails[i] == Email(emailIds[i - n], id, i == n);
    NewUnique(c.emails, id, emailIds);
    forall u | u != id
      ensures Named(after, u) == Named(c, u)
    {
      OtherPrimaries(c.emails, after.emails, u);
      NamedUntouched(c, after, u);
    }
    if emailIds != [] {
      assert after.emails[n] == Email(emailIds[0], id, true);
    }
  }

  lemma OtherPrimaries(a: seq<Email>, b: seq<Email>, user: string)
    requires a <= b && forall i :: |a| <= i < |b| ==> b[i].user != user
    ensures forall id :: IsPrimary(a, user, id) <==> IsPrimary(b, user, id)
    ensures HasPrimary(a, user) <==> HasPrimary(b, user)
  {
    assert forall i :: 0 <= i < |a| ==> a[i] == b[i];
  }

  lemma NewUnique(emails: seq<Email>, id: string, emailIds: seq<string>)
    requires Unique(emails, EmailKey) && Distinct(emailIds)
    requires forall k :: k in emailIds ==> !HasKey(emails, EmailKey, k)
    ensures Unique(emails + NewEmails(id, emailIds), EmailKey)
  {
    var all, n := emails + NewEmails(id, emailIds), |emails|;
    forall i, j | 0 <= i < j < |all|
      ensures EmailKey(all[i]) != EmailKey(all[j])
    {
      if i < n <= j {
        assert emailIds[j - n] in emailIds;
        KeysDiffer(emails, emailIds[j - n]);
      }
    }
  }

  lemma UserDeletedEmails(c: State, id: string)
    requires EmailsOk(c) && OrgsOk(c)
    ensures var after := UserDeleted(c, id);
            EmailsOk(after) && forall u :: Named(c, u) ==> Named(after, u)
  {
    hide OrgsOk, Unique, UserDeleted;
    if id in c.users {
      var p := (e: Email) => e.user != id;
      var after := UserDeleted(c, id);
      UserDeletedLaw(c, id);
      KeepUnique(c.emails, p, EmailKey);
      KeepOnePrimary(c.emails, p);
      KeepHas(c.emails, p);
      forall i | 0 <= i < |after.emails|
        ensures after.emails[i].user in after.users
      {
        assert after.emails[i] in after.emails;
        var j :| 0 <= j < |c.emails| && c.emails[j] == after.emails[i];
      }
      forall u | Named(c, u)
        ensures Named(after, u)
      {
        if u != id {
          KeptPrimaries(c.emails, id, u);
          NamedUntouched(c, after, u);
        }
      }
    } else {
      assert UserDeleted(c, id) == c by { DeletingNobody(c, id); }
    }
  }

  lemma DeletingNobody(c: State, id: string)
    requires id !in c.users
    ensures UserDeleted(c, id) == c
  {
  }

  lemma {:induction false} KeepOnePrimary(emails: seq<Email>, p: Email -> bool)
    requires OnePrimary(emails)
    ensures OnePrimary(Keep(emails, p))
  {
    if emails != [] {
      var n := |emails| - 1;
      var front := emails[..n];
      assert forall i :: 0 <= i < n ==> front[i] == emails[i];
      KeepOnePrimary(front, p);
      KeepHas(front, p);
      var kept := Keep(front, p);
      forall i | 0 <= i < |kept| && kept[i].primary && emails[n].primary
        ensures kept[i].user != emails[n].user
      {
        assert kept[i] in front;
        var j :| 0 <= j < n && front[j] == kept[i];
        assert emails[j].user != emails[n].user;
      }
    }
  }

  lemma KeptPrimaries(emails: seq<Email>, gone: string, user: string)
    requires user != gone
    ensures var left := Keep(emails, (e: Email) => e.user != gone);
            (forall id :: IsPrimary(left, user, id) <==> IsPrimary(emails, user, id))
              && (HasPrimary(left, user) <==> HasPrimary(emails, user))
  {
    var p := (e: Email) => e.user != gone;
    var left := Keep(emails, p);
    KeepHas(emails, p);
    forall id
      ensures IsPrimary(left, user, id) <==> IsPrimary(emails, user, id)
    {
      assert Email(id, user, true) in left <==> Email(id, user, true) in emails;
    }
    if HasPrimary(left, user) {
      var i :| 0 <= i < |left| && left[i].user == user && left[i].primary;
      assert left[i] in left;
    }
    if HasPrimary(emails, user) {
      var i :| 0 <= i < |emails| && emails[i].user == user && emails[i].primary;
      assert emails[i] in left;
    }
  }

  // ---------------------------------------------------------------- every handler

  /** The step writes another id than the one there into a user's record. */
  ghost predicate Renames(c: State, ev: Event) {
    ev.PatchUser? && ev.user in c.users && ev.primaryId.Some? && ev.primaryId.value != c.users[ev.user].primary
  }

  /** Every handler keeps users to one primary address. User records keep naming it, exactly unless a patch writes
      another id into one. */
  lemma EventKeepsEmails(c: State, ev: Event)
    requires EmailsOk(c) && OrgsOk(c) && Admissible(c, ev)
    ensures EmailsOk(Apply(c, ev))
    ensures AllNamed(c) ==> (AllNamed(Apply(c, ev)) <==> !Renames(c, ev))
  {
    hide EmailsOk, OrgsOk, Named, UserDeleted, EmailDeleted, EmailPatched, EmailCreated, UserCreated;
    match ev
    case CreateUser(user, emailIds) => NewEmailsLaw(c, user, emailIds);
    case PatchUser(user, primaryId) => UserPatchedLaw(c, user, primaryId);
    case DeleteUser(user) => UserDeletedEmails(c, user);
    case CreateEmail(email, user, primary) => EmailCreatedLaw(c, email, user, primary);
    case PatchEmail(email, primary) => EmailPatchedLaw(c, email, primary);
    case DeleteEmail(email) => EmailDeletedLaw(c, email);
    case Invite(org, invitations) =>
      InvitedAside(c, org, invitations);
      OrgsAside(c, Apply(c, ev));
    case _ => OrgsAside(c, Apply(c, ev));
  }

  lemma {:induction false} InvitedAside(c: State, org: string, ids: seq<string>)
    ensures InvitedAll(c, org, ids).emails == c.emails && InvitedAll(c, org, ids).users == c.users
    decreases |ids|
  {
    if ids != [] {
      InvitedAside(Invited(c, org, ids[0]), org, ids[1..]);
    }
  }

  lemma OrgsAside(c: State, after: State)
    requires after.emails == c.emails && after.users == c.users
    ensures EmailsOk(c) ==> EmailsOk(after)
    ensures forall u :: Named(after, u) == Named(c, u)
  {
  }

  lemma UserPatchedLaw(c: State, user: string, primaryId: Option<Option<string>>)
    requires EmailsOk(c)
    ensures EmailsOk(UserPatched(c, user, primaryId))
    ensures AllNamed(c) ==> (AllNamed(UserPatched(c, user, primaryId)) <==> !Renames(c, PatchUser(user, primaryId)))
  {
    var after := UserPatched(c, user, primaryId);
    if AllNamed(c) && user in c.users && primaryId.Some? {
      assert Named(c, user);
      if primaryId.value == c.users[user].primary {
        assert after.users == c.users;
        OrgsAside(c, after);
      } else {
        NamedOnce(c, user, primaryId.value);
        assert !Named(after, user);
      }
    }
  }

  /** With one primary address at most, only one value names it. */
  lemma NamedOnce(c: State, user: string, other: Option<string>)
    requires EmailsOk(c) && Named(c, user) && user in c.users && other != c.users[user].primary
    ensures !Named(c.(users := c.users[user := User(other)]), user)
  {
    if c.users[user].primary.Some? {
      var i :| 0 <= i < |c.emails| && c.emails[i] == Email(c.users[user].primary.value, user, true);
    }
  }

  ghost predicate NeverRenames(c: State, evs: seq<Event>)
    decreases |evs|
  {
    evs == [] || (!Renames(c, evs[0]) && NeverRenames(Apply(c, evs[0]), evs[1..]))
  }

  /** Over every run users keep one primary address at most, and on runs that patch no other id into a user record
      each record names it. */
  lemma {:induction false} RunKeepsEmails(c: State, evs: seq<Event>)
    requires EmailsOk(c) && OrgsOk(c) && AllAdmissible(c, evs)
    ensures EmailsOk(Run(c, evs)) && OrgsOk(Run(c, evs))
    ensures AllNamed(c) && NeverRenames(c, evs) ==> AllNamed(Run(c, evs))
    decreases |evs|
  {
    hide EmailsOk, OrgsOk, AllNamed, Apply, Admissible, Renames;
    if evs != [] {
      EventKeepsEmails(c, evs[0]);
      EventKeepsOrgs(c, evs[0]);
      RunKeepsEmails(Apply(c, evs[0]), evs[1..]);
    }
  }

  /** The bookkeeping of every reachable state. */
  lemma ReachableIsSound(evs: seq<Event>)
    requires AllAdmissible(EMPTY, evs)
    ensures EmailsOk(Run(EMPTY, evs)) && OrgsOk(Run(EMPTY, evs))
    ensures NeverRenames(EMPTY, evs) ==> AllNamed(Run(EMPTY, evs))
  {
    EmptyOrgs();
    RunKeepsEmails(EMPTY, evs);
  }

  /** After a patch of another id the user record names no address of the user. */
  lemma PatchLosesName()
    ensures var evs := [CreateUser("u", ["e"]), PatchUser("u", Some(Some("x")))];
            AllAdmissible(EMPTY, evs) && IsPrimary(Run(EMPTY, evs).emails, "u", "e") && !Named(Run(EMPTY, evs), "u")
  {
    var evs := [CreateUser("u", ["e"]), PatchUser("u", Some(Some("x")))];
    var one := UserCreated(EMPTY, "u", ["e"]);
    var two := UserPatched(one, "u", Some(Some("x")));
    assert one.emails == [Email("e", "u", true)] && two.emails == one.emails;
    assert evs[1..] == [evs[1]] && evs[1..][1..] == [];
    assert Run(EMPTY, evs) == Run(one, evs[1..]) == Run(two, []) == two;
    assert two.emails[0] == Email("e", "u", true);
  }
}
