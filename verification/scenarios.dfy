/** Properties that span several screens: a login handed out by one screen is
    accepted by sign-in and leads to the scope the other screens apply. */
module Scenarios {
  import opened Wrappers
  import opened Types
  import opened Seqs
  import opened Scope
  import opened Auth
  import MemberRegistration
  import EditMember
  import SyndicateManagement
  import SyndicateDetails

  /** A member registered with a fresh login can sign in with it, unless the
      login is already taken by the admin pair, a leader or an earlier member;
      the session is the new member's and carries the syndicate it joined. */
  lemma RegisteredMemberCanSignIn(form: EditMember.MemberForm, all: seq<Member>, user: Option<User>,
                                  id: string, now: string, creds: Credentials,
                                  syndicates: seq<Syndicate>, claimed: Option<Role>)
    requires MemberRegistration.Create(form, all, user, id, now, creds).Success?
    requires !IsAdminPair(creds.username, creds.password, claimed)
    requires !SomeLeaderMatches(syndicates, creds.username, creds.password)
    requires !SomeMemberMatches(all, creds.username, creds.password)
    ensures var ms := MemberRegistration.Create(form, all, user, id, now, creds).value;
            var session := Authenticate(syndicates, ms, creds.username, creds.password, claimed);
            session == Some(MemberUser(ms[|all|], creds.username)) &&
            session.value.syndicateId == Some(MemberRegistration.HomeSyndicate(user))
  {
    var ms := MemberRegistration.Create(form, all, user, id, now, creds).value;
    assert MemberMatches(ms[|all|], creds.username, creds.password);
    assert forall j :: 0 <= j < |all| ==> ms[j] == all[j];
    var session := Authenticate(syndicates, ms, creds.username, creds.password, claimed);
    assert SomeMemberMatches(ms, creds.username, creds.password);
    var k :| 0 <= k < |ms| && MemberMatches(ms[k], creds.username, creds.password) &&
             (forall j :: 0 <= j < k ==> !MemberMatches(ms[j], creds.username, creds.password)) &&
             session == Some(MemberUser(ms[k], creds.username));
  }

  /** After a leader is assigned, the generated login signs in as that syndicate's
      leader, and the session is confined to the syndicate, provided nothing
      earlier in the cascade claims the same login. */
  lemma AssignedLeaderCanSignIn(selected: string, memberId: string, syndicates: seq<Syndicate>,
                                ms: seq<Member>, generated: Credentials, k: nat, claimed: Option<Role>)
    requires SyndicateManagement.AssignLeader(selected, memberId, syndicates, ms, generated).Success?
    requires k < |syndicates| && syndicates[k].id == selected
    requires forall j :: 0 <= j < k ==> syndicates[j].id != selected && syndicates[j].leaderCredentials != generated
    requires !IsAdminPair(generated.username, generated.password, claimed)
    ensures var ss := SyndicateManagement.AssignLeader(selected, memberId, syndicates, ms, generated).value;
            var session := Authenticate(ss, ms, generated.username, generated.password, claimed);
            session == Some(LeaderUser(ss[k], generated.username)) &&
            LeaderSyndicate(session) == Some(selected) &&
            ss[k].leaderId == memberId
  {
    var ss := SyndicateManagement.AssignLeader(selected, memberId, syndicates, ms, generated).value;
    assert LeaderMatches(ss[k], generated.username, generated.password);
    assert SomeLeaderMatches(ss, generated.username, generated.password);
    var session := Authenticate(ss, ms, generated.username, generated.password, claimed);
    var i :| 0 <= i < |ss| && LeaderMatches(ss[i], generated.username, generated.password) &&
             (forall j :: 0 <= j < i ==> !LeaderMatches(ss[j], generated.username, generated.password)) &&
             session == Some(LeaderUser(ss[i], generated.username));
  }

  /** A newly created syndicate's leader login signs in as that syndicate's leader,
      unless the admin pair or an existing syndicate's leader login claims it first. */
  lemma CreatedSyndicateLeaderCanSignIn(form: SyndicateManagement.SyndicateForm, syndicates: seq<Syndicate>,
                                        ms: seq<Member>, id: string, now: string, generated: Credentials,
                                        claimed: Option<Role>)
    requires SyndicateManagement.Create(form, syndicates, ms, id, now, generated).Success?
    requires var c := SyndicateManagement.LeaderLogin(form, generated);
             !IsAdminPair(c.username, c.password, claimed) && !SomeLeaderMatches(syndicates, c.username, c.password)
    ensures var ss := SyndicateManagement.Create(form, syndicates, ms, id, now, generated).value;
            var c := SyndicateManagement.LeaderLogin(form, generated);
            var session := Authenticate(ss, ms, c.username, c.password, claimed);
            session == Some(LeaderUser(ss[|syndicates|], c.username)) &&
            session.value.role == LeaderRole && session.value.syndicateId == Some(id)
  {
    var ss := SyndicateManagement.Create(form, syndicates, ms, id, now, generated).value;
    var c := SyndicateManagement.LeaderLogin(form, generated);
    var n := |syndicates|;
    assert LeaderMatches(ss[n], c.username, c.password);
    assert forall j :: 0 <= j < n ==> ss[j] == syndicates[j];
    assert SomeLeaderMatches(ss, c.username, c.password);
    var session := Authenticate(ss, ms, c.username, c.password, claimed);
    var i :| 0 <= i < |ss| && LeaderMatches(ss[i], c.username, c.password) &&
             (forall j :: 0 <= j < i ==> !LeaderMatches(ss[j], c.username, c.password)) &&
             session == Some(LeaderUser(ss[i], c.username));
  }

  /** Registering a member raises the computed count of the member's home syndicate
      by one and leaves every other syndicate's count alone, while the syndicate
      records, and the `memberCount` stored in them, are not touched: a stored count
      that agreed before the registration no longer does. */
  lemma RegistrationOutdatesStoredCount(form: EditMember.MemberForm, all: seq<Member>, user: Option<User>,
                                        id: string, now: string, creds: Credentials, s: Syndicate)
    requires MemberRegistration.Create(form, all, user, id, now, creds).Success?
    requires s.id == MemberRegistration.HomeSyndicate(user)
    ensures var ms := MemberRegistration.Create(form, all, user, id, now, creds).value;
            SyndicateDetails.MemberCount(ms, s.id) == SyndicateDetails.MemberCount(all, s.id) + 1
    ensures var ms := MemberRegistration.Create(form, all, user, id, now, creds).value;
            forall sid :: sid != s.id ==> SyndicateDetails.MemberCount(ms, sid) == SyndicateDetails.MemberCount(all, sid)
    ensures var ms := MemberRegistration.Create(form, all, user, id, now, creds).value;
            s.memberCount == SyndicateDetails.MemberCount(all, s.id) ==>
              s.memberCount != SyndicateDetails.MemberCount(ms, s.id)
  {
    var ms := MemberRegistration.Create(form, all, user, id, now, creds).value;
    var n := ms[|all|];
    assert ms == all + [n];
    WithKeySnoc(all, n, SyndicateOf, s.id);
    forall sid | sid != s.id
      ensures SyndicateDetails.MemberCount(ms, sid) == SyndicateDetails.MemberCount(all, sid)
    {
      WithKeySnoc(all, n, SyndicateOf, sid);
    }
  }

}
