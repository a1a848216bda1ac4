/** The syndicate screen (src/components/SyndicateManagement.tsx), reached by the
    administrator only: creating a syndicate, assigning its leader, saving an edit. */
module SyndicateManagement {
  import opened Wrappers
  import opened Seqs
  import opened Types
  import opened SyndicateDetails

  function LeaderIdOf(s: Syndicate): string { s.leaderId }

  /** `getUnassignedMembers`: the members that lead no syndicate, in order. */
  function Unassigned(syndicates: seq<Syndicate>, ms: seq<Member>): (r: seq<Member>)
    ensures forall m :: m in r <==> m in ms && forall s :: s in syndicates ==> s.leaderId != m.id
    ensures IsSubsequence(r, ms)
    ensures forall m {:trigger multiset(r)[m]} :: multiset(r)[m] == if m.id in Map(syndicates, LeaderIdOf) then 0 else multiset(ms)[m]
  {
    var leaderIds := Map(syndicates, LeaderIdOf);
    assert forall s :: s in syndicates ==> s.leaderId in leaderIds;
    Filter(ms, (m: Member) => m.id !in leaderIds)
  }

  /** The fields of the create-syndicate form. */
  datatype SyndicateForm = SyndicateForm(
    name: string, assignFromMember: bool, memberId: string, leaderUsername: string, leaderPassword: string)

  datatype SyndicateError = MissingName | MissingSelection | MemberNotFound | MissingLeaderCredentials

  /** The leader is taken from an existing member only when the box is ticked AND a
      member is chosen; otherwise the typed-in credentials are used. */
  predicate FromMember(form: SyndicateForm) {
    form.assignFromMember && form.memberId != ""
  }

  predicate MemberExists(ms: seq<Member>, id: string) {
    exists k :: 0 <= k < |ms| && ms[k].id == id
  }

  /** The login a new syndicate's leader gets: a generated one when the leader is
      an existing member, otherwise the typed-in one. */
  function LeaderLogin(form: SyndicateForm, generated: Credentials): Credentials {
    if FromMember(form) then generated else Credentials(form.leaderUsername, form.leaderPassword)
  }

  /** `handleCreate`. `id`, `now` and `generated` stand for `Date.now()`, the ISO
      timestamp and the randomly generated leader login. */
  function Create(form: SyndicateForm, syndicates: seq<Syndicate>, ms: seq<Member>,
                  id: string, now: string, generated: Credentials): (r: Result<seq<Syndicate>, SyndicateError>)
    ensures form.name == "" ==> r == Failure(MissingName)
    ensures form.name != "" && FromMember(form) && !MemberExists(ms, form.memberId) ==> r == Failure(MemberNotFound)
    ensures form.name != "" && !FromMember(form) && (form.leaderUsername == "" || form.leaderPassword == "") ==>
              r == Failure(MissingLeaderCredentials)
    ensures r.Success? <==> form.name != "" &&
                            if FromMember(form) then MemberExists(ms, form.memberId)
                            else form.leaderUsername != "" && form.leaderPassword != ""
    ensures r.Success? ==>
              |r.value| == |syndicates| + 1 && r.value[..|syndicates|] == syndicates &&
              var n := r.value[|syndicates|];
              n.id == id && n.name == form.name && n.createdAt == now && n.memberCount == 0 &&
              (FromMember(form) ==> n.leaderId == form.memberId && n.leaderCredentials == generated) &&
              (!FromMember(form) ==> n.leaderId == "" &&
                                     n.leaderCredentials == Credentials(form.leaderUsername, form.leaderPassword))
  {
    if form.name == "" then Failure(MissingName)
    else
      var leader: Result<(string, Credentials), SyndicateError> :=
        if FromMember(form) then
          match Find(ms, (m: Member) => m.id == form.memberId)
          case None => Failure(MemberNotFound)
          case Some(m) => Success((m.id, generated))
        else if form.leaderUsername == "" || form.leaderPassword == "" then Failure(MissingLeaderCredentials)
        else Success(("", Credentials(form.leaderUsername, form.leaderPassword)));
      match leader
      case Failure(e) => Failure(e)
      case Success((leaderId, creds)) =>
        var n := Syndicate(id, form.name, leaderId, creds, now, 0);
        assert (syndicates + [n])[..|syndicates|] == syndicates;
        Success(syndicates + [n])
  }

  /** `handleAssignLeader`: both selections are required and the member must exist;
      the selected syndicate gets the member as leader and a fresh login, and
      no other syndicate changes. */
  function AssignLeader(selected: string, memberId: string, syndicates: seq<Syndicate>, ms: seq<Member>,
                        generated: Credentials): (r: Result<seq<Syndicate>, SyndicateError>)
    ensures selected == "" || memberId == "" ==> r == Failure(MissingSelection)
    ensures selected != "" && memberId != "" && !MemberExists(ms, memberId) ==> r == Failure(MemberNotFound)
    ensures r.Success? <==> selected != "" && memberId != "" && MemberExists(ms, memberId)
    ensures r.Success? ==>
              |r.value| == |syndicates| &&
              (forall i :: 0 <= i < |syndicates| && syndicates[i].id == selected ==>
                 r.value[i] == syndicates[i].(leaderId := memberId, leaderCredentials := generated)) &&
              (forall i :: 0 <= i < |syndicates| && syndicates[i].id != selected ==> r.value[i] == syndicates[i])
  {
    if selected == "" || memberId == "" then Failure(MissingSelection)
    else
      match Find(ms, (m: Member) => m.id == memberId)
      case None => Failure(MemberNotFound)
      case Some(m) =>
        Success(Map(syndicates, (s: Syndicate) =>
          if s.id == selected then s.(leaderId := m.id, leaderCredentials := generated) else s))
  }

  /** After a leader is assigned to an existing syndicate, that member is no longer unassigned. */
  lemma AssignedLeaderIsAssigned(selected: string, memberId: string, syndicates: seq<Syndicate>,
                                 ms: seq<Member>, generated: Credentials, k: nat)
    requires k < |syndicates| && syndicates[k].id == selected
    requires AssignLeader(selected, memberId, syndicates, ms, generated).Success?
    ensures forall m :: m in Unassigned(AssignLeader(selected, memberId, syndicates, ms, generated).value, ms) ==>
              m.id != memberId
  {
    var r := AssignLeader(selected, memberId, syndicates, ms, generated).value;
    assert r[k].leaderId == memberId && r[k] in r;
  }

  /** `handleSaveEdit`: every syndicate with the edited id is replaced; nothing else moves. */
  function SaveEdit(syndicates: seq<Syndicate>, updated: Syndicate): (r: seq<Syndicate>)
    ensures |r| == |syndicates|
    ensures forall i :: 0 <= i < |syndicates| && syndicates[i].id == updated.id ==> r[i] == updated
    ensures forall i :: 0 <= i < |syndicates| && syndicates[i].id != updated.id ==> r[i] == syndicates[i]
  {
    Replace(syndicates, (s: Syndicate) => s.id == updated.id, updated)
  }

  /** Saving the same edit twice is the same as saving it once. */
  lemma SaveEditIdempotent(syndicates: seq<Syndicate>, updated: Syndicate)
    ensures SaveEdit(SaveEdit(syndicates, updated), updated) == SaveEdit(syndicates, updated)
  {
  }

}
