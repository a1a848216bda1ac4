/** The member registration screen (src/components/MemberRegistration.tsx): what a
    session sees, searching, registering a member, and saving an edit. */
module MemberRegistration {
  import opened Wrappers
  import opened Seqs
  import opened Types
  import opened Scope
  import opened EditMember

  /** `loadMembers`: a leader sees their syndicate's members; every other session sees all. */
  function LoadMembers(user: Option<User>, ms: seq<Member>): (r: seq<Member>)
    ensures LeaderSyndicate(user).Some? ==>
              (forall m :: m in r <==> m in ms && m.syndicateId == LeaderSyndicate(user).value) &&
              IsSubsequence(r, ms) && r == MembersOf(ms, LeaderSyndicate(user).value)
    ensures LeaderSyndicate(user).None? ==> r == ms
  {
    match LeaderSyndicate(user)
    case Some(sid) => MembersOf(ms, sid)
    case None => ms
  }

  /** A member matches a search term when the term occurs in the name (both
      lower-cased), in the ID number, or in the phone number. */
  predicate Matches(m: Member, term: string) {
    Contains(ToLower(m.name), ToLower(term)) || Contains(m.idNumber, term) || Contains(m.phoneNumber, term)
  }

  /** `filterMembers`: an empty term keeps the list; otherwise the matching members, in order. */
  function Search(scoped: seq<Member>, term: string): (r: seq<Member>)
    ensures term == "" ==> r == scoped
    ensures term != "" ==>
              forall m :: m in r <==> (m in scoped &&
                ((exists i: nat :: OccursAt(ToLower(m.name), ToLower(term), i)) ||
                 (exists i: nat :: OccursAt(m.idNumber, term, i)) ||
                 (exists i: nat :: OccursAt(m.phoneNumber, term, i))))
    ensures IsSubsequence(r, scoped)
    ensures forall m {:trigger multiset(r)[m]} :: multiset(r)[m] == if Matches(m, term) then multiset(scoped)[m] else 0
  {
    if term == "" then
      FilterKeepsAll(scoped, (_: Member) => true);
      scoped
    else Filter(scoped, (m: Member) => Matches(m, term))
  }

  /** The early return for an empty term agrees with the filter: every member matches "". */
  lemma EmptyTermMatchesEveryone(m: Member)
    ensures Matches(m, "")
  {
    assert OccursAt(ToLower(m.name), ToLower(""), 0);
  }

  /** `user?.syndicateId || 'default'`: the syndicate a new member joins. */
  function HomeSyndicate(user: Option<User>): (r: string)
    ensures user.Some? && Truthy(user.value.syndicateId) ==> r == user.value.syndicateId.value
    ensures !(user.Some? && Truthy(user.value.syndicateId)) ==> r == "default"
  {
    if user.Some? && Truthy(user.value.syndicateId) then user.value.syndicateId.value else "default"
  }

  datatype RegistrationError = MissingRequiredFields

  /** `handleCreate`: refused when name, ID number or phone number is empty; otherwise
      one member is appended. `id`, `now` and `credentials` stand for `Date.now()`,
      the ISO timestamp and the randomly generated login. */
  function Create(form: MemberForm, all: seq<Member>, user: Option<User>,
                  id: string, now: string, credentials: Credentials): (r: Result<seq<Member>, RegistrationError>)
    ensures r.Failure? <==> !RequiredFilled(form)
    ensures r.Success? ==>
              |r.value| == |all| + 1 && r.value[..|all|] == all &&
              var n := r.value[|all|];
              FormOf(n) == form && n.id == id && n.syndicateId == HomeSyndicate(user) &&
              n.registeredBy == ActorName(user) && n.registeredAt == now &&
              n.credentials == Some(credentials)
  {
    if !RequiredFilled(form) then Failure(MissingRequiredFields)
    else
      var n := Member(id, form.name, form.idNumber, form.phoneNumber, form.maritalStatus,
                      form.administrativeLocation, form.disabilityStatus, form.educationLevel,
                      form.institutionName, form.professional, form.contract, form.yearJobStart,
                      form.socialSecurityId, HomeSyndicate(user), ActorName(user), now, Some(credentials));
      assert (all + [n])[..|all|] == all;
      Success(all + [n])
  }

  /** A member a leader registers shows up in that leader's list. */
  lemma CreatedMemberVisibleToLeader(form: MemberForm, all: seq<Member>, user: Option<User>,
                                     id: string, now: string, credentials: Credentials)
    requires LeaderSyndicate(user).Some?
    requires Create(form, all, user, id, now, credentials).Success?
    ensures var r := Create(form, all, user, id, now, credentials).value;
            r[|all|] in LoadMembers(user, r)
  {
  }

  /** `handleSaveEdit`: every stored member with the edited id is replaced; nothing else moves. */
  function SaveEdit(all: seq<Member>, updated: Member): (r: seq<Member>)
    ensures |r| == |all|
    ensures forall i :: 0 <= i < |all| && all[i].id == updated.id ==> r[i] == updated
    ensures forall i :: 0 <= i < |all| && all[i].id != updated.id ==> r[i] == all[i]
  {
    Replace(all, (m: Member) => m.id == updated.id, updated)
  }

  /** Saving an edit keeps the sequence of ids, so order and length are unchanged. */
  lemma SaveEditKeepsIds(all: seq<Member>, updated: Member)
    ensures Ids(SaveEdit(all, updated)) == Ids(all)
  {
  }

  /** Saving the same edit twice is the same as saving it once. */
  lemma SaveEditIdempotent(all: seq<Member>, updated: Member)
    ensures SaveEdit(SaveEdit(all, updated), updated) == SaveEdit(all, updated)
  {
  }
}
