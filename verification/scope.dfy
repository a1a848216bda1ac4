/** The narrowing rules that the members, contributions, training and overview
    screens each apply to the stored collections. The screens repeat the same
    predicates; they are defined once here and each screen composes them in its
    own order of role checks. */
module Scope {
  import opened Wrappers
  import opened Seqs
  import opened Types

  /** The syndicate a session is confined to: `user?.role === 'leader' && user.syndicateId`. */
  function LeaderSyndicate(user: Option<User>): (r: Option<string>)
    ensures r.Some? <==> user.Some? && user.value.role == LeaderRole && Truthy(user.value.syndicateId)
    ensures r.Some? ==> r.value != "" && user.value.syndicateId == Some(r.value)
  {
    if user.Some? && user.value.role == LeaderRole && Truthy(user.value.syndicateId)
    then user.value.syndicateId
    else None
  }

  /** The session is a member session with a non-empty id: `user?.role === 'member' && user.id`. */
  predicate IsMemberSession(user: Option<User>) {
    user.Some? && user.value.role == MemberRole && user.value.id != ""
  }

  function MemberId(m: Member): string { m.id }

  function SyndicateOf(m: Member): string { m.syndicateId }

  /** The ids of a list of members, in order. */
  function Ids(ms: seq<Member>): (r: seq<string>)
    ensures |r| == |ms|
    ensures forall id :: id in r <==> exists m :: m in ms && m.id == id
  {
    Map(ms, MemberId)
  }

  /** The members of syndicate `sid`, in stored order. */
  function MembersOf(ms: seq<Member>, sid: string): (r: seq<Member>)
    ensures forall m :: m in r <==> m in ms && m.syndicateId == sid
    ensures IsSubsequence(r, ms)
    ensures forall m {:trigger multiset(r)[m]} :: multiset(r)[m] == if m.syndicateId == sid then multiset(ms)[m] else 0
  {
    WithKey(ms, SyndicateOf, sid)
  }

  /** The contributions paid by one of `ms`, in stored order (`memberIds.includes(c.memberId)`). */
  function ContributionsOf(cs: seq<Contribution>, ms: seq<Member>): (r: seq<Contribution>)
    ensures forall c :: c in r <==> c in cs && exists m :: m in ms && m.id == c.memberId
    ensures IsSubsequence(r, cs)
    ensures forall c {:trigger multiset(r)[c]} :: multiset(r)[c] == if c.memberId in Ids(ms) then multiset(cs)[c] else 0
  {
    Filter(cs, (c: Contribution) => c.memberId in Ids(ms))
  }

  /** The contributions paid by the member with id `memberId`, in stored order. */
  function ContributionsOfMember(cs: seq<Contribution>, memberId: string): (r: seq<Contribution>)
    ensures forall c :: c in r <==> c in cs && c.memberId == memberId
    ensures IsSubsequence(r, cs)
    ensures forall c {:trigger multiset(r)[c]} :: multiset(r)[c] == if c.memberId == memberId then multiset(cs)[c] else 0
  {
    Filter(cs, (c: Contribution) => c.memberId == memberId)
  }

  /** A training a leader of `sid` sees: untagged, or tagged with `sid`. */
  predicate TrainingVisibleTo(t: Training, sid: string) {
    Untagged(t) || t.syndicateId == Some(sid)
  }

  /** The trainings a leader of `sid` sees, in stored order. */
  function VisibleTrainings(ts: seq<Training>, sid: string): (r: seq<Training>)
    ensures forall t :: t in r <==> t in ts && (Untagged(t) || t.syndicateId == Some(sid))
    ensures IsSubsequence(r, ts)
    ensures forall t {:trigger multiset(r)[t]} :: multiset(r)[t] == if TrainingVisibleTo(t, sid) then multiset(ts)[t] else 0
  {
    Filter(ts, t => TrainingVisibleTo(t, sid))
  }

  /** A member record whose login name is `username` (`m.credentials?.username === username`). */
  predicate LoginNameIs(m: Member, username: string) {
    m.credentials.Some? && m.credentials.value.username == username
  }

  /** The first member record whose login name is `username`: how a member
      session finds its own record, there being no id link from session to record. */
  function OwnRecord(ms: seq<Member>, username: string): (r: Option<Member>)
    ensures r.None? <==> forall k :: 0 <= k < |ms| ==> !LoginNameIs(ms[k], username)
    ensures r.Some? ==> exists k :: 0 <= k < |ms| && ms[k] == r.value && LoginNameIs(ms[k], username) &&
                                    forall j :: 0 <= j < k ==> !LoginNameIs(ms[j], username)
  {
    Find(ms, m => LoginNameIs(m, username))
  }

  /** `user?.username || 'admin'`: the name stamped on a new record, `admin` when
      there is no session or its username is empty. */
  function ActorName(user: Option<User>): (r: string)
    ensures r != ""
    ensures user.Some? && user.value.username != "" ==> r == user.value.username
    ensures !(user.Some? && user.value.username != "") ==> r == "admin"
  {
    if user.Some? && user.value.username != "" then user.value.username else "admin"
  }
}
