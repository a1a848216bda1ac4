/** The syndicate details dialog (src/components/SyndicateDetailsDialog.tsx): the
    leader's name and the syndicate's members. The syndicate screen uses the same
    two lookups for its table. */
module SyndicateDetails {
  import opened Wrappers
  import opened Seqs
  import opened Types
  import opened Scope

  /** `getLeaderName`: the name of the first member whose id is `leaderId`, else 'Not assigned'. */
  function LeaderName(ms: seq<Member>, leaderId: string): (r: string)
    ensures (forall k :: 0 <= k < |ms| ==> ms[k].id != leaderId) ==> r == "Not assigned"
    ensures forall k :: (0 <= k < |ms| && ms[k].id == leaderId &&
                         (forall j :: 0 <= j < k ==> ms[j].id != leaderId)) ==> r == ms[k].name
  {
    match Find(ms, (m: Member) => m.id == leaderId)
    case Some(m) => m.name
    case None => "Not assigned"
  }

  /** `getSyndicateMembers`: the members whose syndicate is `sid`, in original order. */
  function SyndicateMembers(ms: seq<Member>, sid: string): (r: seq<Member>)
    ensures forall m :: m in r <==> m in ms && m.syndicateId == sid
    ensures IsSubsequence(r, ms)
    ensures forall m {:trigger multiset(r)[m]} :: multiset(r)[m] == if m.syndicateId == sid then multiset(ms)[m] else 0
  {
    MembersOf(ms, sid)
  }

  /** `getMemberCount`: how many members belong to `sid`, counted afresh rather than
      read from the stored `memberCount`. */
  function MemberCount(ms: seq<Member>, sid: string): (r: nat)
    ensures r <= |ms|
    ensures r == |SyndicateMembers(ms, sid)|
  {
    |WithKey(ms, SyndicateOf, sid)|
  }

  /** The counts of several syndicates, added up. */
  function CountsTotal(ms: seq<Member>, sids: seq<string>): int
    decreases |sids|
  {
    if |sids| == 0 then 0 else CountsTotal(ms, sids[..|sids| - 1]) + MemberCount(ms, sids[|sids| - 1])
  }

  lemma {:induction false} CountsTotalIsKeyedTotal(ms: seq<Member>, sids: seq<string>)
    ensures CountsTotal(ms, sids) == KeyedTotal(ms, SyndicateOf, sids, One)
    decreases |sids|
  {
    if |sids| > 0 {
      CountsTotalIsKeyedTotal(ms, sids[..|sids| - 1]);
      SumOneIsLength(WithKey(ms, SyndicateOf, sids[|sids| - 1]));
    }
  }

  /** When every member belongs to one of a list of distinct syndicates, the
      syndicates' member counts add up to the number of members. */
  lemma MemberCountsAddUp(ms: seq<Member>, sids: seq<string>)
    requires Distinct(sids)
    requires forall i :: 0 <= i < |ms| ==> ms[i].syndicateId in sids
    ensures CountsTotal(ms, sids) == |ms|
  {
    CountsTotalIsKeyedTotal(ms, sids);
    KeyedPartition(ms, SyndicateOf, sids, One);
    SumOneIsLength(ms);
  }

  /** Members of other syndicates never appear in the list. */
  lemma NoOutsiders(ms: seq<Member>, sid: string, m: Member)
    requires m.syndicateId != sid
    ensures m !in SyndicateMembers(ms, sid)
  {
  }
}
