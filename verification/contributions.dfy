/** The contributions screen (src/components/ContributionManagement.tsx): what a
    session sees, recording a payment, and the summary figures. */
module ContributionManagement {
  import opened Wrappers
  import opened Seqs
  import opened Types
  import opened Scope

  /** The members and contributions the screen works with. */
  datatype ContributionView = ContributionView(members: seq<Member>, contributions: seq<Contribution>)

  /** `loadData`: leaders see their syndicate, a member sees their own record and
      payments (or nothing, when no record carries their login), anyone else sees all. */
  function LoadData(user: Option<User>, ms: seq<Member>, cs: seq<Contribution>): (r: ContributionView)
    ensures LeaderSyndicate(user).Some? ==>
              var sid := LeaderSyndicate(user).value;
              (forall m :: m in r.members <==> m in ms && m.syndicateId == sid) &&
              (forall c :: c in r.contributions <==>
                 c in cs && exists m :: m in ms && m.syndicateId == sid && m.id == c.memberId) &&
              IsSubsequence(r.members, ms) && IsSubsequence(r.contributions, cs) &&
              r.members == MembersOf(ms, sid) && r.contributions == ContributionsOf(cs, MembersOf(ms, sid))
    ensures LeaderSyndicate(user).None? && IsMemberSession(user) ==>
              forall k :: 0 <= k < |ms| && LoginNameIs(ms[k], user.value.username) &&
                          (forall j :: 0 <= j < k ==> !LoginNameIs(ms[j], user.value.username)) ==>
                r.members == [ms[k]] &&
                (forall c :: c in r.contributions <==> c in cs && c.memberId == ms[k].id) &&
                IsSubsequence(r.contributions, cs) && r.contributions == ContributionsOfMember(cs, ms[k].id)
    ensures LeaderSyndicate(user).None? && IsMemberSession(user) &&
            (forall k :: 0 <= k < |ms| ==> !LoginNameIs(ms[k], user.value.username)) ==>
              r.members == [] && r.contributions == []
    ensures LeaderSyndicate(user).None? && !IsMemberSession(user) ==> r == ContributionView(ms, cs)
  {
    match LeaderSyndicate(user)
    case Some(sid) =>
      var scoped := MembersOf(ms, sid);
      ContributionView(scoped, ContributionsOf(cs, scoped))
    case None =>
      if IsMemberSession(user) then
        match OwnRecord(ms, user.value.username)
        case Some(m) => ContributionView([m], ContributionsOfMember(cs, m.id))
        case None => ContributionView([], [])
      else ContributionView(ms, cs)
  }

  /** The fields of the record-contribution form. */
  datatype ContributionForm = ContributionForm(
    memberId: string, amount: int, paymentMethod: PaymentMethod, period: Period, year: int)

  datatype ContributionError = InvalidFields | AlreadyRecorded

  /** `c` is the payment of `memberId` for `period` of `year`. */
  predicate SameSlot(c: Contribution, memberId: string, period: Period, year: int) {
    c.memberId == memberId && c.period == period && c.year == year
  }

  /** No two contributions share a (member, period, year) slot. */
  predicate UniqueSlots(cs: seq<Contribution>) {
    forall i, j :: 0 <= i < j < |cs| ==> !SameSlot(cs[j], cs[i].memberId, cs[i].period, cs[i].year)
  }

  /** `handleCreate`: the form is checked against the screen's scoped list and the new
      record is appended to the full stored list. `id` and `now` stand for
      `Date.now()` and the ISO timestamp. */
  function Create(form: ContributionForm, scoped: seq<Contribution>, all: seq<Contribution>,
                  user: Option<User>, id: string, now: string): (r: Result<seq<Contribution>, ContributionError>)
    ensures form.memberId == "" || form.amount <= 0 ==> r == Failure(InvalidFields)
    ensures form.memberId != "" && form.amount > 0 &&
            (exists c :: c in scoped && SameSlot(c, form.memberId, form.period, form.year)) ==>
              r == Failure(AlreadyRecorded)
    ensures r.Success? <==> form.memberId != "" && form.amount > 0 &&
                            forall c :: c in scoped ==> !SameSlot(c, form.memberId, form.period, form.year)
    ensures r.Success? ==>
              |r.value| == |all| + 1 && r.value[..|all|] == all &&
              var n := r.value[|all|];
              n.id == id && n.memberId == form.memberId && n.amount == form.amount &&
              n.paymentMethod == form.paymentMethod && n.period == form.period && n.year == form.year &&
              n.recordedBy == ActorName(user) && n.recordedAt == now
  {
    if form.memberId == "" || form.amount <= 0 then Failure(InvalidFields)
    else if Find(scoped, (c: Contribution) => SameSlot(c, form.memberId, form.period, form.year)).Some? then
      Failure(AlreadyRecorded)
    else
      var n := Contribution(id, form.memberId, form.amount, form.paymentMethod, form.period,
                            form.year, ActorName(user), now);
      assert (all + [n])[..|all|] == all;
      Success(all + [n])
  }

  /** The duplicate guard keeps slots unique, provided the scoped list holds every
      stored payment of the member being paid for (true of the full list, and of a
      leader's list for a member of the leader's syndicate). */
  lemma CreateKeepsSlotsUnique(form: ContributionForm, scoped: seq<Contribution>, all: seq<Contribution>,
                               user: Option<User>, id: string, now: string)
    requires UniqueSlots(all)
    requires forall c :: c in all && c.memberId == form.memberId ==> c in scoped
    requires Create(form, scoped, all, user, id, now).Success?
    ensures UniqueSlots(Create(form, scoped, all, user, id, now).value)
  {
    var r := Create(form, scoped, all, user, id, now).value;
    forall i, j | 0 <= i < j < |r|
      ensures !SameSlot(r[j], r[i].memberId, r[i].period, r[i].year)
    {
      if j == |all| {
        assert r[i] == all[i];
        if SameSlot(r[j], r[i].memberId, r[i].period, r[i].year) {
          assert all[i] in scoped;
          assert SameSlot(all[i], form.memberId, form.period, form.year);
        }
      } else {
        assert r[i] == all[i] && r[j] == all[j];
      }
    }
  }

  /** Every stored payment of a member of the leader's syndicate is in the leader's
      scoped list, so the leader's duplicate guard sees all of that member's payments. */
  lemma LeaderScopeHoldsMemberPayments(user: Option<User>, ms: seq<Member>, cs: seq<Contribution>, m: Member)
    requires LeaderSyndicate(user).Some?
    requires m in ms && m.syndicateId == LeaderSyndicate(user).value
    ensures forall c :: c in cs && c.memberId == m.id ==> c in LoadData(user, ms, cs).contributions
  {
  }

  /** Submitting the same form again, against a scope that shows the new record, is refused. */
  lemma SecondCreateRefused(form: ContributionForm, scoped: seq<Contribution>, all: seq<Contribution>,
                            user: Option<User>, id: string, now: string,
                            scoped': seq<Contribution>, id': string, now': string)
    requires Create(form, scoped, all, user, id, now).Success?
    requires Create(form, scoped, all, user, id, now).value[|all|] in scoped'
    ensures Create(form, scoped', Create(form, scoped, all, user, id, now).value, user, id', now') ==
            Failure(AlreadyRecorded)
  {
  }

  function Amount(c: Contribution): int { c.amount }

  /** `getTotalContributions`: the sum of the amounts. Recorded amounts are
      positive, so the total of recorded payments is never negative. */
  function Total(cs: seq<Contribution>): (r: int)
    ensures (forall i :: 0 <= i < |cs| ==> cs[i].amount > 0) ==> r >= 0
    ensures |cs| == 0 ==> r == 0
  {
    SumNonNegative(cs, Amount);
    Sum(cs, Amount)
  }

  /** A successful create raises the stored total by exactly the recorded amount. */
  lemma CreateAddsAmount(form: ContributionForm, scoped: seq<Contribution>, all: seq<Contribution>,
                         user: Option<User>, id: string, now: string)
    requires Create(form, scoped, all, user, id, now).Success?
    ensures Total(Create(form, scoped, all, user, id, now).value) == Total(all) + form.amount
  {
    var r := Create(form, scoped, all, user, id, now).value;
    assert r == all + [r[|all|]];
    SumSnoc(all, r[|all|], Amount);
  }

  function PeriodOf(c: Contribution): Period { c.period }
  function YearOf(c: Contribution): int { c.year }

  /** The contributions for `period` of `year`, in stored order. */
  function InMonth(cs: seq<Contribution>, period: Period, year: int): seq<Contribution> {
    Filter(cs, (c: Contribution) => c.period == period && c.year == year)
  }

  /** The contributions of `year`, in stored order. */
  function InYear(cs: seq<Contribution>, year: int): seq<Contribution> {
    WithKey(cs, YearOf, year)
  }

  /** One bar of the monthly chart. */
  datatype MonthEntry = MonthEntry(period: Period, total: int, count: nat)

  function Entry(cs: seq<Contribution>, year: int, p: Period): MonthEntry {
    var ps := InMonth(cs, p, year);
    MonthEntry(p, Total(ps), |ps|)
  }

  function Entries(cs: seq<Contribution>, year: int, ps: seq<Period>): (r: seq<MonthEntry>)
    ensures |r| == |ps|
    ensures forall i :: 0 <= i < |ps| ==> r[i] == Entry(cs, year, ps[i])
    decreases |ps|
  {
    if |ps| == 0 then [] else Entries(cs, year, ps[..|ps| - 1]) + [Entry(cs, year, ps[|ps| - 1])]
  }

  /** `getContributionsByMonth`: twelve entries, January first, each covering the
      contributions of its month in the selected year. The screen defines this
      series but never renders it. */
  function MonthlySeries(cs: seq<Contribution>, year: int): (r: seq<MonthEntry>)
    ensures |r| == 12
    ensures forall i :: 0 <= i < 12 ==> r[i].period == AllPeriods()[i]
    ensures forall i :: 0 <= i < 12 ==>
              r[i].count == |InMonth(cs, r[i].period, year)| && r[i].total == Total(InMonth(cs, r[i].period, year))
    ensures forall i :: 0 <= i < 12 ==>
              forall c :: c in InMonth(cs, r[i].period, year) <==> c in cs && c.period == r[i].period && c.year == year
  {
    Entries(cs, year, AllPeriods())
  }

  function EntryTotal(e: MonthEntry): int { e.total }

  /** Splitting by year then by month is the same as the single month-and-year filter. */
  lemma InMonthIsYearThenMonth(cs: seq<Contribution>, p: Period, year: int)
    ensures InMonth(cs, p, year) == WithKey(InYear(cs, year), PeriodOf, p)
  {
    var inYear := (c: Contribution) => YearOf(c) == year;
    var inPeriod := (c: Contribution) => PeriodOf(c) == p;
    var both := (c: Contribution) => c.period == p && c.year == year;
    assert forall c :: both(c) == (inYear(c) && inPeriod(c));
    FilterFilter(cs, inYear, inPeriod, both);
    WithKeyIsFilter(cs, YearOf, year, inYear);
    WithKeyIsFilter(InYear(cs, year), PeriodOf, p, inPeriod);
  }

  lemma {:induction false} EntriesAddUp(cs: seq<Contribution>, year: int, ps: seq<Period>)
    ensures Sum(Entries(cs, year, ps), EntryTotal) == KeyedTotal(InYear(cs, year), PeriodOf, ps, Amount)
    decreases |ps|
  {
    if |ps| > 0 {
      var init := ps[..|ps| - 1];
      EntriesAddUp(cs, year, init);
      InMonthIsYearThenMonth(cs, ps[|ps| - 1], year);
      SumSnoc(Entries(cs, year, init), Entry(cs, year, ps[|ps| - 1]), EntryTotal);
    }
  }

  /** The twelve monthly totals add up to the total of the selected year: no
      contribution of that year is left out or counted twice. */
  lemma MonthlySeriesAddsUp(cs: seq<Contribution>, year: int)
    ensures Sum(MonthlySeries(cs, year), EntryTotal) == Total(InYear(cs, year))
  {
    EntriesAddUp(cs, year, AllPeriods());
    KeyedPartition(InYear(cs, year), PeriodOf, AllPeriods(), Amount);
  }

  /** The "This Month" card: the total of the current month (`getMonth()` is 0..11). */
  function ThisMonthTotal(cs: seq<Contribution>, monthIndex: nat, currentYear: int): (r: int)
    requires monthIndex < 12
    ensures r == MonthlySeries(cs, currentYear)[monthIndex].total
  {
    Total(InMonth(cs, AllPeriods()[monthIndex], currentYear))
  }

  function MemberIdOf(c: Contribution): string { c.memberId }

  /** The distinct member ids of `cs` (`new Set(contributions.map(c => c.memberId))`). */
  function Payers(cs: seq<Contribution>): (r: set<string>)
    ensures forall id :: id in r <==> exists c :: c in cs && c.memberId == id
    ensures |r| <= |cs|
    decreases |cs|
  {
    if |cs| == 0 then {}
    else
      var init := cs[..|cs| - 1];
      assert cs == init + [cs[|cs| - 1]];
      Payers(init) + {cs[|cs| - 1].memberId}
  }

  /** The third card: a member counts their own payments, anyone else counts the
      distinct members who paid. Never more than the number of payments. */
  function ContributorCount(user: Option<User>, cs: seq<Contribution>): (r: nat)
    ensures r <= |cs|
    ensures |cs| > 0 ==> r > 0
    ensures user.Some? && user.value.role == MemberRole ==> r == |cs|
    ensures !(user.Some? && user.value.role == MemberRole) ==>
              r == |set c | c in cs :: c.memberId|
  {
    if user.Some? && user.value.role == MemberRole then |cs|
    else
      var ids := Payers(cs);
      assert ids == set c | c in cs :: c.memberId;
      assert |cs| > 0 ==> cs[0].memberId in ids;
      |ids|
  }
}
