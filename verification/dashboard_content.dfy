/** The overview screen (src/components/DashboardContent.tsx): the scoped
    collections, the headline figures, the monthly chart, the two distribution
    charts and the per-syndicate table. */
module DashboardContent {
  import opened Wrappers
  import opened Seqs
  import opened Types
  import opened Scope
  import opened ContributionManagement
  import TrainingManagement
  import MemberRegistration
  import SyndicateDetails

  /** The four collections the overview works from. */
  datatype Overview = Overview(
    members: seq<Member>, contributions: seq<Contribution>, trainings: seq<Training>, syndicates: seq<Syndicate>)

  /** `getFilteredData`: only a leader with a syndicate is narrowed; every other
      session, a member session included, gets the collections as stored. */
  function FilteredData(user: Option<User>, ms: seq<Member>, cs: seq<Contribution>, ts: seq<Training>,
                        ss: seq<Syndicate>): (r: Overview)
    ensures r.syndicates == ss
    ensures LeaderSyndicate(user).None? ==> r.members == ms && r.contributions == cs && r.trainings == ts
    ensures LeaderSyndicate(user).Some? ==>
              var sid := LeaderSyndicate(user).value;
              (forall m :: m in r.members <==> m in ms && m.syndicateId == sid) &&
              (forall c :: c in r.contributions <==>
                 c in cs && exists m :: m in ms && m.syndicateId == sid && m.id == c.memberId) &&
              (forall t :: t in r.trainings <==> t in ts && (Untagged(t) || t.syndicateId == Some(sid))) &&
              IsSubsequence(r.members, ms) && IsSubsequence(r.contributions, cs) && IsSubsequence(r.trainings, ts) &&
              r.members == MembersOf(ms, sid) && r.contributions == ContributionsOf(cs, MembersOf(ms, sid)) &&
              r.trainings == VisibleTrainings(ts, sid)
  {
    match LeaderSyndicate(user)
    case None => Overview(ms, cs, ts, ss)
    case Some(sid) =>
      var scoped := MembersOf(ms, sid);
      Overview(scoped, ContributionsOf(cs, scoped), VisibleTrainings(ts, sid), ss)
  }

  /** The overview narrows members and trainings exactly as the member and training
      screens do, and contributions as the contribution screen does for every
      session but a member's. */
  lemma FilteredDataAgreesWithScreens(user: Option<User>, ms: seq<Member>, cs: seq<Contribution>,
                                      ts: seq<Training>, ss: seq<Syndicate>)
    ensures FilteredData(user, ms, cs, ts, ss).members == MemberRegistration.LoadMembers(user, ms)
    ensures FilteredData(user, ms, cs, ts, ss).trainings == TrainingManagement.LoadData(user, ms, ts).trainings
    ensures !IsMemberSession(user) ==>
              FilteredData(user, ms, cs, ts, ss).contributions == LoadData(user, ms, cs).contributions
  {
  }

  /** A member session is not narrowed here: it sees the contributions of every member. */
  lemma MemberSessionSeesAllContributions(user: Option<User>, ms: seq<Member>, cs: seq<Contribution>,
                                          ts: seq<Training>, ss: seq<Syndicate>)
    requires IsMemberSession(user)
    ensures FilteredData(user, ms, cs, ts, ss).contributions == cs
  {
  }

  /** `total / count`, or 0 for no items. */
  function Average(total: int, count: nat): (r: real)
    ensures count > 0 ==> r * count as real == total as real
    ensures count == 0 ==> r == 0.0
  {
    if count > 0 then total as real / count as real else 0.0
  }

  /** An average of values that all lie between `lo` and `hi` lies between them too. */
  lemma AverageWithinBounds(s: seq<Contribution>, lo: int, hi: int)
    requires |s| > 0
    requires forall i :: 0 <= i < |s| ==> lo <= s[i].amount <= hi
    ensures lo as real <= Average(Total(s), |s|) <= hi as real
  {
    SumBounds(s, Amount, lo, hi);
    AverageBetween(Total(s), |s|, lo, hi);
  }

  /** A total between `count * lo` and `count * hi` averages to between `lo` and `hi`. */
  lemma AverageBetween(total: int, count: nat, lo: int, hi: int)
    requires count > 0 && count * lo <= total <= count * hi
    ensures lo as real <= Average(total, count) <= hi as real
  {
    var n := count as real;
    var a := Average(total, count);
    RealProduct(count, lo);
    RealProduct(count, hi);
    assert lo as real * n <= a * n;
    ScaleCancel(lo as real, a, n);
    assert a * n <= hi as real * n;
    ScaleCancel(a, hi as real, n);
  }

  /** Converting a product to a real multiplies the converted factors. */
  lemma RealProduct(a: int, b: int)
    ensures (a * b) as real == a as real * b as real
  {
  }

  /** Multiplying both sides by the same positive number keeps an order. */
  lemma ScaleCancel(a: real, b: real, n: real)
    requires n > 0.0 && a * n <= b * n
    ensures a <= b
  {
    assert (b - a) * n >= 0.0 by {
      assert (b - a) * n == b * n - a * n;
    }
  }

  /** The headline cards. */
  datatype Stats = Stats(
    totalMembers: nat, totalContributions: int, totalTrainings: nat, totalSyndicates: nat,
    avgContribution: real)

  /** `stats`: counts and totals of the scoped data; an admin sees the number of
      syndicates, anyone else the figure 1. */
  function ComputeStats(user: Option<User>, d: Overview): (r: Stats)
    ensures r.totalMembers == |d.members| && r.totalTrainings == |d.trainings|
    ensures r.totalContributions == Total(d.contributions)
    ensures user.Some? && user.value.role == AdminRole ==> r.totalSyndicates == |d.syndicates|
    ensures !(user.Some? && user.value.role == AdminRole) ==> r.totalSyndicates == 1
    ensures |d.contributions| > 0 ==>
              r.avgContribution * |d.contributions| as real == r.totalContributions as real
    ensures |d.contributions| == 0 ==> r.avgContribution == 0.0
  {
    var total := Total(d.contributions);
    Stats(|d.members|, total, |d.trainings|,
          if user.Some? && user.value.role == AdminRole then |d.syndicates| else 1,
          Average(total, |d.contributions|))
  }

  /** A leader's member card shows the same figure as their syndicate's row in the
      syndicate screen. */
  lemma LeaderMemberCardIsSyndicateCount(user: Option<User>, ms: seq<Member>, cs: seq<Contribution>,
                                         ts: seq<Training>, ss: seq<Syndicate>)
    requires LeaderSyndicate(user).Some?
    ensures ComputeStats(user, FilteredData(user, ms, cs, ts, ss)).totalMembers ==
            SyndicateDetails.MemberCount(ms, LeaderSyndicate(user).value)
  {
  }

  /** One bar of the overview's monthly chart: the contributions of `p` in any year. */
  function PeriodEntry(cs: seq<Contribution>, p: Period): MonthEntry {
    var ps := WithKey(cs, PeriodOf, p);
    MonthEntry(p, Total(ps), |ps|)
  }

  function PeriodEntries(cs: seq<Contribution>, ps: seq<Period>): (r: seq<MonthEntry>)
    ensures |r| == |ps|
    ensures forall i :: 0 <= i < |ps| ==> r[i] == PeriodEntry(cs, ps[i])
    decreases |ps|
  {
    if |ps| == 0 then [] else PeriodEntries(cs, ps[..|ps| - 1]) + [PeriodEntry(cs, ps[|ps| - 1])]
  }

  /** `monthlyData`: twelve entries, January first, each covering every contribution
      with that month tag whatever its year. */
  function MonthlyData(cs: seq<Contribution>): (r: seq<MonthEntry>)
    ensures |r| == 12
    ensures forall i :: 0 <= i < 12 ==> r[i].period == AllPeriods()[i]
    ensures forall i :: 0 <= i < 12 ==>
              var month := WithKey(cs, PeriodOf, r[i].period);
              r[i].count == |month| && r[i].total == Total(month) &&
              (forall j :: 0 <= j < |month| ==> month[j] in cs && month[j].period == r[i].period) &&
              (forall j :: 0 <= j < |cs| && cs[j].period == r[i].period ==> cs[j] in month)
  {
    PeriodEntries(cs, AllPeriods())
  }

  function EntryCount(e: MonthEntry): int { e.count }

  lemma {:induction false} PeriodEntriesAddUp(cs: seq<Contribution>, ps: seq<Period>)
    ensures Sum(PeriodEntries(cs, ps), EntryTotal) == KeyedTotal(cs, PeriodOf, ps, Amount)
    ensures Sum(PeriodEntries(cs, ps), EntryCount) == KeyedTotal(cs, PeriodOf, ps, One)
    decreases |ps|
  {
    if |ps| > 0 {
      var init := ps[..|ps| - 1];
      var p := ps[|ps| - 1];
      PeriodEntriesAddUp(cs, init);
      SumSnoc(PeriodEntries(cs, init), PeriodEntry(cs, p), EntryTotal);
      SumSnoc(PeriodEntries(cs, init), PeriodEntry(cs, p), EntryCount);
      SumOneIsLength(WithKey(cs, PeriodOf, p));
    }
  }

  /** Every contribution carries one of the twelve month tags, so the chart's
      amounts add up to the total card and its counts to the number of payments. */
  lemma MonthlyDataAddsUp(cs: seq<Contribution>)
    ensures Sum(MonthlyData(cs), EntryTotal) == Total(cs)
    ensures Sum(MonthlyData(cs), EntryCount) == |cs|
  {
    PeriodEntriesAddUp(cs, AllPeriods());
    KeyedPartition(cs, PeriodOf, AllPeriods(), Amount);
    KeyedPartition(cs, PeriodOf, AllPeriods(), One);
    SumOneIsLength(cs);
  }

  /** When every contribution is of one year, the overview's chart is the
      per-year series of `getContributionsByMonth` for that year. */
  lemma MonthlyDataIsSeriesOfOnlyYear(cs: seq<Contribution>, year: int)
    requires forall i :: 0 <= i < |cs| ==> cs[i].year == year
    ensures MonthlyData(cs) == MonthlySeries(cs, year)
  {
    WithKeyKeepsAll(cs, YearOf, year);
    var a := MonthlyData(cs);
    var b := MonthlySeries(cs, year);
    forall i | 0 <= i < 12
      ensures a[i] == b[i]
    {
      InMonthIsYearThenMonth(cs, AllPeriods()[i], year);
    }
  }

  /** One slice of a distribution chart. */
  datatype Bucket<K> = Bucket(name: K, value: nat)

  function Name<K>(b: Bucket<K>): K { b.name }
  function Value<K>(b: Bucket<K>): int { b.value }

  /** How many elements of `s` have key `k`. */
  function CountOf<T(!new), K(==)>(s: seq<T>, key: T -> K, k: K): nat {
    |WithKey(s, key, k)|
  }

  predicate Occupied<T(!new), K(==)>(s: seq<T>, key: T -> K, k: K) {
    CountOf(s, key, k) > 0
  }

  /** One bucket per key in the order of `keys`, with the empty buckets dropped
      (`[...].filter(item => item.value > 0)`). */
  function Buckets<T(!new), K(==,!new)>(s: seq<T>, key: T -> K, keys: seq<K>): (r: seq<Bucket<K>>)
    ensures forall i :: 0 <= i < |r| ==> r[i].value > 0 && r[i].value == CountOf(s, key, r[i].name)
    ensures Map(r, Name) == Filter(keys, k => Occupied(s, key, k))
    decreases |keys|
  {
    if |keys| == 0 then []
    else
      var init := keys[..|keys| - 1];
      var k := keys[|keys| - 1];
      assert keys == init + [k];
      var rest := Buckets(s, key, init);
      FilterSnoc(init, k, k' => Occupied(s, key, k'));
      if CountOf(s, key, k) > 0 then
        var r := rest + [Bucket(k, CountOf(s, key, k))];
        assert Map(r, Name) == Map(rest, Name) + [k];
        r
      else rest
  }

  /** A key gets a slice exactly when it is listed and some element has it; the
      slices keep the order of the listed keys. */
  lemma BucketsShowOccupiedKeys<T(!new), K(!new)>(s: seq<T>, key: T -> K, keys: seq<K>)
    ensures forall j :: 0 <= j < |keys| ==>
              (keys[j] in Map(Buckets(s, key, keys), Name) <==> exists i :: 0 <= i < |s| && key(s[i]) == keys[j])
    ensures forall j :: 0 <= j < |Buckets(s, key, keys)| ==> Buckets(s, key, keys)[j].name in keys
    ensures IsSubsequence(Map(Buckets(s, key, keys), Name), keys)
  {
    var names := Map(Buckets(s, key, keys), Name);
    forall j | 0 <= j < |keys|
      ensures keys[j] in names <==> exists i :: 0 <= i < |s| && key(s[i]) == keys[j]
    {
      WithKeyNonEmpty(s, key, keys[j]);
      if keys[j] in names {
        var n :| 0 <= n < |names| && names[n] == keys[j];
        assert Occupied(s, key, names[n]);
      }
    }
    forall j | 0 <= j < |Buckets(s, key, keys)|
      ensures Buckets(s, key, keys)[j].name in keys
    {
      assert names[j] == Buckets(s, key, keys)[j].name;
    }
  }

  lemma {:induction false} BucketsAddUp<T(!new), K(!new)>(s: seq<T>, key: T -> K, keys: seq<K>)
    ensures Sum(Buckets(s, key, keys), Value) == KeyedTotal(s, key, keys, One)
    decreases |keys|
  {
    if |keys| > 0 {
      var init := keys[..|keys| - 1];
      var k := keys[|keys| - 1];
      BucketsAddUp(s, key, init);
      SumOneIsLength(WithKey(s, key, k));
      if CountOf(s, key, k) > 0 {
        SumSnoc(Buckets(s, key, init), Bucket(k, CountOf(s, key, k)), Value);
      }
    }
  }

  function EducationOf(m: Member): EducationLevel { m.educationLevel }
  function MethodOf(c: Contribution): PaymentMethod { c.paymentMethod }

  /** `educationData`: members per education level, none / primary / secondary /
      TVET / university, empty levels dropped. */
  function EducationData(ms: seq<Member>): (r: seq<Bucket<EducationLevel>>)
    ensures forall i :: 0 <= i < |r| ==> r[i].value > 0 && r[i].value == CountOf(ms, EducationOf, r[i].name)
    ensures forall j :: 0 <= j < |AllEducationLevels()| ==>
              (AllEducationLevels()[j] in Map(r, Name) <==>
               exists i :: 0 <= i < |ms| && EducationOf(ms[i]) == AllEducationLevels()[j])
    ensures IsSubsequence(Map(r, Name), AllEducationLevels())
  {
    BucketsShowOccupiedKeys(ms, EducationOf, AllEducationLevels());
    Buckets(ms, EducationOf, AllEducationLevels())
  }

  /** `paymentMethodData`: contributions per payment method, cash / bank /
      MobiBank / MoMo, empty methods dropped. */
  function PaymentMethodData(cs: seq<Contribution>): (r: seq<Bucket<PaymentMethod>>)
    ensures forall i :: 0 <= i < |r| ==> r[i].value > 0 && r[i].value == CountOf(cs, MethodOf, r[i].name)
    ensures forall j :: 0 <= j < |AllPaymentMethods()| ==>
              (AllPaymentMethods()[j] in Map(r, Name) <==>
               exists i :: 0 <= i < |cs| && MethodOf(cs[i]) == AllPaymentMethods()[j])
    ensures IsSubsequence(Map(r, Name), AllPaymentMethods())
  {
    BucketsShowOccupiedKeys(cs, MethodOf, AllPaymentMethods());
    Buckets(cs, MethodOf, AllPaymentMethods())
  }

  /** Every member is in exactly one education slice and every payment in exactly
      one payment slice: the slices add up to the totals. */
  lemma DistributionsAddUp(ms: seq<Member>, cs: seq<Contribution>)
    ensures Sum(EducationData(ms), Value) == |ms|
    ensures Sum(PaymentMethodData(cs), Value) == |cs|
  {
    BucketsAddUp(ms, EducationOf, AllEducationLevels());
    KeyedPartition(ms, EducationOf, AllEducationLevels(), One);
    SumOneIsLength(ms);
    BucketsAddUp(cs, MethodOf, AllPaymentMethods());
    KeyedPartition(cs, MethodOf, AllPaymentMethods(), One);
    SumOneIsLength(cs);
  }

  /** One row of the per-syndicate table. */
  datatype Performance = Performance(name: string, members: nat, contributions: int, avgContribution: real)

  /** A syndicate's row: its members among the scoped members, the total paid by
      them, and that total divided by the number of members (0 when there are none). */
  function PerformanceOf(s: Syndicate, d: Overview): (r: Performance)
    ensures r.name == s.name
    ensures r.members == SyndicateDetails.MemberCount(d.members, s.id)
    ensures r.contributions == Total(ContributionsOf(d.contributions, MembersOf(d.members, s.id)))
    ensures r.members == 0 ==> r.avgContribution == 0.0
    ensures r.avgContribution == Average(r.contributions, r.members)
  {
    var sm := MembersOf(d.members, s.id);
    var total := Total(ContributionsOf(d.contributions, sm));
    var avg := Average(total, |sm|);
    assert |sm| == SyndicateDetails.MemberCount(d.members, s.id);
    Performance(s.name, |sm|, total, avg)
  }

  function Rows(ss: seq<Syndicate>, d: Overview): (r: seq<Performance>)
    ensures |r| == |ss|
    ensures forall i :: 0 <= i < |ss| ==> r[i] == PerformanceOf(ss[i], d)
  {
    Map(ss, (s: Syndicate) => PerformanceOf(s, d))
  }

  function MembersIn(p: Performance): int { p.members }

  /** `syndicatePerformance`: for an admin one row per syndicate, its average taken
      per member (not per payment); for anyone else no rows. */
  function SyndicatePerformance(user: Option<User>, d: Overview): (r: seq<Performance>)
    ensures !(user.Some? && user.value.role == AdminRole) ==> r == []
    ensures user.Some? && user.value.role == AdminRole ==>
              |r| == |d.syndicates| &&
              forall i :: 0 <= i < |r| ==> r[i] == PerformanceOf(d.syndicates[i], d)
  {
    if user.Some? && user.value.role == AdminRole then Rows(d.syndicates, d) else []
  }

  function SyndicateIdOf(s: Syndicate): string { s.id }

  /** Rows whose member column holds each syndicate's member count add up to the
      counts' total. */
  lemma {:induction false} RowsMembersTotal(ms: seq<Member>, ss: seq<Syndicate>, rows: seq<Performance>)
    requires |rows| == |ss|
    requires forall i :: 0 <= i < |ss| ==> rows[i].members == SyndicateDetails.MemberCount(ms, ss[i].id)
    ensures Sum(rows, MembersIn) == SyndicateDetails.CountsTotal(ms, Map(ss, SyndicateIdOf))
    decreases |ss|
  {
    if |ss| > 0 {
      var n := |ss| - 1;
      RowsMembersTotal(ms, ss[..n], rows[..n]);
      SumSnoc(rows[..n], rows[n], MembersIn);
      assert Map(ss, SyndicateIdOf)[..n] == Map(ss[..n], SyndicateIdOf);
    }
  }

  /** When the syndicates have distinct ids and every member belongs to one of them,
      the member column of the admin's table adds up to the member card. */
  lemma PerformanceMembersAddUp(user: Option<User>, d: Overview)
    requires user.Some? && user.value.role == AdminRole
    requires Distinct(Map(d.syndicates, SyndicateIdOf))
    requires forall i :: 0 <= i < |d.members| ==> d.members[i].syndicateId in Map(d.syndicates, SyndicateIdOf)
    ensures Sum(SyndicatePerformance(user, d), MembersIn) == ComputeStats(user, d).totalMembers
  {
    RowsMembersTotal(d.members, d.syndicates, SyndicatePerformance(user, d));
    SyndicateDetails.MemberCountsAddUp(d.members, Map(d.syndicates, SyndicateIdOf));
  }
}
