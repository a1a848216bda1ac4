/** The training screen (src/components/TrainingManagement.tsx): what a session
    sees, creating a training, registering a member into one, and status. */
module TrainingManagement {
  import opened Wrappers
  import opened Seqs
  import opened Types
  import opened Scope

  datatype TrainingView = TrainingView(members: seq<Member>, trainings: seq<Training>)

  /** `loadData`: a leader sees their syndicate's members and the trainings that are
      untagged or tagged with their syndicate; every other session sees everything. */
  function LoadData(user: Option<User>, ms: seq<Member>, ts: seq<Training>): (r: TrainingView)
    ensures LeaderSyndicate(user).Some? ==>
              var sid := LeaderSyndicate(user).value;
              (forall m :: m in r.members <==> m in ms && m.syndicateId == sid) &&
              (forall t :: t in r.trainings <==> t in ts && (Untagged(t) || t.syndicateId == Some(sid))) &&
              IsSubsequence(r.members, ms) && IsSubsequence(r.trainings, ts) &&
              r.members == MembersOf(ms, sid) && r.trainings == VisibleTrainings(ts, sid)
    ensures LeaderSyndicate(user).None? ==> r == TrainingView(ms, ts)
  {
    match LeaderSyndicate(user)
    case Some(sid) => TrainingView(MembersOf(ms, sid), VisibleTrainings(ts, sid))
    case None => TrainingView(ms, ts)
  }

  datatype TrainingForm = TrainingForm(
    title: string, description: string, startDate: string, endDate: string, location: string, capacity: int)

  datatype TrainingError = MissingFields

  predicate FormComplete(form: TrainingForm) {
    form.title != "" && form.startDate != "" && form.endDate != "" && form.location != ""
  }

  /** The tag a new training gets: the leader's syndicate for a leader, none otherwise. */
  function CreatorTag(user: Option<User>): (r: Option<string>)
    ensures user.Some? && user.value.role == LeaderRole ==> r == user.value.syndicateId
    ensures !(user.Some? && user.value.role == LeaderRole) ==> r.None?
  {
    if user.Some? && user.value.role == LeaderRole then user.value.syndicateId else None
  }

  /** `handleCreate`: refused when a required field is empty; otherwise one training
      with no registrations is appended. `id` stands for `Date.now()`. */
  function Create(form: TrainingForm, all: seq<Training>, user: Option<User>, id: string): (r: Result<seq<Training>, TrainingError>)
    ensures r.Failure? <==> !FormComplete(form)
    ensures r.Success? ==>
              |r.value| == |all| + 1 && r.value[..|all|] == all &&
              var t := r.value[|all|];
              t.id == id && t.title == form.title && t.description == form.description &&
              t.startDate == form.startDate && t.endDate == form.endDate &&
              t.location == form.location && t.capacity == form.capacity &&
              t.registeredMembers == [] && t.syndicateId == CreatorTag(user)
  {
    if !FormComplete(form) then Failure(MissingFields)
    else
      var t := Training(id, form.title, form.description, form.startDate, form.endDate,
                        form.location, form.capacity, [], CreatorTag(user));
      assert (all + [t])[..|all|] == all;
      Success(all + [t])
  }

  /** What a leader creates, that leader then sees. */
  lemma CreatedTrainingVisibleToCreator(form: TrainingForm, all: seq<Training>, user: Option<User>,
                                        id: string, ms: seq<Member>)
    requires Create(form, all, user, id).Success?
    ensures var r := Create(form, all, user, id).value;
            r[|all|] in LoadData(user, ms, r).trainings
  {
  }

  datatype RegisterError = NoTrainingSelected | AlreadyRegistered | AtCapacity


  /** `selected` with `memberId` added to the end of its registrations. */
  function WithRegistration(selected: Training, memberId: string): Training {
    selected.(registeredMembers := selected.registeredMembers + [memberId])
  }

  /** `handleRegisterMember`: the checks are made on the selected training; on success
      every stored training with the selected id is replaced by the selected training
      plus the new registration, and no other training changes. */
  function Register(selected: Option<Training>, memberId: string, all: seq<Training>): (r: Result<seq<Training>, RegisterError>)
    ensures selected.None? ==> r == Failure(NoTrainingSelected)
    ensures selected.Some? && memberId in selected.value.registeredMembers ==> r == Failure(AlreadyRegistered)
    ensures (selected.Some? && memberId !in selected.value.registeredMembers &&
             |selected.value.registeredMembers| >= selected.value.capacity) ==> r == Failure(AtCapacity)
    ensures r.Success? <==> selected.Some? && memberId !in selected.value.registeredMembers &&
                            |selected.value.registeredMembers| < selected.value.capacity
    ensures r.Success? ==>
              |r.value| == |all| &&
              (forall i :: 0 <= i < |all| && all[i].id == selected.value.id ==>
                 r.value[i].registeredMembers == selected.value.registeredMembers + [memberId] &&
                 r.value[i] == selected.value.(registeredMembers := r.value[i].registeredMembers)) &&
              (forall i :: 0 <= i < |all| && all[i].id != selected.value.id ==> r.value[i] == all[i])
  {
    match selected
    case None => Failure(NoTrainingSelected)
    case Some(t) =>
      if memberId in t.registeredMembers then Failure(AlreadyRegistered)
      else if |t.registeredMembers| >= t.capacity then Failure(AtCapacity)
      else Success(Replace(all, (x: Training) => x.id == t.id, WithRegistration(t, memberId)))
  }

  /** A training whose capacity is 0 (or below) refuses every registration: the
      case of a capacity field that was left empty and stored as `null`. */
  lemma ZeroCapacityRefusesAll(selected: Option<Training>, memberId: string, all: seq<Training>)
    requires selected.Some? && selected.value.capacity <= 0
    ensures Register(selected, memberId, all).Failure?
  {
  }

  /** No training holds more registrations than its capacity. */
  predicate WithinCapacity(ts: seq<Training>) {
    forall i :: 0 <= i < |ts| ==> |ts[i].registeredMembers| <= ts[i].capacity
  }

  /** No training lists a member twice. */
  predicate NoDoubleRegistration(ts: seq<Training>) {
    forall i :: 0 <= i < |ts| ==> Distinct(ts[i].registeredMembers)
  }

  /** The capacity guard keeps every stored training within capacity. */
  lemma RegisterKeepsCapacity(selected: Option<Training>, memberId: string, all: seq<Training>)
    requires WithinCapacity(all)
    requires Register(selected, memberId, all).Success?
    ensures WithinCapacity(Register(selected, memberId, all).value)
  {
  }

  /** The duplicate guard keeps every registration list free of repeats,
      given that the selected training's list was. */
  lemma RegisterKeepsRegistrationsDistinct(selected: Option<Training>, memberId: string, all: seq<Training>)
    requires NoDoubleRegistration(all)
    requires selected.Some? && Distinct(selected.value.registeredMembers)
    requires Register(selected, memberId, all).Success?
    ensures NoDoubleRegistration(Register(selected, memberId, all).value)
  {
    var r := Register(selected, memberId, all).value;
    var regs := selected.value.registeredMembers + [memberId];
    assert Distinct(regs) by {
      forall i, j | 0 <= i < j < |regs| ensures regs[i] != regs[j] {
        if j == |regs| - 1 {
          assert regs[i] in selected.value.registeredMembers;
        }
      }
    }
  }

  function RegisteredCount(t: Training): int { |t.registeredMembers| }

  /** The "Total Participants" card: the number of registrations over all trainings. */
  function TotalParticipants(ts: seq<Training>): (r: int)
    ensures r >= 0
    ensures |ts| == 0 ==> r == 0
  {
    SumNonNegative(ts, RegisteredCount);
    Sum(ts, RegisteredCount)
  }

  /** When training ids are unique and the selected training is the stored one,
      a successful registration adds exactly one participant in total. */
  lemma RegisterAddsOneParticipant(selected: Option<Training>, memberId: string, all: seq<Training>, k: nat)
    requires k < |all| && selected == Some(all[k])
    requires forall i :: 0 <= i < |all| && i != k ==> all[i].id != all[k].id
    requires Register(selected, memberId, all).Success?
    ensures TotalParticipants(Register(selected, memberId, all).value) == TotalParticipants(all) + 1
  {
    var r := Register(selected, memberId, all).value;
    SumPointIncrement(all, r, k, RegisteredCount);
  }

  datatype TrainingStatus = Upcoming | Ongoing | Completed

  /** `getTrainingStatus` over times already read as numbers. */
  function Status(now: int, start: int, end: int): (r: TrainingStatus)
    ensures r == Upcoming <==> now < start
    ensures r == Completed <==> start <= now && end < now
    ensures r == Ongoing <==> start <= now <= end
  {
    if now < start then Upcoming
    else if now > end then Completed
    else Ongoing
  }

  function StatusRank(s: TrainingStatus): nat {
    match s
    case Upcoming => 0
    case Ongoing => 1
    case Completed => 2
  }

  /** As time passes a training only moves forward: upcoming, ongoing, completed. */
  lemma StatusNeverRegresses(now1: int, now2: int, start: int, end: int)
    requires now1 <= now2
    ensures StatusRank(Status(now1, start, end)) <= StatusRank(Status(now2, start, end))
  {
  }
}
