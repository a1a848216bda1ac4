/** The records the dashboard stores and the enumerations their fields range over
    (src/types/index.ts). The string-literal unions of the source become datatypes
    with one constructor per literal. */
module Types {
  import opened Wrappers
  import opened Seqs

  /** The three roles a session can carry; the union type admits no other. */
  datatype Role = AdminRole | LeaderRole | MemberRole

  /** The signed-in identity. Leaders and members carry the syndicate they belong to. */
  datatype User = User(id: string, username: string, role: Role, syndicateId: Option<string>)

  datatype Credentials = Credentials(username: string, password: string)

  /** `memberCount` is stored but never kept in step with the members collection. */
  datatype Syndicate = Syndicate(
    id: string,
    name: string,
    leaderId: string,
    leaderCredentials: Credentials,
    createdAt: string,
    memberCount: int)

  datatype MaritalStatus = Single | Married | Divorced | Widowed

  /** `NoEducation` is the tag 'none'. */
  datatype EducationLevel = NoEducation | Primary | Secondary | Tvet | University

  /** `credentials` is optional: a member record may carry no login at all. */
  datatype Member = Member(
    id: string,
    name: string,
    idNumber: string,
    phoneNumber: string,
    maritalStatus: MaritalStatus,
    administrativeLocation: string,
    disabilityStatus: bool,
    educationLevel: EducationLevel,
    institutionName: string,
    professional: string,
    contract: bool,
    yearJobStart: int,
    socialSecurityId: string,
    syndicateId: string,
    registeredBy: string,
    registeredAt: string,
    credentials: Option<Credentials>)

  datatype PaymentMethod = Cash | Bank | Mobibank | Momo

  datatype Period = Jan | Feb | Mar | Apr | May | Jun | Jul | Aug | Sep | Oct | Nov | Dec

  datatype Contribution = Contribution(
    id: string,
    memberId: string,
    amount: int,
    paymentMethod: PaymentMethod,
    period: Period,
    year: int,
    recordedBy: string,
    recordedAt: string)

  /** `syndicateId` is optional; a training without one belongs to no syndicate. */
  datatype Training = Training(
    id: string,
    title: string,
    description: string,
    startDate: string,
    endDate: string,
    location: string,
    capacity: int,
    registeredMembers: seq<string>,
    syndicateId: Option<string>)

  /** JavaScript truthiness of an optional string: present and non-empty. */
  predicate Truthy(s: Option<string>) {
    s.Some? && s.value != ""
  }

  /** A training carries no syndicate tag (`!t.syndicateId`). */
  predicate Untagged(t: Training) {
    !Truthy(t.syndicateId)
  }

  /** `user?.role === role`: false when nobody is signed in. */
  predicate HasRole(user: Option<User>, role: Role) {
    user.Some? && user.value.role == role
  }

  /** A member record that can be used to sign in. */
  predicate HasLogin(m: Member) {
    m.credentials.Some?
  }

  /** The payment methods in the order the dashboard lists them. */
  function AllPaymentMethods(): (r: seq<PaymentMethod>)
    ensures |r| == 4 && Distinct(r)
    ensures forall m: PaymentMethod :: m in r
  {
    var r := [Cash, Bank, Mobibank, Momo];
    assert forall m: PaymentMethod :: m in r by {
      forall m: PaymentMethod ensures m in r {
        PaymentMethodListed(m);
      }
    }
    r
  }

  /** The education levels in the order the dashboard lists them. */
  function AllEducationLevels(): (r: seq<EducationLevel>)
    ensures |r| == 5 && Distinct(r)
    ensures forall e: EducationLevel :: e in r
  {
    var r := [NoEducation, Primary, Secondary, Tvet, University];
    assert forall e: EducationLevel :: e in r by {
      forall e: EducationLevel ensures e in r {
        EducationLevelListed(e);
      }
    }
    r
  }

  /** The twelve months, January first; also the order of every monthly series. */
  function AllPeriods(): (r: seq<Period>)
    ensures |r| == 12 && Distinct(r)
    ensures forall p: Period :: p in r
  {
    var r := [Jan, Feb, Mar, Apr, May, Jun, Jul, Aug, Sep, Oct, Nov, Dec];
    assert forall p: Period :: p in r by {
      forall p: Period ensures p in r {
        PeriodListed(p);
      }
    }
    r
  }

  lemma PaymentMethodListed(m: PaymentMethod)
    ensures m in [Cash, Bank, Mobibank, Momo]
  {
    match m
    case Cash => case Bank => case Mobibank => case Momo =>
  }

  lemma EducationLevelListed(e: EducationLevel)
    ensures e in [NoEducation, Primary, Secondary, Tvet, University]
  {
    match e
    case NoEducation => case Primary => case Secondary => case Tvet => case University =>
  }

  lemma PeriodListed(p: Period)
    ensures p in [Jan, Feb, Mar, Apr, May, Jun, Jul, Aug, Sep, Oct, Nov, Dec]
  {
    match p
    case Jan => case Feb => case Mar => case Apr => case May => case Jun =>
    case Jul => case Aug => case Sep => case Oct => case Nov => case Dec =>
  }
}
