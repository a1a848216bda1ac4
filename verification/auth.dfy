/** Sign-in, sign-out and session restore (src/contexts/AuthContext.tsx).
    The session lives in memory and is mirrored into the persisted
    `trade_union_user` entry; both are modelled as fields of `AuthState`. */
module Auth {
  import opened Wrappers
  import opened Seqs
  import opened Types

  /** The single hardcoded administrator login. */
  const AdminUsername: string := "admin"
  const AdminPassword: string := "admin123"

  /** The in-memory session and the persisted copy of it. */
  datatype AuthState = AuthState(user: Option<User>, stored: Option<User>)

  datatype LoginOutcome = LoginOutcome(ok: bool, state: AuthState)

  function AdminUser(): User {
    User("admin-1", AdminUsername, AdminRole, None)
  }

  function LeaderUser(s: Syndicate, username: string): User {
    User("leader-" + s.id, username, LeaderRole, Some(s.id))
  }

  function MemberUser(m: Member, username: string): User {
    User("member-" + m.id, username, MemberRole, Some(m.syndicateId))
  }

  /** The admin branch fires only when the caller claims the admin role. */
  predicate IsAdminPair(username: string, password: string, claimed: Option<Role>) {
    claimed == Some(AdminRole) && username == AdminUsername && password == AdminPassword
  }

  predicate LeaderMatches(s: Syndicate, username: string, password: string) {
    s.leaderCredentials.username == username && s.leaderCredentials.password == password
  }

  /** A member without credentials never matches. */
  predicate MemberMatches(m: Member, username: string, password: string) {
    m.credentials.Some? && m.credentials.value.username == username && m.credentials.value.password == password
  }

  predicate SomeLeaderMatches(syndicates: seq<Syndicate>, username: string, password: string) {
    exists i :: 0 <= i < |syndicates| && LeaderMatches(syndicates[i], username, password)
  }

  predicate SomeMemberMatches(members: seq<Member>, username: string, password: string) {
    exists k :: 0 <= k < |members| && MemberMatches(members[k], username, password)
  }

  /** The identity cascade of `login`: the admin pair (only under the admin claim),
      then the first syndicate whose leader credentials match (whatever the claim),
      then the first member whose credentials match. */
  function Authenticate(syndicates: seq<Syndicate>, members: seq<Member>,
                        username: string, password: string, claimed: Option<Role>): (r: Option<User>)
    ensures IsAdminPair(username, password, claimed) ==> r == Some(AdminUser())
    ensures r.Some? && r.value.role == AdminRole <==> IsAdminPair(username, password, claimed)
    ensures !IsAdminPair(username, password, claimed) && SomeLeaderMatches(syndicates, username, password) ==>
              exists i :: 0 <= i < |syndicates| && LeaderMatches(syndicates[i], username, password) &&
                (forall j :: 0 <= j < i ==> !LeaderMatches(syndicates[j], username, password)) &&
                r == Some(LeaderUser(syndicates[i], username))
    ensures !IsAdminPair(username, password, claimed) && !SomeLeaderMatches(syndicates, username, password) &&
            SomeMemberMatches(members, username, password) ==>
              exists k :: 0 <= k < |members| && MemberMatches(members[k], username, password) &&
                (forall j :: 0 <= j < k ==> !MemberMatches(members[j], username, password)) &&
                r == Some(MemberUser(members[k], username))
    ensures r.None? <==> !IsAdminPair(username, password, claimed) &&
                         !SomeLeaderMatches(syndicates, username, password) &&
                         !SomeMemberMatches(members, username, password)
  {
    if IsAdminPair(username, password, claimed) then Some(AdminUser())
    else
      match Find(syndicates, s => LeaderMatches(s, username, password))
      case Some(s) => Some(LeaderUser(s, username))
      case None =>
        match Find(members, m => MemberMatches(m, username, password))
        case Some(m) => Some(MemberUser(m, username))
        case None => None
  }

  /** `login`: on a match the session is set and persisted; otherwise nothing changes. */
  function Login(state: AuthState, syndicates: seq<Syndicate>, members: seq<Member>,
                 username: string, password: string, claimed: Option<Role>): (r: LoginOutcome)
    ensures r.ok <==> Authenticate(syndicates, members, username, password, claimed).Some?
    ensures r.ok ==> r.state.user.Some? && r.state.user == r.state.stored &&
                     r.state.user.value.username == username
    ensures r.ok ==> r.state.user == Authenticate(syndicates, members, username, password, claimed)
    ensures !r.ok ==> r.state == state
  {
    match Authenticate(syndicates, members, username, password, claimed)
    case Some(u) => LoginOutcome(true, AuthState(Some(u), Some(u)))
    case None => LoginOutcome(false, state)
  }

  /** `logout`: neither an in-memory nor a persisted session survives. */
  function Logout(state: AuthState): (r: AuthState)
    ensures r.user.None? && r.stored.None?
  {
    AuthState(None, None)
  }

  /** Start-up: the in-memory session is whatever was persisted, if anything. */
  function Restore(stored: Option<User>): (r: AuthState)
    ensures r.user == stored && r.stored == r.user
  {
    AuthState(stored, stored)
  }

  /** Reloading the page after a successful login restores the same session. */
  lemma RestoreAfterLogin(state: AuthState, syndicates: seq<Syndicate>, members: seq<Member>,
                          username: string, password: string, claimed: Option<Role>)
    requires Login(state, syndicates, members, username, password, claimed).ok
    ensures var s := Login(state, syndicates, members, username, password, claimed).state;
            Restore(s.stored) == s
  {
  }

  /** Reloading the page after a logout restores no session. */
  lemma RestoreAfterLogout(state: AuthState)
    ensures Restore(Logout(state).stored).user.None?
  {
  }

  /** When both a leader and a member login match, the leader session wins. */
  lemma LeaderBeforeMember(syndicates: seq<Syndicate>, members: seq<Member>,
                           username: string, password: string, claimed: Option<Role>)
    requires !IsAdminPair(username, password, claimed)
    requires SomeLeaderMatches(syndicates, username, password)
    requires SomeMemberMatches(members, username, password)
    ensures var r := Authenticate(syndicates, members, username, password, claimed);
            r.Some? && r.value.role == LeaderRole
  {
  }

  /** The claimed role only gates the admin branch: outside it the claim changes nothing. */
  lemma ClaimOnlyGatesAdmin(syndicates: seq<Syndicate>, members: seq<Member>,
                            username: string, password: string, c1: Option<Role>, c2: Option<Role>)
    requires !IsAdminPair(username, password, c1) && !IsAdminPair(username, password, c2)
    ensures Authenticate(syndicates, members, username, password, c1) ==
            Authenticate(syndicates, members, username, password, c2)
  {
  }

  /** A member session always names the syndicate of the member record it came from. */
  lemma MemberSessionScoped(syndicates: seq<Syndicate>, members: seq<Member>,
                            username: string, password: string, claimed: Option<Role>)
    requires var r := Authenticate(syndicates, members, username, password, claimed);
             r.Some? && r.value.role == MemberRole
    ensures var r := Authenticate(syndicates, members, username, password, claimed);
            exists k :: 0 <= k < |members| && HasLogin(members[k]) &&
              MemberMatches(members[k], username, password) &&
              r.value.syndicateId == Some(members[k].syndicateId) &&
              r.value.id == "member-" + members[k].id
  {
  }
}
