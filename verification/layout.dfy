/** The side menu (src/components/Layout.tsx): which entries each role is offered. */
module Layout {
  import opened Wrappers
  import opened Seqs
  import opened Types

  /** The views the menu can navigate to. */
  datatype View = Overview | Members | Contributions | Training | Syndicates

  /** The id a menu entry passes to `onNavigate`. */
  function ViewId(v: View): string {
    match v
    case Overview => "overview"
    case Members => "members"
    case Contributions => "contributions"
    case Training => "training"
    case Syndicates => "syndicates"
  }

  /** Reads a view id back; anything else is no view of the menu. */
  function ParseView(s: string): (r: Option<View>)
    ensures r.Some? ==> ViewId(r.value) == s
    ensures forall v: View :: s == ViewId(v) ==> r == Some(v)
  {
    if s == "overview" then Some(Overview)
    else if s == "members" then Some(Members)
    else if s == "contributions" then Some(Contributions)
    else if s == "training" then Some(View.Training)
    else if s == "syndicates" then Some(Syndicates)
    else None
  }

  datatype MenuItem = MenuItem(caption: string, view: View)

  function ViewOf(item: MenuItem): View { item.view }

  const OverviewItem := MenuItem("Dashboard", Overview)
  const MembersItem := MenuItem("Members", Members)
  const ContributionsItem := MenuItem("Contributions", Contributions)
  const TrainingItem := MenuItem("Training", View.Training)
  const SyndicatesItem := MenuItem("Syndicates", Syndicates)

  /** `menuItems`: admin gets all five entries, a leader overview, members and
      contributions, a member contributions alone; with no session (or an unknown
      role) the four entries without syndicates. */
  function MenuItems(user: Option<User>): (r: seq<MenuItem>)
    ensures Syndicates in Map(r, ViewOf) <==> HasRole(user, AdminRole)
    ensures View.Training in Map(r, ViewOf) <==> !HasRole(user, LeaderRole) && !HasRole(user, MemberRole)
    ensures HasRole(user, MemberRole) ==> Map(r, ViewOf) == [Contributions]
    ensures HasRole(user, LeaderRole) ==> Map(r, ViewOf) == [Overview, Members, Contributions]
    ensures HasRole(user, AdminRole) ==> Map(r, ViewOf) == [Overview, Members, Contributions, View.Training, Syndicates]
    ensures user.None? ==> Map(r, ViewOf) == [Overview, Members, Contributions, View.Training]
    ensures Contributions in Map(r, ViewOf)
    ensures Distinct(Map(r, ViewOf))
    ensures forall i :: 0 <= i < |r| ==> r[i].caption != ""
  {
    if HasRole(user, AdminRole) then
      var r := [OverviewItem, MembersItem, ContributionsItem, TrainingItem, SyndicatesItem];
      assert Map(r, ViewOf) == [Overview, Members, Contributions, View.Training, Syndicates];
      r
    else if HasRole(user, LeaderRole) then
      var r := [OverviewItem, MembersItem, ContributionsItem];
      assert Map(r, ViewOf) == [Overview, Members, Contributions];
      r
    else if HasRole(user, MemberRole) then
      var r := [ContributionsItem];
      assert Map(r, ViewOf) == [Contributions];
      r
    else
      var r := [OverviewItem, MembersItem, ContributionsItem, TrainingItem];
      assert Map(r, ViewOf) == [Overview, Members, Contributions, View.Training];
      r
  }

  /** Every menu entry's id reads back as its view, so navigation never lands on an
      unknown view. */
  lemma MenuIdsRoundTrip(user: Option<User>)
    ensures forall i :: 0 <= i < |MenuItems(user)| ==>
              ParseView(ViewId(MenuItems(user)[i].view)) == Some(MenuItems(user)[i].view)
  {
  }
}
