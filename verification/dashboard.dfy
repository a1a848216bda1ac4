/** The page frame (src/components/Dashboard.tsx): which screen the active view
    shows, and the title above it. */
module Dashboard {
  import opened Wrappers
  import opened Seqs
  import opened Types
  import opened Scope
  import Layout
  import DashboardContent

  /** The screens the frame can show. */
  datatype Screen =
    | SyndicateManagementScreen
    | MemberRegistrationScreen
    | ContributionManagementScreen
    | TrainingManagementScreen
    | DashboardContentScreen

  /** The view a session starts on (`useState('overview')`). */
  const InitialView := "overview"

  /** `renderContent`: the syndicates view shows syndicate management to an admin
      and member registration to anyone else; the other known views show their
      screen to every role; anything else shows the overview. */
  function RenderContent(activeView: string, user: Option<User>): (r: Screen)
    ensures r == SyndicateManagementScreen <==> activeView == "syndicates" && HasRole(user, AdminRole)
    ensures r == MemberRegistrationScreen <==>
              activeView == "members" || (activeView == "syndicates" && !HasRole(user, AdminRole))
    ensures r == ContributionManagementScreen <==> activeView == "contributions"
    ensures r == TrainingManagementScreen <==> activeView == "training"
    ensures r == DashboardContentScreen <==>
              Layout.ParseView(activeView).None? || Layout.ParseView(activeView) == Some(Layout.Overview)
  {
    if activeView == "syndicates" then
      if HasRole(user, AdminRole) then SyndicateManagementScreen else MemberRegistrationScreen
    else if activeView == "members" then MemberRegistrationScreen
    else if activeView == "contributions" then ContributionManagementScreen
    else if activeView == "training" then TrainingManagementScreen
    else DashboardContentScreen
  }

  /** The heading of each screen. */
  function ScreenTitle(s: Screen): string {
    match s
    case SyndicateManagementScreen => "Syndicate Management"
    case MemberRegistrationScreen => "Member Management"
    case ContributionManagementScreen => "Contribution Management"
    case TrainingManagementScreen => "Training Management"
    case DashboardContentScreen => "Dashboard"
  }

  /** `getTitle`, which repeats the switch of `renderContent` with titles in place
      of screens. */
  function Title(activeView: string, user: Option<User>): (r: string)
    ensures r != ""
  {
    if activeView == "syndicates" then
      if HasRole(user, AdminRole) then "Syndicate Management" else "Member Management"
    else if activeView == "members" then "Member Management"
    else if activeView == "contributions" then "Contribution Management"
    else if activeView == "training" then "Training Management"
    else "Dashboard"
  }

  /** For every view and role, the title names the screen that is shown. */
  lemma TitleNamesRenderedScreen(activeView: string, user: Option<User>)
    ensures Title(activeView, user) == ScreenTitle(RenderContent(activeView, user))
  {
  }

  /** Different screens have different titles, so the title alone tells which
      screen is shown. */
  lemma ScreenTitlesDistinct(a: Screen, b: Screen)
    requires a != b
    ensures ScreenTitle(a) != ScreenTitle(b)
  {
  }

  /** The screen a menu entry leads to. */
  function ScreenOf(v: Layout.View, user: Option<User>): Screen {
    match v
    case Overview => DashboardContentScreen
    case Members => MemberRegistrationScreen
    case Contributions => ContributionManagementScreen
    case Training => TrainingManagementScreen
    case Syndicates => if HasRole(user, AdminRole) then SyndicateManagementScreen else MemberRegistrationScreen
  }

  /** Choosing any entry of a session's menu shows that entry's screen; the
      syndicate screen is reachable from the menu only by an admin. */
  lemma MenuEntriesRenderTheirScreens(user: Option<User>)
    ensures forall i :: 0 <= i < |Layout.MenuItems(user)| ==>
              var v := Layout.MenuItems(user)[i].view;
              RenderContent(Layout.ViewId(v), user) == ScreenOf(v, user)
    ensures forall i :: 0 <= i < |Layout.MenuItems(user)| ==>
              RenderContent(Layout.ViewId(Layout.MenuItems(user)[i].view), user) != SyndicateManagementScreen ||
              HasRole(user, AdminRole)
  {
  }

  /** A member session starts on the overview although its menu does not offer
      it, and the overview does not narrow a member session: the first screen
      a member sees is built from every member's contributions. */
  lemma MemberStartsOnUnscopedOverview(user: Option<User>, ms: seq<Member>, cs: seq<Contribution>,
                                       ts: seq<Training>, ss: seq<Syndicate>)
    requires IsMemberSession(user)
    ensures RenderContent(InitialView, user) == DashboardContentScreen
    ensures Layout.Overview !in Map(Layout.MenuItems(user), Layout.ViewOf)
    ensures DashboardContent.FilteredData(user, ms, cs, ts, ss).contributions == cs
  {
  }
}
