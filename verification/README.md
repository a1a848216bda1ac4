# Trade-union dashboard: a Dafny model of its data logic

The dashboard is a React single-page application for a trade union. An
administrator, syndicate leaders and individual members sign in. They manage
four stored collections: syndicates, members, contributions (monthly dues
payments) and trainings. Almost all of the code is markup. Under the markup sits
a small body of deterministic data logic, and this project models that logic as
pure Dafny functions over sequences of immutable records:

- **Sign-in** (`Auth`): the first-match cascade of the login. The hardcoded admin
  pair counts only under the admin claim. Next comes the first syndicate whose
  leader login matches, whatever the claimed role, and then the first member
  whose optional login matches. The module also covers sign-out and restoring a
  persisted session.
- **Role scope** (`Scope`): how each screen narrows the collections. A leader
  with a syndicate sees that syndicate. On the contributions screen a member sees
  their own record, found through its login name. Everyone else sees everything.
- **Guarded writes**: recording a contribution (with a duplicate
  member/period/year guard), creating a training, registering a member into a
  training (duplicate and capacity guards), registering a member, creating a
  syndicate, assigning its leader, and saving an edited member or syndicate. Each
  is a function returning `Result`. A `Failure` means the stored collection is
  left as it was. A `Success` holds the new collection, with "appended, rest
  unchanged" or "only the matching record replaced" stated in the contract.
- **Aggregations**: totals, the 12-entry monthly series (the per-year series
  `getContributionsByMonth` computes, which the contributions screen never
  renders, and the all-years chart of the overview), averages that are 0 when
  there is nothing to divide by, per-value distribution buckets with empty
  buckets dropped, member counts and the per-syndicate table.
- **Navigation** (`Layout`, `Dashboard`): which menu entries each role is
  offered, which screen an active view renders, and its title.

The store is modelled as plain sequences. A missing stored blob is the empty
sequence. Identifiers, timestamps and randomly generated logins are parameters
of the operations that use them.

Module layout follows the source: one module per component file, plus:
- `Types`: the record shapes and their enumerations;
- `Seqs`: the array `filter`/`find`/`map`/`reduce`/`includes` idioms and their facts;
- `Scope`: the narrowing predicates, which the source repeats in each component;
- `Scenarios`: properties spanning screens.

## Model

| member | source | states |
|---|---|---|
| Types.AllPaymentMethods | src/types/index.ts:48 | Four distinct methods with every payment method among them; listed in cash/bank/mobibank/momo order by definition |
| Types.AllPeriods | src/types/index.ts:49 | Twelve distinct months with every period among them; listed January first by definition |
| Types.AllEducationLevels | src/types/index.ts:29 | Five distinct education levels with every level among them; listed none..university by definition |
| Auth.Authenticate | src/contexts/AuthContext.tsx:34-87 | Admin session iff admin claim and the pair admin/admin123. Otherwise the first syndicate (list order) whose leader login matches gives a leader session `leader-<id>` for that syndicate. Otherwise the first member with matching credentials gives a member session carrying that member's syndicate. Otherwise no session |
| Auth.Login | src/contexts/AuthContext.tsx:34-87 | Succeeds iff the cascade finds a session; the session held is exactly the one the cascade found, it is also persisted, and it carries the given username; on failure the state is unchanged |
| Auth.Logout | src/contexts/AuthContext.tsx:89-92 | Neither a held nor a persisted session remains |
| Auth.Restore | src/contexts/AuthContext.tsx:26-32 | The reference definition of start-up: the held session is exactly the persisted one; RestoreAfterLogin and RestoreAfterLogout state what it gives back |
| Auth.RestoreAfterLogin | src/contexts/AuthContext.tsx:26-32 | Reloading after a successful login restores exactly the logged-in state |
| Auth.RestoreAfterLogout | src/contexts/AuthContext.tsx:26-32 | Reloading after logout restores no session |
| Auth.LeaderBeforeMember | src/contexts/AuthContext.tsx:47-84 | When a leader login and a member login both match, the session is a leader session |
| Auth.ClaimOnlyGatesAdmin | src/contexts/AuthContext.tsx:36-64 | Outside the admin pair the claimed role does not influence the outcome |
| Auth.MemberSessionScoped | src/contexts/AuthContext.tsx:66-84 | A member session comes from a member record that has credentials matching the login, and carries that record's syndicate and `member-<id>` |
| Scope.LeaderSyndicate | src/components/MemberRegistration.tsx:55 | A session is confined to a syndicate iff it is a leader session with a non-empty syndicate id, and then to exactly that id |
| Scope.MembersOf | src/components/ContributionManagement.tsx:55 | A member is kept iff it is stored with that syndicate id; order and every duplicate copy are kept |
| Scope.ContributionsOf | src/components/ContributionManagement.tsx:56-57 | A contribution is kept iff its payer id is the id of one of the given members; order and every duplicate copy are kept |
| Scope.ContributionsOfMember | src/components/ContributionManagement.tsx:65 | A contribution is kept iff it was paid by the given member id; order and every duplicate copy are kept |
| Scope.VisibleTrainings | src/components/TrainingManagement.tsx:45-47 | A training is kept iff it is untagged or tagged with the syndicate; order and every duplicate copy are kept |
| Scope.OwnRecord | src/components/ContributionManagement.tsx:60-62 | The first member record whose login name equals the session's username, or none when no record has it |
| Scope.ActorName | src/components/ContributionManagement.tsx:97 | The session's username when present and non-empty, else `admin`; never empty |
| ContributionManagement.LoadData | src/components/ContributionManagement.tsx:47-74 | Leader: exactly the syndicate's members and the contributions they paid. Member session: the first record carrying its login and only that record's payments, or two empty lists when there is none. Anyone else: both collections as stored. Kept records keep their order and every duplicate copy |
| ContributionManagement.Create | src/components/ContributionManagement.tsx:76-109 | Rejected for an empty member or an amount of at most 0, and rejected when the scoped list already holds the same member/period/year. Otherwise exactly one record with the form's fields, the actor's name and the timestamp is appended, and the stored records are unchanged |
| ContributionManagement.CreateKeepsSlotsUnique | src/components/ContributionManagement.tsx:82-102 | When the scoped list holds all of the member's stored payments, a successful create keeps every member/period/year slot unique |
| ContributionManagement.LeaderScopeHoldsMemberPayments | src/components/ContributionManagement.tsx:54-57 | A leader's scoped list holds every stored payment of every member of the leader's syndicate |
| ContributionManagement.SecondCreateRefused | src/components/ContributionManagement.tsx:83-92 | Resubmitting the same form once its record is in scope is refused as already recorded |
| ContributionManagement.CreateAddsAmount | src/components/ContributionManagement.tsx:126-128 | A successful create raises the stored total by exactly the recorded amount |
| ContributionManagement.Total | src/components/ContributionManagement.tsx:126-128 | The reference definition of the total: 0 for no payments and never negative when every amount is positive; CreateAddsAmount and MonthlySeriesAddsUp state how it moves and splits |
| ContributionManagement.MonthlySeries | src/components/ContributionManagement.tsx:130-137 | Twelve entries in January..December order; each entry's total and count cover exactly the contributions of that month in the selected year |
| ContributionManagement.InMonthIsYearThenMonth | src/components/ContributionManagement.tsx:132 | The month-and-year filter equals filtering by year and then by month |
| ContributionManagement.MonthlySeriesAddsUp | src/components/ContributionManagement.tsx:130-137 | The twelve monthly totals add up to the total of the selected year |
| ContributionManagement.ThisMonthTotal | src/components/ContributionManagement.tsx:267-270 | The "this month" card shows the current month's entry of the current year's series |
| ContributionManagement.Payers | src/components/ContributionManagement.tsx:286 | The set of ids of members who paid, never larger than the number of payments |
| ContributionManagement.ContributorCount | src/components/ContributionManagement.tsx:284-287 | A member session counts its payments; anyone else counts distinct payers. The figure is at most the number of payments and positive when there is one |
| TrainingManagement.LoadData | src/components/TrainingManagement.tsx:36-52 | A leader sees exactly their syndicate's members and the untagged or own-tagged trainings; everyone else sees both collections as stored. Kept records keep their order and every duplicate copy |
| TrainingManagement.CreatorTag | src/components/TrainingManagement.tsx:64 | A leader's training is tagged with the leader's syndicate; anyone else's is untagged |
| TrainingManagement.Create | src/components/TrainingManagement.tsx:54-75 | Rejected iff title, start date, end date or location is empty. Otherwise one training with the form's fields, no registrations and the creator's tag is appended, and the rest is unchanged |
| TrainingManagement.CreatedTrainingVisibleToCreator | src/components/TrainingManagement.tsx:43-65 | A created training shows up in the creator's own training list |
| TrainingManagement.Register | src/components/TrainingManagement.tsx:88-115 | Rejected without a selected training, for a member already registered, or at or above capacity. Otherwise every stored training with the selected id becomes the selected training plus the member at the end, and no other training changes |
| TrainingManagement.RegisterKeepsCapacity | src/components/TrainingManagement.tsx:96-99 | If no training exceeded its capacity before a registration, none does after |
| TrainingManagement.ZeroCapacityRefusesAll | src/components/TrainingManagement.tsx:96-99 | A training with capacity 0 or below refuses every registration, which is what a cleared capacity stored as `null` does |
| TrainingManagement.RegisterKeepsRegistrationsDistinct | src/components/TrainingManagement.tsx:91-94 | If no registration list had repeats before a registration, none has after |
| TrainingManagement.RegisterAddsOneParticipant | src/components/TrainingManagement.tsx:283 | With unique training ids, a registration raises the participants total by exactly one |
| TrainingManagement.TotalParticipants | src/components/TrainingManagement.tsx:283 | The reference definition of the participants card: never negative and 0 without trainings; RegisterAddsOneParticipant states how a registration moves it |
| TrainingManagement.Status | src/components/TrainingManagement.tsx:122-130 | Upcoming iff now is before the start, completed iff now is after the end (and not before the start), ongoing iff now lies between them |
| TrainingManagement.StatusNeverRegresses | src/components/TrainingManagement.tsx:122-130 | As time moves on, the status only moves from upcoming to ongoing to completed |
| MemberRegistration.LoadMembers | src/components/MemberRegistration.tsx:51-60 | A leader sees exactly their syndicate's members, in order; everyone else sees all members. Kept records keep their order and every duplicate copy |
| MemberRegistration.Search | src/components/MemberRegistration.tsx:62-74 | An empty term keeps the list. Otherwise a member is kept iff the lower-cased term occurs in the lower-cased name, or the term occurs in the ID number or phone number; the result is a subsequence. Kept records keep their order and every duplicate copy |
| MemberRegistration.EmptyTermMatchesEveryone | src/components/MemberRegistration.tsx:63-72 | The early return for an empty term agrees with the filter, since every member matches the empty term |
| MemberRegistration.HomeSyndicate | src/components/MemberRegistration.tsx:93 | A new member joins the session's syndicate when it is non-empty, else `default` |
| MemberRegistration.Create | src/components/MemberRegistration.tsx:82-109 | Rejected iff name, ID number or phone number is empty. Otherwise one member with the form's fields, the home syndicate, the actor's name, the timestamp and the generated login is appended, and the rest is unchanged |
| MemberRegistration.CreatedMemberVisibleToLeader | src/components/MemberRegistration.tsx:55-56 | A member registered by a leader shows up in that leader's list |
| MemberRegistration.SaveEdit | src/components/MemberRegistration.tsx:128-135 | Every member with the edited id is replaced by the edit; every other member is unchanged; the length is kept |
| MemberRegistration.SaveEditKeepsIds | src/components/MemberRegistration.tsx:130-132 | Saving an edit keeps the sequence of member ids |
| MemberRegistration.SaveEditIdempotent | src/components/MemberRegistration.tsx:130-132 | Saving the same edit twice equals saving it once |
| EditMember.Save | src/components/EditMemberDialog.tsx:59-74 | Rejected iff name, ID number or phone number is empty, and nothing is saved without a member. The saved member carries exactly the form's twelve fields and keeps id, syndicate, registering user, registration time and login |
| EditMember.FormOfOverlay | src/components/EditMemberDialog.tsx:40-57 | The form read back from an edited member is the form that was written |
| EditMember.OverlayFormOf | src/components/EditMemberDialog.tsx:65-69 | Writing a member's own fields over it changes nothing |
| EditMember.SaveUneditedIsIdentity | src/components/EditMemberDialog.tsx:40-70 | Saving the form as the dialog opened it gives back the member unchanged |
| EditMember.OverlayLastWins | src/components/EditMemberDialog.tsx:65-69 | Two successive edits leave only the second |
| EditSyndicate.Save | src/components/EditSyndicateDialog.tsx:39-58 | Rejected iff name, leader username or leader password is empty, and nothing is saved without a syndicate. The saved syndicate carries the form's name and login and keeps id, leader, creation time and stored count |
| EditSyndicate.SaveUneditedIsIdentity | src/components/EditSyndicateDialog.tsx:29-54 | Saving the form as the dialog opened it gives back the syndicate unchanged |
| EditSyndicate.FormOfOverlay | src/components/EditSyndicateDialog.tsx:29-37 | The form read back from an edited syndicate is the form that was written |
| SyndicateDetails.LeaderName | src/components/SyndicateDetailsDialog.tsx:22-25 | The name of the first member whose id is the leader id, or `Not assigned` when there is none |
| SyndicateDetails.SyndicateMembers | src/components/SyndicateDetailsDialog.tsx:31-33 | A member is listed iff it belongs to the syndicate; original order and every duplicate copy are kept |
| SyndicateDetails.MemberCount | src/components/SyndicateDetailsDialog.tsx:27-29 | The count equals the length of the syndicate's member list and never exceeds the number of members |
| SyndicateDetails.MemberCountsAddUp | src/components/SyndicateManagement.tsx:151-153 | With distinct syndicate ids covering every member, the per-syndicate counts add up to the number of members |
| SyndicateDetails.NoOutsiders | src/components/SyndicateDetailsDialog.tsx:31-33 | A member of another syndicate is never listed |
| SyndicateManagement.Unassigned | src/components/SyndicateManagement.tsx:54-57 | A member is offered iff it is stored and no syndicate names it as leader; order and every duplicate copy are kept |
| SyndicateManagement.Create | src/components/SyndicateManagement.tsx:59-103 | Rejected without a name. With the box ticked and a member chosen, the member must exist and becomes leader with the generated login; otherwise both typed credentials are required and the leader id stays empty. A success appends one syndicate with member count 0 and leaves the rest unchanged |
| SyndicateManagement.AssignLeader | src/components/SyndicateManagement.tsx:105-131 | Rejected when either selection is empty or the member is missing. Otherwise the selected syndicates get the member as leader and the generated login, and every other syndicate is unchanged |
| SyndicateManagement.AssignedLeaderIsAssigned | src/components/SyndicateManagement.tsx:54-57 | After an assignment the new leader is no longer among the unassigned members |
| SyndicateManagement.SaveEdit | src/components/SyndicateManagement.tsx:143-149 | Every syndicate with the edited id is replaced by the edit; every other is unchanged; the length is kept |
| SyndicateManagement.SaveEditIdempotent | src/components/SyndicateManagement.tsx:143-149 | Saving the same edit twice equals saving it once |
| DashboardContent.FilteredData | src/components/DashboardContent.tsx:12-30 | A leader with a syndicate gets exactly the syndicate's members, their contributions and the untagged or own-tagged trainings. Every other session, members included, gets the collections as stored. Syndicates are never narrowed. Kept records keep their order and every duplicate copy |
| DashboardContent.FilteredDataAgreesWithScreens | src/components/DashboardContent.tsx:22-27 | The overview's scope equals the member and training screens' scope for every session, and the contribution screen's for every non-member session |
| DashboardContent.MemberSessionSeesAllContributions | src/components/DashboardContent.tsx:18-27 | A member session's overview is built from every member's contributions |
| DashboardContent.Average | src/components/DashboardContent.tsx:40-41 | The average times the count is the total when the count is positive, and 0 when the count is 0 |
| DashboardContent.AverageWithinBounds | src/components/DashboardContent.tsx:40-41 | The average of amounts lying between two bounds lies between them |
| DashboardContent.ComputeStats | src/components/DashboardContent.tsx:35-42 | Member, training and contribution figures of the scoped data. The syndicate figure is the number of syndicates for an admin and 1 for anyone else. The average is 0 without contributions |
| DashboardContent.LeaderMemberCardIsSyndicateCount | src/components/DashboardContent.tsx:36 | A leader's member card equals the syndicate's member count on the syndicate screen |
| DashboardContent.MonthlyData | src/components/DashboardContent.tsx:45-56 | Twelve entries in January..December order; each entry covers exactly the contributions with that month tag, whatever the year |
| DashboardContent.MonthlyDataAddsUp | src/components/DashboardContent.tsx:37-56 | The monthly amounts add up to the total contributions and the monthly counts to the number of contributions |
| DashboardContent.MonthlyDataIsSeriesOfOnlyYear | src/components/DashboardContent.tsx:45-56 | When every contribution is of one year, the overview chart equals the per-year series `getContributionsByMonth` computes for that year |
| DashboardContent.Buckets | src/components/DashboardContent.tsx:59-73 | One slice per key in the listed order with empty slices dropped; each slice's value is the positive number of elements with that key |
| DashboardContent.BucketsShowOccupiedKeys | src/components/DashboardContent.tsx:59-73 | A listed key gets a slice iff some element has it, and the slices keep the listed order |
| DashboardContent.EducationData | src/components/DashboardContent.tsx:59-65 | Members per education level, none..university order; a level appears iff some member has it; every value is positive |
| DashboardContent.PaymentMethodData | src/components/DashboardContent.tsx:68-73 | Contributions per payment method, cash..momo order; a method appears iff some contribution uses it; every value is positive |
| DashboardContent.DistributionsAddUp | src/components/DashboardContent.tsx:59-73 | The education slices add up to the number of members and the payment slices to the number of contributions |
| DashboardContent.PerformanceOf | src/components/DashboardContent.tsx:77-86 | A syndicate's row: its member count, the total paid by its members, and that total divided by the member count (0 without members) |
| DashboardContent.SyndicatePerformance | src/components/DashboardContent.tsx:76-88 | For an admin one row per syndicate in order; for anyone else no rows |
| DashboardContent.PerformanceMembersAddUp | src/components/DashboardContent.tsx:76-88 | With distinct syndicate ids covering every member, the table's member column adds up to the member card |
| Layout.MenuItems | src/components/Layout.tsx:28-45 | Syndicates is offered iff admin. Training is offered iff neither leader nor member. An admin gets exactly overview, members, contributions, training, syndicates; a signed-out session the same without syndicates; a leader exactly overview, members, contributions; a member exactly contributions. Contributions is always offered, and no entry repeats |
| Layout.ParseView | src/components/Dashboard.tsx:28-42 | A string is read back as a view exactly when it is that view's id, one of the five case labels of the view switch; any other string is no view |
| Layout.MenuIdsRoundTrip | src/components/Layout.tsx:63-66 | Every offered entry's id reads back as that entry's view |
| Dashboard.RenderContent | src/components/Dashboard.tsx:28-42 | The syndicates view shows syndicate management iff admin and member registration otherwise. Members, contributions and training show their screens to every role. Any other view shows the overview |
| Dashboard.TitleNamesRenderedScreen | src/components/Dashboard.tsx:28-58 | For every view and role, the title is the title of the screen that is rendered |
| Dashboard.ScreenTitlesDistinct | src/components/Dashboard.tsx:44-58 | Different screens have different titles |
| Dashboard.MenuEntriesRenderTheirScreens | src/components/Dashboard.tsx:28-42 | Every menu entry renders its own screen, and the syndicate screen is reached from the menu only by an admin |
| Dashboard.MemberStartsOnUnscopedOverview | src/components/Dashboard.tsx:13 | A member session starts on the overview, which its menu does not offer, and that overview shows every member's contributions |
| Scenarios.RegisteredMemberCanSignIn | src/components/MemberRegistration.tsx:88-101 | A newly registered member can sign in with the generated login, unless an earlier stage of the cascade or an earlier member already claims it. The session belongs to the new member and its home syndicate |
| Scenarios.AssignedLeaderCanSignIn | src/components/SyndicateManagement.tsx:116-125 | After a leader is assigned, the generated login signs in as that syndicate's leader, unless something earlier in the cascade claims it. The session is then confined to that syndicate |
| Scenarios.CreatedSyndicateLeaderCanSignIn | src/components/SyndicateManagement.tsx:59-103 | A new syndicate's leader login (generated for a chosen member, typed otherwise) signs in as that syndicate's leader, unless the admin pair or an existing syndicate's leader login claims it first |
| Scenarios.RegistrationOutdatesStoredCount | src/components/SyndicateManagement.tsx:151-153 | Registering a member raises the displayed count of its home syndicate by one and no other, while the stored `memberCount` is untouched, so a stored count that agreed before no longer agrees |

## Left out

- All markup, dialogs, charts, toasts, clipboard calls and React state/effects. They are presentation; the model keeps only the data each handler computes.
- `localStorage` and JSON parsing. The store is four sequences and an optional session, and a missing blob is the empty sequence.
- `Math.random` credential generation, `Date.now()` ids and ISO timestamps. They become parameters (`id`, `now`, `credentials`/`generated`).
- `new Date(...)` parsing and `toLocaleString`. `TrainingManagement.Status` takes already-converted integer times. An unparsable date (which JavaScript compares as false either way) is not modelled.
- Floating-point amounts and `toFixed` formatting. Amounts are integers, sums are exact, and averages are exact reals.
- The per-year monthly series of the contributions screen (`getContributionsByMonth`, src/components/ContributionManagement.tsx:130-137) is defined but never called or rendered there. `ContributionManagement.MonthlySeries` models what it would compute.
- ContributionManagement.Create: amount and year are integers. In the source a cleared number field parses as NaN (src/components/ContributionManagement.tsx:186, :227). A NaN amount passes the `amount <= 0` guard, and a NaN year never equals a stored year, so the source can record a zero-valued payment and the same member/period twice with a null year. The model rejects non-positive amounts and keeps slots unique, as the guards evidently intend.
- ContributionManagement.CreateKeepsSlotsUnique: holds for integer years only, for the same reason.
- A cleared capacity field of the training form parses as NaN (src/components/TrainingManagement.tsx:222). Storing the new training turns it into `null` (:69), and the screen reloads its trainings (:71) and takes the selected training from them (:329). The capacity guard (:96) then compares `length >= null`, which JavaScript evaluates as `length >= 0`, so every registration is refused. The model's integer capacity covers this case as a stored capacity of 0, which refuses every registration the same way.
- MemberRegistration.Search: lower-cases ASCII letters only, because JavaScript's `toLowerCase` follows the full Unicode tables.
- The non-empty username/password guard of the login form (src/components/LoginForm.tsx:27-30). It is UI; `Auth.Login` handles any strings.
- The window `navigate` event of the page frame (src/components/Dashboard.tsx:15-22). It only sets the active view, which `Dashboard.RenderContent` takes as a parameter.
- `getMemberName` helpers and the status-count cards of the screens. They are display lookups with no guard or write.
- The tRPC server and client, the application entry points and the member details dialog. They are network plumbing returning static data, or pure UI.
- Dashboard.Title: its own contract only says the title is non-empty; its meaning is stated by `Dashboard.TitleNamesRenderedScreen`.
