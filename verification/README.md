# FactoryContractHub: a Dafny model of the marketplace core

FactoryContractHub is a marketplace where **companies** post construction
and factory **projects**, **contractors** bid on them, and an accepted bid
becomes a **contract**. A contract's work is paid in **milestones**. Each
milestone moves through a fixed lifecycle: pending, completed, verified,
paid. An **admin** oversees users, projects and contracts.

This project models the parts of the system that hold its rules, one
module per area:

- `Schema`: the shared data model. It holds the closed enums, the row
  defaults and the insert and update validation schemas.
- `Routes`: the project and bid request handlers of the API server, over
  an explicit store of project and bid rows.
- `Milestones`: the contract milestones page. It covers the role-gated
  status lifecycle, the status dialog and its request, progress and money
  totals, and the timeline order.
- The client forms, each with its validation, the request it sends and
  its reset behaviour:
  - `MilestoneForm`: create and edit a milestone;
  - `ProjectForm`: post a project, with a local requirement list;
  - `BidForm`: bid on a project;
  - `Profile`: the profile page's three forms and the skills list input;
  - `Auth`: sign-in and registration.
- The pages' pure logic:
  - `ProjectsPage` and `ContractorsPage`: list filters;
  - `Dashboard` and `AdminDashboard`: counters and recent rows;
  - `AdminUsers`: pagination and verification;
  - `ProjectDetail`: who may bid, the owner's bid actions, colour classes
    and the budget line;
  - `Stars`: star rows;
  - `AdminRoute`: the admin guard.
- Shared helpers:
  - `Wrappers` (`Option`);
  - `Seqs` (filter, map, count, sum over sequences);
  - `Text` (trim, lower-casing, substring search, split/join, decimal
    printing);
  - `Numbers`: JavaScript's `Number`, `parseInt` and `parseFloat` on
    decimal numerals with an optional exponent, `parseInt`'s hexadecimal
    reading after `0x`, and the input change handlers.

**How the source's behaviour is represented:**

- Money and budgets are `real`. A contractor card's star rating is a whole
  number of tenths; a review's rating is a `real`, as the review schema
  sees it.
- The email and URL validators of the form library are function
  parameters `string -> bool`.
- A fresh random UUID is a parameter.
- The signed-in user is an `Option<User>`. The store is an explicit value,
  and handlers return an `Outcome` holding the response and the new store.
- Where a handler or form as written contradicts the way the rest of the
  system uses it, the model keeps the code as written and adds an
  evidently intended variant next to it. The properties connecting the two
  are listed under "## Findings".

## Model

| member | source | states |
|---|---|---|
| Schema.ParseRole | shared/schema.ts:7 | a role string names a role exactly when it is one of the three enum names, and the role it names prints back as the same string |
| Schema.ParseProjectStatus | shared/schema.ts:8 | a project status string is accepted exactly for the four enum names, and reads back as itself |
| Schema.ParseBidStatus | shared/schema.ts:9 | a bid status string is accepted exactly for the four enum names, and reads back as itself |
| Schema.ParseMilestoneStatus | shared/schema.ts:10 | a milestone status string is accepted exactly for the four lifecycle names, and reads back as itself |
| Schema.ParseCategory | shared/schema.ts:11-19 | a category string is accepted exactly for the seven category names, and reads back as itself |
| Schema.MilestoneStatusNames | shared/schema.ts:10 | the milestone status strings on the wire are exactly "pending", "completed", "verified" and "paid" |
| Schema.NewMilestone | shared/schema.ts:132-133 | a stored milestone starts pending, and its order defaults to 0 when the insert gives none |
| Schema.StatusUpdateIgnoresOrder | shared/schema.ts:260-265 | the status-update schema accepts a jump to any status, whatever the current status: it does not enforce the lifecycle |
| Schema.StatusUpdateIdAndUrl | shared/schema.ts:260-265 | an accepted update has a positive id and a URL that passes the validator, and the URL may be left out or be null |
| Schema.ProjectBudgetsUnordered | shared/schema.ts:241-246 | the project insert schema accepts a minimum budget above the maximum |
| Schema.MilestoneDescriptionOptional | shared/schema.ts:253-258 | the milestone description may be left out, and an accepted order is a non-negative integer |
| Routes.GetProject | server/routes.ts:33-50 | the answer is 200 exactly when the id parses and a project has it, and then it is that project; the store never changes |
| Routes.CreateProject | server/routes.ts:53-78 | as written: a failed request leaves the store alone; a created project has the caller as company and is appended to the projects, the bids untouched |
| Routes.CreateProjectIntended | server/routes.ts:53-78 | the corrected handler keeps the same store guarantees as the written one |
| Routes.CompanyIdFromCaller | server/routes.ts:68-71 | the company id a body names never matters: two bodies that differ only in it get the same outcome |
| Routes.ProjectWithoutCompanyIdRefused | server/routes.ts:63-66 | a body without a company id gets 400, 401 or 403 from the written handler, and nothing is stored |
| Routes.ProjectWithoutCompanyIdIntended | server/routes.ts:59-73 | the corrected handler creates the project for a company whose body passes the other checks, with or without a company id |
| Routes.CreateProjectCheckOrder | server/routes.ts:55-73 | project creation answers 401, then 403, then 400, else 201, in that order of checks |
| Routes.CreateProjectKeepsStoreValid | server/routes.ts:68-71 | creating a project keeps every id unique and below the next id |
| Routes.BidSummary | server/routes.ts:114-119 | the summary counts the bids, and the average is 0 with no bids |
| Routes.GetProjectBids | server/routes.ts:99-128 | listing bids never changes the store |
| Routes.BidVisibility | server/routes.ts:111-124 | a visitor, or a company that does not own the project, gets only the summary; the owner, contractors and admins get exactly that project's bids, in stored order |
| Routes.AverageWithinBounds | server/routes.ts:117 | the average bid lies between any bounds every amount respects |
| Routes.GetProjectBidsCheckOrder | server/routes.ts:101-124 | listing bids answers 400 for an id that does not parse, then 404, else 200 |
| Routes.CreateBid | server/routes.ts:132-171 | as written: a failed request leaves the store alone; a created bid is on the path's project, by the caller, pending unless the body names a status, and appended to the bids |
| Routes.CreateBidIntended | server/routes.ts:132-171 | the corrected handler keeps the same store guarantees as the written one |
| Routes.BidsOnlyOnOpenProjects | server/routes.ts:147-154 | a bid is only ever created on a project that exists and is open |
| Routes.BidWithoutIdsRefused | server/routes.ts:156-165 | a well-formed body without the two ids, from a contractor on an open project, gets 400 as written and 201 from the corrected handler |
| Routes.BidStatusFromBody | server/routes.ts:156-165 | a contractor can create a bid that is already accepted by naming that status in the body |
| Routes.CreateBidCheckOrder | server/routes.ts:134-167 | bid creation answers 401, 403, 400 for the id, 404, 400 for a project that is not open, 400 for the body, else 201, in that order |
| Routes.CreateBidKeepsStoreValid | server/routes.ts:160-164 | creating a bid keeps every id unique and below the next id |
| Routes.GetContractorBids | server/routes.ts:175-192 | listing a contractor's bids never changes the store, and success returns a bid list |
| Routes.OwnBidsOnly | server/routes.ts:182-188 | a caller only ever reads their own bids and reads all of them; their own id always succeeds |
| Routes.GetContractorBidsCheckOrder | server/routes.ts:177-188 | listing a contractor's bids answers 400 for an id that does not parse, then 403 unless the caller has that id, else 200 |
| Routes.Decision | server/routes.ts:211-214 | a decision is recorded exactly for "accepted" or "rejected", and it is the named status |
| Routes.SetBidStatus | server/routes.ts:216 | the bids with the id take the new status; every other bid is unchanged |
| Routes.UpdateBidStatus | server/routes.ts:196-225 | a refused decision leaves the store alone; a recorded one changes that bid's status only |
| Routes.BidDecisionChecksRoleOnly | server/routes.ts:202-220 | any company may accept or reject any bid, including bids on other companies' projects, and only that bid's status changes |
| Routes.UpdateBidStatusCheckOrder | server/routes.ts:198-222 | recording a decision answers 401, 403, 400 for the id, 400 for the status, 404, else 200, in that order |
| Routes.UpdateBidStatusKeepsStoreValid | server/routes.ts:216 | recording a decision keeps every id unique and below the next id |
| Milestones.Successor | shared/schema.ts:10 | every status but paid has a successor, one step later in the lifecycle |
| Milestones.NextStatusIsSuccessor | client/src/pages/milestones-page.tsx:278-303 | the status a user's button moves to is always the immediate successor, and paid has none |
| Milestones.NextStatusMatchesTable | client/src/pages/milestones-page.tsx:278-303 | the chain of role and status conditions is exactly the permission table (a contractor completes, a company verifies and pays, an admin takes any step), and nobody signed out moves anything |
| Milestones.CanUpdateMatchesNext | client/src/pages/milestones-page.tsx:251-303 | for a contractor or company the button is offered exactly when a next status exists; an admin is always offered it, even on a paid milestone with no next status |
| Milestones.EmptyUrlBlocksStatusUpdate | client/src/pages/milestones-page.tsx:100-103 | as written, the dialog's untouched empty URL field fails a URL validator that rejects "", so the dialog cannot be submitted without a URL |
| Milestones.EmptyUrlAllowedIntended | client/src/pages/milestones-page.tsx:100-103 | the corrected rule accepts the untouched dialog, agrees with the written rule on every non-empty URL, and accepts all that the written rule accepts |
| Milestones.SubmitStatusUpdate | client/src/pages/milestones-page.tsx:316-328 | a request is sent exactly when a milestone is selected and has a next status; it moves to the successor, goes to that milestone's path and carries the dialog's notes and URL |
| Milestones.SubmitStatusDialog | client/src/pages/milestones-page.tsx:316-328 | a dialog that is sent passed the corrected validation and moves the milestone exactly one step |
| Milestones.RequestBody | client/src/pages/milestones-page.tsx:176-182 | the PATCH body carries no id, names the requested status in the shared enum, and carries the notes and the URL exactly when they were given |
| Milestones.SentRequestIsPermitted | client/src/pages/milestones-page.tsx:316-328 | a sent request comes from a signed-in user, is allowed by the permission table and names the successor status; the shared status-update schema refuses its body as sent, for want of the id the page puts in the path, and with that id added accepts it exactly when the URL is absent or passes the URL check |
| Milestones.ProgressRange | client/src/pages/milestones-page.tsx:204-212 | progress is a percentage, 0 with no milestones, and 100 exactly when every milestone is at least completed |
| Milestones.PaidWithinTotal | client/src/pages/milestones-page.tsx:215-232 | with non-negative amounts the paid figure lies between 0 and the total, so "Remaining" is never negative |
| Milestones.PayingVerifiedMilestone | client/src/pages/milestones-page.tsx:224-232 | paying a verified milestone raises the paid figure by its amount, and leaves the total and the progress unchanged |
| Milestones.SortByOrder | client/src/pages/milestones-page.tsx:594-595 | the timeline is sorted by order and is a permutation of the milestones |
| Milestones.SortSortedUnchanged | client/src/pages/milestones-page.tsx:594-595 | a timeline already in order is left as it is |
| Milestones.SortIdempotent | client/src/pages/milestones-page.tsx:594-595 | sorting twice gives the same timeline as sorting once |
| Milestones.SortStable | client/src/pages/milestones-page.tsx:594-595 | the sort is stable: the milestones of any one order appear in the timeline in their fetched order |
| Milestones.NewMilestoneStartsLifecycle | shared/schema.ts:133 | a new milestone starts at the first status, from which its contractor may mark it completed |
| MilestoneForm.Defaults | client/src/components/forms/milestone-form.tsx:64-73 | with no initial data the fields start empty and the order at "0"; the order is never empty |
| MilestoneForm.Payload | client/src/components/forms/milestone-form.tsx:78-84 | the body has no contract id, and an accepted form sends a positive amount and a non-negative order |
| MilestoneForm.Submit | client/src/components/forms/milestone-form.tsx:78-134 | a request is sent exactly when the form's schema accepts the values, and it carries their body |
| MilestoneForm.SubmitTarget | client/src/components/forms/milestone-form.tsx:78-108 | an edit is a PATCH to the milestone and a create is a POST to the contract's milestones, and the id in the path reads back as the one intended |
| MilestoneForm.EmptyAmountAndOrder | client/src/components/forms/milestone-form.tsx:34-42 | an empty amount is refused, but an empty order converts to 0 and is accepted |
| MilestoneForm.FractionalOrderPassesFormOnly | client/src/components/forms/milestone-form.tsx:39-42 | the form accepts an order of 1.5, which the shared schema's integer order then refuses |
| MilestoneForm.FormStricterThanSchema | client/src/components/forms/milestone-form.tsx:31-43 | given a whole order, an accepted form yields an insert the shared schema accepts, and the form demands a description the schema would let go |
| MilestoneForm.PrefillRoundTrip | client/src/components/forms/milestone-form.tsx:64-73 | an accepted milestone given back as initial data gives accepted defaults that send the same body |
| MilestoneForm.ResetAfterCreateOnly | client/src/components/forms/milestone-form.tsx:87-124 | after a create the form returns to defaults that cannot be sent again; after an edit the values stay |
| ProjectForm.AddRequirement | client/src/components/forms/project-form.tsx:120-128 | blank input changes nothing; otherwise the trimmed text is appended as a required entry with the fresh id and the input is cleared |
| ProjectForm.RemoveRequirement | client/src/components/forms/project-form.tsx:130-132 | the result keeps the list's order and holds exactly the entries with another id |
| ProjectForm.ToggleRequirementStatus | client/src/components/forms/project-form.tsx:134-140 | the list keeps its length, ids and texts, and exactly the matching entries flip their flag |
| ProjectForm.RequirementPayload | client/src/components/forms/project-form.tsx:83-89 | the body carries one item per entry, in order, with its text and flag |
| ProjectForm.RemoveUndoesAdd | client/src/components/forms/project-form.tsx:120-132 | removing the entry just added under a fresh id restores the list |
| ProjectForm.RemoveAbsent | client/src/components/forms/project-form.tsx:130-132 | removing an id nobody carries changes nothing |
| ProjectForm.ToggleTwice | client/src/components/forms/project-form.tsx:134-140 | toggling an entry twice restores the list |
| ProjectForm.ToggleKeepsTexts | client/src/components/forms/project-form.tsx:134-140 | toggling never changes the texts the body sends |
| ProjectForm.RemoveAfterToggle | client/src/components/forms/project-form.tsx:130-140 | removing after toggling removes the same entries as removing alone |
| ProjectForm.Insert | client/src/components/forms/project-form.tsx:83-91 | the body has no company id and no status, and an accepted form passes the shared project schema's other checks |
| ProjectForm.Submit | client/src/components/forms/project-form.tsx:83-91 | as written: a body is sent exactly when the form's fields pass, with the local requirement list beside them |
| ProjectForm.SubmitIntended | client/src/components/forms/project-form.tsx:46-51 | corrected: the requirement list that is sent is the one validated |
| ProjectForm.AfterSuccess | client/src/components/forms/project-form.tsx:103-105 | after a post the form is back at defaults it would refuse, and the list and input are empty |
| ProjectForm.AddedRequirementSent | client/src/components/forms/project-form.tsx:120-128 | an added requirement reaches the body as the last item, trimmed and required |
| ProjectForm.ShortRequirementSent | client/src/components/forms/project-form.tsx:46-51 | as written, a two-letter requirement is sent although the schema's minimum is three |
| ProjectForm.IntendedRequirementsChecked | client/src/components/forms/project-form.tsx:46-51 | under the corrected submission every requirement sent has at least three characters, and the two-letter one is refused |
| ProjectForm.BudgetsUnorderedInForm | client/src/components/forms/project-form.tsx:43-44 | the form accepts a minimum budget above the maximum |
| ProjectForm.EmptyBudgetRejected | client/src/components/forms/project-form.tsx:237 | an emptied budget box leaves the budget undefined, which the form refuses |
| ProjectForm.FormPostRefused | client/src/components/forms/project-form.tsx:91 | the written server handler refuses every accepted form's body with 400, and the corrected handler creates it |
| BidForm.Payload | client/src/components/forms/bid-form.tsx:48-51 | the body has neither id nor status; it carries the typed description and delivery time, and an amount exactly when a number was typed |
| BidForm.Submit | client/src/components/forms/bid-form.tsx:48-51 | a request is sent exactly when the form's schema accepts the values, and it carries their body |
| BidForm.AfterSuccess | client/src/components/forms/bid-form.tsx:62-66 | after a bid the form returns to its defaults, and the callback runs when one was given |
| BidForm.EmptyAmountRejected | client/src/components/forms/bid-form.tsx:95 | an emptied amount box, and an untouched form, are refused |
| BidForm.FormMatchesSchema | client/src/components/forms/bid-form.tsx:22-26 | an accepted form's body passes the server schema's field checks, and a body passing them came from a form that is accepted once a delivery time is typed |
| BidForm.SubmitTarget | client/src/components/forms/bid-form.tsx:50 | the request goes to the bid collection of the form's project, whose id the server reads back |
| BidForm.FormBidOutcome | client/src/components/forms/bid-form.tsx:50 | as written the server refuses an accepted bid with 400; the corrected handler stores it with the typed amount, the caller as contractor, the project and status pending |
| Profile.ParseSkills | client/src/pages/profile-page.tsx:644-649 | every skill is non-empty, trimmed and comma-free; the skills are drawn in order from the trimmed comma-separated pieces, a string is a skill exactly when it is a non-empty trimmed piece, and there are as many skills as non-empty pieces |
| Profile.SkillsRoundTrip | client/src/pages/profile-page.tsx:643-649 | showing clean skills joined by ", " and reading the text back gives the same list |
| Profile.SkillsStable | client/src/pages/profile-page.tsx:643-649 | after one edit, showing the skills and reading them back changes nothing |
| Profile.NoSkillsFromSeparators | client/src/pages/profile-page.tsx:644-649 | text of commas and blanks gives no skills |
| Profile.ProfileDefaults | client/src/pages/profile-page.tsx:91-98 | every missing field of the stored profile becomes "", so the contact fields are always present |
| Profile.EmptyWebsiteBlocksProfile | client/src/pages/profile-page.tsx:44-51 | as written, a user with no website or contact e-mail on file cannot save the form without typing one |
| Profile.StoredProfileSavableIntended | client/src/pages/profile-page.tsx:44-51 | under the corrected check such a profile can be saved as loaded |
| Profile.IntendedProfileWeaker | client/src/pages/profile-page.tsx:44-51 | the corrected check accepts everything the written one does |
| Profile.YearsInput | client/src/pages/profile-page.tsx:605 | accepted years of experience come from text that parses to a positive whole number |
| Profile.SkillsRequired | client/src/pages/profile-page.tsx:59-64 | an accepted contractor form's skills text contains a non-blank piece |
| Profile.SpecificProfilePath | client/src/pages/profile-page.tsx:84 | companies load their company profile and everyone else loads a contractor profile, under their own id |
| Profile.AdminUsesContractorProfile | client/src/pages/profile-page.tsx:84 | an admin's page asks for the contractor profile, not the company one |
| Auth.Get | client/src/pages/auth-page.tsx:61-63 | a parameter is found exactly when one has the name, and the value found is that of the first parameter with the name |
| Auth.DefaultRole | client/src/pages/auth-page.tsx:62 | the registration form starts as contractor exactly when the query asks for it, and never as admin |
| Auth.DefaultTab | client/src/pages/auth-page.tsx:63 | the page opens on registration exactly when the query asks for it |
| Auth.RegisterDefaults | client/src/pages/auth-page.tsx:81-88 | the registration form starts with empty fields and the default role |
| Auth.Redirect | client/src/pages/auth-page.tsx:66-70 | a signed-in visitor, and only one, is sent to the dashboard |
| Auth.RegisterStricterThanSchema | client/src/pages/auth-page.tsx:45-52 | the registration form accepts exactly what the server's user schema accepts minus the admin role |
| Auth.DefaultsNeedInput | client/src/pages/auth-page.tsx:40-52 | the default role passes the role check, and the untouched forms are refused |
| Auth.FirstRoleWins | client/src/pages/auth-page.tsx:62 | only the first role parameter counts |
| AdminRoute.AdminGuard | client/src/lib/admin-protected-route.tsx:14-47 | a spinner exactly while loading, the page exactly for a loaded admin, sign-in for nobody and the dashboard for anyone else |
| AdminRoute.AdminGuardCases | client/src/lib/admin-protected-route.tsx:24-45 | once loaded, a missing user is sent to sign in and exactly the non-admins are denied |
| AdminRoute.SelfRegisteredNotAdmin | client/src/lib/admin-protected-route.tsx:32-45 | an account made through the registration form is always denied the admin pages |
| AdminUsers.TotalPages | client/src/pages/admin/users-page.tsx:82-83 | a missing total gives no pages |
| AdminUsers.TotalPagesBounds | client/src/pages/admin/users-page.tsx:83 | the page count is the least number of ten-row pages that holds every user |
| AdminUsers.PaginationShownIff | client/src/pages/admin/users-page.tsx:339 | the pagination bar shows exactly when there are more than ten users |
| AdminUsers.Prev | client/src/pages/admin/users-page.tsx:345 | one page back, never below the first |
| AdminUsers.Next | client/src/pages/admin/users-page.tsx:382 | one page on, never past the last |
| AdminUsers.ControlsKeepRange | client/src/pages/admin/users-page.tsx:345-382 | the controls keep the page in range, and each undoes the other away from the ends |
| AdminUsers.PageLinks | client/src/pages/admin/users-page.tsx:350-378 | the links are in range and increasing, at most five plus the last page, and end at the last page |
| AdminUsers.LinkReach | client/src/pages/admin/users-page.tsx:350-378 | a page has a direct link exactly when it is among the first five or is the last |
| AdminUsers.SubmitSearch | client/src/pages/admin/users-page.tsx:159-164 | a search goes back to page 1 and keeps the query and filter |
| AdminUsers.ChangeRoleFilter | client/src/pages/admin/users-page.tsx:167-170 | choosing a filter sets it and goes back to page 1 |
| AdminUsers.ResetInRange | client/src/pages/admin/users-page.tsx:159-170 | submitting a search or choosing a filter always shows a page in range, and choosing the same filter twice is the same as once |
| AdminUsers.TypeSearch | client/src/pages/admin/users-page.tsx:202-203 | typing in the search box sets the query and keeps the page and the filter |
| AdminUsers.TypingKeepsStalePage | client/src/pages/admin/users-page.tsx:159-203 | typing a new term keeps an out-of-range page out of range; only submitting the search brings it back in range, with the typed query kept |
| AdminUsers.VerifyAction | client/src/pages/admin/users-page.tsx:496-499 | the confirm button asks for the opposite of the user's current flag, for that user |
| AdminUsers.VerifyTwice | client/src/pages/admin/users-page.tsx:496-499 | confirming twice returns a user with a profile to their original flag |
| ProjectsPage.FilterProjects | client/src/pages/projects-page.tsx:32-45 | nothing is shown before the list arrives; after that, the projects shown are the ones matching the search and bucket, in fetched order |
| ProjectsPage.BucketsPartition | client/src/pages/projects-page.tsx:38-42 | every project falls in exactly one of the three budget buckets |
| ProjectsPage.EmptySearchMatches | client/src/pages/projects-page.tsx:33-42 | an empty search matches every project, and "all" or an unknown bucket value matches every budget |
| ProjectsPage.NoFilterIsIdentity | client/src/pages/projects-page.tsx:32-45 | with no search and no bucket the list is shown as fetched |
| ProjectsPage.SearchIgnoresCase | client/src/pages/projects-page.tsx:33-36 | the search ignores the case of the term |
| ProjectsPage.LongerSearchNarrows | client/src/pages/projects-page.tsx:33-36 | typing more of the term never brings a project back |
| ProjectsPage.BucketCounts | client/src/pages/projects-page.tsx:38-42 | under one search the three buckets share the matching projects out exactly |
| ContractorsPage.FilterContractors | client/src/pages/contractors-page.tsx:113-130 | the contractors shown are the ones passing the search, specialty and location tests, in order |
| ContractorsPage.NoFilterIsIdentity | client/src/pages/contractors-page.tsx:113-130 | with no search and both filters at "all" the whole directory shows |
| ContractorsPage.SpecialtyBySubstring | client/src/pages/contractors-page.tsx:122-123 | the specialty filter matches by substring, ignoring case |
| ContractorsPage.NarrowingFiltersShrinks | client/src/pages/contractors-page.tsx:122-127 | narrowing a filter from "all" never enlarges the list |
| ContractorsPage.MentionsShorter | client/src/pages/contractors-page.tsx:115-119 | text that mentions a longer term mentions every beginning of it |
| ContractorsPage.LongerSearchNarrows | client/src/pages/contractors-page.tsx:115-119 | typing more of the term never enlarges the list |
| Dashboard.DataPath | client/src/pages/dashboard-page.tsx:38-39 | a company's dashboard loads its projects and anybody else's loads their bids, under their own id |
| Dashboard.CompanyCounters | client/src/pages/dashboard-page.tsx:45-49 | a list that has not loaded gives zeros, and active plus completed never exceeds the projects |
| Dashboard.ContractorCounters | client/src/pages/dashboard-page.tsx:50-54 | a list that has not loaded gives zeros, and the counters never exceed the bids |
| Dashboard.Recent | client/src/pages/dashboard-page.tsx:209 | the panel shows the first three items, or all of them when fewer |
| Dashboard.OpenBidsAdds | client/src/pages/dashboard-page.tsx:48 | "Open Bids" adds each project's bid count, and a missing count adds nothing |
| Dashboard.OpenBidsNonNegative | client/src/pages/dashboard-page.tsx:48 | with no negative bid counts "Open Bids" is never negative |
| Dashboard.AllCountedUnlessCancelled | client/src/pages/dashboard-page.tsx:46-47 | active plus completed is the whole list exactly when no project is cancelled |
| AdminDashboard.UserCounters | client/src/pages/admin/dashboard-page.tsx:64-69 | a list that has not loaded counts as empty; companies plus contractors, and the verified users, never exceed the total |
| AdminDashboard.ProjectCounters | client/src/pages/admin/dashboard-page.tsx:70-76 | a list that has not loaded counts as empty, and the total is the list's length |
| AdminDashboard.ProjectCountersPartition | client/src/pages/admin/dashboard-page.tsx:70-76 | the four status counters never exceed the total, and add up to it exactly when every status is a project status |
| AdminDashboard.ContractCounters | client/src/pages/admin/dashboard-page.tsx:77-81 | a list that has not loaded counts as empty; active plus completed never exceeds the total |
| AdminDashboard.KnownStatusesHaveEntries | client/src/pages/admin/dashboard-page.tsx:84-96 | every project and milestone status has a badge of its own, and so does the contracts' default status |
| AdminDashboard.AcceptedFallsBack | client/src/pages/admin/dashboard-page.tsx:84-98 | an accepted bid has no entry and shows the raw status |
| AdminDashboard.StatusBadge | client/src/pages/admin/dashboard-page.tsx:84-98 | a status with a table entry shows that entry; any other status shows as its own text, outlined, except the name of a member every object inherits, which finds that member and shows no text and no variant |
| AdminDashboard.UnknownStatusLabel | client/src/pages/admin/dashboard-page.tsx:98 | a status outside the table shows as its own text, outlined, unless it names an inherited member such as "constructor" or "toString", which shows an empty badge with no variant |
| AdminDashboard.TableRows | client/src/pages/admin/dashboard-page.tsx:256 | each table shows the first five rows, or all of them when fewer |
| ProjectDetail.CanBidMatchesServer | client/src/pages/project-detail-page.tsx:111-113 | the bid button shows exactly when the corrected server handler would create a well-formed bid from this viewer on this project |
| ProjectDetail.OwnerSeesBidList | client/src/pages/project-detail-page.tsx:197 | the owning company is answered with the full bid list, never the summary |
| ProjectDetail.BidActions | client/src/pages/project-detail-page.tsx:234-255 | a bid has buttons exactly while it is pending |
| ProjectDetail.Press | client/src/pages/project-detail-page.tsx:58-61 | a button PATCHes the bid's status path |
| ProjectDetail.ActionsAreDecisions | client/src/pages/project-detail-page.tsx:69-75 | both buttons send a decision the server accepts, and for the owner it records exactly that decision |
| ProjectDetail.KnownColours | client/src/pages/project-detail-page.tsx:24-39 | of the categories only "other" is gray, and every project status has a colour of its own |
| ProjectDetail.ColourFallbacks | client/src/pages/project-detail-page.tsx:107-108 | a category or status outside its enum is gray, except the name of an inherited member, which gives no colour class; no enum name is such a member |
| ProjectDetail.CategoryFallback | client/src/pages/project-detail-page.tsx:107 | an unknown category is gray, and an inherited member's name is no category and gives no class |
| ProjectDetail.StatusFallback | client/src/pages/project-detail-page.tsx:108 | an unknown status is gray, and an inherited member's name is no project status and gives no class |
| ProjectDetail.BudgetLine | client/src/pages/project-detail-page.tsx:154-155 | the line shows the minimum, and the maximum exactly when it differs |
| ProjectDetail.BudgetLineRecoversBudgets | client/src/pages/project-detail-page.tsx:154-155 | both budgets can be read back from the line |
| Stars.RenderStars | client/src/components/ui/card-contractor.tsx:21-40 | the row holds the full, half and empty counts in that order: it starts with the whole stars, no full star follows them, and a half star appears exactly when the tenths digit is at least 5 |
| Stars.FiveIcons | client/src/components/ui/card-contractor.tsx:21-40 | a rating from 0 to 5 shows five icons, with as many full stars as whole stars and at most one half star |
| Stars.WholeRatingNoHalf | client/src/components/ui/card-contractor.tsx:24-25 | a whole-star rating shows no half star |
| Stars.OverFiveNoEmpty | client/src/components/ui/card-contractor.tsx:34-37 | above five no empty star is drawn, and from 5.5 on the row grows past five icons |
| Stars.ReviewStars | client/src/pages/contractor-detail-page.tsx:269-274 | a review draws a row exactly when its rating is a whole number from 0 to 5, and then five icons; any other rating makes `Array` throw |
| Stars.AcceptedReviewsDraw | client/src/pages/contractor-detail-page.tsx:269-274 | a rating the review schema accepts draws exactly when it is whole, and then that many full stars and the rest empty; the schema accepts 4.5, which draws nothing |
| Numbers.ParseIntOfIntToString | server/routes.ts:35 | `parseInt` reads back any integer the client wrote into a path |
| Numbers.ToNumber | client/src/components/forms/milestone-form.tsx:35 | blank text converts to 0, and other text converts only when it holds a numeral |
| Numbers.ToNumberOfNatToString | client/src/components/forms/milestone-form.tsx:81-83 | `Number` reads back the decimal text of any natural number |
| Numbers.ParseFloat | client/src/components/forms/bid-form.tsx:95 | `parseFloat` gives NaN exactly when no numeral starts the text after leading white space |
| Numbers.ParseFloatOfIntToString | client/src/components/forms/bid-form.tsx:95 | `parseFloat` reads back the decimal text of any integer |
| Numbers.ParseFloatExponent | client/src/components/forms/bid-form.tsx:95 | `parseFloat` reads "1e3" as 1000, stops "2.5x" at 2.5, and reads "7e" as 7 because an `e` with no digit after it is not part of the numeral |
| Numbers.ParseInt | client/src/pages/profile-page.tsx:605 | `parseInt` fails exactly when no digit of the chosen base follows the optional sign; the result carries the sign read and the magnitude of the digits |
| Numbers.Magnitude | client/src/pages/profile-page.tsx:605 | after a `0x` prefix the value is missing exactly when no hexadecimal digit follows; otherwise exactly when no decimal digit starts the text, and then it is the value of the decimal run |
| Numbers.ParseIntHex | client/src/pages/profile-page.tsx:605 | `parseInt` reads "0x1A" as 26 |
| Numbers.ParseIntSignedHex | client/src/pages/profile-page.tsx:605 | the sign comes before the prefix, which may be upper case: "-0X10" reads as -16 |
| Numbers.ParseIntBareHexPrefix | client/src/pages/profile-page.tsx:605 | "0x" with nothing after it is NaN, although it starts with the decimal digit 0 |
| Numbers.ParseIntLeadingZero | client/src/pages/profile-page.tsx:605 | a leading zero without `x` is read as decimal: "012" is 12 |
| Numbers.DecimalInput | client/src/components/forms/project-form.tsx:237 | an empty box gives no value, and otherwise the value is NaN exactly when no numeral starts the text |
| Numbers.IntInput | client/src/pages/profile-page.tsx:605 | an empty box gives no value, and a number read is whole |
| Numbers.Json | client/src/components/forms/bid-form.tsx:50 | a number is sent as itself and NaN is sent as null |
| Text.TrimEmptyAllWhitespace | client/src/components/forms/project-form.tsx:121 | the trimmed text is empty exactly when the text is all white space |

## Left out

- Storage and the database are not modelled: query building, the stored bid order and the seed data. Handlers see the store as sequences of rows, in insertion order.
- The handlers' 500 paths (thrown exceptions) and every route not named above, including `GET /api/projects` and `GET /api/companies/:id/projects`.
- Rendering, toasts, query invalidation, dates and time stamps (`formatDistanceToNow`, due dates).
- Floating point. Money is `real`, so rounding, `Math.round` of the progress figure and `toLocaleString` formatting are not modelled.
- JSON type mismatches. A body field is either the expected type or absent, and 32-bit integer ranges of the database columns are not enforced.
- Numbers.ToNumber: covers decimal numerals with an optional sign, fraction and exponent only; `Number`'s hexadecimal, octal and binary literals (`0x1A` is 26 there, NaN here) and `Infinity` are not modelled, because the forms only ever convert decimal text.
- Numbers.ParseFloat: `Infinity` (and "-Infinity") read as NaN here, whereas JavaScript reads them as infinite, because `JsNumber` has no infinite values.
- Numbers.ParseInt: the result is an unbounded integer; the rounding of very long digit runs to the nearest double is not modelled.
- Numbers.DecimalInput: inherits the two gaps of `ParseFloat` above.
- Lengths: every minimum or maximum length (`min(3)` and the like) counts Unicode characters, whereas JavaScript counts UTF-16 code units, so text outside the Basic Multilingual Plane is counted shorter here than by the schemas.
- The insert schemas are modelled with the semantics of drizzle-zod 0.6 and later, in which a refinement given for a column replaces that column's schema; this is why the refined milestone `order` and the bid `description` are required, whatever the column's nullability or default.
- Schema.ReviewRatingAccepted: states the review schema's range check, which lets 4.5 through; the integer `rating` column that would refuse it at insert time is not modelled, so `Stars.AcceptedReviewsDraw` shows what a fractional rating does on the page.
- The colour classes and badges for the name of an inherited member (`constructor`, `toString`, `__proto__` and the others on `Object.prototype`): the lookup finds that member instead of falling back, and the model shows this as no class and no label; how the badge component renders a function or an object passed as a class or label belongs to the UI library and is not modelled.
- Text.Lower: lower-cases ASCII letters only, because Unicode case mapping is outside the model.
- The email and URL validators are parameters, because their grammar is the form library's, not this system's.
- The fresh requirement id (`crypto.randomUUID`) is a parameter, because it is random.
- Milestones.SortByOrder: a missing order is not modelled; every milestone row carries an integer order, the column default being 0. The sort is functional (an insertion sort, stable like `Array.prototype.sort`), whereas the page sorts the fetched array in place.
- The milestone status formatter (`formatStatus`) and the contractor card's other fields, because they are display only.
- Profile: the guard that resets the profile form once when data arrives is modelled only through `ProfileDefaults`, the avatar upload is left out, and the mutations are reduced to their endpoints.
- AdminUsers.Apply: the server route that verifies a user is not part of this model; `Apply` assumes it sets the flag requested.
- The admin users page's edit and delete dialogs, and its query string, because they only pass values to the server.
- The contractor directory's data is hard-coded in the page; the model filters any list of cards.
- Auth: the register and login network calls and the session are left out; query parameters arrive already decoded.
- Stars.RenderStars: a card's rating is a whole number of tenths, so ratings between tenths are not modelled.

## Findings

| source | as written | input that shows it | evidently intended | confidence | as-written member | corrected member |
|---|---|---|---|---|---|---|
| server/routes.ts:63-71 | `insertProjectSchema` requires `companyId` in the body, and the body is checked before the handler adds the caller's id | a signed-in company posting the project form's body, which has no `companyId`: answered 400 | check the body without `companyId`, which the handler supplies | medium, not executed | Routes.ProjectWithoutCompanyIdRefused | Routes.ProjectWithoutCompanyIdIntended |
| server/routes.ts:156-165 | `insertBidSchema` requires `projectId` and `contractorId` in the body before the handler overrides both | a contractor posting the bid form's body (amount, description, delivery time) on an open project: answered 400 | check the body without the two ids | medium, not executed | Routes.BidWithoutIdsRefused | Routes.CreateBidIntended |
| client/src/pages/milestones-page.tsx:100-103 | the optional URL field is validated as a URL even when it holds the empty string its defaults put there | opening the status dialog and submitting it untouched: the URL check fails | treat an empty URL as no URL | medium, not executed | Milestones.EmptyUrlBlocksStatusUpdate | Milestones.EmptyUrlAllowedIntended |
| client/src/pages/profile-page.tsx:44-51 | an optional e-mail or website is validated even when it holds the "" that a missing stored value becomes | a user whose stored profile has no website, saving it unchanged: refused | treat an empty e-mail or website as none | medium, not executed | Profile.EmptyWebsiteBlocksProfile | Profile.StoredProfileSavableIntended |
| client/src/components/forms/project-form.tsx:46-51 | the requirement rule checks the form's own `requirements` field, which stays empty; the local list is added to the body afterwards, unchecked | adding the requirement "ab" and posting: it is sent although the minimum is 3 | validate the requirements that are sent | high, not executed | ProjectForm.ShortRequirementSent | ProjectForm.IntendedRequirementsChecked |
