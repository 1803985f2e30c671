# Mental Pulse: route handlers and client logic in Dafny

Mental Pulse is a campus mental-health platform. Students record moods and raise crisis alerts. Mentors publish profiles and accept connection requests. Administrators work through crisis alerts and manage wellness campaigns and resources. This project models, as pure Dafny functions over explicit stores:

- the Next.js back end's authentication helpers, request schemas and route handlers: registration, privacy, crisis alerts (raise, list, resolve and reopen), the mentor directory and mentor profiles, connections, mood history, resources and campaigns;
- the React client's pure logic: the authentication context and the protected-route gate, routing, the sign-in and sign-up forms, and the filtering and derived state of the peer-mentorship, mentor dashboard, crisis console, resources library and cultural activities pages.

Every handler takes the outcome of authentication as a `Result`, the parsed request body as an `Option<Json>` (None is a body that fails to parse), and the store it reads. A mutating handler returns an `Outcome` of its reply together with the new store. Outside effects are parameters: the database's generated ids and timestamps, the clock, token signing and verification, password hashing, the zod string formats (email, url, datetime), and the answers of network calls.

The modules follow the program's structure:

- `Common`, `Text`, `Seqs`, `Sorting`, `Paging` and `JsonValues` are shared helpers.
- `Users`, `Auth`, `Validations`, `Redaction` and `Priority` model the server library and the rules the routes share.
- One module per route file: `Registration`, `Privacy`, `CrisisIngest`, `CrisisAlerts`, `Mentors`, `MentorProfileRoute`, `Connections`, `CheckIns`, `Resources`, `Campaigns`.
- One module per client file: `AuthSession`, `AppRoutes`, `Forms`, `PeerMentorship`, `MentorHome`, `CrisisWorkflow`, `ResourcesLibrary`, `CulturalActivities`.

## Model

| member | source | states |
|---|---|---|
| Auth.GetAuthenticatedUser | mental-pulse-backend/src/lib/auth.ts:44-74 | A caller is authenticated exactly when the header starts with "Bearer ", the rest verifies as a token, and its user exists and is active. Every failure is the single "Authentication failed" error. |
| Auth.GetAuthenticatedAdmin | mental-pulse-backend/src/lib/auth.ts:76-84 | Passes authentication failures through. An authenticated non-admin gets "Admin access required". An admin is returned unchanged. |
| Auth.OnlyTokenIsVerified | mental-pulse-backend/src/lib/auth.ts:51-52 | Only the text after "Bearer " reaches the verifier: two verifiers that agree on it authenticate the same way. |
| Auth.NoBearerNoAccess | mental-pulse-backend/src/lib/auth.ts:46-49 | A missing header, or one without the Bearer prefix, fails both the user gate and the admin gate. |
| Auth.InactiveUserRefused | mental-pulse-backend/src/lib/auth.ts:54-68 | A valid token whose user is missing or inactive is still refused. |
| Auth.AuthReply | mental-pulse-backend/src/app/api/admin/crisis-alerts/route.ts:104-122 | The admin routes answer an authentication failure with 401 and a missing admin role with 403. |
| Auth.UserGateReply | mental-pulse-backend/src/app/api/mentors/route.ts:99-111 | The user routes answer an authentication failure with 401 and anything else with 500. |
| Users.ParseUserType | mental-pulse-backend/src/lib/validations.ts:8-10 | Only the three role names parse, and each parses back to its own name. |
| Users.UserTypeRoundTrip | mental-pulse-backend/src/lib/validations.ts:8-10 | Every role's name parses back to that role. |
| Validations.ParseRegister | mental-pulse-backend/src/lib/validations.ts:4-12 | Accepts exactly the bodies the register schema admits. The result carries the body's fields, and anonymityLevel defaults to 50 and lies in 0..100. |
| Validations.RegisterRoundTrip | mental-pulse-backend/src/lib/validations.ts:4-12 | Serialising a schema-conforming input and parsing it back gives the same input. |
| Validations.RegisterDefaultsAnonymity | mental-pulse-backend/src/lib/validations.ts:11 | A valid body without anonymityLevel registers at level 50. |
| Validations.ParseLogin | mental-pulse-backend/src/lib/validations.ts:14-17 | Accepts exactly an email-format string and a non-empty password, and returns the two. |
| Validations.ParsePrivacy | mental-pulse-backend/src/lib/validations.ts:19-21 | Accepts exactly a number in 0..100 and returns it. |
| Validations.ParseMood | mental-pulse-backend/src/lib/validations.ts:24-28 | Accepts exactly a score in 1..5 with optional string notes and location. The result holds the body's score, and notes and location are present iff the body has them, with the body's text. |
| Validations.MoodRoundTrip | mental-pulse-backend/src/lib/validations.ts:24-28 | Serialising a mood input with a score in 1..5 and parsing it back gives the same input. |
| Validations.ParseChatMessage | mental-pulse-backend/src/lib/validations.ts:31-33 | Accepts exactly text of 1 to 1000 characters and returns that text. |
| Validations.ParseProfile | mental-pulse-backend/src/lib/validations.ts:36-41 | Accepts exactly the bodies the profile schema admits. The result holds the body's department, year and specialties (non-empty, at least one specialty), and its bio iff the body has one. |
| Validations.ProfileRoundTrip | mental-pulse-backend/src/lib/validations.ts:36-41 | Serialising a profile input that meets the schema and parsing it back gives the same input. |
| Validations.ParseProfilePatch | mental-pulse-backend/src/lib/validations.ts:36-41 | The partial schema: each field is present in the patch iff the body has it, it then holds the body's value, and it obeys the full schema's bound. |
| Validations.ProfileIsPatch | mental-pulse-backend/src/lib/validations.ts:36-41 | Every full profile body is also a valid partial one. |
| Validations.ParseConnectionRequest | mental-pulse-backend/src/lib/validations.ts:44-46 | Accepts exactly a UUID-shaped mentorId and returns it. |
| Validations.ParseCrisisAlert | mental-pulse-backend/src/lib/validations.ts:49-52 | Accepts exactly a non-empty areaOfConcern with an optional string description. The result holds the body's area, and the description is present iff the body has one, with its text. |
| Validations.CrisisRoundTrip | mental-pulse-backend/src/lib/validations.ts:49-52 | A crisis input with a non-empty area survives serialising and parsing. |
| Validations.ParseCampaignStatus | mental-pulse-backend/src/lib/validations.ts:60 | Exactly the four status names parse, each back to its own name. |
| Validations.ParseCampaign | mental-pulse-backend/src/lib/validations.ts:55-61 | Accepts exactly the campaign schema. The result holds the body's title, datetime-format date, department and description. A missing status becomes draft, and a given one is kept. |
| Validations.CampaignRoundTrip | mental-pulse-backend/src/lib/validations.ts:55-61 | Serialising a campaign input that meets the schema and parsing it back gives the same input, status included. |
| Validations.ParseResource | mental-pulse-backend/src/lib/validations.ts:64-70 | Accepts exactly the resource schema. The result holds the body's title and category, its description and url iff given (a url in url format), and isPublic defaults to true. |
| Validations.ResourceRoundTrip | mental-pulse-backend/src/lib/validations.ts:64-70 | Serialising a resource input that meets the schema and parsing it back gives the same input. |
| Redaction.ReporterName | mental-pulse-backend/src/app/api/admin/crisis-alerts/route.ts:67-69 | A reporter above level 50 is "Anonymous Student". Otherwise the name is shown, or "Anonymous" when it is empty or there is no reporter. |
| Redaction.RedactReporter | mental-pulse-backend/src/app/api/admin/crisis-alerts/route.ts:65-74 | The email is shown iff the level is non-zero and below 30. Contact is allowed iff the level is non-zero and below 50, since a zero level is falsy. |
| Redaction.EmailImpliesContact | mental-pulse-backend/src/app/api/admin/crisis-alerts/route.ts:70-73 | A reporter whose email is shown can always be contacted. |
| Redaction.ReporterFollowsThresholds | mental-pulse-backend/src/app/api/admin/crisis-alerts/route.ts:65-74 | For a named reporter with a non-zero level, the three disclosures follow the 50/30/50 thresholds. |
| Redaction.LevelZeroWithholdsContact | mental-pulse-backend/src/app/api/admin/crisis-alerts/route.ts:70-73 | Level 0, the most public setting, withholds email and contact that level 1 grants. The name is unaffected. |
| Redaction.RedactParty | mental-pulse-backend/src/app/api/connections/route.ts:191-203 | The name is hidden above level 70 and the email is shown below 30. Id and level are copied. |
| Redaction.PartyViewMonotone | mental-pulse-backend/src/app/api/connections/route.ts:191-203 | Raising a level never reveals a hidden name or an email that was hidden. |
| Redaction.PartyViewBands | mental-pulse-backend/src/app/api/connections/route.ts:191-203 | A shown email implies a shown name. Between 30 and 70 exactly the name and no email are disclosed. |
| Priority.Classify | mental-pulse-backend/src/app/api/admin/crisis-alerts/route.ts:205-227 | Critical iff a critical word occurs; High iff not critical and a high-area word occurs; Medium iff neither and a medium-area word occurs. |
| Priority.DeterminePriority | mental-pulse-backend/src/app/api/admin/crisis-alerts/route.ts:205-227 | The same classification on the lower-cased area and description. Low iff none of the eleven words occurs. |
| Priority.NullDescriptionIsEmpty | mental-pulse-backend/src/app/api/admin/crisis-alerts/route.ts:206 | A missing description classifies like an empty one. |
| Priority.CaseInsensitive | mental-pulse-backend/src/app/api/admin/crisis-alerts/route.ts:206 | Lower-casing the inputs first changes nothing. |
| Priority.ClassifyMonotone | mental-pulse-backend/src/app/api/admin/crisis-alerts/route.ts:205-227 | Appending text never lowers the priority. |
| Priority.DescriptionOnlyRaises | mental-pulse-backend/src/app/api/admin/crisis-alerts/route.ts:205-227 | Lengthening the description never lowers the priority. |
| Priority.CriticalAreaDominates | mental-pulse-backend/src/app/api/admin/crisis-alerts/route.ts:205-227 | An area naming a critical word is critical whatever the description says. |
| Registration.Register | mental-pulse-backend/src/app/api/auth/register/route.ts:6-76 | An unparsable body gives 500, a schema failure 400, and a taken email 409, all with the store unchanged. Success is exactly a valid new email plus a signed token. The stored user is only ever the new one appended. |
| Registration.SigningFailureKeepsUser | mental-pulse-backend/src/app/api/auth/register/route.ts:37-75 | When token signing fails after the insert, the reply is 500 but the new user stays stored. |
| Registration.RegisterKeepsUnique | mental-pulse-backend/src/app/api/auth/register/route.ts:22-54 | Registration preserves unique emails and unique ids. |
| Registration.TokenAuthenticatesNewUser | mental-pulse-backend/src/app/api/auth/register/route.ts:57-67 | The returned token authenticates the new user against the new store, and the returned account is that user. |
| Registration.NewUser | mental-pulse-backend/src/app/api/auth/register/route.ts:37-54 | The stored row carries the input's fields and the hash of its password. |
| Privacy.UpdatePrivacy | mental-pulse-backend/src/app/api/users/me/privacy/route.ts:6-55 | Success is exactly a valid level for a stored caller. Only the caller's level changes. Failures leave the store alone, and a bad body gives 400 "Validation failed". |
| Privacy.ValidUpdateSucceeds | mental-pulse-backend/src/app/api/users/me/privacy/route.ts:12-40 | An authenticated caller with a valid body always succeeds. |
| Privacy.OutOfRangeRefused | mental-pulse-backend/src/app/api/users/me/privacy/route.ts:12-18 | A level outside 0..100 is refused and nothing changes. |
| Privacy.UpdateIdempotent | mental-pulse-backend/src/app/api/users/me/privacy/route.ts:23-35 | Repeating the same update changes nothing more. |
| Privacy.OnlyAnonymityChanges | mental-pulse-backend/src/app/api/users/me/privacy/route.ts:23-35 | Apart from anonymityLevel, every user record is unchanged. |
| CrisisIngest.SubmitAlert | mental-pulse-backend/src/app/api/crisis/alert/route.ts:7-89 | Success is exactly an authenticated caller with a valid body. It appends the alert with the caller as reporter, unresolved, and notifies each active admin once with a redacted reporter name. Failures store and send nothing. |
| CrisisIngest.NotifyAll | mental-pulse-backend/src/app/api/crisis/alert/route.ts:53-63 | One notification per admin, in order, each addressed to that admin. |
| CrisisIngest.SubmitKeepsInvariant | mental-pulse-backend/src/app/api/crisis/alert/route.ts:24-39 | Raising an alert keeps ids unique and resolution consistent with resolvedAt. |
| CrisisIngest.EachActiveAdminNotifiedOnce | mental-pulse-backend/src/app/api/crisis/alert/route.ts:42-63 | Each active admin gets exactly one notice. Every other user gets none. |
| CrisisIngest.OnlyActiveAdminsNotified | mental-pulse-backend/src/app/api/crisis/alert/route.ts:42-50 | Every notice goes to an active admin. |
| CrisisIngest.NoticeMatchesStoredAlert | mental-pulse-backend/src/app/api/crisis/alert/route.ts:53-63 | The notice describes the stored alert and hides a reporter above level 50. |
| CrisisIngest.SubmittedAlertIsActiveAndRecent | mental-pulse-backend/src/app/api/crisis/alert/route.ts:24-33 | A submitted alert raises both the active and the last-24-hours counts of the console by one. |
| CrisisAlerts.ParseStatusFilter | mental-pulse-backend/src/app/api/admin/crisis-alerts/route.ts:24-29 | "resolved" and "active" select, and any other value or none shows all. |
| CrisisAlerts.ListedViews | mental-pulse-backend/src/app/api/admin/crisis-alerts/route.ts:44-77 | At most `limit` views, each matching the filter. Unresolved come before resolved, and newest first within each. The i-th view is the view of the i-th alert of the page. |
| CrisisAlerts.ShownSelectedAndSorted | mental-pulse-backend/src/app/api/admin/crisis-alerts/route.ts:44-49 | The page holds only selected alerts in the route's order. |
| CrisisAlerts.ListAlerts | mental-pulse-backend/src/app/api/admin/crisis-alerts/route.ts:12-123 | Non-admins get 401/403. Admins get the page, the count of filtered alerts and the page count. The statistics count unresolved, resolved and last-24-hours alerts over the whole store. |
| CrisisAlerts.EverySelectedAlertIsListed | mental-pulse-backend/src/app/api/admin/crisis-alerts/route.ts:19-55 | Every alert matching the filter appears on some page between 1 and totalPages. |
| CrisisAlerts.TotalMatchesStatistics | mental-pulse-backend/src/app/api/admin/crisis-alerts/route.ts:80-91 | The statistics total equals the active count, the resolved count, or their sum, by filter. |
| CrisisAlerts.ViewOf | mental-pulse-backend/src/app/api/admin/crisis-alerts/route.ts:58-77 | A view copies the alert's fields, redacts the stored reporter by the reporter rule, and carries the priority of the alert's text and the time since it was raised. |
| CrisisAlerts.Statistics | mental-pulse-backend/src/app/api/admin/crisis-alerts/route.ts:80-91 | Active counts the unresolved alerts and resolved the resolved ones. last24Hours counts the alerts raised at or after a day before now. |
| CrisisAlerts.ListedReportersRedacted | mental-pulse-backend/src/app/api/admin/crisis-alerts/route.ts:57-75 | On a listed page, an unknown reporter shows as "Anonymous" with nothing else. Above level 50 the name is hidden. The email is shown iff the level is non-zero and below 30, and contact is offered iff it is non-zero and below 50. The priority is that of the alert's text. |
| CrisisAlerts.RecentCountOfAppended | mental-pulse-backend/src/app/api/admin/crisis-alerts/route.ts:80-91 | One more alert raises last24Hours by one iff it is recent, and the active count by one iff it is unresolved. |
| CrisisAlerts.UpdateBody | mental-pulse-backend/src/app/api/admin/crisis-alerts/route.ts:6-10 | A resolve/reopen body passes the schema iff the id is a UUID. |
| CrisisAlerts.SetResolved | mental-pulse-backend/src/app/api/admin/crisis-alerts/route.ts:154-159 | Only the target alert changes. resolvedAt is set on resolve and cleared on reopen. |
| CrisisAlerts.UpdateAlert | mental-pulse-backend/src/app/api/admin/crisis-alerts/route.ts:125-202 | Success is exactly an admin with a valid body naming a stored alert. It stores the flag and time and replies with the alert, the admin as resolver, and the matching message. Failures give 401/403/400/404/500 with the store unchanged. |
| CrisisAlerts.UnknownAlertIsNotFound | mental-pulse-backend/src/app/api/admin/crisis-alerts/route.ts:142-151 | An unknown id gives 404 "Crisis alert not found" and no change. |
| CrisisAlerts.UpdateKeepsInvariant | mental-pulse-backend/src/app/api/admin/crisis-alerts/route.ts:154-159 | Updates keep ids unique and isResolved in step with resolvedAt. |
| CrisisAlerts.ReopenActiveIsNoOp | mental-pulse-backend/src/app/api/admin/crisis-alerts/route.ts:154-159 | Reopening an active alert leaves the store as it was. |
| CrisisAlerts.ResolveThenReopen | mental-pulse-backend/src/app/api/admin/crisis-alerts/route.ts:154-159 | Resolving then reopening an active alert restores the store. |
| CrisisAlerts.UpdatedAlertConsistent | mental-pulse-backend/src/app/api/admin/crisis-alerts/route.ts:171-181 | The returned alert is resolved iff it has a resolvedAt. |
| Mentors.WantedAvailability | mental-pulse-backend/src/app/api/mentors/route.ts:14-16 | Unavailable mentors are asked for only by `available=false`. |
| Mentors.MentorViewOf | mental-pulse-backend/src/app/api/mentors/route.ts:63-82 | Copies the profile and hides the mentor's name above level 70, exactly as the party redaction does. |
| Mentors.ShownProperties | mental-pulse-backend/src/app/api/mentors/route.ts:19-54 | Shown profiles match the query, have an owner, and come in rating-then-date order. |
| Mentors.DirectoryViews | mental-pulse-backend/src/app/api/mentors/route.ts:19-82 | At most `limit` views, highest rating first. Each has the wanted availability, the asked specialty and department, and the owner's name unless it is hidden. |
| Mentors.ListMentors | mental-pulse-backend/src/app/api/mentors/route.ts:5-112 | An authenticated caller gets the page of views, the number of matching profiles and the page count. Failures get 401/500. |
| Mentors.MatchingSelectedAndSorted | mental-pulse-backend/src/app/api/mentors/route.ts:19-52 | All matches satisfy the query, have an owner, and are sorted. |
| Mentors.AvailabilityDefault | mental-pulse-backend/src/app/api/mentors/route.ts:14-34 | With no parameter only available mentors match. `false` gives only unavailable ones, and other values behave as no parameter. |
| Mentors.DepartmentFilterIgnoresCase | mental-pulse-backend/src/app/api/mentors/route.ts:22-27 | The department filter ignores the case of the query. |
| MentorProfileRoute.CreateProfile | mental-pulse-backend/src/app/api/mentors/profile/route.ts:6-81 | Non-mentors get 403, then an unparsable body 500, bad bodies 400 and an existing profile 409, with the store unchanged. Creation succeeds iff a mentor or admin sends a valid profile, has none yet and the new id is free. It appends a profile with the body's fields, owned by the caller. |
| MentorProfileRoute.CreateKeepsOwnersUnique | mental-pulse-backend/src/app/api/mentors/profile/route.ts:32-66 | Each user keeps at most one profile. |
| MentorProfileRoute.ApplyPatch | mental-pulse-backend/src/app/api/mentors/profile/route.ts:110-127 | A patched field takes the new value, and every other field is kept. |
| MentorProfileRoute.UpdateProfile | mental-pulse-backend/src/app/api/mentors/profile/route.ts:83-142 | An unparsable body gives 500, a bad one 400 and a missing profile 404. The update succeeds iff the patch is valid and the caller has a profile. It replaces only that profile by the patched one. |
| MentorProfileRoute.EmptyPatchChangesNothing | mental-pulse-backend/src/app/api/mentors/profile/route.ts:110-127 | An empty patch leaves every profile as it was. |
| MentorProfileRoute.UpdateIgnoresRole | mental-pulse-backend/src/app/api/mentors/profile/route.ts:83-107 | PATCH does not check the caller's role. |
| MentorProfileRoute.UpdateKeepsOwnersUnique | mental-pulse-backend/src/app/api/mentors/profile/route.ts:110-127 | Updates keep at most one profile per user. |
| Connections.CheckMentor | mental-pulse-backend/src/app/api/connections/route.ts:31-54 | A request fails as not found iff the mentor is missing, not a mentor, inactive or has no profile. It is bookable only when the profile is available. |
| Connections.RequestConnection | mental-pulse-backend/src/app/api/connections/route.ts:6-118 | An unparsable body gives 500, a non-student 403 and a bad body 400. An unknown, non-mentor, inactive or profile-less mentor gives 404, an unavailable one 400, and an existing pair 409. A request succeeds iff a student names a bookable mentor with no existing pair and the new id is free. It appends one pending connection and replies with both parties' contacts. Failures keep the store. |
| Connections.RequestKeepsOnePerPair | mental-pulse-backend/src/app/api/connections/route.ts:56-103 | At most one connection per student and mentor pair. |
| Connections.RepeatedRequestConflicts | mental-pulse-backend/src/app/api/connections/route.ts:56-73 | Repeating a successful request gives 409. |
| Connections.ConnectionViewOf | mental-pulse-backend/src/app/api/connections/route.ts:186-204 | Both parties are redacted by the party rule with their own anonymous names. id, status and both times are copied. The mentor profile is present iff the mentor has one, and it is then that profile's summary. |
| Connections.VisibleProperties | mental-pulse-backend/src/app/api/connections/route.ts:131-178 | A page holds only connections in the caller's scope and status, newest first. |
| Connections.ConnectionViews | mental-pulse-backend/src/app/api/connections/route.ts:147-204 | At most `limit` views, each the redacted view of a listed connection, newest first. |
| Connections.ListConnections | mental-pulse-backend/src/app/api/connections/route.ts:120-229 | An authenticated caller gets the views, the number of connections in scope and the page count. |
| Connections.ListingRespectsScope | mental-pulse-backend/src/app/api/connections/route.ts:131-145 | Students see only their own connections, mentors only theirs, and a status filter is honoured. |
| Connections.EveryScopedConnectionIsListed | mental-pulse-backend/src/app/api/connections/route.ts:131-215 | Every connection in the caller's scope and status is on some page up to totalPages, and its view is in that page's reply. |
| CheckIns.Streak | mental-pulse-backend/src/app/api/check-ins/history/route.ts:41-64 | Counts the consecutive days with an entry, back from today. It stops at the first missing day or at the window's length, and is 0 when today has no entry. |
| CheckIns.AddEntry | mental-pulse-backend/src/app/api/check-ins/history/route.ts:67-74 | Adding an entry to the day groups keeps them ordered and no group empty. It raises that day's count by one and its score sum by the score, and leaves every other day unchanged. |
| CheckIns.GroupByDay | mental-pulse-backend/src/app/api/check-ins/history/route.ts:67-81 | Day groups come in increasing day order and none is empty. |
| CheckIns.GroupsCountEveryEntry | mental-pulse-backend/src/app/api/check-ins/history/route.ts:67-81 | The groups count every entry once: per day, the group's count is the number of entries that day and its score sum is the sum of their scores. |
| CheckIns.DailyGroupIsMeanOfDay | mental-pulse-backend/src/app/api/check-ins/history/route.ts:67-81 | Each group holds at least one entry, and its count and score sum are exactly those of its day, so their quotient is the mean mood of that day. |
| CheckIns.WindowEntries | mental-pulse-backend/src/app/api/check-ins/history/route.ts:17-32 | The history holds exactly the caller's entries within the window, newest first. |
| CheckIns.GetHistory | mental-pulse-backend/src/app/api/check-ins/history/route.ts:5-107 | The report holds the windowed history, its count and its average (0 when empty), and the streak. The day groups are ordered, none is empty, and per day they hold that day's entry count and score sum. |
| Resources.CreateResource | mental-pulse-backend/src/app/api/resources/route.ts:6-57 | Admins only. Bad bodies give 400 "Validation failed". Success appends one resource with the body's fields, public unless stated otherwise. |
| Resources.CreateKeepsIdsUnique | mental-pulse-backend/src/app/api/resources/route.ts:23-35 | Resource ids stay unique. |
| Resources.OfCategory | mental-pulse-backend/src/app/api/resources/route.ts:102-108 | Exactly the resources of one category. |
| Resources.GroupByCategory | mental-pulse-backend/src/app/api/resources/route.ts:102-108 | One non-empty group per category present, holding exactly that category's resources in order. |
| Resources.AvailableCategories | mental-pulse-backend/src/app/api/resources/route.ts:111-115 | The distinct categories of the resources the caller may see, sorted. |
| Resources.ListedResources | mental-pulse-backend/src/app/api/resources/route.ts:74-99 | At most `limit` resources the caller may see in the category, in the route's order. |
| Resources.ListResources | mental-pulse-backend/src/app/api/resources/route.ts:59-145 | The reply carries the page, its grouping, the visible categories, the visible count and the page count. When a shown resource's category is a property every object inherits, such as "constructor", grouping throws and the reply is 500. |
| Resources.PrivateHiddenFromNonAdmins | mental-pulse-backend/src/app/api/resources/route.ts:74-76 | A non-admin sees only public resources, in the list, in the groups and in the category names. |
| Resources.EveryListedResourceIsOnSomePage | mental-pulse-backend/src/app/api/resources/route.ts:88-99 | Every visible resource is on some page between 1 and the page count. |
| Resources.AdminCountsEverything | mental-pulse-backend/src/app/api/resources/route.ts:74-99 | Without a category, an admin's count is the whole store, and so is the reply's totalCount when the listing succeeds. |
| Resources.InheritedCategoryFailsListing | mental-pulse-backend/src/app/api/resources/route.ts:101-107 | A visible resource filed under "constructor" turns the listing into a 500. |
| Resources.UpdateResource | mental-pulse-backend/src/app/api/resources/route.ts:147-203 | A missing id gives 400 and an unknown one 404. The update succeeds iff the id is a non-empty string naming a stored resource and the database accepts the data. Success replaces exactly the target with the updated row. An unparsable body, a non-string id or a rejected update give 500, and every failure keeps the store. |
| Resources.UpdateKeepsIdsUnique | mental-pulse-backend/src/app/api/resources/route.ts:173-177 | When the database keeps a row's id, an update keeps resource ids unique. |
| Resources.UpdateDataOmitsResourceId | mental-pulse-backend/src/app/api/resources/route.ts:152 | The update data is the body without resourceId. |
| Resources.DeleteResource | mental-pulse-backend/src/app/api/resources/route.ts:205-259 | A missing id gives 400 and an unknown one 404. Success removes exactly one resource and keeps every other. |
| Resources.DeleteRemovesOnlyTarget | mental-pulse-backend/src/app/api/resources/route.ts:232-234 | With unique ids, the store after a delete is the old one without the target. |
| Campaigns.CreateCampaign | mental-pulse-backend/src/app/api/campaigns/route.ts:6-57 | Admins only. Bad bodies give 400. Success appends one campaign with the body's fields, the converted date and the default status. |
| Campaigns.NonAdminCannotCreate | mental-pulse-backend/src/app/api/campaigns/route.ts:6-57 | An authenticated non-admin gets 403 "Admin access required" and nothing is stored. |
| Campaigns.ViewOf | mental-pulse-backend/src/app/api/campaigns/route.ts:100-109 | Reach is shown to admins only. Every other field is copied. |
| Campaigns.ShownProperties | mental-pulse-backend/src/app/api/campaigns/route.ts:72-93 | A page holds only matching campaigns, ordered by status rank and then newest date. |
| Campaigns.ListedViews | mental-pulse-backend/src/app/api/campaigns/route.ts:72-109 | At most `limit` views matching the status and department, in order. Reach is present iff the caller is an admin. |
| Campaigns.CompletedReach | mental-pulse-backend/src/app/api/campaigns/route.ts:120-123 | The total reach sums completed campaigns only, so it is 0 when none is completed. |
| Campaigns.CompletedReachIsSum | mental-pulse-backend/src/app/api/campaigns/route.ts:120-123 | The total reach is the sum of reach over exactly the completed campaigns. |
| Campaigns.Statistics | mental-pulse-backend/src/app/api/campaigns/route.ts:112-125 | Each status count is the number of campaigns with that status, and totalReach sums the reach of the completed ones. |
| Campaigns.StatusCountsAddUp | mental-pulse-backend/src/app/api/campaigns/route.ts:116-119 | Every campaign is counted under exactly one status. |
| Campaigns.ListCampaigns | mental-pulse-backend/src/app/api/campaigns/route.ts:59-155 | An unknown status value gives 500. Otherwise the reply carries the views, the matching count, the page count and, for admins only, the statistics. |
| Campaigns.ReachHiddenFromNonAdmins | mental-pulse-backend/src/app/api/campaigns/route.ts:100-125 | Non-admins see neither reach nor statistics. |
| Campaigns.UnfilteredTotalIsStatusSum | mental-pulse-backend/src/app/api/campaigns/route.ts:112-125 | Unfiltered, the total equals the sum of the status counts. |
| Campaigns.UpdateData | mental-pulse-backend/src/app/api/campaigns/route.ts:162-186 | The update data drops campaignId and converts a truthy date. An unconvertible date is refused. |
| Campaigns.UpdateCampaign | mental-pulse-backend/src/app/api/campaigns/route.ts:157-218 | A missing id gives 400 and an unknown one 404. The update succeeds iff the id is a non-empty string naming a stored campaign, the date converts and the database accepts the data. Success replaces exactly the target. An unparsable body, a non-string id, a bad date or a rejected update give 500, and every failure keeps the store. |
| Campaigns.UpdateKeepsIdsUnique | mental-pulse-backend/src/app/api/campaigns/route.ts:188-192 | When the database keeps a row's id, an update keeps campaign ids unique. |
| Campaigns.UnknownCampaignNotFound | mental-pulse-backend/src/app/api/campaigns/route.ts:172-181 | An unknown campaign id gives 404 and no change. |
| AuthSession.Mounted | mental-pulse-scaffold-00/src/contexts/AuthContext.tsx:35-40 | A freshly mounted context has no user or token and is loading. |
| AuthSession.RoleFlagsExclusive | mental-pulse-scaffold-00/src/contexts/AuthContext.tsx:127-130 | At most one role flag holds, and one does whenever there is a user. |
| AuthSession.InitAuth | mental-pulse-scaffold-00/src/contexts/AuthContext.tsx:35-61 | With both stored entries it adopts the server's current user, or clears everything on failure. Loading ends either way. |
| AuthSession.SignIn | mental-pulse-scaffold-00/src/contexts/AuthContext.tsx:63-103 | A successful login or register adopts and stores the user and token. A failure changes nothing. |
| AuthSession.Logout | mental-pulse-scaffold-00/src/contexts/AuthContext.tsx:105-112 | Logging out clears both fields and both stored entries. |
| AuthSession.UpdateUser | mental-pulse-scaffold-00/src/contexts/AuthContext.tsx:114-117 | Replaces the user in the context and in storage and keeps the token. |
| AuthSession.TransitionsKeepPersisted | mental-pulse-scaffold-00/src/contexts/AuthContext.tsx:35-117 | Every transition keeps storage in step with the context. |
| AuthSession.SignedOutStates | mental-pulse-scaffold-00/src/contexts/AuthContext.tsx:49-55 | Logout and a failed revalidation leave nobody signed in and nothing to restore. |
| AuthSession.RevalidationSignsIn | mental-pulse-scaffold-00/src/contexts/AuthContext.tsx:40-48 | A successful revalidation authenticates with the server's current user. |
| AuthSession.ReloadRestores | mental-pulse-scaffold-00/src/contexts/AuthContext.tsx:35-112 | A reload after signing in restores the user and token. A reload after logging out restores nobody. |
| AuthSession.ProtectedRoute | mental-pulse-scaffold-00/src/contexts/AuthContext.tsx:149-191 | Spinner while loading. Then a sign-in notice when a required user is absent, a denial when the role differs, and otherwise the page. |
| AuthSession.GateAdmitsIff | mental-pulse-scaffold-00/src/contexts/AuthContext.tsx:160-190 | The page renders iff loading is over, a required user is present and a required role matches. |
| AuthSession.LoggedOutSeesNoProtectedPage | mental-pulse-scaffold-00/src/contexts/AuthContext.tsx:160-190 | After logout no role-protected page renders. |
| AppRoutes.Retry | mental-pulse-scaffold-00/src/App.tsx:27-33 | Never retries after 401 or 403. Otherwise it retries while fewer than three failures are counted. |
| AppRoutes.AttemptsBounded | mental-pulse-scaffold-00/src/App.tsx:27-33 | A query is tried at most four times, and once after an authentication failure. |
| AppRoutes.FourAttemptsOnRepeatedFailure | mental-pulse-scaffold-00/src/App.tsx:27-33 | Repeated non-authentication failures use exactly four attempts. |
| AppRoutes.HomePath | mental-pulse-scaffold-00/src/App.tsx:60-61 | Admins go to /admin and mentors to /mentor. Everyone else goes to /student, each iff its condition holds. |
| AppRoutes.DashboardRole | mental-pulse-scaffold-00/src/App.tsx:64-116 | Exactly the three dashboards require a role. |
| AppRoutes.SignInPage | mental-pulse-scaffold-00/src/App.tsx:60-61 | The sign-in and sign-up pages show the form to signed-out visitors and redirect signed-in users to their dashboard. |
| AppRoutes.DashboardPage | mental-pulse-scaffold-00/src/App.tsx:119-125 | /dashboard redirects to the user's dashboard or to /login. |
| AppRoutes.RedirectLandsOnOwnDashboard | mental-pulse-scaffold-00/src/App.tsx:60-125 | The redirect target's gate admits the signed-in user. |
| AppRoutes.OtherDashboardsDenied | mental-pulse-scaffold-00/src/App.tsx:64-116 | Every other dashboard denies them. |
| AppRoutes.SignedOutGoesToLogin | mental-pulse-scaffold-00/src/App.tsx:119-125 | A signed-out visitor is sent to /login, which shows the form. |
| Forms.EmailPatternTest | mental-pulse-scaffold-00/src/pages/Register.tsx:31-35 | The loop decides the client's email pattern (non-space text, "@", non-space text, ".", non-space text) exactly. |
| Forms.EmailShapeMatches | mental-pulse-scaffold-00/src/pages/Register.tsx:33 | Any local@domain.tld of non-space parts matches. |
| Forms.MissingSymbolFails | mental-pulse-scaffold-00/src/pages/Register.tsx:33 | Text without "@" or "." never matches. |
| Forms.EmailError | mental-pulse-scaffold-00/src/pages/Register.tsx:31-35 | Empty gives "Email is required" and a non-match "Email is invalid". There is no error iff it matches. |
| Forms.RegisterErrors | mental-pulse-scaffold-00/src/pages/Register.tsx:28-59 | Each field has an error iff its rule fails, with the page's message. |
| Forms.RegisterFormValidIff | mental-pulse-scaffold-00/src/pages/Register.tsx:57-58 | The form is valid iff the email matches, the password has 8 characters and is confirmed, and a name and a role are given. |
| Forms.SubmitRegistration | mental-pulse-scaffold-00/src/pages/Register.tsx:61-80 | A request is sent iff the form is valid, and carries the form's fields. |
| Forms.SubmittedRegistrationParses | mental-pulse-scaffold-00/src/pages/Register.tsx:61-80 | A sent form with a server-valid email and a name of two or more characters parses back to its own fields on the server. |
| Forms.OneLetterNamePassesPageOnly | mental-pulse-scaffold-00/src/pages/Register.tsx:49-51 | A one-letter name passes the page but fails the server's schema. |
| Forms.AnonymityLabel | mental-pulse-scaffold-00/src/pages/Register.tsx:86-92 | Only the five slider stops have a label. |
| Forms.SliderStopsLabelled | mental-pulse-scaffold-00/src/pages/Register.tsx:260-274 | Every level the slider can produce lies in 0..100 and has a label. |
| Forms.LoginErrors | mental-pulse-scaffold-00/src/pages/Login.tsx:20-35 | The email rule is as on sign-up. The password's only error is "Password is required". |
| Forms.LoginBody | mental-pulse-scaffold-00/src/pages/Login.tsx:37-51 | The request carries exactly the email and password. |
| Forms.SubmitLogin | mental-pulse-scaffold-00/src/pages/Login.tsx:37-51 | A request is sent iff the email matches and the password is non-empty. |
| Forms.LoginGuardMatchesSchema | mental-pulse-scaffold-00/src/pages/Login.tsx:20-51 | For an email both sides accept, the page sends exactly when the server's schema accepts, and the server reads back the same pair. |
| PeerMentorship.DirectoryRequest | mental-pulse-scaffold-00/src/pages/student/PeerMentorship.tsx:57-63 | Asks for page 1 of 20, with the department only when one is chosen. |
| PeerMentorship.DirectoryShowsAvailableMentors | mental-pulse-scaffold-00/src/pages/student/PeerMentorship.tsx:57-63 | The page receives at most 20 mentors, all available and in the chosen department. |
| PeerMentorship.FilteredMentors | mental-pulse-scaffold-00/src/pages/student/PeerMentorship.tsx:113-122 | Keeps, in order, exactly the mentors matching the search and department. |
| PeerMentorship.ClearedFiltersShowAll | mental-pulse-scaffold-00/src/pages/student/PeerMentorship.tsx:113-122 | Empty filters keep every mentor. |
| PeerMentorship.HiddenMentorNotFoundByName | mental-pulse-scaffold-00/src/pages/student/PeerMentorship.tsx:113-122 | A mentor hidden above 70 is found by name only through "Anonymous Mentor". |
| PeerMentorship.DisplayName | mental-pulse-scaffold-00/src/pages/student/PeerMentorship.tsx:362 | Above level 70 the heading is "Anonymous Mentor". |
| PeerMentorship.DisplayNameIsServerRedaction | mental-pulse-scaffold-00/src/pages/student/PeerMentorship.tsx:362 | The heading equals the server's redacted name. |
| PeerMentorship.ConnectionStateOf | mental-pulse-scaffold-00/src/pages/student/PeerMentorship.tsx:343-347 | Connected or pending according to the first connection with the mentor, never both. |
| PeerMentorship.CardActionFor | mental-pulse-scaffold-00/src/pages/student/PeerMentorship.tsx:403-411 | Chat iff connected. Otherwise Connect, enabled iff nothing is pending, the mentor is available and no request is in flight. |
| PeerMentorship.EnabledConnectMeansNoOpenConnection | mental-pulse-scaffold-00/src/pages/student/PeerMentorship.tsx:343-411 | An enabled Connect means no accepted or pending first connection with that mentor. |
| PeerMentorship.CountersOf | mental-pulse-scaffold-00/src/pages/student/PeerMentorship.tsx:233-266 | The counters are the sizes of the accepted and pending lists and the total, and accepted plus pending never exceeds the total. |
| PeerMentorship.CardStateIsCounted | mental-pulse-scaffold-00/src/pages/student/PeerMentorship.tsx:233-347 | A connected or pending card is backed by a counted connection. |
| MentorHome.AddSpecialty | mental-pulse-scaffold-00/src/pages/mentor/Home.tsx:84-87 | A trimmed, non-blank, new specialty is appended and the box cleared. Otherwise nothing changes. |
| MentorHome.RemoveSpecialty | mental-pulse-scaffold-00/src/pages/mentor/Home.tsx:88-90 | Removes exactly that specialty and keeps the rest in order. |
| MentorHome.AddKeepsListClean | mental-pulse-scaffold-00/src/pages/mentor/Home.tsx:84-87 | The list stays duplicate-free, trimmed and non-blank. |
| MentorHome.AddThenRemove | mental-pulse-scaffold-00/src/pages/mentor/Home.tsx:84-90 | Removing what was just added restores the list. |
| MentorHome.DraftBody | mental-pulse-scaffold-00/src/pages/mentor/Home.tsx:124-139 | The request body has exactly the four profile fields. |
| MentorHome.SaveProfile | mental-pulse-scaffold-00/src/pages/mentor/Home.tsx:116-139 | Blocked iff department, year or specialties are missing. Otherwise it updates when a profile exists and creates one when not. |
| MentorHome.SaveGuardMatchesSchema | mental-pulse-scaffold-00/src/pages/mentor/Home.tsx:116-122 | The page sends exactly the drafts the server's profile schema accepts. |
| MentorHome.SentUpdateStoresDraft | mental-pulse-scaffold-00/src/pages/mentor/Home.tsx:124-139 | A sent update stores the draft's fields. |
| MentorHome.SentCreateStoresDraft | mental-pulse-scaffold-00/src/pages/mentor/Home.tsx:124-139 | A sent create stores a profile with the draft's fields. |
| MentorHome.PendingConnections | mental-pulse-scaffold-00/src/pages/mentor/Home.tsx:145 | Exactly the pending connections. |
| MentorHome.ActiveConnections | mental-pulse-scaffold-00/src/pages/mentor/Home.tsx:146 | Exactly the accepted connections. |
| MentorHome.TabsPartition | mental-pulse-scaffold-00/src/pages/mentor/Home.tsx:145-146 | The tabs are disjoint, ordered sublists that together hold at most every connection. |
| CrisisWorkflow.StatusParam | mental-pulse-scaffold-00/src/pages/admin/CrisisInterventionWorkflow.tsx:26-30 | The "all" tab sends no status. Other tabs send their name. |
| CrisisWorkflow.SelectedTabFilter | mental-pulse-scaffold-00/src/pages/admin/CrisisInterventionWorkflow.tsx:26-30 | Each tab selects the server's matching filter. |
| CrisisWorkflow.ConsoleShowsSelectedTab | mental-pulse-scaffold-00/src/pages/admin/CrisisInterventionWorkflow.tsx:26-30 | The console lists at most its page size, only active alerts on the active tab and only resolved ones on the resolved tab. |
| CrisisWorkflow.PriorityColor | mental-pulse-scaffold-00/src/pages/admin/CrisisInterventionWorkflow.tsx:34-42 | The four priorities get a colour. Anything else is gray. |
| CrisisWorkflow.PriorityColorsDistinct | mental-pulse-scaffold-00/src/pages/admin/CrisisInterventionWorkflow.tsx:34-42 | Different priorities get different colours. |
| CrisisWorkflow.TimeElapsed | mental-pulse-scaffold-00/src/pages/admin/CrisisInterventionWorkflow.tsx:44-56 | Days from one day on, hours from one hour on, and otherwise minutes, each the floored quotient. |
| CrisisWorkflow.LabelReadsBack | mental-pulse-scaffold-00/src/pages/admin/CrisisInterventionWorkflow.tsx:44-56 | The label's digits read back as that quotient, followed by the right unit suffix. |
| CrisisWorkflow.ActionFor | mental-pulse-scaffold-00/src/pages/admin/CrisisInterventionWorkflow.tsx:320-339 | Resolved alerts offer Reopen and others Resolve. |
| CrisisWorkflow.ActionBody | mental-pulse-scaffold-00/src/pages/admin/CrisisInterventionWorkflow.tsx:58-83 | The action sends the server's update body with the matching flag. |
| CrisisWorkflow.OfferedActionFlipsAlert | mental-pulse-scaffold-00/src/pages/admin/CrisisInterventionWorkflow.tsx:58-83 | The offered action succeeds and flips exactly that alert, keeping the store invariant. |
| CrisisWorkflow.ContactButtonsFor | mental-pulse-scaffold-00/src/pages/admin/CrisisInterventionWorkflow.tsx:238-250 | Call shows iff contact is allowed, and Contact only when an email is also given. |
| CrisisWorkflow.ContactFollowsAnonymity | mental-pulse-scaffold-00/src/pages/admin/CrisisInterventionWorkflow.tsx:238-250 | Call iff the level is in 1..49, and Contact iff it is in 1..29 with a non-empty email. |
| ResourcesLibrary.FilteredResources | mental-pulse-scaffold-00/src/pages/admin/ResourcesLibrary.tsx:140-148 | Keeps exactly the resources matching the search, category and bookmark filter. |
| ResourcesLibrary.FilteredIsSubsequence | mental-pulse-scaffold-00/src/pages/admin/ResourcesLibrary.tsx:140-148 | Filtering keeps the list's order. |
| ResourcesLibrary.DefaultFilterKeepsAll | mental-pulse-scaffold-00/src/pages/admin/ResourcesLibrary.tsx:140-148 | The initial filters show every resource. |
| ResourcesLibrary.ToggleBookmark | mental-pulse-scaffold-00/src/pages/admin/ResourcesLibrary.tsx:170-176 | Only the target's bookmark flag flips. |
| ResourcesLibrary.ToggleTwice | mental-pulse-scaffold-00/src/pages/admin/ResourcesLibrary.tsx:170-176 | Toggling twice restores the list. |
| ResourcesLibrary.TogglesCommute | mental-pulse-scaffold-00/src/pages/admin/ResourcesLibrary.tsx:170-176 | Toggles commute. |
| ResourcesLibrary.ToggleShowsInBookmarks | mental-pulse-scaffold-00/src/pages/admin/ResourcesLibrary.tsx:140-176 | Under "bookmarked only", a toggled resource appears iff it was not bookmarked before. |
| CulturalActivities.ActivityTypeOf | mental-pulse-scaffold-00/src/pages/admin/CulturalWellnessActivities.tsx:69-77 | The type is the first keyword group found in the lower-cased title and description, and meditation when none is. |
| CulturalActivities.YogaTitleWins | mental-pulse-scaffold-00/src/pages/admin/CulturalWellnessActivities.tsx:69-71 | A title mentioning yoga makes a yoga activity whatever the description says. |
| CulturalActivities.IsCulturalActivity | mental-pulse-scaffold-00/src/pages/admin/CulturalWellnessActivities.tsx:79-83 | Cultural iff a cultural keyword occurs. |
| CulturalActivities.YogaIsCultural | mental-pulse-scaffold-00/src/pages/admin/CulturalWellnessActivities.tsx:69-83 | Yoga activities and anything mentioning "classical" are cultural. |
| CulturalActivities.ActivityOf | mental-pulse-scaffold-00/src/pages/admin/CulturalWellnessActivities.tsx:50-67 | A card copies the campaign, uses the default description when there is none, and derives its type and cultural flag. |
| CulturalActivities.ActivitiesQuery | mental-pulse-scaffold-00/src/pages/admin/CulturalWellnessActivities.tsx:44-47 | Asks for active campaigns, with the department unless "all". |
| CulturalActivities.Activities | mental-pulse-scaffold-00/src/pages/admin/CulturalWellnessActivities.tsx:50-67 | One card per listed campaign, in order. |
| CulturalActivities.CardsAreActiveAndInCategory | mental-pulse-scaffold-00/src/pages/admin/CulturalWellnessActivities.tsx:44-67 | Every card is an active campaign in the chosen department. |
| CulturalActivities.TwoWordCategory | mental-pulse-scaffold-00/src/pages/admin/CulturalWellnessActivities.tsx:98-100 | A two-word category matches by its first word in the department, or by the squeezed lower-case name as the type. |
| CulturalActivities.FilteredActivities | mental-pulse-scaffold-00/src/pages/admin/CulturalWellnessActivities.tsx:93-103 | Keeps, in order, exactly the cards matching the search and category. |
| CulturalActivities.EmptySearchShowsAll | mental-pulse-scaffold-00/src/pages/admin/CulturalWellnessActivities.tsx:93-103 | An empty search under "all" keeps every card. |

## Left out

- JSON numbers are integers. Fractional values and NaN are not modelled.
- Zod's email, url and datetime formats are parameters (`Formats`), because their grammars live in the library.
- List handlers require page and limit to be at least 1. The source's parseInt of a malformed parameter (NaN) is not modelled.
- Days are whole multiples of a day length from the epoch. Local time zones and daylight saving are not modelled.
- CheckIns.GetHistory: the average is the exact quotient, not the source's rounding to two decimals (`Math.round(x * 100) / 100`).
- Ties between equal sort keys may come out in any order, as a database may return them. The campaign status ordering is a rank parameter.
- Lower-casing is ASCII only.
- String order compares Unicode scalar values, where JavaScript compares UTF-16 code units. The two orders differ only between characters above U+FFFF and those in U+E000..U+FFFF.
- Resources.ListedResources: the database's category-then-title order is taken to be a binary ("C") collation, i.e. Unicode scalar-value order. A linguistic collation such as en_US puts "apple" before "Banana", so with mixed-case or accented data the real pages may be cut differently.
- Connections.RequestConnection: the 409 reply carries only its status code and message, not the existing row's `status` and `connectionId`, because replies are modelled as status and message.
- String lengths count Unicode scalar values, where zod's `.min`/`.max` and the sign-up form's password length check count UTF-16 code units. A character above U+FFFF counts once here and twice there, so a four-character password of such characters is refused here and accepted there.
- The websocket transport, the chatbot and analytics are not part of this model. Only the notification list a crisis alert produces is modelled.
- Random enrolment counts, ratings and tags on the activities page become a tags parameter.
- Database defaults (ids, timestamps, isActive, availability) are parameters.
- JWT signing and verification and bcrypt hashing are parameters.
- Resources.UpdateResource and Campaigns.UpdateCampaign: applying the update data to a row is a parameter `apply`, since Prisma's merge is outside the model.
- Toasts, query refetching, modals and the useApi/axios plumbing are not modelled, and neither is staleTime.
- CulturalActivities.TwoWordCategory: only the first blank is squeezed out, as `replace(" ", "")` does.
- AuthSession.InitAuth: a stored user that fails to parse is folded into the failed revalidation, which clears the session the same way.
- AppRoutes.Attempts counts failures before each retry decision as the query library does. The library itself is not modelled.
- Local storage is modelled as the two optional session fields.
- The network answers of login and register are parameters of AuthSession.SignIn.
- Whitespace for the email pattern and trimming is the `Text.IsSpace` set, which is exactly JavaScript's white space and line terminators, the characters `\s` matches and `trim` removes.
