# techcom core in Dafny

This project models the decision logic of the techcom club and event
management system. The front end is written in TypeScript and React, the back
end in FastAPI. The model covers:

- **The known-face registry of the face embedding service**
  (`FaceEmbedding`). Its functions and methods are:
  - cosine similarity and Euclidean distance, both with the length-mismatch
    error and the cosine's zero-norm guard;
  - `compareEmbeddings` and `normalizeEmbedding`;
  - the best-match scan of `findMatchingPerson`, with a strict threshold and
    ties going to the earliest entry;
  - the bounded registry, which is cut back to its last 50 entries once it
    passes 100.

  The service is a class whose `knownEmbeddings` field its methods update.
  The accumulating loops are methods proved against pure functions.
- **The route guard** (`Middleware`). Paths under "/dashboard" and "/profile"
  are protected. Paths under "/login" and "/register" are for visitors only.
  A request is redirected to the login page or the dashboard, or let through.
- **The request-payload helpers of the front end's server actions**
  (`Actions`):
  - the loop that drops `null` and `""` fields;
  - the `club_id` override taken from the token's `managed_club`;
  - the query-string builder of `getEvents`, with repeated keys for array
    values and `application/x-www-form-urlencoded` percent-encoding.
- **The event list** (`EventsDisplay`): the status filter, the two-level
  comparator and the stable sort it drives, the filter labels and the status
  badge colours.
- **The routers of the back end** (`ClubRouter`, `EventRouter`,
  `UserRouter`). The database is abstracted by `Tables`:
  - users, clubs and events keyed by id;
  - a membership role keyed by (club, user);
  - attendance as a set of (event, user).

  Every handler is a method on a `Db` object. It is proved equal to a pure
  specification function, which returns `Ok` or an HTTP error together with
  the new tables. The specification functions state the order of the checks,
  the exact error codes and messages, and that errors change nothing. They
  also state which rows a success changes. Lemmas connect the handlers: add
  then remove restores the tables, every handler keeps the foreign keys
  consistent, and updates keep the schema constraints.
- **The schemas and the navigation tables** (`ClubSchema`, `EventSchema`,
  `Navigation`):
  - the hex-colour pattern and the field constraints of clubs and events;
  - the partial-update semantics of `model_dump(exclude_unset=True)` followed
    by `setattr`;
  - the role-to-routes table of `MainNav`;
  - the active-item rule of `ReusableNavbar`.

Some things are outside the program and become parameters:

- `Math.sqrt` is a function parameter `sqrt`. The properties that need it
  require `IsSqrt(sqrt)`: a non-negative square root of non-negative reals.
- Session decryption is a parameter `decrypt`.
- `Date.now()` is a parameter `now`.
- The bearer token and the decoded token are optional inputs.
- Embeddings are sequences of reals.

## Model

| member | source | states |
|---|---|---|
| FaceEmbedding.CalculateCosineSimilarity | frontend/lib/faceEmbedding.ts:209-235 | the loop accumulating dot product and norms returns exactly the cosine-similarity function: an error on a length mismatch, 0 for a zero-norm vector, otherwise dot/(norm1·norm2) |
| FaceEmbedding.CalculateEuclideanDistance | frontend/lib/faceEmbedding.ts:240-255 | the summing loop returns exactly the Euclidean-distance function, and throws on a length mismatch |
| FaceEmbedding.MetricsFailOnLengthMismatch | frontend/lib/faceEmbedding.ts:213-246 | both metrics fail if and only if the lengths differ, with the message "Embeddings must have the same length" |
| FaceEmbedding.CosineOfZeroVector | frontend/lib/faceEmbedding.ts:227-232 | the similarity is 0 when either vector has zero norm |
| FaceEmbedding.CosineOfNonZeroVectors | frontend/lib/faceEmbedding.ts:217-234 | for non-zero vectors both norms are positive and the similarity is dot/(norm1·norm2) |
| FaceEmbedding.CosineSelfIsOne | frontend/lib/faceEmbedding.ts:209-235 | a non-zero vector has similarity 1 with itself |
| FaceEmbedding.CosineSymmetric | frontend/lib/faceEmbedding.ts:209-235 | similarity does not depend on argument order, errors included |
| FaceEmbedding.DotSelfNonNegative | frontend/lib/faceEmbedding.ts:217-225 | the squared norm is non-negative, and zero exactly for the zero vector |
| FaceEmbedding.EuclideanDistanceBasics | frontend/lib/faceEmbedding.ts:240-255 | for equal lengths the distance is non-negative and symmetric, and a vector is at distance 0 from itself |
| FaceEmbedding.SquaredDistanceExpands | frontend/lib/faceEmbedding.ts:249-252 | the summed squared differences equal ‖a‖² − 2a·b + ‖b‖² |
| FaceEmbedding.DistanceOfUnitVectors | frontend/lib/faceEmbedding.ts:154-255 | for unit vectors, as produced by normalisation, the squared distance is 2 − 2·similarity |
| FaceEmbedding.CompareEmbeddings | frontend/lib/faceEmbedding.ts:260-273 | fails exactly on a length mismatch; otherwise reports both metrics, with isSamePerson holding exactly when the similarity is strictly above 0.85 |
| FaceEmbedding.NormalizeEmbedding | frontend/lib/faceEmbedding.ts:154-157 | keeps the length; returns the input unchanged when the norm is not positive, and otherwise each component divided by the norm |
| FaceEmbedding.NormalizeGivesUnitVector | frontend/lib/faceEmbedding.ts:154-157 | a zero vector is returned as is, and any other vector becomes a unit vector |
| FaceEmbedding.ScanErrorIff | frontend/lib/faceEmbedding.ts:288-300 | the scan fails exactly when some stored embedding differs in length from the query, and then with the length-mismatch error |
| FaceEmbedding.ScanKeepsBest | frontend/lib/faceEmbedding.ts:285-300 | after any prefix of the registry the best similarity is −1 if no entry qualifies; otherwise it is the similarity of the first entry of maximal similarity above the threshold |
| FaceEmbedding.FindMatchSpec | frontend/lib/faceEmbedding.ts:278-303 | the result is null exactly when no entry's similarity strictly exceeds the threshold (an empty registry included); a match is above the threshold and maximal, and earlier entries are strictly below it, so ties go to the earliest entry |
| FaceEmbedding.Appended | frontend/lib/faceEmbedding.ts:308-319 | the new registry ends with the new entry and is a suffix of old+[entry]; it is old+[entry] while below 100 entries and its last 50 entries beyond that, so it never holds more than 100 |
| FaceEmbedding.AddThenFindMatches | frontend/lib/faceEmbedding.test.ts:64-75 | after adding a non-zero embedding, searching for it at the default threshold finds a match of similarity at least 1; on an empty registry the match is the added person with similarity 1 |
| FaceEmbedding.FaceEmbeddingService.constructor | frontend/lib/faceEmbedding.ts:29-33 | the registry starts empty |
| FaceEmbedding.FaceEmbeddingService.FindMatchingPerson | frontend/lib/faceEmbedding.ts:278-303 | the scanning loop returns exactly the best-match function over the registry |
| FaceEmbedding.FaceEmbeddingService.AddKnownEmbedding | frontend/lib/faceEmbedding.ts:308-319 | the registry becomes the bounded append of the entry stamped with the given time |
| FaceEmbedding.FaceEmbeddingService.ClearKnownEmbeddings | frontend/lib/faceEmbedding.ts:324-326 | the registry becomes empty |
| FaceEmbedding.FaceEmbeddingService.GetKnownEmbeddingsCount | frontend/lib/faceEmbedding.ts:331-333 | returns the registry's length |
| Middleware.SomePrefix | frontend/middleware.ts:14-17 | true exactly when the path starts with one of the prefixes |
| Middleware.IsProtectedRoute | frontend/middleware.ts:7-16 | a path is protected exactly when it starts with "/dashboard" or "/profile" |
| Middleware.IsPublicRoute | frontend/middleware.ts:8-17 | a path is public-only exactly when it starts with "/login" or "/register" |
| Middleware.HasSession | frontend/middleware.ts:20-21 | there is a session exactly when a non-empty cookie decrypts; a missing or empty cookie gives none |
| Middleware.Guard | frontend/middleware.ts:25-34 | redirects to "/login" exactly for a protected path without a session, to "/dashboard" exactly for a public path with a session, and lets every other request through |
| Middleware.RouteClassesDisjoint | frontend/middleware.ts:7-17 | no path is both protected and public |
| Middleware.RedirectTargetPasses | frontend/middleware.ts:25-32 | the target of a redirect is let through under the same cookie, so redirects do not loop |
| Middleware.RedirectMatchesSession | frontend/middleware.ts:25-32 | a request with a session is never sent to the login page, and one without a session is never sent to the dashboard |
| Actions.Lookup | frontend/lib/actions.ts:171-176 | a key has a value exactly when it is one of the record's keys |
| Actions.PutSpec | frontend/lib/actions.ts:173-175 | assigning a key keeps the key order if the key exists and appends it otherwise; the key then maps to the value, other keys are unchanged, and distinct keys stay distinct |
| Actions.CleanedLookup | frontend/lib/actions.ts:171-176 | the cleaned record keeps exactly the keys whose value is neither null nor "", with their values unchanged, and its keys stay distinct |
| Actions.CleanedIdempotent | frontend/lib/actions.ts:171-177 | cleaning a cleaned record changes nothing |
| Actions.CleanData | frontend/lib/actions.ts:171-176 | the for-in loop that fills `cleanedData` produces exactly the cleaned record |
| Actions.EventData | frontend/lib/actions.ts:178-181 | a truthy managed club sets club_id and leaves every other key as submitted; otherwise the payload is the cleaned record itself |
| Actions.CreateEvent | frontend/lib/actions.ts:159-207 | the action's checks, cleaning and merge produce exactly the specified request body or error |
| Actions.CreateEventSends | frontend/lib/actions.ts:163-181 | fails with "Authentication required." exactly when the token or decoded token is missing; otherwise sends the cleaned data, with club_id overridden by a truthy managed club |
| Actions.UpdateEvent | frontend/lib/actions.ts:257-295 | without a token nothing is sent; otherwise a PUT for that event carrying the cleaned record |
| Actions.BuildQuery | frontend/lib/actions.ts:329-342 | the nested loops appending to `searchParams` produce exactly the query function |
| Actions.GetEvents | frontend/lib/actions.ts:324-357 | without a token, "Authentication required."; otherwise a request to "/events/" followed by the query |
| Actions.QueryShape | frontend/lib/actions.ts:330-342 | the query is empty exactly when there are no parameters; otherwise it starts with "?", and it is "?" alone exactly when every array parameter is empty |
| Actions.ArrayParamExpands | frontend/lib/actions.ts:333-334 | an array parameter adds one key=value pair per element, in element order |
| Actions.Utf8 | frontend/lib/actions.ts:339 | a character encodes to 1 to 4 bytes, and to itself alone exactly when it is ASCII |
| Actions.FormEncodeSafe | frontend/lib/actions.ts:339 | an encoded name or value holds only unreserved characters, '+' and %XX escapes, never '&' or '=', so pairs cannot run into each other |
| Actions.FormEncodeUnreserved | frontend/lib/actions.ts:339 | text made only of unreserved characters is left unchanged |
| EventsDisplay.StatusColorsDistinct | frontend/components/eventsDisplay.tsx:28-45 | each status has its own badge colour, and gray belongs to IDEATION alone |
| EventsDisplay.FilterLabelsDistinct | frontend/components/eventsDisplay.tsx:90-103 | the four filters have four different labels |
| EventsDisplay.Filtered | frontend/components/eventsDisplay.tsx:60-67 | keeps exactly the events the filter accepts (CURRENT or POSTED for "ALL", otherwise that status), never adding or duplicating one |
| EventsDisplay.CompareRules | frontend/components/eventsDisplay.tsx:68-88 | a lower priority (CURRENT 1, POSTED 2, PAST 3, others 4) goes first; within one priority the later start time goes first; a missing start time ties; the comparator is antisymmetric |
| EventsDisplay.CompareTransitive | frontend/components/eventsDisplay.tsx:68-88 | with all start times present the comparator is transitive |
| EventsDisplay.SortEvents | frontend/components/eventsDisplay.tsx:68-88 | sorting is a permutation |
| EventsDisplay.SortOrdersByPriority | frontend/components/eventsDisplay.tsx:70-78 | the sorted list is ordered by status priority |
| EventsDisplay.SortOrdersFully | frontend/components/eventsDisplay.tsx:68-88 | with all start times present, each event compares at most equal to its successor |
| EventsDisplay.DisplayedEvents | frontend/components/eventsDisplay.tsx:60-88 | the displayed list is a permutation of the filtered list, ordered by priority, with CURRENT events before POSTED ones under the default filter |
| ClubSchema.HexGroups | backend/app/schema/club.py:8 | `(?:[0-9a-fA-F]{3}){min,max}` matches exactly a hex string of min to max groups of three |
| ClubSchema.HexColorShape | backend/app/schema/club.py:8-14 | a colour matches exactly when it is '#' followed by 3 or 6 hex digits |
| ClubSchema.DefaultColorMatches | backend/app/schema/club.py:14 | the default colour "#103105" satisfies the pattern |
| ClubForm.FormAndSchemaAgreeOnColors | frontend/app/admin/clubs/new/page.tsx:27-31 | the club form's colour check (null or missing, or '#' then one or two groups of three hex digits) accepts exactly the colours the back-end schema accepts |
| ClubForm.FormDefaultColorAccepted | frontend/app/admin/clubs/new/page.tsx:41 | the form's initial colour "#103105" passes the form's own check |
| ClubSchema.NewClub | backend/app/schema/club.py:10-15 | a club created with a name alone gets colour "#103105" and is active, and is valid exactly when its name has 1 to 255 characters |
| Folds.FoldAppend | backend/app/api/routers/club.py:74-76 | running the setattr loop over two lists in a row is running it over their concatenation |
| ClubSchema.SetAttrsOfDump | backend/app/api/routers/club.py:74-76 | applying the dumped set fields one by one gives the update that overwrites exactly the set fields |
| ClubSchema.UpdatePreservesValidity | backend/app/schema/club.py:10-25 | a valid update of a valid club gives a valid club |
| ClubSchema.UpdateIdentityAndIdempotence | backend/app/schema/club.py:20-25 | an update with no field set changes nothing, and applying an update twice equals applying it once |
| EventSchema.SetAttrsOfDump | backend/app/api/routers/event.py:106-108 | applying the dumped set fields one by one gives the update that overwrites exactly the set fields |
| EventSchema.UpdateProperties | backend/app/schema/event.py:8-31 | a valid update keeps an event valid; updates are idempotent; club_id changes only when it is set |
| Navigation.SetRoutes | frontend/components/mainNav.tsx:13-77 | a manager gets /dashboard, /myclub, /myevents, /members; an admin gets /dashboard, /clubs, /events, /members; anyone else gets /dashboard, /clubs, /events; an entry is active exactly on an exact path match |
| Navigation.AtMostOneActive | frontend/components/mainNav.tsx:13-77 | every list starts at the dashboard and has distinct hrefs, so at most one entry is active |
| Navigation.LabelsAgreeAcrossRoles | frontend/components/mainNav.tsx:13-77 | an href carries the same label in every role's list |
| Navigation.ItemVariant | frontend/components/layout/Navbar.tsx:46-53 | "/admin" and "/" are highlighted only on an exact match; any other item is highlighted exactly when the path starts with its href |
| Navigation.AdminNavHighlightsAtMostOne | frontend/app/admin/layout.tsx:16-37 | with the admin layout's four items, at most one is highlighted on any page |
| Tables.Db.IsAdminOrManager | backend/app/api/routers/club.py:58-72 | allowed exactly for the SAO admin or a user holding a MANAGER membership in the club |
| ClubRouter.UpdateClub | backend/app/api/routers/club.py:47-81 | 404 for a missing club, then 403 without permission, and no change on error; on success only that club changes, to the update of its set fields |
| ClubRouter.UpdateClubById | backend/app/api/routers/club.py:47-81 | the handler and its setattr loop produce exactly the specified result and tables |
| ClubRouter.UpdateClubKeepsClubsValid | backend/app/schema/club.py:20-25 | a valid update keeps every stored club valid |
| ClubRouter.DeleteClub | backend/app/api/routers/club.py:83-111 | 404, then 403, then a server error while the club still has events (non-null foreign key); otherwise the club and its memberships are removed and nothing else changes |
| ClubRouter.DeleteClubById | backend/app/api/routers/club.py:83-111 | the handler produces exactly the specified result and tables |
| ClubRouter.AddMember | backend/app/api/routers/club.py:115-163 | 404 for the club, 404 for the user, 403 without permission, 400 for an existing member, in that order; success adds exactly one row, with role MEMBER by default |
| ClubRouter.AddMemberToClub | backend/app/api/routers/club.py:115-163 | the handler produces exactly the specified result and tables |
| ClubRouter.Members | backend/app/api/routers/club.py:166-193 | 404 for a missing club; allowed exactly for the admin or any member whatever the role; the result is the set of the club's members |
| ClubRouter.GetClubMembers | backend/app/api/routers/club.py:166-193 | the read-only handler returns exactly the specified result |
| ClubRouter.MemberMayViewButNotAdd | backend/app/api/routers/club.py:139-188 | a plain member may list the club's members but gets 403 when adding one |
| ClubRouter.UpdateMemberRole | backend/app/api/routers/club.py:196-229 | 403 without permission, then 404 "Membership not found or no change in role"; success changes only that row's role |
| ClubRouter.UpdateMemberRoleInClub | backend/app/api/routers/club.py:196-229 | the handler produces exactly the specified result and tables |
| ClubRouter.RemoveMember | backend/app/api/routers/club.py:232-265 | allowed for the admin, the user themself or a manager; 404 when no row exists; success removes exactly that row |
| ClubRouter.RemoveMemberFromClub | backend/app/api/routers/club.py:232-265 | the handler produces exactly the specified result and tables |
| ClubRouter.AddThenRemoveRestores | backend/app/api/routers/club.py:156-262 | removing a member just added restores the tables |
| ClubRouter.MemberMayLeave | backend/app/api/routers/club.py:239-262 | every member may remove themself, and is then no longer a member |
| ClubRouter.ClubHandlersKeepConsistency | backend/app/model/model.py:9-17 | every club handler keeps memberships, attendance and events pointing at existing rows |
| ClubRouter.UpdateClubConsistent | backend/app/api/routers/club.py:74-79 | updating a club keeps the tables consistent |
| ClubRouter.DeleteClubConsistent | backend/app/api/routers/club.py:93-109 | deleting a club keeps the tables consistent: its memberships go with it, and a club with events is never removed |
| ClubRouter.AddMemberConsistent | backend/app/api/routers/club.py:156-163 | adding a member keeps the tables consistent |
| ClubRouter.UpdateMemberRoleConsistent | backend/app/api/routers/club.py:219-226 | changing a role keeps the tables consistent |
| ClubRouter.RemoveMemberConsistent | backend/app/api/routers/club.py:256-262 | removing a member keeps the tables consistent |
| ClubRouter.WithoutClub | backend/app/api/routers/club.py:93-109 | drops exactly the membership rows of the club and keeps the roles of all other rows |
| EventRouter.CreateEvent | backend/app/api/routers/event.py:15-45 | 404 naming the missing club, then 403 unless admin or manager of that club; success adds exactly the new event |
| EventRouter.CreateEventHandler | backend/app/api/routers/event.py:15-45 | the handler produces exactly the specified result and tables |
| Text.IntToString | backend/app/api/routers/event.py:22-24 | the decimal text of the club id in the not-found message: a leading '-' exactly for negative ids, and the digits of its magnitude |
| Text.NatToStringRoundTrip | backend/app/api/routers/event.py:22-24 | reading back the decimal digits of a number gives the number |
| EventRouter.ClubNotFoundNamesClub | backend/app/api/routers/event.py:22-24 | two not-found messages are equal exactly when they name the same club |
| EventRouter.Matching | backend/app/api/routers/event.py:55-58 | keeps exactly the rows matching the status when it is given and the club when it is given and non-zero |
| EventRouter.Page | backend/app/api/routers/event.py:59-61 | offset/limit returns the right count of consecutive rows starting at skip |
| EventRouter.GetAllEvents | backend/app/api/routers/event.py:47-61 | at most `limit` rows, each a matching stored row |
| EventRouter.FirstPage | backend/app/api/routers/event.py:59-61 | without skipping, a page holds all matching rows if the limit allows, and the first `limit` of them otherwise |
| EventRouter.PagesPartition | backend/app/api/routers/event.py:59-61 | the page at skip with a limit, followed by everything from skip+limit on, is exactly the matching rows from skip on: pages neither overlap nor leave gaps |
| EventRouter.UpdateEvent | backend/app/api/routers/event.py:70-113 | 404, then 403 judged on the event's current club, even when club_id changes; success overwrites only the set fields of that event |
| EventRouter.UpdateEventById | backend/app/api/routers/event.py:70-113 | the handler and its setattr loop produce exactly the specified result and tables |
| EventRouter.ManagerMayMoveEventAnywhere | backend/app/api/routers/event.py:87-108 | the manager of an event's club may move it to any club |
| EventRouter.DeleteEvent | backend/app/api/routers/event.py:115-142 | 404, then 403; success removes the event and its attendance rows |
| EventRouter.DeleteEventById | backend/app/api/routers/event.py:115-142 | the handler produces exactly the specified result and tables |
| EventRouter.SelfAdminOrManager | backend/app/api/routers/event.py:161-176 | allowed exactly for the admin, the user themself or a manager of the event's club |
| EventRouter.Register | backend/app/api/routers/event.py:146-189 | 404 event, 404 user, 403, 400 when already registered, in that order; success adds exactly one attendance row |
| EventRouter.RegisterUserForEvent | backend/app/api/routers/event.py:146-189 | the handler produces exactly the specified result and tables |
| EventRouter.Attendees | backend/app/api/routers/event.py:192-223 | 404 for a missing event; allowed only for the admin or a manager of its club; the result is the set of its attendees |
| EventRouter.GetEventAttendees | backend/app/api/routers/event.py:192-223 | the read-only handler returns exactly the specified result |
| EventRouter.AttendeeCannotViewAttendees | backend/app/api/routers/event.py:205-220 | an attendee who is not admin or manager gets 403 |
| EventRouter.Unregister | backend/app/api/routers/event.py:226-263 | 404, then 403 unless admin, self or manager, then 404 when not registered; success removes exactly that row |
| EventRouter.UnregisterUserFromEvent | backend/app/api/routers/event.py:226-263 | the handler produces exactly the specified result and tables |
| EventRouter.RegisterThenUnregisterRestores | backend/app/api/routers/event.py:186-262 | unregistering a user just registered restores the tables |
| EventRouter.EventHandlersKeepConsistency | backend/app/model/model.py:9-85 | every event handler keeps the foreign keys consistent, provided a new club_id names an existing club |
| EventRouter.CreateEventConsistent | backend/app/api/routers/event.py:41-45 | creating an event in an existing club keeps the tables consistent |
| EventRouter.UpdateEventConsistent | backend/app/api/routers/event.py:106-108 | updating an event keeps the tables consistent when a new club_id names an existing club |
| EventRouter.DeleteEventConsistent | backend/app/api/routers/event.py:115-142 | deleting an event keeps the tables consistent, since its attendance rows go with it |
| EventRouter.RegisterConsistent | backend/app/api/routers/event.py:186-188 | registering keeps the tables consistent |
| EventRouter.UnregisterConsistent | backend/app/api/routers/event.py:254-262 | unregistering keeps the tables consistent |
| EventRouter.WithoutEvent | backend/app/api/routers/event.py:115-142 | drops exactly the attendance rows of the event |
| EventRouter.EventHandlersKeepEventsValid | backend/app/schema/event.py:8-31 | creating a valid event or applying a valid update keeps every stored event valid |
| UserRouter.GetAllUsers | backend/app/api/routers/user.py:21-29 | succeeds with every user exactly for SAO_ADMIN, otherwise 403 |
| UserRouter.GetUserById | backend/app/api/routers/user.py:33-51 | admins and managers get any user or 404; a student gets their own record and 403 for anyone else |
| UserRouter.UserAccessRules | backend/app/api/routers/user.py:33-51 | only admins and managers see other users' records; 404 reaches only them; a student never lists users |

## Left out

- The TensorFlow parts of the face embedding service are not modelled: model loading, preprocessing and inference. The promise de-duplication of `loadModels` is concurrency, and `performance.now` timing is not modelled either.
- Reals stand in for IEEE doubles, so rounding, NaN and infinities are not modelled. `Math.sqrt` is a parameter, constrained by `IsSqrt` where a property needs it.
- Frame-to-frame face tracking and `faceDetection.ts` are not part of this model.
- The network is not modelled: `fetch`, response parsing, error messages built from responses, cookies, JWT decoding, `getBearerToken` and the API base URL. `Actions.CreateEvent` and `Actions.UpdateEvent` return the request they would send.
- Actions.GetEvents: `String(v)` of a number is modelled for integers only, and JavaScript's ordering of integer-like object keys is not modelled (entries keep insertion order).
- Actions.CleanData: requires distinct keys, which every JavaScript object has.
- The authentication dependencies of the back end are not modelled: a missing or invalid token (401) and an inactive user. The acting user is an input. Pydantic's 422 validation is not modelled either; the validity lemmas take valid inputs as preconditions.
- An explicit `null` is not representable in the update bodies for the fields a row cannot hold as null: the club's `name` and the event's `name`, `location`, `status` and `club_id`. The update schemas accept such a null (`Optional[...] = None`) and `setattr` writes it. For the names, the location and the club id the commit then breaks a NOT NULL constraint (backend/app/model/model.py:34, 75, 77, 85), which is a 500. A null `status` is stored, because that column is nullable (model.py:78), but the response model requires a status, so the reply fails. Explicit nulls for the optional fields (description, image, colour, active flag, start and end times) are modelled.
- The colour pattern is read with `$` as the end of the string, as both the JavaScript engine and Pydantic's default Rust regex engine read it. Python's `re` would also accept a colour followed by one trailing newline.
- `create_club`, `get_all_clubs`, `get_club_by_id`, `get_event_by_id` and `get_events_by_club_id` are not modelled. `get_events_by_club_id` filters on a column that does not exist.
- `model.py` declares no `role_in_club` column for memberships, but the routers read and write one. The model follows the routers. `ClubMemberRoleType` is not defined in `enums.py`; the model uses MEMBER and MANAGER, the two values the routers use.
- ClubRouter.DeleteClub: a club that still has events fails with a server error (the event's club_id is not nullable). The model does not predict any other database failure.
- EventRouter.UpdateEvent: moving an event to a missing club fails in the database, which the model does not capture. The consistency lemma requires the target club to exist.
- ClubRouter.UpdateMemberRole: the row count is taken as matched rows, so setting an unchanged role succeeds.
- EventRouter.GetAllEvents: the database row order is an input sequence. Negative skip and limit are not modelled.
- ClubRouter.Members and EventRouter.Attendees return sets of user ids, not ordered user rows.
- EventsDisplay.SortEvents: modelled as a stable insertion sort. With a missing start time the comparator is not transitive, so the order the browser would produce is not pinned down; the priority order is proved for every input.
- Date parsing is not modelled: start times are integer timestamps or absent, and NaN dates do not arise. The unreachable default label of `getFilterLabel` is not modelled, because the filter type has four values.
- Success messages of the delete and remove handlers are not modelled; they are constants with no logic.
