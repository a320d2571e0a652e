# TAARA animal rescue: a verified model of its business logic

TAARA is a web application for an animal-rescue group. It has a public site
and an admin dashboard, talking to an Express REST API over a MongoDB
database accessed through Mongoose. The application has no algorithm at its
centre. Its logic is many small pieces between React forms and the document
store. This project models those pieces in Dafny and proves what each of
them promises:

- **Rescue-request intake.** The public report form (`RescueTab`) edits its
  fields and images, applies a 10 MB per-image filter, gates on the required
  fields, maps urgency to a tag and sends a multipart body. The server
  (`RescueRoute`) screens the upload, fills in defaults, names the stored
  file, issues a `TAARA-<year>-<4 digits>` tracking code and turns schema
  failures into a field-to-message map. The `AnimalRescueRequest` schema
  (`RescueSchema`) does the validation, with trimming, lower-casing, two
  enumerations, the e-mail pattern and the defaults.
- **Events.** The `Event` schema and its pre-save hook (`EventSchema`). The
  events router as a keyed store (`EventsRoute`). The public confirmed-only
  page (`PublicEvents`). The admin calendar's add/edit form
  (`EventCalendar`).
- **Admin lists.** The dashboard's animal list, its three earliest events
  and its view switch (`MainContent`). The accounting totals
  (`Accounting`). The user-account table (`AccountDatabase`).
- **Animal reports.** The report form's validation and reset
  (`AnimalReportForm`) and the upload route (`AnimalsRoute`).
- **Users.** The users router (`UsersRoute`), the admin seeding script
  (`Seed`) and the admin login (`LoginRoute`).
- **Adopters.** The registration validator and handlers (`Registration`),
  the sign-up wizard (`SignUpForm`) and the adoption `Application` schema
  (`ApplicationSchema`).

Helper modules:

- `Common`: options, results, field errors and the validation-error
  collector every schema shares.
- `Text`: JavaScript white space, `trim`, ASCII case mapping, decimal digits
  and `parseInt`.
- `Lists`: `filter`.
- `Sorting`: a stable sort by an integer key.
- `Store`: a Mongoose collection as a table of documents. It keeps an
  insertion order, a map from id to document and the next id to allocate.

Conventions:

- **State.** A router that changes its collection is a class holding a
  `Table`. A React component whose handlers update state is a class whose
  fields are that state. Each handler is a method whose `ensures` gives the
  whole new state. Pure pieces, such as schema rules, mappings and totals,
  are functions, with lemmas for the properties.
- **Parameters.** The following are inputs and are not modelled:
  - clock readings and random draws;
  - password hashing and comparison;
  - token signing;
  - the `isEmail` and `isDate` checks of the validator library;
  - date parsing and date formatting;
  - the outcome of every HTTP call.
- **Dates** are integer timestamps.
- **Validation.** A Mongoose validation is a list of `FieldError`s with one
  entry per failing path, in schema order. The first failing validator of a
  path gives its message. `MessageFor(errs, path)` is what the caller
  observes.
- **Truthiness.** JavaScript's `x || d` on an optional value is
  `OrElse(x, d)`; an absent value and the empty string are falsy.

Unlike the rescue route, the animal-report upload in
`server/routes/animals.js` has no file filter and no size limit. Its stored
name is the clock reading, `-` and the original name, with no random
suffix. The 10 MB per-image ceiling belongs to the rescue form, not to the
animal report.

## Model

| member | source | states |
|---|---|---|
| RescueTab.Set | client/src/components/user/RescueTab.jsx:71-77 | the named field takes the value; every other field and the image list are kept |
| RescueTab.WithinLimit | client/src/components/user/RescueTab.jsx:90-96 | the filter never adds files |
| RescueTab.WithinLimitKeeps | client/src/components/user/RescueTab.jsx:90-96 | a file is kept iff it was selected and is at most 10 MB |
| RescueTab.WithinLimitSnoc | client/src/components/user/RescueTab.jsx:90-96 | the filter keeps the selection's order, and an oversized file does not affect the others |
| RescueTab.WithinLimitAll | client/src/components/user/RescueTab.jsx:90-96 | a selection without an oversized file is kept whole |
| RescueTab.Oversized | client/src/components/user/RescueTab.jsx:92-94 | every selected file is either kept or named in an alert |
| RescueTab.OversizedSnoc | client/src/components/user/RescueTab.jsx:92-94 | the alerts name the skipped files in the order chosen |
| RescueTab.RemoveAt | client/src/components/user/RescueTab.jsx:104-109 | only the image at that position is dropped and the rest keep their order; a position outside the list changes nothing |
| RescueTab.TagFor | client/src/components/user/RescueTab.jsx:158-159 | `emergency` maps to `Cruelty`, `urgent` to `Accident` and anything else to `Neglect`: always a tag the schema allows |
| RescueTab.PayloadOf | client/src/components/user/RescueTab.jsx:152-166 | each field is sent under the server's name, the tag is the mapped urgency, and a photo is attached iff there are images, always the first |
| RescueTab.CatchMessage | client/src/components/user/RescueTab.jsx:237-250 | a fetch `TypeError` shows the connection message; an HTTP error shows its own text; anything else is `Error: ` followed by the message, or by `Unknown error occurred` when the message is empty |
| RescueTab.HttpErrorShown | client/src/components/user/RescueTab.jsx:211-246 | an error reply is shown as `Server returned <status>: <body>` |
| RescueTab.RescueTab.constructor | client/src/components/user/RescueTab.jsx:44-69 | the initial form (urgency `normal`, no images), not loading, not submitted, no error, no request id |
| RescueTab.RescueTab.Change | client/src/components/user/RescueTab.jsx:71-77 | only the named field of the form changes |
| RescueTab.RescueTab.UploadImages | client/src/components/user/RescueTab.jsx:87-102 | the files within 10 MB are appended, in order, after the existing images; the others are reported by name; nothing else changes |
| RescueTab.RescueTab.RemoveImage | client/src/components/user/RescueTab.jsx:104-109 | only the image list changes, losing the one position |
| RescueTab.RescueTab.ClearAllImages | client/src/components/user/RescueTab.jsx:111-116 | the image list is emptied and nothing else changes |
| RescueTab.RescueTab.Submit | client/src/components/user/RescueTab.jsx:135-260 | a form missing any of the five required fields shows the gate message and sends nothing; otherwise the payload is sent; a successful reply stores the request id, marks the form submitted and resets it; a failed one sets its error and leaves the form as it was; loading ends on every path |
| RescueTab.SentTagAccepted | server/models/AnimalRescueRequest.js:23-31 | whatever the urgency, the tag the form sends passes the server's tag check |
| RescueTab.ClientLimitAboveServer | server/routes/rescueRequests.js:30-34 | a 6 MB image passes the form's filter and is refused by the server's 5 MB limit |
| RescueTab.GateWeakerThanSchema | server/models/AnimalRescueRequest.js:6-10 | a contact name of spaces passes the form's gate and is refused by the schema with `Name is required` |
| Text.Trimmed | server/models/AnimalRescueRequest.js:6-15 | a `trim: true` setter trims a given value and leaves a missing one missing (shared with the trimmed paths of `server/models/Event.js`) |
| Common.RequiredFailure | server/models/AnimalRescueRequest.js:6-39 | `required: true` on a string path fails, with the path's message, exactly when the value is missing or empty (shared with `server/models/Event.js` and `server/models/Application.js`, whose message is Mongoose's default) |
| Common.DateCastFailure | server/models/Event.js:32-39 | a Date path that is not required fails, with Mongoose's cast message, iff it is given as non-empty text that does not parse (shared with the timestamps of `server/models/Application.js`) |
| Common.CastDate | server/models/Event.js:32-39 | a Date path holds the default or the stored value when not given, null when given as the empty string, and the parsed time otherwise |
| RescueSchema.EmailSet | server/models/AnimalRescueRequest.js:19-20 | the setters turn a given e-mail into its trimmed, lower-cased form and leave a missing one missing |
| RescueSchema.WithDefault | server/models/AnimalRescueRequest.js:23-56 | a default is used exactly when the path was not given |
| RescueSchema.Outcomes | server/models/AnimalRescueRequest.js:5-56 | one validator outcome per validated path |
| RescueSchema.Validate | server/models/AnimalRescueRequest.js:5-81 | the validation error lists each failing path at most once, and at most seven paths |
| RescueSchema.Reported | server/models/AnimalRescueRequest.js:5-81 | each path is reported with exactly its own validator's outcome |
| RescueSchema.Build | server/models/AnimalRescueRequest.js:5-81 | a document is stored iff validation finds nothing, and then with the trimmed name and number, the trimmed lower-cased e-mail of the right shape, a permitted tag and status (their defaults when not given), the photo paths as given, null photo data and assignee, no notes and both times `now`; otherwise the failures are the error |
| RescueSchema.AllPass | server/models/AnimalRescueRequest.js:5-56 | a draft without errors passes every validator |
| RescueSchema.NoFailures | server/models/AnimalRescueRequest.js:5-56 | a draft passing every validator has no errors (the converse of AllPass) |
| RescueSchema.FullNameRule | server/models/AnimalRescueRequest.js:6-10 | `fullName` is reported with `Name is required` exactly when it is missing or white space only |
| RescueSchema.ContactNumberRule | server/models/AnimalRescueRequest.js:11-15 | `contactNumber` is reported exactly when it is missing or white space only |
| RescueSchema.EmailRule | server/models/AnimalRescueRequest.js:16-22 | `email` is reported as required when missing or blank, else as invalid when its trimmed lower-cased form does not match `^\S+@\S+\.\S+$`, else not at all |
| RescueSchema.EmailExamples | server/models/AnimalRescueRequest.js:21 | `a@b.c` matches the pattern; `a@b.`, `@b.c`, `a.b@c` and `a @b.c` do not |
| RescueSchema.TagRule | server/models/AnimalRescueRequest.js:23-31 | a missing tag takes the default and passes; a given tag is reported as required when empty and with the enumeration's message when not one of the five |
| RescueSchema.ConcernRules | server/models/AnimalRescueRequest.js:32-39 | `concern` and `locationNote` pass exactly when given non-empty; they are not trimmed |
| RescueSchema.StatusRule | server/models/AnimalRescueRequest.js:52-56 | a missing status takes the default and passes; a given one outside the four is reported with the generic enumeration message |
| RescueSchema.OnlySchemaPaths | server/models/AnimalRescueRequest.js:5-81 | no path outside the schema's validated paths is ever reported |
| RescueSchema.BlankNameRejected | server/models/AnimalRescueRequest.js:6-10 | a name of three spaces is reported and the document is not stored |
| RescueSchema.PaddedTrim | server/models/AnimalRescueRequest.js:6-22 | trimming removes one space on either side of a value that does not itself begin or end with white space |
| RescueSchema.PaddedEmailPasses | server/models/AnimalRescueRequest.js:16-22 | an address padded with spaces whose lower-case form has the e-mail shape passes, its stored form being that lower-case form |
| RescueSchema.DefaultsPass | server/models/AnimalRescueRequest.js:23-56 | the default tag and default status satisfy their own enumerations |
| RescueSchema.NormalisedEmailAccepted | server/models/AnimalRescueRequest.js:16-56 | a draft with valid text fields, a padded mixed-case address and no tag or status is stored with the normalised address and both defaults |
| RescueRoute.Screen | server/routes/rescueRequests.js:24-34 | an upload is accepted iff its type starts with `image/` and it is at most 5 MB; a type other than an image is refused whatever its size |
| RescueRoute.LastIndexOf | server/routes/rescueRequests.js:19 | none exactly when the character does not occur; otherwise a position holding it, with no occurrence after it |
| RescueRoute.ExtName | server/routes/rescueRequests.js:19 | the extension is empty or a suffix of the name that starts with its only `.` |
| RescueRoute.ExtNameOf | server/routes/rescueRequests.js:19 | a stem not starting with `.` followed by `.` and a suffix without `.` has exactly that suffix as extension |
| RescueRoute.ExtNameWithoutDot | server/routes/rescueRequests.js:19 | a name without `.` has no extension |
| RescueRoute.RandomSuffix | server/routes/rescueRequests.js:18 | the rounded random suffix is between 0 and 10^9 |
| RescueRoute.StoredNameParts | server/routes/rescueRequests.js:17-21 | the stored name starts with `rescue-`, the clock reading reads back from the digits after it, and it ends in the original's extension |
| RescueRoute.NameParts | server/routes/rescueRequests.js:20 | the same for any digit string in place of the clock reading |
| RescueRoute.TrackingNumber | server/routes/rescueRequests.js:44 | the random part of the tracking code is between 1000 and 9999 |
| RescueRoute.TrackingCodeRoundTrip | server/routes/rescueRequests.js:43-44 | every `TAARA-<year>-<n>` the handler issues ends in exactly four digits and reads back as its year and number |
| RescueRoute.IntakeDefaults | server/routes/rescueRequests.js:47-56 | a missing or empty text field becomes the empty string, except the tag, which becomes `Neglect`; a field sent non-empty is passed on as sent; the photo paths are set exactly when a file was stored |
| RescueRoute.IntakeTagNeverMissing | server/routes/rescueRequests.js:51 | the tag is never reported as missing: only a non-empty value outside the five is reported |
| RescueRoute.IntakeMissingName | server/routes/rescueRequests.js:48 | a body without `fullName` is rejected with `Name is required` |
| RescueRoute.ErrorMap | server/routes/rescueRequests.js:74-80 | the `errors` object maps exactly each failing path to its message |
| RescueRoute.StatusOf | server/routes/rescueRequests.js:65-96 | the reply is 201 exactly on success and 400 exactly on a validation failure |
| RescueRoute.RescueRequests.constructor | server/routes/rescueRequests.js:6 | the collection starts empty |
| RescueRoute.RescueRequests.Submit | server/routes/rescueRequests.js:24-98 | a refused upload never reaches the handler; otherwise an invalid document is answered with its error map, a store fault with 500, and a valid one is inserted and answered with a fresh tracking code; nothing is stored on any other path |
| RescueRoute.RescueRequests.List | server/routes/rescueRequests.js:101-114 | a store fault gives the 500 reply `Failed to fetch rescue requests`; otherwise every stored request, each once, newest first |
| RescueRoute.RescueRequests.Get | server/routes/rescueRequests.js:118-137 | a malformed id or a store fault gives the 500 reply `Failed to fetch rescue request`; otherwise the request with that id when there is one, else `Rescue request not found` |
| RescueRoute.SubmittedRecordShape | server/routes/rescueRequests.js:47-56 | a stored request with a photo points at `/uploads/<stored name>` with an image type, is `pending`, has the normalised e-mail and was created `now` |
| ApplicationSchema.Outcomes | server/models/Application.js:4-11 | one outcome per validated path: the five required ones and the two times `timestamps` adds |
| ApplicationSchema.Validate | server/models/Application.js:3-11 | each failing path is listed at most once |
| ApplicationSchema.Reported | server/models/Application.js:3-11 | each validated path is reported with its own outcome |
| ApplicationSchema.RequiredRules | server/models/Application.js:4-8 | a required path is reported as `Path \`p\` is required.` exactly when the body leaves it missing or empty |
| ApplicationSchema.TimeRules | server/models/Application.js:11 | a sent `createdAt` or `updatedAt` is reported iff it is non-empty text that does not parse as a date |
| ApplicationSchema.OptionalNeverReported | server/models/Application.js:9-10 | `experience` and `notes` are never reported |
| ApplicationSchema.ValidIff | server/models/Application.js:4-11 | a body validates iff all five required paths are non-empty and each time it sends as non-empty text parses as a date |
| ApplicationSchema.BlankNameAccepted | server/models/Application.js:4 | a name of one space passes, since the path is not trimmed |
| ApplicationSchema.Build | server/models/Application.js:3-11 | an application is stored iff the body validates, then with the body's values; the creation time is the one the body sends, or `now` when it sends none or an empty one; on a new document the update time equals the creation time, whatever the body sent; otherwise the failures are the error |
| ApplicationSchema.Touch | server/models/Application.js:11 | a later save that modifies the document sets the update time and nothing else |
| ApplicationSchema.TimesOrdered | server/models/Application.js:11 | a document whose times are in order, modified and saved any number of times no earlier than its creation time, keeps that creation time and never has an update time before it |
| ApplicationSchema.OmittedCreationTimeOrdered | server/models/Application.js:11 | a body without a creation time, built at `now` and saved under a clock that does not run backwards, is created at `now` and stays in order |
| ApplicationSchema.SentCreationTimeOutOfOrder | server/models/Application.js:11 | a body that sends a creation time later than a following save leaves the update time before the creation time |
| EventSchema.Validate | server/models/Event.js:3-40 | a new event's failures name each path at most once |
| EventSchema.ValidateUpdate | server/models/Event.js:3-40 | an update's failures name each path at most once |
| EventSchema.Reported | server/models/Event.js:3-40 | on creation each path is reported with its own validator's outcome |
| EventSchema.ReportedUpdate | server/models/Event.js:3-40 | on update each path is reported with its own validator's outcome, only when the update sets it |
| EventSchema.RequiredRules | server/models/Event.js:4-26 | title, time and location fail iff missing or white space only (they are trimmed); description fails iff missing or empty (not trimmed); date fails iff missing, empty or not a date |
| EventSchema.StatusRule | server/models/Event.js:27-31 | status passes iff it is absent (the default `pending`) or one of `confirmed`, `pending`, `cancelled` |
| EventSchema.TimeRules | server/models/Event.js:32-39 | a sent `createdAt` or `updatedAt` is reported iff it is non-empty text that does not parse as a date; a missing or empty one never is |
| EventSchema.UpdateRules | server/routes/events.js:67-71 | with `runValidators`, a path the update leaves out is never reported, and a path it sets is judged as on creation |
| EventSchema.EmptyUpdateValid | server/routes/events.js:67-71 | an update that sets nothing never fails validation |
| EventSchema.AllPass | server/models/Event.js:3-40 | a valid body has every required path non-blank, a date that parses, an allowed status, and any time it sends as non-empty text parses |
| EventSchema.Build | server/models/Event.js:3-40 | a new event is built iff the body validates; it holds the trimmed values, the parsed date, the given status or `pending`, and each time as the body sends it (null for the empty string), or now when the body leaves it out |
| EventSchema.Touch | server/models/Event.js:42-46 | the pre-save hook sets `updatedAt` to now and changes nothing else |
| EventSchema.TouchKeepsOrder | server/models/Event.js:32-46 | after a save the times are in order iff the creation time is set and no later than the clock at the save |
| EventSchema.OmittedCreationTimeInOrder | server/models/Event.js:32-46 | a body that leaves `createdAt` out, saved no earlier than it was built, gives an event with `createdAt <= updatedAt` |
| EventSchema.SentCreationTimeOutOfOrder | server/models/Event.js:32-46 | a body that sends a `createdAt` later than the save is stored with its update time before its creation time |
| EventSchema.Merge | server/routes/events.js:67-71 | a validated update sets each given path to its setter's or cast's value, a time included; every path it leaves out keeps its value, since the pre-save hook does not run |
| EventSchema.MergeEmpty | server/routes/events.js:67-71 | an empty update leaves the event unchanged |
| EventsRoute.InsertKeepsTimes | server/models/Event.js:32-46 | storing an event whose times are in order keeps every stored event's times in order (the collection itself does not keep this, since a body may set either time) |
| EventsRoute.EventsRouter.constructor | server/routes/events.js:1-3 | the collection starts empty |
| EventsRoute.EventsRouter.List | server/routes/events.js:6-17 | a store fault gives the 500 reply `Failed to fetch events`; otherwise the list holds exactly the stored events (as a multiset), sorted by date ascending |
| EventsRoute.EventsRouter.Get | server/routes/events.js:21-40 | a malformed id or a store fault gives the 500 reply; otherwise the stored event is found iff the id is present, else the 404 reply |
| EventsRoute.EventsRouter.Create | server/routes/events.js:44-61 | an invalid body gives 400 with its failures and stores nothing; a valid one stores the built event, with the defaults read at one clock reading and the pre-save hook at a later one, under a fresh id and returns it; when the body leaves `createdAt` out, the stored times are in order and an ordered collection stays ordered |
| EventsRoute.EventsRouter.Update | server/routes/events.js:65-92 | a malformed id or a store fault gives 400 before validation; an invalid update gives 400, an unknown id 404, all with nothing stored; otherwise only that event changes, to the merged one, and each time the body leaves out is kept |
| EventsRoute.EventsRouter.Delete | server/routes/events.js:96-118 | a malformed id or a store fault gives the 500 reply and changes nothing; otherwise the event is removed iff the id is present, and nothing else changes; an unknown id gives 404 |
| EventsRoute.StatusOnlyUpdate | server/routes/events.js:65-92 | an update that sets only an allowed status is valid and changes only the status |
| PublicEvents.ShownProperties | client/src/components/common/Events.jsx:21-28 | only confirmed events are shown; every confirmed event of the response is shown, as often as it occurs; the list is in date order |
| PublicEvents.ShownOfOrderedList | client/src/components/common/Events.jsx:21-28 | on a response already ordered by date the page's sort moves nothing: the shown list is the confirmed events in the response's order |
| PublicEvents.AfterFetch | client/src/components/common/Events.jsx:14-41 | after the fetch loading is off; an array gives the shown list and no error; a non-array gives an empty list and the format error; a thrown error keeps the list and shows its message or `Unknown error` |
| PublicEvents.Render | client/src/components/common/Events.jsx:58-91 | the spinner iff loading, then the error, then the empty notice iff there are no events, else one card per event |
| PublicEvents.FirstFetchScreen | client/src/components/common/Events.jsx:13-91 | after the first fetch the page shows an error iff the response was not an array, and any cards are exactly the confirmed events by date |
| EventCalendar.Set | client/src/components/admin/EventCalendar.jsx:68-74 | the named control takes the new value and every other control keeps its value |
| EventCalendar.EditForm | client/src/components/admin/EventCalendar.jsx:91-105 | the edit form holds the event's title, time, location, description and status, and the formatted date |
| EventCalendar.BodyOf | client/src/components/admin/EventCalendar.jsx:114-126 | the form is sent with every path present, each holding the control's text |
| EventCalendar.Calendar.constructor | client/src/components/admin/EventCalendar.jsx:8-25 | the initial state: no events, loading, no error, both modals closed, and the blank form with status `pending` |
| EventCalendar.Calendar.FetchSettled | client/src/components/admin/EventCalendar.jsx:44-65 | an array replaces the list as it came; a non-array empties it with the format error; a thrown error keeps the list and sets its message; loading ends |
| EventCalendar.Calendar.InputChange | client/src/components/admin/EventCalendar.jsx:68-74 | only the named form control changes |
| EventCalendar.Calendar.AddEvent | client/src/components/admin/EventCalendar.jsx:77-88 | no current event, the blank form with status `pending`, and the modal open |
| EventCalendar.Calendar.EditEvent | client/src/components/admin/EventCalendar.jsx:91-105 | the chosen event becomes the current one, the form holds its values, and the modal opens |
| EventCalendar.Calendar.DeleteClick | client/src/components/admin/EventCalendar.jsx:108-111 | the chosen event is marked for deletion and the confirmation opens |
| EventCalendar.Calendar.Submit | client/src/components/admin/EventCalendar.jsx:114-135 | exactly one call: an update of the current event's id when one is set, else a create; success sets the matching message, closes the modal and refetches; failure sets the error and keeps the modal |
| EventCalendar.Calendar.DeleteConfirm | client/src/components/admin/EventCalendar.jsx:138-148 | deletes the marked event's id; success sets the message, closes the confirmation and refetches; a failure, or no marked event, sets the error |
| EventCalendar.UntouchedEditKeepsEvent | client/src/components/admin/EventCalendar.jsx:91-126 | saving an untouched edit form of a stored event passes the update validators and gives back the same event, when the shown date parses back to it |
| EventCalendar.BlankFormRefused | client/src/components/admin/EventCalendar.jsx:77-88 | the blank "add" form, sent unchanged, is refused with `Event title is required` |
| MainContent.WithStatus | client/src/components/admin/MainContent.jsx:29-32 | a fetched animal keeps its id and report, and shows its own status when truthy, else `active` |
| MainContent.Rows | client/src/components/admin/MainContent.jsx:29-32 | one row per fetched animal, in order, each with the status default applied |
| MainContent.StatusDefaultIdempotent | client/src/components/admin/MainContent.jsx:29-32 | every row's status is non-empty, so applying the default to the rows again changes nothing |
| MainContent.AsSent | server/routes/animals.js:34-37 | the list endpoint sends each stored report with no `status` path |
| MainContent.StoredAnimalsShowActive | client/src/components/admin/MainContent.jsx:29-32 | every report the server stores is shown as `active` |
| MainContent.WithoutAnimalProperties | client/src/components/admin/MainContent.jsx:69 | the delete filter keeps every row with another id, as often as it occurs and in order across any split, and none with the deleted id; a list without that id is kept whole |
| MainContent.AnimalDatabase.constructor | client/src/components/admin/MainContent.jsx:16-18 | no animals, loading, no error |
| MainContent.AnimalDatabase.FetchSettled | client/src/components/admin/MainContent.jsx:21-42 | a loaded list becomes the rows with the status default and clears the error; a failure keeps the rows and sets the error with the thrown message or the fallback text; loading ends |
| MainContent.AnimalDatabase.HandleDelete | client/src/components/admin/MainContent.jsx:64-75 | only a confirmed delete calls the server with that id; only a successful call removes the rows with that id; a failure alerts with the thrown message or `Unknown error` and keeps the list |
| MainContent.FirstThreeProperties | client/src/components/admin/MainContent.jsx:428-431 | the overview keeps min(3, n) events, in date order, all from the response, and no event left out is earlier than one kept |
| MainContent.AfterOverviewFetch | client/src/components/admin/MainContent.jsx:421-444 | events first: an array gives its first three by date, a non-array none; then the animals, or `[]` for a missing list; a thrown error keeps what was not yet set; loading ends |
| MainContent.PanelFor | client/src/components/admin/MainContent.jsx:1079-1098 | any name outside the seven views selects the dashboard |
| MainContent.ViewRoundTrip | client/src/components/admin/MainContent.jsx:1079-1098 | each panel is selected by its own view name, and a panel other than the dashboard by that name only |
| Accounting.TotalSnoc | client/src/components/admin/AccountingDatabase.jsx:156 | the `reduce` from 0 adds one more amount for one more transaction |
| Accounting.TotalAppend | client/src/components/admin/AccountingDatabase.jsx:156 | the total of two lists joined is the sum of their totals |
| Accounting.NetIsIncomePlusExpenses | client/src/components/admin/AccountingDatabase.jsx:104-156 | when every transaction is of type `income` or `expense`, the net balance equals the income total plus the expense total |
| Accounting.OtherKindBreaksNet | client/src/components/admin/AccountingDatabase.jsx:104-156 | a transaction of any other type counts towards the net balance and towards neither total, so the identity needs its condition |
| Accounting.AmountColour | client/src/components/admin/AccountingDatabase.jsx:205-208 | an amount is coloured as positive iff it is greater than 0 |
| Accounting.LedgerShape | client/src/components/admin/AccountingDatabase.jsx:8-14 | the fixed list has 5 transactions, so the count badge reads 5; each is income or expense, and is coloured positive iff it is income |
| Accounting.LedgerIncome | client/src/components/admin/MainContent.jsx:719 | worked example: the income card over the fixed list reads 750 |
| Accounting.LedgerExpenses | client/src/components/admin/MainContent.jsx:745 | worked example: the expenses card over the fixed list reads -545 |
| Accounting.LedgerNet | client/src/components/admin/MainContent.jsx:771 | worked example: the net balance card over the fixed list reads 205, as `NetIsIncomePlusExpenses` predicts |
| AccountDatabase.CollapseSpaces | client/src/components/admin/AccountDatabase.jsx:24 | `replace(/\s+/g, '.')` leaves no white space and never lengthens the string |
| AccountDatabase.CollapseRun | client/src/components/admin/AccountDatabase.jsx:24 | cut around one maximal run of white space, the run becomes a single `.` and the two sides are replaced on their own |
| AccountDatabase.CollapseNoSpace | client/src/components/admin/AccountDatabase.jsx:24 | a string without white space is left as it is |
| AccountDatabase.DotsShape | client/src/components/admin/AccountDatabase.jsx:24 | the replacement scan, from either state, leaves no white space and does not lengthen the string |
| AccountDatabase.DotsAppend | client/src/components/admin/AccountDatabase.jsx:24 | scanning a concatenation is scanning the first part and then the second from where the first left off |
| AccountDatabase.DotsOfRun | client/src/components/admin/AccountDatabase.jsx:24 | a run of white space gives one `.`, or nothing when it continues a run |
| AccountDatabase.Email | client/src/components/admin/AccountDatabase.jsx:24 | the mock address ends in `@example.com` and its local part has no white space |
| AccountDatabase.EmailOfPlainName | client/src/components/admin/AccountDatabase.jsx:24 | a user name without white space gives its lower-case form followed by `@example.com` |
| AccountDatabase.Capitalise | client/src/components/admin/AccountDatabase.jsx:25 | the role keeps its length and its tail, with the first letter in upper case |
| AccountDatabase.CapitaliseIdempotent | client/src/components/admin/AccountDatabase.jsx:25 | capitalising twice is capitalising once |
| AccountDatabase.DefaultRoleShowsAdmin | client/src/components/admin/AccountDatabase.jsx:25 | the role `admin` shows as `Admin` |
| AccountDatabase.ToAccount | client/src/components/admin/AccountDatabase.jsx:21-28 | a user becomes an account exactly when it has a role, with its id, name, mock address, capitalised role, last login and status |
| AccountDatabase.Accounts | client/src/components/admin/AccountDatabase.jsx:21-28 | the list maps, one account per user in order, exactly when every user has a role |
| AccountDatabase.WithoutAccountProperties | client/src/components/admin/AccountDatabase.jsx:52 | the filtered table holds no account with the id, keeps every other account as often as it occurred, and filters a concatenation part by part |
| AccountDatabase.AccountTable.constructor | client/src/components/admin/AccountDatabase.jsx:8-11 | an empty table, loading, with no error or success message |
| AccountDatabase.AccountTable.FetchSettled | client/src/components/admin/AccountDatabase.jsx:14-41 | after loading, the table holds the mapped accounts and no error; on a failed fetch or mapping it keeps the old table and shows the load error; loading ends either way |
| AccountDatabase.AccountTable.HandleDelete | client/src/components/admin/AccountDatabase.jsx:48-69 | the server is called only when confirmed; a successful call drops the account and shows the success message, a failed one shows the delete error and keeps the table, an unconfirmed one changes nothing |
| AnimalReportForm.FlagRules | client/src/components/admin/AnimalReportForm.jsx:83-93 | name, address and reporter are flagged iff they are empty after trimming, breed iff it is exactly empty, and the form passes iff no flag is raised |
| AnimalReportForm.InitialFormFails | client/src/components/admin/AnimalReportForm.jsx:11-27 | the blank form raises all four flags |
| AnimalReportForm.Set | client/src/components/admin/AnimalReportForm.jsx:50-55 | only the named field changes; the date and the image are kept |
| AnimalReportForm.Cleared | client/src/components/admin/AnimalReportForm.jsx:57-63 | only the named field's flag is lowered; the remarks have no flag |
| AnimalReportForm.PayloadOf | client/src/components/admin/AnimalReportForm.jsx:111-120 | six text parts are always sent, and the image exactly when one is chosen |
| AnimalReportForm.SentFormStored | client/src/components/admin/AnimalReportForm.jsx:109-123 | the server stores every sent field as typed, and an image address iff an image was chosen |
| AnimalReportForm.ReportFormState.constructor | client/src/components/admin/AnimalReportForm.jsx:11-32 | the blank form dated today, no flags, not submitting, no success and no error |
| AnimalReportForm.ReportFormState.Change | client/src/components/admin/AnimalReportForm.jsx:50-64 | the named field takes the value, and only that field's flag is lowered |
| AnimalReportForm.ReportFormState.ChooseImage | client/src/components/admin/AnimalReportForm.jsx:67-72 | the image becomes the first selected file, or none; nothing else changes |
| AnimalReportForm.ReportFormState.ChooseDate | client/src/components/admin/AnimalReportForm.jsx:75-80 | only the date changes |
| AnimalReportForm.ReportFormState.Submit | client/src/components/admin/AnimalReportForm.jsx:96-155 | the flags are recomputed; a form that does not pass sends nothing and changes nothing else; otherwise the payload is sent, a stored report resets the form and calls `onSuccess` only when it is a function, a refusal keeps the form and shows the server's message or the default text; submitting ends |
| AnimalsRoute.Field | server/routes/animals.js:21-24 | a path is stored iff the body sends it, with the sent text |
| AnimalsRoute.UploadName | server/routes/animals.js:11-13 | the stored name is longer than the original name |
| AnimalsRoute.UploadNameParts | server/routes/animals.js:11-13 | the stored name is the clock reading's digits, a dash and the original name, and both parts read back |
| AnimalsRoute.ImageUrl | server/routes/animals.js:23 | `/uploads/` and the stored name with a file, the empty string without one |
| AnimalsRoute.NewAnimal | server/routes/animals.js:21-24 | the report holds each of the six schema paths exactly as sent, and the image address of the stored file |
| AnimalsRoute.ExtraKeysIgnored | server/models/Animal.js:3-11 | a body key outside the six text paths, even `imageUrl` or `status`, changes nothing stored |
| AnimalsRoute.StatusIsNotStored | server/models/Animal.js:3-11 | the schema has neither a `status` path nor a body-settable `imageUrl` among its text paths |
| AnimalsRoute.MessageOf | server/routes/animals.js:25-30 | success says `Animal report submitted successfully`; any failure says `Server error` |
| AnimalsRoute.AnimalsRouter.constructor | server/routes/animals.js:1-4 | the collection starts empty |
| AnimalsRoute.AnimalsRouter.Create | server/routes/animals.js:16-31 | with no filter and no size limit, any file is accepted; success stores exactly the new report; a store fault gives the 500 reply and stores nothing |
| AnimalsRoute.AnimalsRouter.List | server/routes/animals.js:34-41 | a store fault gives the 500 reply `Server error`; otherwise the list holds every stored report once, and only stored reports, in insertion order |
| UsersRoute.DaysAgo | server/routes/users.js:19 | the random day count is between 0 and 29 |
| UsersRoute.Decorate | server/routes/users.js:13-31 | the view keeps the id, username and role; the last login is today minus the day count, within the last 29 days; the status is `active` iff that is at most seven days ago, else `inactive` |
| UsersRoute.DecorateHidesPassword | server/routes/users.js:9 | the view does not depend on the stored password |
| UsersRoute.Apply | server/routes/users.js:130-134 | each of username, password and role is replaced iff the body gives it a truthy value; otherwise it is kept |
| UsersRoute.ApplyProperties | server/routes/users.js:130-140 | a body with nothing truthy changes nothing, and applying the same body twice is applying it once |
| UsersRoute.UsersRouter.constructor | server/routes/users.js:1-3 | the collection starts empty |
| UsersRoute.UsersRouter.List | server/routes/users.js:6-42 | a store fault gives the 500 reply `Failed to fetch users`; otherwise one view per stored user, in store order, each decorated with its own draw |
| UsersRoute.UsersRouter.Get | server/routes/users.js:46-78 | a malformed id or a store fault gives the 500 reply; otherwise the decorated user iff the id is stored, else the 404 reply |
| UsersRoute.UsersRouter.Create | server/routes/users.js:82-124 | a store fault during the username lookup gives 400; a taken username gives 400 and stores nothing; a new username with a password is stored unless the save fails; a stored user gets the role given or `admin`, under a fresh id, and the reply has only id, username and role; unique usernames stay unique |
| UsersRoute.UsersRouter.Update | server/routes/users.js:127-162 | an update that throws gives 400 and changes nothing; otherwise an unknown id gives 404 and changes nothing, and a stored id is updated: only that user changes, to the body's truthy fields over its own, and the reply has no password |
| UsersRoute.UsersRouter.Delete | server/routes/users.js:165-188 | a malformed id or a store fault gives the 500 reply and changes nothing; otherwise the user is removed iff the id is stored, and nothing else changes |
| Seed.SeedOne | server/seed.js:13-21 | an admin whose name is taken leaves the users as they were; otherwise the admin is inserted with the hash of its password and no role |
| Seed.SeedAll | server/seed.js:12-22 | the admins processed in order keep the store well formed |
| Seed.CreateAdmins | server/seed.js:5-23 | the loop's result is the admins seeded one by one, in order |
| Seed.SeedAllStep | server/seed.js:12 | one more admin is one more turn of the loop |
| Seed.SeedKeeps | server/seed.js:19-21 | users that existed before are kept, unchanged |
| Seed.SeedAdds | server/seed.js:15-16 | every added user is one of the admins, stored with the hash of its password and no role |
| Seed.SeedKeepsOne | server/seed.js:13-21 | one turn keeps each stored user unchanged |
| Seed.NamedKept | server/seed.js:12-22 | a name that is taken stays taken |
| Seed.SeedAllPresent | server/seed.js:12-22 | after a run every admin's name is taken |
| Seed.SeedAllTaken | server/seed.js:13-14 | when every admin's name is already taken the loop changes nothing |
| Seed.SeedIdempotent | server/seed.js:12-22 | running the script twice gives the same users as running it once |
| Seed.SeedUnique | server/seed.js:13-17 | the script never adds a second user with a taken name |
| Seed.SeedNew | server/seed.js:13-17 | an admin whose name nobody has is inserted |
| Seed.SeedFirstTwo | server/seed.js:6-17 | on an empty store the first two turns store admin1 and admin2 under the first two ids |
| Seed.SeedFresh | server/seed.js:5-23 | on an empty store the script creates exactly the three admins, in order, each with a hashed password and no role |
| Seed.FreshAdminsUnique | server/seed.js:5-23 | the freshly seeded store is well formed and has one user per name |
| Seed.AdminPasswordsDistinct | server/seed.js:6-10 | the three admins have three different passwords |
| LoginRoute.StatusOf | server/routes/login.js:16-34 | the reply is 200 iff a token is sent |
| LoginRoute.Success | server/routes/login.js:17-34 | `success` is true iff a token is sent |
| LoginRoute.LoginWith | server/routes/login.js:14-31 | the lookup behind both logins: a token only for a stored user satisfying the username condition whose hash matches the text password, signed with the secret for one hour over the stored id and name; nobody satisfying it gives 400; a store fault or an uncastable username gives 500 |
| LoginRoute.Login | server/routes/login.js:9-36 | the route as written: the sent username itself is the filter value, so a token names a stored user satisfying the condition it becomes (for a scalar, a user of that name) whose hash matches; an unknown name gets the same 400 `Invalid username or password` as a wrong password; a store fault gives 500 |
| LoginRoute.LoginStrict | server/routes/login.js:14 | the login as evidently intended: a token only for a stored user whose name is the scalar username sent, and 400 when nobody has that name |
| LoginRoute.LoginStrictAgrees | server/routes/login.js:14 | for a scalar username the route and the intended login give the same reply |
| LoginRoute.OperatorNameLogsIn | server/routes/login.js:14 | a username of `{"$ne": null}` with the first stored user's password gets that user's token on the route, and 400 on the intended login |
| LoginRoute.Credentials | server/routes/login.js:10 | a body with a text name and password gives an equality condition on the name and that password |
| LoginRoute.LoginUnique | server/routes/login.js:14-31 | with unique names, a stored user logs in iff the password matches its hash, and the token names that user, on both logins |
| LoginRoute.SeededAdminLogsIn | server/routes/login.js:14-31 | in a freshly seeded store each admin logs in with its own password and with no other admin's password, on both logins |
| Json.Field | server/server.js:69-83 | a path is read iff the body has it |
| Json.TextField | server/routes/login.js:21 | the password reaches the hash comparison only when it is text |
| Json.ConditionOf | server/server.js:162 | `{path: v}` in a filter: a scalar is an equality on its text, a missing value or `null` matches nothing, an object with a `$` key is an operator object, any other object is refused by the cast |
| Json.BooleanCast | server/server.js:58 | the Boolean path stores true for `true`, `'true'`, `1`, `'1'`, `'yes'`; false for `false`, `'false'`, `0`, `'0'`, `'no'` and a missing value; `null` for `null`; anything else fails the cast |
| Registration.Newsletter | server/server.js:129 | the stored newsletter flag is the Boolean cast of the value sent, `None` for `null` |
| Registration.Stored | server/server.js:58 | a cast value is stored as it is, `null` as `None` |
| Registration.PasswordText | server/server.js:101-102 | the password is handed to the hash only when it is text |
| Registration.OptionalText | server/server.js:119-128 | an optional path is stored iff it is sent and not `null` |
| Registration.Fails | server/server.js:69-83 | a validator reports its own message iff its check fails |
| Registration.Validate | server/server.js:69-92 | the error list names each validated path at most once |
| Registration.Reported | server/server.js:69-92 | each path of the chain is reported with its own validator's outcome |
| Registration.OutcomesPass | server/server.js:69-83 | every validator passes iff every rule holds |
| Registration.ValidationRules | server/server.js:69-92 | the body passes iff both names are non-blank after trimming, the email is valid, phone, address, residence type, housing status, pet experience and pet type are non-empty, the password has at least 6 characters, the birth date is valid, adults is an integer of at least 1 and children an integer of at least 0 |
| Registration.BlankIsEmptyAfterTrim | server/server.js:70-71 | a name is blank iff `trim()` leaves it empty |
| Registration.MissingNameReported | server/server.js:70 | a body without a first name is reported with `First name is required` |
| Registration.NullAdultsRefused | server/server.js:79 | a `null` adult count is refused with `At least one adult is required` |
| Registration.ViewOf | server/server.js:136-141 | the reply shows only the id, first and last name and email |
| Registration.Count | server/server.js:116-120 | a household count that `isInt` accepted is stored as that number |
| Registration.NewMember | server/server.js:104-130 | the stored document holds the trimmed names, the email as sent, the hash in place of the password, both times now, and the newsletter flag as the Boolean cast makes it |
| Registration.ValidatedMemberShape | server/server.js:69-130 | a validated body is stored with non-empty names, phone and address, at least one adult and no negative number of children |
| Registration.InsertKeepsUnique | server/server.js:32 | inserting a member whose email nobody has keeps emails unique |
| Registration.SignInWith | server/server.js:162-170 | the lookup behind both logins: a login names a member satisfying the email condition whose hash matches the text password; nobody satisfying it gives 400; a store fault or an uncastable email gives 500 |
| Registration.SignIn | server/server.js:159-191 | the route as written: the sent email itself is the filter value, so a login names a member satisfying the condition it becomes (for a scalar, a member with that email) whose hash matches; with no such email the reply is the same 400 as for a wrong password |
| Registration.SignInStrict | server/server.js:162 | the login as evidently intended: it names only a member whose email is the scalar email sent, and gives 400 when no member has it |
| Registration.SignInStrictAgrees | server/server.js:162 | for a scalar email the route and the intended login give the same reply |
| Registration.OperatorEmailSignsIn | server/server.js:162 | an email of `{"$ne": null}` with the first stored member's password signs in as that member on the route, and gets 400 on the intended login |
| Registration.SignInUnique | server/server.js:159-186 | with unique emails, a member's own email logs in iff the comparison accepts the password, on both logins |
| Registration.Registry.constructor | server/server.js:66 | the collection starts empty |
| Registration.Registry.Register | server/server.js:86-156 | a failing body gives 400 with the error list before the store is consulted; a store fault during the email lookup gives 500; a known email gives 400 and stores nothing; a valid body with a new email, a text password and castable values is stored unless the save fails; the new member, with the hashed password, is stored under a fresh id and the reply shows only id, names and email; emails stay unique |
| Registration.RegisteredCanSignIn | server/server.js:86-186 | whoever registers can then log in with the same email and password, on both logins |
| SignUpForm.InitialData | client/src/components/common/SignUpForm.jsx:6-26 | the form starts with both client-only keys present and the terms box unchecked |
| SignUpForm.IndexOfDot | client/src/components/common/SignUpForm.jsx:41-42 | the position of the first dot, or the length when there is none |
| SignUpForm.SplitName | client/src/components/common/SignUpForm.jsx:42 | the first two pieces of `split('.')`: neither holds a dot, and the first is the name up to its first dot |
| SignUpForm.ChangedOnlyThatField | client/src/components/common/SignUpForm.jsx:38-56 | a plain name sets that key alone, to `checked` for a checkbox and the text otherwise; a dotted name sets one member of its group, to `parseInt` of the text for a number input, and keeps every other key and member |
| SignUpForm.IndexOfDotAfter | client/src/components/common/SignUpForm.jsx:42 | a dot-free prefix moves the first dot by its length |
| SignUpForm.SplitJoin | client/src/components/common/SignUpForm.jsx:41-42 | a name joined from two dot-free parts splits back into them |
| SignUpForm.ClearedAdultsIsNull | client/src/components/common/SignUpForm.jsx:47 | clearing the adults number input stores `NaN`, which the body carries as `null` |
| SignUpForm.ClearedAdultsRefused | server/server.js:79 | a form whose adult count was cleared is refused by the server with `At least one adult is required` |
| SignUpForm.Payload | client/src/components/common/SignUpForm.jsx:77-82 | the sent body is the form without `confirmPassword` and `agreeTerms`, every other key unchanged |
| SignUpForm.Position | client/src/components/common/SignUpForm.jsx:97-98 | the four sections in order |
| SignUpForm.NavigationRoundTrip | client/src/components/common/SignUpForm.jsx:155-336 | Next moves basic, adoption, preferences, terms one step forward and Previous one step back, each undoing the other; Previous is missing only on basic and Next only on terms |
| SignUpForm.Wizard.constructor | client/src/components/common/SignUpForm.jsx:6-31 | the initial form, not submitting, no messages, on the basic section |
| SignUpForm.Wizard.HandleChange | client/src/components/common/SignUpForm.jsx:38-56 | the form after the change handler, as `ChangedOnlyThatField` describes it |
| SignUpForm.Wizard.Next | client/src/components/common/SignUpForm.jsx:159-305 | the next section |
| SignUpForm.Wizard.Previous | client/src/components/common/SignUpForm.jsx:235-334 | the previous section |
| SignUpForm.Wizard.ShowSection | client/src/components/common/SignUpForm.jsx:360-367 | a section tab shows its own section |
| SignUpForm.Wizard.Submit | client/src/components/common/SignUpForm.jsx:58-95 | differing passwords set `Passwords do not match`, checked first; an unchecked terms box sets the terms message; either way nothing is sent; otherwise the payload is sent, and the reply sets the success message or the server's message or the default; submitting ends on every path |
| SignUpForm.InitialFormNotSent | client/src/components/common/SignUpForm.jsx:6-74 | the blank form passes the password check and fails the terms check |
| SignUpForm.InitialHouseholdValid | client/src/components/common/SignUpForm.jsx:17 | the household counts the form starts with pass the server's integer checks |
| Store.Insert | server/routes/rescueRequests.js:61 | a save stores the document under an id not in use, keeps every other document under its id, and appends the id to the insertion order |
| Store.Remove | server/routes/events.js:98 | a delete by id drops exactly that document and takes its id out of the insertion order, and an absent id changes nothing |
| Store.WithoutIsFilter | server/routes/events.js:98 | taking an id out of the insertion order is filtering on every other id, so the remaining documents keep their relative order |
| Store.WithoutAppend | server/routes/events.js:98 | taking an id out of a concatenated order takes it out of each part |
| Store.Replace | server/routes/events.js:67 | an update by id replaces exactly that document and keeps the insertion order |
| Store.FindOne | server/seed.js:13 | no match exactly when no stored document satisfies the query; otherwise a stored document that does |
| Store.Entries | server/routes/rescueRequests.js:103 | `find()` lists each stored document under its id, one entry per id, the k-th entry under the k-th id inserted |
| Store.FindOneAgrees | server/server.js:162 | two filters that agree on every stored document find the same one |
| Sorting.SortBy | server/routes/events.js:8 | a sort by key gives a list in ascending key order that is a permutation of its input |
| Sorting.SortSorted | server/routes/events.js:8 | a list already in key order is left as it is |
| Sorting.PrefixLeast | client/src/components/admin/MainContent.jsx:430-431 | the first `n` of a sorted list are all at most every element left out |
| Lists.FilterMembers | client/src/components/admin/AccountDatabase.jsx:52 | `filter` keeps exactly the elements that pass |
| Lists.FilterCount | client/src/components/admin/AccountDatabase.jsx:52 | `filter` keeps each passing element as often as it occurs and drops every failing one |
| Text.TrimEmptyIff | server/models/AnimalRescueRequest.js:9 | a string trims to the empty string exactly when it is all white space |
| Text.TrimIdempotent | server/models/AnimalRescueRequest.js:9 | trimming twice is trimming once |
| Text.Lower | client/src/components/admin/AccountDatabase.jsx:24 | `toLowerCase` keeps the length and maps each character on its own, in place |
| Text.ParseIntRoundTrip | client/src/components/common/SignUpForm.jsx:47 | `parseInt` reads back the decimal form of every integer |
| Text.NatToStringRoundTrip | server/routes/rescueRequests.js:43-44 | the decimal form of a natural number reads back as that number |

## Left out

- Mapbox, geocoding and the map widget in `RescueTab.jsx` (lines 118-133 and 295-424): network calls and a WebGL widget. The race between geocoding replies is concurrency.
- `testServerConnection` and the `fetch`/`axios` service wrappers: network I/O. Every call is modelled as a reply given as an input.
- Floating point and formatting: file-size formatting, the fundraiser percentage, `Intl.NumberFormat` currency output and `date-fns` formatting. These are display-only or given as inputs.
- bcrypt, jsonwebtoken and the validator library's `isEmail`/`isDate`: foreign code, passed in as functions.
- `Math.random`, `Date.now` and `new Date()`: passed in as draws and clock readings.
- Multer disk writes, lazy creation of the uploads directory and the `photoData` buffer: file-system I/O. Only the filter, the size limit and the name formula are modelled.
- The Mongoose connection (`server/db/config.js`) and the middleware setup (`setupMiddleware`, CORS): infrastructure.
- `server/models/User.js` is not part of this model. A user is `{username, password, role}`. A save the model's own rules would refuse is the input `saveFails`.
- UsersRoute.UsersRouter.Create stores the password as sent. The hashing hook the route relies on lives in `server/models/User.js`, which is not part of this model; `findByIdAndUpdate` in UsersRoute.UsersRouter.Update would bypass any such save hook, so an updated password is stored as sent there too.
- Ids are whole numbers (`Store.Id`). An id that does not cast to an ObjectId, and a store fault, are the boolean `fails`/`saveFails`/`lookupFails` input of each handler, which answers them as its `catch` does; the two cases are not told apart. Dates are cast through the `parseDate` parameter; a JSON `null` or a number sent for a date is not modelled, since bodies hold text. The date of birth is kept as the text sent.
- `findOne` on a key that the body leaves out: the model takes it to match no stored document, as `{path: null}` does. Whether the driver drops an `undefined` condition instead depends on its `ignoreUndefined` setting, which is not part of this model.
- Registration.SignIn and LoginRoute.Login: how the database evaluates an operator object is the parameter `holds`. An unknown operator, which Mongoose refuses with an error, is left to `holds` too. Arrays in a body (which Mongoose turns into `$in`) are not modelled.
- Registration.Registry.Register: the email lookup compares the email's text. An object email could reach the lookup only past an `isEmail` that accepted `[object Object]`.
- Registration.Castable: an object with a string `_id`, which the String cast accepts as that id, is taken as refused.
- Timers that clear messages, spinners, modal visibility effects other than the state flags, scrolling, the tracking-number modal and badge rendering: UI timing and presentation. `window.confirm` is a boolean input.
- Presentation-only and mock-data components: Gallery, Sidebar, Header, ThemeToggle, Footer, AboutUsTab, AnimalWelfareLaw, DonationModal, Settings, Logout, MainNavbar, LoginForm, AnimalsTable, the standalone AnimalDatabase and DashboardOverview, PetsForAdoption and RainbowBridge. They hold no logic the core relies on.
- `server/routes/applications.js` and `server/routes/adopt.js`: thin pass-throughs. Only the `Application` schema they store through is modelled.
- The alert shown for each oversized image is not modelled. `RescueTab.RescueTab.UploadImages` returns the names it would show instead.
- Text.Lower: maps only the letters A to Z, not the full Unicode case mapping of `toLowerCase`. Text.UpperChar does the same for `toUpperCase`.
- The password-length rule in `Registration` counts UTF-16 code units. `isLength` counts roughly code points: it subtracts surrogate pairs and the variation selectors U+FE0E and U+FE0F.
- ApplicationSchema.Validate: bodies hold only text values. Mongoose's cast of numbers and booleans to strings is not modelled.
- RescueRoute.RandomSuffix, RescueRoute.TrackingNumber and UsersRoute.DaysAgo: they use exact real arithmetic for `Math.random() * k`, not IEEE doubles.

## Findings

| source | as written | input that shows it | evidently intended | confidence | as-written member | corrected member |
|---|---|---|---|---|---|---|
| server/server.js:162 | `User.findOne({ email: req.body.email })` puts the sent value itself into the filter (`Registration.SignIn`), so an object with a `$` key is a query operator | `{"email": {"$ne": null}, "password": p}`, where p is the first stored member's password, signs in as that member without naming any email | look the member up by the email as text, so that an object finds nobody | medium, not executed | Registration.OperatorEmailSignsIn | Registration.SignInStrict |
| server/routes/login.js:14 | `User.findOne({ username })` puts the sent value itself into the filter (`LoginRoute.Login`), so an object with a `$` key is a query operator | `{"username": {"$ne": null}, "password": p}`, where p is the first stored user's password, gets a token for that user without naming anyone | look the user up by the name as text, so that an object finds nobody | medium, not executed | LoginRoute.OperatorNameLogsIn | LoginRoute.LoginStrict |
