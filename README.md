# easycar in Dafny

A model of the logic at the core of easycar. easycar is a Telegram bot that watches the
Polish driving-exam portal info-car.pl for free practice-exam slots and books them. It
has two parts: an API client crate (`info-car-api`) and the bot that drives it. The
repository holds several revisions of both, which disagree in detail:

- top-level `src/` with `info-car-api/`;
- `easycar/` with `crates/info-car-api/`.

Each revision is modelled on its own, and every module names the file it models.

What is modelled:

- **401 challenge classification.** When the portal answers 401, the quoted strings of
  the `WWW-Authenticate` header (section 4.1 of RFC 7235, carrying the Bearer error
  attributes of section 3 of RFC 6750) are turned into a JWT error by position.
  - `QuotedStrings` is the non-greedy `"(.*?)"` scan.
  - `Http` is the header's text conversion.
  - `JwtChallenge` is the newest revision: the last three pieces, or `unknown_error`.
  - `JwtChallengeIndexed` is the two older, identical copies: the first three pieces,
    or a panic.
- **Schedule flattening.**
  - `Schedule` is the `flat_map`/`take` revision.
  - `ScheduleLoops` is the nested-loop revision, as methods with loop invariants.
- **Background workers.** Each is a step function over explicit state. `now` is an
  integer number of seconds, and the portal's answers are parameters.
  - `Session` is the shared refresh timer.
  - `EasycarWorkers` is the session worker and exam poller of `easycar/`.
  - `ServiceWorkers` is the `InfoCarService` object of `src/service/workers.rs`.
  - `ServiceLoop` is the message loop of `src/service.rs`.
  - `EarliestWorker` is the loop of `src/main.rs`.
  - `ExamDedup` is the "announce only when the nearest exam's id changes" rule they
    share.
- **Clients.**
  - `ApiClient` is the older API client: the token field, the `NoBearer` guards, the
    login form and the exam-schedule body.
  - `InfoCarClients` is the application wrapper of `src/client.rs`: the
    refresh-then-login fallback, the nearest exams and the enrolment request.
- **Endpoint envelope.** `Endpoint` covers `EndpointResponse::ok`, the
  `GenericEndpointError` text of both revisions, and the JSON decoding of the two
  variants. `Json` is a minimal JSON value.
- **Small parsers and tables.**
  - `Commands`: `/pay` argument splitting, the `TooFewArguments` text, the reservation
    listing and command routing.
  - `TimeDelta`: `readable_time_delta`.
  - `ReadableDate`: `readable_date_from_string`.
  - `LicenseCategories`, `ReservationStatuses` and `CrateStatuses`: the name tables.
  - `NewReservations` and `CrateNewReservations`: reservation requests with their JSON
    form.
  - `ReservationRecords`: the listing defaults.

Several source files hold the same code. Each fact is stated once and cited once:

- `crates/info-car-api/src/error.rs` and `crates/info-car-api/src/client/error.rs` hold
  the same classifier.
- The `LicenseCategory` table is the same in:
  - `info-car-api/src/types/license_category.rs`;
  - `crates/info-car-api/src/client/reservation/mod.rs:9-59`;
  - `crates/info-car-api/src/client/reservations.rs:6-50`.
- `EndpointResponse::ok` is the same match in both endpoint files.
- `readable_time_delta` is the same arithmetic in `src/utils.rs` and
  `easycar/src/utils.rs`.
- The refresh timer's `expire - now - 5 min` conversion appears in:
  - `src/service/workers.rs:62-66`;
  - `src/service.rs:175-179`;
  - `src/main.rs:154-158`;
  - `easycar/src/service/workers.rs:26-38`.

The session worker's error log (`easycar/src/service/workers.rs:45`) announces that a
failed refresh will be retried. The code does stop in several places, and the model
follows the code:

- the `expect` on an unset expiry;
- the `u64` conversion of a negative sleep;
- the `todo!()` of `src/main.rs`;
- the `pop().unwrap()` on an empty answer in the easycar poller
  (`easycar/src/service/workers.rs:58`);
- the empty error list in the easycar poller;
- the failed refresh it forces in the easycar poller.

The model marks each of these places as a panic.

## Model

| member | source | states |
|---|---|---|
| QuotedStrings.Extract | info-car-api/src/error.rs:114-120 | no extracted piece contains a `"` or a newline |
| QuotedStrings.ExtractRender | info-car-api/src/error.rs:114-120 | clean pieces, each quoted, with quote-free text between them, are extracted back exactly and in order |
| QuotedStrings.PieceCountWithoutNewlines | info-car-api/src/error.rs:114-120 | in text without newlines the number of pieces is the number of `"` characters divided by two, rounded down |
| QuotedStrings.ExtractThree | crates/info-car-api/src/client/error.rs:9-15 | three quoted strings separated by quote-free text give exactly those three pieces, left to right |
| QuotedStrings.NewlineBreaksMatch | crates/info-car-api/src/error.rs:58-64 | a newline inside a quote pair breaks the match, since `.` does not match a newline: `"a⏎"b"` yields only `b` |
| Http.HeaderText | info-car-api/src/error.rs:124-129 | a header of visible ASCII is scanned as is; any other header is replaced by the fixed fallback text |
| Http.HeaderTextHasNoNewline | info-car-api/src/error.rs:124-130 | the text that is scanned never contains a newline |
| JwtChallenge.FromPieces | info-car-api/src/error.rs:95-111 | with three or more pieces: url = last, description = second to last, type = third to last; with fewer: type `unknown_error`, description = the pieces joined by single spaces, url empty |
| JwtChallenge.EarlierPiecesDiscarded | info-car-api/src/error.rs:105-110 | pieces before the last three do not influence the error |
| JwtChallenge.ShortChallengeKeepsAllText | info-car-api/src/error.rs:97-103 | for zero, one or two pieces, the description is the empty string, the piece, or the two joined by a space |
| JwtChallenge.HandleResponse | info-car-api/src/error.rs:122-134 | a non-401 response passes unchanged; a 401 without the header panics; a 401 with it is rejected with the error built from the header's pieces |
| JwtChallenge.Display | info-car-api/src/error.rs:84-86 | renders `Error (<type>): <description> (<url>)`: the length and every piece at its position, so the three fields appear verbatim between the fixed separators |
| JwtChallenge.RejectsWithLastThree | info-car-api/src/error.rs:122-134 | a 401 whose header quotes any pieces followed by type, description and url is rejected with exactly those three |
| JwtChallenge.InvalidTokenExample | info-car-api/src/error.rs:95-120 | the header `Bearer error="invalid_token", error_description="Token expired", error_uri="https://x/y"` gives (`invalid_token`, `Token expired`, `https://x/y`) |
| JwtChallenge.ShortChallengeRejects | info-car-api/src/error.rs:97-103 | a 401 whose header has fewer than six quotes is still rejected, as `unknown_error`, never a panic |
| JwtChallengeIndexed.FromPieces | crates/info-car-api/src/error.rs:74-79 | fewer than three pieces panic; otherwise the error is the first three pieces in order |
| JwtChallengeIndexed.HandleResponse | crates/info-car-api/src/error.rs:66-82 | a non-401 response passes unchanged; a 401 without the header panics; a 401 with it is classified from its pieces |
| JwtChallengeIndexed.Display | crates/info-car-api/src/error.rs:54-56 | renders `Error (<0>): <1> (<2>)`: the length and every piece at its position, so the three fields appear verbatim between the fixed separators |
| JwtChallengeIndexed.LaterPiecesIgnored | crates/info-car-api/src/client/error.rs:25-30 | pieces after the third do not influence the error |
| JwtChallengeIndexed.ShortChallengePanics | crates/info-car-api/src/client/error.rs:25-30 | a 401 whose header has fewer than six quotes panics on indexing |
| JwtChallengeIndexed.OpaqueHeaderPanics | crates/info-car-api/src/client/error.rs:19-30 | a 401 whose header is not visible ASCII panics, because the fallback text has no quotes |
| JwtChallengeIndexed.AgreesWithNewestOnThreePieces | crates/info-car-api/src/error.rs:74-79 | with exactly three pieces the older and the newest classifier give the same error |
| JwtChallengeIndexed.RealmChallengeDiffers | crates/info-car-api/src/error.rs:74-79 | with a leading `realm` piece the older classifier takes (realm, type, description) while the newest takes (type, description, url) |
| Schedule.AllPracticeExamsLength | info-car-api/src/utils.rs:15-23 | the flattening has as many exams as all hours' practice lists together |
| Schedule.MemberOfFlattening | info-car-api/src/utils.rs:15-23 | an exam is in the flattening if and only if it is in some hour's practice list |
| Schedule.DayExamsAppend | info-car-api/src/utils.rs:15-23 | the flattening of consecutive days is the concatenation of their flattenings, so day order is kept |
| Schedule.OnlyPracticeExamsInspected | info-car-api/src/utils.rs:20-21 | erasing theory and linked exams and all labels leaves the flattening unchanged |
| Schedule.FindNPracticeExams | info-car-api/src/utils.rs:3-13 | `None` exactly when n is 0 or there are no practice exams; otherwise the first min(n, total) exams, between 1 and n of them |
| Schedule.FindNMonotone | info-car-api/src/utils.rs:3-13 | the answer for n is a prefix of the answer for n + 1 |
| ScheduleLoops.FindFirstNonEmptyPracticeExam | crates/info-car-api/src/utils.rs:3-12 | `None` exactly when no hour has a practice exam; otherwise the list of the first such hour, whose first exam is the flattening's first |
| ScheduleLoops.FindAllPracticeExams | crates/info-car-api/src/utils.rs:14-26 | the pushed list is the day/hour/list-order flattening, and its length is the total count |
| Session.RefreshSleep | easycar/src/service/workers.rs:26-38 | the conversion of `expire - now - 300` to unsigned seconds fails exactly when `expire - now < 300` |
| Session.WakesAtRefreshInstant | easycar/src/service/workers.rs:26-27 | after the sleep the clock reads the refresh instant `expire - 300` |
| Session.SleepShrinks | src/service/workers.rs:62-66 | a later start sleeps less, second for second, and an earlier start never fails where a later one succeeds |
| EasycarWorkers.SessionStep | easycar/src/service/workers.rs:14-50 | one cycle as written: panic exactly when `expire - now < 300`; otherwise sleep `expire - now - 300`, then the refreshed expiry or `failedAt + 15` |
| EasycarWorkers.FailedRefreshPanicsNext | easycar/src/service/workers.rs:42-47 | after a failed refresh the next cycle panics for every clock reading and every outcome |
| EasycarWorkers.RetryingSessionStep | easycar/src/service/workers.rs:42-47 | the cycle with the intended retry: after a failure, the next refresh instant is 15 s after the failure |
| EasycarWorkers.FailedRefreshRetried | easycar/src/service/workers.rs:42-47 | with the retry, a failed refresh is followed by a sleep of the rest of the 15 s and another attempt |
| EasycarWorkers.RetryAgreesOnSuccess | easycar/src/service/workers.rs:42-43 | on a successful refresh the corrected cycle is the cycle as written |
| EasycarWorkers.SessionWorker.TickAsWritten | easycar/src/service/workers.rs:25-48 | one cycle as written on the worker's `expire_date` field: the tick is `SessionStep` of the old expiry; the field becomes the next expiry, or is kept on a panic |
| EasycarWorkers.SessionWorker.Tick | easycar/src/service/workers.rs:25-48 | one cycle with the corrected retry on the worker's `expire_date` field: the tick is `RetryingSessionStep` of the old expiry; the field becomes the next expiry, or is kept on a panic |
| EasycarWorkers.StartSessionWorker | easycar/src/service/workers.rs:18-22 | no worker exactly when the client has no expiry (the `expect` panics); otherwise a fresh worker holding it |
| EasycarWorkers.PollStep | easycar/src/service/workers.rs:55-107 | announce exactly when the popped exam's id differs from the last one, which then becomes that id; errors and panics keep it |
| EasycarWorkers.PollIdempotent | easycar/src/service/workers.rs:85-90 | polling the same answer again announces nothing and keeps the id |
| EasycarWorkers.RefreshOnlyOnInvalidToken | easycar/src/service/workers.rs:59-70 | a refresh is requested exactly for an endpoint error whose first item's code is `invalid_token` |
| EasycarWorkers.EmptyErrorListPanics | easycar/src/service/workers.rs:64 | an endpoint error with no items panics |
| EasycarWorkers.Scheduler.constructor | easycar/src/service/workers.rs:53 | the poller starts with `last_exam_id` empty |
| EasycarWorkers.Scheduler.Tick | easycar/src/service/workers.rs:55-108 | one tick on the `last_exam_id` field follows the poll step |
| EasycarWorkers.FirstSightingAnnounced | easycar/src/service/workers.rs:53-90 | a fresh poller announces the first exam with a non-empty id |
| Endpoint.Ok | info-car-api/src/types/endpoint.rs:17-25 | `Success(v)` gives `Ok(v)`; `Errors(es)` gives `Err` carrying `es` unchanged |
| Endpoint.FoldIsConcatenation | info-car-api/src/types/endpoint.rs:13-14 | the fold over the errors is the in-order concatenation of `<user_message> (<code>). ` |
| Endpoint.CollectTextAppend | crates/info-car-api/src/types/endpoint.rs:12-13 | the collected text of two lists is the concatenation of their texts, and an empty list gives `""` |
| Endpoint.DisplayRevisionsAgree | crates/info-car-api/src/types/endpoint.rs:12-13 | the fold and the map-and-collect render the same text |
| Endpoint.SingleErrorText | info-car-api/src/types/endpoint.rs:13-14 | one error renders as `<user_message> (<code>). ` |
| Endpoint.Decode | info-car-api/src/types/endpoint.rs:5-11 | an object whose only key is `errors`, holding a list of errors, decodes as `Errors`; anything else decodes as `Success` exactly when the payload decodes |
| Endpoint.ErrorRoundTrip | info-car-api/src/types/endpoint.rs:27-34 | an error item survives encoding and decoding, including an absent `path` |
| Endpoint.ErrorsRoundTrip | info-car-api/src/types/endpoint.rs:7-8 | a list of error items survives encoding and decoding, in order |
| Endpoint.ErrorsVariantRoundTrip | info-car-api/src/types/endpoint.rs:5-8 | `Errors(es)` survives encoding and decoding |
| Endpoint.SuccessVariantRoundTrip | info-car-api/src/types/endpoint.rs:9-10 | `Success(v)` survives when its payload round-trips and does not look like an errors object |
| Endpoint.DecodedErrorsUnwrapToErr | info-car-api/src/types/endpoint.rs:15-24 | a decoded errors envelope unwraps to `Err` with the same list, which callers can read |
| Json.OptionalStringRoundTrip | info-car-api/src/types/endpoint.rs:31 | an optional string field reads back as written, `null` as absent |
| LicenseCategories.Name | info-car-api/src/types/license_category.rs:26-49 | every category displays as a name of one to three characters starting with A, B, C, D, P or T |
| LicenseCategories.Default | info-car-api/src/types/license_category.rs:10-11 | the default category is B |
| LicenseCategories.DecodeName | info-car-api/src/types/license_category.rs:4-24 | decoding a category's displayed name gives the category back |
| LicenseCategories.DecodeOnlyNames | info-car-api/src/types/license_category.rs:4-24 | only the seventeen names decode, each to the category displaying it |
| LicenseCategories.NameInjective | crates/info-car-api/src/client/reservation/mod.rs:30-53 | distinct categories display distinctly |
| ReservationStatuses.DecodeWireName | crates/info-car-api/src/types/reservation/status.rs:15-27 | every status decodes from its SCREAMING_SNAKE_CASE name |
| ReservationStatuses.DecodeKnownOnlyFromName | crates/info-car-api/src/types/reservation/status.rs:15-27 | any string that is not one of those names decodes as `Unknown` |
| ReservationStatuses.DisplayInjective | crates/info-car-api/src/types/reservation/status.rs:29-43 | distinct statuses display distinctly |
| ReservationStatuses.DisplayIsNotWireName | crates/info-car-api/src/types/reservation/status.rs:15-43 | a displayed status such as `Payment Rejected` does not decode back; it becomes `Unknown` |
| CrateStatuses.DecodeWireName | crates/info-car-api/src/client/reservation/mod.rs:68-77 | every status decodes from its UPPERCASE name (`PLACERESERVED`, …) |
| CrateStatuses.DecodeKnownOnlyFromName | crates/info-car-api/src/client/reservation/mod.rs:68-77 | any other string decodes as `Unknown` |
| CrateStatuses.UnderscoredNamesAreUnknown | crates/info-car-api/src/client/reservation/mod.rs:68-77 | the newer underscored names `PLACE_RESERVED` and `SIGNUP_CONFIRMED` decode as `Unknown` here |
| ReservationRecords.DefaultStatus | crates/info-car-api/src/client/reservations.rs:52-57 | the default status has empty `status` and `timestamp` and no message |
| ReservationRecords.DefaultCandidate | crates/info-car-api/src/client/reservations.rs:79-83 | the default candidate has empty first and last names |
| ReservationRecords.DefaultStatusReason | easycar/src/service/mod.rs:158 | a default status is shown with the reason `None` |
| NewReservations.DefaultProfile | info-car-api/src/types/reservation/new.rs:18-22 | the default driver profile is `PKK("")` |
| NewReservations.NewFromUserInfo | info-car-api/src/types/reservation/new.rs:37-54 | given name, family name and e-mail fill first name, last name and e-mail; PESEL, phone and profile pass through; the category is B |
| NewReservations.NewPracticeExam | info-car-api/src/types/reservation/new.rs:80-85 | the id is tagged `PracticeId` and the organisation id is kept |
| NewReservations.NewTheoryExam | info-car-api/src/types/reservation/new.rs:73-78 | the id is tagged `TheoryId` and the organisation id is kept |
| NewReservations.DefaultLanguageAndOsk | info-car-api/src/types/reservation/new.rs:96-104 | language `POLISH`, no vehicle reservation, sign language `NONE` |
| NewReservations.New | info-car-api/src/types/reservation/new.rs:114-126 | the three parts are stored unchanged |
| NewReservations.RoundTrip | info-car-api/src/types/reservation/new.rs:106-112 | a reservation request survives encoding and decoding |
| NewReservations.CandidateRoundTrip | info-car-api/src/types/reservation/new.rs:24-35 | a candidate survives encoding and decoding, with its profile flattened |
| NewReservations.ExamRoundTrip | info-car-api/src/types/reservation/new.rs:63-70 | an exam survives encoding and decoding, with its id flattened |
| NewReservations.LanguageAndOskRoundTrip | info-car-api/src/types/reservation/new.rs:88-94 | the language settings survive encoding and decoding |
| NewReservations.PracticeExamKeys | info-car-api/src/types/reservation/new.rs:56-69 | a practice exam serialises with exactly the keys `organizationUnitId` and `practiceId` |
| NewReservations.TheoryExamKeys | info-car-api/src/types/reservation/new.rs:56-69 | a theory exam serialises with exactly the keys `organizationUnitId` and `theoryId` |
| NewReservations.CandidateKeys | info-car-api/src/types/reservation/new.rs:9-35 | a candidate serialises with its six fields and one flattened key, `pkz` or `pkk` |
| NewReservations.OrganizationUnitIdFromString | info-car-api/src/types/reservation/new.rs:66-67 | the organisation id also decodes from its decimal text |
| CrateNewReservations.NewFromUserInfo | crates/info-car-api/src/client/reservation/new.rs:26-43 | the same field mapping, with category B |
| CrateNewReservations.NewPracticeExam | crates/info-car-api/src/client/reservation/new.rs:61-73 | the id is tagged `PracticeExam` and the organisation id text is kept |
| CrateNewReservations.NewTheoryExam | crates/info-car-api/src/client/reservation/new.rs:61-73 | the id is tagged `TheoryExam` and the organisation id text is kept |
| CrateNewReservations.DefaultLanguageAndOsk | crates/info-car-api/src/client/reservation/new.rs:84-92 | language `POLISH`, no vehicle reservation, sign language `NONE` |
| CrateNewReservations.New | crates/info-car-api/src/client/reservation/new.rs:102-114 | the three parts are stored unchanged |
| CrateNewReservations.ExamRoundTrip | crates/info-car-api/src/client/reservation/new.rs:45-74 | an exam survives encoding and decoding |
| CrateNewReservations.PracticeExamKeys | crates/info-car-api/src/client/reservation/new.rs:45-58 | a practice exam serialises with the keys `organizationUnitId` and `practiceExam`, never `practiceId` |
| CrateNewReservations.TheoryExamKeys | crates/info-car-api/src/client/reservation/new.rs:45-58 | a theory exam serialises with the keys `organizationUnitId` and `theoryExam` |
| TimeDelta.TDiv | src/utils.rs:13 | division truncating toward zero keeps the sign of the dividend |
| TimeDelta.TRem | src/utils.rs:14-16 | Rust's `%`: the remainder lies strictly between -b and b, has the dividend's sign, and recomposes with the truncated quotient |
| TimeDelta.ComponentsOf | easycar/src/utils.rs:20-24 | hours in (-24, 24), minutes and seconds in (-60, 60); all components non-negative for a non-negative duration and non-positive for a negative one |
| TimeDelta.NestedTruncation | easycar/src/utils.rs:21-24 | whole hours of whole minutes are whole hours, and whole days of whole hours are whole days |
| TimeDelta.Recompose | src/utils.rs:13-16 | days·86400 + hours·3600 + minutes·60 + seconds is the duration in seconds, of either sign |
| TimeDelta.OddSymmetry | easycar/src/utils.rs:21-24 | negating the duration negates every component |
| TimeDelta.ParseReadableRoundTrip | easycar/src/utils.rs:25 | the text `<d> days, <h> hours, <m> minutes, <s> seconds` reads back as the four components |
| TimeDelta.ReadableInjective | src/utils.rs:17 | distinct durations give distinct texts |
| ReadableDate.ReadableDateFromString | easycar/src/utils.rs:14-18 | an unparseable timestamp is returned unchanged; a parsed one is rendered |
| ReadableDate.TimestampRoundTrip | easycar/src/utils.rs:15 | every valid date and time formatted as `%Y-%m-%dT%H:%M:%S` parses back to itself |
| ReadableDate.ParsedIsCanonical | easycar/src/utils.rs:15 | whatever parses is the canonical formatting of what it parses to |
| ReadableDate.UnchangedIffUnparsed | easycar/src/utils.rs:12-17 | the output equals the input exactly when the input does not parse, since a rendering never looks like a timestamp |
| ReadableDate.SecondsDropped | easycar/src/utils.rs:16 | the rendering ignores the seconds |
| ReadableDate.RenderInjectiveUpToSeconds | easycar/src/utils.rs:16 | two renderings agree only for times equal up to their seconds |
| ReadableDate.SpacePad2Injective | easycar/src/utils.rs:16 | the space-padded day `%e` is injective |
| ReadableDate.Example | easycar/src/utils.rs:14-16 | `2024-03-05T09:30:15` renders as `<u><b>09:30</b></u> 5-03-2024` |
| ReadableDate.ImpossibleDateUnchanged | easycar/src/utils.rs:15-17 | `2023-02-29T10:00:00` is not a date and is returned unchanged |
| Commands.Words | easycar/src/service/mod.rs:173 | every token is non-empty and holds no Unicode white space |
| Commands.NextWord | easycar/src/service/mod.rs:173-182 | one `next()` of `split_whitespace`: the first remaining token, and a position after which exactly the other tokens remain |
| Commands.ParsePay | easycar/src/service/mod.rs:172-182 | no token gives `TooFewArguments(2, 0)`, one gives `TooFewArguments(2, 1)`, more give the first two as reservation id and BLIK code |
| Commands.WordsOfJoin | easycar/src/service/mod.rs:173 | splitting space-joined tokens gives back the tokens |
| Commands.TooFewArgumentsTextInjective | easycar/src/service/mod.rs:71-72 | different expected or received counts give different messages |
| Commands.PayOfTwoWords | easycar/src/service/mod.rs:173-182 | `id code` splits into exactly those two tokens |
| Commands.NoArgumentsText | easycar/src/service/mod.rs:71-72 | `TooFewArguments(2, 0)` renders `Too few arguments! Expected: 2, got 0!` |
| Commands.Reason | easycar/src/service/mod.rs:158 | the status message, or `None` when absent |
| Commands.ReasonAmbiguous | easycar/src/service/mod.rs:158 | an absent message and the message `None` show the same reason |
| Commands.ReservationDate | easycar/src/service/mod.rs:131-136 | the practice date if present, else the theory date; with neither, the `unwrap` panics |
| Commands.ListingDefinedIff | easycar/src/service/mod.rs:124-141 | the listing is produced exactly when every reservation has a date |
| Commands.ListReservations | easycar/src/service/mod.rs:121-143 | the fold into a string computes the listing, or panics at the first reservation without a date |
| Commands.ListingAppend | easycar/src/service/mod.rs:124-141 | the listing of two lists is the concatenation of their listings |
| Commands.RoutingCoversSpinnerArms | easycar/src/service/mod.rs:196-235 | a command goes to the spinner handler exactly when that handler has an arm for it; `Help`, `Uptime`, `ChatId` and `Exam` never reach `unreachable!()` |
| ApiClient.LoginForm | crates/info-car-api/src/client/mod.rs:75-80 | four fields: username first, password third |
| ApiClient.CsrfSentTwice | crates/info-car-api/src/client/mod.rs:75-80 | `_csrf` appears exactly twice, both times with the same token |
| ApiClient.ExamScheduleBody | crates/info-car-api/src/client/mod.rs:130-134 | exactly the keys `category`, `endDate`, `startDate` and `wordId`, with the category's display name |
| ApiClient.Checked | crates/info-car-api/src/client/mod.rs:110 | a response is handed on exactly when the classifier passes it, and then unchanged; a rejected response fails with the classifier's JWT error; it panics exactly when the classifier panics |
| ApiClient.InfoCarClient.constructor | crates/info-car-api/src/client/mod.rs:47-52 | a new client has no token |
| ApiClient.InfoCarClient.SetToken | crates/info-car-api/src/client/mod.rs:54-56 | the token becomes the given one |
| ApiClient.InfoCarClient.Login | crates/info-car-api/src/client/mod.rs:68-90 | the token is not touched; without a CSRF token nothing is sent |
| ApiClient.InfoCarClient.Authorized | crates/info-car-api/src/client/mod.rs:103-111 | without a token nothing is sent and the call fails with `NoBearer`; with one the request carries it |
| ApiClient.InfoCarClient.UserInfo | crates/info-car-api/src/client/mod.rs:92-101 | a GET to the user-info URL, guarded, its answer not classified |
| ApiClient.InfoCarClient.MyReservations | crates/info-car-api/src/client/mod.rs:103-111 | a GET to the reservations URL, guarded and classified |
| ApiClient.InfoCarClient.WordCenters | crates/info-car-api/src/client/mod.rs:113-121 | a GET to the exam-centre URL, guarded and classified |
| ApiClient.InfoCarClient.ExamSchedule | crates/info-car-api/src/client/mod.rs:123-144 | a PUT of the schedule body, guarded and classified |
| ApiClient.FreshClientRefuses | crates/info-car-api/src/client/mod.rs:47-56 | a new client refuses with `NoBearer`, and after `set_token` the request carries the token |
| ApiClient.SentBearerIsToken | crates/info-car-api/src/client/mod.rs:139 | whatever is sent carries exactly the stored token |
| ApiClient.CheckedUnauthorized | crates/info-car-api/src/client/mod.rs:143 | a 401 with three or more pieces fails with the JWT error of the first three |
| InfoCarClients.LoginOf | src/client.rs:83-91 | a failed login returns its error; a successful one returns the expiry, or panics when none is set |
| InfoCarClients.RefreshOf | src/client.rs:93-102 | a successful refresh returns its expiry, or panics when none is set |
| InfoCarClients.RefreshFallsBackToLogin | src/client.rs:94-95 | a failed refresh returns exactly what `login` returns |
| InfoCarClients.RefreshSuccessIgnoresLogin | src/client.rs:96-101 | after a successful refresh the login is never consulted |
| InfoCarClients.RefreshErrorsOnlyIfBothFail | src/client.rs:93-102 | `refresh_token` returns an error exactly when both the refresh and the login fail |
| InfoCarClients.NearestExams | src/client.rs:104-116 | a client error passes through; `NoExamsError` exactly when n is 0 or there is no practice exam; otherwise 1 to n exams in schedule order |
| InfoCarClients.NearestOneIsFirst | src/client.rs:115 | asking for one exam gives the schedule's first practice exam |
| InfoCarClients.InfoCarClient.constructor | src/client.rs:71-80 | the user data, candidate and expiry are stored as given |
| InfoCarClients.InfoCarClient.Login | src/client.rs:83-91 | the result, and the expiry left behind by the inner login |
| InfoCarClients.InfoCarClient.RefreshToken | src/client.rs:93-102 | the result, and the expiry left behind by the refresh or by the fallback login |
| InfoCarClients.InfoCarClient.EnrollRequest | src/client.rs:122-129 | a practice exam at the preferred centre with the given id, the stored candidate, and the default language settings |
| InfoCarClients.New | src/client.rs:60-81 | a failed login ends construction before the user info is requested; otherwise the candidate is built from the user info |
| ExamDedup.Initial | src/service.rs:202 | no exam is remembered at first |
| ExamDedup.Nearest | src/service.rs:252-253 | the first practice exam of the schedule, or none |
| ExamDedup.Observe | src/service.rs:252-268 | the remembered id becomes the nearest exam's id; an exam is announced exactly when its id differs from the remembered one; announcements are only appended |
| ExamDedup.ObserveIdempotent | src/service.rs:252-268 | observing the same exam twice announces it at most once |
| ExamDedup.InitialConsistent | src/service.rs:202 | the initial memory is consistent |
| ExamDedup.ObservePreservesConsistent | src/service.rs:252-268 | consistency is kept: the last announcement carries the remembered id, the first has a non-empty id, and no two consecutive announcements share an id |
| ServiceLoop.Step | src/service.rs:219-299 | only a refresh changes the expiry or reports it, only a poll changes the dedup memory, only `GetSchedule` talks to the bot, and it panics exactly on a refresh that leaves no expiry to report |
| ServiceLoop.ScheduleErrorChangesNothing | src/service.rs:271-273 | a failed schedule request changes nothing |
| ServiceLoop.RefreshReportsExpiry | src/service.rs:222-238 | a refresh reports the new expiry; when refresh and login both fail, the previous expiry is reported again, or the worker panics when there is none |
| ServiceLoop.SecondPollQuiet | src/service.rs:252-268 | the same schedule polled twice in a row changes nothing the second time |
| ServiceLoop.PanicIsFinal | src/service.rs:219-220 | once the worker has panicked, no later message is handled |
| ServiceLoop.RunKeepsDedupConsistent | src/service.rs:240-275 | after any run of messages the dedup memory is still consistent |
| ServiceLoop.Started | src/service.rs:202-217 | a failed login is returned as the error; otherwise the expiry is reported first, with empty memory |
| ServiceLoop.WorkerAnnouncesChangesOnly | src/service.rs:195-301 | a running worker never announces the same id twice in a row |
| ServiceLoop.Handle | src/service.rs:220-299 | the loop body computes one step, using the nested-loop scan |
| ServiceLoop.InfoCarWorker | src/service.rs:195-301 | the worker's loop computes the whole run |
| EarliestWorker.Step | src/main.rs:203-260 | `GetAvailableExams` panics; no message sends anything to a bot |
| EarliestWorker.AgreesWithServiceRevision | src/main.rs:205-258 | without `GetAvailableExams`, the earliest worker goes through exactly the states of the src/service.rs worker |
| EarliestWorker.UnimplementedMessagePanics | src/main.rs:259 | a run that receives `GetAvailableExams` panics |
| EarliestWorker.RunPanicIsFinal | src/main.rs:202-203 | once the worker has panicked, no later message is handled |
| EarliestWorker.InfoCarWorker | src/main.rs:180-262 | the worker's loop computes the whole run |
| ServiceWorkers.Step | src/service/workers.rs:141-227 | an error leaves the state unchanged; only a refresh changes or reports the expiry; only a poll changes the dedup memory; only a refresh can panic |
| ServiceWorkers.PopOfOneIsNearest | src/service/workers.rs:175-178 | popping the one exam asked for gives the schedule's nearest exam |
| ServiceWorkers.NoExamsLeavesIdUnchanged | src/service/workers.rs:175-178 | no practice exam gives `NoExamsError` and changes nothing |
| ServiceWorkers.NearestExamAnnouncedOnChange | src/service/workers.rs:180-194 | the remembered id becomes the nearest exam's, and the exam is announced exactly when its id differs |
| ServiceWorkers.SecondPollQuiet | src/service/workers.rs:180-185 | the same schedule polled twice in a row changes nothing the second time |
| ServiceWorkers.RefreshFallsBackToLogin | src/service/workers.rs:143-162 | a failed refresh falls back to login; if that fails too, its error propagates and no expiry is sent |
| ServiceWorkers.ScheduleAtMostFive | src/service/workers.rs:196-214 | the bot receives none, or between one and five exams, the first of the schedule |
| ServiceWorkers.Run | src/service/workers.rs:134-138 | no more errors are printed than messages were handled |
| ServiceWorkers.RunPrintsEachError | src/service/workers.rs:134-138 | an error a handler returns is appended to the output, the loop goes on, and the state is the handler's |
| ServiceWorkers.PrintedOnlyGrows | src/service/workers.rs:134-138 | later messages only add to what has been printed |
| ServiceWorkers.OnlyRefreshCanStop | src/service/workers.rs:134-138 | without refresh messages the loop never panics and the expiry is never changed |
| ServiceWorkers.RunKeepsDedupConsistent | src/service/workers.rs:164-195 | after any run of messages the dedup memory is still consistent |
| ServiceWorkers.RunPanicIsFinal | src/service/workers.rs:134-138 | once the loop has panicked, later messages change nothing |
| ServiceWorkers.InfoCarService.constructor | src/service/workers.rs:110-118 | `last_exam_id` starts empty, with no token and nothing sent |
| ServiceWorkers.InfoCarService.HandleMessage | src/service/workers.rs:141-227 | one message on the service's fields follows the step |
| ServiceWorkers.InfoCarService.Start | src/service/workers.rs:121-139 | a login error is returned; an unset expiry panics; otherwise the expiry is reported and the messages are handled until a panic, with their errors printed |

## Left out

- Telegram messaging, the logger and the spinner are not modelled. These are the text of
  notifications, the uptime and chat-id answers, and the exam listing with its
  Warsaw-time day count. Only whether an exam is announced is modelled.
- HTTP transport, the CSRF scraping and the OAuth login flow are not modelled. Responses
  and login outcomes are parameters.
- The `Client::login` and `refresh_token` of the revision that `src/` uses are not part
  of this model.
  - Their success is taken to leave the reported expiry in `token_expire_date`.
  - Their failure is taken to leave it unchanged.
- Reservation types: `src/client.rs` builds reservations with a revision of them that is
  not part of this model. Its enrolment request is modelled with the older revision,
  whose organisation id is a string.
- `get_reservations`, `status`, `cancel`, `pay` and `new_reservation` of `src/client.rs`
  are plain forwards to the unseen client and are not modelled.
- `date_from_string` is not modelled. It uses time zones, and a malformed exam date
  makes it panic. Every announced exam is taken to have a parseable date.
- Concurrency is not modelled: tasks, channels, the mutex and the sleeps.
  - Each worker is a step function with `now` as a parameter.
  - A loop's messages are a finite sequence.
- Floating point is not modelled: the paid amount of `/pay`.
- `TimeDelta.ComponentsOf`: durations are whole seconds; the sub-second part of a
  `chrono` duration is not modelled.
- `ReadableDate.ParseTimestamp`: only the zero-padded 19-character form of
  `%Y-%m-%dT%H:%M:%S` is accepted. `chrono` also accepts some narrower or wider numeric
  fields, which are not modelled.
- `NewReservations.DecodeProfile`: an object with both `pkz` and `pkk` is rejected.
  Which one serde would pick is not modelled.
- `NewReservations.DecodeOrganizationUnitId`: a decimal string with a leading `+`, which
  Rust's `u32` parser accepts, is not modelled.
- `LicenseCategories.Decode` stands for serde's unit-variant decoding by name. The JSON
  string layer around it is not modelled.
- `EasycarWorkers.SessionWorker.Tick` implements the corrected retry of the finding
  below; `EasycarWorkers.SessionWorker.TickAsWritten` is the cycle as written.

## Findings

| source | as written | input that shows it | evidently intended | confidence | as-written member | corrected member |
|---|---|---|---|---|---|---|
| easycar/src/service/workers.rs:42-47 | after a failed refresh, `expire_date` becomes `now + 15 s`, so the next cycle computes `expire_date - now - 5 min` ≤ -285 s and the `u64` conversion at lines 33-38 panics | any refresh that fails, e.g. at t = 1000: the next expiry is 1015 and the next sleep is 1015 - 1000 - 300 = -285 | retry the refresh 15 s after the failure, as the log message at line 45 says | high; not executed | EasycarWorkers.FailedRefreshPanicsNext | EasycarWorkers.FailedRefreshRetried |
