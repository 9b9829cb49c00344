# Job lifecycle and user service of go-echo-sample, in Dafny

This project models the core of a Go sample service (Echo, OpenAPI validation, SQLite). Each component is a pure function over immutable data. Each one has contracts and lemmas that state what the code promises:

- **Job queue** (`JobStore`, `JobQueue`). The `job_queue` table is a map from id to row; nullable columns are `Option`s and the schema supplies the defaults. The service calls are `EnqueueJob`, `GetNextJob` (the claim), `CompleteJob`, `FailJob` with and without retry, `GetJobStats` and `ListJobs`. Each call except `GetJobStats` and `ListJobs` returns three things: the table afterwards, the queries it issued in order, and the Go `(value, error)` pair as a `Result`. `GetJobStats` and `ListJobs` take the query's answer as input and return only the `Result`. The generated query package is not part of this model, so the table's reaction to each query is stated as the store's contract:
  - the insert fills the unnamed columns from the schema defaults;
  - a status update keeps `started_at` when given NULL, and writes `completed_at` and `error_message` as given;
  - an update of a missing id fails with `sql.ErrNoRows`;
  - the claim picks, among the ids the hidden eligibility filter admits, the first one ranked best by priority descending (NULL last) and then `scheduled_at` ascending (NULL first), which is SQLite's NULL ordering.
- **Worker** (`Worker`). `processNextJob` is one decision function from these inputs to exactly one outcome, complete or fail with a message and a retry flag:
  - whether the payload decodes;
  - whether the job type is registered;
  - the processor's error;
  - the nullable retry counters.

  The worker loop is a state machine over the in-flight counter. Its invariant is that every dispatched job has delivered exactly one outcome or is still in flight. `Start` returns only once nothing is in flight.
- **Users and their job** (`Database`, `Users`). The `users` table enforces the UNIQUE email and `age >= 0` constraints. `CreateUser` maps the optional fields (`is_active` defaults to true) and encodes the additional properties only when there are any. It then enqueues a `user_created` job with priority 1, and an enqueue failure never fails the user's creation. `GetUserByID` and the row-to-user conversion are also modelled.
- **HTTP handlers** (`MemoryStore`, `DbHandlers`, `Http`).
  - The in-memory store is written three times in the repository (internal/handlers/handlers.go, cmd/server/main.go, main.go) with the same logic. It is modelled once: a map plus an `int64` id counter that starts at 1 and wraps at the top of the range.
  - The database-backed handlers share one additional-property filter, which removes the five known keys. The code has two forms of it: five `delete` calls, and a copying loop. Both are proved equal to the filter.
  - Also modelled: how the handlers map errors to 400, 404 or 500; the GET route's `int64` id parsing; and the validation mode's choice of specification file.
- **Validation middleware** (`Validation`, `Text`). `Validate` passes unrouted requests through. `handleValidationError` picks a message prefix by error kind. `formatErrorMessage` is modelled on `strings.ReplaceAll` and `strings.Contains`. Its ordering-dependent consequences are proved. After the first four rewrites, a schema-mismatch message always mentions "required" and "format". The final answer is then either the fixed email message, when that text mentions "email", or the text with "property" turned into "field". Any text mentioning both "format" and "email" collapses to that one fixed message. A security failure's message passes through unchanged.
- **Command-line tool** (`Manager`). It models:
  - argument dispatch, with the database path default "users.db", and the defaults "pending" with limit 20 for `list` and "completed" for `clear`;
  - the job-type switch, and priority parsing with `strconv.Atoi` (`Numbers`);
  - payload construction for each job type;
  - the statistics total, which equals the number of jobs when every status is known;
  - the list display's reading of NULL columns as 0;
  - `clear`, which never deletes.

The clock is an `int` parameter `now`. JSON encoding and decoding, Echo's binding, kin-openapi's route lookup and validation, and every database fault are inputs to the functions that use them. The claim in `GetNextJob` is a select followed by a separate update, with no transaction, and `FailJob` with retry only passes the id and message to the retry query. The model follows that code. It does not assume an atomic claim or a backoff rule, because the code shows neither.

## Model

| member | source | states |
|---|---|---|
| `Text.ReplaceAll` | pkg/validation/validator.go:94-96 | `strings.ReplaceAll` with a non-empty pattern: an absent pattern leaves the text unchanged, and a present one leaves the replacement in the result. |
| `Validation.ErrorPrefix` | pkg/validation/validator.go:71-84 | The message chosen for each error kind: a parameter error with its name, a request-body error, any other request error, a security error, or the raw text of any other error. There is no message (a panic) exactly for a request error whose inner error is nil. |
| `Validation.NilInnerErrorRecovered` | pkg/validation/validator.go:72-78 | A routed request whose request error wraps a nil inner error is answered with the recovered 500, whatever parameter or body it names. |
| `Validation.HandleValidationError` | pkg/validation/validator.go:68-91 | Status 400, with a single "error" entry holding the formatted prefix message, for every error except a request error with a nil inner error. That one panics in `Error()`, and `middleware.Recover` (main.go:75) answers Echo's 500. |
| `Validation.Validate` | pkg/validation/validator.go:42-66 | A request with no matching route goes to the next handler. A routed request is rejected exactly when validation reports an error, and the rejection is that error's 400 response. |
| `Validation.Rewrite` | pkg/validation/validator.go:94-100 | The first four steps of `formatErrorMessage`. It has no contract of its own; its properties are stated by `MinimumGuardRedundant`, the three `…KeepsRequiredAndFormat` rows and `SchemaMismatchOutcome`. |
| `Validation.Conclude` | pkg/validation/validator.go:102-108 | The last two steps of `formatErrorMessage`. It has no contract of its own; `EmailCollapse` and `PropertyKeptWithoutRequired` state what it does. |
| `Validation.FormatErrorMessage` | pkg/validation/validator.go:93-111 | `Rewrite` then `Conclude`. It has no contract of its own; its properties are stated by `UntouchedMessage`, `SchemaMismatchOutcome`, `SecurityErrorAnswer` and `SchemaMismatchAnswer`. |
| `Validation.EmailCollapse` | pkg/validation/validator.go:102-108 | When the text after the first four rewrites contains both "format" and "email", the result is exactly "Email address format is invalid"; the later "property" rewrite cannot change it. |
| `Validation.EmailInvalidFacts` | pkg/validation/validator.go:103-106 | The fixed email message contains "format" and does not contain "required". |
| `Validation.UntouchedMessage` | pkg/validation/validator.go:93-110 | A message containing none of "doesn't match schema", "Error at", "Property", "minimum" and "required", and not both "format" and "email", is returned unchanged. |
| `Validation.MinimumGuardRedundant` | pkg/validation/validator.go:98-100 | The containment guard on "minimum" makes no difference: the text is the same as with an unconditional replacement. |
| `Validation.RewriteKeepsRequiredAndFormat` | pkg/validation/validator.go:95 | Replacing "Error at" keeps any "required" and "format" already in the text. |
| `Validation.PropertyKeepsRequiredAndFormat` | pkg/validation/validator.go:96 | Replacing "Property" keeps any "required" and "format" already in the text. |
| `Validation.MinimumKeepsRequiredAndFormat` | pkg/validation/validator.go:99 | Replacing "minimum" keeps any "required" and "format" already in the text. |
| `Validation.SchemaMismatchOutcome` | pkg/validation/validator.go:94-108 | A "doesn't match schema" message is rewritten to text containing "required" and "format". It therefore collapses to the email message when it mentions "email", and otherwise gets the property-to-field rewrite. |
| `Validation.PropertyKeptWithoutRequired` | pkg/validation/validator.go:106-108 | Lowercase "property" survives the last steps when the text after the first four rewrites lacks "required" and does not collapse to the email message. |
| `Validation.SecurityMessageLacksTriggers` | pkg/validation/validator.go:81 | The security message contains none of "doesn't match schema", "Error at", "Property", "minimum", "required" and "format". |
| `Validation.SecurityErrorAnswer` | pkg/validation/validator.go:80-90 | A routed request failing its security requirements is rejected with 400 and exactly "Security requirements not met". |
| `Validation.SchemaMismatchAnswer` | pkg/validation/validator.go:71-108 | A request error whose inner text reports a schema mismatch is rejected with 400. The body is the fixed email message when the rewritten text mentions "email", and otherwise the rewritten text with "property" turned into "field". |
| `Numbers.ParseInt64` | main-variants.go:120 | Base-10 parsing into 64 bits succeeds exactly on an optional sign followed by digits whose value fits in 64 bits, and yields that value. |
| `Numbers.ParseFormat` | main-variants.go:119-126 | Every 64-bit integer parses back from its decimal text. |
| `JobStore.DefaultRow` | pkg/database/database.go:62-75 | A new row with only the NOT NULL columns given has status 'pending', priority 0, max_retries 3, retry_count 0, scheduled_at and created_at set to now, and no error, start or completion time. |
| `JobStore.Insert` | pkg/jobs/job-queue.go:51-57 | The insert stores the type, payload, priority, max_retries and scheduled_at it is given. The other columns take the defaults. The new id is the AUTOINCREMENT value, fresh and positive in a valid table. No other row changes. |
| `JobStore.UpdateStatus` | pkg/jobs/job-queue.go:75-81 | It fails exactly on an id with no row. Otherwise it sets the status, completed_at and error_message as given, keeps started_at when given NULL, and leaves every other column and row unchanged. |
| `JobStore.Precedes` | pkg/database/database.go:82 | The claim order: higher priority first with NULL last, then earlier scheduled_at with NULL first. It has no contract of its own; `PrecedesIsStrictWeakOrder` and `SelectNext` state what it guarantees. |
| `JobStore.PrecedesIsStrictWeakOrder` | pkg/database/database.go:82 | The claim order is a strict weak order: irreflexive, asymmetric and transitive, and incomparability is transitive too. |
| `JobStore.SelectNext` | pkg/jobs/job-queue.go:66 | No job exactly when no eligible id has a row. Otherwise the result is an eligible row that no other eligible row precedes. |
| `JobQueue.TypeName` | pkg/jobs/job-queue.go:17-22 | The stored string of each job type. It has no contract of its own; `TypeNameInjective`, `Manager.ParseJobTypeExactly` and `Worker.RegistryCoversAllButDataExport` state its properties. |
| `JobQueue.TypeNameInjective` | pkg/jobs/job-queue.go:15-22 | The four job types are stored as four distinct strings. |
| `JobQueue.ExecUpdate` | pkg/jobs/job-queue.go:91-98 | A database fault is returned as is. A missing id is `sql.ErrNoRows`. Otherwise the result is the table's status update. A failure leaves the table unchanged. |
| `JobQueue.EnqueueJob` | pkg/jobs/job-queue.go:45-63 | An encoding failure returns "failed to marshal payload: …", issues no query and inserts nothing. Otherwise exactly one insert is issued, with the type, the priority, max_retries 3 and scheduled_at now. A fault yields "failed to create job: …". Success returns a pending job with a fresh non-zero id and retry_count 0. |
| `JobQueue.GetNextJob` | pkg/jobs/job-queue.go:65-88 | A select fault yields "failed to get next job: …". No selectable row yields no job and no error. Otherwise the best-ranked eligible row is set to processing, with started_at now and completed_at and error_message cleared. The returned record is the selected row reading "processing". An update fault yields "failed to update job status: …" and no job. |
| `JobQueue.CompleteJob` | pkg/jobs/job-queue.go:90-99 | It issues one status update. On success the row is "completed", with completed_at now, no error message and started_at unchanged. On failure nothing changes. |
| `JobQueue.FailJob` | pkg/jobs/job-queue.go:101-118 | With retry, the only query is the retry increment with the id and message; the status is never set to "failed" and completed_at is never set. Without retry, the row becomes "failed" with the message, completed_at now and started_at unchanged. |
| `JobQueue.GetJobStats` | pkg/jobs/job-queue.go:120-126 | The query's answer is returned as is, and its error is wrapped as "failed to get job stats: …". |
| `JobQueue.ListJobs` | pkg/jobs/job-queue.go:128-137 | The query's answer is returned as is, and its error is wrapped as "failed to list jobs: …". |
| `JobQueue.EnqueueClaimComplete` | pkg/jobs/job-queue.go:45-99 | An enqueued job that is claimed and then completed ends "completed", with its claim time as started_at, its completion time, no error, and its original type, payload, priority and retry count. |
| `JobQueue.EnqueueClaimFail` | pkg/jobs/job-queue.go:101-117 | An enqueued job that is claimed and then failed without retry ends "failed", with the message, its completion time and its claim time as started_at. |
| `Worker.RegistryCoversAllButDataExport` | cmd/worker/main.go:124-128 | A job type has a processor exactly when it is not `data_export`. |
| `Worker.ShouldRetry` | cmd/worker/main.go:186-194 | A NULL retry count or maximum reads as 0, and the job is retried exactly when the count is below the maximum. |
| `Worker.NullMaxNeverRetries` | cmd/worker/main.go:191-194 | A NULL max_retries never retries a job whose count is not negative. |
| `Worker.ProcessJob` | cmd/worker/main.go:166-199 | An undecodable payload gives fail("Failed to parse payload: …", no retry) and no processor runs. An unregistered type gives fail("No processor for job type: …", no retry). A processor error gives fail with that error and the retry decision. Success gives complete. The outcome always names the job. |
| `Worker.CompletesIffProcessorSucceeds` | cmd/worker/main.go:183-199 | A job completes exactly when its payload decodes, its processor is registered and the processor succeeds. |
| `Worker.RetryOnlyAfterProcessorError` | cmd/worker/main.go:183-195 | A retry is requested only after a processor ran and failed, with the count below the maximum. |
| `Worker.DataExportFailsPermanently` | cmd/worker/main.go:174-180 | A `data_export` job never reaches a processor and always fails without retry. |
| `Worker.OutcomeQuery` | cmd/worker/main.go:183-198 | The one query an outcome becomes: a completion update, a permanent-failure update, or the retry increment. It has no contract of its own; `ApplyOutcome` and `OneCallPerJob` state its properties. |
| `Worker.ApplyOutcome` | cmd/worker/main.go:170-198 | An outcome becomes exactly one call: `CompleteJob` for complete, `FailJob` with the flag for fail. |
| `Worker.OneCallPerJob` | cmd/worker/main.go:166-199 | Every dispatched job leads to exactly one query about that job. It is the retry increment exactly when the outcome is a failure with retry. |
| `Worker.Next` | cmd/worker/main.go:135-205 | One step of the worker: a tick and its claim, the closing of the stop channel, the select taking the stop case, a goroutine finishing, or `Wait` returning. It has no contract of its own; `NextKeepsInv`, `IdleTickChangesNothing`, `ClaimRaisesCounter`, `ReturnNeedsDrained` and `DrainingStops` state its properties. |
| `Worker.InitialInv` | cmd/worker/main.go:111-118 | A new worker has no job in flight and a zero counter, and the invariant holds. |
| `Worker.NextKeepsInv` | cmd/worker/main.go:135-163 | Every event keeps the invariant: the counter equals the number of running jobs, every dispatched id has one delivered outcome or is in flight, and a stopped worker has nothing in flight. |
| `Worker.ClaimKeepsInv` | cmd/worker/main.go:155-162 | A claimed job joins the in-flight jobs and the dispatched ids together, with the counter raised by one, so the invariant is kept. |
| `Worker.FinishKeepsInv` | cmd/worker/main.go:161-199 | A finishing goroutine removes its job from the in-flight jobs, delivers one outcome for that job's id and lowers the counter, so the invariant is kept. |
| `Worker.IdleTickChangesNothing` | cmd/worker/main.go:149-158 | When `GetNextJob` errors or returns no job, nothing is dispatched and the state, the counter included, is unchanged. |
| `Worker.ClaimRaisesCounter` | cmd/worker/main.go:160-162 | A claimed job raises the counter by one and joins the in-flight jobs before its goroutine runs. |
| `Worker.RunKeepsInv` | cmd/worker/main.go:135-200 | After any run of events the invariant holds. A stopped worker has counter zero and has delivered exactly one outcome for each dispatched job. |
| `Worker.ReturnNeedsDrained` | cmd/worker/main.go:137-141 | `Start` can return only when no job is in flight. |
| `Worker.DrainingStops` | cmd/worker/main.go:139-141 | A worker waiting after the stop signal always stops once its in-flight jobs finish, whatever their results, and then has an outcome for every dispatched job. |
| `Worker.WorkerDbPath` | cmd/worker/main.go:208-211 | The worker binary's database is its first argument when that is present and not empty, else "workers.db". |
| `Database.InsertUser` | pkg/database/database.go:50-60 | A negative age fails the CHECK constraint. An email already stored fails the UNIQUE constraint. Otherwise the row is stored under the AUTOINCREMENT id, and uniqueness and the age bound are kept. |
| `Database.SecondSameEmailRejected` | pkg/database/database.go:52 | A second user with an email already inserted is rejected. |
| `Database.ParamsFor` | pkg/database/database.go:101-114 | Name and bio are stored only when given, and is_active is true unless the request gives it. |
| `Database.ToUser` | pkg/database/database.go:168-186 | The conversion copies id, email and age, sets name and bio only from non-NULL columns, and always sets is_active. |
| `Database.UserCreatedPayload` | pkg/database/database.go:134-145 | The job payload carries the user's id, user data with exactly the six fields (nil pointers as JSON null), and the additional properties as given. |
| `Database.CreateUser` | pkg/database/database.go:91-154 | Properties are encoded only when there are any; an encoding failure is "failed to marshal additional properties: …". An insert failure is "failed to create user: …" with nothing enqueued. After a successful insert the converted user is returned, and the `user_created` enqueue is attempted with priority 1. The enqueue's failure does not affect the result. |
| `Database.GetUserByID` | pkg/database/database.go:156-166 | A missing id gives exactly "user not found". A fault gives "failed to get user: …". A stored row gives its conversion. |
| `Database.CreateThenGet` | pkg/database/database.go:116-165 | A created user reads back unchanged, with the request's fields and is_active defaulted to true. |
| `Database.CreateEnqueuesUserCreated` | pkg/database/database.go:133-153 | After a successful insert, exactly one `user_created` insert is issued, with priority 1, three retries, the user's id and the given properties. It adds one job, or none when the enqueue fails. The database stays valid. |
| `MemoryStore.NewStore` | internal/handlers/handlers.go:18-23 | A new handler has no users and next id 1, as do cmd/server/main.go:21-26 and main.go:20-25. |
| `MemoryStore.Inc64` | internal/handlers/handlers.go:52 | The `int64` counter increment, wrapping from the largest value to the smallest. |
| `MemoryStore.UserFrom` | internal/handlers/handlers.go:34-49 | The stored user has the counter as its id, the request's email and age, and its name, bio and is_active exactly as given. |
| `MemoryStore.Create` | internal/handlers/handlers.go:26-55 | A bind failure gives 400 "Invalid JSON format" and the store and counter are unchanged. Otherwise the user is stored under the counter, the counter advances, every other entry is kept, and the answer is 201 with the user. |
| `MemoryStore.Get` | main.go:59-69 | A stored id gives 200 with the user; any other id gives 404 "User not found". |
| `MemoryStore.CreateKeepsValid` | cmd/server/main.go:54-55 | Below the top of the range, a create uses a fresh id and keeps every user under its own id below the counter. |
| `MemoryStore.CreateThenGet` | cmd/server/main.go:61-69 | A created user reads back as created. |
| `MemoryStore.CreateAllSequentialIds` | cmd/server/main.go:37-57 | Successive creates store request k under id start + k, advance the counter by the number of creates, and keep the earlier users. |
| `MemoryStore.FreshStoreIds` | main.go:20-56 | From a new store, the creates get ids 1, 2, 3, …, and the counter ends one past the last. |
| `DbHandlers.RemoveKnown` | cmd/server-variants/main.go:47-60 | The additional properties are exactly the raw-body entries whose key is not email, age, name, bio or is_active, with values unchanged. |
| `DbHandlers.RemoveKnownDropsKnown` | cmd/server-variants/main.go:55-60 | No known key is ever among the additional properties, and a body with only known keys yields an empty map. |
| `DbHandlers.DeleteKnown` | internal/handlers/handlers.go:92-97 | The five `delete` calls. It has no contract of its own; `DeleteKnownIsRemoveKnown` proves it equal to the filter. |
| `DbHandlers.DeleteKnownIsRemoveKnown` | internal/handlers/handlers.go:92-97 | The five `delete` calls leave exactly the known-field filter's result. |
| `DbHandlers.CollectAdditional` | main-variants.go:51-56 | The copying loop over the raw body yields exactly the known-field filter's result. |
| `DbHandlers.HandlerCreateUser` | internal/handlers/handlers.go:81-119 | A bind failure gives 400 "Invalid JSON format" and no call. Otherwise the database call gets the filtered raw body, or no properties when the second bind fails. A database error gives 500 with its text, and success gives 201. |
| `DbHandlers.HandlerGetUser` | internal/handlers/handlers.go:122-131 | Every lookup error gives 404 "User not found"; success gives 200. |
| `DbHandlers.HandlerMasksFaults` | internal/handlers/handlers.go:123-128 | Through this handler a database fault answers the same as a missing user. |
| `DbHandlers.VariantsCreateUser` | cmd/server-variants/main.go:31-70 | A bind failure gives 400 "Invalid JSON format" and a re-decode failure gives 400 "Invalid request format"; neither reaches the database. Otherwise the call gets the filtered body. A database error gives 500 "Failed to create user: …", and success gives 201. |
| `DbHandlers.VariantsGetUser` | cmd/server-variants/main.go:73-87 | Exactly the error text "user not found" gives 404, any other error gives 500 "Failed to get user: …", and success gives 200. |
| `DbHandlers.VariantsGetAgainstDatabase` | main-variants.go:68-82 | Against the database service, a missing id gives 404, a fault gives 500 with both prefixes, and a stored user gives 200 with its conversion. |
| `DbHandlers.GetRoute` | main-variants.go:118-127 | An id that does not parse as `int64` gives 400 "Invalid user ID format" and no lookup. A parsed id is looked up. |
| `DbHandlers.GetRouteAcceptsDecimalIds` | main-variants.go:120 | Every 64-bit id written in decimal reaches the lookup. |
| `DbHandlers.SpecFile` | cmd/server-variants/main.go:95-103 | "flexible" gives openapi-flexible.yaml, "strict" gives openapi-strict.yaml, and anything else gives openapi.yaml. |
| `DbHandlers.EnvOrDefault` | cmd/server-variants/main.go:126-129 | An unset or empty variable gives the default, and a set one its value. |
| `DbHandlers.DefaultConfiguration` | main-variants.go:133-146 | VALIDATION_MODE defaults to "default", which selects openapi.yaml; PORT defaults to "8080". The file is openapi.yaml exactly when the mode is neither special value. |
| `DbHandlers.VariantsStoreUnknownFields` | main-variants.go:51-62 | Through a variants handler, additional_data is NULL for a body of known fields only, and otherwise the encoding of exactly its unknown fields. |
| `Manager.Interpret` | cmd/worker-manager/main.go:15-58 | Fewer than two arguments give usage before the database is opened. The database path is args[2] when present, else "users.db". `list` defaults to "pending" with limit 20, `enqueue` takes type, message and the rest, `clear` defaults to "completed", and anything else is an unknown command. |
| `Manager.ErrorExitsExactly` | cmd/worker-manager/main.go:16-57 | The tool exits with an error before any queue operation exactly when there is no command, the command is unknown, or `enqueue` has fewer than five arguments. |
| `Manager.ParseJobType` | cmd/worker-manager/main.go:159-173 | A parsed job type is stored under the name it was parsed from. |
| `Manager.ParseJobTypeExactly` | cmd/worker-manager/main.go:160-172 | Exactly the four names user_created, data_analysis, email_notification and data_export parse, each to its own type. |
| `Manager.ParsePriority` | cmd/worker-manager/main.go:152-157 | The priority is the first extra argument when `strconv.Atoi` accepts it, else 0. |
| `Manager.PriorityRoundTrip` | cmd/worker-manager/main.go:153-156 | A priority written in decimal becomes the job's priority. |
| `Manager.BuildPayload` | cmd/worker-manager/main.go:175-195 | The payload always carries the message. `user_created` adds user id 999, the test user data and two additional properties, `email_notification` adds the two recipients, and the other types add nothing. |
| `Manager.EnqueueTestJob` | cmd/worker-manager/main.go:151-200 | An unknown type enqueues nothing and issues no query. Otherwise the built payload is enqueued with the parsed priority, and an enqueue error is fatal. |
| `Manager.Total` | cmd/worker-manager/main.go:92-93 | The sum of the four status counts. It has no contract of its own; `TotalCountsEveryJob` states what it equals. |
| `Manager.TotalCountsEveryJob` | cmd/worker-manager/main.go:92-93 | When every job has one of the four statuses, the displayed total is the number of jobs. |
| `Manager.DisplayLine` | cmd/worker-manager/main.go:110-127 | NULL priority, retry count and max retries display as 0, and the error line appears only for a non-empty message. |
| `Manager.DisplayShowsRetryDecision` | cmd/worker-manager/main.go:111-123 | The list reads NULL counters as 0, as the worker does, so a job shows fewer retries than its maximum exactly when the worker would retry it after a processor error. |
| `Manager.TestJobProcessing` | cmd/worker-manager/main.go:159-200 | A test job enqueued for any type but `data_export` reaches a processor and completes exactly when the processor succeeds. A `data_export` test job fails with "No processor for job type: data_export" and no retry. |
| `Manager.ClearJobsRun` | cmd/worker-manager/main.go:213-238 | Clearing never changes the table, whether the user confirms or not. A list error is fatal, no job means nothing found, and anything but "y" or "Y" cancels. |

## Left out

- The SQL of the generated `db` package is not part of this model. So are the queries' eligibility filter and what the retry-increment query does to status, retry_count and scheduled_at. No eligibility rule or backoff formula is asserted.
- `JobStore.SelectNext`: the claim picks among an `eligible` id sequence given as input, in scan order, because the claim query's filter lives in the generated query package, which is not part of this model.
- `JobQueue.FailJob`: on the retry path the table afterwards is the input `retried`, because the retry-increment query lives in the generated query package.
- `JobQueue.GetJobStats`: the counts are the query's answer given as input; `StatsOf` states what a faithful count would be, and `Manager.TotalCountsEveryJob` relates the two.
- `JobQueue.ExecUpdate`: the model assumes that an update of a missing id is `sql.ErrNoRows`, because the query's return mode is defined in the generated query package.
- Claim exclusivity across workers is not modelled. The claim is a select and then a separate update, not a transaction, so the code does not guarantee it.
- The following are left out, and only the in-flight counter abstraction is kept: goroutines, `sync.WaitGroup` waiting in `main`, tickers, OS signals, the 30-second stats printer, the random choice of `select` between ready cases, and `WORKER_COUNT` parsing with `Sscanf`. Finishing goroutines are events that may occur in any order.
- Processor bodies (sleeps and prints) are opaque: they enter as the error they return.
- `Worker.Next`: a `user_created` job whose payload has no `user_id` makes `UserCreatedProcessor.Process` panic when it dereferences the id (cmd/worker/main.go:38). That goroutine then delivers no outcome, and this case is not modelled. Both producers in the code set the id (pkg/database/database.go:134-145, cmd/worker-manager/main.go:181-183).
- `MemoryStore.Create`: requests are modelled as handled one at a time. The in-memory handlers update the map and the counter without a lock, while Echo serves each request on its own goroutine. Two concurrent creates can therefore get the same id, or crash on a concurrent map write, and that is not modelled. `CreateAllSequentialIds` and `FreshStoreIds` hold for requests served one after another.
- Foreign libraries enter as their outcome:
  - Echo's routing and binding;
  - `encoding/json` encoding and decoding, including the re-decode of the raw body into a request;
  - the generated server stubs;
  - kin-openapi's specification loading, route lookup and request validation.
- JSON numbers are modelled as integers. Floating point is left out.
- `time.Now` is the parameter `now`. `EnqueueJob`'s scheduled_at and the created_at default are taken as the same instant.
- The users table's created_at and updated_at are left out.
- `Database.InsertUser`: the error texts are SQLite's constraint messages, without the driver's prefix and code.
- These are I/O and are left out: `NewDatabaseService`, `initSchema`, `Close` and `GetJobQueue`; the servers' `main` start-up; console output; the usage text; the payload preview and date formatting of `listJobs`; and the confirmation read from stdin, which is an input to `clearJobs`.
- `log.Fatalf` and `os.Exit` become results (`Action`, `Failure` texts) rather than process exits.
- main-variants.go's `DatabaseService` and `NewValidationMiddleware` are not part of this model. Its handlers are paired with pkg/database's service.
- worker-manager.go is left out. It duplicates cmd/worker-manager/main.go against root-package types that are not part of this model.
- The test files are left out.
- Go strings are byte sequences, while the model uses sequences of characters. Every pattern, digit and sign the code looks for is ASCII, and UTF-8 never places an ASCII byte inside a multibyte character, so searching and parsing give the same answers.
- `Manager.ClearJobsRun`: the list of jobs to clear is an input. The 1000-row limit of that listing is not modelled.
