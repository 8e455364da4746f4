# Job settlement service — a verified Dafny model

This project models the core of a backend that sells trajectory forecasts as
paid jobs. A user submits a fishing session and a number of points to
forecast. The service prices the job, checks the user's credit, stores the job
as PENDING and enqueues it under its own id. Queue events then drive the job
through RUNNING to DONE or FAILED, and completion settles the price against a
user's credit. Read queries report a job's status, its result, a user's credit
and timing statistics over the user's completed jobs.

Three source files make up the core, and each is one module here:

- `repo.dfy` (`Repo`): the generic keyed record store `MongoRepository<T>`, as
  the class `Repository<T>`. It holds a map from ObjectId to document and the
  collection's natural order, taken to be the order of insertion (an
  assumption of the model: the database does not promise it). `find()`
  yields documents in that order. New ids come from a counter, so every new id
  is fresh.
- `processor.dfy` (`Processor`): the price rule and the stub processor. The
  stub copies the given points, reverses the copy in an array and stores it as
  the predicted points.
- `service.dfy` (`JobService`): the class `Service`. It holds the users
  repository, the jobs repository and the dispatcher's queue, a sequence of
  `(key, job)` entries. Admission, the three queue handlers and
  `chargeCredit` change that state. The other operations only read it.

Supporting modules: `common.dfy` (the `Option` and `Result` types and the
rejection reasons), `object_ids.dfy` (ObjectIds and their 24-digit hexadecimal
text form, with the round trip between them), `models.dfy` (the documents and
the partial documents that updates write) and `scenarios.dfy` (the typical job
lifecycles stated as verified client code, reasoning from the contracts alone).

Modelling choices:

- Money is an exact `real`. Prices are 0.005 per point up to 100 points, and
  0.5 plus 0.006 per point above 100.
- Every `new Date()` is the `now` parameter, in milliseconds.
- The `result` of a completion is an input, `Option<seq<Point>>`. `None` stands
  for `undefined`, which is what the queue relay actually passes.
- An id string that is not 24 hexadecimal digits makes `new Types.ObjectId`
  throw. This happens before the repository call, so the rejection is
  `InvalidId` and not the operation's own "not found" message.
- The statistics metric is a function parameter `Job -> int`.

Where the system's design description and the code differ, the model follows
the code:

- Admission checks the credit but debits nothing.
- The debit happens on completion, through `chargeCredit`. That operation
  looks the user up by email, but completion passes the owner's id text (see
  Findings).
- Failure refunds nothing.
- No payload is validated.
- The handlers do not check a job's current status before writing it.
- With no DONE jobs, the statistics are `{min: MAX_VALUE, max: 0, avg: NaN}`.

## Model

| member | source | states |
|---|---|---|
| `ObjectIds.IdString` | backend/src/services/service.ts:164 | `toString()` of an id is lower-case hexadecimal, 24 digits for every twelve-byte id, and never holds an '@' |
| `ObjectIds.ParseId` | backend/src/services/service.ts:147 | `new Types.ObjectId(s)` succeeds iff s is exactly 24 hex digits of either case, and yields a twelve-byte id |
| `ObjectIds.IdRoundTrip` | backend/src/services/service.ts:164 | the key written with `toString()` parses back to the same id |
| `ObjectIds.ParseRoundTrip` | backend/src/services/service.ts:147 | a string that parses prints back as its own lower-case form |
| `ObjectIds.IdStringInjective` | backend/src/services/service.ts:164 | different ids have different text forms |
| `Models.ApplyJobUpdate` | backend/src/repos/repo.ts:58-61 | merging a partial job document overwrites exactly the fields it carries; owner, price and submission time are never written |
| `Models.ApplyUserUpdate` | backend/src/services/service.ts:234 | the `{credit}` update changes the credit and keeps email, username and role |
| `Repo.Without` | backend/src/repos/repo.ts:63-66 | removing an id from the natural order keeps every other id, keeps the order free of repeats and shortens it by one |
| `Repo.SelectMember` | backend/src/repos/repo.ts:68-70 | `find(p)` yields a document iff it is stored under its id and satisfies p |
| `Repo.SelectDistinct` | backend/src/repos/repo.ts:68-70 | `find(p)` yields each document at most once |
| `Repo.SelectFirst` | backend/src/services/service.ts:233 | the first document `find(p)` yields is the earliest one in natural order that satisfies p |
| `Repo.SelectAlways` | backend/src/repos/repo.ts:50-52 | the empty filter yields as many documents as the natural order lists |
| `Repo.Repository.constructor` | backend/src/repos/repo.ts:37-39 | a repository built over a fresh, empty collection is valid and empty |
| `Repo.Repository.GetOne` | backend/src/repos/repo.ts:41-44 | resolves to the stored document iff the id is present, otherwise rejects; the store is unchanged |
| `Repo.Repository.Persists` | backend/src/repos/repo.ts:46-48 | true iff the id is a key of the store |
| `Repo.Repository.GetFiltered` | backend/src/repos/repo.ts:68-70 | yields exactly the stored documents satisfying the filter, in natural order, and changes nothing |
| `Repo.Repository.GetAll` | backend/src/repos/repo.ts:50-52 | equals the empty-filter `getFiltered`, yields every stored document, as many as are stored |
| `Repo.Repository.CountOrder` | backend/src/repos/repo.ts:50-52 | the natural order lists each stored id exactly once |
| `Repo.Repository.Add` | backend/src/repos/repo.ts:54-56 | stores the item under an id no document had, appends it to the natural order, grows the store by one and changes no other document |
| `Repo.Repository.Update` | backend/src/repos/repo.ts:58-61 | on a present id writes the merged document there only and returns it; on an absent id rejects and writes nothing |
| `Repo.Repository.Delete` | backend/src/repos/repo.ts:63-66 | on a present id removes exactly that document and returns it; on an absent id rejects and removes nothing |
| `Processor.CalculatePrice` | backend/src/services/processor.ts:14-16 | the price is non-negative for a non-negative point count, at most 0.5 up to 100 points and above 0.5 beyond |
| `Processor.PriceTiers` | backend/src/services/processor.ts:15 | in thousandths, the price is 5·n up to 100 points and 6·(n−100)+500 beyond |
| `Processor.PriceDependsOnlyOnNPred` | backend/src/services/processor.ts:14-16 | two sessions with the same point count cost the same |
| `Processor.PriceAtBreakpoint` | backend/src/services/processor.ts:15 | 100 points cost 0.5 and 101 points cost 0.506, so the tiers meet |
| `Processor.PriceMonotone` | backend/src/services/processor.ts:15 | more forecast points never cost less |
| `Processor.ReverseAt` | backend/src/services/processor.ts:11 | reversing keeps the length and puts element i at position len−1−i |
| `Processor.ReverseArray` | backend/src/services/processor.ts:11 | `reverse()` leaves the array holding the reverse of its old contents |
| `Processor.Process` | backend/src/services/processor.ts:9-13 | always succeeds; sets the predicted points to the given points reversed, same length, element i = given[len−1−i], and changes nothing else |
| `JobService.NewJob` | backend/src/services/service.ts:149-157 | the admitted job is PENDING, priced by the price rule, carries the session and its owner, and has submit = start = end = now |
| `JobService.Patched` | backend/src/services/service.ts:98-138 | a handler writes only the job its queue key names, and only the fields of its partial document; a malformed or unknown key writes nothing |
| `JobService.PatchedIdempotent` | backend/src/services/service.ts:98-138 | applying a handler's job update twice gives the same store as applying it once |
| `JobService.HandlerHitsAdmittedJob` | backend/src/services/service.ts:164 | the key admission enqueues names the admitted job, so each handler given that key writes exactly that job |
| `JobService.PatchedKeepsPrice` | backend/src/services/service.ts:98-138 | no handler changes a job's owner, price or submission time |
| `JobService.FirstWithEmailSpec` | backend/src/services/service.ts:232-233 | `chargeCredit` finds a user iff some user has the email, and then picks the earliest such user in natural order |
| `JobService.Charged` | backend/src/services/service.ts:231-236 | after `chargeCredit` only the picked user's credit has moved, by exactly the amount |
| `JobService.CompletionChargeMissesOwner` | backend/src/services/service.ts:121 | when every stored email holds an '@', the completion charge, looked up by id text, changes no user |
| `JobService.ChargedOwner` | backend/src/services/service.ts:121 | corrected settlement: only the owner's credit moves, by exactly the amount |
| `JobService.DoneJobs` | backend/src/services/service.ts:210 | keeps exactly the DONE entries of the list, each as often as it occurs, and drops every other entry |
| `JobService.Metrics` | backend/src/services/service.ts:211 | one metric value per job, in list order |
| `JobService.StatValuesSpec` | backend/src/services/service.ts:208-211 | every value is the metric of a DONE job of the user, every such job's metric is among the values, and there are exactly as many values as the user has DONE jobs |
| `JobService.Reduce` | backend/src/services/service.ts:212-218 | the fold's min is MAX_VALUE or a value and at most every value; max is 0 or a value, at least 0 and at least every value; sum is the total and cnt the count |
| `JobService.SelectSingleton` | backend/src/services/service.ts:246-250 | the user filter yields exactly one document iff exactly one stored user matches, and then yields that user |
| `JobService.DoneJobsDistinct` | backend/src/services/service.ts:210 | keeping the DONE jobs of a list without repeated ids repeats no id |
| `JobService.DoneJobsCount` | backend/src/services/service.ts:208-210 | the user's DONE jobs that `getFiltered` then `filter` yield are as many as the stored DONE jobs of the user |
| `JobService.Service.PatchJob` | backend/src/services/service.ts:104 | the write each handler makes: the partial document merged into the job the key parses to, and nothing else |
| `JobService.Service.constructor` | backend/src/services/service.ts:71-77 | a service built over fresh, empty collections and an empty queue is valid |
| `JobService.Service.AddJob` | backend/src/services/dispatcher.ts:40-43 | enqueues the job under the explicit key and resolves to that key |
| `JobService.Service.NewJobRequest` | backend/src/services/service.ts:146-166 | succeeds iff the id is valid, the user exists and the credit covers the price; on success adds exactly the PENDING job under a fresh id, enqueues it under that id's text and returns that text; on rejection adds and enqueues nothing; never changes a user |
| `JobService.Service.OnRunning` | backend/src/services/service.ts:98-105 | writes only `status := RUNNING, start := now` on the job its key names |
| `JobService.Service.OnComplete` | backend/src/services/service.ts:112-122 | writes `status := DONE, end := now` and the enqueued payload with the result as predicted points; then applies `chargeCredit(-price, owner id text)`; a key that is not an ObjectId changes neither store |
| `JobService.Service.OnCompleteChargingOwner` | backend/src/services/service.ts:112-122 | corrected completion: the same job write, with the price debited from the owner found by id; a key that is not an ObjectId changes neither store |
| `JobService.Service.OnFailed` | backend/src/services/service.ts:130-138 | writes only `status := FAILED, end := now` on the job its key names and moves no credit |
| `JobService.Service.GetJobStatus` | backend/src/services/service.ts:173-177 | returns `{id as given, status}` iff the job exists; otherwise "Job not found"; a malformed id rejects as invalid |
| `JobService.Service.GetJobInfo` | backend/src/services/service.ts:184-188 | for an existing job returns its payload iff it is DONE, otherwise the not-completed sentinel; "Job not found" for an absent job |
| `JobService.Service.GetUserCredit` | backend/src/services/service.ts:195-199 | returns the user's username, email and credit iff the user exists; otherwise "User not found" |
| `JobService.Service.GetStatistics` | backend/src/services/service.ts:207-222 | over the metric values of the user's DONE jobs: min is at most every value, max at least every value and 0, avg = sum/count where count is the number of the user's DONE jobs, and with no values {MAX_VALUE, 0, NaN} |
| `JobService.Service.ChargeCredit` | backend/src/services/service.ts:231-237 | moves the credit of the first user with the email by the amount and returns that user's new projection; "User not found" and no change when no user has the email |
| `JobService.Service.Authenticate` | backend/src/services/service.ts:244-251 | returns the id text of the user the claims match iff exactly one user matches; "User not found" for none or several |
| `JobService.Service.CheckAdmin` | backend/src/services/service.ts:258-261 | true iff the user's role is ADMIN; the store's rejection passes through for an absent user |

## Left out

- HTTP routing, the JWT and role middleware, the error handlers and the server bootstrap are request plumbing. JWT signature checking is a call into a foreign library.
- The Bull queue is modelled only as the sequence of enqueued `(key, job)` entries. `addJob` without an explicit key (the queue picks one) is not modelled, because the service always passes its own key. Delivery, redelivery and the execution callback are not modelled.
- `onError` and `onPending` only log, and logging is not modelled.
- Database connection setup, the Mongoose schemas and their type coercions are not modelled. For example, the schema declares the role as a Number.
- The Python prediction workers are not modelled: random sleeps and failures behind a network endpoint. `session-job.ts` and `factory.ts` hold no logic to verify.
- Concurrency between requests and queue callbacks is not modelled; each operation is one atomic step. This includes the non-atomic read-then-write of `credit`.
- JavaScript number rounding is not modelled: prices, credits and averages are exact reals. NaN and Infinity as metric values are not modelled.
- A non-integer or non-numeric `n_pred`, and payloads of the wrong shape: `n_pred` is an integer here.
- Identity claims: only `email`, `username` and `role` are modelled as filter fields. Other fields of a decoded token are not modelled.
- `JobService.Service.OnRunning`, `OnComplete`, `OnFailed`: a queue key that does not parse makes `new Types.ObjectId` throw inside the event handler, before any write. The model then changes neither the jobs nor the users (no charge either), and does not model the uncaught exception itself. A rejected un-awaited update (job absent) is likewise modelled as writing nothing.
- `ObjectIds.ParseId`: the 12-character byte-string form that `ObjectId` also accepts is treated as invalid. Ids at or beyond 2^96 (more than 2^96 stored documents) have a longer text that does not parse back.
- `Processor.Process`: the source mutates the session object in place. The model returns the updated session, so aliasing of that object is not captured.
- `Service.getInstance`, the singleton accessor, is not modelled; the model's constructor builds one service.
- `Repo.Repository.constructor`, `JobService.Service.constructor`: the source attaches to existing database collections and an existing queue, whatever they hold. The model starts from empty ones. Users enter through `userRepo.Add`, since the service has no operation that creates users. Every operation's contract assumes only `Valid()`, so it holds for any reachable state, not just states built from empty.
- `Repo.SelectFirst`, `JobService.FirstWithEmailSpec`: the collection's natural order is taken to be insertion order. MongoDB does not guarantee this, so which of several users with the same email `chargeCredit` picks (`users[0]`) is only as stated under that assumption.

## Findings

| source | as written | input that shows it | evidently intended | confidence | as-written member | corrected member |
|---|---|---|---|---|---|---|
| backend/src/services/service.ts:121 | `onComplete` calls `chargeCredit(-price, user_id.toString())`, and `chargeCredit` looks the user up by email | a user with email "a@x.com" owns a job that completes: no email equals the 24-hex-digit id text, so no credit is debited and the job is never paid for | debit the price from the job's owner | medium, not executed | `JobService.CompletionChargeMissesOwner` | `JobService.Service.OnCompleteChargingOwner` |
