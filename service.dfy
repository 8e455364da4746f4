/** The job-settlement service.

    The service admits paid forecast jobs, keeps their lifecycle in the job
    store as the queue reports progress, settles the price against the user's
    credit, and answers status, result, credit and statistics queries. Every
    call is one atomic step; the clock is the `now` parameter. */
module JobService {
  import opened Common
  import opened ObjectIds
  import opened Models
  import opened Repo
  import opened Processor

  /** A queue entry: the key it was enqueued under and the job document it
      carries (as it was when enqueued). */
  datatype QueueItem = QueueItem(key: string, data: Job)

  /** `{id, status}` */
  datatype JobStatusView = JobStatusView(id: string, status: Status)

  /** The result of a job, or the `{error: 'Job not completed'}` sentinel. */
  datatype JobInfoView = Completed(info: Session) | NotCompleted

  /** `{username, email, credit}` */
  datatype CreditView = CreditView(username: string, email: string, credit: real)

  /** `{min, max, avg}`; an average of `None` is the NaN of 0/0. */
  datatype Stats = Stats(min: int, max: int, avg: Option<real>)

  /** Decoded identity claims used as a user filter; an absent field does not
      constrain the match. */
  datatype Claims = Claims(email: Option<string>, username: Option<string>, role: Option<Role>)

  /** `Number.MAX_VALUE`, exactly: (2^53 - 1) * 2^971. */
  const MaxValue: int := 0xfffffffffffff800000000000000000000000000000000000000000000000000000000000000000000000000000000000000000000000000000000000000000000000000000000000000000000000000000000000000000000000000000000000000000000000000000000000000000000000000000000000000000000000000

  /* ---------------- filters ---------------- */

  /** The filter `{email: e}`. */
  function EmailIs(e: string): User -> bool {
    (u: User) => u.email == e
  }

  /** The filter `{user_id: uid}`. */
  function OwnedBy(uid: Id): Job -> bool {
    (j: Job) => j.userId == uid
  }

  /** A decoded token used as a filter: every field it carries must match. */
  function MatchesClaims(c: Claims): User -> bool {
    (u: User) => (c.email.None? || c.email.value == u.email)
      && (c.username.None? || c.username.value == u.username)
      && (c.role.None? || c.role.value == u.role)
  }

  /* ---------------- admission ---------------- */

  /** The job document admission writes: PENDING, priced from the session,
      all three timestamps at the admission time. */
  function NewJob(uid: Id, sessData: Session, now: int): (j: Job)
    ensures j.status == PENDING && j.userId == uid && j.jobInfo == sessData
    ensures j.price == CalculatePrice(sessData)
    ensures j.submit == now && j.start == now && j.end == now
  {
    Job(uid, PENDING, now, now, now, CalculatePrice(sessData), sessData)
  }

  /** Admission succeeds exactly for a well-formed id of an existing user
      whose credit covers the price. */
  predicate Admissible(users: map<Id, User>, userId: string, sessData: Session) {
    && ParseId(userId).Some?
    && ParseId(userId).value in users
    && users[ParseId(userId).value].credit >= CalculatePrice(sessData)
  }

  /* ---------------- job updates ---------------- */

  /** `{status: RUNNING, start: now}` */
  function RunningUpdate(now: int): JobUpdate {
    JobUpdate(Some(RUNNING), Some(now), None, None)
  }

  /** `{job_info: {...job_info, pred_points: result}, status: DONE, end: now}` */
  function DoneUpdate(item: QueueItem, result: Option<seq<Point>>, now: int): JobUpdate {
    JobUpdate(Some(DONE), None, Some(now), Some(item.data.jobInfo.(predPoints := result)))
  }

  /** `{status: FAILED, end: now}` */
  function FailedUpdate(now: int): JobUpdate {
    JobUpdate(Some(FAILED), None, Some(now), None)
  }

  /** The job store after a handler writes the partial document u under the
      queue key: only the job that key names changes, and only in the fields
      u carries; an unknown or malformed key changes nothing. */
  function Patched(jobs: map<Id, Job>, key: string, u: JobUpdate): (r: map<Id, Job>)
    ensures r.Keys == jobs.Keys
    ensures forall id | id in jobs && ParseId(key) != Some(id) :: r[id] == jobs[id]
    ensures forall id | id in jobs && ParseId(key) == Some(id) :: r[id] == ApplyJobUpdate(jobs[id], u)
  {
    var id := ParseId(key);
    if id.Some? && id.value in jobs then jobs[id.value := ApplyJobUpdate(jobs[id.value], u)] else jobs
  }

  /** A redelivered event with the same update writes nothing new. */
  lemma PatchedIdempotent(jobs: map<Id, Job>, key: string, u: JobUpdate)
    ensures Patched(Patched(jobs, key, u), key, u) == Patched(jobs, key, u)
  {
    var once := Patched(jobs, key, u);
    var twice := Patched(once, key, u);
    assert forall id | id in twice :: twice[id] == once[id];
  }

  /** The key admission enqueues is the new job's id text, so each handler
      given that key writes exactly that job. */
  lemma HandlerHitsAdmittedJob(jobs: map<Id, Job>, id: Id, u: JobUpdate)
    requires id in jobs && id < IdSpace
    ensures Patched(jobs, IdString(id), u)[id] == ApplyJobUpdate(jobs[id], u)
  {
    IdRoundTrip(id);
  }

  /** No handler ever rewrites a job's owner, price or submission time. */
  lemma PatchedKeepsPrice(jobs: map<Id, Job>, key: string, u: JobUpdate, id: Id)
    requires id in jobs
    ensures id in Patched(jobs, key, u)
    ensures Patched(jobs, key, u)[id].price == jobs[id].price
    ensures Patched(jobs, key, u)[id].userId == jobs[id].userId
    ensures Patched(jobs, key, u)[id].submit == jobs[id].submit
  {
  }

  /* ---------------- credit ---------------- */

  /** The user `chargeCredit` picks: the first in natural order whose email is e. */
  function FirstWithEmail(users: map<Id, User>, order: seq<Id>, e: string): Option<Id>
    requires Listed(users, order)
  {
    var matches := Select(users, order, EmailIs(e));
    if matches == [] then None else Some(matches[0].id)
  }

  /** `FirstWithEmail` finds a user iff some user has the email, and the one it
      finds has it and comes before every other user that has it. */
  lemma {:induction false} FirstWithEmailSpec(users: map<Id, User>, order: seq<Id>, e: string)
    requires Listed(users, order)
    requires forall id :: id in users ==> id in order
    ensures FirstWithEmail(users, order, e).None? <==> forall id | id in users :: users[id].email != e
    ensures FirstWithEmail(users, order, e).Some? ==>
      var id := FirstWithEmail(users, order, e).value;
      && id in users && users[id].email == e
      && exists k :: (0 <= k < |order| && order[k] == id
           && forall j | 0 <= j < k :: users[order[j]].email != e)
  {
    var matches := Select(users, order, EmailIs(e));
    if matches == [] {
      forall id | id in users ensures users[id].email != e {
        SelectMember(users, order, EmailIs(e), Stored(id, users[id]));
      }
    } else {
      SelectMember(users, order, EmailIs(e), matches[0]);
      SelectFirst(users, order, EmailIs(e));
    }
  }

  /** The user store after `chargeCredit(amount, e)`: the picked user's credit
      moves by `amount`; no one else changes. */
  function Charged(users: map<Id, User>, order: seq<Id>, e: string, amount: real): (r: map<Id, User>)
    requires Listed(users, order)
    ensures r.Keys == users.Keys
    ensures forall id | id in users && FirstWithEmail(users, order, e) != Some(id) :: r[id] == users[id]
    ensures forall id | id in users && FirstWithEmail(users, order, e) == Some(id) ::
      r[id] == users[id].(credit := users[id].credit + amount)
  {
    match FirstWithEmail(users, order, e)
    case None => users
    case Some(id) =>
      SelectMember(users, order, EmailIs(e), Select(users, order, EmailIs(e))[0]);
      users[id := ApplyUserUpdate(users[id], UserUpdate(Some(users[id].credit + amount)))]
  }

  /** The completion handler looks the payer up by the text of its user id as
      if it were an email. When every stored email holds an '@' (as an email
      address does), that lookup matches no one and completion charges no one. */
  lemma CompletionChargeMissesOwner(users: map<Id, User>, order: seq<Id>, uid: Id, amount: real)
    requires Listed(users, order)
    requires forall id | id in users :: '@' in users[id].email
    ensures Charged(users, order, IdString(uid), amount) == users
  {
    var matches := Select(users, order, EmailIs(IdString(uid)));
    if matches != [] {
      SelectMember(users, order, EmailIs(IdString(uid)), matches[0]);
      assert false;
    }
  }

  /** The user store after charging the job's owner, found by id: the owner's
      credit moves by `amount`, no one else changes. */
  function ChargedOwner(users: map<Id, User>, uid: Id, amount: real): (r: map<Id, User>)
    ensures r.Keys == users.Keys
    ensures forall id | id in users && id != uid :: r[id] == users[id]
    ensures uid in users ==> r[uid] == users[uid].(credit := users[uid].credit + amount)
  {
    if uid in users then users[uid := ApplyUserUpdate(users[uid], UserUpdate(Some(users[uid].credit + amount)))]
    else users
  }

  /* ---------------- statistics ---------------- */

  /** No two documents of the list share an id. */
  predicate DistinctIds(jobs: seq<Stored<Job>>) {
    forall i, j | 0 <= i < j < |jobs| :: jobs[i].id != jobs[j].id
  }

  /** The DONE jobs of a list, in list order: each DONE entry is kept as
      often as it occurs, every other entry is dropped. */
  function DoneJobs(jobs: seq<Stored<Job>>): (r: seq<Stored<Job>>)
    ensures forall x :: x in r <==> x in jobs && x.item.status == DONE
    ensures forall x :: multiset(r)[x] == if x.item.status == DONE then multiset(jobs)[x] else 0
    ensures |r| <= |jobs|
  {
    if jobs == [] then []
    else
      var rest := DoneJobs(jobs[1..]);
      assert jobs == [jobs[0]] + jobs[1..];
      if jobs[0].item.status == DONE then [jobs[0]] + rest else rest
  }

  /** Keeping the DONE jobs of a list never repeats an id. */
  lemma {:induction false} DoneJobsDistinct(jobs: seq<Stored<Job>>)
    requires DistinctIds(jobs)
    ensures DistinctIds(DoneJobs(jobs))
  {
    if jobs != [] {
      DoneJobsDistinct(jobs[1..]);
      var rest := DoneJobs(jobs[1..]);
      forall k | 0 <= k < |rest| ensures rest[k].id != jobs[0].id {
        assert rest[k] in jobs[1..];
      }
    }
  }

  /** The metric of each job of a list. */
  function Metrics(jobs: seq<Stored<Job>>, metric: Job -> int): (r: seq<int>)
    ensures |r| == |jobs|
    ensures forall i | 0 <= i < |jobs| :: r[i] == metric(jobs[i].item)
  {
    if jobs == [] then [] else [metric(jobs[0].item)] + Metrics(jobs[1..], metric)
  }

  function Sum(s: seq<int>): int {
    if s == [] then 0 else Sum(s[..|s| - 1]) + s[|s| - 1]
  }

  /** The metric values the statistics fold over, for user uid. */
  function StatValues(jobs: map<Id, Job>, order: seq<Id>, uid: Id, metric: Job -> int): seq<int>
    requires Listed(jobs, order)
  {
    Metrics(DoneJobs(Select(jobs, order, OwnedBy(uid))), metric)
  }

  /** The statistics count only DONE jobs of the given user: every value is
      the metric of such a job, and every such job contributes one. */
  lemma {:induction false} StatValuesSpec(jobs: map<Id, Job>, order: seq<Id>, uid: Id, metric: Job -> int)
    requires Listed(jobs, order)
    requires forall id :: id in jobs ==> id in order
    ensures forall v :: v in StatValues(jobs, order, uid, metric) ==>
      exists id :: id in jobs && jobs[id].userId == uid && jobs[id].status == DONE && v == metric(jobs[id])
    ensures forall id | id in jobs && jobs[id].userId == uid && jobs[id].status == DONE ::
      metric(jobs[id]) in StatValues(jobs, order, uid, metric)
    ensures Distinct(order) ==>
      |StatValues(jobs, order, uid, metric)| == |set id | id in jobs && jobs[id].userId == uid && jobs[id].status == DONE|
  {
    var done := DoneJobs(Select(jobs, order, OwnedBy(uid)));
    var vals := StatValues(jobs, order, uid, metric);
    forall v | v in vals
      ensures exists id :: id in jobs && jobs[id].userId == uid && jobs[id].status == DONE && v == metric(jobs[id])
    {
      var i :| 0 <= i < |vals| && vals[i] == v;
      SelectMember(jobs, order, OwnedBy(uid), done[i]);
    }
    forall id | id in jobs && jobs[id].userId == uid && jobs[id].status == DONE
      ensures metric(jobs[id]) in vals
    {
      var x := Stored(id, jobs[id]);
      SelectMember(jobs, order, OwnedBy(uid), x);
      var i :| 0 <= i < |done| && done[i] == x;
      assert vals[i] == metric(jobs[id]);
    }
    if Distinct(order) {
      DoneJobsCount(jobs, order, uid);
    }
  }

  /** Over a store without repeated ids, the user's DONE jobs are as many as
      the ids of such jobs. */
  lemma DoneJobsCount(jobs: map<Id, Job>, order: seq<Id>, uid: Id)
    requires Listed(jobs, order) && Distinct(order)
    requires forall id :: id in jobs ==> id in order
    ensures |DoneJobs(Select(jobs, order, OwnedBy(uid)))|
      == |set id | id in jobs && jobs[id].userId == uid && jobs[id].status == DONE|
  {
    var sel := Select(jobs, order, OwnedBy(uid));
    var done := DoneJobs(sel);
    SelectDistinct(jobs, order, OwnedBy(uid));
    assert DistinctIds(sel);
    DoneJobsDistinct(sel);
    var ids := seq(|done|, k requires 0 <= k < |done| => done[k].id);
    DistinctCard(ids);
    var wanted := set id | id in jobs && jobs[id].userId == uid && jobs[id].status == DONE;
    forall id | id in wanted ensures id in set k | 0 <= k < |ids| :: ids[k] {
      SelectMember(jobs, order, OwnedBy(uid), Stored(id, jobs[id]));
      var k :| 0 <= k < |done| && done[k] == Stored(id, jobs[id]);
      assert ids[k] == id;
    }
    forall k | 0 <= k < |ids| ensures ids[k] in wanted {
      assert done[k] in sel;
      SelectMember(jobs, order, OwnedBy(uid), done[k]);
    }
    assert (set k | 0 <= k < |ids| :: ids[k]) == wanted;
  }

  /** The `reduce` of `getStatistics`: one pass that lowers `min`, raises
      `max`, adds to `sum` and counts, starting from MAX_VALUE, 0, 0, 0. */
  method Reduce(vals: seq<int>) returns (min: int, max: int, sum: int, cnt: nat)
    ensures min <= MaxValue && (min == MaxValue || min in vals)
    ensures forall v | v in vals :: min <= v
    ensures max >= 0 && (max == 0 || max in vals)
    ensures forall v | v in vals :: v <= max
    ensures sum == Sum(vals) && cnt == |vals|
  {
    min, max, sum, cnt := MaxValue, 0, 0, 0;
    var i := 0;
    while i < |vals|
      invariant 0 <= i <= |vals| && cnt == i
      invariant sum == Sum(vals[..i])
      invariant min <= MaxValue && (min == MaxValue || exists k | 0 <= k < i :: vals[k] == min)
      invariant forall k | 0 <= k < i :: min <= vals[k]
      invariant max >= 0 && (max == 0 || exists k | 0 <= k < i :: vals[k] == max)
      invariant forall k | 0 <= k < i :: vals[k] <= max
    {
      var t := vals[i];
      assert vals[..i + 1][..i] == vals[..i];
      if t < min {
        min := t;
      }
      if t > max {
        max := t;
      }
      sum := sum + t;
      cnt := cnt + 1;
      i := i + 1;
    }
    assert vals[..i] == vals;
  }

  /* ---------------- the service ---------------- */

  class Service {
    /** The users collection. */
    const userRepo: Repository<User>
    /** The jobs collection. */
    const jobRepo: Repository<Job>
    /** The dispatcher's queue: the entries in the order they were added. */
    var queue: seq<QueueItem>

    ghost predicate Valid()
      reads this, userRepo, jobRepo
    {
      userRepo.Valid() && jobRepo.Valid()
    }

    /** Empty collections and an empty queue. */
    constructor ()
      ensures Valid() && fresh(userRepo) && fresh(jobRepo)
      ensures userRepo.store == map[] && jobRepo.store == map[] && queue == []
      ensures userRepo.nextId == 0 && jobRepo.nextId == 0
    {
      userRepo := new Repository<User>();
      jobRepo := new Repository<Job>();
      queue := [];
    }

    /** The dispatcher's `addJob(job, id)`: enqueues the job under the explicit
        key and resolves to that key. */
    method AddJob(job: Job, id: string) returns (key: string)
      modifies this`queue
      ensures queue == old(queue) + [QueueItem(id, job)]
      ensures key == id
    {
      queue := queue + [QueueItem(id, job)];
      key := id;
    }

    /** `newJobRequest`: checks (without debiting) that the user can pay the
        price, stores the job as PENDING and enqueues it under its own id,
        which it returns as text. A rejected request writes nothing. */
    method NewJobRequest(userId: string, sessData: Session, now: int) returns (r: Result<string>)
      requires Valid()
      modifies this`queue, jobRepo
      ensures Valid()
      ensures r.Ok? <==> Admissible(userRepo.store, userId, sessData)
      ensures ParseId(userId).None? ==> r == Err(InvalidId)
      ensures ParseId(userId).Some? && ParseId(userId).value !in userRepo.store ==> r == Err(RecordNotFound)
      ensures (ParseId(userId).Some? && ParseId(userId).value in userRepo.store
        && userRepo.store[ParseId(userId).value].credit < CalculatePrice(sessData)) ==> r == Err(NotEnoughCredit)
      ensures r.Err? ==> jobRepo.store == old(jobRepo.store) && jobRepo.order == old(jobRepo.order) && queue == old(queue)
      ensures r.Ok? ==> exists id :: (
        && id !in old(jobRepo.store) && id == old(jobRepo.nextId)
        && r.value == IdString(id)
        && jobRepo.store == old(jobRepo.store)[id := NewJob(ParseId(userId).value, sessData, now)]
        && jobRepo.order == old(jobRepo.order) + [id]
        && queue == old(queue) + [QueueItem(IdString(id), NewJob(ParseId(userId).value, sessData, now))])
    {
      var uid := ParseId(userId);
      if uid.None? {
        return Err(InvalidId);
      }
      var job := NewJob(uid.value, sessData, now);
      var user := userRepo.GetOne(uid.value);
      if user.Err? {
        return Err(user.error);
      }
      if user.value.item.credit < job.price {
        return Err(NotEnoughCredit);
      }
      var saved := jobRepo.Add(job);
      var key := AddJob(saved.item, IdString(saved.id));
      r := Ok(key);
    }

    /** The job write every event handler makes: the partial document merged
        into the job whose id the queue key parses to (a rejection for an
        absent job is not awaited, so it writes nothing). Returns the parsed key. */
    method PatchJob(key: string, u: JobUpdate) returns (id: Option<Id>)
      requires Valid()
      modifies jobRepo`store
      ensures Valid()
      ensures id == ParseId(key)
      ensures jobRepo.store == Patched(old(jobRepo.store), key, u)
    {
      id := ParseId(key);
      if id.Some? {
        var updated := jobRepo.Update(id.value, j => ApplyJobUpdate(j, u));
      }
    }

    /** `onRunning`: marks the job named by the queue key RUNNING, started now. */
    method OnRunning(item: QueueItem, now: int)
      requires Valid()
      modifies jobRepo`store
      ensures Valid()
      ensures jobRepo.store == Patched(old(jobRepo.store), item.key, RunningUpdate(now))
    {
      var id := PatchJob(item.key, RunningUpdate(now));
    }

    /** `onComplete`: marks the job DONE, ended now, with the result as its
        predicted points; then charges the price through `chargeCredit`,
        passing the owner's id text where an email is expected. The charge is
        not chained to the job update. A key that is not an ObjectId throws
        before either write, so nothing changes then. */
    method OnComplete(item: QueueItem, result: Option<seq<Point>>, now: int)
      requires Valid()
      modifies jobRepo`store, userRepo`store
      ensures Valid()
      ensures jobRepo.store == Patched(old(jobRepo.store), item.key, DoneUpdate(item, result, now))
      ensures Listed(old(userRepo.store), userRepo.order)
      ensures ParseId(item.key).None? ==> userRepo.store == old(userRepo.store)
      ensures ParseId(item.key).Some? ==>
        userRepo.store == Charged(old(userRepo.store), userRepo.order, IdString(item.data.userId), -item.data.price)
    {
      if ParseId(item.key).None? {
        // `new Types.ObjectId` throws before the update and the charge.
        return;
      }
      var id := PatchJob(item.key, DoneUpdate(item, result, now));
      var charged := ChargeCredit(-item.data.price, IdString(item.data.userId));
    }

    /** Completion as evidently intended: the same job update, and the price
        debited from the job's owner, found by id. */
    method OnCompleteChargingOwner(item: QueueItem, result: Option<seq<Point>>, now: int)
      requires Valid()
      modifies jobRepo`store, userRepo`store
      ensures Valid()
      ensures jobRepo.store == Patched(old(jobRepo.store), item.key, DoneUpdate(item, result, now))
      ensures ParseId(item.key).None? ==> userRepo.store == old(userRepo.store)
      ensures ParseId(item.key).Some? ==>
        userRepo.store == ChargedOwner(old(userRepo.store), item.data.userId, -item.data.price)
    {
      if ParseId(item.key).None? {
        return;
      }
      var id := PatchJob(item.key, DoneUpdate(item, result, now));
      var owner := item.data.userId;
      var amount := -item.data.price;
      var charged := userRepo.Update(owner, (u: User) => ApplyUserUpdate(u, UserUpdate(Some(u.credit + amount))));
    }

    /** `onFailed`: marks the job FAILED, ended now; no credit moves. */
    method OnFailed(item: QueueItem, now: int)
      requires Valid()
      modifies jobRepo`store
      ensures Valid()
      ensures jobRepo.store == Patched(old(jobRepo.store), item.key, FailedUpdate(now))
      ensures unchanged(userRepo)
    {
      var id := PatchJob(item.key, FailedUpdate(now));
    }

    /** `getJobStatus`: the job's status under the id as given, or "Job not found". */
    method GetJobStatus(jobId: string) returns (r: Result<JobStatusView>)
      requires Valid()
      ensures ParseId(jobId).None? ==> r == Err(InvalidId)
      ensures ParseId(jobId).Some? ==> (r.Ok? <==> ParseId(jobId).value in jobRepo.store)
      ensures ParseId(jobId).Some? && r.Err? ==> r.error == JobNotFound
      ensures r.Ok? ==> r.value == JobStatusView(jobId, jobRepo.store[ParseId(jobId).value].status)
    {
      var id := ParseId(jobId);
      if id.None? {
        return Err(InvalidId);
      }
      var job := jobRepo.GetOne(id.value);
      if job.Err? {
        r := Err(JobNotFound);
      } else {
        r := Ok(JobStatusView(jobId, job.value.item.status));
      }
    }

    /** `getJobInfo`: the job's payload with its result when the job is DONE,
        the "not completed" sentinel otherwise, or "Job not found". */
    method GetJobInfo(jobId: string) returns (r: Result<JobInfoView>)
      requires Valid()
      ensures ParseId(jobId).None? ==> r == Err(InvalidId)
      ensures ParseId(jobId).Some? ==> (r.Ok? <==> ParseId(jobId).value in jobRepo.store)
      ensures ParseId(jobId).Some? && r.Err? ==> r.error == JobNotFound
      ensures r.Ok? ==> (r.value.Completed? <==> jobRepo.store[ParseId(jobId).value].status == DONE)
      ensures r.Ok? && r.value.Completed? ==> r.value.info == jobRepo.store[ParseId(jobId).value].jobInfo
    {
      var id := ParseId(jobId);
      if id.None? {
        return Err(InvalidId);
      }
      var job := jobRepo.GetOne(id.value);
      if job.Err? {
        r := Err(JobNotFound);
      } else if job.value.item.status == DONE {
        r := Ok(Completed(job.value.item.jobInfo));
      } else {
        r := Ok(NotCompleted);
      }
    }

    /** `getUserCredit`: the user's name, email and credit, or "User not found". */
    method GetUserCredit(userId: string) returns (r: Result<CreditView>)
      requires Valid()
      ensures ParseId(userId).None? ==> r == Err(InvalidId)
      ensures ParseId(userId).Some? ==> (r.Ok? <==> ParseId(userId).value in userRepo.store)
      ensures ParseId(userId).Some? && r.Err? ==> r.error == UserNotFound
      ensures r.Ok? ==>
        var u := userRepo.store[ParseId(userId).value];
        r.value == CreditView(u.username, u.email, u.credit)
    {
      var id := ParseId(userId);
      if id.None? {
        return Err(InvalidId);
      }
      var user := userRepo.GetOne(id.value);
      if user.Err? {
        r := Err(UserNotFound);
      } else {
        var u := user.value.item;
        r := Ok(CreditView(u.username, u.email, u.credit));
      }
    }

    /** `getStatistics`: min, max and average of the metric over the DONE jobs
        of the user, folded from `{min: MAX_VALUE, max: 0, sum: 0, cnt: 0}`. */
    method GetStatistics(userId: string, metric: Job -> int) returns (r: Result<Stats>)
      requires Valid()
      ensures ParseId(userId).None? ==> r == Err(InvalidId)
      ensures ParseId(userId).Some? ==> r.Ok?
      ensures Listed(jobRepo.store, jobRepo.order)
      ensures r.Ok? ==>
        var vals := StatValues(jobRepo.store, jobRepo.order, ParseId(userId).value, metric);
        && r.value.min <= MaxValue
        && (r.value.min == MaxValue || r.value.min in vals)
        && (forall v | v in vals :: r.value.min <= v)
        && r.value.max >= 0
        && (r.value.max == 0 || r.value.max in vals)
        && (forall v | v in vals :: v <= r.value.max)
        && r.value.avg == (if vals == [] then None else Some(Sum(vals) as real / |vals| as real))
      ensures r.Ok? ==>
        var uid := ParseId(userId).value;
        |StatValues(jobRepo.store, jobRepo.order, uid, metric)|
          == |set id | id in jobRepo.store && jobRepo.store[id].userId == uid && jobRepo.store[id].status == DONE|
    {
      var uid := ParseId(userId);
      if uid.None? {
        return Err(InvalidId);
      }
      StatValuesSpec(jobRepo.store, jobRepo.order, uid.value, metric);
      var jobs := jobRepo.GetFiltered(OwnedBy(uid.value));
      var vals := Metrics(DoneJobs(jobs), metric);
      var min, max, sum, cnt := Reduce(vals);
      r := Ok(Stats(min, max, if cnt == 0 then None else Some(sum as real / cnt as real)));
    }

    /** `chargeCredit`: moves the credit of the first user with the email by
        `amount` and returns that user's name, email and new credit; "User not
        found" when no user has the email. */
    method ChargeCredit(amount: real, userEmail: string) returns (r: Result<CreditView>)
      requires Valid()
      modifies userRepo`store
      ensures Valid()
      ensures Listed(old(userRepo.store), userRepo.order)
      ensures userRepo.store == Charged(old(userRepo.store), userRepo.order, userEmail, amount)
      ensures FirstWithEmail(old(userRepo.store), userRepo.order, userEmail).None? ==> r == Err(UserNotFound)
      ensures FirstWithEmail(old(userRepo.store), userRepo.order, userEmail).Some? ==>
        var u := old(userRepo.store)[FirstWithEmail(old(userRepo.store), userRepo.order, userEmail).value];
        r == Ok(CreditView(u.username, userEmail, u.credit + amount))
    {
      var users := userRepo.GetFiltered(EmailIs(userEmail));
      if users == [] {
        return Err(UserNotFound);
      }
      var user := users[0];
      assert user in users;
      var updated := userRepo.Update(user.id, u => ApplyUserUpdate(u, UserUpdate(Some(user.item.credit + amount))));
      var v := updated.value.item;
      r := Ok(CreditView(v.username, v.email, v.credit));
    }

    /** `authenticate`: the id text of the one user the claims match; "User not
        found" when none or several match. */
    method Authenticate(claims: Claims) returns (r: Result<string>)
      requires Valid()
      ensures r.Ok? <==> exists id :: UniqueMatch(userRepo.store, MatchesClaims(claims), id)
      ensures forall id | UniqueMatch(userRepo.store, MatchesClaims(claims), id) :: r == Ok(IdString(id))
      ensures r.Err? ==> r.error == UserNotFound
    {
      var users := userRepo.GetFiltered(MatchesClaims(claims));
      SelectSingleton(userRepo.store, userRepo.order, MatchesClaims(claims));
      if |users| == 1 {
        r := Ok(IdString(users[0].id));
      } else {
        r := Err(UserNotFound);
      }
    }

    /** `checkAdmin`: whether the user's role is ADMIN; the store's rejection
        passes through when there is no such user. */
    method CheckAdmin(userId: string) returns (r: Result<bool>)
      requires Valid()
      ensures ParseId(userId).None? ==> r == Err(InvalidId)
      ensures ParseId(userId).Some? && ParseId(userId).value !in userRepo.store ==> r == Err(RecordNotFound)
      ensures ParseId(userId).Some? && ParseId(userId).value in userRepo.store ==>
        r == Ok(userRepo.store[ParseId(userId).value].role == ADMIN)
    {
      var id := ParseId(userId);
      if id.None? {
        return Err(InvalidId);
      }
      var user := userRepo.GetOne(id.value);
      if user.Err? {
        return Err(user.error);
      }
      r := Ok(user.value.item.role == ADMIN);
    }
  }

  /** id is the one stored id whose document satisfies p. */
  predicate UniqueMatch<T>(store: map<Id, T>, p: T -> bool, id: Id) {
    && id in store && p(store[id])
    && forall other | other in store && p(store[other]) :: other == id
  }

  /** `find(p)` yields exactly one document iff exactly one stored document
      satisfies p, and then it yields that one. */
  lemma SelectSingleton<T>(store: map<Id, T>, order: seq<Id>, p: T -> bool)
    requires Listed(store, order) && Distinct(order)
    requires forall id :: id in store ==> id in order
    ensures |Select(store, order, p)| == 1 <==> exists id :: UniqueMatch(store, p, id)
    ensures |Select(store, order, p)| == 1 ==> UniqueMatch(store, p, Select(store, order, p)[0].id)
  {
    var s := Select(store, order, p);
    SelectDistinct(store, order, p);
    if |s| == 1 {
      SelectMember(store, order, p, s[0]);
      forall other | other in store && p(store[other]) ensures other == s[0].id {
        SelectMember(store, order, p, Stored(other, store[other]));
      }
      assert UniqueMatch(store, p, s[0].id);
    }
    if id: Id :| UniqueMatch(store, p, id) {
      SelectMember(store, order, p, Stored(id, store[id]));
      assert Stored(id, store[id]) in s;
      forall k | 0 <= k < |s| ensures s[k].id == id {
        SelectMember(store, order, p, s[k]);
      }
      var ids := seq(|s|, k requires 0 <= k < |s| => s[k].id);
      DistinctCard(ids);
      assert (set k | 0 <= k < |ids| :: ids[k]) == {id};
    }
  }
}
