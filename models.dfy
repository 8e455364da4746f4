/** The stored entities (users, jobs and the trajectory session a job carries)
    and the partial documents the service writes over them. */
module Models {
  import opened Common
  import opened ObjectIds

  datatype Role = USER | ADMIN

  /** A job's lifecycle state. */
  datatype Status = PENDING | RUNNING | DONE | FAILED

  /** One geographical point of a fishing session; times are milliseconds. */
  datatype Point = Point(pointId: int, lat: real, long: real, speed: real, timestamp: int)

  /** The payload of a job: a session, the number of points to forecast, the
      given points and, once computed, the predicted points. */
  datatype Session = Session(
    sessionId: string,
    vesselId: string,
    nPred: int,
    givenPoints: seq<Point>,
    predPoints: Option<seq<Point>>)

  /** A user record; `credit` is an exact decimal amount. */
  datatype User = User(email: string, username: string, role: Role, credit: real)

  /** A job record; `submit`, `start` and `end` are milliseconds. */
  datatype Job = Job(
    userId: Id,
    status: Status,
    submit: int,
    start: int,
    end: int,
    price: real,
    jobInfo: Session)

  /** The partial document a job update carries: only the present fields are
      written. The service never writes `user_id`, `price` or `submit`. */
  datatype JobUpdate = JobUpdate(
    status: Option<Status>,
    start: Option<int>,
    end: Option<int>,
    jobInfo: Option<Session>)

  /** The partial document a user update carries (the service writes only
      `credit`). */
  datatype UserUpdate = UserUpdate(credit: Option<real>)

  /** Merging a partial job document: every field it names is overwritten,
      every other field keeps its value. */
  function ApplyJobUpdate(j: Job, u: JobUpdate): (r: Job)
    ensures r.status == (if u.status.Some? then u.status.value else j.status)
    ensures r.start == (if u.start.Some? then u.start.value else j.start)
    ensures r.end == (if u.end.Some? then u.end.value else j.end)
    ensures r.jobInfo == (if u.jobInfo.Some? then u.jobInfo.value else j.jobInfo)
    ensures r.userId == j.userId && r.price == j.price && r.submit == j.submit
  {
    Job(j.userId, u.status.GetOr(j.status), j.submit, u.start.GetOr(j.start),
        u.end.GetOr(j.end), j.price, u.jobInfo.GetOr(j.jobInfo))
  }

  /** Merging a partial user document. */
  function ApplyUserUpdate(usr: User, u: UserUpdate): (r: User)
    ensures r.credit == (if u.credit.Some? then u.credit.value else usr.credit)
    ensures r.email == usr.email && r.username == usr.username && r.role == usr.role
  {
    usr.(credit := u.credit.GetOr(usr.credit))
  }
}
