/** The typical job lifecycles stated as verified client code: each client
    reaches its conclusions from the operations' contracts alone. */
module Scenarios {
  import opened Common
  import opened ObjectIds
  import opened Models
  import opened Repo
  import opened Processor
  import opened JobService

  /** A user with credit 1.0 submits a 50-point job (price 0.25): admission
      succeeds and leaves the credit at 1.0; the job runs and completes, and
      the completion charge, looked up by the owner's id text, finds no user,
      so the credit stays 1.0. */
  method CompletedJobScenario(now: int) {
    var svc := new Service();
    var alice := svc.userRepo.Add(User("a@x.com", "alice", USER, 1.0));
    var sess := Session("s1", "v1", 50, [], None);
    assert CalculatePrice(sess) == 0.25;
    IdRoundTrip(alice.id);
    var r := svc.NewJobRequest(IdString(alice.id), sess, now);
    assert r.Ok?;
    assert svc.userRepo.store[alice.id].credit == 1.0;
    var id: Id :| svc.jobRepo.store == map[id := NewJob(alice.id, sess, now)];
    assert svc.jobRepo.store[id].status == PENDING;
    var item := svc.queue[0];
    HandlerHitsAdmittedJob(svc.jobRepo.store, id, RunningUpdate(now + 1));
    svc.OnRunning(item, now + 1);
    assert svc.jobRepo.store[id].status == RUNNING;
    CompletionChargeMissesOwner(svc.userRepo.store, svc.userRepo.order, item.data.userId, -item.data.price);
    HandlerHitsAdmittedJob(svc.jobRepo.store, id, DoneUpdate(item, None, now + 2));
    svc.OnComplete(item, None, now + 2);
    assert svc.jobRepo.store[id].status == DONE && svc.jobRepo.store[id].end == now + 2;
    assert svc.userRepo.store[alice.id].credit == 1.0;
  }

  /** A user with credit 0.10 submits a 50-point job (price 0.25): "Not enough
      credit", no job, nothing enqueued, credit unchanged. */
  method InsufficientCreditScenario(now: int) {
    var svc := new Service();
    var bob := svc.userRepo.Add(User("b@x.com", "bob", USER, 0.10));
    var sess := Session("s2", "v2", 50, [], None);
    IdRoundTrip(bob.id);
    var r := svc.NewJobRequest(IdString(bob.id), sess, now);
    assert r == Err(NotEnoughCredit);
    assert svc.jobRepo.store == map[] && svc.queue == [];
    assert svc.userRepo.store[bob.id].credit == 0.10;
  }

  /** An admitted job that fails: it becomes FAILED, ended now, and the
      owner's credit is not refunded (nothing was debited). */
  method FailedJobScenario(now: int) {
    var svc := new Service();
    var carol := svc.userRepo.Add(User("c@x.com", "carol", USER, 1.0));
    var sess := Session("s3", "v3", 50, [], None);
    IdRoundTrip(carol.id);
    var r := svc.NewJobRequest(IdString(carol.id), sess, now);
    var id: Id :| svc.jobRepo.store == map[id := NewJob(carol.id, sess, now)];
    var item := svc.queue[0];
    HandlerHitsAdmittedJob(svc.jobRepo.store, id, FailedUpdate(now + 1));
    svc.OnFailed(item, now + 1);
    assert svc.jobRepo.store[id].status == FAILED && svc.jobRepo.store[id].end == now + 1;
    assert svc.userRepo.store[carol.id].credit == 1.0;
  }

  /** Two users share an email: logging in with that email is refused as
      "User not found"; a claim naming one user's name resolves to that user. */
  method AmbiguousLoginScenario() {
    var svc := new Service();
    var a := svc.userRepo.Add(User("a@x.com", "ann", USER, 0.0));
    var b := svc.userRepo.Add(User("a@x.com", "ben", ADMIN, 0.0));
    var both := Claims(Some("a@x.com"), None, None);
    assert a.id != b.id;
    assert MatchesClaims(both)(svc.userRepo.store[a.id]) && MatchesClaims(both)(svc.userRepo.store[b.id]);
    assert !UniqueMatch(svc.userRepo.store, MatchesClaims(both), a.id);
    assert !UniqueMatch(svc.userRepo.store, MatchesClaims(both), b.id);
    var r := svc.Authenticate(both);
    assert r == Err(UserNotFound);
    var one := Claims(Some("a@x.com"), Some("ben"), None);
    assert UniqueMatch(svc.userRepo.store, MatchesClaims(one), b.id);
    var s := svc.Authenticate(one);
    assert s == Ok(IdString(b.id));
  }
}
