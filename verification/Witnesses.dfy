/** Runs from the start to the states the hazards begin in: each step of them meets its
    condition, so the hazards lie within reach of the program. */
module Witnesses {
  import opened JobQueue
  import opened Machine
  import opened Invariant
  import opened Exactness
  import opened MainResults
  import Window

  // ---- states a guarded run from the start reaches

  ghost predicate Reachable(hosts: nat, s: System) {
    exists es :: Lawful(hosts, false, es) && Reached(hosts, false, es) == s
  }

  lemma {:induction false} RunSnoc(s: System, es: seq<Event>, e: Event)
    requires WellFormed(s) && Run(s, es) && Guarded(s, es)
    requires WellFormed(After(s, es)) && Enabled(After(s, es), e) && Ok(After(s, es), e)
    ensures Run(s, es + [e]) && Guarded(s, es + [e]) && After(s, es + [e]) == Next(After(s, es), e)
    decreases |es|
  {
    if es == [] {
      assert [] + [e] == [e] && [e][1..] == [];
      NextWellFormed(s, e);
      assert Run(Next(s, e), []);
    } else {
      NextWellFormed(s, es[0]);
      assert (es + [e])[0] == es[0] && (es + [e])[1..] == es[1..] + [e];
      RunSnoc(Next(s, es[0]), es[1..], e);
    }
  }

  lemma StartReachable(hosts: nat)
    requires hosts < MAX_NUM_HOSTS
    ensures Reachable(hosts, Init(hosts)) && WellFormed(Init(hosts))
  {
    InitInv(hosts, false);
    assert Lawful(hosts, false, []) && Reached(hosts, false, []) == Init(hosts);
  }

  lemma ReachableInv(hosts: nat, s: System)
    requires Reachable(hosts, s)
    ensures Inv(s)
  {
    var es :| Lawful(hosts, false, es) && Reached(hosts, false, es) == s;
    MasterRunSafe(hosts, false, es);
  }

  lemma Extend(hosts: nat, s: System, e: Event) returns (s': System)
    requires Reachable(hosts, s) && WellFormed(s) && Enabled(s, e) && Ok(s, e)
    ensures s' == Next(s, e) && Reachable(hosts, s') && WellFormed(s')
  {
    NextWellFormed(s, e);
    var es :| Lawful(hosts, false, es) && Reached(hosts, false, es) == s;
    RunSnoc(Init(hosts), es, e);
    s' := Next(s, e);
    assert Lawful(hosts, false, es + [e]) && Reached(hosts, false, es + [e]) == s';
  }

  // ---- larger strides

  ghost predicate Quiet(s: System) {
    s.mon.Ready? && s.d.Idle? && s.r.Waiting?
  }

  ghost function Submitted(s: System, job: Job): System
    requires WellFormed(s)
  {
    s.(m := PushJob(s.m, job), submitted := s.submitted + [job])
  }

  lemma Submit(hosts: nat, s: System, job: Job) returns (s': System)
    requires Reachable(hosts, s) && WellFormed(s) && s.mon.Ready? && !s.m.IsFull() && NoLap(s) && job.req >= 1
    ensures s' == Submitted(s, job) && Reachable(hosts, s') && WellFormed(s')
  {
    var s1 := Extend(hosts, s, SubmitCheck(job));
    s' := Extend(hosts, s1, SubmitPush);
  }

  lemma Go(hosts: nat, s: System) returns (s': System)
    requires Reachable(hosts, s) && WellFormed(s) && Enabled(s, Dispatch) && Ok(s, Dispatch)
    ensures s' == DispatchStep(s) && Reachable(hosts, s') && WellFormed(s')
  {
    s' := Extend(hosts, s, Dispatch);
  }

  lemma OneFree(m: Tables)
    requires m.Shaped() && m.hosts >= 1 && m.pcstat[1].Free?
    ensures |FreeHosts(m)| >= 1
  {
    assert 1 in FreeHosts(m);
  }

  /** The state once host 1 has been sent the job at `tail`, before the counter is written. */
  ghost function Launched(s: System): System
    requires WellFormed(s) && !s.m.IsEmpty() && s.m.hosts == 1
  {
    TailWasPushed(s);
    var slot := s.m.jobq[s.m.tail];
    s.(m := SetHost(SetNode(PopJob(s.m), 1, slot.id), 1, Busy),
       popped := s.popped + [(slot.comm, slot.req)],
       ledger := s.ledger + [Flight(1, slot.id, slot.comm, |s.popped|, Phase.Submitted)],
       d := Booking(Work(slot.id, slot.comm, slot.req), 2, 1, Look))
  }

  /** One host, free: the job at `tail` asks for it. Up to the end of the counting pass. */
  lemma CountOne(s: System) returns (s': System)
    requires Reachable(1, s) && WellFormed(s) && Quiet(s) && s.m.hosts == 1 && s.m.pcstat[1].Free?
    requires !s.m.IsEmpty() && s.m.jobq[s.m.tail].req == 1
    ensures var slot := s.m.jobq[s.m.tail];
            s' == PopStep(s).(d := Booking(Work(slot.id, slot.comm, 1), 1, 1, Look))
    ensures Reachable(1, s') && WellFormed(s')
  {
    TailWasPushed(s);
    var s1 := Go(1, s);
    var s2 := Go(1, s1);
    OneFree(s2.m);
    s' := Go(1, s2);
  }

  lemma LaunchOne(s: System) returns (s': System)
    requires Reachable(1, s) && WellFormed(s) && Quiet(s) && s.m.hosts == 1 && s.m.pcstat[1].Free?
    requires !s.m.IsEmpty() && s.m.jobq[s.m.tail].req == 1
    ensures s' == Launched(s) && Reachable(1, s') && WellFormed(s')
  {
    TailWasPushed(s);
    var s3 := CountOne(s);
    var s4 := Go(1, s3);
    var s5 := Go(1, s4);
    var s6 := Go(1, s5);
    s' := Go(1, s6);
  }

  /** The worker takes submit `f`, executes it and returns. */
  lemma Execute(hosts: nat, s: System, f: nat) returns (s': System)
    requires Reachable(hosts, s) && WellFormed(s) && OnHost(s, f, Phase.Submitted) && !Occupied(s, s.ledger[f].host)
    ensures s' == SetPhase(s, f, Returning) && Reachable(hosts, s') && WellFormed(s')
  {
    var s1 := Extend(hosts, s, WorkerTake(f));
    s' := Extend(hosts, s1, WorkerDone(f));
  }

  /** One job submitted to one host and executed there, its counter not yet written. */
  lemma FirstReturns(job: Job) returns (s: System)
    requires job.req == 1
    ensures Reachable(1, s) && WellFormed(s)
    ensures var s0 := Submitted(Init(1), job);
            WellFormed(s0) && !s0.m.IsEmpty() && s0.m.hosts == 1
            && |Launched(s0).ledger| == 1 && s == SetPhase(Launched(s0), 0, Returning)
  {
    StartReachable(1);
    var s0 := Submit(1, Init(1), job);
    var s1 := LaunchOne(s0);
    s := Execute(1, s1, 0);
  }

  // ---- the hazards

  /** The state `EarlyReturnStrands` begins in. */
  lemma EarlyReturnReached(comm: Text, user: Text) returns (s: System)
    ensures Reachable(1, s) && Inv(s) && Publishes(s, Dispatch) && s.r.Waiting?
    ensures OnHost(s, 0, Returning) && s.ledger[0].job == s.d.w.job
  {
    s := FirstReturns(Job(comm, user, 1));
    ReachableInv(1, s);
  }

  /** The state `EmptyRequestStrands` begins in. */
  lemma EmptyRequestReached(comm: Text, user: Text) returns (s: System)
    ensures Reachable(1, s) && Inv(s) && s.mon.Pushing? && s.d.Idle? && s.r.Waiting? && s.m.IsEmpty() && NoLap(s)
    ensures s.mon.job.req <= 0
  {
    StartReachable(1);
    s := Extend(1, Init(1), SubmitCheck(Job(comm, user, 0)));
    ReachableInv(1, s);
  }

  /** `n` jobs queued and nothing else done. */
  lemma {:induction false} Queued(n: nat, job: Job) returns (s: System)
    requires n < MAX_JOB_QUEUE && job.req >= 1
    ensures Reachable(1, s) && WellFormed(s) && Quiet(s)
    ensures |s.submitted| == n && s.popped == [] && s.m.jobnodes == Init(1).m.jobnodes
  {
    if n == 0 {
      StartReachable(1);
      s := Init(1);
    } else {
      var s0 := Queued(n - 1, job);
      s := Submit(1, s0, job);
    }
  }

  /** The state `FullPushEmpties` begins in. */
  lemma FullPushReached(job: Job) returns (s: System)
    requires job.req >= 1
    ensures Reachable(1, s) && Inv(s) && s.mon.Pushing? && s.m.IsFull()
  {
    var s0 := Queued(MAX_JOB_QUEUE - 1, job);
    s := Extend(1, s0, SubmitCheck(job));
    ReachableInv(1, s);
  }

  /** The first job's return is on its way and `n` jobs in all were submitted and popped. */
  ghost predicate FirstAway(s: System, n: nat) {
    && WellFormed(s) && Quiet(s) && s.m.hosts == 1 && |s.submitted| == |s.popped| == n
    && |s.ledger| == 1 && s.ledger[0].job == 0 && s.ledger[0].phase.Returning?
    && s.m.jobnodes == Init(1).m.jobnodes[0 := 1]
  }

  lemma FirstPublished(job: Job) returns (s: System)
    requires job.req == 1
    ensures Reachable(1, s) && FirstAway(s, 1)
  {
    var s0 := FirstReturns(job);
    s := Go(1, s0);
  }

  /** A job for two hosts is popped and dropped. */
  lemma Drop(s: System, n: nat, job: Job) returns (s': System)
    requires Reachable(1, s) && FirstAway(s, n) && 1 <= n < MAX_JOB_QUEUE && job.req == 2
    ensures Reachable(1, s') && FirstAway(s', n + 1)
  {
    var s1 := Submit(1, s, job);
    TailWasPushed(s1);
    s' := Go(1, s1);
  }

  lemma {:induction false} Dropped(n: nat, job: Job) returns (s: System)
    requires 1 <= n <= MAX_JOB_QUEUE
    ensures Reachable(1, s) && FirstAway(s, n)
  {
    if n == 1 {
      s := FirstPublished(job.(req := 1));
    } else {
      var s0 := Dropped(n - 1, job);
      s := Drop(s0, n - 1, job.(req := 2));
    }
  }

  /** The state `LapFinishesQueuedJob` begins in. */
  lemma LapReached(job: Job) returns (s: System)
    ensures Reachable(1, s) && Inv(s) && s.mon.Pushing? && !s.m.IsFull() && s.r.Waiting?
    ensures OnHost(s, 0, Returning) && s.ledger[0].job == s.m.head && Owing(s.ledger, s.m.head) == {0}
  {
    var s0 := Dropped(MAX_JOB_QUEUE, job);
    s := Extend(1, s0, SubmitCheck(job));
    ReachableInv(1, s);
  }

  // ---- overcounting, on two hosts

  lemma TwoSubmitted(comm: Text, user: Text) returns (s: System)
    ensures s == Submitted(Submitted(Init(2), Job(comm, user, 1)), Job(comm, user, 2))
    ensures Reachable(2, s) && WellFormed(s)
  {
    StartReachable(2);
    var s1 := Submit(2, Init(2), Job(comm, user, 1));
    s := Submit(2, s1, Job(comm, user, 2));
  }

  /** Two hosts, of which host 1 is free if `one`; a pass that has counted `count` so far. */
  lemma PassTwo(s: System, one: bool) returns (s': System)
    requires Reachable(2, s) && WellFormed(s) && s.m.hosts == 2 && s.d.Counting? && s.d.k == 1
    requires (s.m.pcstat[1].Free? <==> one) && s.m.pcstat[2].Free?
    ensures s' == s.(d := Counting(s.d.w, s.d.count + if one then 2 else 1, 3)) && Reachable(2, s') && WellFormed(s')
  {
    var s1 := Go(2, s);
    s' := Go(2, s1);
  }

  /** Book host 1 of two free ones: look, name, take, send. */
  lemma BookFirst(s: System) returns (s': System)
    requires Reachable(2, s) && WellFormed(s) && s.m.hosts == 2 && s.m.pcstat[1].Free?
    requires Books(s, Look) && s.d.i == 1 <= s.d.w.need && s.d.k == 1
    ensures s' == s.(m := SetHost(SetNode(s.m, 1, s.d.w.job), 1, Busy),
                     ledger := s.ledger + [Flight(1, s.d.w.job, s.d.w.comm, |s.popped| - 1, Phase.Submitted)],
                     d := Booking(s.d.w, 2, 1, Look))
    ensures Reachable(2, s') && WellFormed(s')
  {
    var s1 := Go(2, s);
    var s2 := Go(2, s1);
    var s3 := Go(2, s2);
    s' := Go(2, s3);
  }

  /** Host 1 has got the first job and the second one is queued. */
  lemma FirstOnTwo(comm: Text, user: Text) returns (s: System)
    ensures Reachable(2, s) && WellFormed(s) && Quiet(s) && s.m.hosts == 2 && !s.m.IsEmpty()
    ensures s.m.pcstat[1].Busy? && s.m.pcstat[2].Free? && s.m.jobq[s.m.tail].req == 2 && !s.resets
  {
    var s0 := TwoSubmitted(comm, user);
    TailWasPushed(s0);
    var s1 := Go(2, s0);
    var s2 := PassTwo(s1, true);
    OneFree(s2.m);
    var s3 := Go(2, s2);
    var s4 := BookFirst(s3);
    s := Go(2, s4);
  }

  /** The state in which `OvercountStrands` strands the job. */
  lemma OvercountReached(comm: Text, user: Text) returns (s: System)
    ensures Reachable(2, s) && Inv(s) && s.d.Counting? && s.d.k > s.m.hosts && s.d.count >= s.d.w.need
    ensures |FreeHosts(s.m)| < s.d.w.need && !s.resets
  {
    var s0 := FirstOnTwo(comm, user);
    TailWasPushed(s0);
    var s1 := Go(2, s0);
    var s2 := PassTwo(s1, false);
    var s3 := Go(2, s2);
    s := PassTwo(s3, false);
    assert FreeHosts(s.m) == {2};
    ReachableInv(2, s);
  }

  // ---- one host booked twice for one launch

  lemma TwoFree(m: Tables)
    requires m.Shaped() && m.hosts == 2 && m.pcstat[1].Free? && m.pcstat[2].Free?
    ensures |FreeHosts(m)| == 2
  {
    assert FreeHosts(m) == {1, 2};
  }

  /** A job for both hosts has got host 1. */
  lemma HalfBooked(comm: Text, user: Text) returns (s: System)
    ensures Reachable(2, s) && WellFormed(s) && Quiet(s.(d := Idle)) && s.m.hosts == 2
    ensures s.d == Booking(Work(0, comm, 2), 2, 1, Look) && |s.popped| == 1
    ensures s.ledger == [Flight(1, 0, comm, 0, Phase.Submitted)]
  {
    StartReachable(2);
    var s0 := Submit(2, Init(2), Job(comm, user, 2));
    TailWasPushed(s0);
    var s1 := Go(2, s0);
    var s2 := PassTwo(s1, true);
    TwoFree(s2.m);
    var s3 := Go(2, s2);
    s := BookFirst(s3);
  }

  /** The return of a launch's first submit is taken before its second host is looked for, and
      the scan stops at the same host again. */
  lemma RebookReached(comm: Text, user: Text) returns (s: System)
    ensures Reachable(2, s) && Inv(s) && Window.Rebooks(s, Dispatch)
  {
    var s4 := HalfBooked(comm, user);
    var s5 := Execute(2, s4, 0);
    s := Extend(2, s5, ResultTake(0));
    assert s.ledger[0].phase.Credited?;
    ReachableInv(2, s);
  }

  // ---- a cancel that stops another job

  /** The first of two jobs is on host 1. */
  lemma FirstOfTwo(comm: Text, user: Text) returns (s: System)
    ensures Reachable(1, s) && WellFormed(s) && Quiet(s) && s.m.hosts == 1
    ensures |s.ledger| == 1 && s.ledger[0] == Flight(1, 0, comm, 0, Phase.Submitted)
    ensures s.cancels == [] && s.m.jobnodes[0] == 1 && s.m.nodesstat[1] == 0
    ensures !s.m.IsEmpty() && s.m.tail == 1 && s.m.jobq[1].req == 1
  {
    StartReachable(1);
    var s0 := Submit(1, Init(1), Job(comm, user, 1));
    var s1 := Submit(1, s0, Job(comm, user, 1));
    var s2 := LaunchOne(s1);
    s := Go(1, s2);
  }

  /** Its cancel is on the way. */
  lemma CancelSent(comm: Text, user: Text) returns (s: System)
    ensures Reachable(1, s) && WellFormed(s) && Quiet(s) && s.m.hosts == 1
    ensures |s.ledger| == 1 && s.ledger[0] == Flight(1, 0, comm, 0, Phase.Submitted)
    ensures s.cancels == [CancelMsg(1, 0, false)] && s.m.jobnodes[0] == 1
    ensures !s.m.IsEmpty() && s.m.tail == 1 && s.m.jobq[1].req == 1
  {
    var s3 := FirstOfTwo(comm, user);
    var s4 := Extend(1, s3, CancelStart(0));
    var s5 := Extend(1, s4, CancelNext);
    s := Extend(1, s5, CancelNext);
  }

  /** The first job finishes before the cancel arrives. */
  lemma FinishFirst(s: System) returns (s': System)
    requires Reachable(1, s) && WellFormed(s) && Quiet(s) && s.m.hosts == 1
    requires |s.ledger| == 1 && s.ledger[0].phase.Submitted? && s.ledger[0].host == 1 && s.ledger[0].job == 0
    requires s.m.jobnodes[0] == 1
    ensures Reachable(1, s') && WellFormed(s') && Quiet(s') && s'.ledger == [s.ledger[0].(phase := Credited)]
    ensures s'.m == SetFinished(SetCount(SetHost(s.m, 1, Free), 0, 0), 0)
    ensures s'.cancels == s.cancels && s'.popped == s.popped
  {
    var s1 := Execute(1, s, 0);
    var s2 := Extend(1, s1, ResultTake(0));
    var s3 := Extend(1, s2, ResultNext);
    var s4 := Extend(1, s3, ResultNext);
    var s5 := Extend(1, s4, ResultNext);
    s' := Extend(1, s5, ResultNext);
  }

  /** A cancel for job 0 arrives when its host already executes job 1, and stops that. */
  lemma CancelStopsAnother(comm: Text, user: Text) returns (s: System)
    ensures Reachable(1, s) && Inv(s) && Enabled(s, CancelHit(0, 1))
    ensures s.cancels[0].job == 0 && s.ledger[1].job == 1 && s.m.jobq[0].stat.Finished?
    ensures Next(s, CancelHit(0, 1)).ledger[1].phase.Cancelled?
  {
    var s0 := CancelSent(comm, user);
    var s1 := FinishFirst(s0);
    var s2 := LaunchOne(s1);
    var s3 := Go(1, s2);
    s := Extend(1, s3, WorkerTake(1));
    ReachableInv(1, s);
  }
}
