/** What goes wrong, for every state, when a step is taken without its condition. */
module Hazards {
  import opened JobQueue
  import opened Machine
  import opened Invariant
  import opened Exactness
  import opened BookingOrder
  import DispatchSteps
  import Safety
  import Steps
  import ResultSteps

  // ---- stranded jobs

  /** The counter the next decrement of `job` starts from: the one already loaded, if any. */
  ghost function Level(s: System, job: nat): int
    requires WellFormed(s) && job < MAX_JOB_QUEUE
  {
    if s.r.Loaded? && s.ledger[s.r.f].job == job then s.r.v else s.m.jobnodes[job]
  }

  /** No return will ever bring the counter of `job` to zero: it exceeds what is outstanding, or
      is or will be negative, or nothing is outstanding at all. */
  ghost predicate Stranded(s: System, job: nat)
    requires WellFormed(s) && job < MAX_JOB_QUEUE
  {
    && Mine(s.d) != job
    && !(s.r.Finishing? && s.ledger[s.r.f].job == job)
    && (|| Level(s, job) > |Owing(s.ledger, job)| + Pending(s.ledger, s.r, job)
        || Level(s, job) < Pending(s.ledger, s.r, job)
        || (Owing(s.ledger, job) == {} && (s.r.Waiting? || s.ledger[s.r.f].job != job)))
  }

  /** The step takes `job`'s slot off the ring again. */
  ghost predicate Relaunches(s: System, e: Event, job: nat)
    requires WellFormed(s)
  {
    e.Dispatch? && s.d.Idle? && s.m.tail == job
  }

  lemma OwingSame(l: seq<Flight>, f: nat, phase: Phase, job: int)
    requires f < |l| && (phase.Credited? ==> l[f].job != job) && l[f].Owed()
    ensures Owing(l[f := l[f].(phase := phase)], job) == Owing(l, job)
  {
  }

  lemma OwingLess(l: seq<Flight>, f: nat, job: int)
    requires f < |l| && l[f].job == job && l[f].Owed()
    ensures |Owing(l[f := l[f].(phase := Credited)], job)| == |Owing(l, job)| - 1
  {
    assert Owing(l[f := l[f].(phase := Credited)], job) == Owing(l, job) - {f};
    assert f as int in Owing(l, job);
  }

  lemma StrandedTake(s: System, f: nat, job: nat)
    requires WellFormed(s) && job < MAX_JOB_QUEUE && Stranded(s, job) && Enabled(s, ResultTake(f))
    requires WellFormed(Next(s, ResultTake(f)))
    ensures Stranded(Next(s, ResultTake(f)), job)
  {
    if s.ledger[f].job == job {
      OwingLess(s.ledger, f, job);
      assert f as int in Owing(s.ledger, job);
    } else {
      OwingSame(s.ledger, f, Credited, job);
    }
  }

  lemma StrandedResult(s: System, job: nat)
    requires WellFormed(s) && job < MAX_JOB_QUEUE && Stranded(s, job) && Enabled(s, ResultNext)
    requires WellFormed(ResultStep(s))
    ensures Stranded(ResultStep(s), job)
    ensures ResultStep(s).m.jobq[job] == s.m.jobq[job]
  {
  }

  lemma StrandedDispatch(s: System, job: nat)
    requires WellFormed(s) && job < MAX_JOB_QUEUE && Stranded(s, job)
    requires Enabled(s, Dispatch) && !Relaunches(s, Dispatch, job) && WellFormed(DispatchStep(s))
    ensures Stranded(DispatchStep(s), job)
    ensures DispatchStep(s).m.jobq[job] == s.m.jobq[job]
  {
    if s.d.Idle? {
      TailWasPushed(s);
    } else if s.d.Booking? && s.d.at.Send? {
      StrandedSend(s, job);
    } else {
      StrandedScan(s, job);
    }
  }

  lemma StrandedScan(s: System, job: nat)
    requires WellFormed(s) && job < MAX_JOB_QUEUE && Stranded(s, job) && !s.d.Idle? && !Books(s, Send)
    requires WellFormed(DispatchStep(s))
    ensures Stranded(DispatchStep(s), job) && DispatchStep(s).m.jobq[job] == s.m.jobq[job]
  {
    ScanLeaves(s, job);
  }

  lemma ScanLeaves(s: System, job: nat)
    requires WellFormed(s) && job < MAX_JOB_QUEUE && Mine(s.d) != job && !s.d.Idle? && !Books(s, Send)
    ensures var s' := DispatchStep(s);
            && Mine(s'.d) != job && s'.ledger == s.ledger && s'.r == s.r && s'.m.jobq == s.m.jobq
            && |s'.m.jobnodes| == |s.m.jobnodes| && s'.m.jobnodes[job] == s.m.jobnodes[job]
  {
  }

  lemma StrandedSend(s: System, job: nat)
    requires WellFormed(s) && job < MAX_JOB_QUEUE && Stranded(s, job) && Books(s, Send) && WellFormed(SendStep(s))
    ensures Stranded(SendStep(s), job) && SendStep(s).m.jobq[job] == s.m.jobq[job]
  {
    var l' := SendStep(s).ledger;
    Steps.OwingAdds(s.ledger, l'[|s.ledger|], job);
    assert forall f :: 0 <= f < |s.ledger| ==> l'[f] == s.ledger[f];
    if Owing(s.ledger, job) == {} {
      assert |Owing(l', job)| == 0;
    }
  }

  lemma StrandedWorker(s: System, e: Event, job: nat)
    requires WellFormed(s) && job < MAX_JOB_QUEUE && Stranded(s, job) && Enabled(s, e)
    requires e.WorkerTake? || e.WorkerDone? || e.Lose? || e.CancelHit?
    requires WellFormed(Next(s, e))
    ensures Stranded(Next(s, e), job) && Next(s, e).m.jobq == s.m.jobq
  {
    OwingSame(s.ledger, e.f, Next(s, e).ledger[e.f].phase, job);
  }

  /** A stranded job stays stranded, and is never marked finished, until its slot is
      dispatched again; no condition is asked of the steps. */
  lemma StrandedStep(s: System, e: Event, job: nat)
    requires WellFormed(s) && job < MAX_JOB_QUEUE && Stranded(s, job)
    requires Enabled(s, e) && !Relaunches(s, e, job)
    ensures WellFormed(Next(s, e)) && Stranded(Next(s, e), job)
    ensures Next(s, e).m.jobq[job] == s.m.jobq[job] || Next(s, e).m.jobq[job].stat.InQueue?
  {
    NextWellFormed(s, e);
    match e
    case Dispatch => StrandedDispatch(s, job);
    case ResultTake(f) => StrandedTake(s, f, job);
    case ResultNext => StrandedResult(s, job);
    case WorkerTake(_) => StrandedWorker(s, e, job);
    case WorkerDone(_) => StrandedWorker(s, e, job);
    case CancelHit(_, _) => StrandedWorker(s, e, job);
    case Lose(_) => StrandedWorker(s, e, job);
    case _ =>
  }

  ghost predicate NoRelaunch(s: System, es: seq<Event>, job: nat)
    requires WellFormed(s) && Run(s, es)
    decreases |es|
  {
    es != [] ==> !Relaunches(s, es[0], job) && (NextWellFormed(s, es[0]); NoRelaunch(Next(s, es[0]), es[1..], job))
  }

  /** In no continuation is `job` marked finished before its slot is dispatched again. */
  ghost predicate NeverFinished(s: System, job: nat)
    requires WellFormed(s) && job < MAX_JOB_QUEUE
  {
    forall es :: Run(s, es) && NoRelaunch(s, es, job) ==> NotFinishedAfter(s, es, job)
  }

  ghost predicate NotFinishedAfter(s: System, es: seq<Event>, job: nat)
    requires WellFormed(s) && Run(s, es) && job < MAX_JOB_QUEUE
  {
    var s' := After(s, es);
    WellFormed(s') && !s'.m.jobq[job].stat.Finished?
  }

  lemma {:induction false} StrandedForever(s: System, es: seq<Event>, job: nat)
    requires WellFormed(s) && job < MAX_JOB_QUEUE && Stranded(s, job) && !s.m.jobq[job].stat.Finished?
    requires Run(s, es) && NoRelaunch(s, es, job)
    ensures NotFinishedAfter(s, es, job)
    decreases |es|
  {
    if es != [] {
      StrandedStep(s, es[0], job);
      StrandedForever(Next(s, es[0]), es[1..], job);
    }
  }

  lemma StrandedNeverFinishes(s: System, job: nat)
    requires WellFormed(s) && job < MAX_JOB_QUEUE && Stranded(s, job) && !s.m.jobq[job].stat.Finished?
    ensures NeverFinished(s, job)
  {
    forall es | Run(s, es) && NoRelaunch(s, es, job) ensures NotFinishedAfter(s, es, job) {
      StrandedForever(s, es, job);
    }
  }

  /** The job in hand is running. */
  lemma MineRuns(s: System)
    requires Base(s) && !s.d.Idle?
    ensures s.m.jobq[s.d.w.job].stat.Running?
  {
    assert SlotOf(|s.popped| - 1) == s.d.w.job;
  }

  // ---- too few hosts

  lemma {:induction false} OwingSent(l: seq<Flight>, ks: seq<nat>, w: Work, ticket: nat)
    ensures |Owing(l + FlightsTo(ks, w, ticket), w.job)| == |Owing(l, w.job)| + |ks|
    decreases |ks|
  {
    if ks == [] {
      assert l + [] == l;
    } else {
      var x := Flight(ks[0], w.job, w.comm, ticket, Submitted);
      assert l + FlightsTo(ks, w, ticket) == (l + [x]) + FlightsTo(ks[1..], w, ticket);
      Steps.OwingAdds(l, x, w.job);
      OwingSent(l + [x], ks[1..], w, ticket);
    }
  }

  lemma BookCounts(s: System, ks: seq<nat>)
    requires WellFormed(s) && Books(s, Look) && forall i :: 0 <= i < |ks| ==> ks[i] <= s.m.hosts
    ensures var s', job := Book(s, ks), s.d.w.job;
            && s'.m.jobnodes[job] == s.d.w.need
            && |Owing(s'.ledger, job)| == |Owing(s.ledger, job)| + |ks|
            && |s'.ledger| >= |s.ledger| && s'.d.Idle?
            && (forall f :: 0 <= f < |s.ledger| ==> s'.ledger[f] == s.ledger[f])
            && s'.r == s.r && s'.m.jobq == s.m.jobq
  {
    OwingSent(s.ledger, ks, s.d.w, |s.popped| - 1);
  }

  lemma NothingOwedYet(s: System)
    requires Inv(s) && s.d.Counting?
    ensures Owing(s.ledger, s.d.w.job) == {}
    ensures !s.r.Waiting? ==> s.ledger[s.r.f].job != s.d.w.job
  {
    if !s.r.Waiting? {
      DispatchSteps.MineByTicket(s.ledger, s.r, s.d, s.m.hosts, s.submitted, |s.popped|);
      assert s.r.f !in Sent(s.ledger, |s.popped| - 1);
    }
  }

  /** When a pass ends with a count that reaches `need`, an uninterrupted booking leaves the
      counter equal to the outstanding submits if and only if `need` hosts really are free. If
      the count was gathered over several passes and they are not, the job never finishes. */
  lemma OvercountStrands(s: System) returns (es: seq<Event>, s': System)
    requires Inv(s) && s.d.Counting? && s.d.k > s.m.hosts && s.d.count >= s.d.w.need
    ensures Reaches(s, es, s') && s'.d.Idle?
    ensures s'.m.jobnodes[s.d.w.job] == |Owing(s'.ledger, s.d.w.job)| <==> |FreeHosts(s.m)| >= s.d.w.need
    ensures |FreeHosts(s.m)| < s.d.w.need ==> Stranded(s', s.d.w.job) && NeverFinished(s', s.d.w.job)
  {
    NothingOwedYet(s);
    MineRuns(s);
    var s1 := CountStep(s);
    assert s1 == s.(d := Booking(s.d.w, 1, 1, Look));
    NextWellFormed(s, Dispatch);
    var n := UninterruptedBooking(s1);
    FreeListIsFree(s.m.hosts, s.m.pcstat, 1);
    es := Turns(n + 1);
    Turn(s, n);
    s' := After(s, es);
    RunWellFormed(s, es);
    BookCounts(s1, Chosen(s1));
    DispatchedOwing(s, s', Chosen(s1));
    if |FreeHosts(s.m)| < s.d.w.need {
      StrandedNeverFinishes(s', s.d.w.job);
    }
  }

  lemma DispatchedOwing(s: System, s': System, ks: seq<nat>)
    requires WellFormed(s) && s.d.Counting? && WellFormed(s') && s'.d.Idle? && s'.r == s.r
    requires Owing(s.ledger, s.d.w.job) == {} && (!s.r.Waiting? ==> s.ledger[s.r.f].job != s.d.w.job)
    requires |s'.ledger| >= |s.ledger| && forall f :: 0 <= f < |s.ledger| ==> s'.ledger[f] == s.ledger[f]
    requires s'.m.jobnodes[s.d.w.job] == s.d.w.need
    requires |Owing(s'.ledger, s.d.w.job)| == |Owing(s.ledger, s.d.w.job)| + |ks|
    ensures |Owing(s'.ledger, s.d.w.job)| == |ks|
    ensures |ks| < s.d.w.need ==> Stranded(s', s.d.w.job)
  {
  }

  // ---- a return counted too early

  /** The state once the return of flight `f` has been taken and its counter lowered. */
  ghost function Credit(s: System, f: nat): System
    requires WellFormed(s) && f < |s.ledger|
  {
    var job := s.ledger[f].job;
    SetPhase(s, f, Credited).(
      m := SetCount(SetHost(s.m, s.ledger[f].host, Free), job, s.m.jobnodes[job] - 1),
      r := Counted(f))
  }

  lemma CreditReaches(s: System, f: nat, rest: seq<Event>, s': System)
    requires WellFormed(s) && Enabled(s, ResultTake(f))
    requires WellFormed(Credit(s, f)) && Reaches(Credit(s, f), rest, s')
    ensures Reaches(s, [ResultTake(f)] + ([ResultNext] + ([ResultNext] + rest)), s')
  {
    var s1 := Next(s, ResultTake(f));
    NextWellFormed(s, ResultTake(f));
    var s2 := ResultStep(s1);
    ResultWellFormed(s1);
    assert ResultStep(s2) == Credit(s, f);
    StepThen(s2, ResultNext, rest, s');
    StepThen(s1, ResultNext, [ResultNext] + rest, s');
    StepThen(s, ResultTake(f), [ResultNext] + ([ResultNext] + rest), s');
  }

  lemma CreditWellFormed(s: System, f: nat)
    requires WellFormed(s) && f < |s.ledger|
    ensures WellFormed(Credit(s, f))
  {
  }

  /** Writing the counter strands the job, for good, if and only if decrements for it began
      before. The counter then exceeds what is outstanding by that debt; but if a decrement has
      loaded the counter before the write and stores it after, it is left at minus the debt. */
  lemma DebtStrands(s: System)
    requires Base(s) && Publishes(s, Dispatch)
    ensures var s', job := PublishStep(s), s.d.w.job;
            && DispatchStep(s) == s' && WellFormed(s') && Debt(s) >= 0
            && (!LoadedMine(s) ==>
                  s'.m.jobnodes[job] == |Owing(s'.ledger, job)| + Pending(s'.ledger, s'.r, job) + Debt(s))
            && (LoadedMine(s) ==> ResultStep(s').m.jobnodes[job] == -Debt(s))
            && (Stranded(s', job) <==> Debt(s) > 0)
            && (Debt(s) > 0 ==> NeverFinished(s', job))
  {
    DispatchSteps.PublishExact(s);
    BookWellFormed(s);
    MineRuns(s);
    if Debt(s) > 0 {
      StrandedNeverFinishes(PublishStep(s), s.d.w.job);
    } else {
      NeedsOne(s);
    }
  }

  lemma NeedsOne(s: System)
    requires Base(s) && s.d.Booking?
    ensures s.d.w.need >= 1
  {
  }

  /** The result thread takes, counts and tests the return of a submit of the job in hand. */
  lemma EarlyCount(s: System, f: nat)
    requires Base(s) && s.r.Waiting? && OnHost(s, f, Returning)
    requires s.m.jobnodes[s.ledger[f].job] == 0
    ensures var s2 := Credit(s, f);
            && Base(s2) && Base(s2.(r := Waiting)) && ResultStep(s2) == s2.(r := Waiting)
            && s2.m.jobnodes[s.ledger[f].job] == -1
  {
    CreditKeeps(s, f);
    ResultSteps.CountedMore(Credit(s, f));
  }

  lemma CreditKeeps(s: System, f: nat)
    requires Base(s) && s.r.Waiting? && OnHost(s, f, Returning)
    ensures Base(Credit(s, f))
  {
    ResultSteps.TakeReturnKeeps(s, f);
    var s1 := ResultSteps.TakeReturn(s, f);
    ResultSteps.LoadKeeps(s1);
    ResultSteps.StoreKeeps(ResultStep(s1));
    CreditIsTaken(s, f);
  }

  lemma CreditIsTaken(s: System, f: nat)
    requires WellFormed(s) && f < |s.ledger| && WellFormed(ResultSteps.TakeReturn(s, f))
    requires WellFormed(ResultStep(ResultSteps.TakeReturn(s, f)))
    ensures ResultStep(ResultStep(ResultSteps.TakeReturn(s, f))) == Credit(s, f)
  {
  }

  /** When the dispatcher is about to write the counter and the return of one of its own
      submits is taken and counted first, the job never finishes. */
  lemma EarlyReturnStrands(s: System, f: nat) returns (s': System)
    requires Inv(s) && Publishes(s, Dispatch) && s.r.Waiting?
    requires OnHost(s, f, Returning) && s.ledger[f].job == s.d.w.job
    ensures Reaches(s, [ResultTake(f)] + ([ResultNext] + ([ResultNext] + ([ResultNext] + ([Dispatch] + [])))), s')
    ensures Stranded(s', s.d.w.job) && NeverFinished(s', s.d.w.job)
  {
    EarlyCount(s, f);
    var s3 := Credit(s, f).(r := Waiting);
    s' := PublishStep(s3);
    DebtStrands(s3);
    EarlyRun(s, f, s');
  }

  lemma EarlyRun(s: System, f: nat, s': System)
    requires WellFormed(s) && Enabled(s, ResultTake(f)) && WellFormed(Credit(s, f)) && WellFormed(s')
    requires var s3 := Credit(s, f).(r := Waiting);
             ResultStep(Credit(s, f)) == s3 && WellFormed(s3) && Enabled(s3, Dispatch) && DispatchStep(s3) == s'
    ensures Reaches(s, [ResultTake(f)] + ([ResultNext] + ([ResultNext] + ([ResultNext] + ([Dispatch] + [])))), s')
  {
    var s2 := Credit(s, f);
    StepThen(s2.(r := Waiting), Dispatch, [], s');
    StepThen(s2, ResultNext, [Dispatch] + [], s');
    CreditReaches(s, f, [ResultNext] + ([Dispatch] + []), s');
  }

  /** The state with the return of flight `f` taken and its counter loaded. */
  ghost function Loading(s: System, f: nat): System
    requires WellFormed(s) && f < |s.ledger|
  {
    ResultSteps.TakeReturn(s, f).(r := Loaded(f, s.m.jobnodes[s.ledger[f].job]))
  }

  lemma LoadingKeeps(s: System, f: nat)
    requires Base(s) && Enabled(s, ResultTake(f))
    ensures Base(Loading(s, f)) && Reaches(s, [ResultTake(f)] + ([ResultNext] + []), Loading(s, f))
  {
    ResultSteps.TakeReturnKeeps(s, f);
    ResultSteps.LoadKeeps(ResultSteps.TakeReturn(s, f));
    WorkerWellFormed(s, f, Credited);
    LoadingRun(s, f);
  }

  lemma LoadingRun(s: System, f: nat)
    requires WellFormed(s) && Enabled(s, ResultTake(f))
    requires WellFormed(ResultSteps.TakeReturn(s, f)) && WellFormed(Loading(s, f))
    ensures ResultStep(ResultSteps.TakeReturn(s, f)) == Loading(s, f)
    ensures Reaches(s, [ResultTake(f)] + ([ResultNext] + []), Loading(s, f))
  {
    StepThen(ResultSteps.TakeReturn(s, f), ResultNext, [], Loading(s, f));
    StepThen(s, ResultTake(f), [ResultNext] + [], Loading(s, f));
  }

  /** When a decrement loads the counter just before the dispatcher writes it and stores it just
      after, the write is lost and the job never finishes. */
  lemma LostWriteStrands(s: System, f: nat) returns (s': System)
    requires Inv(s) && Publishes(s, Dispatch) && s.r.Waiting?
    requires OnHost(s, f, Returning) && s.ledger[f].job == s.d.w.job
    ensures Reaches(s, [ResultTake(f)] + ([ResultNext] + []) + ([Dispatch] + ([ResultNext] + [])), s')
    ensures s'.m.jobnodes[s.d.w.job] == -1 && Stranded(s', s.d.w.job) && NeverFinished(s', s.d.w.job)
  {
    LoadingKeeps(s, f);
    var s1 := Loading(s, f);
    s' := StoreAfter(s1);
    ReachThen(s, [ResultTake(f)] + ([ResultNext] + []), s1, [Dispatch] + ([ResultNext] + []), s');
  }

  lemma StoreAfter(s: System) returns (s': System)
    requires Base(s) && Publishes(s, Dispatch) && LoadedMine(s)
    ensures WellFormed(PublishStep(s)) && s' == ResultStep(PublishStep(s))
    ensures Reaches(s, [Dispatch] + ([ResultNext] + []), s')
    ensures s'.m.jobnodes[s.d.w.job] == s.r.v - 1 && Stranded(s', s.d.w.job) && NeverFinished(s', s.d.w.job)
  {
    DebtStrands(s);
    MineRuns(s);
    s' := StoreRun(s);
  }

  lemma StoreRun(s: System) returns (s': System)
    requires WellFormed(s) && Publishes(s, Dispatch) && LoadedMine(s) && WellFormed(PublishStep(s))
    requires Stranded(PublishStep(s), s.d.w.job) && s.m.jobq[s.d.w.job].stat.Running?
    ensures s' == ResultStep(PublishStep(s)) && Reaches(s, [Dispatch] + ([ResultNext] + []), s')
    ensures Stranded(s', s.d.w.job) && NeverFinished(s', s.d.w.job)
  {
    var s2 := PublishStep(s);
    s' := ResultStep(s2);
    ResultWellFormed(s2);
    StrandedResult(s2, s.d.w.job);
    StrandedNeverFinishes(s', s.d.w.job);
    StepThen(s2, ResultNext, [], s');
    StepThen(s, Dispatch, [ResultNext] + [], s');
  }

  // ---- pushes without room

  /** A push makes the ring look empty, with all 32 waiting jobs gone from the dispatcher's
      view, if and only if the ring was full. */
  lemma FullPushEmpties(s: System)
    requires Inv(s) && s.mon.Pushing?
    ensures PushStep(s).m.IsEmpty() <==> s.m.IsFull()
    ensures s.m.IsFull() <==> |PushStep(s).submitted| == |PushStep(s).popped| + MAX_JOB_QUEUE
  {
    Steps.FullMeansWindow(s);
  }

  /** The last return of a slot's old job marks whatever job the slot holds as finished. */
  lemma LastReturnFinishes(s: System, f: nat)
    requires WellFormed(s) && !s.mon.Sweeping? && f < |s.ledger|
    requires s.m.jobnodes[s.ledger[f].job] == 1 && WellFormed(Credit(s, f))
    ensures var s2 := Credit(s, f);
            && ResultStep(s2) == s2.(r := Finishing(f)) && WellFormed(ResultStep(s2))
            && Enabled(ResultStep(s2), ResultNext) && WellFormed(ResultStep(ResultStep(s2)))
            && ResultStep(ResultStep(s2)).m == SetFinished(s2.m, s.ledger[f].job)
  {
    ResultWellFormed(Credit(s, f));
    ResultWellFormed(ResultStep(Credit(s, f)));
  }

  /** Reusing a slot whose last return is still on its way lets that return finish the new
      job while the new job is still queued. */
  lemma LapFinishesQueuedJob(s: System, f: nat) returns (s': System)
    requires Inv(s) && s.mon.Pushing? && !s.m.IsFull() && s.r.Waiting?
    requires OnHost(s, f, Returning) && s.ledger[f].job == s.m.head && Owing(s.ledger, s.m.head) == {f}
    ensures Reaches(s, [SubmitPush] + LapSteps(f), s')
    ensures s'.m.jobq[s.m.head] == Slot(s.mon.job.comm, s.mon.job.user, s.mon.job.req, Finished, s.m.head)
    ensures InQueueAt(s', s.m.head)
  {
    Steps.HeadNotMine(s);
    Steps.CountOf(s, s.m.head);
    s' := LapRun(s, f);
    PushedInCycle(s);
  }

  function LapSteps(f: nat): seq<Event> {
    [ResultTake(f)] + ([ResultNext] + ([ResultNext] + ([ResultNext] + ([ResultNext] + []))))
  }

  lemma LapRun(s: System, f: nat) returns (s': System)
    requires WellFormed(s) && s.mon.Pushing? && s.r.Waiting? && OnHost(s, f, Returning)
    requires s.ledger[f].job == s.m.head && s.m.jobnodes[s.m.head] == 1
    ensures WellFormed(PushStep(s)) && s'.m == SetFinished(Credit(PushStep(s), f).m, s.m.head)
    ensures Reaches(s, [SubmitPush] + LapSteps(f), s')
  {
    PushWellFormed(s);
    var s1 := PushStep(s);
    CreditWellFormed(s1, f);
    LastReturnFinishes(s1, f);
    var s2 := Credit(s1, f);
    var s3 := ResultStep(s2);
    s' := ResultStep(s3);
    StepThen(s3, ResultNext, [], s');
    StepThen(s2, ResultNext, [ResultNext] + [], s');
    CreditReaches(s1, f, [ResultNext] + ([ResultNext] + []), s');
    StepThen(s, SubmitPush, LapSteps(f), s');
  }

  lemma PushedInCycle(s: System)
    requires Inv(s) && s.mon.Pushing? && !s.m.IsFull()
    ensures InQueueAt(PushStep(s), s.m.head)
  {
  }

  ghost predicate InQueueAt(s: System, i: nat) {
    Safety.InCycle(s.m.tail, s.m.head, i) && i != s.m.head
  }

  // ---- a request for no hosts

  /** The dispatch of a request for no hosts, from the end of its counting pass. */
  lemma EmptyWrite(s: System)
    requires WellFormed(s) && s.d.Counting? && s.d.k > s.m.hosts && s.d.w.need <= 0 <= s.d.count
    requires Owing(s.ledger, s.d.w.job) == {} && s.r.Waiting? && s.m.jobq[s.d.w.job].stat.Running?
    ensures var s' := SetCounter(s);
            && Reaches(s, [Dispatch] + ([Dispatch] + []), s')
            && Stranded(s', s.d.w.job) && NeverFinished(s', s.d.w.job)
  {
    var s1, s' := CountStep(s), SetCounter(s);
    NextWellFormed(s, Dispatch);
    BookWellFormed(s1);
    assert DispatchStep(s1) == s';
    StepThen(s1, Dispatch, [], s');
    StepThen(s, Dispatch, [Dispatch] + [], s');
    StrandedNeverFinishes(s', s.d.w.job);
  }

  ghost function SetCounter(s: System): System
    requires WellFormed(s) && s.d.Counting?
  {
    s.(m := SetCount(s.m, s.d.w.job, s.d.w.need), d := Idle)
  }

  /** The dispatcher's state once it has popped the job just pushed on an empty ring. */
  ghost function Popped(s: System): System
    requires WellFormed(s) && s.mon.Pushing? && s.d.Idle? && s.m.IsEmpty() && s.mon.job.req <= s.m.hosts
  {
    PushWellFormed(s);
    PopStep(PushStep(s))
  }

  lemma PushThenPop(s: System)
    requires Inv(s) && s.mon.Pushing? && s.d.Idle? && s.r.Waiting? && s.m.IsEmpty() && s.mon.job.req <= s.m.hosts
    requires NoLap(s)
    ensures var s2 := Popped(s);
            && Reaches(s, [SubmitPush] + ([Dispatch] + []), s2)
            && s2.d == Counting(Work(s.m.head, s.mon.job.comm, s.mon.job.req), 0, 1)
            && s2.m.jobq[s.m.head].stat.Running? && Owing(s2.ledger, s.m.head) == {} && s2.r.Waiting?
  {
    PushWellFormed(s);
    var s1 := PushStep(s);
    PopWellFormed(s1);
    Steps.HeadNotMine(s);
    Steps.CountOf(s, s.m.head);
    StepThen(s1, Dispatch, [], Popped(s));
    StepThen(s, SubmitPush, [Dispatch] + [], Popped(s));
  }

  /** A request for no hosts, pushed while nothing else is queued, is dispatched to nobody and
      its job never finishes. */
  lemma EmptyRequestStrands(s: System) returns (es: seq<Event>, s': System)
    requires Inv(s) && s.mon.Pushing? && s.d.Idle? && s.r.Waiting? && s.m.IsEmpty() && NoLap(s)
    requires s.mon.job.req <= 0
    ensures Reaches(s, es, s') && Stranded(s', s.m.head) && NeverFinished(s', s.m.head)
  {
    PushThenPop(s);
    var s2 := Popped(s);
    var n := PassIsRun(s2);
    var s3 := PassDone(s2);
    EmptyWrite(s3);
    s' := SetCounter(s3);
    ReachThen(s2, Turns(n), s3, [Dispatch] + ([Dispatch] + []), s');
    es := [SubmitPush] + ([Dispatch] + []) + (Turns(n) + ([Dispatch] + ([Dispatch] + [])));
    ReachThen(s, [SubmitPush] + ([Dispatch] + []), s2, Turns(n) + ([Dispatch] + ([Dispatch] + [])), s');
  }
}
