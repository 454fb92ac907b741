/** Master, workers and messages as one state, advanced by the small steps of the
    threads that touch the tables. The steps are the program's own: the submit does
    not wait on a full queue, the free-host count is not reset between passes, unless
    the flag `resets` puts that back, and the outstanding counter is written after the
    sends. */
module Machine {
  import opened JobQueue

  /** What one submit message to a worker is going through. `Credited` is reached when
      the result thread takes the return, `Lost` when a datagram is dropped. */
  datatype Phase = Submitted | Executing | Cancelled | Returning | Credited | Lost

  /** One submit message sent to a host. `ticket` is the number of the launch it
      belongs to, which no program variable holds. */
  datatype Flight = Flight(host: nat, job: nat, comm: Text, ticket: nat, phase: Phase) {
    /** The master has not taken the return of this submit. */
    predicate Owed() {
      !phase.Credited?
    }
  }

  datatype CancelMsg = CancelMsg(host: nat, job: int, delivered: bool)

  /** The monitor thread: between its two critical sections of a submit, or inside a
      cancel's sweep over the hosts. */
  datatype Monitor = Ready | Pushing(job: Job) | Sweeping(target: int, node: nat)

  /** The dispatcher's private copy of the popped slot. */
  datatype Work = Work(job: nat, comm: Text, need: int)

  /** Inside one booking: read the host, name its job, mark it busy, send. */
  datatype BookStep = Look | Name | Take | Send

  datatype Dispatcher =
    | Idle
    | Counting(w: Work, count: int, k: nat)
    | Booking(w: Work, i: int, k: nat, at: BookStep)

  /** The result thread: host freed, counter loaded as `v`, counter stored one lower, about to
      mark the job finished. Load and store of the decrement are two accesses. */
  datatype Results = Waiting | Freed(f: nat) | Loaded(f: nat, v: int) | Counted(f: nat) | Finishing(f: nat)

  /** `resets` tells the dispatcher whose reset of the count is commented out from the one where
      it is put back. `ledger` keeps every submit message ever sent, in order; `submitted`, `popped`
      and `finished` record the pushes, pops and finish marks so far. */
  datatype System = System(
    m: Tables,
    resets: bool,
    mon: Monitor,
    d: Dispatcher,
    r: Results,
    ledger: seq<Flight>,
    cancels: seq<CancelMsg>,
    submitted: seq<Job>,
    popped: seq<(Text, int)>,
    finished: seq<nat>)

  datatype Event =
    | SubmitCheck(job: Job)
    | SubmitPush
    | CancelStart(target: int)
    | CancelNext
    | Dispatch
    | WorkerTake(f: nat)
    | WorkerDone(f: nat)
    | CancelHit(c: nat, f: nat)
    | CancelMiss(c: nat)
    | ResultTake(f: nat)
    | ResultNext
    | Lose(f: nat)

  function Init(hosts: nat, resets: bool := false): System
    requires hosts < MAX_NUM_HOSTS
  {
    System(InitTables(hosts), resets, Ready, Idle, Waiting, [], [], [], [], [])
  }

  /** Facts that no step of the program breaks, whatever the callers do. */
  ghost predicate WellFormed(s: System) {
    && s.m.Shaped()
    && |s.popped| <= |s.submitted|
    && s.m.head == |s.submitted| % MAX_JOB_QUEUE
    && s.m.tail == |s.popped| % MAX_JOB_QUEUE
    && (forall j :: 0 <= j < MAX_JOB_QUEUE ==> s.m.jobq[j].id == if j < |s.submitted| then j else -1)
    && (forall f :: 0 <= f < |s.ledger| ==> 1 <= s.ledger[f].host <= s.m.hosts && s.ledger[f].job < MAX_JOB_QUEUE)
    && (s.mon.Sweeping? ==> 1 <= s.mon.node <= s.m.hosts + 1)
    && (!s.r.Waiting? ==> s.r.f < |s.ledger|)
    && (!s.d.Idle? ==> s.d.w.job < MAX_JOB_QUEUE && 1 <= s.d.k <= s.m.hosts + 1 && 1 <= |s.popped|)
    && (s.d.Booking? && !s.d.at.Look? ==> s.d.k <= s.m.hosts)
  }

  ghost function SetPhase(s: System, f: nat, phase: Phase): System
    requires f < |s.ledger|
  {
    s.(ledger := s.ledger[f := s.ledger[f].(phase := phase)])
  }

  /** job_monitor_etransfer: the push half of a submit. */
  ghost function PushStep(s: System): System
    requires WellFormed(s) && s.mon.Pushing?
  {
    s.(m := PushJob(s.m, s.mon.job), mon := Ready, submitted := s.submitted + [s.mon.job])
  }

  /** job_monitor_etransfer: one host of a cancel's sweep. */
  ghost function SweepStep(s: System): System
    requires WellFormed(s) && s.mon.Sweeping?
  {
    var k := s.mon.node;
    if k > s.m.hosts then
      s.(mon := Ready)
    else
      s.(mon := Sweeping(s.mon.target, k + 1),
         cancels := if s.m.nodesstat[k] == s.mon.target
                    then s.cancels + [CancelMsg(k, s.mon.target, false)] else s.cancels)
  }

  /** A slot about to be popped carries its own index as job id. */
  lemma TailWasPushed(s: System)
    requires WellFormed(s) && !s.m.IsEmpty()
    ensures |s.popped| < |s.submitted| && s.m.jobq[s.m.tail].id == s.m.tail
  {
  }

  /** job_queue_pop: the critical section, and the test that skips an oversize job. */
  ghost function PopStep(s: System): System
    requires WellFormed(s) && s.d.Idle? && !s.m.IsEmpty()
  {
    TailWasPushed(s);
    var slot := s.m.jobq[s.m.tail];
    s.(m := PopJob(s.m),
       popped := s.popped + [(slot.comm, slot.req)],
       d := if slot.req <= s.m.hosts
            then Counting(Work(slot.id, slot.comm, slot.req), 0, 1) else Idle)
  }

  /** job_queue_pop: count one host, or decide at the end of a pass. The next pass counts on
      from this one, or, in the dispatcher with the reset put back, afresh. */
  ghost function CountStep(s: System): System
    requires WellFormed(s) && s.d.Counting?
  {
    var w, count, k := s.d.w, s.d.count, s.d.k;
    if k <= s.m.hosts then
      s.(d := Counting(w, if s.m.pcstat[k] == Free then count + 1 else count, k + 1))
    else if count < w.need then
      s.(d := Counting(w, if s.resets then 0 else count, 1))
    else
      s.(d := Booking(w, 1, 1, Look))
  }

  ghost predicate Books(s: System, at: BookStep) {
    s.d.Booking? && s.d.at == at
  }

  /** job_queue_pop: the outer booking loop is done; write the counter. */
  ghost function PublishStep(s: System): System
    requires WellFormed(s) && Books(s, Look)
  {
    s.(m := SetCount(s.m, s.d.w.job, s.d.w.need), d := Idle)
  }

  /** job_queue_pop: read one host, or start the next outer turn when none is left. */
  ghost function LookStep(s: System): System
    requires WellFormed(s) && Books(s, Look)
  {
    var w, i, k := s.d.w, s.d.i, s.d.k;
    s.(d := if k > s.m.hosts then Booking(w, i + 1, 1, Look)
            else if s.m.pcstat[k] == Free then Booking(w, i, k, Name)
            else Booking(w, i, k + 1, Look))
  }

  ghost function NameStep(s: System): System
    requires WellFormed(s) && Books(s, Name)
  {
    s.(m := SetNode(s.m, s.d.k, s.d.w.job), d := s.d.(at := Take))
  }

  ghost function TakeStep(s: System): System
    requires WellFormed(s) && Books(s, Take)
  {
    s.(m := SetHost(s.m, s.d.k, Busy), d := s.d.(at := Send))
  }

  ghost function SendStep(s: System): System
    requires WellFormed(s) && Books(s, Send)
  {
    s.(ledger := s.ledger + [Flight(s.d.k, s.d.w.job, s.d.w.comm, |s.popped| - 1, Submitted)],
       d := Booking(s.d.w, s.d.i + 1, 1, Look))
  }

  /** One shared access of the dispatcher. */
  ghost function DispatchStep(s: System): System
    requires WellFormed(s) && (s.d.Idle? ==> !s.m.IsEmpty())
  {
    match s.d
    case Idle => PopStep(s)
    case Counting(_, _, _) => CountStep(s)
    case Booking(w, i, _, Look) => if i > w.need then PublishStep(s) else LookStep(s)
    case Booking(_, _, _, Name) => NameStep(s)
    case Booking(_, _, _, Take) => TakeStep(s)
    case Booking(_, _, _, Send) => SendStep(s)
  }

  /** job_queue_result_1: after the host was freed. The finish mark takes the lock. */
  ghost function ResultStep(s: System): System
    requires WellFormed(s) && !s.r.Waiting?
  {
    var f := s.r.f;
    var job := s.ledger[f].job;
    match s.r
    case Freed(_) => s.(r := Loaded(f, s.m.jobnodes[job]))
    case Loaded(_, v) => s.(m := SetCount(s.m, job, v - 1), r := Counted(f))
    case Counted(_) => s.(r := if s.m.jobnodes[job] == 0 then Finishing(f) else Waiting)
    case Finishing(_) =>
      s.(m := SetFinished(s.m, job), r := Waiting, finished := s.finished + [s.ledger[f].ticket])
  }

  predicate OnHost(s: System, f: nat, phase: Phase) {
    f < |s.ledger| && s.ledger[f].phase == phase
  }

  /** The worker on host `k` has a job thread. */
  ghost predicate Occupied(s: System, k: nat) {
    exists g :: 0 <= g < |s.ledger| && s.ledger[g].host == k
                && (s.ledger[g].phase.Executing? || s.ledger[g].phase.Cancelled?)
  }

  ghost predicate Enabled(s: System, e: Event)
    requires WellFormed(s)
  {
    match e
    case SubmitCheck(_) => s.mon.Ready?
    case SubmitPush => s.mon.Pushing?
    case CancelStart(_) => s.mon.Ready?
    case CancelNext => s.mon.Sweeping?
    case Dispatch => s.d.Idle? ==> !s.m.IsEmpty() && !s.mon.Sweeping?
    case WorkerTake(f) => OnHost(s, f, Submitted) && !Occupied(s, s.ledger[f].host)
    case WorkerDone(f) => OnHost(s, f, Executing) || OnHost(s, f, Cancelled)
    case CancelHit(c, f) =>
      && c < |s.cancels| && !s.cancels[c].delivered
      && OnHost(s, f, Executing) && s.ledger[f].host == s.cancels[c].host
    case CancelMiss(c) => c < |s.cancels| && !s.cancels[c].delivered
    case ResultTake(f) => s.r.Waiting? && OnHost(s, f, Returning)
    case ResultNext => !s.r.Waiting? && (s.r.Finishing? ==> !s.mon.Sweeping?)
    case Lose(f) => OnHost(s, f, Submitted) || OnHost(s, f, Returning)
  }

  /** The state after event `e`. */
  ghost function Next(s: System, e: Event): System
    requires WellFormed(s) && Enabled(s, e)
  {
    match e
    case SubmitCheck(job) => s.(mon := Pushing(job))
    case SubmitPush => PushStep(s)
    case CancelStart(target) => s.(mon := Sweeping(target, 1))
    case CancelNext => SweepStep(s)
    case Dispatch => DispatchStep(s)
    case WorkerTake(f) => SetPhase(s, f, Executing)
    case WorkerDone(f) => SetPhase(s, f, Returning)
    case CancelHit(c, f) =>
      SetPhase(s, f, Cancelled).(cancels := s.cancels[c := s.cancels[c].(delivered := true)])
    case CancelMiss(c) => s.(cancels := s.cancels[c := s.cancels[c].(delivered := true)])
    case ResultTake(f) =>
      SetPhase(s, f, Credited).(m := SetHost(s.m, s.ledger[f].host, Free), r := Freed(f))
    case ResultNext => ResultStep(s)
    case Lose(f) => SetPhase(s, f, Lost)
  }

  lemma PushWellFormed(s: System)
    requires WellFormed(s) && s.mon.Pushing?
    ensures WellFormed(PushStep(s))
  {
  }

  lemma PopWellFormed(s: System)
    requires WellFormed(s) && s.d.Idle? && !s.m.IsEmpty()
    ensures WellFormed(PopStep(s))
  {
    TailWasPushed(s);
  }

  lemma BookWellFormed(s: System)
    requires WellFormed(s) && s.d.Booking?
    ensures Books(s, Look) ==> WellFormed(PublishStep(s)) && WellFormed(LookStep(s))
    ensures Books(s, Name) ==> WellFormed(NameStep(s))
    ensures Books(s, Take) ==> WellFormed(TakeStep(s))
    ensures Books(s, Send) ==> WellFormed(SendStep(s))
  {
  }

  lemma PublishWellFormed(s: System)
    requires WellFormed(s) && Books(s, Look)
    ensures WellFormed(PublishStep(s))
  {
  }

  lemma LookWellFormed(s: System)
    requires WellFormed(s) && Books(s, Look)
    ensures WellFormed(LookStep(s))
  {
  }

  lemma ResultWellFormed(s: System)
    requires WellFormed(s) && !s.r.Waiting?
    ensures WellFormed(ResultStep(s))
  {
  }

  lemma WorkerWellFormed(s: System, f: nat, phase: Phase)
    requires WellFormed(s) && f < |s.ledger|
    ensures WellFormed(SetPhase(s, f, phase))
  {
  }

  lemma OutsideWellFormed(s: System, e: Event)
    requires WellFormed(s) && Enabled(s, e)
    requires !e.SubmitPush? && !e.Dispatch? && !e.ResultTake? && !e.ResultNext?
    ensures WellFormed(Next(s, e))
  {
    if e.WorkerTake? || e.WorkerDone? || e.CancelHit? || e.Lose? {
      WorkerWellFormed(s, e.f, Next(s, e).ledger[e.f].phase);
    }
  }

  lemma DispatchWellFormed(s: System)
    requires WellFormed(s) && Enabled(s, Dispatch)
    ensures WellFormed(DispatchStep(s))
  {
    if s.d.Idle? {
      PopWellFormed(s);
    } else if s.d.Booking? {
      BookWellFormed(s);
    }
  }

  /** Every step of the program, guarded or not, keeps the well-formedness facts. */
  lemma NextWellFormed(s: System, e: Event)
    requires WellFormed(s) && Enabled(s, e)
    ensures WellFormed(Next(s, e))
  {
    match e
    case SubmitPush => PushWellFormed(s);
    case Dispatch => DispatchWellFormed(s);
    case ResultNext => ResultWellFormed(s);
    case ResultTake(f) => WorkerWellFormed(s, f, Credited);
    case _ => OutsideWellFormed(s, e);
  }
}
