/** What holds of the queue in every run that never pushes on a full ring; nothing else is asked
    of any step. */
module Queueing {
  import opened JobQueue
  import opened Machine
  import opened Invariant
  import opened Exactness
  import opened Hosting
  import DispatchSteps

  /** The slots of the queued jobs keep command, user and number of hosts as submitted. */
  ghost predicate SlotsKept(jobq: seq<Slot>, submitted: seq<Job>, q: nat)
    requires |jobq| == MAX_JOB_QUEUE
  {
    forall t :: q <= t < |submitted| ==>
      && jobq[SlotOf(t)].comm == submitted[t].comm && jobq[SlotOf(t)].user == submitted[t].user
      && jobq[SlotOf(t)].req == submitted[t].req
  }

  /** How far a dispatch can have got. */
  ghost predicate Dispatching(d: Dispatcher, hosts: nat) {
    !d.Idle? ==>
      && d.w.need <= hosts
      && (d.Counting? ==> d.count >= 0)
      && (d.Booking? ==> d.i >= 1 && (d.i == 1 || d.i <= d.w.need + 1) && (!d.at.Look? ==> d.i <= d.w.need))
  }

  ghost predicate Queued(s: System) {
    && Hosted(s)
    && FifoInv(s.submitted, s.popped) && |s.submitted| < |s.popped| + MAX_JOB_QUEUE
    && SlotsKept(s.m.jobq, s.submitted, |s.popped|)
    && Dispatching(s.d, s.m.hosts)
    && (!s.r.Waiting? ==> !s.ledger[s.r.f].Owed())
  }

  lemma InvIsQueued(s: System)
    requires Inv(s)
    ensures Queued(s)
  {
    BaseIsHosted(s);
  }

  lemma InitQueued(hosts: nat, resets: bool)
    requires hosts < MAX_NUM_HOSTS
    ensures Queued(Init(hosts, resets))
  {
    InitHosted(hosts, resets);
  }

  /** Empty and full, read off the tickets. */
  lemma QueueArithmetic(s: System)
    requires Queued(s)
    ensures s.m.IsEmpty() <==> |s.submitted| == |s.popped|
    ensures s.m.IsFull() <==> |s.submitted| + 1 == |s.popped| + MAX_JOB_QUEUE
  {
    RingArithmetic(|s.submitted|, |s.popped|);
  }

  lemma PushSlots(jobq: seq<Slot>, submitted: seq<Job>, q: nat, job: Job)
    requires |jobq| == MAX_JOB_QUEUE && SlotsKept(jobq, submitted, q) && |submitted| < q + MAX_JOB_QUEUE
    ensures var h := SlotOf(|submitted|);
            SlotsKept(jobq[h := Slot(job.comm, job.user, job.req, InQueue, h)], submitted + [job], q)
  {
    forall t | q <= t < |submitted| ensures SlotOf(t) != SlotOf(|submitted|) {
      if SlotOf(t) == SlotOf(|submitted|) {
        SlotOfInjective(t, |submitted|);
      }
    }
  }

  lemma QueuedPush(s: System)
    requires Queued(s) && s.mon.Pushing? && !s.m.IsFull() && Hosted(PushStep(s))
    ensures Queued(PushStep(s))
  {
    QueueArithmetic(s);
    PushSlots(s.m.jobq, s.submitted, |s.popped|, s.mon.job);
  }

  lemma PopSlots(jobq: seq<Slot>, submitted: seq<Job>, q: nat)
    requires |jobq| == MAX_JOB_QUEUE && SlotsKept(jobq, submitted, q)
    ensures var j := SlotOf(q); SlotsKept(jobq[j := jobq[j].(stat := Running)], submitted, q + 1)
  {
  }

  lemma QueuedPop(s: System)
    requires Queued(s) && s.d.Idle? && !s.m.IsEmpty() && Hosted(PopStep(s))
    ensures Queued(PopStep(s))
  {
    TailWasPushed(s);
    var slot := s.m.jobq[s.m.tail];
    DispatchSteps.PopFifo(s.submitted, s.popped, (slot.comm, slot.req));
    PopSlots(s.m.jobq, s.submitted, |s.popped|);
  }

  lemma QueuedScan(s: System)
    requires Queued(s) && !s.d.Idle? && Hosted(DispatchStep(s))
    ensures Queued(DispatchStep(s))
  {
    ScanParts(s);
  }

  lemma ScanParts(s: System)
    requires WellFormed(s) && !s.d.Idle? && Dispatching(s.d, s.m.hosts)
    ensures var s' := DispatchStep(s);
            && Dispatching(s'.d, s'.m.hosts) && s'.m.jobq == s.m.jobq && s'.m.hosts == s.m.hosts
            && s'.submitted == s.submitted && s'.popped == s.popped && s'.r == s.r
            && |s.ledger| <= |s'.ledger| && s'.ledger[..|s.ledger|] == s.ledger
  {
  }

  lemma QueuedReturn(s: System, e: Event)
    requires Queued(s) && Enabled(s, e) && (e.ResultTake? || e.ResultNext?) && Hosted(Next(s, e))
    ensures Queued(Next(s, e))
  {
    ReturnParts(s, e);
  }

  lemma ReturnParts(s: System, e: Event)
    requires WellFormed(s) && Enabled(s, e) && (e.ResultTake? || e.ResultNext?)
    requires !s.r.Waiting? ==> !s.ledger[s.r.f].Owed()
    ensures var s' := Next(s, e);
            && s'.d == s.d && s'.submitted == s.submitted && s'.popped == s.popped && s'.m.hosts == s.m.hosts
            && |s'.m.jobq| == |s.m.jobq| && (!s'.r.Waiting? ==> s'.r.f < |s'.ledger| && !s'.ledger[s'.r.f].Owed())
            && forall j :: 0 <= j < |s.m.jobq| ==>
                 s'.m.jobq[j].(stat := s.m.jobq[j].stat) == s.m.jobq[j]
  {
  }

  lemma QueuedOutside(s: System, e: Event)
    requires Queued(s) && Enabled(s, e) && Hosted(Next(s, e))
    requires !e.SubmitPush? && !e.Dispatch? && !e.ResultTake? && !e.ResultNext?
    ensures Queued(Next(s, e))
  {
    OutsideParts(s, e);
  }

  lemma OutsideParts(s: System, e: Event)
    requires WellFormed(s) && Enabled(s, e)
    requires !e.SubmitPush? && !e.Dispatch? && !e.ResultTake? && !e.ResultNext?
    ensures var s' := Next(s, e);
            && s'.m == s.m && s'.d == s.d && s'.submitted == s.submitted && s'.popped == s.popped && s'.r == s.r
            && |s.ledger| == |s'.ledger|
            && forall f :: 0 <= f < |s.ledger| ==> (s'.ledger[f].Owed() <==> s.ledger[f].Owed())
  {
  }

  /** Every step of the program keeps it, except a push on a full ring. */
  lemma QueuedStep(s: System, e: Event)
    requires Queued(s) && Enabled(s, e) && (e.SubmitPush? ==> !s.m.IsFull())
    ensures Queued(Next(s, e))
  {
    HostedStep(s, e);
    if e.SubmitPush? {
      QueuedPush(s);
    } else if e.Dispatch? {
      if s.d.Idle? {
        QueuedPop(s);
      } else {
        QueuedScan(s);
      }
    } else if e.ResultTake? || e.ResultNext? {
      QueuedReturn(s, e);
    } else {
      QueuedOutside(s, e);
    }
  }

  /** No push of the run finds the ring full. */
  ghost predicate NoFull(s: System, es: seq<Event>)
    requires WellFormed(s) && Run(s, es)
    decreases |es|
  {
    es != [] ==> (es[0].SubmitPush? ==> !s.m.IsFull()) && (NextWellFormed(s, es[0]); NoFull(Next(s, es[0]), es[1..]))
  }

  lemma {:induction false} RunQueued(s: System, es: seq<Event>)
    requires Queued(s) && Run(s, es) && NoFull(s, es)
    ensures Queued(After(s, es))
    decreases |es|
  {
    if es != [] {
      QueuedStep(s, es[0]);
      RunQueued(Next(s, es[0]), es[1..]);
    }
  }

  /** A guarded run never pushes on a full ring. */
  lemma {:induction false} GuardedIsRoomy(s: System, es: seq<Event>)
    requires WellFormed(s) && Run(s, es) && Guarded(s, es)
    ensures NoFull(s, es)
    decreases |es|
  {
    if es != [] {
      NextWellFormed(s, es[0]);
      GuardedIsRoomy(Next(s, es[0]), es[1..]);
    }
  }
}
