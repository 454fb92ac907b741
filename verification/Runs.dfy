/** What holds from one state to the next and along whole runs. */
module Runs {
  import opened JobQueue
  import opened Machine
  import opened Invariant
  import opened Exactness
  import DispatchSteps
  import Safety
  import Steps

  // ---- the life of a slot

  /** The status changes a slot may make in one step; a slot is reused while RUNNING only
      when its job asked for more hosts than there are. */
  ghost predicate Edge(was: Slot, now: Slot, hosts: nat) {
    || was == now
    || (was.stat.Unknown? && now.stat.InQueue?)
    || (was.stat.InQueue? && now == was.(stat := Running))
    || (was.stat.Running? && now == was.(stat := Finished))
    || (was.stat.Finished? && now.stat.InQueue?)
    || (was.stat.Running? && was.req > hosts && now.stat.InQueue?)
  }

  lemma PushEdge(s: System, i: nat)
    requires Inv(s) && s.mon.Pushing? && Ok(s, SubmitPush) && i < MAX_JOB_QUEUE
    ensures Edge(s.m.jobq[i], PushStep(s).m.jobq[i], s.m.hosts)
  {
    if i == s.m.head && i < |s.submitted| {
      var t := Safety.Occupant(|s.submitted|, i);
      Steps.NoLapMeansClosed(s);
      LatestAt(s, t);
      HeadClosed(s, t);
    }
  }

  lemma LatestAt(s: System, t: nat)
    requires Inv(s) && t < |s.submitted| <= t + MAX_JOB_QUEUE && SlotOf(t) == s.m.head
    ensures |s.submitted| == t + MAX_JOB_QUEUE
    ensures s.m.jobq[s.m.head].stat == StatOf(|s.popped|, s.finished, t)
    ensures s.m.jobq[s.m.head].req == s.submitted[t].req
  {
    SlotShift(t, |s.submitted| - t);
  }

  /** With the head slot free of open flights, its last job is finished or oversize. */
  lemma HeadClosed(s: System, t: nat)
    requires Inv(s) && !s.m.IsFull() && |s.submitted| == t + MAX_JOB_QUEUE
    requires forall f :: 0 <= f < |s.ledger| && Open(s.ledger, s.r, f) ==>
               |s.submitted| < s.ledger[f].ticket + MAX_JOB_QUEUE
    ensures t < |s.popped| && (t in s.finished || s.submitted[t].req > s.m.hosts)
  {
    Steps.FullMeansWindow(s);
    assert t != InHand(s);
    assert AllClosed(s.ledger, s.r, t);
  }

  lemma OtherEdge(s: System, e: Event, i: nat)
    requires Inv(s) && Enabled(s, e) && Ok(s, e) && !e.SubmitPush? && i < MAX_JOB_QUEUE
    ensures Edge(s.m.jobq[i], Next(s, e).m.jobq[i], s.m.hosts)
  {
    if e.Dispatch? && s.d.Idle? {
      TailWasPushed(s);
      Safety.RingIsQueue(s);
    } else if e.ResultNext? && s.r.Finishing? {
      Safety.FinishOnce(s);
    }
  }

  /** Slots move only along UNKNOW, INQUEUE, RUNNING, FINISHED and back to INQUEUE. */
  lemma StatusEdges(s: System, e: Event, i: nat)
    requires Inv(s) && Enabled(s, e) && Ok(s, e) && i < MAX_JOB_QUEUE
    ensures Edge(s.m.jobq[i], Next(s, e).m.jobq[i], s.m.hosts)
  {
    if e.SubmitPush? {
      PushEdge(s, i);
    } else {
      OtherEdge(s, e, i);
    }
  }

  // ---- check first, push later

  ghost predicate Room(s: System)
    requires WellFormed(s)
  {
    !s.m.IsFull() && NoLap(s)
  }

  lemma RoomAfterPop(m: Tables)
    requires m.Shaped() && !m.IsFull() && !m.IsEmpty()
    ensures !PopJob(m).IsFull() && PopJob(m).head == m.head && PopJob(m).jobnodes == m.jobnodes
  {
  }

  lemma RoomAfterDispatch(s: System)
    requires WellFormed(s) && (s.d.Idle? ==> !s.m.IsEmpty()) && Room(s) && s.m.head != Mine(s.d)
    requires WellFormed(DispatchStep(s))
    ensures Room(DispatchStep(s))
  {
    if s.d.Idle? {
      RoomAfterPop(s.m);
    }
  }

  lemma RoomAfterResult(s: System, e: Event)
    requires WellFormed(s) && Enabled(s, e) && Room(s) && WellFormed(Next(s, e))
    requires e.ResultNext? || (e.ResultTake? && s.ledger[e.f].job != s.m.head)
    ensures Room(Next(s, e))
  {
  }

  lemma RoomOtherwise(s: System, e: Event)
    requires WellFormed(s) && Enabled(s, e) && Room(s) && WellFormed(Next(s, e))
    requires !e.ResultNext? && !e.ResultTake? && !e.Dispatch? && !e.SubmitPush?
    ensures Room(Next(s, e))
  {
  }

  /** Room for a push, once seen, is not taken away by any step but a push. */
  lemma RoomStable(s: System, e: Event)
    requires Inv(s) && Enabled(s, e) && !e.SubmitPush? && Room(s)
    ensures WellFormed(Next(s, e)) && Room(Next(s, e))
  {
    NextWellFormed(s, e);
    if e.Dispatch? {
      Steps.HeadNotMine(s);
      RoomAfterDispatch(s);
    } else if e.ResultTake? {
      Steps.HeadFree(s);
      assert Open(s.ledger, s.r, e.f);
      RoomAfterResult(s, e);
    } else if e.ResultNext? {
      RoomAfterResult(s, e);
    } else {
      RoomOtherwise(s, e);
    }
  }

  ghost predicate NoPush(es: seq<Event>) {
    forall i :: 0 <= i < |es| ==> !es[i].SubmitPush?
  }

  /** The test and the push of a submit may sit in two critical sections: across any run
      of the other threads between them the room seen by the test is still there. */
  lemma {:induction false} SplitSubmitSafe(s: System, es: seq<Event>)
    requires Inv(s) && Run(s, es) && Guarded(s, es) && NoPush(es) && Room(s)
    ensures Inv(After(s, es)) && Room(After(s, es))
    ensures After(s, es).mon.Pushing? && After(s, es).mon.job.req >= 1 ==> Inv(PushStep(After(s, es)))
    decreases |es|
  {
    if es != [] {
      RoomStable(s, es[0]);
      StepExact(s, es[0]);
      SplitSubmitSafe(Next(s, es[0]), es[1..]);
    } else if s.mon.Pushing? && s.mon.job.req >= 1 {
      PushWithRoom(s);
    }
  }

  lemma PushWithRoom(s: System)
    requires Inv(s) && s.mon.Pushing? && s.mon.job.req >= 1 && Room(s)
    ensures Inv(PushStep(s))
  {
    StepExact(s, SubmitPush);
  }

  // ---- one counting pass

  /** The pass that began with count `base` has seen no more free hosts than there are now. */
  ghost predicate Passing(s: System, base: int)
    requires WellFormed(s)
  {
    s.d.Counting? && s.d.count - base <= |FreeBelow(s.m.hosts, s.m.pcstat, s.d.k)|
  }

  lemma PassKeeps(s: System, e: Event, base: int)
    requires WellFormed(s) && Enabled(s, e) && Passing(s, base)
    requires e.Dispatch? ==> s.d.k <= s.m.hosts
    ensures WellFormed(Next(s, e)) && Passing(Next(s, e), base)
  {
    NextWellFormed(s, e);
    match e
    case Dispatch => DispatchSteps.PassCounts(s.m.hosts, s.m.pcstat, s.d.k);
    case ResultTake(f) => DispatchSteps.PassFrees(s.m.hosts, s.m.pcstat, s.d.k, s.ledger[f].host);
    case _ =>
  }

  /** The run stays within one pass. */
  ghost predicate OnePass(s: System, es: seq<Event>)
    requires WellFormed(s) && Run(s, es)
    decreases |es|
  {
    es != [] ==>
      && (es[0].Dispatch? ==> s.d.Counting? && s.d.k <= s.m.hosts)
      && (NextWellFormed(s, es[0]); OnePass(Next(s, es[0]), es[1..]))
  }

  lemma {:induction false} PassRun(s: System, es: seq<Event>, base: int)
    requires WellFormed(s) && Run(s, es) && OnePass(s, es) && Passing(s, base)
    ensures WellFormed(After(s, es)) && Passing(After(s, es), base)
    decreases |es|
  {
    if es != [] {
      PassKeeps(s, es[0], base);
      PassRun(Next(s, es[0]), es[1..], base);
    }
  }

  /** A pass that starts from a zero count decides soundly, however the other threads
      interleave: hosts it counted cannot be taken, so at its end that many are free. The
      first pass of every dispatch is such a pass. */
  lemma FreshPassDecides(s: System, es: seq<Event>)
    requires WellFormed(s) && Run(s, es) && OnePass(s, es)
    requires s.d.Counting? && s.d.count == 0 && s.d.k == 1
    ensures WellFormed(After(s, es))
    ensures var s' := After(s, es);
            s'.d.Counting? && s'.d.k > s'.m.hosts ==> s'.d.count <= |FreeHosts(s'.m)| && Ok(s', Dispatch)
  {
    assert FreeBelow(s.m.hosts, s.m.pcstat, 1) == {};
    PassRun(s, es, 0);
    var s' := After(s, es);
    if s'.d.k > s'.m.hosts {
      DispatchSteps.PassWhole(s'.m.hosts, s'.m.pcstat, s'.d.k);
    }
  }

  /** A dispatcher that counts afresh in every pass never leaves with too few hosts free: it needs
      no condition. */
  lemma ResetDecides(s: System)
    requires Base(s) && s.resets && s.d.Counting? && s.d.k > s.m.hosts
    ensures s.d.count <= |FreeHosts(s.m)|
    ensures Ok(s, Dispatch)
  {
    DispatchSteps.PassWhole(s.m.hosts, s.m.pcstat, s.d.k);
  }

  // ---- one return per submit

  function Rank(p: Phase): nat {
    match p
    case Submitted => 0
    case Executing => 1
    case Cancelled => 2
    case Returning => 3
    case Credited => 4
    case Lost => 5
  }

  /** The event happens to flight `f`. */
  predicate HappensTo(e: Event, f: nat) {
    (e.WorkerTake? || e.WorkerDone? || e.CancelHit? || e.ResultTake? || e.Lose?) && e.f == f
  }

  /** The ledger only grows and its flights only move forward: a worker takes a submit and executes
      it, a cancel that hits stops it while it executes, a worker that is done returns, and
      nothing else happens to a flight. */
  lemma FlightsAdvance(s: System, e: Event, f: nat)
    requires WellFormed(s) && Enabled(s, e) && f < |s.ledger|
    ensures f < |Next(s, e).ledger|
    ensures var x, y := s.ledger[f], Next(s, e).ledger[f];
            && y == x.(phase := y.phase) && Rank(x.phase) <= Rank(y.phase)
            && (!HappensTo(e, f) ==> y == x)
            && (e == WorkerTake(f) ==> x.phase.Submitted? && y.phase.Executing?)
            && (e.CancelHit? && e.f == f ==> x.phase.Executing? && y.phase.Cancelled?)
            && (e == WorkerDone(f) ==> (x.phase.Executing? || x.phase.Cancelled?) && y.phase.Returning?)
            && (e == ResultTake(f) ==> x.phase.Returning? && y.phase.Credited?)
            && (e == Lose(f) ==> (x.phase.Submitted? || x.phase.Returning?) && y.phase.Lost?)
  {
  }

  function Occurrences(es: seq<Event>, e: Event): nat {
    if es == [] then 0 else (if es[0] == e then 1 else 0) + Occurrences(es[1..], e)
  }

  /** In every run, guarded or not, a submit is answered by a worker at most once and its
      return is taken at most once; being cancelled does not change that. */
  lemma {:induction false} OneReturnPerSubmit(s: System, es: seq<Event>, f: nat)
    requires WellFormed(s) && Run(s, es) && f < |s.ledger|
    ensures Occurrences(es, WorkerDone(f)) <= if Rank(s.ledger[f].phase) < 3 then 1 else 0
    ensures Occurrences(es, ResultTake(f)) <= if Rank(s.ledger[f].phase) < 4 then 1 else 0
    decreases |es|
  {
    if es != [] {
      NextWellFormed(s, es[0]);
      FlightsAdvance(s, es[0], f);
      OneReturnPerSubmit(Next(s, es[0]), es[1..], f);
    }
  }

  // ---- what the clients asked for

  /** The jobs of the requests the monitor has read, in order. */
  function Asked(es: seq<Event>): seq<Job> {
    if es == [] then [] else (if es[0].SubmitCheck? then [es[0].job] else []) + Asked(es[1..])
  }

  /** The request the monitor is in the middle of. */
  function Midway(mon: Monitor): seq<Job> {
    if mon.Pushing? then [mon.job] else []
  }

  lemma AskedStep(s: System, e: Event)
    requires WellFormed(s) && Enabled(s, e)
    ensures Next(s, e).submitted + Midway(Next(s, e).mon) ==
            s.submitted + Midway(s.mon) + if e.SubmitCheck? then [e.job] else []
  {
  }

  lemma Regroup(a: seq<Job>, b: seq<Job>, c: seq<Job>)
    ensures (a + b) + c == a + (b + c)
  {
  }

  /** In every run what was submitted, and the request in the monitor's hands, is what was asked for,
      each once, in order and unchanged. */
  lemma {:induction false} AskedIsSubmitted(s: System, es: seq<Event>)
    requires WellFormed(s) && Run(s, es)
    ensures After(s, es).submitted + Midway(After(s, es).mon) == s.submitted + Midway(s.mon) + Asked(es)
    decreases |es|
  {
    if es != [] {
      NextWellFormed(s, es[0]);
      AskedStep(s, es[0]);
      AskedIsSubmitted(Next(s, es[0]), es[1..]);
      var first := if es[0].SubmitCheck? then [es[0].job] else [];
      Regroup(s.submitted + Midway(s.mon), first, Asked(es[1..]));
    }
  }
}
