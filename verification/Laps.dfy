/** Reusing a slot too early: from every lap without losses some run lets the old job's last
    return finish the new job while it is still queued. */
module Laps {
  import opened JobQueue
  import opened Machine
  import opened Invariant
  import opened Exactness
  import opened Progress
  import opened Queueing
  import Hazards
  import Steps

  /** The monitor is about to push on a slot that still has returns to come. */
  ghost predicate Lapping(s: System)
    requires WellFormed(s)
  {
    s.mon.Pushing? && !s.m.IsFull() && !NoLap(s)
  }

  /** After a push some return still to come names the reused slot, though its submit was sent for
      the slot's last job, if and only if the slot's counter or the result thread shows a lap. */
  lemma LapMisdirects(s: System)
    requires Inv(s) && s.mon.Pushing? && !s.m.IsFull() && NoLoss(s.ledger)
    ensures (exists f :: Misdirected(s, f)) <==> !NoLap(s)
  {
    Steps.HeadFree(s);
    if f :| 0 <= f < |s.ledger| && Open(s.ledger, s.r, f) && s.ledger[f].job == s.m.head {
      Steps.HeadFlights(s.ledger, s.r, s.submitted, |s.popped|, f);
      assert Misdirected(s, f);
    }
  }

  /** Flight `f` has a return still to come that names the slot at `head`, and belongs to the job
      submitted 32 jobs before the one to be pushed. */
  ghost predicate Misdirected(s: System, f: int) {
    && 0 <= f < |s.ledger| && Open(s.ledger, s.r, f) && !s.ledger[f].phase.Lost?
    && s.ledger[f].job == s.m.head && s.ledger[f].ticket + MAX_JOB_QUEUE == |s.submitted|
  }

  // ---- towards the last return

  /** With nothing owed for the slot, the lap is the result thread's. */
  lemma LastInHands(s: System)
    requires Inv(s) && Lapping(s) && Owing(s.ledger, s.m.head) == {}
    ensures !s.r.Waiting? && s.ledger[s.r.f].job == s.m.head
    ensures s.m.jobnodes[s.m.head] == if s.r.Freed? || s.r.Loaded? then 1 else 0
    ensures s.r.Loaded? ==> s.r.v == 1
  {
    Steps.HeadNotMine(s);
    Steps.CountOf(s, s.m.head);
  }

  /** A step that brings the slot's returns nearer: finish the booking in progress, then the
      return in hand, then move one of the slot's own submits. */
  lemma Nearer(s: System) returns (e: Event)
    requires Inv(s) && NoLoss(s.ledger) && Lapping(s) && Owing(s.ledger, s.m.head) != {}
    ensures Enabled(s, e) && Ok(s, e) && Works(s, e)
    ensures (e == Dispatch && s.d.Booking?) || e == ResultNext
            || (HeadsOwn(s, e) && s.r.Waiting?)
  {
    if s.d.Booking? {
      e := Dispatch;
    } else if !s.r.Waiting? {
      e := ResultNext;
    } else {
      var f :| f in Owing(s.ledger, s.m.head);
      InvIsQueued(s);
      e := FlightMoves(s, f);
    }
  }

  /** A step of one of the slot's submits or of its return. */
  ghost predicate HeadsOwn(s: System, e: Event) {
    && (e.WorkerTake? || e.WorkerDone? || e.ResultTake?)
    && e.f < |s.ledger| && s.ledger[e.f].job == s.m.head && s.ledger[e.f].Owed()
  }

  lemma NearerKeepsRing(s: System, e: Event)
    requires WellFormed(s) && Enabled(s, e) && WellFormed(Next(s, e)) && NoLoss(s.ledger)
    requires (e == Dispatch && s.d.Booking?) || e == ResultNext || HeadsOwn(s, e)
    ensures var s' := Next(s, e);
            && s'.mon == s.mon && s'.m.head == s.m.head && s'.m.tail == s.m.tail && NoLoss(s'.ledger)
  {
  }

  /** A submit of the slot still owed stays open through such a step. */
  lemma StaysOpen(s: System, e: Event, f: nat)
    requires WellFormed(s) && Enabled(s, e) && WellFormed(Next(s, e)) && f < |s.ledger| && s.ledger[f].Owed()
    ensures Open(Next(s, e).ledger, Next(s, e).r, f) && Next(s, e).ledger[f].job == s.ledger[f].job
  {
  }

  lemma OpenLaps(s: System, f: nat)
    requires Inv(s) && s.mon.Pushing? && !s.m.IsFull()
    requires f < |s.ledger| && Open(s.ledger, s.r, f) && s.ledger[f].job == s.m.head
    ensures Lapping(s)
  {
    Steps.HeadFree(s);
  }

  lemma NearerStays(s: System, e: Event) returns (f: nat)
    requires WellFormed(s) && Enabled(s, e) && WellFormed(Next(s, e)) && NoLoss(s.ledger) && s.mon.Pushing?
    requires (e == Dispatch && s.d.Booking?) || e == ResultNext || HeadsOwn(s, e)
    requires Owing(s.ledger, s.m.head) != {}
    ensures var s' := Next(s, e);
            && s'.mon == s.mon && s'.m.head == s.m.head && s'.m.tail == s.m.tail && NoLoss(s'.ledger)
            && f < |s'.ledger| && Open(s'.ledger, s'.r, f) && s'.ledger[f].job == s.m.head
  {
    NearerKeepsRing(s, e);
    f :| f in Owing(s.ledger, s.m.head);
    StaysOpen(s, e, f);
  }

  lemma LapStep(s: System) returns (e: Event)
    requires Inv(s) && NoLoss(s.ledger) && Lapping(s) && Owing(s.ledger, s.m.head) != {}
    ensures Enabled(s, e) && Inv(Next(s, e)) && Lapping(Next(s, e)) && NoLoss(Next(s, e).ledger)
    ensures Next(s, e).mon == s.mon && Next(s, e).m.head == s.m.head
    ensures MeasureOf(Next(s, e)).Below(MeasureOf(s)) && MeasureOf(s).NonNegative()
    ensures MeasureOf(Next(s, e)).NonNegative()
  {
    e := Nearer(s);
    StepExact(s, e);
    InvIsQueued(s);
    InvIsQueued(Next(s, e));
    LapMeasure(s, e);
    var f := NearerStays(s, e);
    SameRoom(s.m, Next(s, e).m);
    OpenLaps(Next(s, e), f);
  }

  lemma SameRoom(m: Tables, m': Tables)
    requires m'.head == m.head && m'.tail == m.tail
    ensures m'.IsFull() == m.IsFull()
  {
  }

  lemma LapMeasure(s: System, e: Event)
    requires Queued(s) && Enabled(s, e) && Works(s, e) && Queued(Next(s, e))
    ensures MeasureOf(Next(s, e)).Below(MeasureOf(s)) && MeasureOf(s).NonNegative()
    ensures MeasureOf(Next(s, e)).NonNegative()
  {
    WorkLowers(s, e);
    MeasureNonNegative(Next(s, e));
  }

  // ---- the push and the last return

  /** The result thread's remaining steps, after the push. */
  lemma ResultsOnly(s: System) returns (es: seq<Event>, s': System)
    requires WellFormed(s) && s.mon.Ready? && !s.r.Waiting?
    requires var j := s.ledger[s.r.f].job;
             && (s.r.Freed? ==> s.m.jobnodes[j] == 1) && (s.r.Loaded? ==> s.r.v == 1)
             && (s.r.Counted? ==> s.m.jobnodes[j] == 0)
    ensures Reaches(s, es, s')
    ensures var j := s.ledger[s.r.f].job;
            && s'.m.jobq[j] == s.m.jobq[j].(stat := Finished) && s'.m.head == s.m.head && s'.m.tail == s.m.tail
    decreases Left(s.r)
  {
    ResultWellFormed(s);
    var s1 := ResultStep(s);
    if s.r.Finishing? {
      es, s' := [ResultNext] + [], s1;
      StepThen(s, ResultNext, [], s1);
    } else {
      var rest;
      rest, s' := ResultsOnly(s1);
      es := [ResultNext] + rest;
      StepThen(s, ResultNext, rest, s');
    }
  }

  lemma LastLap(s: System) returns (es: seq<Event>, s': System)
    requires Inv(s) && Lapping(s) && Owing(s.ledger, s.m.head) == {}
    ensures Reaches(s, es, s')
    ensures s'.m.jobq[s.m.head] == Slot(s.mon.job.comm, s.mon.job.user, s.mon.job.req, Finished, s.m.head)
    ensures Hazards.InQueueAt(s', s.m.head)
  {
    LastInHands(s);
    PushWellFormed(s);
    Hazards.PushedInCycle(s);
    var rest;
    rest, s' := ResultsOnly(PushStep(s));
    es := [SubmitPush] + rest;
    StepThen(s, SubmitPush, rest, s');
  }

  /** From every lap without losses some run finishes the new job while it is still queued. */
  lemma {:induction false} LapFinishes(s: System) returns (es: seq<Event>, s': System)
    requires Inv(s) && Lapping(s) && NoLoss(s.ledger)
    ensures Reaches(s, es, s')
    ensures s'.m.jobq[s.m.head] == Slot(s.mon.job.comm, s.mon.job.user, s.mon.job.req, Finished, s.m.head)
    ensures Hazards.InQueueAt(s', s.m.head)
    decreases MeasureOf(s).queued, MeasureOf(s).stage, MeasureOf(s).work, MeasureOf(s).left, MeasureOf(s).scan
  {
    if Owing(s.ledger, s.m.head) == {} {
      es, s' := LastLap(s);
    } else {
      var e := LapStep(s);
      var rest;
      rest, s' := LapFinishes(Next(s, e));
      es := [e] + rest;
      StepThen(s, e, rest, s');
    }
  }
}
