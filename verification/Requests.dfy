/** Which requests are served: a job that asks for no hosts is never finished, whatever the
    schedule; one that asks for some and for no more than there are is, in every fair run. */
module Requests {
  import opened JobQueue
  import opened Machine
  import opened Invariant
  import opened Exactness
  import opened Progress
  import opened Fairness
  import Runs
  import Steps

  /** Slot `j` holds a request for no hosts, nothing is outstanding for it, and if it is in hand
      its booking has nobody to look for. */
  ghost predicate Doomed(s: System, j: nat)
    requires WellFormed(s) && j < MAX_JOB_QUEUE
  {
    && s.m.jobq[j].req <= 0 && !s.m.jobq[j].stat.Finished?
    && Unclaimed(s.ledger, s.r, j)
    && (Mine(s.d) == j ==> s.d.w.need <= 0 && (s.d.Booking? ==> s.d.at.Look? && s.d.i == 1))
  }

  /** No submit of `j` is open. */
  ghost predicate Unclaimed(l: seq<Flight>, r: Results, j: nat) {
    forall f :: 0 <= f < |l| && Open(l, r, f) ==> l[f].job != j
  }

  /** The step pushes a job on slot `j`. */
  ghost predicate Reuses(s: System, e: Event, j: nat)
    requires WellFormed(s)
  {
    e.SubmitPush? && s.m.head == j
  }

  lemma DoomedPop(s: System, j: nat)
    requires WellFormed(s) && j < MAX_JOB_QUEUE && Doomed(s, j) && s.d.Idle? && !s.m.IsEmpty()
    requires WellFormed(PopStep(s))
    ensures Doomed(PopStep(s), j)
  {
    TailWasPushed(s);
  }

  lemma DoomedSend(s: System, j: nat)
    requires WellFormed(s) && j < MAX_JOB_QUEUE && Doomed(s, j) && Books(s, Send) && WellFormed(SendStep(s))
    ensures Doomed(SendStep(s), j)
  {
    var l' := SendStep(s).ledger;
    assert forall f :: 0 <= f < |s.ledger| && Open(l', s.r, f) ==> Open(s.ledger, s.r, f) && l'[f] == s.ledger[f];
  }

  lemma DoomedScan(s: System, j: nat)
    requires WellFormed(s) && j < MAX_JOB_QUEUE && Doomed(s, j) && !s.d.Idle? && !Books(s, Send)
    requires WellFormed(DispatchStep(s))
    ensures Doomed(DispatchStep(s), j)
  {
  }

  lemma DoomedResult(s: System, e: Event, j: nat)
    requires WellFormed(s) && j < MAX_JOB_QUEUE && Doomed(s, j) && Enabled(s, e)
    requires (e.ResultTake? || e.ResultNext?) && WellFormed(Next(s, e))
    ensures Doomed(Next(s, e), j)
  {
    var l, l' := s.ledger, Next(s, e).ledger;
    assert e.ResultTake? ==> Open(l, s.r, e.f);
    assert forall f :: 0 <= f < |l| && Open(l', Next(s, e).r, f) ==> Open(l, s.r, f) && l'[f].job == l[f].job;
  }

  lemma DoomedOutside(s: System, e: Event, j: nat)
    requires WellFormed(s) && j < MAX_JOB_QUEUE && Doomed(s, j) && Enabled(s, e) && !Reuses(s, e, j)
    requires !e.Dispatch? && !e.ResultTake? && !e.ResultNext? && WellFormed(Next(s, e))
    ensures Doomed(Next(s, e), j)
  {
    var l, l' := s.ledger, Next(s, e).ledger;
    assert forall f :: 0 <= f < |l| && Open(l', s.r, f) ==> Open(l, s.r, f) && l'[f].job == l[f].job;
  }

  /** No step but a push on the same slot changes that; no condition is asked of the steps. */
  lemma DoomedStep(s: System, e: Event, j: nat)
    requires WellFormed(s) && j < MAX_JOB_QUEUE && Doomed(s, j) && Enabled(s, e) && !Reuses(s, e, j)
    ensures WellFormed(Next(s, e)) && Doomed(Next(s, e), j)
  {
    NextWellFormed(s, e);
    if e.Dispatch? {
      if s.d.Idle? {
        DoomedPop(s, j);
      } else if Books(s, Send) {
        DoomedSend(s, j);
      } else {
        DoomedScan(s, j);
      }
    } else if e.ResultTake? || e.ResultNext? {
      DoomedResult(s, e, j);
    } else {
      DoomedOutside(s, e, j);
    }
  }

  ghost predicate NoReuse(s: System, es: seq<Event>, j: nat)
    requires WellFormed(s) && Run(s, es)
    decreases |es|
  {
    es != [] ==> !Reuses(s, es[0], j) && (NextWellFormed(s, es[0]); NoReuse(Next(s, es[0]), es[1..], j))
  }

  lemma {:induction false} DoomedRun(s: System, es: seq<Event>, j: nat)
    requires WellFormed(s) && j < MAX_JOB_QUEUE && Doomed(s, j) && Run(s, es) && NoReuse(s, es, j)
    ensures WellFormed(After(s, es)) && Doomed(After(s, es), j)
    decreases |es|
  {
    if es != [] {
      DoomedStep(s, es[0], j);
      DoomedRun(Next(s, es[0]), es[1..], j);
    }
  }

  /** A push into a slot with room dooms the job if and only if it asks for no hosts. */
  lemma PushDooms(s: System)
    requires Inv(s) && s.mon.Pushing? && !s.m.IsFull() && NoLap(s)
    ensures WellFormed(PushStep(s)) && (Doomed(PushStep(s), s.m.head) <==> s.mon.job.req <= 0)
  {
    PushWellFormed(s);
    Steps.HeadFree(s);
    Steps.HeadNotMine(s);
  }

  /** A request for no hosts is never finished: in every run from its push, with no condition on
      any step, its slot does not turn FINISHED until another job is pushed on it. */
  lemma EmptyRequestNeverFinishes(s: System, es: seq<Event>)
    requires Inv(s) && s.mon.Pushing? && !s.m.IsFull() && NoLap(s) && s.mon.job.req <= 0
    requires WellFormed(PushStep(s)) && Run(PushStep(s), es) && NoReuse(PushStep(s), es, s.m.head)
    ensures var s' := After(PushStep(s), es);
            WellFormed(s') && !s'.m.jobq[s.m.head].stat.Finished?
  {
    PushDooms(s);
    DoomedRun(PushStep(s), es, s.m.head);
  }

  // ---- served if and only if at least one host is asked for

  lemma {:induction false} NoPushNoReuse(s: System, es: seq<Event>, j: nat)
    requires WellFormed(s) && Run(s, es) && Runs.NoPush(es)
    ensures NoReuse(s, es, j)
    decreases |es|
  {
    if es != [] {
      NextWellFormed(s, es[0]);
      NoPushNoReuse(Next(s, es[0]), es[1..], j);
    }
  }

  lemma {:induction false} DoomedRounds(states: nat -> System, rounds: nat -> seq<Event>, j: nat, k: nat)
    requires j < MAX_JOB_QUEUE && WellFormed(states(0)) && Doomed(states(0), j)
    requires forall i: nat :: RoundTo(states(i), rounds(i), states(i + 1)) && Runs.NoPush(rounds(i))
    ensures WellFormed(states(k)) && Doomed(states(k), j)
  {
    if k > 0 {
      DoomedRounds(states, rounds, j, k - 1);
      assert RoundTo(states(k - 1), rounds(k - 1), states(k - 1 + 1)) && Runs.NoPush(rounds(k - 1));
      NoPushNoReuse(states(k - 1), rounds(k - 1), j);
      DoomedRun(states(k - 1), rounds(k - 1), j);
    }
  }

  /** The job in slot `j` is finished at some point of the run. */
  ghost predicate Served(states: nat -> System, j: nat)
    requires j < MAX_JOB_QUEUE
  {
    exists k :: FinishedIn(states(k), j)
  }

  ghost predicate FinishedIn(s: System, j: nat)
    requires j < MAX_JOB_QUEUE
  {
    WellFormed(s) && s.m.jobq[j].stat.Finished?
  }

  lemma SlotFinished(s: System, t: nat)
    requires Inv(s) && t < |s.submitted| <= t + MAX_JOB_QUEUE
    ensures FinishedIn(s, SlotOf(t)) <==> t in s.finished
    ensures t in s.finished ==> s.submitted[t].req <= s.m.hosts
  {
    assert s.m.jobq[SlotOf(t)].stat == StatOf(|s.popped|, s.finished, t);
  }

  lemma SoundServed(states: nat -> System, rounds: nat -> seq<Event>, t: nat)
    requires Inv(states(0)) && NoLoss(states(0).ledger) && |states(0).submitted| == t + 1
    requires forall i: nat ::
               RoundTo(states(i), rounds(i), states(i + 1)) && Runs.NoPush(rounds(i)) && Guarded(states(i), rounds(i))
    ensures Served(states, SlotOf(t)) <==> states(0).submitted[t].req <= states(0).m.hosts
  {
    var k0 := FairRunsFinish(states, rounds);
    forall k: nat ensures FinishedIn(states(k), SlotOf(t)) ==> states(0).submitted[t].req <= states(0).m.hosts {
      SlotServed(states, rounds, t, k);
    }
    SlotServed(states, rounds, t, k0);
    assert FinishedIn(states(k0), SlotOf(t)) <==> states(0).submitted[t].req <= states(0).m.hosts;
  }

  lemma SlotServed(states: nat -> System, rounds: nat -> seq<Event>, t: nat, k: nat)
    requires Inv(states(0)) && NoLoss(states(0).ledger) && |states(0).submitted| == t + 1
    requires forall i: nat ::
               RoundTo(states(i), rounds(i), states(i + 1)) && Runs.NoPush(rounds(i)) && Guarded(states(i), rounds(i))
    ensures FinishedIn(states(k), SlotOf(t)) <==> t in states(k).finished
    ensures t in states(k).finished ==> states(0).submitted[t].req <= states(0).m.hosts
    ensures states(k).submitted == states(0).submitted && states(k).m.hosts == states(0).m.hosts
  {
    InvRounds(states, rounds, 0, k);
    SlotFinished(states(k), t);
  }

  lemma SoundPush(s: System)
    requires Inv(s) && s.mon.Pushing? && !s.m.IsFull() && NoLap(s) && s.mon.job.req >= 1
    ensures Inv(PushStep(s))
  {
    StepExact(s, SubmitPush);
  }

  /** A job pushed into a slot with room is finished in every endless loss-free run divided into
      rounds, without further pushes, if and only if it asks for at least one host and for no
      more than there are; otherwise it is finished in none. */
  lemma ServedExactly(s: System, states: nat -> System, rounds: nat -> seq<Event>)
    requires Inv(s) && s.mon.Pushing? && !s.m.IsFull() && NoLap(s) && NoLoss(s.ledger)
    requires states(0) == PushStep(s)
    requires forall i: nat ::
               RoundTo(states(i), rounds(i), states(i + 1)) && Runs.NoPush(rounds(i))
               && (s.mon.job.req >= 1 ==> Guarded(states(i), rounds(i)))
    ensures Served(states, s.m.head) <==> 1 <= s.mon.job.req <= s.m.hosts
  {
    if s.mon.job.req >= 1 {
      SoundPush(s);
      SoundServed(states, rounds, |s.submitted|);
    } else {
      PushDooms(s);
      forall k: nat ensures !FinishedIn(states(k), s.m.head) {
        DoomedRounds(states, rounds, s.m.head, k);
      }
    }
  }
}
