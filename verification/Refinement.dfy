/** The loops of class Master, each left alone, are runs of the small steps: what the
    methods do in one go is what the machine's threads reach. */
module Refinement {
  import opened JobQueue
  import opened Machine
  import opened Exactness
  import opened BookingOrder
  import opened MasterTables
  import Hazards

  // ---- a return

  ghost function ReturnDone(s: System, f: nat): System
    requires WellFormed(s) && f < |s.ledger|
  {
    var x := s.ledger[f];
    var s' := SetPhase(s, f, Credited);
    s'.(m := Returned(s.m, x.host, x.job), r := Waiting,
        finished := if s.m.jobnodes[x.job] == 1 then s.finished + [x.ticket] else s.finished)
  }

  /** The result thread, uninterrupted, does to the tables what Master.Return does. */
  lemma ReturnIsRun(s: System, f: nat) returns (es: seq<Event>)
    requires WellFormed(s) && Enabled(s, ResultTake(f)) && !s.mon.Sweeping?
    ensures Reaches(s, es, ReturnDone(s, f))
  {
    var s2 := Hazards.Credit(s, f);
    Hazards.CreditWellFormed(s, f);
    ResultWellFormed(s2);
    var s3 := ResultStep(s2);
    var rest: seq<Event> := [];
    if s3.r.Finishing? {
      ResultWellFormed(s3);
      assert ResultStep(s3) == ReturnDone(s, f);
      StepThen(s3, ResultNext, [], ReturnDone(s, f));
      rest := [ResultNext] + [];
    } else {
      assert s3 == ReturnDone(s, f);
    }
    StepThen(s2, ResultNext, rest, ReturnDone(s, f));
    Hazards.CreditReaches(s, f, [ResultNext] + rest, ReturnDone(s, f));
    es := [ResultTake(f)] + ([ResultNext] + ([ResultNext] + ([ResultNext] + rest)));
  }

  // ---- a dispatch

  /** A booking left alone does to the tables what Master.Launch does, and sends one submit to
      each host it books, in the order booked. */
  lemma LaunchIsRun(s: System) returns (n: nat)
    requires WellFormed(s) && Books(s, Look) && s.d.i == 1 && s.d.k == 1
    ensures var booked := Upto(FreeList(s.m.hosts, s.m.pcstat, 1), s.d.w.need);
            && Run(s, Turns(n))
            && After(s, Turns(n)).m == SetCount(Assigned(s.m, booked, s.d.w.job), s.d.w.job, s.d.w.need)
            && After(s, Turns(n)).ledger == s.ledger + FlightsTo(booked, s.d.w, |s.popped| - 1)
  {
    n := UninterruptedBooking(s);
  }

  // ---- a cancel

  function Sweeps(n: nat): seq<Event> {
    if n == 0 then [] else [CancelNext] + Sweeps(n - 1)
  }

  function CancelsTo(ks: seq<nat>, job: int): seq<CancelMsg> {
    if ks == [] then [] else [CancelMsg(ks[0], job, false)] + CancelsTo(ks[1..], job)
  }

  ghost function SweepDone(s: System, job: int, k: nat): System
    requires WellFormed(s)
  {
    s.(mon := Ready, cancels := s.cancels + CancelsTo(Selected(s.m, job, k), job))
  }

  lemma SweepShifts(s: System, k: nat)
    requires WellFormed(s) && s.mon.Sweeping? && s.mon.node == k <= s.m.hosts && WellFormed(SweepStep(s))
    ensures SweepDone(SweepStep(s), s.mon.target, k + 1) == SweepDone(s, s.mon.target, k)
  {
    var job, rest := s.mon.target, Selected(s.m, s.mon.target, k + 1);
    if s.m.nodesstat[k] == job {
      assert ([k] + rest)[1..] == rest;
    } else {
      assert Selected(s.m, job, k) == rest;
    }
  }

  lemma {:induction false} SweepIsRun(s: System, k: nat)
    requires WellFormed(s) && s.mon.Sweeping? && s.mon.node == k
    ensures Reaches(s, Sweeps(s.m.hosts + 2 - k), SweepDone(s, s.mon.target, k))
    decreases s.m.hosts + 1 - k
  {
    NextWellFormed(s, CancelNext);
    if k > s.m.hosts {
      assert SweepStep(s) == SweepDone(s, s.mon.target, k);
      assert Sweeps(1) == [CancelNext] + [];
      StepThen(s, CancelNext, [], SweepStep(s));
    } else {
      SweepIsRun(SweepStep(s), k + 1);
      SweepShifts(s, k);
      StepThen(s, CancelNext, Sweeps(s.m.hosts + 1 - k), SweepDone(s, s.mon.target, k));
    }
  }

  /** The monitor's sweep, which holds the lock, sends the cancels Master.Cancel lists. */
  lemma CancelIsRun(s: System, job: int)
    requires WellFormed(s) && s.mon.Ready?
    ensures Reaches(s, [CancelStart(job)] + Sweeps(s.m.hosts + 1),
                    s.(cancels := s.cancels + CancelsTo(Selected(s.m, job, 1), job)))
  {
    var goal := s.(cancels := s.cancels + CancelsTo(Selected(s.m, job, 1), job));
    assert SweepDone(Next(s, CancelStart(job)), job, 1) == goal;
    NextWellFormed(s, CancelStart(job));
    SweepIsRun(Next(s, CancelStart(job)), 1);
    StepThen(s, CancelStart(job), Sweeps(s.m.hosts + 1), goal);
  }
}
