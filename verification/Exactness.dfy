/** The main theorem about single steps, and its lift to whole runs. */
module Exactness {
  import opened JobQueue
  import opened Machine
  import opened Invariant
  import Steps
  import DispatchSteps
  import ResultSteps

  lemma BookingExact(s: System)
    requires Base(s) && s.d.Booking?
    ensures Base(DispatchStep(s)) <==> BaseOk(s, Dispatch)
  {
    match s.d.at
    case Look => if s.d.i > s.d.w.need { DispatchSteps.PublishExact(s); } else { DispatchSteps.LookKeeps(s); }
    case Name => DispatchSteps.NameKeeps(s);
    case Take => DispatchSteps.TakeKeeps(s);
    case Send => DispatchSteps.SendKeeps(s);
  }

  lemma DispatchExact(s: System)
    requires Base(s) && Enabled(s, Dispatch)
    ensures Base(DispatchStep(s)) <==> BaseOk(s, Dispatch)
  {
    match s.d
    case Idle => DispatchSteps.PopKeeps(s);
    case Counting(_, _, _) => DispatchSteps.CountKeeps(s);
    case Booking(_, _, _, _) => BookingExact(s);
  }

  lemma PushExact(s: System)
    requires Base(s) && Enabled(s, SubmitPush)
    ensures Base(PushStep(s)) <==> Ok(s, SubmitPush)
  {
    if Ok(s, SubmitPush) {
      Steps.PushKeeps(s);
    } else {
      Steps.PushBreaks(s);
    }
  }

  lemma ResultKeeps(s: System)
    requires Base(s) && Enabled(s, ResultNext)
    ensures Base(ResultStep(s))
  {
    match s.r
    case Freed(_) => ResultSteps.LoadKeeps(s);
    case Loaded(_, _) => ResultSteps.StoreKeeps(s);
    case Counted(f) =>
      if s.m.jobnodes[s.ledger[f].job] == 0 { ResultSteps.CountedLast(s); } else { ResultSteps.CountedMore(s); }
    case Finishing(_) => ResultSteps.FinishingKeeps(s);
  }

  lemma WorkerKeeps(s: System, e: Event, f: nat)
    requires Base(s) && Enabled(s, e)
    requires e == WorkerTake(f) || e == WorkerDone(f) || e == Lose(f) || (e.CancelHit? && e.f == f)
    ensures Base(Next(s, e))
  {
    NextWellFormed(s, e);
    Steps.WorkerKeeps(s, Next(s, e), f);
  }

  lemma OutsideKeeps(s: System, e: Event)
    requires Base(s) && Enabled(s, e)
    requires !e.SubmitPush? && !e.Dispatch? && !e.ResultTake? && !e.ResultNext?
    ensures Base(Next(s, e))
  {
    if e.WorkerTake? || e.WorkerDone? || e.CancelHit? || e.Lose? {
      WorkerKeeps(s, e, e.f);
    } else {
      NextWellFormed(s, e);
      Steps.MonitorKeeps(s, Next(s, e));
    }
  }

  lemma MasterExact(s: System, e: Event)
    requires Base(s) && Enabled(s, e) && (e.SubmitPush? || e.Dispatch?)
    ensures Base(Next(s, e)) <==> BaseOk(s, e)
  {
    if e.SubmitPush? {
      PushExact(s);
    } else {
      DispatchExact(s);
    }
  }

  lemma ReturnKeeps(s: System, e: Event)
    requires Base(s) && Enabled(s, e) && (e.ResultTake? || e.ResultNext?)
    ensures Base(Next(s, e))
  {
    if e.ResultTake? {
      ResultSteps.TakeReturnKeeps(s, e.f);
    } else {
      ResultKeeps(s);
    }
  }

  /** From a state of the wider invariant a step of the program, just as written, leads to one
      again if and only if its condition holds; early counting needs none until the write. */
  lemma BaseExact(s: System, e: Event)
    requires Base(s) && Enabled(s, e)
    ensures Base(Next(s, e)) <==> BaseOk(s, e)
  {
    if e.SubmitPush? || e.Dispatch? {
      MasterExact(s, e);
    } else if e.ResultTake? || e.ResultNext? {
      ReturnKeeps(s, e);
    } else {
      OutsideKeeps(s, e);
    }
  }

  lemma DispatchOwesNothing(s: System)
    requires WellFormed(s) && NoDebt(s) && Enabled(s, Dispatch) && WellFormed(DispatchStep(s))
    requires WindowInv(DispatchStep(s).d, DispatchStep(s).m.jobnodes, DispatchStep(s).ledger, DispatchStep(s).r,
                       |DispatchStep(s).popped|)
    requires DispatchStep(s).d.Counting? ==> |Sent(DispatchStep(s).ledger, |DispatchStep(s).popped| - 1)| == 0
    ensures NoDebt(DispatchStep(s))
  {
  }

  lemma DispatchDebt(s: System)
    requires Base(s) && NoDebt(s) && Enabled(s, Dispatch) && Base(DispatchStep(s))
    ensures NoDebt(DispatchStep(s))
  {
    DispatchOwesNothing(s);
  }

  lemma OthersOweNothing(s: System, e: Event)
    requires WellFormed(s) && NoDebt(s) && Enabled(s, e) && WellFormed(Next(s, e))
    requires !e.Dispatch? && !(e.ResultNext? && s.r.Freed?)
    ensures NoDebt(Next(s, e))
  {
  }

  /** A debt arises only by an early count. */
  lemma DebtArises(s: System, e: Event)
    requires Base(s) && NoDebt(s) && Enabled(s, e) && Base(Next(s, e))
    ensures NoDebt(Next(s, e)) <==> !Early(s, e)
  {
    if e.Dispatch? {
      DispatchDebt(s);
    } else if e.ResultNext? && s.r.Freed? {
      ResultSteps.LoadDebt(s);
    } else {
      OthersOweNothing(s, e);
    }
  }

  /** From a state of the invariant a step of the program, just as written, leads to a
      state of the invariant if and only if its condition holds. */
  lemma StepExact(s: System, e: Event)
    requires Inv(s) && Enabled(s, e)
    ensures Inv(Next(s, e)) <==> Ok(s, e)
  {
    BaseExact(s, e);
    if BaseOk(s, e) {
      DebtArises(s, e);
    }
  }

  // ---- runs

  /** `es` can be executed from `s`. */
  ghost predicate Run(s: System, es: seq<Event>)
    requires WellFormed(s)
    decreases |es|
  {
    es != [] ==> Enabled(s, es[0]) && (NextWellFormed(s, es[0]); Run(Next(s, es[0]), es[1..]))
  }

  ghost function After(s: System, es: seq<Event>): System
    requires WellFormed(s) && Run(s, es)
    decreases |es|
  {
    if es == [] then s else NextWellFormed(s, es[0]); After(Next(s, es[0]), es[1..])
  }

  /** The run is possible and leads to `s'`. */
  ghost predicate Reaches(s: System, es: seq<Event>, s': System)
    requires WellFormed(s)
  {
    Run(s, es) && WellFormed(After(s, es)) && After(s, es) == s'
  }

  lemma StepThen(s: System, e: Event, rest: seq<Event>, s': System)
    requires WellFormed(s) && Enabled(s, e) && WellFormed(Next(s, e)) && Reaches(Next(s, e), rest, s')
    ensures Reaches(s, [e] + rest, s')
  {
    assert ([e] + rest)[1..] == rest;
  }

  lemma {:induction false} ReachThen(s: System, es: seq<Event>, mid: System, fs: seq<Event>, s': System)
    requires WellFormed(s) && Reaches(s, es, mid) && Reaches(mid, fs, s')
    ensures Reaches(s, es + fs, s')
    decreases |es|
  {
    if es == [] {
      assert [] + fs == fs;
    } else {
      NextWellFormed(s, es[0]);
      ReachThen(Next(s, es[0]), es[1..], mid, fs, s');
      StepThen(s, es[0], es[1..] + fs, s');
      assert es + fs == [es[0]] + (es[1..] + fs);
    }
  }

  /** Every step of the run meets its condition. */
  ghost predicate Guarded(s: System, es: seq<Event>)
    requires WellFormed(s) && Run(s, es)
    decreases |es|
  {
    es != [] ==> Ok(s, es[0]) && (NextWellFormed(s, es[0]); Guarded(Next(s, es[0]), es[1..]))
  }

  /** Whatever the callers do, every state of every run is well formed. */
  lemma {:induction false} RunWellFormed(s: System, es: seq<Event>)
    requires WellFormed(s) && Run(s, es)
    ensures WellFormed(After(s, es))
    decreases |es|
  {
    if es != [] {
      NextWellFormed(s, es[0]);
      RunWellFormed(Next(s, es[0]), es[1..]);
    }
  }

  lemma {:induction false} RunKeepsHosts(s: System, es: seq<Event>)
    requires WellFormed(s) && Run(s, es)
    ensures After(s, es).m.hosts == s.m.hosts
    decreases |es|
  {
    if es != [] {
      NextWellFormed(s, es[0]);
      RunKeepsHosts(Next(s, es[0]), es[1..]);
    }
  }

  /** Every guarded run, of any length and interleaving, keeps the invariant. */
  lemma {:induction false} RunSafe(s: System, es: seq<Event>)
    requires Inv(s) && Run(s, es) && Guarded(s, es)
    ensures Inv(After(s, es))
    decreases |es|
  {
    if es != [] {
      StepExact(s, es[0]);
      RunSafe(Next(s, es[0]), es[1..]);
    }
  }

  lemma MasterRunSafe(hosts: nat, resets: bool, es: seq<Event>)
    requires hosts < MAX_NUM_HOSTS && Run(Init(hosts, resets), es) && Guarded(Init(hosts, resets), es)
    ensures Inv(After(Init(hosts, resets), es))
  {
    InitInv(hosts, resets);
    RunSafe(Init(hosts, resets), es);
  }
}
